/**
 * Template rendering: the ingest renderer (internal/ingest/pipeline.go) and the
 * notification renderer (internal/rules/matcher.go). Both rewrite the text once per
 * field, in the order in which Go happens to iterate a map.
 */
module Templates {
  import opened Common
  import opened Strings

  // ---- strings.ReplaceAll ---------------------------------------------------

  /** Leftmost, non-overlapping replacement of a non-empty pattern. */
  function ReplaceAll(s: string, pattern: string, value: string): string
    requires pattern != []
  {
    if s == [] then []
    else if pattern <= s then value + ReplaceAll(s[|pattern|..], pattern, value)
    else [s[0]] + ReplaceAll(s[1..], pattern, value)
  }

  function Token(name: string): string { "{" + name + "}" }

  /** One ReplaceAll per field, in the given order. */
  function ReplaceEach(s: string, fields: seq<(string, string)>): string {
    if fields == [] then s
    else
      var last := fields[|fields| - 1];
      ReplaceAll(ReplaceEach(s, fields[..|fields| - 1]), Token(last.0), last.1)
  }

  // ---- The parts of a template ------------------------------------------------

  /** Plain text, tokens, and at most one last opening brace that is never closed. */
  datatype Template =
    | End
    | Plain(text: string, rest: Template)
    | Field(name: string, rest: Template)
    | Open(text: string)

  function Show(t: Template): string {
    match t
    case End => []
    case Plain(text, rest) => text + Show(rest)
    case Field(name, rest) => Token(name) + Show(rest)
    case Open(text) => "{" + text
  }

  /** Text without an opening brace, names without braces. */
  predicate Clean(t: Template) {
    match t
    case End => true
    case Plain(text, rest) => Free(text, '{') && Clean(rest)
    case Field(name, rest) => Free(name, '{') && Free(name, '}') && Clean(rest)
    case Open(text) => Free(text, '{') && Free(text, '}')
  }

  /** All tokens replaced at once. */
  function Substitute(t: Template, fields: map<string, string>): Template {
    match t
    case End => End
    case Plain(text, rest) => Plain(text, Substitute(rest, fields))
    case Field(name, rest) =>
      if name in fields then Plain(fields[name], Substitute(rest, fields)) else Field(name, Substitute(rest, fields))
    case Open(text) => Open(text)
  }

  predicate Resolved(t: Template) {
    match t
    case End => true
    case Plain(_, rest) => Resolved(rest)
    case _ => false
  }

  /** A token opened at position i holds no further opening brace before the next closing one. */
  predicate OpensCleanly(s: string, i: nat)
    requires i < |s|
  {
    s[i] == '{' ==> Free(s[i + 1..IndexFrom(s, '}', i + 1)], '{')
  }

  /** No opening brace inside an open token. */
  predicate NoNestedBraces(s: string) {
    forall i | 0 <= i < |s| :: OpensCleanly(s, i)
  }

  /** The parts of a template. */
  function Parse(s: string): Template { ParseFrom(s, 0) }

  function ParseFrom(s: string, from: nat): Template
    requires from <= |s|
    decreases |s| - from
  {
    var i := IndexFrom(s, '{', from);
    if i == |s| then Plain(s[from..i], End)
    else
      var n := IndexFrom(s, '}', i + 1);
      if n == |s| then Plain(s[from..i], Open(s[i + 1..n]))
      else Plain(s[from..i], Field(s[i + 1..n], ParseFrom(s, n + 1)))
  }

  /** Showing the parts gives the template back. */
  lemma ParseShows(s: string)
    ensures Show(Parse(s)) == s
  {
    ParseFromShows(s, 0);
  }

  lemma {:induction false} ParseFromShows(s: string, from: nat)
    requires from <= |s|
    ensures Show(ParseFrom(s, from)) == s[from..]
    decreases |s| - from
  {
    hide Show, ParseFrom;
    var i := IndexFrom(s, '{', from);
    if i == |s| {
      ShowText(s, from);
    } else {
      var n := IndexFrom(s, '}', i + 1);
      if n < |s| {
        ParseFromShows(s, n + 1);
      }
      ShowRest(s, from, i, n);
    }
  }

  lemma ShowRest(s: string, from: nat, i: nat, n: nat)
    requires from <= |s| && i == IndexFrom(s, '{', from) < |s| && n == IndexFrom(s, '}', i + 1)
    requires n < |s| ==> Show(ParseFrom(s, n + 1)) == s[n + 1..]
    ensures Show(ParseFrom(s, from)) == s[from..]
  {
    if n == |s| {
      ShowOpen(s, from, i);
    } else {
      ShowToken(s, from, i, n);
    }
  }

  lemma ShowText(s: string, from: nat)
    requires from <= |s| && IndexFrom(s, '{', from) == |s|
    ensures Show(ParseFrom(s, from)) == s[from..]
  {
    assert ParseFrom(s, from) == Plain(s[from..|s|], End);
  }

  lemma ShowOpen(s: string, from: nat, i: nat)
    requires from <= |s| && i == IndexFrom(s, '{', from) < |s| && IndexFrom(s, '}', i + 1) == |s|
    ensures Show(ParseFrom(s, from)) == s[from..]
  {
    assert ParseFrom(s, from) == Plain(s[from..i], Open(s[i + 1..|s|]));
    OpenAt(s, from, i);
  }

  lemma ShowToken(s: string, from: nat, i: nat, n: nat)
    requires from <= |s| && i == IndexFrom(s, '{', from) < |s| && n == IndexFrom(s, '}', i + 1) < |s|
    requires Show(ParseFrom(s, n + 1)) == s[n + 1..]
    ensures Show(ParseFrom(s, from)) == s[from..]
  {
    var rest := ParseFrom(s, n + 1);
    assert ParseFrom(s, from) == Plain(s[from..i], Field(s[i + 1..n], rest));
    assert Show(Plain(s[from..i], Field(s[i + 1..n], rest))) == s[from..i] + (Token(s[i + 1..n]) + s[n + 1..]);
    TokenAt(s, from, i, n);
  }

  lemma OpenAt(s: string, from: nat, i: nat)
    requires from <= i < |s| && s[i] == '{'
    ensures s[from..i] + ("{" + s[i + 1..|s|]) == s[from..]
  {
  }

  lemma TokenAt(s: string, from: nat, i: nat, n: nat)
    requires from <= i < n < |s| && s[i] == '{' && s[n] == '}'
    ensures s[from..i] + (Token(s[i + 1..n]) + s[n + 1..]) == s[from..]
  {
  }

  lemma ParseIsClean(s: string)
    requires NoNestedBraces(s)
    ensures Clean(Parse(s))
  {
    ParseFromIsClean(s, 0);
  }

  lemma {:induction false} ParseFromIsClean(s: string, from: nat)
    requires NoNestedBraces(s) && from <= |s|
    ensures Clean(ParseFrom(s, from))
    decreases |s| - from
  {
    hide IndexFrom;
    var i := IndexFrom(s, '{', from);
    FreeSlice(s, from, i, '{');
    if i < |s| {
      var n := IndexFrom(s, '}', i + 1);
      FreeSlice(s, i + 1, n, '}');
      assert OpensCleanly(s, i);
      if n < |s| {
        ParseFromIsClean(s, n + 1);
      }
    }
  }

  lemma FreeSlice(s: string, a: nat, b: nat, c: char)
    requires a <= b <= |s| && forall k | a <= k < b :: s[k] != c
    ensures Free(s[a..b], c)
  {
  }

  // ---- One replacement --------------------------------------------------------

  lemma {:induction false} SkipText(text: string, rest: string, pattern: string, value: string)
    requires Free(text, '{') && pattern != [] && pattern[0] == '{'
    ensures ReplaceAll(text + rest, pattern, value) == text + ReplaceAll(rest, pattern, value)
  {
    var s := text + rest;
    if text == [] {
      assert s == rest;
    } else {
      assert s[0] == text[0];
      assert s[1..] == text[1..] + rest;
      SkipText(text[1..], rest, pattern, value);
    }
  }

  /** A token is matched by its own pattern only. */
  lemma TokenMatches(name: string, rest: string, key: string)
    requires Free(name, '}') && Free(key, '}')
    ensures Token(key) <= Token(name) + rest <==> key == name
  {
    var s, p := Token(name) + rest, Token(key);
    assert forall i | 0 < i <= |name| :: s[i] == name[i - 1];
    assert forall i | 0 < i <= |key| :: p[i] == key[i - 1];
    assert s[1 + |name|] == '}' && p[1 + |key|] == '}';
    if key == name {
      assert s[..|p|] == p;
    }
    if p <= s {
      assert forall i | 0 <= i < |p| :: p[i] == s[i];
      assert |key| == |name|;
      assert key == p[1..1 + |key|] == s[1..1 + |name|] == name;
    }
  }

  lemma ReplaceToken(name: string, rest: string, key: string, value: string)
    requires Free(name, '{') && Free(name, '}') && Free(key, '}')
    ensures ReplaceAll(Token(name) + rest, Token(key), value)
            == (if name == key then value else Token(name)) + ReplaceAll(rest, Token(key), value)
  {
    var s := Token(name) + rest;
    TokenMatches(name, rest, key);
    if name == key {
      assert s[|Token(key)|..] == rest;
    } else {
      var body := name + "}";
      assert s[1..] == body + rest;
      SkipText(body, rest, Token(key), value);
      assert Token(name) == ['{'] + body;
    }
  }

  lemma ReplaceOpen(text: string, key: string, value: string)
    requires Free(text, '{') && Free(text, '}')
    ensures ReplaceAll("{" + text, Token(key), value) == "{" + text
  {
    var s, p := "{" + text, Token(key);
    assert forall i | 0 < i < |s| :: s[i] == text[i - 1];
    assert p[|p| - 1] == '}';
    assert s[1..] == text;
    assert text + [] == text;
    SkipText(text, [], p, value);
  }

  /** Replacing one token in the text is substituting that field in the parts. */
  lemma {:induction false} ReplaceOne(t: Template, key: string, value: string)
    requires Clean(t) && Free(key, '}') && Free(value, '{')
    ensures ReplaceAll(Show(t), Token(key), value) == Show(Substitute(t, map[key := value]))
    ensures Clean(Substitute(t, map[key := value]))
  {
    match t
    case End =>
    case Plain(text, rest) =>
      SkipText(text, Show(rest), Token(key), value);
      ReplaceOne(rest, key, value);
    case Field(name, rest) =>
      ReplaceToken(name, Show(rest), key, value);
      ReplaceOne(rest, key, value);
    case Open(text) => ReplaceOpen(text, key, value);
  }

  // ---- Any order ------------------------------------------------------------

  /** The field values in effect: the first replacement of a token wins. */
  function FirstWins(fields: seq<(string, string)>): map<string, string> {
    if fields == [] then map[]
    else
      var m, last := FirstWins(fields[..|fields| - 1]), fields[|fields| - 1];
      if last.0 in m then m else m[last.0 := last.1]
  }

  predicate BraceFree(fields: seq<(string, string)>) {
    forall f | f in fields :: Free(f.0, '}') && Free(f.1, '{')
  }

  /** Successive replacements in any order amount to one simultaneous substitution. */
  lemma {:induction false} ReplaceEachIsSubstitution(t: Template, fields: seq<(string, string)>)
    requires Clean(t) && BraceFree(fields)
    ensures ReplaceEach(Show(t), fields) == Show(Substitute(t, FirstWins(fields)))
    ensures Clean(Substitute(t, FirstWins(fields)))
  {
    if fields == [] {
      SubstituteNothing(t);
    } else {
      var front, last := fields[..|fields| - 1], fields[|fields| - 1];
      assert last in fields && forall f | f in front :: f in fields;
      ReplaceEachIsSubstitution(t, front);
      ReplaceOne(Substitute(t, FirstWins(front)), last.0, last.1);
      SubstituteTwice(t, FirstWins(front), last.0, last.1);
    }
  }

  lemma SubstituteNothing(t: Template)
    ensures Substitute(t, map[]) == t
  {
  }

  /** A token substituted once is gone, so a later value for it has no effect. */
  lemma {:induction false} SubstituteTwice(t: Template, m: map<string, string>, key: string, value: string)
    ensures Substitute(Substitute(t, m), map[key := value]) == Substitute(t, if key in m then m else m[key := value])
  {
    match t
    case End =>
    case Plain(_, rest) => SubstituteTwice(rest, m, key, value);
    case Field(_, rest) => SubstituteTwice(rest, m, key, value);
    case Open(_) =>
  }

  /** Every order of the same fields gives the same text. */
  lemma Confluence(s: string, some: seq<(string, string)>, other: seq<(string, string)>)
    requires NoNestedBraces(s) && BraceFree(some) && BraceFree(other)
    requires FirstWins(some) == FirstWins(other)
    ensures ReplaceEach(s, some) == ReplaceEach(s, other) == Show(Substitute(Parse(s), FirstWins(some)))
  {
    ParseShows(s);
    ParseIsClean(s);
    ReplaceEachIsSubstitution(Parse(s), some);
    ReplaceEachIsSubstitution(Parse(s), other);
  }

  /** A clean text shows an opening brace exactly when a token is left. */
  lemma {:induction false} BraceMeansUnresolved(t: Template)
    requires Clean(t)
    ensures '{' in Show(t) <==> !Resolved(t)
  {
    match t
    case End =>
    case Plain(_, rest) => BraceMeansUnresolved(rest);
    case Field(_, rest) => assert Show(t)[0] == '{';
    case Open(_) => assert Show(t)[0] == '{';
  }

  /** Without the brace condition the order shows: a value that spells a token is or is not replaced in turn. */
  lemma OrderShowsInGeneral(a: string, b: string, value: string)
    requires a != b && Free(a, '{') && Free(a, '}') && Free(b, '{') && Free(b, '}')
    ensures ReplaceEach(Token(a), [(a, Token(b)), (b, value)]) == value
    ensures ReplaceEach(Token(a), [(b, value), (a, Token(b))]) == Token(b)
  {
    ReplaceTwo(Token(a), (a, Token(b)), (b, value));
    ReplaceTwo(Token(a), (b, value), (a, Token(b)));
    ReplaceWhole(a, a, Token(b));
    ReplaceWhole(b, b, value);
    ReplaceWhole(a, b, value);
  }

  /** How often the pattern is replaced. */
  function Occurrences(s: string, pattern: string): nat
    requires pattern != []
  {
    if s == [] then 0
    else if pattern <= s then 1 + Occurrences(s[|pattern|..], pattern)
    else Occurrences(s[1..], pattern)
  }

  lemma {:induction false} ReplacedLength(s: string, pattern: string, value: string)
    requires pattern != []
    ensures |ReplaceAll(s, pattern, value)| == |s| + Occurrences(s, pattern) * (|value| - |pattern|)
    ensures Occurrences(s, pattern) == 0 <==> !Contains(s, pattern)
  {
    if s != [] {
      if pattern <= s {
        var rest := s[|pattern|..];
        ReplacedLength(rest, pattern, value);
        assert (1 + Occurrences(rest, pattern)) * (|value| - |pattern|)
            == (|value| - |pattern|) + Occurrences(rest, pattern) * (|value| - |pattern|);
      } else {
        ReplacedLength(s[1..], pattern, value);
      }
    }
  }

  lemma {:induction false} ReplacedAlike(s: string, pattern: string, value: string)
    requires pattern != [] && |value| == |pattern|
    ensures ReplaceAll(s, pattern, value) == s <==> !Contains(s, pattern) || value == pattern
  {
    if s != [] {
      if pattern <= s {
        var n := |pattern|;
        ReplacedAlike(s[n..], pattern, value);
        assert s == s[..n] + s[n..] && s[..n] == pattern;
        assert ReplaceAll(s, pattern, value)[..n] == value;
      } else {
        ReplacedAlike(s[1..], pattern, value);
        assert s == [s[0]] + s[1..];
        assert ReplaceAll(s, pattern, value)[1..] == ReplaceAll(s[1..], pattern, value);
      }
    }
  }

  /** Replacing changes a text exactly if the pattern occurs and is not replaced by itself. */
  lemma ReplaceKeepsIff(s: string, pattern: string, value: string)
    requires pattern != []
    ensures ReplaceAll(s, pattern, value) == s <==> !Contains(s, pattern) || value == pattern
  {
    if |value| == |pattern| {
      ReplacedAlike(s, pattern, value);
    } else {
      ReplacedLength(s, pattern, value);
      var d := |value| - |pattern|;
      assert d != 0 && (Occurrences(s, pattern) * d == 0 <==> Occurrences(s, pattern) == 0);
      ReplacedLengthZero(s, pattern, value);
    }
  }

  lemma {:induction false} ReplacedLengthZero(s: string, pattern: string, value: string)
    requires pattern != []
    ensures !Contains(s, pattern) ==> ReplaceAll(s, pattern, value) == s
  {
    if s != [] && !(pattern <= s) {
      ReplacedLengthZero(s[1..], pattern, value);
      assert s == [s[0]] + s[1..];
    }
  }

  /**
   * For any two fields and any values: the two orders give the same text of the first
   * field's token exactly if its value does not hold the second field's token, or that
   * token stands for itself.
   */
  lemma OrderShowsIff(a: string, b: string, v: string, w: string)
    requires a != b && Free(a, '{') && Free(a, '}') && Free(b, '{') && Free(b, '}')
    ensures ReplaceEach(Token(a), [(a, v), (b, w)]) == ReplaceEach(Token(a), [(b, w), (a, v)])
       <==> !Contains(v, Token(b)) || w == Token(b)
  {
    ReplaceTwo(Token(a), (a, v), (b, w));
    ReplaceTwo(Token(a), (b, w), (a, v));
    ReplaceWhole(a, a, v);
    ReplaceWhole(a, b, w);
    ReplaceKeepsIff(v, Token(b), w);
  }

  lemma ReplaceTwo(s: string, f: (string, string), g: (string, string))
    ensures ReplaceEach(s, [f, g]) == ReplaceAll(ReplaceAll(s, Token(f.0), f.1), Token(g.0), g.1)
  {
    Snoc(s, [], f);
    Snoc(s, [f], g);
    assert [] + [f] == [f] && [f] + [g] == [f, g];
  }

  lemma ReplaceWhole(name: string, key: string, value: string)
    requires Free(name, '{') && Free(name, '}') && Free(key, '}')
    ensures ReplaceAll(Token(name), Token(key), value) == if name == key then value else Token(name)
  {
    ReplaceToken(name, [], key, value);
    assert Token(name) + [] == Token(name) && value + [] == value;
  }

  // ---- The renderers --------------------------------------------------------

  const DEFAULT_TITLE := "Event received"

  predicate CleanFields(fields: map<string, string>) {
    forall k | k in fields :: Free(k, '}') && Free(fields[k], '{')
  }

  /** What the ingest renderer returns, without reference to any order. */
  function IngestTitle(tmpl: string, fields: map<string, string>): string {
    var t := Substitute(Parse(tmpl), fields);
    if tmpl == "" then DEFAULT_TITLE
    else if Resolved(t) then Show(t)
    else if "event_type" in fields && fields["event_type"] != "" then fields["event_type"]
    else DEFAULT_TITLE
  }

  /** The fields in some order of iteration, each once. */
  ghost predicate IterationOf(order: seq<(string, string)>, fields: map<string, string>) {
    FirstWins(order) == fields && forall f | f in order :: f.0 in fields && fields[f.0] == f.1
  }

  /** Rewrites the template once per field, in map order. */
  method ReplaceFields(start: string, fields: map<string, string>) returns (result: string, ghost order: seq<(string, string)>)
    ensures IterationOf(order, fields) && result == ReplaceEach(start, order)
  {
    result, order := start, [];
    var keys := fields.Keys;
    while keys != {}
      invariant keys <= fields.Keys && FirstWins(order).Keys == fields.Keys - keys
      invariant forall k :: k in FirstWins(order) ==> FirstWins(order)[k] == fields[k]
      invariant forall f | f in order :: f.0 in fields && fields[f.0] == f.1
      invariant result == ReplaceEach(start, order)
      decreases keys
    {
      var k :| k in keys;
      keys := keys - {k};
      result := ReplaceAll(result, Token(k), fields[k]);
      ghost var longer := order + [(k, fields[k])];
      assert longer[..|longer| - 1] == order;
      order := longer;
    }
  }

  lemma IngestOutcome(tmpl: string, fields: map<string, string>, order: seq<(string, string)>)
    requires NoNestedBraces(tmpl) && CleanFields(fields) && IterationOf(order, fields)
    ensures '{' !in IngestTitle(tmpl, fields)
    ensures tmpl != "" ==>
              var result := ReplaceEach(tmpl, order);
              IngestTitle(tmpl, fields) ==
                if '{' !in result then result
                else if "event_type" in fields && fields["event_type"] != "" then fields["event_type"]
                else "Event received"
  {
    ParseShows(tmpl);
    ParseIsClean(tmpl);
    ReplaceEachIsSubstitution(Parse(tmpl), order);
    BraceMeansUnresolved(Substitute(Parse(tmpl), fields));
  }

  /** One token in plain text is replaced by its field's value, and text without a brace is shown as it is. */
  lemma OneTokenRendered(before: string, key: string, value: string, after: string)
    requires Free(before, '{') && Free(after, '{') && Free(value, '{') && Free(key, '{') && Free(key, '}')
    ensures IngestTitle(before + "{" + key + "}" + after, map[key := value]) == before + value + after
    ensures before != "" ==> IngestTitle(before, map[key := value]) == before
  {
    hide NoNestedBraces, IngestTitle;
    var tmpl, order, pattern := before + "{" + key + "}" + after, [(key, value)], Token(key);
    assert tmpl == before + (Token(key) + after);
    assert order[..0] == [] && FirstWins(order) == map[key := value];
    SkipText(before, Token(key) + after, pattern, value);
    ReplaceToken(key, after, key, value);
    SkipText(after, "", pattern, value);
    SkipText(before, "", pattern, value);
    assert after + "" == after && before + "" == before;
    assert ReplaceEach(tmpl, order) == before + (value + after) && ReplaceEach(before, order) == before;
    OpensOnce(before, key, after);
    IngestOutcome(tmpl, map[key := value], order);
    if before != "" {
      IngestOutcome(before, map[key := value], order);
    }
  }

  lemma OpensOnce(before: string, key: string, after: string)
    requires Free(before, '{') && Free(after, '{') && Free(key, '{') && Free(key, '}')
    ensures NoNestedBraces(before + "{" + key + "}" + after) && NoNestedBraces(before)
  {
    var s, i := before + "{" + key + "}" + after, |before|;
    assert s[i] == '{' && s[i + 1 + |key|] == '}';
    assert forall k | i < k < i + 1 + |key| :: s[k] == key[k - i - 1];
    assert IndexFrom(s, '}', i + 1) == i + 1 + |key|;
    assert forall k | 0 <= k < |s| && k != i :: s[k] != '{';
  }

  /**
   * The ingest renderer. For clean fields its result does not depend on the order, holds
   * no opening brace, and is the fallback exactly when some token has no field.
   */
  method RenderIngest(tmpl: string, fields: map<string, string>) returns (title: string)
    ensures NoNestedBraces(tmpl) && CleanFields(fields) ==> title == IngestTitle(tmpl, fields) && '{' !in title
    ensures tmpl == "" ==> title == "Event received"
    ensures '{' in title ==> "event_type" in fields && title == fields["event_type"]
  {
    if tmpl == "" {
      return DEFAULT_TITLE;
    }
    var result;
    ghost var order;
    result, order := ReplaceFields(tmpl, fields);
    if NoNestedBraces(tmpl) && CleanFields(fields) {
      IngestOutcome(tmpl, fields, order);
    }
    if '{' in result {
      if "event_type" in fields && fields["event_type"] != "" {
        return fields["event_type"];
      }
      return DEFAULT_TITLE;
    }
    title := result;
  }

  function BuiltIns(title: string, level: string, sourceName: string): map<string, string> {
    map["display_text" := title, "severity" := level, "source_name" := sourceName]
  }

  /** The notification renderer: three built-in tokens first, then the payload keys. */
  method RenderNotification(tmpl: string, title: string, level: string, sourceName: string, payload: map<string, string>)
    returns (text: string)
    ensures var fields := payload + BuiltIns(title, level, sourceName);
            NoNestedBraces(tmpl) && CleanFields(payload) && CleanFields(BuiltIns(title, level, sourceName))
            ==> text == Show(Substitute(Parse(tmpl), fields))
  {
    var result := tmpl;
    result := ReplaceAll(result, Token("display_text"), title);
    result := ReplaceAll(result, Token("severity"), level);
    result := ReplaceAll(result, Token("source_name"), sourceName);
    ghost var first := [("display_text", title), ("severity", level), ("source_name", sourceName)];
    BuiltInsFirst(tmpl, title, level, sourceName);
    ghost var order;
    text, order := ReplaceFields(result, payload);
    ghost var clean := NoNestedBraces(tmpl) && CleanFields(payload) && CleanFields(BuiltIns(title, level, sourceName));
    if clean {
      ReplaceEachConcat(tmpl, first, order);
      FirstWinsConcat(first, order);
      CleanBuiltIns(title, level, sourceName);
      ParseShows(tmpl);
      ParseIsClean(tmpl);
      ReplaceEachIsSubstitution(Parse(tmpl), first + order);
    }
  }

  lemma BuiltInsFirst(s: string, title: string, level: string, sourceName: string)
    ensures var first := [("display_text", title), ("severity", level), ("source_name", sourceName)];
            && ReplaceEach(s, first)
               == ReplaceAll(ReplaceAll(ReplaceAll(s, Token("display_text"), title), Token("severity"), level),
                             Token("source_name"), sourceName)
            && FirstWins(first) == BuiltIns(title, level, sourceName)
  {
    var a, b, c := ("display_text", title), ("severity", level), ("source_name", sourceName);
    Snoc(s, [], a);
    Snoc(s, [a], b);
    Snoc(s, [a, b], c);
    assert [] + [a] == [a] && [a] + [b] == [a, b] && [a, b] + [c] == [a, b, c];
    assert FirstWins([a]) == map["display_text" := title];
    assert FirstWins([a, b]) == map["display_text" := title, "severity" := level];
  }

  lemma Snoc(s: string, fields: seq<(string, string)>, last: (string, string))
    ensures ReplaceEach(s, fields + [last]) == ReplaceAll(ReplaceEach(s, fields), Token(last.0), last.1)
    ensures FirstWins(fields + [last]) ==
            if last.0 in FirstWins(fields) then FirstWins(fields) else FirstWins(fields)[last.0 := last.1]
  {
  }

  lemma CleanBuiltIns(title: string, level: string, sourceName: string)
    requires CleanFields(BuiltIns(title, level, sourceName))
    ensures BraceFree([("display_text", title), ("severity", level), ("source_name", sourceName)])
  {
  }

  lemma {:induction false} ReplaceEachConcat(s: string, a: seq<(string, string)>, b: seq<(string, string)>)
    ensures ReplaceEach(s, a + b) == ReplaceEach(ReplaceEach(s, a), b)
  {
    if b == [] {
      assert a + b == a;
    } else {
      assert (a + b)[..|a + b| - 1] == a + b[..|b| - 1];
      ReplaceEachConcat(s, a, b[..|b| - 1]);
    }
  }

  lemma {:induction false} FirstWinsConcat(a: seq<(string, string)>, b: seq<(string, string)>)
    ensures FirstWins(a + b) == FirstWins(b) + FirstWins(a)
  {
    if b == [] {
      assert a + b == a;
    } else {
      assert (a + b)[..|a + b| - 1] == a + b[..|b| - 1];
      FirstWinsConcat(a, b[..|b| - 1]);
    }
  }
}
