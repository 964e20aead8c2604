/**
 * JSONPath evaluation (internal/ingest/pipeline.go; internal/apptemplate/apptemplate.go
 * holds a second copy of the same text): dot notation and array indices, a subset of
 * section 2.5.1 of RFC 9535.
 */
module JsonPath {
  import opened Common
  import opened Decimal
  import opened Strings

  const MAX_INT: nat := 0x7FFF_FFFF_FFFF_FFFF

  /** A decoded JSON value. A Go slice holds at most MAX_INT elements. */
  datatype Json =
    | Null
    | Boolean(value: bool)
    | Number(text: string)
    | Str(text: string)
    | Arr(items: seq<Json>)
    | Obj(fields: map<string, Json>)

  // ---- Strings --------------------------------------------------------------

  function TrimPrefix(s: string, prefix: string): string {
    if prefix <= s then s[|prefix|..] else s
  }

  /** strconv.Atoi on digits, its range error ignored: the result is capped. */
  function Atoi(digits: string): nat
    requires AllDigits(digits)
  {
    if Value(digits) <= MAX_INT then Value(digits) else MAX_INT
  }

  /** The regular expression ^([^\\[]+)\\[(\\d+)\\]$ : a key and the digits of an index. */
  function MatchIndex(segment: string): Option<(string, string)> {
    var n := IndexOf(segment, '[');
    if 0 < n < |segment| - 2 && segment[|segment| - 1] == ']' && AllDigits(segment[n + 1..|segment| - 1])
    then Some((segment[..n], segment[n + 1..|segment| - 1])) else None
  }

  /** An index is a key that is not empty, and digits in brackets. */
  lemma MatchIndexIff(segment: string, key: string, digits: string)
    requires Free(key, '[') && Free(digits, '[')
    ensures segment == key + "[" + digits + "]" ==>
              MatchIndex(segment) == if key != "" && digits != "" && AllDigits(digits) then Some((key, digits)) else None
    ensures MatchIndex(segment) == Some((key, digits)) ==> segment == key + "[" + digits + "]"
  {
    if segment == key + "[" + digits + "]" {
      assert segment[|key|] == '[';
      IndexOfIs(segment, '[', |key|);
      assert segment[..|key|] == key && segment[|key| + 1..|segment| - 1] == digits;
    }
  }

  // ---- jsonPathGet ------------------------------------------------------------

  /** The text of a value; `marshal` stands for json.Marshal. */
  function ToString(v: Json, marshal: Json -> string): string {
    match v
    case Null => ""
    case Str(text) => text
    case _ => marshal(v)
  }

  /** The child a segment selects. */
  function Child(v: Json, segment: string): Option<Json> {
    var indexed := MatchIndex(segment);
    if !v.Obj? then None
    else if indexed.Some? then
      var (key, digits) := indexed.value;
      assert AllDigits(digits);
      if key in v.fields && v.fields[key].Arr? && Atoi(digits) < |v.fields[key].items|
      then Some(v.fields[key].items[Atoi(digits)]) else None
    else if segment in v.fields then Some(v.fields[segment]) else None
  }

  /** Every call strips a root prefix, the recursive ones too. */
  function Trim(path: string): string { TrimPrefix(TrimPrefix(path, "$."), "$") }

  function Get(v: Json, path: string, marshal: Json -> string): Option<string>
    decreases |path|
  {
    var trimmed := Trim(path);
    if trimmed == "" then Some(ToString(v, marshal))
    else
      var n := IndexOf(trimmed, '.');
      var segment, rest := trimmed[..n], if n < |trimmed| then trimmed[n + 1..] else "";
      var child := Child(v, segment);
      if child.None? then None
      else if rest == "" then Some(ToString(child.value, marshal))
      else Get(child.value, rest, marshal)
  }

  // ---- Structural lookup --------------------------------------------------------

  /** A key, and an index when the value under the key is an array to select from. */
  datatype Step = Step(key: string, index: Option<nat>)

  function Select(v: Json, s: Step): Option<Json> {
    if !v.Obj? || s.key !in v.fields then None
    else
      var child := v.fields[s.key];
      if s.index.None? then Some(child)
      else if child.Arr? && s.index.value < |child.items| then Some(child.items[s.index.value])
      else None
  }

  function Walk(v: Json, steps: seq<Step>): Option<Json> {
    if steps == [] then Some(v)
    else
      var child := Select(v, steps[0]);
      if child.None? then None else Walk(child.value, steps[1..])
  }

  /** Keys that a path can name: not empty, without '.' and '[', and not starting with '$'. */
  predicate Nameable(key: string) {
    key != "" && key[0] != '$' && forall i :: 0 <= i < |key| ==> key[i] != '.' && key[i] != '['
  }

  function PrintStep(s: Step): string {
    if s.index.None? then s.key else s.key + "[" + Print(s.index.value) + "]"
  }

  function PrintSteps(steps: seq<Step>): string {
    if steps == [] then ""
    else if |steps| == 1 then PrintStep(steps[0])
    else PrintStep(steps[0]) + "." + PrintSteps(steps[1..])
  }

  /** No array of the value is longer than a Go slice can be. */
  ghost predicate Representable(v: Json)
    decreases v
  {
    match v
    case Arr(items) => |items| <= MAX_INT && forall x | x in items :: Representable(x)
    case Obj(fields) => forall k | k in fields :: Representable(fields[k])
    case _ => true
  }

  lemma {:induction false} IndexOfIs(s: string, c: char, n: nat)
    requires n <= |s| && (forall i :: 0 <= i < n ==> s[i] != c) && (n < |s| ==> s[n] == c)
    ensures IndexOf(s, c) == n
  {
  }

  /** A printed step is read back. */
  lemma PrintedStepMatches(s: Step)
    requires Nameable(s.key)
    ensures s.index.None? ==> MatchIndex(PrintStep(s)).None?
    ensures s.index.Some? ==> MatchIndex(PrintStep(s)) == Some((s.key, Print(s.index.value)))
  {
    var text := PrintStep(s);
    if s.index.None? {
      IndexOfIs(text, '[', |text|);
    } else {
      var digits := Print(s.index.value);
      assert text[|s.key|] == '[';
      IndexOfIs(text, '[', |s.key|);
      assert text[..|s.key|] == s.key && text[|s.key| + 1..|text| - 1] == digits;
    }
  }

  /** The segment of a printed step selects what the step selects. */
  lemma PrintedStepSelects(v: Json, s: Step)
    requires Nameable(s.key) && Representable(v)
    ensures Child(v, PrintStep(s)) == Select(v, s)
    ensures Select(v, s).Some? ==> Representable(Select(v, s).value)
  {
    PrintedStepMatches(s);
    if s.index.Some? {
      ValueOfPrint(s.index.value);
      if v.Obj? && s.key in v.fields && v.fields[s.key].Arr? {
        assert Representable(v.fields[s.key]);
      }
    }
  }

  lemma PrintedStepHasNoDot(s: Step)
    requires Nameable(s.key)
    ensures PrintStep(s) != "" && PrintStep(s)[0] != '$'
    ensures forall i :: 0 <= i < |PrintStep(s)| ==> PrintStep(s)[i] != '.'
  {
    var text := PrintStep(s);
    if s.index.Some? {
      var digits := Print(s.index.value);
      forall i | 0 <= i < |text| ensures text[i] != '.' {
        if |s.key| < i < |text| - 1 {
          assert text[i] == digits[i - |s.key| - 1];
          assert digits[i - |s.key| - 1] in digits;
        }
      }
    }
  }

  /** Evaluating a printed list of steps is walking the tree. */
  lemma {:induction false} GetIsWalk(v: Json, steps: seq<Step>, marshal: Json -> string)
    requires Representable(v) && forall i :: 0 <= i < |steps| ==> Nameable(steps[i].key)
    ensures Get(v, PrintSteps(steps), marshal)
            == (if Walk(v, steps).None? then None else Some(ToString(Walk(v, steps).value, marshal)))
    decreases |steps|
  {
    if steps != [] {
      var path, first := PrintSteps(steps), PrintStep(steps[0]);
      PrintedStepHasNoDot(steps[0]);
      PrintedStepSelects(v, steps[0]);
      assert path[0] == first[0];
      assert Trim(path) == path;
      IndexOfIs(path, '.', |first|);
      assert path[..|first|] == first;
      if |steps| > 1 {
        assert path[|first| + 1..] == PrintSteps(steps[1..]);
        PrintedStepHasNoDot(steps[1]);
        assert PrintSteps(steps[1..])[0] == PrintStep(steps[1])[0];
        if Select(v, steps[0]).Some? {
          GetIsWalk(Select(v, steps[0]).value, steps[1..], marshal);
        }
      } else {
        assert steps[1..] == [];
      }
    }
  }

  lemma TrimRoot(rest: string)
    requires rest == "" || (rest[0] != '$' && rest[0] != '.')
    ensures Trim("$." + rest) == Trim("$" + rest) == Trim(rest) == rest
  {
    assert ("$." + rest)[2..] == rest && ("$" + rest)[1..] == rest;
    assert rest != "" ==> ("$" + rest)[1] == rest[0];
  }

  /** Paths that differ in what is trimmed only evaluate alike. */
  lemma TrimDecides(v: Json, a: string, b: string, marshal: Json -> string)
    requires Trim(a) == Trim(b)
    ensures Get(v, a, marshal) == Get(v, b, marshal)
  {
  }

  /** The whole law, for a path written with or without a root prefix. */
  lemma RootedGetIsWalk(v: Json, steps: seq<Step>, marshal: Json -> string)
    requires Representable(v) && forall i :: 0 <= i < |steps| ==> Nameable(steps[i].key)
    ensures var value := if Walk(v, steps).None? then None else Some(ToString(Walk(v, steps).value, marshal));
            && Get(v, PrintSteps(steps), marshal) == value
            && Get(v, "$" + PrintSteps(steps), marshal) == value
            && Get(v, "$." + PrintSteps(steps), marshal) == value
  {
    var path := PrintSteps(steps);
    if steps != [] {
      assert path[0] == PrintStep(steps[0])[0] == steps[0].key[0];
    }
    TrimRoot(path);
    TrimDecides(v, "$" + path, path, marshal);
    TrimDecides(v, "$." + path, path, marshal);
    GetIsWalk(v, steps, marshal);
  }

  /**
   * A key finds the field, a key with an index in brackets the element of that position,
   * counted from zero. A text is its own text, null the empty one, anything else its JSON.
   */
  lemma GetField(fields: map<string, Json>, key: string, n: nat, marshal: Json -> string)
    requires Nameable(key) && Representable(Obj(fields))
    ensures var found := Get(Obj(fields), key, marshal);
            if key in fields then
              && found.Some?
              && (fields[key].Null? ==> found.value == "")
              && (fields[key].Str? ==> found.value == fields[key].text)
              && (!fields[key].Null? && !fields[key].Str? ==> found.value == marshal(fields[key]))
            else found == None
    ensures var found := Get(Obj(fields), key + "[" + Print(n) + "]", marshal);
            if key in fields && fields[key].Arr? && n < |fields[key].items| then
              var item := fields[key].items[n];
              && found.Some?
              && (item.Null? ==> found.value == "")
              && (item.Str? ==> found.value == item.text)
              && (!item.Null? && !item.Str? ==> found.value == marshal(item))
            else found == None
  {
    var whole, element := [Step(key, None)], [Step(key, Some(n))];
    GetIsWalk(Obj(fields), whole, marshal);
    GetIsWalk(Obj(fields), element, marshal);
    assert PrintSteps(whole) == key && PrintSteps(element) == key + "[" + Print(n) + "]";
    assert whole[1..] == [] && element[1..] == [];
  }

  // ---- extractFields ------------------------------------------------------------

  /** The tags whose path has a value, each with the text of that value. */
  function Extracted(payload: Json, mappings: map<string, string>, marshal: Json -> string): map<string, string> {
    map tag | tag in mappings && Get(payload, mappings[tag], marshal).Some?
      :: Get(payload, mappings[tag], marshal).value
  }

  /** Fills the result in map order; a body that does not decode (None) has no fields. */
  method ExtractFields(payload: Option<Json>, mappings: map<string, string>, marshal: Json -> string)
    returns (result: map<string, string>)
    ensures result == if payload.None? then map[] else Extracted(payload.value, mappings, marshal)
  {
    result := map[];
    if payload.None? {
      return;
    }
    var tags := mappings.Keys;
    while tags != {}
      invariant tags <= mappings.Keys
      invariant result == map tag | tag in Extracted(payload.value, mappings, marshal) && tag !in tags
                            :: Extracted(payload.value, mappings, marshal)[tag]
      decreases tags
    {
      var tag :| tag in tags;
      tags := tags - {tag};
      var value := Get(payload.value, mappings[tag], marshal);
      if value.Some? {
        result := result[tag := value.value];
      }
    }
  }
}
