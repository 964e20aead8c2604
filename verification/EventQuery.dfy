/**
 * The WHERE builders of the event repository (internal/repo/events.go): a filter is
 * compiled into an SQL clause with positional holes and a list of arguments. The clause
 * is modelled as its token sequence, and evaluated by a reader of that SQL subset that
 * binds the arguments to the holes from left to right.
 */
module EventQuery {
  import opened Common

  /** Nanoseconds; SQLite's datetime() and RFC 3339 text keep whole seconds. */
  type Time = int

  const NANOS := 1_000_000_000

  function Seconds(t: Time): int { t / NANOS }

  datatype Event = Event(sourceID: Option<string>, sourceType: string, sourceName: string, title: string,
                         level: string, createdAt: Time, payload: map<string, string>)

  datatype ListFilter = ListFilter(sourceID: string, sourceType: string, sourceTypes: seq<string>,
                                   sourceName: string, search: string, levels: seq<string>,
                                   since: Option<Time>, until: Option<Time>)

  datatype CategoryFilter = CategoryFilter(sourceIDs: seq<string>, matchField: string, matchValue: string,
                                           andField: string, andValue: string, matchLevel: string,
                                           since: Option<Time>, until: Option<Time>)

  // ---- SQL ------------------------------------------------------------------

  datatype Column = SourceID | SourceType | SourceName | Title | Level | Json(field: string)

  datatype Token =
    | Where | And | Col(column: Column) | Eq | Like | In | LParen | RParen | Comma | Hole
    | Datetime | CreatedAt | Ge | Le

  datatype Arg = Text(text: string) | Second(second: int)

  /** The column of a row; None is NULL. */
  function Cell(e: Event, c: Column): Option<string> {
    match c
    case SourceID => e.sourceID
    case SourceType => Some(e.sourceType)
    case SourceName => Some(e.sourceName)
    case Title => Some(e.title)
    case Level => Some(e.level)
    case Json(field) => if field in e.payload then Some(e.payload[field]) else None
  }

  /** LIKE folds the ASCII letters only. */
  function Fold(c: char): (folded: char)
    ensures if 65 <= c as int <= 90 then folded as int == c as int + 32 else folded == c
  {
    if 'A' <= c <= 'Z' then c - 'A' + 'a' else c
  }

  predicate LikeMatch(pattern: string, text: string)
    decreases |pattern| + |text|
  {
    if pattern == [] then text == []
    else if pattern[0] == '%' then
      LikeMatch(pattern[1..], text) || (text != [] && LikeMatch(pattern, text[1..]))
    else
      && text != [] && (pattern[0] == '_' || Fold(pattern[0]) == Fold(text[0]))
      && LikeMatch(pattern[1..], text[1..])
  }

  predicate IsText(a: Arg, cell: Option<string>) { a.Text? && cell == Some(a.text) }

  /** What is left after reading a part of a clause, and whether the part is true of the row. */
  datatype Reading = Reading(holds: bool, tokens: seq<Token>, args: seq<Arg>)

  /** The rest of an IN list, after its opening parenthesis or a comma. */
  function ReadList(ts: seq<Token>, args: seq<Arg>, cell: Option<string>): Option<Reading> {
    if |ts| >= 2 && ts[0] == Hole && args != [] then
      if ts[1] == RParen then Some(Reading(IsText(args[0], cell), ts[2..], args[1..]))
      else if ts[1] == Comma then
        var rest := ReadList(ts[2..], args[1..], cell);
        if rest.None? then None else Some(rest.value.(holds := IsText(args[0], cell) || rest.value.holds))
      else None
    else None
  }

  /** A comparison of a column: = ?, LIKE ? or IN (?, ...). */
  function ReadColumn(cell: Option<string>, ts: seq<Token>, args: seq<Arg>): Option<Reading> {
    if |ts| < 2 || args == [] then None
    else if ts[0] == In && ts[1] == LParen then ReadList(ts[2..], args, cell)
    else if ts[0] == Eq && ts[1] == Hole then Some(Reading(IsText(args[0], cell), ts[2..], args[1..]))
    else if ts[0] == Like && ts[1] == Hole then
      Some(Reading(args[0].Text? && cell.Some? && LikeMatch(args[0].text, cell.value), ts[2..], args[1..]))
    else None
  }

  /** The rest of datetime(created_at) >= datetime(?), or <=. */
  function ReadDate(created: int, ts: seq<Token>, args: seq<Arg>): Option<Reading> {
    if && |ts| >= 8 && args != [] && args[0].Second?
       && ts[0] == LParen && ts[1] == CreatedAt && ts[2] == RParen && (ts[3] == Ge || ts[3] == Le)
       && ts[4] == Datetime && ts[5] == LParen && ts[6] == Hole && ts[7] == RParen
    then Some(Reading(if ts[3] == Ge then created >= args[0].second else created <= args[0].second, ts[8..], args[1..]))
    else None
  }

  /** One condition at the front of the tokens. */
  function ReadAtom(ts: seq<Token>, args: seq<Arg>, e: Event): Option<Reading> {
    if ts == [] then None
    else if ts[0].Col? then ReadColumn(Cell(e, ts[0].column), ts[1..], args)
    else if ts[0] == Datetime then ReadDate(Seconds(e.createdAt), ts[1..], args)
    else None
  }

  /** Conditions joined by AND, to the end of the tokens and of the arguments. */
  function ReadAll(ts: seq<Token>, args: seq<Arg>, e: Event): Option<bool>
    decreases |ts|
  {
    var first := ReadAtom(ts, args, e);
    if first.None? then None
    else if first.value.tokens == [] then
      if first.value.args == [] then Some(first.value.holds) else None
    else if |first.value.tokens| < |ts| && first.value.tokens[0] == And then
      var rest := ReadAll(first.value.tokens[1..], first.value.args, e);
      if rest.None? then None else Some(first.value.holds && rest.value)
    else None
  }

  /** Whether the clause, with its arguments, accepts the row; None when they do not fit. */
  function Evaluate(clause: seq<Token>, args: seq<Arg>, e: Event): Option<bool> {
    if clause == [] then (if args == [] then Some(true) else None)
    else if clause[0] == Where then ReadAll(clause[1..], args, e)
    else None
  }

  /** The reader refuses anything else: another opening word, another joint, another operator. */
  lemma ReaderRefuses(ts: seq<Token>, args: seq<Arg>, e: Event)
    ensures ts != [] && ts[0] != Where ==> Evaluate(ts, args, e) == None
    ensures ts != [] && !ts[0].Col? && ts[0] != Datetime ==> ReadAtom(ts, args, e) == None
    ensures |ts| > 1 && ts[0].Col? && ts[1] != Eq && ts[1] != Like && ts[1] != In ==> ReadAtom(ts, args, e) == None
    ensures |ts| > 2 && ts[0].Col? && ts[2] != (if ts[1] == In then LParen else Hole) ==> ReadAtom(ts, args, e) == None
    ensures |ts| > 4 && ts[0] == Datetime && ts[4] != Ge && ts[4] != Le ==> ReadAtom(ts, args, e) == None
    ensures var first := ReadAtom(ts, args, e);
            first.Some? && first.value.tokens != [] && first.value.tokens[0] != And ==> ReadAll(ts, args, e) == None
  {
  }

  function Holes(ts: seq<Token>): nat {
    if ts == [] then 0 else Holes(ts[..|ts| - 1]) + (if ts[|ts| - 1] == Hole then 1 else 0)
  }

  /** What the columns of a row are. */
  lemma CellIs(e: Event, field: string)
    ensures Cell(e, SourceID) == e.sourceID && Cell(e, SourceType) == Some(e.sourceType)
    ensures Cell(e, SourceName) == Some(e.sourceName) && Cell(e, Title) == Some(e.title) && Cell(e, Level) == Some(e.level)
    ensures Cell(e, Json(field)) == if field in e.payload then Some(e.payload[field]) else None
  {
  }

  // ---- What the filters mean --------------------------------------------------

  predicate AcceptsSource(f: ListFilter, e: Event) {
    && (f.sourceID != "" ==> e.sourceID == Some(f.sourceID))
    && (f.sourceTypes != [] ==> e.sourceType in f.sourceTypes)
    && (f.sourceTypes == [] && f.sourceType != "" ==> e.sourceType == f.sourceType)
  }

  predicate NotBefore(e: Event, since: Option<Time>) { since.Some? ==> Seconds(e.createdAt) >= Seconds(since.value) }
  predicate NotAfter(e: Event, until: Option<Time>) { until.Some? ==> Seconds(e.createdAt) <= Seconds(until.value) }

  /** SourceTypes overrides SourceType; an empty field accepts every row. */
  predicate AcceptsList(f: ListFilter, e: Event) {
    && AcceptsSource(f, e)
    && (f.sourceName != "" ==> LikeMatch("%" + f.sourceName + "%", e.sourceName))
    && (f.search != "" ==> LikeMatch("%" + f.search + "%", e.title))
    && (f.levels != [] ==> e.level in f.levels)
    && NotBefore(e, f.since) && NotAfter(e, f.until)
  }

  predicate PayloadIs(e: Event, field: string, value: string) {
    field in e.payload && e.payload[field] == value
  }

  predicate AcceptsPayload(f: CategoryFilter, e: Event) {
    && (f.matchField != "" && f.matchValue != "" ==> PayloadIs(e, f.matchField, f.matchValue))
    && (f.andField != "" && f.andValue != "" ==> PayloadIs(e, f.andField, f.andValue))
  }

  predicate AcceptsCategory(f: CategoryFilter, e: Event) {
    && (f.sourceIDs != [] ==> e.sourceID.Some? && e.sourceID.value in f.sourceIDs)
    && AcceptsPayload(f, e)
    && (f.matchLevel != "" ==> e.level == f.matchLevel)
    && NotBefore(e, f.since) && NotAfter(e, f.until)
  }

  // ---- Parts of a clause ------------------------------------------------------

  /** One condition: its tokens and the arguments for its holes. */
  datatype Part = Part(tokens: seq<Token>, args: seq<Arg>)

  function Texts(values: seq<string>): seq<Arg> {
    seq(|values|, i requires 0 <= i < |values| => Text(values[i]))
  }

  /** n holes with commas between them. */
  function Placeholders(n: nat): seq<Token>
    requires n > 0
  {
    if n == 1 then [Hole] else [Hole, Comma] + Placeholders(n - 1)
  }

  function Compare(c: Column, op: Token, value: string): Part { Part([Col(c), op, Hole], [Text(value)]) }

  function OneOf(c: Column, values: seq<string>): Part
    requires values != []
  {
    Part([Col(c), In, LParen] + Placeholders(|values|) + [RParen], Texts(values))
  }

  function CreatedWithin(op: Token, t: Time): Part {
    Part([Datetime, LParen, CreatedAt, RParen, op, Datetime, LParen, Hole, RParen], [Second(Seconds(t))])
  }

  /** The part says `holds` of the row, whatever follows it. */
  ghost predicate Says(p: Part, e: Event, holds: bool) {
    && Holes(p.tokens) == |p.args|
    && forall ts, args :: ReadAtom(p.tokens + ts, p.args + args, e) == Some(Reading(holds, ts, args))
  }

  lemma CompareSays(c: Column, op: Token, value: string, e: Event)
    requires op == Eq || op == Like
    ensures op == Eq ==> Says(Compare(c, op, value), e, Cell(e, c) == Some(value))
    ensures op == Like ==> Says(Compare(c, op, value), e, Cell(e, c).Some? && LikeMatch(value, Cell(e, c).value))
  {
    var p := Compare(c, op, value);
    assert p.tokens == [Col(c), op] + [Hole];
    HolesConcat([Col(c), op], [Hole]);
    NoHoles([Col(c), op]);
    OneHole();
    var cell := Cell(e, c);
    forall ts, args
      ensures ReadAtom(p.tokens + ts, p.args + args, e)
              == Some(Reading(if op == Eq then cell == Some(value) else cell.Some? && LikeMatch(value, cell.value), ts, args))
    {
      assert (p.tokens + ts)[1..][2..] == ts && (p.args + args)[1..] == args;
    }
  }

  lemma CreatedWithinSays(op: Token, t: Time, e: Event)
    requires op == Ge || op == Le
    ensures Says(CreatedWithin(op, t), e,
                 if op == Ge then Seconds(e.createdAt) >= Seconds(t) else Seconds(e.createdAt) <= Seconds(t))
    ensures CreatedWithin(op, t) == Part([Datetime, LParen, CreatedAt, RParen, op, Datetime, LParen, Hole, RParen],
                                         [Second(t / 1_000_000_000)])
  {
    var p := CreatedWithin(op, t);
    DateHoles(op);
    forall ts, args
      ensures ReadAtom(p.tokens + ts, p.args + args, e)
              == Some(Reading(if op == Ge then Seconds(e.createdAt) >= Seconds(t) else Seconds(e.createdAt) <= Seconds(t),
                              ts, args))
    {
      DateReads(op, Seconds(t), ts, args, Seconds(e.createdAt));
      assert (p.tokens + ts)[1..] == DateRest(op) + ts;
    }
  }

  function DateRest(op: Token): seq<Token> { [LParen, CreatedAt, RParen, op, Datetime, LParen, Hole, RParen] }

  lemma DateHoles(op: Token)
    requires op == Ge || op == Le
    ensures Holes([Datetime] + DateRest(op)) == 1
    ensures [Datetime] + DateRest(op) == [Datetime, LParen, CreatedAt, RParen, op, Datetime, LParen, Hole, RParen]
  {
    var front := [Datetime, LParen, CreatedAt, RParen, op, Datetime, LParen];
    assert [Datetime] + DateRest(op) == front + [Hole] + [RParen];
    HolesConcat(front + [Hole], [RParen]);
    HolesConcat(front, [Hole]);
    NoHoles(front);
    NoHoles([RParen]);
    OneHole();
  }

  lemma DateReads(op: Token, second: int, ts: seq<Token>, args: seq<Arg>, created: int)
    requires op == Ge || op == Le
    ensures ReadDate(created, DateRest(op) + ts, [Second(second)] + args)
            == Some(Reading(if op == Ge then created >= second else created <= second, ts, args))
  {
  }

  lemma {:induction false} HolesConcat(a: seq<Token>, b: seq<Token>)
    ensures Holes(a + b) == Holes(a) + Holes(b)
  {
    if b == [] {
      assert a + b == a;
    } else {
      assert (a + b)[..|a + b| - 1] == a + b[..|b| - 1];
      HolesConcat(a, b[..|b| - 1]);
    }
  }

  lemma {:induction false} NoHoles(ts: seq<Token>)
    requires Hole !in ts
    ensures Holes(ts) == 0
  {
    if ts != [] {
      NoHoles(ts[..|ts| - 1]);
    }
  }

  lemma OneHole()
    ensures Holes([Hole]) == 1
  {
  }

  lemma {:induction false} PlaceholdersHoles(n: nat)
    requires n > 0
    ensures Holes(Placeholders(n)) == n
  {
    OneHole();
    if n > 1 {
      PlaceholdersHoles(n - 1);
      HolesConcat([Hole] + [Comma], Placeholders(n - 1));
      HolesConcat([Hole], [Comma]);
      NoHoles([Comma]);
      assert [Hole] + [Comma] == [Hole, Comma];
    }
  }

  /** An IN list reads as membership, each value bound to its own hole. */
  lemma {:induction false} ListReads(values: seq<string>, ts: seq<Token>, args: seq<Arg>, cell: Option<string>)
    requires values != []
    ensures ReadList(Placeholders(|values|) + [RParen] + ts, Texts(values) + args, cell)
            == Some(Reading(cell.Some? && cell.value in values, ts, args))
  {
    var all, bound := Placeholders(|values|) + [RParen] + ts, Texts(values) + args;
    if |values| == 1 {
      assert all[2..] == ts && bound[1..] == args;
      assert values == [values[0]];
    } else {
      var rest := values[1..];
      assert all[2..] == Placeholders(|rest|) + [RParen] + ts;
      assert bound[1..] == Texts(rest) + args;
      ListReads(rest, ts, args, cell);
      assert values == [values[0]] + rest;
    }
  }

  lemma OneOfSays(c: Column, values: seq<string>, e: Event)
    requires values != []
    ensures Says(OneOf(c, values), e, Cell(e, c).Some? && Cell(e, c).value in values)
  {
    var p := OneOf(c, values);
    var holes := Placeholders(|values|);
    PlaceholdersHoles(|values|);
    HolesConcat([Col(c), In, LParen], holes);
    HolesConcat([Col(c), In, LParen] + holes, [RParen]);
    NoHoles([Col(c), In, LParen]);
    NoHoles([RParen]);
    forall ts, args
      ensures ReadAtom(p.tokens + ts, p.args + args, e)
              == Some(Reading(Cell(e, c).Some? && Cell(e, c).value in values, ts, args))
    {
      assert (p.tokens + ts)[1..][2..] == holes + [RParen] + ts;
      ListReads(values, ts, args, Cell(e, c));
    }
  }

  // ---- Whole clauses ----------------------------------------------------------

  /** The conditions joined by AND. */
  function Join(parts: seq<seq<Token>>): seq<Token>
    requires parts != []
  {
    if |parts| == 1 then parts[0] else parts[0] + ([And] + Join(parts[1..]))
  }

  function Clause(parts: seq<seq<Token>>): seq<Token> { if parts == [] then [] else [Where] + Join(parts) }

  function TokensOf(ps: seq<Part>): (parts: seq<seq<Token>>)
    ensures |parts| == |ps|
  {
    if ps == [] then [] else [ps[0].tokens] + TokensOf(ps[1..])
  }

  function ArgsOf(ps: seq<Part>): seq<Arg> {
    if ps == [] then [] else ps[0].args + ArgsOf(ps[1..])
  }

  /** Each part says something of the row. */
  ghost predicate Readable(ps: seq<Part>, e: Event) {
    forall p :: p in ps ==> Says(p, e, true) || Says(p, e, false)
  }

  ghost predicate AllHold(ps: seq<Part>, e: Event) {
    forall p :: p in ps ==> Says(p, e, true)
  }

  /** A condition says one thing only, and is not empty. */
  lemma SaysOnce(p: Part, e: Event, holds: bool)
    requires Says(p, e, holds)
    ensures !Says(p, e, !holds) && p.tokens != []
  {
    assert ReadAtom(p.tokens + [], p.args + [], e) == Some(Reading(holds, [], []));
    assert p.tokens + [] == p.tokens;
  }

  /** The last condition of a clause. */
  lemma ReadLast(p: Part, e: Event, holds: bool)
    requires Says(p, e, holds)
    ensures ReadAll(p.tokens, p.args, e) == Some(holds)
  {
    assert ReadAtom(p.tokens + [], p.args + [], e) == Some(Reading(holds, [], []));
    assert p.tokens + [] == p.tokens && p.args + [] == p.args;
  }

  /** A condition followed by AND. */
  lemma ReadMore(p: Part, ts: seq<Token>, args: seq<Arg>, e: Event, holds: bool)
    requires Says(p, e, holds)
    ensures var rest := ReadAll(ts, args, e);
            ReadAll(p.tokens + ([And] + ts), p.args + args, e) == if rest.None? then None else Some(holds && rest.value)
  {
    SaysOnce(p, e, holds);
    assert ReadAtom(p.tokens + ([And] + ts), p.args + args, e) == Some(Reading(holds, [And] + ts, args));
    assert ([And] + ts)[1..] == ts;
  }

  lemma {:induction false} JoinReads(ps: seq<Part>, e: Event)
    requires ps != [] && Readable(ps, e)
    ensures ReadAll(Join(TokensOf(ps)), ArgsOf(ps), e) == Some(AllHold(ps, e))
    ensures Holes(Join(TokensOf(ps))) == |ArgsOf(ps)|
  {
    var first, rest := ps[0], ps[1..];
    var says := Says(first, e, true);
    SaysOnce(first, e, says);
    assert ps == [first] + rest;
    if rest == [] {
      ReadLast(first, e, says);
      assert first.args + [] == first.args;
    } else {
      JoinReads(rest, e);
      var more := Join(TokensOf(rest));
      assert TokensOf(ps)[1..] == TokensOf(rest);
      ReadMore(first, more, ArgsOf(rest), e, says);
      HolesConcat(first.tokens, [And] + more);
      HolesConcat([And], more);
      NoHoles([And]);
    }
  }

  /** A clause accepts a row exactly when all its conditions do, and has one argument per hole. */
  lemma ClauseReads(ps: seq<Part>, e: Event)
    requires Readable(ps, e)
    ensures Evaluate(Clause(TokensOf(ps)), ArgsOf(ps), e) == Some(AllHold(ps, e))
    ensures Holes(Clause(TokensOf(ps))) == |ArgsOf(ps)|
  {
    if ps != [] {
      JoinReads(ps, e);
      assert Clause(TokensOf(ps))[1..] == Join(TokensOf(ps));
      HolesConcat([Where], Join(TokensOf(ps)));
      NoHoles([Where]);
    }
  }

  // ---- The builders -----------------------------------------------------------

  lemma {:induction false} TokensAppend(ps: seq<Part>, p: Part)
    ensures TokensOf(ps + [p]) == TokensOf(ps) + [p.tokens]
  {
    if ps == [] {
      assert [] + [p] == [p] && [p][1..] == [];
    } else {
      assert (ps + [p])[1..] == ps[1..] + [p];
      TokensAppend(ps[1..], p);
    }
  }

  lemma {:induction false} ArgsAppend(ps: seq<Part>, p: Part)
    ensures ArgsOf(ps + [p]) == ArgsOf(ps) + p.args
  {
    if ps == [] {
      assert [] + [p] == [p] && [p][1..] == [];
    } else {
      assert (ps + [p])[1..] == ps[1..] + [p];
      ArgsAppend(ps[1..], p);
      assert ps[0].args + (ArgsOf(ps[1..]) + p.args) == ps[0].args + ArgsOf(ps[1..]) + p.args;
    }
  }

  lemma Append(ps: seq<Part>, p: Part)
    ensures TokensOf(ps + [p]) == TokensOf(ps) + [p.tokens]
    ensures ArgsOf(ps + [p]) == ArgsOf(ps) + p.args
  {
    TokensAppend(ps, p);
    ArgsAppend(ps, p);
  }

  method AppendTexts(args: seq<Arg>, values: seq<string>) returns (all: seq<Arg>)
    ensures all == args + Texts(values)
  {
    all := args;
    for i := 0 to |values|
      invariant all == args + Texts(values)[..i]
    {
      all := all + [Text(values[i])];
    }
  }

  /** The conditions so far, and one more if the filter asks for it. */
  function AndIf(ps: seq<Part>, wanted: bool, p: Part): seq<Part> { if wanted then ps + [p] else ps }

  function AndOneOf(ps: seq<Part>, c: Column, values: seq<string>): seq<Part> {
    if values != [] then ps + [OneOf(c, values)] else ps
  }

  function SourceParts(f: ListFilter): seq<Part> {
    var a := AndIf([], f.sourceID != "", Compare(SourceID, Eq, f.sourceID));
    var b := AndOneOf(a, SourceType, f.sourceTypes);
    AndIf(b, f.sourceTypes == [] && f.sourceType != "", Compare(SourceType, Eq, f.sourceType))
  }

  function NameParts(f: ListFilter): seq<Part> {
    AndIf(SourceParts(f), f.sourceName != "", Compare(SourceName, Like, "%" + f.sourceName + "%"))
  }

  function SearchParts(f: ListFilter): seq<Part> {
    AndIf(NameParts(f), f.search != "", Compare(Title, Like, "%" + f.search + "%"))
  }

  /** The conditions of a list filter: a field that is empty adds none. */
  function ListParts(f: ListFilter): seq<Part> {
    WithinParts(AndOneOf(SearchParts(f), Level, f.levels), f.since, f.until)
  }

  function PayloadParts(ps: seq<Part>, f: CategoryFilter): seq<Part> {
    var a := AndIf(ps, f.matchField != "" && f.matchValue != "", Compare(Json(f.matchField), Eq, f.matchValue));
    AndIf(a, f.andField != "" && f.andValue != "", Compare(Json(f.andField), Eq, f.andValue))
  }

  function CategoryParts(f: CategoryFilter): seq<Part> {
    var a := PayloadParts(AndOneOf([], SourceID, f.sourceIDs), f);
    WithinParts(AndIf(a, f.matchLevel != "", Compare(Level, Eq, f.matchLevel)), f.since, f.until)
  }

  /** The parts can be read, and together they say `holds`. */
  ghost predicate Mean(ps: seq<Part>, e: Event, holds: bool) {
    Readable(ps, e) && (AllHold(ps, e) <==> holds)
  }

  lemma MeanAlso(ps: seq<Part>, e: Event, holds: bool, p: Part, says: bool)
    requires Mean(ps, e, holds) && Says(p, e, says)
    ensures Mean(ps + [p], e, holds && says)
  {
    SaysOnce(p, e, says);
    assert p in ps + [p];
    assert forall q :: q in ps + [p] ==> q in ps || q == p;
    assert forall q :: q in ps ==> q in ps + [p];
  }

  lemma NothingMeansAll(e: Event)
    ensures Mean([], e, true)
  {
  }

  lemma AlsoEqual(ps: seq<Part>, e: Event, holds: bool, wanted: bool, c: Column, value: string)
    requires Mean(ps, e, holds)
    ensures Mean(AndIf(ps, wanted, Compare(c, Eq, value)), e, holds && (wanted ==> Cell(e, c) == Some(value)))
  {
    if wanted {
      CompareSays(c, Eq, value, e);
      MeanAlso(ps, e, holds, Compare(c, Eq, value), Cell(e, c) == Some(value));
    }
  }

  lemma AlsoLike(ps: seq<Part>, e: Event, holds: bool, wanted: bool, c: Column, pattern: string)
    requires Mean(ps, e, holds) && Cell(e, c).Some?
    ensures Mean(AndIf(ps, wanted, Compare(c, Like, pattern)), e, holds && (wanted ==> LikeMatch(pattern, Cell(e, c).value)))
  {
    if wanted {
      CompareSays(c, Like, pattern, e);
      MeanAlso(ps, e, holds, Compare(c, Like, pattern), LikeMatch(pattern, Cell(e, c).value));
    }
  }

  lemma AlsoOneOf(ps: seq<Part>, e: Event, holds: bool, c: Column, values: seq<string>)
    requires Mean(ps, e, holds)
    ensures Mean(AndOneOf(ps, c, values), e, holds && (values != [] ==> Cell(e, c).Some? && Cell(e, c).value in values))
  {
    if values != [] {
      OneOfSays(c, values, e);
      MeanAlso(ps, e, holds, OneOf(c, values), Cell(e, c).Some? && Cell(e, c).value in values);
    }
  }

  /** The bounds on the creation time, which both filters end with. */
  function WithinParts(ps: seq<Part>, since: Option<Time>, until: Option<Time>): seq<Part> {
    var h := if since.Some? then ps + [CreatedWithin(Ge, since.value)] else ps;
    if until.Some? then h + [CreatedWithin(Le, until.value)] else h
  }

  lemma AlsoWithin(ps: seq<Part>, e: Event, holds: bool, since: Option<Time>, until: Option<Time>)
    requires Mean(ps, e, holds)
    ensures Mean(WithinParts(ps, since, until), e, holds && NotBefore(e, since) && NotAfter(e, until))
  {
    var h := if since.Some? then ps + [CreatedWithin(Ge, since.value)] else ps;
    if since.Some? {
      CreatedWithinSays(Ge, since.value, e);
      MeanAlso(ps, e, holds, CreatedWithin(Ge, since.value), NotBefore(e, since));
    }
    assert Mean(h, e, holds && NotBefore(e, since));
    if until.Some? {
      CreatedWithinSays(Le, until.value, e);
      MeanAlso(h, e, holds && NotBefore(e, since), CreatedWithin(Le, until.value), NotAfter(e, until));
    }
  }

  lemma SourcePartsMean(f: ListFilter, e: Event)
    ensures Mean(SourceParts(f), e, AcceptsSource(f, e))
  {
    hide Mean;
    NothingMeansAll(e);
    var h0 := f.sourceID != "" ==> e.sourceID == Some(f.sourceID);
    AlsoEqual([], e, true, f.sourceID != "", SourceID, f.sourceID);
    var a := AndIf([], f.sourceID != "", Compare(SourceID, Eq, f.sourceID));
    var h1 := h0 && (f.sourceTypes != [] ==> e.sourceType in f.sourceTypes);
    AlsoOneOf(a, e, h0, SourceType, f.sourceTypes);
    AlsoEqual(AndOneOf(a, SourceType, f.sourceTypes), e, h1,
              f.sourceTypes == [] && f.sourceType != "", SourceType, f.sourceType);
  }

  predicate AcceptsNames(f: ListFilter, e: Event) {
    && AcceptsSource(f, e)
    && (f.sourceName != "" ==> LikeMatch("%" + f.sourceName + "%", e.sourceName))
    && (f.search != "" ==> LikeMatch("%" + f.search + "%", e.title))
  }

  lemma SearchPartsMean(f: ListFilter, e: Event)
    ensures Mean(SearchParts(f), e, AcceptsNames(f, e))
  {
    hide Mean;
    SourcePartsMean(f, e);
    AlsoLike(SourceParts(f), e, AcceptsSource(f, e), f.sourceName != "", SourceName, "%" + f.sourceName + "%");
    AlsoLike(NameParts(f), e, AcceptsSource(f, e) && (f.sourceName != "" ==> LikeMatch("%" + f.sourceName + "%", e.sourceName)),
             f.search != "", Title, "%" + f.search + "%");
  }

  /** Compiling a list filter preserves its meaning. */
  lemma ListPartsMean(f: ListFilter, e: Event)
    ensures Mean(ListParts(f), e, AcceptsList(f, e))
  {
    hide Mean;
    SearchPartsMean(f, e);
    AlsoOneOf(SearchParts(f), e, AcceptsNames(f, e), Level, f.levels);
    AlsoWithin(AndOneOf(SearchParts(f), Level, f.levels), e,
               AcceptsNames(f, e) && (f.levels != [] ==> e.level in f.levels), f.since, f.until);
  }

  lemma PayloadPartsMean(ps: seq<Part>, f: CategoryFilter, e: Event, holds: bool)
    requires Mean(ps, e, holds)
    ensures Mean(PayloadParts(ps, f), e, holds && AcceptsPayload(f, e))
  {
    hide Mean;
    var both := f.matchField != "" && f.matchValue != "";
    AlsoEqual(ps, e, holds, both, Json(f.matchField), f.matchValue);
    AlsoEqual(AndIf(ps, both, Compare(Json(f.matchField), Eq, f.matchValue)), e,
              holds && (both ==> PayloadIs(e, f.matchField, f.matchValue)),
              f.andField != "" && f.andValue != "", Json(f.andField), f.andValue);
  }

  /** Compiling a category filter preserves its meaning. */
  lemma CategoryPartsMean(f: CategoryFilter, e: Event)
    ensures Mean(CategoryParts(f), e, AcceptsCategory(f, e))
  {
    hide Mean;
    NothingMeansAll(e);
    AlsoOneOf([], e, true, SourceID, f.sourceIDs);
    var a := AndOneOf([], SourceID, f.sourceIDs);
    var h0 := f.sourceIDs != [] ==> e.sourceID.Some? && e.sourceID.value in f.sourceIDs;
    PayloadPartsMean(a, f, e, h0);
    AlsoEqual(PayloadParts(a, f), e, h0 && AcceptsPayload(f, e), f.matchLevel != "", Level, f.matchLevel);
    AlsoWithin(AndIf(PayloadParts(a, f), f.matchLevel != "", Compare(Level, Eq, f.matchLevel)), e,
               h0 && AcceptsPayload(f, e) && (f.matchLevel != "" ==> e.level == f.matchLevel), f.since, f.until);
  }

  // ---- The methods ------------------------------------------------------------

  /** The drafts of the builders hold the parts: their tokens one by one, their arguments in one list. */
  ghost predicate Drafts(parts: seq<seq<Token>>, args: seq<Arg>, ps: seq<Part>) {
    parts == TokensOf(ps) && args == ArgsOf(ps)
  }

  method AppendOneOf(parts: seq<seq<Token>>, args: seq<Arg>, c: Column, values: seq<string>, ghost ps: seq<Part>)
    returns (parts': seq<seq<Token>>, args': seq<Arg>)
    requires Drafts(parts, args, ps)
    ensures Drafts(parts', args', AndOneOf(ps, c, values))
  {
    parts', args' := parts, args;
    if |values| > 0 {
      Append(ps, OneOf(c, values));
      parts' := parts' + [[Col(c), In, LParen] + Placeholders(|values|) + [RParen]];
      args' := AppendTexts(args', values);
    }
  }

  method AppendCompare(parts: seq<seq<Token>>, args: seq<Arg>, wanted: bool, c: Column, op: Token, value: string,
                       ghost ps: seq<Part>) returns (parts': seq<seq<Token>>, args': seq<Arg>)
    requires Drafts(parts, args, ps)
    ensures Drafts(parts', args', AndIf(ps, wanted, Compare(c, op, value)))
  {
    parts', args' := parts, args;
    if wanted {
      Append(ps, Compare(c, op, value));
      parts', args' := parts' + [[Col(c), op, Hole]], args' + [Text(value)];
    }
  }

  method AppendBounds(parts: seq<seq<Token>>, args: seq<Arg>, since: Option<Time>, until: Option<Time>, ghost ps: seq<Part>)
    returns (parts': seq<seq<Token>>, args': seq<Arg>)
    requires Drafts(parts, args, ps)
    ensures Drafts(parts', args', WithinParts(ps, since, until))
  {
    parts', args' := parts, args;
    ghost var qs := ps;
    if since.Some? {
      Append(qs, CreatedWithin(Ge, since.value));
      qs := qs + [CreatedWithin(Ge, since.value)];
      parts' := parts' + [[Datetime, LParen, CreatedAt, RParen, Ge, Datetime, LParen, Hole, RParen]];
      args' := args' + [Second(Seconds(since.value))];
    }
    if until.Some? {
      Append(qs, CreatedWithin(Le, until.value));
      parts' := parts' + [[Datetime, LParen, CreatedAt, RParen, Le, Datetime, LParen, Hole, RParen]];
      args' := args' + [Second(Seconds(until.value))];
    }
  }

  /** The conditions on the source: an id, and a list of types or a single one. */
  method DraftSource(f: ListFilter) returns (parts: seq<seq<Token>>, args: seq<Arg>)
    ensures Drafts(parts, args, SourceParts(f))
  {
    parts, args := AppendCompare([], [], f.sourceID != "", SourceID, Eq, f.sourceID, []);
    ghost var a := AndIf([], f.sourceID != "", Compare(SourceID, Eq, f.sourceID));
    parts, args := AppendOneOf(parts, args, SourceType, f.sourceTypes, a);
    var plain := |f.sourceTypes| == 0 && f.sourceType != "";
    parts, args := AppendCompare(parts, args, plain, SourceType, Eq, f.sourceType, AndOneOf(a, SourceType, f.sourceTypes));
  }

  method DraftList(f: ListFilter) returns (parts: seq<seq<Token>>, args: seq<Arg>)
    ensures Drafts(parts, args, ListParts(f))
  {
    parts, args := DraftSource(f);
    parts, args := AppendCompare(parts, args, f.sourceName != "", SourceName, Like, "%" + f.sourceName + "%", SourceParts(f));
    parts, args := AppendCompare(parts, args, f.search != "", Title, Like, "%" + f.search + "%", NameParts(f));
    parts, args := AppendOneOf(parts, args, Level, f.levels, SearchParts(f));
    parts, args := AppendBounds(parts, args, f.since, f.until, AndOneOf(SearchParts(f), Level, f.levels));
  }

  const NO_FILTER := ListFilter("", "", [], "", "", [], None, None)

  lemma NoPartsIff(f: ListFilter)
    ensures ListParts(f) == [] <==> f == NO_FILTER
  {
  }

  /** A clause is empty exactly without parts, and then it has no arguments. */
  lemma EmptyClauseIff(ps: seq<Part>)
    ensures Clause(TokensOf(ps)) == [] <==> ps == []
    ensures ps == [] ==> ArgsOf(ps) == []
  {
  }

  /**
   * The clause accepts exactly the rows the filter accepts when its arguments are bound
   * from left to right; without any filter it is empty.
   */
  method BuildWhere(f: ListFilter) returns (clause: seq<Token>, args: seq<Arg>)
    ensures Holes(clause) == |args|
    ensures forall e :: Evaluate(clause, args, e) == Some(AcceptsList(f, e))
    ensures forall e :: Evaluate(clause, args, e) == Some(
              && (f.sourceID != "" ==> e.sourceID == Some(f.sourceID))
              && (if f.sourceTypes != [] then e.sourceType in f.sourceTypes
                  else f.sourceType != "" ==> e.sourceType == f.sourceType)
              && (f.sourceName != "" ==> LikeMatch("%" + f.sourceName + "%", e.sourceName))
              && (f.search != "" ==> LikeMatch("%" + f.search + "%", e.title))
              && (f.levels != [] ==> e.level in f.levels)
              && (f.since.Some? ==> e.createdAt / 1_000_000_000 >= f.since.value / 1_000_000_000)
              && (f.until.Some? ==> e.createdAt / 1_000_000_000 <= f.until.value / 1_000_000_000))
    ensures clause == [] <==> f == NO_FILTER
    ensures clause == [] ==> args == []
  {
    var parts;
    parts, args := DraftList(f);
    clause := if |parts| == 0 then [] else [Where] + Join(parts);
    hide AcceptsList, Evaluate, ListParts;
    ListClause(f);
    ListMeans(f);
    NoPartsIff(f);
    EmptyClauseIff(ListParts(f));
  }

  lemma ListMeans(f: ListFilter)
    ensures forall e :: AcceptsList(f, e) <==>
              && (f.sourceID != "" ==> e.sourceID == Some(f.sourceID))
              && (if f.sourceTypes != [] then e.sourceType in f.sourceTypes
                  else f.sourceType != "" ==> e.sourceType == f.sourceType)
              && (f.sourceName != "" ==> LikeMatch("%" + f.sourceName + "%", e.sourceName))
              && (f.search != "" ==> LikeMatch("%" + f.search + "%", e.title))
              && (f.levels != [] ==> e.level in f.levels)
              && (f.since.Some? ==> e.createdAt / 1_000_000_000 >= f.since.value / 1_000_000_000)
              && (f.until.Some? ==> e.createdAt / 1_000_000_000 <= f.until.value / 1_000_000_000)
  {
    hide LikeMatch;
  }

  lemma ListClause(f: ListFilter)
    ensures forall e :: Evaluate(Clause(TokensOf(ListParts(f))), ArgsOf(ListParts(f)), e) == Some(AcceptsList(f, e))
    ensures Holes(Clause(TokensOf(ListParts(f)))) == |ArgsOf(ListParts(f))|
  {
    forall e ensures Evaluate(Clause(TokensOf(ListParts(f))), ArgsOf(ListParts(f)), e) == Some(AcceptsList(f, e)) {
      ListPartsMean(f, e);
      ClauseReads(ListParts(f), e);
    }
    ListPartsMean(f, SOME_EVENT);
    ClauseReads(ListParts(f), SOME_EVENT);
  }

  const SOME_EVENT := Event(None, "", "", "", "", 0, map[])

  /** The filter names no source, level or bound, and no field together with a value. */
  predicate AsksNothing(f: CategoryFilter) {
    && f.sourceIDs == [] && (f.matchField == "" || f.matchValue == "") && (f.andField == "" || f.andValue == "")
    && f.matchLevel == "" && f.since == None && f.until == None
  }

  method DraftCategory(f: CategoryFilter) returns (parts: seq<seq<Token>>, args: seq<Arg>)
    ensures Drafts(parts, args, CategoryParts(f))
  {
    parts, args := AppendOneOf([], [], SourceID, f.sourceIDs, []);
    ghost var a := AndOneOf([], SourceID, f.sourceIDs);
    var both := f.matchField != "" && f.matchValue != "";
    parts, args := AppendCompare(parts, args, both, Json(f.matchField), Eq, f.matchValue, a);
    ghost var b := AndIf(a, both, Compare(Json(f.matchField), Eq, f.matchValue));
    parts, args := AppendCompare(parts, args, f.andField != "" && f.andValue != "", Json(f.andField), Eq, f.andValue, b);
    parts, args := AppendCompare(parts, args, f.matchLevel != "", Level, Eq, f.matchLevel, PayloadParts(a, f));
    ghost var c := AndIf(PayloadParts(a, f), f.matchLevel != "", Compare(Level, Eq, f.matchLevel));
    parts, args := AppendBounds(parts, args, f.since, f.until, c);
  }

  lemma NoCategoryPartsIff(f: CategoryFilter)
    ensures CategoryParts(f) == [] <==> AsksNothing(f)
  {
  }

  /** The digest's builder, over columns and payload paths. */
  method BuildCategoryWhere(f: CategoryFilter) returns (clause: seq<Token>, args: seq<Arg>)
    ensures Holes(clause) == |args|
    ensures forall e :: Evaluate(clause, args, e) == Some(AcceptsCategory(f, e))
    ensures forall e :: Evaluate(clause, args, e) == Some(
              && (f.sourceIDs != [] ==> exists id :: id in f.sourceIDs && e.sourceID == Some(id))
              && (f.matchField != "" && f.matchValue != "" ==>
                    f.matchField in e.payload && e.payload[f.matchField] == f.matchValue)
              && (f.andField != "" && f.andValue != "" ==> f.andField in e.payload && e.payload[f.andField] == f.andValue)
              && (f.matchLevel != "" ==> e.level == f.matchLevel)
              && (f.since.Some? ==> e.createdAt / 1_000_000_000 >= f.since.value / 1_000_000_000)
              && (f.until.Some? ==> e.createdAt / 1_000_000_000 <= f.until.value / 1_000_000_000))
    ensures clause == [] <==> AsksNothing(f)
    ensures clause == [] ==> args == []
  {
    var parts;
    parts, args := DraftCategory(f);
    clause := if |parts| == 0 then [] else [Where] + Join(parts);
    hide AcceptsCategory, Evaluate, AsksNothing, CategoryParts;
    CategoryClause(f);
    CategoryMeans(f);
    NoCategoryPartsIff(f);
    EmptyClauseIff(CategoryParts(f));
  }

  lemma CategoryMeans(f: CategoryFilter)
    ensures forall e :: AcceptsCategory(f, e) <==>
              && (f.sourceIDs != [] ==> exists id :: id in f.sourceIDs && e.sourceID == Some(id))
              && (f.matchField != "" && f.matchValue != "" ==>
                    f.matchField in e.payload && e.payload[f.matchField] == f.matchValue)
              && (f.andField != "" && f.andValue != "" ==> f.andField in e.payload && e.payload[f.andField] == f.andValue)
              && (f.matchLevel != "" ==> e.level == f.matchLevel)
              && (f.since.Some? ==> e.createdAt / 1_000_000_000 >= f.since.value / 1_000_000_000)
              && (f.until.Some? ==> e.createdAt / 1_000_000_000 <= f.until.value / 1_000_000_000)
  {
  }

  lemma CategoryClause(f: CategoryFilter)
    ensures forall e :: Evaluate(Clause(TokensOf(CategoryParts(f))), ArgsOf(CategoryParts(f)), e) == Some(AcceptsCategory(f, e))
    ensures Holes(Clause(TokensOf(CategoryParts(f)))) == |ArgsOf(CategoryParts(f))|
  {
    forall e ensures Evaluate(Clause(TokensOf(CategoryParts(f))), ArgsOf(CategoryParts(f)), e) == Some(AcceptsCategory(f, e)) {
      CategoryPartsMean(f, e);
      ClauseReads(CategoryParts(f), e);
    }
    CategoryPartsMean(f, SOME_EVENT);
    ClauseReads(CategoryParts(f), SOME_EVENT);
  }

  // ---- What the search patterns find --------------------------------------------

  predicate FoldEqual(a: string, b: string) {
    |a| == |b| && forall i :: 0 <= i < |a| ==> Fold(a[i]) == Fold(b[i])
  }

  /** The documented meaning of a search: the text contains the term, letter case aside. */
  predicate ContainsFold(text: string, term: string) {
    exists i | 0 <= i <= |text| :: FoldAt(text, term, i)
  }

  predicate FoldAt(text: string, term: string, i: nat) {
    i + |term| <= |text| && FoldEqual(text[i..i + |term|], term)
  }

  predicate NoWildcards(s: string) { forall i :: 0 <= i < |s| ==> s[i] != '%' && s[i] != '_' }

  lemma {:induction false} PercentMatchesAll(text: string)
    ensures LikeMatch("%", text)
  {
    if text != [] {
      PercentMatchesAll(text[1..]);
    } else {
      assert "%"[1..] == [];
    }
  }

  lemma {:induction false} LeadingPercent(pattern: string, text: string)
    ensures LikeMatch("%" + pattern, text) <==> exists i :: 0 <= i <= |text| && LikeMatch(pattern, text[i..])
  {
    var p := "%" + pattern;
    assert p[1..] == pattern && text[0..] == text;
    if text != [] {
      LeadingPercent(pattern, text[1..]);
      assert forall i :: 0 <= i < |text| ==> text[1..][i..] == text[i + 1..];
      if exists i :: 0 <= i <= |text| && LikeMatch(pattern, text[i..]) {
        var i :| 0 <= i <= |text| && LikeMatch(pattern, text[i..]);
        if i > 0 {
          assert text[1..][i - 1..] == text[i..];
        }
      }
      if exists j :: 0 <= j <= |text[1..]| && LikeMatch(pattern, text[1..][j..]) {
        var j :| 0 <= j <= |text[1..]| && LikeMatch(pattern, text[1..][j..]);
        assert text[1..][j..] == text[j + 1..];
      }
    }
  }

  lemma FoldCons(c: char, a: string, d: char, b: string)
    ensures FoldEqual([c] + a, [d] + b) <==> Fold(c) == Fold(d) && FoldEqual(a, b)
  {
    var x, y := [c] + a, [d] + b;
    if FoldEqual(x, y) {
      assert Fold(x[0]) == Fold(y[0]);
      forall i | 0 <= i < |a| ensures Fold(a[i]) == Fold(b[i]) {
        assert Fold(x[i + 1]) == Fold(y[i + 1]);
      }
    }
  }

  lemma {:induction false} PlainPrefix(term: string, text: string)
    requires NoWildcards(term)
    ensures LikeMatch(term + "%", text) <==> |term| <= |text| && FoldEqual(text[..|term|], term)
  {
    if term == [] {
      assert term + "%" == "%";
      PercentMatchesAll(text);
    } else {
      var p := term + "%";
      assert p[1..] == term[1..] + "%";
      if text != [] {
        PlainPrefix(term[1..], text[1..]);
        if |term| <= |text| {
          assert text[..|term|] == [text[0]] + text[1..][..|term| - 1];
          assert term == [term[0]] + term[1..];
          FoldCons(text[0], text[1..][..|term| - 1], term[0], term[1..]);
        }
      }
    }
  }

  /** A search term without wildcards finds exactly the texts that contain it. */
  lemma PlainSearch(term: string, text: string)
    requires NoWildcards(term)
    ensures LikeMatch("%" + term + "%", text) <==> ContainsFold(text, term)
  {
    assert "%" + term + "%" == "%" + (term + "%");
    LeadingPercent(term + "%", text);
    forall i | 0 <= i <= |text|
      ensures LikeMatch(term + "%", text[i..]) <==> FoldAt(text, term, i)
    {
      PlainPrefix(term, text[i..]);
      if i <= |text| - |term| {
        assert text[i..][..|term|] == text[i..i + |term|];
      }
    }
  }

  /** The term with an x in place of each wildcard. */
  function Disguise(term: string): string {
    seq(|term|, i requires 0 <= i < |term| => if term[i] == '%' || term[i] == '_' then 'x' else term[i])
  }

  lemma {:induction false} DisguiseMatches(term: string)
    ensures LikeMatch(term + "%", Disguise(term))
  {
    if term == [] {
      assert term + "%" == "%";
      PercentMatchesAll(Disguise(term));
    } else {
      var p, text := term + "%", Disguise(term);
      assert p[1..] == term[1..] + "%" && text[1..] == Disguise(term[1..]);
      DisguiseMatches(term[1..]);
      if p[0] == '%' {
        assert LikeMatch(p, text[1..]);
      }
    }
  }

  lemma NotFolded(text: string, term: string, k: nat)
    requires |text| == |term| && k < |term| && Fold(text[k]) != Fold(term[k])
    ensures !ContainsFold(text, term)
  {
  }

  /**
   * The search is the documented substring search on every text exactly when the term
   * holds no LIKE wildcard: the builder does not escape them.
   */
  lemma SearchIsSubstringIff(term: string)
    ensures (forall text :: LikeMatch("%" + term + "%", text) <==> ContainsFold(text, term)) <==> NoWildcards(term)
  {
    if NoWildcards(term) {
      forall text ensures LikeMatch("%" + term + "%", text) <==> ContainsFold(text, term) {
        PlainSearch(term, text);
      }
    } else {
      var text := Disguise(term);
      assert "%" + term + "%" == "%" + (term + "%");
      LeadingPercent(term + "%", text);
      DisguiseMatches(term);
      assert text[0..] == text;
      var k :| 0 <= k < |term| && (term[k] == '%' || term[k] == '_');
      assert text[k] == 'x';
      NotFolded(text, term, k);
      assert LikeMatch("%" + term + "%", text) && !ContainsFold(text, term);
    }
  }
}
