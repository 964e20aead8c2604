/**
 * The rules engine (internal/rules/engine.go, internal/rules/matcher.go): which enabled
 * rules an event fires, and the TTL cache in front of the rules table.
 */
module RulesEngine {
  import opened Common

  datatype Rule = Rule(
    id: string, enabled: bool, sourceID: Option<string>, sourceType: Option<string>, severity: Option<string>,
    conditions: string, logic: string)

  datatype Condition = Condition(field: string, operator: string, value: string)

  datatype Event = Event(level: string, sourceName: string, sourceType: string, sourceID: string,
                         title: string, payload: string)

  /** Nanoseconds; the zero time lies before every clock reading. */
  type Time = nat

  const ZERO_TIME: Time := 0
  const CACHE_TTL: nat := 30_000_000_000

  /** RuleRepo.ListEnabled: the enabled rows in table order. */
  function Enabled(db: seq<Rule>): seq<Rule> {
    if db == [] then []
    else Enabled(db[..|db| - 1]) + (if db[|db| - 1].enabled then [db[|db| - 1]] else [])
  }

  // ---- Matching -------------------------------------------------------------

  predicate GateAllows(wanted: Option<string>, ok: bool) {
    wanted.Some? && wanted.value != "" ==> ok
  }

  predicate MatchesSourceType(ruleType: string, eventType: string) {
    eventType == (if ruleType == "docker" then "docker_engine"
                  else if ruleType == "monitor" then "monitor_check" else ruleType)
  }

  predicate PassesGate(r: Rule, e: Event) {
    && GateAllows(r.sourceID, r.sourceID.Some? && e.sourceID == r.sourceID.value)
    && GateAllows(r.sourceType, r.sourceType.Some? && MatchesSourceType(r.sourceType.value, e.sourceType))
    && GateAllows(r.severity, r.severity.Some? && e.level == r.severity.value)
  }

  /** AND asks for every condition, OR for one; any other logic never fires on a non-empty list. */
  predicate ConditionsHold(conditions: seq<Condition>, logic: string, e: Event, matches: (Condition, Event) -> bool) {
    || conditions == []
    || (logic == "AND" && forall c | c in conditions :: matches(c, e))
    || (logic == "OR" && exists c | c in conditions :: matches(c, e))
  }

  /** The rule's conditions parse, and gate and conditions accept the event. */
  predicate Fires(r: Rule, e: Event, parse: string -> Option<seq<Condition>>, matches: (Condition, Event) -> bool) {
    PassesGate(r, e) && parse(r.conditions).Some? && ConditionsHold(parse(r.conditions).value, r.logic, e, matches)
  }

  function Firing(rules: seq<Rule>, e: Event, parse: string -> Option<seq<Condition>>,
                  matches: (Condition, Event) -> bool): seq<Rule>
  {
    if rules == [] then []
    else Firing(rules[..|rules| - 1], e, parse, matches) +
         (if Fires(rules[|rules| - 1], e, parse, matches) then [rules[|rules| - 1]] else [])
  }

  /**
   * A rule fires if its gates that are set name the event's source, source type and level,
   * its conditions parse, and these all hold under AND, one of them does under OR, or there
   * are none.
   */
  lemma FiresIff(r: Rule, e: Event, parse: string -> Option<seq<Condition>>, matches: (Condition, Event) -> bool)
    ensures Fires(r, e, parse, matches) <==>
              && (r.sourceID.Some? && r.sourceID.value != "" ==> e.sourceID == r.sourceID.value)
              && (r.sourceType == Some("docker") ==> e.sourceType == "docker_engine")
              && (r.sourceType == Some("monitor") ==> e.sourceType == "monitor_check")
              && (r.sourceType.Some? && r.sourceType.value !in {"", "docker", "monitor"} ==> e.sourceType == r.sourceType.value)
              && (r.severity.Some? && r.severity.value != "" ==> e.level == r.severity.value)
              && parse(r.conditions).Some?
              && var cs := parse(r.conditions).value;
                 || cs == []
                 || (r.logic == "AND" && forall c :: c in cs ==> matches(c, e))
                 || (r.logic == "OR" && exists c :: c in cs && matches(c, e))
  {
  }

  /** An evaluation fires exactly these of the rules it is served, in their order. */
  lemma {:induction false} FiringIs(rules: seq<Rule>, e: Event, parse: string -> Option<seq<Condition>>,
                                    matches: (Condition, Event) -> bool) returns (at: seq<nat>)
    ensures forall k, m :: 0 <= k < m < |at| ==> at[k] < at[m]
    ensures forall i: nat :: i in at <==> i < |rules| && Fires(rules[i], e, parse, matches)
    ensures var fired := Firing(rules, e, parse, matches);
            |fired| == |at| && forall k :: 0 <= k < |at| ==> at[k] < |rules| && fired[k] == rules[at[k]]
  {
    hide Fires;
    if rules == [] {
      return [];
    }
    at := FiringIs(rules[..|rules| - 1], e, parse, matches);
    if Fires(rules[|rules| - 1], e, parse, matches) {
      OnePositionMore(at, |rules| - 1);
      at := at + [|rules| - 1];
    }
  }

  /** Listed are the enabled rules, in table order. */
  lemma {:induction false} EnabledIs(db: seq<Rule>) returns (at: seq<nat>)
    ensures forall k, m :: 0 <= k < m < |at| ==> at[k] < at[m]
    ensures forall i: nat :: i in at <==> i < |db| && db[i].enabled
    ensures |Enabled(db)| == |at| && forall k :: 0 <= k < |at| ==> at[k] < |db| && Enabled(db)[k] == db[at[k]]
  {
    if db == [] {
      return [];
    }
    at := EnabledIs(db[..|db| - 1]);
    if db[|db| - 1].enabled {
      OnePositionMore(at, |db| - 1);
      at := at + [|db| - 1];
    }
  }

  method EvaluateConditions(conditions: seq<Condition>, logic: string, e: Event,
                            matches: (Condition, Event) -> bool) returns (fires: bool)
    ensures fires <==> ConditionsHold(conditions, logic, e, matches)
    ensures fires <==>
              || conditions == []
              || (logic == "AND" && forall c :: c in conditions ==> matches(c, e))
              || (logic == "OR" && exists c :: c in conditions && matches(c, e))
  {
    if |conditions| == 0 {
      return true;
    }
    for i := 0 to |conditions|
      invariant logic == "OR" ==> forall k :: 0 <= k < i ==> !matches(conditions[k], e)
      invariant logic == "AND" ==> forall k :: 0 <= k < i ==> matches(conditions[k], e)
    {
      var matched := matches(conditions[i], e);
      if logic == "OR" && matched {
        return true;
      }
      if logic == "AND" && !matched {
        return false;
      }
    }
    fires := logic == "AND";
  }

  /** The cached rules and the time they expire. */
  datatype Cache = Cache(rules: seq<Rule>, expiry: Time) {
    predicate Live(now: Time) { now < expiry }

    function Invalidated(): Cache { this.(expiry := ZERO_TIME) }
  }

  const EMPTY_CACHE := Cache([], ZERO_TIME)

  function Stored(rules: seq<Rule>, now: Time): Cache { Cache(rules, now + CACHE_TTL) }

  class Engine {
    var cachedRules: seq<Rule>
    var cacheExpiry: Time

    function View(): Cache
      reads this
    {
      Cache(cachedRules, cacheExpiry)
    }

    constructor ()
      ensures View() == EMPTY_CACHE
    {
      cachedRules, cacheExpiry := [], ZERO_TIME;
    }

    /** The critical section of InvalidateCache. */
    method InvalidateCache()
      modifies this
      ensures View() == old(View()).Invalidated()
    {
      cacheExpiry := ZERO_TIME;
    }

    /**
     * The critical section of enabledRules: `now` is the clock at entry, `list` what the
     * database answers (None for an error), `stored` the clock when the answer is stored.
     */
    method EnabledRules(now: Time, list: Option<seq<Rule>>, stored: Time) returns (rules: Option<seq<Rule>>)
      modifies this
      ensures rules == if old(View()).Live(now) then Some(old(View()).rules) else list
      ensures View() == if old(View()).Live(now) || list.None? then old(View()) else Stored(list.value, stored)
      ensures rules == if now < old(cacheExpiry) then Some(old(cachedRules)) else list
      ensures if now >= old(cacheExpiry) && list.Some? then cachedRules == list.value && cacheExpiry == stored + 30 * 1_000_000_000
              else cachedRules == old(cachedRules) && cacheExpiry == old(cacheExpiry)
    {
      if now < cacheExpiry {
        return Some(cachedRules);
      }
      if list.None? {
        return None;
      }
      cachedRules := list.value;
      cacheExpiry := stored + CACHE_TTL;
      rules := list;
    }

    /** Returns the rules dispatched for the event. */
    method Evaluate(e: Event, now: Time, list: Option<seq<Rule>>, stored: Time,
                    parse: string -> Option<seq<Condition>>, matches: (Condition, Event) -> bool)
      returns (fired: seq<Rule>)
      modifies this
      ensures old(View()).Live(now) ==> fired == Firing(old(View()).rules, e, parse, matches)
      ensures !old(View()).Live(now) ==> fired == if list.Some? then Firing(list.value, e, parse, matches) else []
      ensures View() == if old(View()).Live(now) || list.None? then old(View()) else Stored(list.value, stored)
    {
      fired := [];
      var loaded := EnabledRules(now, list, stored);
      if loaded.None? {
        return;
      }
      var rules := loaded.value;
      ghost var view := View();
      for i := 0 to |rules|
        invariant View() == view
        invariant fired == Firing(rules[..i], e, parse, matches)
      {
        var rule := rules[i];
        assert rules[..i + 1][..i] == rules[..i];
        if !PassesGate(rule, e) {
          continue;
        }
        var conditions := parse(rule.conditions);
        if conditions.None? {
          continue;
        }
        var holds := EvaluateConditions(conditions.value, rule.logic, e, matches);
        if !holds {
          continue;
        }
        fired := fired + [rule];
      }
      assert rules[..|rules|] == rules;
    }
  }

  // ---- The cache under concurrent loaders and writers -------------------------

  /** Who holds the engine's mutex: nobody, a loader before its read, or one that has read. */
  datatype Mutex = Free | Reading | Loaded(rules: seq<Rule>)

  /**
   * `pending` holds the handlers that have written the table and not yet called
   * InvalidateCache, and whether they read the row again before they do: Create, Update and
   * Toggle do, and return without invalidating when that fails; Delete does not.
   * `cacheBehind` and `loadBehind` say that this has happened since the read of the cached
   * rules, or since the read of the rules in a loader's hand.
   */
  datatype State = State(db: seq<Rule>, cache: Cache, now: Time, mutex: Mutex, pending: map<nat, bool>,
                         cacheBehind: bool, loadBehind: bool)

  datatype Step =
    | Tick(to: Time)
    | Write(handler: nat, db: seq<Rule>, rereads: bool)
    | Abandon(handler: nat)
    | Invalidate(handler: nat)
    | Miss
    | Read
    | ReadFails
    | Store

  ghost predicate Init(s: State) {
    s.cache == EMPTY_CACHE && s.mutex == Free && s.pending == map[] && !s.cacheBehind && !s.loadBehind
  }

  /** An Evaluate that would be answered from the cache. */
  predicate Hit(s: State) {
    s.mutex == Free && s.cache.Live(s.now)
  }

  ghost predicate Next(s: State, step: Step, s': State) {
    match step
    case Tick(to) => s.now <= to && s' == s.(now := to)
    case Write(h, db, rereads) => h !in s.pending && s' == s.(db := db, pending := s.pending[h := rereads])
    case Abandon(h) =>
      h in s.pending && s.pending[h] && s' == s.(pending := s.pending - {h}, cacheBehind := true, loadBehind := true)
    case Invalidate(h) =>
      && s.mutex == Free && h in s.pending
      && s' == s.(cache := s.cache.Invalidated(), pending := s.pending - {h}, cacheBehind := false)
    case Miss => s.mutex == Free && !s.cache.Live(s.now) && s' == s.(mutex := Reading)
    case Read => s.mutex == Reading && s' == s.(mutex := Loaded(Enabled(s.db)), loadBehind := false)
    case ReadFails => s.mutex == Reading && s' == s.(mutex := Free)
    case Store =>
      s.mutex.Loaded? && s' == s.(cache := Stored(s.mutex.rules, s.now), mutex := Free, cacheBehind := s.loadBehind)
  }

  /** A run: states joined by steps, from an initial one. */
  ghost predicate Run(states: seq<State>, steps: seq<Step>) {
    && |states| == |steps| + 1
    && Init(states[0])
    && forall i :: 0 <= i < |steps| ==> Next(states[i], steps[i], states[i + 1])
  }

  /**
   * Stale rules, in the cache or in a loader's hand, imply a handler that has yet to
   * invalidate, or one that has returned without doing so since these rules were read.
   */
  ghost predicate Coherent(s: State) {
    && (s.cache.Live(s.now) && s.cache.rules != Enabled(s.db) ==> s.pending != map[] || s.cacheBehind)
    && (s.mutex.Loaded? && s.mutex.rules != Enabled(s.db) ==> s.pending != map[] || s.loadBehind)
  }

  lemma CoherentStep(s: State, step: Step, s': State)
    requires Coherent(s) && Next(s, step, s')
    ensures Coherent(s')
  {
    if step.Write? {
      assert step.handler in s'.pending;
    }
  }

  /** In every state of every run the cache is coherent. */
  lemma {:induction false} CacheCoherence(states: seq<State>, steps: seq<Step>, i: nat)
    requires Run(states, steps) && i < |states|
    ensures Coherent(states[i])
  {
    if i > 0 {
      CacheCoherence(states, steps, i - 1);
      CoherentStep(states[i - 1], steps[i - 1], states[i]);
    }
  }

  /**
   * An Evaluate served while no handler stands between its write and its invalidation, and
   * none has left the cache behind, uses exactly the current rules.
   */
  lemma ServedRulesAreCurrent(states: seq<State>, steps: seq<Step>, i: nat, e: Event,
                              parse: string -> Option<seq<Condition>>, matches: (Condition, Event) -> bool)
    requires Run(states, steps) && i < |states| && states[i].pending == map[]
    ensures Hit(states[i]) && !states[i].cacheBehind ==>
              Firing(states[i].cache.rules, e, parse, matches) == Firing(Enabled(states[i].db), e, parse, matches)
    ensures states[i].mutex.Loaded? && !states[i].loadBehind ==> states[i].mutex.rules == Enabled(states[i].db)
  {
    CacheCoherence(states, steps, i);
  }

  /**
   * The cache of state i was read by the loader step j and stored by step k: its content is
   * the table's as of state j, and it expires CACHE_TTL after the store.
   */
  ghost predicate LoadedBy(states: seq<State>, steps: seq<Step>, i: nat, j: nat, k: nat) {
    && j < k < i < |states| == |steps| + 1
    && steps[j] == Read && steps[k] == Store
    && states[i].cache == Stored(Enabled(states[j].db), states[k].now)
    && forall m :: j < m <= k ==> states[m].mutex == Loaded(Enabled(states[j].db))
  }

  lemma {:induction false} ReadBefore(states: seq<State>, steps: seq<Step>, k: nat) returns (j: nat)
    requires Run(states, steps) && k < |states| && states[k].mutex.Loaded?
    ensures j < k && steps[j] == Read
    ensures forall m :: j < m <= k ==> states[m].mutex == Loaded(Enabled(states[j].db))
  {
    assert k > 0 && Next(states[k - 1], steps[k - 1], states[k]);
    if steps[k - 1] == Read {
      return k - 1;
    }
    j := ReadBefore(states, steps, k - 1);
  }

  /** Every live cache content goes back to one load. */
  lemma {:induction false} EveryCacheHasALoad(states: seq<State>, steps: seq<Step>, i: nat) returns (j: nat, k: nat)
    requires Run(states, steps) && i < |states| && states[i].cache.expiry > ZERO_TIME
    ensures LoadedBy(states, steps, i, j, k)
  {
    assert i > 0 && Next(states[i - 1], steps[i - 1], states[i]);
    if steps[i - 1] == Store {
      k := i - 1;
      j := ReadBefore(states, steps, k);
    } else {
      j, k := EveryCacheHasALoad(states, steps, i - 1);
    }
  }

  lemma {:induction false} ClockAdvances(states: seq<State>, steps: seq<Step>, i: nat, j: nat)
    requires Run(states, steps) && i <= j < |states|
    ensures states[i].now <= states[j].now
    decreases j
  {
    if i < j {
      ClockAdvances(states, steps, i, j - 1);
      assert Next(states[j - 1], steps[j - 1], states[j]);
    }
  }

  /**
   * A hit is never older than the TTL counted from the store, so a load whose read and
   * store share one instant is never served CACHE_TTL or more after its read.
   */
  lemma StalenessBound(states: seq<State>, steps: seq<Step>, i: nat) returns (j: nat, k: nat)
    requires Run(states, steps) && i < |states| && Hit(states[i])
    ensures LoadedBy(states, steps, i, j, k)
    ensures states[k].now <= states[i].now < states[k].now + CACHE_TTL
    ensures states[j].now == states[k].now ==> states[i].now - states[j].now < CACHE_TTL
  {
    j, k := EveryCacheHasALoad(states, steps, i);
    ClockAdvances(states, steps, k, i);
  }

  /** Counted from the read the TTL is no bound: a load that takes `delay` serves its rules that much longer. */
  lemma SlowLoadOutlivesTTL(db: seq<Rule>, start: Time, delay: nat) returns (states: seq<State>, steps: seq<Step>)
    ensures Run(states, steps) && |states| == 6
    ensures steps[1] == Read && states[1].now == start
    ensures Hit(states[5]) && states[5].cache.rules == Enabled(db)
    ensures states[5].now == start + delay + CACHE_TTL - 1
  {
    var s0 := State(db, EMPTY_CACHE, start, Free, map[], false, false);
    var s1 := s0.(mutex := Reading);
    var s2 := s1.(mutex := Loaded(Enabled(db)));
    var s3 := s2.(now := start + delay);
    var s4 := s3.(cache := Stored(Enabled(db), start + delay), mutex := Free);
    var s5 := s4.(now := start + delay + CACHE_TTL - 1);
    states := [s0, s1, s2, s3, s4, s5];
    steps := [Miss, Read, Tick(start + delay), Store, Tick(start + delay + CACHE_TTL - 1)];
    assert forall i :: 0 <= i < |steps| ==> Next(states[i], steps[i], states[i + 1]);
  }

  /** A loader left behind has had its rules in hand since before a handler returned without invalidating. */
  lemma {:induction false} LoadBehindHasACause(states: seq<State>, steps: seq<Step>, i: nat) returns (j: nat)
    requires Run(states, steps) && i < |states| && states[i].mutex.Loaded? && states[i].loadBehind
    ensures j < i && steps[j].Abandon? && forall m :: j <= m <= i ==> states[m].mutex == states[i].mutex
  {
    assert i > 0 && Next(states[i - 1], steps[i - 1], states[i]);
    if steps[i - 1].Abandon? {
      return i - 1;
    }
    j := LoadBehindHasACause(states, steps, i - 1);
  }

  /**
   * A cache left behind means a handler that returned without invalidating, no invalidation
   * since, and that every load stored since was already in its loader's hand then.
   */
  lemma {:induction false} CacheBehindHasACause(states: seq<State>, steps: seq<Step>, i: nat) returns (j: nat)
    requires Run(states, steps) && i < |states| && states[i].cacheBehind
    ensures j < i && steps[j].Abandon?
    ensures forall m :: j < m < i ==> !steps[m].Invalidate?
    ensures forall m :: j < m < i && steps[m] == Store ==> states[j].mutex == states[m].mutex
  {
    assert i > 0 && Next(states[i - 1], steps[i - 1], states[i]);
    if steps[i - 1].Abandon? {
      return i - 1;
    } else if steps[i - 1] == Store {
      j := LoadBehindHasACause(states, steps, i - 1);
      forall m | j < m < i ensures !steps[m].Invalidate? && (steps[m] == Store ==> m == i - 1) {
        assert Next(states[m], steps[m], states[m + 1]) && states[m].mutex == states[i - 1].mutex;
      }
    } else {
      j := CacheBehindHasACause(states, steps, i - 1);
    }
  }

  /**
   * How long stale rules are served after a handler has given up: less than the TTL from
   * then on, or from the store if a load that had been read before was still in hand.
   */
  lemma StaleServiceIsBounded(states: seq<State>, steps: seq<Step>, i: nat) returns (j: nat, k: nat)
    requires Run(states, steps) && i < |states| && Hit(states[i])
    requires states[i].pending == map[] && states[i].cache.rules != Enabled(states[i].db)
    ensures j < i && k < i && steps[j].Abandon? && steps[k] == Store
    ensures k < j ==> states[i].now < states[j].now + CACHE_TTL
    ensures j < k ==> states[j].mutex.Loaded? && states[i].now < states[k].now + CACHE_TTL
  {
    CacheCoherence(states, steps, i);
    j := CacheBehindHasACause(states, steps, i);
    var r;
    r, k := StalenessBound(states, steps, i);
    if k < j {
      ClockAdvances(states, steps, k, j);
    }
  }

  /** Such a run: a rule is written, the re-read fails, and the cache goes on serving the rules of before. */
  lemma AbandonedWriteServesStale(db: seq<Rule>, written: seq<Rule>, start: Time) returns (states: seq<State>, steps: seq<Step>)
    requires Enabled(db) != Enabled(written)
    ensures Run(states, steps) && |states| == 7 && steps[4] == Abandon(0)
    ensures states[4].now == start && states[6].now == start + CACHE_TTL - 1
    ensures Hit(states[6]) && states[6].pending == map[]
    ensures states[6].cache.rules == Enabled(db) && Enabled(states[6].db) == Enabled(written)
  {
    var s0 := State(db, EMPTY_CACHE, start, Free, map[], false, false);
    var s1 := s0.(mutex := Reading);
    var s2 := s1.(mutex := Loaded(Enabled(db)));
    var s3 := s2.(cache := Stored(Enabled(db), start), mutex := Free);
    var s4 := s3.(db := written, pending := map[0 := true]);
    var s5 := s4.(pending := map[], cacheBehind := true, loadBehind := true);
    var s6 := s5.(now := start + CACHE_TTL - 1);
    assert map[0 := true] - {0} == map[];
    states := [s0, s1, s2, s3, s4, s5, s6];
    steps := [Miss, Read, Store, Write(0, written, true), Abandon(0), Tick(start + CACHE_TTL - 1)];
    assert forall i :: 0 <= i < |steps| ==> Next(states[i], steps[i], states[i + 1]);
  }
}
