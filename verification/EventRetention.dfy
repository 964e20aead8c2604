/**
 * Event retention against the monthly rollup: the nightly purge
 * (internal/jobs/retention.go), the rollup of the previous calendar month
 * (internal/jobs/rollup.go), and the queries under them (internal/repo/events.go).
 * SQLite's datetime() compares whole seconds, which is the unit of time here.
 */
module EventRetention {
  import opened Common
  import opened Calendar

  datatype Event = Event(id: string, level: string, sourceType: string, sourceID: string, eventType: string, createdAt: int)

  datatype RollupKey = RollupKey(app: string, year: int, month: int, eventType: string, severity: string)

  type Rollups = map<RollupKey, nat>

  // ---- Queries --------------------------------------------------------------

  const LEVELS := {"debug", "info", "warn", "error", "critical"}

  function RetentionDays(level: string): int {
    if level == "debug" then 1
    else if level == "info" then 7
    else if level == "warn" then 30
    else 90
  }

  /** The purge of one level removes the event. */
  predicate Expired(e: Event, now: int) {
    e.level in LEVELS && e.createdAt < now - RetentionDays(e.level) * DAY
  }

  function Retained(events: set<Event>, now: int): set<Event> {
    set e | e in events && !Expired(e, now)
  }

  /** The event is counted in the row. */
  predicate Counts(e: Event, k: RollupKey)
    requires ValidMonth(k.month)
  {
    var (y, m) := NextMonth(k.year, k.month);
    && e.sourceType == "app" && e.sourceID == k.app && e.eventType == k.eventType && e.level == k.severity
    && DAY * MonthStart(k.year, k.month) <= e.createdAt < DAY * MonthStart(y, m)
  }

  function Counted(events: set<Event>, k: RollupKey): set<Event>
    requires ValidMonth(k.month)
  {
    set e | e in events && Counts(e, k)
  }

  function Count(events: set<Event>, k: RollupKey): nat
    requires ValidMonth(k.month)
  {
    |Counted(events, k)|
  }

  function KeyOf(e: Event, year: int, month: int): RollupKey {
    RollupKey(e.sourceID, year, month, e.eventType, e.level)
  }

  function KeysOf(events: set<Event>, apps: set<string>, year: int, month: int): (keys: set<RollupKey>)
    requires ValidMonth(month)
    ensures forall k | k in keys :: k.month == month
  {
    set e | e in events && e.sourceID in apps && Counts(e, KeyOf(e, year, month)) :: KeyOf(e, year, month)
  }

  /**
   * The rows GROUP BY event_type, level yields for the listed apps in one month; a group
   * without events has no row.
   */
  function Fresh(events: set<Event>, apps: set<string>, year: int, month: int): Rollups
    requires ValidMonth(month)
  {
    map k | k in KeysOf(events, apps, year, month) :: Count(events, k)
  }

  /** The event was stamped on a day of the month. */
  ghost predicate StampedIn(e: Event, year: int, month: int) {
    exists t: Clock :: ValidClock(t) && Instant(t) == e.createdAt && t.date.year == year && t.date.month == month
  }

  /** What counts: the app's events of that type and level whose UTC date lies in the month. */
  lemma CountsIff(e: Event, k: RollupKey)
    requires ValidMonth(k.month)
    ensures Counts(e, k) <==>
              && e.sourceType == "app" && e.sourceID == k.app && e.eventType == k.eventType && e.level == k.severity
              && StampedIn(e, k.year, k.month)
  {
    MonthStep(k.year, k.month);
    var day := e.createdAt / DAY;
    if DAY * MonthStart(k.year, k.month) <= e.createdAt < DAY * (MonthStart(k.year, k.month) + DaysInMonth(k.year, k.month)) {
      var t := Clock(Date(k.year, k.month, day - MonthStart(k.year, k.month) + 1), e.createdAt % DAY);
      assert ValidClock(t) && Instant(t) == e.createdAt;
    }
    if StampedIn(e, k.year, k.month) {
      var t: Clock :| ValidClock(t) && Instant(t) == e.createdAt && t.date.year == k.year && t.date.month == k.month;
      DayInMonth(t.date);
    }
  }

  /** The date of a clock reading decides. */
  lemma StampedOn(e: Event, t: Clock, year: int, month: int)
    requires ValidClock(t) && Instant(t) == e.createdAt
    ensures StampedIn(e, year, month) <==> t.date.year == year && t.date.month == month
  {
    if other: Clock :| ValidClock(other) && Instant(other) == e.createdAt && other.date.year == year && other.date.month == month {
      DateOfDay(t.date, other.date);
    }
  }

  /** The number of events a row is to hold. */
  lemma CountIs(events: set<Event>, k: RollupKey)
    requires ValidMonth(k.month)
    ensures Count(events, k) ==
              |set e | e in events && e.sourceType == "app" && e.sourceID == k.app && e.eventType == k.eventType
                       && e.level == k.severity && StampedIn(e, k.year, k.month)|
  {
    hide Counts, StampedIn;
    forall e ensures Counts(e, k) <==>
              && e.sourceType == "app" && e.sourceID == k.app && e.eventType == k.eventType && e.level == k.severity
              && StampedIn(e, k.year, k.month)
    {
      CountsIff(e, k);
    }
    assert Counted(events, k) ==
           set e | e in events && e.sourceType == "app" && e.sourceID == k.app && e.eventType == k.eventType
                   && e.level == k.severity && StampedIn(e, k.year, k.month);
  }

  lemma CountIsPositive(events: set<Event>, k: RollupKey)
    requires ValidMonth(k.month)
    ensures Count(events, k) > 0 <==> exists e :: e in events && Counts(e, k)
  {
    var counted := Counted(events, k);
    if e :| e in events && Counts(e, k) {
      assert e in counted;
    }
    if Count(events, k) > 0 {
      var e :| e in counted;
    }
  }

  lemma FreshIs(events: set<Event>, apps: set<string>, year: int, month: int, k: RollupKey)
    requires ValidMonth(month)
    ensures k in Fresh(events, apps, year, month)
            <==> k.app in apps && k.year == year && k.month == month && Count(events, k) > 0
    ensures k in Fresh(events, apps, year, month) ==> Fresh(events, apps, year, month)[k] == Count(events, k)
  {
    if k.year == year && k.month == month {
      CountIsPositive(events, k);
      if e :| e in events && Counts(e, k) {
        assert KeyOf(e, year, month) == k;
      }
    }
  }

  lemma FreshOneMore(events: set<Event>, apps: set<string>, app: string, year: int, month: int)
    requires ValidMonth(month)
    ensures Fresh(events, apps + {app}, year, month) == Fresh(events, apps, year, month) + Fresh(events, {app}, year, month)
  {
    assert KeysOf(events, apps + {app}, year, month) == KeysOf(events, apps, year, month) + KeysOf(events, {app}, year, month);
  }

  function Listed(apps: seq<string>): set<string> { set app | app in apps }

  lemma OneAppMore(events: set<Event>, apps: seq<string>, i: nat, year: int, month: int, rollups: Rollups)
    requires ValidMonth(month) && i < |apps|
    ensures rollups + Fresh(events, Listed(apps[..i + 1]), year, month)
            == rollups + Fresh(events, Listed(apps[..i]), year, month) + Fresh(events, {apps[i]}, year, month)
  {
    assert apps[..i + 1] == apps[..i] + [apps[i]];
    assert Listed(apps[..i + 1]) == Listed(apps[..i]) + {apps[i]};
    FreshOneMore(events, Listed(apps[..i]), apps[i], year, month);
    MergeTwice(rollups, Fresh(events, Listed(apps[..i]), year, month), Fresh(events, {apps[i]}, year, month));
  }

  lemma MergeTwice(a: Rollups, b: Rollups, c: Rollups)
    ensures a + (b + c) == a + b + c
  {
  }

  /** What the rollup of the month before `now` makes of the rows. */
  lemma RolledUp(before: Rollups, events: set<Event>, apps: seq<string>, now: Clock)
    requires ValidClock(now)
    ensures var (year, month) := PrevMonth(now.date.year, now.date.month);
            var after := before + Fresh(events, Listed(apps), year, month);
            forall k: RollupKey ::
              var n := |set e | e in events && e.sourceType == "app" && e.sourceID == k.app && e.eventType == k.eventType
                                && e.level == k.severity && StampedIn(e, k.year, k.month)|;
              Find(after, k) ==
              if k.app in apps && 12 * k.year + k.month == 12 * now.date.year + now.date.month - 1 && 1 <= k.month <= 12 && n > 0
              then Some(n) else Find(before, k)
  {
    hide Fresh, Count, StampedIn;
    var (year, month) := PrevMonth(now.date.year, now.date.month);
    forall k: RollupKey
      ensures var n := |set e | e in events && e.sourceType == "app" && e.sourceID == k.app && e.eventType == k.eventType
                                && e.level == k.severity && StampedIn(e, k.year, k.month)|;
              Find(before + Fresh(events, Listed(apps), year, month), k) ==
              if k.app in apps && 12 * k.year + k.month == 12 * now.date.year + now.date.month - 1 && 1 <= k.month <= 12 && n > 0
              then Some(n) else Find(before, k)
    {
      FreshIs(events, Listed(apps), year, month, k);
      if ValidMonth(k.month) {
        CountIs(events, k);
      }
    }
  }

  // ---- The jobs -------------------------------------------------------------

  class EventStore {
    var events: set<Event>
    var rollups: Rollups

    constructor ()
      ensures events == {} && rollups == map[]
    {
      events, rollups := {}, map[];
    }

    method DeleteByLevelBefore(level: string, before: int)
      modifies this`events
      ensures events == set e | e in old(events) && !(e.level == level && e.createdAt < before)
    {
      events := set e | e in events && !(e.level == level && e.createdAt < before);
    }

    /** Purges level by level, in map order. */
    method RunEventRetention(now: int)
      modifies this`events
      ensures events == Retained(old(events), now)
      ensures forall e :: e in events <==>
                && e in old(events)
                && (e.level == "debug" ==> e.createdAt >= now - 86400)
                && (e.level == "info" ==> e.createdAt >= now - 7 * 86400)
                && (e.level == "warn" ==> e.createdAt >= now - 30 * 86400)
                && (e.level == "error" || e.level == "critical" ==> e.createdAt >= now - 90 * 86400)
    {
      var levels := LEVELS;
      while levels != {}
        invariant levels <= LEVELS
        invariant events == set e | e in old(events) && !(Expired(e, now) && e.level !in levels)
        decreases levels
      {
        var level :| level in levels;
        levels := levels - {level};
        DeleteByLevelBefore(level, now - RetentionDays(level) * DAY);
      }
    }

    /** The query for one app. */
    function GroupByTypeAndLevel(app: string, year: int, month: int): Rollups
      requires ValidMonth(month)
      reads this
    {
      Fresh(events, {app}, year, month)
    }

    /** Rolls up the calendar month before `now` for every listed app. */
    method RunMonthlyRollup(now: Clock, apps: seq<string>)
      requires ValidClock(now)
      modifies this`rollups
      ensures var (year, month) := PrevMonth(now.date.year, now.date.month);
              rollups == old(rollups) + Fresh(events, Listed(apps), year, month)
      ensures forall k: RollupKey ::
                var n := |set e | e in events && e.sourceType == "app" && e.sourceID == k.app && e.eventType == k.eventType
                                  && e.level == k.severity && StampedIn(e, k.year, k.month)|;
                Find(rollups, k) ==
                if k.app in apps && 12 * k.year + k.month == 12 * now.date.year + now.date.month - 1 && 1 <= k.month <= 12 && n > 0
                then Some(n) else Find(old(rollups), k)
    {
      var (year, month) := PrevMonth(now.date.year, now.date.month);
      assert Listed(apps[..0]) == {};
      for i := 0 to |apps|
        invariant rollups == old(rollups) + Fresh(events, Listed(apps[..i]), year, month)
      {
        OneAppMore(events, apps, i, year, month, old(rollups));
        UpsertAll(GroupByTypeAndLevel(apps[i], year, month));
      }
      assert apps[..|apps|] == apps;
      RolledUp(old(rollups), events, apps, now);
    }

    /** INSERT OR REPLACE, one row at a time. */
    method UpsertAll(rows: Rollups)
      modifies this`rollups
      ensures rollups == old(rollups) + rows
    {
      var keys := rows.Keys;
      while keys != {}
        invariant keys <= rows.Keys
        invariant rollups == old(rollups) + (map k | k in rows && k !in keys :: rows[k])
        decreases keys
      {
        var k :| k in keys;
        keys := keys - {k};
        rollups := rollups[k := rows[k]];
      }
      assert (map k | k in rows && k !in keys :: rows[k]) == rows;
    }
  }

  // ---- Runs of the jobs -------------------------------------------------------------

  type Month = m: int | ValidMonth(m) witness 1

  /** A rollup between two statements: its month, and the rows of the app it queried that it has not written yet. */
  datatype Job = Job(year: int, month: Month, rows: Rollups)

  /** `created` remembers every event ever stored, `jobs` every rollup; a manual run may overlap the scheduled one. */
  datatype State = State(now: Clock, events: set<Event>, created: set<Event>, rollups: Rollups, jobs: map<nat, Job>)

  /**
   * A run that fails takes no further step, and a purge that fails half-way has done part of
   * its work. An event is stamped before it is stored, so it may be stored with an earlier stamp.
   */
  datatype Step =
    | Tick(to: Clock)
    | Create(event: Event)
    | Purge(left: set<Event>)
    | Start(job: nat)
    | Query(job: nat, app: string)
    | Write(job: nat, key: RollupKey)

  ghost predicate Init(s: State) {
    ValidClock(s.now) && s.events == s.created == {} && s.rollups == map[] && s.jobs == map[]
  }

  function JobAt(now: Clock): Job
    requires ValidClock(now)
  {
    var (year, month) := PrevMonth(now.date.year, now.date.month);
    Job(year, month, map[])
  }

  function Queried(job: Job, events: set<Event>, app: string): Job {
    job.(rows := Fresh(events, {app}, job.year, job.month))
  }

  function Written(s: State, job: nat, k: RollupKey): State
    requires job in s.jobs && k in s.jobs[job].rows
  {
    var j := s.jobs[job];
    s.(rollups := s.rollups[k := j.rows[k]], jobs := s.jobs[job := j.(rows := j.rows - {k})])
  }

  ghost predicate Next(s: State, step: Step, s': State)
    requires ValidClock(s.now)
  {
    match step
    case Tick(to) => ValidClock(to) && Instant(s.now) <= Instant(to) && s' == s.(now := to)
    case Create(e) =>
      && e !in s.created && e.createdAt <= Instant(s.now)
      && s' == s.(events := s.events + {e}, created := s.created + {e})
    case Purge(left) => Retained(s.events, Instant(s.now)) <= left <= s.events && s' == s.(events := left)
    case Start(job) => job !in s.jobs && s' == s.(jobs := s.jobs[job := JobAt(s.now)])
    case Query(job, app) => job in s.jobs && s' == s.(jobs := s.jobs[job := Queried(s.jobs[job], s.events, app)])
    case Write(job, k) =>
      job in s.jobs && k in s.jobs[job].rows && s' == Written(s, job, k)
  }

  ghost predicate Run(states: seq<State>, steps: seq<Step>) {
    && |states| == |steps| + 1
    && (forall i :: 0 <= i < |states| ==> ValidClock(states[i].now))
    && Init(states[0])
    && forall i :: 0 <= i < |steps| ==> Next(states[i], steps[i], states[i + 1])
  }

  /** Only a purge removes events, and only after their window. */
  ghost predicate Inv(s: State)
    requires ValidClock(s.now)
  {
    && s.events <= s.created
    && forall e :: e in s.created && !Expired(e, Instant(s.now)) ==> e in s.events
  }

  lemma InvStep(s: State, step: Step, s': State)
    requires ValidClock(s.now) && ValidClock(s'.now) && Inv(s) && Next(s, step, s')
    ensures Inv(s')
  {
    hide Queried, JobAt, DayNumber;
  }

  lemma {:induction false} InvHolds(states: seq<State>, steps: seq<Step>, i: nat)
    requires Run(states, steps) && i < |states|
    ensures Inv(states[i])
  {
    if i > 0 {
      InvHolds(states, steps, i - 1);
      InvStep(states[i - 1], steps[i - 1], states[i]);
    }
  }

  /** The window of the row's level reaches back to the beginning of its month; other levels are kept for ever. */
  predicate InTime(now: Clock, k: RollupKey)
    requires ValidClock(now) && ValidMonth(k.month)
  {
    k.severity in LEVELS ==> Instant(now) - RetentionDays(k.severity) * DAY <= DAY * MonthStart(k.year, k.month)
  }

  /** For error and critical the whole following month is in time: two months last at most 62 days. */
  lemma FollowingMonthIsInTime(now: Clock, k: RollupKey)
    requires ValidClock(now) && ValidMonth(k.month) && (k.year, k.month) == PrevMonth(now.date.year, now.date.month)
    requires k.severity == "error" || k.severity == "critical"
    ensures InTime(now, k)
  {
    TwoMonths(k.year, k.month);
    DayInMonth(now.date);
    MonthStep(now.date.year, now.date.month);
    assert NextMonth(k.year, k.month) == (now.date.year, now.date.month);
  }

  /** In time, no event of the month has been purged. */
  lemma NothingPurgedYet(s: State, k: RollupKey)
    requires ValidClock(s.now) && Inv(s) && ValidMonth(k.month) && InTime(s.now, k)
    ensures Counted(s.events, k) == Counted(s.created, k)
  {
    hide DayNumber, MonthStart;
    forall e | e in s.created && Counts(e, k) ensures e in s.events {
      assert !Expired(e, Instant(s.now));
    }
  }

  // ---- The rows of a run ----------------------------------------------------------

  predicate Writes(step: Step, k: RollupKey) { step.Write? && step.key == k }

  /** The last step before i that writes the row. */
  function LastWrite(steps: seq<Step>, i: nat, k: RollupKey): (w: Option<nat>)
    requires i <= |steps|
    ensures w.Some? ==> w.value < i && Writes(steps[w.value], k)
  {
    if i == 0 then None
    else if Writes(steps[i - 1], k) then Some(i - 1)
    else LastWrite(steps, i - 1, k)
  }

  /** The last query of a job before step i. */
  function QueryOf(steps: seq<Step>, i: nat, job: nat): (q: nat)
    requires i <= |steps|
    ensures q <= i
  {
    if i == 0 then 0
    else if steps[i - 1].Query? && steps[i - 1].job == job then i - 1
    else QueryOf(steps, i - 1, job)
  }

  /** The query behind the row. */
  function SeenAt(steps: seq<Step>, i: nat, k: RollupKey): (q: nat)
    requires i <= |steps| && LastWrite(steps, i, k).Some?
    ensures q < i
  {
    var w := LastWrite(steps, i, k).value;
    QueryOf(steps, w, steps[w].job)
  }

  lemma QueriedIs(job: Job, events: set<Event>, app: string, k: RollupKey)
    ensures k in Queried(job, events, app).rows <==>
            k.app == app && k.year == job.year && k.month == job.month && Count(events, k) > 0
    ensures k in Queried(job, events, app).rows ==> Queried(job, events, app).rows[k] == Count(events, k)
  {
    FreshIs(events, {app}, job.year, job.month, k);
  }

  lemma JobStep(s: State, step: Step, s': State, job: nat, k: RollupKey)
    requires ValidClock(s.now) && Next(s, step, s') && job in s'.jobs && k in s'.jobs[job].rows
    ensures job in s.jobs
    ensures if step.Query? && step.job == job
            then step.app == k.app && ValidMonth(k.month) && s'.jobs[job].rows[k] == Count(s.events, k) > 0
            else k in s.jobs[job].rows && s'.jobs[job].rows[k] == s.jobs[job].rows[k]
  {
    hide Count, Queried, Instant, Retained;
    if step.Query? && step.job == job {
      QueriedIs(s.jobs[job], s.events, step.app, k);
    }
  }

  lemma RowStep(s: State, step: Step, s': State, k: RollupKey)
    requires ValidClock(s.now) && Next(s, step, s')
    ensures if Writes(step, k)
            then && step.job in s.jobs && k in s.jobs[step.job].rows
                 && Find(s'.rollups, k) == Some(s.jobs[step.job].rows[k])
            else Find(s'.rollups, k) == Find(s.rollups, k)
  {
    hide Queried, JobAt, Instant, Retained;
  }

  /** What a job has in hand is what its last query found. */
  lemma {:induction false} QueryIs(states: seq<State>, steps: seq<Step>, i: nat, job: nat, k: RollupKey)
    requires Run(states, steps) && i < |states| && job in states[i].jobs && k in states[i].jobs[job].rows
    ensures var q := QueryOf(steps, i, job);
            && q < i && steps[q] == Query(job, k.app) && ValidMonth(k.month)
            && states[i].jobs[job].rows[k] == Count(states[q].events, k) > 0
  {
    hide Next, Count;
    JobStep(states[i - 1], steps[i - 1], states[i], job, k);
    if !(steps[i - 1].Query? && steps[i - 1].job == job) {
      QueryIs(states, steps, i - 1, job, k);
    }
  }

  /** Every row holds the number of events that the query behind its last write found in store. */
  lemma {:induction false} RowIsOfLastWrite(states: seq<State>, steps: seq<Step>, i: nat, k: RollupKey)
    requires Run(states, steps) && i < |states|
    ensures var w := LastWrite(steps, i, k);
            && (w.None? ==> k !in states[i].rollups)
            && (w.Some? ==> var q := SeenAt(steps, i, k);
                  && steps[q] == Query(steps[w.value].job, k.app) && ValidMonth(k.month)
                  && k in states[i].rollups && states[i].rollups[k] == Count(states[q].events, k) > 0)
  {
    hide Next, Count;
    if i > 0 {
      RowIsOfLastWrite(states, steps, i - 1, k);
      RowStep(states[i - 1], steps[i - 1], states[i], k);
      if Writes(steps[i - 1], k) {
        QueryIs(states, steps, i - 1, steps[i - 1].job, k);
      }
    }
  }

  /** A job that has queried an app, and has the row no longer in hand, has written it. */
  lemma {:induction false} NoRowIsLeftOut(states: seq<State>, steps: seq<Step>, q: nat, i: nat, k: RollupKey)
    requires Run(states, steps) && q < i < |states| && steps[q].Query? && steps[q].app == k.app
    requires var job := steps[q].job;
             && job in states[q].jobs && k.year == states[q].jobs[job].year && k.month == states[q].jobs[job].month
             && QueryOf(steps, i, job) == q
    requires Count(states[q].events, k) > 0
    ensures var job := steps[q].job;
            && job in states[i].jobs
            && (k !in states[i].jobs[job].rows ==> LastWrite(steps, i, k).Some? && q < LastWrite(steps, i, k).value)
  {
    hide Count, Queried, Instant, Retained;
    assert Next(states[i - 1], steps[i - 1], states[i]);
    if i - 1 == q {
      QueriedIs(states[q].jobs[steps[q].job], states[q].events, k.app, k);
    } else {
      NoRowIsLeftOut(states, steps, q, i - 1, k);
    }
  }

  predicate Stores(step: Step, k: RollupKey)
    requires ValidMonth(k.month)
  {
    step.Create? && Counts(step.event, k)
  }

  ghost predicate NoneStored(steps: seq<Step>, v: nat, w: nat, k: RollupKey)
    requires v <= w <= |steps| && ValidMonth(k.month)
  {
    forall m :: v <= m < w ==> !Stores(steps[m], k)
  }

  lemma CreatedStep(s: State, step: Step, s': State, k: RollupKey)
    requires ValidClock(s.now) && Next(s, step, s') && ValidMonth(k.month)
    ensures Counted(s'.created, k) == Counted(s.created, k) + (if Stores(step, k) then {step.event} else {})
    ensures Stores(step, k) ==> step.event !in s.created
  {
    hide Queried, JobAt, Instant;
  }

  lemma CreatedStepAt(states: seq<State>, steps: seq<Step>, m: nat, k: RollupKey)
    requires Run(states, steps) && m < |steps| && ValidMonth(k.month)
    ensures Counted(states[m].created, k) <= Counted(states[m + 1].created, k)
    ensures Counted(states[m].created, k) == Counted(states[m + 1].created, k) <==> !Stores(steps[m], k)
  {
    hide Next;
    CreatedStep(states[m], steps[m], states[m + 1], k);
  }

  /** The events of a month grow, and are the same at two points of a run exactly if none was stored in between. */
  lemma {:induction false} CreatedGrows(states: seq<State>, steps: seq<Step>, v: nat, w: nat, k: RollupKey)
    requires Run(states, steps) && v <= w < |states| && ValidMonth(k.month)
    ensures Counted(states[v].created, k) <= Counted(states[w].created, k)
    ensures Counted(states[v].created, k) == Counted(states[w].created, k) <==> NoneStored(steps, v, w, k)
    decreases w
  {
    hide Next, Stores, Counted;
    if v < w {
      CreatedGrows(states, steps, v, w - 1, k);
      CreatedStepAt(states, steps, w - 1, k);
      assert NoneStored(steps, v, w, k) <==> NoneStored(steps, v, w - 1, k) && !Stores(steps[w - 1], k);
    }
  }

  lemma SubsetCount<T>(a: set<T>, b: set<T>)
    requires a <= b
    ensures |a| <= |b| && (|a| == |b| <==> a == b)
  {
    assert b == a + (b - a);
  }

  /** So do the numbers that queries in time find. */
  lemma FoundGrows(states: seq<State>, steps: seq<Step>, v: nat, w: nat, k: RollupKey)
    requires Run(states, steps) && v <= w < |states| && ValidMonth(k.month)
    requires InTime(states[v].now, k)
    ensures Count(states[v].events, k) <= Count(states[w].created, k)
    ensures Count(states[v].events, k) == Count(states[w].created, k) <==> NoneStored(steps, v, w, k)
  {
    hide Next, Counted, InTime;
    InvHolds(states, steps, v);
    NothingPurgedYet(states[v], k);
    CreatedGrows(states, steps, v, w, k);
    SubsetCount(Counted(states[v].created, k), Counted(states[w].created, k));
  }

  /** The row is there exactly if its month has such events, with their true number. */
  predicate RowIsTrue(s: State, k: RollupKey)
    requires ValidMonth(k.month)
  {
    Find(s.rollups, k) == if Count(s.created, k) > 0 then Some(Count(s.created, k)) else None
  }

  /** If there are events to count, the row has been written and none was stored after the query behind it. */
  ghost predicate Complete(states: seq<State>, steps: seq<Step>, i: nat, k: RollupKey)
    requires |states| == |steps| + 1 && i < |states| && ValidMonth(k.month)
  {
    Count(states[i].created, k) > 0 ==>
      LastWrite(steps, i, k).Some? && NoneStored(steps, SeenAt(steps, i, k), i, k)
  }

  /**
   * Retention never undercuts the rollup: in every run, whatever purges, failed and
   * overlapping runs came before, a row that was queried in time is the true one if and only
   * if it is complete.
   */
  lemma RollupIsExactIff(states: seq<State>, steps: seq<Step>, i: nat, k: RollupKey)
    requires Run(states, steps) && i < |states| && ValidMonth(k.month)
    requires LastWrite(steps, i, k).Some? ==> InTime(states[SeenAt(steps, i, k)].now, k)
    ensures RowIsTrue(states[i], k) <==> Complete(states, steps, i, k)
  {
    hide Next, InTime, Count, SeenAt, LastWrite;
    RowIsOfLastWrite(states, steps, i, k);
    if LastWrite(steps, i, k).Some? {
      FoundGrows(states, steps, SeenAt(steps, i, k), i, k);
    }
  }

  /**
   * What the schedule is for: a rollup that queries an app in the following month leaves,
   * once it has written what it found, exactly the true error and critical rows, unless an
   * event came late or a run that queried before wrote after.
   */
  lemma RollupIsExact(states: seq<State>, steps: seq<Step>, q: nat, i: nat, k: RollupKey)
    requires Run(states, steps) && q < i < |states| && steps[q].Query? && steps[q].app == k.app
    requires var job := steps[q].job;
             && job in states[q].jobs && k.year == states[q].jobs[job].year && k.month == states[q].jobs[job].month
             && job in states[i].jobs && QueryOf(steps, i, job) == q && k !in states[i].jobs[job].rows
    requires (k.year, k.month) == PrevMonth(states[q].now.date.year, states[q].now.date.month)
    requires k.severity == "error" || k.severity == "critical"
    requires NoneStored(steps, q, i, k)
    requires LastWrite(steps, i, k).Some? ==> q <= SeenAt(steps, i, k) && InTime(states[SeenAt(steps, i, k)].now, k)
    ensures RowIsTrue(states[i], k)
  {
    hide Next, InTime, Count, SeenAt, LastWrite, PrevMonth;
    FollowingMonthIsInTime(states[q].now, k);
    FoundGrows(states, steps, q, i, k);
    if Count(states[i].created, k) > 0 {
      NoRowIsLeftOut(states, steps, q, i, k);
    }
    RollupIsExactIff(states, steps, i, k);
  }

  lemma {:induction false} LaterWrite(steps: seq<Step>, i: nat, j: nat, k: RollupKey)
    requires i <= j <= |steps| && LastWrite(steps, i, k).Some?
    ensures LastWrite(steps, j, k).Some?
    decreases j
  {
    if i < j {
      LaterWrite(steps, i, j - 1, k);
    }
  }

  /**
   * Rows of any level: at two points of a run they are the same if and only if, between the
   * queries behind them, as many of the month's events came as went.
   */
  lemma RepeatedRollupIff(states: seq<State>, steps: seq<Step>, i: nat, j: nat, k: RollupKey)
    requires Run(states, steps) && i <= j < |states| && k in states[i].rollups
    ensures ValidMonth(k.month) && k in states[j].rollups
    ensures LastWrite(steps, i, k).Some? && LastWrite(steps, j, k).Some?
    ensures var before := Counted(states[SeenAt(steps, i, k)].events, k);
            var after := Counted(states[SeenAt(steps, j, k)].events, k);
            states[j].rollups[k] == states[i].rollups[k] <==> |before - after| == |after - before|
  {
    hide Next, Counted, SeenAt, LastWrite;
    RowIsOfLastWrite(states, steps, i, k);
    LaterWrite(steps, i, j, k);
    RowIsOfLastWrite(states, steps, j, k);
    var before := Counted(states[SeenAt(steps, i, k)].events, k);
    var after := Counted(states[SeenAt(steps, j, k)].events, k);
    assert before == (before - after) + (before * after) && after == (after - before) + (before * after);
  }

  /**
   * A row queried in time stays as it is, however often the rollup is repeated, if and only
   * if no event it counts was stored between the queries; it shrinks only if the later write
   * is of the earlier query.
   */
  lemma RowsInTimeStayIff(states: seq<State>, steps: seq<Step>, i: nat, j: nat, k: RollupKey)
    requires Run(states, steps) && i <= j < |states| && k in states[i].rollups
    requires ValidMonth(k.month) && LastWrite(steps, i, k).Some? && LastWrite(steps, j, k).Some?
    requires InTime(states[SeenAt(steps, i, k)].now, k) && InTime(states[SeenAt(steps, j, k)].now, k)
    ensures k in states[j].rollups
    ensures var v, w := SeenAt(steps, i, k), SeenAt(steps, j, k);
            && (v <= w ==> states[i].rollups[k] <= states[j].rollups[k])
            && (w <= v ==> states[j].rollups[k] <= states[i].rollups[k])
            && (states[j].rollups[k] == states[i].rollups[k] <==>
                  if v <= w then NoneStored(steps, v, w, k) else NoneStored(steps, w, v, k))
  {
    hide Next, InTime, Count, SeenAt, LastWrite;
    RowIsOfLastWrite(states, steps, i, k);
    RowIsOfLastWrite(states, steps, j, k);
    var v, w := SeenAt(steps, i, k), SeenAt(steps, j, k);
    FoundGrows(states, steps, v, v, k);
    FoundGrows(states, steps, w, w, k);
    if v <= w {
      FoundGrows(states, steps, v, w, k);
    } else {
      FoundGrows(states, steps, w, v, k);
    }
  }

  lemma Extended(states: seq<State>, steps: seq<Step>, step: Step, next: State)
    returns (more: seq<State>, longer: seq<Step>)
    requires Run(states, steps) && ValidClock(next.now) && Next(states[|steps|], step, next)
    ensures more == states + [next] && longer == steps + [step] && Run(more, longer)
  {
    hide Next;
    more, longer := states + [next], steps + [step];
  }

  /** Two runs that both have queried, the second one after another event was stored. */
  lemma BothHaveQueried(before: Clock, after: Clock, first: Event, late: Event, k: RollupKey)
    returns (states: seq<State>, steps: seq<Step>)
    requires ValidClock(before) && ValidClock(after) && Instant(before) <= Instant(after)
    requires ValidMonth(k.month) && (k.year, k.month) == PrevMonth(after.date.year, after.date.month)
    requires Counts(first, k) && Counts(late, k) && first != late
    requires first.createdAt <= Instant(before) && late.createdAt <= Instant(before)
    ensures Run(states, steps) && |states| == 8 && ValidClock(states[7].now)
    ensures steps == [Create(first), Tick(after), Start(0), Start(1), Query(0, k.app), Create(late), Query(1, k.app)]
    ensures var jobs := states[7].jobs;
            && 0 in jobs && k in jobs[0].rows && jobs[0].rows[k] == 1
            && 1 in jobs && k in jobs[1].rows && jobs[1].rows[k] == 2
  {
    hide Run, Counts, Instant, Retained, Queried, Count, JobAt, ValidClock;
    var j := JobAt(after);
    var s0 := State(before, {}, {}, map[], map[]);
    var s1 := s0.(events := {first}, created := {first});
    var s2 := s1.(now := after);
    var s3 := s2.(jobs := s2.jobs[0 := j]);
    var s4 := s3.(jobs := s3.jobs[1 := j]);
    var s5 := s4.(jobs := s4.jobs[0 := Queried(j, s4.events, k.app)]);
    var s6 := s5.(events := s5.events + {late}, created := s5.created + {late});
    var s7 := s6.(jobs := s6.jobs[1 := Queried(j, s6.events, k.app)]);
    BothCounts(after, first, late, k);
    states, steps := Started(s0);
    states, steps := Extended(states, steps, Create(first), s1);
    states, steps := Extended(states, steps, Tick(after), s2);
    states, steps := Extended(states, steps, Start(0), s3);
    states, steps := Extended(states, steps, Start(1), s4);
    states, steps := Extended(states, steps, Query(0, k.app), s5);
    states, steps := Extended(states, steps, Create(late), s6);
    states, steps := Extended(states, steps, Query(1, k.app), s7);
  }

  lemma BothCounts(after: Clock, first: Event, late: Event, k: RollupKey)
    requires ValidClock(after) && ValidMonth(k.month) && (k.year, k.month) == PrevMonth(after.date.year, after.date.month)
    requires Counts(first, k) && Counts(late, k) && first != late
    ensures var one, two := Queried(JobAt(after), {first}, k.app).rows, Queried(JobAt(after), {first} + {late}, k.app).rows;
            k in one && one[k] == 1 && k in two && two[k] == 2
  {
    CountOf({first}, k);
    CountOf({first} + {late}, k);
    QueriedIs(JobAt(after), {first}, k.app, k);
    QueriedIs(JobAt(after), {first} + {late}, k.app, k);
  }

  /**
   * Both at work in one run: an event stamped in the month and stored after its first query.
   * The second run, writing last, raises the row; the first run, writing last, lowers it.
   */
  lemma OverlappingRuns(before: Clock, after: Clock, first: Event, late: Event, k: RollupKey, swapped: bool)
    returns (states: seq<State>, steps: seq<Step>)
    requires ValidClock(before) && ValidClock(after) && Instant(before) <= Instant(after)
    requires ValidMonth(k.month) && (k.year, k.month) == PrevMonth(after.date.year, after.date.month)
    requires Counts(first, k) && Counts(late, k) && first != late
    requires first.createdAt <= Instant(before) && late.createdAt <= Instant(before)
    ensures Run(states, steps)
    ensures steps == [Create(first), Tick(after), Start(0), Start(1), Query(0, k.app), Create(late), Query(1, k.app)]
                     + if swapped then [Write(1, k), Write(0, k)] else [Write(0, k), Write(1, k)]
    ensures Find(states[8].rollups, k) == Some(if swapped then 2 else 1)
    ensures Find(states[9].rollups, k) == Some(if swapped then 1 else 2)
  {
    hide Run, Counts, Instant, Retained, Queried, Count, JobAt, ValidClock;
    states, steps := BothHaveQueried(before, after, first, late, k);
    var a, b := if swapped then 1 else 0, if swapped then 0 else 1;
    states, steps := Extended(states, steps, Write(a, k), Written(states[7], a, k));
    states, steps := Extended(states, steps, Write(b, k), Written(states[8], b, k));
  }

  lemma Started(s: State) returns (states: seq<State>, steps: seq<Step>)
    requires Init(s)
    ensures states == [s] && steps == [] && Run(states, steps)
  {
    states, steps := [s], [];
  }

  // ---- When a repeated rollup is safe ------------------------------------------------

  lemma CountShrinks(events: set<Event>, left: set<Event>, k: RollupKey)
    requires ValidMonth(k.month) && forall e :: e in left && Counts(e, k) ==> e in events
    ensures Count(left, k) <= Count(events, k)
    ensures Count(left, k) == Count(events, k) <==> forall e :: e in events && Counts(e, k) ==> e in left
    ensures Count(left, k) == 0 <==> forall e :: e in left ==> !Counts(e, k)
  {
    var all, rest := Counted(events, k), Counted(left, k);
    assert all == rest + (all - rest);
    if forall e :: e in events && Counts(e, k) ==> e in left {
      assert all == rest;
    } else {
      var e :| e in events && Counts(e, k) && e !in left;
      assert e in all - rest;
    }
    CountIsPositive(left, k);
  }

  /**
   * The exact condition: a rollup repeated over what is left of the events writes the same
   * row if and only if all the events it counted are still there, or none is.
   */
  lemma RepeatIsSafeIff(events: set<Event>, left: set<Event>, apps: set<string>, k: RollupKey)
    requires ValidMonth(k.month) && k.app in apps && Count(events, k) > 0
    requires forall e :: e in left && Counts(e, k) ==> e in events
    ensures var first := Fresh(events, apps, k.year, k.month);
            var again := first + Fresh(left, apps, k.year, k.month);
            && k in first && first[k] == Count(events, k)
            && (again[k] == first[k] <==>
                  || (forall e :: e in events && Counts(e, k) ==> e in left)
                  || (forall e :: e in events && Counts(e, k) ==> e !in left))
  {
    FreshIs(events, apps, k.year, k.month, k);
    FreshIs(left, apps, k.year, k.month, k);
    CountShrinks(events, left, k);
  }

  /** After a purge at `now`: none of the counted events has passed its window, or all have. */
  lemma RepeatAfterPurgeIff(events: set<Event>, apps: set<string>, k: RollupKey, now: int)
    requires ValidMonth(k.month) && k.app in apps && Count(events, k) > 0
    ensures var first := Fresh(events, apps, k.year, k.month);
            var again := first + Fresh(Retained(events, now), apps, k.year, k.month);
            && k in first
            && (again[k] == first[k] <==>
                  || (forall e :: e in events && Counts(e, k) ==> !Expired(e, now))
                  || (forall e :: e in events && Counts(e, k) ==> Expired(e, now)))
  {
    RepeatIsSafeIff(events, Retained(events, now), apps, k);
  }

  /**
   * A month in which it is not: two debug events of a month's last day are
   * both counted by a rollup at midnight, and after the purge at 02:00 a repeated rollup
   * overwrites the row with a lower count.
   */
  lemma RepeatedRollupUndercounts(early: Event, late: Event, k: RollupKey, midnight: int)
    requires ValidMonth(k.month) && k.severity == "debug" && Counts(early, k) && Counts(late, k)
    requires var (y, m) := NextMonth(k.year, k.month); midnight == DAY * MonthStart(y, m)
    requires early.createdAt == midnight - 23 * 3600 && late.createdAt == midnight - 3600
    ensures var first := Fresh({early, late}, {k.app}, k.year, k.month);
            var again := first + Fresh(Retained({early, late}, midnight + 2 * 3600), {k.app}, k.year, k.month);
            k in first && first[k] == 2 && again[k] == 1
  {
    PurgedBetween(early, late, midnight);
    CountOf({early, late}, k);
    CountOf({late}, k);
    FreshIs({early, late}, {k.app}, k.year, k.month, k);
    FreshIs({late}, {k.app}, k.year, k.month, k);
  }

  lemma PurgedBetween(early: Event, late: Event, midnight: int)
    requires early.level == late.level == "debug"
    requires early.createdAt == midnight - 23 * 3600 && late.createdAt == midnight - 3600
    ensures Retained({early, late}, midnight + 2 * 3600) == {late} && early != late
  {
  }

  lemma CountOf(events: set<Event>, k: RollupKey)
    requires ValidMonth(k.month) && forall e :: e in events ==> Counts(e, k)
    ensures Count(events, k) == |events|
  {
    assert Counted(events, k) == events;
  }
}
