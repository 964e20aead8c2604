/**
 * The monitor scheduler (internal/monitor/scheduler.go) and the check handlers that wake
 * it (internal/api/checks.go): one cancellable loop per enabled check, reconciled against
 * the monitor_checks table, with a one-slot channel to ask for an immediate sync.
 */
module MonitorScheduler {
  import opened Common

  datatype Check = Check(id: string, enabled: bool, intervalSecs: int, target: string)

  /** A goroutine of runCheckLoop: the row it was started with, and whether its context is cancelled. */
  datatype CheckLoop = CheckLoop(row: Check, cancelled: bool)

  /** `active` names the goroutine of a check; `next` numbers the next goroutine. */
  datatype Pool = Pool(active: map<string, nat>, loops: map<nat, CheckLoop>, next: nat)

  function EnabledIDs(checks: seq<Check>): set<string> {
    set c | c in checks && c.enabled :: c.id
  }

  /** The uncancelled loops and the entries of `active` correspond one to one. */
  ghost predicate Bijective(p: Pool) {
    && (forall id :: id in p.active ==>
          p.active[id] in p.loops && !p.loops[p.active[id]].cancelled && p.loops[p.active[id]].row.id == id)
    && (forall l :: l in p.loops ==> l < p.next)
    && (forall l :: l in p.loops && !p.loops[l].cancelled ==>
          p.loops[l].row.id in p.active && p.active[p.loops[l].row.id] == l)
  }

  function Started(p: Pool, c: Check): Pool {
    Pool(p.active[c.id := p.next], p.loops[p.next := CheckLoop(c, false)], p.next + 1)
  }

  /** A goroutine for every enabled check that has none. */
  function StartMissing(p: Pool, checks: seq<Check>): Pool {
    if checks == [] then p
    else
      var q, c := StartMissing(p, checks[..|checks| - 1]), checks[|checks| - 1];
      if c.enabled && c.id !in q.active then Started(q, c) else q
  }

  /** The goroutines of all other checks are cancelled. */
  function CancelExcept(p: Pool, keep: set<string>): Pool {
    Pool(map id | id in p.active && id in keep :: p.active[id],
         map l | l in p.loops :: CheckLoop(p.loops[l].row, p.loops[l].cancelled || p.loops[l].row.id !in keep),
         p.next)
  }

  /** The pool after one syncChecks, for a List that answered `checks`. */
  function SyncResult(p: Pool, checks: seq<Check>): Pool {
    CancelExcept(StartMissing(p, checks), EnabledIDs(checks))
  }

  /** `q` runs what `p` runs, and new goroutines for listed enabled checks. */
  ghost predicate Extends(p: Pool, q: Pool, checks: seq<Check>) {
    && p.next <= q.next
    && (forall id :: id in p.active ==> id in q.active && q.active[id] == p.active[id])
    && (forall id :: id in q.active && id !in p.active ==>
          && q.active[id] in q.loops && q.active[id] >= p.next
          && q.loops[q.active[id]].row in checks && q.loops[q.active[id]].row.enabled)
    && forall l :: l in p.loops ==> l in q.loops && q.loops[l] == p.loops[l]
  }

  lemma StartedIs(p: Pool, q: Pool, checks: seq<Check>, c: Check)
    requires Bijective(p) && Bijective(q) && Extends(p, q, checks)
    requires c.enabled && c.id !in q.active && c in checks
    ensures Bijective(Started(q, c)) && Extends(p, Started(q, c), checks)
  {
  }

  lemma {:induction false} StartMissingIs(p: Pool, checks: seq<Check>)
    requires Bijective(p)
    ensures Bijective(StartMissing(p, checks))
    ensures Extends(p, StartMissing(p, checks), checks)
    ensures StartMissing(p, checks).active.Keys == p.active.Keys + EnabledIDs(checks)
  {
    if checks != [] {
      var front, c := checks[..|checks| - 1], checks[|checks| - 1];
      StartMissingIs(p, front);
      assert checks == front + [c];
      assert EnabledIDs(checks) == EnabledIDs(front) + (if c.enabled then {c.id} else {});
      var q := StartMissing(p, front);
      assert Extends(p, q, checks);
      if c.enabled && c.id !in q.active {
        StartedIs(p, q, checks, c);
      }
    }
  }

  lemma CancelExceptIs(p: Pool, keep: set<string>)
    requires Bijective(p)
    ensures Bijective(CancelExcept(p, keep))
  {
  }

  /**
   * A sync leaves exactly the enabled checks active, one uncancelled goroutine each; a
   * running check keeps its goroutine and the row it started with, a new one runs its
   * listed row, and every other goroutine is cancelled.
   */
  lemma SyncReconciles(p: Pool, checks: seq<Check>)
    requires Bijective(p)
    ensures var q := SyncResult(p, checks);
            && Bijective(q)
            && q.active.Keys == EnabledIDs(checks)
            && (forall id :: id in q.active <==> exists c :: c in checks && c.enabled && c.id == id)
            && (forall id :: id in q.active && id in p.active ==>
                  q.active[id] == p.active[id] && q.loops[q.active[id]] == p.loops[p.active[id]])
            && (forall id :: id in q.active && id !in p.active ==>
                  q.active[id] >= p.next && q.loops[q.active[id]].row in checks && q.loops[q.active[id]].row.id == id)
            && (forall l :: l in p.loops ==>
                  && l in q.loops
                  && q.loops[l].row == p.loops[l].row
                  && (q.loops[l].cancelled <==>
                        || p.loops[l].cancelled
                        || forall c :: c in checks && c.enabled ==> c.id != p.loops[l].row.id))
  {
    StartMissingIs(p, checks);
    CancelExceptIs(StartMissing(p, checks), EnabledIDs(checks));
  }

  /** Cancelling one more active check. */
  lemma CancelOneMore(p: Pool, keep: set<string>, id: string)
    requires Bijective(p) && id in p.active && id !in keep
    ensures var q := CancelExcept(p, keep + {id});
            && id in q.active && q.active[id] in q.loops
            && var l := q.active[id];
               CancelExcept(p, keep) == Pool(q.active - {id}, q.loops[l := q.loops[l].(cancelled := true)], q.next)
  {
    var q := CancelExcept(p, keep + {id});
    var l := q.active[id];
    var r := CancelExcept(p, keep);
    assert r.active == q.active - {id};
    assert r.loops == q.loops[l := q.loops[l].(cancelled := true)];
  }

  lemma CancelNone(p: Pool, keep: set<string>)
    requires Bijective(p) && p.active.Keys <= keep
    ensures CancelExcept(p, keep) == p
  {
  }

  class Scheduler {
    var active: map<string, nat>
    var loops: map<nat, CheckLoop>
    var next: nat
    var syncCh: bool      // the one-slot channel: full or empty

    function View(): Pool
      reads this
    {
      Pool(active, loops, next)
    }

    constructor ()
      ensures View() == Pool(map[], map[], 0) && !syncCh
    {
      active, loops, next, syncCh := map[], map[], 0, false;
    }

    /** Never blocks: a full slot stays full. */
    method TriggerSync()
      modifies this`syncCh
      ensures syncCh
    {
      if !syncCh {
        syncCh := true;
      }
    }

    /** A failed listing changes nothing. */
    method SyncChecks(listed: Option<seq<Check>>) returns (ok: bool)
      requires Bijective(View())
      modifies this`active, this`loops, this`next
      ensures ok <==> listed.Some?
      ensures View() == if ok then SyncResult(old(View()), listed.value) else old(View())
    {
      if listed.None? {
        return false;
      }
      var checks := listed.value;
      var enabled: set<string> := {};
      for i := 0 to |checks|
        invariant enabled == EnabledIDs(checks[..i])
        invariant View() == StartMissing(old(View()), checks[..i])
      {
        var c := checks[i];
        assert checks[..i + 1][..i] == checks[..i] && checks[..i + 1] == checks[..i] + [c];
        if !c.enabled {
          continue;
        }
        enabled := enabled + {c.id};
        if c.id in active {
          continue;
        }
        active := active[c.id := next];
        loops := loops[next := CheckLoop(c, false)];
        next := next + 1;
      }
      assert checks[..|checks|] == checks;
      StartMissingIs(old(View()), checks);
      Prune(enabled);
      ok := true;
    }

    /** Cancels the goroutine of every active check outside `enabled`, in map order. */
    method Prune(enabled: set<string>)
      requires Bijective(View())
      modifies this`active, this`loops
      ensures View() == CancelExcept(old(View()), enabled)
    {
      var ids := active.Keys;
      ghost var p := View();
      CancelNone(p, enabled + ids);
      while ids != {}
        invariant ids <= p.active.Keys
        invariant View() == CancelExcept(p, enabled + ids)
        decreases ids
      {
        var id :| id in ids;
        if id !in enabled {
          assert enabled + ids == enabled + (ids - {id}) + {id};
          CancelOneMore(p, enabled + (ids - {id}), id);
          var l := active[id];
          loops := loops[l := loops[l].(cancelled := true)];
          active := active - {id};
        } else {
          assert enabled + ids == enabled + (ids - {id});
        }
        ids := ids - {id};
      }
      assert enabled + ids == enabled;
    }

    /** Shutdown: every goroutine is cancelled. */
    method CancelAll()
      requires Bijective(View())
      modifies this`active, this`loops
      ensures View() == CancelExcept(old(View()), {})
    {
      Prune({});
    }
  }

  // ---- Handlers, the channel and the loop of Start ----------------------------

  /** Where the loop of Start is; it begins with a sync, as if woken. */
  datatype Pc = Woken | Listed(checks: seq<Check>) | Waiting | Stopped

  /**
   * A running Update request: it has read and merged the row (`flagged` when the request
   * carried `enabled`), or it has written a flagged change and not yet triggered a sync.
   */
  datatype Handler = Got(row: Check, flagged: bool) | Wrote

  /**
   * `listed` are the ids enabled at the last successful List, `lost` says that a List
   * failed since, and `silent` are the ids whose enabled state was since changed by a
   * statement that asks for no sync: an insert, a delete, or an Update without `enabled`
   * that writes back the value it read.
   */
  datatype State = State(db: map<string, Check>, pool: Pool, token: bool, pc: Pc, handlers: map<nat, Handler>,
                         listed: set<string>, silent: set<string>, lost: bool)

  datatype Step =
    | Get(handler: nat, id: string, merged: Check, flag: Option<bool>)
    | Update(handler: nat)
    | UpdateFails(handler: nat)
    | Trigger(handler: nat)
    | Upsert(row: Check)          // CheckRepo.Create or UpsertForComponent
    | Delete(id: string)
    | Receive
    | Tick
    | List(checks: seq<Check>)
    | ListFails
    | Sync
    | LoopExits(goroutine: nat)
    | Shutdown

  predicate EnabledIn(db: map<string, Check>, id: string) {
    id in db && db[id].enabled
  }

  ghost predicate KeyedByID(db: map<string, Check>) {
    forall id :: id in db ==> db[id].id == id
  }

  /** The rows of the table, each once. */
  ghost predicate RowsOf(db: map<string, Check>, checks: seq<Check>) {
    && (forall i, j :: 0 <= i < j < |checks| ==> checks[i].id != checks[j].id)
    && (forall c :: c in checks ==> c.id in db && db[c.id] == c)
    && forall id :: id in db ==> db[id] in checks
  }

  ghost predicate Init(s: State) {
    && KeyedByID(s.db) && s.pool == Pool(map[], map[], 0) && !s.token && s.pc == Woken && s.handlers == map[]
    && s.listed == {} && s.silent == {} && !s.lost
  }

  ghost predicate Next(s: State, step: Step, s': State) {
    match step
    case Get(h, id, merged, flag) =>
      && h !in s.handlers && id in s.db && merged.id == id
      && merged.enabled == (if flag.Some? then flag.value else s.db[id].enabled)
      && s' == s.(handlers := s.handlers[h := Got(merged, flag.Some?)])
    case Update(h) =>
      && h in s.handlers && s.handlers[h].Got? && s.handlers[h].row.id in s.db
      && var row, flagged := s.handlers[h].row, s.handlers[h].flagged;
         s' == s.(db := s.db[row.id := row],
                  handlers := if flagged then s.handlers[h := Wrote] else s.handlers - {h},
                  silent := if flagged then s.silent - {row.id}
                            else if s.db[row.id].enabled != row.enabled then s.silent + {row.id} else s.silent)
    case UpdateFails(h) => h in s.handlers && s.handlers[h].Got? && s' == s.(handlers := s.handlers - {h})
    case Trigger(h) =>
      h in s.handlers && s.handlers[h].Wrote? && s' == s.(token := true, handlers := s.handlers - {h})
    case Upsert(row) => s' == s.(db := s.db[row.id := row], silent := s.silent + {row.id})
    case Delete(id) => id in s.db && s' == s.(db := s.db - {id}, silent := s.silent + {id})
    case Receive => s.pc == Waiting && s.token && s' == s.(token := false, pc := Woken)
    case Tick => s.pc == Waiting && s' == s.(pc := Woken)
    case List(checks) =>
      && s.pc == Woken && RowsOf(s.db, checks)
      && s' == s.(pc := Listed(checks), listed := EnabledIDs(checks), silent := {}, lost := false)
    case ListFails => s.pc == Woken && s' == s.(pc := Waiting, lost := true)
    case Sync => s.pc.Listed? && s' == s.(pc := Waiting, pool := SyncResult(s.pool, s.pc.checks))
    case LoopExits(l) =>
      && l in s.pool.loops && s.pool.loops[l].cancelled
      && s' == s.(pool := s.pool.(loops := s.pool.loops - {l}))
    case Shutdown => s.pc == Waiting && s' == s.(pc := Stopped, pool := CancelExcept(s.pool, {}))
  }

  ghost predicate Run(states: seq<State>, steps: seq<Step>) {
    && |states| == |steps| + 1
    && Init(states[0])
    && forall i :: 0 <= i < |steps| ==> Next(states[i], steps[i], states[i + 1])
  }

  /** Something will still make the loop list the table: a token, a handler about to leave one, or a loop about to list. */
  ghost predicate WakeUpDue(s: State) {
    s.token || s.pc == Woken || exists h :: h in s.handlers && s.handlers[h].Wrote?
  }

  ghost predicate Inv(s: State) {
    && KeyedByID(s.db)
    && Bijective(s.pool)
    && (s.pc.Woken? || s.pc.Waiting? ==> s.pool.active.Keys == s.listed)
    && (s.pc.Listed? ==> EnabledIDs(s.pc.checks) == s.listed)
    && forall id :: EnabledIn(s.db, id) != (id in s.listed) ==> id in s.silent || s.lost || WakeUpDue(s)
  }

  lemma ListedIDs(db: map<string, Check>, checks: seq<Check>, id: string)
    requires KeyedByID(db) && RowsOf(db, checks)
    ensures id in EnabledIDs(checks) <==> EnabledIn(db, id)
  {
  }

  lemma InvAfterUpdate(s: State, h: nat, s': State)
    requires Inv(s) && Next(s, Update(h), s')
    ensures Inv(s')
  {
    hide Bijective, SyncResult, CancelExcept, EnabledIDs;
    if s.handlers[h].flagged {
      assert s'.handlers[h].Wrote?;
    } else {
      WritersStay(s, h, s');
    }
  }

  lemma InvAfterList(s: State, checks: seq<Check>, s': State)
    requires Inv(s) && Next(s, List(checks), s')
    ensures Inv(s')
  {
    hide Bijective, SyncResult, CancelExcept;
    forall id ensures id in EnabledIDs(checks) <==> EnabledIn(s.db, id) {
      ListedIDs(s.db, checks, id);
    }
  }

  lemma InvAfterSync(s: State, s': State)
    requires Inv(s) && Next(s, Sync, s')
    ensures Inv(s')
  {
    hide SyncResult, CancelExcept, EnabledIDs, Bijective;
    SyncReconciles(s.pool, s.pc.checks);
  }

  lemma InvAfterGet(s: State, step: Step, s': State)
    requires Inv(s) && Next(s, step, s') && step.Get?
    ensures Inv(s')
  {
    hide SyncResult, CancelExcept, EnabledIDs, Bijective;
    assert forall k :: k in s.handlers ==> k in s'.handlers && s'.handlers[k] == s.handlers[k];
  }

  lemma InvAfterExit(s: State, step: Step, s': State)
    requires Inv(s) && Next(s, step, s') && (step.LoopExits? || step.Shutdown?)
    ensures Inv(s')
  {
    hide SyncResult, EnabledIDs;
    CancelExceptIs(s.pool, {});
  }

  lemma InvStep(s: State, step: Step, s': State)
    requires Inv(s) && Next(s, step, s')
    ensures Inv(s')
  {
    hide SyncResult, CancelExcept, EnabledIDs, Bijective;
    match step
    case Get(_, _, _, _) => InvAfterGet(s, step, s');
    case Update(h) => InvAfterUpdate(s, h, s');
    case UpdateFails(h) => WritersStay(s, h, s');
    case List(checks) => InvAfterList(s, checks, s');
    case Sync => InvAfterSync(s, s');
    case LoopExits(_) => InvAfterExit(s, step, s');
    case Shutdown => InvAfterExit(s, step, s');
    case _ =>
  }

  /** Ending a handler that has not written leaves the handlers that have. */
  lemma WritersStay(s: State, h: nat, s': State)
    requires h in s.handlers && s.handlers[h].Got? && s'.handlers == s.handlers - {h}
    requires s'.token == s.token && s'.pc == s.pc
    ensures WakeUpDue(s) ==> WakeUpDue(s')
  {
    if k :| k in s.handlers && s.handlers[k].Wrote? {
      assert k in s'.handlers && s'.handlers[k].Wrote?;
    }
  }

  lemma {:induction false} InvHolds(states: seq<State>, steps: seq<Step>, i: nat)
    requires Run(states, steps) && i < |states|
    ensures Inv(states[i])
  {
    if i > 0 {
      InvHolds(states, steps, i - 1);
      InvStep(states[i - 1], steps[i - 1], states[i]);
    }
  }

  /**
   * No lost wake-up: in every reachable state, a check whose enabled state differs from
   * the last successful List implies a token, a handler between its write and its
   * TriggerSync, or a loop that has woken and not listed; unless its state was changed by
   * a statement that triggers nothing, or a List failed since.
   */
  lemma NoLostWakeUp(states: seq<State>, steps: seq<Step>, i: nat, id: string)
    requires Run(states, steps) && i < |states|
    requires EnabledIn(states[i].db, id) != (id in states[i].listed)
    ensures WakeUpDue(states[i]) || id in states[i].silent || states[i].lost
  {
    InvHolds(states, steps, i);
  }

  /** The steps that change a check's enabled state without asking for a sync. */
  ghost predicate ChangesSilently(s: State, step: Step, id: string) {
    || (step.Upsert? && step.row.id == id)
    || (step.Delete? && step.id == id)
    || (step.Update? && step.handler in s.handlers && s.handlers[step.handler].Got?
        && !s.handlers[step.handler].flagged && s.handlers[step.handler].row.id == id
        && id in s.db && s.db[id].enabled != s.handlers[step.handler].row.enabled)
  }

  /** The exceptions are what they say: a failed List with no successful one after it ... */
  lemma {:induction false} LostHasACause(states: seq<State>, steps: seq<Step>, i: nat) returns (j: nat)
    requires Run(states, steps) && i < |states| && states[i].lost
    ensures j < i && steps[j] == ListFails && forall k :: j < k < i ==> !steps[k].List?
  {
    assert i > 0 && Next(states[i - 1], steps[i - 1], states[i]);
    if steps[i - 1] == ListFails {
      return i - 1;
    }
    j := LostHasACause(states, steps, i - 1);
  }

  /** ... and a silent change of that check with no successful List after it. */
  lemma {:induction false} SilentHasACause(states: seq<State>, steps: seq<Step>, i: nat, id: string) returns (j: nat)
    requires Run(states, steps) && i < |states| && id in states[i].silent
    ensures j < i && ChangesSilently(states[j], steps[j], id) && forall k :: j < k < i ==> !steps[k].List?
  {
    assert i > 0 && Next(states[i - 1], steps[i - 1], states[i]);
    if id !in states[i - 1].silent {
      return i - 1;
    }
    j := SilentHasACause(states, steps, i - 1, id);
  }

  /**
   * At rest (the loop waits, no wake-up is due, no List failed) the uncancelled check
   * loops are exactly the enabled checks of the table, up to silent changes.
   */
  lemma RunningLoopsMatchTable(states: seq<State>, steps: seq<Step>, i: nat, id: string)
    requires Run(states, steps) && i < |states|
    requires states[i].pc == Waiting && !WakeUpDue(states[i]) && !states[i].lost && id !in states[i].silent
    ensures var p := states[i].pool;
            (id in states[i].db && states[i].db[id].enabled)
            <==> exists l :: l in p.loops && !p.loops[l].cancelled && p.loops[l].row.id == id
    ensures var p := states[i].pool;
            forall l, m | l in p.loops && m in p.loops && !p.loops[l].cancelled && !p.loops[m].cancelled ::
              p.loops[l].row.id == p.loops[m].row.id ==> l == m
  {
    InvHolds(states, steps, i);
    var p := states[i].pool;
    if id in p.active {
      assert p.active[id] in p.loops;
    }
  }

  // ---- The exceptions are reachable -------------------------------------------

  lemma Extend(states: seq<State>, steps: seq<Step>, step: Step, s': State)
    requires Run(states, steps) && Next(states[|steps|], step, s')
    ensures Run(states + [s'], steps + [step])
  {
  }

  /** A check is created enabled, listed and started; the run every example begins with. */
  lemma FirstSync(c: Check) returns (states: seq<State>, steps: seq<Step>)
    requires c.enabled
    ensures Run(states, steps) && steps == [List([c]), Sync]
    ensures states[2] == State(map[c.id := c], Pool(map[c.id := 0], map[0 := CheckLoop(c, false)], 1),
                               false, Waiting, map[], {c.id}, {}, false)
  {
    assert c in [c] && EnabledIDs([c]) == {c.id};
    var empty := Pool(map[], map[], 0);
    var started := Pool(map[c.id := 0], map[0 := CheckLoop(c, false)], 1);
    assert [c][..0] == [];
    assert StartMissing(empty, []) == empty && Started(empty, c) == started;
    CancelNone(started, {c.id});
    var s0 := State(map[c.id := c], empty, false, Woken, map[], {}, {}, false);
    var s1 := s0.(pc := Listed([c]), listed := {c.id});
    Extend([s0], [], List([c]), s1);
    var s2 := s1.(pc := Waiting, pool := started);
    Extend([s0] + [s1], [] + [List([c])], Sync, s2);
    states, steps := [s0] + [s1] + [s2], [] + [List([c])] + [Sync];
  }

  /** A request with `enabled: false` runs undisturbed, from its read to the wake-up it causes. */
  lemma DisableThroughUpdate(states: seq<State>, steps: seq<Step>, h: nat, off: Check)
    returns (states': seq<State>, steps': seq<Step>)
    requires Run(states, steps) && !off.enabled
    requires var s := states[|steps|]; s.pc == Waiting && !s.token && h !in s.handlers && off.id in s.db
    ensures Run(states', steps')
    ensures steps' == steps + [Get(h, off.id, off, Some(false)), Update(h), Trigger(h), Receive]
    ensures var s := states[|steps|];
            states'[|steps'|] == s.(db := s.db[off.id := off], silent := s.silent - {off.id}, pc := Woken)
  {
    var s := states[|steps|];
    var s1 := s.(handlers := s.handlers[h := Got(off, true)]);
    Extend(states, steps, Get(h, off.id, off, Some(false)), s1);
    states', steps' := states + [s1], steps + [Get(h, off.id, off, Some(false))];
    var s2 := s1.(db := s.db[off.id := off], handlers := s1.handlers[h := Wrote], silent := s.silent - {off.id});
    Extend(states', steps', Update(h), s2);
    states', steps' := states' + [s2], steps' + [Update(h)];
    var s3 := s2.(token := true, handlers := s2.handlers - {h});
    assert s3.handlers == s.handlers;
    Extend(states', steps', Trigger(h), s3);
    states', steps' := states' + [s3], steps' + [Trigger(h)];
    var s4 := s3.(token := false, pc := Woken);
    Extend(states', steps', Receive, s4);
    states', steps' := states' + [s4], steps' + [Receive];
  }

  /** A failed List swallows the wake-up: the check was disabled through Update, yet nothing is due and its loop runs. */
  lemma FailedListLosesWakeUp(c: Check) returns (states: seq<State>, steps: seq<Step>)
    requires c.enabled
    ensures Run(states, steps)
    ensures var s := states[|steps|];
            && s.pc == Waiting && !WakeUpDue(s) && s.silent == {}
            && !EnabledIn(s.db, c.id) && c.id in s.pool.active
  {
    states, steps := FirstSync(c);
    states, steps := DisableThroughUpdate(states, steps, 0, c.(enabled := false));
    var s := states[|steps|].(pc := Waiting, lost := true);
    Extend(states, steps, ListFails, s);
    states, steps := states + [s], steps + [ListFails];
  }

  /** The run disables the check while another request, without `enabled`, holds the row it read before. */
  lemma DisabledBehindReader(c: Check) returns (states: seq<State>, steps: seq<Step>)
    requires c.enabled
    ensures Run(states, steps)
    ensures forall i :: 0 <= i < |steps| ==> !steps[i].Upsert? && !steps[i].Delete? && !steps[i].ListFails?
    ensures var s := states[|steps|];
            && s.db == map[c.id := c.(enabled := false)] && s.handlers == map[1 := Got(c, false)]
            && s.pc == Woken && !s.token && Bijective(s.pool)
  {
    states, steps := FirstSync(c);
    var s3 := states[2].(handlers := map[1 := Got(c, false)]);
    Extend(states, steps, Get(1, c.id, c, None), s3);
    states, steps := states + [s3], steps + [Get(1, c.id, c, None)];
    states, steps := DisableThroughUpdate(states, steps, 2, c.(enabled := false));
    InvHolds(states, steps, |steps|);
  }

  /** The loop then syncs, and the check's goroutine is cancelled. */
  lemma SyncedBehindReader(c: Check) returns (states: seq<State>, steps: seq<Step>)
    requires c.enabled
    ensures Run(states, steps)
    ensures forall i :: 0 <= i < |steps| ==> !steps[i].Upsert? && !steps[i].Delete? && !steps[i].ListFails?
    ensures var s := states[|steps|];
            && s.db == map[c.id := c.(enabled := false)] && s.handlers == map[1 := Got(c, false)]
            && s.pc == Waiting && !s.token && !s.lost && c.id !in s.pool.active
  {
    states, steps := DisabledBehindReader(c);
    var s, off := states[|steps|], c.(enabled := false);
    assert off in [off] && EnabledIDs([off]) == {};
    var s1 := s.(pc := Listed([off]), listed := EnabledIDs([off]), silent := {}, lost := false);
    Extend(states, steps, List([off]), s1);
    states, steps := states + [s1], steps + [List([off])];
    SyncReconciles(s1.pool, [off]);
    var s2 := s1.(pc := Waiting, pool := SyncResult(s1.pool, [off]));
    Extend(states, steps, Sync, s2);
    states, steps := states + [s2], steps + [Sync];
  }

  /**
   * Update writes the whole row it read: a request without `enabled` that overlaps one
   * with `enabled` turns the check on again, no sync is due and no loop runs it.
   */
  lemma StaleUpdateFlipsSilently(c: Check) returns (states: seq<State>, steps: seq<Step>)
    requires c.enabled
    ensures Run(states, steps)
    ensures forall i :: 0 <= i < |steps| ==> !steps[i].Upsert? && !steps[i].Delete? && !steps[i].ListFails?
    ensures var s := states[|steps|];
            && s.pc == Waiting && !WakeUpDue(s) && !s.lost
            && EnabledIn(s.db, c.id) && c.id !in s.pool.active
  {
    states, steps := SyncedBehindReader(c);
    var s := states[|steps|];
    var s' := s.(db := s.db[c.id := c], handlers := s.handlers - {1}, silent := s.silent + {c.id});
    Extend(states, steps, Update(1), s');
    states, steps := states + [s'], steps + [Update(1)];
  }
}
