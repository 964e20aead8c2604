/**
 * Start-up migrations (internal/repo/migrate.go): every *.sql file in name order, skipping
 * the recorded ones, under runs that may be cut off before any database call.
 */
module Migrations {
  import opened Common

  // ---- The file list ------------------------------------------------------------

  datatype Entry = Entry(name: string, isDir: bool)

  /** Go's string order. */
  predicate Less(a: string, b: string) {
    b != [] && (a == [] || a[0] < b[0] || (a[0] == b[0] && Less(a[1..], b[1..])))
  }

  /** What it means: a proper prefix comes first, and otherwise the first difference decides. */
  lemma {:induction false} LessIff(a: string, b: string)
    ensures Less(a, b) <==>
              || (|a| < |b| && a == b[..|a|])
              || exists i :: 0 <= i < |a| && i < |b| && a[..i] == b[..i] && a[i] < b[i]
  {
    if a != [] && b != [] && a[0] == b[0] {
      var x, y := a[1..], b[1..];
      LessIff(x, y);
      if |x| < |y| && x == y[..|x|] {
        assert a == b[..|a|];
      }
      if |a| < |b| && a == b[..|a|] {
        assert x == y[..|x|];
      }
      if i :| 0 <= i < |x| && i < |y| && x[..i] == y[..i] && x[i] < y[i] {
        assert a[..i + 1] == [a[0]] + x[..i] && b[..i + 1] == [b[0]] + y[..i];
        assert a[i + 1] < b[i + 1];
      }
      if i :| 0 <= i < |a| && i < |b| && a[..i] == b[..i] && a[i] < b[i] {
        assert x[..i - 1] == a[..i][1..] && y[..i - 1] == b[..i][1..];
        assert x[i - 1] < y[i - 1];
      }
    } else if a != [] && b != [] {
      assert Less(a, b) <==> a[0] < b[0];
      if a[0] < b[0] {
        assert a[..0] == b[..0];
      }
      assert forall i :: 0 < i < |a| && i < |b| ==> a[..i][0] == a[0] && b[..i][0] == b[0];
    }
  }

  lemma {:induction false} LessIsTotal(a: string, b: string)
    ensures Less(a, b) || Less(b, a) || a == b
  {
    if a != [] && b != [] && a[0] == b[0] {
      LessIsTotal(a[1..], b[1..]);
      assert a == [a[0]] + a[1..] && b == [b[0]] + b[1..];
    }
  }

  lemma {:induction false} LessIsTransitive(a: string, b: string, c: string)
    requires Less(a, b) && Less(b, c)
    ensures Less(a, c)
  {
    if a != [] && a[0] == b[0] == c[0] {
      LessIsTransitive(a[1..], b[1..], c[1..]);
    }
  }

  function Insert(e: Entry, s: seq<Entry>): seq<Entry> {
    if s == [] then [e]
    else if Less(s[0].name, e.name) then [s[0]] + Insert(e, s[1..])
    else [e] + s
  }

  /** sort.Slice by name. */
  function Sorted(entries: seq<Entry>): seq<Entry> {
    if entries == [] then [] else Insert(entries[0], Sorted(entries[1..]))
  }

  predicate IsMigration(e: Entry) { !e.isDir && |e.name| >= 4 && e.name[|e.name| - 4..] == ".sql" }

  function FilesOf(entries: seq<Entry>): seq<string> {
    if entries == [] then []
    else (if IsMigration(entries[0]) then [entries[0].name] else []) + FilesOf(entries[1..])
  }

  predicate Before(name: string, s: seq<string>) { forall i :: 0 <= i < |s| ==> Less(name, s[i]) }

  predicate Ascending(s: seq<string>) { s == [] || (Before(s[0], s[1..]) && Ascending(s[1..])) }

  predicate EntriesAfter(name: string, s: seq<Entry>) { forall e :: e in s ==> Less(name, e.name) }

  predicate AscendingEntries(s: seq<Entry>) {
    s == [] || (EntriesAfter(s[0].name, s[1..]) && AscendingEntries(s[1..]))
  }

  /** A directory holds every name once. */
  predicate IsDirectory(s: seq<Entry>) {
    s == [] || ((forall e :: e in s[1..] ==> e.name != s[0].name) && IsDirectory(s[1..]))
  }

  lemma {:induction false} InsertAscends(e: Entry, s: seq<Entry>)
    requires AscendingEntries(s) && forall x :: x in s ==> x.name != e.name
    ensures AscendingEntries(Insert(e, s))
    ensures forall x :: x in Insert(e, s) <==> x == e || x in s
  {
    if s != [] {
      assert s == [s[0]] + s[1..];
      assert s[0] in s;
      if Less(s[0].name, e.name) {
        InsertAscends(e, s[1..]);
        assert Insert(e, s)[1..] == Insert(e, s[1..]);
      } else {
        LessIsTotal(s[0].name, e.name);
        assert Insert(e, s)[1..] == s;
        forall x | x in s ensures Less(e.name, x.name) {
          if x in s[1..] {
            LessIsTransitive(e.name, s[0].name, x.name);
          }
        }
      }
    }
  }

  lemma {:induction false} SortedAscends(entries: seq<Entry>)
    requires IsDirectory(entries)
    ensures AscendingEntries(Sorted(entries))
    ensures forall e :: e in Sorted(entries) <==> e in entries
  {
    if entries != [] {
      SortedAscends(entries[1..]);
      InsertAscends(entries[0], Sorted(entries[1..]));
      assert entries == [entries[0]] + entries[1..];
    }
  }

  lemma {:induction false} FilesAscend(s: seq<Entry>)
    requires AscendingEntries(s)
    ensures Ascending(FilesOf(s))
    ensures forall n :: n in FilesOf(s) <==> exists e :: e in s && IsMigration(e) && e.name == n
  {
    if s != [] {
      FilesAscend(s[1..]);
      assert s == [s[0]] + s[1..] && s[0] in s;
      var rest := FilesOf(s[1..]);
      forall i | 0 <= i < |rest| ensures Less(s[0].name, rest[i]) {
        assert rest[i] in rest;
        var e :| e in s[1..] && IsMigration(e) && e.name == rest[i];
      }
      if IsMigration(s[0]) {
        assert FilesOf(s)[1..] == rest;
      } else {
        assert FilesOf(s) == rest;
      }
    }
  }

  lemma {:induction false} AscendingIs(s: seq<string>, i: nat, j: nat)
    requires Ascending(s) && i < j < |s|
    ensures Less(s[i], s[j])
  {
    if i == 0 {
      assert s[j] == s[1..][j - 1];
    } else {
      AscendingIs(s[1..], i - 1, j - 1);
    }
  }

  /** The order of the names, spelled out. */
  lemma OrderIs(names: seq<string>)
    requires forall i, j :: 0 <= i < j < |names| ==> Less(names[i], names[j])
    ensures forall i, j :: 0 <= i < j < |names| ==>
              || (|names[i]| < |names[j]| && names[i] == names[j][..|names[i]|])
              || exists k :: 0 <= k < |names[i]| && k < |names[j]| && names[i][..k] == names[j][..k] && names[i][k] < names[j][k]
  {
    hide Less;
    forall i, j | 0 <= i < j < |names|
      ensures || (|names[i]| < |names[j]| && names[i] == names[j][..|names[i]|])
              || exists k :: 0 <= k < |names[i]| && k < |names[j]| && names[i][..k] == names[j][..k] && names[i][k] < names[j][k]
    {
      LessIff(names[i], names[j]);
    }
  }

  lemma FilesOfSorted(entries: seq<Entry>)
    requires IsDirectory(entries)
    ensures Ascending(FilesOf(Sorted(entries)))
    ensures forall n :: n in FilesOf(Sorted(entries)) <==> exists e :: e in entries && IsMigration(e) && e.name == n
  {
    hide Less, IsMigration;
    SortedAscends(entries);
    FilesAscend(Sorted(entries));
    forall n ensures n in FilesOf(Sorted(entries)) <==> exists e :: e in entries && IsMigration(e) && e.name == n {
      if n in FilesOf(Sorted(entries)) {
        var e :| e in Sorted(entries) && IsMigration(e) && e.name == n;
        assert e in entries;
      }
      if e :| e in entries && IsMigration(e) && e.name == n {
        assert e in Sorted(entries);
      }
    }
  }

  /** What a run goes through: the .sql files of the directory, each once, in name order. */
  lemma FilesAreTheMigrations(entries: seq<Entry>)
    requires IsDirectory(entries)
    ensures Ascending(FilesOf(Sorted(entries)))
    ensures var files := FilesOf(Sorted(entries));
            forall i, j :: 0 <= i < j < |files| ==>
              || (|files[i]| < |files[j]| && files[i] == files[j][..|files[i]|])
              || exists k :: 0 <= k < |files[i]| && k < |files[j]| && files[i][..k] == files[j][..k] && files[i][k] < files[j][k]
    ensures forall n :: n in FilesOf(Sorted(entries)) <==>
              exists e :: e in entries && !e.isDir && |n| >= 4 && n[|n| - 4..] == ".sql" && e.name == n
  {
    hide Less, Sorted, FilesOf, Ascending;
    var files := FilesOf(Sorted(entries));
    FilesOfSorted(entries);
    forall i, j | 0 <= i < j < |files| ensures Less(files[i], files[j]) {
      AscendingIs(files, i, j);
    }
    OrderIs(files);
  }

  // ---- What is left to do -----------------------------------------------------------

  function Pending(files: seq<string>, recorded: set<string>): seq<string> {
    if files == [] then []
    else (if files[0] in recorded then [] else [files[0]]) + Pending(files[1..], recorded)
  }

  lemma {:induction false} AfterAll(name: string, files: seq<string>)
    requires Before(name, files)
    ensures name !in files
  {
    LessIsIrreflexive(name);
  }

  lemma {:induction false} LessIsIrreflexive(a: string)
    ensures !Less(a, a)
  {
    if a != [] {
      LessIsIrreflexive(a[1..]);
    }
  }

  lemma {:induction false} PendingIgnores(files: seq<string>, recorded: set<string>, name: string)
    requires name !in files
    ensures Pending(files, recorded + {name}) == Pending(files, recorded)
  {
    if files != [] {
      PendingIgnores(files[1..], recorded, name);
      assert files[0] in files;
    }
  }

  lemma {:induction false} PendingAscends(files: seq<string>, recorded: set<string>)
    requires Ascending(files)
    ensures Ascending(Pending(files, recorded))
    ensures forall n :: n in Pending(files, recorded) <==> n in files && n !in recorded
  {
    if files != [] {
      PendingAscends(files[1..], recorded);
      assert files == [files[0]] + files[1..];
      var rest := Pending(files[1..], recorded);
      forall i | 0 <= i < |rest| ensures Less(files[0], rest[i]) {
        assert rest[i] in rest;
        var j :| 0 <= j < |files[1..]| && files[1..][j] == rest[i];
      }
      if files[0] !in recorded {
        assert Pending(files, recorded)[1..] == rest;
      } else {
        assert Pending(files, recorded) == rest;
      }
    }
  }

  lemma AscendingDiffer(s: seq<string>, i: nat, j: nat)
    requires Ascending(s) && i < j < |s|
    ensures s[i] != s[j]
  {
    AscendingIs(s, i, j);
    LessIsIrreflexive(s[i]);
  }

  // ---- The log of executed files ------------------------------------------------------

  /** Adjacent repeats taken once. */
  function Collapse(log: seq<string>): seq<string>
    decreases |log|
  {
    if log == [] then []
    else
      var n := |log| - 1;
      if n > 0 && log[n - 1] == log[n] then Collapse(log[..n]) else Collapse(log[..n]) + [log[n]]
  }

  lemma CollapseOneMore(log: seq<string>, name: string)
    ensures Collapse(log + [name]) == if log != [] && log[|log| - 1] == name then Collapse(log) else Collapse(log) + [name]
  {
    assert (log + [name])[..|log|] == log;
  }

  lemma {:induction false} CollapseKeepsLast(log: seq<string>)
    requires log != []
    ensures Collapse(log) != [] && Collapse(log)[|Collapse(log)| - 1] == log[|log| - 1]
    decreases |log|
  {
    if |log| > 1 {
      CollapseKeepsLast(log[..|log| - 1]);
    }
  }

  lemma {:induction false} RecordFirst(files: seq<string>, recorded: set<string>)
    requires Ascending(files) && Pending(files, recorded) != []
    ensures var p := Pending(files, recorded); Pending(files, recorded + {p[0]}) == p[1..]
  {
    if files[0] in recorded {
      RecordFirst(files[1..], recorded);
    } else {
      AfterAll(files[0], files[1..]);
      PendingIgnores(files[1..], recorded, files[0]);
    }
  }

  function NextOf(begun: bool, todo: seq<string>): seq<string> { if begun && todo != [] then [todo[0]] else [] }

  /** Starting the next file adds it to the collapsed log unless a cut run had started it already. */
  lemma Started(log: seq<string>, finished: seq<string>, todo: seq<string>, begun: bool)
    requires Ascending(finished + todo) && todo != []
    requires Collapse(log) == finished + NextOf(begun, todo)
    ensures Collapse(log + [todo[0]]) == finished + [todo[0]]
  {
    CollapseOneMore(log, todo[0]);
    if log != [] {
      CollapseKeepsLast(log);
      if !begun {
        var n := |finished|;
        AscendingDiffer(finished + todo, n - 1, n);
      }
    }
  }

  /** In a complete log every planned file occurs once, plus once for each run cut off right after it. */
  lemma {:induction false} OncePlusCuts(log: seq<string>, plan: seq<string>, cuts: seq<string>, name: string)
    requires Ascending(plan) && multiset(log) == multiset(plan) + multiset(cuts)
    ensures multiset(log)[name] == (if name in plan then 1 else 0) + multiset(cuts)[name]
  {
    AscendingCountsOnce(plan, name);
  }

  lemma {:induction false} AscendingCountsOnce(s: seq<string>, name: string)
    requires Ascending(s)
    ensures multiset(s)[name] == if name in s then 1 else 0
  {
    if s != [] {
      AscendingCountsOnce(s[1..], name);
      AfterAll(s[0], s[1..]);
      assert s == [s[0]] + s[1..];
    }
  }

  // ---- The state between runs ------------------------------------------------------------

  /**
   * Of the plan, the files pending at the start: those executed and recorded, and those still
   * to do, of which the first may have been executed already. Cuts lists the files after whose
   * execution a run was cut off.
   */
  datatype Progress = Progress(recorded: set<string>, log: seq<string>, plan: seq<string>,
                               finished: seq<string>, todo: seq<string>, begun: bool, cuts: seq<string>)

  /** What every run, complete or cut off, leaves behind. */
  ghost predicate Consistent(files: seq<string>, p: Progress) {
    && Ascending(files) && Ascending(p.plan) && p.plan == p.finished + p.todo
    && Pending(files, p.recorded) == p.todo
    && Collapse(p.log) == p.finished + NextOf(p.begun, p.todo)
    && multiset(p.log) == multiset(p.finished) + multiset(p.cuts)
  }

  function Cut(p: Progress): Progress
    requires p.todo != []
  {
    p.(log := p.log + [p.todo[0]], begun := true, cuts := p.cuts + [p.todo[0]])
  }

  function Applied(p: Progress): Progress
    requires p.todo != []
  {
    p.(log := p.log + [p.todo[0]], recorded := p.recorded + {p.todo[0]},
       finished := p.finished + [p.todo[0]], todo := p.todo[1..], begun := false)
  }

  lemma CutIsConsistent(files: seq<string>, p: Progress)
    requires Consistent(files, p) && p.todo != []
    ensures Consistent(files, Cut(p))
  {
    Started(p.log, p.finished, p.todo, p.begun);
  }

  lemma MoveFirst(finished: seq<string>, todo: seq<string>)
    requires todo != []
    ensures finished + [todo[0]] + todo[1..] == finished + todo
  {
  }

  lemma CountOneMore(log: seq<string>, finished: seq<string>, cuts: seq<string>, name: string)
    requires multiset(log) == multiset(finished) + multiset(cuts)
    ensures multiset(log + [name]) == multiset(finished + [name]) + multiset(cuts)
  {
  }

  lemma AppliedIsConsistent(files: seq<string>, p: Progress)
    requires Consistent(files, p) && p.todo != []
    ensures Consistent(files, Applied(p))
  {
    hide Collapse, Pending, Ascending;
    Started(p.log, p.finished, p.todo, p.begun);
    RecordFirst(files, p.recorded);
    MoveFirst(p.finished, p.todo);
    CountOneMore(p.log, p.finished, p.cuts, p.todo[0]);
    assert p.finished + [p.todo[0]] + NextOf(false, p.todo[1..]) == p.finished + [p.todo[0]];
  }

  lemma StartIsConsistent(files: seq<string>, recorded: set<string>)
    requires Ascending(files)
    ensures Consistent(files, Progress(recorded, [], Pending(files, recorded), [], Pending(files, recorded), false, []))
  {
    PendingAscends(files, recorded);
    assert [] + Pending(files, recorded) == Pending(files, recorded);
  }

  lemma TodoIsPending(files: seq<string>, p: Progress)
    requires Consistent(files, p)
    ensures Pending(files, p.recorded) == p.todo
  {
  }

  /** Nothing left to do: the collapsed log is the plan, each file once and once more per cut. */
  lemma {:induction false} CompleteLog(files: seq<string>, p: Progress)
    requires Consistent(files, p) && p.todo == []
    ensures Collapse(p.log) == p.plan
    ensures forall name :: multiset(p.log)[name] == (if name in p.plan then 1 else 0) + multiset(p.cuts)[name]
  {
    assert p.finished + NextOf(p.begun, p.todo) == p.finished == p.plan;
    forall name {
      OncePlusCuts(p.log, p.plan, p.cuts, name);
    }
  }

  // ---- The database and the runs -------------------------------------------------------

  datatype Outcome = Done | CutOff

  /** The recorded names and the files whose SQL has been executed. */
  class Database {
    var recorded: set<string>
    var log: seq<string>
    ghost var progress: Progress

    ghost predicate Valid(files: seq<string>)
      reads this
    {
      Consistent(files, progress) && progress.recorded == recorded && progress.log == log
    }

    constructor (files: seq<string>, recorded: set<string>)
      requires Ascending(files)
      ensures Valid(files) && this.recorded == recorded && log == [] && progress.cuts == []
      ensures progress.plan == Pending(files, recorded)
    {
      this.recorded, log := recorded, [];
      progress := Progress(recorded, [], Pending(files, recorded), [], Pending(files, recorded), false, []);
      new;
      StartIsConsistent(files, recorded);
    }

    /** One file: execute, then record; two statements, and the process may end between them. */
    method Apply(name: string, budget: nat, ghost files: seq<string>) returns (left: nat, outcome: Outcome)
      requires Valid(files) && progress.todo != [] && progress.todo[0] == name
      modifies this
      ensures Valid(files)
      ensures progress == if budget >= 2 then Applied(old(progress)) else if budget == 1 then Cut(old(progress)) else old(progress)
      ensures outcome == (if budget >= 2 then Done else CutOff) && (budget >= 2 ==> left == budget - 2)
    {
      left := budget;
      if left == 0 {
        return left, CutOff;
      }
      log := log + [name];
      left := left - 1;
      if left == 0 {
        CutIsConsistent(files, progress);
        progress := Cut(progress);
        return left, CutOff;
      }
      recorded := recorded + {name};
      left := left - 1;
      AppliedIsConsistent(files, progress);
      progress := Applied(progress);
      outcome := Done;
    }

    /** One turn of the loop: look the file up, apply it if it is new. */
    method Visit(entry: Entry, budget: nat, ghost rest: seq<Entry>, ghost files: seq<string>) returns (left: nat, outcome: Outcome)
      requires Valid(files) && AscendingEntries([entry] + rest) && Pending(FilesOf([entry] + rest), recorded) == progress.todo
      modifies this
      ensures Valid(files)
      ensures progress == old(progress) || (old(progress.todo) != [] && progress == Applied(old(progress)))
           || (outcome.CutOff? && old(progress.todo) != [] && progress == Cut(old(progress)))
      ensures outcome.Done? ==> Pending(FilesOf(rest), recorded) == progress.todo
      ensures log == old(log) || (log == old(log) + [entry.name] && IsMigration(entry) && entry.name !in old(recorded))
      ensures recorded == old(recorded) + (if outcome.Done? && log != old(log) then {entry.name} else {})
      ensures outcome.Done? && IsMigration(entry) ==> entry.name in recorded
      ensures budget + 3 * |FilesOf(rest)| >= 3 * |FilesOf([entry] + rest)| ==>
                outcome.Done? && left + 3 * |FilesOf([entry] + rest)| >= budget + 3 * |FilesOf(rest)|
    {
      NextEntry([entry] + rest, recorded);
      assert ([entry] + rest)[1..] == rest;
      left, outcome := budget, Done;
      if !IsMigration(entry) {
        return;
      }
      if left == 0 {
        return left, CutOff;
      }
      left := left - 1;
      if entry.name in recorded {
        return;
      }
      left, outcome := Apply(entry.name, left, files);
    }

    /**
     * A run gets a budget of database calls: a look-up per file, an execution and a record
     * per new one. What it executes comes in name order, is new, and is recorded except for
     * the last file of a run cut off in between; a complete run leaves every file recorded.
     */
    method RunMigrations(entries: seq<Entry>, budget: nat) returns (outcome: Outcome, ghost ran: seq<string>)
      requires IsDirectory(entries) && Valid(FilesOf(Sorted(entries)))
      modifies this
      ensures log == old(log) + ran
      ensures forall i, j :: 0 <= i < j < |ran| ==>
                || (|ran[i]| < |ran[j]| && ran[i] == ran[j][..|ran[i]|])
                || exists k :: 0 <= k < |ran[i]| && k < |ran[j]| && ran[i][..k] == ran[j][..k] && ran[i][k] < ran[j][k]
      ensures forall n :: n in ran ==>
                && n !in old(recorded)
                && exists e :: e in entries && e.name == n && !e.isDir && |n| >= 4 && n[|n| - 4..] == ".sql"
      ensures recorded == old(recorded) + NamesIn(ran)
           || (outcome.CutOff? && ran != [] && recorded == old(recorded) + NamesIn(ran[..|ran| - 1]))
      ensures outcome.Done? ==>
                forall e :: e in entries && !e.isDir && |e.name| >= 4 && e.name[|e.name| - 4..] == ".sql" ==> e.name in recorded
      ensures Valid(FilesOf(Sorted(entries))) && progress.plan == old(progress.plan)
      ensures outcome.Done? ==> progress.todo == [] && progress.cuts == old(progress.cuts)
      ensures old(progress.todo) == [] ==> progress == old(progress)
      ensures outcome.CutOff? ==>
                || progress.cuts == old(progress.cuts)
                || (progress.todo != [] && progress.cuts == old(progress.cuts) + [progress.todo[0]])
      ensures budget >= 3 * |FilesOf(Sorted(entries))| ==> outcome.Done?
    {
      hide Consistent, Ascending, Underway, RanInOrder, Pending, FilesOf, IsMigration, NamesIn, Less;
      outcome, ran := VisitAll(entries, budget);
      WhatRan(ran, entries, old(recorded));
      if outcome.Done? {
        NothingLeft(ran, entries, old(recorded), recorded);
      }
    }

    /** The loop over the sorted directory. */
    method VisitAll(entries: seq<Entry>, budget: nat) returns (outcome: Outcome, ghost ran: seq<string>)
      requires IsDirectory(entries) && Valid(FilesOf(Sorted(entries)))
      modifies this
      ensures log == old(log) + ran && RanInOrder(ran, entries, old(recorded))
      ensures outcome.Done? ==> Underway(ran, [], entries, old(recorded), recorded)
      ensures recorded == old(recorded) + NamesIn(ran)
           || (outcome.CutOff? && ran != [] && recorded == old(recorded) + NamesIn(ran[..|ran| - 1]))
      ensures Valid(FilesOf(Sorted(entries))) && progress.plan == old(progress.plan)
      ensures outcome.Done? ==> progress.todo == [] && progress.cuts == old(progress.cuts)
      ensures old(progress.todo) == [] ==> progress == old(progress)
      ensures outcome.CutOff? ==>
                || progress.cuts == old(progress.cuts)
                || (progress.todo != [] && progress.cuts == old(progress.cuts) + [progress.todo[0]])
      ensures budget >= 3 * |FilesOf(Sorted(entries))| ==> outcome.Done?
    {
      hide Consistent, Ascending, AscendingEntries, Underway, RanInOrder, Pending, FilesOf, IsMigration, NamesIn, Less;
      var sorted := Sorted(entries);
      ghost var files := FilesOf(sorted);
      SortedAscends(entries);
      TodoIsPending(files, progress);
      NothingRan(entries, recorded);
      ran := [];
      var left: nat := budget;
      while sorted != []
        invariant log == old(log) + ran && Underway(ran, sorted, entries, old(recorded), recorded)
        invariant Valid(files) && progress.plan == old(progress.plan) && progress.cuts == old(progress.cuts)
        invariant AscendingEntries(sorted)
        invariant Pending(FilesOf(sorted), recorded) == progress.todo
        invariant old(progress.todo) == [] ==> progress == old(progress)
        invariant budget >= 3 * |files| ==> left >= 3 * |FilesOf(sorted)|
        decreases |sorted|
      {
        assert sorted == [sorted[0]] + sorted[1..];
        OneMoreRan(ran, sorted, entries, old(recorded), recorded);
        left, outcome := Visit(sorted[0], left, sorted[1..], files);
        if log != old(log) + ran {
          ran := ran + [sorted[0].name];
        }
        if outcome.CutOff? {
          return;
        }
        sorted := sorted[1..];
      }
      NothingLeft(ran, entries, old(recorded), recorded);
      outcome := Done;
    }
  }

  function NamesIn(s: seq<string>): set<string> { set n | n in s }

  /** What a run has executed of the directory: new files in order. */
  ghost predicate RanInOrder(ran: seq<string>, entries: seq<Entry>, before: set<string>) {
    && (forall i, j :: 0 <= i < j < |ran| ==> Less(ran[i], ran[j]))
    && forall n :: n in ran ==> n !in before && exists e :: e in entries && IsMigration(e) && e.name == n
  }

  /** While `rest` is still to be visited, everything before it has been recorded. */
  ghost predicate Underway(ran: seq<string>, rest: seq<Entry>, entries: seq<Entry>, before: set<string>, recorded: set<string>) {
    && RanInOrder(ran, entries, before) && recorded == before + NamesIn(ran)
    && (forall n, e :: n in ran && e in rest ==> Less(n, e.name))
    && (forall e :: e in rest ==> e in entries)
    && forall e :: e in entries && IsMigration(e) ==> e in rest || e.name in recorded
  }

  lemma NothingRan(entries: seq<Entry>, before: set<string>)
    requires IsDirectory(entries)
    ensures Underway([], Sorted(entries), entries, before, before)
  {
    SortedAscends(entries);
  }

  /** One turn of the loop, which may be cut off between the execution and the record. */
  lemma OneMoreRan(ran: seq<string>, rest: seq<Entry>, entries: seq<Entry>, before: set<string>, recorded: set<string>)
    requires Underway(ran, rest, entries, before, recorded) && rest != [] && AscendingEntries(rest)
    ensures AscendingEntries(rest[1..])
    ensures RanInOrder(ran, entries, before) && recorded == before + NamesIn(ran)
    ensures !IsMigration(rest[0]) || rest[0].name in recorded ==> Underway(ran, rest[1..], entries, before, recorded)
    ensures IsMigration(rest[0]) && rest[0].name !in recorded ==>
              && RanInOrder(ran + [rest[0].name], entries, before)
              && Underway(ran + [rest[0].name], rest[1..], entries, before, recorded + {rest[0].name})
              && NamesIn((ran + [rest[0].name])[..|ran|]) == NamesIn(ran)
  {
    hide Less, IsMigration;
    var name := rest[0].name;
    assert rest == [rest[0]] + rest[1..] && rest[0] in rest;
    assert (ran + [name])[..|ran|] == ran;
    if IsMigration(rest[0]) && name !in recorded {
      forall i, j | 0 <= i < j < |ran + [name]| ensures Less((ran + [name])[i], (ran + [name])[j]) {
        assert i < |ran| && ran[i] in ran;
      }
      assert NamesIn(ran + [name]) == NamesIn(ran) + {name};
    }
  }

  lemma WhatRan(ran: seq<string>, entries: seq<Entry>, before: set<string>)
    requires RanInOrder(ran, entries, before)
    ensures forall i, j :: 0 <= i < j < |ran| ==>
              || (|ran[i]| < |ran[j]| && ran[i] == ran[j][..|ran[i]|])
              || exists k :: 0 <= k < |ran[i]| && k < |ran[j]| && ran[i][..k] == ran[j][..k] && ran[i][k] < ran[j][k]
    ensures forall n :: n in ran ==>
              && n !in before
              && exists e :: e in entries && e.name == n && !e.isDir && |n| >= 4 && n[|n| - 4..] == ".sql"
  {
    hide Less;
    OrderIs(ran);
  }

  lemma NothingLeft(ran: seq<string>, entries: seq<Entry>, before: set<string>, recorded: set<string>)
    requires Underway(ran, [], entries, before, recorded)
    ensures RanInOrder(ran, entries, before) && recorded == before + NamesIn(ran)
    ensures Pending(FilesOf([]), recorded) == []
    ensures forall e :: e in entries && !e.isDir && |e.name| >= 4 && e.name[|e.name| - 4..] == ".sql" ==> e.name in recorded
  {
  }

  /** How the first entry of the rest of the directory changes what is left to do. */
  lemma NextEntry(s: seq<Entry>, recorded: set<string>)
    requires s != [] && AscendingEntries(s)
    ensures var rest, e := FilesOf(s[1..]), s[0];
            if !IsMigration(e) then FilesOf(s) == rest
            else |FilesOf(s)| == |rest| + 1 &&
                 (if e.name in recorded then Pending(FilesOf(s), recorded) == Pending(rest, recorded)
                  else Pending(FilesOf(s), recorded) == [e.name] + Pending(rest, recorded)
                       && Pending(rest, recorded + {e.name}) == Pending(rest, recorded))
  {
    FilesAscend(s);
    if IsMigration(s[0]) {
      var rest := FilesOf(s[1..]);
      assert FilesOf(s) == [s[0].name] + rest && FilesOf(s)[1..] == rest;
      AfterAll(s[0].name, rest);
      PendingIgnores(rest, recorded, s[0].name);
    } else {
      assert FilesOf(s) == FilesOf(s[1..]);
    }
  }
}
