/**
 * Edge-triggered event detectors: volume, disk, temperature and DSM update events of
 * internal/infra/synology.go, guest state changes of internal/infra/proxmox.go and the
 * image update edge of internal/infra/portainer_enrichment.go.
 *
 * Each poller keeps per-key state in maps it overwrites. The reference is a pure function
 * over everything a poller has ever observed.
 */
module EdgeDetectors {
  import opened Common

  // ---- The reference: edges of a trace ------------------------------------------

  /** A log that grows at its end. */
  datatype Log<+T> = Empty | Snoc(rest: Log<T>, last: T)

  function Joined<T>(a: Log<T>, b: Log<T>): Log<T> { if b.Empty? then a else Snoc(Joined(a, b.rest), b.last) }

  /** What an observation says given the previous one of the same key. */
  type Rule<!O, !E> = (Option<O>, O) -> Option<E>

  function Last<K(==), O>(history: Log<(K, O)>, key: K): Option<O> {
    if history.Empty? then None
    else if history.last.0 == key then Some(history.last.1)
    else Last(history.rest, key)
  }

  /** The events of a history in which the keys are mixed. */
  function Edges<K(==), O, E>(rule: Rule<O, E>, history: Log<(K, O)>): Log<(K, E)> {
    if history.Empty? then Empty
    else
      var (k, o) := history.last;
      var e := rule(Last(history.rest, k), o);
      if e.Some? then Snoc(Edges(rule, history.rest), (k, e.value)) else Edges(rule, history.rest)
  }

  /** The entries of one key. */
  function Of<K(==), T>(log: Log<(K, T)>, key: K): Log<T> {
    if log.Empty? then Empty
    else if log.last.0 == key then Snoc(Of(log.rest, key), log.last.1)
    else Of(log.rest, key)
  }

  function Previous<O>(trace: Log<O>): Option<O> { if trace.Empty? then None else Some(trace.last) }

  /** The events at the adjacent pairs of one trace. */
  function Pairs<O, E>(rule: Rule<O, E>, trace: Log<O>): Log<E> {
    if trace.Empty? then Empty
    else
      var e := rule(Previous(trace.rest), trace.last);
      if e.Some? then Snoc(Pairs(rule, trace.rest), e.value) else Pairs(rule, trace.rest)
  }

  lemma {:induction false} LastOfTrace<K, O>(history: Log<(K, O)>, key: K)
    ensures Last(history, key) == Previous(Of(history, key))
  {
    if history.Snoc? {
      LastOfTrace(history.rest, key);
    }
  }

  /** Keys do not disturb each other: the events of a key are those of its own adjacent pairs, in order. */
  lemma {:induction false} KeysAreIndependent<K, O, E>(rule: Rule<O, E>, history: Log<(K, O)>, key: K)
    ensures Of(Edges(rule, history), key) == Pairs(rule, Of(history, key))
  {
    if history.Snoc? {
      KeysAreIndependent(rule, history.rest, key);
      LastOfTrace(history.rest, key);
    }
  }

  // ---- The rules ------------------------------------------------------------------

  datatype Level = Info | Warn | Error

  /** A volume enters a bad status; the status before the first poll counts as empty. */
  function VolumeRule(prev: Option<string>, status: string): Option<Level> {
    if status == (if prev.Some? then prev.value else "") then None
    else if status == "crashed" then Some(Error)
    else if status == "degraded" then Some(Warn)
    else None
  }

  function DiskRule(prev: Option<string>, status: string): Option<Level> {
    if status == (if prev.Some? then prev.value else "") then None
    else if status == "critical" then Some(Error)
    else if status == "warning" then Some(Warn)
    else None
  }

  const HOT := 55

  /** Crossing 55 degrees upwards. */
  function TempRule(prev: Option<int>, temp: int): Option<Level> {
    if temp > HOT && (prev.None? || prev.value <= HOT) then Some(Warn) else None
  }

  /** A DSM version that is not the one last announced; "" stands for nothing available. */
  function DsmRule(prev: Option<string>, version: string): Option<string> {
    if version != "" && (prev.None? || prev.value != version) then Some(version) else None
  }

  /** Between running and stopped, and only seen one directly after the other. */
  function GuestRule(prev: Option<string>, status: string): Option<Level> {
    if prev == Some("running") && status == "stopped" then Some(Warn)
    else if prev == Some("stopped") && status == "running" then Some(Info)
    else None
  }

  function ImageRule(prev: Option<bool>, available: bool): Option<Level> {
    if available && prev != Some(true) then Some(Info) else None
  }

  // ---- Synology ---------------------------------------------------------------------

  datatype Volume = Volume(path: string, status: string)
  datatype Disk = Disk(slot: int, status: string, temp: int)

  /** The observations up to and including the first n entries of a poll. */
  function VolumesSeen(log: Log<(string, string)>, polled: seq<Volume>, n: nat): Log<(string, string)>
    requires n <= |polled|
  {
    if n == 0 then log else Snoc(VolumesSeen(log, polled, n - 1), (polled[n - 1].path, polled[n - 1].status))
  }

  function DisksSeen(log: Log<(int, string)>, polled: seq<Disk>, n: nat): Log<(int, string)>
    requires n <= |polled|
  {
    if n == 0 then log else Snoc(DisksSeen(log, polled, n - 1), (polled[n - 1].slot, polled[n - 1].status))
  }

  function TempsSeen(log: Log<(int, int)>, polled: seq<Disk>, n: nat): Log<(int, int)>
    requires n <= |polled|
  {
    if n == 0 then log else Snoc(TempsSeen(log, polled, n - 1), (polled[n - 1].slot, polled[n - 1].temp))
  }

  /** The stored text reads as the last observation, a missing key as the empty text. */
  ghost predicate Remembers<K(!new)>(stored: map<K, string>, history: Log<(K, string)>) {
    forall k :: Text(stored, k) == TextOf(Last(history, k))
  }

  ghost predicate Flags<K(!new)>(flags: map<K, bool>, history: Log<(K, int)>) {
    forall k :: Flag(flags, k) <==> (Last(history, k).Some? && Last(history, k).value > HOT)
  }

  /** The maps of the poller, the events it has created, and everything it has observed. */
  class SynologyPoller {
    var volumeStates: map<string, string>
    var diskStates: map<int, string>
    var diskTempFlagged: map<int, bool>
    var lastUpdateVer: map<string, string>

    var volumeEvents: Log<(string, Level)>
    var diskEvents: Log<(int, Level)>
    var tempEvents: Log<(int, Level)>
    var updateEvents: Log<(string, string)>

    ghost var volumes: Log<(string, string)>
    ghost var disks: Log<(int, string)>
    ghost var temps: Log<(int, int)>
    ghost var versions: Log<(string, string)>

    ghost predicate VolumesValid()
      reads this`volumeStates, this`volumeEvents, this`volumes
    {
      Remembers(volumeStates, volumes) && volumeEvents == Edges(VolumeRule, volumes)
    }

    ghost predicate DisksValid()
      reads this`diskStates, this`diskEvents, this`disks
    {
      Remembers(diskStates, disks) && diskEvents == Edges(DiskRule, disks)
    }

    ghost predicate TempsValid()
      reads this`diskTempFlagged, this`tempEvents, this`temps
    {
      Flags(diskTempFlagged, temps) && tempEvents == Edges(TempRule, temps)
    }

    ghost predicate UpdatesValid()
      reads this`lastUpdateVer, this`updateEvents, this`versions
    {
      Remembers(lastUpdateVer, versions) && updateEvents == Edges(DsmRule, versions)
    }

    /** Stored state is the last observation, and the events are the edges of all observations. */
    ghost predicate Valid()
      reads this
    {
      VolumesValid() && DisksValid() && TempsValid() && UpdatesValid()
    }

    constructor ()
      ensures Valid() && volumes == Empty && disks == Empty && temps == Empty && versions == Empty
    {
      volumeStates, diskStates, diskTempFlagged, lastUpdateVer := map[], map[], map[], map[];
      volumeEvents, diskEvents, tempEvents, updateEvents := Empty, Empty, Empty, Empty;
      volumes, disks, temps, versions := Empty, Empty, Empty, Empty;
    }

    /** Volume part of a poll. */
    method FetchVolumes(polled: seq<Volume>)
      requires VolumesValid()
      modifies this`volumeStates, this`volumeEvents, this`volumes
      ensures VolumesValid() && volumes == VolumesSeen(old(volumes), polled, |polled|)
    {
      for i := 0 to |polled|
        invariant VolumesValid() && volumes == VolumesSeen(old(volumes), polled, i)
      {
        var vol := polled[i];
        if vol.status != Text(volumeStates, vol.path) {
          volumeStates := volumeStates[vol.path := vol.status];
          if vol.status == "degraded" || vol.status == "crashed" {
            volumeEvents := Snoc(volumeEvents, (vol.path, if vol.status == "crashed" then Error else Warn));
          }
        }
        volumes := Snoc(volumes, (vol.path, vol.status));
      }
    }

    /** Disk part of a poll: status and temperature edges are independent. */
    method FetchDisks(polled: seq<Disk>) returns (degraded: bool)
      requires DisksValid() && TempsValid()
      modifies this`diskStates, this`diskEvents, this`disks, this`diskTempFlagged, this`tempEvents, this`temps
      ensures DisksValid() && TempsValid()
      ensures disks == DisksSeen(old(disks), polled, |polled|)
      ensures temps == TempsSeen(old(temps), polled, |polled|)
      ensures degraded <==> exists i :: 0 <= i < |polled| && polled[i].status == "critical"
    {
      degraded := false;
      for i := 0 to |polled|
        invariant DisksValid() && TempsValid()
        invariant disks == DisksSeen(old(disks), polled, i) && temps == TempsSeen(old(temps), polled, i)
        invariant degraded <==> exists j :: 0 <= j < i && polled[j].status == "critical"
      {
        var disk := polled[i];
        if disk.status == "critical" {
          degraded := true;
        }
        CheckStatus(disk);
        CheckTemp(disk);
      }
    }

    method CheckStatus(disk: Disk)
      requires DisksValid()
      modifies this`diskStates, this`diskEvents, this`disks
      ensures DisksValid() && disks == Snoc(old(disks), (disk.slot, disk.status))
    {
      if disk.status != Text(diskStates, disk.slot) {
        diskStates := diskStates[disk.slot := disk.status];
        if disk.status == "warning" || disk.status == "critical" {
          diskEvents := Snoc(diskEvents, (disk.slot, if disk.status == "critical" then Error else Warn));
        }
      }
      disks := Snoc(disks, (disk.slot, disk.status));
    }

    method CheckTemp(disk: Disk)
      requires TempsValid()
      modifies this`diskTempFlagged, this`tempEvents, this`temps
      ensures TempsValid() && temps == Snoc(old(temps), (disk.slot, disk.temp))
    {
      var wasFlagged := Flag(diskTempFlagged, disk.slot);
      var isFlagged := disk.temp > 55;
      if isFlagged && !wasFlagged {
        diskTempFlagged := diskTempFlagged[disk.slot := true];
        tempEvents := Snoc(tempEvents, (disk.slot, Warn));
      } else if !isFlagged && wasFlagged {
        diskTempFlagged := diskTempFlagged[disk.slot := false];
      }
      temps := Snoc(temps, (disk.slot, disk.temp));
    }

    /** An available update without a version says nothing and changes nothing. */
    method FetchUpdates(available: bool, version: string)
      requires UpdatesValid()
      modifies this`lastUpdateVer, this`updateEvents, this`versions
      ensures UpdatesValid()
      ensures versions == if available && version == "" then old(versions)
                          else Snoc(old(versions), ("ver", if available then version else ""))
    {
      if available && version != "" {
        if version != Text(lastUpdateVer, "ver") {
          lastUpdateVer := lastUpdateVer["ver" := version];
          updateEvents := Snoc(updateEvents, ("ver", version));
        }
        versions := Snoc(versions, ("ver", version));
      } else if !available {
        lastUpdateVer := lastUpdateVer["ver" := ""];
        versions := Snoc(versions, ("ver", ""));
      }
    }
  }

  /** Load with a failed type assertion gives the zero value. */
  function Text<K(==)>(m: map<K, string>, k: K): string { if k in m then m[k] else "" }

  function Flag<K(==)>(m: map<K, bool>, k: K): bool { k in m && m[k] }

  function TextOf(o: Option<string>): string { if o.Some? then o.value else "" }

  // ---- Proxmox and Portainer ----------------------------------------------------

  datatype GuestKey = GuestKey(node: string, vmid: int)
  datatype Guest = Guest(vmid: int, status: string)

  function GuestsSeen(log: Log<(GuestKey, string)>, node: string, polled: seq<Guest>, n: nat): Log<(GuestKey, string)>
    requires n <= |polled|
  {
    if n == 0 then log
    else Snoc(GuestsSeen(log, node, polled, n - 1), (GuestKey(node, polled[n - 1].vmid), polled[n - 1].status))
  }

  class ProxmoxPoller {
    var lastVMState: map<GuestKey, string>
    var events: Log<(GuestKey, Level)>
    ghost var seen: Log<(GuestKey, string)>

    ghost predicate Valid()
      reads this
    {
      (forall k :: Find(lastVMState, k) == Last(seen, k)) && events == Edges(GuestRule, seen)
    }

    constructor ()
      ensures Valid() && seen == Empty
    {
      lastVMState, events, seen := map[], Empty, Empty;
    }

    method CheckStateChanges(node: string, guests: seq<Guest>)
      requires Valid()
      modifies this
      ensures Valid() && seen == GuestsSeen(old(seen), node, guests, |guests|)
    {
      for i := 0 to |guests|
        invariant Valid() && seen == GuestsSeen(old(seen), node, guests, i)
      {
        var vm := guests[i];
        var key := GuestKey(node, vm.vmid);
        var known := key in lastVMState;
        var prev := Text(lastVMState, key);
        lastVMState := lastVMState[key := vm.status];
        seen := Snoc(seen, (key, vm.status));
        if !known || prev == vm.status {
          continue;
        }
        if !((prev == "running" && vm.status == "stopped") || (prev == "stopped" && vm.status == "running")) {
          continue;
        }
        events := Snoc(events, (key, if vm.status == "stopped" then Warn else Info));
      }
    }
  }

  class EnrichmentWorker {
    var lastUpdateAvailable: map<string, bool>
    var events: Log<(string, Level)>
    ghost var seen: Log<(string, bool)>

    ghost predicate Valid()
      reads this
    {
      (forall k :: Find(lastUpdateAvailable, k) == Last(seen, k)) && events == Edges(ImageRule, seen)
    }

    constructor ()
      ensures Valid() && seen == Empty
    {
      lastUpdateAvailable, events, seen := map[], Empty, Empty;
    }

    method CheckImageUpdate(id: string, available: bool)
      requires Valid()
      modifies this
      ensures Valid() && seen == Snoc(old(seen), (id, available))
    {
      if available {
        var prev := Flag(lastUpdateAvailable, id);
        if !prev {
          events := Snoc(events, (id, Info));
        }
      }
      lastUpdateAvailable := lastUpdateAvailable[id := available];
      seen := Snoc(seen, (id, available));
    }
  }

  // ---- What the rules mean over whole traces ---------------------------------------

  function All<T>(log: Log<T>, p: T -> bool): bool { log.Empty? || (p(log.last) && All(log.rest, p)) }

  function Occurrences<T(==)>(log: Log<T>, x: T): nat {
    if log.Empty? then 0 else Occurrences(log.rest, x) + (if log.last == x then 1 else 0)
  }

  /** How often a trace enters the observations p accepts, the beginning included. */
  function Entered<O>(trace: Log<O>, p: O -> bool): nat {
    if trace.Empty? then 0
    else Entered(trace.rest, p) + (if p(trace.last) && (trace.rest.Empty? || !p(trace.rest.last)) then 1 else 0)
  }

  /** A volume is reported as an error each time it enters "crashed", as a warning each time it enters "degraded". */
  lemma {:induction false} VolumeReports(trace: Log<string>)
    ensures Occurrences(Pairs(VolumeRule, trace), Error) == Entered(trace, s => s == "crashed")
    ensures Occurrences(Pairs(VolumeRule, trace), Warn) == Entered(trace, s => s == "degraded")
    ensures Occurrences(Pairs(VolumeRule, trace), Info) == 0
  {
    if trace.Snoc? {
      VolumeReports(trace.rest);
    }
  }

  lemma {:induction false} DiskReports(trace: Log<string>)
    ensures Occurrences(Pairs(DiskRule, trace), Error) == Entered(trace, s => s == "critical")
    ensures Occurrences(Pairs(DiskRule, trace), Warn) == Entered(trace, s => s == "warning")
    ensures Occurrences(Pairs(DiskRule, trace), Info) == 0
  {
    if trace.Snoc? {
      DiskReports(trace.rest);
    }
  }

  /** A disk is reported hot each time it gets above 55 degrees. */
  lemma {:induction false} TempReports(trace: Log<int>)
    ensures Occurrences(Pairs(TempRule, trace), Warn) == Entered(trace, t => t > 55) == Size(Pairs(TempRule, trace))
  {
    if trace.Snoc? {
      TempReports(trace.rest);
    }
  }

  lemma {:induction false} ImageReports(trace: Log<bool>)
    ensures Occurrences(Pairs(ImageRule, trace), Info) == Entered(trace, a => a) == Size(Pairs(ImageRule, trace))
  {
    if trace.Snoc? {
      ImageReports(trace.rest);
    }
  }

  /** A version is announced each time it is entered; the empty one, nothing available, never is. */
  lemma {:induction false} VersionReports(trace: Log<string>, version: string)
    ensures Occurrences(Pairs(DsmRule, trace), version) == if version == "" then 0 else Entered(trace, v => v == version)
  {
    if trace.Snoc? {
      VersionReports(trace.rest, version);
    }
  }

  /** How often b directly follows a. */
  function Follows(trace: Log<string>, a: string, b: string): nat {
    if trace.Empty? then 0
    else Follows(trace.rest, a, b) + (if trace.last == b && trace.rest.Snoc? && trace.rest.last == a then 1 else 0)
  }

  /** A guest is reported stopped each time "stopped" follows "running", started each time it is the other way round. */
  lemma {:induction false} GuestReports(trace: Log<string>)
    ensures Occurrences(Pairs(GuestRule, trace), Warn) == Follows(trace, "running", "stopped")
    ensures Occurrences(Pairs(GuestRule, trace), Info) == Follows(trace, "stopped", "running")
    ensures Occurrences(Pairs(GuestRule, trace), Error) == 0
  {
    if trace.Snoc? {
      GuestReports(trace.rest);
    }
  }

  /** However long a disk stays hot, the spell makes one event. */
  lemma {:induction false} OneEventPerHotSpell(before: Log<int>, spell: Log<int>)
    requires before.Empty? || before.last <= HOT
    requires spell.Snoc? && All(spell, t => t > HOT)
    ensures Pairs(TempRule, Joined(before, spell)) == Snoc(Pairs(TempRule, before), Warn)
  {
    if spell.rest.Snoc? {
      OneEventPerHotSpell(before, spell.rest);
    }
  }

  lemma {:induction false} CoolingIsSilent(before: Log<int>, cool: Log<int>)
    requires All(cool, t => t <= HOT)
    ensures Pairs(TempRule, Joined(before, cool)) == Pairs(TempRule, before)
  {
    if cool.Snoc? {
      CoolingIsSilent(before, cool.rest);
    }
  }

  /** A guest that was running and is seen stopped is reported exactly if no other status was seen in between. */
  lemma {:induction false} StopIsReportedIff(trace: Log<string>, detour: Log<string>)
    requires trace.Snoc? && trace.last == "running"
    requires All(detour, s => s !in {"running", "stopped"})
    ensures var before, after := Pairs(GuestRule, trace), Pairs(GuestRule, Snoc(Joined(trace, detour), "stopped"));
            && (after == Snoc(before, Warn) <==> detour.Empty?)
            && (after == before <==> detour.Snoc?)
  {
    DetourAddsNothing(trace, detour);
    var before := Pairs(GuestRule, trace);
    assert Size(Snoc(before, Warn)) == Size(before) + 1;
    assert Pairs(GuestRule, Snoc(Joined(trace, detour), "stopped")) == if detour.Empty? then Snoc(before, Warn) else before;
  }

  lemma {:induction false} DetourAddsNothing(trace: Log<string>, detour: Log<string>)
    requires All(detour, s => s !in {"running", "stopped"})
    ensures Pairs(GuestRule, Joined(trace, detour)) == Pairs(GuestRule, trace)
  {
    if detour.Snoc? {
      DetourAddsNothing(trace, detour.rest);
    }
  }

  /** Reported levels alternate as long as a guest is only ever seen running or stopped. */
  ghost predicate Alternates(log: Log<Level>) {
    log.Snoc? && log.rest.Snoc? ==> log.last != log.rest.last && Alternates(log.rest)
  }

  lemma {:induction false} GuestEventsAlternate(trace: Log<string>)
    requires All(trace, s => s in {"running", "stopped"})
    ensures var events := Pairs(GuestRule, trace);
            && Alternates(events)
            && (events.Snoc? ==> trace.Snoc? && (events.last == Warn <==> trace.last == "stopped") && events.last != Error)
  {
    if trace.Snoc? {
      GuestEventsAlternate(trace.rest);
    }
  }

  // ---- How long a poller lives ----------------------------------------------------------

  /** A discovery pass makes its own poller, polls once and drops it: so does a manual scan. */
  method DiscoverSynology(volumes: seq<Volume>, disks: seq<Disk>, available: bool, version: string)
    returns (volumeEvents: Log<(string, Level)>, diskEvents: Log<(int, Level)>, tempEvents: Log<(int, Level)>,
             updateEvents: Log<(string, string)>)
    ensures volumeEvents == Edges(VolumeRule, VolumesSeen(Empty, volumes, |volumes|))
    ensures diskEvents == Edges(DiskRule, DisksSeen(Empty, disks, |disks|))
    ensures tempEvents == Edges(TempRule, TempsSeen(Empty, disks, |disks|))
    ensures updateEvents == if available && version != "" then Snoc(Empty, ("ver", version)) else Empty
  {
    hide Remembers, Flags;
    var poller := new SynologyPoller();
    poller.FetchVolumes(volumes);
    var _ := poller.FetchDisks(disks);
    poller.FetchUpdates(available, version);
    return poller.volumeEvents, poller.diskEvents, poller.tempEvents, poller.updateEvents;
  }

  function NodesSeen(log: Log<(GuestKey, string)>, nodes: seq<(string, seq<Guest>)>, n: nat): Log<(GuestKey, string)>
    requires n <= |nodes|
  {
    if n == 0 then log
    else
      var (node, guests) := nodes[n - 1];
      GuestsSeen(NodesSeen(log, nodes, n - 1), node, guests, |guests|)
  }

  /** A manual scan polls every node once, with a poller of its own. */
  method ScanProxmox(nodes: seq<(string, seq<Guest>)>) returns (events: Log<(GuestKey, Level)>)
    ensures events == Edges(GuestRule, NodesSeen(Empty, nodes, |nodes|))
    ensures DistinctKeys(NodesSeen(Empty, nodes, |nodes|)) ==> events == Empty
  {
    var poller := new ProxmoxPoller();
    for i := 0 to |nodes|
      invariant poller.Valid() && poller.seen == NodesSeen(Empty, nodes, i)
    {
      var (node, guests) := nodes[i];
      poller.CheckStateChanges(node, guests);
    }
    FirstSightIsSilent(NodesSeen(Empty, nodes, |nodes|));
    events := poller.events;
  }

  /** No key is observed twice in a poll. */
  predicate DistinctKeys<K(==), O>(history: Log<(K, O)>) {
    history.Empty? || (Last(history.rest, history.last.0).None? && DistinctKeys(history.rest))
  }

  /** A poller that sees each guest once never reports one. */
  lemma {:induction false} FirstSightIsSilent(history: Log<(GuestKey, string)>)
    ensures DistinctKeys(history) ==> Edges(GuestRule, history) == Empty
  {
    if history.Snoc? {
      FirstSightIsSilent(history.rest);
    }
  }

  /** What fresh pollers make of a trace: each observation is the first of its poller. */
  function FreshEvents<O, E>(rule: Rule<O, E>, trace: Log<O>): Log<E> {
    if trace.Empty? then Empty
    else
      var e := rule(None, trace.last);
      if e.Some? then Snoc(FreshEvents(rule, trace.rest), e.value) else FreshEvents(rule, trace.rest)
  }

  /** The events of a key over passes that each have their own poller, and its observations. */
  function PassEvents<K(==), O, E>(rule: Rule<O, E>, passes: Log<Log<(K, O)>>, key: K): Log<E> {
    if passes.Empty? then Empty
    else Joined(PassEvents(rule, passes.rest, key), Of(Edges(rule, passes.last), key))
  }

  function PassTrace<K(==), O>(passes: Log<Log<(K, O)>>, key: K): Log<O> {
    if passes.Empty? then Empty else Joined(PassTrace(passes.rest, key), Of(passes.last, key))
  }

  lemma {:induction false} OnceAtMost<K, O>(history: Log<(K, O)>, key: K)
    requires DistinctKeys(history)
    ensures Of(history, key).Empty? || Of(history, key).rest.Empty?
  {
    if history.Snoc? {
      OnceAtMost(history.rest, key);
      LastOfTrace(history.rest, key);
    }
  }

  lemma {:induction false} FreshJoined<O, E>(rule: Rule<O, E>, a: Log<O>, b: Log<O>)
    ensures FreshEvents(rule, Joined(a, b)) == Joined(FreshEvents(rule, a), FreshEvents(rule, b))
  {
    if b.Snoc? {
      FreshJoined(rule, a, b.rest);
    }
  }

  /** Passes do not remember each other: whatever the rule, every observation counts as the first. */
  lemma {:induction false} FreshPollersForget<K, O, E>(rule: Rule<O, E>, passes: Log<Log<(K, O)>>, key: K)
    requires All(passes, (pass: Log<(K, O)>) => DistinctKeys(pass))
    ensures PassEvents(rule, passes, key) == FreshEvents(rule, PassTrace(passes, key))
  {
    if passes.Snoc? {
      FreshPollersForget(rule, passes.rest, key);
      var pass := passes.last;
      KeysAreIndependent(rule, pass, key);
      OnceAtMost(pass, key);
      FreshJoined(rule, PassTrace(passes.rest, key), Of(pass, key));
    }
  }

  function Size<T>(log: Log<T>): nat { if log.Empty? then 0 else Size(log.rest) + 1 }

  /** A disk that stays hot makes one event in every pass. */
  lemma {:induction false} EveryHotPassReports(passes: Log<Log<(int, int)>>, slot: int)
    requires All(passes, (pass: Log<(int, int)>) => DistinctKeys(pass))
    requires All(PassTrace(passes, slot), t => t > HOT)
    ensures Size(PassEvents(TempRule, passes, slot)) == Size(PassTrace(passes, slot))
  {
    FreshPollersForget(TempRule, passes, slot);
    HotIsReported(PassTrace(passes, slot));
  }

  lemma {:induction false} HotIsReported(trace: Log<int>)
    requires All(trace, t => t > HOT)
    ensures Size(FreshEvents(TempRule, trace)) == Size(trace)
  {
    if trace.Snoc? {
      HotIsReported(trace.rest);
    }
  }

  /** And no pass ever reports a guest, whatever its states were. */
  lemma {:induction false} GuestsAreNeverReported(passes: Log<Log<(GuestKey, string)>>, key: GuestKey)
    requires All(passes, (pass: Log<(GuestKey, string)>) => DistinctKeys(pass))
    ensures PassEvents(GuestRule, passes, key) == Empty
  {
    FreshPollersForget(GuestRule, passes, key);
    FirstIsNoChange(PassTrace(passes, key));
  }

  lemma {:induction false} FirstIsNoChange(trace: Log<string>)
    ensures FreshEvents(GuestRule, trace) == Empty
  {
    if trace.Snoc? {
      FirstIsNoChange(trace.rest);
    }
  }

  /** Two hot readings in a row. */
  predicate StaysHot(trace: Log<int>) {
    trace.Snoc? && ((trace.last > HOT && trace.rest.Snoc? && trace.rest.last > HOT) || StaysHot(trace.rest))
  }

  /** Fresh pollers report what one lasting poller would report exactly if the disk never stays hot from one reading to the next. */
  lemma {:induction false} FreshPollersAgreeIff(trace: Log<int>)
    ensures Size(Pairs(TempRule, trace)) <= Size(FreshEvents(TempRule, trace))
    ensures Pairs(TempRule, trace) == FreshEvents(TempRule, trace) <==> !StaysHot(trace)
    ensures Pairs(TempRule, trace) == FreshEvents(TempRule, trace) <==>
            Size(Pairs(TempRule, trace)) == Size(FreshEvents(TempRule, trace))
  {
    if trace.Snoc? {
      FreshPollersAgreeIff(trace.rest);
    }
  }

  // ---- Image updates ------------------------------------------------------------------------

  function ImagesSeen(observed: seq<(string, bool)>, n: nat): Log<(string, bool)>
    requires n <= |observed|
  {
    if n == 0 then Empty else Snoc(ImagesSeen(observed, n - 1), observed[n - 1])
  }

  predicate Flagged(trace: Log<bool>) { trace.Snoc? && (trace.last || Flagged(trace.rest)) }

  /** A manual scan or discovery of a Portainer makes its own worker: it announces every image that has an update. */
  method RunPortainer(observed: seq<(string, bool)>) returns (events: Log<(string, Level)>)
    ensures events == Edges(ImageRule, ImagesSeen(observed, |observed|))
    ensures forall id: string :: Of(events, id).Snoc? <==> (id, true) in observed
  {
    var worker := new EnrichmentWorker();
    for i := 0 to |observed|
      invariant worker.Valid() && worker.seen == ImagesSeen(observed, i)
    {
      worker.CheckImageUpdate(observed[i].0, observed[i].1);
    }
    events := worker.events;
    forall id: string ensures Of(events, id).Snoc? <==> (id, true) in observed {
      KeysAreIndependent(ImageRule, worker.seen, id);
      AnnouncedIff(Of(worker.seen, id));
      FlaggedIff(observed, |observed|, id);
      assert observed[..|observed|] == observed;
    }
  }

  lemma {:induction false} FlaggedIff(observed: seq<(string, bool)>, n: nat, id: string)
    requires n <= |observed|
    ensures Flagged(Of(ImagesSeen(observed, n), id)) <==> (id, true) in observed[..n]
  {
    if n > 0 {
      FlaggedIff(observed, n - 1, id);
      assert observed[..n] == observed[..n - 1] + [observed[n - 1]];
    }
  }

  lemma {:induction false} AnnouncedIff(trace: Log<bool>)
    ensures Pairs(ImageRule, trace).Snoc? <==> Flagged(trace)
  {
    if trace.Snoc? {
      AnnouncedIff(trace.rest);
    }
  }

  /** The passes that see the image with an update. */
  function FlaggedPasses(passes: Log<Log<(string, bool)>>, id: string): nat {
    if passes.Empty? then 0
    else FlaggedPasses(passes.rest, id) + (if Flagged(Of(passes.last, id)) then 1 else 0)
  }

  /** An update that stays available is announced by every worker that sees it, once if it is listed once. */
  lemma {:induction false} EveryPassAnnounces(passes: Log<Log<(string, bool)>>, id: string)
    ensures Size(PassEvents(ImageRule, passes, id)) >= FlaggedPasses(passes, id)
    ensures All(passes, (pass: Log<(string, bool)>) => DistinctKeys(pass))
            ==> Size(PassEvents(ImageRule, passes, id)) == FlaggedPasses(passes, id)
  {
    if passes.Snoc? {
      EveryPassAnnounces(passes.rest, id);
      var pass := passes.last;
      KeysAreIndependent(ImageRule, pass, id);
      AnnouncedIff(Of(pass, id));
      SizeOfJoined(PassEvents(ImageRule, passes.rest, id), Of(Edges(ImageRule, pass), id));
      if DistinctKeys(pass) {
        OnceAtMost(pass, id);
      }
    }
  }

  lemma {:induction false} SizeOfJoined<T>(a: Log<T>, b: Log<T>)
    ensures Size(Joined(a, b)) == Size(a) + Size(b)
  {
    if b.Snoc? {
      SizeOfJoined(a, b.rest);
    }
  }

  /** Two observations in a row with an update available. */
  predicate StaysFlagged(trace: Log<bool>) {
    trace.Snoc? && ((trace.last && trace.rest.Snoc? && trace.rest.last) || StaysFlagged(trace.rest))
  }

  /** Fresh workers announce what the lasting one would exactly if no update is seen twice in a row. */
  lemma {:induction false} FreshWorkersAgreeIff(trace: Log<bool>)
    ensures Size(Pairs(ImageRule, trace)) <= Size(FreshEvents(ImageRule, trace))
    ensures Pairs(ImageRule, trace) == FreshEvents(ImageRule, trace) <==> !StaysFlagged(trace)
    ensures Pairs(ImageRule, trace) == FreshEvents(ImageRule, trace) <==>
            Size(Pairs(ImageRule, trace)) == Size(FreshEvents(ImageRule, trace))
  {
    if trace.Snoc? {
      FreshWorkersAgreeIff(trace.rest);
    }
  }
}
