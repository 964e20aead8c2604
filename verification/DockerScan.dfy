/**
 * Docker discovery: the discovered_containers table (internal/repo/discovery.go) under the
 * full scan and the event hook of internal/infra/docker_discovery.go, and the two writers
 * of the app link a user sets.
 */
module DockerScan {
  import opened Common

  // ---- The table --------------------------------------------------------------

  /** UNIQUE(infra_component_id, container_name): the name survives a rebuild, the Docker id does not. */
  datatype Key = Key(engine: string, name: string)

  datatype Meta = Meta(ports: Option<string>, labels: Option<string>, volumes: Option<string>,
                       networks: Option<string>, dockerCreatedAt: Option<int>)

  const NO_META := Meta(None, None, None, None, None)

  datatype Suggestion = Suggestion(profile: string, confidence: nat)

  datatype Row = Row(uuid: string, dockerId: string, image: string, status: string, appId: Option<string>,
                     suggestion: Option<Suggestion>, meta: Meta, restartPolicy: Option<string>,
                     lastSeenAt: int, createdAt: int)

  type Table = map<Key, Row>

  function Coalesce<T>(fresher: Option<T>, older: Option<T>): Option<T> { if fresher.Some? then fresher else older }

  function MergedMeta(fresher: Meta, older: Meta): Meta {
    Meta(Coalesce(fresher.ports, older.ports), Coalesce(fresher.labels, older.labels),
         Coalesce(fresher.volumes, older.volumes), Coalesce(fresher.networks, older.networks),
         Coalesce(fresher.dockerCreatedAt, older.dockerCreatedAt))
  }

  /** One sighting of a container, from the list or from an event. */
  datatype Sighting = Sighting(dockerId: string, name: string, image: string, status: string, meta: Meta)

  /** Clock, id generator and profile matcher at the time of a write. */
  datatype World = World(now: int, newId: Key -> string, suggest: (string, string) -> Option<Suggestion>)

  function Upserted(row: Option<Row>, k: Key, s: Sighting, w: World): Row {
    if row.None? then
      Row(w.newId(k), s.dockerId, s.image, s.status, None, w.suggest(s.name, s.image), s.meta, None, w.now, w.now)
    else
      row.value.(dockerId := s.dockerId, image := s.image, status := s.status, suggestion := w.suggest(s.name, s.image),
                 lastSeenAt := w.now, meta := MergedMeta(s.meta, row.value.meta))
  }

  // ---- A scan -------------------------------------------------------------------

  datatype Container = Container(id: string, names: seq<string>, image: string, meta: Meta)

  /** The first name without the slash Docker puts in front. */
  function NameFrom(names: seq<string>): (name: string)
    ensures names == [] ==> name == ""
    ensures names != [] && "/" <= names[0] ==> names[0] == "/" + name
    ensures names != [] && !("/" <= names[0]) ==> names[0] == name
  {
    if names == [] then "" else if names[0] != "" && names[0][0] == '/' then names[0][1..] else names[0]
  }

  function SightingOf(c: Container): Sighting { Sighting(c.id, NameFrom(c.names), c.image, "running", c.meta) }

  /** The answer of the daemon, if any, and which writes the database accepts. */
  datatype Scan = Scan(listing: Option<seq<Container>>, accepted: nat -> bool, marked: bool, world: World)

  /** The row after the first n listed containers. */
  function AfterUpserts(row: Option<Row>, k: Key, listing: seq<Container>, n: nat, accepted: nat -> bool, w: World): Option<Row>
    requires n <= |listing|
  {
    if n == 0 then row
    else
      var before := AfterUpserts(row, k, listing, n - 1, accepted, w);
      var s := SightingOf(listing[n - 1]);
      if s.name == k.name && accepted(n - 1) then Some(Upserted(before, k, s, w)) else before
  }

  function IdsOf(listing: seq<Container>): seq<string> { seq(|listing|, i requires 0 <= i < |listing| => listing[i].id) }

  function MarkedRow(row: Option<Row>, ids: seq<string>, now: int): Option<Row> {
    if row.Some? && row.value.status == "running" && row.value.dockerId !in ids
    then Some(row.value.(status := "stopped", lastSeenAt := now)) else row
  }

  /** The row after a whole scan of the engine. */
  function Scanned(row: Option<Row>, k: Key, engine: string, scan: Scan): Option<Row> {
    if k.engine != engine || scan.listing.None? then row
    else
      var listing := scan.listing.value;
      var upserted := AfterUpserts(row, k, listing, |listing|, scan.accepted, scan.world);
      if scan.marked then MarkedRow(upserted, IdsOf(listing), scan.world.now) else upserted
  }

  // ---- What a scan does to a row ---------------------------------------------------

  predicate Keeps<T>(older: Option<T>, newer: Option<T>) { older.Some? ==> newer.Some? }

  /** What discovery never takes away from a row. */
  predicate Preserved(a: Row, b: Row) {
    && a.uuid == b.uuid && a.appId == b.appId && a.createdAt == b.createdAt && a.restartPolicy == b.restartPolicy
    && Keeps(a.meta.ports, b.meta.ports) && Keeps(a.meta.labels, b.meta.labels) && Keeps(a.meta.volumes, b.meta.volumes)
    && Keeps(a.meta.networks, b.meta.networks) && Keeps(a.meta.dockerCreatedAt, b.meta.dockerCreatedAt)
  }

  lemma {:induction false} UpsertsPreserve(row: Row, k: Key, listing: seq<Container>, n: nat, accepted: nat -> bool, w: World)
    requires n <= |listing|
    ensures var r := AfterUpserts(Some(row), k, listing, n, accepted, w); r.Some? && Preserved(row, r.value)
  {
    if n > 0 {
      UpsertsPreserve(row, k, listing, n - 1, accepted, w);
    }
  }

  /** A scan keeps every row with its UUID, app link and metadata, whatever fails on the way. */
  lemma {:induction false} ScanPreserves(row: Row, k: Key, engine: string, scan: Scan)
    ensures var r := Scanned(Some(row), k, engine, scan); r.Some? && Preserved(row, r.value)
  {
    if scan.listing.Some? {
      UpsertsPreserve(row, k, scan.listing.value, |scan.listing.value|, scan.accepted, scan.world);
    }
  }

  /** Once the mark has gone through, what runs on the engine is listed: failed upserts do not matter. */
  lemma RunningIsListed(row: Option<Row>, k: Key, engine: string, scan: Scan)
    requires scan.listing.Some? && scan.marked && k.engine == engine
    ensures var r := Scanned(row, k, engine, scan);
            r.Some? && r.value.status == "running" ==>
              exists i :: 0 <= i < |scan.listing.value| && scan.listing.value[i].id == r.value.dockerId
  {
  }

  /** The last accepted sighting under a name decides. */
  lemma {:induction false} LastSightingWins(row: Option<Row>, k: Key, listing: seq<Container>, n: nat, i: nat,
                                            accepted: nat -> bool, w: World)
    requires i < n <= |listing|
    requires NameFrom(listing[i].names) == k.name && accepted(i)
    requires forall j: nat :: i < j < n && accepted(j) ==> NameFrom(listing[j].names) != k.name
    ensures AfterUpserts(row, k, listing, n, accepted, w)
         == Some(Upserted(AfterUpserts(row, k, listing, i, accepted, w), k, SightingOf(listing[i]), w))
  {
    if n > i + 1 {
      LastSightingWins(row, k, listing, n - 1, i, accepted, w);
    }
  }

  lemma {:induction false} UnseenIsUntouched(row: Option<Row>, k: Key, listing: seq<Container>, n: nat,
                                             accepted: nat -> bool, w: World)
    requires n <= |listing|
    requires forall j: nat :: j < n && accepted(j) ==> NameFrom(listing[j].names) != k.name
    ensures AfterUpserts(row, k, listing, n, accepted, w) == row
  {
    if n > 0 {
      UnseenIsUntouched(row, k, listing, n - 1, accepted, w);
    }
  }

  /**
   * A listed container whose upsert went through, and whose name no later accepted one
   * takes over, has a running row under its name with its Docker id: after a rebuild the
   * row is the old one with UUID, app link and metadata, refreshed where the listing says more.
   */
  lemma {:induction false} ListedIsRunning(row: Option<Row>, engine: string, scan: Scan, i: nat)
    requires scan.listing.Some? && i < |scan.listing.value| && scan.accepted(i)
    requires forall j: nat :: i < j < |scan.listing.value| && scan.accepted(j) ==>
               NameFrom(scan.listing.value[j].names) != NameFrom(scan.listing.value[i].names)
    ensures var c := scan.listing.value[i];
            var r := Scanned(row, Key(engine, NameFrom(c.names)), engine, scan);
            && r.Some? && r.value.status == "running" && r.value.dockerId == c.id && r.value.image == c.image
            && (row.Some? ==> Preserved(row.value, r.value))
            && (c.meta.ports.Some? ==> r.value.meta.ports == c.meta.ports)
            && (c.meta.labels.Some? ==> r.value.meta.labels == c.meta.labels)
            && (c.meta.volumes.Some? ==> r.value.meta.volumes == c.meta.volumes)
            && (c.meta.networks.Some? ==> r.value.meta.networks == c.meta.networks)
            && (c.meta.dockerCreatedAt.Some? ==> r.value.meta.dockerCreatedAt == c.meta.dockerCreatedAt)
            && r.value.suggestion == scan.world.suggest(NameFrom(c.names), c.image) && r.value.lastSeenAt == scan.world.now
  {
    var listing := scan.listing.value;
    var k := Key(engine, NameFrom(listing[i].names));
    LastSightingWins(row, k, listing, |listing|, i, scan.accepted, scan.world);
    assert IdsOf(listing)[i] == listing[i].id;
    if row.Some? {
      ScanPreserves(row.value, k, engine, scan);
    }
  }

  /**
   * A row whose name no accepted container carries is running afterwards exactly when it was
   * running before under a Docker id that is listed: a renamed container runs twice.
   */
  lemma {:induction false} UnlistedRunsIff(row: Option<Row>, k: Key, scan: Scan)
    requires scan.listing.Some? && scan.marked
    requires forall j: nat :: j < |scan.listing.value| && scan.accepted(j) ==> NameFrom(scan.listing.value[j].names) != k.name
    ensures var r := Scanned(row, k, k.engine, scan);
            (r.Some? && r.value.status == "running") <==>
            (row.Some? && row.value.status == "running" && row.value.dockerId in IdsOf(scan.listing.value))
  {
    UnseenIsUntouched(row, k, scan.listing.value, |scan.listing.value|, scan.accepted, scan.world);
  }

  /** Scanning an unchanged engine again changes nothing but the time last seen. */
  lemma {:induction false} RescanIsStable(row: Option<Row>, k: Key, engine: string, scan: Scan, later: int, i: nat)
    requires scan.listing.Some? && k.engine == engine
    requires i < |scan.listing.value| && scan.accepted(i) && NameFrom(scan.listing.value[i].names) == k.name
    requires forall j: nat :: j < |scan.listing.value| && j != i ==> NameFrom(scan.listing.value[j].names) != k.name
    ensures var once := Scanned(row, k, engine, scan);
            var twice := Scanned(once, k, engine, scan.(world := scan.world.(now := later)));
            once.Some? && twice == Some(once.value.(lastSeenAt := later))
  {
    var listing := scan.listing.value;
    var once := Scanned(row, k, engine, scan);
    var again := scan.world.(now := later);
    UnseenIsUntouched(row, k, listing, i, scan.accepted, scan.world);
    LastSightingWins(row, k, listing, |listing|, i, scan.accepted, scan.world);
    assert IdsOf(listing)[i] == listing[i].id;
    UnseenIsUntouched(once, k, listing, i, scan.accepted, again);
    LastSightingWins(once, k, listing, |listing|, i, scan.accepted, again);
  }

  // ---- The store -------------------------------------------------------------------

  class ContainerStore {
    var rows: Table

    constructor ()
      ensures rows == map[]
    {
      rows := map[];
    }

    /** INSERT … ON CONFLICT DO UPDATE: app link, UUID, creation time and restart policy are not in the SET list. */
    method UpsertDiscoveredContainer(engine: string, s: Sighting, w: World, accepted: bool) returns (ok: bool)
      modifies this
      ensures ok == accepted
      ensures var k := Key(engine, s.name);
              rows == if ok then old(rows)[k := Upserted(Find(old(rows), k), k, s, w)] else old(rows)
      ensures var k := Key(engine, s.name);
              ok && k in old(rows) ==>
                var r := old(rows)[k];
                rows[k] == Row(r.uuid, s.dockerId, s.image, s.status, r.appId, w.suggest(s.name, s.image),
                               Meta(if s.meta.ports.Some? then s.meta.ports else r.meta.ports,
                                    if s.meta.labels.Some? then s.meta.labels else r.meta.labels,
                                    if s.meta.volumes.Some? then s.meta.volumes else r.meta.volumes,
                                    if s.meta.networks.Some? then s.meta.networks else r.meta.networks,
                                    if s.meta.dockerCreatedAt.Some? then s.meta.dockerCreatedAt else r.meta.dockerCreatedAt),
                               r.restartPolicy, w.now, r.createdAt)
      ensures var k := Key(engine, s.name);
              ok && k !in old(rows) ==>
                rows[k] == Row(w.newId(k), s.dockerId, s.image, s.status, None, w.suggest(s.name, s.image), s.meta,
                               None, w.now, w.now)
    {
      if !accepted {
        return false;
      }
      var k := Key(engine, s.name);
      if k in rows {
        var r := rows[k];
        rows := rows[k := Row(r.uuid, s.dockerId, s.image, s.status, r.appId, w.suggest(s.name, s.image),
                              MergedMeta(s.meta, r.meta), r.restartPolicy, w.now, r.createdAt)];
      } else {
        rows := rows[k := Row(w.newId(k), s.dockerId, s.image, s.status, None, w.suggest(s.name, s.image), s.meta, None, w.now, w.now)];
      }
      ok := true;
    }

    /** Two statements: with nothing running the NOT IN list is left out. */
    method MarkStoppedIfNotRunning(engine: string, ids: seq<string>, now: int, accepted: bool)
      modifies this
      ensures forall k :: Find(rows, k) == if accepted && k.engine == engine then MarkedRow(Find(old(rows), k), ids, now)
                                           else Find(old(rows), k)
      ensures forall k :: Find(rows, k) ==
                if accepted && k.engine == engine && k in old(rows) && old(rows)[k].status == "running" && old(rows)[k].dockerId !in ids
                then Some(old(rows)[k].(status := "stopped", lastSeenAt := now)) else Find(old(rows), k)
    {
      if !accepted {
        return;
      }
      if |ids| == 0 {
        rows := map k | k in rows ::
          if k.engine == engine && rows[k].status == "running" then rows[k].(status := "stopped", lastSeenAt := now) else rows[k];
      } else {
        rows := map k | k in rows ::
          if k.engine == engine && rows[k].status == "running" && rows[k].dockerId !in ids
          then rows[k].(status := "stopped", lastSeenAt := now) else rows[k];
      }
    }

    /** A failed upsert is logged and the id still counts as running. */
    method ScanAll(engine: string, scan: Scan)
      modifies this
      ensures forall k :: Find(rows, k) == Scanned(Find(old(rows), k), k, engine, scan)
    {
      hide Upserted, NameFrom, MarkedRow;
      if scan.listing.None? {
        return;
      }
      var containers := scan.listing.value;
      var runningIds := [];
      var i := 0;
      while i < |containers|
        invariant 0 <= i <= |containers|
        invariant runningIds == IdsOf(containers)[..i]
        invariant forall k :: Find(rows, k) == if k.engine == engine
                    then AfterUpserts(Find(old(rows), k), k, containers, i, scan.accepted, scan.world) else Find(old(rows), k)
      {
        var _ := UpsertDiscoveredContainer(engine, SightingOf(containers[i]), scan.world, scan.accepted(i));
        runningIds := runningIds + [containers[i].id];
        i := i + 1;
      }
      assert runningIds == IdsOf(containers);
      MarkStoppedIfNotRunning(engine, runningIds, scan.world.now, scan.marked);
    }

    /** The event hook: one sighting without metadata, in whatever status the event says. */
    method HandleEvent(engine: string, dockerId: string, name: string, image: string, status: string, w: World, accepted: bool)
      modifies this
      ensures rows == Stepped(old(rows), Event(engine, Sighting(dockerId, name, image, status, NO_META), w, accepted))
      ensures !accepted ==> rows == old(rows)
      ensures forall k :: k != Key(engine, name) ==> Find(rows, k) == Find(old(rows), k)
      ensures var k := Key(engine, name);
              accepted && k in old(rows) ==>
                var r := old(rows)[k];
                k in rows && rows[k] == Row(r.uuid, dockerId, image, status, r.appId, w.suggest(name, image), r.meta,
                                            r.restartPolicy, w.now, r.createdAt)
      ensures var k := Key(engine, name);
              accepted && k !in old(rows) ==>
                k in rows && rows[k] == Row(w.newId(k), dockerId, image, status, None, w.suggest(name, image),
                                            Meta(None, None, None, None, None), None, w.now, w.now)
    {
      var _ := UpsertDiscoveredContainer(engine, Sighting(dockerId, name, image, status, NO_META), w, accepted);
    }

    method DeleteDiscoveredContainer(uuid: string) returns (found: bool)
      modifies this
      ensures found <==> exists k :: k in old(rows) && old(rows)[k].uuid == uuid
      ensures rows == Stepped(old(rows), Delete(uuid))
      ensures forall k :: Find(rows, k) == if k in old(rows) && old(rows)[k].uuid == uuid then None else Find(old(rows), k)
    {
      found := exists k :: k in rows && rows[k].uuid == uuid;
      rows := map k | k in rows && rows[k].uuid != uuid :: rows[k];
    }

    method DeleteAllStoppedContainers()
      modifies this
      ensures rows == Stepped(old(rows), DeleteStopped)
      ensures forall k :: Find(rows, k) == if k in old(rows) && old(rows)[k].status != "running" then None else Find(old(rows), k)
    {
      rows := map k | k in rows && rows[k].status == "running" :: rows[k];
    }

    method SetDiscoveredContainerApp(uuid: string, app: Option<string>) returns (found: bool)
      modifies this
      ensures found <==> exists k :: k in old(rows) && old(rows)[k].uuid == uuid
      ensures rows == Stepped(old(rows), SetApp(uuid, app))
      ensures forall k :: Find(rows, k) == if k in old(rows) && old(rows)[k].uuid == uuid then Some(old(rows)[k].(appId := app))
                                           else Find(old(rows), k)
    {
      found := exists k :: k in rows && rows[k].uuid == uuid;
      rows := map k | k in rows :: if rows[k].uuid == uuid then rows[k].(appId := app) else rows[k];
    }
  }

  // ---- Runs ----------------------------------------------------------------------

  /**
   * A whole scan, one event, the user setting or clearing an app link or deleting a row by
   * UUID, or the cleanup job that deletes every row not running.
   */
  datatype Step =
    | ScanAll(engine: string, scan: Scan)
    | Event(engine: string, sighting: Sighting, world: World, accepted: bool)
    | SetApp(uuid: string, app: Option<string>)
    | Delete(uuid: string)
    | DeleteStopped

  function ScannedTable(t: Table, engine: string, scan: Scan): Table {
    var listed := if scan.listing.None? then {} else
                    set c | c in scan.listing.value :: Key(engine, NameFrom(c.names));
    map k | k in t.Keys + listed && Scanned(Find(t, k), k, engine, scan).Some? :: Scanned(Find(t, k), k, engine, scan).value
  }

  function Stepped(t: Table, step: Step): Table {
    match step
    case ScanAll(engine, scan) => ScannedTable(t, engine, scan)
    case Event(engine, s, w, accepted) =>
      var k := Key(engine, s.name);
      if accepted then t[k := Upserted(Find(t, k), k, s, w)] else t
    case SetApp(uuid, app) => map k | k in t :: if t[k].uuid == uuid then t[k].(appId := app) else t[k]
    case Delete(uuid) => map k | k in t && t[k].uuid != uuid :: t[k]
    case DeleteStopped => map k | k in t && t[k].status == "running" :: t[k]
  }

  /** The step deletes the row of this key. */
  predicate Deletes(t: Table, step: Step, k: Key) {
    k in t && ((step.Delete? && t[k].uuid == step.uuid) || (step.DeleteStopped? && t[k].status != "running"))
  }

  function Run(t: Table, steps: seq<Step>): Table
    decreases |steps|
  {
    if steps == [] then t else Stepped(Run(t, steps[..|steps| - 1]), steps[|steps| - 1])
  }

  /** The last choice the user made for a UUID. */
  function Chosen(initial: Option<string>, uuid: string, steps: seq<Step>): Option<string>
    decreases |steps|
  {
    if steps == [] then initial
    else
      var last := steps[|steps| - 1];
      if last.SetApp? && last.uuid == uuid then last.app else Chosen(initial, uuid, steps[..|steps| - 1])
  }

  /** The table form of a scan is the one the method leaves behind. */
  lemma {:induction false} ScannedTableIs(t: Table, k: Key, engine: string, scan: Scan)
    ensures Find(ScannedTable(t, engine, scan), k) == Scanned(Find(t, k), k, engine, scan)
  {
    if k !in t && scan.listing.Some? && k.engine == engine {
      var listing := scan.listing.value;
      if forall i: nat :: i < |listing| ==> NameFrom(listing[i].names) != k.name {
        UnseenIsUntouched(None, k, listing, |listing|, scan.accepted, scan.world);
      } else {
        var i: nat :| i < |listing| && NameFrom(listing[i].names) == k.name;
        assert listing[i] in listing;
      }
    }
  }

  /** The step speaks about the status of the row that has this Docker id and status so far. */
  ghost predicate Speaks(step: Step, k: Key, dockerId: string, status: string) {
    match step
    case Event(engine, s, _, accepted) => accepted && Key(engine, s.name) == k
    case ScanAll(engine, scan) =>
      && engine == k.engine && scan.listing.Some?
      && (ListedAs(scan, k.name) || (scan.marked && status == "running" && !HasId(scan, dockerId)))
    case _ => false
  }

  /** Some listed container of this name whose write went through. */
  ghost predicate ListedAs(scan: Scan, name: string)
    requires scan.listing.Some?
  {
    exists i: nat :: i < |scan.listing.value| && scan.accepted(i) && NameFrom(scan.listing.value[i].names) == name
  }

  ghost predicate HasId(scan: Scan, dockerId: string)
    requires scan.listing.Some?
  {
    exists c :: c in scan.listing.value && c.id == dockerId
  }

  /** What it says: the event its own status, the scan "running" of what it lists and "stopped" of what it does not. */
  ghost function Said(step: Step, k: Key): string
    requires (step.ScanAll? && step.scan.listing.Some?) || step.Event?
  {
    if step.Event? then step.sighting.status
    else if ListedAs(step.scan, k.name) then "running"
    else "stopped"
  }

  lemma {:induction false} LastListed(scan: Scan, name: string, n: nat) returns (i: nat)
    requires scan.listing.Some? && n <= |scan.listing.value|
    requires exists i: nat :: i < n && scan.accepted(i) && NameFrom(scan.listing.value[i].names) == name
    ensures i < n && scan.accepted(i) && NameFrom(scan.listing.value[i].names) == name
    ensures forall j: nat :: i < j < n && scan.accepted(j) ==> NameFrom(scan.listing.value[j].names) != name
  {
    i := n - 1;
    if !(scan.accepted(i) && NameFrom(scan.listing.value[i].names) == name) {
      i := LastListed(scan, name, n - 1);
    }
  }

  lemma ScanSpeaks(row: Row, k: Key, engine: string, scan: Scan)
    ensures var r, step := Scanned(Some(row), k, engine, scan), ScanAll(engine, scan);
            && r.Some?
            && (if Speaks(step, k, row.dockerId, row.status) then r.value.status == Said(step, k)
                else r.value.status == row.status && r.value.dockerId == row.dockerId)
  {
    ScanPreserves(row, k, engine, scan);
    if scan.listing.Some? && engine == k.engine {
      var listing := scan.listing.value;
      assert forall x :: x in IdsOf(listing) <==> HasId(scan, x) by {
        forall x ensures x in IdsOf(listing) <==> HasId(scan, x) {
          if x in IdsOf(listing) {
            var i :| 0 <= i < |listing| && IdsOf(listing)[i] == x;
            assert listing[i] in listing;
          }
          if c :| c in listing && c.id == x {
            var i :| 0 <= i < |listing| && listing[i] == c;
            assert IdsOf(listing)[i] == x;
          }
        }
      }
      if ListedAs(scan, k.name) {
        var i := LastListed(scan, k.name, |listing|);
        ListedIsRunning(Some(row), engine, scan, i);
        assert Key(engine, NameFrom(listing[i].names)) == k;
      } else {
        UnseenIsUntouched(Some(row), k, listing, |listing|, scan.accepted, scan.world);
      }
    }
  }

  /** One step that does not delete the row keeps it, and changes its app only if the user says so. */
  lemma OneStepKeeps(t: Table, k: Key, step: Step)
    requires k in t && !Deletes(t, step, k)
    ensures var after := Stepped(t, step);
            && k in after && after[k].uuid == t[k].uuid && after[k].createdAt == t[k].createdAt
            && after[k].appId == if step.SetApp? && step.uuid == t[k].uuid then step.app else t[k].appId
  {
    hide Scanned, ScannedTable;
    if step.ScanAll? {
      ScannedTableIs(t, k, step.engine, step.scan);
      ScanPreserves(t[k], k, step.engine, step.scan);
    }
  }

  /** And a step that deletes it is one after which it is gone. */
  lemma DeletedIsGone(t: Table, k: Key, step: Step)
    requires k in t
    ensures Deletes(t, step, k) <==> k !in Stepped(t, step)
  {
    if !Deletes(t, step, k) {
      OneStepKeeps(t, k, step);
    }
  }

  /**
   * Over any run a row stays until it is deleted as one: no scan or event removes it. As long
   * as it stays it keeps its UUID and carries exactly the app the user chose last, which
   * discovery never sets or clears.
   */
  lemma {:induction false} AppLinkIsTheUsersChoice(t: Table, k: Key, steps: seq<Step>)
    requires k in t
    requires forall i :: 0 <= i < |steps| ==> !Deletes(Run(t, steps[..i]), steps[i], k)
    ensures var after := Run(t, steps);
            && k in after
            && after[k].uuid == t[k].uuid
            && after[k].createdAt == t[k].createdAt
            && after[k].appId == Chosen(t[k].appId, t[k].uuid, steps)
    decreases |steps|
  {
    hide Stepped;
    if steps != [] {
      var rest, last := steps[..|steps| - 1], steps[|steps| - 1];
      forall i | 0 <= i < |rest| ensures !Deletes(Run(t, rest[..i]), rest[i], k) {
        assert rest[..i] == steps[..i];
      }
      AppLinkIsTheUsersChoice(t, k, rest);
      OneStepKeeps(Run(t, rest), k, last);
    }
  }

  /** So a row that is gone has been deleted, by the user or by the cleanup of stopped rows. */
  lemma LostRowsWereDeleted(t: Table, k: Key, steps: seq<Step>)
    requires k in t && k !in Run(t, steps)
    ensures exists i :: 0 <= i < |steps| && Deletes(Run(t, steps[..i]), steps[i], k)
  {
    if forall i :: 0 <= i < |steps| ==> !Deletes(Run(t, steps[..i]), steps[i], k) {
      AppLinkIsTheUsersChoice(t, k, steps);
    }
  }

  /** One step gives the row the status it says, and leaves status and Docker id alone if it says none. */
  lemma StatusOfStep(t: Table, k: Key, step: Step)
    requires k in t && !Deletes(t, step, k)
    ensures var after := Stepped(t, step);
            && k in after
            && (if Speaks(step, k, t[k].dockerId, t[k].status) then after[k].status == Said(step, k)
                else after[k].status == t[k].status && after[k].dockerId == t[k].dockerId)
  {
    hide Scanned, ScannedTable, ListedAs, HasId;
    if step.ScanAll? {
      ScannedTableIs(t, k, step.engine, step.scan);
      ScanSpeaks(t[k], k, step.engine, step.scan);
    }
  }

  /** Step j of the run says something about the row as it finds it. */
  ghost predicate SpeaksAt(t: Table, steps: seq<Step>, j: nat, k: Key) {
    j < |steps| && var before := Run(t, steps[..j]);
    k in before && Speaks(steps[j], k, before[k].dockerId, before[k].status)
  }

  /**
   * Over any run a row has the status that the last step to say something about it said: an
   * event its own, a scan "running" if it lists the name and "stopped" if it marks what it
   * does not list.
   */
  lemma {:induction false} StatusIsTheLastSaid(t: Table, k: Key, steps: seq<Step>, i: nat)
    requires k in t && i <= |steps|
    requires forall j :: 0 <= j < |steps| ==> !Deletes(Run(t, steps[..j]), steps[j], k)
    requires i > 0 ==> SpeaksAt(t, steps, i - 1, k)
    requires forall j :: i <= j < |steps| ==> !SpeaksAt(t, steps, j, k)
    ensures k in Run(t, steps)
    ensures Run(t, steps)[k].status == if i == 0 then t[k].status else Said(steps[i - 1], k)
    decreases |steps|
  {
    hide Stepped, Deletes, Speaks, SpeaksAt, Said;
    if steps != [] {
      var n := |steps| - 1;
      var rest := steps[..n];
      forall j | 0 <= j < n
        ensures !Deletes(Run(t, rest[..j]), rest[j], k) && SpeaksAt(t, rest, j, k) == SpeaksAt(t, steps, j, k)
      {
        SpeaksEarlier(t, steps, n, j, k);
      }
      AppLinkIsTheUsersChoice(t, k, rest);
      LastSpeaks(t, steps, k);
      StatusOfStep(Run(t, rest), k, steps[n]);
      if i <= n {
        StatusIsTheLastSaid(t, k, rest, i);
      }
    }
  }

  lemma SpeaksEarlier(t: Table, steps: seq<Step>, n: nat, j: nat, k: Key)
    requires j < n <= |steps|
    ensures steps[..n][..j] == steps[..j] && SpeaksAt(t, steps[..n], j, k) == SpeaksAt(t, steps, j, k)
  {
    assert steps[..n][..j] == steps[..j];
  }

  lemma LastSpeaks(t: Table, steps: seq<Step>, k: Key)
    requires steps != [] && k in Run(t, steps[..|steps| - 1])
    ensures var before := Run(t, steps[..|steps| - 1]);
            SpeaksAt(t, steps, |steps| - 1, k) == Speaks(steps[|steps| - 1], k, before[k].dockerId, before[k].status)
  {
  }
}
