/**
 * The component_links table (internal/repo/links.go), its many writers
 * (internal/repo/discovery.go, internal/repo/checks.go), and the upward walk of
 * GET /apps/{id}/chain (internal/api/apps.go).
 *
 * The primary key (child_type, child_id) makes the table a finite map from child to
 * parent. Each SQL statement is atomic; a repository call may issue several, and
 * statements of concurrent calls may interleave, so runs are sequences of statements.
 */
module ComponentLinks {
  import opened Common

  /** An entity: its type string and its id. */
  datatype Ref = Ref(kind: string, id: string)

  type Links = map<Ref, Ref>

  datatype Statement =
    | Upsert(child: Ref, parent: Ref)          // ON CONFLICT(child_type, child_id) DO UPDATE
    | InsertOrIgnore(child: Ref, parent: Ref)
    | DeleteChild(child: Ref)
    | DeleteLink(child: Ref, parent: Ref)      // DELETE ... AND parent_type = ? AND parent_id = ?
    | DeleteByParent(parent: Ref)

  function Exec(links: Links, s: Statement): Links {
    match s
    case Upsert(child, parent) => links[child := parent]
    case InsertOrIgnore(child, parent) => if child in links then links else links[child := parent]
    case DeleteChild(child) => links - {child}
    case DeleteLink(child, parent) => if child in links && links[child] == parent then links - {child} else links
    case DeleteByParent(parent) => map child | child in links && links[child] != parent :: links[child]
  }

  function ExecAll(links: Links, run: seq<Statement>): Links {
    if run == [] then links else Exec(ExecAll(links, run[..|run| - 1]), run[|run| - 1])
  }

  // ---- The writers ----------------------------------------------------------

  datatype Route = Route(infraID: string, router: string, app: Option<string>)

  datatype Error = NotFound

  datatype Outcome = Ok | Err(error: Error)

  function AppRef(app: string): Ref { Ref("app", app) }
  function MonitorRef(check: string): Ref { Ref("monitor", check) }
  function RouteRef(route: string): Ref { Ref("traefik_route", route) }

  /** The routes a SELECT by (infrastructure_id, router_name) finds; the pair is unique. */
  predicate Selects(routes: map<string, Route>, id: string, infraID: string, router: string) {
    id in routes && routes[id].infraID == infraID && routes[id].router == router
  }

  /** GetChain caps its walk at this many hops. */
  const MAX_HOPS: nat := 10

  class LinkStore {
    var links: Links
    var containers: map<string, Option<string>>   // discovered_containers: id -> app_id
    var routes: map<string, Route>                // discovered_routes by id
    var checks: map<string, string>               // monitor_checks: id -> app_id, "" for NULL
    var components: map<string, string>           // infrastructure_components: id -> type

    constructor ()
      ensures links == map[] && containers == map[] && routes == map[] && checks == map[] && components == map[]
    {
      links, containers, routes, checks, components := map[], map[], map[], map[], map[];
    }

    method SetParent(parent: Ref, child: Ref)
      modifies this`links
      ensures links == Exec(old(links), Upsert(child, parent)) == old(links)[child := parent]
    {
      links := links[child := parent];
    }

    method RemoveParent(child: Ref)
      modifies this`links
      ensures links == Exec(old(links), DeleteChild(child)) == old(links) - {child}
    {
      links := links - {child};
    }

    method GetParent(child: Ref) returns (parent: Option<Ref>)
      ensures parent == if child in links then Some(links[child]) else None
    {
      parent := None;
      if child in links {
        parent := Some(links[child]);
      }
    }

    /** The link half of UpsertDiscoveredContainer: a container hangs below its component, if that exists. */
    method LinkContainer(componentID: string, containerID: string)
      modifies this`links
      ensures links == if componentID in components
                       then Exec(old(links), Upsert(Ref("container", containerID), Ref(components[componentID], componentID)))
                       else old(links)
      ensures links == if componentID in components
                       then old(links)[Ref("container", containerID) := Ref(components[componentID], componentID)] else old(links)
    {
      if componentID in components {
        SetParent(Ref(components[componentID], componentID), Ref("container", containerID));
      }
    }

    method SetContainerApp(id: string, app: string) returns (out: Outcome)
      modifies this`links, this`containers
      ensures out.Err? <==> id !in old(containers)
      ensures out.Err? ==> links == old(links) && containers == old(containers)
      ensures out.Ok? ==>
                && containers == old(containers)[id := Some(app)]
                && links == Exec(old(links), Upsert(AppRef(app), Ref("container", id)))
                         == old(links)[Ref("app", app) := Ref("container", id)]
    {
      if id !in containers {
        return Err(NotFound);
      }
      containers := containers[id := Some(app)];
      SetParent(Ref("container", id), AppRef(app));
      out := Ok;
    }

    /** Deletes the app's link whatever its parent is. */
    method ClearContainerApp(id: string) returns (out: Outcome)
      modifies this`links, this`containers
      ensures out.Err? <==> id !in old(containers)
      ensures out.Err? ==> links == old(links) && containers == old(containers)
      ensures out.Ok? ==>
                && containers == old(containers)[id := None]
                && links == match old(containers)[id] {
                     case Some(app) => if app != "" then Exec(old(links), DeleteChild(AppRef(app))) else old(links)
                     case None => old(links)
                   }
                && forall child :: Find(links, child) ==
                     if old(containers)[id].Some? && old(containers)[id].value != "" && child == Ref("app", old(containers)[id].value)
                     then None else Find(old(links), child)
    {
      if id !in containers {
        return Err(NotFound);
      }
      var app := containers[id];
      containers := containers[id := None];
      if app.Some? && app.value != "" {
        RemoveParent(AppRef(app.value));
      }
      out := Ok;
    }

    /** The link half of UpsertDiscoveredRoute, for the row id the subquery finds. */
    method LinkRoute(infraID: string, router: string, id: string)
      requires Selects(routes, id, infraID, router)
      modifies this`links
      ensures links == Exec(old(links), InsertOrIgnore(RouteRef(id), Ref("traefik", infraID)))
      ensures var child := Ref("traefik_route", id);
              links == if child in old(links) then old(links) else old(links)[child := Ref("traefik", infraID)]
    {
      if RouteRef(id) !in links {
        links := links[RouteRef(id) := Ref("traefik", infraID)];
      }
    }

    /** INSERT OR IGNORE ... SELECT: no row is inserted when no route matches. */
    method SyncRouteAppLink(infraID: string, router: string, app: string)
      requires forall a, b :: Selects(routes, a, infraID, router) && Selects(routes, b, infraID, router) ==> a == b
      modifies this`links
      ensures forall id :: Selects(routes, id, infraID, router)
                           ==> links == Exec(old(links), InsertOrIgnore(AppRef(app), RouteRef(id)))
      ensures forall id :: id in routes && routes[id].infraID == infraID && routes[id].router == router ==>
                links == if Ref("app", app) in old(links) then old(links)
                         else old(links)[Ref("app", app) := Ref("traefik_route", id)]
      ensures (forall id :: id in routes ==> routes[id].infraID != infraID || routes[id].router != router) ==> links == old(links)
    {
      if id :| id in routes && Selects(routes, id, infraID, router) {
        forall other | other in routes && routes[other].infraID == infraID && routes[other].router == router ensures other == id {
          assert Selects(routes, other, infraID, router);
        }
        if AppRef(app) !in links {
          links := links[AppRef(app) := RouteRef(id)];
        }
      }
    }

    method SetRouteApp(id: string, app: string) returns (out: Outcome)
      modifies this`links, this`routes
      ensures out.Err? <==> id !in old(routes)
      ensures out.Err? ==> links == old(links) && routes == old(routes)
      ensures out.Ok? ==>
                && routes == old(routes)[id := old(routes)[id].(app := Some(app))]
                && links == Exec(old(links), InsertOrIgnore(AppRef(app), RouteRef(id)))
                && links == if Ref("app", app) in old(links) then old(links)
                            else old(links)[Ref("app", app) := Ref("traefik_route", id)]
    {
      if id !in routes {
        return Err(NotFound);
      }
      routes := routes[id := routes[id].(app := Some(app))];
      if AppRef(app) !in links {
        links := links[AppRef(app) := RouteRef(id)];
      }
      out := Ok;
    }

    method ClearRouteApp(id: string) returns (out: Outcome)
      modifies this`links, this`routes
      ensures out.Err? <==> id !in old(routes)
      ensures out.Err? ==> links == old(links) && routes == old(routes)
      ensures out.Ok? ==>
                && routes == old(routes)[id := old(routes)[id].(app := None)]
                && links == match old(routes)[id].app {
                     case Some(app) => if app != "" then Exec(old(links), DeleteLink(AppRef(app), RouteRef(id))) else old(links)
                     case None => old(links)
                   }
                && forall child :: Find(links, child) ==
                     if (&& old(routes)[id].app.Some? && old(routes)[id].app.value != "" && child == Ref("app", old(routes)[id].app.value)
                         && Find(old(links), child) == Some(Ref("traefik_route", id)))
                     then None else Find(old(links), child)
    {
      if id !in routes {
        return Err(NotFound);
      }
      var app := routes[id].app;
      routes := routes[id := routes[id].(app := None)];
      if app.Some? && app.value != "" {
        if AppRef(app.value) in links && links[AppRef(app.value)] == RouteRef(id) {
          links := links - {AppRef(app.value)};
        }
      }
      out := Ok;
    }

    method LinkCheck(id: string, app: string)
      modifies this`links
      ensures links == if app == "" then old(links) else Exec(old(links), InsertOrIgnore(AppRef(app), MonitorRef(id)))
      ensures links == if app == "" || Ref("app", app) in old(links) then old(links)
                       else old(links)[Ref("app", app) := Ref("monitor", id)]
    {
      if app != "" && AppRef(app) !in links {
        links := links[AppRef(app) := MonitorRef(id)];
      }
    }

    /** CheckRepo.Create; the primary key refuses an id that exists. */
    method CreateCheck(id: string, app: string) returns (out: bool)
      modifies this`links, this`checks
      ensures out <==> id !in old(checks)
      ensures !out ==> links == old(links) && checks == old(checks)
      ensures out ==>
                && checks == old(checks)[id := app]
                && links == (if app == "" then old(links) else Exec(old(links), InsertOrIgnore(AppRef(app), MonitorRef(id))))
                && links == if app == "" || Ref("app", app) in old(links) then old(links)
                            else old(links)[Ref("app", app) := Ref("monitor", id)]
    {
      if id in checks {
        return false;
      }
      checks := checks[id := app];
      LinkCheck(id, app);
      out := true;
    }

    /** CheckRepo.Update: drop the links below this monitor, then link the app again if it has no parent. */
    method UpdateCheck(id: string, app: string) returns (out: Outcome)
      modifies this`links, this`checks
      ensures out.Err? <==> id !in old(checks)
      ensures out.Err? ==> links == old(links) && checks == old(checks)
      ensures out.Ok? ==>
                && checks == old(checks)[id := app]
                && (var dropped := Exec(old(links), DeleteByParent(MonitorRef(id)));
                    links == if app == "" then dropped else Exec(dropped, InsertOrIgnore(AppRef(app), MonitorRef(id))))
                && forall child :: Find(links, child) ==
                     var kept := if Find(old(links), child) == Some(Ref("monitor", id)) then None else Find(old(links), child);
                     if app != "" && child == Ref("app", app) && kept.None? then Some(Ref("monitor", id)) else kept
    {
      if id !in checks {
        return Err(NotFound);
      }
      checks := checks[id := app];
      links := map child | child in links && links[child] != MonitorRef(id) :: links[child];
      LinkCheck(id, app);
      out := Ok;
    }

    /** CheckRepo.UpsertForComponent: on conflict the stored app_id is kept, the link uses the new one. */
    method UpsertCheckForComponent(id: string, app: string)
      modifies this`links, this`checks
      ensures checks == if id in old(checks) then old(checks) else old(checks)[id := app]
      ensures links == if app == "" then old(links) else Exec(old(links), InsertOrIgnore(AppRef(app), MonitorRef(id)))
      ensures links == if app == "" || Ref("app", app) in old(links) then old(links)
                       else old(links)[Ref("app", app) := Ref("monitor", id)]
    {
      if id !in checks {
        checks := checks[id := app];
      }
      LinkCheck(id, app);
    }

    // ---- GET /apps/{id}/chain -----------------------------------------------

    /** The handler caps the walk at ten hops. */
    method GetChain(app: string) returns (chain: seq<Ref>, manualTraefik: Option<string>)
      ensures chain == Chain(links, app, 10)
      ensures manualTraefik == TraefikAbove(links, chain, 10)
      ensures 1 <= |chain| <= 11 && chain[0] == Ref("app", app)
      ensures forall i :: 0 <= i < |chain| - 1 ==> chain[i] in links && links[chain[i]] == chain[i + 1]
      ensures forall i :: 0 <= i < |chain| ==> chain[i].kind != "traefik" && chain[i].kind != "traefik_route"
      ensures var above := Find(links, chain[|chain| - 1]);
              && (|chain| == 11 || above.None? || above.value.kind == "traefik" || above.value.kind == "traefik_route")
              && manualTraefik == if |chain| <= 10 && above.Some? && above.value.kind == "traefik" then Some(above.value.id) else None
    {
      ChainIsExact(links, app, 10);
      chain, manualTraefik := Walk(app, MAX_HOPS);
    }

    /**
     * Walks upward from the app, never into Traefik. Returns the nodes and the Traefik
     * component the walk stopped below.
     */
    method Walk(app: string, cap: nat) returns (chain: seq<Ref>, manualTraefik: Option<string>)
      ensures chain == Chain(links, app, cap)
      ensures manualTraefik == TraefikAbove(links, chain, cap)
    {
      chain, manualTraefik := [AppRef(app)], None;
      var cur := AppRef(app);
      for i := 0 to cap
        invariant |chain| == i + 1 && chain[i] == cur && manualTraefik == None
        invariant chain + Ancestors(links, cur, cap - i) == Chain(links, app, cap)
      {
        var link := GetParent(cur);
        if link.None? {
          return;
        }
        if link.value.kind == "traefik" {
          manualTraefik := Some(link.value.id);
          return;
        }
        if link.value.kind == "traefik_route" {
          return;
        }
        assert chain + ([link.value] + Ancestors(links, link.value, cap - i - 1)) == Chain(links, app, cap);
        chain := chain + [link.value];
        cur := link.value;
      }
    }
  }

  // ---- Priority between the writers, over all runs ---------------------------

  /** What route and monitor writers send to the table. */
  predicate ByRouteOrMonitor(s: Statement) {
    match s
    case InsertOrIgnore(_, parent) => parent.kind in {"traefik", "traefik_route", "monitor"}
    case DeleteLink(_, parent) => parent.kind == "traefik_route"
    case DeleteByParent(parent) => parent.kind == "monitor"
    case _ => false
  }

  /** The statements of the route and monitor writers are of this kind. */
  lemma RouteAndMonitorStatements(app: string, infraID: string, route: string, check: string)
    ensures ByRouteOrMonitor(InsertOrIgnore(Ref("traefik_route", route), Ref("traefik", infraID)))
    ensures ByRouteOrMonitor(InsertOrIgnore(Ref("app", app), Ref("traefik_route", route)))
    ensures ByRouteOrMonitor(DeleteLink(Ref("app", app), Ref("traefik_route", route)))
    ensures ByRouteOrMonitor(InsertOrIgnore(Ref("app", app), Ref("monitor", check)))
    ensures ByRouteOrMonitor(DeleteByParent(Ref("monitor", check)))
  {
  }

  /** The statement deletes the link of `child` below exactly this parent. */
  predicate Releases(s: Statement, child: Ref, parent: Ref) {
    s == DeleteLink(child, parent) || s == DeleteByParent(parent)
  }

  /**
   * Over any interleaving of route and monitor writers a child keeps its parent, unless a
   * statement of that very route or monitor releases it.
   */
  lemma {:induction false} ParentSurvives(links: Links, run: seq<Statement>, child: Ref)
    requires forall i :: 0 <= i < |run| ==> ByRouteOrMonitor(run[i])
    requires child in links
    requires forall i :: 0 <= i < |run| ==> !Releases(run[i], child, links[child])
    ensures child in ExecAll(links, run) && ExecAll(links, run)[child] == links[child]
  {
    if run != [] {
      ParentSurvives(links, run[..|run| - 1], child);
    }
  }

  /** So a container or component parent set by the user or by discovery outlives every route and monitor writer. */
  lemma ForeignParentSurvives(links: Links, run: seq<Statement>, child: Ref)
    requires forall i :: 0 <= i < |run| ==> ByRouteOrMonitor(run[i])
    requires child in links && links[child].kind !in {"traefik_route", "monitor"}
    ensures child in ExecAll(links, run) && ExecAll(links, run)[child] == links[child]
  {
  }

  /** Over the same runs a link changes its parent only after the old parent released it. */
  lemma {:induction false} ChangeNeedsRelease(links: Links, run: seq<Statement>, child: Ref)
    requires forall i :: 0 <= i < |run| ==> ByRouteOrMonitor(run[i])
    requires child in links
    requires child !in ExecAll(links, run) || ExecAll(links, run)[child] != links[child]
    ensures exists i :: 0 <= i < |run| && Releases(run[i], child, links[child])
  {
    if forall i :: 0 <= i < |run| ==> !Releases(run[i], child, links[child]) {
      ParentSurvives(links, run, child);
    }
  }

  /** A statement touches only the children it names or, for a delete by parent, that parent's children. */
  lemma StatementFrame(links: Links, s: Statement, other: Ref)
    requires !s.DeleteByParent? ==> other != s.child
    requires s.DeleteByParent? && other in links ==> links[other] != s.parent
    ensures other in Exec(links, s) <==> other in links
    ensures other in links ==> Exec(links, s)[other] == links[other]
  {
  }

  /**
   * ClearDiscoveredContainerApp has no such guard: two containers carry the same app, the
   * app's link names the second, and clearing the first drops that link.
   */
  method ClearDropsForeignLink(store: LinkStore, first: string, second: string, app: string)
    requires first != second && app != ""
    requires first in store.containers && second in store.containers
    modifies store
    ensures second in store.containers && store.containers[second] == Some(app)
    ensures AppRef(app) !in store.links
  {
    var out := store.SetContainerApp(first, app);
    out := store.SetContainerApp(second, app);
    assert store.links[AppRef(app)] == Ref("container", second);
    out := store.ClearContainerApp(first);
  }

  /** Its unguarded delete is harmless exactly when the app has no link or hangs below that very container. */
  lemma UnguardedDeleteSafeIff(links: Links, child: Ref, parent: Ref)
    ensures Exec(links, DeleteChild(child)) == Exec(links, DeleteLink(child, parent))
            <==> (child in links ==> links[child] == parent)
  {
  }

  // ---- The chain ------------------------------------------------------------

  predicate InTraefik(r: Ref) {
    r.kind == "traefik" || r.kind == "traefik_route"
  }

  /** The walk goes no further from this node. */
  predicate Ends(links: Links, node: Ref) {
    node !in links || InTraefik(links[node])
  }

  function Ancestors(links: Links, node: Ref, hops: nat): seq<Ref>
    decreases hops
  {
    if hops == 0 || Ends(links, node) then []
    else [links[node]] + Ancestors(links, links[node], hops - 1)
  }

  /** Consecutive nodes are child and parent, and no node after the first belongs to Traefik. */
  ghost predicate Joined(links: Links, path: seq<Ref>) {
    && (forall i :: 0 <= i < |path| - 1 ==> path[i] in links && links[path[i]] == path[i + 1])
    && forall i :: 1 <= i < |path| ==> !InTraefik(path[i])
  }

  /** All ancestors of the first node up to where the walk ends of itself. */
  ghost predicate FullPath(links: Links, path: seq<Ref>) {
    path != [] && Joined(links, path) && Ends(links, path[|path| - 1])
  }

  lemma {:induction false} AncestorsJoined(links: Links, node: Ref, hops: nat)
    ensures |Ancestors(links, node, hops)| <= hops
    ensures Joined(links, [node] + Ancestors(links, node, hops))
    ensures |Ancestors(links, node, hops)| < hops ==> FullPath(links, [node] + Ancestors(links, node, hops))
    decreases hops
  {
    if hops > 0 && !Ends(links, node) {
      AncestorsJoined(links, links[node], hops - 1);
      var rest := [links[node]] + Ancestors(links, links[node], hops - 1);
      var path := [node] + rest;
      assert [node] + Ancestors(links, node, hops) == path;
      assert forall i :: 1 <= i < |path| ==> path[i] == rest[i - 1];
    }
  }

  lemma {:induction false} AncestorsFull(links: Links, path: seq<Ref>, hops: nat)
    requires FullPath(links, path) && |path| <= hops + 1
    ensures [path[0]] + Ancestors(links, path[0], hops) == path
    decreases hops
  {
    if |path| > 1 {
      var rest := path[1..];
      assert forall i :: 0 <= i < |rest| ==> rest[i] == path[i + 1];
      AncestorsFull(links, rest, hops - 1);
      assert path[1] == links[path[0]];
      assert path == [path[0]] + rest;
    }
  }

  /** The app and its ancestors, at most `cap` hops up. */
  function Chain(links: Links, app: string, cap: nat): seq<Ref> {
    [AppRef(app)] + Ancestors(links, AppRef(app), cap)
  }

  /** The Traefik component right above the last node, if the cap was not used up. */
  function TraefikAbove(links: Links, chain: seq<Ref>, cap: nat): Option<string>
    requires chain != []
  {
    var last := chain[|chain| - 1];
    if |chain| <= cap && last in links && links[last].kind == "traefik" then Some(links[last].id) else None
  }

  /**
   * What the walk returns: at most `cap` hops joined by parent links, no node of Traefik,
   * and the full ancestor path whenever that path exists (it does not run into a cycle)
   * and has at most `cap` hops. Otherwise exactly `cap` hops are reported.
   */
  lemma ChainIsExact(links: Links, app: string, cap: nat)
    ensures |Chain(links, app, cap)| <= cap + 1
    ensures Joined(links, Chain(links, app, cap))
    ensures forall i :: 0 <= i < |Chain(links, app, cap)| ==> !InTraefik(Chain(links, app, cap)[i])
    ensures FullPath(links, Chain(links, app, cap)) || |Chain(links, app, cap)| == cap + 1
    ensures forall path :: FullPath(links, path) && path[0] == AppRef(app) && |path| <= cap + 1
                           ==> Chain(links, app, cap) == path
  {
    AncestorsJoined(links, AppRef(app), cap);
    forall path | FullPath(links, path) && path[0] == AppRef(app) && |path| <= cap + 1
      ensures Chain(links, app, cap) == path
    {
      AncestorsFull(links, path, cap);
    }
  }

  /** An ancestor path that returns to a node has no end, so the walk is cut at the cap. */
  lemma CyclicChainIsCut(links: Links, app: string, cap: nat, cycle: seq<Ref>, i: nat)
    requires Joined(links, cycle) && i < |cycle| - 1 && cycle[i] == cycle[|cycle| - 1] && cycle[0] == AppRef(app)
    ensures |Chain(links, app, cap)| == cap + 1
  {
    AncestorsJoined(links, AppRef(app), cap);
    var chain := Chain(links, app, cap);
    if |chain| <= cap {
      EndsNowhereOnCycle(links, cycle, i, chain, |chain| - 1);
    }
  }

  /** Every joined path from the start of a cyclic walk stays on that walk, where no node ends. */
  lemma {:induction false} EndsNowhereOnCycle(links: Links, cycle: seq<Ref>, i: nat, path: seq<Ref>, k: nat)
    requires Joined(links, cycle) && i < |cycle| - 1 && cycle[i] == cycle[|cycle| - 1]
    requires Joined(links, path) && k < |path| && path[0] == cycle[0]
    ensures exists m :: 0 <= m < |cycle| - 1 && path[k] == cycle[m]
    ensures !Ends(links, path[k])
    decreases k
  {
    if k > 0 {
      EndsNowhereOnCycle(links, cycle, i, path, k - 1);
      var m :| 0 <= m < |cycle| - 1 && path[k - 1] == cycle[m];
      assert path[k] == cycle[m + 1];
      assert m + 1 == |cycle| - 1 ==> path[k] == cycle[i];
    }
    var m :| 0 <= m < |cycle| - 1 && path[k] == cycle[m];
    assert links[cycle[m]] == cycle[m + 1];
  }
}
