/**
 * The topology endpoint (internal/api/topology.go): a forest of infrastructure
 * components built from the component_links table. `buildNode` recurses over the
 * links without a cycle check, so the module first says for which tables that
 * recursion ends, and then what the finished forest contains.
 */
module Topology {
  import opened Common

  // ---- Tables ---------------------------------------------------------------

  datatype Link = Link(parentType: string, parentID: string, childType: string, childID: string)

  datatype Component = Component(
    id: string, name: string, kind: string, status: string, ip: string, notes: string, meta: Option<string>)

  datatype App = App(id: string, name: string, profileID: string)

  datatype Container = Container(id: string, engineID: string, name: string, status: string)

  datatype Tables = Tables(
    components: seq<Component>, apps: seq<App>, links: seq<Link>, containers: seq<Container>)

  // ---- Response -------------------------------------------------------------

  datatype AppRef = AppRef(id: string, name: string, iconURL: string)

  datatype Node =
    | ComponentNode(id: string, name: string, kind: string, status: string, ip: string, notes: string,
                    meta: string, children: seq<Node>, apps: seq<AppRef>)
    | ContainerNode(id: string, name: string, status: string, app: Option<AppRef>)

  // ---- What the lookups return ----------------------------------------------

  /** A link between two infrastructure components. */
  predicate Structural(l: Link) {
    l.childType != "app" && l.childType != "container"
  }

  function FindComponent(cs: seq<Component>, id: string): Option<Component> {
    if cs == [] then None
    else if cs[|cs| - 1].id == id then Some(cs[|cs| - 1])
    else FindComponent(cs[..|cs| - 1], id)
  }

  function FindApp(apps: seq<App>, id: string): Option<App> {
    if apps == [] then None
    else if apps[|apps| - 1].id == id then Some(apps[|apps| - 1])
    else FindApp(apps[..|apps| - 1], id)
  }

  function ContainersOf(cs: seq<Container>, engine: string): seq<Container> {
    if cs == [] then []
    else ContainersOf(cs[..|cs| - 1], engine) +
         (if cs[|cs| - 1].engineID == engine then [cs[|cs| - 1]] else [])
  }

  function ToRef(a: App): AppRef {
    AppRef(a.id, a.name, "/api/v1/icons/" + a.profileID)
  }

  function AppsOf(apps: seq<App>, links: seq<Link>, parent: string): seq<AppRef> {
    if links == [] then []
    else
      var l := links[|links| - 1];
      AppsOf(apps, links[..|links| - 1], parent) +
      (if l.childType == "app" && l.parentID == parent && FindApp(apps, l.childID).Some?
       then [ToRef(FindApp(apps, l.childID).value)] else [])
  }

  function ChildrenOf(cs: seq<Component>, links: seq<Link>, parent: string): seq<Component> {
    if links == [] then []
    else
      var l := links[|links| - 1];
      ChildrenOf(cs, links[..|links| - 1], parent) +
      (if Structural(l) && l.parentID == parent && FindComponent(cs, l.childID).Some?
       then [FindComponent(cs, l.childID).value] else [])
  }

  predicate IsChild(links: seq<Link>, id: string) {
    exists i :: 0 <= i < |links| && Structural(links[i]) && links[i].childID == id
  }

  /** The components that are nobody's child, in table order. */
  function RootsOf(cs: seq<Component>, links: seq<Link>): seq<Component> {
    if cs == [] then []
    else RootsOf(cs[..|cs| - 1], links) +
         (if IsChild(links, cs[|cs| - 1].id) then [] else [cs[|cs| - 1]])
  }

  // ---- The recursion of buildNode -------------------------------------------

  function ToLeaf(t: Tables, ct: Container): Node {
    var linked := AppsOf(t.apps, t.links, ct.id);
    ContainerNode(ct.id, ct.name, ct.status, if |linked| > 0 then Some(linked[0]) else None)
  }

  function Leaves(t: Tables, cts: seq<Container>): seq<Node> {
    if cts == [] then [] else Leaves(t, cts[..|cts| - 1]) + [ToLeaf(t, cts[|cts| - 1])]
  }

  function ToNode(t: Tables, c: Component, kids: seq<Node>): Node {
    ComponentNode(c.id, c.name, c.kind, c.status, c.ip, c.notes,
                  if c.meta.Some? then c.meta.value else "",
                  kids + Leaves(t, ContainersOf(t.containers, c.id)),
                  AppsOf(t.apps, t.links, c.id))
  }

  /** `buildNode` cut off at recursion depth `fuel`; None says the depth did not suffice. */
  function Build(t: Tables, c: Component, fuel: nat): Option<Node>
    decreases fuel, 0
  {
    if fuel == 0 then None
    else
      var kids := BuildAll(t, ChildrenOf(t.components, t.links, c.id), fuel - 1);
      if kids.None? then None else Some(ToNode(t, c, kids.value))
  }

  function BuildAll(t: Tables, cs: seq<Component>, fuel: nat): Option<seq<Node>>
    decreases fuel, |cs| + 1
  {
    if cs == [] then Some([])
    else
      var front := BuildAll(t, cs[..|cs| - 1], fuel);
      var last := Build(t, cs[|cs| - 1], fuel);
      if front.None? || last.None? then None else Some(front.value + [last.value])
  }

  /** The recursion of `buildNode` returns from every root. */
  ghost predicate Terminates(t: Tables) {
    exists fuel: nat :: BuildAll(t, RootsOf(t.components, t.links), fuel).Some?
  }

  // ---- Walks in the link table ----------------------------------------------

  ghost predicate Edge(t: Tables, parent: string, child: string) {
    && FindComponent(t.components, child).Some?
    && exists i :: 0 <= i < |t.links| && Structural(t.links[i])
                   && t.links[i].parentID == parent && t.links[i].childID == child
  }

  ghost predicate IsRoot(t: Tables, id: string) {
    FindComponent(t.components, id).Some? && !IsChild(t.links, id)
  }

  /** A walk down the links, starting at a root. */
  ghost predicate RootWalk(t: Tables, path: seq<string>) {
    && path != []
    && IsRoot(t, path[0])
    && forall i :: 0 <= i < |path| - 1 ==> Edge(t, path[i], path[i + 1])
  }

  /** No walk from a root meets a component twice: no cycle is reachable from a root. */
  ghost predicate AcyclicFromRoots(t: Tables) {
    forall path :: RootWalk(t, path) ==> Distinct(path)
  }

  /** Each component id is the child of at most one component link. */
  ghost predicate UniqueParents(t: Tables) {
    forall i, j :: 0 <= i < j < |t.links| && Structural(t.links[i]) && Structural(t.links[j])
                   ==> t.links[i].childID != t.links[j].childID
  }

  ghost predicate UniqueIDs(t: Tables) {
    forall i, j :: 0 <= i < j < |t.components| ==> t.components[i].id != t.components[j].id
  }

  // ---- Facts about the lookups ----------------------------------------------

  lemma {:induction false} FindComponentIs(cs: seq<Component>, id: string)
    ensures FindComponent(cs, id).Some? <==> exists i :: 0 <= i < |cs| && cs[i].id == id
    ensures FindComponent(cs, id).Some? ==> FindComponent(cs, id).value in cs && FindComponent(cs, id).value.id == id
  {
    if cs != [] && cs[|cs| - 1].id != id {
      FindComponentIs(cs[..|cs| - 1], id);
      if i :| 0 <= i < |cs| && cs[i].id == id {
        assert cs[..|cs| - 1][i].id == id;
      }
    }
  }

  lemma {:induction false} FindComponentUnique(cs: seq<Component>, i: nat)
    requires i < |cs|
    requires forall i, j :: 0 <= i < j < |cs| ==> cs[i].id != cs[j].id
    ensures FindComponent(cs, cs[i].id) == Some(cs[i])
  {
    if i < |cs| - 1 {
      FindComponentUnique(cs[..|cs| - 1], i);
    }
  }

  /** `ChildrenOf` lists exactly the existing components one edge below `parent`. */
  lemma {:induction false} ChildrenOfIs(t: Tables, links: seq<Link>, parent: string)
    ensures forall k :: 0 <= k < |ChildrenOf(t.components, links, parent)| ==>
              var c := ChildrenOf(t.components, links, parent)[k];
              && FindComponent(t.components, c.id) == Some(c)
              && exists i :: 0 <= i < |links| && Structural(links[i]) && links[i].parentID == parent && links[i].childID == c.id
    ensures forall i :: 0 <= i < |links| && Structural(links[i]) && links[i].parentID == parent
                        && FindComponent(t.components, links[i].childID).Some?
              ==> FindComponent(t.components, links[i].childID).value in ChildrenOf(t.components, links, parent)
  {
    if links != [] {
      var front := links[..|links| - 1];
      var l := links[|links| - 1];
      ChildrenOfIs(t, front, parent);
      FindComponentIs(t.components, l.childID);
      var kids := ChildrenOf(t.components, links, parent);
      var frontKids := ChildrenOf(t.components, front, parent);
      forall k | 0 <= k < |kids|
        ensures var c := kids[k];
                && FindComponent(t.components, c.id) == Some(c)
                && exists i :: 0 <= i < |links| && Structural(links[i]) && links[i].parentID == parent && links[i].childID == c.id
      {
        if k < |frontKids| {
          var c := frontKids[k];
          var i :| 0 <= i < |front| && Structural(front[i]) && front[i].parentID == parent && front[i].childID == c.id;
          assert links[i] == front[i];
        } else {
          assert links[|links| - 1] == l;
        }
      }
      forall i | 0 <= i < |links| && Structural(links[i]) && links[i].parentID == parent
                 && FindComponent(t.components, links[i].childID).Some?
        ensures FindComponent(t.components, links[i].childID).value in kids
      {
        if i < |front| {
          assert front[i] == links[i];
        }
      }
    }
  }

  lemma {:induction false} ChildrenOfDistinct(cs: seq<Component>, links: seq<Link>, parent: string)
    requires forall i, j :: 0 <= i < j < |links| && Structural(links[i]) && Structural(links[j])
                            ==> links[i].childID != links[j].childID
    ensures forall k, m :: 0 <= k < m < |ChildrenOf(cs, links, parent)|
              ==> ChildrenOf(cs, links, parent)[k].id != ChildrenOf(cs, links, parent)[m].id
  {
    if links != [] {
      var front := links[..|links| - 1];
      ChildrenOfDistinct(cs, front, parent);
      var t := Tables(cs, [], links, []);
      ChildrenOfIs(t, front, parent);
      FindComponentIs(cs, links[|links| - 1].childID);
    }
  }

  lemma {:induction false} RootsOfIs(cs: seq<Component>, links: seq<Link>)
    ensures forall c :: c in RootsOf(cs, links) <==> c in cs && !IsChild(links, c.id)
  {
    if cs != [] {
      RootsOfIs(cs[..|cs| - 1], links);
      assert cs == cs[..|cs| - 1] + [cs[|cs| - 1]];
    }
  }

  lemma {:induction false} RootsOfDistinct(cs: seq<Component>, links: seq<Link>)
    requires forall i, j :: 0 <= i < j < |cs| ==> cs[i].id != cs[j].id
    ensures forall k, m :: 0 <= k < m < |RootsOf(cs, links)| ==> RootsOf(cs, links)[k].id != RootsOf(cs, links)[m].id
  {
    if cs != [] {
      RootsOfDistinct(cs[..|cs| - 1], links);
      RootsOfIs(cs[..|cs| - 1], links);
    }
  }

  // ---- Termination ----------------------------------------------------------

  lemma {:induction false} BuildAllOfEach(t: Tables, cs: seq<Component>, fuel: nat)
    requires forall c :: c in cs ==> Build(t, c, fuel).Some?
    ensures BuildAll(t, cs, fuel).Some?
  {
    if cs != [] {
      BuildAllOfEach(t, cs[..|cs| - 1], fuel);
    }
  }

  /** A depth that suffices gives the same node as every larger depth: `fuel` is no bound on the result. */
  lemma {:induction false} BuildStable(t: Tables, c: Component, fuel: nat, more: nat)
    requires fuel <= more && Build(t, c, fuel).Some?
    ensures Build(t, c, more) == Build(t, c, fuel)
    decreases fuel, 0
  {
    BuildAllStable(t, ChildrenOf(t.components, t.links, c.id), fuel - 1, more - 1);
  }

  lemma {:induction false} BuildAllStable(t: Tables, cs: seq<Component>, fuel: nat, more: nat)
    requires fuel <= more && BuildAll(t, cs, fuel).Some?
    ensures BuildAll(t, cs, more) == BuildAll(t, cs, fuel)
    decreases fuel, |cs| + 1
  {
    if cs != [] {
      BuildAllStable(t, cs[..|cs| - 1], fuel, more);
      BuildStable(t, cs[|cs| - 1], fuel, more);
    }
  }

  lemma {:induction false} BuildAllNeedsEach(t: Tables, cs: seq<Component>, fuel: nat, k: nat)
    requires k < |cs| && Build(t, cs[k], fuel).None?
    ensures BuildAll(t, cs, fuel).None?
  {
    if k < |cs| - 1 {
      BuildAllNeedsEach(t, cs[..|cs| - 1], fuel, k);
    }
  }

  lemma NodeNeedsKid(t: Tables, c: Component, k: nat, fuel: nat)
    requires fuel > 0
    requires var kids := ChildrenOf(t.components, t.links, c.id); k < |kids| && Build(t, kids[k], fuel - 1).None?
    ensures Build(t, c, fuel).None?
  {
    BuildAllNeedsEach(t, ChildrenOf(t.components, t.links, c.id), fuel - 1, k);
  }

  lemma TailIsWalk(t: Tables, path: seq<string>)
    requires path != [] && forall i :: 0 <= i < |path| - 1 ==> Edge(t, path[i], path[i + 1])
    ensures forall i :: 0 <= i < |path[1..]| - 1 ==> Edge(t, path[1..][i], path[1..][i + 1])
  {
    forall i | 0 <= i < |path[1..]| - 1 ensures Edge(t, path[1..][i], path[1..][i + 1]) {
      var j := i + 1;
      assert Edge(t, path[j], path[j + 1]);
    }
  }

  lemma {:induction false} WalkNeedsFuel(t: Tables, path: seq<string>, c: Component, fuel: nat)
    requires path != [] && path[0] == c.id && fuel < |path|
    requires forall i :: 0 <= i < |path| - 1 ==> Edge(t, path[i], path[i + 1])
    ensures Build(t, c, fuel).None?
    decreases fuel
  {
    if fuel > 0 {
      var kid, k := EdgeChild(t, path[0], path[1]);
      TailIsWalk(t, path);
      WalkNeedsFuel(t, path[1..], kid, fuel - 1);
      NodeNeedsKid(t, c, k, fuel);
    }
  }

  /** An edge leads to a listed child. */
  lemma EdgeChild(t: Tables, parent: string, child: string) returns (c: Component, k: nat)
    requires Edge(t, parent, child)
    ensures k < |ChildrenOf(t.components, t.links, parent)| && ChildrenOf(t.components, t.links, parent)[k] == c
    ensures c.id == child && FindComponent(t.components, child) == Some(c)
  {
    ChildrenOfIs(t, t.links, parent);
    FindComponentIs(t.components, child);
    c := FindComponent(t.components, child).value;
    k :| 0 <= k < |ChildrenOf(t.components, t.links, parent)| && ChildrenOf(t.components, t.links, parent)[k] == c;
  }

  /** A walk that ends where it was before can be prolonged for ever. */
  lemma {:induction false} Pump(t: Tables, path: seq<string>, i: nat, length: nat) returns (longer: seq<string>)
    requires RootWalk(t, path) && i < |path| - 1 && path[i] == path[|path| - 1]
    ensures RootWalk(t, longer) && |longer| > length && longer[0] == path[0]
    decreases length - |path|
  {
    if |path| > length {
      return path;
    }
    var next := path + path[i + 1..];
    forall k | 0 <= k < |next| - 1 ensures Edge(t, next[k], next[k + 1]) {
      var m := if k < |path| - 1 then k else k - |path| + i + 1;
      assert next[k] == path[m] && next[k + 1] == path[m + 1];
    }
    longer := Pump(t, next, i, length);
  }

  lemma WalkFits(t: Tables, path: seq<string>)
    requires AcyclicFromRoots(t) && RootWalk(t, path)
    ensures |path| <= |t.components|
  {
    var ids := set i | 0 <= i < |t.components| :: t.components[i].id;
    IdsCount(t.components);
    forall i | 0 <= i < |path| ensures path[i] in ids {
      assert i > 0 ==> Edge(t, path[i - 1], path[i]);
      FindComponentIs(t.components, path[i]);
    }
    DistinctFits(path, ids);
  }

  /** When no walk from a root repeats a component, the number of components is depth enough. */
  lemma {:induction false} AcyclicSuffices(t: Tables, path: seq<string>, c: Component, fuel: nat)
    requires AcyclicFromRoots(t) && RootWalk(t, path) && path[|path| - 1] == c.id
    requires |path| + fuel > |t.components|
    ensures Build(t, c, fuel).Some?
    decreases fuel, 0
  {
    WalkFits(t, path);
    ChildrenOfIs(t, t.links, c.id);
    AcyclicSufficesAll(t, path, ChildrenOf(t.components, t.links, c.id), fuel - 1);
  }

  lemma {:induction false} AcyclicSufficesAll(t: Tables, path: seq<string>, cs: seq<Component>, fuel: nat)
    requires AcyclicFromRoots(t) && RootWalk(t, path)
    requires forall k :: 0 <= k < |cs| ==> Edge(t, path[|path| - 1], cs[k].id)
    requires |path| + 1 + fuel > |t.components|
    ensures BuildAll(t, cs, fuel).Some?
    decreases fuel, |cs| + 1
  {
    if cs != [] {
      AcyclicSufficesAll(t, path, cs[..|cs| - 1], fuel);
      AcyclicSuffices(t, path + [cs[|cs| - 1].id], cs[|cs| - 1], fuel);
    }
  }

  lemma {:induction false} IdsCount(cs: seq<Component>)
    ensures |(set i | 0 <= i < |cs| :: cs[i].id)| <= |cs|
  {
    if cs != [] {
      var front := cs[..|cs| - 1];
      IdsCount(front);
      assert (set i | 0 <= i < |cs| :: cs[i].id) == (set i | 0 <= i < |front| :: front[i].id) + {cs[|cs| - 1].id};
    }
  }

  lemma AcyclicTerminates(t: Tables)
    requires AcyclicFromRoots(t)
    ensures BuildAll(t, RootsOf(t.components, t.links), |t.components|).Some?
  {
    hide Build, BuildAll;
    var roots := RootsOf(t.components, t.links);
    RootsOfIs(t.components, t.links);
    forall c | c in roots ensures Build(t, c, |t.components|).Some? {
      FindComponentIs(t.components, c.id);
      AcyclicSuffices(t, [c.id], c, |t.components|);
    }
    BuildAllOfEach(t, roots, |t.components|);
  }

  /** A walk from a root that meets a component twice defeats every depth. */
  lemma CycleDefeats(t: Tables, path: seq<string>, i: nat, j: nat, fuel: nat)
    requires RootWalk(t, path) && i < j < |path| && path[i] == path[j]
    ensures BuildAll(t, RootsOf(t.components, t.links), fuel).None?
  {
    hide Build, BuildAll, RootsOf;
    var roots := RootsOf(t.components, t.links);
    RootsOfIs(t.components, t.links);
    FindComponentIs(t.components, path[0]);
    var root := FindComponent(t.components, path[0]).value;
    var k :| 0 <= k < |roots| && roots[k] == root;
    var longer := Pump(t, path[..j + 1], i, fuel);
    WalkNeedsFuel(t, longer, root, fuel);
    BuildAllNeedsEach(t, roots, fuel, k);
  }

  /** The recursion ends, for every table, exactly when no cycle is reachable from a root. */
  lemma TerminatesIffAcyclic(t: Tables)
    ensures Terminates(t) <==> AcyclicFromRoots(t)
    ensures AcyclicFromRoots(t) ==> BuildAll(t, RootsOf(t.components, t.links), |t.components|).Some?
  {
    hide Build, BuildAll, RootsOf;
    if AcyclicFromRoots(t) {
      AcyclicTerminates(t);
    } else {
      var path, i, j :| RootWalk(t, path) && 0 <= i < j < |path| && path[i] == path[j];
      forall fuel: nat ensures BuildAll(t, RootsOf(t.components, t.links), fuel).None? {
        CycleDefeats(t, path, i, j, fuel);
      }
    }
  }

  // ---- What the forest contains ---------------------------------------------

  /** The finished forest, for the tables on which the recursion ends. */
  ghost function Forest(t: Tables): seq<Node>
    requires AcyclicFromRoots(t)
  {
    TerminatesIffAcyclic(t);
    BuildAll(t, RootsOf(t.components, t.links), |t.components|).value
  }

  /** The component ids of a tree, in preorder; container leaves are not components. */
  function Ids(n: Node): seq<string>
    decreases n, 0
  {
    match n
    case ComponentNode(id, _, _, _, _, _, _, children, _) => [id] + IdsAll(children)
    case ContainerNode(_, _, _, _) => []
  }

  function IdsAll(ns: seq<Node>): seq<string>
    decreases ns, 1
  {
    if ns == [] then [] else IdsAll(ns[..|ns| - 1]) + Ids(ns[|ns| - 1])
  }

  lemma {:induction false} LeavesHaveNoIds(t: Tables, kids: seq<Node>, cts: seq<Container>)
    ensures IdsAll(kids + Leaves(t, cts)) == IdsAll(kids)
  {
    var all := kids + Leaves(t, cts);
    if cts == [] {
      assert all == kids;
    } else {
      LeavesHaveNoIds(t, kids, cts[..|cts| - 1]);
      assert all[..|all| - 1] == kids + Leaves(t, cts[..|cts| - 1]);
    }
  }

  /** With one parent per component, a component is reached by one walk only. */
  lemma {:induction false} RootWalkUnique(t: Tables, p: seq<string>, q: seq<string>)
    requires UniqueParents(t) && RootWalk(t, p) && RootWalk(t, q)
    requires p[|p| - 1] == q[|q| - 1]
    ensures p == q
    decreases |p|
  {
    assert |p| > 1 ==> Edge(t, p[|p| - 2], p[|p| - 1]);
    assert |q| > 1 ==> Edge(t, q[|q| - 2], q[|q| - 1]);
    if |p| > 1 && |q| > 1 {
      RootWalkUnique(t, p[..|p| - 1], q[..|q| - 1]);
      assert p == p[..|p| - 1] + [p[|p| - 1]];
      assert q == q[..|q| - 1] + [q[|q| - 1]];
    }
  }

  /** One parent per component keeps every cycle out of reach of the roots, even if the table holds cycles. */
  lemma UniqueParentsAcyclic(t: Tables)
    requires UniqueParents(t)
    ensures AcyclicFromRoots(t)
  {
    forall path | RootWalk(t, path) ensures Distinct(path) {
      forall i, j | 0 <= i < j < |path| ensures path[i] != path[j] {
        if path[i] == path[j] {
          RootWalkUnique(t, path[..i + 1], path[..j + 1]);
          assert false;
        }
      }
    }
  }

  /** `x` ends a walk from a root that begins with `path`. */
  ghost predicate Below(t: Tables, path: seq<string>, x: string) {
    exists q :: RootWalk(t, q) && path <= q && q[|q| - 1] == x
  }

  /** `x` lies below one of the components `cs` that continue the walk. */
  ghost predicate BelowAny(t: Tables, path: seq<string>, cs: seq<Component>, x: string) {
    exists c :: c in cs && Below(t, path + [c.id], x)
  }

  /** Below a walk lie its last component and what lies below that component's children. */
  lemma BelowStep(t: Tables, path: seq<string>, end: string, x: string)
    requires RootWalk(t, path) && end == path[|path| - 1]
    ensures Below(t, path, x) <==> x == end || BelowAny(t, path, ChildrenOf(t.components, t.links, end), x)
  {
    var kids := ChildrenOf(t.components, t.links, end);
    if x == end {
      assert path <= path;
    } else if Below(t, path, x) {
      var q :| RootWalk(t, q) && path <= q && q[|q| - 1] == x;
      assert Edge(t, q[|path| - 1], q[|path|]);
      var kid, k := EdgeChild(t, end, q[|path|]);
      assert path + [kid.id] <= q;
    }
    if x != end && BelowAny(t, path, kids, x) {
      var kid :| kid in kids && Below(t, path + [kid.id], x);
      BelowPrefix(t, path, kid.id, x);
    }
  }

  lemma BelowPrefix(t: Tables, path: seq<string>, kid: string, x: string)
    requires Below(t, path + [kid], x)
    ensures Below(t, path, x)
  {
  }

  lemma BelowNotAbove(t: Tables, path: seq<string>, kid: string)
    requires UniqueParents(t) && RootWalk(t, path)
    ensures !Below(t, path + [kid], path[|path| - 1])
  {
    if q :| RootWalk(t, q) && path + [kid] <= q && q[|q| - 1] == path[|path| - 1] {
      RootWalkUnique(t, path, q);
    }
  }

  lemma BelowApart(t: Tables, path: seq<string>, a: string, b: string, x: string)
    requires UniqueParents(t)
    requires Below(t, path + [a], x) && Below(t, path + [b], x)
    ensures a == b
  {
    var p :| RootWalk(t, p) && path + [a] <= p && p[|p| - 1] == x;
    var q :| RootWalk(t, q) && path + [b] <= q && q[|q| - 1] == x;
    RootWalkUnique(t, p, q);
    assert p[|path|] == a && q[|path|] == b;
  }

  /** The tree built for the end of a walk holds exactly what lies below it, each component once. */
  lemma {:induction false} NodeIds(t: Tables, path: seq<string>, c: Component, fuel: nat)
    requires UniqueParents(t) && RootWalk(t, path) && path[|path| - 1] == c.id
    requires Build(t, c, fuel).Some?
    ensures Distinct(Ids(Build(t, c, fuel).value))
    ensures forall x :: x in Ids(Build(t, c, fuel).value) <==> Below(t, path, x)
    decreases fuel, 0
  {
    var kids := ChildrenOf(t.components, t.links, c.id);
    KidWalks(t, path, c.id);
    ForestIds(t, path, kids, fuel - 1);
    var inner := BuildAll(t, kids, fuel - 1).value;
    LeavesHaveNoIds(t, inner, ContainersOf(t.containers, c.id));
    NodeIdsFromKids(t, path, c.id, IdsAll(inner));
  }

  lemma KidWalks(t: Tables, path: seq<string>, end: string)
    requires UniqueParents(t) && RootWalk(t, path) && end == path[|path| - 1]
    ensures forall c :: c in ChildrenOf(t.components, t.links, end) ==> RootWalk(t, path + [c.id])
    ensures forall k, m :: 0 <= k < m < |ChildrenOf(t.components, t.links, end)|
              ==> ChildrenOf(t.components, t.links, end)[k].id != ChildrenOf(t.components, t.links, end)[m].id
  {
    ChildrenOfIs(t, t.links, end);
    ChildrenOfDistinct(t.components, t.links, end);
    forall c | c in ChildrenOf(t.components, t.links, end) ensures RootWalk(t, path + [c.id]) {
      assert Edge(t, end, c.id);
    }
  }

  lemma NodeIdsFromKids(t: Tables, path: seq<string>, end: string, inner: seq<string>)
    requires UniqueParents(t) && RootWalk(t, path) && end == path[|path| - 1] && Distinct(inner)
    requires forall x :: x in inner <==> BelowAny(t, path, ChildrenOf(t.components, t.links, end), x)
    ensures Distinct([end] + inner)
    ensures forall x :: x in [end] + inner <==> Below(t, path, x)
  {
    forall x ensures x in [end] + inner <==> Below(t, path, x) {
      BelowStep(t, path, end, x);
    }
    if end in inner {
      var kid :| kid in ChildrenOf(t.components, t.links, end) && Below(t, path + [kid.id], end);
      BelowNotAbove(t, path, kid.id);
    }
    DistinctConcat([end], inner);
  }

  lemma {:induction false} ForestIds(t: Tables, path: seq<string>, cs: seq<Component>, fuel: nat)
    requires UniqueParents(t)
    requires forall c :: c in cs ==> RootWalk(t, path + [c.id])
    requires forall k, m :: 0 <= k < m < |cs| ==> cs[k].id != cs[m].id
    requires BuildAll(t, cs, fuel).Some?
    ensures Distinct(IdsAll(BuildAll(t, cs, fuel).value))
    ensures forall x :: x in IdsAll(BuildAll(t, cs, fuel).value) <==> BelowAny(t, path, cs, x)
    decreases fuel, |cs| + 1
  {
    if cs != [] {
      var n := |cs| - 1;
      ForestIds(t, path, cs[..n], fuel);
      NodeIds(t, path + [cs[n].id], cs[n], fuel);
      var front, last := BuildAll(t, cs[..n], fuel).value, Build(t, cs[n], fuel).value;
      var all := front + [last];
      assert all[..|all| - 1] == front;
      ForestIdsStep(t, path, cs, IdsAll(front), Ids(last));
    }
  }

  lemma ForestIdsStep(t: Tables, path: seq<string>, cs: seq<Component>, a: seq<string>, b: seq<string>)
    requires UniqueParents(t) && cs != [] && Distinct(a) && Distinct(b)
    requires forall k, m :: 0 <= k < m < |cs| ==> cs[k].id != cs[m].id
    requires forall x :: x in a <==> BelowAny(t, path, cs[..|cs| - 1], x)
    requires forall x :: x in b <==> Below(t, path + [cs[|cs| - 1].id], x)
    ensures Distinct(a + b)
    ensures forall x :: x in a + b <==> BelowAny(t, path, cs, x)
  {
    var n := |cs| - 1;
    forall x | x in a ensures x !in b {
      var c :| c in cs[..n] && Below(t, path + [c.id], x);
      if x in b {
        BelowApart(t, path, c.id, cs[n].id, x);
      }
    }
    DistinctConcat(a, b);
    assert cs == cs[..n] + [cs[n]];
  }

  /**
   * With one parent per component the recursion ends, no component occurs twice in the
   * whole output, and a component occurs exactly when the chain of its parents leads up
   * to an existing component that is nobody's child. Cycles and components below a
   * missing parent are left out.
   */
  lemma ForestContents(t: Tables)
    requires UniqueParents(t) && UniqueIDs(t)
    ensures Terminates(t) && AcyclicFromRoots(t)
    ensures Distinct(IdsAll(Forest(t)))
    ensures forall x :: x in IdsAll(Forest(t)) <==> exists q :: RootWalk(t, q) && q[|q| - 1] == x
  {
    UniqueParentsAcyclic(t);
    TerminatesIffAcyclic(t);
    var roots := RootsOf(t.components, t.links);
    RootsOfIs(t.components, t.links);
    RootsOfDistinct(t.components, t.links);
    forall c | c in roots ensures RootWalk(t, [] + [c.id]) {
      FindComponentIs(t.components, c.id);
    }
    ForestIds(t, [], roots, |t.components|);
    forall x ensures x in IdsAll(Forest(t)) <==> exists q :: RootWalk(t, q) && q[|q| - 1] == x {
      if x in IdsAll(Forest(t)) {
        var c :| c in roots && Below(t, [] + [c.id], x);
      }
      if q :| RootWalk(t, q) && q[|q| - 1] == x {
        FindComponentIs(t.components, q[0]);
        var root := FindComponent(t.components, q[0]).value;
        assert [] + [root.id] <= q;
        assert Below(t, [] + [root.id], x);
      }
    }
  }

  /**
   * The key of the table is (child_type, child_id), so one component can carry two links
   * after its type changed. This table respects the key, and `buildNode` never returns on it.
   */
  lemma TwoTypedLinksDiverge()
    ensures var t := Tables([Component("r", "r", "linux_host", "", "", "", None),
                             Component("a", "a", "vm_other", "", "", "", None)], [],
                            [Link("linux_host", "r", "vm_other", "a"), Link("vm_other", "a", "vm_linux", "a")], []);
            !Terminates(t)
  {
    var t := Tables([Component("r", "r", "linux_host", "", "", "", None),
                     Component("a", "a", "vm_other", "", "", "", None)], [],
                    [Link("linux_host", "r", "vm_other", "a"), Link("vm_other", "a", "vm_linux", "a")], []);
    assert t.links[0].childID == "a" && t.links[1].childID == "a";
    FindComponentIs(t.components, "a");
    FindComponentIs(t.components, "r");
    assert t.components[0].id == "r" && t.components[1].id == "a";
    assert Edge(t, "r", "a") && Edge(t, "a", "a");
    assert IsRoot(t, "r");
    var path := ["r", "a", "a"];
    assert RootWalk(t, path) && path[1] == path[2];
    TerminatesIffAcyclic(t);
  }

  // ---- What a node shows ------------------------------------------------------

  /** The apps shown at a parent: one per app link below it to an app of the table, in link order. */
  lemma AppsOfIs(apps: seq<App>, links: seq<Link>, parent: string) returns (at: seq<nat>)
    ensures forall k, m :: 0 <= k < m < |at| ==> at[k] < at[m]
    ensures forall i: nat :: i in at <==>
              i < |links| && links[i].childType == "app" && links[i].parentID == parent && FindApp(apps, links[i].childID).Some?
    ensures var refs := AppsOf(apps, links, parent);
            && |refs| == |at|
            && forall k :: 0 <= k < |at| ==>
                 && at[k] < |links| && FindApp(apps, links[at[k]].childID).Some?
                 && refs[k] == ToRef(FindApp(apps, links[at[k]].childID).value)
  {
    hide AppsOf;
    var shown := (i: nat) =>
      i < |links| && links[i].childType == "app" && links[i].parentID == parent && FindApp(apps, links[i].childID).Some?;
    at := Positions(|links|, shown);
    AppsAt(apps, links, parent, shown, |links|);
    assert links[..|links|] == links;
    forall k | 0 <= k < |at| ensures at[k] < |links| && FindApp(apps, links[at[k]].childID).Some? {
      assert at[k] in at;
    }
  }

  lemma {:induction false} AppsAt(apps: seq<App>, links: seq<Link>, parent: string, shown: nat -> bool, n: nat)
    requires n <= |links|
    requires forall i: nat :: shown(i) <==>
               i < |links| && links[i].childType == "app" && links[i].parentID == parent && FindApp(apps, links[i].childID).Some?
    ensures var refs, at := AppsOf(apps, links[..n], parent), Positions(n, shown);
            && |refs| == |at|
            && forall k :: 0 <= k < |at| ==> shown(at[k]) && refs[k] == ToRef(FindApp(apps, links[at[k]].childID).value)
  {
    hide FindApp, ToRef;
    if n > 0 {
      AppsAt(apps, links, parent, shown, n - 1);
      assert links[..n][..n - 1] == links[..n - 1];
    }
  }

  /** The reference names the app of this id; the last row of an id counts. */
  ghost predicate ShowsApp(apps: seq<App>, id: string, ref: AppRef) {
    exists j :: 0 <= j < |apps| && apps[j].id == id
                && (forall m :: j < m < |apps| ==> apps[m].id != apps[j].id)
                && ref == AppRef(apps[j].id, apps[j].name, "/api/v1/icons/" + apps[j].profileID)
  }

  lemma {:induction false} FindAppIs(apps: seq<App>, id: string)
    ensures FindApp(apps, id).Some? <==> exists a :: a in apps && a.id == id
    ensures FindApp(apps, id).Some? ==> ShowsApp(apps, id, ToRef(FindApp(apps, id).value))
  {
    if apps != [] {
      var n := |apps| - 1;
      assert apps == apps[..n] + [apps[n]];
      FindAppIs(apps[..n], id);
      if apps[n].id != id && FindApp(apps, id).Some? {
        var ref := ToRef(FindApp(apps, id).value);
        var j :| 0 <= j < n && apps[..n][j].id == id
                 && (forall m :: j < m < n ==> apps[..n][m].id != apps[..n][j].id)
                 && ref == AppRef(apps[..n][j].id, apps[..n][j].name, "/api/v1/icons/" + apps[..n][j].profileID);
        assert apps[j] == apps[..n][j];
        forall m | j < m < |apps| ensures apps[m].id != id {
          assert m < n ==> apps[m] == apps[..n][m];
        }
      }
    }
  }

  /** The containers shown at an engine: those of its id, in table order. */
  lemma ContainersOfIs(cs: seq<Container>, engine: string) returns (at: seq<nat>)
    ensures forall k, m :: 0 <= k < m < |at| ==> at[k] < at[m]
    ensures forall i: nat :: i in at <==> i < |cs| && cs[i].engineID == engine
    ensures var shown := ContainersOf(cs, engine);
            |shown| == |at| && forall k :: 0 <= k < |at| ==> at[k] < |cs| && shown[k] == cs[at[k]]
  {
    hide ContainersOf;
    var shown := (i: nat) => i < |cs| && cs[i].engineID == engine;
    at := Positions(|cs|, shown);
    ContainersAt(cs, engine, shown, |cs|);
    assert cs[..|cs|] == cs;
  }

  lemma {:induction false} ContainersAt(cs: seq<Container>, engine: string, shown: nat -> bool, n: nat)
    requires n <= |cs| && forall i: nat :: shown(i) <==> i < |cs| && cs[i].engineID == engine
    ensures var found, at := ContainersOf(cs[..n], engine), Positions(n, shown);
            |found| == |at| && forall k :: 0 <= k < |at| ==> shown(at[k]) && found[k] == cs[at[k]]
  {
    if n > 0 {
      ContainersAt(cs, engine, shown, n - 1);
      assert cs[..n][..n - 1] == cs[..n - 1];
    }
  }

  /** The components shown at a parent: one per component link below it to an existing component, in link order. */
  lemma ChildrenInOrder(cs: seq<Component>, links: seq<Link>, parent: string) returns (at: seq<nat>)
    ensures forall k, m :: 0 <= k < m < |at| ==> at[k] < at[m]
    ensures forall i: nat :: i in at <==>
              i < |links| && Structural(links[i]) && links[i].parentID == parent && FindComponent(cs, links[i].childID).Some?
    ensures var kids := ChildrenOf(cs, links, parent);
            && |kids| == |at|
            && forall k :: 0 <= k < |at| ==> at[k] < |links| && FindComponent(cs, links[at[k]].childID) == Some(kids[k])
  {
    hide ChildrenOf;
    var shown := (i: nat) =>
      i < |links| && Structural(links[i]) && links[i].parentID == parent && FindComponent(cs, links[i].childID).Some?;
    at := Positions(|links|, shown);
    ChildrenAt(cs, links, parent, shown, |links|);
    assert links[..|links|] == links;
  }

  lemma {:induction false} ChildrenAt(cs: seq<Component>, links: seq<Link>, parent: string, shown: nat -> bool, n: nat)
    requires n <= |links|
    requires forall i: nat :: shown(i) <==>
               i < |links| && Structural(links[i]) && links[i].parentID == parent && FindComponent(cs, links[i].childID).Some?
    ensures var kids, at := ChildrenOf(cs, links[..n], parent), Positions(n, shown);
            && |kids| == |at|
            && forall k :: 0 <= k < |at| ==> shown(at[k]) && FindComponent(cs, links[at[k]].childID) == Some(kids[k])
  {
    hide FindComponent, Structural;
    if n > 0 {
      ChildrenAt(cs, links, parent, shown, n - 1);
      assert links[..n][..n - 1] == links[..n - 1];
    }
  }

  /** The roots: the components that no component link names as its child, in table order. */
  lemma RootsInOrder(cs: seq<Component>, links: seq<Link>) returns (at: seq<nat>)
    ensures forall k, m :: 0 <= k < m < |at| ==> at[k] < at[m]
    ensures forall i: nat :: i in at <==> i < |cs| && !IsChild(links, cs[i].id)
    ensures var roots := RootsOf(cs, links);
            |roots| == |at| && forall k :: 0 <= k < |at| ==> at[k] < |cs| && roots[k] == cs[at[k]]
  {
    hide RootsOf, IsChild;
    var shown := (i: nat) => i < |cs| && !IsChild(links, cs[i].id);
    at := Positions(|cs|, shown);
    RootsAt(cs, links, shown, |cs|);
    assert cs[..|cs|] == cs;
  }

  lemma {:induction false} RootsAt(cs: seq<Component>, links: seq<Link>, shown: nat -> bool, n: nat)
    requires n <= |cs| && forall i: nat :: shown(i) <==> i < |cs| && !IsChild(links, cs[i].id)
    ensures var roots, at := RootsOf(cs[..n], links), Positions(n, shown);
            |roots| == |at| && forall k :: 0 <= k < |at| ==> shown(at[k]) && roots[k] == cs[at[k]]
  {
    hide IsChild;
    if n > 0 {
      RootsAt(cs, links, shown, n - 1);
      assert cs[..n][..n - 1] == cs[..n - 1];
    }
  }

  lemma IsChildIff(links: seq<Link>, id: string)
    ensures IsChild(links, id) <==>
              exists l :: l in links && l.childID == id && l.childType != "app" && l.childType != "container"
  {
  }

  /** The node occurs in the forest, at any depth. */
  ghost predicate Occurs(n: Node, ns: seq<Node>)
    decreases ns
  {
    exists k :: 0 <= k < |ns| && (ns[k] == n || (ns[k].ComponentNode? && Occurs(n, ns[k].children)))
  }

  lemma {:induction false} LeavesAreContainers(t: Tables, cts: seq<Container>)
    ensures |Leaves(t, cts)| == |cts| && forall k :: 0 <= k < |cts| ==> Leaves(t, cts)[k] == ToLeaf(t, cts[k])
  {
    if cts != [] {
      LeavesAreContainers(t, cts[..|cts| - 1]);
    }
  }

  lemma {:induction false} BuiltAll(t: Tables, cs: seq<Component>, fuel: nat)
    requires BuildAll(t, cs, fuel).Some?
    ensures var ns := BuildAll(t, cs, fuel).value;
            |ns| == |cs| && forall k :: 0 <= k < |cs| ==> Build(t, cs[k], fuel) == Some(ns[k])
  {
    hide Build;
    if cs != [] {
      BuiltAll(t, cs[..|cs| - 1], fuel);
    }
  }

  lemma NodeFields(t: Tables, c: Component, fuel: nat)
    requires Build(t, c, fuel).Some?
    ensures var n := Build(t, c, fuel).value;
            && n.ComponentNode? && n.id == c.id && n.name == c.name && n.kind == c.kind && n.status == c.status
            && n.ip == c.ip && n.notes == c.notes && n.meta == (if c.meta.Some? then c.meta.value else "")
            && n.apps == AppsOf(t.apps, t.links, c.id)
  {
    hide BuildAll, ChildrenOf, AppsOf, Leaves, ContainersOf;
  }

  /** The children: the nodes of the component children, then the leaves of the containers. */
  lemma NodeChildren(t: Tables, c: Component, fuel: nat)
    requires Build(t, c, fuel).Some?
    ensures fuel > 0
    ensures var kids, cts := ChildrenOf(t.components, t.links, c.id), ContainersOf(t.containers, c.id);
            var inner, shown := BuildAll(t, kids, fuel - 1), Build(t, c, fuel).value.children;
            && inner.Some? && |inner.value| == |kids| && |shown| == |kids| + |cts|
            && (forall k :: 0 <= k < |kids| ==> shown[k] == inner.value[k] && shown[k].ComponentNode? && shown[k].id == kids[k].id)
            && forall k :: 0 <= k < |cts| ==> shown[|kids| + k] == ToLeaf(t, cts[k])
  {
    hide BuildAll, ChildrenOf, AppsOf, Leaves, ContainersOf, ToLeaf;
    var kids := ChildrenOf(t.components, t.links, c.id);
    BuiltAll(t, kids, fuel - 1);
    LeavesAreContainers(t, ContainersOf(t.containers, c.id));
    forall k | 0 <= k < |kids| ensures Build(t, c, fuel).value.children[k].ComponentNode?
                                       && Build(t, c, fuel).value.children[k].id == kids[k].id {
      NodeFields(t, kids[k], fuel - 1);
    }
  }

  /** Every component node of a built forest is the one built for some component of the table. */
  lemma {:induction false} OccursBuilt(t: Tables, cs: seq<Component>, fuel: nat, n: Node) returns (c: Component, depth: nat)
    requires BuildAll(t, cs, fuel).Some? && n.ComponentNode? && Occurs(n, BuildAll(t, cs, fuel).value)
    requires forall c :: c in cs ==> c in t.components
    ensures c in t.components && Build(t, c, depth) == Some(n)
    decreases fuel
  {
    hide Build, BuildAll, ChildrenOf, ContainersOf;
    var ns := BuildAll(t, cs, fuel).value;
    BuiltAll(t, cs, fuel);
    var k :| 0 <= k < |ns| && (ns[k] == n || (ns[k].ComponentNode? && Occurs(n, ns[k].children)));
    if ns[k] == n {
      return cs[k], fuel;
    }
    ChildrenOfIs(t, t.links, cs[k].id);
    forall kid | kid in ChildrenOf(t.components, t.links, cs[k].id) ensures kid in t.components {
      FindComponentIs(t.components, kid.id);
    }
    OccursInKids(t, cs[k], fuel, n);
    c, depth := OccursBuilt(t, ChildrenOf(t.components, t.links, cs[k].id), fuel - 1, n);
  }

  lemma OccursInKids(t: Tables, c: Component, fuel: nat, n: Node)
    requires Build(t, c, fuel).Some? && n.ComponentNode? && Occurs(n, Build(t, c, fuel).value.children)
    ensures fuel > 0
    ensures var inner := BuildAll(t, ChildrenOf(t.components, t.links, c.id), fuel - 1); inner.Some? && Occurs(n, inner.value)
  {
    hide BuildAll, ChildrenOf, AppsOf, ContainersOf;
    NodeChildren(t, c, fuel);
    var shown := Build(t, c, fuel).value.children;
    var k :| 0 <= k < |shown| && (shown[k] == n || (shown[k].ComponentNode? && Occurs(n, shown[k].children)));
    var kids := ChildrenOf(t.components, t.links, c.id);
    assert k >= |kids| ==> shown[k] == ToLeaf(t, ContainersOf(t.containers, c.id)[k - |kids|]);
    assert shown[k] == BuildAll(t, kids, fuel - 1).value[k];
  }

  lemma OccursInForest(t: Tables, n: Node) returns (c: Component, depth: nat)
    requires AcyclicFromRoots(t) && n.ComponentNode? && Occurs(n, Forest(t))
    ensures c in t.components && Build(t, c, depth) == Some(n)
  {
    TerminatesIffAcyclic(t);
    RootsOfIs(t.components, t.links);
    c, depth := OccursBuilt(t, RootsOf(t.components, t.links), |t.components|, n);
  }

  /** Every node shows the fields of its component. */
  lemma ForestFields(t: Tables, n: Node) returns (c: Component)
    requires AcyclicFromRoots(t) && n.ComponentNode? && Occurs(n, Forest(t))
    ensures c in t.components && n.id == c.id && n.name == c.name && n.kind == c.kind && n.status == c.status
    ensures n.ip == c.ip && n.notes == c.notes && n.meta == if c.meta.Some? then c.meta.value else ""
  {
    hide Occurs, AcyclicFromRoots, Build, BuildAll, AppsOf, ChildrenOf, ContainersOf;
    var depth;
    c, depth := OccursInForest(t, n);
    NodeFields(t, c, depth);
  }

  /** And, in link order, exactly the existing apps that an app link names below it. */
  lemma ForestApps(t: Tables, n: Node) returns (at: seq<nat>)
    requires AcyclicFromRoots(t) && n.ComponentNode? && Occurs(n, Forest(t))
    ensures forall k, m :: 0 <= k < m < |at| ==> at[k] < at[m]
    ensures forall i: nat :: i in at <==>
              && i < |t.links| && t.links[i].childType == "app" && t.links[i].parentID == n.id
              && exists a :: a in t.apps && a.id == t.links[i].childID
    ensures |n.apps| == |at|
    ensures forall k :: 0 <= k < |at| ==>
              && at[k] < |t.links|
              && exists j :: 0 <= j < |t.apps| && t.apps[j].id == t.links[at[k]].childID
                             && (forall m :: j < m < |t.apps| ==> t.apps[m].id != t.apps[j].id)
                             && n.apps[k] == AppRef(t.apps[j].id, t.apps[j].name, "/api/v1/icons/" + t.apps[j].profileID)
  {
    hide FindApp, ToRef, Occurs, AcyclicFromRoots, Build, BuildAll, AppsOf, ChildrenOf, ContainersOf;
    var c, depth := OccursInForest(t, n);
    NodeFields(t, c, depth);
    at := AppsOfIs(t.apps, t.links, n.id);
    forall id {
      FindAppIs(t.apps, id);
    }
    forall k | 0 <= k < |at|
      ensures at[k] < |t.links|
      ensures exists j :: 0 <= j < |t.apps| && t.apps[j].id == t.links[at[k]].childID
                          && (forall m :: j < m < |t.apps| ==> t.apps[m].id != t.apps[j].id)
                          && n.apps[k] == AppRef(t.apps[j].id, t.apps[j].name, "/api/v1/icons/" + t.apps[j].profileID)
    {
      assert ShowsApp(t.apps, t.links[at[k]].childID, n.apps[k]);
    }
  }

  /** Its children are first, in link order, the nodes of the existing components that a component link names below it. */
  lemma ForestChildren(t: Tables, n: Node) returns (at: seq<nat>)
    requires AcyclicFromRoots(t) && n.ComponentNode? && Occurs(n, Forest(t))
    ensures forall k, m :: 0 <= k < m < |at| ==> at[k] < at[m]
    ensures forall i: nat :: i in at <==>
              && i < |t.links| && t.links[i].childType != "app" && t.links[i].childType != "container"
              && t.links[i].parentID == n.id && exists c :: c in t.components && c.id == t.links[i].childID
    ensures |at| <= |n.children|
    ensures forall k :: 0 <= k < |n.children| ==> (n.children[k].ComponentNode? <==> k < |at|)
    ensures forall k :: 0 <= k < |at| ==> at[k] < |t.links| && n.children[k].id == t.links[at[k]].childID
  {
    hide FindComponent, Occurs, AcyclicFromRoots, Build, BuildAll, AppsOf, ChildrenOf, ContainersOf;
    var c, depth := OccursInForest(t, n);
    NodeFields(t, c, depth);
    NodeChildren(t, c, depth);
    at := ChildrenInOrder(t.components, t.links, n.id);
    forall id {
      FindComponentIs(t.components, id);
    }
    forall k | |at| <= k < |n.children| ensures n.children[k].ContainerNode? {
      assert n.children[k] == ToLeaf(t, ContainersOf(t.containers, n.id)[k - |at|]);
    }
  }

  /** Its last children are, in table order, its containers. */
  lemma ForestLeaves(t: Tables, n: Node) returns (at: seq<nat>)
    requires AcyclicFromRoots(t) && n.ComponentNode? && Occurs(n, Forest(t))
    ensures forall k, m :: 0 <= k < m < |at| ==> at[k] < at[m]
    ensures forall i: nat :: i in at <==> i < |t.containers| && t.containers[i].engineID == n.id
    ensures |at| <= |n.children|
    ensures forall k :: 0 <= k < |at| ==>
              && at[k] < |t.containers|
              && var leaf, ct := n.children[|n.children| - |at| + k], t.containers[at[k]];
                 leaf.ContainerNode? && leaf.id == ct.id && leaf.name == ct.name && leaf.status == ct.status
  {
    hide Occurs, AcyclicFromRoots, Build, BuildAll, AppsOf, ChildrenOf, ContainersOf;
    var c, depth := OccursInForest(t, n);
    NodeFields(t, c, depth);
    NodeChildren(t, c, depth);
    at := ContainersOfIs(t.containers, n.id);
    var kids, cts := ChildrenOf(t.components, t.links, n.id), ContainersOf(t.containers, n.id);
    forall k | 0 <= k < |at|
      ensures n.children[|n.children| - |at| + k] == ToLeaf(t, cts[k]) && cts[k] == t.containers[at[k]]
    {
      assert n.children[|kids| + k] == ToLeaf(t, cts[k]);
    }
  }

  /** A container shows the app of the first app link below it that names an existing app. */
  lemma ForestLeafApp(t: Tables, n: Node, leaf: Node) returns (first: Option<nat>)
    requires AcyclicFromRoots(t) && n.ComponentNode? && Occurs(n, Forest(t)) && leaf in n.children && leaf.ContainerNode?
    ensures first.None? <==> leaf.app.None?
    ensures forall i: nat ::
              (i < |t.links| && t.links[i].childType == "app" && t.links[i].parentID == leaf.id
               && exists a :: a in t.apps && a.id == t.links[i].childID)
              ==> first.Some? && first.value <= i
    ensures first.Some? ==>
              && first.value < |t.links|
              && t.links[first.value].childType == "app" && t.links[first.value].parentID == leaf.id
              && exists j :: 0 <= j < |t.apps| && t.apps[j].id == t.links[first.value].childID
                             && (forall m :: j < m < |t.apps| ==> t.apps[m].id != t.apps[j].id)
                             && leaf.app == Some(AppRef(t.apps[j].id, t.apps[j].name, "/api/v1/icons/" + t.apps[j].profileID))
  {
    hide FindApp, ToRef, Occurs, AcyclicFromRoots, Build, BuildAll, AppsOf, ChildrenOf, ContainersOf;
    var c, depth := OccursInForest(t, n);
    NodeFields(t, c, depth);
    NodeChildren(t, c, depth);
    var kids := ChildrenOf(t.components, t.links, n.id);
    var k :| 0 <= k < |n.children| && n.children[k] == leaf;
    assert leaf == ToLeaf(t, ContainersOf(t.containers, n.id)[k - |kids|]);
    var at := AppsOfIs(t.apps, t.links, leaf.id);
    forall id {
      FindAppIs(t.apps, id);
    }
    first := if at == [] then None else Some(at[0]);
    if at != [] {
      assert at[0] in at && ShowsApp(t.apps, t.links[at[0]].childID, AppsOf(t.apps, t.links, leaf.id)[0]);
    }
  }

  /** The trees are those of the components that no component link names as a child, in table order. */
  lemma ForestRoots(t: Tables) returns (at: seq<nat>)
    requires AcyclicFromRoots(t)
    ensures forall k, m :: 0 <= k < m < |at| ==> at[k] < at[m]
    ensures forall i: nat :: i in at <==>
              && i < |t.components|
              && forall l :: l in t.links && l.childID == t.components[i].id ==> l.childType == "app" || l.childType == "container"
    ensures |Forest(t)| == |at|
    ensures forall k :: 0 <= k < |at| ==>
              at[k] < |t.components| && Forest(t)[k].ComponentNode? && Forest(t)[k].id == t.components[at[k]].id
  {
    hide AcyclicFromRoots, Build, BuildAll, RootsOf, IsChild;
    TerminatesIffAcyclic(t);
    at := RootsInOrder(t.components, t.links);
    forall i: nat | i < |t.components| ensures IsChild(t.links, t.components[i].id) <==>
      exists l :: l in t.links && l.childID == t.components[i].id && l.childType != "app" && l.childType != "container"
    {
      IsChildIff(t.links, t.components[i].id);
    }
    BuiltAll(t, RootsOf(t.components, t.links), |t.components|);
    forall k | 0 <= k < |at| ensures Forest(t)[k].ComponentNode? && Forest(t)[k].id == t.components[at[k]].id {
      NodeFields(t, RootsOf(t.components, t.links)[k], |t.components|);
    }
  }

  // ---- The handler ----------------------------------------------------------

  /** A Go map lookup of a slice: a missing key reads as the empty slice. */
  function Entries<T>(m: map<string, seq<T>>, key: string): seq<T> {
    if key in m then m[key] else []
  }

  /** The handler's lookup maps hold what the specification functions compute from the tables. */
  ghost predicate Indexed(t: Tables, appsByParent: map<string, seq<AppRef>>,
                          childrenByParent: map<string, seq<Component>>, containersByEngine: map<string, seq<Container>>)
  {
    forall id ::
      && Entries(appsByParent, id) == AppsOf(t.apps, t.links, id)
      && Entries(childrenByParent, id) == ChildrenOf(t.components, t.links, id)
      && Entries(containersByEngine, id) == ContainersOf(t.containers, id)
  }

  method IndexApps(apps: seq<App>) returns (appByID: map<string, App>)
    ensures forall id :: FindApp(apps, id) == if id in appByID then Some(appByID[id]) else None
  {
    appByID := map[];
    for i := 0 to |apps|
      invariant forall id :: FindApp(apps[..i], id) == if id in appByID then Some(appByID[id]) else None
    {
      assert apps[..i + 1][..i] == apps[..i];
      appByID := appByID[apps[i].id := apps[i]];
    }
    assert apps[..|apps|] == apps;
  }

  method IndexComponents(cs: seq<Component>) returns (compByID: map<string, Component>)
    ensures forall id :: FindComponent(cs, id) == if id in compByID then Some(compByID[id]) else None
  {
    compByID := map[];
    for i := 0 to |cs|
      invariant forall id :: FindComponent(cs[..i], id) == if id in compByID then Some(compByID[id]) else None
    {
      assert cs[..i + 1][..i] == cs[..i];
      compByID := compByID[cs[i].id := cs[i]];
    }
    assert cs[..|cs|] == cs;
  }

  method GroupContainers(cs: seq<Container>) returns (containersByEngine: map<string, seq<Container>>)
    ensures forall id :: Entries(containersByEngine, id) == ContainersOf(cs, id)
  {
    containersByEngine := map[];
    for i := 0 to |cs|
      invariant forall id :: Entries(containersByEngine, id) == ContainersOf(cs[..i], id)
    {
      assert cs[..i + 1][..i] == cs[..i];
      var c := cs[i];
      containersByEngine := containersByEngine[c.engineID := Entries(containersByEngine, c.engineID) + [c]];
    }
    assert cs[..|cs|] == cs;
  }

  /** Pass 1: apps grouped by parent. */
  method GroupApps(ghost apps: seq<App>, links: seq<Link>, appByID: map<string, App>)
    returns (appsByParent: map<string, seq<AppRef>>)
    requires forall id :: FindApp(apps, id) == if id in appByID then Some(appByID[id]) else None
    ensures forall id :: Entries(appsByParent, id) == AppsOf(apps, links, id)
  {
    appsByParent := map[];
    for i := 0 to |links|
      invariant forall id :: Entries(appsByParent, id) == AppsOf(apps, links[..i], id)
    {
      assert links[..i + 1][..i] == links[..i];
      var l := links[i];
      if l.childType == "app" && l.childID in appByID {
        appsByParent := appsByParent[l.parentID := Entries(appsByParent, l.parentID) + [ToRef(appByID[l.childID])]];
      }
    }
    assert links[..|links|] == links;
  }

  /** Pass 2: component children grouped by parent. */
  method GroupChildren(ghost cs: seq<Component>, links: seq<Link>, compByID: map<string, Component>)
    returns (childrenByParent: map<string, seq<Component>>)
    requires forall id :: FindComponent(cs, id) == if id in compByID then Some(compByID[id]) else None
    ensures forall id :: Entries(childrenByParent, id) == ChildrenOf(cs, links, id)
  {
    childrenByParent := map[];
    for i := 0 to |links|
      invariant forall id :: Entries(childrenByParent, id) == ChildrenOf(cs, links[..i], id)
    {
      assert links[..i + 1][..i] == links[..i];
      var l := links[i];
      if Structural(l) && l.childID in compByID {
        childrenByParent := childrenByParent[l.parentID := Entries(childrenByParent, l.parentID) + [compByID[l.childID]]];
      }
    }
    assert links[..|links|] == links;
  }

  method ChildIDs(links: seq<Link>) returns (childIDs: set<string>)
    ensures forall id :: id in childIDs <==> IsChild(links, id)
  {
    childIDs := {};
    for i := 0 to |links|
      invariant forall id :: id in childIDs <==> exists k :: 0 <= k < i && Structural(links[k]) && links[k].childID == id
    {
      if Structural(links[i]) {
        childIDs := childIDs + {links[i].childID};
      }
    }
  }

  /** The handler: index the tables, then build one tree for every component that is nobody's child. */
  method GetTopology(t: Tables) returns (result: seq<Node>)
    requires AcyclicFromRoots(t)
    ensures result == Forest(t)
  {
    var appByID := IndexApps(t.apps);
    var compByID := IndexComponents(t.components);
    var containersByEngine := GroupContainers(t.containers);
    var appsByParent := GroupApps(t.apps, t.links, appByID);
    var childrenByParent := GroupChildren(t.components, t.links, compByID);
    var childIDs := ChildIDs(t.links);

    TerminatesIffAcyclic(t);
    result := BuildRoots(t, appsByParent, childrenByParent, containersByEngine, childIDs, t.components);
  }

  method BuildRoots(ghost t: Tables, appsByParent: map<string, seq<AppRef>>,
                    childrenByParent: map<string, seq<Component>>, containersByEngine: map<string, seq<Container>>,
                    childIDs: set<string>, cs: seq<Component>) returns (result: seq<Node>)
    requires Indexed(t, appsByParent, childrenByParent, containersByEngine)
    requires forall id :: id in childIDs <==> IsChild(t.links, id)
    requires BuildAll(t, RootsOf(cs, t.links), |t.components|).Some?
    ensures BuildAll(t, RootsOf(cs, t.links), |t.components|) == Some(result)
  {
    result := [];
    for i := 0 to |cs|
      invariant BuildAll(t, RootsOf(cs[..i], t.links), |t.components|) == Some(result)
    {
      RootsOfSnoc(cs, t.links, i);
      if cs[i].id !in childIDs {
        BuildAllPrefix(t, RootsOf(cs, t.links), |t.components|, |RootsOf(cs[..i], t.links)| + 1);
        var node := BuildNode(t, appsByParent, childrenByParent, containersByEngine, cs[i], |t.components|);
        BuildAllSnoc(t, RootsOf(cs[..i], t.links), result, cs[i], node, |t.components|);
        result := result + [node];
      }
    }
    assert cs[..|cs|] == cs;
  }

  lemma BuildAllSnoc(t: Tables, cs: seq<Component>, nodes: seq<Node>, c: Component, node: Node, fuel: nat)
    requires BuildAll(t, cs, fuel) == Some(nodes) && Build(t, c, fuel) == Some(node)
    ensures BuildAll(t, cs + [c], fuel) == Some(nodes + [node])
  {
  }

  lemma RootsOfSnoc(cs: seq<Component>, links: seq<Link>, i: nat)
    requires i < |cs|
    ensures IsChild(links, cs[i].id) ==> RootsOf(cs[..i + 1], links) == RootsOf(cs[..i], links)
    ensures !IsChild(links, cs[i].id) ==>
              && RootsOf(cs[..i + 1], links) == RootsOf(cs[..i], links) + [cs[i]]
              && |RootsOf(cs[..i], links)| < |RootsOf(cs, links)|
              && RootsOf(cs, links)[|RootsOf(cs[..i], links)|] == cs[i]
  {
    assert cs[..i + 1][..i] == cs[..i];
    RootsOfPrefix(cs, links, i + 1);
  }

  lemma {:induction false} BuildAllPrefix(t: Tables, cs: seq<Component>, fuel: nat, n: nat)
    requires BuildAll(t, cs, fuel).Some? && 0 < n <= |cs|
    ensures Build(t, cs[n - 1], fuel).Some?
  {
    if n < |cs| {
      BuildAllPrefix(t, cs[..|cs| - 1], fuel, n);
    }
  }

  lemma {:induction false} RootsOfPrefix(cs: seq<Component>, links: seq<Link>, n: nat)
    requires n <= |cs|
    ensures RootsOf(cs[..n], links) <= RootsOf(cs, links)
  {
    if n < |cs| {
      RootsOfPrefix(cs[..|cs| - 1], links, n);
      assert cs[..|cs| - 1][..n] == cs[..n];
    } else {
      assert cs[..n] == cs;
    }
  }

  method BuildNode(ghost t: Tables, appsByParent: map<string, seq<AppRef>>,
                   childrenByParent: map<string, seq<Component>>, containersByEngine: map<string, seq<Container>>,
                   c: Component, ghost fuel: nat) returns (node: Node)
    requires Indexed(t, appsByParent, childrenByParent, containersByEngine)
    requires Build(t, c, fuel).Some?
    ensures Build(t, c, fuel) == Some(node)
    decreases fuel, 0
  {
    var apps := Entries(appsByParent, c.id);
    var childNodes := BuildChildren(t, appsByParent, childrenByParent, containersByEngine,
                                    Entries(childrenByParent, c.id), fuel - 1);
    var leaves := ContainerLeaves(t, appsByParent, Entries(containersByEngine, c.id));
    childNodes := childNodes + leaves;
    var meta := if c.meta.Some? then c.meta.value else "";
    node := ComponentNode(c.id, c.name, c.kind, c.status, c.ip, c.notes, meta, childNodes, apps);
  }

  method BuildChildren(ghost t: Tables, appsByParent: map<string, seq<AppRef>>,
                       childrenByParent: map<string, seq<Component>>, containersByEngine: map<string, seq<Container>>,
                       kids: seq<Component>, ghost fuel: nat) returns (childNodes: seq<Node>)
    requires Indexed(t, appsByParent, childrenByParent, containersByEngine)
    requires BuildAll(t, kids, fuel).Some?
    ensures BuildAll(t, kids, fuel) == Some(childNodes)
    decreases fuel, 1
  {
    childNodes := [];
    for i := 0 to |kids|
      invariant BuildAll(t, kids[..i], fuel) == Some(childNodes)
    {
      BuildAllPrefix(t, kids, fuel, i + 1);
      var child := BuildNode(t, appsByParent, childrenByParent, containersByEngine, kids[i], fuel);
      childNodes := childNodes + [child];
      assert kids[..i + 1][..i] == kids[..i];
    }
    assert kids[..|kids|] == kids;
  }

  /** Discovered containers become leaves, each with the first app linked to it. */
  method ContainerLeaves(ghost t: Tables, appsByParent: map<string, seq<AppRef>>, cts: seq<Container>)
    returns (leaves: seq<Node>)
    requires forall id :: Entries(appsByParent, id) == AppsOf(t.apps, t.links, id)
    ensures leaves == Leaves(t, cts)
  {
    leaves := [];
    for i := 0 to |cts|
      invariant leaves == Leaves(t, cts[..i])
    {
      var ct := cts[i];
      assert cts[..i + 1][..i] == cts[..i];
      var linked := Entries(appsByParent, ct.id);
      var leaf := ContainerNode(ct.id, ct.name, ct.status, None);
      if |linked| > 0 {
        leaf := leaf.(app := Some(linked[0]));
      }
      leaves := leaves + [leaf];
    }
    assert cts[..|cts|] == cts;
  }
}
