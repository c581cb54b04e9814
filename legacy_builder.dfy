/**
 * The weapon builder of the older `AttachmentSystem` module.  Its links
 * carry at most one child class and one live child instance each; every
 * attachment actor owns a mesh component (the constructor always creates
 * one); a child that exists is always enqueued and registered, attached
 * to its socket or not.  Besides building and clearing, it can turn a
 * built attachment into a stored tree of classes, categories and offsets,
 * and spawn a fresh tree of attachments from such stored data.
 *
 * As in the plugin's builder, actors live in an arena `world` keyed by
 * integer handles, and what only the engine knows is a field of an
 * `Engine` value.
 */
module LegacyBuilder {
  import opened AttachmentTypes
  import opened ActorGraph
  import WeaponBuilder

  /** `FAttachmentLink` as the older builder uses it: the class to spawn
   *  (null when unset), the offset relative to the socket, and the live
   *  child (null when none). */
  datatype SingleLink = SingleLink(childClass: Option<ClassId>, offset: Transform, childInstance: Option<Handle>)

  /** Where a mesh hangs: under the weapon's root mesh (`parent ==
   *  Nothing`) or under an attachment's mesh at a socket, with the
   *  transform last applied to it. */
  datatype MountPoint = MountPoint(parent: Option<MeshRef>, socket: Option<string>, transform: Transform)

  /** An `AAttachment` of the older module: its class, the category of its
   *  info row, its links, and where its mesh hangs. */
  datatype Node = Node(cls: ClassId, category: Category, links: seq<SingleLink>, mount: Option<MountPoint>)

  /** The engine's answers. */
  datatype Engine = Engine(
    /** `Weapon && Weapon->GetRootComponentMesh()` */
    weaponRoot: bool,
    /** The defaults of an actor of a class, with its info row loaded. */
    template: ClassId -> Node,
    /** Whether `SpawnActor` of a class succeeds when the next free handle is the second argument. */
    spawnSucceeds: (ClassId, Handle) -> bool,
    /** `DoesSocketExist` on an actor's mesh. */
    socketExists: (Handle, string) -> bool)

  /** The actor a successful spawn of class `c` yields: the class's
   *  defaults, with no live child and not attached. */
  function Spawned(engine: Engine, c: ClassId): (n: Node)
    ensures n.cls == c && n.mount.Nothing?
    ensures forall j :: 0 <= j < |n.links| ==> n.links[j].childInstance.Nothing?
  {
    var t := engine.template(c);
    Node(c, t.category, seq(|t.links|, j requires 0 <= j < |t.links| => t.links[j].(childInstance := Nothing)), Nothing)
  }

  /** The live children of an actor's links. */
  ghost function Children(links: seq<SingleLink>): set<Handle>
  {
    set j | 0 <= j < |links| && links[j].childInstance.Some? :: links[j].childInstance.value
  }

  /** The attachment graph of a world. */
  ghost function Graph(world: map<Handle, Node>): Succ
  {
    map h | h in world :: Children(world[h].links)
  }

  /** Every actor's live children are actors of the world. */
  ghost predicate Linked(world: map<Handle, Node>)
  {
    forall h :: h in world ==> Children(world[h].links) <= world.Keys
  }

  /** Handles below `next` are taken and live children are actors. */
  ghost predicate WorldOk(world: map<Handle, Node>, next: Handle)
  {
    (forall h :: h in world ==> h < next) && Linked(world)
  }

  /** Registered actors are actors of the world, none twice, each with its
   *  mesh entry. */
  ghost predicate SpawnedOk(world: map<Handle, Node>, spawned: seq<Handle>, meshes: map<Handle, MeshRef>)
  {
    (forall x :: x in spawned ==> x in world)
    && WeaponBuilder.Distinct(spawned)
    && meshes.Keys == (set x | x in spawned)
    && forall x :: x in meshes ==> meshes[x] == MeshOf(x)
  }

  /** `w2` has every actor of `w1`, each with at least the live children
   *  it had. */
  ghost predicate Grown(w1: map<Handle, Node>, w2: map<Handle, Node>)
  {
    w1.Keys <= w2.Keys && forall h :: h in w1 ==> Children(w1[h].links) <= Children(w2[h].links)
  }

  lemma PathGrown(w1: map<Handle, Node>, w2: map<Handle, Node>, p: seq<Handle>)
    requires Grown(w1, w2) && IsPath(Graph(w1), p)
    ensures IsPath(Graph(w2), p)
  {
    forall k | 0 <= k < |p| - 1
      ensures p[k] in Graph(w2) && p[k + 1] in Graph(w2)[p[k]]
    {
      assert p[k] in Graph(w1) && p[k + 1] in Graph(w1)[p[k]];
    }
  }

  /** Adding live children loses no reachability. */
  lemma ReachedGrown(w1: map<Handle, Node>, w2: map<Handle, Node>, roots: seq<Handle>)
    requires Grown(w1, w2)
    ensures forall x :: WeaponBuilder.ReachedFrom(Graph(w1), roots, x) ==> WeaponBuilder.ReachedFrom(Graph(w2), roots, x)
  {
    forall x | WeaponBuilder.ReachedFrom(Graph(w1), roots, x)
      ensures WeaponBuilder.ReachedFrom(Graph(w2), roots, x)
    {
      var r :| r in roots && Reachable(Graph(w1), r, x);
      var p :| IsPath(Graph(w1), p) && |p| > 0 && p[0] == r && p[|p| - 1] == x;
      PathGrown(w1, w2, p);
    }
  }

  /** `Link.ChildInstance = h` on the `li`-th link of `current`. */
  function SetInstance(world: map<Handle, Node>, current: Handle, li: nat, h: Handle): (w: map<Handle, Node>)
    requires current in world && li < |world[current].links|
    ensures w.Keys == world.Keys
  {
    var a := world[current];
    world[current := a.(links := a.links[li := a.links[li].(childInstance := Some(h))])]
  }

  /** Setting a null link to a live child adds that child and keeps the
   *  others. */
  lemma SetInstanceChildren(world: map<Handle, Node>, current: Handle, li: nat, h: Handle)
    requires current in world && li < |world[current].links| && world[current].links[li].childInstance.Nothing?
    ensures var w := SetInstance(world, current, li, h);
            Children(w[current].links) == Children(world[current].links) + {h}
            && Grown(world, w)
  {
    var links := world[current].links;
    var links' := SetInstance(world, current, li, h)[current].links;
    forall x | x in Children(links')
      ensures x in Children(links) + {h}
    {
      var j :| 0 <= j < |links'| && links'[j].childInstance.Some? && links'[j].childInstance.value == x;
      if j != li {
        assert links[j] == links'[j];
      }
    }
    forall x | x in Children(links) + {h}
      ensures x in Children(links')
    {
      if x == h {
        assert links'[li].childInstance == Some(h);
      } else {
        var j :| 0 <= j < |links| && links[j].childInstance.Some? && links[j].childInstance.value == x;
        assert j != li && links'[j] == links[j];
      }
    }
  }

  /** `AttachToComponent` followed by setting the transform. */
  function Remount(world: map<Handle, Node>, h: Handle, m: MountPoint): (w: map<Handle, Node>)
    requires h in world
    ensures w.Keys == world.Keys
    ensures forall x :: x in world ==> w[x].links == world[x].links
  {
    world[h := world[h].(mount := Some(m))]
  }

  /** Changing where meshes hang changes no link: the graph is the same. */
  lemma SameLinksGraph(w1: map<Handle, Node>, w2: map<Handle, Node>)
    requires w1.Keys == w2.Keys && forall x :: x in w1 ==> w2[x].links == w1[x].links
    ensures Graph(w2) == Graph(w1)
  {
  }

  /** The live children of the first `n` links are in `v`. */
  ghost predicate LinksIn(links: seq<SingleLink>, n: nat, v: set<Handle>)
    requires n <= |links|
  {
    forall j :: 0 <= j < n && links[j].childInstance.Some? ==> links[j].childInstance.value in v
  }

  lemma LinksInChildren(links: seq<SingleLink>, v: set<Handle>)
    requires LinksIn(links, |links|, v)
    ensures Children(links) <= v
  {
  }

  // ---------------------------------------------------------------------
  // Building.

  /** The state of the breadth-first walk.  `order` lists the visited
   *  actors (those expanded, then the queue), none twice; the registered
   *  actors are exactly the visited ones; each is reached from a base
   *  attachment; and the actors of `done` have every live child visited. */
  ghost predicate Walk(world: map<Handle, Node>, spawned: seq<Handle>, roots: seq<Handle>,
                       order: seq<Handle>, visited: set<Handle>, done: seq<Handle>)
  {
    WeaponBuilder.Enqueued(order, visited) && visited == (set x | x in spawned)
    && (forall x :: x in visited ==> WeaponBuilder.ReachedFrom(Graph(world), roots, x))
    && (forall x :: x in done ==> x in world && Children(world[x].links) <= visited)
  }

  /** A walk with nothing queued and everything expanded registered
   *  exactly what the base attachments reach. */
  lemma WalkDrained(world: map<Handle, Node>, spawned: seq<Handle>, roots: seq<Handle>,
                    expanded: seq<Handle>, visited: set<Handle>)
    requires Walk(world, spawned, roots, expanded, visited, expanded) && roots <= spawned
    ensures forall x :: x in world ==> (x in spawned <==> WeaponBuilder.ReachedFrom(Graph(world), roots, x))
  {
    var g := Graph(world);
    assert Closed(g, visited);
    forall x | x in world && WeaponBuilder.ReachedFrom(g, roots, x)
      ensures x in spawned
    {
      var r :| r in roots && Reachable(g, r, x);
      assert r in spawned;
      ClosedHoldsReachable(g, visited, r, x);
    }
  }

  /** The first queued actor is not among those expanded. */
  lemma HeadFresh(expanded: seq<Handle>, queue: seq<Handle>)
    requires WeaponBuilder.Distinct(expanded + queue) && queue != []
    ensures queue[0] !in expanded
  {
    forall i | 0 <= i < |expanded|
      ensures expanded[i] != queue[0]
    {
      assert (expanded + queue)[i] == expanded[i];
      assert (expanded + queue)[|expanded|] == queue[0];
    }
  }

  // ---------------------------------------------------------------------
  // Clearing and searching from the registered actors.

  /** An actor after `MeshComponent->DetachFromComponent`. */
  function Detached(n: Node): Node
  {
    n.(mount := Nothing)
  }

  /** `w` is `world` after a walk that took the visited set from `visited`
   *  to `v`: each newly visited actor is detached and has all its children
   *  visited, and every other actor is as it was. */
  ghost predicate Cleared(world: map<Handle, Node>, w: map<Handle, Node>, visited: set<Handle>, v: set<Handle>)
  {
    w.Keys == world.Keys && visited <= v <= world.Keys
    && forall x :: x in world ==>
         if x in v - visited then w[x] == Detached(world[x]) && Children(world[x].links) <= v
         else w[x] == world[x]
  }

  lemma ClearedTrans(w0: map<Handle, Node>, w1: map<Handle, Node>, w2: map<Handle, Node>,
                     v0: set<Handle>, v1: set<Handle>, v2: set<Handle>)
    requires Cleared(w0, w1, v0, v1) && Cleared(w1, w2, v1, v2)
    ensures Cleared(w0, w2, v0, v2)
  {
    forall x | x in w0 && x in v2 - v0
      ensures w2[x] == Detached(w0[x]) && Children(w0[x].links) <= v2
    {
      if x in v1 {
        assert w2[x] == w1[x];
      } else {
        assert w1[x] == w0[x];
      }
    }
  }

  /** Detaching changes no link: the graph stays the same. */
  lemma ClearedGraph(world: map<Handle, Node>, w: map<Handle, Node>, visited: set<Handle>, v: set<Handle>)
    requires Cleared(world, w, visited, v)
    ensures Graph(w) == Graph(world)
    ensures Linked(world) ==> Linked(w)
  {
    forall x | x in world
      ensures w[x].links == world[x].links
    {
      if x in v - visited {
        assert w[x] == Detached(world[x]);
      }
    }
  }

  /** Detaching `a`, once all its children are visited, completes the
   *  walk from it. */
  lemma ClearedDetach(world: map<Handle, Node>, w: map<Handle, Node>, visited: set<Handle>, v: set<Handle>, a: Handle)
    requires a in world && a !in visited && Cleared(world, w, visited + {a}, v) && a in v
    requires Children(world[a].links) <= v
    ensures Cleared(world, w[a := Detached(w[a])], visited, v)
  {
    assert w[a] == world[a];
  }

  /** Lines 222-240 on the arena: unless `a` is already visited, visit it,
   *  clear from the live child of every link depth first, then detach its
   *  mesh.  Everything newly visited is reachable from `a`. */
  method ClearAttachmentRecursive(world: map<Handle, Node>, a: Handle, visited: set<Handle>)
    returns (w: map<Handle, Node>, v: set<Handle>)
    requires Linked(world) && a in world && visited <= world.Keys
    ensures Cleared(world, w, visited, v) && a in v
    ensures a in visited ==> w == world && v == visited
    ensures forall x :: x in v - visited ==> Reachable(Graph(world), a, x)
    decreases world.Keys - visited
  {
    if a in visited {
      return world, visited;
    }
    var start := visited + {a};
    ghost var g := Graph(world);
    ReachableSelf(g, a);
    w, v := world, start;
    var links := world[a].links;
    var li := 0;
    while li < |links|
      invariant 0 <= li <= |links|
      invariant Cleared(world, w, start, v) && Linked(w) && a in v
      invariant LinksIn(links, li, v)
      invariant forall x :: x in v - visited ==> Reachable(g, a, x)
    {
      if links[li].childInstance.Some? {
        var child := links[li].childInstance.value;
        assert child in g[a];
        ghost var w1, v1 := w, v;
        ClearedGraph(world, w1, start, v1);
        assert w1.Keys - v1 < world.Keys - visited by {
          assert a in world.Keys - visited && a !in w1.Keys - v1;
        }
        w, v := ClearAttachmentRecursive(w, child, v);
        ClearedTrans(world, w1, w, start, v1, v);
        ClearedGraph(world, w, start, v);
        WeaponBuilder.ReachThroughChild(g, a, child, visited, v1, v);
      }
      li := li + 1;
    }
    LinksInChildren(links, v);
    ClearedDetach(world, w, visited, v, a);
    w := w[a := Detached(w[a])];
  }

  /** Lines 204-208: clear from each registered actor in turn, sharing one
   *  visited set. */
  method ClearFromRoots(world: map<Handle, Node>, roots: seq<Handle>)
    returns (w: map<Handle, Node>, ghost v: set<Handle>)
    requires Linked(world) && forall x :: x in roots ==> x in world
    ensures Cleared(world, w, {}, v)
    ensures forall k :: 0 <= k < |roots| ==> roots[k] in v
    ensures forall x :: x in v ==> WeaponBuilder.ReachedFrom(Graph(world), roots, x)
  {
    ghost var g := Graph(world);
    var visited: set<Handle> := {};
    w := world;
    var i := 0;
    while i < |roots|
      invariant 0 <= i <= |roots|
      invariant Cleared(world, w, {}, visited) && Linked(w)
      invariant forall k :: 0 <= k < i ==> roots[k] in visited
      invariant forall x :: x in visited ==> WeaponBuilder.ReachedFrom(g, roots, x)
    {
      ghost var w1, v1 := w, visited;
      ClearedGraph(world, w1, {}, v1);
      w, visited := ClearAttachmentRecursive(w, roots[i], visited);
      ClearedTrans(world, w1, w, {}, v1, visited);
      ClearedGraph(world, w, {}, visited);
      WeaponBuilder.ReachedFromRoot(g, roots, i, v1, visited);
      i := i + 1;
    }
    v := visited;
  }

  /** A walk that visited every registered actor, and nothing beyond what
   *  they reach, detached exactly what they reach. */
  lemma ClearedExactly(world: map<Handle, Node>, w: map<Handle, Node>, roots: seq<Handle>, v: set<Handle>)
    requires Cleared(world, w, {}, v)
    requires forall k :: 0 <= k < |roots| ==> roots[k] in v
    requires forall x :: x in v ==> WeaponBuilder.ReachedFrom(Graph(world), roots, x)
    ensures w.Keys == world.Keys
    ensures forall x :: x in world ==>
              w[x] == if WeaponBuilder.ReachedFrom(Graph(world), roots, x) then Detached(world[x]) else world[x]
  {
    var g := Graph(world);
    assert Closed(g, v);
    forall x | x in world
      ensures x in v <==> WeaponBuilder.ReachedFrom(g, roots, x)
    {
      if WeaponBuilder.ReachedFrom(g, roots, x) {
        var r :| r in roots && Reachable(g, r, x);
        ClosedHoldsReachable(g, v, r, x);
      }
    }
  }

  /** Lines 210-216: detach every registered mesh, which the walk has
   *  already detached, so nothing changes. */
  method DetachMeshes(ghost world: map<Handle, Node>, cleared: map<Handle, Node>, roots: seq<Handle>,
                      meshes: map<Handle, MeshRef>)
    returns (w: map<Handle, Node>)
    requires SpawnedOk(world, roots, meshes) && cleared.Keys == world.Keys
    requires forall x :: x in world ==>
               cleared[x] == if WeaponBuilder.ReachedFrom(Graph(world), roots, x) then Detached(world[x]) else world[x]
    ensures w == cleared
  {
    w := cleared;
    var j := 0;
    while j < |roots|
      invariant 0 <= j <= |roots|
      invariant w == cleared
    {
      var mesh := meshes[roots[j]];
      if mesh.owner in w {
        ghost var r := roots[j];
        ReachableSelf(Graph(world), r);
        assert WeaponBuilder.ReachedFrom(Graph(world), roots, r);
        w := w[mesh.owner := Detached(w[mesh.owner])];
      }
      j := j + 1;
    }
  }

  /** The actors newly visited between `visited` and `v` have a category
   *  other than `target`, and all their children are visited. */
  ghost predicate Searched(world: map<Handle, Node>, target: Category, visited: set<Handle>, v: set<Handle>)
  {
    visited <= v <= world.Keys
    && forall x :: x in v - visited ==> world[x].category != target && Children(world[x].links) <= v
  }

  /** Lines 255-284: unless `a` is already visited, visit it; return it if
   *  its category is `target`; otherwise go through the links, returning
   *  the first live child whose category is `target` (visited or not) or
   *  the first find of a search from a live child. */
  method FindAttachmentRecursive(world: map<Handle, Node>, a: Handle, target: Category, visited: set<Handle>)
    returns (found: Option<Handle>, v: set<Handle>)
    requires Linked(world) && a in world && visited <= world.Keys
    ensures visited <= v <= world.Keys && a in v
    ensures found.Some? ==>
              found.value in world && world[found.value].category == target
              && Reachable(Graph(world), a, found.value)
    ensures found.Nothing? ==> Searched(world, target, visited, v)
    decreases world.Keys - visited
  {
    found := Nothing;
    if a in visited {
      return Nothing, visited;
    }
    var start := visited + {a};
    ghost var g := Graph(world);
    ReachableSelf(g, a);
    v := start;
    if world[a].category == target {
      return Some(a), v;
    }
    var links := world[a].links;
    var li := 0;
    while li < |links|
      invariant 0 <= li <= |links|
      invariant start <= v && Searched(world, target, start, v)
      invariant LinksIn(links, li, v)
    {
      if links[li].childInstance.Some? {
        var child := links[li].childInstance.value;
        assert child in g[a];
        if world[child].category == target {
          ReachableStep(g, a, a, child);
          return Some(child), v;
        }
        ghost var v1 := v;
        assert world.Keys - v1 < world.Keys - visited by {
          assert a in world.Keys - visited && a !in world.Keys - v1;
        }
        var f;
        f, v := FindAttachmentRecursive(world, child, target, v);
        if f.Some? {
          ReachablePrepend(g, a, child, f.value);
          return f, v;
        }
      }
      li := li + 1;
    }
    LinksInChildren(links, v);
  }

  /** A search that visited every registered actor without finding
   *  category `c` has seen everything they reach. */
  lemma NothingReached(world: map<Handle, Node>, c: Category, roots: seq<Handle>, v: set<Handle>)
    requires Searched(world, c, {}, v)
    requires forall k :: 0 <= k < |roots| ==> roots[k] in v
    ensures forall x :: x in world && WeaponBuilder.ReachedFrom(Graph(world), roots, x) ==> world[x].category != c
  {
    var g := Graph(world);
    assert Closed(g, v);
    forall x | x in world && WeaponBuilder.ReachedFrom(g, roots, x)
      ensures world[x].category != c
    {
      var r :| r in roots && Reachable(g, r, x);
      ClosedHoldsReachable(g, v, r, x);
    }
  }

  // ---------------------------------------------------------------------
  // Stored attachment data.

  /** `UStoredAttachmentData`: the class (null when unset), the category,
   *  the offset of the mesh from its parent's socket, and the stored
   *  children. */
  datatype StoredData = StoredData(cls: Option<ClassId>, category: Category, offset: Transform, children: seq<StoredData>)

  /** Every actor has a rank and every live child is an actor ranked below
   *  its parent, so following links from any actor comes to an end. */
  ghost predicate Ranked(world: map<Handle, Node>, rank: map<Handle, nat>)
  {
    world.Keys <= rank.Keys
    && forall h, j :: h in world && 0 <= j < |world[h].links| && world[h].links[j].childInstance.Some? ==>
         world[h].links[j].childInstance.value in world
         && rank[world[h].links[j].childInstance.value] < rank[h]
  }

  /** Lines 301-320 for a non-null attachment: its class and category, the
   *  default offset, and the stored children of its links. */
  function StoreNode(world: map<Handle, Node>, rank: map<Handle, nat>, h: Handle): StoredData
    requires Ranked(world, rank) && h in world
    decreases rank[h], 1
  {
    StoredData(Some(world[h].cls), world[h].category, Identity, StoreLinks(world, rank, h, 0))
  }

  /** Lines 308-318 from the `m`-th link of `h` on: skip a null child;
   *  otherwise store the child and give it the link's offset. */
  function StoreLinks(world: map<Handle, Node>, rank: map<Handle, nat>, h: Handle, m: nat): seq<StoredData>
    requires Ranked(world, rank) && h in world && m <= |world[h].links|
    decreases rank[h], 0, |world[h].links| - m
  {
    if m == |world[h].links| then []
    else
      var l := world[h].links[m];
      (if l.childInstance.Some? then [StoreNode(world, rank, l.childInstance.value).(offset := l.offset)] else [])
      + StoreLinks(world, rank, h, m + 1)
  }

  /** `BuildStoredDataFromAttachment`: null for a null attachment, else
   *  the stored tree of the attachment. */
  function BuildStoredDataFromAttachment(world: map<Handle, Node>, rank: map<Handle, nat>, a: Option<Handle>): (r: Option<StoredData>)
    requires Ranked(world, rank) && (a.Some? ==> a.value in world)
    ensures r.Nothing? <==> a.Nothing?
    ensures r.Some? ==> r.value.cls == Some(world[a.value].cls) && r.value.category == world[a.value].category
  {
    if a.Nothing? then Nothing else Some(StoreNode(world, rank, a.value))
  }

  /** The links from the `m`-th on that hold a live child, in order. */
  function LiveLinks(links: seq<SingleLink>, m: nat): (r: seq<SingleLink>)
    requires m <= |links|
    decreases |links| - m
  {
    if m == |links| then []
    else (if links[m].childInstance.Some? then [links[m]] else []) + LiveLinks(links, m + 1)
  }

  /** The live links from the `m`-th on are live links of `links` at or
   *  after `m`, in order. */
  lemma {:induction false} LiveLinksFrom(links: seq<SingleLink>, m: nat)
    requires m <= |links|
    decreases |links| - m
    ensures forall k :: 0 <= k < |LiveLinks(links, m)| ==>
              LiveLinks(links, m)[k].childInstance.Some?
              && exists j :: m <= j < |links| && links[j] == LiveLinks(links, m)[k]
  {
    if m < |links| {
      LiveLinksFrom(links, m + 1);
      var rest := LiveLinks(links, m + 1);
      var head: seq<SingleLink> := if links[m].childInstance.Some? then [links[m]] else [];
      assert LiveLinks(links, m) == head + rest;
      forall k | 0 <= k < |head + rest|
        ensures (head + rest)[k].childInstance.Some?
                && exists j :: m <= j < |links| && links[j] == (head + rest)[k]
      {
        if k < |head| {
          assert (head + rest)[k] == links[m];
        } else {
          assert (head + rest)[k] == rest[k - |head|];
        }
      }
    }
  }

  /** The stored children are one per live link, in link order: the stored
   *  tree of that link's child, carrying that link's offset. */
  lemma {:induction false} StoredChildrenInOrder(world: map<Handle, Node>, rank: map<Handle, nat>, h: Handle, m: nat)
    requires Ranked(world, rank) && h in world && m <= |world[h].links|
    decreases |world[h].links| - m
    ensures var ds := StoreLinks(world, rank, h, m);
            var ls := LiveLinks(world[h].links, m);
            |ds| == |ls|
            && forall k :: 0 <= k < |ds| ==>
                 ls[k].childInstance.Some? && ls[k].childInstance.value in world
                 && ds[k] == StoreNode(world, rank, ls[k].childInstance.value).(offset := ls[k].offset)
  {
    var links := world[h].links;
    if m < |links| {
      StoredChildrenInOrder(world, rank, h, m + 1);
      var l := links[m];
      var rest := StoreLinks(world, rank, h, m + 1);
      var lrest := LiveLinks(links, m + 1);
      if l.childInstance.Some? {
        var d := StoreNode(world, rank, l.childInstance.value).(offset := l.offset);
        assert StoreLinks(world, rank, h, m) == [d] + rest;
        assert LiveLinks(links, m) == [l] + lrest;
        forall k | 0 <= k < 1 + |rest|
          ensures ([l] + lrest)[k].childInstance.Some? && ([l] + lrest)[k].childInstance.value in world
                  && ([d] + rest)[k] == StoreNode(world, rank, ([l] + lrest)[k].childInstance.value).(offset := ([l] + lrest)[k].offset)
        {
          if k > 0 {
            assert ([d] + rest)[k] == rest[k - 1] && ([l] + lrest)[k] == lrest[k - 1];
          }
        }
      } else {
        assert StoreLinks(world, rank, h, m) == rest;
        assert LiveLinks(links, m) == lrest;
      }
    }
  }

  /** The class and category an actor contributes to a stored tree. */
  ghost function Label(n: Node): (Option<ClassId>, Category)
  {
    (Some(n.cls), n.category)
  }

  /** The classes and categories named anywhere in a stored tree. */
  ghost function Labels(d: StoredData): set<(Option<ClassId>, Category)>
  {
    {(d.cls, d.category)} + LabelsOf(d.children)
  }

  ghost function LabelsOf(ds: seq<StoredData>): set<(Option<ClassId>, Category)>
  {
    if ds == [] then {} else Labels(ds[0]) + LabelsOf(ds[1..])
  }

  /** The classes and categories of the actors reachable from `h`. */
  ghost function ReachedLabels(world: map<Handle, Node>, h: Handle): set<(Option<ClassId>, Category)>
  {
    set x | x in world && Reachable(Graph(world), h, x) :: Label(world[x])
  }

  lemma LabelsOfCons(d: StoredData, ds: seq<StoredData>)
    ensures LabelsOf([d] + ds) == Labels(d) + LabelsOf(ds)
  {
    assert ([d] + ds)[0] == d && ([d] + ds)[1..] == ds;
  }

  /** What the actors reachable from a child reach is reachable from the
   *  parent. */
  lemma ReachedLabelsChild(world: map<Handle, Node>, h: Handle, c: Handle)
    requires h in world && c in Children(world[h].links)
    ensures ReachedLabels(world, c) <= ReachedLabels(world, h)
  {
    var g := Graph(world);
    forall x | x in world && Reachable(g, c, x)
      ensures Reachable(g, h, x)
    {
      ReachablePrepend(g, h, c, x);
    }
  }

  /** Everything a stored tree names is the class and category of an
   *  actor reachable from the stored one. */
  lemma {:induction false} LabelsWithin(world: map<Handle, Node>, rank: map<Handle, nat>, h: Handle)
    requires Ranked(world, rank) && h in world
    decreases rank[h], 1
    ensures Labels(StoreNode(world, rank, h)) <= ReachedLabels(world, h)
  {
    ReachableSelf(Graph(world), h);
    LinkLabelsWithin(world, rank, h, 0);
  }

  lemma {:induction false} LinkLabelsWithin(world: map<Handle, Node>, rank: map<Handle, nat>, h: Handle, m: nat)
    requires Ranked(world, rank) && h in world && m <= |world[h].links|
    decreases rank[h], 0, |world[h].links| - m
    ensures LabelsOf(StoreLinks(world, rank, h, m)) <= ReachedLabels(world, h)
  {
    var links := world[h].links;
    if m < |links| {
      LinkLabelsWithin(world, rank, h, m + 1);
      var rest := StoreLinks(world, rank, h, m + 1);
      var l := links[m];
      if l.childInstance.Some? {
        var c := l.childInstance.value;
        var d := StoreNode(world, rank, c);
        LabelsWithin(world, rank, c);
        assert c in Children(links);
        ReachedLabelsChild(world, h, c);
        assert Labels(d.(offset := l.offset)) == Labels(d);
        LabelsOfCons(d.(offset := l.offset), rest);
        assert StoreLinks(world, rank, h, m) == [d.(offset := l.offset)] + rest;
      } else {
        assert StoreLinks(world, rank, h, m) == rest;
      }
    }
  }

  /** The stored tree of the `m`-th links on holds everything the tree of
   *  the child of the `j`-th link names, for `j` at or after `m`. */
  lemma {:induction false} ChildLabelsIn(world: map<Handle, Node>, rank: map<Handle, nat>, h: Handle, m: nat, j: nat)
    requires Ranked(world, rank) && h in world && m <= j < |world[h].links|
    requires world[h].links[j].childInstance.Some?
    decreases j - m
    ensures Labels(StoreNode(world, rank, world[h].links[j].childInstance.value)) <= LabelsOf(StoreLinks(world, rank, h, m))
  {
    var links := world[h].links;
    var l := links[m];
    var rest := StoreLinks(world, rank, h, m + 1);
    if l.childInstance.Some? {
      var d := StoreNode(world, rank, l.childInstance.value);
      assert StoreLinks(world, rank, h, m) == [d.(offset := l.offset)] + rest;
      LabelsOfCons(d.(offset := l.offset), rest);
      assert Labels(d.(offset := l.offset)) == Labels(d);
    } else {
      assert StoreLinks(world, rank, h, m) == rest;
    }
    if m < j {
      ChildLabelsIn(world, rank, h, m + 1, j);
    }
  }

  /** The last actor of a path from `p[0]` is named in the stored tree of
   *  `p[0]`. */
  lemma {:induction false} LabelOnPath(world: map<Handle, Node>, rank: map<Handle, nat>, p: seq<Handle>)
    requires Ranked(world, rank) && IsPath(Graph(world), p) && |p| > 0 && p[0] in world
    decreases |p|
    ensures p[|p| - 1] in world && Label(world[p[|p| - 1]]) in Labels(StoreNode(world, rank, p[0]))
  {
    var h := p[0];
    if |p| == 1 {
      assert Label(world[h]) == (StoreNode(world, rank, h).cls, StoreNode(world, rank, h).category);
    } else {
      var g := Graph(world);
      var c := p[1];
      assert c in Children(world[h].links);
      var j :| 0 <= j < |world[h].links| && world[h].links[j].childInstance.Some? && world[h].links[j].childInstance.value == c;
      var q := p[1..];
      assert IsPath(g, q) by {
        forall k | 0 <= k < |q| - 1
          ensures q[k] in g && q[k + 1] in g[q[k]]
        {
          assert q[k] == p[k + 1] && q[k + 1] == p[k + 2];
        }
      }
      LabelOnPath(world, rank, q);
      assert q[|q| - 1] == p[|p| - 1];
      ChildLabelsIn(world, rank, h, 0, j);
    }
  }

  /** Lines 299-321: the stored tree of an actor names exactly the classes
   *  and categories of the actors reachable from it. */
  lemma StoredLabels(world: map<Handle, Node>, rank: map<Handle, nat>, h: Handle)
    requires Ranked(world, rank) && h in world
    ensures Labels(StoreNode(world, rank, h)) == ReachedLabels(world, h)
  {
    LabelsWithin(world, rank, h);
    forall x | x in world && Reachable(Graph(world), h, x)
      ensures Label(world[x]) in Labels(StoreNode(world, rank, h))
    {
      var p :| IsPath(Graph(world), p) && |p| > 0 && p[0] == h && p[|p| - 1] == x;
      LabelOnPath(world, rank, p);
    }
  }

  /** Every node of the stored tree names a class. */
  ghost predicate Classed(d: StoredData)
  {
    d.cls.Some? && forall k :: 0 <= k < |d.children| ==> Classed(d.children[k])
  }

  /** The number of nodes of a stored tree. */
  function StoredSize(d: StoredData): nat
  {
    1 + StoredSizeOf(d.children)
  }

  function StoredSizeOf(ds: seq<StoredData>): nat
  {
    if ds == [] then 0 else StoredSize(ds[0]) + StoredSizeOf(ds[1..])
  }

  /** A stored tree built from an actor names a class at every node. */
  lemma {:induction false} StoredClassed(world: map<Handle, Node>, rank: map<Handle, nat>, h: Handle)
    requires Ranked(world, rank) && h in world
    decreases rank[h], 1
    ensures Classed(StoreNode(world, rank, h))
  {
    StoredLinksClassed(world, rank, h, 0);
  }

  lemma {:induction false} StoredLinksClassed(world: map<Handle, Node>, rank: map<Handle, nat>, h: Handle, m: nat)
    requires Ranked(world, rank) && h in world && m <= |world[h].links|
    decreases rank[h], 0, |world[h].links| - m
    ensures forall k :: 0 <= k < |StoreLinks(world, rank, h, m)| ==> Classed(StoreLinks(world, rank, h, m)[k])
  {
    var links := world[h].links;
    if m < |links| {
      StoredLinksClassed(world, rank, h, m + 1);
      var rest := StoreLinks(world, rank, h, m + 1);
      var l := links[m];
      if l.childInstance.Some? {
        var d := StoreNode(world, rank, l.childInstance.value);
        StoredClassed(world, rank, l.childInstance.value);
        assert Classed(d.(offset := l.offset));
        var ds := [d.(offset := l.offset)] + rest;
        assert StoreLinks(world, rank, h, m) == ds;
        forall k | 0 <= k < |ds|
          ensures Classed(ds[k])
        {
          if k > 0 {
            assert ds[k] == rest[k - 1];
          }
        }
      } else {
        assert StoreLinks(world, rank, h, m) == rest;
      }
    }
  }

  /** How many actors respawning stored data spawns when spawning starts at
   *  handle `next`: none for a node without a class or whose spawn fails,
   *  else one plus those of its children, in order. */
  function SpawnCount(engine: Engine, d: StoredData, next: Handle): nat
  {
    if d.cls.Nothing? || !engine.spawnSucceeds(d.cls.value, next) then 0
    else 1 + SpawnCountOf(engine, d.children, next + 1)
  }

  function SpawnCountOf(engine: Engine, ds: seq<StoredData>, next: Handle): nat
  {
    if ds == [] then 0
    else
      var c := SpawnCount(engine, ds[0], next);
      c + SpawnCountOf(engine, ds[1..], next + c)
  }

  /** A root that spawns takes one handle before its children's. */
  lemma SpawnCountSpawned(engine: Engine, d: StoredData, next: Handle, first: Handle)
    requires d.cls.Some? && engine.spawnSucceeds(d.cls.value, next) && first == next + 1
    ensures SpawnCount(engine, d, next) == 1 + SpawnCountOf(engine, d.children, first)
  {
  }

  /** Every spawn succeeds. */
  ghost predicate AlwaysSpawns(engine: Engine)
  {
    forall c, h :: engine.spawnSucceeds(c, h)
  }

  /** When every spawn succeeds, respawning a tree that names a class at
   *  every node spawns one actor per node. */
  lemma {:induction false} RespawnSize(engine: Engine, d: StoredData, next: Handle)
    requires AlwaysSpawns(engine) && Classed(d)
    decreases d, 1
    ensures SpawnCount(engine, d, next) == StoredSize(d)
  {
    RespawnSizeOf(engine, d.children, next + 1);
  }

  lemma {:induction false} RespawnSizeOf(engine: Engine, ds: seq<StoredData>, next: Handle)
    requires AlwaysSpawns(engine) && forall k :: 0 <= k < |ds| ==> Classed(ds[k])
    decreases ds, 0
    ensures SpawnCountOf(engine, ds, next) == StoredSizeOf(ds)
  {
    if ds != [] {
      RespawnSize(engine, ds[0], next);
      RespawnSizeOf(engine, ds[1..], next + SpawnCount(engine, ds[0], next));
    }
  }

  /** Storing an actor and respawning the stored tree, when every spawn
   *  succeeds, spawns one actor per node of the tree. */
  lemma StoreThenRespawn(engine: Engine, world: map<Handle, Node>, rank: map<Handle, nat>, h: Handle, next: Handle)
    requires Ranked(world, rank) && h in world && AlwaysSpawns(engine)
    ensures SpawnCount(engine, StoreNode(world, rank, h), next) == StoredSize(StoreNode(world, rank, h))
  {
    StoredClassed(world, rank, h);
    RespawnSize(engine, StoreNode(world, rank, h), next);
  }

  /** No link of the actor holds a live child. */
  ghost predicate Unlinked(n: Node)
  {
    forall j :: 0 <= j < |n.links| ==> n.links[j].childInstance.Nothing?
  }

  /** An actor whose links hold no live child is stored without children. */
  lemma {:induction false} UnlinkedStoresLeaf(world: map<Handle, Node>, rank: map<Handle, nat>, h: Handle, m: nat)
    requires Ranked(world, rank) && h in world && Unlinked(world[h]) && m <= |world[h].links|
    decreases |world[h].links| - m
    ensures StoreLinks(world, rank, h, m) == []
  {
    if m < |world[h].links| {
      UnlinkedStoresLeaf(world, rank, h, m + 1);
    }
  }

  /** `w` is `w0` plus new actors under the handles `lo` to `hi - 1`, none
   *  of whose links holds a live child. */
  ghost predicate Added(w0: map<Handle, Node>, w: map<Handle, Node>, lo: Handle, hi: Handle)
  {
    lo <= hi
    && (forall x :: x in w0 ==> x in w && w[x] == w0[x])
    && (forall x :: x in w <==> x in w0 || lo <= x < hi)
    && (forall x :: lo <= x < hi ==> x in w && Unlinked(w[x]))
  }

  /** Every new actor after the first hangs under the mesh of an earlier
   *  new actor: the new actors form a tree under the first. */
  ghost predicate Hung(w: map<Handle, Node>, lo: Handle, hi: Handle)
  {
    forall x :: lo < x < hi ==>
      x in w && w[x].mount.Some? && w[x].mount.value.parent.Some?
      && lo <= w[x].mount.value.parent.value.owner < x
  }

  /** A spawned actor under the next free handle, its mesh hung, is the
   *  one actor added. */
  lemma AddedSpawned(w0: map<Handle, Node>, next: Handle, a: Node, m: MountPoint)
    requires forall h :: h in w0 ==> h < next
    requires forall j :: 0 <= j < |a.links| ==> a.links[j].childInstance.Nothing?
    ensures Added(w0, Remount(w0[next := a], next, m), next, next + 1)
  {
  }

  lemma AddedTrans(w0: map<Handle, Node>, w1: map<Handle, Node>, w2: map<Handle, Node>, lo: Handle, mid: Handle, hi: Handle)
    requires Added(w0, w1, lo, mid) && Added(w1, w2, mid, hi)
    ensures Added(w0, w2, lo, hi)
  {
  }

  /** A subtree respawned under the mesh of `root` extends the tree. */
  lemma HungStep(w1: map<Handle, Node>, w2: map<Handle, Node>, lo: Handle, mid: Handle, hi: Handle, root: Handle)
    requires Hung(w1, lo, mid) && Added(w1, w2, mid, hi) && Hung(w2, mid, hi) && lo <= root < mid
    requires mid < hi ==> mid in w2 && w2[mid].mount.Some? && w2[mid].mount.value.parent == Some(MeshOf(root))
    ensures Hung(w2, lo, hi)
  {
    forall x | lo < x < hi
      ensures x in w2 && w2[x].mount.Some? && w2[x].mount.value.parent.Some?
              && lo <= w2[x].mount.value.parent.value.owner < x
    {
      if x < mid {
        assert x in w1;
      }
    }
  }

  /** The handles the children of a stored node take come one after the
   *  other: the children before `d` take `SpawnCountOf` of them. */
  lemma {:induction false} SpawnCountOfSnoc(engine: Engine, ds: seq<StoredData>, d: StoredData, next: Handle)
    decreases ds
    ensures SpawnCountOf(engine, ds + [d], next)
            == SpawnCountOf(engine, ds, next) + SpawnCount(engine, d, next + SpawnCountOf(engine, ds, next))
  {
    if ds == [] {
      assert [] + [d] == [d] && [d][1..] == [];
    } else {
      var c := SpawnCount(engine, ds[0], next);
      assert (ds + [d])[0] == ds[0] && (ds + [d])[1..] == ds[1..] + [d];
      SpawnCountOfSnoc(engine, ds[1..], d, next + c);
    }
  }

  /** The handle from which the `k`-th of the stored children `ds` of the
   *  actor `root` is respawned: the first right after `root`, each of the
   *  others after the actors of the ones before it. */
  function ChildStart(engine: Engine, ds: seq<StoredData>, k: nat, root: Handle): Handle
    requires k <= |ds|
    decreases k
  {
    if k == 0 then root + 1
    else
      var s := ChildStart(engine, ds, k - 1, root);
      s + SpawnCount(engine, ds[k - 1], s)
  }

  /** The children before the `k`-th take `SpawnCountOf` of them. */
  lemma {:induction false} ChildStartCount(engine: Engine, ds: seq<StoredData>, k: nat, root: Handle)
    requires k <= |ds|
    decreases k
    ensures ChildStart(engine, ds, k, root) == root + 1 + SpawnCountOf(engine, ds[..k], root + 1)
  {
    if k == 0 {
      assert ds[..0] == [];
    } else {
      ChildStartCount(engine, ds, k - 1, root);
      assert ds[..k] == ds[..k - 1] + [ds[k - 1]];
      SpawnCountOfSnoc(engine, ds[..k - 1], ds[k - 1], root + 1);
    }
  }

  /** `w` holds the actors respawned from the stored tree `d` when spawning
   *  starts at handle `next` under `socket` of `parent` (lines 325-361):
   *  unless the root's spawn is skipped or fails, the actor at `next` has
   *  the stored class and hangs at that socket with the stored offset, and
   *  every stored child is respawned after it. */
  ghost predicate RespawnedAt(engine: Engine, w: map<Handle, Node>, d: StoredData, next: Handle, parent: MeshRef, socket: string)
    decreases d, 1
  {
    SpawnCount(engine, d, next) > 0 ==>
      && next in w && w[next].cls == d.cls.value
      && w[next].mount == Some(MountPoint(Some(parent), Some(socket), d.offset))
      && forall k :: 0 <= k < |d.children| ==> ChildRespawned(engine, w, d.children, k, next)
  }

  /** Lines 353-358: the `k`-th of the stored children `ds` of the actor
   *  `root` is respawned at the socket of its category on the mesh of
   *  `root`. */
  ghost predicate ChildRespawned(engine: Engine, w: map<Handle, Node>, ds: seq<StoredData>, k: nat, root: Handle)
    requires k < |ds|
    decreases ds, 0
  {
    RespawnedAt(engine, w, ds[k], ChildStart(engine, ds, k, root), MeshOf(root), SocketName(ds[k].category))
  }

  /** Adding actors keeps what was respawned before. */
  lemma {:induction false} RespawnedKept(engine: Engine, w1: map<Handle, Node>, w2: map<Handle, Node>, d: StoredData,
                                         next: Handle, parent: MeshRef, socket: string)
    requires RespawnedAt(engine, w1, d, next, parent, socket)
    requires forall x :: x in w1 ==> x in w2 && w2[x] == w1[x]
    decreases d
    ensures RespawnedAt(engine, w2, d, next, parent, socket)
  {
    if SpawnCount(engine, d, next) > 0 {
      forall k | 0 <= k < |d.children|
        ensures ChildRespawned(engine, w2, d.children, k, next)
      {
        assert ChildRespawned(engine, w1, d.children, k, next);
        RespawnedKept(engine, w1, w2, d.children[k], ChildStart(engine, d.children, k, next),
                      MeshOf(next), SocketName(d.children[k].category));
      }
    }
  }

  /** The handle from which a copy of the `k`-th of the stored children
   *  `ds` of the actor `x` starts: the first right after `x`, and each
   *  copy takes as many handles as its stored tree has nodes. */
  function StoredStart(ds: seq<StoredData>, k: nat, x: Handle): Handle
    requires k <= |ds|
    decreases k
  {
    if k == 0 then x + 1 else StoredStart(ds, k - 1, x) + StoredSize(ds[k - 1])
  }

  /** The child after the `i`-th starts after the `i`-th's actors. */
  lemma ChildStartNext(engine: Engine, ds: seq<StoredData>, i: nat, root: Handle, s: Handle)
    requires i < |ds| && s == ChildStart(engine, ds, i, root)
    ensures ChildStart(engine, ds, i + 1, root) == s + SpawnCount(engine, ds[i], s)
  {
  }

  /** All the children take `SpawnCountOf` of them from right after the
   *  root. */
  lemma ChildStartAll(engine: Engine, ds: seq<StoredData>, root: Handle, first: Handle)
    requires first == root + 1
    ensures ChildStart(engine, ds, |ds|, root) == first + SpawnCountOf(engine, ds, first)
  {
    ChildStartCount(engine, ds, |ds|, root);
    assert ds[..|ds|] == ds;
  }

  /** Respawning the `i`-th child where it starts, adding actors to those
   *  of the children before it, extends the respawned children. */
  lemma ChildrenStep(engine: Engine, w1: map<Handle, Node>, w2: map<Handle, Node>, ds: seq<StoredData>, i: nat, root: Handle,
                     s: Handle)
    requires i < |ds| && forall k :: 0 <= k < i ==> ChildRespawned(engine, w1, ds, k, root)
    requires forall x :: x in w1 ==> x in w2 && w2[x] == w1[x]
    requires s == ChildStart(engine, ds, i, root) && RespawnedAt(engine, w2, ds[i], s, MeshOf(root), SocketName(ds[i].category))
    ensures forall k :: 0 <= k < i + 1 ==> ChildRespawned(engine, w2, ds, k, root)
  {
    forall k | 0 <= k < i + 1
      ensures ChildRespawned(engine, w2, ds, k, root)
    {
      if k < i {
        assert ChildRespawned(engine, w1, ds, k, root);
        RespawnedKept(engine, w1, w2, ds[k], ChildStart(engine, ds, k, root), MeshOf(root), SocketName(ds[k].category));
      }
    }
  }

  /** When every spawn succeeds, each stored child of a tree that names a
   *  class at every node is respawned where its copy starts. */
  lemma {:induction false} ChildStartSized(engine: Engine, ds: seq<StoredData>, k: nat, root: Handle)
    requires k <= |ds| && AlwaysSpawns(engine) && forall i :: 0 <= i < |ds| ==> Classed(ds[i])
    decreases k
    ensures ChildStart(engine, ds, k, root) == StoredStart(ds, k, root)
  {
    if k > 0 {
      ChildStartSized(engine, ds, k - 1, root);
      RespawnSize(engine, ds[k - 1], ChildStart(engine, ds, k - 1, root));
    }
  }

  /** The actors from handle `x` on in `w` copy the attachment tree of `h`
   *  in `world`, hanging at `socket` of `parent` with `offset`: the actor
   *  at `x` has the class of `h`, and the tree of the live child of each
   *  link of `h` is copied after it, in link order. */
  ghost predicate Mirrors(world: map<Handle, Node>, rank: map<Handle, nat>, h: Handle, w: map<Handle, Node>,
                          x: Handle, parent: MeshRef, socket: string, offset: Transform)
    requires Ranked(world, rank) && h in world
    decreases rank[h], 1
  {
    && x in w && w[x].cls == world[h].cls
    && w[x].mount == Some(MountPoint(Some(parent), Some(socket), offset))
    && forall k :: 0 <= k < |LiveLinks(world[h].links, 0)| ==> ChildMirrors(world, rank, h, k, w, x)
  }

  /** The tree of the live child of the `k`-th live link of `h` is copied
   *  after the copies of the earlier ones, hanging at the socket of its
   *  category on the mesh of `x` with the link's offset. */
  ghost predicate ChildMirrors(world: map<Handle, Node>, rank: map<Handle, nat>, h: Handle, k: nat, w: map<Handle, Node>, x: Handle)
    requires Ranked(world, rank) && h in world && k < |LiveLinks(world[h].links, 0)|
    decreases rank[h], 0
  {
    LiveLinksFrom(world[h].links, 0);
    StoredChildrenInOrder(world, rank, h, 0);
    var l := LiveLinks(world[h].links, 0)[k];
    var c := l.childInstance.value;
    var j :| 0 <= j < |world[h].links| && world[h].links[j] == l;
    Mirrors(world, rank, c, w, StoredStart(StoreLinks(world, rank, h, 0), k, x),
            MeshOf(x), SocketName(world[c].category), l.offset)
  }

  /** Storing an attachment and respawning the stored tree, when every
   *  spawn succeeds, copies the attachment's tree: the classes, the
   *  sockets of the categories and the links' offsets, in link order. */
  lemma {:induction false} RespawnMirrors(engine: Engine, world: map<Handle, Node>, rank: map<Handle, nat>, h: Handle,
                                          w: map<Handle, Node>, x: Handle, parent: MeshRef, socket: string, offset: Transform)
    requires Ranked(world, rank) && h in world && AlwaysSpawns(engine)
    requires RespawnedAt(engine, w, StoreNode(world, rank, h).(offset := offset), x, parent, socket)
    decreases rank[h]
    ensures Mirrors(world, rank, h, w, x, parent, socket, offset)
  {
    var d := StoreNode(world, rank, h).(offset := offset);
    var ds := StoreLinks(world, rank, h, 0);
    var ls := LiveLinks(world[h].links, 0);
    assert d.children == ds && d.cls == Some(world[h].cls);
    assert SpawnCount(engine, d, x) > 0;
    StoredChildrenInOrder(world, rank, h, 0);
    StoredLinksClassed(world, rank, h, 0);
    LiveLinksFrom(world[h].links, 0);
    forall k | 0 <= k < |ls|
      ensures ChildMirrors(world, rank, h, k, w, x)
    {
      var c := ls[k].childInstance.value;
      var j :| 0 <= j < |world[h].links| && world[h].links[j] == ls[k];
      assert rank[c] < rank[h];
      assert ChildRespawned(engine, w, ds, k, x);
      ChildStartSized(engine, ds, k, x);
      assert ds[k] == StoreNode(world, rank, c).(offset := ls[k].offset);
      RespawnMirrors(engine, world, rank, c, w, StoredStart(ds, k, x), MeshOf(x), SocketName(world[c].category), ls[k].offset);
    }
  }

  /** Detaching the actors reachable from the registered ones keeps the
   *  world well formed. */
  lemma DetachedOk(world: map<Handle, Node>, w: map<Handle, Node>, next: Handle, roots: seq<Handle>)
    requires WorldOk(world, next) && w.Keys == world.Keys
    requires forall x :: x in world ==>
               w[x] == if WeaponBuilder.ReachedFrom(Graph(world), roots, x) then Detached(world[x]) else world[x]
    ensures WorldOk(w, next)
  {
    forall h | h in w
      ensures w[h].links == world[h].links
    {
    }
  }

  /** Every base attachment is reached from the base attachments. */
  lemma RootsReached(g: Succ, roots: seq<Handle>)
    ensures forall x :: x in roots ==> WeaponBuilder.ReachedFrom(g, roots, x)
  {
    forall x | x in roots
      ensures WeaponBuilder.ReachedFrom(g, roots, x)
    {
      ReachableSelf(g, x);
    }
  }

  /** Growing the links of `current` alone keeps the walk's state. */
  lemma WalkGrown(w1: map<Handle, Node>, w2: map<Handle, Node>, spawned: seq<Handle>, roots: seq<Handle>,
                  order: seq<Handle>, visited: set<Handle>, done: seq<Handle>, current: Handle)
    requires Walk(w1, spawned, roots, order, visited, done) && Grown(w1, w2) && current !in done
    requires forall x :: x in w1 && x != current ==> w2[x].links == w1[x].links
    ensures Walk(w2, spawned, roots, order, visited, done)
  {
    ReachedGrown(w1, w2, roots);
  }

  /** The live child of a link of a visited actor is reached from a base
   *  attachment. */
  lemma ChildReached(world: map<Handle, Node>, spawned: seq<Handle>, roots: seq<Handle>,
                     order: seq<Handle>, visited: set<Handle>, done: seq<Handle>, current: Handle, li: nat)
    requires Walk(world, spawned, roots, order, visited, done) && Linked(world)
    requires current in visited && current in world && li < |world[current].links|
    requires world[current].links[li].childInstance.Some?
    ensures world[current].links[li].childInstance.value in world
    ensures WeaponBuilder.ReachedFrom(Graph(world), roots, world[current].links[li].childInstance.value)
  {
    var g := Graph(world);
    var child := world[current].links[li].childInstance.value;
    assert child in g[current];
    var r :| r in roots && Reachable(g, r, current);
    ReachableStep(g, r, current, child);
  }

  /** Re-attaching meshes keeps the walk's state. */
  lemma WalkSameLinks(w1: map<Handle, Node>, w2: map<Handle, Node>, spawned: seq<Handle>, roots: seq<Handle>,
                      order: seq<Handle>, visited: set<Handle>, done: seq<Handle>)
    requires Walk(w1, spawned, roots, order, visited, done)
    requires w1.Keys == w2.Keys && forall x :: x in w1 ==> w2[x].links == w1[x].links
    ensures Walk(w2, spawned, roots, order, visited, done)
  {
    SameLinksGraph(w1, w2);
  }

  class WeaponBuilderComponent {
    /** The actors this component has spawned or reached. */
    var world: map<Handle, Node>
    /** The handle the next spawned actor gets. */
    var nextHandle: Handle
    var baseAttachments: seq<Option<ClassId>>
    var spawnedAttachments: seq<Handle>
    var spawnedMeshes: map<Handle, MeshRef>

    ghost predicate Valid()
      reads this
    {
      WorldOk(world, nextHandle) && SpawnedOk(world, spawnedAttachments, spawnedMeshes)
    }

    constructor(base: seq<Option<ClassId>>)
      ensures Valid()
      ensures world == map[] && baseAttachments == base
      ensures spawnedAttachments == [] && spawnedMeshes == map[]
    {
      world := map[];
      nextHandle := 0;
      baseAttachments := base;
      spawnedAttachments := [];
      spawnedMeshes := map[];
    }

    /** `GetWorld()->SpawnActor<AAttachment>(Class, ...)`: a new actor of
     *  class `c` under the next free handle, or null when the engine's
     *  spawn fails. */
    method Spawn(engine: Engine, c: ClassId) returns (h: Option<Handle>)
      requires Valid()
      modifies this
      ensures Valid()
      ensures baseAttachments == old(baseAttachments)
      ensures spawnedAttachments == old(spawnedAttachments) && spawnedMeshes == old(spawnedMeshes)
      ensures engine.spawnSucceeds(c, old(nextHandle)) ==>
                h == Some(old(nextHandle)) && nextHandle == old(nextHandle) + 1
                && world == old(world)[old(nextHandle) := Spawned(engine, c)]
      ensures !engine.spawnSucceeds(c, old(nextHandle)) ==>
                h == Nothing && nextHandle == old(nextHandle) && world == old(world)
    {
      if !engine.spawnSucceeds(c, nextHandle) {
        return Nothing;
      }
      var a := Spawned(engine, c);
      assert Children(a.links) == {};
      world := world[nextHandle := a];
      h := Some(nextHandle);
      nextHandle := nextHandle + 1;
    }

    /** Lines 96-108: when the `li`-th link of `current` has no live child
     *  but has a class, spawn an actor of that class and make it the
     *  link's child (a failed spawn leaves the link null); a link that
     *  already has a child keeps it, and nothing is spawned. */
    method SpawnForLink(engine: Engine, current: Handle, li: nat, ghost order: seq<Handle>, ghost visited: set<Handle>,
                        ghost done: seq<Handle>, ghost roots: seq<Handle>)
      requires Valid() && current in world && li < |world[current].links|
      requires Walk(world, spawnedAttachments, roots, order, visited, done) && current !in done
      requires LinksIn(world[current].links, li, visited)
      modifies this
      ensures Walk(world, spawnedAttachments, roots, order, visited, done)
      ensures Valid() && baseAttachments == old(baseAttachments)
      ensures spawnedAttachments == old(spawnedAttachments) && spawnedMeshes == old(spawnedMeshes)
      ensures Grown(old(world), world)
      ensures forall x :: x in old(world) && x != current ==> world[x] == old(world)[x]
      ensures current in world && |world[current].links| == |old(world)[current].links|
      ensures world[current].mount == old(world)[current].mount
      ensures forall j :: 0 <= j < |world[current].links| && j != li ==> world[current].links[j] == old(world)[current].links[j]
      ensures var l := old(world)[current].links[li];
              if l.childInstance.Nothing? && l.childClass.Some? && engine.spawnSucceeds(l.childClass.value, old(nextHandle)) then
                nextHandle == old(nextHandle) + 1 && old(nextHandle) in world && world[old(nextHandle)] == Spawned(engine, l.childClass.value)
                && world[current].links[li] == l.(childInstance := Some(old(nextHandle)))
              else
                nextHandle == old(nextHandle) && world == old(world)
      ensures LinksIn(world[current].links, li, visited)
    {
      var link := world[current].links[li];
      if link.childInstance.Nothing? && link.childClass.Some? {
        ghost var w0 := world;
        var h := Spawn(engine, link.childClass.value);
        if h.Some? {
          SetInstanceChildren(world, current, li, h.value);
          world := SetInstance(world, current, li, h.value);
        }
        WalkGrown(w0, world, spawnedAttachments, roots, order, visited, done, current);
      }
    }

    /** Lines 110-143 for the `li`-th link of `current`: skip a null child;
     *  otherwise attach the child's mesh to the socket named after its
     *  category, with the link's offset, when `current`'s mesh has that
     *  socket; enqueue it unless visited; register it unless registered.
     *  Enqueueing and registering happen whether or not it was attached. */
    method AdmitChild(engine: Engine, current: Handle, li: nat, queue: seq<Handle>, visited: set<Handle>,
                      ghost prefix: seq<Handle>, ghost done: seq<Handle>, ghost roots: seq<Handle>)
      returns (queue': seq<Handle>, visited': set<Handle>)
      requires Valid() && current in world && li < |world[current].links|
      requires Walk(world, spawnedAttachments, roots, prefix + queue, visited, done) && roots <= spawnedAttachments
      requires current in visited && LinksIn(world[current].links, li, visited)
      modifies this
      ensures Valid() && nextHandle == old(nextHandle) && baseAttachments == old(baseAttachments)
      ensures world.Keys == old(world).Keys && forall x :: x in old(world) ==> world[x].links == old(world)[x].links
      ensures forall x :: x in old(world) && old(world)[x].mount.Some? ==> world[x].mount.Some?
      ensures Walk(world, spawnedAttachments, roots, prefix + queue', visited', done) && roots <= spawnedAttachments
      ensures old(spawnedAttachments) <= spawnedAttachments && visited <= visited' && queue <= queue'
      ensures var l := old(world)[current].links[li];
              l.childInstance.Some? ==> l.childInstance.value in visited' && l.childInstance.value in spawnedAttachments
      ensures LinksIn(world[current].links, li + 1, visited')
    {
      queue', visited' := queue, visited;
      var link := world[current].links[li];
      if link.childInstance.Nothing? {
        return;
      }
      var child := link.childInstance.value;
      ChildReached(world, spawnedAttachments, roots, prefix + queue, visited, done, current, li);
      ghost var w0 := world;
      AttachChild(engine, current, child, link.offset);
      WalkSameLinks(w0, world, spawnedAttachments, roots, prefix + queue, visited, done);
      queue', visited' := Admit(child, queue, visited, prefix, done, roots);
    }

    /** Lines 115-129: attach `child`'s mesh to `current`'s at the socket
     *  named after the child's category, with `offset`, when `current`'s
     *  mesh has that socket; otherwise leave it where it is. */
    method AttachChild(engine: Engine, current: Handle, child: Handle, offset: Transform)
      requires Valid() && current in world && child in world
      modifies this
      ensures Valid() && nextHandle == old(nextHandle) && baseAttachments == old(baseAttachments)
      ensures spawnedAttachments == old(spawnedAttachments) && spawnedMeshes == old(spawnedMeshes)
      ensures world.Keys == old(world).Keys
      ensures forall x :: x in old(world) && x != child ==> world[x] == old(world)[x]
      ensures world[child].links == old(world)[child].links
      ensures forall x :: x in old(world) && old(world)[x].mount.Some? ==> world[x].mount.Some?
      ensures var socket := SocketName(old(world)[child].category);
              world[child] == if engine.socketExists(current, socket)
                              then old(world)[child].(mount := Some(MountPoint(Some(MeshOf(current)), Some(socket), offset)))
                              else old(world)[child]
    {
      var socket := SocketName(world[child].category);
      if engine.socketExists(current, socket) {
        world := Remount(world, child, MountPoint(Some(MeshOf(current)), Some(socket), offset));
      }
    }

    /** Lines 131-143 for a live child reached from a base attachment:
     *  enqueue and visit it unless visited, and register it unless
     *  registered. */
    method Admit(child: Handle, queue: seq<Handle>, visited: set<Handle>,
                 ghost prefix: seq<Handle>, ghost done: seq<Handle>, ghost roots: seq<Handle>)
      returns (queue': seq<Handle>, visited': set<Handle>)
      requires Valid() && child in world
      requires Walk(world, spawnedAttachments, roots, prefix + queue, visited, done) && roots <= spawnedAttachments
      requires WeaponBuilder.ReachedFrom(Graph(world), roots, child)
      modifies this
      ensures Valid() && world == old(world) && nextHandle == old(nextHandle) && baseAttachments == old(baseAttachments)
      ensures Walk(world, spawnedAttachments, roots, prefix + queue', visited', done) && roots <= spawnedAttachments
      ensures old(spawnedAttachments) <= spawnedAttachments
      ensures queue' == (if child in visited then queue else queue + [child]) && visited' == visited + {child}
      ensures child in spawnedAttachments && visited <= visited' && queue <= queue'
    {
      queue', visited' := queue, visited;
      if child !in visited' {
        WeaponBuilder.EnqueueFresh(prefix, queue', visited', child);
        assert prefix + (queue' + [child]) == (prefix + queue') + [child];
        queue' := queue' + [child];
        visited' := visited' + {child};
      }
      if child !in spawnedAttachments {
        spawnedAttachments := spawnedAttachments + [child];
        spawnedMeshes := spawnedMeshes[child := MeshOf(child)];
      }
    }

    /** Lines 95-143 for the `li`-th link of `current`: spawn its child if
     *  needed, then attach, enqueue and register the child. */
    method ExpandLink(engine: Engine, current: Handle, li: nat, queue: seq<Handle>, visited: set<Handle>,
                      ghost prefix: seq<Handle>, ghost done: seq<Handle>, ghost roots: seq<Handle>)
      returns (queue': seq<Handle>, visited': set<Handle>)
      requires Valid() && current in world && li < |world[current].links|
      requires Walk(world, spawnedAttachments, roots, prefix + queue, visited, done) && roots <= spawnedAttachments
      requires current in visited && current !in done
      requires LinksIn(world[current].links, li, visited)
      modifies this
      ensures Valid() && baseAttachments == old(baseAttachments)
      ensures Walk(world, spawnedAttachments, roots, prefix + queue', visited', done) && roots <= spawnedAttachments
      ensures queue <= queue'
      ensures current in world && |world[current].links| == |old(world)[current].links|
      ensures LinksIn(world[current].links, li + 1, visited')
      ensures forall x :: x in old(world) && x != current ==> x in world && world[x].links == old(world)[x].links
      ensures forall x :: x in old(world) && old(world)[x].mount.Some? ==> x in world && world[x].mount.Some?
    {
      SpawnForLink(engine, current, li, prefix + queue, visited, done, roots);
      queue', visited' := AdmitChild(engine, current, li, queue, visited, prefix, done, roots);
    }

    /** Lines 88-144 for the dequeued actor `current`: go through its
     *  links in order.  Afterwards every live child of `current` is
     *  visited and registered. */
    method Expand(engine: Engine, current: Handle, queue: seq<Handle>, visited: set<Handle>,
                  ghost done: seq<Handle>, ghost roots: seq<Handle>)
      returns (queue': seq<Handle>, visited': set<Handle>)
      requires Valid() && current in world
      requires Walk(world, spawnedAttachments, roots, done + [current] + queue, visited, done) && roots <= spawnedAttachments
      requires current !in done
      modifies this
      ensures Valid() && baseAttachments == old(baseAttachments)
      ensures Walk(world, spawnedAttachments, roots, done + [current] + queue', visited', done + [current])
      ensures roots <= spawnedAttachments && queue <= queue'
      ensures forall x :: x in old(world) && old(world)[x].mount.Some? ==> x in world && world[x].mount.Some?
    {
      ghost var prefix := done + [current];
      assert current in visited;
      var n := |world[current].links|;
      queue', visited' := queue, visited;
      var li := 0;
      while li < n
        invariant 0 <= li <= n
        invariant Valid() && baseAttachments == old(baseAttachments)
        invariant current in world && |world[current].links| == n
        invariant Walk(world, spawnedAttachments, roots, prefix + queue', visited', done) && roots <= spawnedAttachments
        invariant current in visited' && queue <= queue'
        invariant LinksIn(world[current].links, li, visited')
        invariant forall x :: x in old(world) && old(world)[x].mount.Some? ==> x in world && world[x].mount.Some?
      {
        queue', visited' := ExpandLink(engine, current, li, queue', visited', prefix, done, roots);
        li := li + 1;
      }
      LinksInChildren(world[current].links, visited');
    }

    /** Lines 54-81 for one non-null base class: spawn it; on success
     *  attach its mesh to the weapon's root mesh with the identity
     *  transform when the weapon has one, and register it. */
    method AddRoot(engine: Engine, c: ClassId) returns (h: Option<Handle>)
      requires Valid()
      modifies this
      ensures Valid() && baseAttachments == old(baseAttachments)
      ensures forall x :: x in old(world) ==> x in world && world[x] == old(world)[x]
      ensures engine.spawnSucceeds(c, old(nextHandle)) ==>
                h == Some(old(nextHandle)) && nextHandle == old(nextHandle) + 1
                && spawnedAttachments == old(spawnedAttachments) + [old(nextHandle)]
                && world[old(nextHandle)].cls == c
                && (engine.weaponRoot ==> world[old(nextHandle)].mount == Some(MountPoint(Nothing, Nothing, Identity)))
      ensures !engine.spawnSucceeds(c, old(nextHandle)) ==>
                h == Nothing && nextHandle == old(nextHandle) && world == old(world)
                && spawnedAttachments == old(spawnedAttachments) && spawnedMeshes == old(spawnedMeshes)
    {
      h := Spawn(engine, c);
      if h.Nothing? {
        return;
      }
      var root := h.value;
      if engine.weaponRoot {
        world := Remount(world, root, MountPoint(Nothing, Nothing, Identity));
      }
      assert root !in spawnedAttachments;
      spawnedAttachments := spawnedAttachments + [root];
      spawnedMeshes := spawnedMeshes[root := MeshOf(root)];
    }

    /** Lines 46-82 for one base class: skip a null class, else spawn,
     *  attach and register it, and enqueue and visit it. */
    method AddBase(engine: Engine, cls: Option<ClassId>, queue: seq<Handle>, visited: set<Handle>)
      returns (queue': seq<Handle>, visited': set<Handle>)
      requires Valid()
      requires engine.weaponRoot ==> forall x :: x in spawnedAttachments ==> world[x].mount == Some(MountPoint(Nothing, Nothing, Identity))
      requires queue == spawnedAttachments && WeaponBuilder.Enqueued(queue, visited)
      modifies this
      ensures Valid() && baseAttachments == old(baseAttachments)
      ensures forall x :: x in old(world) ==> x in world && world[x] == old(world)[x]
      ensures cls.Some? && engine.spawnSucceeds(cls.value, old(nextHandle)) ==>
                nextHandle == old(nextHandle) + 1 && spawnedAttachments == old(spawnedAttachments) + [old(nextHandle)]
                && world[old(nextHandle)].cls == cls.value
      ensures !(cls.Some? && engine.spawnSucceeds(cls.value, old(nextHandle))) ==>
                nextHandle == old(nextHandle) && spawnedAttachments == old(spawnedAttachments)
      ensures engine.weaponRoot ==> forall x :: x in spawnedAttachments ==> world[x].mount == Some(MountPoint(Nothing, Nothing, Identity))
      ensures queue' == spawnedAttachments && WeaponBuilder.Enqueued(queue', visited')
    {
      queue', visited' := queue, visited;
      if cls.Nothing? {
        return;
      }
      var h := AddRoot(engine, cls.value);
      if h.Some? {
        assert h.value !in visited';
        WeaponBuilder.EnqueueFresh([], queue', visited', h.value);
        queue' := queue' + [h.value];
        visited' := visited' + {h.value};
      }
    }

    /** Lines 46-82: spawn an actor per non-null base class, attach and
     *  register each one spawned, and enqueue and visit it.  Starts from
     *  nothing registered. */
    method SpawnBase(engine: Engine) returns (queue: seq<Handle>, visited: set<Handle>)
      requires Valid() && spawnedAttachments == []
      modifies this
      ensures Valid() && baseAttachments == old(baseAttachments)
      ensures var roots := WeaponBuilder.Successes(engine.spawnSucceeds, baseAttachments, old(nextHandle), |baseAttachments|);
              |spawnedAttachments| == |roots|
              && (forall t :: 0 <= t < |roots| ==> spawnedAttachments[t] == old(nextHandle) + t && world[spawnedAttachments[t]].cls == roots[t])
      ensures engine.weaponRoot ==> forall x :: x in spawnedAttachments ==> world[x].mount == Some(MountPoint(Nothing, Nothing, Identity))
      ensures queue == spawnedAttachments && WeaponBuilder.Enqueued(queue, visited)
    {
      ghost var next0 := nextHandle;
      queue, visited := [], {};
      var j := 0;
      while j < |baseAttachments|
        invariant 0 <= j <= |baseAttachments|
        invariant Valid() && baseAttachments == old(baseAttachments)
        invariant var roots := WeaponBuilder.Successes(engine.spawnSucceeds, baseAttachments, next0, j);
                  |spawnedAttachments| == |roots| && nextHandle == next0 + |roots|
                  && (forall t :: 0 <= t < |roots| ==> spawnedAttachments[t] == next0 + t && world[spawnedAttachments[t]].cls == roots[t])
        invariant engine.weaponRoot ==> forall x :: x in spawnedAttachments ==> world[x].mount == Some(MountPoint(Nothing, Nothing, Identity))
        invariant queue == spawnedAttachments && WeaponBuilder.Enqueued(queue, visited)
      {
        queue, visited := AddBase(engine, baseAttachments[j], queue, visited);
        j := j + 1;
      }
    }

    /** `BuildWeapon`: clear the old weapon, spawn the base attachments,
     *  then expand actors breadth first (at most `fuel` of them).  The
     *  base attachments are registered first, in order; no actor is
     *  expanded or registered twice; every registered actor is reached
     *  from a base attachment; and once the queue runs dry the registered
     *  actors are exactly those the base attachments reach. */
    method BuildWeapon(engine: Engine, fuel: nat) returns (ghost expanded: seq<Handle>)
      requires Valid()
      modifies this
      ensures Valid() && baseAttachments == old(baseAttachments)
      ensures var roots := WeaponBuilder.Successes(engine.spawnSucceeds, baseAttachments, old(nextHandle), |baseAttachments|);
              |roots| <= |spawnedAttachments|
              && (forall t :: 0 <= t < |roots| ==> spawnedAttachments[t] == old(nextHandle) + t)
              && (engine.weaponRoot ==> forall x :: x in spawnedAttachments[..|roots|] ==> world[x].mount.Some?)
              && (forall x :: x in spawnedAttachments ==> WeaponBuilder.ReachedFrom(Graph(world), spawnedAttachments[..|roots|], x))
              && (|expanded| < fuel ==>
                    forall x :: x in world ==>
                      (x in spawnedAttachments <==> WeaponBuilder.ReachedFrom(Graph(world), spawnedAttachments[..|roots|], x)))
      ensures WeaponBuilder.Distinct(spawnedAttachments) && WeaponBuilder.Distinct(expanded) && |expanded| <= fuel
    {
      ClearWeapon();
      var queue, visited := SpawnBase(engine);
      ghost var roots := spawnedAttachments;
      RootsReached(Graph(world), roots);
      assert roots + [] == roots;
      queue, visited, expanded := RunQueue(engine, fuel, queue, visited, roots);
      assert spawnedAttachments[..|roots|] == roots;
      WeaponBuilder.DistinctPrefix(expanded, queue);
      if |expanded| < fuel {
        assert expanded + queue == expanded;
        WalkDrained(world, spawnedAttachments, roots, expanded, visited);
      }
    }

    /** Lines 84-145: expand actors from the front of the queue, at most
     *  `fuel` of them.  Stops early only when the queue runs dry. */
    method RunQueue(engine: Engine, fuel: nat, queue: seq<Handle>, visited: set<Handle>, ghost roots: seq<Handle>)
      returns (queue': seq<Handle>, visited': set<Handle>, ghost expanded: seq<Handle>)
      requires Valid() && Walk(world, spawnedAttachments, roots, queue, visited, []) && roots <= spawnedAttachments
      requires engine.weaponRoot ==> forall x :: x in roots ==> world[x].mount.Some?
      modifies this
      ensures Valid() && baseAttachments == old(baseAttachments)
      ensures Walk(world, spawnedAttachments, roots, expanded + queue', visited', expanded) && roots <= spawnedAttachments
      ensures |expanded| <= fuel && (|expanded| < fuel ==> queue' == [])
      ensures engine.weaponRoot ==> forall x :: x in roots ==> world[x].mount.Some?
    {
      expanded := [];
      queue', visited' := queue, visited;
      assert expanded + queue' == queue;
      var steps := 0;
      while queue' != [] && steps < fuel
        invariant Valid() && baseAttachments == old(baseAttachments)
        invariant Walk(world, spawnedAttachments, roots, expanded + queue', visited', expanded)
        invariant roots <= spawnedAttachments
        invariant steps == |expanded| <= fuel
        invariant engine.weaponRoot ==> forall x :: x in roots ==> world[x].mount.Some?
        decreases fuel - steps
      {
        var current := queue'[0];
        HeadFresh(expanded, queue');
        assert current in expanded + queue';
        assert current in visited' && current in spawnedAttachments;
        assert expanded + queue' == expanded + [current] + queue'[1..];
        queue', visited' := Expand(engine, current, queue'[1..], visited', expanded, roots);
        expanded := expanded + [current];
        steps := steps + 1;
      }
    }

    /** `ClearWeapon`: every actor reachable from a registered one has its
     *  mesh detached, every other actor is left as it was, and nothing
     *  stays registered.  Clearing with nothing registered changes
     *  nothing, so clearing twice is clearing once. */
    method ClearWeapon()
      requires Valid()
      modifies this
      ensures Valid()
      ensures nextHandle == old(nextHandle) && baseAttachments == old(baseAttachments)
      ensures spawnedAttachments == [] && spawnedMeshes == map[] && world.Keys == old(world).Keys
      ensures forall x :: x in old(world) ==>
                world[x] == if WeaponBuilder.ReachedFrom(Graph(old(world)), old(spawnedAttachments), x)
                            then Detached(old(world)[x]) else old(world)[x]
      ensures old(spawnedAttachments) == [] ==> world == old(world)
    {
      var w;
      ghost var v;
      w, v := ClearFromRoots(world, spawnedAttachments);
      ClearedExactly(world, w, spawnedAttachments, v);
      w := DetachMeshes(world, w, spawnedAttachments, spawnedMeshes);
      DetachedOk(world, w, nextHandle, spawnedAttachments);
      world := w;
      spawnedAttachments := [];
      spawnedMeshes := map[];
    }

    /** `GetAttachmentAtSocket`: search depth first from each registered
     *  actor in turn, sharing one visited set.  Finds an actor of category
     *  `c` that a registered actor reaches, and finds nothing only when no
     *  actor a registered one reaches has category `c`. */
    method GetAttachmentAtSocket(c: Category) returns (found: Option<Handle>)
      requires Valid()
      ensures found.Some? ==>
                found.value in world && world[found.value].category == c
                && WeaponBuilder.ReachedFrom(Graph(world), spawnedAttachments, found.value)
      ensures found.Nothing? ==>
                forall x :: x in world && WeaponBuilder.ReachedFrom(Graph(world), spawnedAttachments, x) ==> world[x].category != c
    {
      var visited: set<Handle> := {};
      var i := 0;
      while i < |spawnedAttachments|
        invariant 0 <= i <= |spawnedAttachments|
        invariant Searched(world, c, {}, visited)
        invariant forall k :: 0 <= k < i ==> spawnedAttachments[k] in visited
      {
        var f;
        f, visited := FindAttachmentRecursive(world, spawnedAttachments[i], c, visited);
        if f.Some? {
          return f;
        }
        i := i + 1;
      }
      NothingReached(world, c, spawnedAttachments, visited);
      return Nothing;
    }

    /** `SpawnAttachmentFromStoredData`: null data spawns nothing and gives
     *  null; otherwise the stored tree is respawned as `SpawnStored` says. */
    method SpawnAttachmentFromStoredData(engine: Engine, data: Option<StoredData>, parentMesh: MeshRef, parentSocket: string)
      returns (r: Option<Handle>)
      requires Valid()
      modifies this
      ensures Valid() && baseAttachments == old(baseAttachments)
      ensures spawnedAttachments == old(spawnedAttachments) && spawnedMeshes == old(spawnedMeshes)
      ensures data.Nothing? ==> r.Nothing? && world == old(world) && nextHandle == old(nextHandle)
      ensures data.Some? ==>
                nextHandle == old(nextHandle) + SpawnCount(engine, data.value, old(nextHandle))
                && Added(old(world), world, old(nextHandle), nextHandle) && Hung(world, old(nextHandle), nextHandle)
      ensures data.Some? ==>
                (r.Some? <==> data.value.cls.Some? && engine.spawnSucceeds(data.value.cls.value, old(nextHandle)))
      ensures r.Some? ==>
                r.value == old(nextHandle) && r.value in world && world[r.value].cls == data.value.cls.value
                && world[r.value].mount == Some(MountPoint(Some(parentMesh), Some(parentSocket), data.value.offset))
      ensures data.Some? ==> RespawnedAt(engine, world, data.value, old(nextHandle), parentMesh, parentSocket)
    {
      if data.Nothing? {
        return Nothing;
      }
      r := SpawnStored(engine, data.value, parentMesh, parentSocket);
    }

    /** Lines 325-361 for non-null data: a node without a class, or whose
     *  spawn fails, gives null and spawns nothing; otherwise the new actor's
     *  mesh hangs at the parent's socket with the stored offset, and its
     *  stored children are respawned under it.  No link of a respawned
     *  actor is set and nothing is registered: the new actors are a tree of
     *  meshes, not of links. */
    method SpawnStored(engine: Engine, d: StoredData, parentMesh: MeshRef, parentSocket: string) returns (r: Option<Handle>)
      requires Valid()
      modifies this
      decreases d, 1
      ensures Valid() && baseAttachments == old(baseAttachments)
      ensures spawnedAttachments == old(spawnedAttachments) && spawnedMeshes == old(spawnedMeshes)
      ensures nextHandle == old(nextHandle) + SpawnCount(engine, d, old(nextHandle))
      ensures Added(old(world), world, old(nextHandle), nextHandle) && Hung(world, old(nextHandle), nextHandle)
      ensures r.Some? <==> d.cls.Some? && engine.spawnSucceeds(d.cls.value, old(nextHandle))
      ensures r.Some? ==>
                r.value == old(nextHandle) && r.value in world && world[r.value].cls == d.cls.value
                && world[r.value].mount == Some(MountPoint(Some(parentMesh), Some(parentSocket), d.offset))
      ensures RespawnedAt(engine, world, d, old(nextHandle), parentMesh, parentSocket)
    {
      if d.cls.Nothing? {
        return Nothing;
      }
      ghost var w0, n0 := world, nextHandle;
      var h := Spawn(engine, d.cls.value);
      if h.Nothing? {
        return Nothing;
      }
      var root := h.value;
      ghost var w1 := world;
      world := Remount(world, root, MountPoint(Some(parentMesh), Some(parentSocket), d.offset));
      SameLinksGraph(w1, world);
      AddedSpawned(w0, n0, Spawned(engine, d.cls.value), MountPoint(Some(parentMesh), Some(parentSocket), d.offset));
      ghost var n1, w2 := nextHandle, world;
      SpawnChildren(engine, d, root, n0);
      AddedTrans(w0, w2, world, n0, n1, nextHandle);
      SpawnCountSpawned(engine, d, n0, n1);
      assert world[root] == w2[root];
      r := h;
    }

    /** Lines 353-358: respawn each stored child of `d` in turn, at the
     *  socket of its category on the mesh of `root`. */
    method SpawnChildren(engine: Engine, d: StoredData, root: Handle, ghost lo: Handle)
      requires Valid() && lo <= root && nextHandle == root + 1 && root in world && Hung(world, lo, nextHandle)
      modifies this
      decreases d, 0
      ensures Valid() && baseAttachments == old(baseAttachments)
      ensures spawnedAttachments == old(spawnedAttachments) && spawnedMeshes == old(spawnedMeshes)
      ensures nextHandle == old(nextHandle) + SpawnCountOf(engine, d.children, old(nextHandle))
      ensures Added(old(world), world, old(nextHandle), nextHandle) && Hung(world, lo, nextHandle)
      ensures forall k :: 0 <= k < |d.children| ==> ChildRespawned(engine, world, d.children, k, root)
    {
      ghost var w0, n0 := world, nextHandle;
      var i := 0;
      while i < |d.children|
        invariant 0 <= i <= |d.children|
        invariant Valid() && baseAttachments == old(baseAttachments)
        invariant spawnedAttachments == old(spawnedAttachments) && spawnedMeshes == old(spawnedMeshes)
        invariant nextHandle == ChildStart(engine, d.children, i, root)
        invariant Added(w0, world, n0, nextHandle) && Hung(world, lo, nextHandle)
        invariant forall k :: 0 <= k < i ==> ChildRespawned(engine, world, d.children, k, root)
      {
        var child := d.children[i];
        ghost var w1, n1 := world, nextHandle;
        var respawned := SpawnStored(engine, child, MeshOf(root), SocketName(child.category));
        AddedTrans(w0, w1, world, n0, n1, nextHandle);
        HungStep(w1, world, lo, n1, nextHandle, root);
        ChildrenStep(engine, w1, world, d.children, i, root, n1);
        ChildStartNext(engine, d.children, i, root, n1);
        i := i + 1;
      }
      ChildStartAll(engine, d.children, root, n0);
    }
  }
}
