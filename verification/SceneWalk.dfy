/** The bounded walk over the scene a generated program returns, which may be any graph of objects, and the limits
  * that its measurements are held to.
  */
module SceneWalk {
  import opened Wrappers

  type NodeId = int
  type TextureId = nat

  const MAX_DEPTH := 32

  datatype Kind = Group | Mesh | Line | LineSegments | Points | Other

  /** A scene object: index is whether a geometry index, if there is one, is of an accepted type. */
  datatype Node = Node(kind: Kind, instanced: bool, index: bool, positions: Option<int>, count: Option<int>,
                       materials: seq<seq<Option<TextureId>>>, children: seq<NodeId>)

  datatype Texture = Texture(isData: bool, bytes: nat)

  /** Object identities and what they stand for; nothing is said about the shape of the graph. */
  datatype Scene = Scene(nodes: map<NodeId, Node>, textures: map<TextureId, Texture>) {
    predicate Closed() {
      && (forall n, c :: n in nodes && c in nodes[n].children ==> c in nodes)
      && (forall n, t :: n in nodes && t in Slots(n) ==> t in textures)
    }

    /** The textures that the materials of a node refer to. */
    function Slots(n: NodeId): set<TextureId>
      requires n in nodes
    {
      set m, s | 0 <= m < |nodes[n].materials| && 0 <= s < |nodes[n].materials[m]| && nodes[n].materials[m][s].Some?
        :: nodes[n].materials[m][s].value
    }

    predicate Drawn(n: NodeId)
      requires n in nodes
    {
      nodes[n].kind in {Mesh, Line, LineSegments, Points}
    }

    function Vertices(n: NodeId): int
      requires n in nodes
    {
      if Drawn(n) && nodes[n].positions.Some? then nodes[n].positions.value else 0
    }

    function DrawCalls(n: NodeId): int
      requires n in nodes
    {
      if Drawn(n) then 1 else 0
    }

    function Instances(n: NodeId): int
      requires n in nodes
    {
      if Drawn(n) && nodes[n].instanced && nodes[n].count.Some? then nodes[n].count.value else 0
    }

    predicate BadIndex(n: NodeId)
      requires n in nodes
    {
      Drawn(n) && !nodes[n].index
    }

    /** The data textures of a drawn node. */
    function DataTextures(n: NodeId): set<TextureId>
      requires n in nodes && Closed()
    {
      if Drawn(n) then set t | t in Slots(n) && textures[t].isData else {}
    }
  }

  // ---------------------------------------------------------------- routes

  /** How a node is reached from the root: which child to take at every level. */
  type Route = seq<nat>

  function End(scene: Scene, root: NodeId, route: Route): (r: Option<NodeId>)
    requires scene.Closed() && root in scene.nodes
    ensures r.Some? ==> r.value in scene.nodes
  {
    if route == [] then Some(root)
    else
      var parent, i := End(scene, root, route[..|route| - 1]), route[|route| - 1];
      if parent.Some? && i < |scene.nodes[parent.value].children| then
        var child := scene.nodes[parent.value].children[i];
        assert child in scene.nodes[parent.value].children;
        Some(child)
      else None
  }

  predicate IsRoute(scene: Scene, root: NodeId, route: Route)
    requires scene.Closed() && root in scene.nodes
  {
    End(scene, root, route).Some?
  }

  /** No node is reached in two ways, and none from too far away. */
  ghost predicate IsShallowTree(scene: Scene, root: NodeId)
    requires scene.Closed() && root in scene.nodes
  {
    && (forall p, q :: (IsRoute(scene, root, p) && End(scene, root, p) == End(scene, root, q)) ==> p == q)
    && (forall p :: IsRoute(scene, root, p) ==> |p| <= MAX_DEPTH)
  }

  ghost predicate Reachable(scene: Scene, root: NodeId, n: NodeId)
    requires scene.Closed() && root in scene.nodes
  {
    exists p :: End(scene, root, p) == Some(n)
  }

  lemma {:induction false} PrefixIsRoute(scene: Scene, root: NodeId, route: Route, prefix: Route)
    requires scene.Closed() && root in scene.nodes
    requires IsRoute(scene, root, route) && prefix <= route
    ensures IsRoute(scene, root, prefix)
    ensures prefix != route ==>
              route[|prefix|] < |scene.nodes[End(scene, root, prefix).value].children|
              && prefix + [route[|prefix|]] <= route
    decreases |route|
  {
    if prefix != route {
      var shorter := route[..|route| - 1];
      assert prefix <= shorter;
      PrefixIsRoute(scene, root, shorter, prefix);
    }
  }

  lemma ChildRoute(scene: Scene, root: NodeId, route: Route, i: nat)
    requires scene.Closed() && root in scene.nodes && IsRoute(scene, root, route)
    requires i < |scene.nodes[End(scene, root, route).value].children|
    ensures End(scene, root, route + [i]) == Some(scene.nodes[End(scene, root, route).value].children[i])
  {
    assert (route + [i])[..|route|] == route;
  }

  // ---------------------------------------------------------------- sums over sets

  ghost function Pick(s: set<int>): (x: int)
    requires s != {}
    ensures x in s
  {
    assert exists x :: x in s by {
      if forall x :: x !in s { assert false; }
    }
    var x :| x in s;
    x
  }

  /** The sum of a measure over a set, each element counted once. */
  ghost function Sum(s: set<int>, f: int -> int): int {
    if s == {} then 0
    else
      var x := Pick(s);
      f(x) + Sum(s - {x}, f)
  }

  lemma {:induction false} SumAdds(s: set<int>, x: int, f: int -> int)
    requires x !in s
    ensures Sum(s + {x}, f) == Sum(s, f) + f(x)
    decreases |s|
  {
    var all := s + {x};
    var y := Pick(all);
    if y == x {
      assert all - {y} == s;
    } else {
      SumAdds(s - {y}, x, f);
      assert all - {y} == s - {y} + {x};
      SumAdds(s - {y}, y, f);
      assert s - {y} + {y} == s;
    }
  }

  // ---------------------------------------------------------------- the walk

  datatype Rule =
    | InvalidReturnType | CycleDetected | DepthLimitExceeded | InvalidGeometryIndex | EmptyScene
    | BoundingBoxOutOfRange | VertexLimitExceeded | DrawCallLimitExceeded | InstanceLimitExceeded | TextureDataExceeded

  function VerticesOf(scene: Scene): int -> int {
    n => if n in scene.nodes then scene.Vertices(n) else 0
  }

  function DrawCallsOf(scene: Scene): int -> int {
    n => if n in scene.nodes then scene.DrawCalls(n) else 0
  }

  function InstancesOf(scene: Scene): int -> int {
    n => if n in scene.nodes then scene.Instances(n) else 0
  }

  function Bytes(scene: Scene): int -> int {
    t => if t in scene.textures then scene.textures[t].bytes else 0
  }

  /** The data textures in the first rows of slots, and in the first slots of the row after them. */
  function DataIn(scene: Scene, materials: seq<seq<Option<TextureId>>>, rows: nat, slots: nat): set<TextureId>
    requires rows <= |materials|
  {
    set m, s | 0 <= m < |materials| && 0 <= s < |materials[m]| && (m < rows || (m == rows && s < slots))
               && materials[m][s].Some? && materials[m][s].value in scene.textures
               && scene.textures[materials[m][s].value].isData
      :: materials[m][s].value
  }

  lemma DataInNext(scene: Scene, materials: seq<seq<Option<TextureId>>>, m: nat, s: nat)
    requires m < |materials| && s < |materials[m]|
    ensures var slot := materials[m][s];
            DataIn(scene, materials, m, s + 1) == DataIn(scene, materials, m, s)
              + if slot.Some? && slot.value in scene.textures && scene.textures[slot.value].isData then {slot.value} else {}
  {
  }

  lemma DataInRow(scene: Scene, materials: seq<seq<Option<TextureId>>>, m: nat)
    requires m < |materials|
    ensures DataIn(scene, materials, m, |materials[m]|) == DataIn(scene, materials, m + 1, 0)
  {
  }

  lemma SlotsAreTextures(scene: Scene, n: NodeId)
    requires scene.Closed() && n in scene.nodes
    ensures var materials := scene.nodes[n].materials;
            forall m, s :: (0 <= m < |materials| && 0 <= s < |materials[m]| && materials[m][s].Some?) ==>
              materials[m][s].value in scene.textures
    ensures scene.Drawn(n) ==> DataIn(scene, scene.nodes[n].materials, |scene.nodes[n].materials|, 0) == scene.DataTextures(n)
  {
    forall m, s | 0 <= m < |scene.nodes[n].materials| && 0 <= s < |scene.nodes[n].materials[m]|
                  && scene.nodes[n].materials[m][s].Some?
      ensures scene.nodes[n].materials[m][s].value in scene.Slots(n)
    {
    }
  }

  /** What one more node adds to each of the sums. */
  lemma OneMore(scene: Scene, visited: set<NodeId>, node: NodeId)
    requires node in scene.nodes && node !in visited
    ensures Sum(visited + {node}, VerticesOf(scene)) == Sum(visited, VerticesOf(scene)) + scene.Vertices(node)
    ensures Sum(visited + {node}, DrawCallsOf(scene)) == Sum(visited, DrawCallsOf(scene)) + scene.DrawCalls(node)
    ensures Sum(visited + {node}, InstancesOf(scene)) == Sum(visited, InstancesOf(scene)) + scene.Instances(node)
  {
    hide Sum, scene.Vertices, scene.DrawCalls, scene.Instances;
    SumAdds(visited, node, VerticesOf(scene));
    SumAdds(visited, node, DrawCallsOf(scene));
    SumAdds(visited, node, InstancesOf(scene));
  }

  type Routes = map<NodeId, Route>

  /** The route is the one by which its end was visited. */
  predicate Recorded(scene: Scene, root: NodeId, routes: Routes, route: Route)
    requires scene.Closed() && root in scene.nodes
  {
    var n := End(scene, root, route);
    n.Some? && n.value in routes && routes[n.value] == route
  }

  /** Nothing was visited by continuing this route. */
  predicate Unexplored(routes: Routes, route: Route) {
    forall n :: n in routes ==> !(route <= routes[n])
  }

  /** Everything that can be reached by continuing this route was visited that way. */
  ghost predicate Explored(scene: Scene, root: NodeId, routes: Routes, route: Route)
    requires scene.Closed() && root in scene.nodes
  {
    forall r :: route <= r && IsRoute(scene, root, r) ==> Recorded(scene, root, routes, r)
  }

  /** What a walk at the end of a route adds: nodes reached by continuing it. */
  predicate Grew(before: Routes, after: Routes, route: Route) {
    && (forall n :: n in before ==> n in after && after[n] == before[n])
    && (forall n :: n in after && n !in before ==> route <= after[n])
  }

  lemma StillExplored(scene: Scene, root: NodeId, before: Routes, after: Routes, explored: Route, route: Route)
    requires scene.Closed() && root in scene.nodes
    requires Explored(scene, root, before, explored) && Grew(before, after, route)
    ensures Explored(scene, root, after, explored)
  {
    forall r | explored <= r && IsRoute(scene, root, r) ensures Recorded(scene, root, after, r) {
      assert Recorded(scene, root, before, r);
    }
  }

  lemma ChildrenExplored(scene: Scene, root: NodeId, routes: Routes, route: Route, count: nat)
    requires scene.Closed() && root in scene.nodes && Recorded(scene, root, routes, route)
    requires count == |scene.nodes[End(scene, root, route).value].children|
    requires forall k :: 0 <= k < count ==> Explored(scene, root, routes, route + [k])
    ensures Explored(scene, root, routes, route)
  {
    forall r | route <= r && IsRoute(scene, root, r) ensures Recorded(scene, root, routes, r) {
      PrefixIsRoute(scene, root, r, route);
      if r != route { assert Explored(scene, root, routes, route + [r[|route|]]); }
    }
  }

  class Walker {
    const scene: Scene
    const root: NodeId
    var visited: set<NodeId>
    var vertices: int
    var drawCalls: int
    var maxDepth: int
    var instances: int
    var countedTextures: set<TextureId>
    var textureBytes: int
    var walkAborted: bool
    var failures: seq<Rule>

    /** The route by which each visited node was reached. */
    ghost var routes: Routes

    ghost predicate Rooted()
    {
      scene.Closed() && root in scene.nodes
    }

    ghost predicate RoutesValid()
      requires Rooted()
      reads this`visited, this`routes
    {
      && visited == routes.Keys && visited <= scene.nodes.Keys
      && forall n :: n in routes ==> End(scene, root, routes[n]) == Some(n) && |routes[n]| <= MAX_DEPTH
    }

    /** The counters are sums over the visited nodes. */
    ghost predicate Counted()
      requires Rooted()
      reads this`visited, this`vertices, this`drawCalls, this`instances, this`countedTextures, this`textureBytes
    {
      && visited <= scene.nodes.Keys
      && vertices == Sum(visited, VerticesOf(scene))
      && drawCalls == Sum(visited, DrawCallsOf(scene))
      && instances == Sum(visited, InstancesOf(scene))
      && (forall t :: t in countedTextures <==> exists n :: n in visited && t in scene.DataTextures(n))
      && textureBytes == Sum(countedTextures, Bytes(scene))
    }

    ghost predicate DepthCounted()
      reads this`routes, this`maxDepth
    {
      && (forall n :: n in routes ==> |routes[n]| <= maxDepth)
      && (routes != map[] ==> exists n :: n in routes && |routes[n]| == maxDepth)
      && (routes == map[] ==> maxDepth == 0)
    }

    ghost predicate IndexesChecked()
      requires Rooted()
      reads this`visited, this`failures, this`walkAborted
    {
      && visited <= scene.nodes.Keys
      && (InvalidGeometryIndex in failures <==> exists n :: n in visited && scene.BadIndex(n))
      && (forall r :: r in failures ==> r == InvalidGeometryIndex || (walkAborted && r in {CycleDetected, DepthLimitExceeded}))
    }

    ghost predicate Valid()
      reads this
    {
      Rooted() && RoutesValid() && Counted() && DepthCounted() && IndexesChecked()
    }

    constructor (scene: Scene, root: NodeId)
      requires scene.Closed() && root in scene.nodes
      ensures Valid() && this.scene == scene && this.root == root && routes == map[] && failures == [] && !walkAborted
    {
      this.scene, this.root := scene, root;
      visited, vertices, drawCalls, maxDepth, instances := {}, 0, 0, 0, 0;
      countedTextures, textureBytes, walkAborted, failures := {}, 0, false, [];
      routes := map[];
    }

    /** Adds the bytes of each data texture that was not counted before. */
    method CollectTextureBytes(materials: seq<seq<Option<TextureId>>>)
      requires forall m, s :: 0 <= m < |materials| && 0 <= s < |materials[m]| && materials[m][s].Some? ==>
                 materials[m][s].value in scene.textures
      requires textureBytes == Sum(countedTextures, Bytes(scene))
      modifies this`countedTextures, this`textureBytes
      ensures textureBytes == Sum(countedTextures, Bytes(scene))
      ensures forall t :: t in countedTextures <==> (t in old(countedTextures) || t in DataIn(scene, materials, |materials|, 0))
    {
      for m := 0 to |materials|
        invariant textureBytes == Sum(countedTextures, Bytes(scene))
        invariant forall t :: t in countedTextures <==> (t in old(countedTextures) || t in DataIn(scene, materials, m, 0))
      {
        for s := 0 to |materials[m]|
          invariant textureBytes == Sum(countedTextures, Bytes(scene))
          invariant forall t :: t in countedTextures <==> (t in old(countedTextures) || t in DataIn(scene, materials, m, s))
        {
          DataInNext(scene, materials, m, s);
          var slot := materials[m][s];
          if slot.None? || !scene.textures[slot.value].isData || slot.value in countedTextures {
            continue;
          }
          SumAdds(countedTextures, slot.value, Bytes(scene));
          countedTextures := countedTextures + {slot.value};
          textureBytes := textureBytes + scene.textures[slot.value].bytes;
        }
        DataInRow(scene, materials, m);
      }
    }

    /** Counts what a node draws. */
    method Draw(node: NodeId)
      requires Rooted() && node in scene.nodes && textureBytes == Sum(countedTextures, Bytes(scene))
      modifies this`vertices, this`drawCalls, this`instances, this`countedTextures, this`textureBytes, this`failures
      ensures vertices == old(vertices) + scene.Vertices(node)
      ensures drawCalls == old(drawCalls) + scene.DrawCalls(node)
      ensures instances == old(instances) + scene.Instances(node)
      ensures forall t :: t in countedTextures <==> (t in old(countedTextures) || t in scene.DataTextures(node))
      ensures textureBytes == Sum(countedTextures, Bytes(scene))
      ensures failures == old(failures) + if scene.BadIndex(node) then [InvalidGeometryIndex] else []
    {
      hide Sum, DataIn;
      var it := scene.nodes[node];
      if it.kind in {Mesh, Line, LineSegments, Points} {
        drawCalls := drawCalls + 1;
        if !it.index {
          failures := failures + [InvalidGeometryIndex];
        }
        if it.positions.Some? {
          vertices := vertices + it.positions.value;
        }
        if it.instanced && it.count.Some? {
          instances := instances + it.count.value;
        }
        SlotsAreTextures(scene, node);
        CollectTextureBytes(it.materials);
      }
    }

    /** Counts one node that was not visited before. */
    method Enter(node: NodeId, depth: nat, ghost route: Route)
      requires Valid() && !walkAborted && node !in visited
      requires End(scene, root, route) == Some(node) && depth == |route| <= MAX_DEPTH
      modifies this
      ensures Valid() && !walkAborted && routes == old(routes)[node := route]
    {
      hide Sum, End, scene.Closed, scene.DataTextures, scene.BadIndex, scene.Vertices, scene.DrawCalls, scene.Instances;
      hide VerticesOf, DrawCallsOf, InstancesOf, Bytes;
      OneMore(scene, visited, node);
      Reach(node, depth, route);
      Draw(node);
      assert Counted();
      assert IndexesChecked();
    }

    method Reach(node: NodeId, depth: nat, ghost route: Route)
      requires Rooted() && RoutesValid() && DepthCounted() && node !in visited
      requires End(scene, root, route) == Some(node) && depth == |route| <= MAX_DEPTH
      modifies this`visited, this`routes, this`maxDepth
      ensures RoutesValid() && DepthCounted() && visited == old(visited) + {node} && routes == old(routes)[node := route]
    {
      hide End, scene.Closed;
      visited := visited + {node};
      routes := routes[node := route];
      if depth > maxDepth {
        maxDepth := depth;
      }
      assert node in routes && |routes[node]| == depth;
      if depth < maxDepth {
        ghost var n :| n in old(routes) && |old(routes)[n]| == maxDepth;
        assert n in routes && |routes[n]| == maxDepth;
      }
    }

    /** The reason given for an aborted walk is right. */
    ghost predicate AbortExplained()
      requires Rooted()
      reads this`failures
    {
      && failures != []
      && match failures[|failures| - 1]
         case CycleDetected => exists p, q :: p != q && IsRoute(scene, root, p) && End(scene, root, p) == End(scene, root, q)
         case DepthLimitExceeded => exists p :: IsRoute(scene, root, p) && |p| == MAX_DEPTH + 1
         case _ => false
    }

    method Abort(rule: Rule)
      requires Valid() && rule in {CycleDetected, DepthLimitExceeded}
      modifies this`failures, this`walkAborted
      ensures Valid() && walkAborted && failures == old(failures) + [rule]
    {
      hide RoutesValid, Counted, DepthCounted, End, scene.Closed;
      failures := failures + [rule];
      walkAborted := true;
    }

    /** Walks what can be reached from a node, and gives up at a node seen before or too deep. */
    method Walk(node: NodeId, depth: nat, ghost route: Route)
      requires Valid() && !walkAborted && Unexplored(routes, route)
      requires End(scene, root, route) == Some(node) && depth == |route| <= MAX_DEPTH + 1
      modifies this
      ensures Valid()
      ensures walkAborted ==> AbortExplained()
      ensures !walkAborted ==> Grew(old(routes), routes, route) && Explored(scene, root, routes, route)
      decreases MAX_DEPTH + 1 - depth
    {
      hide End, Counted, DepthCounted, IndexesChecked, scene.Closed;
      if node in visited {
        assert routes[node] != route && IsRoute(scene, root, routes[node]);
        Abort(CycleDetected);
        return;
      }
      if depth > MAX_DEPTH {
        assert IsRoute(scene, root, route);
        Abort(DepthLimitExceeded);
        return;
      }
      Enter(node, depth, route);
      var children := scene.nodes[node].children;
      for i := 0 to |children|
        invariant Valid() && !walkAborted
        invariant Grew(old(routes), routes, route) && Recorded(scene, root, routes, route)
        invariant forall n :: n in routes && route < routes[n] ==> routes[n][|route|] < i
        invariant forall k :: 0 <= k < i ==> Explored(scene, root, routes, route + [k])
      {
        ChildRoute(scene, root, route, i);
        ghost var before := routes;
        Walk(children[i], depth + 1, route + [i]);
        if walkAborted {
          return;
        }
        forall k | 0 <= k < i ensures Explored(scene, root, routes, route + [k]) {
          StillExplored(scene, root, before, routes, route + [k], route + [i]);
        }
      }
      ChildrenExplored(scene, root, routes, route, |children|);
    }
  }

  // ---------------------------------------------------------------- the verdict

  const MAX_VERTICES := 250_000
  const MAX_DRAW_CALLS := 200
  const MAX_INSTANCES := 50_000
  const MAX_TEXTURE_BYTES := 4 * 1_048_576

  datatype Vector = Vector(x: real, y: real, z: real)

  /** The bounding box that the graphics library reports. */
  datatype Box = Empty | Box(min: Vector, max: Vector) {
    predicate OutOfRange()
      requires Box?
    {
      || min.x < -0.5 || min.y < -0.5 || min.z < -0.5
      || max.x > 0.5 || max.y > 0.5 || max.z > 0.5
    }
  }

  datatype Metrics = Metrics(vertices: int, drawCalls: int, depth: nat, instances: int, textureBytes: int)

  const WRAPPER: NodeId := -1

  /** A root that is not a group is put into a new one. */
  function Framed(scene: Scene, root: NodeId): (r: (Scene, NodeId))
    requires scene.Closed() && root in scene.nodes && WRAPPER !in scene.nodes
    ensures r.0.Closed() && r.1 in r.0.nodes
  {
    if scene.nodes[root].kind == Group then (scene, root)
    else
      var framed := scene.(nodes := scene.nodes[WRAPPER := Node(Group, false, true, None, None, [], [root])]);
      FramedIsClosed(scene, root);
      (framed, WRAPPER)
  }

  lemma FramedIsClosed(scene: Scene, root: NodeId)
    requires scene.Closed() && root in scene.nodes && WRAPPER !in scene.nodes
    ensures scene.(nodes := scene.nodes[WRAPPER := Node(Group, false, true, None, None, [], [root])]).Closed()
  {
    var framed := scene.(nodes := scene.nodes[WRAPPER := Node(Group, false, true, None, None, [], [root])]);
    forall n, t | n in framed.nodes && t in framed.Slots(n) ensures t in framed.textures {
      if n != WRAPPER { assert framed.Slots(n) == scene.Slots(n); }
    }
  }

  ghost function ReachedNodes(scene: Scene, root: NodeId): set<NodeId>
    requires scene.Closed() && root in scene.nodes
  {
    set n | n in scene.nodes && Reachable(scene, root, n)
  }

  ghost function ReachedTextures(scene: Scene, root: NodeId): set<TextureId>
    requires scene.Closed() && root in scene.nodes
  {
    set n, t | n in ReachedNodes(scene, root) && t in scene.DataTextures(n) :: t
  }

  /** What the walk must measure: sums over everything reachable, each node and each texture counted once. */
  ghost predicate Measures(scene: Scene, root: NodeId, m: Metrics)
    requires scene.Closed() && root in scene.nodes
  {
    && m.vertices == Sum(ReachedNodes(scene, root), VerticesOf(scene))
    && m.drawCalls == Sum(ReachedNodes(scene, root), DrawCallsOf(scene))
    && m.instances == Sum(ReachedNodes(scene, root), InstancesOf(scene))
    && m.textureBytes == Sum(ReachedTextures(scene, root), Bytes(scene))
    && (forall p :: IsRoute(scene, root, p) ==> |p| <= m.depth)
    && (exists p :: IsRoute(scene, root, p) && |p| == m.depth)
  }

  ghost predicate HasBadIndex(scene: Scene, root: NodeId)
    requires scene.Closed() && root in scene.nodes
  {
    exists n :: n in ReachedNodes(scene, root) && scene.BadIndex(n)
  }

  /** Exploring from the root reaches everything, each node by its only route. */
  lemma ExploredIsTree(scene: Scene, root: NodeId, routes: Routes)
    requires scene.Closed() && root in scene.nodes && Explored(scene, root, routes, [])
    requires forall n :: n in routes ==> n in scene.nodes && End(scene, root, routes[n]) == Some(n) && |routes[n]| <= MAX_DEPTH
    ensures IsShallowTree(scene, root) && routes.Keys == ReachedNodes(scene, root)
    ensures forall p :: IsRoute(scene, root, p) <==> exists n :: n in routes && routes[n] == p
  {
    hide scene.Closed, End;
    forall p | IsRoute(scene, root, p) ensures Recorded(scene, root, routes, p) {
      assert [] <= p;
    }
    forall p, q | IsRoute(scene, root, p) && End(scene, root, p) == End(scene, root, q) ensures p == q {
      assert IsRoute(scene, root, q);
      assert Recorded(scene, root, routes, p) && Recorded(scene, root, routes, q);
    }
    forall n ensures n in routes <==> n in ReachedNodes(scene, root) {
      if n in routes { assert Reachable(scene, root, n); }
      if n in ReachedNodes(scene, root) {
        var p :| End(scene, root, p) == Some(n);
        assert IsRoute(scene, root, p);
      }
    }
  }

  /** A walk from the root that was not given up has seen a shallow tree, and has measured all of it. */
  lemma WalkedIsTree(w: Walker)
    requires w.Valid() && !w.walkAborted && Explored(w.scene, w.root, w.routes, [])
    ensures IsShallowTree(w.scene, w.root)
    ensures Measures(w.scene, w.root, Metrics(w.vertices, w.drawCalls, w.maxDepth, w.instances, w.textureBytes))
    ensures w.failures == [] <==> !HasBadIndex(w.scene, w.root)
    ensures forall r :: r in w.failures ==> r == InvalidGeometryIndex
  {
    var scene, root := w.scene, w.root;
    ExploredIsTree(scene, root, w.routes);
    RootIsReached(scene, root);
    hide Sum, scene.DataTextures, scene.BadIndex, scene.Closed, End, Explored, IsShallowTree, ReachedNodes, IsRoute;
    assert w.countedTextures == ReachedTextures(scene, root);
    assert w.failures != [] ==> w.failures[0] in w.failures;
  }

  lemma RootIsReached(scene: Scene, root: NodeId)
    requires scene.Closed() && root in scene.nodes
    ensures IsRoute(scene, root, [])
  {
  }

  lemma ExplainedIsNoTree(w: Walker)
    requires w.Rooted() && w.AbortExplained()
    ensures !IsShallowTree(w.scene, w.root)
  {
  }

  /** Some node is reached in two ways. */
  ghost predicate IsShared(scene: Scene, root: NodeId)
    requires scene.Closed() && root in scene.nodes
  {
    exists p, q :: p != q && IsRoute(scene, root, p) && End(scene, root, p) == End(scene, root, q)
  }

  ghost predicate IsTooDeep(scene: Scene, root: NodeId)
    requires scene.Closed() && root in scene.nodes
  {
    exists p :: IsRoute(scene, root, p) && |p| == MAX_DEPTH + 1
  }

  /** What a walk that was given up reports: the reason last, and bad indexes among the nodes it came across. */
  ghost predicate ReportsAbort(scene: Scene, root: NodeId, failures: seq<Rule>)
    requires scene.Closed() && root in scene.nodes
  {
    && failures != [] && (forall r :: r in failures ==> r in {InvalidGeometryIndex, CycleDetected, DepthLimitExceeded})
    && (InvalidGeometryIndex in failures ==> HasBadIndex(scene, root))
    && var reason := failures[|failures| - 1];
       (reason == CycleDetected && IsShared(scene, root)) || (reason == DepthLimitExceeded && IsTooDeep(scene, root))
  }

  /** What is reported of a scene that was measured: each rule exactly when it is broken. */
  predicate ReportsMeasures(badIndex: bool, box: Box, m: Metrics, failures: seq<Rule>) {
    && (InvalidGeometryIndex in failures <==> badIndex)
    && (EmptyScene in failures <==> box.Empty?)
    && (BoundingBoxOutOfRange in failures <==> box.Box? && box.OutOfRange())
    && (VertexLimitExceeded in failures <==> m.vertices > 250_000)
    && (DrawCallLimitExceeded in failures <==> m.drawCalls > 200)
    && (InstanceLimitExceeded in failures <==> m.instances > 50_000)
    && (TextureDataExceeded in failures <==> m.textureBytes > 4_194_304)
    && InvalidReturnType !in failures && CycleDetected !in failures && DepthLimitExceeded !in failures
  }

  lemma AbortIsReported(w: Walker)
    requires w.Valid() && w.walkAborted && w.AbortExplained()
    ensures ReportsAbort(w.scene, w.root, w.failures)
  {
    hide Sum, End, w.Counted, w.DepthCounted;
    if InvalidGeometryIndex in w.failures {
      var n :| n in w.visited && w.scene.BadIndex(n);
      assert Reachable(w.scene, w.root, n);
    }
  }

  /** A root that is put into a group is reached from it by one more step, and so is everything below it. */
  lemma {:induction false} FramedRoute(scene: Scene, root: NodeId, route: Route)
    requires scene.Closed() && root in scene.nodes && WRAPPER !in scene.nodes && scene.nodes[root].kind != Group
    ensures var framed := Framed(scene, root);
            End(framed.0, framed.1, [0] + route) == End(scene, root, route)
    decreases |route|
  {
    var framed := Framed(scene, root);
    FramedIsClosed(scene, root);
    if route == [] {
      assert [0][..0] == [];
      assert [0] + route == [0];
    } else {
      var shorter := route[..|route| - 1];
      FramedRoute(scene, root, shorter);
      assert ([0] + route)[..|route|] == [0] + shorter;
    }
  }

  /** Nothing else is: a route from the group is empty or goes on to the root. */
  lemma {:induction false} FramedRouteOnly(scene: Scene, root: NodeId, route: Route)
    requires scene.Closed() && root in scene.nodes && WRAPPER !in scene.nodes && scene.nodes[root].kind != Group
    requires var framed := Framed(scene, root); IsRoute(framed.0, framed.1, route) && route != []
    ensures route[0] == 0
    decreases |route|
  {
    var framed := Framed(scene, root);
    if |route| > 1 {
      FramedRouteOnly(scene, root, route[..|route| - 1]);
    } else {
      assert route[..0] == [];
    }
  }

  /** A root that is no group is judged as the only child of a new one, which draws nothing itself: what is reached is the
    * group and what the root reaches, and one level less is left below the root.
    */
  lemma FramedIsRootBelowGroup(scene: Scene, root: NodeId, n: NodeId)
    requires scene.Closed() && root in scene.nodes && WRAPPER !in scene.nodes && scene.nodes[root].kind != Group
    ensures var framed := Framed(scene, root);
            && (Reachable(framed.0, framed.1, n) <==> n == framed.1 || Reachable(scene, root, n))
            && framed.0.nodes[framed.1].kind == Group && !framed.0.Drawn(framed.1)
            && (forall k :: k in scene.nodes ==> k != framed.1 && k in framed.0.nodes && framed.0.nodes[k] == scene.nodes[k])
            && framed.0.textures == scene.textures
  {
    var framed := Framed(scene, root);
    if Reachable(framed.0, framed.1, n) {
      var p :| End(framed.0, framed.1, p) == Some(n);
      if p != [] {
        FramedRouteOnly(scene, root, p);
        assert p == [0] + p[1..];
        FramedRoute(scene, root, p[1..]);
      }
    }
    if Reachable(scene, root, n) {
      var p :| End(scene, root, p) == Some(n);
      FramedRoute(scene, root, p);
    }
    assert End(framed.0, framed.1, []) == Some(framed.1);
  }

  lemma FramedIsOneDeeper(scene: Scene, root: NodeId)
    requires scene.Closed() && root in scene.nodes && WRAPPER !in scene.nodes && scene.nodes[root].kind != Group
    ensures var framed := Framed(scene, root);
            IsTooDeep(framed.0, framed.1) <==> exists p :: IsRoute(scene, root, p) && |p| == MAX_DEPTH
  {
    hide End, Framed;
    var framed := Framed(scene, root);
    if IsTooDeep(framed.0, framed.1) {
      var p :| IsRoute(framed.0, framed.1, p) && |p| == MAX_DEPTH + 1;
      FramedRouteOnly(scene, root, p);
      assert p == [0] + p[1..];
      FramedRoute(scene, root, p[1..]);
      assert IsRoute(scene, root, p[1..]);
    }
    if p :| IsRoute(scene, root, p) && |p| == MAX_DEPTH {
      FramedRoute(scene, root, p);
      assert IsRoute(framed.0, framed.1, [0] + p);
    }
  }

  /** The whole check. The graph is accepted or measured exactly as its shape and its reachable parts say. */
  method PostValidate(scene: Scene, root: Option<NodeId>, box: Box)
    returns (passed: bool, failures: seq<Rule>, metrics: Option<Metrics>)
    requires scene.Closed() && WRAPPER !in scene.nodes && (root.Some? ==> root.value in scene.nodes)
    ensures passed <==> failures == []
    ensures root.None? || scene.nodes[root.value].kind !in {Group, Mesh, LineSegments, Points} ==>
              failures == [InvalidReturnType] && metrics == None
    ensures root.Some? && scene.nodes[root.value].kind in {Group, Mesh, LineSegments, Points} ==>
              var framed := Framed(scene, root.value);
              && (metrics.Some? <==> IsShallowTree(framed.0, framed.1))
              && (metrics.Some? ==> Measures(framed.0, framed.1, metrics.value)
                                    && ReportsMeasures(HasBadIndex(framed.0, framed.1), box, metrics.value, failures))
              && (metrics.None? ==> ReportsAbort(framed.0, framed.1, failures))
              && (passed <==> && metrics.Some? && !HasBadIndex(framed.0, framed.1)
                              && box.Box? && !box.OutOfRange()
                              && metrics.value.vertices <= MAX_VERTICES && metrics.value.drawCalls <= MAX_DRAW_CALLS
                              && metrics.value.instances <= MAX_INSTANCES && metrics.value.textureBytes <= MAX_TEXTURE_BYTES)
  {
    hide Sum, scene.Closed, IsShallowTree, Measures, HasBadIndex, ReportsAbort;
    if root.None? || scene.nodes[root.value].kind !in {Group, Mesh, LineSegments, Points} {
      return false, [InvalidReturnType], None;
    }
    var framed := Framed(scene, root.value);
    var w := new Walker(framed.0, framed.1);
    w.Walk(framed.1, 0, []);
    if w.walkAborted {
      ExplainedIsNoTree(w);
      AbortIsReported(w);
      return false, w.failures, None;
    }
    WalkedIsTree(w);
    metrics := Some(Metrics(w.vertices, w.drawCalls, w.maxDepth, w.instances, w.textureBytes));
    failures := HoldToLimits(w.failures, box, metrics.value);
    passed := |failures| == 0;
  }

  function Report(broken: bool, rule: Rule): (r: seq<Rule>)
    ensures forall x :: x in r <==> broken && x == rule
    ensures r == [] <==> !broken
  {
    if broken then [rule] else []
  }

  /** The limits, each with its rule. */
  method HoldToLimits(found: seq<Rule>, box: Box, m: Metrics) returns (failures: seq<Rule>)
    requires forall r :: r in found ==> r == InvalidGeometryIndex
    ensures ReportsMeasures(found != [], box, m, failures)
    ensures failures == [] <==> && found == [] && box.Box? && !box.OutOfRange()
                                && m.vertices <= MAX_VERTICES && m.drawCalls <= MAX_DRAW_CALLS
                                && m.instances <= MAX_INSTANCES && m.textureBytes <= MAX_TEXTURE_BYTES
  {
    hide box.OutOfRange, Report;
    assert found != [] ==> found[0] in found;
    var ofBox := HoldToBox(box);
    var ofCounts := HoldToCounts(m);
    failures := found + ofBox + ofCounts;
  }

  method HoldToBox(box: Box) returns (failures: seq<Rule>)
    ensures failures == Report(box.Empty?, EmptyScene) + Report(box.Box? && box.OutOfRange(), BoundingBoxOutOfRange)
  {
    failures := [];
    if box.Empty? {
      failures := failures + [EmptyScene];
    } else if box.OutOfRange() {
      failures := failures + [BoundingBoxOutOfRange];
    }
  }

  method HoldToCounts(m: Metrics) returns (failures: seq<Rule>)
    ensures failures == Report(m.vertices > MAX_VERTICES, VertexLimitExceeded)
                        + Report(m.drawCalls > MAX_DRAW_CALLS, DrawCallLimitExceeded)
                        + Report(m.instances > MAX_INSTANCES, InstanceLimitExceeded)
                        + Report(m.textureBytes > MAX_TEXTURE_BYTES, TextureDataExceeded)
  {
    failures := [];
    if m.vertices > MAX_VERTICES {
      failures := failures + [VertexLimitExceeded];
    }
    if m.drawCalls > MAX_DRAW_CALLS {
      failures := failures + [DrawCallLimitExceeded];
    }
    if m.instances > MAX_INSTANCES {
      failures := failures + [InstanceLimitExceeded];
    }
    if m.textureBytes > MAX_TEXTURE_BYTES {
      failures := failures + [TextureDataExceeded];
    }
  }
}
