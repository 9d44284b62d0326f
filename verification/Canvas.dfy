/** The pipeline document behind the canvas: which connections it refuses, and
    what every edit keeps. */
module Canvas {
  import opened Common

  datatype Node = Node(id: string, component: string, position: int, data: string)

  datatype Edge = Edge(id: string, source: string, target: string, sourceHandle: Option<string>, targetHandle: Option<string>)

  datatype Document = Document(nodes: seq<Node>, edges: seq<Edge>)

  /** A component's ports, by name. */
  datatype Spec = Spec(inputs: seq<string>, outputs: seq<string>)

  type Registry = map<string, Spec>

  const MAIN_PORT := "main"

  // -------------------------------------------------------------------------
  // Reachability
  // -------------------------------------------------------------------------

  ghost predicate Linked(edges: seq<Edge>, a: string, b: string) {
    exists i :: 0 <= i < |edges| && edges[i].source == a && edges[i].target == b
  }

  ghost predicate Path(edges: seq<Edge>, path: seq<string>) {
    |path| > 0 && forall i :: 0 < i < |path| ==> Linked(edges, path[i - 1], path[i])
  }

  ghost predicate PathFrom(edges: seq<Edge>, path: seq<string>, a: string, b: string) {
    Path(edges, path) && path[0] == a && path[|path| - 1] == b
  }

  /** There is a way along the edges, perhaps of no steps at all. */
  ghost predicate Reaches(edges: seq<Edge>, a: string, b: string) {
    exists path :: PathFrom(edges, path, a, b)
  }

  /** No edge's source is reached from its target. */
  ghost predicate Acyclic(edges: seq<Edge>) {
    forall i :: 0 <= i < |edges| ==> !Reaches(edges, edges[i].target, edges[i].source)
  }

  lemma ReachesSelf(edges: seq<Edge>, a: string)
    ensures Reaches(edges, a, a)
  {
    assert PathFrom(edges, [a], a, a);
  }

  lemma ReachesOn(edges: seq<Edge>, a: string, b: string, c: string)
    requires Reaches(edges, a, b) && Linked(edges, b, c)
    ensures Reaches(edges, a, c)
  {
    var path :| PathFrom(edges, path, a, b);
    assert PathFrom(edges, path + [c], a, c);
  }

  lemma {:induction false} ReachesJoin(edges: seq<Edge>, a: string, b: string, path: seq<string>)
    requires Reaches(edges, a, b) && Path(edges, path) && path[0] == b
    ensures Reaches(edges, a, path[|path| - 1])
  {
    if |path| > 1 {
      ReachesJoin(edges, a, b, path[..|path| - 1]);
      ReachesOn(edges, a, path[|path| - 2], path[|path| - 1]);
    }
  }

  /** A set that no edge leaves has no way out. */
  lemma {:induction false} NoWayOut(edges: seq<Edge>, inside: set<string>, path: seq<string>)
    requires Path(edges, path) && path[0] in inside
    requires forall i :: 0 <= i < |edges| && edges[i].source in inside ==> edges[i].target in inside
    ensures path[|path| - 1] in inside
  {
    if |path| > 1 {
      NoWayOut(edges, inside, path[..|path| - 1]);
    }
  }

  function Targets(edges: seq<Edge>): set<string> {
    set i | 0 <= i < |edges| :: edges[i].target
  }

  /** The walk so far: everything met can be reached, and every edge out of what
      was seen leads to what was seen or is yet to be. */
  ghost predicate Walked(edges: seq<Edge>, target: string, seen: set<string>, frontier: seq<string>) {
    && (forall x :: x in seen || x in frontier ==> Reaches(edges, target, x))
    && (target in seen || target in frontier)
    && (forall i :: 0 <= i < |edges| && edges[i].source in seen ==> edges[i].target in seen || edges[i].target in frontier)
  }

  lemma StepsOver(edges: seq<Edge>, target: string, seen: set<string>, rest: seq<string>, current: string)
    requires Walked(edges, target, seen, rest + [current]) && current in seen
    ensures Walked(edges, target, seen, rest)
  {
    assert forall x :: x in rest ==> x in rest + [current];
    assert forall x :: x in rest + [current] ==> x in rest || x == current;
  }

  lemma Visits(edges: seq<Edge>, target: string, seen: set<string>, rest: seq<string>, current: string, more: seq<string>)
    requires Walked(edges, target, seen, rest + [current]) && rest <= more
    requires forall x :: x in more ==> x in rest || Linked(edges, current, x)
    requires forall i :: 0 <= i < |edges| && edges[i].source == current ==> edges[i].target in more
    ensures Walked(edges, target, seen + {current}, more)
  {
    assert forall x :: x in rest + [current] <==> x in rest || x == current;
    forall x | x in more ensures Reaches(edges, target, x) {
      if x !in rest { ReachesOn(edges, target, current, x); }
    }
  }

  /** What can be met: the target, and where edges lead. */
  ghost predicate Within(all: set<string>, seen: set<string>, frontier: seq<string>) {
    seen <= all && forall x :: x in frontier ==> x in all
  }

  /** Whether an edge from `source` to `target` would close a cycle. */
  method WouldCycle(source: string, target: string, document: Document) returns (r: bool)
    ensures r <==> Reaches(document.edges, target, source)
  {
    var edges := document.edges;
    var seen: set<string>, frontier := {}, [target];
    ghost var all := Targets(edges) + {target};
    ReachesSelf(edges, target);
    while frontier != []
      invariant Within(all, seen, frontier) && Walked(edges, target, seen, frontier) && source !in seen
      decreases |all - seen|, |frontier|
    {
      var n := |frontier| - 1;
      var current, rest := frontier[n], frontier[..n];
      assert frontier == rest + [current];
      if current in seen {
        StepsOver(edges, target, seen, rest, current);
        frontier := rest;
        continue;
      }
      if current == source { return true; }
      var more := PushTargets(edges, current, rest);
      Visits(edges, target, seen, rest, current, more);
      SmallerSet(all - (seen + {current}), all - seen);
      seen, frontier := seen + {current}, more;
    }
    if Reaches(edges, target, source) {
      var path :| PathFrom(edges, path, target, source);
      NoWayOut(edges, seen, path);
    }
    r := false;
  }

  method PushTargets(edges: seq<Edge>, current: string, frontier: seq<string>) returns (more: seq<string>)
    ensures frontier <= more
    ensures forall x :: x in more ==> x in frontier || Linked(edges, current, x)
    ensures forall i :: 0 <= i < |edges| && edges[i].source == current ==> edges[i].target in more
  {
    more := frontier;
    for i := 0 to |edges|
      invariant frontier <= more
      invariant forall x :: x in more ==> x in frontier || Linked(edges, current, x)
      invariant forall j :: 0 <= j < i && edges[j].source == current ==> edges[j].target in more
    {
      if edges[i].source == current {
        assert Linked(edges, current, edges[i].target);
        more := more + [edges[i].target];
      }
    }
  }

  // -------------------------------------------------------------------------
  // Well-formed documents
  // -------------------------------------------------------------------------

  /** The first node with an id. */
  function Find(nodes: seq<Node>, id: string): Option<Node> {
    if nodes == [] then None else if nodes[0].id == id then Some(nodes[0]) else Find(nodes[1..], id)
  }

  /** The ports of the component of a node. */
  function SpecOf(nodes: seq<Node>, specs: Registry, id: string): Option<Spec> {
    match Find(nodes, id)
    case None => None
    case Some(node) => Get(specs, node.component)
  }

  function FirstInput(spec: Option<Spec>): Option<string> {
    if spec.Some? && spec.value.inputs != [] then Some(spec.value.inputs[0]) else None
  }

  /** The input an edge goes into: the one it names, or its target's first. */
  function Port(nodes: seq<Node>, specs: Registry, edge: Edge): Option<string> {
    if edge.targetHandle.Some? then edge.targetHandle else FirstInput(SpecOf(nodes, specs, edge.target))
  }

  /** Different ids, and not into the same input. */
  predicate Apart(nodes: seq<Node>, specs: Registry, a: Edge, b: Edge) {
    a.id != b.id && !(a.target == b.target && Port(nodes, specs, a) == Port(nodes, specs, b))
  }

  predicate Present(nodes: seq<Node>, id: string) {
    Find(nodes, id).Some?
  }

  ghost predicate AllApart(nodes: seq<Node>, specs: Registry, edges: seq<Edge>) {
    forall i, j :: 0 <= i < j < |edges| ==> Apart(nodes, specs, edges[i], edges[j])
  }

  ghost predicate Anchored(nodes: seq<Node>, edges: seq<Edge>) {
    forall i :: 0 <= i < |edges| ==> Present(nodes, edges[i].source) && Present(nodes, edges[i].target)
  }

  ghost predicate UniqueNodes(nodes: seq<Node>) {
    forall i, j :: 0 <= i < j < |nodes| ==> nodes[i].id != nodes[j].id
  }

  ghost predicate WellFormed(document: Document, specs: Registry) {
    && UniqueNodes(document.nodes) && Anchored(document.nodes, document.edges)
    && AllApart(document.nodes, specs, document.edges) && Acyclic(document.edges)
  }

  /** As a document without nodes is. */
  lemma EmptyIsWellFormed(specs: Registry)
    ensures WellFormed(Document([], []), specs)
  {
  }

  // -------------------------------------------------------------------------
  // Connecting
  // -------------------------------------------------------------------------

  datatype Connection = Connection(source: string, target: string, sourceHandle: Option<string>, targetHandle: Option<string>)

  datatype Reason = Itself | NotOnCanvas | NotRegistered | NoOutputs | NoInputs | NoSuchOutput | NoSuchInput | AlreadyWired | Loop

  function HandleOf(connection: Connection, spec: Spec): Option<string> {
    if connection.targetHandle.Some? then connection.targetHandle else FirstInput(Some(spec))
  }

  /** Why a connection is refused, if it is. */
  ghost function Refusal(connection: Connection, document: Document, specs: Registry): Option<Reason> {
    var Connection(source, target, sourceHandle, targetHandle) := connection;
    if source == target then Some(Itself)
    else if !Present(document.nodes, source) || !Present(document.nodes, target) then Some(NotOnCanvas)
    else if SpecOf(document.nodes, specs, source).None? || SpecOf(document.nodes, specs, target).None? then Some(NotRegistered)
    else
      var from, to := SpecOf(document.nodes, specs, source).value, SpecOf(document.nodes, specs, target).value;
      var handle := HandleOf(connection, to);
      if from.outputs == [] then Some(NoOutputs)
      else if to.inputs == [] then Some(NoInputs)
      else if (if sourceHandle.Some? then sourceHandle.value else MAIN_PORT) !in from.outputs then Some(NoSuchOutput)
      else if handle.None? || handle.value == "" || handle.value !in to.inputs then Some(NoSuchInput)
      else if Occupied(document, specs, target, handle) then Some(AlreadyWired)
      else if Reaches(document.edges, target, source) then Some(Loop)
      else None
  }

  ghost predicate Occupied(document: Document, specs: Registry, target: string, handle: Option<string>) {
    exists i :: 0 <= i < |document.edges| && document.edges[i].target == target && Port(document.nodes, specs, document.edges[i]) == handle
  }

  /** The input an edge or a connection means for a target with `inputs`: the one
      named, or the first. */
  function InputOf(handle: Option<string>, inputs: seq<string>): string
    requires inputs != []
  {
    if handle.Some? then handle.value else inputs[0]
  }

  /** A connection is accepted exactly when it is between two nodes on the canvas
      whose components are registered, from an output the one has to an input the
      other has, which is named, free, and closes no loop. */
  lemma AcceptedIff(connection: Connection, document: Document, specs: Registry)
    ensures Refusal(connection, document, specs) == None <==>
      var from, to := SpecOf(document.nodes, specs, connection.source), SpecOf(document.nodes, specs, connection.target);
      && connection.source != connection.target && from.Some? && to.Some?
      && (if connection.sourceHandle.Some? then connection.sourceHandle.value else "main") in from.value.outputs
      && to.value.inputs != [] && InputOf(connection.targetHandle, to.value.inputs) in to.value.inputs
      && InputOf(connection.targetHandle, to.value.inputs) != ""
      && (forall i :: 0 <= i < |document.edges| && document.edges[i].target == connection.target ==>
            InputOf(document.edges[i].targetHandle, to.value.inputs) != InputOf(connection.targetHandle, to.value.inputs))
      && !Reaches(document.edges, connection.target, connection.source)
  {
  }

  method RefuseConnection(connection: Connection, document: Document, specs: Registry) returns (r: Option<Reason>)
    ensures r == Refusal(connection, document, specs)
  {
    var Connection(source, target, sourceHandle, targetHandle) := connection;
    if source == target { return Some(Itself); }
    var sourceNode, targetNode := Find(document.nodes, source), Find(document.nodes, target);
    if sourceNode.None? || targetNode.None? { return Some(NotOnCanvas); }
    var from, to := Get(specs, sourceNode.value.component), Get(specs, targetNode.value.component);
    if from.None? || to.None? { return Some(NotRegistered); }
    var handle := HandleOf(connection, to.value);
    if from.value.outputs == [] { return Some(NoOutputs); }
    if to.value.inputs == [] { return Some(NoInputs); }
    if (if sourceHandle.Some? then sourceHandle.value else MAIN_PORT) !in from.value.outputs { return Some(NoSuchOutput); }
    if handle.None? || handle.value == "" || handle.value !in to.value.inputs { return Some(NoSuchInput); }
    for i := 0 to |document.edges|
      invariant forall j :: 0 <= j < i ==> !(document.edges[j].target == target && Port(document.nodes, specs, document.edges[j]) == handle)
    {
      var edge := document.edges[i];
      var port := if edge.targetHandle.Some? then edge.targetHandle else FirstInput(to);
      if edge.target == target && port == handle { return Some(AlreadyWired); }
    }
    var loops := WouldCycle(source, target, document);
    r := if loops then Some(Loop) else None;
  }

  function Added(document: Document, connection: Connection, id: string): Document {
    var handle := if connection.targetHandle == Some("") then None else connection.targetHandle;
    var sourceHandle := if connection.sourceHandle.Some? then connection.sourceHandle else Some(MAIN_PORT);
    document.(edges := document.edges + [Edge(id, connection.source, connection.target, sourceHandle, handle)])
  }

  /** One edge more: what it makes reachable goes through it. */
  lemma {:induction false} OneMore(edges: seq<Edge>, e: Edge, path: seq<string>)
    requires Path(edges + [e], path)
    ensures Reaches(edges, path[0], path[|path| - 1])
         || (Reaches(edges, path[0], e.source) && Reaches(edges, e.target, path[|path| - 1]))
  {
    var a, b := path[0], path[|path| - 1];
    if |path| == 1 {
      ReachesSelf(edges, a);
    } else {
      var c := path[|path| - 2];
      OneMore(edges, e, path[..|path| - 1]);
      assert Linked(edges + [e], c, b);
      if Linked(edges, c, b) {
        if Reaches(edges, a, c) { ReachesOn(edges, a, c, b); }
        if Reaches(edges, e.target, c) { ReachesOn(edges, e.target, c, b); }
      } else {
        var i :| 0 <= i < |edges| + 1 && (edges + [e])[i].source == c && (edges + [e])[i].target == b;
        if i < |edges| { assert Linked(edges, c, b); }
        ReachesSelf(edges, e.target);
      }
    }
  }

  lemma ReachesThrough(edges: seq<Edge>, a: string, b: string, c: string)
    requires Reaches(edges, a, b) && Reaches(edges, b, c)
    ensures Reaches(edges, a, c)
  {
    var path :| PathFrom(edges, path, b, c);
    ReachesJoin(edges, a, b, path);
  }

  lemma AddedAcyclic(edges: seq<Edge>, e: Edge)
    requires Acyclic(edges) && !Reaches(edges, e.target, e.source)
    ensures Acyclic(edges + [e])
  {
    var more := edges + [e];
    forall i | 0 <= i < |more| ensures !Reaches(more, more[i].target, more[i].source) {
      if Reaches(more, more[i].target, more[i].source) {
        var path :| PathFrom(more, path, more[i].target, more[i].source);
        OneMore(edges, e, path);
        if i < |edges| {
          assert more[i] == edges[i] && Linked(edges, edges[i].source, edges[i].target);
          ReachesSelf(edges, edges[i].source);
          ReachesOn(edges, edges[i].source, edges[i].source, edges[i].target);
          ReachesThrough(edges, edges[i].source, edges[i].target, e.source);
          ReachesThrough(edges, e.target, edges[i].source, e.source);
        }
      }
    }
  }

  /** An accepted connection keeps the document well-formed. */
  lemma ConnectingKeeps(document: Document, specs: Registry, connection: Connection, id: string)
    requires WellFormed(document, specs) && Refusal(connection, document, specs) == None
    requires forall i :: 0 <= i < |document.edges| ==> document.edges[i].id != id
    ensures WellFormed(Added(document, connection, id), specs)
  {
    var after := Added(document, connection, id);
    AddedAcyclic(document.edges, after.edges[|document.edges|]);
    forall i, j | 0 <= i < j < |after.edges| ensures Apart(after.nodes, specs, after.edges[i], after.edges[j]) {
      if j < |document.edges| {
        assert Apart(document.nodes, specs, document.edges[i], document.edges[j]);
      }
    }
  }

  /** One edge more, drawn as asked: from the output named, or the main one, which
      the source has; into the input named, or the first, which the target has. */
  ghost predicate Drawn(document: Document, specs: Registry, connection: Connection, after: Document) {
    && after.nodes == document.nodes && |after.edges| == |document.edges| + 1 && document.edges <= after.edges
    && var e := after.edges[|document.edges|];
       && e.source == connection.source && e.target == connection.target
       && e.sourceHandle == (if connection.sourceHandle.Some? then connection.sourceHandle else Some("main"))
       && SpecOf(document.nodes, specs, e.source).Some? && e.sourceHandle.value in SpecOf(document.nodes, specs, e.source).value.outputs
       && SpecOf(document.nodes, specs, e.target).Some? && SpecOf(document.nodes, specs, e.target).value.inputs != []
       && Port(document.nodes, specs, e) == Some(if connection.targetHandle.Some? then connection.targetHandle.value else SpecOf(document.nodes, specs, e.target).value.inputs[0])
       && Port(document.nodes, specs, e).value in SpecOf(document.nodes, specs, e.target).value.inputs
       && forall i :: 0 <= i < |document.edges| ==> document.edges[i].id != e.id
  }

  lemma AcceptedIsDrawn(document: Document, specs: Registry, connection: Connection, id: string)
    requires Refusal(connection, document, specs) == None && forall i :: 0 <= i < |document.edges| ==> document.edges[i].id != id
    ensures Drawn(document, specs, connection, Added(document, connection, id))
  {
  }

  /** A way along some edges is one along others that link the same, renamed. */
  lemma ReachesMapped(edges: seq<Edge>, others: seq<Edge>, f: string -> string, a: string, b: string)
    requires Reaches(edges, a, b)
    requires forall x, y :: Linked(edges, x, y) ==> Linked(others, f(x), f(y))
    ensures Reaches(others, f(a), f(b))
  {
    var path :| PathFrom(edges, path, a, b);
    assert PathFrom(others, seq(|path|, i requires 0 <= i < |path| => f(path[i])), f(a), f(b));
  }

  lemma ReachesAmong(edges: seq<Edge>, more: seq<Edge>, a: string, b: string)
    requires Reaches(edges, a, b) && forall e :: e in edges ==> e in more
    ensures Reaches(more, a, b)
  {
    forall x, y | Linked(edges, x, y) ensures Linked(more, x, y) {
      var i :| 0 <= i < |edges| && edges[i].source == x && edges[i].target == y;
      assert edges[i] in more;
    }
    ReachesMapped(edges, more, x => x, a, b);
  }

  /** And where a refusal is about the graph, the document would not have been. */
  lemma RefusedWouldBreak(document: Document, specs: Registry, connection: Connection, id: string)
    requires WellFormed(document, specs)
    requires var r := Refusal(connection, document, specs);
      r == Some(Itself) || r == Some(NotOnCanvas) || r == Some(AlreadyWired) || r == Some(Loop)
    ensures !WellFormed(Added(document, connection, id), specs)
  {
    var r, after := Refusal(connection, document, specs), Added(document, connection, id);
    var n := |document.edges|;
    var e := after.edges[n];
    match r.value
    case Itself => ReachesSelf(after.edges, e.source);
    case NotOnCanvas => assert !(Present(after.nodes, e.source) && Present(after.nodes, e.target));
    case AlreadyWired =>
      var to := SpecOf(document.nodes, specs, connection.target).value;
      var i :| 0 <= i < n && document.edges[i].target == connection.target
            && Port(document.nodes, specs, document.edges[i]) == HandleOf(connection, to);
      assert !Apart(after.nodes, specs, after.edges[i], after.edges[n]);
    case Loop => ReachesAmong(document.edges, after.edges, connection.target, connection.source);
  }

  // -------------------------------------------------------------------------
  // Removing, moving and adding nodes
  // -------------------------------------------------------------------------

  function Without<T>(all: seq<T>, gone: T -> bool): seq<T> {
    if all == [] then []
    else
      var n := |all| - 1;
      Without(all[..n], gone) + if gone(all[n]) then [] else [all[n]]
  }

  lemma {:induction false} WithoutIs<T>(all: seq<T>, gone: T -> bool)
    ensures forall x :: x in Without(all, gone) <==> x in all && !gone(x)
  {
    if all != [] {
      WithoutIs(all[..|all| - 1], gone);
      assert all == all[..|all| - 1] + [all[|all| - 1]];
    }
  }

  /** What stays keeps its order. */
  lemma {:induction false} WithoutJoins<T>(a: seq<T>, b: seq<T>, gone: T -> bool)
    ensures Without(a + b, gone) == Without(a, gone) + Without(b, gone)
    decreases |b|
  {
    if b == [] {
      assert a + b == a;
    } else {
      assert (a + b)[..|a + b| - 1] == a + b[..|b| - 1];
      WithoutJoins(a, b[..|b| - 1], gone);
    }
  }

  lemma {:induction false} OrderStays<T>(a: seq<T>, x: T, b: seq<T>, y: T, c: seq<T>, gone: T -> bool)
    requires !gone(x) && !gone(y)
    ensures var stay := Without(a + [x] + b + [y] + c, gone); exists i, j :: 0 <= i < j < |stay| && stay[i] == x && stay[j] == y
  {
    WithoutJoins(a + [x] + b + [y], c, gone);
    WithoutJoins(a + [x] + b, [y], gone);
    WithoutJoins(a + [x], b, gone);
    WithoutJoins(a, [x], gone);
    assert Without([x], gone) == [x] by { assert [x][..0] == []; }
    assert Without([y], gone) == [y] by { assert [y][..0] == []; }
    var i, j := |Without(a, gone)|, |Without(a, gone)| + 1 + |Without(b, gone)|;
    var stay := Without(a + [x] + b + [y] + c, gone);
    assert stay == Without(a, gone) + [x] + Without(b, gone) + [y] + Without(c, gone);
    assert stay[i] == x && stay[j] == y;
  }

  lemma {:induction false} WithoutUnique(nodes: seq<Node>, gone: Node -> bool)
    requires UniqueNodes(nodes)
    ensures UniqueNodes(Without(nodes, gone))
  {
    if nodes != [] {
      var n := |nodes| - 1;
      WithoutUnique(nodes[..n], gone);
      WithoutIs(nodes[..n], gone);
      forall i | 0 <= i < |Without(nodes[..n], gone)| ensures Without(nodes[..n], gone)[i].id != nodes[n].id {
        assert Without(nodes[..n], gone)[i] in nodes[..n];
      }
    }
  }

  lemma {:induction false} WithoutApart(nodes: seq<Node>, specs: Registry, edges: seq<Edge>, gone: Edge -> bool)
    requires AllApart(nodes, specs, edges)
    ensures AllApart(nodes, specs, Without(edges, gone))
  {
    if edges != [] {
      var n := |edges| - 1;
      WithoutApart(nodes, specs, edges[..n], gone);
      WithoutIs(edges[..n], gone);
      forall i | 0 <= i < |Without(edges[..n], gone)| ensures Apart(nodes, specs, Without(edges[..n], gone)[i], edges[n]) {
        assert Without(edges[..n], gone)[i] in edges[..n];
      }
    }
  }

  lemma {:induction false} FindIs(nodes: seq<Node>, node: Node)
    requires UniqueNodes(nodes) && node in nodes
    ensures Find(nodes, node.id) == Some(node)
  {
    var k :| 0 <= k < |nodes| && nodes[k] == node;
    if k > 0 {
      assert nodes[1..][k - 1] == node;
      FindIs(nodes[1..], node);
    }
  }

  lemma {:induction false} FindIn(nodes: seq<Node>, id: string)
    ensures match Find(nodes, id) case Some(node) => node in nodes && node.id == id case None => forall node :: node in nodes ==> node.id != id
  {
    if nodes != [] {
      FindIn(nodes[1..], id);
      assert nodes == [nodes[0]] + nodes[1..];
    }
  }

  /** Nodes that go take their edges with them. */
  function RemoveNodes(document: Document, ids: set<string>): Document {
    Document(Without(document.nodes, (node: Node) => node.id in ids),
             Without(document.edges, (edge: Edge) => edge.source in ids || edge.target in ids))
  }

  function RemoveEdges(document: Document, ids: set<string>): Document {
    document.(edges := Without(document.edges, (edge: Edge) => edge.id in ids))
  }

  lemma {:induction false} AcyclicWithout(edges: seq<Edge>, gone: Edge -> bool)
    requires Acyclic(edges)
    ensures Acyclic(Without(edges, gone))
  {
    var fewer := Without(edges, gone);
    WithoutIs(edges, gone);
    forall i | 0 <= i < |fewer| ensures !Reaches(fewer, fewer[i].target, fewer[i].source) {
      assert fewer[i] in edges;
      if Reaches(fewer, fewer[i].target, fewer[i].source) {
        ReachesAmong(fewer, edges, fewer[i].target, fewer[i].source);
      }
    }
  }

  lemma FindStays(nodes: seq<Node>, ids: set<string>, id: string)
    requires UniqueNodes(nodes) && id !in ids
    ensures Find(Without(nodes, (node: Node) => node.id in ids), id) == Find(nodes, id)
  {
    var gone := (node: Node) => node.id in ids;
    WithoutIs(nodes, gone);
    WithoutUnique(nodes, gone);
    FindIn(nodes, id);
    FindIn(Without(nodes, gone), id);
    if Find(nodes, id).Some? { FindIs(Without(nodes, gone), Find(nodes, id).value); }
  }

  lemma RemovingKeeps(document: Document, specs: Registry, ids: set<string>)
    requires WellFormed(document, specs)
    ensures WellFormed(RemoveNodes(document, ids), specs)
    ensures forall node :: node in RemoveNodes(document, ids).nodes <==> node in document.nodes && node.id !in ids
    ensures forall e :: e in RemoveNodes(document, ids).edges <==> e in document.edges && e.source !in ids && e.target !in ids
  {
    var after := RemoveNodes(document, ids);
    var gone, cut := (node: Node) => node.id in ids, (edge: Edge) => edge.source in ids || edge.target in ids;
    WithoutIs(document.nodes, gone);
    WithoutIs(document.edges, cut);
    WithoutUnique(document.nodes, gone);
    WithoutApart(document.nodes, specs, document.edges, cut);
    AcyclicWithout(document.edges, cut);
    forall i | 0 <= i < |after.edges| ensures
        && Present(after.nodes, after.edges[i].source) && Present(after.nodes, after.edges[i].target)
        && Find(after.nodes, after.edges[i].target) == Find(document.nodes, after.edges[i].target)
    {
      assert after.edges[i] in document.edges;
      FindStays(document.nodes, ids, after.edges[i].source);
      FindStays(document.nodes, ids, after.edges[i].target);
    }
    forall i, j | 0 <= i < j < |after.edges| ensures Apart(after.nodes, specs, after.edges[i], after.edges[j]) {
      assert Apart(document.nodes, specs, after.edges[i], after.edges[j]);
    }
  }

  lemma RemovingEdgesKeeps(document: Document, specs: Registry, ids: set<string>)
    requires WellFormed(document, specs)
    ensures WellFormed(RemoveEdges(document, ids), specs) && RemoveEdges(document, ids).nodes == document.nodes
    ensures forall e :: e in RemoveEdges(document, ids).edges <==> e in document.edges && e.id !in ids
  {
    var cut := (edge: Edge) => edge.id in ids;
    WithoutIs(document.edges, cut);
    WithoutApart(document.nodes, specs, document.edges, cut);
    AcyclicWithout(document.edges, cut);
    forall i | 0 <= i < |RemoveEdges(document, ids).edges| ensures RemoveEdges(document, ids).edges[i] in document.edges {
      assert RemoveEdges(document, ids).edges[i] in Without(document.edges, cut);
    }
  }

  /** Nodes changed one by one, keeping order. */
  function Mapped(nodes: seq<Node>, change: Node -> Node): (r: seq<Node>)
    ensures |r| == |nodes| && forall i :: 0 <= i < |nodes| ==> r[i] == change(nodes[i])
  {
    seq(|nodes|, i requires 0 <= i < |nodes| => change(nodes[i]))
  }

  function MoveNode(document: Document, id: string, position: int): Document {
    document.(nodes := Mapped(document.nodes, (node: Node) => if node.id == id then node.(position := position) else node))
  }

  function AddNode(document: Document, node: Node): Document {
    document.(nodes := document.nodes + [node])
  }

  /** Nodes that keep their components and only change their ids, all differently,
      are found under the new ones. */
  lemma {:induction false} FindMapped(nodes: seq<Node>, others: seq<Node>, f: string -> string, id: string)
    requires |nodes| == |others| && forall i :: 0 <= i < |nodes| ==> others[i].id == f(nodes[i].id) && others[i].component == nodes[i].component
    requires forall i :: 0 <= i < |nodes| && f(nodes[i].id) == f(id) ==> nodes[i].id == id
    ensures match Find(nodes, id)
            case None => Find(others, f(id)).None?
            case Some(node) => Find(others, f(id)).Some? && Find(others, f(id)).value.component == node.component
  {
    if nodes != [] && nodes[0].id != id {
      FindMapped(nodes[1..], others[1..], f, id);
    }
  }

  lemma MovingKeeps(document: Document, specs: Registry, id: string, position: int)
    requires WellFormed(document, specs)
    ensures WellFormed(MoveNode(document, id, position), specs) && MoveNode(document, id, position).edges == document.edges
    ensures var after := MoveNode(document, id, position);
      && |after.nodes| == |document.nodes|
      && forall i :: 0 <= i < |document.nodes| ==>
           && after.nodes[i].id == document.nodes[i].id && after.nodes[i].component == document.nodes[i].component
           && after.nodes[i].data == document.nodes[i].data
           && after.nodes[i].position == if document.nodes[i].id == id then position else document.nodes[i].position
  {
    var after := MoveNode(document, id, position);
    forall x ensures Present(after.nodes, x) == Present(document.nodes, x) && SpecOf(after.nodes, specs, x) == SpecOf(document.nodes, specs, x) {
      FindMapped(document.nodes, after.nodes, y => y, x);
    }
    forall i, j | 0 <= i < j < |after.edges| ensures Apart(after.nodes, specs, after.edges[i], after.edges[j]) {
      assert Apart(document.nodes, specs, document.edges[i], document.edges[j]);
    }
  }

  lemma {:induction false} FindAdded(nodes: seq<Node>, node: Node, id: string)
    ensures Find(nodes + [node], id) == if Find(nodes, id).Some? then Find(nodes, id) else if node.id == id then Some(node) else None
  {
    if nodes != [] {
      assert (nodes + [node])[1..] == nodes[1..] + [node];
      FindAdded(nodes[1..], node, id);
    }
  }

  lemma AddingKeeps(document: Document, specs: Registry, node: Node)
    requires WellFormed(document, specs) && !Present(document.nodes, node.id)
    ensures WellFormed(AddNode(document, node), specs)
    ensures Find(AddNode(document, node).nodes, node.id) == Some(node)
    ensures forall id :: id != node.id ==> Find(AddNode(document, node).nodes, id) == Find(document.nodes, id)
  {
    var after := AddNode(document, node);
    FindIn(document.nodes, node.id);
    forall id ensures Find(after.nodes, id) == if Find(document.nodes, id).Some? then Find(document.nodes, id) else if node.id == id then Some(node) else None {
      FindAdded(document.nodes, node, id);
    }
    forall i | 0 <= i < |after.edges|
      ensures Present(after.nodes, after.edges[i].source) && Find(after.nodes, after.edges[i].target) == Find(document.nodes, after.edges[i].target)
    {
    }
    forall i, j | 0 <= i < j < |after.edges| ensures Apart(after.nodes, specs, after.edges[i], after.edges[j]) {
      assert Apart(document.nodes, specs, document.edges[i], document.edges[j]);
    }
  }

  // -------------------------------------------------------------------------
  // Renaming
  // -------------------------------------------------------------------------

  const RESERVED := "__rejected"

  predicate EndsWith(s: string, suffix: string) {
    |s| >= |suffix| && s[|s| - |suffix|..] == suffix
  }

  function Other(from: string, to: string, id: string): string {
    if id == from then to else id
  }

  function Renamed(document: Document, from: string, to: string): Document {
    Document(Mapped(document.nodes, (node: Node) => node.(id := Other(from, to, node.id))),
             seq(|document.edges|, i requires 0 <= i < |document.edges| =>
               document.edges[i].(source := Other(from, to, document.edges[i].source), target := Other(from, to, document.edges[i].target))))
  }

  datatype BadName = Empty | Taken | IsReserved

  /** `to` is what was typed, trimmed. */
  function RenameNode(document: Document, from: string, to: string): Result<Document, BadName> {
    if to == "" then Err(Empty)
    else if to == from then Ok(document)
    else if exists i :: 0 <= i < |document.nodes| && document.nodes[i].id == to then Err(Taken)
    else if EndsWith(to, RESERVED) then Err(IsReserved)
    else Ok(Renamed(document, from, to))
  }

  lemma EndsWithIs(s: string, suffix: string)
    ensures EndsWith(s, suffix) <==> exists before :: s == before + suffix
  {
    if EndsWith(s, suffix) { assert s == s[..|s| - |suffix|] + suffix; }
  }

  /** A name is refused only if it is empty, another node's, or reserved. */
  lemma RenameAllowed(document: Document, from: string, to: string)
    ensures RenameNode(document, from, to).Ok? <==>
      to != "" && (to == from || (!EndsWith(to, "__rejected") && forall i :: 0 <= i < |document.nodes| ==> document.nodes[i].id != to))
  {
  }

  /** Only the node's id changes, and the ends of its edges with it. */
  lemma RenamesOne(document: Document, from: string, to: string)
    requires RenameNode(document, from, to).Ok?
    ensures var after := RenameNode(document, from, to).value;
      && |after.nodes| == |document.nodes| && |after.edges| == |document.edges|
      && (forall i :: 0 <= i < |document.nodes| ==>
            after.nodes[i] == document.nodes[i].(id := if document.nodes[i].id == from then to else document.nodes[i].id))
      && (forall i :: 0 <= i < |document.edges| ==> var e := document.edges[i];
            after.edges[i] == e.(source := if e.source == from then to else e.source, target := if e.target == from then to else e.target))
  {
  }

  /** Names that no node and no edge uses. */
  lemma Unused(document: Document, to: string, i: nat)
    requires Anchored(document.nodes, document.edges) && forall j :: 0 <= j < |document.nodes| ==> document.nodes[j].id != to
    requires i < |document.edges|
    ensures document.edges[i].source != to && document.edges[i].target != to
  {
    FindIn(document.nodes, document.edges[i].source);
    FindIn(document.nodes, document.edges[i].target);
  }

  lemma RenamedLinks(document: Document, from: string, to: string, x: string, y: string)
    requires Anchored(document.nodes, document.edges) && forall j :: 0 <= j < |document.nodes| ==> document.nodes[j].id != to
    ensures Linked(document.edges, x, y) ==> Linked(Renamed(document, from, to).edges, Other(from, to, x), Other(from, to, y))
    ensures Linked(Renamed(document, from, to).edges, x, y) ==> Linked(document.edges, Other(to, from, x), Other(to, from, y))
  {
    var others := Renamed(document, from, to).edges;
    if Linked(document.edges, x, y) {
      var i :| 0 <= i < |document.edges| && document.edges[i].source == x && document.edges[i].target == y;
      assert others[i].source == Other(from, to, x) && others[i].target == Other(from, to, y);
    }
    if Linked(others, x, y) {
      var i :| 0 <= i < |others| && others[i].source == x && others[i].target == y;
      Unused(document, to, i);
      assert document.edges[i].source == Other(to, from, x) && document.edges[i].target == Other(to, from, y);
    }
  }

  /** The graph after a rename is the same graph: one name reaches another exactly
      when it did under the old names. */
  lemma RenameIsIsomorphism(document: Document, from: string, to: string, a: string, b: string)
    requires Anchored(document.nodes, document.edges) && forall j :: 0 <= j < |document.nodes| ==> document.nodes[j].id != to
    requires a != to && b != to
    ensures Reaches(Renamed(document, from, to).edges, Other(from, to, a), Other(from, to, b)) <==> Reaches(document.edges, a, b)
  {
    var others := Renamed(document, from, to).edges;
    if Reaches(document.edges, a, b) {
      forall x, y | Linked(document.edges, x, y) ensures Linked(others, Other(from, to, x), Other(from, to, y)) {
        RenamedLinks(document, from, to, x, y);
      }
      ReachesMapped(document.edges, others, x => Other(from, to, x), a, b);
    }
    if Reaches(others, Other(from, to, a), Other(from, to, b)) {
      forall x, y | Linked(others, x, y) ensures Linked(document.edges, Other(to, from, x), Other(to, from, y)) {
        RenamedLinks(document, from, to, x, y);
      }
      ReachesMapped(others, document.edges, x => Other(to, from, x), Other(from, to, a), Other(from, to, b));
    }
  }

  /** A rename that is allowed keeps the document well-formed, and can be undone. */
  lemma RenamingKeeps(document: Document, specs: Registry, from: string, to: string)
    requires WellFormed(document, specs) && RenameNode(document, from, to).Ok?
    ensures WellFormed(RenameNode(document, from, to).value, specs)
    ensures to != from ==> Renamed(RenameNode(document, from, to).value, to, from) == document
  {
    if to != from {
      var after := Renamed(document, from, to);
      forall i | 0 <= i < |document.edges|
        ensures document.edges[i].source != to && document.edges[i].target != to
        ensures Present(after.nodes, after.edges[i].source) && Present(after.nodes, after.edges[i].target)
        ensures SpecOf(after.nodes, specs, after.edges[i].target) == SpecOf(document.nodes, specs, document.edges[i].target)
        ensures !Reaches(after.edges, after.edges[i].target, after.edges[i].source)
      {
        var e := document.edges[i];
        Unused(document, to, i);
        FindMapped(document.nodes, after.nodes, x => Other(from, to, x), e.source);
        FindMapped(document.nodes, after.nodes, x => Other(from, to, x), e.target);
        RenameIsIsomorphism(document, from, to, e.target, e.source);
      }
      forall i, j | 0 <= i < j < |after.edges| ensures Apart(after.nodes, specs, after.edges[i], after.edges[j]) {
        assert Apart(document.nodes, specs, document.edges[i], document.edges[j]);
      }
      var back := Renamed(after, to, from);
      assert back.nodes == document.nodes && back.edges == document.edges;
    }
  }

  // -------------------------------------------------------------------------
  // New ids
  // -------------------------------------------------------------------------

  function Numbered(stem: string, n: nat): string {
    stem + Digits(n)
  }

  lemma NumberedApart(stem: string, m: nat, n: nat)
    requires Numbered(stem, m) == Numbered(stem, n)
    ensures m == n
  {
    assert Numbered(stem, m)[|stem|..] == Digits(m) && Numbered(stem, n)[|stem|..] == Digits(n);
    DigitsTell(m);
    DigitsTell(n);
  }

  lemma LastOf(s: string, suffix: string)
    requires suffix != ""
    ensures EndsWith(s, suffix) ==> s != "" && s[|s| - 1] == suffix[|suffix| - 1]
  {
    if EndsWith(s, suffix) { assert s[|s| - |suffix|..][|suffix| - 1] == s[|s| - 1]; }
  }

  /** The first number from `first` on whose id is free. */
  ghost predicate FirstNumbered(stem: string, first: nat, used: set<string>, n: nat) {
    && n >= first && Numbered(stem, n) !in used
    && forall m :: first <= m < n ==> Numbered(stem, m) in used
  }

  /** Only so many ids are used, so there is one. */
  method FirstFree(stem: string, first: nat, used: set<string>) returns (n: nat)
    ensures FirstNumbered(stem, first, used, n)
  {
    n := first;
    ghost var found: set<string> := {};
    while Numbered(stem, n) in used
      invariant n >= first && forall m :: first <= m < n ==> Numbered(stem, m) in used
      invariant forall x :: x in found ==> exists m :: first <= m < n && x == Numbered(stem, m)
      decreases used - found
    {
      var candidate := Numbered(stem, n);
      if candidate in found {
        var m :| first <= m < n && candidate == Numbered(stem, m);
        NumberedApart(stem, m, n);
      }
      found := found + {candidate};
      n := n + 1;
    }
  }

  function LastSegment(s: string): string {
    if s == "" || s[|s| - 1] == '.' then "" else LastSegment(s[..|s| - 1]) + [s[|s| - 1]]
  }

  predicate WordChar(c: char) {
    'a' <= c <= 'z' || 'A' <= c <= 'Z' || '0' <= c <= '9' || c == '_'
  }

  /** A component's name, as an id can be. */
  function Base(componentId: string): (base: string)
    ensures base != "" && forall i :: 0 <= i < |base| ==> WordChar(base[i])
  {
    var last := LastSegment(componentId);
    if last == "" then "node"
    else seq(|last|, i requires 0 <= i < |last| => if WordChar(last[i]) then last[i] else '_')
  }

  lemma {:induction false} LastSegmentIs(before: string, last: string)
    requires '.' !in last && (before == "" || before[|before| - 1] == '.')
    ensures LastSegment(before + last) == last
  {
    if last == "" {
      assert before + last == before;
    } else {
      var n := |last| - 1;
      assert (before + last)[..|before + last| - 1] == before + last[..n] && (before + last)[|before + last| - 1] == last[n];
      LastSegmentIs(before, last[..n]);
    }
  }

  /** A node is named for what follows the last dot of its component, with an
      underscore for each character that is not a letter, a digit or one. */
  lemma BaseIs(before: string, last: string)
    requires last != "" && '.' !in last && (before == "" || before[|before| - 1] == '.')
    ensures |Base(before + last)| == |last|
    ensures forall i :: 0 <= i < |last| ==>
      Base(before + last)[i] == if 'a' <= last[i] <= 'z' || 'A' <= last[i] <= 'Z' || '0' <= last[i] <= '9' then last[i] else '_'
  {
    LastSegmentIs(before, last);
  }

  function Safe(componentId: string): string {
    if EndsWith(Base(componentId), RESERVED) then Base(componentId) + "_node" else Base(componentId)
  }

  /** A readable id that is not taken, and that the engine does not refuse. */
  method NewNodeId(componentId: string, taken: set<string>) returns (id: string)
    ensures id !in taken && !EndsWith(id, RESERVED) && Base(componentId) <= id
    ensures Safe(componentId) !in taken ==> id == Safe(componentId)
    ensures Base(componentId) !in taken && !EndsWith(Base(componentId), "__rejected") ==> id == Base(componentId)
    ensures Safe(componentId) in taken ==> exists n :: FirstNumbered(Safe(componentId) + "_", 2, taken, n) && id == Numbered(Safe(componentId) + "_", n)
  {
    var safe := Safe(componentId);
    if safe !in taken {
      LastOf(safe, RESERVED);
      return safe;
    }
    var n := FirstFree(safe + "_", 2, taken);
    id := Numbered(safe + "_", n);
    assert id[|id| - 1] == Digits(n)[|Digits(n)| - 1];
    LastOf(id, RESERVED);
  }

  /** Add an edge under the first free id. */
  method AddEdge(document: Document, connection: Connection) returns (after: Document)
    ensures exists n :: n >= 1 && after == Added(document, connection, Numbered("e", n)) && forall m :: 1 <= m < n ==>
              exists i :: 0 <= i < |document.edges| && document.edges[i].id == Numbered("e", m)
    ensures forall i :: 0 <= i < |document.edges| ==> document.edges[i].id != after.edges[|document.edges|].id
  {
    var used := set i | 0 <= i < |document.edges| :: document.edges[i].id;
    var n := FirstFree("e", 1, used);
    after := Added(document, connection, Numbered("e", n));
    assert forall i :: 0 <= i < |document.edges| ==> document.edges[i].id in used;
  }

  /** A connection drawn on the canvas: refused, or an edge more. */
  method Connect(document: Document, connection: Connection, specs: Registry) returns (r: Result<Document, Reason>)
    requires WellFormed(document, specs)
    ensures r.Ok? <==> Refusal(connection, document, specs).None?
    ensures r.Ok? ==> WellFormed(r.value, specs) && Drawn(document, specs, connection, r.value)
  {
    var refused := RefuseConnection(connection, document, specs);
    if refused.Some? { return Err(refused.value); }
    var after := AddEdge(document, connection);
    var n :| n >= 1 && after == Added(document, connection, Numbered("e", n));
    ConnectingKeeps(document, specs, connection, Numbered("e", n));
    AcceptedIsDrawn(document, specs, connection, Numbered("e", n));
    r := Ok(after);
  }
}
