/**
 Editing a flow in the visual builder, with its wiring rules and its history
 (admin-ui/public/functions-builder.js: `snapshot`, `undo`, `redo`, `addNode`,
 `connect`, `startWire`, `quickAdd`, `removeSelected`, `duplicate`, `setParam`).

 The node library (M5Flow) is a parameter: which ports a node has, and the node
 it makes for a type. `Step` says what one edit does to the builder's state;
 the class does it on its fields.

 A wire is drawn in several steps, and the keyboard works between them. The
 state holds the wire in hand as `startWire` and `quickAdd` do: by the names of
 a node and a port, which nothing looks up again when the wire is let go.
 */
module FlowBuilder {
  import opened Text
  import opened Sequences
  import AutoLayout

  type Id = string
  type Params = map<string, string>

  /** The most steps that can be undone. */
  const MAX_UNDO := 150

  datatype Node = Node(id: Id, kind: string, x: int, y: int, params: Params, values: Params, caption: string)

  datatype End = End(node: Id, port: string)

  datatype Edge = Edge(id: Id, from: End, to: End)

  datatype Graph = Graph(nodes: seq<Node>, edges: seq<Edge>)

  datatype Flow = Flow(name: string, summary: string, lang: string, graph: Graph, functions: map<string, Graph>)

  datatype Port = Port(name: string, required: bool)

  /** What the builder takes from the node library. */
  datatype Library = Library(
    inputs: (string, Params) -> seq<Port>,
    outputs: string -> seq<string>,
    newNode: (Graph, string, int, int) -> Node)

  datatype Selection = Nothing | SelectedNode(id: Id) | SelectedEdge(edge: Id)

  /** A wire with one end on a port, and that end. */
  datatype Loose = FromOutput(end: End) | FromInput(end: End)

  /** The wire in hand: drawn by the pointer, or let go on the canvas where a box offers new nodes for it. */
  datatype Hand = Empty | Dragging(wire: Loose) | Offering(wire: Loose)

  datatype State = State(flow: Flow, undo: seq<Flow>, redo: seq<Flow>, selected: Selection, fn: string, hand: Hand)

  const EXECUTE := "execute"

  // ---------------------------------------------------------------- wiring

  predicate HasNode(g: Graph, id: Id) { exists n | n in g.nodes :: n.id == id }

  function InputNames(lib: Library, n: Node): seq<string> {
    var ports := lib.inputs(n.kind, n.params);
    seq(|ports|, i requires 0 <= i < |ports| => ports[i].name)
  }

  predicate HasOutput(lib: Library, g: Graph, e: End) {
    exists n | n in g.nodes :: n.id == e.node && e.port in lib.outputs(n.kind)
  }

  predicate HasInput(lib: Library, g: Graph, e: End) {
    exists n | n in g.nodes :: n.id == e.node && e.port in InputNames(lib, n)
  }

  predicate DistinctIds(nodes: seq<Node>) {
    forall i, j | 0 <= i < |nodes| && 0 <= j < |nodes| && i != j :: nodes[i].id != nodes[j].id
  }

  /** No input port has two wires. */
  predicate OneWireEach(edges: seq<Edge>) {
    forall i, j | 0 <= i < |edges| && 0 <= j < |edges| && i != j :: edges[i].to != edges[j].to
  }

  /** A wire joins two different nodes of the flow, from a port its source has to a port its target has. */
  predicate GoodEdge(lib: Library, g: Graph, e: Edge) {
    e.from.node != e.to.node && HasOutput(lib, g, e.from) && HasInput(lib, g, e.to)
  }

  /** The port that a wire hangs on is drawn. */
  predicate Drawn(lib: Library, g: Graph, w: Loose) {
    match w
    case FromOutput(end) => HasOutput(lib, g, end)
    case FromInput(end) => HasInput(lib, g, end)
  }

  /** The port that could take the other end of a wire. */
  function Facing(w: Loose, at: End): Loose {
    match w
    case FromOutput(_) => FromInput(at)
    case FromInput(_) => FromOutput(at)
  }

  /** The wire with its other end put `at` a port. */
  function Wired(w: Loose, at: End, id: Id): Edge {
    match w
    case FromOutput(end) => Edge(id, end, at)
    case FromInput(end) => Edge(id, at, end)
  }

  predicate WellWired(lib: Library, g: Graph) {
    && DistinctIds(g.nodes)
    && OneWireEach(g.edges)
    && forall e | e in g.edges :: GoodEdge(lib, g, e)
  }

  predicate GoodFlow(lib: Library, f: Flow) {
    WellWired(lib, f.graph) && forall name | name in f.functions :: WellWired(lib, f.functions[name])
  }

  /** The library's new nodes have an id that the flow does not use. */
  ghost predicate Fresh(lib: Library) {
    forall g: Graph, kind: string, x: int, y: int :: !HasNode(g, lib.newNode(g, kind, x, y).id)
  }

  ghost predicate GoodState(lib: Library, s: State) {
    && GoodFlow(lib, s.flow)
    && (forall i | 0 <= i < |s.undo| :: GoodFlow(lib, s.undo[i]))
    && (forall i | 0 <= i < |s.redo| :: GoodFlow(lib, s.redo[i]))
    && |s.undo| + |s.redo| <= MAX_UNDO
  }

  // ---------------------------------------------------------------- the graph on the canvas

  /** The function shown: "execute" when the named one is gone. */
  function Shown(f: Flow, fn: string): string { if fn in f.functions then fn else EXECUTE }

  function Canvas(s: State): Graph {
    if s.fn in s.flow.functions && s.fn != EXECUTE then s.flow.functions[s.fn] else s.flow.graph
  }

  /** The flow with this graph on the canvas. */
  function WithCanvas(s: State, g: Graph): State {
    if s.fn in s.flow.functions && s.fn != EXECUTE then
      s.(flow := s.flow.(functions := s.flow.functions[s.fn := g]))
    else s.(flow := s.flow.(graph := g))
  }

  // ---------------------------------------------------------------- history

  function Snapshot(s: State): State {
    var undo := s.undo + [s.flow];
    s.(undo := if |undo| > MAX_UNDO then undo[1..] else undo, redo := [])
  }

  /** What `afterStructure` does to the selection and to the function shown. */
  function AfterStructure(s: State): State {
    var selected := if s.selected.SelectedNode? && !HasNode(Canvas(s), s.selected.id) then Nothing else s.selected;
    s.(selected := selected, fn := Shown(s.flow, s.fn))
  }

  function Undo(s: State): State {
    if s.undo == [] then s
    else
      var last := |s.undo| - 1;
      AfterStructure(s.(redo := s.redo + [s.flow], flow := s.undo[last], undo := s.undo[..last]))
  }

  function Redo(s: State): State {
    if s.redo == [] then s
    else
      var last := |s.redo| - 1;
      AfterStructure(s.(undo := s.undo + [s.flow], flow := s.redo[last], redo := s.redo[..last]))
  }

  // ---------------------------------------------------------------- edits of the canvas

  /** `connect`: one wire from an output to an input; the input's old wire goes. */
  function Connected(g: Graph, id: Id, from: End, to: End): Graph {
    if from.node == to.node then g
    else g.(edges := Filter(g.edges, (e: Edge) => e.to != to) + [Edge(id, from, to)])
  }

  /** The port a dropped wire goes to: the first required one, else the first. */
  function DropPort(ports: seq<Port>): Option<string> {
    var required := Filter(ports, (p: Port) => p.required);
    if required != [] then Some(required[0].name) else if ports != [] then Some(ports[0].name) else None
  }

  /** The port of a new node that a wire is put to. */
  function OfferedPort(lib: Library, n: Node, w: Loose): Option<string> {
    match w
    case FromOutput(_) => DropPort(lib.inputs(n.kind, n.params))
    case FromInput(_) => if lib.outputs(n.kind) == [] then None else Some(lib.outputs(n.kind)[0])
  }

  /** `addNode`, with the wire that was let go on the canvas. */
  function Added(lib: Library, g: Graph, n: Node, drop: Option<Loose>, id: Id): Graph {
    var more := g.(nodes := g.nodes + [n]);
    if drop.None? then more
    else
      match OfferedPort(lib, n, drop.value)
      case None => more
      case Some(port) =>
        var e := Wired(drop.value, End(n.id, port), id);
        Connected(more, id, e.from, e.to)
  }

  function NodeRemoved(g: Graph, id: Id): Graph {
    Graph(Filter(g.nodes, (n: Node) => n.id != id),
          Filter(g.edges, (e: Edge) => e.from.node != id && e.to.node != id))
  }

  function EdgeRemoved(g: Graph, id: Id): Graph {
    g.(edges := Filter(g.edges, (e: Edge) => e.id != id))
  }

  /** The node replaced by one with the same id. */
  function Replaced(nodes: seq<Node>, n: Node): seq<Node> {
    seq(|nodes|, i requires 0 <= i < |nodes| => if nodes[i].id == n.id then n else nodes[i])
  }

  function NodeOf(g: Graph, id: Id): Option<Node> {
    var found := Filter(g.nodes, (n: Node) => n.id == id);
    if found == [] then None else Some(found[0])
  }

  /** A node's setting changed: wires to ports that went away go too. */
  function ParamSet(lib: Library, g: Graph, n: Node, name: string, value: string): Graph {
    var m := n.(params := n.params[name := value]);
    var names := InputNames(lib, m);
    Graph(Replaced(g.nodes, m), Filter(g.edges, (e: Edge) => e.to.node != n.id || e.to.port in names))
  }

  /** Where each node is put by a move or by "Tidy". */
  function Moved(nodes: seq<Node>, at: map<Id, (int, int)>): seq<Node> {
    seq(|nodes|, i requires 0 <= i < |nodes| =>
      if nodes[i].id in at then nodes[i].(x := at[nodes[i].id].0, y := at[nodes[i].id].1) else nodes[i])
  }

  /** The wire into an input, if there is one. */
  function WireInto(g: Graph, to: End): Option<Edge> {
    var found := Filter(g.edges, (e: Edge) => e.to == to);
    if found == [] then None else Some(found[0])
  }

  /** A node's copy: a new node with its settings; an input's name is told apart. */
  function Copied(lib: Library, g: Graph, n: Node): Node {
    var params :=
      if n.kind != "flow.input" then n.params
      else
        var name := if "name" in n.params && n.params["name"] != "" then n.params["name"] else "value";
        n.params["name" := name + "_2"];
    lib.newNode(g, n.kind, n.x + 30, n.y + 30).(params := params, values := n.values, caption := n.caption)
  }

  function WithoutEdge(g: Graph, w: Edge): Graph { g.(edges := Filter(g.edges, (e: Edge) => e != w)) }

  function NodeAdded(lib: Library, s: State, kind: string, x: int, y: int, drop: Option<Loose>, wire: Id): State {
    var n := lib.newNode(Canvas(s), kind, x, y);
    WithCanvas(Snapshot(s), Added(lib, Canvas(s), n, drop, wire)).(selected := SelectedNode(n.id))
  }

  /**
   The pointer goes down on a port, if there is one: a wire hangs on it from
   now on. A wired input gives its wire, which then hangs on its source.
   */
  function Grabbed(lib: Library, s: State, port: Loose): State {
    if !Drawn(lib, Canvas(s), port) then s
    else if port.FromOutput? || WireInto(Canvas(s), port.end).None? then s.(hand := Dragging(port))
    else
      var w := WireInto(Canvas(s), port.end).value;
      var g := WithoutEdge(Canvas(s), w);
      WithCanvas(Snapshot(s), g).(hand := if HasOutput(lib, g, w.from) then Dragging(FromOutput(w.from)) else Empty)
  }

  /** The port that is drawn under the pointer takes the wire: one of the other side, on another node. */
  predicate Fits(lib: Library, g: Graph, w: Loose, at: End) {
    Drawn(lib, g, Facing(w, at)) && at.node != w.end.node
  }

  datatype Edit =
    | Rename(name: string, summary: string, lang: string)
    | AddFunction(fnName: string)
    | RemoveFunction(fnName: string)
    | SwitchFunction(fnName: string)
    | Select(what: Selection)
    | AddNode(kind: string, x: int, y: int)
    | Grab(port: Loose)
    | DropOn(at: End, wire: Id)
    | DropOnCanvas
    | Pick(kind: string, x: int, y: int, wire: Id)
    | LetGo
    | Unwire(to: End)
    | RemoveSelected
    | Duplicate(id: Id)
    | SetParam(id: Id, param: string, value: string)
    | SetValues(id: Id, values: Params, caption: string)
    | Move(places: map<Id, (int, int)>)
    | UndoOne
    | RedoOne

  /** What one edit does. */
  function Step(lib: Library, s: State, e: Edit): State {
    match e
    case Rename(name, summary, lang) =>
      var t := Snapshot(s);
      t.(flow := t.flow.(name := name, summary := summary, lang := lang))
    case AddFunction(fn) =>
      var t := Snapshot(s);
      var fs := if fn in t.flow.functions then t.flow.functions else t.flow.functions[fn := Graph([], [])];
      t.(flow := t.flow.(functions := fs), fn := fn, selected := Nothing)
    case RemoveFunction(fn) =>
      var t := Snapshot(s);
      t.(flow := t.flow.(functions := t.flow.functions - {fn}), fn := EXECUTE, selected := Nothing)
    case SwitchFunction(fn) => s.(fn := Shown(s.flow, fn), selected := Nothing)
    case Select(what) => s.(selected := what)
    case AddNode(kind, x, y) => NodeAdded(lib, s, kind, x, y, None, "")
    case Grab(port) => Grabbed(lib, s, port)
    case DropOn(at, wire) =>
      if !s.hand.Dragging? then s
      else if !Fits(lib, Canvas(s), s.hand.wire, at) then s.(hand := Empty)
      else
        var e := Wired(s.hand.wire, at, wire);
        WithCanvas(Snapshot(s), Connected(Canvas(s), wire, e.from, e.to)).(hand := Empty)
    case DropOnCanvas => if s.hand.Dragging? then s.(hand := Offering(s.hand.wire)) else s
    case Pick(kind, x, y, wire) =>
      if !s.hand.Offering? then s
      else NodeAdded(lib, s, kind, x, y, Some(s.hand.wire), wire).(hand := Empty)
    case LetGo => s.(hand := Empty)
    case Unwire(to) =>
      (match WireInto(Canvas(s), to)
       case None => s
       case Some(w) => WithCanvas(Snapshot(s), WithoutEdge(Canvas(s), w)))
    case RemoveSelected =>
      (match s.selected
       case Nothing => s
       case SelectedNode(id) => WithCanvas(Snapshot(s), NodeRemoved(Canvas(s), id)).(selected := Nothing)
       case SelectedEdge(id) => WithCanvas(Snapshot(s), EdgeRemoved(Canvas(s), id)).(selected := Nothing))
    case Duplicate(id) =>
      (match NodeOf(Canvas(s), id)
       case None => s
       case Some(n) =>
         var c := Copied(lib, Canvas(s), n);
         WithCanvas(Snapshot(s), Canvas(s).(nodes := Canvas(s).nodes + [c])).(selected := SelectedNode(c.id)))
    case SetParam(id, param, value) =>
      (match NodeOf(Canvas(s), id)
       case None => s
       case Some(n) => WithCanvas(Snapshot(s), ParamSet(lib, Canvas(s), n, param, value)))
    case SetValues(id, values, caption) =>
      (match NodeOf(Canvas(s), id)
       case None => s
       case Some(n) =>
         var m := n.(values := values, caption := caption);
         WithCanvas(Snapshot(s), Canvas(s).(nodes := Replaced(Canvas(s).nodes, m))))
    case Move(at) => WithCanvas(Snapshot(s), Canvas(s).(nodes := Moved(Canvas(s).nodes, at)))
    case UndoOne => Undo(s)
    case RedoOne => Redo(s)
  }

  /**
   The edit makes a wire from the one in hand. It does so when the port under
   the pointer, or one of the new node, can take the other end; the end in hand
   is not looked at.
   */
  predicate MakesWire(lib: Library, s: State, e: Edit) {
    match e
    case DropOn(at, _) => s.hand.Dragging? && Fits(lib, Canvas(s), s.hand.wire, at)
    case Pick(kind, x, y, _) =>
      && s.hand.Offering?
      && Takes(lib, lib.newNode(Canvas(s), kind, x, y), s.hand.wire)
    case _ => false
  }

  /** A new node takes a wire that does not hang on its own name. */
  predicate Takes(lib: Library, n: Node, w: Loose) { OfferedPort(lib, n, w).Some? && n.id != w.end.node }

  /** A wire that the edit makes hangs on a port that is still there. */
  predicate StillThere(lib: Library, s: State, e: Edit) {
    MakesWire(lib, s, e) ==> Drawn(lib, Canvas(s), s.hand.wire)
  }

  // ---------------------------------------------------------------- what the edits keep

  lemma {:induction false} FilterOneWire(edges: seq<Edge>, keep: Edge -> bool)
    requires OneWireEach(edges)
    ensures OneWireEach(Filter(edges, keep))
  {
    if edges != [] {
      FilterOneWire(edges[1..], keep);
      FilterIs(edges[1..], keep);
      var rest := Filter(edges[1..], keep);
      forall i | 0 <= i < |rest| ensures rest[i].to != edges[0].to {
        assert rest[i] in rest;
        var j :| 0 <= j < |edges[1..]| && edges[1..][j] == rest[i];
        assert edges[j + 1] == rest[i];
      }
    }
  }

  lemma {:induction false} FilterDistinct(nodes: seq<Node>, keep: Node -> bool)
    requires DistinctIds(nodes)
    ensures DistinctIds(Filter(nodes, keep))
  {
    if nodes != [] {
      FilterDistinct(nodes[1..], keep);
      FilterIs(nodes[1..], keep);
      var rest := Filter(nodes[1..], keep);
      forall i | 0 <= i < |rest| ensures rest[i].id != nodes[0].id {
        assert rest[i] in rest;
        var j :| 0 <= j < |nodes[1..]| && nodes[1..][j] == rest[i];
        assert nodes[j + 1] == rest[i];
      }
    }
  }

  /** Fewer wires on the same nodes. */
  lemma FewerWires(lib: Library, g: Graph, keep: Edge -> bool)
    requires WellWired(lib, g)
    ensures WellWired(lib, g.(edges := Filter(g.edges, keep)))
  {
    FilterOneWire(g.edges, keep);
    FilterIs(g.edges, keep);
    var h := g.(edges := Filter(g.edges, keep));
    forall e | e in h.edges ensures GoodEdge(lib, h, e) {
      assert GoodEdge(lib, g, e);
    }
  }

  /**
   Main result: on a well wired graph, `connect` keeps it well wired exactly
   when the wire starts at a port its source has and ends at one its target has.
   */
  lemma ConnectedKeeps(lib: Library, g: Graph, id: Id, from: End, to: End)
    requires WellWired(lib, g) && from.node != to.node
    ensures WellWired(lib, Connected(g, id, from, to)) <==> HasOutput(lib, g, from) && HasInput(lib, g, to)
    ensures var w := Edge(id, from, to);
            && w in Connected(g, id, from, to).edges
            && forall e :: e in Connected(g, id, from, to).edges <==> e == w || (e in g.edges && e.to != to)
  {
    var keep := (e: Edge) => e.to != to;
    var w, h := Edge(id, from, to), Connected(g, id, from, to);
    FewerWires(lib, g, keep);
    FilterIs(g.edges, keep);
    var kept := Filter(g.edges, keep);
    forall i | 0 <= i < |kept| ensures kept[i].to != to {
      assert kept[i] in kept;
    }
    assert h.edges[|kept|] == w;
    if HasOutput(lib, g, from) && HasInput(lib, g, to) {
      forall e | e in h.edges ensures GoodEdge(lib, h, e) {
        if e != w {
          assert GoodEdge(lib, g, e);
        }
      }
    } else {
      assert !GoodEdge(lib, h, w);
    }
  }

  lemma NodeAppended(lib: Library, g: Graph, n: Node)
    requires WellWired(lib, g) && !HasNode(g, n.id)
    ensures var h := g.(nodes := g.nodes + [n]);
            && WellWired(lib, h) && HasNode(h, n.id)
            && (forall e: End :: e.node != n.id ==> (HasOutput(lib, g, e) <==> HasOutput(lib, h, e)))
            && (forall e: End :: e.node != n.id ==> (HasInput(lib, g, e) <==> HasInput(lib, h, e)))
  {
    var h := g.(nodes := g.nodes + [n]);
    forall i, j | 0 <= i < |h.nodes| && 0 <= j < |h.nodes| && i != j ensures h.nodes[i].id != h.nodes[j].id {
      assert i < |g.nodes| ==> h.nodes[i] == g.nodes[i] && g.nodes[i] in g.nodes;
      assert j < |g.nodes| ==> h.nodes[j] == g.nodes[j] && g.nodes[j] in g.nodes;
    }
    assert h.nodes[|g.nodes|] == n;
    forall x | x in g.nodes ensures x in h.nodes {
      var i :| 0 <= i < |g.nodes| && g.nodes[i] == x;
      assert h.nodes[i] == x;
    }
    forall e | e in h.edges ensures GoodEdge(lib, h, e) {
      assert GoodEdge(lib, g, e);
      OfNode(lib, g, e);
    }
  }

  /** A good wire's ends are on nodes of the graph. */
  lemma OfNode(lib: Library, g: Graph, e: Edge)
    requires GoodEdge(lib, g, e)
    ensures HasNode(g, e.from.node) && HasNode(g, e.to.node)
  {}

  lemma DropPortIs(ports: seq<Port>)
    ensures var p := DropPort(ports); p.Some? ==> exists i | 0 <= i < |ports| :: ports[i].name == p.value
  {
    var required := Filter(ports, (p: Port) => p.required);
    FilterIs(ports, (p: Port) => p.required);
    if required != [] {
      assert required[0] in required;
    }
  }

  lemma OfferedPortIs(lib: Library, g: Graph, n: Node, w: Loose)
    requires n in g.nodes
    ensures var p := OfferedPort(lib, n, w); p.Some? ==> Drawn(lib, g, Facing(w, End(n.id, p.value)))
  {
    var ports := lib.inputs(n.kind, n.params);
    DropPortIs(ports);
    var p := OfferedPort(lib, n, w);
    if p.Some? && w.FromOutput? {
      var i :| 0 <= i < |ports| && ports[i].name == p.value;
      assert InputNames(lib, n)[i] == p.value;
    }
  }

  /**
   Main result: a new node, with the wire let go on the canvas, keeps a graph
   well wired exactly when a wire that it takes hangs on a port that is still there.
   */
  lemma AddedKeeps(lib: Library, g: Graph, n: Node, drop: Option<Loose>, wire: Id)
    requires WellWired(lib, g) && !HasNode(g, n.id)
    ensures WellWired(lib, Added(lib, g, n, drop, wire)) <==>
            (drop.Some? && Takes(lib, n, drop.value) ==> Drawn(lib, g, drop.value))
  {
    NodeAppended(lib, g, n);
    var more := g.(nodes := g.nodes + [n]);
    if drop.Some? {
      var w := drop.value;
      var port := OfferedPort(lib, n, w);
      assert more.nodes[|g.nodes|] == n;
      OfferedPortIs(lib, more, n, w);
      if port.Some? && n.id != w.end.node {
        var e := Wired(w, End(n.id, port.value), wire);
        ConnectedKeeps(lib, more, wire, e.from, e.to);
      }
    }
  }

  lemma NodeRemovedKeeps(lib: Library, g: Graph, id: Id)
    requires WellWired(lib, g)
    ensures WellWired(lib, NodeRemoved(g, id)) && !HasNode(NodeRemoved(g, id), id)
  {
    var h := NodeRemoved(g, id);
    var keepNode := (n: Node) => n.id != id;
    var keepEdge := (e: Edge) => e.from.node != id && e.to.node != id;
    FilterDistinct(g.nodes, keepNode);
    FilterOneWire(g.edges, keepEdge);
    FilterIs(g.nodes, keepNode);
    FilterIs(g.edges, keepEdge);
    forall e | e in h.edges ensures GoodEdge(lib, h, e) {
      assert GoodEdge(lib, g, e);
      var a :| a in g.nodes && a.id == e.from.node && e.from.port in lib.outputs(a.kind);
      var b :| b in g.nodes && b.id == e.to.node && e.to.port in InputNames(lib, b);
      assert a in h.nodes && b in h.nodes;
    }
  }

  /** Nodes changed in place: same ids and kinds, and inputs that the wires still fit. */
  lemma NodesChanged(lib: Library, g: Graph, h: Graph)
    requires WellWired(lib, g) && |h.nodes| == |g.nodes| && OneWireEach(h.edges)
    requires forall i | 0 <= i < |g.nodes| :: h.nodes[i].id == g.nodes[i].id && h.nodes[i].kind == g.nodes[i].kind
    requires forall e | e in h.edges :: e in g.edges && HasInput(lib, h, e.to)
    ensures WellWired(lib, h)
  {
    forall e | e in h.edges ensures GoodEdge(lib, h, e) {
      assert GoodEdge(lib, g, e);
      var a :| a in g.nodes && a.id == e.from.node && e.from.port in lib.outputs(a.kind);
      var i :| 0 <= i < |g.nodes| && g.nodes[i] == a;
      assert h.nodes[i] in h.nodes;
    }
  }

  /** An input that a node has, found in a graph where that node's ports are the same. */
  lemma SameInput(lib: Library, g: Graph, h: Graph, e: End)
    requires |h.nodes| == |g.nodes| && HasInput(lib, g, e)
    requires forall i | 0 <= i < |g.nodes| ::
               h.nodes[i].id == g.nodes[i].id &&
               (g.nodes[i].id == e.node ==>
                  h.nodes[i].kind == g.nodes[i].kind && h.nodes[i].params == g.nodes[i].params)
    ensures HasInput(lib, h, e)
  {
    var b :| b in g.nodes && b.id == e.node && e.port in InputNames(lib, b);
    var i :| 0 <= i < |g.nodes| && g.nodes[i] == b;
    assert h.nodes[i] in h.nodes && InputNames(lib, h.nodes[i]) == InputNames(lib, b);
  }

  /** Nodes changed in what does not matter to their ports. */
  lemma SamePorts(lib: Library, g: Graph, nodes: seq<Node>)
    requires WellWired(lib, g) && |nodes| == |g.nodes|
    requires forall i | 0 <= i < |nodes| ::
               nodes[i].id == g.nodes[i].id && nodes[i].kind == g.nodes[i].kind && nodes[i].params == g.nodes[i].params
    ensures WellWired(lib, g.(nodes := nodes))
  {
    var h := g.(nodes := nodes);
    forall e | e in h.edges ensures HasInput(lib, h, e.to) {
      assert GoodEdge(lib, g, e);
      SameInput(lib, g, h, e.to);
    }
    NodesChanged(lib, g, h);
  }

  lemma NodeOfIs(g: Graph, id: Id)
    ensures NodeOf(g, id).Some? ==> NodeOf(g, id).value in g.nodes && NodeOf(g, id).value.id == id
  {
    var found := Filter(g.nodes, (n: Node) => n.id == id);
    FilterIs(g.nodes, (n: Node) => n.id == id);
    if found != [] {
      assert found[0] in found;
    }
  }

  /** The replaced node is the one with its id. */
  lemma ReplacedAt(nodes: seq<Node>, n: Node, m: Node)
    requires DistinctIds(nodes) && n in nodes && m.id == n.id
    ensures forall i | 0 <= i < |nodes| :: nodes[i].id == n.id ==> nodes[i] == n
    ensures m in Replaced(nodes, m)
  {
    var k :| 0 <= k < |nodes| && nodes[k] == n;
    assert Replaced(nodes, m)[k] == m;
  }

  lemma ParamSetKeeps(lib: Library, g: Graph, n: Node, name: string, value: string)
    requires WellWired(lib, g) && n in g.nodes
    ensures WellWired(lib, ParamSet(lib, g, n, name, value))
  {
    var m, h := n.(params := n.params[name := value]), ParamSet(lib, g, n, name, value);
    var names := InputNames(lib, m);
    var keep := (e: Edge) => e.to.node != n.id || e.to.port in names;
    FilterOneWire(g.edges, keep);
    FilterIs(g.edges, keep);
    ReplacedAt(g.nodes, n, m);
    forall e | e in h.edges ensures e in g.edges && HasInput(lib, h, e.to) {
      assert GoodEdge(lib, g, e);
      if e.to.node != n.id {
        SameInput(lib, g, h, e.to);
      }
    }
    NodesChanged(lib, g, h);
  }

  // ---------------------------------------------------------------- every edit, every run

  /** An edit that changes only the canvas keeps the state good exactly when the new graph is well wired. */
  lemma CanvasKeeps(lib: Library, s: State, g: Graph)
    requires GoodState(lib, s)
    ensures GoodState(lib, WithCanvas(Snapshot(s), g)) <==> WellWired(lib, g)
  {
    SnapshotKeeps(lib, s);
    var t := WithCanvas(Snapshot(s), g);
    assert s.fn in s.flow.functions && s.fn != EXECUTE ==> t.flow.functions[s.fn] == g;
  }

  lemma SnapshotKeeps(lib: Library, s: State)
    requires GoodState(lib, s)
    ensures GoodState(lib, Snapshot(s)) && Snapshot(s).undo != [] && Snapshot(s).undo[|Snapshot(s).undo| - 1] == s.flow
  {
    var undo := s.undo + [s.flow];
    forall i | 0 <= i < |undo| ensures GoodFlow(lib, undo[i]) {
      assert i < |s.undo| ==> undo[i] == s.undo[i];
    }
  }

  lemma CanvasGood(lib: Library, s: State)
    requires GoodState(lib, s)
    ensures WellWired(lib, Canvas(s))
  {}

  lemma HistoryKeeps(lib: Library, s: State)
    requires GoodState(lib, s)
    ensures GoodState(lib, Undo(s)) && GoodState(lib, Redo(s))
  {
    var redo := s.redo + [s.flow];
    forall i | 0 <= i < |redo| ensures GoodFlow(lib, redo[i]) {
      assert i < |s.redo| ==> redo[i] == s.redo[i];
    }
    var undo := s.undo + [s.flow];
    forall i | 0 <= i < |undo| ensures GoodFlow(lib, undo[i]) {
      assert i < |s.undo| ==> undo[i] == s.undo[i];
    }
  }

  /**
   Main result: an edit keeps every graph, on the canvas and in the history,
   well wired exactly when the wire it makes, if any, hangs on a port that is still there.
   */
  lemma StepKeeps(lib: Library, s: State, e: Edit)
    requires Fresh(lib) && GoodState(lib, s)
    ensures GoodState(lib, Step(lib, s, e)) <==> StillThere(lib, s, e)
  {
    match e
    case AddNode(kind, x, y) => NodeAddedKeeps(lib, s, kind, x, y, None, "");
    case Grab(port) => UnwireKeeps(lib, s, port.end);
    case DropOn(at, wire) => DropKeeps(lib, s, at, wire);
    case DropOnCanvas =>
    case Pick(kind, x, y, wire) =>
      if s.hand.Offering? {
        NodeAddedKeeps(lib, s, kind, x, y, Some(s.hand.wire), wire);
      }
    case LetGo =>
    case Unwire(to) => UnwireKeeps(lib, s, to);
    case _ => QuietKeeps(lib, s, e);
  }

  /** An edit that has nothing to do with a wire in hand. */
  predicate IsQuiet(e: Edit) {
    !e.AddNode? && !e.Grab? && !e.DropOn? && !e.DropOnCanvas? && !e.Pick? && !e.LetGo? && !e.Unwire?
  }

  lemma QuietKeeps(lib: Library, s: State, e: Edit)
    requires Fresh(lib) && GoodState(lib, s) && IsQuiet(e)
    ensures GoodState(lib, Step(lib, s, e))
  {
    match e
    case UndoOne => HistoryKeeps(lib, s);
    case RedoOne => HistoryKeeps(lib, s);
    case Rename(_, _, _) => SnapshotKeeps(lib, s);
    case AddFunction(_) => SnapshotKeeps(lib, s);
    case RemoveFunction(_) => SnapshotKeeps(lib, s);
    case SwitchFunction(_) =>
    case Select(_) =>
    case RemoveSelected => RemoveKeeps(lib, s);
    case Duplicate(id) => DuplicateKeeps(lib, s, id);
    case SetParam(id, param, value) => ParamKeeps(lib, s, id, param, value);
    case SetValues(id, values, caption) => ValuesKeep(lib, s, id, values, caption);
    case Move(places) => MoveKeeps(lib, s, places);
  }

  lemma MoveKeeps(lib: Library, s: State, places: map<Id, (int, int)>)
    requires GoodState(lib, s)
    ensures GoodState(lib, Step(lib, s, Move(places)))
  {
    var g := Canvas(s);
    CanvasGood(lib, s);
    SamePorts(lib, g, Moved(g.nodes, places));
    CanvasKeeps(lib, s, g.(nodes := Moved(g.nodes, places)));
  }

  lemma ParamKeeps(lib: Library, s: State, id: Id, param: string, value: string)
    requires GoodState(lib, s)
    ensures GoodState(lib, Step(lib, s, SetParam(id, param, value)))
  {
    var g := Canvas(s);
    CanvasGood(lib, s);
    NodeOfIs(g, id);
    if NodeOf(g, id).Some? {
      ParamSetKeeps(lib, g, NodeOf(g, id).value, param, value);
      CanvasKeeps(lib, s, ParamSet(lib, g, NodeOf(g, id).value, param, value));
    }
  }

  lemma NodeAddedKeeps(lib: Library, s: State, kind: string, x: int, y: int, drop: Option<Loose>, wire: Id)
    requires Fresh(lib) && GoodState(lib, s)
    ensures GoodState(lib, NodeAdded(lib, s, kind, x, y, drop, wire)) <==>
            (drop.Some? && Takes(lib, lib.newNode(Canvas(s), kind, x, y), drop.value) ==>
             Drawn(lib, Canvas(s), drop.value))
  {
    var n := lib.newNode(Canvas(s), kind, x, y);
    CanvasGood(lib, s);
    AddedKeeps(lib, Canvas(s), n, drop, wire);
    CanvasKeeps(lib, s, Added(lib, Canvas(s), n, drop, wire));
  }

  lemma DropKeeps(lib: Library, s: State, at: End, wire: Id)
    requires GoodState(lib, s)
    ensures GoodState(lib, Step(lib, s, DropOn(at, wire))) <==> StillThere(lib, s, DropOn(at, wire))
  {
    if s.hand.Dragging? && Fits(lib, Canvas(s), s.hand.wire, at) {
      var e := Wired(s.hand.wire, at, wire);
      CanvasGood(lib, s);
      ConnectedKeeps(lib, Canvas(s), wire, e.from, e.to);
      CanvasKeeps(lib, s, Connected(Canvas(s), wire, e.from, e.to));
    }
  }

  lemma UnwireKeeps(lib: Library, s: State, to: End)
    requires GoodState(lib, s)
    ensures WireInto(Canvas(s), to).Some? ==>
            GoodState(lib, WithCanvas(Snapshot(s), WithoutEdge(Canvas(s), WireInto(Canvas(s), to).value)))
  {
    var w := WireInto(Canvas(s), to);
    if w.Some? {
      CanvasGood(lib, s);
      FewerWires(lib, Canvas(s), (e: Edge) => e != w.value);
      CanvasKeeps(lib, s, WithoutEdge(Canvas(s), w.value));
    }
  }

  lemma RemoveKeeps(lib: Library, s: State)
    requires GoodState(lib, s)
    ensures GoodState(lib, Step(lib, s, RemoveSelected))
  {
    var g := Canvas(s);
    CanvasGood(lib, s);
    match s.selected
    case Nothing =>
    case SelectedNode(id) =>
      NodeRemovedKeeps(lib, g, id);
      CanvasKeeps(lib, s, NodeRemoved(g, id));
    case SelectedEdge(id) =>
      FewerWires(lib, g, (e: Edge) => e.id != id);
      CanvasKeeps(lib, s, EdgeRemoved(g, id));
  }

  lemma CopiedFresh(lib: Library, g: Graph, n: Node)
    requires Fresh(lib)
    ensures !HasNode(g, Copied(lib, g, n).id)
  {
    var m := lib.newNode(g, n.kind, n.x + 30, n.y + 30);
    assert !HasNode(g, m.id);
  }

  lemma DuplicateKeeps(lib: Library, s: State, id: Id)
    requires Fresh(lib) && GoodState(lib, s)
    ensures GoodState(lib, Step(lib, s, Duplicate(id)))
  {
    var g := Canvas(s);
    CanvasGood(lib, s);
    if NodeOf(g, id).Some? {
      var n := NodeOf(g, id).value;
      var c := Copied(lib, g, n);
      CopiedFresh(lib, g, n);
      NodeAppended(lib, g, c);
      CanvasKeeps(lib, s, g.(nodes := g.nodes + [c]));
    }
  }

  lemma ValuesKeep(lib: Library, s: State, id: Id, values: Params, caption: string)
    requires GoodState(lib, s)
    ensures GoodState(lib, Step(lib, s, SetValues(id, values, caption)))
  {
    var g := Canvas(s);
    CanvasGood(lib, s);
    NodeOfIs(g, id);
    if NodeOf(g, id).Some? {
      var n := NodeOf(g, id).value;
      var m := n.(values := values, caption := caption);
      ReplacedAt(g.nodes, n, m);
      SamePorts(lib, g, Replaced(g.nodes, m));
      CanvasKeeps(lib, s, g.(nodes := Replaced(g.nodes, m)));
    }
  }

  /** A run of any edits. */
  ghost predicate Run(lib: Library, states: seq<State>, edits: seq<Edit>) {
    && |states| == |edits| + 1
    && forall i | 0 <= i < |edits| :: states[i + 1] == Step(lib, states[i], edits[i])
  }

  /** What stays true just as long as each step is sound is true throughout exactly when all steps are. */
  lemma {:induction false} UpToFault(good: nat -> bool, sound: nat -> bool, k: nat)
    requires good(0) && forall i: nat | i < k :: good(i) ==> (good(i + 1) <==> sound(i))
    ensures (forall i: nat | i <= k :: good(i)) <==> (forall i: nat | i < k :: sound(i))
  {
    if k > 0 {
      UpToFault(good, sound, k - 1);
      assert good(k - 1) ==> (good(k - 1 + 1) <==> sound(k - 1));
    }
  }

  lemma RunStep(lib: Library, states: seq<State>, edits: seq<Edit>, i: nat)
    requires Fresh(lib) && Run(lib, states, edits) && i < |edits| && GoodState(lib, states[i])
    ensures GoodState(lib, states[i + 1]) <==> StillThere(lib, states[i], edits[i])
  {
    StepKeeps(lib, states[i], edits[i]);
  }

  /**
   Main result: in every state of a run every wire is good and no input has
   two, exactly when each wire that was made hung on a port that was still there.
   */
  lemma RunKeeps(lib: Library, states: seq<State>, edits: seq<Edit>, k: nat)
    requires Fresh(lib) && Run(lib, states, edits) && GoodState(lib, states[0]) && k < |states|
    ensures (forall i: nat | i <= k :: GoodState(lib, states[i])) <==>
            (forall i: nat | i < k :: StillThere(lib, states[i], edits[i]))
  {
    ghost var good := (i: nat) => i < |states| && GoodState(lib, states[i]);
    ghost var sound := (i: nat) => i < |edits| && StillThere(lib, states[i], edits[i]);
    forall i: nat | i < k && good(i) ensures good(i + 1) <==> sound(i) {
      RunStep(lib, states, edits, i);
    }
    UpToFault(good, sound, k);
    assert forall i: nat | i <= k :: good(i) <==> GoodState(lib, states[i]);
    assert forall i: nat | i < k :: sound(i) <==> StillThere(lib, states[i], edits[i]);
  }

  /** The port of the wire in hand is there. */
  predicate HandDrawn(lib: Library, s: State) { s.hand.Empty? || Drawn(lib, Canvas(s), s.hand.wire) }

  /** An edit that takes no port off the canvas. */
  predicate KeepsPorts(e: Edit) {
    match e
    case AddFunction(_) => false
    case RemoveFunction(_) => false
    case SwitchFunction(_) => false
    case RemoveSelected => false
    case SetParam(_, _, _) => false
    case UndoOne => false
    case RedoOne => false
    case _ => true
  }

  /** The nodes of one graph are in another, in their places, with the same ports. */
  predicate Outlive(g: Graph, h: Graph) {
    && |g.nodes| <= |h.nodes|
    && forall i | 0 <= i < |g.nodes| ::
         h.nodes[i].id == g.nodes[i].id && h.nodes[i].kind == g.nodes[i].kind && h.nodes[i].params == g.nodes[i].params
  }

  lemma OutliveDrawn(lib: Library, g: Graph, h: Graph, w: Loose)
    requires Outlive(g, h) && Drawn(lib, g, w)
    ensures Drawn(lib, h, w)
  {
    if w.FromOutput? {
      var n :| n in g.nodes && n.id == w.end.node && w.end.port in lib.outputs(n.kind);
      var i :| 0 <= i < |g.nodes| && g.nodes[i] == n;
      assert h.nodes[i] in h.nodes;
    } else {
      var n :| n in g.nodes && n.id == w.end.node && w.end.port in InputNames(lib, n);
      var i :| 0 <= i < |g.nodes| && g.nodes[i] == n;
      assert h.nodes[i] in h.nodes && InputNames(lib, h.nodes[i]) == InputNames(lib, n);
    }
  }

  /** The graph that was put on the canvas is there. */
  lemma CanvasIs(s: State, g: Graph, selected: Selection, hand: Hand)
    ensures Canvas(WithCanvas(Snapshot(s), g).(selected := selected, hand := hand)) == g
  {}

  lemma ReplacedOutlive(g: Graph, id: Id, values: Params, caption: string)
    requires DistinctIds(g.nodes) && NodeOf(g, id).Some?
    ensures var m := NodeOf(g, id).value.(values := values, caption := caption);
            Outlive(g, g.(nodes := Replaced(g.nodes, m)))
  {
    NodeOfIs(g, id);
    var n := NodeOf(g, id).value;
    ReplacedAt(g.nodes, n, n.(values := values, caption := caption));
  }

  lemma NodeAddedOutlive(lib: Library, s: State, kind: string, x: int, y: int, drop: Option<Loose>, wire: Id,
                         hand: Hand)
    ensures var t := NodeAdded(lib, s, kind, x, y, drop, wire).(hand := hand);
            && Outlive(Canvas(s), Canvas(t))
            && (drop.None? ==> Canvas(t) == Canvas(s).(nodes := Canvas(s).nodes + [lib.newNode(Canvas(s), kind, x, y)]))
  {
    var n := lib.newNode(Canvas(s), kind, x, y);
    CanvasIs(s, Added(lib, Canvas(s), n, drop, wire), SelectedNode(n.id), hand);
  }

  lemma NodesOutlive(lib: Library, s: State, e: Edit)
    requires DistinctIds(Canvas(s).nodes) && (e.SetValues? || e.Move? || e.Duplicate? || e.Rename?)
    ensures Outlive(Canvas(s), Canvas(Step(lib, s, e)))
  {
    var g := Canvas(s);
    match e
    case Rename(_, _, _) =>
    case Duplicate(id) =>
      if NodeOf(g, id).Some? {
        var c := Copied(lib, g, NodeOf(g, id).value);
        CanvasIs(s, g.(nodes := g.nodes + [c]), SelectedNode(c.id), s.hand);
      }
    case SetValues(id, values, caption) =>
      if NodeOf(g, id).Some? {
        ReplacedOutlive(g, id, values, caption);
        var m := NodeOf(g, id).value.(values := values, caption := caption);
        CanvasIs(s, g.(nodes := Replaced(g.nodes, m)), s.selected, s.hand);
      }
    case Move(places) => CanvasIs(s, g.(nodes := Moved(g.nodes, places)), s.selected, s.hand);
  }

  lemma WiresOutlive(lib: Library, s: State, e: Edit)
    requires e.Grab? || e.DropOn? || e.DropOnCanvas? || e.LetGo? || e.Unwire? || e.Select?
    ensures Canvas(Step(lib, s, e)).nodes == Canvas(s).nodes
  {
    var g, t := Canvas(s), Step(lib, s, e);
    match e
    case Grab(port) =>
      var w := WireInto(g, port.end);
      if Drawn(lib, g, port) && port.FromInput? && w.Some? {
        CanvasIs(s, WithoutEdge(g, w.value), s.selected, t.hand);
      }
    case DropOn(at, wire) =>
      if s.hand.Dragging? {
        var m := Wired(s.hand.wire, at, wire);
        CanvasIs(s, Connected(g, wire, m.from, m.to), s.selected, Empty);
      }
    case Unwire(to) =>
      var w := WireInto(g, to);
      if w.Some? {
        CanvasIs(s, WithoutEdge(g, w.value), s.selected, s.hand);
      }
    case _ =>
  }

  lemma EditOutlives(lib: Library, s: State, e: Edit)
    requires DistinctIds(Canvas(s).nodes) && KeepsPorts(e)
    ensures Outlive(Canvas(s), Canvas(Step(lib, s, e)))
  {
    match e
    case AddNode(kind, x, y) => NodeAddedOutlive(lib, s, kind, x, y, None, "", s.hand);
    case Pick(kind, x, y, wire) =>
      if s.hand.Offering? {
        NodeAddedOutlive(lib, s, kind, x, y, Some(s.hand.wire), wire, Empty);
      }
    case Rename(_, _, _) => NodesOutlive(lib, s, e);
    case Duplicate(_) => NodesOutlive(lib, s, e);
    case SetValues(_, _, _) => NodesOutlive(lib, s, e);
    case Move(_) => NodesOutlive(lib, s, e);
    case _ => WiresOutlive(lib, s, e);
  }

  /** What an edit that keeps the ports leaves in hand. */
  lemma SameHand(lib: Library, s: State, e: Edit)
    requires KeepsPorts(e) && !e.Grab?
    ensures var t := Step(lib, s, e); t.hand == Empty || (s.hand != Empty && t.hand.wire == s.hand.wire)
  {}

  lemma GrabDrawn(lib: Library, s: State, port: Loose)
    requires HandDrawn(lib, s)
    ensures HandDrawn(lib, Step(lib, s, Grab(port)))
  {
    var w := WireInto(Canvas(s), port.end);
    if Drawn(lib, Canvas(s), port) && port.FromInput? && w.Some? {
      CanvasIs(s, WithoutEdge(Canvas(s), w.value), s.selected, Step(lib, s, Grab(port)).hand);
    }
  }

  /** While a wire is in hand its port stays, unless an edit takes ports off the canvas. */
  lemma HandStays(lib: Library, s: State, e: Edit)
    requires GoodState(lib, s) && HandDrawn(lib, s) && (s.hand.Empty? || KeepsPorts(e))
    ensures HandDrawn(lib, Step(lib, s, e))
  {
    CanvasGood(lib, s);
    if e.Grab? {
      GrabDrawn(lib, s, e.port);
    } else if s.hand != Empty {
      SameHand(lib, s, e);
      EditOutlives(lib, s, e);
      OutliveDrawn(lib, Canvas(s), Canvas(Step(lib, s, e)), s.hand.wire);
    }
  }

  /**
   Main result: as long as no port is taken off the canvas while a wire is in
   hand, every state of a run is good.
   */
  lemma {:induction false} CarefulRunKeeps(lib: Library, states: seq<State>, edits: seq<Edit>, k: nat)
    requires Fresh(lib) && Run(lib, states, edits) && k < |states|
    requires GoodState(lib, states[0]) && states[0].hand == Empty
    requires forall i | 0 <= i < k :: states[i].hand == Empty || KeepsPorts(edits[i])
    ensures GoodState(lib, states[k]) && HandDrawn(lib, states[k])
  {
    if k > 0 {
      CarefulRunKeeps(lib, states, edits, k - 1);
      assert states[k - 1 + 1] == Step(lib, states[k - 1], edits[k - 1]);
      HandStays(lib, states[k - 1], edits[k - 1]);
      StepKeeps(lib, states[k - 1], edits[k - 1]);
    }
  }

  /**
   Main result: that undo can come while a wire is in hand is a fault. From
   any good state: a node is added, a wire is begun at one of its outputs, the
   node is undone, and the wire is let go on an input. It starts at a node that
   is gone.
   */
  lemma LostEnd(lib: Library, s: State, kind: string, x: int, y: int, out: string, to: End, wire: Id)
    requires Fresh(lib) && GoodState(lib, s) && out in lib.outputs(lib.newNode(Canvas(s), kind, x, y).kind)
    requires HasInput(lib, Canvas(s), to)
    ensures var from := End(lib.newNode(Canvas(s), kind, x, y).id, out);
            var d := Step(lib, BegunAndUndone(lib, s, kind, x, y, from), DropOn(to, wire));
            Edge(wire, from, to) in Canvas(d).edges && !HasNode(Canvas(d), from.node) && !GoodState(lib, d)
  {
    var from := End(lib.newNode(Canvas(s), kind, x, y).id, out);
    AddedUndone(lib, s, kind, x, y, from);
    LostDrop(lib, BegunAndUndone(lib, s, kind, x, y, from), from, to, wire);
  }

  /** A node is added, a wire begun at its port, and the node undone. */
  function BegunAndUndone(lib: Library, s: State, kind: string, x: int, y: int, from: End): State {
    Step(lib, Step(lib, Step(lib, s, AddNode(kind, x, y)), Grab(FromOutput(from))), UndoOne)
  }

  /** A wire whose source is gone is let go on an input. */
  lemma LostDrop(lib: Library, c: State, from: End, to: End, wire: Id)
    requires GoodState(lib, c) && c.hand == Dragging(FromOutput(from))
    requires !HasNode(Canvas(c), from.node) && HasInput(lib, Canvas(c), to)
    ensures var d := Step(lib, c, DropOn(to, wire));
            Edge(wire, from, to) in Canvas(d).edges && !HasNode(Canvas(d), from.node) && !GoodState(lib, d)
  {
    var g := Canvas(c);
    DropKeeps(lib, c, to, wire);
    CanvasGood(lib, c);
    ConnectedKeeps(lib, g, wire, from, to);
    CanvasIs(c, Connected(g, wire, from, to), c.selected, Empty);
  }

  /** The canvas is the old one then, and the wire still in hand. */
  lemma AddedUndone(lib: Library, s: State, kind: string, x: int, y: int, from: End)
    requires Fresh(lib) && GoodState(lib, s) && from.node == lib.newNode(Canvas(s), kind, x, y).id
    requires from.port in lib.outputs(lib.newNode(Canvas(s), kind, x, y).kind)
    ensures var c := BegunAndUndone(lib, s, kind, x, y, from);
            GoodState(lib, c) && Canvas(c) == Canvas(s) && c.hand == Dragging(FromOutput(from))
  {
    var a := Step(lib, s, AddNode(kind, x, y));
    JustAdded(lib, s, kind, x, y, from);
    GrabOutput(lib, a, from);
    UndoneAdd(lib, s, a, FromOutput(from));
  }

  lemma JustAdded(lib: Library, s: State, kind: string, x: int, y: int, from: End)
    requires Fresh(lib) && GoodState(lib, s) && from.node == lib.newNode(Canvas(s), kind, x, y).id
    requires from.port in lib.outputs(lib.newNode(Canvas(s), kind, x, y).kind)
    ensures var a := Step(lib, s, AddNode(kind, x, y));
            GoodState(lib, a) && a.undo == Snapshot(s).undo && a.fn == s.fn && HasOutput(lib, Canvas(a), from)
  {
    var n := lib.newNode(Canvas(s), kind, x, y);
    NodeAddedKeeps(lib, s, kind, x, y, None, "");
    NodeAddedOutlive(lib, s, kind, x, y, None, "", s.hand);
    assert (Canvas(s).nodes + [n])[|Canvas(s).nodes|] == n;
  }

  lemma GrabOutput(lib: Library, a: State, from: End)
    requires HasOutput(lib, Canvas(a), from)
    ensures Step(lib, a, Grab(FromOutput(from))) == a.(hand := Dragging(FromOutput(from)))
  {}

  lemma UndoneAdd(lib: Library, s: State, a: State, w: Loose)
    requires GoodState(lib, a) && Snapshot(s).undo == a.undo && a.fn == s.fn
    ensures var c := Step(lib, a.(hand := Dragging(w)), UndoOne);
            GoodState(lib, c) && Canvas(c) == Canvas(s) && c.hand == Dragging(w)
  {
    var u := Snapshot(s);
    assert u.undo[|u.undo| - 1] == s.flow;
    HistoryKeeps(lib, a.(hand := Dragging(w)));
  }

  /** What "Tidy" needs of a flow, every well wired one has: wires join nodes that are there. */
  lemma WellWiredIsClosed(lib: Library, g: Graph)
    requires WellWired(lib, g)
    ensures AutoLayout.Closed(NodeIds(g), Wires(g))
  {
    forall w | w in Wires(g) ensures w.from in NodeIds(g) && w.to in NodeIds(g) {
      var i :| 0 <= i < |g.edges| && Wires(g)[i] == w;
      assert GoodEdge(lib, g, g.edges[i]);
      IdListed(g, w.from);
      IdListed(g, w.to);
    }
  }

  function NodeIds(g: Graph): seq<Id> { seq(|g.nodes|, i requires 0 <= i < |g.nodes| => g.nodes[i].id) }

  function Wires(g: Graph): seq<AutoLayout.Wire> {
    seq(|g.edges|, i requires 0 <= i < |g.edges| => AutoLayout.Wire(g.edges[i].from.node, g.edges[i].to.node))
  }

  lemma IdListed(g: Graph, id: Id)
    requires HasNode(g, id)
    ensures id in NodeIds(g)
  {
    var n :| n in g.nodes && n.id == id;
    var i :| 0 <= i < |g.nodes| && g.nodes[i] == n;
    assert NodeIds(g)[i] == id;
  }

  // ---------------------------------------------------------------- what each edit does, and leaves alone

  /** Main result: a removed node goes with its wires, and nothing else does. */
  lemma NodeRemovedIs(g: Graph, id: Id)
    ensures var h := NodeRemoved(g, id);
            && (forall n :: n in h.nodes <==> n in g.nodes && n.id != id)
            && (forall e :: e in h.edges <==> e in g.edges && e.from.node != id && e.to.node != id)
  {
    FilterIs(g.nodes, (n: Node) => n.id != id);
    FilterIs(g.edges, (e: Edge) => e.from.node != id && e.to.node != id);
  }

  /** A removed wire goes alone; an unwired input loses just its wire. */
  lemma EdgeRemovedIs(lib: Library, g: Graph, id: Id, to: End)
    requires WellWired(lib, g)
    ensures EdgeRemoved(g, id).nodes == g.nodes
    ensures forall e :: e in EdgeRemoved(g, id).edges <==> e in g.edges && e.id != id
    ensures WireInto(g, to).None? <==> forall e | e in g.edges :: e.to != to
    ensures WireInto(g, to).Some? ==>
              var h := WithoutEdge(g, WireInto(g, to).value);
              h.nodes == g.nodes && forall e :: e in h.edges <==> e in g.edges && e.to != to
  {
    FilterIs(g.edges, (e: Edge) => e.id != id);
    FilterIs(g.edges, (e: Edge) => e.to == to);
    var found := Filter(g.edges, (e: Edge) => e.to == to);
    if found != [] {
      assert found[0] in found;
      FilterIs(g.edges, (e: Edge) => e != found[0]);
      forall e | e in g.edges && e.to == to ensures e == found[0] {
        var i :| 0 <= i < |g.edges| && g.edges[i] == e;
        var j :| 0 <= j < |g.edges| && g.edges[j] == found[0];
      }
    } else {
      forall e | e in g.edges ensures e.to != to {
        assert e !in found;
      }
    }
  }

  /**
   Main result: a setting gets its value and the node's other settings stay; no
   other node changes; and just the wires stay that end at a port which is there.
   */
  lemma ParamSetIs(lib: Library, g: Graph, n: Node, name: string, value: string)
    requires WellWired(lib, g) && n in g.nodes
    ensures var h := ParamSet(lib, g, n, name, value);
            && |h.nodes| == |g.nodes|
            && (forall i | 0 <= i < |g.nodes| && g.nodes[i].id != n.id :: h.nodes[i] == g.nodes[i])
            && (forall i | 0 <= i < |g.nodes| && g.nodes[i].id == n.id ::
                  && h.nodes[i] == n.(params := h.nodes[i].params)
                  && name in h.nodes[i].params && h.nodes[i].params[name] == value
                  && forall p :: p != name ==>
                       (p in h.nodes[i].params <==> p in n.params)
                       && (p in n.params ==> h.nodes[i].params[p] == n.params[p]))
            && (forall e :: e in h.edges <==> e in g.edges && HasInput(lib, h, e.to))
  {
    var m, h := n.(params := n.params[name := value]), ParamSet(lib, g, n, name, value);
    var names := InputNames(lib, m);
    FilterIs(g.edges, (e: Edge) => e.to.node != n.id || e.to.port in names);
    ReplacedAt(g.nodes, n, m);
    forall e | e in g.edges ensures HasInput(lib, h, e.to) <==> e.to.node != n.id || e.to.port in names {
      assert GoodEdge(lib, g, e);
      if e.to.node != n.id {
        SameInput(lib, g, h, e.to);
      } else if HasInput(lib, h, e.to) {
        OnlyReplaced(g.nodes, n, m, e.to.node);
      }
    }
  }

  lemma OnlyReplaced(nodes: seq<Node>, n: Node, m: Node, id: Id)
    requires DistinctIds(nodes) && n in nodes && m.id == n.id == id
    ensures forall x | x in Replaced(nodes, m) && x.id == id :: x == m
  {
    forall x | x in Replaced(nodes, m) && x.id == id ensures x == m {
      var i :| 0 <= i < |nodes| && Replaced(nodes, m)[i] == x;
    }
  }

  /** A node that is let fall on a wire's end takes it at its first required port, or at its first. */
  lemma DropPortFirst(ports: seq<Port>, i: nat)
    requires i < |ports|
    requires if ports[i].required then forall j | 0 <= j < i :: !ports[j].required
             else i == 0 && forall j | 0 <= j < |ports| :: !ports[j].required
    ensures DropPort(ports) == Some(ports[i].name)
  {
    var required := (p: Port) => p.required;
    if ports[i].required {
      assert ports == ports[..i] + ([ports[i]] + ports[i + 1..]);
      FilterAppend(ports[..i], [ports[i]] + ports[i + 1..], required);
      FilterNone(ports[..i], required);
      assert ([ports[i]] + ports[i + 1..])[1..] == ports[i + 1..];
    } else {
      FilterNone(ports, required);
    }
  }

  /** The graph of any function other than the one on the canvas. */
  predicate IsElsewhere(s: State, name: string) { name in s.flow.functions && !(name == s.fn && s.fn != EXECUTE) }

  /** An edit of the canvas. */
  predicate EditsCanvas(e: Edit) {
    !e.Rename? && !e.AddFunction? && !e.RemoveFunction? && !e.SwitchFunction? && !e.UndoOne? && !e.RedoOne?
  }

  /** Nothing of the flow has changed but the graph on the canvas. */
  predicate OnlyCanvas(s: State, t: State, name: string) {
    && t.fn == s.fn
    && t.flow.(graph := s.flow.graph, functions := s.flow.functions) == s.flow
    && t.flow.functions.Keys == s.flow.functions.Keys
    && (IsElsewhere(s, name) ==> t.flow.functions[name] == s.flow.functions[name])
    && (s.fn in s.flow.functions && s.fn != EXECUTE ==> t.flow.graph == s.flow.graph)
  }

  lemma PutIsOnlyCanvas(s: State, g: Graph, selected: Selection, hand: Hand, name: string)
    ensures OnlyCanvas(s, WithCanvas(Snapshot(s), g).(selected := selected, hand := hand), name)
  {}

  /**
   Main result: an edit of the canvas leaves the other functions' graphs, the flow's
   name, summary and language alone.
   */
  lemma OtherGraphs(lib: Library, s: State, e: Edit, name: string)
    requires EditsCanvas(e)
    ensures OnlyCanvas(s, Step(lib, s, e), name)
  {
    var t := Step(lib, s, e);
    if t.flow != s.flow {
      StepPuts(lib, s, e, t);
      PutIsOnlyCanvas(s, Canvas(t), t.selected, t.hand, name);
    } else {
      assert t.fn == s.fn;
    }
  }

  /** What such an edit does to the flow is to put a graph on the canvas. */
  lemma StepPuts(lib: Library, s: State, e: Edit, t: State)
    requires EditsCanvas(e) && t == Step(lib, s, e) && t.flow != s.flow
    ensures t == WithCanvas(Snapshot(s), Canvas(t)).(selected := t.selected, hand := t.hand)
  {
    forall g: Graph ensures Canvas(WithCanvas(Snapshot(s), g)) == g {
      CanvasIs(s, g, s.selected, s.hand);
    }
  }

  /** Functions come and go with nothing else: a new one is empty, and one that is there is only shown. */
  lemma FunctionsIs(lib: Library, s: State, fn: string)
    ensures var a, r := Step(lib, s, AddFunction(fn)), Step(lib, s, RemoveFunction(fn));
            && a.flow.(functions := s.flow.functions) == s.flow && a.fn == fn
            && a.flow.functions.Keys == s.flow.functions.Keys + {fn}
            && a.flow.functions[fn] == (if fn in s.flow.functions then s.flow.functions[fn] else Graph([], []))
            && (forall f | f in s.flow.functions :: a.flow.functions[f] == s.flow.functions[f])
            && r.flow.(functions := s.flow.functions) == s.flow && r.fn == EXECUTE
            && r.flow.functions.Keys == s.flow.functions.Keys - {fn}
            && (forall f | f in r.flow.functions :: r.flow.functions[f] == s.flow.functions[f])
  {}

  /**
   A copy: beside the node, with its kind, settings, values and caption; the
   settings' name told apart for an input.
   */
  lemma CopiedIs(lib: Library, g: Graph, n: Node)
    ensures var c, made := Copied(lib, g, n), lib.newNode(g, n.kind, n.x + 30, n.y + 30);
            && c.id == made.id && c.kind == made.kind && c.x == made.x && c.y == made.y
            && c.values == n.values && c.caption == n.caption
            && (forall p :: p in n.params && (p == "name" ==> n.kind != "flow.input") ==>
                  p in c.params && c.params[p] == n.params[p])
            && (forall p :: p in c.params ==> p in n.params || (p == "name" && n.kind == "flow.input"))
            && (n.kind == "flow.input" ==>
                "name" in c.params
                && ("name" in n.params && n.params["name"] != "" ==> c.params["name"] == n.params["name"] + "_2")
                && (!("name" in n.params && n.params["name"] != "") ==> c.params["name"] == "value_2"))
  {}

  // ---------------------------------------------------------------- the timeline

  function Undos(s: State, k: nat): State
    decreases k
  {
    if k == 0 then s else Undos(Undo(s), k - 1)
  }

  function Redos(s: State, k: nat): State
    decreases k
  {
    if k == 0 then s else Redos(Redo(s), k - 1)
  }

  function Reversed<T>(s: seq<T>): seq<T> { if s == [] then [] else Reversed(s[1..]) + [s[0]] }

  /** All the flows of the history in order, the present one among them. */
  function Timeline(s: State): seq<Flow> { s.undo + [s.flow] + Reversed(s.redo) }

  lemma {:induction false} ReversedMore<T>(s: seq<T>, x: T)
    ensures Reversed(s + [x]) == [x] + Reversed(s)
  {
    if s == [] {
      assert s + [x] == [x];
    } else {
      assert (s + [x])[1..] == s[1..] + [x];
      ReversedMore(s[1..], x);
      assert [x] + (Reversed(s[1..]) + [s[0]]) == ([x] + Reversed(s[1..])) + [s[0]];
    }
  }

  /** Undo and redo move along one timeline and change nothing on it. */
  lemma {:induction false} HistoryMoves(s: State)
    ensures Timeline(Undo(s)) == Timeline(s) && Timeline(Redo(s)) == Timeline(s)
    ensures |Undo(s).undo| == (if s.undo == [] then 0 else |s.undo| - 1)
    ensures |Redo(s).undo| == (if s.redo == [] then |s.undo| else |s.undo| + 1)
  {
    if s.undo != [] {
      ReversedMore(s.redo, s.flow);
      assert s.undo == s.undo[..|s.undo| - 1] + [s.undo[|s.undo| - 1]];
    }
    if s.redo != [] {
      ReversedMore(s.redo[..|s.redo| - 1], s.redo[|s.redo| - 1]);
      assert s.redo == s.redo[..|s.redo| - 1] + [s.redo[|s.redo| - 1]];
    }
  }

  /** The flow and the history of two states are the same. */
  predicate SameHistory(a: State, b: State) { a.flow == b.flow && a.undo == b.undo && a.redo == b.redo }

  lemma UndoRedo(s: State)
    ensures s.undo != [] ==> SameHistory(Redo(Undo(s)), s)
    ensures s.redo != [] ==> SameHistory(Undo(Redo(s)), s)
  {
    if s.undo != [] {
      assert s.undo == s.undo[..|s.undo| - 1] + [s.undo[|s.undo| - 1]];
      assert (s.redo + [s.flow])[..|s.redo|] == s.redo;
    }
    if s.redo != [] {
      assert s.redo == s.redo[..|s.redo| - 1] + [s.redo[|s.redo| - 1]];
      assert (s.undo + [s.flow])[..|s.undo|] == s.undo;
    }
  }

  lemma {:induction false} RedosSame(a: State, b: State, k: nat)
    requires SameHistory(a, b)
    ensures SameHistory(Redos(a, k), Redos(b, k))
    decreases k
  {
    if k > 0 {
      RedosSame(Redo(a), Redo(b), k - 1);
    }
  }

  lemma {:induction false} RedosLast(s: State, k: nat)
    ensures Redos(s, k + 1) == Redo(Redos(s, k))
    decreases k
  {
    if k > 0 {
      RedosLast(Redo(s), k - 1);
    }
  }

  lemma {:induction false} UndosAtStart(s: State, k: nat)
    requires s.undo == []
    ensures Undos(s, k) == s
    decreases k
  {
    if k > 0 {
      UndosAtStart(s, k - 1);
    }
  }

  /** Redoing never forgets what could be undone. */
  lemma {:induction false} RedosGrow(s: State, k: nat)
    ensures |Redos(s, k).undo| == |s.undo| + (if k <= |s.redo| then k else |s.redo|)
    decreases k
  {
    if k > 0 {
      RedosGrow(Redo(s), k - 1);
    }
  }

  /**
   Main result: k undos and then k redos give the flow and the history back
   exactly when there were k steps to undo, or nothing to redo before.
   */
  lemma {:induction false} UndosRedos(s: State, k: nat)
    ensures SameHistory(Redos(Undos(s, k), k), s) <==> k <= |s.undo| || s.redo == []
  {
    if s.undo == [] {
      UndosAtStart(s, k);
      RedosGrow(s, k);
      if s.redo == [] {
        NothingToRedo(s, k);
      }
    } else if k > |s.undo| {
      PastTheStart(s, k);
    } else {
      WithinHistory(s, k);
    }
  }

  lemma {:induction false} NothingToRedo(s: State, k: nat)
    requires s.redo == []
    ensures Redos(s, k) == s
    decreases k
  {
    if k > 0 {
      NothingToRedo(s, k - 1);
    }
  }

  lemma {:induction false} WithinHistory(s: State, k: nat)
    requires k <= |s.undo|
    ensures SameHistory(Redos(Undos(s, k), k), s)
    decreases k
  {
    if k > 0 {
      var t := Undo(s);
      WithinHistory(t, k - 1);
      RedosLast(Undos(t, k - 1), k - 1);
      RedoSame(Redos(Undos(t, k - 1), k - 1), t);
      UndoRedo(s);
    }
  }

  lemma RedoSame(a: State, b: State)
    requires SameHistory(a, b)
    ensures SameHistory(Redo(a), Redo(b))
  {}

  lemma {:induction false} UndosMany(s: State, k: nat)
    requires k >= |s.undo|
    ensures Undos(s, k) == Undos(s, |s.undo|)
    decreases k
  {
    if s.undo == [] {
      UndosAtStart(s, k);
    } else {
      UndosMany(Undo(s), k - 1);
    }
  }

  lemma {:induction false} RedosSplit(s: State, j: nat, k: nat)
    ensures Redos(s, j + k) == Redos(Redos(s, j), k)
    decreases j
  {
    if j > 0 {
      RedosSplit(Redo(s), j - 1, k);
    }
  }

  /** More undos than there are steps: the extra redos go past where the editing was. */
  lemma {:induction false} PastTheStart(s: State, k: nat)
    requires k > |s.undo| > 0
    ensures SameHistory(Redos(Undos(s, k), k), s) <==> s.redo == []
  {
    var n := |s.undo|;
    var start := Undos(s, n);
    UndosMany(s, k);
    WithinHistory(s, n);
    RedosSplit(start, n, k - n);
    var back := Redos(start, n);
    RedosSame(back, s, k - n);
    RedosGrow(s, k - n);
    if s.redo == [] {
      NothingToRedo(s, k - n);
    }
  }

  /** How many snapshots an edit makes. */
  function Snapshots(lib: Library, s: State, e: Edit): nat {
    match e
    case SwitchFunction(_) => 0
    case Select(_) => 0
    case Grab(port) => if Drawn(lib, Canvas(s), port) && port.FromInput? &&
        WireInto(Canvas(s), port.end).Some? then 1 else 0
    case DropOn(_, _) => if MakesWire(lib, s, e) then 1 else 0
    case DropOnCanvas => 0
    case Pick(_, _, _, _) => if s.hand.Offering? then 1 else 0
    case LetGo => 0
    case Unwire(to) => if WireInto(Canvas(s), to).None? then 0 else 1
    case RemoveSelected => if s.selected.Nothing? then 0 else 1
    case Duplicate(id) => if NodeOf(Canvas(s), id).None? then 0 else 1
    case SetParam(id, _, _) => if NodeOf(Canvas(s), id).None? then 0 else 1
    case SetValues(id, _, _) => if NodeOf(Canvas(s), id).None? then 0 else 1
    case _ => 1
  }

  /** Main result: after any edit, as many undos as it made snapshots give the flow back. */
  lemma EditUndone(lib: Library, s: State, e: Edit)
    requires !e.UndoOne? && !e.RedoOne?
    ensures Undos(Step(lib, s, e), Snapshots(lib, s, e)).flow == s.flow
  {
    var t := Step(lib, s, e);
    var u := Snapshot(s);
    assert u.undo[|u.undo| - 1] == s.flow;
    if Snapshots(lib, s, e) == 1 {
      assert t.undo == u.undo;
      assert Undos(t, 1) == Undos(Undo(t), 0) == Undo(t);
    }
  }

  /** How many snapshots the first k edits of a run make. */
  function Taken(lib: Library, states: seq<State>, edits: seq<Edit>, k: nat): nat
    requires k <= |edits| < |states|
  {
    if k == 0 then 0 else Taken(lib, states, edits, k - 1) + Snapshots(lib, states[k - 1], edits[k - 1])
  }

  /** The flow that m snapshots ago was the present one. */
  predicate Remembers(s: State, m: nat, flow: Flow) {
    if m == 0 then s.flow == flow else m <= |s.undo| && s.undo[|s.undo| - m] == flow
  }

  lemma StepRemembers(lib: Library, s: State, e: Edit, m: nat, flow: Flow)
    requires Remembers(s, m, flow) && !e.UndoOne? && !e.RedoOne?
    requires m + Snapshots(lib, s, e) <= MAX_UNDO
    ensures Remembers(Step(lib, s, e), m + Snapshots(lib, s, e), flow)
  {
    var t := Step(lib, s, e);
    if Snapshots(lib, s, e) == 0 {
      assert t.flow == s.flow && t.undo == s.undo;
    } else {
      assert t.undo == Snapshot(s).undo;
    }
  }

  lemma {:induction false} RunRemembers(lib: Library, states: seq<State>, edits: seq<Edit>, k: nat)
    requires Run(lib, states, edits) && k <= |edits|
    requires forall e | e in edits :: !e.UndoOne? && !e.RedoOne?
    requires Taken(lib, states, edits, k) <= MAX_UNDO
    ensures Remembers(states[k], Taken(lib, states, edits, k), states[0].flow)
    decreases k
  {
    if k > 0 {
      RunRemembers(lib, states, edits, k - 1);
      assert states[k - 1 + 1] == Step(lib, states[k - 1], edits[k - 1]);
      StepRemembers(lib, states[k - 1], edits[k - 1], Taken(lib, states, edits, k - 1), states[0].flow);
    }
  }

  lemma {:induction false} UndosRemember(s: State, m: nat, flow: Flow)
    requires Remembers(s, m, flow)
    ensures Undos(s, m).flow == flow
    decreases m
  {
    if m > 0 {
      var t := Undo(s);
      assert m > 1 ==> t.undo[|t.undo| - (m - 1)] == s.undo[|s.undo| - m];
      UndosRemember(t, m - 1, flow);
    }
  }

  /**
   Main result: after any run of edits that makes up to 150 snapshots, whatever
   was undone before, as many undos give back the flow at the start of the run.
   */
  lemma RunUndone(lib: Library, states: seq<State>, edits: seq<Edit>)
    requires Run(lib, states, edits) && forall e | e in edits :: !e.UndoOne? && !e.RedoOne?
    requires Taken(lib, states, edits, |edits|) <= 150
    ensures Undos(states[|edits|], Taken(lib, states, edits, |edits|)).flow == states[0].flow
  {
    RunRemembers(lib, states, edits, |edits|);
    UndosRemember(states[|edits|], Taken(lib, states, edits, |edits|), states[0].flow);
  }

  /** What is in hand after an edit: a wire that was let go is made, offered or dropped. */
  lemma HandAfter(lib: Library, s: State, e: Edit)
    ensures var hand := Step(lib, s, e).hand;
            && (e.LetGo? || (e.DropOn? && s.hand.Dragging?) || (e.Pick? && s.hand.Offering?) ==> hand == Empty)
            && (e.DropOnCanvas? && s.hand.Dragging? ==> hand == Offering(s.hand.wire))
            && (!e.LetGo? && !e.DropOn? && !e.Pick? && !e.DropOnCanvas? && !e.Grab? ==> hand == s.hand)
  {}

  /** A new node is the one selected, and a removed one no longer is. */
  lemma SelectedAfter(lib: Library, s: State, e: Edit)
    ensures var t := Step(lib, s, e);
            && (e.AddNode? || (e.Pick? && s.hand.Offering?) ==>
                  t.selected == SelectedNode(lib.newNode(Canvas(s), e.kind, e.x, e.y).id))
            && (e.Duplicate? && NodeOf(Canvas(s), e.id).Some? ==>
                  t.selected == SelectedNode(Copied(lib, Canvas(s), NodeOf(Canvas(s), e.id).value).id))
            && (e.RemoveSelected? ==> t.selected == Nothing)
  {}

  // ---------------------------------------------------------------- the builder

  /** The builder's module variables, with what `startWire` and `quickAdd` keep, and the functions that change them. */
  class Builder {
    const lib: Library
    var flow: Flow
    var undoStack: seq<Flow>
    var redoStack: seq<Flow>
    var selected: Selection
    var fnName: string
    var hand: Hand

    function Now(): State
      reads this
    {
      State(flow, undoStack, redoStack, selected, fnName, hand)
    }

    constructor (lib: Library, flow: Flow)
      ensures this.lib == lib && Now() == State(flow, [], [], Nothing, EXECUTE, Empty)
    {
      this.lib, this.flow := lib, flow;
      undoStack, redoStack, selected, fnName, hand := [], [], Nothing, EXECUTE, Empty;
    }

    method TakeSnapshot()
      modifies this
      ensures Now() == Snapshot(old(Now()))
    {
      undoStack := undoStack + [flow];
      if |undoStack| > MAX_UNDO {
        undoStack := undoStack[1..];
      }
      redoStack := [];
    }

    method Structure()
      modifies this
      ensures Now() == AfterStructure(old(Now()))
    {
      if selected.SelectedNode? && !HasNode(Canvas(Now()), selected.id) {
        selected := Nothing;
      }
      fnName := Shown(flow, fnName);
    }

    method UndoStep()
      modifies this
      ensures Now() == Step(lib, old(Now()), UndoOne)
    {
      if undoStack == [] {
        return;
      }
      redoStack := redoStack + [flow];
      flow := undoStack[|undoStack| - 1];
      undoStack := undoStack[..|undoStack| - 1];
      Structure();
    }

    method RedoStep()
      modifies this
      ensures Now() == Step(lib, old(Now()), RedoOne)
    {
      if redoStack == [] {
        return;
      }
      undoStack := undoStack + [flow];
      flow := redoStack[|redoStack| - 1];
      redoStack := redoStack[..|redoStack| - 1];
      Structure();
    }

    /** Puts a graph on the canvas. */
    method SetCanvas(g: Graph)
      modifies this`flow
      ensures Now() == WithCanvas(old(Now()), g)
    {
      if fnName in flow.functions && fnName != EXECUTE {
        flow := flow.(functions := flow.functions[fnName := g]);
      } else {
        flow := flow.(graph := g);
      }
    }

    /** `connect`, on any two ends. */
    method ConnectPorts(from: End, to: End, wire: Id, withHistory: bool) returns (ok: bool)
      modifies this
      ensures ok == (from.node != to.node)
      ensures Now() ==
              if !ok then old(Now())
              else WithCanvas(if withHistory then Snapshot(old(Now())) else old(Now()),
                              Connected(old(Canvas(Now())), wire, from, to))
    {
      if from.node == to.node {
        return false;
      }
      if withHistory {
        TakeSnapshot();
      }
      var g := Canvas(Now());
      SetCanvas(g.(edges := Filter(g.edges, (e: Edge) => e.to != to) + [Edge(wire, from, to)]));
      return true;
    }

    /** `addNode`, with the wire from the box if there is one. */
    method AddNodeAt(kind: string, x: int, y: int, drop: Option<Loose>, wire: Id) returns (n: Node)
      modifies this
      ensures n == lib.newNode(old(Canvas(Now())), kind, x, y)
      ensures Now() == NodeAdded(lib, old(Now()), kind, x, y, drop, wire)
    {
      TakeSnapshot();
      var g := Canvas(Now());
      n := lib.newNode(g, kind, x, y);
      SetCanvas(g.(nodes := g.nodes + [n]));
      if drop.Some? {
        var port := OfferedPort(lib, n, drop.value);
        if port.Some? {
          var e := Wired(drop.value, End(n.id, port.value), wire);
          var _ := ConnectPorts(e.from, e.to, wire, false);
        }
      }
      selected := SelectedNode(n.id);
    }

    /** The pointer goes down on a port. */
    method StartWire(port: Loose)
      modifies this
      ensures Now() == Step(lib, old(Now()), Grab(port))
    {
      if !Drawn(lib, Canvas(Now()), port) {
        return;
      }
      hand := Dragging(port);
      if port.FromInput? {
        var existing := WireInto(Canvas(Now()), port.end);
        if existing.Some? {
          TakeSnapshot();
          SetCanvas(WithoutEdge(Canvas(Now()), existing.value));
          var from := existing.value.from;
          hand := if HasOutput(lib, Canvas(Now()), from) then Dragging(FromOutput(from)) else Empty;
        }
      }
    }

    /** The pointer goes up over a port. */
    method DropWire(at: End, wire: Id)
      modifies this
      ensures Now() == Step(lib, old(Now()), DropOn(at, wire))
    {
      if !hand.Dragging? {
        return;
      }
      if Fits(lib, Canvas(Now()), hand.wire, at) {
        var e := Wired(hand.wire, at, wire);
        var _ := ConnectPorts(e.from, e.to, wire, true);
      }
      hand := Empty;
    }

    /** A node is picked in the box for the wire that was let go on the canvas. */
    method PickNode(kind: string, x: int, y: int, wire: Id)
      modifies this
      ensures Now() == Step(lib, old(Now()), Pick(kind, x, y, wire))
    {
      if hand.Offering? {
        var _ := AddNodeAt(kind, x, y, Some(hand.wire), wire);
        hand := Empty;
      }
    }

    method RemoveSelection()
      modifies this
      ensures Now() == Step(lib, old(Now()), RemoveSelected)
    {
      if selected.Nothing? {
        return;
      }
      TakeSnapshot();
      var g := Canvas(Now());
      match selected {
        case SelectedNode(id) =>
          SetCanvas(NodeRemoved(g, id));
        case SelectedEdge(id) =>
          SetCanvas(EdgeRemoved(g, id));
      }
      selected := Nothing;
    }

    method SetNodeParam(id: Id, param: string, value: string)
      modifies this
      ensures Now() == Step(lib, old(Now()), SetParam(id, param, value))
    {
      var n := NodeOf(Canvas(Now()), id);
      if n.None? {
        return;
      }
      TakeSnapshot();
      SetCanvas(ParamSet(lib, Canvas(Now()), n.value, param, value));
    }
  }
}
