/**
 "Tidy the layout" of the visual builder
 (admin-ui/public/functions-builder.js, `autoLayout`).

 `Relax` is the in-place relaxation that gives every node a depth; `Place` puts
 the nodes of each depth in a column. The relaxation works on one map that it
 updates while it goes over the wires, and makes at most as many passes as
 there are nodes.
 */
module AutoLayout {

  type Id = string

  datatype Wire = Wire(from: Id, to: Id)

  // ---------------------------------------------------------------- paths

  predicate HasWire(wires: seq<Wire>, a: Id, b: Id) { Wire(a, b) in wires }

  /** A walk along the wires, as the nodes it visits. */
  predicate IsPath(wires: seq<Wire>, p: seq<Id>) {
    p != [] && forall i | 0 <= i < |p| - 1 :: HasWire(wires, p[i], p[i + 1])
  }

  /** A path of n wires that ends at v. */
  predicate PathInto(wires: seq<Wire>, p: seq<Id>, v: Id, n: nat) {
    IsPath(wires, p) && |p| == n + 1 && p[n] == v
  }

  ghost predicate Reaches(wires: seq<Wire>, v: Id, n: nat) {
    exists p :: PathInto(wires, p, v, n)
  }

  /** No path along at least one wire comes back to where it started. */
  ghost predicate Acyclic(wires: seq<Wire>) {
    forall p | IsPath(wires, p) && |p| > 1 :: p[0] != p[|p| - 1]
  }

  /** Every wire joins nodes of the flow. */
  predicate Closed(ids: seq<Id>, wires: seq<Wire>) {
    forall w | w in wires :: w.from in ids && w.to in ids
  }

  lemma PathExtends(wires: seq<Wire>, w: Wire, n: nat)
    requires w in wires && Reaches(wires, w.from, n)
    ensures Reaches(wires, w.to, n + 1)
  {
    var p :| PathInto(wires, p, w.from, n);
    var q := p + [w.to];
    forall i | 0 <= i < |q| - 1 ensures HasWire(wires, q[i], q[i + 1]) {
      if i < |p| - 1 {
        assert q[i] == p[i] && q[i + 1] == p[i + 1];
        assert HasWire(wires, p[i], p[i + 1]);
      }
    }
    assert PathInto(wires, q, w.to, n + 1);
  }

  /** The last wire of a path. */
  lemma PathShrinks(wires: seq<Wire>, v: Id, n: nat) returns (w: Wire)
    requires n > 0 && Reaches(wires, v, n)
    ensures w in wires && w.to == v && Reaches(wires, w.from, n - 1)
  {
    var p :| PathInto(wires, p, v, n);
    assert HasWire(wires, p[n - 1], p[n - 1 + 1]);
    w := Wire(p[n - 1], v);
    var q := p[..n];
    forall i | 0 <= i < |q| - 1 ensures HasWire(wires, q[i], q[i + 1]) {
      assert HasWire(wires, p[i], p[i + 1]);
    }
    assert PathInto(wires, q, w.from, n - 1);
  }

  lemma PathOfNone(wires: seq<Wire>, v: Id)
    ensures Reaches(wires, v, 0)
  {
    assert PathInto(wires, [v], v, 0);
  }

  // ---------------------------------------------------------------- pigeonhole

  predicate Distinct<T(==)>(s: seq<T>) {
    forall i, j | 0 <= i < |s| && 0 <= j < |s| && i != j :: s[i] != s[j]
  }

  lemma {:induction false} DistinctFit(s: seq<Id>, pool: seq<Id>)
    requires Distinct(s) && forall x | x in s :: x in pool
    ensures |s| <= |pool|
    decreases |s|
  {
    if s != [] {
      assert s[0] in s;
      var k :| 0 <= k < |pool| && pool[k] == s[0];
      var rest := pool[..k] + pool[k + 1..];
      forall x | x in s[1..] ensures x in rest {
        var i :| 0 <= i < |s[1..]| && s[1..][i] == x;
        assert s[i + 1] == x && x in s;
        var m :| 0 <= m < |pool| && pool[m] == x;
        assert m != k;
        assert x == if m < k then rest[m] else rest[m - 1];
      }
      DistinctFit(s[1..], rest);
    }
  }

  lemma NoReturn(wires: seq<Wire>, p: seq<Id>, i: nat, j: nat)
    requires Acyclic(wires) && IsPath(wires, p) && i < j < |p|
    ensures p[i] != p[j]
  {
    var q := p[i..j + 1];
    forall m | 0 <= m < |q| - 1 ensures HasWire(wires, q[m], q[m + 1]) {
      assert HasWire(wires, p[i + m], p[i + m + 1]);
    }
    assert IsPath(wires, q) && q[0] == p[i] && q[|q| - 1] == p[j];
  }

  /** Without cycles, a path between nodes of the flow has fewer wires than the flow has nodes. */
  lemma AcyclicBound(ids: seq<Id>, wires: seq<Wire>, v: Id, n: nat)
    requires Acyclic(wires) && Closed(ids, wires) && Reaches(wires, v, n) && n > 0
    ensures n < |ids|
  {
    var p :| PathInto(wires, p, v, n);
    forall i, j | 0 <= i < |p| && 0 <= j < |p| && i != j ensures p[i] != p[j] {
      if i < j {
        NoReturn(wires, p, i, j);
      } else {
        NoReturn(wires, p, j, i);
      }
    }
    forall x | x in p ensures x in ids {
      var i :| 0 <= i < |p| && p[i] == x;
      if i < n {
        assert HasWire(wires, p[i], p[i + 1]);
      } else {
        assert HasWire(wires, p[i - 1], p[i - 1 + 1]);
      }
    }
    DistinctFit(p, ids);
  }

  // ---------------------------------------------------------------- the relaxation

  /** `depth.get(id) ?? 0` */
  function At(depth: map<Id, nat>, id: Id): nat { if id in depth then depth[id] else 0 }

  /** Depths are lengths of paths. */
  ghost predicate Reached(wires: seq<Wire>, depth: map<Id, nat>) {
    forall v :: Reaches(wires, v, At(depth, v))
  }

  /** Depths are at least as long as every path of up to n wires. */
  ghost predicate Covers(wires: seq<Wire>, depth: map<Id, nat>, n: nat) {
    forall v, m: nat | m <= n && Reaches(wires, v, m) :: m <= At(depth, v)
  }

  /** The first k wires already push every path of up to n wires one on. */
  ghost predicate Pushed(wires: seq<Wire>, k: nat, depth: map<Id, nat>, n: nat)
    requires k <= |wires|
  {
    forall i, m: nat | 0 <= i < k && m <= n && Reaches(wires, wires[i].from, m) :: m + 1 <= At(depth, wires[i].to)
  }

  /** A wire that runs to the right. */
  predicate Forward(depth: map<Id, nat>, w: Wire) { At(depth, w.from) < At(depth, w.to) }

  lemma CoversMore(wires: seq<Wire>, depth: map<Id, nat>, n: nat)
    requires Covers(wires, depth, n) && Pushed(wires, |wires|, depth, n)
    ensures Covers(wires, depth, n + 1)
  {
    forall v, m: nat | m <= n + 1 && Reaches(wires, v, m) ensures m <= At(depth, v) {
      if m > 0 {
        var w := PathShrinks(wires, v, m);
        var i :| 0 <= i < |wires| && wires[i] == w;
        assert Reaches(wires, wires[i].from, m - 1);
      }
    }
  }

  /** When every wire runs to the right, the depths cover paths of any length. */
  lemma {:induction false} ForwardCovers(wires: seq<Wire>, depth: map<Id, nat>, n: nat)
    requires forall w | w in wires :: Forward(depth, w)
    ensures Covers(wires, depth, n)
  {
    if n > 0 {
      ForwardCovers(wires, depth, n - 1);
      forall i, m: nat | 0 <= i < |wires| && m <= n - 1 && Reaches(wires, wires[i].from, m)
        ensures m + 1 <= At(depth, wires[i].to)
      {
        assert Forward(depth, wires[i]);
      }
      CoversMore(wires, depth, n - 1);
    }
  }

  /** The result of the relaxation: path lengths that cover every path of up to n wires, or of any length. */
  ghost predicate Relaxed(ids: seq<Id>, wires: seq<Wire>, depth: map<Id, nat>) {
    && Reached(wires, depth)
    && ((forall w | w in wires :: Forward(depth, w)) || Covers(wires, depth, |ids|))
  }

  method Relax(ids: seq<Id>, wires: seq<Wire>) returns (depth: map<Id, nat>)
    ensures Relaxed(ids, wires, depth)
    ensures forall id | id in ids :: id in depth
  {
    depth := map id | id in ids :: 0;
    forall v ensures Reaches(wires, v, At(depth, v)) {
      PathOfNone(wires, v);
    }
    var i := 0;
    var moved := true;
    while i < |ids| && moved
      invariant i <= |ids| && Reached(wires, depth) && Covers(wires, depth, i)
      invariant forall id | id in ids :: id in depth
      invariant !moved ==> forall w | w in wires :: Forward(depth, w)
    {
      moved := false;
      for k := 0 to |wires|
        invariant Reached(wires, depth) && Covers(wires, depth, i) && Pushed(wires, k, depth, i)
        invariant forall id | id in ids :: id in depth
        invariant !moved ==> forall j | 0 <= j < k :: Forward(depth, wires[j])
      {
        var w := wires[k];
        var d := At(depth, w.from) + 1;
        if d > At(depth, w.to) {
          PathExtends(wires, w, At(depth, w.from));
          ghost var was := depth;
          depth := depth[w.to := d];
          moved := true;
          forall v ensures Reaches(wires, v, At(depth, v)) && At(was, v) <= At(depth, v) {
            assert At(depth, v) == if v == w.to then d else At(was, v);
          }
        }
      }
      CoversMore(wires, depth, i);
      i := i + 1;
    }
  }

  // ---------------------------------------------------------------- what the depths mean

  /** The length of the longest path into a node. */
  ghost predicate IsLongest(wires: seq<Wire>, v: Id, n: nat) {
    Reaches(wires, v, n) && forall m: nat | Reaches(wires, v, m) :: m <= n
  }

  /** Main result: on an acyclic flow every depth is the length of the longest path into its node. */
  lemma LongestPaths(ids: seq<Id>, wires: seq<Wire>, depth: map<Id, nat>)
    requires Relaxed(ids, wires, depth) && Closed(ids, wires) && Acyclic(wires)
    ensures forall v :: IsLongest(wires, v, At(depth, v))
  {
    forall v, m: nat | Reaches(wires, v, m) ensures m <= At(depth, v) {
      if forall w | w in wires :: Forward(depth, w) {
        ForwardCovers(wires, depth, m);
      } else if m > 0 {
        AcyclicBound(ids, wires, v, m);
      }
    }
  }

  /** Main result: every wire runs to the right exactly when the flow is acyclic. */
  lemma ForwardIffAcyclic(ids: seq<Id>, wires: seq<Wire>, depth: map<Id, nat>)
    requires Relaxed(ids, wires, depth) && Closed(ids, wires)
    ensures (forall w | w in wires :: Forward(depth, w)) <==> Acyclic(wires)
  {
    if Acyclic(wires) {
      LongestPaths(ids, wires, depth);
      forall w | w in wires ensures Forward(depth, w) {
        PathExtends(wires, w, At(depth, w.from));
        assert IsLongest(wires, w.to, At(depth, w.to));
      }
    }
    if forall w | w in wires :: Forward(depth, w) {
      forall p | IsPath(wires, p) && |p| > 1 ensures p[0] != p[|p| - 1] {
        PathClimbs(wires, depth, p);
      }
    }
  }

  lemma {:induction false} PathClimbs(wires: seq<Wire>, depth: map<Id, nat>, p: seq<Id>)
    requires IsPath(wires, p) && forall w | w in wires :: Forward(depth, w)
    ensures At(depth, p[0]) + |p| - 1 <= At(depth, p[|p| - 1])
    decreases |p|
  {
    if |p| > 1 {
      var q := p[..|p| - 1];
      forall i | 0 <= i < |q| - 1 ensures HasWire(wires, q[i], q[i + 1]) {
        assert HasWire(wires, p[i], p[i + 1]);
      }
      PathClimbs(wires, depth, q);
      assert HasWire(wires, p[|p| - 2], p[|p| - 2 + 1]);
      assert Forward(depth, Wire(p[|p| - 2], p[|p| - 1]));
    }
  }

  // ---------------------------------------------------------------- the columns

  const MARGIN := 40
  const GAP := 40
  const DEFAULT_HEIGHT := 90

  class CanvasNode {
    const id: Id
    var x: int
    var y: int

    constructor (id: Id, x: int, y: int)
      ensures this.id == id && this.x == x && this.y == y
    {
      this.id, this.x, this.y := id, x, y;
    }
  }

  /** A node's height on the canvas: its element's, or the default when it has none. */
  function Height(heights: map<Id, nat>, id: Id): nat {
    if id in heights then heights[id] else DEFAULT_HEIGHT
  }

  /** Where the k-th node of a column starts: below the ones before it. */
  function Top(column: seq<CanvasNode>, heights: map<Id, nat>, k: nat): int
    requires k <= |column|
  {
    if k == 0 then MARGIN else Top(column, heights, k - 1) + Height(heights, column[k - 1].id) + GAP
  }

  lemma {:induction false} TopsApart(column: seq<CanvasNode>, heights: map<Id, nat>, i: nat, j: nat)
    requires i < j <= |column|
    ensures Top(column, heights, i) + Height(heights, column[i].id) + GAP <= Top(column, heights, j)
  {
    if i + 1 < j {
      TopsApart(column, heights, i, j - 1);
    }
  }

  /** The nodes' y values. */
  function Ys(nodes: seq<CanvasNode>): map<CanvasNode, int>
    reads nodes
  {
    map n | n in nodes :: n.y
  }

  /** From top to bottom in the order of these y values. */
  ghost predicate SortedBy(column: seq<CanvasNode>, ys: map<CanvasNode, int>) {
    && (forall n | n in column :: n in ys)
    && (forall i, j | 0 <= i < j < |column| :: ys[column[i]] <= ys[column[j]])
  }

  /** Where the column of a depth starts. */
  function Left(d: nat): int { MARGIN + 280 * d }

  /** The nodes of one depth, in the flow's order. */
  function AtDepth(nodes: seq<CanvasNode>, depth: map<Id, nat>, d: nat): seq<CanvasNode> {
    if nodes == [] then []
    else
      var n := nodes[|nodes| - 1];
      AtDepth(nodes[..|nodes| - 1], depth, d) + if At(depth, n.id) == d then [n] else []
  }

  lemma AtDepthMore(nodes: seq<CanvasNode>, depth: map<Id, nat>, i: nat)
    requires i < |nodes|
    ensures forall d: nat :: AtDepth(nodes[..i + 1], depth, d) ==
              AtDepth(nodes[..i], depth, d) + if At(depth, nodes[i].id) == d then [nodes[i]] else []
  {
    assert nodes[..i + 1][..i] == nodes[..i];
  }

  lemma {:induction false} AtDepthHas(nodes: seq<CanvasNode>, depth: map<Id, nat>, d: nat)
    ensures forall n :: n in AtDepth(nodes, depth, d) <==> n in nodes && At(depth, n.id) == d
    decreases |nodes|
  {
    if nodes != [] {
      var rest, n := nodes[..|nodes| - 1], nodes[|nodes| - 1];
      AtDepthHas(rest, depth, d);
      assert nodes == rest + [n];
    }
  }

  lemma {:induction false} AtDepthIs(nodes: seq<CanvasNode>, depth: map<Id, nat>, d: nat)
    requires Distinct(nodes)
    ensures Distinct(AtDepth(nodes, depth, d))
    ensures forall n :: n in AtDepth(nodes, depth, d) <==> n in nodes && At(depth, n.id) == d
    decreases |nodes|
  {
    AtDepthHas(nodes, depth, d);
    if nodes != [] {
      var rest := nodes[..|nodes| - 1];
      AtDepthIs(rest, depth, d);
    }
  }

  lemma SameElements(a: seq<CanvasNode>, b: seq<CanvasNode>)
    requires multiset(a) == multiset(b)
    ensures forall n :: n in a <==> n in b
    ensures Distinct(b) ==> Distinct(a)
  {
    forall n ensures n in a <==> n in b {
      assert n in a <==> n in multiset(a);
      assert n in b <==> n in multiset(b);
    }
    if Distinct(b) {
      forall i, j | 0 <= i < |a| && 0 <= j < |a| && i != j ensures a[i] != a[j] {
        if a[i] == a[j] {
          CountTwo(a, if i < j then i else j, if i < j then j else i);
          CountOne(b, a[i]);
        }
      }
    }
  }

  lemma CountTwo(a: seq<CanvasNode>, i: nat, j: nat)
    requires i < j < |a| && a[i] == a[j]
    ensures multiset(a)[a[i]] >= 2
  {
    assert a == a[..i] + [a[i]] + a[i + 1..j] + [a[j]] + a[j + 1..];
  }

  lemma {:induction false} CountOne(b: seq<CanvasNode>, n: CanvasNode)
    requires Distinct(b)
    ensures multiset(b)[n] <= 1
    decreases |b|
  {
    if b != [] {
      assert b == [b[0]] + b[1..];
      CountOne(b[1..], n);
      assert n == b[0] ==> n !in b[1..];
    }
  }

  lemma InsertBelow(front: seq<CanvasNode>, n: CanvasNode, ys: map<CanvasNode, int>, r: seq<CanvasNode>,
                    last: CanvasNode)
    requires multiset(r) == multiset(front) + multiset{n}
    requires n in ys && last in ys && ys[n] <= ys[last]
    requires forall i | 0 <= i < |front| :: front[i] in ys && ys[front[i]] <= ys[last]
    ensures forall i | 0 <= i < |r| :: r[i] in ys && ys[r[i]] <= ys[last]
  {
    forall i | 0 <= i < |r| ensures r[i] in ys && ys[r[i]] <= ys[last] {
      assert r[i] in multiset(r);
      if r[i] != n {
        assert r[i] in multiset(front);
        assert r[i] in front;
      }
    }
  }

  /** The insertion point of a node that comes after equal ones. */
  function Insert(list: seq<CanvasNode>, n: CanvasNode, ys: map<CanvasNode, int>): (r: seq<CanvasNode>)
    requires SortedBy(list, ys) && n in ys
    ensures multiset(r) == multiset(list) + multiset{n} && SortedBy(r, ys)
  {
    if list == [] || ys[list[|list| - 1]] <= ys[n] then list + [n]
    else
      var front, last := list[..|list| - 1], list[|list| - 1];
      var r := Insert(front, n, ys);
      assert list == front + [last];
      InsertBelow(front, n, ys, r, last);
      r + [last]
  }

  /** `list.sort((a, b) => a.y - b.y)`, which keeps the order of equal elements. */
  function SortByY(list: seq<CanvasNode>, ys: map<CanvasNode, int>): (r: seq<CanvasNode>)
    requires forall n | n in list :: n in ys
    ensures multiset(r) == multiset(list) && SortedBy(r, ys)
  {
    if list == [] then []
    else
      assert list == list[..|list| - 1] + [list[|list| - 1]];
      Insert(SortByY(list[..|list| - 1], ys), list[|list| - 1], ys)
  }

  /** The nodes of a list at this height, in the list's order. */
  function Level(list: seq<CanvasNode>, ys: map<CanvasNode, int>, y: int): seq<CanvasNode>
    requires forall n | n in list :: n in ys
  {
    if list == [] then []
    else
      var n := list[|list| - 1];
      Level(list[..|list| - 1], ys, y) + if ys[n] == y then [n] else []
  }

  lemma LevelMore(front: seq<CanvasNode>, n: CanvasNode, ys: map<CanvasNode, int>, y: int)
    requires n in ys && forall m | m in front :: m in ys
    ensures forall m | m in front + [n] :: m in ys
    ensures Level(front + [n], ys, y) == Level(front, ys, y) + if ys[n] == y then [n] else []
  {
    assert (front + [n])[..|front|] == front;
  }

  lemma InsertTurn(list: seq<CanvasNode>, front: seq<CanvasNode>, last: CanvasNode, n: CanvasNode,
                   ys: map<CanvasNode, int>)
    requires SortedBy(list, ys) && n in ys && list != []
    requires front == list[..|list| - 1] && last == list[|list| - 1] && ys[n] < ys[last]
    ensures SortedBy(front, ys) && Insert(list, n, ys) == Insert(front, n, ys) + [last]
  {}

  lemma {:induction false} InsertStable(list: seq<CanvasNode>, n: CanvasNode, ys: map<CanvasNode, int>, y: int)
    requires SortedBy(list, ys) && n in ys
    ensures Level(Insert(list, n, ys), ys, y) == Level(list, ys, y) + if ys[n] == y then [n] else []
    decreases |list|
  {
    if list == [] || ys[list[|list| - 1]] <= ys[n] {
      LevelMore(list, n, ys, y);
    } else {
      var front, last := list[..|list| - 1], list[|list| - 1];
      InsertTurn(list, front, last, n, ys);
      var r := Insert(front, n, ys);
      InsertStable(front, n, ys, y);
      PushStable(list, front, last, n, r, ys, y);
    }
  }

  lemma PushStable(list: seq<CanvasNode>, front: seq<CanvasNode>, last: CanvasNode, n: CanvasNode,
                   r: seq<CanvasNode>, ys: map<CanvasNode, int>, y: int)
    requires list == front + [last] && n in ys && last in ys && ys[n] < ys[last]
    requires forall m | m in front :: m in ys
    requires forall m | m in r :: m in ys
    requires Level(r, ys, y) == Level(front, ys, y) + if ys[n] == y then [n] else []
    ensures forall m | m in list :: m in ys
    ensures forall m | m in r + [last] :: m in ys
    ensures Level(r + [last], ys, y) == Level(list, ys, y) + if ys[n] == y then [n] else []
  {
    LevelMore(front, last, ys, y);
    LevelMore(r, last, ys, y);
  }

  /** Nodes at the same height stay in the order they had. */
  lemma {:induction false} SortStable(list: seq<CanvasNode>, ys: map<CanvasNode, int>, y: int)
    requires forall n | n in list :: n in ys
    ensures Level(SortByY(list, ys), ys, y) == Level(list, ys, y)
    decreases |list|
  {
    if list != [] {
      SortStable(list[..|list| - 1], ys, y);
      InsertStable(SortByY(list[..|list| - 1], ys), list[|list| - 1], ys, y);
    }
  }

  /** The nodes grouped by depth. */
  method Columns(nodes: seq<CanvasNode>, depth: map<Id, nat>) returns (cols: map<nat, seq<CanvasNode>>)
    ensures forall n | n in nodes :: At(depth, n.id) in cols
    ensures forall d | d in cols :: cols[d] == AtDepth(nodes, depth, d)
  {
    cols := map[];
    for i := 0 to |nodes|
      invariant forall d: nat :: AtDepth(nodes[..i], depth, d) == if d in cols then cols[d] else []
    {
      var n := nodes[i];
      var d := At(depth, n.id);
      AtDepthMore(nodes, depth, i);
      if d !in cols {
        cols := cols[d := []];
      }
      cols := cols[d := cols[d] + [n]];
    }
    assert nodes[..|nodes|] == nodes;
    forall n | n in nodes ensures At(depth, n.id) in cols {
      AtDepthHas(nodes, depth, At(depth, n.id));
    }
  }

  /** The positions of one column. */
  method PlaceColumn(list: seq<CanvasNode>, d: nat, heights: map<Id, nat>)
    requires Distinct(list)
    modifies list
    ensures forall k | 0 <= k < |list| :: list[k].x == Left(d) && list[k].y == Top(list, heights, k)
  {
    var y := MARGIN;
    var k := 0;
    while k < |list|
      invariant k <= |list| && y == Top(list, heights, k)
      invariant forall j | 0 <= j < k :: list[j].x == Left(d)
      invariant forall j | 0 <= j < k :: list[j].y == Top(list, heights, j)
    {
      list[k].x := Left(d);
      list[k].y := y;
      y := y + Height(heights, list[k].id) + GAP;
      k := k + 1;
    }
  }

  /** A column holds the nodes of its depth in the order of these y values, and equal ones in the flow's order. */
  ghost predicate Column(column: seq<CanvasNode>, nodes: seq<CanvasNode>, depth: map<Id, nat>, d: nat,
                         ys: map<CanvasNode, int>) {
    && multiset(column) == multiset(AtDepth(nodes, depth, d)) && SortedBy(column, ys)
    && (forall n | n in AtDepth(nodes, depth, d) :: n in ys)
    && (forall y :: Level(column, ys, y) == Level(AtDepth(nodes, depth, d), ys, y))
  }

  /** A placed flow: every node is in the column of its depth, in place. */
  ghost predicate Placed(columns: map<nat, seq<CanvasNode>>, nodes: seq<CanvasNode>, depth: map<Id, nat>,
                         heights: map<Id, nat>, ys: map<CanvasNode, int>)
    reads nodes
  {
    && (forall n | n in nodes :: At(depth, n.id) in columns)
    && (forall d | d in columns :: Column(columns[d], nodes, depth, d, ys))
    && (forall d, k | d in columns && 0 <= k < |columns[d]| && columns[d][k] in nodes ::
          columns[d][k].x == Left(d) && columns[d][k].y == Top(columns[d], heights, k))
  }

  lemma ColumnNodes(column: seq<CanvasNode>, nodes: seq<CanvasNode>, depth: map<Id, nat>, d: nat)
    requires Distinct(nodes) && multiset(column) == multiset(AtDepth(nodes, depth, d))
    ensures Distinct(column)
    ensures forall n :: n in column <==> n in nodes && At(depth, n.id) == d
  {
    AtDepthIs(nodes, depth, d);
    SameElements(column, AtDepth(nodes, depth, d));
  }

  /** Sorts the nodes of one depth and places them; the others stay where they are. */
  method PlaceDepth(nodes: seq<CanvasNode>, depth: map<Id, nat>, d: nat, heights: map<Id, nat>,
                    ys: map<CanvasNode, int>)
    returns (list: seq<CanvasNode>)
    requires Distinct(nodes) && forall n | n in nodes :: n in ys
    modifies nodes
    ensures Column(list, nodes, depth, d, ys)
    ensures forall k | 0 <= k < |list| :: list[k].x == Left(d) && list[k].y == Top(list, heights, k)
    ensures forall n | n in nodes && At(depth, n.id) != d :: n.x == old(n.x) && n.y == old(n.y)
  {
    AtDepthIs(nodes, depth, d);
    list := SortByY(AtDepth(nodes, depth, d), ys);
    ColumnNodes(list, nodes, depth, d);
    forall y ensures Level(list, ys, y) == Level(AtDepth(nodes, depth, d), ys, y) {
      SortStable(AtDepth(nodes, depth, d), ys, y);
    }
    forall k | 0 <= k < |list| ensures list[k] in nodes && At(depth, list[k].id) == d {
      assert list[k] in list;
    }
    PlaceColumn(list, d, heights);
  }

  /**
   The nodes of each depth form one column, 280 apart from the next, in their
   old order from top to bottom, with a gap under each.
   */
  method Place(nodes: seq<CanvasNode>, depth: map<Id, nat>, heights: map<Id, nat>)
    returns (ghost columns: map<nat, seq<CanvasNode>>)
    requires Distinct(nodes)
    modifies nodes
    ensures Placed(columns, nodes, depth, heights, old(Ys(nodes)))
  {
    var ys := Ys(nodes);
    var cols := Columns(nodes, depth);
    columns := map[];
    var todo := cols.Keys;
    while todo != {}
      invariant todo <= cols.Keys && columns.Keys == cols.Keys - todo
      invariant forall d | d in columns :: Column(columns[d], nodes, depth, d, ys)
      invariant forall d, k | d in columns && 0 <= k < |columns[d]| ::
                  columns[d][k].x == Left(d) && columns[d][k].y == Top(columns[d], heights, k)
      decreases todo
    {
      var d :| d in todo;
      forall e, k | e in columns && 0 <= k < |columns[e]|
        ensures columns[e][k] in nodes && At(depth, columns[e][k].id) != d
      {
        ColumnNodes(columns[e], nodes, depth, e);
        assert columns[e][k] in columns[e];
      }
      var list := PlaceDepth(nodes, depth, d, heights, ys);
      columns := columns[d := list];
      todo := todo - {d};
    }
  }

  /** A column puts its nodes where their depth says. */
  lemma PlacedAcross(columns: map<nat, seq<CanvasNode>>, nodes: seq<CanvasNode>, depth: map<Id, nat>,
                     heights: map<Id, nat>, ys: map<CanvasNode, int>, n: CanvasNode)
    requires Distinct(nodes) && Placed(columns, nodes, depth, heights, ys) && n in nodes
    ensures n.x == Left(At(depth, n.id))
  {
    var column := columns[At(depth, n.id)];
    ColumnNodes(column, nodes, depth, At(depth, n.id));
    assert n in column;
  }

  /**
   The columns are 280 apart, the first one 40 from the left. The top node of a
   column is 40 from the top, and 40 lie between a node and the one above it,
   which is 90 high when the canvas has no element for it.
   */
  lemma PlacedAt(columns: map<nat, seq<CanvasNode>>, nodes: seq<CanvasNode>, depth: map<Id, nat>,
                 heights: map<Id, nat>, ys: map<CanvasNode, int>, d: nat, k: nat)
    requires Distinct(nodes) && Placed(columns, nodes, depth, heights, ys) && d in columns && k < |columns[d]|
    ensures columns[d][k].x == 40 + 280 * d
    ensures k == 0 ==> columns[d][k].y == 40
    ensures k > 0 ==>
              var above := columns[d][k - 1];
              columns[d][k].y - above.y == 40 + if above.id in heights then heights[above.id] else 90
  {
    ColumnNodes(columns[d], nodes, depth, d);
    assert columns[d][k] in columns[d];
    assert k > 0 ==> columns[d][k - 1] in columns[d];
  }

  /** Two nodes of a column do not overlap, and keep their order. */
  lemma PlacedApart(columns: map<nat, seq<CanvasNode>>, nodes: seq<CanvasNode>, depth: map<Id, nat>,
                    heights: map<Id, nat>, ys: map<CanvasNode, int>, a: CanvasNode, b: CanvasNode)
    requires Distinct(nodes) && Placed(columns, nodes, depth, heights, ys)
    requires a in nodes && b in nodes && a != b && a.x == b.x
    ensures a.y + Height(heights, a.id) + GAP <= b.y || b.y + Height(heights, b.id) + GAP <= a.y
    ensures a in ys && b in ys && (ys[a] < ys[b] ==> a.y < b.y)
  {
    PlacedAcross(columns, nodes, depth, heights, ys, a);
    PlacedAcross(columns, nodes, depth, heights, ys, b);
    var column := columns[At(depth, a.id)];
    ColumnNodes(column, nodes, depth, At(depth, a.id));
    var i :| 0 <= i < |column| && column[i] == a;
    var j :| 0 <= j < |column| && column[j] == b;
    if i < j {
      TopsApart(column, heights, i, j);
    } else {
      TopsApart(column, heights, j, i);
    }
  }

  /** Ids of a flow's nodes. */
  function Ids(nodes: seq<CanvasNode>): seq<Id> { seq(|nodes|, i requires 0 <= i < |nodes| => nodes[i].id) }

  /** Nodes that share a column are apart, and in the order of these y values. */
  ghost predicate Apart(nodes: seq<CanvasNode>, heights: map<Id, nat>, ys: map<CanvasNode, int>)
    reads nodes
  {
    forall a, b | a in nodes && b in nodes && a != b && a.x == b.x && a in ys && b in ys ::
      && (a.y + Height(heights, a.id) + GAP <= b.y || b.y + Height(heights, b.id) + GAP <= a.y)
      && (ys[a] < ys[b] ==> a.y < b.y)
  }

  /** Every wire runs at least one column to the right. */
  ghost predicate RunsRight(nodes: seq<CanvasNode>, wires: seq<Wire>)
    reads nodes
  {
    forall a, b | a in nodes && b in nodes && HasWire(wires, a.id, b.id) :: a.x + 280 <= b.x
  }

  lemma PlacedAll(columns: map<nat, seq<CanvasNode>>, nodes: seq<CanvasNode>, depth: map<Id, nat>,
                  heights: map<Id, nat>, ys: map<CanvasNode, int>)
    requires Distinct(nodes) && Placed(columns, nodes, depth, heights, ys)
    ensures forall n | n in nodes :: n.x == Left(At(depth, n.id))
    ensures Apart(nodes, heights, ys)
  {
    forall n | n in nodes ensures n.x == Left(At(depth, n.id)) {
      PlacedAcross(columns, nodes, depth, heights, ys, n);
    }
    forall a, b | a in nodes && b in nodes && a != b && a.x == b.x
      ensures a.y + Height(heights, a.id) + GAP <= b.y || b.y + Height(heights, b.id) + GAP <= a.y
      ensures a in ys && b in ys && (ys[a] < ys[b] ==> a.y < b.y)
    {
      PlacedApart(columns, nodes, depth, heights, ys, a, b);
    }
  }

  /**
   Main result, the whole of `autoLayout`: no two nodes of a column overlap and
   they keep their old order; on an acyclic flow every wire runs at least one
   column to the right.
   */
  method Tidy(nodes: seq<CanvasNode>, wires: seq<Wire>, heights: map<Id, nat>)
    returns (ghost depth: map<Id, nat>)
    requires Distinct(nodes)
    modifies nodes
    ensures Relaxed(Ids(nodes), wires, depth)
    ensures forall n | n in nodes :: n.x == Left(At(depth, n.id))
    ensures Apart(nodes, heights, old(Ys(nodes)))
    ensures Closed(Ids(nodes), wires) && Acyclic(wires) ==> RunsRight(nodes, wires)
  {
    ghost var ys := Ys(nodes);
    var relaxed := Relax(Ids(nodes), wires);
    depth := relaxed;
    ghost var columns := Place(nodes, relaxed, heights);
    PlacedAll(columns, nodes, depth, heights, ys);
    if Closed(Ids(nodes), wires) && Acyclic(wires) {
      RunsRightWhenAcyclic(nodes, wires, depth);
    }
  }

  lemma RunsRightWhenAcyclic(nodes: seq<CanvasNode>, wires: seq<Wire>, depth: map<Id, nat>)
    requires Relaxed(Ids(nodes), wires, depth) && Closed(Ids(nodes), wires) && Acyclic(wires)
    requires forall n | n in nodes :: n.x == Left(At(depth, n.id))
    ensures RunsRight(nodes, wires)
  {
    ForwardIffAcyclic(Ids(nodes), wires, depth);
    forall a, b | a in nodes && b in nodes && HasWire(wires, a.id, b.id) ensures a.x + 280 <= b.x {
      assert Forward(depth, Wire(a.id, b.id));
    }
  }
}
