/** Points of a repeat and scan nest: mixed-radix enumeration and the independent successor. */
module Scan {
  import opened Arithmetic
  import opened Common

  datatype Param = Param(name: string, identity: nat)

  /** Scan values and repeat indexes; only identity of values matters here. */
  type Value = int

  datatype Axis = RepeatAxis(order: nat) | ScanAxis(order: nat)

  /** A repeat takes its index parameter by keyword or by position; only the keyword form is registered and
      seen by the successor. */
  datatype Node =
    | Repeat(order: nat, count: nat, index: Option<Param>, keyword: bool)
    | Scan(order: nat, param: Param, values: seq<Value>) {
    function Size(): nat {
      if Repeat? then count else |values|
    }

    function Axis(): Axis {
      if Repeat? then RepeatAxis(order) else ScanAxis(order)
    }

    /** The parameter the traversal sets at this node. */
    function Sets(): Option<Param> {
      if Scan? then Some(param) else index
    }

    /** The index parameter escapes the successor. */
    predicate Positional() {
      Repeat? && index.Some? && !keyword
    }
  }

  type Params = map<Param, Value>

  type Coordinates = map<Axis, nat>

  datatype ScanPoint = ScanPoint(params: Params, coordinates: Coordinates, executionIndex: nat)

  predicate DistinctAxes(nodes: seq<Node>) {
    forall i, j :: 0 <= i < j < |nodes| ==> nodes[i].Axis() != nodes[j].Axis()
  }

  // ---- index vectors

  /** How many points nodes i and below span. */
  function Total(nodes: seq<Node>, i: nat): nat
    requires i <= |nodes|
    decreases |nodes| - i
  {
    if i == |nodes| then 1 else nodes[i].Size() * Total(nodes, i + 1)
  }

  predicate Within(nodes: seq<Node>, c: seq<nat>) {
    |c| <= |nodes| && forall j :: 0 <= j < |c| ==> c[j] < nodes[j].Size()
  }

  /** Number k of the index vectors of nodes i and below, in lexicographic order. */
  function VectorAt(nodes: seq<Node>, i: nat, k: nat): (c: seq<nat>)
    requires i <= |nodes| && k < Total(nodes, i)
    ensures |c| == |nodes| - i
    decreases |nodes| - i
  {
    if i == |nodes| then [] else
      var t := Total(nodes, i + 1);
      Quotient(k, nodes[i].Size(), t);
      [k / t] + VectorAt(nodes, i + 1, k % t)
  }

  lemma Quotient(k: nat, size: nat, t: nat)
    requires k < size * t
    ensures t > 0 && k / t < size && k % t < t && k == k / t * t + k % t
  {
    assert t > 0;
    assert (size - k / t) * t > 0 by {
      assert (size - k / t) * t == size * t - k / t * t;
    }
  }

  lemma {:induction false} VectorWithin(nodes: seq<Node>, i: nat, k: nat)
    requires i <= |nodes| && k < Total(nodes, i)
    ensures forall j :: 0 <= j < |nodes| - i ==> VectorAt(nodes, i, k)[j] < nodes[i + j].Size()
    decreases |nodes| - i
  {
    if i < |nodes| {
      var t := Total(nodes, i + 1);
      Quotient(k, nodes[i].Size(), t);
      VectorWithin(nodes, i + 1, k % t);
      forall j | 0 <= j < |nodes| - i
        ensures VectorAt(nodes, i, k)[j] < nodes[i + j].Size()
      {
        if j > 0 {
          assert VectorAt(nodes, i, k)[j] == VectorAt(nodes, i + 1, k % t)[j - 1];
        }
      }
    }
  }

  /** The digit at j is the last its node takes. */
  predicate Full(nodes: seq<Node>, i: nat, c: seq<nat>, j: nat)
    requires j < |c| == |nodes| - i
  {
    c[j] + 1 == nodes[i + j].Size()
  }

  predicate FullFrom(nodes: seq<Node>, i: nat, c: seq<nat>, p: nat)
    requires |c| == |nodes| - i
  {
    forall j :: p <= j < |c| ==> Full(nodes, i, c, j)
  }

  function Zeros(n: nat): (c: seq<nat>)
    ensures |c| == n && forall j :: 0 <= j < n ==> c[j] == 0
  {
    seq(n, _ => 0)
  }

  lemma {:induction false} FirstVector(nodes: seq<Node>, i: nat)
    requires i <= |nodes| && 0 < Total(nodes, i)
    ensures VectorAt(nodes, i, 0) == Zeros(|nodes| - i)
    decreases |nodes| - i
  {
    if i < |nodes| {
      var t := Total(nodes, i + 1);
      Quotient(0, nodes[i].Size(), t);
      QuotientIs(0, t, 0, 0);
      FirstVector(nodes, i + 1);
    }
  }

  lemma TailFull(nodes: seq<Node>, i: nat, i': nat, c: seq<nat>, tail: seq<nat>, p: nat)
    requires i' == i + 1 <= |nodes| && |c| == |nodes| - i && tail == c[1..]
    ensures FullFrom(nodes, i', tail, p) <==> FullFrom(nodes, i, c, p + 1)
    ensures FullFrom(nodes, i, c, 0) <==> Full(nodes, i, c, 0) && FullFrom(nodes, i, c, 1)
  {
    if FullFrom(nodes, i', tail, p) {
      forall j | p + 1 <= j < |c|
        ensures Full(nodes, i, c, j)
      {
        assert Full(nodes, i', tail, j - 1);
      }
    }
    if FullFrom(nodes, i, c, p + 1) {
      forall j | p <= j < |tail|
        ensures Full(nodes, i', tail, j)
      {
        assert Full(nodes, i, c, j + 1);
      }
    }
  }

  /** The last vector, and no other, is full everywhere. */
  lemma {:induction false} LastIsFull(nodes: seq<Node>, i: nat, k: nat)
    requires i <= |nodes| && k < Total(nodes, i)
    ensures FullFrom(nodes, i, VectorAt(nodes, i, k), 0) <==> k + 1 == Total(nodes, i)
    decreases |nodes| - i
  {
    if i < |nodes| {
      var t, s := Total(nodes, i + 1), nodes[i].Size();
      Quotient(k, s, t);
      LastIsFull(nodes, i + 1, k % t);
      TailFull(nodes, i, i + 1, VectorAt(nodes, i, k), VectorAt(nodes, i + 1, k % t), 0);
      LastDigits(k, s, t, k / t, k % t);
    }
  }

  lemma LastDigits(k: nat, s: nat, t: nat, q: nat, r: nat)
    requires q < s && r < t && k == q * t + r
    ensures q + 1 == s && r + 1 == t <==> k + 1 == s * t
  {
    if q + 1 == s {
      assert s * t == q * t + t;
    } else {
      assert s * t >= (q + 2) * t == q * t + t + t;
    }
  }

  function Carried(c: seq<nat>, p: nat): (d: seq<nat>)
    requires p < |c|
    ensures |d| == |c|
  {
    c[..p] + [c[p] + 1] + Zeros(|c| - p - 1)
  }

  /** Counting one further is a carry: the last digit that is not full steps, and those after it restart. */
  lemma {:induction false} NextVector(nodes: seq<Node>, i: nat, k: nat, p: nat)
    requires i <= |nodes| && k < Total(nodes, i) && p < |nodes| - i
    requires !Full(nodes, i, VectorAt(nodes, i, k), p) && FullFrom(nodes, i, VectorAt(nodes, i, k), p + 1)
    ensures k + 1 < Total(nodes, i)
    ensures VectorAt(nodes, i, k + 1) == Carried(VectorAt(nodes, i, k), p)
    decreases |nodes| - i
  {
    var t, s := Total(nodes, i + 1), nodes[i].Size();
    Quotient(k, s, t);
    VectorWithin(nodes, i, k);
    var q, r := k / t, k % t;
    var c, tail := VectorAt(nodes, i, k), VectorAt(nodes, i + 1, r);
    TailFull(nodes, i, i + 1, c, tail, p);
    if p == 0 {
      assert c[0] < nodes[i + 0].Size();
      LastIsFull(nodes, i + 1, r);
      CarryOut(k, s, t, q, r);
      FirstVector(nodes, i + 1);
    } else {
      TailFull(nodes, i, i + 1, c, tail, p - 1);
      assert Full(nodes, i, c, p) <==> Full(nodes, i + 1, tail, p - 1);
      NextVector(nodes, i + 1, r, p - 1);
      CarryIn(k, s, t, q, r);
      CarriedTail(c, q, tail, p);
    }
  }

  lemma CarryOut(k: nat, s: nat, t: nat, q: nat, r: nat)
    requires q + 1 < s && r + 1 == t && k == q * t + r
    ensures k + 1 < s * t && (k + 1) / t == q + 1 && (k + 1) % t == 0
  {
    assert k + 1 == (q + 1) * t;
    MultipleGrows(s - q - 1, t);
    assert s * t == (q + 1) * t + (s - q - 1) * t;
    QuotientIs(k + 1, t, q + 1, 0);
  }

  lemma CarryIn(k: nat, s: nat, t: nat, q: nat, r: nat)
    requires q < s && r + 1 < t && k == q * t + r
    ensures k + 1 < s * t && (k + 1) / t == q && (k + 1) % t == r + 1
  {
    StepRoom(s, t, q);
    QuotientIs(k + 1, t, q, r + 1);
  }

  lemma CarriedTail(c: seq<nat>, q: nat, tail: seq<nat>, p: nat)
    requires c == [q] + tail && 0 < p < |c|
    ensures Carried(c, p) == [q] + Carried(tail, p - 1)
  {
    assert c[..p] == [q] + tail[..p - 1];
  }

  // ---- parameters and coordinates of an index vector

  function Bind(n: Node, index: nat, params: Params): Params
    requires index < n.Size()
  {
    if n.Scan? then params[n.param := n.values[index]]
    else if n.index.Some? then params[n.index.value := index]
    else params
  }

  /** The parameters in force below the nodes that c fixes, outermost first. */
  function ParamsOf(nodes: seq<Node>, c: seq<nat>): Params
    requires Within(nodes, c)
  {
    if c == [] then map[] else Bind(nodes[|c| - 1], c[|c| - 1], ParamsOf(nodes, c[..|c| - 1]))
  }

  /** What the successor rebuilds: it knows index parameters given by keyword only. */
  function Declared(nodes: seq<Node>, c: seq<nat>): Params
    requires Within(nodes, c)
  {
    if c == [] then map[] else
      var before := Declared(nodes, c[..|c| - 1]);
      if nodes[|c| - 1].Positional() then before else Bind(nodes[|c| - 1], c[|c| - 1], before)
  }

  predicate NoPositional(nodes: seq<Node>) {
    forall i :: 0 <= i < |nodes| ==> !nodes[i].Positional()
  }

  predicate DistinctParams(nodes: seq<Node>) {
    forall i, j :: 0 <= i < j < |nodes| && nodes[i].Sets().Some? ==> nodes[i].Sets() != nodes[j].Sets()
  }

  lemma {:induction false} DeclaredIsParams(nodes: seq<Node>, c: seq<nat>)
    requires Within(nodes, c) && NoPositional(nodes)
    ensures Declared(nodes, c) == ParamsOf(nodes, c)
  {
    if c != [] {
      DeclaredIsParams(nodes, c[..|c| - 1]);
    }
  }

  lemma {:induction false} PositionalIsLost(nodes: seq<Node>, c: seq<nat>, i: nat)
    requires Within(nodes, c) && DistinctParams(nodes) && i < |nodes| && nodes[i].Positional()
    ensures nodes[i].index.value !in Declared(nodes, c)
    ensures i < |c| ==> nodes[i].index.value in ParamsOf(nodes, c)
  {
    if c != [] {
      var n := nodes[|c| - 1];
      PositionalIsLost(nodes, c[..|c| - 1], i);
      assert n.Sets().Some? && |c| - 1 != i ==> n.Sets() != nodes[i].Sets();
    }
  }

  /** The value a node gives its parameter. */
  function Given(n: Node, index: nat): Value
    requires index < n.Size()
  {
    if n.Scan? then n.values[index] else index
  }

  /** Node i is the last of the first ones that sets this parameter, among all of them or among
      those the successor knows. */
  predicate LastSetter(nodes: seq<Node>, count: nat, p: Param, i: nat)
    requires count <= |nodes|
  {
    i < count && nodes[i].Sets() == Some(p) && forall j :: i < j < count ==> nodes[j].Sets() != Some(p)
  }

  predicate LastRegistered(nodes: seq<Node>, count: nat, p: Param, i: nat)
    requires count <= |nodes|
  {
    && i < count && !nodes[i].Positional() && nodes[i].Sets() == Some(p)
    && forall j :: i < j < count && !nodes[j].Positional() ==> nodes[j].Sets() != Some(p)
  }

  lemma {:induction false} ParamsAt(nodes: seq<Node>, c: seq<nat>, p: Param) returns (i: nat)
    requires Within(nodes, c)
    ensures p in ParamsOf(nodes, c) <==> LastSetter(nodes, |c|, p, i)
    ensures p in ParamsOf(nodes, c) ==> ParamsOf(nodes, c)[p] == Given(nodes[i], c[i])
    ensures p !in ParamsOf(nodes, c) ==> forall j :: 0 <= j < |c| ==> nodes[j].Sets() != Some(p)
  {
    if c == [] {
      i := 0;
    } else if nodes[|c| - 1].Sets() == Some(p) {
      i := |c| - 1;
    } else {
      i := ParamsAt(nodes, c[..|c| - 1], p);
    }
  }

  lemma {:induction false} DeclaredAt(nodes: seq<Node>, c: seq<nat>, p: Param) returns (i: nat)
    requires Within(nodes, c)
    ensures p in Declared(nodes, c) <==> LastRegistered(nodes, |c|, p, i)
    ensures p in Declared(nodes, c) ==> Declared(nodes, c)[p] == Given(nodes[i], c[i])
    ensures p !in Declared(nodes, c) ==> forall j :: 0 <= j < |c| && !nodes[j].Positional() ==>
      nodes[j].Sets() != Some(p)
  {
    if c == [] {
      i := 0;
    } else if !nodes[|c| - 1].Positional() && nodes[|c| - 1].Sets() == Some(p) {
      i := |c| - 1;
    } else {
      i := DeclaredAt(nodes, c[..|c| - 1], p);
    }
  }

  /** Each positional index that is the last to set its parameter gives it the value that the
      last registered node of that parameter gives it. */
  ghost predicate Recovered(nodes: seq<Node>, c: seq<nat>)
    requires Within(nodes, c)
  {
    forall i | 0 <= i < |c| && nodes[i].Positional() && LastSetter(nodes, |c|, nodes[i].index.value, i) ::
      exists j: nat :: LastRegistered(nodes, |c|, nodes[i].index.value, j) && Given(nodes[j], c[j]) == c[i]
  }

  /** The successor rebuilds the parameters of the traversal exactly when it recovers what the
      positional indexes set. */
  lemma DeclaredExactly(nodes: seq<Node>, c: seq<nat>)
    requires Within(nodes, c)
    ensures Declared(nodes, c) == ParamsOf(nodes, c) <==> Recovered(nodes, c)
  {
    if Recovered(nodes, c) {
      forall p ensures p in Declared(nodes, c) <==> p in ParamsOf(nodes, c)
        ensures p in Declared(nodes, c) && p in ParamsOf(nodes, c) ==> Declared(nodes, c)[p] == ParamsOf(nodes, c)[p]
      {
        RecoveredAt(nodes, c, p);
      }
    } else {
      var i :| 0 <= i < |c| && nodes[i].Positional() && LastSetter(nodes, |c|, nodes[i].index.value, i)
        && !exists j: nat :: LastRegistered(nodes, |c|, nodes[i].index.value, j) && Given(nodes[j], c[j]) == c[i];
      var a := ParamsAt(nodes, c, nodes[i].index.value);
      var b := DeclaredAt(nodes, c, nodes[i].index.value);
    }
  }

  lemma RecoveredAt(nodes: seq<Node>, c: seq<nat>, p: Param)
    requires Within(nodes, c) && Recovered(nodes, c)
    ensures p in Declared(nodes, c) <==> p in ParamsOf(nodes, c)
    ensures p in Declared(nodes, c) && p in ParamsOf(nodes, c) ==> Declared(nodes, c)[p] == ParamsOf(nodes, c)[p]
  {
    var i := ParamsAt(nodes, c, p);
    var j := DeclaredAt(nodes, c, p);
    if p in ParamsOf(nodes, c) && nodes[i].Positional() {
      var m: nat :| LastRegistered(nodes, |c|, nodes[i].index.value, m) && Given(nodes[m], c[m]) == c[i];
      assert p in Declared(nodes, c) && (j < m || j == m || m < j);
    }
  }

  /** The parameters set by the first nodes. */
  function SetBy(nodes: seq<Node>, count: nat): set<Param>
    requires count <= |nodes|
  {
    if count == 0 then {} else
      SetBy(nodes, count - 1) + if nodes[count - 1].Sets().Some? then {nodes[count - 1].Sets().value} else {}
  }

  lemma {:induction false} ParamsKeys(nodes: seq<Node>, c: seq<nat>)
    requires Within(nodes, c)
    ensures ParamsOf(nodes, c).Keys == SetBy(nodes, |c|)
  {
    if c != [] {
      ParamsKeys(nodes, c[..|c| - 1]);
    }
  }

  lemma {:induction false} SetByNodes(nodes: seq<Node>, count: nat, p: Param)
    requires count <= |nodes|
    ensures p in SetBy(nodes, count) <==> exists i :: 0 <= i < count && nodes[i].Sets() == Some(p)
  {
    if count > 0 {
      SetByNodes(nodes, count - 1, p);
    }
  }

  /** No two parameters share a name. */
  predicate OwnNames(params: set<Param>) {
    forall p, q | p in params && q in params :: p.name == q.name ==> p == q
  }

  /** Nodes that set parameters of one name set the same parameter. */
  predicate NamesApart(nodes: seq<Node>) {
    forall i, j | 0 <= i < j < |nodes| && nodes[i].Sets().Some? && nodes[j].Sets().Some?
        && nodes[i].Sets().value.name == nodes[j].Sets().value.name ::
      nodes[i].Sets() == nodes[j].Sets()
  }

  /** The parameters of every point have names of their own exactly when the nodes' names are apart. */
  lemma PointNames(nodes: seq<Node>, k: nat)
    requires k < Total(nodes, 0)
    ensures OwnNames(PointAt(nodes, k).params.Keys) <==> NamesApart(nodes)
  {
    var c := VectorAt(nodes, 0, k);
    AllWithin(nodes, k);
    ParamsKeys(nodes, c);
    forall p {
      SetByNodes(nodes, |nodes|, p);
    }
  }

  /** Two index parameters of one name, both given by position, were never registered. */
  lemma PositionalNamesMayClash(p: Param, q: Param)
    requires p.name == q.name && p != q
    ensures var nodes := [Repeat(0, 1, Some(p), false), Repeat(1, 2, Some(q), false)];
      DistinctAxes(nodes) && Total(nodes, 0) == 2 && !NamesApart(nodes) && !OwnNames(PointAt(nodes, 0).params.Keys)
  {
    var nodes := [Repeat(0, 1, Some(p), false), Repeat(1, 2, Some(q), false)];
    assert Total(nodes, 2) == 1 && Total(nodes, 1) == 2 && Total(nodes, 0) == 2;
    assert nodes[0].Sets() == Some(p) && nodes[1].Sets() == Some(q);
    PointNames(nodes, 0);
  }

  function CoordinatesOf(nodes: seq<Node>, c: seq<nat>): Coordinates
    requires |c| <= |nodes|
  {
    if c == [] then map[] else CoordinatesOf(nodes, c[..|c| - 1])[nodes[|c| - 1].Axis() := c[|c| - 1]]
  }

  lemma {:induction false} CoordinatesShape(nodes: seq<Node>, c: seq<nat>)
    requires |c| <= |nodes| && DistinctAxes(nodes)
    ensures forall j :: 0 <= j < |c| ==>
      nodes[j].Axis() in CoordinatesOf(nodes, c) && CoordinatesOf(nodes, c)[nodes[j].Axis()] == c[j]
    ensures forall j :: |c| <= j < |nodes| ==> nodes[j].Axis() !in CoordinatesOf(nodes, c)
    ensures forall a | a in CoordinatesOf(nodes, c) :: exists j :: 0 <= j < |c| && nodes[j].Axis() == a
  {
    if c != [] {
      CoordinatesShape(nodes, c[..|c| - 1]);
    }
  }

  /** Changing one coordinate is changing one digit. */
  lemma CoordinateUpdate(nodes: seq<Node>, c: seq<nat>, p: nat, v: nat)
    requires p < |c| <= |nodes| && DistinctAxes(nodes)
    ensures CoordinatesOf(nodes, c)[nodes[p].Axis() := v] == CoordinatesOf(nodes, c[p := v])
  {
    CoordinatesShape(nodes, c);
    CoordinatesShape(nodes, c[p := v]);
    var m, m' := CoordinatesOf(nodes, c)[nodes[p].Axis() := v], CoordinatesOf(nodes, c[p := v]);
    assert m.Keys == m'.Keys;
    forall a | a in m
      ensures m[a] == m'[a]
    {
      var j :| 0 <= j < |c| && nodes[j].Axis() == a;
      assert c[p := v][j] == m'[a];
    }
  }

  // ---- the points of a nest

  function PointAt(nodes: seq<Node>, k: nat): ScanPoint
    requires k < Total(nodes, 0)
  {
    var c := VectorAt(nodes, 0, k);
    AllWithin(nodes, k);
    ScanPoint(ParamsOf(nodes, c), CoordinatesOf(nodes, c), k)
  }

  lemma AllWithin(nodes: seq<Node>, k: nat)
    requires k < Total(nodes, 0)
    ensures Within(nodes, VectorAt(nodes, 0, k)) && |VectorAt(nodes, 0, k)| == |nodes|
  {
    VectorWithin(nodes, 0, k);
    assert forall j :: 0 <= j < |nodes| ==> VectorAt(nodes, 0, k)[j] < nodes[0 + j].Size();
  }

  /** All points have the same parameters and axes. */
  lemma PointShapes(nodes: seq<Node>, j: nat, k: nat)
    requires j < Total(nodes, 0) && k < Total(nodes, 0) && DistinctAxes(nodes)
    ensures PointAt(nodes, j).params.Keys == PointAt(nodes, k).params.Keys
    ensures PointAt(nodes, j).coordinates.Keys == PointAt(nodes, k).coordinates.Keys
  {
    var a, b := VectorAt(nodes, 0, j), VectorAt(nodes, 0, k);
    AllWithin(nodes, j);
    AllWithin(nodes, k);
    ParamsKeys(nodes, a);
    ParamsKeys(nodes, b);
    CoordinatesShape(nodes, a);
    CoordinatesShape(nodes, b);
    assert CoordinatesOf(nodes, a).Keys <= CoordinatesOf(nodes, b).Keys <= CoordinatesOf(nodes, a).Keys;
  }

  /** What the successor of point k - 1 makes of point k. */
  function SuccessorPoint(nodes: seq<Node>, k: nat): ScanPoint
    requires k < Total(nodes, 0)
  {
    var c := VectorAt(nodes, 0, k);
    AllWithin(nodes, k);
    ScanPoint(Declared(nodes, c), CoordinatesOf(nodes, c), k)
  }

  ghost predicate RecoveredPoint(nodes: seq<Node>, k: nat)
    requires k < Total(nodes, 0)
  {
    AllWithin(nodes, k);
    Recovered(nodes, VectorAt(nodes, 0, k))
  }

  /** The successor is the next point of the traversal exactly when it recovers what the
      positional index parameters set. */
  lemma SuccessorAgrees(nodes: seq<Node>, k: nat)
    requires k < Total(nodes, 0)
    ensures SuccessorPoint(nodes, k) == PointAt(nodes, k) <==> RecoveredPoint(nodes, k)
    ensures SuccessorPoint(nodes, k).params == PointAt(nodes, k).params <==> RecoveredPoint(nodes, k)
  {
    AllWithin(nodes, k);
    DeclaredExactly(nodes, VectorAt(nodes, 0, k));
  }

  /** When parameters differ from node to node, it is the next point everywhere if and only if no
      index parameter was given by position. */
  lemma SuccessorAgreesEverywhere(nodes: seq<Node>)
    requires DistinctParams(nodes) && Total(nodes, 0) > 1
    ensures NoPositional(nodes) <==>
      forall k :: 1 <= k < Total(nodes, 0) ==> SuccessorPoint(nodes, k) == PointAt(nodes, k)
  {
    if NoPositional(nodes) {
      forall k | 1 <= k < Total(nodes, 0)
        ensures SuccessorPoint(nodes, k) == PointAt(nodes, k)
      {
        SuccessorIsPoint(nodes, k);
      }
    } else {
      var i :| 0 <= i < |nodes| && nodes[i].Positional();
      AllWithin(nodes, 1);
      PositionalIsLost(nodes, VectorAt(nodes, 0, 1), i);
      assert SuccessorPoint(nodes, 1) != PointAt(nodes, 1);
    }
  }

  /** Two repeats, the inner one counted into a parameter given by position: the second point has
      the parameter and its successor does not. */
  lemma PositionalIndexIsMissed(p: Param)
    ensures var nodes := [Repeat(0, 1, None, false), Repeat(1, 2, Some(p), false)];
      DistinctAxes(nodes) && DistinctParams(nodes) && Total(nodes, 0) == 2 &&
      PointAt(nodes, 1).params == map[p := 1] && SuccessorPoint(nodes, 1).params == map[]
  {
    var nodes := [Repeat(0, 1, None, false), Repeat(1, 2, Some(p), false)];
    assert Total(nodes, 2) == 1 && Total(nodes, 1) == 2 && Total(nodes, 0) == 2;
    assert VectorAt(nodes, 2, 0) == [] && VectorAt(nodes, 1, 1) == [1] && VectorAt(nodes, 0, 1) == [0, 1];
    var c := [0, 1];
    assert c[..1] == [0] && c[..1][..0] == [];
    assert ParamsOf(nodes, []) == map[] && ParamsOf(nodes, [0]) == map[];
    assert Declared(nodes, []) == map[] && Declared(nodes, [0]) == map[];
  }

  lemma SuccessorIsPoint(nodes: seq<Node>, k: nat)
    requires k < Total(nodes, 0) && NoPositional(nodes)
    ensures SuccessorPoint(nodes, k) == PointAt(nodes, k)
  {
    AllWithin(nodes, k);
    DeclaredIsParams(nodes, VectorAt(nodes, 0, k));
  }

  /** The points below prefix c are those from number e on. */
  ghost predicate AtPrefix(nodes: seq<Node>, c: seq<nat>, e: nat) {
    && Within(nodes, c) && e + Total(nodes, |c|) <= Total(nodes, 0)
    && forall m :: 0 <= m < Total(nodes, |c|) ==> VectorAt(nodes, 0, e + m) == c + VectorAt(nodes, |c|, m)
  }

  lemma AtRoot(nodes: seq<Node>)
    ensures AtPrefix(nodes, [], 0)
  {
    forall m | 0 <= m < Total(nodes, 0)
      ensures VectorAt(nodes, 0, 0 + m) == [] + VectorAt(nodes, 0, m)
    {
    }
  }

  lemma StepRoom(s: nat, t: nat, index: nat)
    requires index < s
    ensures index * t + t == (index + 1) * t <= s * t
  {
    MultipleGrows(s - index, t);
    assert s * t == index * t + (s - index) * t;
  }

  lemma AtPrefixStep(nodes: seq<Node>, c: seq<nat>, e: nat, index: nat, offset: nat, c': seq<nat>)
    requires AtPrefix(nodes, c, e) && |c| < |nodes| && index < nodes[|c|].Size()
    requires offset == index * Total(nodes, |c| + 1) && c' == c + [index]
    ensures AtPrefix(nodes, c', e + offset)
    ensures offset + Total(nodes, |c| + 1) == (index + 1) * Total(nodes, |c| + 1) <= Total(nodes, |c|)
  {
    var t := Total(nodes, |c| + 1);
    StepRoom(nodes[|c|].Size(), t, index);
    forall m | 0 <= m < t
      ensures VectorAt(nodes, 0, e + offset + m) == c' + VectorAt(nodes, |c'|, m)
    {
      PrefixVector(nodes, c, e, index, m, offset, c');
    }
  }

  lemma PrefixVector(nodes: seq<Node>, c: seq<nat>, e: nat, index: nat, m: nat, offset: nat, c': seq<nat>)
    requires AtPrefix(nodes, c, e) && |c| < |nodes| && index < nodes[|c|].Size() && m < Total(nodes, |c| + 1)
    requires offset == index * Total(nodes, |c| + 1) && offset + Total(nodes, |c| + 1) <= Total(nodes, |c|)
    requires c' == c + [index]
    ensures VectorAt(nodes, 0, e + offset + m) == c' + VectorAt(nodes, |c'|, m)
  {
    var k := offset + m;
    DigitSplit(nodes, |c|, index, m, k);
    assert VectorAt(nodes, 0, e + k) == c + VectorAt(nodes, |c|, k);
  }

  lemma DigitSplit(nodes: seq<Node>, i: nat, index: nat, m: nat, k: nat)
    requires i < |nodes| && index < nodes[i].Size() && m < Total(nodes, i + 1)
    requires k == index * Total(nodes, i + 1) + m && k < Total(nodes, i)
    ensures VectorAt(nodes, i, k) == [index] + VectorAt(nodes, i + 1, m)
  {
    QuotientIs(k, Total(nodes, i + 1), index, m);
  }
}
