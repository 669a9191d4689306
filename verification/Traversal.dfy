/** The recursive traversal of a repeat and scan nest, and the experiment that compiles one point ahead. */
module Traversal {
  import opened Common
  import opened Scan

  datatype Role = RepeatIndex | ScanValues

  datatype Outcome = Returned | Stopped | Raised

  datatype DeclarationError = NegativeCount | ScannedTwice | SharedName | RoleTaken | BadValues | SecondFinal

  datatype LookupError = MissingAxis

  datatype Run = Run(point: ScanPoint, compiledFrom: Params)

  // ---- what a run of n points leaves behind

  /** The parameters the sequence of point k is compiled from: the first point compiles its own, every later one
      was compiled ahead from the successor of the point before. */
  function SourceAt(path: seq<Node>, k: nat): Params
    requires k < Total(path, 0)
  {
    if k == 0 then PointAt(path, 0).params else SuccessorPoint(path, k).params
  }

  /** A nest with all its points, the parameters their sequences are compiled from, and whether
      the names of its parameters are apart. */
  datatype Plan = Plan(path: seq<Node>, points: seq<ScanPoint>, sources: seq<Params>, named: bool)

  /** Point k of the plan is point k of the nest. */
  ghost predicate PlannedAt(plan: Plan, k: nat) {
    k < |plan.points| == |plan.sources| == Total(plan.path, 0) && plan.named == NamesApart(plan.path) &&
    plan.points[k] == PointAt(plan.path, k) && plan.sources[k] == SourceAt(plan.path, k)
  }

  ghost predicate PlanOk(plan: Plan) {
    && |plan.points| == |plan.sources| == Total(plan.path, 0)
    && (forall k: nat | k < |plan.points| :: PlannedAt(plan, k))
  }

  lemma PlanAt(plan: Plan, k: nat)
    requires PlanOk(plan) && k < |plan.points|
    ensures plan.points[k] == PointAt(plan.path, k) && plan.sources[k] == SourceAt(plan.path, k)
    ensures plan.named == NamesApart(plan.path)
  {
    assert PlannedAt(plan, k);
  }

  function PlanOf(path: seq<Node>): (plan: Plan)
    ensures PlanOk(plan) && plan.path == path && plan.named == NamesApart(path)
  {
    var n := Total(path, 0);
    Plan(path, seq(n, k requires 0 <= k < n => PointAt(path, k)), seq(n, k requires 0 <= k < n => SourceAt(path, k)),
      NamesApart(path))
  }

  /** The runs of the first n points, each with what its sequence was compiled from. */
  function RunsOf(plan: Plan, n: nat): (s: seq<Run>)
    requires n <= |plan.points| == |plan.sources|
    ensures |s| == n && forall k :: 0 <= k < n ==> s[k] == Run(plan.points[k], plan.sources[k])
  {
    seq(n, k requires 0 <= k < n => Run(plan.points[k], plan.sources[k]))
  }

  /** One compilation per executed point, and one ahead while points remain. */
  function Ahead(plan: Plan, n: nat): nat {
    if 0 < n < |plan.points| then n + 1 else n
  }

  /** Every sequence that ran was compiled from its own point's parameters if and only if the
      successor recovers, from the second point on, what the positional index parameters set. */
  lemma CompiledFromOwnParameters(path: seq<Node>)
    ensures (forall k :: 0 <= k < Total(path, 0) ==> SourceAt(path, k) == PointAt(path, k).params)
      <==> forall k :: 1 <= k < Total(path, 0) ==> RecoveredPoint(path, k)
  {
    forall k | 0 <= k < Total(path, 0)
      ensures SourceAt(path, k) == PointAt(path, k).params <==> k == 0 || RecoveredPoint(path, k)
    {
      SuccessorAgrees(path, k);
    }
  }

  /** When parameters differ from node to node, that is if and only if no index parameter was given
      by position; otherwise already the second sequence is compiled from others. */
  lemma CompiledFromOwnUnlessPositional(path: seq<Node>)
    requires DistinctParams(path) && Total(path, 0) > 1
    ensures NoPositional(path) <==> forall k :: 0 <= k < Total(path, 0) ==> SourceAt(path, k) == PointAt(path, k).params
  {
    if NoPositional(path) {
      forall k | 0 <= k < Total(path, 0) ensures SourceAt(path, k) == PointAt(path, k).params {
        SuccessorIsPoint(path, k);
      }
    } else {
      var i :| 0 <= i < |path| && path[i].Positional();
      AllWithin(path, 1);
      PositionalIsLost(path, VectorAt(path, 0, 1), i);
      assert SourceAt(path, 1) != PointAt(path, 1).params;
    }
  }

  /** Two repeats, the inner one counted into a parameter given by position: the second sequence is
      compiled without it. */
  lemma SecondSequenceMissesIndex(p: Param)
    ensures var path := [Repeat(0, 1, None, false), Repeat(1, 2, Some(p), false)];
      Total(path, 0) == 2 && SourceAt(path, 1) == map[] && PointAt(path, 1).params == map[p := 1]
  {
    PositionalIndexIsMissed(p);
  }

  class BaseExp {
    /** Whether the k-th call into code outside this model raises. */
    const raises: nat -> bool
    var hooks: nat
    var saved: seq<ScanPoint>
    var compiled: seq<Params>
    var runs: seq<Run>
    var nextCompilation: Option<Params>
    var compileExecutor: bool

    constructor (raises: nat -> bool)
      ensures this.raises == raises && Fresh()
    {
      this.raises := raises;
      hooks, saved, compiled, runs, nextCompilation, compileExecutor := 0, [], [], [], None, false;
    }

    ghost predicate Fresh()
      reads this
    {
      saved == [] && compiled == [] && runs == [] && nextCompilation == None
    }

    /** The first n points were saved and executed, each exactly once and in order; points are
        saved only when the names of their parameters are apart. */
    ghost predicate Ran(plan: Plan, n: nat)
      reads `saved, `runs, `compiled, `nextCompilation, `compileExecutor
    {
      && n <= |plan.points| == |plan.sources| && compileExecutor && (n > 0 ==> plan.named)
      && saved == plan.points[..n] && runs == RunsOf(plan, n) && compiled == plan.sources[..Ahead(plan, n)]
      && nextCompilation == if 0 < n < |plan.points| then Some(plan.sources[n]) else None
    }

    /** Point n was saved and its execution raised: it may have run or not, its successor may be compiled or not. */
    ghost predicate Broke(plan: Plan, n: nat)
      reads `saved, `runs, `compiled
    {
      && 0 < n <= |plan.points| == |plan.sources| && plan.named && saved == plan.points[..n]
      && (runs == RunsOf(plan, n - 1) || runs == RunsOf(plan, n))
      && (compiled == plan.sources[..n] || (n < |plan.points| && compiled == plan.sources[..n + 1]))
    }

    method Hook() returns (ok: bool)
      modifies `hooks
    {
      ok := !raises(hooks);
      hooks := hooks + 1;
    }

    /** Take the compilation made ahead, or compile this point's own parameters. */
    method Compiled(point: ScanPoint) returns (source: Params, ok: bool)
      modifies `hooks, `compiled, `nextCompilation
      ensures nextCompilation == None
      ensures source == if old(nextCompilation).Some? then old(nextCompilation).value else point.params
      ensures compiled == if old(nextCompilation).Some? then old(compiled) else old(compiled) + [point.params]
    {
      if nextCompilation.None? {
        source := point.params;
        compiled := compiled + [point.params];
      } else {
        source := nextCompilation.value;
        nextCompilation := None;
      }
      ok := Hook();
    }

    /** Execute one saved point. */
    method ExecutePoint(gen: DescartesGenerator, point: ScanPoint, ghost plan: Plan) returns (ok: bool)
      requires gen.Ready(plan) && Awaiting(plan, point)
      modifies `hooks, `compiled, `runs, `nextCompilation
      ensures ok ==> Ran(plan, point.executionIndex + 1)
      ensures !ok ==> Broke(plan, point.executionIndex + 1)
    {
      var source, compiledOk := Compiled(point);
      PlanAt(plan, point.executionIndex);
      assert compiled == plan.sources[..point.executionIndex + 1] && source == plan.sources[point.executionIndex];
      if !compiledOk {
        return false;
      }
      var devicesOk := Hook();
      if !devicesOk {
        return false;
      }
      var ahead := CompileAhead(gen, point, plan);
      if !ahead {
        return false;
      }
      ok := RunCompiled(point, source, plan);
    }

    /** Hand the next point, if there is one, to the compile executor. */
    method CompileAhead(gen: DescartesGenerator, point: ScanPoint, ghost plan: Plan) returns (ok: bool)
      requires gen.Ready(plan) && compileExecutor && nextCompilation == None
      requires point.executionIndex < |plan.points| && point == plan.points[point.executionIndex]
      requires compiled == plan.sources[..point.executionIndex + 1]
      modifies `compiled, `nextCompilation
      ensures ok ==> compiled == plan.sources[..Ahead(plan, point.executionIndex + 1)]
      ensures ok && point.executionIndex + 1 < |plan.points| ==>
        nextCompilation == Some(plan.sources[point.executionIndex + 1])
      ensures ok && point.executionIndex + 1 == |plan.points| ==> nextCompilation == None
      ensures !ok ==> compiled == old(compiled)
    {
      var next := gen.NextOf(point, plan);
      if next.Err? {
        return false;
      }
      if next.value.Some? && compileExecutor {
        compiled := compiled + [next.value.value.params];
        nextCompilation := Some(next.value.value.params);
      }
      return true;
    }

    method RunCompiled(point: ScanPoint, source: Params, ghost plan: Plan) returns (ok: bool)
      requires point.executionIndex < |plan.points| == |plan.sources| && compileExecutor && plan.named
      requires point == plan.points[point.executionIndex] && source == plan.sources[point.executionIndex]
      requires saved == plan.points[..point.executionIndex + 1] && runs == RunsOf(plan, point.executionIndex)
      requires compiled == plan.sources[..Ahead(plan, point.executionIndex + 1)]
      requires nextCompilation ==
        if point.executionIndex + 1 < |plan.points| then Some(plan.sources[point.executionIndex + 1]) else None
      modifies `hooks, `runs
      ensures ok ==> Ran(plan, point.executionIndex + 1)
      ensures !ok ==> Broke(plan, point.executionIndex + 1)
    {
      var runOk := Hook();
      if !runOk {
        return false;
      }
      runs := runs + [Run(point, source)];
      assert runs == RunsOf(plan, point.executionIndex + 1);
      ok := Hook();
    }

    /** The point was just saved and nothing of it executed. */
    ghost predicate Awaiting(plan: Plan, point: ScanPoint)
      reads `saved, `runs, `compiled, `nextCompilation, `compileExecutor
    {
      var n := point.executionIndex;
      && n < |plan.points| == |plan.sources| && compileExecutor && plan.named && point == plan.points[n]
      && saved == plan.points[..n + 1] && runs == RunsOf(plan, n) && compiled == plan.sources[..Ahead(plan, n)]
      && nextCompilation == if 0 < n then Some(plan.sources[n]) else None
    }

    /** Record a point: its parameters must have names of their own, and it must have the same
        parameters and axes as the first one. */
    method AppendPoint(point: ScanPoint) returns (ok: bool)
      modifies `saved
      ensures ok <==> OwnNames(point.params.Keys) && (old(saved) == [] || SameShape(point, old(saved)[0]))
      ensures saved == if ok then old(saved) + [point] else old(saved)
    {
      if !OwnNames(point.params.Keys) {
        return false;
      }
      if saved != [] && !SameShape(point, saved[0]) {
        return false;
      }
      saved := saved + [point];
      return true;
    }

    /** A save raises exactly when two parameters along the path share a name. */
    method SavePoint(point: ScanPoint, ghost plan: Plan) returns (ok: bool)
      requires PlanOk(plan) && DistinctAxes(plan.path)
      requires Ran(plan, point.executionIndex) && point.executionIndex < |plan.points|
      requires point == plan.points[point.executionIndex]
      modifies `saved
      ensures ok <==> plan.named
      ensures plan.named == NamesApart(plan.path)
      ensures if ok then Awaiting(plan, point) else Ran(plan, point.executionIndex)
    {
      SaveableAlike(plan, point.executionIndex);
      ok := AppendPoint(point);
    }

    /** The callbacks of final_exp: save, execute, analyze. */
    method FinalCallbacks(gen: DescartesGenerator, point: ScanPoint, ghost plan: Plan) returns (ok: bool)
      requires gen.Ready(plan)
      requires Ran(plan, point.executionIndex) && point.executionIndex < |plan.points|
      requires point == plan.points[point.executionIndex]
      modifies this
      ensures ok ==> Ran(plan, point.executionIndex + 1)
      ensures !ok && plan.named ==> Ran(plan, point.executionIndex + 1) || Broke(plan, point.executionIndex + 1)
      ensures !plan.named ==> !ok && Ran(plan, point.executionIndex)
    {
      ok := SavePoint(point, plan);
      if ok {
        ok := ExecutePoint(gen, point, plan);
      }
      if ok {
        ok := Hook();
      }
    }

    /** A whole run over nodes that end in final_exp. When the names of the parameters are apart, the
        saved points are a prefix of the enumeration, all of it when the traversal returns; every
        sequence ran once, in order; and at most one compilation is in excess, none when the
        traversal returns. Otherwise the first save raises, and nothing is saved, compiled or run. */
    method RunExperiment(gen: DescartesGenerator, ghost plan: Plan) returns (outcome: Outcome)
      requires Fresh() && gen.Valid() && gen.finalAt == Some(|gen.nodes|) && plan == PlanOf(gen.nodes)
      requires gen.params == map[] && gen.coordinates == map[] && gen.executionIndex == 0 && !gen.stopped
      modifies this, gen`params, gen`coordinates, gen`executionIndex, gen`currentPoint, gen`stopped, gen`checks
      ensures gen.executionIndex <= |plan.points| && (outcome == Returned ==> gen.executionIndex == |plan.points|)
      ensures NamesApart(gen.nodes) ==>
        && saved == plan.points[..gen.executionIndex]
        && |runs| <= gen.executionIndex <= |runs| + 1 && runs == RunsOf(plan, |runs|)
        && (outcome != Raised ==> |runs| == gen.executionIndex)
        && gen.executionIndex <= |compiled| <= gen.executionIndex + 1
        && |compiled| <= |plan.sources| && compiled == plan.sources[..|compiled|]
      ensures !NamesApart(gen.nodes) ==>
        && saved == [] && runs == [] && compiled == []
        && gen.executionIndex <= 1 && (gen.executionIndex == 1 ==> outcome == Raised)
      ensures nextCompilation == None && !compileExecutor
      ensures gen.params == map[] && gen.coordinates == map[]
    {
      compileExecutor := true;
      assert gen.Path() == gen.nodes;
      outcome := gen.CallNext(0, this, plan, []);
      compileExecutor, nextCompilation := false, None;
    }
  }

  predicate SameShape(p: ScanPoint, q: ScanPoint) {
    p.params.Keys == q.params.Keys && p.coordinates.Keys == q.coordinates.Keys
  }

  /** What the first point passed, every later one passes too. */
  lemma SaveableAlike(plan: Plan, k: nat)
    requires PlanOk(plan) && DistinctAxes(plan.path) && k < |plan.points|
    ensures (OwnNames(plan.points[k].params.Keys) <==> plan.named) && plan.named == NamesApart(plan.path)
    ensures SameShape(plan.points[k], plan.points[0])
  {
    PlanAt(plan, 0);
    PlanAt(plan, k);
    PointNames(plan.path, k);
    PointShapes(plan.path, k, 0);
  }

  class DescartesGenerator {
    /** The answer to the k-th question whether the experiment still runs. */
    const running: nat -> bool
    var checks: nat
    /** The nodes in the order they were added, and the position at which final_exp came in. */
    var nodes: seq<Node>
    var finalAt: Option<nat>
    var repeatCount: nat
    var scanCount: nat
    var roles: map<Param, Role>
    var byName: map<string, Param>
    var scanned: set<Param>
    var params: Params
    var coordinates: Coordinates
    var executionIndex: nat
    var currentPoint: Option<ScanPoint>
    var stopped: bool

    constructor (running: nat -> bool)
      ensures Valid() && this.running == running && nodes == [] && finalAt == None
      ensures params == map[] && coordinates == map[] && executionIndex == 0 && !stopped
    {
      this.running := running;
      checks, nodes, finalAt, repeatCount, scanCount := 0, [], None, 0, 0;
      roles, byName, scanned := map[], map[], {};
      params, coordinates, executionIndex, currentPoint, stopped := map[], map[], 0, None, false;
    }

    /** The parameter a node registers: all but an index parameter given by position. */
    static function Registers(n: Node): Option<Param> {
      if n.Positional() then None else n.Sets()
    }

    ghost predicate Valid()
      reads `nodes, `finalAt, `repeatCount, `scanCount, `roles, `scanned
    {
      && DistinctAxes(nodes) && (finalAt.Some? ==> finalAt.value <= |nodes|)
      && (forall i :: 0 <= i < |nodes| ==> if nodes[i].Repeat? then nodes[i].order < repeatCount
        else nodes[i].order < scanCount)
      && (forall i :: 0 <= i < |nodes| && Registers(nodes[i]).Some? ==> Registers(nodes[i]).value in roles)
      && (forall i, j :: 0 <= i < j < |nodes| && Registers(nodes[i]).Some? ==>
        Registers(nodes[i]) != Registers(nodes[j]))
      && scanned <= roles.Keys
    }

    method RegisterParam(param: Param, role: Role) returns (r: Result<(), DeclarationError>)
      modifies `roles, `byName
      ensures r.Ok? <==> param !in old(roles) && (param.name in old(byName) ==> old(byName)[param.name] == param)
      ensures r.Ok? ==> roles == old(roles)[param := role] && byName == old(byName)[param.name := param]
      ensures r.Err? ==> roles == old(roles) && byName == old(byName)
      ensures r.Err? ==>
        r.error == if param.name in byName && byName[param.name] != param then SharedName else RoleTaken
    {
      if param.name in byName && byName[param.name] != param {
        return Err(SharedName);
      }
      if param in roles {
        return Err(RoleTaken);
      }
      byName := byName[param.name := param];
      roles := roles[param := role];
      return Ok(());
    }

    method AddRepeat(count: int, index: Option<Param>, keyword: bool) returns (r: Result<(), DeclarationError>)
      requires Valid()
      modifies `nodes, `repeatCount, `roles, `byName
      ensures Valid()
      ensures r.Ok? ==> count >= 0 && nodes == old(nodes) + [Repeat(old(repeatCount), count, index, keyword)]
      ensures r.Err? ==> nodes == old(nodes) && roles == old(roles)
      ensures r.Ok? <==> count >= 0 && (index.Some? && keyword ==>
        index.value !in old(roles) &&
        (index.value.name in old(byName) ==> old(byName)[index.value.name] == index.value))
    {
      if count < 0 {
        return Err(NegativeCount);
      }
      if index.Some? && keyword {
        var registered := RegisterParam(index.value, RepeatIndex);
        if registered.Err? {
          return Err(registered.error);
        }
      }
      nodes := nodes + [Repeat(repeatCount, count, index, keyword)];
      repeatCount := repeatCount + 1;
      return Ok(());
    }

    /** The values are none when they cannot be compiled; the parameter stays registered then. */
    method AddScan(param: Param, values: Option<seq<Value>>) returns (r: Result<(), DeclarationError>)
      requires Valid()
      modifies `nodes, `scanCount, `roles, `byName, `scanned
      ensures Valid()
      ensures r.Ok? <==>
        values.Some? && param !in old(roles) && (param.name in old(byName) ==> old(byName)[param.name] == param)
      ensures r.Ok? ==> nodes == old(nodes) + [Scan(old(scanCount), param, values.value)]
      ensures r.Err? ==> nodes == old(nodes)
      ensures r == Err(ScannedTwice) <==> param in old(scanned)
      ensures r == Err(BadValues) ==> param in roles && param in scanned && values.None?
    {
      if param in scanned {
        return Err(ScannedTwice);
      }
      var registered := RegisterParam(param, ScanValues);
      if registered.Err? {
        return Err(registered.error);
      }
      scanned := scanned + {param};
      if values.None? {
        return Err(BadValues);
      }
      nodes := nodes + [Scan(scanCount, param, values.value)];
      scanCount := scanCount + 1;
      return Ok(());
    }

    method AddFinal() returns (r: Result<(), DeclarationError>)
      requires Valid()
      modifies `finalAt
      ensures Valid()
      ensures r.Ok? <==> old(finalAt).None?
      ensures finalAt == if r.Ok? then Some(|nodes|) else old(finalAt)
    {
      if finalAt.Some? {
        return Err(SecondFinal);
      }
      finalAt := Some(|nodes|);
      return Ok(());
    }

    /** The nodes a traversal passes through. */
    ghost function Path(): seq<Node>
      reads `nodes, `finalAt
    {
      if finalAt.Some? && finalAt.value <= |nodes| then nodes[..finalAt.value] else nodes
    }

    method ShouldContinue() returns (go: bool)
      modifies `checks
    {
      go := running(checks);
      checks := checks + 1;
    }

    // ---- the traversal

    /** The plan is that of the nodes up to final_exp. */
    ghost predicate Ready(plan: Plan)
      reads `nodes, `finalAt
    {
      && DistinctAxes(nodes) && (finalAt.Some? ==> finalAt.value <= |nodes|)
      && plan.path == Path() && PlanOk(plan)
    }

    /** Standing below the nodes fixed to the indexes c, whose points come next. */
    ghost predicate Standing(path: seq<Node>, c: seq<nat>)
      reads `params, `coordinates, `executionIndex, `stopped
    {
      && !stopped && |c| <= |path| && Within(path, c)
      && params == ParamsOf(path, c) && coordinates == CoordinatesOf(path, c)
      && executionIndex == PrefixRank(path, c)
    }

    /** How a call that spans so many points leaves the generator and the experiment. */
    ghost predicate Left(exp: BaseExp, plan: Plan, outcome: Outcome, from: nat, span: nat)
      reads `executionIndex, `stopped, exp
    {
      && from <= executionIndex <= from + span
      && (stopped <==> outcome == Stopped)
      && (outcome == Returned ==> executionIndex == from + span)
      && (outcome != Raised ==> exp.Ran(plan, executionIndex))
      && (outcome == Raised ==>
        exp.Ran(plan, executionIndex) || exp.Broke(plan,
          executionIndex) || (!plan.named && executionIndex == 1 && exp.Ran(plan, 0)))
    }

    /** Call the i-th caller, where the nodes above stand at the indexes c. */
    method CallNext(i: nat, exp: BaseExp, ghost plan: Plan, ghost c: seq<nat>) returns (outcome: Outcome)
      requires Ready(plan) && i == |c| && Standing(plan.path, c) && exp.Ran(plan, executionIndex)
      modifies `params, `coordinates, `executionIndex, `currentPoint, `stopped, `checks, exp
      ensures params == old(params) && coordinates == old(coordinates)
      ensures Left(exp, plan, outcome, old(executionIndex), Total(plan.path, i))
      decreases |plan.path| - i, 4
    {
      if finalAt == Some(i) {
        outcome := RunFinal(exp, plan, c);
      } else if i < |nodes| {
        outcome := VisitNode(i, exp, plan, c);
      } else {
        outcome := Raised;
      }
    }

    /** final_exp: save the point, execute it, analyze. */
    method RunFinal(exp: BaseExp, ghost plan: Plan, ghost c: seq<nat>) returns (outcome: Outcome)
      requires Ready(plan) && |plan.path| == |c| && Standing(plan.path, c) && exp.Ran(plan, executionIndex)
      modifies `executionIndex, `currentPoint, `stopped, `checks, exp
      ensures Left(exp, plan, outcome, old(executionIndex), 1)
    {
      var go := ShouldContinue();
      if !go {
        stopped := true;
        return Stopped;
      }
      var point := ScanPoint(params, coordinates, executionIndex);
      StandingAtPoint(plan.path, c);
      PlanAt(plan, executionIndex);
      executionIndex := executionIndex + 1;
      currentPoint := Some(point);
      var done := exp.FinalCallbacks(this, point, plan);
      outcome := if done then Returned else Raised;
    }

    /** A repeat or scan node: all its indexes, then restore whatever happened, then analyze. */
    method VisitNode(i: nat, exp: BaseExp, ghost plan: Plan, ghost c: seq<nat>) returns (outcome: Outcome)
      requires Ready(plan) && i == |c| < |plan.path| && Standing(plan.path, c) && exp.Ran(plan, executionIndex)
      modifies `params, `coordinates, `executionIndex, `currentPoint, `stopped, `checks, exp
      ensures params == old(params) && coordinates == old(coordinates)
      ensures Left(exp, plan, outcome, old(executionIndex), Total(plan.path, i))
      decreases |plan.path| - i, 3
    {
      var previous := params;
      NodeSpan(plan.path, i);
      outcome := IterateNode(i, exp, plan, c);
      params := previous;
      coordinates := coordinates - {nodes[i].Axis()};
      if outcome == Returned {
        var analyzed := exp.Hook();
        outcome := if analyzed then Returned else Raised;
      }
    }

    /** Put node i at one index and call on, unless the experiment stopped. */
    method EnterIndex(i: nat, exp: BaseExp, ghost plan: Plan, ghost c': seq<nat>, index: nat, previous: Params)
      returns (outcome: Outcome)
      requires Ready(plan) && i + 1 == |c'| <= |plan.path| && exp.Ran(plan, executionIndex)
      requires index < nodes[i].Size() && !stopped
      requires EntersTo(plan.path, c', executionIndex, coordinates[nodes[i].Axis() := index],
        Bind(nodes[i], index, previous))
      modifies `params, `coordinates, `executionIndex, `currentPoint, `stopped, `checks, exp
      ensures coordinates - {nodes[i].Axis()} == old(coordinates) - {nodes[i].Axis()}
      ensures Left(exp, plan, outcome, old(executionIndex), Total(plan.path, i + 1))
      decreases |plan.path| - i, 0
    {
      var go := ShouldContinue();
      if !go {
        stopped := true;
        return Stopped;
      }
      SetThenRemove(coordinates, nodes[i].Axis(), index);
      coordinates := coordinates[nodes[i].Axis() := index];
      params := Bind(nodes[i], index, previous);
      outcome := CallNext(i + 1, exp, plan, c');
    }

    /** One index of node i, whatever index it stood at before. */
    method IterateOnce(i: nat, exp: BaseExp, ghost plan: Plan, ghost c: seq<nat>, index: nat, previous: Params)
      returns (outcome: Outcome)
      requires Ready(plan) && i == |c| < |plan.path| && exp.Ran(plan, executionIndex) && index < nodes[i].Size()
      requires !stopped
      requires Within(plan.path, c) && previous == ParamsOf(plan.path, c)
      requires executionIndex == PrefixRank(plan.path, c) + Offset(plan.path, i, index)
      requires Touched(coordinates, CoordinatesOf(plan.path, c), nodes[i].Axis())
      modifies `params, `coordinates, `executionIndex, `currentPoint, `stopped, `checks, exp
      ensures Touched(coordinates, CoordinatesOf(plan.path, c), nodes[i].Axis())
      ensures Left(exp, plan, outcome, old(executionIndex), Total(plan.path, i + 1))
      decreases |plan.path| - i, 1
    {
      ghost var c' := c + [index];
      StepDown(plan.path, c, index, c', coordinates);
      outcome := EnterIndex(i, exp, plan, c', index, previous);
    }

    method IterateNode(i: nat, exp: BaseExp, ghost plan: Plan, ghost c: seq<nat>) returns (outcome: Outcome)
      requires Ready(plan) && i == |c| < |plan.path|
      requires Standing(plan.path, c) && exp.Ran(plan, executionIndex)
      modifies `params, `coordinates, `executionIndex, `currentPoint, `stopped, `checks, exp
      ensures coordinates - {nodes[i].Axis()} == old(coordinates)
      ensures Left(exp, plan, outcome, old(executionIndex), Offset(plan.path, i, nodes[i].Size()))
      decreases |plan.path| - i, 2
    {
      ghost var path, from, base := plan.path, executionIndex, coordinates;
      var previous, node := params, nodes[i];
      AxisIsNew(path, c);
      for index := 0 to node.Size()
        invariant !stopped && exp.Ran(plan, executionIndex) && executionIndex == from + Offset(path, i, index)
        invariant Touched(coordinates, base, node.Axis())
      {
        OffsetGrows(path, i, index, node.Size());
        outcome := IterateOnce(i, exp, plan, c, index, previous);
        if outcome != Returned {
          return;
        }
      }
      outcome := Returned;
    }

    // ---- the successor

    /** Point k + 1 from point k, or none at the last. The lookup fails exactly when nodes follow final_exp. */
    method NextScanPoint(point: ScanPoint) returns (r: Result<Option<ScanPoint>, LookupError>)
      requires DistinctAxes(nodes) && point.executionIndex < Total(Path(), 0)
      requires point == PointAt(Path(), point.executionIndex)
      ensures r.Err? <==> Path() != nodes
      ensures r.Ok? ==> r.value == if point.executionIndex + 1 < Total(Path(), 0)
        then Some(SuccessorPoint(Path(), point.executionIndex + 1)) else None
    {
      PointCoordinates(nodes, Path(), point.executionIndex);
      if |nodes| > 0 && nodes[|nodes| - 1].Axis() !in point.coordinates {
        return Err(MissingAxis);
      }
      assert Path() == nodes;
      var next := Successor(point.coordinates, point.executionIndex);
      return Ok(next);
    }

    method NextOf(point: ScanPoint, ghost plan: Plan) returns (r: Result<Option<ScanPoint>, LookupError>)
      requires Ready(plan)
      requires point.executionIndex < |plan.points| && point == plan.points[point.executionIndex]
      ensures r.Err? <==> Path() != nodes
      ensures r.Ok? ==> (r.value.Some? <==> point.executionIndex + 1 < |plan.points|)
      ensures r.Ok? && r.value.Some? ==> r.value.value.params == plan.sources[point.executionIndex + 1]
    {
      PlanAt(plan, point.executionIndex);
      if point.executionIndex + 1 < |plan.points| {
        PlanAt(plan, point.executionIndex + 1);
      }
      r := NextScanPoint(point);
    }

    method Successor(coordinates: Coordinates, k: nat) returns (next: Option<ScanPoint>)
      requires DistinctAxes(nodes) && k < Total(nodes, 0) && coordinates == CoordinatesOf(nodes, VectorAt(nodes, 0, k))
      ensures next == if k + 1 < Total(nodes, 0) then Some(SuccessorPoint(nodes, k + 1)) else None
    {
      ghost var c := VectorAt(nodes, 0, k);
      AllWithin(nodes, k);
      var position := CarryPosition(coordinates, c);
      if position == 0 {
        LastIsFull(nodes, 0, k);
        return None;
      }
      NextVector(nodes, 0, k, position - 1);
      AllWithin(nodes, k + 1);
      var stepped := Restarted(coordinates, position - 1, c);
      var params, ordered := Rebuilt(stepped, VectorAt(nodes, 0, k + 1));
      return Some(ScanPoint(params, ordered, k + 1));
    }

    /** One past the last digit that can still step, zero when there is none. */
    method CarryPosition(coordinates: Coordinates, ghost c: seq<nat>) returns (position: nat)
      requires DistinctAxes(nodes) && |c| == |nodes| && Within(nodes, c) && coordinates == CoordinatesOf(nodes, c)
      ensures position <= |nodes| && FullFrom(nodes, 0, c, position)
      ensures position > 0 ==> !Full(nodes, 0, c, position - 1)
    {
      CoordinatesShape(nodes, c);
      position := |nodes|;
      while position > 0 && coordinates[nodes[position - 1].Axis()] + 1 >= nodes[position - 1].Size()
        invariant 0 <= position <= |nodes| && FullFrom(nodes, 0, c, position)
      {
        assert c[position - 1] < nodes[position - 1].Size();
        assert Full(nodes, 0, c, position - 1);
        position := position - 1;
      }
    }

    /** Step the digit at p and restart all deeper ones. */
    method Restarted(coordinates: Coordinates, p: nat, ghost c: seq<nat>) returns (next: Coordinates)
      requires DistinctAxes(nodes) && p < |c| == |nodes| && coordinates == CoordinatesOf(nodes, c)
      ensures next == CoordinatesOf(nodes, Carried(c, p))
    {
      SteppedCoordinates(nodes, c, p);
      next := coordinates[nodes[p].Axis() := coordinates[nodes[p].Axis()] + 1];
      for deeper := p + 1 to |nodes|
        invariant next == CoordinatesOf(nodes, Restart(c, p, deeper))
      {
        RestartedCoordinates(nodes, c, p, deeper);
        next := next[nodes[deeper].Axis() := 0];
      }
      RestartBegins(c, p);
    }

    /** Parameters and coordinates in node order. */
    method Rebuilt(coordinates: Coordinates, ghost d: seq<nat>) returns (params: Params, ordered: Coordinates)
      requires DistinctAxes(nodes) && |d| == |nodes| && Within(nodes, d) && coordinates == CoordinatesOf(nodes, d)
      ensures params == Declared(nodes, d) && ordered == CoordinatesOf(nodes, d)
    {
      CoordinatesShape(nodes, d);
      params, ordered := map[], map[];
      assert d[..0] == [];
      for i := 0 to |nodes|
        invariant params == Declared(nodes, d[..i]) && ordered == CoordinatesOf(nodes, d[..i])
      {
        var n := nodes[i];
        var index := coordinates[n.Axis()];
        assert d[..i + 1][..i] == d[..i];
        ordered := ordered[n.Axis() := index];
        if n.Scan? {
          params := params[n.param := n.values[index]];
        } else if n.index.Some? && n.keyword {
          params := params[n.index.value := index];
        }
      }
      assert d[..|nodes|] == d;
    }
  }

  /** The digit at p stepped, and the deeper ones before `deeper` restarted. */
  function Restart(c: seq<nat>, p: nat, deeper: nat): (d: seq<nat>)
    requires p < deeper <= |c|
    ensures |d| == |c|
  {
    seq(|c|, j requires 0 <= j < |c| => if j == p then c[j] + 1 else if p < j < deeper then 0 else c[j])
  }

  lemma RestartBegins(c: seq<nat>, p: nat)
    requires p < |c|
    ensures Restart(c, p, p + 1) == c[p := c[p] + 1] && Restart(c, p, |c|) == Carried(c, p)
  {
  }

  lemma RestartStep(c: seq<nat>, p: nat, deeper: nat)
    requires p < deeper < |c|
    ensures Restart(c, p, deeper)[deeper := 0] == Restart(c, p, deeper + 1)
  {
  }

  lemma SteppedCoordinates(nodes: seq<Node>, c: seq<nat>, p: nat)
    requires DistinctAxes(nodes) && p < |c| == |nodes|
    ensures nodes[p].Axis() in CoordinatesOf(nodes, c) && CoordinatesOf(nodes, c)[nodes[p].Axis()] == c[p]
    ensures CoordinatesOf(nodes, c)[nodes[p].Axis() := c[p] + 1] == CoordinatesOf(nodes, Restart(c, p, p + 1))
  {
    CoordinatesShape(nodes, c);
    CoordinateUpdate(nodes, c, p, c[p] + 1);
    RestartBegins(c, p);
  }

  lemma RestartedCoordinates(nodes: seq<Node>, c: seq<nat>, p: nat, deeper: nat)
    requires DistinctAxes(nodes) && p < deeper < |c| == |nodes|
    ensures CoordinatesOf(nodes, Restart(c, p, deeper))[nodes[deeper].Axis() := 0] ==
      CoordinatesOf(nodes, Restart(c, p, deeper + 1))
  {
    CoordinateUpdate(nodes, Restart(c, p, deeper), deeper, 0);
    RestartStep(c, p, deeper);
  }

  /** With every node fixed, the next point is the one the generator stands on. */
  lemma StandingAtPoint(path: seq<Node>, c: seq<nat>)
    requires |c| == |path| && Within(path, c)
    ensures var e := PrefixRank(path, c);
      e < Total(path, 0) && PointAt(path, e) == ScanPoint(ParamsOf(path, c), CoordinatesOf(path, c), e)
  {
    var e := PrefixRank(path, c);
    RankIsPrefix(path, c);
    assert VectorAt(path, 0, e + 0) == c + VectorAt(path, |c|, 0);
    assert c + [] == c;
  }

  lemma AxisIsNew(path: seq<Node>, c: seq<nat>)
    requires DistinctAxes(path) && |c| < |path|
    ensures path[|c|].Axis() !in CoordinatesOf(path, c)
  {
    CoordinatesShape(path, c);
  }

  /** The points of the first so many indexes of node i. */
  function Offset(path: seq<Node>, i: nat, index: nat): nat
    requires i < |path|
  {
    if index == 0 then 0 else Offset(path, i, index - 1) + Total(path, i + 1)
  }

  lemma {:induction false} OffsetIs(path: seq<Node>, i: nat, index: nat)
    requires i < |path|
    ensures Offset(path, i, index) == index * Total(path, i + 1)
  {
    if index > 0 {
      OffsetIs(path, i, index - 1);
      StepRoom(index, Total(path, i + 1), index - 1);
    }
  }

  /** The number of the first point below the indexes c. */
  function PrefixRank(path: seq<Node>, c: seq<nat>): nat
    requires |c| <= |path|
  {
    if c == [] then 0 else PrefixRank(path, c[..|c| - 1]) + Offset(path, |c| - 1, c[|c| - 1])
  }

  lemma {:induction false} RankIsPrefix(path: seq<Node>, c: seq<nat>)
    requires Within(path, c)
    ensures AtPrefix(path, c, PrefixRank(path, c))
  {
    if c == [] {
      AtRoot(path);
    } else {
      var init, index := c[..|c| - 1], c[|c| - 1];
      RankIsPrefix(path, init);
      OffsetIs(path, |init|, index);
      AtPrefixStep(path, init, PrefixRank(path, init), index, Offset(path, |init|, index), c);
    }
  }

  lemma NodeSpan(path: seq<Node>, i: nat)
    requires i < |path|
    ensures Offset(path, i, path[i].Size()) == Total(path, i)
  {
    OffsetIs(path, i, path[i].Size());
  }

  lemma {:induction false} OffsetGrows(path: seq<Node>, i: nat, index: nat, size: nat)
    requires i < |path| && index < size
    ensures Offset(path, i, index) + Total(path, i + 1) <= Offset(path, i, size)
  {
    if index + 1 < size {
      OffsetGrows(path, i, index, size - 1);
    }
  }

  /** What a generator must hold to stand on the indexes c. */
  ghost predicate EntersTo(path: seq<Node>, c: seq<nat>, e: nat, coordinates: Coordinates, params: Params) {
    && |c| <= |path| && Within(path, c)
    && e == PrefixRank(path, c) && coordinates == CoordinatesOf(path, c) && params == ParamsOf(path, c)
  }

  /** At most the coordinate of one axis that was not there was added. */
  ghost predicate Touched(coordinates: Coordinates, base: Coordinates, axis: Axis) {
    axis !in base && coordinates - {axis} == base
  }

  lemma SetThenRemove(coordinates: Coordinates, axis: Axis, index: nat)
    ensures coordinates[axis := index] - {axis} == coordinates - {axis}
  {
  }

  lemma TouchedSet(coordinates: Coordinates, base: Coordinates, axis: Axis, index: nat)
    requires Touched(coordinates, base, axis)
    ensures coordinates[axis := index] == base[axis := index]
  {
    assert forall a | a in base :: a in coordinates - {axis};
    assert forall a | a in coordinates :: a == axis || a in coordinates - {axis};
  }

  lemma StepWithin(path: seq<Node>, c: seq<nat>, index: nat, c': seq<nat>)
    requires |c| < |path| && Within(path, c) && index < path[|c|].Size() && c' == c + [index]
    ensures Within(path, c') && c'[..|c'| - 1] == c
  {
  }

  /** Fixing one more node, whatever index it had before. */
  lemma StepDown(path: seq<Node>, c: seq<nat>, index: nat, c': seq<nat>, coordinates: Coordinates)
    requires DistinctAxes(path) && |c| < |path| && Within(path, c) && index < path[|c|].Size() && c' == c + [index]
    requires Touched(coordinates, CoordinatesOf(path, c), path[|c|].Axis())
    ensures EntersTo(path, c', PrefixRank(path, c) + Offset(path, |c|, index), coordinates[path[|c|].Axis() := index],
      Bind(path[|c|], index, ParamsOf(path, c)))
  {
    StepWithin(path, c, index, c');
    TouchedSet(coordinates, CoordinatesOf(path, c), path[|c|].Axis(), index);
    assert c'[|c'| - 1] == index && |c'| - 1 == |c|;
  }

  /** A point has a coordinate for every node of the traversal and for no other. */
  lemma PointCoordinates(nodes: seq<Node>, path: seq<Node>, k: nat)
    requires path <= nodes && DistinctAxes(nodes) && k < Total(path, 0)
    ensures PointAt(path, k).coordinates == CoordinatesOf(nodes, VectorAt(path, 0, k))
    ensures |nodes| > 0 ==> (nodes[|nodes| - 1].Axis() in PointAt(path, k).coordinates <==> path == nodes)
    ensures Within(path, VectorAt(path, 0, k))
  {
    AllWithin(path, k);
    PathCoordinates(nodes, path, VectorAt(path, 0, k));
    CoordinatesShape(nodes, VectorAt(path, 0, k));
    if |path| == |nodes| {
      assert path == nodes;
    }
  }

  lemma {:induction false} PathCoordinates(nodes: seq<Node>, path: seq<Node>, c: seq<nat>)
    requires path <= nodes && |c| <= |path|
    ensures CoordinatesOf(path, c) == CoordinatesOf(nodes, c)
  {
    if c != [] {
      PathCoordinates(nodes, path, c[..|c| - 1]);
    }
  }
}
