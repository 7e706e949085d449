/** The renderer's routing authority (apps/desktop/src/target-routing.ts): a generation
    fence and a bounded map from runs to the route they were bound through. */
module TargetRoutes {
  import opened Wrappers
  import opened OrderedMaps

  const MAX_ROUTED_RUNS: nat := 512

  datatype Kind = ManagedLocal | Remote

  datatype TargetRoute = TargetRoute(targetId: string, kind: Kind, generation: nat)

  datatype State = State(generation: nat, current: Option<TargetRoute>, runs: Entries<string, TargetRoute>)
  {
    predicate IsCurrent(route: TargetRoute) {
      current.Some? && current.value.generation == route.generation && current.value.targetId == route.targetId
    }
  }

  datatype Op =
    | Activate(targetId: string, kind: Kind)
    | Invalidate
    | Bind(runIds: seq<string>, route: TargetRoute)

  const Initial := State(0, None, [])

  function BindOne(runs: Entries<string, TargetRoute>, runId: string, route: TargetRoute): Entries<string, TargetRoute>
  {
    Newest(Delete(runs, runId) + [(runId, route)], MAX_ROUTED_RUNS)
  }

  function BindAll(runs: Entries<string, TargetRoute>, runIds: seq<string>, route: TargetRoute)
    : Entries<string, TargetRoute>
  {
    if runIds == [] then runs
    else
      var n := |runIds| - 1;
      BindOne(BindAll(runs, runIds[..n], route), runIds[n], route)
  }

  function Apply(s: State, op: Op): State {
    match op
    case Activate(targetId, kind) =>
      State(s.generation + 1, Some(TargetRoute(targetId, kind, s.generation + 1)), [])
    case Invalidate => State(s.generation + 1, None, [])
    case Bind(runIds, route) =>
      if !s.IsCurrent(route) then s else s.(runs := BindAll(s.runs, runIds, route))
  }

  function ApplyAll(s: State, ops: seq<Op>): State {
    if ops == [] then s else Apply(ApplyAll(s, ops[..|ops| - 1]), ops[|ops| - 1])
  }

  /** The bindings that took effect since the target was last activated or invalidated. */
  function Bindings(s: State, ops: seq<Op>): Entries<string, TargetRoute> {
    if ops == [] then []
    else
      var earlier, op := ops[..|ops| - 1], ops[|ops| - 1];
      match op
      case Bind(runIds, route) =>
        Bindings(s, earlier)
        + (if ApplyAll(s, earlier).IsCurrent(route) then Bound(runIds, route) else [])
      case _ => []
  }

  function Bound(runIds: seq<string>, route: TargetRoute): Entries<string, TargetRoute> {
    seq(|runIds|, i requires 0 <= i < |runIds| => (runIds[i], route))
  }

  class TargetRouteRegistry {
    var generation: nat
    var current: Option<TargetRoute>
    var runs: Entries<string, TargetRoute>

    function View(): State
      reads this
    {
      State(generation, current, runs)
    }

    predicate Valid()
      reads this
    {
      Unique(runs)
    }

    constructor ()
      ensures Valid() && View() == Initial
    {
      generation, current, runs := 0, None, [];
    }

    method Activate(targetId: string, kind: Kind) returns (route: TargetRoute)
      modifies this
      ensures Valid() && View() == Apply(old(View()), Op.Activate(targetId, kind))
      ensures View().IsCurrent(route) && route == TargetRoute(targetId, kind, old(generation) + 1) && runs == []
    {
      generation := generation + 1;
      route := TargetRoute(targetId, kind, generation);
      current := Some(route);
      runs := [];
    }

    method Invalidate()
      modifies this
      ensures Valid() && View() == Apply(old(View()), Op.Invalidate)
      ensures current == None && generation == old(generation) + 1 && runs == []
    {
      generation := generation + 1;
      current := None;
      runs := [];
    }

    method BindRun(runId: string, route: TargetRoute) returns (bound: bool)
      requires Valid()
      modifies `runs
      ensures Valid() && bound == old(View()).IsCurrent(route)
      ensures runs == if bound then BindOne(old(runs), runId, route) else old(runs)
    {
      if !View().IsCurrent(route) {
        return false;
      }
      runs := Put(Delete(runs, runId), runId, route);
      ghost var all, k := runs, 0;
      while |runs| > MAX_ROUTED_RUNS
        invariant k <= |all| && runs == all[k..] && Unique(runs) && (|runs| >= MAX_ROUTED_RUNS || k == 0)
      {
        DropOldest(runs);
        runs, k := Delete(runs, runs[0].0), k + 1;
      }
      return true;
    }

    method BindRuns(runIds: seq<string>, route: TargetRoute) returns (bound: bool)
      requires Valid()
      modifies `runs
      ensures Valid() && View() == Apply(old(View()), Bind(runIds, route))
      ensures bound == old(View()).IsCurrent(route)
    {
      if !View().IsCurrent(route) {
        return false;
      }
      for i := 0 to |runIds|
        invariant Valid() && runs == BindAll(old(runs), runIds[..i], route)
      {
        var _ := BindRun(runIds[i], route);
        assert runIds[..i + 1][..i] == runIds[..i];
      }
      assert runIds[..|runIds|] == runIds;
      return true;
    }

    /** The route of a run, if it has one, is the current one. */
    method RouteForRun(runId: string, ghost ops: seq<Op>) returns (route: Option<TargetRoute>)
      requires View() == ApplyAll(Initial, ops)
      ensures route.Some? <==> runId in Keys(runs)
      ensures route.Some? ==> (runId, route.value) in runs && View().IsCurrent(route.value)
    {
      RoutesAreCurrent(ops, runId);
      route := Get(runs, runId);
    }
  }

  // ----- the fence -----

  ghost predicate Consistent(s: State) {
    s.current.Some? ==> s.current.value.generation == s.generation
  }

  /** Generations never go back, and go forward exactly when the route is replaced. */
  lemma {:induction false} GenerationsRise(s: State, ops: seq<Op>)
    requires Consistent(s)
    ensures var r := ApplyAll(s, ops);
            && Consistent(r) && r.generation >= s.generation
            && (r.generation == s.generation ==> r.current == s.current)
  {
    if ops != [] {
      GenerationsRise(s, ops[..|ops| - 1]);
    }
  }

  lemma {:induction false} ApplyAppend(s: State, a: seq<Op>, b: seq<Op>)
    ensures ApplyAll(s, a + b) == ApplyAll(ApplyAll(s, a), b)
  {
    if b == [] {
      assert a + b == a;
    } else {
      assert (a + b)[..|a + b| - 1] == a + b[..|b| - 1];
      ApplyAppend(s, a, b[..|b| - 1]);
    }
  }

  /** A route that stops being current never becomes current again. */
  lemma NeverCurrentAgain(s: State, route: TargetRoute, until: seq<Op>, later: seq<Op>)
    requires Consistent(s) && s.IsCurrent(route) && !ApplyAll(s, until).IsCurrent(route)
    ensures !ApplyAll(s, until + later).IsCurrent(route)
  {
    GenerationsRise(s, until);
    GenerationsRise(ApplyAll(s, until), later);
    ApplyAppend(s, until, later);
  }

  // ----- the bounded map -----

  lemma {:induction false} BindAllIsRecency(history: Entries<string, TargetRoute>, runIds: seq<string>,
                                            route: TargetRoute)
    ensures BindAll(Newest(Latest(history), MAX_ROUTED_RUNS), runIds, route)
         == Newest(Latest(history + Bound(runIds, route)), MAX_ROUTED_RUNS)
  {
    if runIds == [] {
      assert history + Bound(runIds, route) == history;
    } else {
      var n := |runIds| - 1;
      var h := history + Bound(runIds[..n], route);
      assert history + Bound(runIds, route) == h + [(runIds[n], route)];
      BindAllIsRecency(history, runIds[..n], route);
      LatestBind(h, runIds[n], route);
      NewestBind(Latest(h), runIds[n], route, MAX_ROUTED_RUNS);
    }
  }

  ghost predicate AllCurrent(s: State, history: Entries<string, TargetRoute>) {
    forall i :: 0 <= i < |history| ==> s.IsCurrent(history[i].1)
  }

  /** In every reachable state the map is exactly the last 512 distinct runs bound since
      the target was activated, and every binding it was made from is still current. */
  lemma {:induction false} RegistryIsRecency(ops: seq<Op>)
    ensures var s := ApplyAll(Initial, ops);
            && s.runs == Newest(Latest(Bindings(Initial, ops)), MAX_ROUTED_RUNS)
            && AllCurrent(s, Bindings(Initial, ops))
  {
    if ops != [] {
      var earlier, op := ops[..|ops| - 1], ops[|ops| - 1];
      RegistryIsRecency(earlier);
      if op.Bind? && ApplyAll(Initial, earlier).IsCurrent(op.route) {
        BindAllIsRecency(Bindings(Initial, earlier), op.runIds, op.route);
      } else if op.Bind? {
        assert Bindings(Initial, ops) == Bindings(Initial, earlier);
      }
    }
  }

  lemma {:induction false} LatestIsBound<K, V>(history: Entries<K, V>)
    ensures forall i :: 0 <= i < |Latest(history)| ==> Latest(history)[i] in history
  {
    if history != [] {
      LatestIsBound(history[1..]);
    }
  }

  /** A run that has a route has the current one. */
  lemma RoutesAreCurrent(ops: seq<Op>, runId: string)
    ensures var s := ApplyAll(Initial, ops);
            Get(s.runs, runId).Some? ==> s.IsCurrent(Get(s.runs, runId).value)
  {
    RegistryIsRecency(ops);
    var s, history := ApplyAll(Initial, ops), Bindings(Initial, ops);
    LatestIsBound(history);
    match Get(s.runs, runId) {
      case Some(route) =>
        assert (runId, route) in s.runs;
        assert (runId, route) in Latest(history);
        assert (runId, route) in history;
      case None =>
    }
  }
}
