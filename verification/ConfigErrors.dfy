/** Which error a bad config is refused with: the defect the builder meets first. */
module ConfigErrors {
  import opened Wrappers
  import opened ConfigModel
  import opened ConfigTheorems
  import opened ConfigCycles

  /** The children stand for something, but not for what their parent insists on. */
  ghost predicate Misfits(env: Env, slots: seq<Slot>, parts: seq<Resource>) {
    && |parts| == |slots|
    && (forall i :: 0 <= i < |slots| ==> Means(env, slots[i].def, parts[i]))
    && exists i :: 0 <= i < |slots| && !Fills(env, parts[i], slots[i].kind)
  }

  ghost predicate Fills(env: Env, part: Resource, kind: Kind) {
    part.Inst? && part.ty in env.types && kind in env.types[part.ty]
  }

  /** Building the definition from left to right, up to its references, meets this defect:
      whatever comes before it stands for something. */
  ghost predicate Trips(env: Env, d: Def, e: Error)
    decreases d, 1
  {
    match d
    case Null => false
    case Malformed => e == Undecodable
    case Ref(n) => n !in env.defs && e == NoSuchResource(n)
    case Node(ty, slots) =>
      if ty !in env.types then e == NoSuchType(ty)
      else TripsIn(env, slots, e) || (e == UnexpectedResourceType && exists parts :: Misfits(env, slots, parts))
  }

  ghost predicate TripsIn(env: Env, slots: seq<Slot>, e: Error)
    decreases slots, 0
  {
    slots != [] && (
      assert slots[0].def < slots[0];
      || Trips(env, slots[0].def, e)
      || (Meaningful(env, slots[0].def) && TripsIn(env, slots[1..], e)))
  }

  // ---------- an error comes from a defect ----------

  lemma BuiltPartsMean(env: Env, reg: Registry, fuel: nat, slots: seq<Slot>)
    requires Consistent(env, reg) && ResolveAll(env, reg, fuel, slots).Ok?
    ensures forall i :: 0 <= i < |slots| ==> Means(env, slots[i].def, ResolveAll(env, reg, fuel, slots).value[i])
    decreases |slots|
  {
    if slots != [] {
      var k := ResolveAgrees(env, reg, fuel, slots[0].def);
      BuiltPartsMean(env, reg, fuel, slots[1..]);
      var parts := ResolveAll(env, reg, fuel, slots).value;
      assert Means(env, slots[0].def, parts[0]);
      forall i | 0 < i < |slots|
        ensures Means(env, slots[i].def, parts[i])
      {
        assert slots[i] == slots[1..][i - 1];
      }
    }
  }

  /** The defect is in the definition itself, or at the end of a walk. */
  ghost predicate MeetsDefect(env: Env, d: Def, path: seq<string>, e: Error) {
    if path == [] then Trips(env, d, e)
    else Walk(env, d, path) && Trips(env, env.defs[path[|path| - 1]], e)
  }

  lemma {:induction false} ErrorWalk(env: Env, reg: Registry, fuel: nat, d: Def, e: Error) returns (path: seq<string>)
    requires Consistent(env, reg) && Resolve(env, reg, fuel, d) == Err(e) && !e.CyclicDependency?
    ensures MeetsDefect(env, d, path, e)
    ensures forall i :: 0 <= i < |path| ==> path[i] !in reg
    decreases fuel, d, 1
  {
    path := [];
    match d
    case Null =>
    case Malformed =>
    case Ref(n) =>
      if n in env.defs {
        var rest := ErrorWalk(env, reg, fuel - 1, env.defs[n], e);
        path := [n] + rest;
        if rest != [] {
          WalkFrom(env, d, n, rest);
        }
      }
    case Node(ty, slots) =>
      if ty in env.types {
        if ResolveAll(env, reg, fuel, slots).Ok? {
          BuiltPartsMean(env, reg, fuel, slots);
          assert Misfits(env, slots, ResolveAll(env, reg, fuel, slots).value);
        } else {
          path := ErrorWalkIn(env, reg, fuel, slots, e);
        }
      }
  }

  lemma {:induction false} ErrorWalkIn(env: Env, reg: Registry, fuel: nat, slots: seq<Slot>, e: Error)
    returns (path: seq<string>)
    requires Consistent(env, reg) && ResolveAll(env, reg, fuel, slots) == Err(e) && !e.CyclicDependency?
    ensures path == [] ==> TripsIn(env, slots, e)
    ensures path != [] ==>
              && EntersOneOf(env, slots, path[0])
              && (forall i :: 0 <= i < |path| ==> path[i] in env.defs)
              && (forall i :: 0 <= i < |path| - 1 ==> Enters(env, env.defs[path[i]], path[i + 1]))
              && Trips(env, env.defs[path[|path| - 1]], e)
    ensures forall i :: 0 <= i < |path| ==> path[i] !in reg
    decreases fuel, slots, 0
  {
    assert slots[0].def < slots[0];
    if Resolve(env, reg, fuel, slots[0].def).Err? {
      path := ErrorWalk(env, reg, fuel, slots[0].def, e);
    } else {
      BuiltIsMeaningful(env, reg, fuel, slots[0].def);
      path := ErrorWalkIn(env, reg, fuel, slots[1..], e);
    }
  }

  // ---------- a defect leads to its error ----------

  lemma {:induction false} PartsExpand(env: Env, slots: seq<Slot>, parts: seq<Resource>) returns (k: nat)
    requires |parts| == |slots| && forall i :: 0 <= i < |slots| ==> Means(env, slots[i].def, parts[i])
    ensures ExpandAll(env, k, slots) == Some(parts)
    decreases |slots|
  {
    k := 0;
    if slots != [] {
      var rest := parts[1..];
      assert forall i :: 0 <= i < |slots[1..]| ==> slots[1..][i] == slots[i + 1] && rest[i] == parts[i + 1];
      var m := PartsExpand(env, slots[1..], rest);
      var j: nat :| Expand(env, j, slots[0].def) == Some(parts[0]);
      k := j + m;
      ExpandDeeper(env, j, k, slots[0].def);
      ExpandAllDeeper(env, m, k, slots[1..]);
      assert parts == [parts[0]] + rest;
    }
  }

  ghost predicate OnlyDefined(env: Env, reg: Registry) {
    forall n :: n in reg ==> n in env.defs
  }

  lemma {:induction false} TripFails(env: Env, reg: Registry, d: Def, e: Error) returns (fuel: nat)
    requires Ready(env, reg) && OnlyDefined(env, reg) && Trips(env, d, e)
    ensures Resolve(env, reg, fuel, d) == Err(e)
    decreases d, 1
  {
    fuel := 0;
    match d
    case Null =>
    case Malformed =>
    case Ref(_) =>
    case Node(ty, slots) =>
      if ty in env.types {
        if TripsIn(env, slots, e) {
          fuel := TripInFails(env, reg, slots, e);
        } else {
          var parts :| Misfits(env, slots, parts);
          fuel := PartsExpand(env, slots, parts);
          AllBuildAtDepth(env, reg, fuel, slots);
        }
      }
  }

  lemma {:induction false} TripInFails(env: Env, reg: Registry, slots: seq<Slot>, e: Error) returns (fuel: nat)
    requires Ready(env, reg) && OnlyDefined(env, reg) && TripsIn(env, slots, e)
    ensures ResolveAll(env, reg, fuel, slots) == Err(e)
    decreases slots, 0
  {
    assert slots[0].def < slots[0];
    if Trips(env, slots[0].def, e) {
      fuel := TripFails(env, reg, slots[0].def, e);
    } else {
      var m := TripInFails(env, reg, slots[1..], e);
      var k: nat :| Expand(env, k, slots[0].def).Some?;
      BuildsAtDepth(env, reg, k, slots[0].def);
      fuel := k + m;
      MoreFuel(env, reg, k, fuel, slots[0].def);
      MoreFuelAll(env, reg, m, fuel, slots[1..]);
    }
  }

  lemma TrippingMeansNothing(env: Env, d: Def, e: Error)
    requires Trips(env, d, e)
    ensures !Meaningful(env, d)
  {
    if Meaningful(env, d) {
      var fuel := TripFails(env, map[], d, e);
      MeaningfulNeverFails(env, map[], fuel, d);
    }
  }

  lemma NameMeansItsDefinition(env: Env, n: string)
    requires n in env.defs
    ensures Meaningful(env, Ref(n)) ==> Meaningful(env, env.defs[n])
  {
    if k: nat :| Expand(env, k, Ref(n)).Some? {
      assert Expand(env, k - 1, env.defs[n]).Some?;
    }
  }

  /** Walking to a defect, without coming back to the name under construction, ends in the
      error for it. */
  lemma {:induction false} WalkTrips(env: Env, reg: Registry, n: string, d: Def, path: seq<string>, e: Error)
    returns (fuel: nat)
    requires Poised(env, reg, n) && !Meaningful(env, Ref(n))
    requires MeetsDefect(env, d, path, e) && n !in path
    ensures Resolve(env, reg[n := Building], fuel, d) == Err(e)
    decreases |path|
  {
    var reg' := reg[n := Building];
    BadNameIsReady(env, reg, n);
    if path == [] {
      fuel := TripFails(env, reg', d, e);
    } else {
      var m, rest, last := path[0], path[1..], path[|path| - 1];
      TrippingMeansNothing(env, env.defs[last], e);
      NameMeansItsDefinition(env, last);
      WalkToNothing(env, d, path);
      if m in reg {
        RegisteredIsMeaningful(env, reg, m);
      }
      fuel := WalkTrips(env, reg, n, env.defs[m], rest, e);
      fuel := fuel + 1;
      fuel := EntersFails(env, reg', fuel, d, m);
    }
  }

  // ---------- the loop over all names ----------

  /** The builder meets the defect from the definition of the name, without coming back to it. */
  ghost predicate TripsFrom(env: Env, n: string, e: Error)
    requires n in env.defs
  {
    exists path :: MeetsDefect(env, env.defs[n], path, e) && n !in path
  }

  ghost predicate EndsWith(env: Env, order: seq<string>, e: Error)
    requires forall n :: n in order ==> n in env.defs
  {
    exists fuel: nat :: Load(env, map[], fuel, order) == Err(e)
  }

  lemma TrippingIsReported(env: Env, order: seq<string>, i: nat, e: Error)
    requires (forall n :: n in order ==> n in env.defs) && FirstBad(env, order, i) && TripsFrom(env, order[i], e)
    ensures EndsWith(env, order, e)
  {
    var n := order[i];
    var before, bound := FirstBadDecides(env, map[], order, i);
    var path :| MeetsDefect(env, env.defs[n], path, e) && n !in path;
    var fuel := WalkTrips(env, before, n, env.defs[n], path, e);
    MoreFuel(env, before[n := Building], fuel, fuel + bound, env.defs[n]);
    assert Build(env, before, fuel + bound, n) == Err(e);
    assert Load(env, map[], fuel + bound, order) == Err(e);
  }

  lemma ReportedTrips(env: Env, order: seq<string>, e: Error) returns (i: nat)
    requires (forall n :: n in order ==> n in env.defs) && EndsWith(env, order, e) && !e.CyclicDependency?
    ensures FirstBad(env, order, i) && TripsFrom(env, order[i], e)
  {
    var fuel: nat :| Load(env, map[], fuel, order) == Err(e);
    i := FindFirstBad(env, order);
    if FirstBad(env, order, i) {
      var n := order[i];
      var before, bound := FirstBadDecides(env, map[], order, i);
      var more := fuel + bound;
      LoadMoreFuel(env, map[], fuel, more, order);
      BadNameNeverBuilds(env, before, more, n);
      assert Build(env, before, more, n) == Err(e);
      var path := ErrorWalk(env, before[n := Building], more, env.defs[n], e);
      assert n !in path;
    } else {
      var m := GoodNamesLoad(env, map[], order);
      LoadMoreFuel(env, map[], fuel, fuel + m, order);
      LoadMoreFuel(env, map[], m, fuel + m, order);
    }
  }

  /** The loop is refused with an error other than the one about cycles exactly when the first
      name of the order that stands for nothing leads the builder to the defect it names. */
  lemma ErrorReportedIff(env: Env, order: seq<string>, e: Error)
    requires (forall n :: n in order ==> n in env.defs) && !e.CyclicDependency?
    ensures EndsWith(env, order, e) <==>
              exists i: nat :: FirstBad(env, order, i) && TripsFrom(env, order[i], e)
  {
    if EndsWith(env, order, e) {
      var i := ReportedTrips(env, order, e);
    }
    if i: nat :| FirstBad(env, order, i) && TripsFrom(env, order[i], e) {
      TrippingIsReported(env, order, i, e);
    }
  }

  // ---------- the pipeline ----------

  /** The resources are those registered under the names that are not routers, in order; all
      of them are filters. */
  ghost predicate RunsInOrder(env: Env, reg: Registry, names: seq<string>, at: seq<nat>, r: seq<Resource>)
    requires AllDone(reg)
  {
    && Positions(at, |names|)
    && (forall i :: 0 <= i < |names| ==> names[i] in reg)
    && (forall i: nat :: i in at <==> i < |names| && !Fills(env, reg[names[i]].value, AnyRouter))
    && |r| == |at|
    && (forall k :: 0 <= k < |at| ==> r[k] == reg[names[at[k]]].value && Fills(env, r[k], AnyFilter))
  }

  function Later(at: seq<nat>): (r: seq<nat>)
    ensures |r| == |at| && forall k :: 0 <= k < |at| ==> r[k] == at[k] + 1
  {
    seq(|at|, k requires 0 <= k < |at| => at[k] + 1)
  }

  lemma LaterPositions(at: seq<nat>, i: nat)
    ensures i in Later(at) <==> i > 0 && i - 1 in at
  {
    if i > 0 && i - 1 in at {
      var k :| 0 <= k < |at| && at[k] == i - 1;
      assert Later(at)[k] == i;
    }
  }

  lemma OneRouterMore(env: Env, reg: Registry, n: string, names: seq<string>, at: seq<nat>, r: seq<Resource>)
    requires AllDone(reg) && n in reg && Fills(env, reg[n].value, AnyRouter)
    requires RunsInOrder(env, reg, names, at, r)
    ensures RunsInOrder(env, reg, [n] + names, Later(at), r)
  {
    forall i: nat
      ensures i in Later(at) <==> i < |names| + 1 && !Fills(env, reg[([n] + names)[i]].value, AnyRouter)
    {
      LaterPositions(at, i);
    }
  }

  lemma LaterInOrder(at: seq<nat>, length: nat)
    requires Positions(at, length)
    ensures Positions([0] + Later(at), length + 1)
  {}

  lemma FilterPositions(env: Env, reg: Registry, n: string, names: seq<string>, at: seq<nat>, i: nat)
    requires AllDone(reg) && n in reg && !Fills(env, reg[n].value, AnyRouter)
    requires forall i :: 0 <= i < |names| ==> names[i] in reg
    requires forall i: nat :: i in at <==> i < |names| && !Fills(env, reg[names[i]].value, AnyRouter)
    ensures i in [0] + Later(at) <==> i < |names| + 1 && !Fills(env, reg[([n] + names)[i]].value, AnyRouter)
  {
    LaterPositions(at, i);
    assert i in [0] + Later(at) <==> i == 0 || i in Later(at);
  }

  lemma OneFilterMore(env: Env, reg: Registry, n: string, names: seq<string>, at: seq<nat>, r: seq<Resource>)
    requires AllDone(reg) && n in reg
    requires !Fills(env, reg[n].value, AnyRouter) && Fills(env, reg[n].value, AnyFilter)
    requires RunsInOrder(env, reg, names, at, r)
    ensures RunsInOrder(env, reg, [n] + names, [0] + Later(at), [reg[n].value] + r)
  {
    LaterInOrder(at, |names|);
    forall i: nat
      ensures i in [0] + Later(at) <==> i < |names| + 1 && !Fills(env, reg[([n] + names)[i]].value, AnyRouter)
    {
      FilterPositions(env, reg, n, names, at, i);
    }
  }

  lemma {:induction false} PipeInOrder(env: Env, reg: Registry, names: seq<string>) returns (at: seq<nat>)
    requires AllDone(reg) && Pipe(env, reg, names).Ok?
    ensures RunsInOrder(env, reg, names, at, Pipe(env, reg, names).value)
    decreases |names|
  {
    at := [];
    if names != [] {
      var n := names[0];
      var rest := PipeInOrder(env, reg, names[1..]);
      assert names == [n] + names[1..];
      if Fills(env, reg[n].value, AnyRouter) {
        OneRouterMore(env, reg, n, names[1..], rest, Pipe(env, reg, names[1..]).value);
        at := Later(rest);
      } else {
        OneFilterMore(env, reg, n, names[1..], rest, Pipe(env, reg, names[1..]).value);
        at := [0] + Later(rest);
      }
    }
  }

  /** A server, when it is built, runs the filters its pipeline names, in that order, each the
      full expansion of its name. */
  lemma ServerRunsThePipeline(env: Env, fuel: nat, order: seq<string>, pipeline: seq<string>) returns (at: seq<nat>)
    requires Enumerates(order, env.defs.Keys) && Server(env, fuel, order, pipeline).Ok?
    ensures Positions(at, |pipeline|)
    ensures forall i :: 0 <= i < |pipeline| ==> pipeline[i] in env.defs
    ensures forall i: nat :: i in at <==>
              i < |pipeline| && !exists v :: Means(env, Ref(pipeline[i]), v) && Fills(env, v, AnyRouter)
    ensures var r := Server(env, fuel, order, pipeline).value;
      && |r| == |at|
      && forall k :: 0 <= k < |at| ==> Means(env, Ref(pipeline[at[k]]), r[k]) && Fills(env, r[k], AnyFilter)
  {
    LoadAgrees(env, map[], fuel, order);
    var reg := Load(env, map[], fuel, order).value;
    at := PipeInOrder(env, reg, pipeline);
    forall i | 0 <= i < |pipeline|
      ensures Means(env, Ref(pipeline[i]), reg[pipeline[i]].value)
      ensures (exists v :: Means(env, Ref(pipeline[i]), v) && Fills(env, v, AnyRouter))
                <==> Fills(env, reg[pipeline[i]].value, AnyRouter)
    {
      if v :| Means(env, Ref(pipeline[i]), v) && Fills(env, v, AnyRouter) {
        MeansUnique(env, Ref(pipeline[i]), v, reg[pipeline[i]].value);
      }
    }
  }

  ghost predicate Serves(env: Env, reg: Registry, n: string) {
    && n in reg && reg[n].Done?
    && (Fills(env, reg[n].value, AnyRouter) || Fills(env, reg[n].value, AnyFilter))
  }

  /** A pipeline is refused at its first name that is not registered or does not serve. */
  lemma {:induction false} PipeFailsAtFirst(env: Env, reg: Registry, names: seq<string>) returns (i: nat)
    requires AllDone(reg) && !Pipe(env, reg, names).Ok?
    ensures i < |names| && !Serves(env, reg, names[i]) && forall j :: 0 <= j < i ==> Serves(env, reg, names[j])
    ensures Pipe(env, reg, names) == Err(if names[i] in reg then NotAFilter(names[i]) else NotRegistered(names[i]))
    decreases |names|
  {
    i := 0;
    if Serves(env, reg, names[0]) {
      var m := PipeFailsAtFirst(env, reg, names[1..]);
      i := m + 1;
      assert forall j :: 0 < j < |names| ==> names[j] == names[1..][j - 1];
    }
  }

  /** How building a server is refused: an empty pipeline first of all, then whatever the loop
      over the resources ends with, then the first name of the pipeline that cannot serve. */
  lemma ServerRefusals(env: Env, fuel: nat, order: seq<string>, pipeline: seq<string>)
    requires Enumerates(order, env.defs.Keys)
    ensures var r, l := Server(env, fuel, order, pipeline), Load(env, map[], fuel, order);
      && (pipeline == [] <==> r == Err(EmptyPipeline))
      && (pipeline != [] && l.Err? ==> r == Err(l.error))
      && (pipeline != [] && l.Spinning? ==> r.Spinning?)
      && (pipeline != [] && l.Ok? && !r.Ok? ==>
            exists i :: 0 <= i < |pipeline| && !Serves(env, l.value, pipeline[i])
              && (forall j :: 0 <= j < i ==> Serves(env, l.value, pipeline[j]))
              && r == Err(if pipeline[i] in env.defs then NotAFilter(pipeline[i]) else NotRegistered(pipeline[i])))
  {
    var r, l := Server(env, fuel, order, pipeline), Load(env, map[], fuel, order);
    if l.Err? {
      LoadErrors(env, map[], fuel, order);
    }
    if pipeline != [] && l.Ok? && !r.Ok? {
      LoadAgrees(env, map[], fuel, order);
      var i := PipeFailsAtFirst(env, l.value, pipeline);
    }
  }

  predicate AboutPipeline(e: Error) {
    e.EmptyPipeline? || e.NotRegistered? || e.NotAFilter?
  }

  lemma {:induction false} LoadErrors(env: Env, reg: Registry, fuel: nat, order: seq<string>)
    requires (forall n :: n in order ==> n in env.defs) && Load(env, reg, fuel, order).Err?
    ensures !AboutPipeline(Load(env, reg, fuel, order).error)
    decreases |order|
  {
    var n := order[0];
    if n in reg {
      LoadErrors(env, reg, fuel, order[1..]);
    } else {
      var r := Build(env, reg, fuel, n);
      if r.Err? {
        ResolveErrors(env, reg[n := Building], fuel, env.defs[n]);
      } else {
        LoadErrors(env, reg[n := Done(r.value)], fuel, order[1..]);
      }
    }
  }

  lemma {:induction false} ResolveErrors(env: Env, reg: Registry, fuel: nat, d: Def)
    requires Resolve(env, reg, fuel, d).Err?
    ensures !AboutPipeline(Resolve(env, reg, fuel, d).error)
    decreases fuel, d, 1
  {
    match d
    case Null =>
    case Malformed =>
    case Ref(n) =>
      if n !in reg && n in env.defs {
        ResolveErrors(env, reg, fuel - 1, env.defs[n]);
      }
    case Node(ty, slots) =>
      if ty in env.types && ResolveAll(env, reg, fuel, slots).Err? {
        ResolveAllErrors(env, reg, fuel, slots);
      }
  }

  lemma {:induction false} ResolveAllErrors(env: Env, reg: Registry, fuel: nat, slots: seq<Slot>)
    requires ResolveAll(env, reg, fuel, slots).Err?
    ensures !AboutPipeline(ResolveAll(env, reg, fuel, slots).error)
    decreases fuel, slots, 0
  {
    assert slots[0].def < slots[0];
    if Resolve(env, reg, fuel, slots[0].def).Err? {
      ResolveErrors(env, reg, fuel, slots[0].def);
    } else {
      ResolveAllErrors(env, reg, fuel, slots[1..]);
    }
  }
}
