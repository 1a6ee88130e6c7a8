/** Cycles of references: what they have to do with typings, when the loader never answers,
    and when it reports a cycle. A definition is built from left to right, so everything
    depends on which reference the builder meets first that stands for nothing. */
module ConfigCycles {
  import opened Wrappers
  import opened ConfigModel
  import opened ConfigTheorems

  // ---------- what stands for something ----------

  ghost predicate Meaningful(env: Env, d: Def) {
    exists k: nat :: Expand(env, k, d).Some?
  }

  /** Names under construction stand for nothing within this depth. */
  ghost predicate BuildingBeyond(env: Env, reg: Registry, k: nat) {
    forall n :: n in reg && reg[n].Building? ==> Expand(env, k, Ref(n)).None?
  }

  /** What can be expanded to some depth is built with as much fuel. */
  lemma {:induction false} BuildsAtDepth(env: Env, reg: Registry, k: nat, d: Def)
    requires Consistent(env, reg) && BuildingBeyond(env, reg, k) && Expand(env, k, d).Some?
    ensures Resolve(env, reg, k, d) == Ok(Expand(env, k, d).value)
    decreases k, d, 1
  {
    match d
    case Null =>
    case Malformed =>
    case Ref(n) =>
      if n in reg {
        MeansUnique(env, d, reg[n].value, Expand(env, k, d).value);
      } else {
        BuildingNotSooner(env, reg, k - 1, k);
        BuildsAtDepth(env, reg, k - 1, env.defs[n]);
      }
    case Node(_, slots) => AllBuildAtDepth(env, reg, k, slots);
  }

  lemma {:induction false} AllBuildAtDepth(env: Env, reg: Registry, k: nat, slots: seq<Slot>)
    requires Consistent(env, reg) && BuildingBeyond(env, reg, k) && ExpandAll(env, k, slots).Some?
    ensures ResolveAll(env, reg, k, slots) == Ok(ExpandAll(env, k, slots).value)
    decreases k, slots, 0
  {
    if slots != [] {
      assert slots[0].def < slots[0];
      BuildsAtDepth(env, reg, k, slots[0].def);
      AllBuildAtDepth(env, reg, k, slots[1..]);
    }
  }

  lemma BuildingNotSooner(env: Env, reg: Registry, k: nat, m: nat)
    requires k <= m && BuildingBeyond(env, reg, m)
    ensures BuildingBeyond(env, reg, k)
  {
    forall n | n in reg && reg[n].Building?
      ensures Expand(env, k, Ref(n)).None?
    {
      if Expand(env, k, Ref(n)).Some? {
        ExpandDeeper(env, k, m, Ref(n));
      }
    }
  }

  /** The registry while a name is being built that stands for nothing. */
  ghost predicate Ready(env: Env, reg: Registry) {
    Consistent(env, reg) && forall k: nat :: BuildingBeyond(env, reg, k)
  }

  /** What stands for something is never refused, only possibly out of fuel. */
  lemma MeaningfulNeverFails(env: Env, reg: Registry, fuel: nat, d: Def)
    requires Ready(env, reg) && Meaningful(env, d)
    ensures !Resolve(env, reg, fuel, d).Err?
  {
    var k: nat :| Expand(env, k, d).Some?;
    BuildsAtDepth(env, reg, k, d);
    if !Resolve(env, reg, fuel, d).Spinning? {
      if fuel <= k {
        MoreFuel(env, reg, fuel, k, d);
      } else {
        MoreFuel(env, reg, k, fuel, d);
      }
    }
  }

  lemma BuiltIsMeaningful(env: Env, reg: Registry, fuel: nat, d: Def)
    requires Consistent(env, reg) && Resolve(env, reg, fuel, d).Ok?
    ensures Meaningful(env, d)
  {
    var k := ResolveAgrees(env, reg, fuel, d);
  }

  // ---------- the walk of the builder ----------

  /** Building the definition from left to right gets to a reference to the name: whatever
      comes before it stands for something. */
  ghost predicate Enters(env: Env, d: Def, n: string)
    decreases d, 1
  {
    match d
    case Null => false
    case Malformed => false
    case Ref(m) => m == n
    case Node(ty, slots) => ty in env.types && EntersOneOf(env, slots, n)
  }

  ghost predicate EntersOneOf(env: Env, slots: seq<Slot>, n: string)
    decreases slots, 0
  {
    slots != [] && (
      assert slots[0].def < slots[0];
      || Enters(env, slots[0].def, n)
      || (Meaningful(env, slots[0].def) && EntersOneOf(env, slots[1..], n)))
  }

  /** From the definition through these defined names, each entered from the one before. */
  ghost predicate Walk(env: Env, d: Def, path: seq<string>) {
    && path != []
    && Enters(env, d, path[0])
    && (forall i :: 0 <= i < |path| ==> path[i] in env.defs)
    && forall i :: 0 <= i < |path| - 1 ==> Enters(env, env.defs[path[i]], path[i + 1])
  }

  /** The last name of the path occurred before. */
  ghost predicate Closes(path: seq<string>) {
    exists i :: 0 <= i < |path| - 1 && path[i] == path[|path| - 1]
  }

  lemma WalkFrom(env: Env, d: Def, n: string, path: seq<string>)
    requires Enters(env, d, n) && n in env.defs && Walk(env, env.defs[n], path)
    ensures Walk(env, d, [n] + path)
  {}

  lemma {:induction false} EntersMeaningful(env: Env, k: nat, d: Def, n: string)
    requires Expand(env, k, d).Some? && Enters(env, d, n)
    ensures Expand(env, k, Ref(n)).Some?
    decreases d, 1
  {
    match d
    case Null =>
    case Malformed =>
    case Ref(m) =>
    case Node(_, slots) => EntersOneOfMeaningful(env, k, slots, n);
  }

  lemma {:induction false} EntersOneOfMeaningful(env: Env, k: nat, slots: seq<Slot>, n: string)
    requires ExpandAll(env, k, slots).Some? && EntersOneOf(env, slots, n)
    ensures Expand(env, k, Ref(n)).Some?
    decreases slots, 0
  {
    assert slots[0].def < slots[0];
    if Enters(env, slots[0].def, n) {
      EntersMeaningful(env, k, slots[0].def, n);
    } else {
      EntersOneOfMeaningful(env, k, slots[1..], n);
    }
  }

  /** Each name of the path is followed by one it enters: the next, or the one the end of
      the path returns to. */
  lemma ClosedPathGoesOn(env: Env, d: Def, path: seq<string>, i: nat) returns (j: nat)
    requires Walk(env, d, path) && Closes(path) && i < |path|
    ensures j < |path| && Enters(env, env.defs[path[i]], path[j])
  {
    if i < |path| - 1 {
      j := i + 1;
    } else {
      var p :| 0 <= p < |path| - 1 && path[p] == path[|path| - 1];
      j := p + 1;
    }
  }

  lemma {:induction false} ClosedPathMeansNothing(env: Env, d: Def, path: seq<string>, k: nat)
    requires Walk(env, d, path) && Closes(path)
    ensures forall i :: 0 <= i < |path| ==> Expand(env, k, Ref(path[i])).None?
    decreases k
  {
    forall i | 0 <= i < |path|
      ensures Expand(env, k, Ref(path[i])).None?
    {
      if Expand(env, k, Ref(path[i])).Some? {
        var j := ClosedPathGoesOn(env, d, path, i);
        EntersMeaningful(env, k - 1, env.defs[path[i]], path[j]);
        ClosedPathMeansNothing(env, d, path, k - 1);
      }
    }
  }

  // ---------- when no answer is ever reached ----------

  /** Running out of fuel behind an entered reference is running out of fuel. */
  lemma {:induction false} EntersSpins(env: Env, reg: Registry, fuel: nat, d: Def, n: string)
    requires Ready(env, reg) && Enters(env, d, n) && Resolve(env, reg, fuel, Ref(n)).Spinning?
    ensures Resolve(env, reg, fuel, d).Spinning?
    decreases d, 1
  {
    match d
    case Null =>
    case Malformed =>
    case Ref(m) =>
    case Node(_, slots) => EntersOneOfSpins(env, reg, fuel, slots, n);
  }

  lemma {:induction false} EntersOneOfSpins(env: Env, reg: Registry, fuel: nat, slots: seq<Slot>, n: string)
    requires Ready(env, reg) && EntersOneOf(env, slots, n) && Resolve(env, reg, fuel, Ref(n)).Spinning?
    ensures ResolveAll(env, reg, fuel, slots).Spinning?
    decreases slots, 0
  {
    assert slots[0].def < slots[0];
    if Enters(env, slots[0].def, n) {
      EntersSpins(env, reg, fuel, slots[0].def, n);
    } else {
      MeaningfulNeverFails(env, reg, fuel, slots[0].def);
      EntersOneOfSpins(env, reg, fuel, slots[1..], n);
    }
  }

  /** A walk into a cycle that stays clear of names under construction. */
  ghost predicate Strays(env: Env, reg: Registry, d: Def, path: seq<string>) {
    && Walk(env, d, path) && Closes(path)
    && forall i :: 0 <= i < |path| && path[i] in reg ==> reg[path[i]].Done?
  }

  lemma {:induction false} StrayNamesSpin(env: Env, reg: Registry, fuel: nat, d: Def, path: seq<string>)
    requires Ready(env, reg) && Strays(env, reg, d, path)
    ensures forall i :: 0 <= i < |path| ==> Resolve(env, reg, fuel, Ref(path[i])).Spinning?
    decreases fuel
  {
    forall i | 0 <= i < |path|
      ensures Resolve(env, reg, fuel, Ref(path[i])).Spinning?
    {
      if path[i] in reg {
        var k: nat :| Expand(env, k, Ref(path[i])) == Some(reg[path[i]].value);
        ClosedPathMeansNothing(env, d, path, k);
      } else if fuel > 0 {
        StrayNamesSpin(env, reg, fuel - 1, d, path);
        var j := ClosedPathGoesOn(env, d, path, i);
        EntersSpins(env, reg, fuel - 1, env.defs[path[i]], path[j]);
      }
    }
  }

  /** Fuel runs out only along a walk through unregistered names, one for each unit. */
  lemma {:induction false} SpinningWalk(env: Env, reg: Registry, fuel: nat, d: Def) returns (path: seq<string>)
    requires Consistent(env, reg) && Resolve(env, reg, fuel, d).Spinning?
    ensures Walk(env, d, path) && |path| == fuel + 1
    ensures forall i :: 0 <= i < |path| ==> path[i] !in reg
    decreases fuel, d, 1
  {
    path := [];
    match d
    case Null =>
    case Malformed =>
    case Ref(n) =>
      if fuel == 0 {
        path := [n];
      } else {
        var rest := SpinningWalk(env, reg, fuel - 1, env.defs[n]);
        WalkFrom(env, d, n, rest);
        path := [n] + rest;
      }
    case Node(_, slots) => path := SpinningWalkIn(env, reg, fuel, slots);
  }

  lemma {:induction false} SpinningWalkIn(env: Env, reg: Registry, fuel: nat, slots: seq<Slot>)
    returns (path: seq<string>)
    requires Consistent(env, reg) && ResolveAll(env, reg, fuel, slots).Spinning?
    ensures |path| == fuel + 1 && EntersOneOf(env, slots, path[0])
    ensures forall i :: 0 <= i < |path| ==> path[i] in env.defs && path[i] !in reg
    ensures forall i :: 0 <= i < |path| - 1 ==> Enters(env, env.defs[path[i]], path[i + 1])
    decreases fuel, slots, 0
  {
    assert slots[0].def < slots[0];
    if Resolve(env, reg, fuel, slots[0].def).Spinning? {
      path := SpinningWalk(env, reg, fuel, slots[0].def);
    } else {
      BuiltIsMeaningful(env, reg, fuel, slots[0].def);
      path := SpinningWalkIn(env, reg, fuel, slots[1..]);
    }
  }

  /** Pigeonhole: a path longer than the number of names closes somewhere. */
  lemma {:induction false} LongPathCloses(path: seq<string>, names: set<string>) returns (k: nat)
    requires (forall i :: 0 <= i < |path| ==> path[i] in names) && |path| > |names|
    ensures 0 < k <= |path| && Closes(path[..k])
    decreases |path|
  {
    var n := |path| - 1;
    var front, last := path[..n], path[n];
    if i :| 0 <= i < n && path[i] == last {
      k := |path|;
      assert path[..k][i] == path[..k][|path| - 1];
    } else {
      assert |names - {last}| == |names| - 1;
      k := LongPathCloses(front, names - {last});
      assert front[..k] == path[..k];
    }
  }

  ghost predicate NeverAnswers(env: Env, reg: Registry, d: Def) {
    forall fuel: nat :: Resolve(env, reg, fuel, d).Spinning?
  }

  /** Building a definition reaches no answer, with whatever fuel, exactly when the walk of
      the builder gets into a cycle without meeting a name under construction. */
  lemma ResolveNeverAnswersIff(env: Env, reg: Registry, d: Def)
    requires Ready(env, reg)
    ensures NeverAnswers(env, reg, d) <==> exists path :: Strays(env, reg, d, path)
  {
    if path :| Strays(env, reg, d, path) {
      forall fuel: nat
        ensures Resolve(env, reg, fuel, d).Spinning?
      {
        StrayNamesSpin(env, reg, fuel, d, path);
        EntersSpins(env, reg, fuel, d, path[0]);
      }
    } else if NeverAnswers(env, reg, d) {
      assert Resolve(env, reg, |env.defs.Keys|, d).Spinning?;
      var path := SpinningWalk(env, reg, |env.defs.Keys|, d);
      var k := LongPathCloses(path, env.defs.Keys);
      assert Strays(env, reg, d, path[..k]);
    }
  }

  // ---------- the loop over all names ----------

  /** One turn of the loop: what comes of building the name. */
  ghost function Build(env: Env, reg: Registry, fuel: nat, n: string): Outcome<Resource>
    requires n in env.defs
  {
    Resolve(env, reg[n := Building], fuel, env.defs[n])
  }

  /** The loop is about to build the name. */
  ghost predicate Poised(env: Env, reg: Registry, n: string) {
    Consistent(env, reg) && AllDone(reg) && n in env.defs && n !in reg
  }

  /** The walk from the definition of the name gets into a cycle without coming back to the
      name itself. */
  ghost predicate StraysFrom(env: Env, n: string)
    requires n in env.defs
  {
    exists path :: Walk(env, env.defs[n], path) && Closes(path) && n !in path
  }

  lemma StrayMeansNothing(env: Env, n: string)
    requires n in env.defs && StraysFrom(env, n)
    ensures !Meaningful(env, Ref(n))
  {
    var path :| Walk(env, env.defs[n], path) && Closes(path) && n !in path;
    forall k: nat
      ensures Expand(env, k, Ref(n)).None?
    {
      if Expand(env, k, Ref(n)).Some? {
        EntersMeaningful(env, k - 1, env.defs[n], path[0]);
        ClosedPathMeansNothing(env, env.defs[n], path, k - 1);
      }
    }
  }

  lemma BadNameIsReady(env: Env, reg: Registry, n: string)
    requires Poised(env, reg, n) && !Meaningful(env, Ref(n))
    ensures Ready(env, reg[n := Building])
  {}

  /** For a name that stands for nothing the registry plays no part. */
  lemma BuildNeverAnswersIff(env: Env, reg: Registry, n: string)
    requires Poised(env, reg, n) && !Meaningful(env, Ref(n))
    ensures NeverAnswers(env, reg[n := Building], env.defs[n]) <==> StraysFrom(env, n)
  {
    var reg' := reg[n := Building];
    BadNameIsReady(env, reg, n);
    ResolveNeverAnswersIff(env, reg', env.defs[n]);
    if path :| Walk(env, env.defs[n], path) && Closes(path) && n !in path {
      assert Strays(env, reg', env.defs[n], path);
    }
    if path :| Strays(env, reg', env.defs[n], path) {
      assert n !in path;
    }
  }

  /** A name that stands for something is built, given fuel, and never anything else. */
  lemma GoodNameBuilds(env: Env, reg: Registry, n: string) returns (k: nat, v: Resource)
    requires Poised(env, reg, n) && Meaningful(env, Ref(n))
    ensures forall fuel: nat :: k <= fuel ==> Build(env, reg, fuel, n) == Ok(v)
    ensures Consistent(env, reg[n := Done(v)])
  {
    var m: nat :| Expand(env, m, Ref(n)).Some?;
    k := LeastFrom(env, n, m) - 1;
    BuildsAtDepth(env, reg[n := Building], k, env.defs[n]);
    v := Build(env, reg, k, n).value;
    EntryAgrees(env, reg, k, n);
    forall fuel: nat | k <= fuel
      ensures Build(env, reg, fuel, n) == Ok(v)
    {
      MoreFuel(env, reg[n := Building], k, fuel, env.defs[n]);
    }
  }

  lemma BadNameNeverBuilds(env: Env, reg: Registry, fuel: nat, n: string)
    requires Poised(env, reg, n) && !Meaningful(env, Ref(n))
    ensures !Build(env, reg, fuel, n).Ok?
  {
    if Build(env, reg, fuel, n).Ok? {
      var k := ResolveAgrees(env, reg[n := Building], fuel, env.defs[n]);
      assert Expand(env, k + 1, Ref(n)).Some?;
    }
  }

  lemma {:induction false} LoadMoreFuel(env: Env, reg: Registry, k: nat, m: nat, order: seq<string>)
    requires k <= m && (forall n :: n in order ==> n in env.defs)
    requires !Load(env, reg, k, order).Spinning?
    ensures Load(env, reg, m, order) == Load(env, reg, k, order)
    decreases |order|
  {
    if order != [] {
      var n := order[0];
      if n in reg {
        LoadMoreFuel(env, reg, k, m, order[1..]);
      } else {
        MoreFuel(env, reg[n := Building], k, m, env.defs[n]);
        var r := Build(env, reg, k, n);
        if r.Ok? {
          LoadMoreFuel(env, reg[n := Done(r.value)], k, m, order[1..]);
        }
      }
    }
  }

  /** The first name of the order that stands for nothing. */
  ghost predicate FirstBad(env: Env, order: seq<string>, i: nat) {
    && i < |order| && !Meaningful(env, Ref(order[i]))
    && forall j :: 0 <= j < i ==> Meaningful(env, Ref(order[j]))
  }

  /** From this much fuel on, the loop ends the way building that name ends. */
  ghost predicate Decides(env: Env, reg: Registry, order: seq<string>, before: Registry, n: string, bound: nat)
    requires (forall n :: n in order ==> n in env.defs) && n in env.defs
  {
    forall fuel: nat :: bound <= fuel ==>
      && (Build(env, before, fuel, n).Spinning? ==> Load(env, reg, fuel, order).Spinning?)
      && (Build(env, before, fuel, n).Err? ==> Load(env, reg, fuel, order) == Err(Build(env, before, fuel, n).error))
  }

  lemma RegisteredIsMeaningful(env: Env, reg: Registry, n: string)
    requires Consistent(env, reg) && AllDone(reg) && n in reg
    ensures Meaningful(env, Ref(n))
  {
    var k: nat :| Expand(env, k, Ref(n)) == Some(reg[n].value);
    assert Expand(env, k, Ref(n)).Some?;
  }

  lemma {:induction false} FirstBadDecides(env: Env, reg: Registry, order: seq<string>, i: nat)
    returns (before: Registry, bound: nat)
    requires (forall n :: n in order ==> n in env.defs) && FirstBad(env, order, i)
    requires Consistent(env, reg) && AllDone(reg)
    ensures Poised(env, before, order[i]) && Decides(env, reg, order, before, order[i], bound)
    decreases |order|
  {
    var n := order[0];
    if n in reg {
      RegisteredIsMeaningful(env, reg, n);
    }
    if i == 0 {
      before, bound := reg, 0;
    } else {
      var rest := order[1..];
      assert forall j :: 0 <= j < |rest| ==> rest[j] == order[j + 1];
      if n in reg {
        before, bound := FirstBadDecides(env, reg, rest, i - 1);
      } else {
        var k, v := GoodNameBuilds(env, reg, n);
        var b;
        before, b := FirstBadDecides(env, reg[n := Done(v)], rest, i - 1);
        bound := if k <= b then b else k;
        forall fuel: nat | bound <= fuel
          ensures Load(env, reg, fuel, order) == Load(env, reg[n := Done(v)], fuel, rest)
        {
          assert Build(env, reg, fuel, n) == Ok(v);
        }
      }
    }
  }

  lemma {:induction false} GoodNamesLoad(env: Env, reg: Registry, order: seq<string>) returns (fuel: nat)
    requires forall n :: n in order ==> n in env.defs && Meaningful(env, Ref(n))
    requires Consistent(env, reg) && AllDone(reg)
    ensures Load(env, reg, fuel, order).Ok?
    decreases |order|
  {
    fuel := 0;
    if order != [] {
      var n := order[0];
      if n in reg {
        fuel := GoodNamesLoad(env, reg, order[1..]);
      } else {
        var k, v := GoodNameBuilds(env, reg, n);
        var m := GoodNamesLoad(env, reg[n := Done(v)], order[1..]);
        fuel := if k <= m then m else k;
        assert Build(env, reg, fuel, n) == Ok(v);
        LoadMoreFuel(env, reg[n := Done(v)], m, fuel, order[1..]);
      }
    }
  }

  lemma FindFirstBad(env: Env, order: seq<string>) returns (i: nat)
    ensures FirstBad(env, order, i) || (forall n :: n in order ==> Meaningful(env, Ref(n)))
  {
    i := 0;
    while i < |order| && Meaningful(env, Ref(order[i]))
      invariant i <= |order|
      invariant forall j :: 0 <= j < i ==> Meaningful(env, Ref(order[j]))
    {
      i := i + 1;
    }
  }

  ghost predicate LoadNeverAnswers(env: Env, order: seq<string>)
    requires forall n :: n in order ==> n in env.defs
  {
    forall fuel: nat :: Load(env, map[], fuel, order).Spinning?
  }

  /** The loop reaches no answer, with whatever fuel, exactly when the first name of the
      order that stands for nothing strays into a cycle it is not part of. */
  lemma LoadNeverAnswersIff(env: Env, order: seq<string>)
    requires forall n :: n in order ==> n in env.defs
    ensures LoadNeverAnswers(env, order) <==> exists i: nat :: FirstBad(env, order, i) && StraysFrom(env, order[i])
  {
    var i := FindFirstBad(env, order);
    if FirstBad(env, order, i) {
      var n := order[i];
      var before, bound := FirstBadDecides(env, map[], order, i);
      BuildNeverAnswersIff(env, before, n);
      if StraysFrom(env, n) {
        forall fuel: nat
          ensures Load(env, map[], fuel, order).Spinning?
        {
          var more := fuel + bound;
          assert Build(env, before, more, n).Spinning?;
          if !Load(env, map[], fuel, order).Spinning? {
            LoadMoreFuel(env, map[], fuel, more, order);
          }
        }
      } else {
        var fuel: nat :| !Resolve(env, before[n := Building], fuel, env.defs[n]).Spinning?;
        var more := fuel + bound;
        MoreFuel(env, before[n := Building], fuel, more, env.defs[n]);
        BadNameNeverBuilds(env, before, more, n);
        assert Build(env, before, more, n).Err?;
      }
    } else {
      var fuel := GoodNamesLoad(env, map[], order);
    }
  }

  // ---------- when a cycle is reported ----------

  /** The walk from the definition of the name comes back to the name. */
  ghost predicate Returns(env: Env, n: string)
    requires n in env.defs
  {
    exists path :: Walk(env, env.defs[n], path) && path[|path| - 1] == n
  }

  /** An error behind an entered reference is the error of the whole, given fuel for what
      comes before it. */
  lemma {:induction false} EntersFails(env: Env, reg: Registry, fuel: nat, d: Def, n: string) returns (more: nat)
    requires Ready(env, reg) && Enters(env, d, n) && Resolve(env, reg, fuel, Ref(n)).Err?
    ensures Resolve(env, reg, more, d) == Resolve(env, reg, fuel, Ref(n))
    decreases d, 1
  {
    more := fuel;
    match d
    case Null =>
    case Malformed =>
    case Ref(m) =>
    case Node(_, slots) => more := EntersOneOfFails(env, reg, fuel, slots, n);
  }

  lemma {:induction false} EntersOneOfFails(env: Env, reg: Registry, fuel: nat, slots: seq<Slot>, n: string)
    returns (more: nat)
    requires Ready(env, reg) && EntersOneOf(env, slots, n) && Resolve(env, reg, fuel, Ref(n)).Err?
    ensures ResolveAll(env, reg, more, slots) == Err(Resolve(env, reg, fuel, Ref(n)).error)
    decreases slots, 0
  {
    assert slots[0].def < slots[0];
    if Enters(env, slots[0].def, n) {
      more := EntersFails(env, reg, fuel, slots[0].def, n);
    } else {
      var m := EntersOneOfFails(env, reg, fuel, slots[1..], n);
      var k: nat :| Expand(env, k, slots[0].def).Some?;
      BuildsAtDepth(env, reg, k, slots[0].def);
      more := k + m;
      MoreFuel(env, reg, k, more, slots[0].def);
      MoreFuelAll(env, reg, m, more, slots[1..]);
    }
  }

  lemma {:induction false} WalkToNothing(env: Env, d: Def, path: seq<string>)
    requires Walk(env, d, path) && !Meaningful(env, Ref(path[|path| - 1]))
    ensures forall i :: 0 <= i < |path| ==> !Meaningful(env, Ref(path[i]))
    decreases |path|
  {
    if |path| > 1 {
      var n := path[0];
      WalkToNothing(env, env.defs[n], path[1..]);
      assert forall i :: 0 < i < |path| ==> path[i] == path[1..][i - 1];
      if k: nat :| Expand(env, k, Ref(n)).Some? {
        EntersMeaningful(env, k - 1, env.defs[n], path[1]);
      }
    }
  }

  /** Walking back to the one name under construction ends in the error about it. */
  lemma {:induction false} WalkBackFails(env: Env, reg: Registry, n: string, d: Def, path: seq<string>)
    returns (fuel: nat)
    requires Poised(env, reg, n) && !Meaningful(env, Ref(n))
    requires Walk(env, d, path) && path[|path| - 1] == n && n !in path[..|path| - 1]
    ensures Resolve(env, reg[n := Building], fuel, d) == Err(CyclicDependency(n))
    decreases |path|
  {
    var reg' := reg[n := Building];
    var m := path[0];
    BadNameIsReady(env, reg, n);
    fuel := 0;
    if |path| > 1 {
      var rest := path[1..];
      assert n !in rest[..|rest| - 1] by {
        assert rest[..|rest| - 1] == path[..|path| - 1][1..];
      }
      assert m != n by {
        assert path[..|path| - 1][0] == m;
      }
      if m in reg {
        RegisteredIsMeaningful(env, reg, m);
        WalkToNothing(env, d, path);
      }
      fuel := WalkBackFails(env, reg, n, env.defs[m], rest);
      fuel := fuel + 1;
    }
    fuel := EntersFails(env, reg', fuel, d, m);
  }

  lemma {:induction false} CycleWalk(env: Env, reg: Registry, fuel: nat, d: Def, c: string) returns (path: seq<string>)
    requires Consistent(env, reg) && c in env.defs && Resolve(env, reg, fuel, d) == Err(CyclicDependency(c))
    ensures Walk(env, d, path) && path[|path| - 1] == c
    decreases fuel, d, 1
  {
    path := [];
    match d
    case Null =>
    case Malformed =>
    case Ref(n) =>
      if n in reg {
        path := [n];
      } else {
        var rest := CycleWalk(env, reg, fuel - 1, env.defs[n], c);
        WalkFrom(env, d, n, rest);
        path := [n] + rest;
      }
    case Node(_, slots) => path := CycleWalkIn(env, reg, fuel, slots, c);
  }

  lemma {:induction false} CycleWalkIn(env: Env, reg: Registry, fuel: nat, slots: seq<Slot>, c: string)
    returns (path: seq<string>)
    requires Consistent(env, reg) && c in env.defs && ResolveAll(env, reg, fuel, slots) == Err(CyclicDependency(c))
    ensures path != [] && EntersOneOf(env, slots, path[0]) && path[|path| - 1] == c
    ensures forall i :: 0 <= i < |path| ==> path[i] in env.defs
    ensures forall i :: 0 <= i < |path| - 1 ==> Enters(env, env.defs[path[i]], path[i + 1])
    decreases fuel, slots, 0
  {
    assert slots[0].def < slots[0];
    if Resolve(env, reg, fuel, slots[0].def).Err? {
      path := CycleWalk(env, reg, fuel, slots[0].def, c);
    } else {
      BuiltIsMeaningful(env, reg, fuel, slots[0].def);
      path := CycleWalkIn(env, reg, fuel, slots[1..], c);
    }
  }

  lemma FirstReturn(env: Env, d: Def, n: string, path: seq<string>) returns (first: seq<string>)
    requires Walk(env, d, path) && path[|path| - 1] == n
    ensures Walk(env, d, first) && first[|first| - 1] == n && n !in first[..|first| - 1]
  {
    var k := 0;
    while path[k] != n
      invariant 0 <= k < |path| && n !in path[..k]
      decreases |path| - k
    {
      assert path[..k + 1] == path[..k] + [path[k]];
      k := k + 1;
    }
    first := path[..k + 1];
    assert first[..k] == path[..k];
  }

  lemma ReturningMeansNothing(env: Env, n: string)
    requires n in env.defs && Returns(env, n)
    ensures !Meaningful(env, Ref(n))
  {
    var path :| Walk(env, env.defs[n], path) && path[|path| - 1] == n;
    var whole := [n] + path;
    WalkFrom(env, Ref(n), n, path);
    assert whole[0] == whole[|whole| - 1];
    forall k: nat
      ensures Expand(env, k, Ref(n)).None?
    {
      ClosedPathMeansNothing(env, Ref(n), whole, k);
      assert Expand(env, k, Ref(whole[0])).None?;
    }
  }

  ghost predicate Reports(env: Env, order: seq<string>, c: string)
    requires forall n :: n in order ==> n in env.defs
  {
    exists fuel: nat :: Load(env, map[], fuel, order) == Err(CyclicDependency(c))
  }

  lemma ReturningIsReported(env: Env, order: seq<string>, i: nat)
    requires (forall n :: n in order ==> n in env.defs) && FirstBad(env, order, i) && Returns(env, order[i])
    ensures Reports(env, order, order[i])
  {
    var n := order[i];
    var before, bound := FirstBadDecides(env, map[], order, i);
    var path :| Walk(env, env.defs[n], path) && path[|path| - 1] == n;
    var first := FirstReturn(env, env.defs[n], n, path);
    var fuel := WalkBackFails(env, before, n, env.defs[n], first);
    MoreFuel(env, before[n := Building], fuel, fuel + bound, env.defs[n]);
    assert Build(env, before, fuel + bound, n) == Err(CyclicDependency(n));
    assert Load(env, map[], fuel + bound, order) == Err(CyclicDependency(n));
  }

  lemma ReportedReturns(env: Env, order: seq<string>, c: string) returns (i: nat)
    requires (forall n :: n in order ==> n in env.defs) && Reports(env, order, c)
    ensures FirstBad(env, order, i) && order[i] == c && Returns(env, c)
  {
    var fuel: nat :| Load(env, map[], fuel, order) == Err(CyclicDependency(c));
    i := FindFirstBad(env, order);
    if FirstBad(env, order, i) {
      var n := order[i];
      var before, bound := FirstBadDecides(env, map[], order, i);
      var more := fuel + bound;
      LoadMoreFuel(env, map[], fuel, more, order);
      BadNameNeverBuilds(env, before, more, n);
      assert Build(env, before, more, n) == Err(CyclicDependency(c));
      var reg' := before[n := Building];
      var mentioned := CycleErrorPath(env, reg', more, env.defs[n], c);
      var path := CycleWalk(env, reg', more, env.defs[n], c);
    } else {
      var m := GoodNamesLoad(env, map[], order);
      LoadMoreFuel(env, map[], fuel, fuel + m, order);
      LoadMoreFuel(env, map[], m, fuel + m, order);
    }
  }

  /** A cycle is reported, about this name, exactly when it is the first name of the order
      that stands for nothing and the walk from its definition comes back to it. */
  lemma CycleReportedIff(env: Env, order: seq<string>, c: string)
    requires forall n :: n in order ==> n in env.defs
    ensures Reports(env, order, c) <==>
              exists i: nat :: FirstBad(env, order, i) && order[i] == c && Returns(env, c)
  {
    if Reports(env, order, c) {
      var i := ReportedReturns(env, order, c);
    }
    if i: nat :| FirstBad(env, order, i) && order[i] == c && Returns(env, c) {
      ReturningIsReported(env, order, i);
    }
  }

  // ---------- the part the order plays ----------

  lemma {:induction false} Enumeration(names: set<string>) returns (order: seq<string>)
    ensures Enumerates(order, names)
    decreases |names|
  {
    order := [];
    if names != {} {
      var n :| n in names;
      var rest := Enumeration(names - {n});
      order := [n] + rest;
    }
  }

  lemma EnumerationFrom(names: set<string>, n: string) returns (order: seq<string>)
    requires n in names
    ensures Enumerates(order, names) && order[0] == n
  {
    var rest := Enumeration(names - {n});
    order := [n] + rest;
  }

  /** Some order of iteration gets an answer and another gets none exactly when some name
      strays and some other bad name does not. */
  lemma AnswerDependsOnOrderIff(env: Env)
    ensures (exists order, order' ::
               && Enumerates(order, env.defs.Keys) && Enumerates(order', env.defs.Keys)
               && LoadNeverAnswers(env, order) && !LoadNeverAnswers(env, order'))
            <==>
            (exists n, m :: n in env.defs && m in env.defs
               && StraysFrom(env, n) && !StraysFrom(env, m) && !Meaningful(env, Ref(m)))
  {
    if n, m :| n in env.defs && m in env.defs
               && StraysFrom(env, n) && !StraysFrom(env, m) && !Meaningful(env, Ref(m)) {
      var order := EnumerationFrom(env.defs.Keys, n);
      var order' := EnumerationFrom(env.defs.Keys, m);
      StrayMeansNothing(env, n);
      assert FirstBad(env, order, 0) && FirstBad(env, order', 0);
      LoadNeverAnswersIff(env, order);
      LoadNeverAnswersIff(env, order');
    }
    if order, order' :| Enumerates(order, env.defs.Keys) && Enumerates(order', env.defs.Keys)
                        && LoadNeverAnswers(env, order) && !LoadNeverAnswers(env, order') {
      LoadNeverAnswersIff(env, order);
      LoadNeverAnswersIff(env, order');
      var i: nat :| FirstBad(env, order, i) && StraysFrom(env, order[i]);
      assert order[i] in order';
      var j := FindFirstBad(env, order');
      assert order[i] in env.defs && order'[j] in env.defs;
    }
  }

  /** Two names: the cycle of one is not part of the other. */
  const LOOSE_CYCLE := Env(map["a" := Ref("b"), "b" := Ref("b")], map[])

  /** On this config the order decides between an error and no answer at all. */
  lemma FailureDependsOnOrder()
    ensures Enumerates(["a", "b"], LOOSE_CYCLE.defs.Keys) && Enumerates(["b", "a"], LOOSE_CYCLE.defs.Keys)
    ensures LoadNeverAnswers(LOOSE_CYCLE, ["a", "b"])
    ensures Reports(LOOSE_CYCLE, ["b", "a"], "b")
  {
    var env := LOOSE_CYCLE;
    assert Walk(env, env.defs["a"], ["b", "b"]) && ["b", "b"][0] == ["b", "b"][1];
    assert Walk(env, env.defs["b"], ["b"]);
    assert StraysFrom(env, "a") && Returns(env, "b");
    StrayMeansNothing(env, "a");
    ReturningMeansNothing(env, "b");
    var ab, ba := ["a", "b"], ["b", "a"];
    assert FirstBad(env, ab, 0) && ab[0] == "a";
    assert FirstBad(env, ba, 0) && ba[0] == "b";
    LoadNeverAnswersIff(env, ab);
    CycleReportedIff(env, ba, "b");
  }

  // ---------- typings and cycles ----------

  /** The name leads to the other through mentioned references. */
  ghost predicate LeadsTo(env: Env, n: string, m: string)
    requires n in env.defs
  {
    exists path :: Leads(env, env.defs[n], path) && path[|path| - 1] == m
  }

  ghost predicate Acyclic(env: Env) {
    forall n :: n in env.defs ==> !LeadsTo(env, n, n)
  }

  /** References defined, types registered, children of their kinds; nothing about ranks. */
  ghost predicate Proper(env: Env, t: Typing, d: Def)
    decreases d, 1
  {
    match d
    case Null => true
    case Malformed => false
    case Ref(n) => n in env.defs
    case Node(ty, slots) => ty in env.types && AllProper(env, t, slots)
  }

  ghost predicate AllProper(env: Env, t: Typing, slots: seq<Slot>)
    decreases slots, 0
  {
    slots == [] || (
      assert slots[0].def < slots[0];
      && Proper(env, t, slots[0].def)
      && HasKind(env, RootOf(t, slots[0].def), slots[0].kind)
      && AllProper(env, t, slots[1..]))
  }

  ghost predicate Shaped(env: Env, t: Typing) {
    && t.root.Keys == env.defs.Keys
    && forall n :: n in env.defs ==> Proper(env, t, env.defs[n]) && t.root[n] == RootOf(t, env.defs[n])
  }

  /** References rank below the bound. */
  ghost predicate Below(t: Typing, bound: nat, d: Def) {
    forall n :: Mentions(d, n) ==> n in t.rank && t.rank[n] < bound
  }

  lemma {:induction false} FitsIff(env: Env, t: Typing, bound: nat, d: Def)
    ensures Fits(env, t, bound, d) <==> Proper(env, t, d) && Below(t, bound, d)
    decreases d, 1
  {
    match d
    case Null =>
    case Malformed =>
    case Ref(n) => assert Mentions(d, n);
    case Node(_, slots) =>
      AllFitIff(env, t, bound, slots);
      assert forall n :: Mentions(d, n) <==> MentionsIn(slots, n);
  }

  lemma {:induction false} AllFitIff(env: Env, t: Typing, bound: nat, slots: seq<Slot>)
    ensures FitsAll(env, t, bound, slots) <==>
              AllProper(env, t, slots) && forall n :: MentionsIn(slots, n) ==> n in t.rank && t.rank[n] < bound
    decreases slots, 0
  {
    if slots != [] {
      assert slots[0].def < slots[0];
      FitsIff(env, t, bound, slots[0].def);
      AllFitIff(env, t, bound, slots[1..]);
      assert forall n :: MentionsIn(slots, n) <==> Mentions(slots[0].def, n) || MentionsIn(slots[1..], n);
    }
  }

  /** Every name reached ranks lower. */
  lemma {:induction false} LeadingDescends(env: Env, t: Typing, n: string, path: seq<string>)
    requires WellTyped(env, t) && n in env.defs && Leads(env, env.defs[n], path)
    ensures var m := path[|path| - 1]; m in env.defs && t.rank[m] < t.rank[n]
    decreases |path|
  {
    assert TypedAt(env, t, n);
    FitsIff(env, t, t.rank[n], env.defs[n]);
    if |path| > 1 {
      LeadingDescends(env, t, path[0], path[1..]);
    }
  }

  ghost function ReachedFrom(env: Env, n: string): set<string>
    requires n in env.defs
  {
    set m | m in env.defs && LeadsTo(env, n, m)
  }

  lemma ReachesFurther(env: Env, n: string, m: string)
    requires Acyclic(env) && n in env.defs && m in env.defs && Mentions(env.defs[n], m)
    ensures |ReachedFrom(env, m)| < |ReachedFrom(env, n)|
  {
    var few, many := ReachedFrom(env, m), ReachedFrom(env, n);
    assert m in many by {
      assert Leads(env, env.defs[n], [m]);
    }
    forall x | x in few
      ensures x in many
    {
      var path :| Leads(env, env.defs[m], path) && path[|path| - 1] == x;
      assert Leads(env, env.defs[n], [m] + path);
    }
    assert m !in few;
    SmallerSet(few, many, m);
  }

  lemma SmallerSet(few: set<string>, many: set<string>, x: string)
    requires few <= many && x in many && x !in few
    ensures |few| < |many|
  {
    assert many == few + (many - few);
    assert x in many - few;
  }

  lemma {:induction false} ProperMentionsDefined(env: Env, t: Typing, d: Def, n: string)
    requires Proper(env, t, d) && Mentions(d, n)
    ensures n in env.defs
    decreases d, 1
  {
    match d
    case Null =>
    case Malformed =>
    case Ref(m) =>
    case Node(_, slots) => AllProperMentionDefined(env, t, slots, n);
  }

  lemma {:induction false} AllProperMentionDefined(env: Env, t: Typing, slots: seq<Slot>, n: string)
    requires AllProper(env, t, slots) && MentionsIn(slots, n)
    ensures n in env.defs
    decreases slots, 0
  {
    assert slots[0].def < slots[0];
    if Mentions(slots[0].def, n) {
      ProperMentionsDefined(env, t, slots[0].def, n);
    } else {
      AllProperMentionDefined(env, t, slots[1..], n);
    }
  }

  lemma {:induction false} RootsDecideProper(env: Env, t: Typing, u: Typing, d: Def)
    requires t.root == u.root
    ensures Proper(env, t, d) == Proper(env, u, d) && RootOf(t, d) == RootOf(u, d)
    decreases d, 1
  {
    if d.Node? {
      RootsDecideAllProper(env, t, u, d.slots);
    }
  }

  lemma {:induction false} RootsDecideAllProper(env: Env, t: Typing, u: Typing, slots: seq<Slot>)
    requires t.root == u.root
    ensures AllProper(env, t, slots) == AllProper(env, u, slots)
    decreases slots, 0
  {
    if slots != [] {
      assert slots[0].def < slots[0];
      RootsDecideProper(env, t, u, slots[0].def);
      RootsDecideAllProper(env, t, u, slots[1..]);
    }
  }

  /** In an acyclic config a name outranks whatever it leads to if it ranks as high as the
      number of names it leads to. */
  ghost function Ranked(env: Env, t: Typing): Typing {
    t.(rank := map n | n in env.defs :: |ReachedFrom(env, n)|)
  }

  lemma ShapedIsTyped(env: Env, t: Typing)
    requires Acyclic(env) && Shaped(env, t)
    ensures WellTyped(env, Ranked(env, t))
  {
    var u := Ranked(env, t);
    forall n | n in env.defs
      ensures TypedAt(env, u, n)
    {
      RootsDecideProper(env, t, u, env.defs[n]);
      forall m | Mentions(env.defs[n], m)
        ensures m in u.rank && u.rank[m] < u.rank[n]
      {
        ProperMentionsDefined(env, t, env.defs[n], m);
        ReachesFurther(env, n, m);
      }
      FitsIff(env, u, u.rank[n], env.defs[n]);
    }
  }

  /** A config has a typing exactly when no name leads to itself and, ranks aside, the
      references are defined, the types registered and the children of their kinds. */
  lemma TypedIffAcyclic(env: Env)
    ensures (exists t :: WellTyped(env, t)) <==> Acyclic(env) && exists t :: Shaped(env, t)
  {
    if t :| WellTyped(env, t) {
      forall n | n in env.defs
        ensures !LeadsTo(env, n, n)
        ensures Proper(env, t, env.defs[n]) && t.root[n] == RootOf(t, env.defs[n])
      {
        if path :| Leads(env, env.defs[n], path) && path[|path| - 1] == n {
          LeadingDescends(env, t, n, path);
        }
        assert TypedAt(env, t, n);
        FitsIff(env, t, t.rank[n], env.defs[n]);
      }
      assert Shaped(env, t);
    }
    if Acyclic(env) && exists t :: Shaped(env, t) {
      var t :| Shaped(env, t);
      ShapedIsTyped(env, t);
    }
  }
}
