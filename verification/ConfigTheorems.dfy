/** The memoising resolver against full expansion and against a typing of the config. */
module ConfigTheorems {
  import opened Wrappers
  import opened ConfigModel

  // ---------- full expansion is a function of the definition alone ----------

  lemma {:induction false} ExpandDeeper(env: Env, k: nat, m: nat, d: Def)
    requires k <= m && Expand(env, k, d).Some?
    ensures Expand(env, m, d) == Expand(env, k, d)
    decreases k, d, 1
  {
    match d
    case Null =>
    case Malformed =>
    case Ref(n) => ExpandDeeper(env, k - 1, m - 1, env.defs[n]);
    case Node(_, slots) => ExpandAllDeeper(env, k, m, slots);
  }

  lemma {:induction false} ExpandAllDeeper(env: Env, k: nat, m: nat, slots: seq<Slot>)
    requires k <= m && ExpandAll(env, k, slots).Some?
    ensures ExpandAll(env, m, slots) == ExpandAll(env, k, slots)
    decreases k, slots, 0
  {
    if slots != [] {
      assert slots[0].def < slots[0];
      ExpandDeeper(env, k, m, slots[0].def);
      ExpandAllDeeper(env, k, m, slots[1..]);
    }
  }

  /** A definition stands for at most one resource. */
  lemma MeansUnique(env: Env, d: Def, v: Resource, u: Resource)
    requires Means(env, d, v) && Means(env, d, u)
    ensures v == u
  {
    var k: nat :| Expand(env, k, d) == Some(v);
    var m: nat :| Expand(env, m, d) == Some(u);
    if k <= m {
      ExpandDeeper(env, k, m, d);
    } else {
      ExpandDeeper(env, m, k, d);
    }
  }

  // ---------- resolution agrees with expansion ----------

  /** Completed entries hold what their names stand for. */
  ghost predicate Consistent(env: Env, reg: Registry) {
    forall n :: n in reg && reg[n].Done? ==> n in env.defs && Means(env, Ref(n), reg[n].value)
  }

  lemma {:induction false} ResolveAgrees(env: Env, reg: Registry, fuel: nat, d: Def) returns (depth: nat)
    requires Consistent(env, reg) && Resolve(env, reg, fuel, d).Ok?
    ensures Expand(env, depth, d) == Some(Resolve(env, reg, fuel, d).value)
    decreases fuel, d, 1
  {
    depth := 0;
    match d
    case Null =>
    case Malformed =>
    case Ref(n) =>
      if n in reg {
        depth :| Expand(env, depth, Ref(n)) == Some(reg[n].value);
      } else {
        var k := ResolveAgrees(env, reg, fuel - 1, env.defs[n]);
        depth := k + 1;
      }
    case Node(_, slots) => depth := ResolveAllAgrees(env, reg, fuel, slots);
  }

  lemma {:induction false} ResolveAllAgrees(env: Env, reg: Registry, fuel: nat, slots: seq<Slot>)
    returns (depth: nat)
    requires Consistent(env, reg) && ResolveAll(env, reg, fuel, slots).Ok?
    ensures ExpandAll(env, depth, slots) == Some(ResolveAll(env, reg, fuel, slots).value)
    decreases fuel, slots, 0
  {
    if slots == [] {
      depth := 0;
    } else {
      assert slots[0].def < slots[0];
      var k := ResolveAgrees(env, reg, fuel, slots[0].def);
      var m := ResolveAllAgrees(env, reg, fuel, slots[1..]);
      depth := if k <= m then m else k;
      ExpandDeeper(env, k, depth, slots[0].def);
      ExpandAllDeeper(env, m, depth, slots[1..]);
    }
  }

  ghost predicate AllDone(reg: Registry) {
    forall n :: n in reg ==> reg[n].Done?
  }

  lemma EntryAgrees(env: Env, reg: Registry, fuel: nat, n: string)
    requires Consistent(env, reg) && n in env.defs && n !in reg
    requires Resolve(env, reg[n := Building], fuel, env.defs[n]).Ok?
    ensures Consistent(env, reg[n := Done(Resolve(env, reg[n := Building], fuel, env.defs[n]).value)])
  {
    var v := Resolve(env, reg[n := Building], fuel, env.defs[n]).value;
    var k := ResolveAgrees(env, reg[n := Building], fuel, env.defs[n]);
    assert Expand(env, k + 1, Ref(n)) == Some(v);
  }

  /** After a successful loop every name visited is registered, complete, and holds the full
      expansion of its definition. */
  lemma {:induction false} LoadAgrees(env: Env, reg: Registry, fuel: nat, order: seq<string>)
    requires forall n :: n in order ==> n in env.defs
    requires Consistent(env, reg) && AllDone(reg)
    requires Load(env, reg, fuel, order).Ok?
    ensures var r := Load(env, reg, fuel, order).value;
      && Consistent(env, r) && AllDone(r)
      && r.Keys == reg.Keys + set n | n in order
    decreases |order|
  {
    if order != [] {
      var n := order[0];
      assert order == [n] + order[1..];
      if n in reg {
        LoadAgrees(env, reg, fuel, order[1..]);
      } else {
        EntryAgrees(env, reg, fuel, n);
        var v := Resolve(env, reg[n := Building], fuel, env.defs[n]).value;
        LoadAgrees(env, reg[n := Done(v)], fuel, order[1..]);
      }
    }
  }

  lemma SameRegistry(env: Env, r: Registry, u: Registry)
    requires r.Keys == u.Keys && AllDone(r) && AllDone(u) && Consistent(env, r) && Consistent(env, u)
    ensures r == u
  {
    forall n | n in r
      ensures r[n] == u[n]
    {
      assert r[n].Done? && u[n].Done?;
      MeansUnique(env, Ref(n), r[n].value, u[n].value);
    }
  }

  /** The result does not depend on the order in which the map is iterated. */
  lemma ResultIsOrderIndependent(env: Env, fuel: nat, order: seq<string>, fuel': nat, order': seq<string>)
    requires Enumerates(order, env.defs.Keys) && Enumerates(order', env.defs.Keys)
    requires Load(env, map[], fuel, order).Ok? && Load(env, map[], fuel', order').Ok?
    ensures Load(env, map[], fuel, order) == Load(env, map[], fuel', order')
  {
    LoadAgrees(env, map[], fuel, order);
    LoadAgrees(env, map[], fuel', order');
    var r, r' := Load(env, map[], fuel, order).value, Load(env, map[], fuel', order').value;
    SameRegistry(env, r, r');
  }

  // ---------- typings: a check on the config alone ----------

  /** For each name: a rank that references must descend, and the type its value will have
      (None for a null resource). */
  datatype Typing = Typing(rank: map<string, nat>, root: map<string, Option<string>>)

  function RootOf(t: Typing, d: Def): Option<string> {
    match d
    case Null => None
    case Malformed => None
    case Ref(n) => if n in t.root then t.root[n] else None
    case Node(ty, _) => Some(ty)
  }

  function RootOfValue(v: Resource): Option<string> {
    if v.Nil? then None else Some(v.ty)
  }

  /** References are defined and descend, types are registered, children have their kinds. */
  predicate Fits(env: Env, t: Typing, bound: nat, d: Def)
    decreases d, 1
  {
    match d
    case Null => true
    case Malformed => false
    case Ref(n) => n in env.defs && n in t.rank && t.rank[n] < bound
    case Node(ty, slots) => ty in env.types && FitsAll(env, t, bound, slots)
  }

  predicate FitsAll(env: Env, t: Typing, bound: nat, slots: seq<Slot>)
    decreases slots, 0
  {
    slots == [] || (
      assert slots[0].def < slots[0];
      && Fits(env, t, bound, slots[0].def)
      && HasKind(env, RootOf(t, slots[0].def), slots[0].kind)
      && FitsAll(env, t, bound, slots[1..]))
  }

  predicate HasKind(env: Env, root: Option<string>, kind: Kind) {
    root.Some? && root.value in env.types && kind in env.types[root.value]
  }

  ghost predicate TypedAt(env: Env, t: Typing, n: string)
    requires n in env.defs && n in t.rank && n in t.root
  {
    && Fits(env, t, t.rank[n], env.defs[n])
    && t.root[n] == RootOf(t, env.defs[n])
  }

  ghost predicate WellTyped(env: Env, t: Typing) {
    && t.rank.Keys == env.defs.Keys
    && t.root.Keys == env.defs.Keys
    && forall n {:trigger TypedAt(env, t, n)} :: n in env.defs ==> TypedAt(env, t, n)
  }

  lemma {:induction false} TypedExpands(env: Env, t: Typing, bound: nat, d: Def)
    requires WellTyped(env, t) && Fits(env, t, bound, d)
    ensures Expand(env, bound, d).Some?
    ensures RootOfValue(Expand(env, bound, d).value) == RootOf(t, d)
    decreases bound, d, 1
  {
    match d
    case Null =>
    case Malformed =>
    case Ref(n) =>
      assert TypedAt(env, t, n);
      TypedExpands(env, t, t.rank[n], env.defs[n]);
      ExpandDeeper(env, t.rank[n], bound - 1, env.defs[n]);
    case Node(_, slots) => TypedExpandsAll(env, t, bound, slots);
  }

  lemma {:induction false} TypedExpandsAll(env: Env, t: Typing, bound: nat, slots: seq<Slot>)
    requires WellTyped(env, t) && FitsAll(env, t, bound, slots)
    ensures ExpandAll(env, bound, slots).Some?
    ensures AllUsable(env, ExpandAll(env, bound, slots).value, slots)
    decreases bound, slots, 0
  {
    if slots != [] {
      assert slots[0].def < slots[0];
      TypedExpands(env, t, bound, slots[0].def);
      TypedExpandsAll(env, t, bound, slots[1..]);
      var parts := ExpandAll(env, bound, slots).value;
      forall i | 0 <= i < |slots|
        ensures Usable(env, parts[i], slots[i].kind)
      {
        if i > 0 {
          assert parts[i] == ExpandAll(env, bound, slots[1..]).value[i - 1] && slots[i] == slots[1..][i - 1];
        }
      }
    }
  }

  /** Names still under construction rank too high to be referenced from here. */
  ghost predicate BuildingAbove(t: Typing, reg: Registry, bound: nat) {
    forall n :: n in reg && reg[n].Building? ==> n in t.rank && t.rank[n] >= bound
  }

  lemma {:induction false} TypedResolves(env: Env, t: Typing, reg: Registry, fuel: nat, bound: nat, d: Def)
    requires WellTyped(env, t) && Fits(env, t, bound, d) && bound <= fuel
    requires Consistent(env, reg) && BuildingAbove(t, reg, bound)
    ensures Resolve(env, reg, fuel, d).Ok?
    ensures RootOfValue(Resolve(env, reg, fuel, d).value) == RootOf(t, d)
    decreases bound, d, 1
  {
    match d
    case Null =>
    case Malformed =>
    case Ref(n) =>
      assert TypedAt(env, t, n);
      if n !in reg {
        TypedResolves(env, t, reg, fuel - 1, t.rank[n], env.defs[n]);
      } else {
        TypedExpands(env, t, bound, d);
        MeansUnique(env, d, reg[n].value, Expand(env, bound, d).value);
      }
    case Node(_, slots) => TypedResolvesAll(env, t, reg, fuel, bound, slots);
  }

  lemma {:induction false} TypedResolvesAll(env: Env, t: Typing, reg: Registry, fuel: nat, bound: nat, slots: seq<Slot>)
    requires WellTyped(env, t) && FitsAll(env, t, bound, slots) && bound <= fuel
    requires Consistent(env, reg) && BuildingAbove(t, reg, bound)
    ensures ResolveAll(env, reg, fuel, slots).Ok?
    ensures AllUsable(env, ResolveAll(env, reg, fuel, slots).value, slots)
    decreases bound, slots, 0
  {
    if slots != [] {
      assert slots[0].def < slots[0];
      TypedResolves(env, t, reg, fuel, bound, slots[0].def);
      TypedResolvesAll(env, t, reg, fuel, bound, slots[1..]);
      var parts := ResolveAll(env, reg, fuel, slots).value;
      forall i | 0 <= i < |slots|
        ensures Usable(env, parts[i], slots[i].kind)
      {
        if i > 0 {
          assert parts[i] == ResolveAll(env, reg, fuel, slots[1..]).value[i - 1] && slots[i] == slots[1..][i - 1];
        }
      }
    }
  }

  /** A well-typed config loads, in every iteration order. */
  lemma {:induction false} TypedLoads(env: Env, t: Typing, reg: Registry, fuel: nat, order: seq<string>)
    requires WellTyped(env, t)
    requires forall n :: n in env.defs ==> t.rank[n] <= fuel
    requires forall n :: n in order ==> n in env.defs
    requires Consistent(env, reg) && AllDone(reg)
    ensures Load(env, reg, fuel, order).Ok?
    decreases |order|
  {
    if order != [] {
      var n := order[0];
      if n in reg {
        TypedLoads(env, t, reg, fuel, order[1..]);
      } else {
        var reg' := reg[n := Building];
        assert TypedAt(env, t, n);
        TypedResolves(env, t, reg', fuel, t.rank[n], env.defs[n]);
        EntryAgrees(env, reg, fuel, n);
        TypedLoads(env, t, reg[n := Done(Resolve(env, reg', fuel, env.defs[n]).value)], fuel, order[1..]);
      }
    }
  }

  lemma HighestRank(rank: map<string, nat>) returns (bound: nat)
    ensures forall n :: n in rank ==> rank[n] <= bound
    decreases |rank|
  {
    if rank == map[] {
      bound := 0;
    } else {
      var n :| n in rank;
      var rest := rank - {n};
      assert rest.Keys == rank.Keys - {n};
      assert |rest| < |rank| by { assert |rest.Keys| < |rank.Keys|; }
      var b := HighestRank(rest);
      bound := if rank[n] <= b then b else rank[n];
      forall m | m in rank
        ensures rank[m] <= bound
      {
        if m != n { assert m in rest; }
      }
    }
  }

  // ---------- and back: what loads is well typed ----------

  /** Every name stands for something. */
  ghost predicate AllMeaningful(env: Env) {
    forall n :: n in env.defs ==> exists k: nat :: Expand(env, k, Ref(n)).Some?
  }

  ghost function LeastFrom(env: Env, n: string, k: nat): (r: nat)
    requires Expand(env, k, Ref(n)).Some?
    ensures r <= k && Expand(env, r, Ref(n)).Some?
    ensures r > 0 ==> Expand(env, r - 1, Ref(n)).None?
  {
    if k == 0 || Expand(env, k - 1, Ref(n)).None? then k else LeastFrom(env, n, k - 1)
  }

  ghost function Rank(env: Env, n: string): (r: nat)
    requires AllMeaningful(env) && n in env.defs
    ensures Expand(env, r, Ref(n)).Some?
    ensures r > 0 ==> Expand(env, r - 1, Ref(n)).None?
  {
    var k: nat :| Expand(env, k, Ref(n)).Some?;
    LeastFrom(env, n, k)
  }

  lemma RankIsLeast(env: Env, n: string, k: nat)
    requires AllMeaningful(env) && n in env.defs && Expand(env, k, Ref(n)).Some?
    ensures Rank(env, n) <= k
    ensures Expand(env, k, Ref(n)) == Expand(env, Rank(env, n), Ref(n))
  {
    var r := Rank(env, n);
    if k < r {
      ExpandDeeper(env, k, r - 1, Ref(n));
    } else {
      ExpandDeeper(env, r, k, Ref(n));
    }
  }

  ghost function TypingOf(env: Env): Typing
    requires AllMeaningful(env)
  {
    Typing(map n | n in env.defs :: Rank(env, n),
           map n | n in env.defs :: RootOfValue(Expand(env, Rank(env, n), Ref(n)).value))
  }

  lemma {:induction false} ExpandFits(env: Env, k: nat, d: Def)
    requires AllMeaningful(env) && Expand(env, k, d).Some?
    ensures Fits(env, TypingOf(env), k + 1, d)
    ensures RootOf(TypingOf(env), d) == RootOfValue(Expand(env, k, d).value)
    decreases k, d, 1
  {
    match d
    case Null =>
    case Malformed =>
    case Ref(n) => RankIsLeast(env, n, k);
    case Node(_, slots) => ExpandAllFits(env, k, slots);
  }

  lemma {:induction false} ExpandAllFits(env: Env, k: nat, slots: seq<Slot>)
    requires AllMeaningful(env) && ExpandAll(env, k, slots).Some?
    requires AllUsable(env, ExpandAll(env, k, slots).value, slots)
    ensures FitsAll(env, TypingOf(env), k + 1, slots)
    decreases k, slots, 0
  {
    if slots != [] {
      assert slots[0].def < slots[0];
      ExpandFits(env, k, slots[0].def);
      var parts := ExpandAll(env, k, slots).value;
      assert Usable(env, parts[0], slots[0].kind);
      var rest := ExpandAll(env, k, slots[1..]).value;
      forall i | 0 <= i < |slots[1..]|
        ensures Usable(env, rest[i], slots[1..][i].kind)
      {
        assert Usable(env, parts[i + 1], slots[i + 1].kind);
      }
      ExpandAllFits(env, k, slots[1..]);
    }
  }

  lemma MeaningfulIsTyped(env: Env)
    requires AllMeaningful(env)
    ensures WellTyped(env, TypingOf(env))
  {
    forall n | n in env.defs
      ensures TypedAt(env, TypingOf(env), n)
    {
      var r := Rank(env, n);
      assert r > 0;
      ExpandFits(env, r - 1, env.defs[n]);
    }
  }

  ghost predicate Succeeds(env: Env, order: seq<string>) {
    && (forall n :: n in order ==> n in env.defs)
    && exists fuel: nat :: Load(env, map[], fuel, order).Ok?
  }

  /** The loop over all resources succeeds, in whatever order, exactly when the config has a
      typing: references acyclic and defined, types registered, children of the right kind. */
  lemma LoadSucceedsIffTyped(env: Env, order: seq<string>)
    requires Enumerates(order, env.defs.Keys)
    ensures Succeeds(env, order) <==> exists t :: WellTyped(env, t)
  {
    if exists t :: WellTyped(env, t) {
      var t :| WellTyped(env, t);
      var bound := HighestRank(t.rank);
      TypedLoads(env, t, map[], bound, order);
    }
    if Succeeds(env, order) {
      var fuel: nat :| Load(env, map[], fuel, order).Ok?;
      LoadAgrees(env, map[], fuel, order);
      var r := Load(env, map[], fuel, order).value;
      forall n | n in env.defs
        ensures exists k: nat :: Expand(env, k, Ref(n)).Some?
      {
        assert Means(env, Ref(n), r[n].value);
        var k: nat :| Expand(env, k, Ref(n)) == Some(r[n].value);
        assert Expand(env, k, Ref(n)).Some?;
      }
      MeaningfulIsTyped(env);
    }
  }

  /** Hence whether a config loads does not depend on the iteration order either. */
  lemma SuccessIsOrderIndependent(env: Env, order: seq<string>, order': seq<string>)
    requires Enumerates(order, env.defs.Keys) && Enumerates(order', env.defs.Keys)
    ensures Succeeds(env, order) <==> Succeeds(env, order')
  {
    LoadSucceedsIffTyped(env, order);
    LoadSucceedsIffTyped(env, order');
  }

  // ---------- fuel only decides whether an answer is reached ----------

  lemma {:induction false} MoreFuel(env: Env, reg: Registry, k: nat, m: nat, d: Def)
    requires k <= m && !Resolve(env, reg, k, d).Spinning?
    ensures Resolve(env, reg, m, d) == Resolve(env, reg, k, d)
    decreases k, d, 1
  {
    match d
    case Null =>
    case Malformed =>
    case Ref(n) =>
      if n !in reg && n in env.defs {
        MoreFuel(env, reg, k - 1, m - 1, env.defs[n]);
      }
    case Node(ty, slots) =>
      if ty in env.types {
        MoreFuelAll(env, reg, k, m, slots);
      }
  }

  lemma {:induction false} MoreFuelAll(env: Env, reg: Registry, k: nat, m: nat, slots: seq<Slot>)
    requires k <= m && !ResolveAll(env, reg, k, slots).Spinning?
    ensures ResolveAll(env, reg, m, slots) == ResolveAll(env, reg, k, slots)
    decreases k, slots, 0
  {
    if slots != [] {
      assert slots[0].def < slots[0];
      MoreFuel(env, reg, k, m, slots[0].def);
      if Resolve(env, reg, k, slots[0].def).Ok? {
        MoreFuelAll(env, reg, k, m, slots[1..]);
      }
    }
  }

  // ---------- the cyclic dependency error ----------

  /** The definition refers to the name, directly or inside nested children. */
  predicate Mentions(d: Def, n: string)
    decreases d, 1
  {
    match d
    case Null => false
    case Malformed => false
    case Ref(m) => m == n
    case Node(_, slots) => MentionsIn(slots, n)
  }

  predicate MentionsIn(slots: seq<Slot>, n: string)
    decreases slots, 0
  {
    slots != [] && (
      assert slots[0].def < slots[0];
      Mentions(slots[0].def, n) || MentionsIn(slots[1..], n))
  }

  /** Following references from the definition through these names, each mentioned by the
      definition of the one before. */
  ghost predicate Leads(env: Env, d: Def, path: seq<string>) {
    && path != []
    && Mentions(d, path[0])
    && forall i :: 0 <= i < |path| - 1 ==> path[i] in env.defs && Mentions(env.defs[path[i]], path[i + 1])
  }

  lemma {:induction false} CycleErrorPath(env: Env, reg: Registry, fuel: nat, d: Def, c: string)
    returns (path: seq<string>)
    requires Resolve(env, reg, fuel, d) == Err(CyclicDependency(c))
    ensures c in reg && reg[c].Building?
    ensures Leads(env, d, path) && path[|path| - 1] == c
    decreases fuel, d, 1
  {
    path := [];
    match d
    case Null =>
    case Malformed =>
    case Ref(n) =>
      if n in reg {
        path := [n];
      } else {
        var rest := CycleErrorPath(env, reg, fuel - 1, env.defs[n], c);
        path := [n] + rest;
      }
    case Node(_, slots) =>
      path := CycleErrorPathAll(env, reg, fuel, slots, c);
  }

  lemma {:induction false} CycleErrorPathAll(env: Env, reg: Registry, fuel: nat, slots: seq<Slot>, c: string)
    returns (path: seq<string>)
    requires ResolveAll(env, reg, fuel, slots) == Err(CyclicDependency(c))
    ensures c in reg && reg[c].Building?
    ensures path != [] && MentionsIn(slots, path[0]) && path[|path| - 1] == c
    ensures forall i :: 0 <= i < |path| - 1 ==> path[i] in env.defs && Mentions(env.defs[path[i]], path[i + 1])
    decreases fuel, slots, 0
  {
    assert slots[0].def < slots[0];
    if Resolve(env, reg, fuel, slots[0].def).Err? {
      path := CycleErrorPath(env, reg, fuel, slots[0].def, c);
    } else {
      path := CycleErrorPathAll(env, reg, fuel, slots[1..], c);
    }
  }

  /** The error is only raised about the one name under construction, and that name really
      reaches itself. */
  lemma {:induction false} CycleErrorIsReal(env: Env, reg: Registry, fuel: nat, order: seq<string>, c: string)
    returns (path: seq<string>)
    requires forall n :: n in order ==> n in env.defs
    requires AllDone(reg) && Load(env, reg, fuel, order) == Err(CyclicDependency(c))
    ensures c in env.defs && c in order
    ensures Leads(env, env.defs[c], path) && path[|path| - 1] == c
    decreases |order|
  {
    var n := order[0];
    if n in reg {
      path := CycleErrorIsReal(env, reg, fuel, order[1..], c);
    } else {
      var r := Resolve(env, reg[n := Building], fuel, env.defs[n]);
      if r.Err? {
        path := CycleErrorPath(env, reg[n := Building], fuel, env.defs[n], c);
      } else {
        path := CycleErrorIsReal(env, reg[n := Done(r.value)], fuel, order[1..], c);
      }
    }
  }

  // ---------- the whole configuration ----------

  predicate FilterLike(env: Env, root: Option<string>) {
    HasKind(env, root, AnyRouter) || HasKind(env, root, AnyFilter)
  }

  lemma {:induction false} PipeSucceedsIff(env: Env, reg: Registry, names: seq<string>)
    requires AllDone(reg)
    ensures Pipe(env, reg, names).Ok? <==>
              forall i :: 0 <= i < |names| ==>
                names[i] in reg && FilterLike(env, RootOfValue(reg[names[i]].value))
  {
    if names != [] {
      var rest := names[1..];
      PipeSucceedsIff(env, reg, rest);
      assert forall i :: 0 < i < |names| ==> names[i] == rest[i - 1];
      assert (forall i :: 0 <= i < |rest| ==> rest[i] in reg && FilterLike(env, RootOfValue(reg[rest[i]].value)))
        ==> forall i :: 0 < i < |names| ==> names[i] in reg && FilterLike(env, RootOfValue(reg[names[i]].value));
      forall i | 0 <= i < |rest|
        ensures rest[i] == names[i + 1]
      {}
    }
  }

  /** Well typed, and every pipeline name is a defined filter or router. */
  ghost predicate Servable(env: Env, t: Typing, pipeline: seq<string>) {
    && WellTyped(env, t)
    && forall i :: 0 <= i < |pipeline| ==> pipeline[i] in env.defs && FilterLike(env, t.root[pipeline[i]])
  }

  lemma LoadedRoots(env: Env, t: Typing, fuel: nat, order: seq<string>)
    requires Enumerates(order, env.defs.Keys) && WellTyped(env, t)
    requires Load(env, map[], fuel, order).Ok?
    ensures var reg := Load(env, map[], fuel, order).value;
      && AllDone(reg) && reg.Keys == env.defs.Keys
      && forall n :: n in reg ==> RootOfValue(reg[n].value) == t.root[n]
  {
    LoadAgrees(env, map[], fuel, order);
    var reg := Load(env, map[], fuel, order).value;
    forall n | n in reg
      ensures RootOfValue(reg[n].value) == t.root[n]
    {
      RootAgrees(env, t, n, reg[n].value);
    }
  }

  lemma RootAgrees(env: Env, t: Typing, n: string, v: Resource)
    requires WellTyped(env, t) && n in env.defs && Means(env, Ref(n), v)
    ensures RootOfValue(v) == t.root[n]
  {
    var bound := t.rank[n] + 1;
    TypedExpands(env, t, bound, Ref(n));
    MeansUnique(env, Ref(n), v, Expand(env, bound, Ref(n)).value);
  }

  lemma ServedMeansServable(env: Env, t: Typing, fuel: nat, order: seq<string>, pipeline: seq<string>)
    requires Enumerates(order, env.defs.Keys) && WellTyped(env, t)
    requires Load(env, map[], fuel, order).Ok? && pipeline != []
    ensures Server(env, fuel, order, pipeline).Ok? <==> Servable(env, t, pipeline)
  {
    LoadedRoots(env, t, fuel, order);
    PipeSucceedsIff(env, Load(env, map[], fuel, order).value, pipeline);
  }

  /** A server is built, in whatever iteration order, exactly when the pipeline is not empty,
      the config is well typed and every pipeline name is a filter or a router. */
  lemma ServerBuiltIff(env: Env, order: seq<string>, pipeline: seq<string>)
    requires Enumerates(order, env.defs.Keys)
    ensures (exists fuel: nat :: Server(env, fuel, order, pipeline).Ok?) <==>
              pipeline != [] && exists t :: Servable(env, t, pipeline)
  {
    LoadSucceedsIffTyped(env, order);
    if pipeline != [] && exists t :: Servable(env, t, pipeline) {
      var t :| Servable(env, t, pipeline);
      var fuel: nat :| Load(env, map[], fuel, order).Ok?;
      ServedMeansServable(env, t, fuel, order, pipeline);
    }
    if exists fuel: nat :: Server(env, fuel, order, pipeline).Ok? {
      var fuel: nat :| Server(env, fuel, order, pipeline).Ok?;
      assert Load(env, map[], fuel, order).Ok?;
      var t :| WellTyped(env, t);
      ServedMeansServable(env, t, fuel, order, pipeline);
    }
  }
}
