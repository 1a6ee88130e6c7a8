/** The loader as it runs: a registry of resource cells that are filled in place, a recursive
    unmarshaler, and a loop over the named resources in whatever order the map yields. */
module ConfigLoader {
  import opened ConfigModel
  import opened ConfigTheorems

  class Cell {
    var unmarshaled: Resource
    var complete: bool

    ghost function Registered(): Registration
      reads this
    {
      if complete then Done(unmarshaled) else Building
    }

    constructor ()
      ensures !complete && unmarshaled == Nil
    {
      unmarshaled := Nil;
      complete := false;
    }
  }

  function Plain<T>(r: Outcome<T>): Outcome<()> {
    match r
    case Ok(_) => Ok(())
    case Err(e) => Err(e)
    case Spinning => Spinning
  }

  /** A left-to-right loop that has collected `done`, seen from its recursive specification. */
  ghost predicate Continues<T>(whole: Outcome<seq<T>>, done: seq<T>, rest: Outcome<seq<T>>) {
    if rest.Ok? then whole == Ok(done + rest.value) else whole == rest
  }

  lemma ContinuesStart<T>(whole: Outcome<seq<T>>)
    ensures Continues(whole, [], whole)
  {
    if whole.Ok? {
      assert [] + whole.value == whole.value;
    }
  }

  lemma ContinuesStep<T>(whole: Outcome<seq<T>>, done: seq<T>, more: seq<T>,
                         rest: Outcome<seq<T>>, rest': Outcome<seq<T>>)
    requires Continues(whole, done, rest)
    requires rest == if rest'.Ok? then Ok(more + rest'.value) else rest'
    ensures Continues(whole, done + more, rest')
  {
    if rest'.Ok? {
      assert done + (more + rest'.value) == done + more + rest'.value;
    }
  }

  class Loader {
    const env: Env
    var registry: map<string, Cell>

    constructor (env: Env)
      ensures this.env == env && Valid() && View() == map[]
      ensures fresh(registry.Values)
    {
      this.env := env;
      registry := map[];
    }

    ghost predicate Valid()
      reads this, registry.Values
    {
      forall n, m :: n in registry && m in registry && n != m ==> registry[n] != registry[m]
    }

    /** The registry as a value: an incomplete cell is one under construction. */
    ghost function View(): Registry
      reads this, registry.Values
    {
      map n | n in registry :: registry[n].Registered()
    }

    /** Fill the cell from a definition. On failure the cell is left as it was. */
    method Unmarshal(rsc: Cell, ghost reg: Registry, fuel: nat, d: Def) returns (r: Outcome<()>)
      requires Valid() && !rsc.complete && reg == View()
      modifies rsc
      ensures r == Plain(Resolve(env, reg, fuel, d))
      ensures r.Ok? ==> rsc.complete && rsc.unmarshaled == Resolve(env, reg, fuel, d).value
      ensures !r.Ok? ==> !rsc.complete && rsc.unmarshaled == old(rsc.unmarshaled)
      decreases fuel, d, 1
    {
      match d
      case Null =>
        rsc.unmarshaled := Nil;
        rsc.complete := true;
        r := Ok(());
      case Malformed =>
        r := Err(Undecodable);
      case Ref(n) =>
        if n in registry {
          var found := registry[n];
          if found.complete {
            rsc.unmarshaled := found.unmarshaled;
            rsc.complete := true;
            r := Ok(());
          } else {
            r := Err(CyclicDependency(n));
          }
        } else if n !in env.defs {
          r := Err(NoSuchResource(n));
        } else if fuel == 0 {
          r := Spinning;
        } else {
          r := Unmarshal(rsc, reg, fuel - 1, env.defs[n]);
        }
      case Node(ty, slots) =>
        if ty !in env.types {
          return Err(NoSuchType(ty));
        }
        var parts, status := UnmarshalAll(reg, fuel, slots);
        if !status.Ok? {
          r := status;
        } else if AllUsable(env, parts, slots) {
          rsc.unmarshaled := Inst(ty, parts);
          rsc.complete := true;
          r := Ok(());
        } else {
          r := Err(UnexpectedResourceType);
        }
    }

    /** Build the children left to right, each in a cell of its own. */
    method UnmarshalAll(ghost reg: Registry, fuel: nat, slots: seq<Slot>)
      returns (parts: seq<Resource>, status: Outcome<()>)
      requires Valid() && reg == View()
      ensures status == Plain(ResolveAll(env, reg, fuel, slots))
      ensures status.Ok? ==> parts == ResolveAll(env, reg, fuel, slots).value
      decreases fuel, slots, 0
    {
      parts := [];
      var i := 0;
      ghost var whole := ResolveAll(env, reg, fuel, slots);
      ContinuesStart(whole);
      assert slots[0..] == slots;
      while i < |slots|
        invariant 0 <= i <= |slots|
        invariant View() == reg
        invariant Continues(whole, parts, ResolveAll(env, reg, fuel, slots[i..]))
      {
        var cell := new Cell();
        assert slots[i].def < slots[i];
        status := Unmarshal(cell, reg, fuel, slots[i].def);
        assert View() == reg;
        assert slots[i..][0] == slots[i] && slots[i..][1..] == slots[i + 1..];
        if !status.Ok? {
          return;
        }
        ContinuesStep(whole, parts, [cell.unmarshaled],
                      ResolveAll(env, reg, fuel, slots[i..]), ResolveAll(env, reg, fuel, slots[i + 1..]));
        parts := parts + [cell.unmarshaled];
        i := i + 1;
      }
      status := Ok(());
    }

    /** One turn of the resource loop. */
    method Register(name: string, fuel: nat) returns (r: Outcome<()>)
      requires Valid() && name in env.defs && name !in registry && AllDone(View())
      modifies this`registry
      ensures Valid() && registry.Keys == old(registry).Keys + {name}
      ensures var was := old(View());
        var v := Resolve(env, was[name := Building], fuel, env.defs[name]);
        && r == Plain(v)
        && View() == was[name := if v.Ok? then Done(v.value) else Building]
    {
      ghost var was := View();
      ghost var others := registry;
      var rsc := new Cell();
      registry := registry[name := rsc];
      ViewOf(others, was, name, rsc);
      r := Unmarshal(rsc, was[name := Building], fuel, env.defs[name]);
      ViewOf(others, was, name, rsc);
    }

    /** What one more cell adds to the registry as a value. */
    lemma ViewOf(others: map<string, Cell>, was: Registry, name: string, rsc: Cell)
      requires registry == others[name := rsc] && name !in others
      requires was.Keys == others.Keys
      requires forall n :: n in others ==> others[n].Registered() == was[n]
      ensures View() == was[name := rsc.Registered()]
    {}

    /** After a failure the rest of the order no longer matters. */
    lemma Complete(order: seq<string>, todo: set<string>, fuel: nat) returns (whole: seq<string>)
      requires todo <= env.defs.Keys && Enumerates(order, env.defs.Keys - todo)
      requires !Load(env, map[], fuel, order).Ok?
      ensures Enumerates(whole, env.defs.Keys)
      ensures Load(env, map[], fuel, whole) == Load(env, map[], fuel, order)
    {
      var rest := SomeOrder(todo);
      LoadFails(env, map[], fuel, order, rest);
      EnumeratesJoin(order, env.defs.Keys - todo, rest, todo);
      assert env.defs.Keys - todo + todo == env.defs.Keys;
      whole := order + rest;
    }

    method LoadResources(fuel: nat) returns (r: Outcome<()>, ghost order: seq<string>)
      requires Valid() && registry == map[]
      modifies this`registry
      ensures Valid() && Enumerates(order, env.defs.Keys)
      ensures r == Plain(Load(env, map[], fuel, order))
      ensures r.Ok? ==> View() == Load(env, map[], fuel, order).value
    {
      order := [];
      var todo := env.defs.Keys;
      while todo != {}
        invariant Valid() && todo <= env.defs.Keys
        invariant registry.Keys == env.defs.Keys - todo
        invariant Enumerates(order, env.defs.Keys - todo)
        invariant Load(env, map[], fuel, order) == Ok(View())
        invariant AllDone(View())
        decreases todo
      {
        var name :| name in todo;
        LoadOneMore(env, map[], fuel, order, name, View());
        EnumeratesJoin(order, env.defs.Keys - todo, [name], {name});
        assert env.defs.Keys - todo + {name} == env.defs.Keys - (todo - {name});
        r := Register(name, fuel);
        todo := todo - {name};
        order := order + [name];
        if !r.Ok? {
          order := Complete(order, todo, fuel);
          return;
        }
      }
      r := Ok(());
    }

    /** Build the pipeline of a server. */
    method ServerFromConfig(fuel: nat, pipeline: seq<string>)
      returns (r: Outcome<seq<Resource>>, ghost order: seq<string>)
      requires Valid() && registry == map[]
      modifies this`registry
      ensures Enumerates(order, env.defs.Keys) && r == Server(env, fuel, order, pipeline)
    {
      if pipeline == [] {
        order := SomeOrder(env.defs.Keys);
        return Err(EmptyPipeline), order;
      }
      var status;
      status, order := LoadResources(fuel);
      if !status.Ok? {
        return if status.Err? then Err(status.error) else Spinning, order;
      }
      LoadedIsDone(env, fuel, order);
      var upstream := [];
      var i := 0;
      ghost var reg := View();
      ContinuesStart(Pipe(env, reg, pipeline));
      assert pipeline[0..] == pipeline;
      while i < |pipeline|
        invariant 0 <= i <= |pipeline|
        invariant View() == reg
        invariant Continues(Pipe(env, reg, pipeline), upstream, Pipe(env, reg, pipeline[i..]))
      {
        var name := pipeline[i];
        assert pipeline[i..][0] == name && pipeline[i..][1..] == pipeline[i + 1..];
        if name !in registry {
          return Err(NotRegistered(name)), order;
        }
        var u := registry[name].unmarshaled;
        assert reg[name] == Done(u);
        var pushed := [];
        if Usable(env, u, AnyRouter) {
        } else if Usable(env, u, AnyFilter) {
          pushed := [u];
        } else {
          return Err(NotAFilter(name)), order;
        }
        ContinuesStep(Pipe(env, reg, pipeline), upstream, pushed,
                      Pipe(env, reg, pipeline[i..]), Pipe(env, reg, pipeline[i + 1..]));
        upstream := upstream + pushed;
        i := i + 1;
      }
      assert pipeline[i..] == [] && upstream + [] == upstream;
      r := Ok(upstream);
    }
  }

  lemma LoadedIsDone(env: Env, fuel: nat, order: seq<string>)
    requires Enumerates(order, env.defs.Keys) && Load(env, map[], fuel, order).Ok?
    ensures AllDone(Load(env, map[], fuel, order).value)
  {
    LoadAgrees(env, map[], fuel, order);
  }

  lemma EnumeratesJoin(a: seq<string>, A: set<string>, b: seq<string>, B: set<string>)
    requires Enumerates(a, A) && Enumerates(b, B) && A !! B
    ensures Enumerates(a + b, A + B)
  {
    var c := a + b;
    forall i, j | 0 <= i < j < |c|
      ensures c[i] != c[j]
    {
      assert c[i] in (if i < |a| then A else B);
      assert c[j] in (if j < |a| then A else B);
    }
  }

  lemma SomeOrder(names: set<string>) returns (order: seq<string>)
    ensures Enumerates(order, names)
    decreases names
  {
    if names == {} {
      order := [];
    } else {
      var n :| n in names;
      var rest := SomeOrder(names - {n});
      order := [n] + rest;
    }
  }

  lemma {:induction false} LoadOneMore(env: Env, reg: Registry, fuel: nat, order: seq<string>, n: string, was: Registry)
    requires forall m :: m in order ==> m in env.defs
    requires n in env.defs && n !in was
    requires Load(env, reg, fuel, order) == Ok(was)
    ensures forall m :: m in order + [n] ==> m in env.defs
    ensures var v := Resolve(env, was[n := Building], fuel, env.defs[n]);
      Load(env, reg, fuel, order + [n]) == if v.Ok? then Ok(was[n := Done(v.value)])
                                           else if v.Err? then Err(v.error) else Spinning
    decreases |order|
  {
    if order == [] {
      assert (order + [n])[1..] == [];
    } else {
      var h := order[0];
      assert (order + [n])[0] == h && (order + [n])[1..] == order[1..] + [n];
      if h in reg {
        LoadOneMore(env, reg, fuel, order[1..], n, was);
      } else {
        var v := Resolve(env, reg[h := Building], fuel, env.defs[h]).value;
        LoadOneMore(env, reg[h := Done(v)], fuel, order[1..], n, was);
      }
    }
  }

  lemma {:induction false} LoadFails(env: Env, reg: Registry, fuel: nat, order: seq<string>, more: seq<string>)
    requires forall m :: m in order ==> m in env.defs
    requires forall m :: m in more ==> m in env.defs
    requires !Load(env, reg, fuel, order).Ok?
    ensures Load(env, reg, fuel, order + more) == Load(env, reg, fuel, order)
    decreases |order|
  {
    var h := order[0];
    assert (order + more)[0] == h && (order + more)[1..] == order[1..] + more;
    if h in reg {
      LoadFails(env, reg, fuel, order[1..], more);
    } else {
      var r := Resolve(env, reg[h := Building], fuel, env.defs[h]);
      if r.Ok? {
        LoadFails(env, reg[h := Done(r.value)], fuel, order[1..], more);
      }
    }
  }
}
