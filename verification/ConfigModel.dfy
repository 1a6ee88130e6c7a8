/** The configuration resolver: definitions, the registry, and memoised resolution. */
module ConfigModel {
  import opened Wrappers

  /** What a built resource can be used as. */
  datatype Kind = AnyTrigger | AnyFilter | AnyRouter | AnySessionHandler | AnyPasswordChecker

  /** A child of a definition, with the kind its parent insists on. */
  datatype Slot = Slot(kind: Kind, def: Def)

  datatype Def =
    | Null
    | Malformed
    | Ref(name: string)
    | Node(ty: string, slots: seq<Slot>)

  datatype Resource = Nil | Inst(ty: string, parts: seq<Resource>)

  datatype Registration = Building | Done(value: Resource)
  type Registry = map<string, Registration>

  /** `types` says, for each registered type, what its instances can be used as. */
  datatype Env = Env(defs: map<string, Def>, types: map<string, set<Kind>>)

  datatype Error =
    | Undecodable
    | CyclicDependency(name: string)
    | NoSuchResource(name: string)
    | NoSuchType(ty: string)
    | UnexpectedResourceType
    | EmptyPipeline
    | NotRegistered(name: string)
    | NotAFilter(name: string)

  /** Spinning: the inlining of references went deeper than the fuel given. */
  datatype Outcome<+T> = Ok(value: T) | Err(error: Error) | Spinning

  predicate Usable(env: Env, r: Resource, kind: Kind) {
    r.Inst? && r.ty in env.types && kind in env.types[r.ty]
  }

  predicate AllUsable(env: Env, parts: seq<Resource>, slots: seq<Slot>) {
    |parts| == |slots| && forall i :: 0 <= i < |slots| ==> Usable(env, parts[i], slots[i].kind)
  }

  /** Build one definition. A registered name is looked up; an unregistered one is built in
      place, without registering it. */
  function Resolve(env: Env, reg: Registry, fuel: nat, d: Def): Outcome<Resource>
    decreases fuel, d, 1
  {
    match d
    case Null => Ok(Nil)
    case Malformed => Err(Undecodable)
    case Ref(n) =>
      if n in reg then
        if reg[n].Done? then Ok(reg[n].value) else Err(CyclicDependency(n))
      else if n !in env.defs then Err(NoSuchResource(n))
      else if fuel == 0 then Spinning
      else Resolve(env, reg, fuel - 1, env.defs[n])
    case Node(ty, slots) =>
      if ty !in env.types then Err(NoSuchType(ty))
      else
        match ResolveAll(env, reg, fuel, slots)
        case Err(e) => Err(e)
        case Spinning => Spinning
        case Ok(parts) =>
          if AllUsable(env, parts, slots) then Ok(Inst(ty, parts)) else Err(UnexpectedResourceType)
  }

  function ResolveAll(env: Env, reg: Registry, fuel: nat, slots: seq<Slot>): (r: Outcome<seq<Resource>>)
    ensures r.Ok? ==> |r.value| == |slots|
    decreases fuel, slots, 0
  {
    if slots == [] then Ok([])
    else
      assert slots[0].def < slots[0];
      match Resolve(env, reg, fuel, slots[0].def)
      case Err(e) => Err(e)
      case Spinning => Spinning
      case Ok(first) =>
        match ResolveAll(env, reg, fuel, slots[1..])
        case Err(e) => Err(e)
        case Spinning => Spinning
        case Ok(rest) => Ok([first] + rest)
  }

  /** The loop over the named resources, in the order the map happens to be iterated. */
  function Load(env: Env, reg: Registry, fuel: nat, order: seq<string>): Outcome<Registry>
    requires forall n :: n in order ==> n in env.defs
    decreases |order|
  {
    if order == [] then Ok(reg)
    else
      var n := order[0];
      if n in reg then Load(env, reg, fuel, order[1..])
      else
        match Resolve(env, reg[n := Building], fuel, env.defs[n])
        case Err(e) => Err(e)
        case Spinning => Spinning
        case Ok(v) => Load(env, reg[n := Done(v)], fuel, order[1..])
  }

  /** The pipeline: filters are pushed in order, routers are accepted but not pushed. */
  function Pipe(env: Env, reg: Registry, names: seq<string>): Outcome<seq<Resource>> {
    if names == [] then Ok([])
    else
      var n := names[0];
      if n !in reg then Err(NotRegistered(n))
      else
        var u := if reg[n].Done? then reg[n].value else Nil;
        if !Usable(env, u, AnyRouter) && !Usable(env, u, AnyFilter) then Err(NotAFilter(n))
        else
          match Pipe(env, reg, names[1..])
          case Err(e) => Err(e)
          case Spinning => Spinning
          case Ok(rest) => Ok((if Usable(env, u, AnyRouter) then [] else [u]) + rest)
  }

  function Server(env: Env, fuel: nat, order: seq<string>, pipeline: seq<string>): Outcome<seq<Resource>>
    requires forall n :: n in order ==> n in env.defs
  {
    if pipeline == [] then Err(EmptyPipeline)
    else
      match Load(env, map[], fuel, order)
      case Err(e) => Err(e)
      case Spinning => Spinning
      case Ok(reg) => Pipe(env, reg, pipeline)
  }

  /** Every name once, in some order. */
  ghost predicate Enumerates(order: seq<string>, names: set<string>) {
    && (forall n :: n in order <==> n in names)
    && (forall i, j :: 0 <= i < j < |order| ==> order[i] != order[j])
  }

  /** Full expansion: no registry, no sharing, no order; None where it cannot be done
      within the given depth of references. */
  function Expand(env: Env, depth: nat, d: Def): Option<Resource>
    decreases depth, d, 1
  {
    match d
    case Null => Some(Nil)
    case Malformed => None
    case Ref(n) => if n !in env.defs || depth == 0 then None else Expand(env, depth - 1, env.defs[n])
    case Node(ty, slots) =>
      var parts := ExpandAll(env, depth, slots);
      if ty in env.types && parts.Some? && AllUsable(env, parts.value, slots)
      then Some(Inst(ty, parts.value)) else None
  }

  function ExpandAll(env: Env, depth: nat, slots: seq<Slot>): (r: Option<seq<Resource>>)
    ensures r.Some? ==> |r.value| == |slots|
    decreases depth, slots, 0
  {
    if slots == [] then Some([])
    else
      assert slots[0].def < slots[0];
      var first := Expand(env, depth, slots[0].def);
      var rest := ExpandAll(env, depth, slots[1..]);
      if first.Some? && rest.Some? then Some([first.value] + rest.value) else None
  }

  /** What the definition stands for, when it stands for anything. */
  ghost predicate Means(env: Env, d: Def, v: Resource) {
    exists depth: nat :: Expand(env, depth, d) == Some(v)
  }
}
