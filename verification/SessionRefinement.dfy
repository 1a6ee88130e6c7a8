/** The pointer-based store refines a machine without pointers: a plain map from cookie name to
    secret and data, and, for each session, the name of the record it works on or, while no
    record is its own, a group of data apart from the map. Masks, writes and logins are
    computed on that machine alone; over every run it gives the very same replies. */
module SessionRefinement {
  import opened CookieNames
  import opened Sessions
  import opened SessionInvariants

  datatype Record = Record(secret: string, data: Data)
  type Store = map<string, Record>

  /** What a session works on. Sessions whose record was deleted share what is left of it. */
  datatype Place = Named(name: string) | Apart(group: nat)

  datatype Plain = Plain(
    config: Config, store: Store, places: seq<Place>, masked: seq<bool>, groups: seq<Data>)
  {
    ghost predicate Wired() {
      && |masked| == |places|
      && forall s :: 0 <= s < |places| ==> PlaceExists(places[s])
    }

    predicate PlaceExists(place: Place) {
      match place
      case Named(n) => n in store
      case Apart(g) => g < |groups|
    }

    function DataOf(s: nat): Data
      requires Wired() && s < |places|
    {
      assert PlaceExists(places[s]);
      match places[s]
      case Named(n) => store[n].data
      case Apart(g) => groups[g]
    }

    function WithData(s: nat, data: Data): (p: Plain)
      requires Wired() && s < |places|
      ensures p.Wired() && p.places == places
    {
      assert PlaceExists(places[s]);
      match places[s]
      case Named(n) => this.(store := store[n := store[n].(data := data)])
      case Apart(g) => this.(groups := groups[g := data])
    }

    /** The session takes over this name, with this record. */
    function Enter(s: nat, n: string, record: Record): (p: Plain)
      requires Wired() && s < |places|
      ensures p.Wired() && |p.places| == |places|
    {
      this.(store := store[n := record], places := places[s := Named(n)])
    }

    /** Delete a record; sessions working on it keep its data as a group of their own. */
    function Forget(n: string): (p: Plain)
      requires Wired()
      ensures p.Wired() && |p.places| == |places|
    {
      if n !in store then this
      else
        var g := |groups|;
        this.(store := store - {n},
              groups := groups + [store[n].data],
              places := seq(|places|, i requires 0 <= i < |places| =>
                              if places[i] == Named(n) then Apart(g) else places[i]))
    }
  }

  function NoRecords(config: Config): Plain {
    Plain(config, map[], [], [], [])
  }

  // ---------- the operations of the plain machine ----------

  datatype PlainProgress = PlainProgress(
    plain: Plain, forwarded: seq<Cookie>, rejected: seq<SetCookie>, needNew: bool)

  function PlainOne(p: PlainProgress, s: nat, c: Cookie): (q: PlainProgress)
    requires p.plain.Wired() && s < |p.plain.places|
    ensures q.plain.Wired() && |q.plain.places| == |p.plain.places|
  {
    var m := p.plain;
    if !Owns(m.config.name, c.name) then
      p.(forwarded := p.forwarded + [c])
    else if c.name in m.store && |c.value| > 0 && c.value == m.store[c.name].secret then
      var record := Record(c.value, m.store[c.name].data + m.DataOf(s));
      p.(plain := m.Enter(s, c.name, record), needNew := false)
    else
      p.(plain := m.Forget(c.name), rejected := p.rejected + [Expiry(c)])
  }

  function PlainLoop(m: Plain, s: nat, cookies: seq<Cookie>): (p: PlainProgress)
    requires m.Wired() && s < |m.places|
    ensures p.plain.Wired() && |p.plain.places| == |m.places|
  {
    if cookies == [] then
      PlainProgress(m, [], [], true)
    else
      PlainOne(PlainLoop(m, s, cookies[..|cookies| - 1]), s, cookies[|cookies| - 1])
  }

  /** What the outside sees of a step. */
  datatype Output =
    | Silent
    | Masked(forwarded: seq<Cookie>, setCookies: seq<SetCookie>, completed: bool)
    | Shown(page: Page)

  datatype PlainReply = PlainReply(plain: Plain, output: Output)

  function PlainMask(m: Plain, s: nat, cookies: seq<Cookie>, draws: seq<NameBytes>, secret: ValueBytes)
    : (r: PlainReply)
    requires m.Wired() && s < |m.places|
    ensures r.plain.Wired()
  {
    var p := PlainLoop(m.(masked := m.masked[s := true]), s, cookies);
    if !p.needNew then
      PlainReply(p.plain, Masked(p.forwarded, p.rejected, true))
    else
      match FreshName(m.config.name, p.plain.store.Keys, draws)
      case None => PlainReply(p.plain, Masked(p.forwarded, p.rejected, false))
      case Some(name) =>
        var c := Cookie(name, Encode(secret));
        PlainReply(p.plain.Enter(s, name, Record(c.value, p.plain.DataOf(s))),
                   Masked(p.forwarded, p.rejected + [Issue(m.config, c)], true))
  }

  function PlainLogin(m: Plain, s: nat, id: string, form: Form, answer: Answer, token: TokenBytes): (r: PlainReply)
    requires m.Wired() && s < |m.places|
    ensures r.plain.Wired()
  {
    var data := m.DataOf(s);
    match Judge(data, id, form, answer)
    case AlreadyIn => PlainReply(m, Shown(Downstream))
    case Corrupt => PlainReply(m, Shown(ServerError))
    case Crash => PlainReply(m, Shown(Panic))
    case Unanswered(_) => PlainReply(m, Shown(ServerError))
    case Granted(_) => PlainReply(m.WithData(s, data[AuthKey(id) := Flag(true)]), Shown(Downstream))
    case Refused(message, _) =>
      PlainReply(m.WithData(s, data[XsrfKey(id) := Text(Encode(token))]), Shown(LoginPage(message, Encode(token))))
  }

  predicate PlainAllowed(m: Plain, e: Event)
    requires m.Wired()
  {
    match e
    case Begin => true
    case MaskCookies(s, _, _, _) => s < |m.places| && !m.masked[s]
    case SetValue(s, key, _) => s < |m.places| && !Reserved(key)
    case TryLogin(s, _, _, _, _) => s < |m.places|
  }

  function PlainStep(m: Plain, e: Event): (r: PlainReply)
    requires m.Wired() && PlainAllowed(m, e)
    ensures r.plain.Wired()
  {
    match e
    case Begin =>
      PlainReply(m.(places := m.places + [Apart(|m.groups|)], masked := m.masked + [false],
                    groups := m.groups + [map[]]), Silent)
    case MaskCookies(s, cookies, draws, secret) => PlainMask(m, s, cookies, draws, secret)
    case SetValue(s, key, value) => PlainReply(m.WithData(s, m.DataOf(s)[key := value]), Silent)
    case TryLogin(s, id, form, answer, token) => PlainLogin(m, s, id, form, answer, token)
  }

  // ---------- the store without its sessions ----------

  /** Which core each session works on, which core each name leads to, and the cores. */
  datatype Wiring = Wiring(attached: seq<nat>, leads: map<string, nat>, cores: seq<CoreState>)
  {
    /** No two names lead to one core. */
    ghost predicate Valid() {
      && (forall s :: 0 <= s < |attached| ==> attached[s] < |cores|)
      && (forall n :: n in leads ==> leads[n] < |cores|)
      && (forall a, b :: a in leads && b in leads && leads[a] == leads[b] ==> a == b)
    }
  }

  function CoreOf(w: World, n: string): nat
    requires w.Wired() && n in w.table
  {
    w.sessions[w.table[n]].core
  }

  function WiringOf(w: World): Wiring
    requires w.Wired()
  {
    Wiring(seq(|w.sessions|, s requires 0 <= s < |w.sessions| => w.sessions[s].core),
           map n | n in w.table :: CoreOf(w, n),
           w.cores)
  }

  lemma WiringIsValid(w: World)
    requires Inv(w)
    ensures WiringOf(w).Valid()
  {
    forall a, b | a in w.table && b in w.table && CoreOf(w, a) == CoreOf(w, b)
      ensures a == b
    {
      if a != b {
        NamesNeverShareCores(w, a, b);
      }
    }
  }

  // ---------- the relation ----------

  ghost predicate SameRecords(store: Store, k: Wiring) {
    && store.Keys == k.leads.Keys
    && forall n :: n in k.leads ==>
         k.leads[n] < |k.cores| && store[n] == Record(k.cores[k.leads[n]].cvalue, k.cores[k.leads[n]].data)
  }

  ghost predicate Holds(k: Wiring, s: nat, n: string)
    requires s < |k.attached|
  {
    n in k.leads && k.leads[n] == k.attached[s]
  }

  /** A session works on a named record exactly when the name leads to its core. */
  ghost predicate SameHolders(places: seq<Place>, k: Wiring) {
    && |places| == |k.attached|
    && forall s, n :: 0 <= s < |places| ==> (places[s] == Named(n) <==> Holds(k, s, n))
  }

  ghost predicate SameGroups(places: seq<Place>, groups: seq<Data>, k: Wiring) {
    && |places| == |k.attached|
    && forall s :: 0 <= s < |places| && places[s].Apart? ==>
         && places[s].group < |groups|
         && k.attached[s] < |k.cores|
         && groups[places[s].group] == k.cores[k.attached[s]].data
  }

  /** Two sessions have the same place exactly when they share a core. */
  ghost predicate SameSharing(places: seq<Place>, attached: seq<nat>) {
    && |places| == |attached|
    && forall s, t :: 0 <= s < |places| && 0 <= t < |places| ==>
         (places[s] == places[t] <==> attached[s] == attached[t])
  }

  ghost predicate Mirrors(m: Plain, k: Wiring) {
    && m.Wired() && k.Valid()
    && SameRecords(m.store, k)
    && SameHolders(m.places, k)
    && SameGroups(m.places, m.groups, k)
    && SameSharing(m.places, k.attached)
  }

  ghost predicate Simulates(m: Plain, w: World) {
    && w.Wired()
    && Mirrors(m, WiringOf(w))
    && m.config == w.config
    && forall s :: 0 <= s < |w.sessions| ==> (m.masked[s] <==> w.sessions[s].presented.Some?)
  }

  lemma SameData(m: Plain, k: Wiring, s: nat)
    requires Mirrors(m, k) && s < |m.places|
    ensures m.DataOf(s) == k.cores[k.attached[s]].data
  {
    if m.places[s].Named? {
      assert Holds(k, s, m.places[s].name);
    }
  }

  // ---------- writes ----------

  function Written(k: Wiring, s: nat, data: Data): Wiring
    requires k.Valid() && s < |k.attached|
  {
    var c := k.attached[s];
    k.(cores := k.cores[c := k.cores[c].(data := data)])
  }

  lemma WriteNamed(m: Plain, k: Wiring, s: nat, data: Data)
    requires Mirrors(m, k) && s < |m.places| && m.places[s].Named?
    ensures Mirrors(m.WithData(s, data), Written(k, s, data))
  {
    var v := Written(k, s, data);
    WriteRecord(m, k, s, data);
    assert forall t, n :: 0 <= t < |m.places| ==> Holds(v, t, n) == Holds(k, t, n);
    assert forall t :: 0 <= t < |m.places| && m.places[t].Apart? ==> k.attached[t] != k.attached[s];
  }

  lemma WriteRecord(m: Plain, k: Wiring, s: nat, data: Data)
    requires Mirrors(m, k) && s < |m.places| && m.places[s].Named?
    ensures SameRecords(m.WithData(s, data).store, Written(k, s, data))
  {
    var name := m.places[s].name;
    assert Holds(k, s, name);
    assert forall n :: n in k.leads && n != name ==> k.leads[n] != k.attached[s];
  }

  lemma WriteApart(m: Plain, k: Wiring, s: nat, data: Data)
    requires Mirrors(m, k) && s < |m.places| && m.places[s].Apart?
    ensures Mirrors(m.WithData(s, data), Written(k, s, data))
  {
    var v := Written(k, s, data);
    assert forall n :: n in k.leads ==> !Holds(k, s, n);
    assert forall t, n :: 0 <= t < |m.places| ==> Holds(v, t, n) == Holds(k, t, n);
  }

  /** The world after new data were written to the session's core. */
  ghost predicate Rewrites(w: World, s: nat, data: Data, v: World)
    requires w.Wired() && s < |w.sessions|
  {
    var c := w.sessions[s].core;
    && v.Wired() && v.config == w.config && v.sessions == w.sessions && v.table == w.table
    && v.cores == w.cores[c := w.cores[c].(data := data)]
  }

  lemma RewriteWiring(w: World, s: nat, data: Data, v: World)
    requires w.Wired() && WiringOf(w).Valid() && s < |w.sessions| && Rewrites(w, s, data, v)
    ensures WiringOf(v) == Written(WiringOf(w), s, data)
  {}

  lemma RewriteSimulates(w: World, m: Plain, s: nat, data: Data, v: World)
    requires Simulates(m, w) && s < |w.sessions| && Rewrites(w, s, data, v)
    ensures Simulates(m.WithData(s, data), v)
  {
    var k := WiringOf(w);
    RewriteWiring(w, s, data, v);
    if m.places[s].Named? {
      WriteNamed(m, k, s, data);
    } else {
      WriteApart(m, k, s, data);
    }
  }

  lemma LogIsInvisible(w: World, m: Plain, v: World)
    requires Simulates(m, w) && v == w.(log := v.log)
    ensures Simulates(m, v)
  {
    assert WiringOf(v) == WiringOf(w);
  }

  lemma LoginSimulates(w: World, m: Plain, s: nat, id: string, form: Form, answer: Answer, token: TokenBytes)
    requires Simulates(m, w) && s < |w.sessions|
    ensures var r, q := Login(w, s, id, form, answer, token), PlainLogin(m, s, id, form, answer, token);
      Simulates(q.plain, r.world) && q.output == Shown(r.page)
  {
    SameData(m, WiringOf(w), s);
    var data := w.DataOf(s);
    var v := Login(w, s, id, form, answer, token).world;
    match Judge(data, id, form, answer)
    case AlreadyIn =>
    case Corrupt =>
    case Crash =>
    case Unanswered(_) => LogIsInvisible(w, m, v);
    case Granted(_) => RewriteSimulates(w, m, s, data[AuthKey(id) := Flag(true)], v);
    case Refused(_, _) => RewriteSimulates(w, m, s, data[XsrfKey(id) := Text(Encode(token))], v);
  }

  // ---------- new sessions ----------

  function WithNewcomer(k: Wiring): Wiring {
    Wiring(k.attached + [|k.cores|], k.leads, k.cores + [CoreState("", map[])])
  }

  lemma BeginMirrors(m: Plain, k: Wiring)
    requires Mirrors(m, k)
    ensures Mirrors(PlainStep(m, Begin).plain, WithNewcomer(k))
  {
    BeginPlaces(m, k);
    BeginGroups(m, k);
  }

  lemma BeginPlaces(m: Plain, k: Wiring)
    requires Mirrors(m, k)
    ensures SameHolders(m.places + [Apart(|m.groups|)], WithNewcomer(k))
  {
    var v := WithNewcomer(k);
    assert forall t, n :: 0 <= t < |m.places| ==> Holds(v, t, n) == Holds(k, t, n);
  }

  lemma BeginGroups(m: Plain, k: Wiring)
    requires Mirrors(m, k)
    ensures SameGroups(m.places + [Apart(|m.groups|)], m.groups + [map[]], WithNewcomer(k))
    ensures SameSharing(m.places + [Apart(|m.groups|)], WithNewcomer(k).attached)
  {
    assert forall t :: 0 <= t < |m.places| ==> m.PlaceExists(m.places[t]);
  }

  lemma BeginWiring(w: World)
    requires w.Wired()
    ensures WiringOf(NewSession(w)) == WithNewcomer(WiringOf(w))
  {
    var v := NewSession(w);
    assert forall n :: n in w.table ==> CoreOf(v, n) == CoreOf(w, n);
  }

  lemma BeginSimulates(w: World, m: Plain)
    requires Simulates(m, w)
    ensures Simulates(PlainStep(m, Begin).plain, NewSession(w))
  {
    BeginMirrors(m, WiringOf(w));
    BeginWiring(w);
  }

  lemma PresentSimulates(w: World, m: Plain, s: nat, cookies: seq<Cookie>)
    requires Simulates(m, w) && s < |w.sessions|
    ensures Simulates(m.(masked := m.masked[s := true]), Present(w, s, cookies))
  {
    assert WiringOf(Present(w, s, cookies)) == WiringOf(w);
  }

  // ---------- masks ----------

  /** No name leads to the session. */
  ghost predicate Unnamed(w: World, s: nat) {
    forall n :: n in w.table ==> w.table[n] != s
  }

  lemma InvUnnamed(w: World, s: nat)
    requires Inv(w) && s < |w.sessions| && w.sessions[s].issued.None?
    ensures Unnamed(w, s)
  {
    forall n | n in w.table
      ensures w.table[n] != s
    {
      assert EntryOk(w, n);
    }
  }

  function Adopted(k: Wiring, s: nat, n: string): Wiring
    requires k.Valid() && s < |k.attached| && n in k.leads
  {
    var c := k.leads[n];
    k.(attached := k.attached[s := c],
       cores := k.cores[c := k.cores[c].(data := k.cores[c].data + k.cores[k.attached[s]].data)])
  }

  function Combined(k: Wiring, s: nat, n: string): Record
    requires k.Valid() && s < |k.attached| && n in k.leads
  {
    var c := k.leads[n];
    Record(k.cores[c].cvalue, k.cores[c].data + k.cores[k.attached[s]].data)
  }

  lemma AdoptPlaces(m: Plain, k: Wiring, s: nat, n: string)
    requires Mirrors(m, k) && s < |m.places| && n in k.leads
    ensures SameHolders(m.places[s := Named(n)], Adopted(k, s, n))
    ensures SameSharing(m.places[s := Named(n)], Adopted(k, s, n).attached)
  {
    var v := Adopted(k, s, n);
    assert forall t, i :: 0 <= t < |m.places| && t != s ==> Holds(v, t, i) == Holds(k, t, i);
    assert forall i :: Holds(v, s, i) <==> i == n;
    assert forall t :: 0 <= t < |m.places| ==> (m.places[t] == Named(n) <==> Holds(k, t, n));
  }

  lemma AdoptMirrors(m: Plain, k: Wiring, s: nat, n: string)
    requires Mirrors(m, k) && s < |m.places| && n in k.leads
    ensures Mirrors(m.Enter(s, n, Combined(k, s, n)), Adopted(k, s, n))
  {
    AdoptPlaces(m, k, s, n);
    AdoptRecords(m, k, s, n);
    AdoptGroups(m, k, s, n);
  }

  lemma AdoptRecords(m: Plain, k: Wiring, s: nat, n: string)
    requires k.Valid() && SameRecords(m.store, k) && s < |k.attached| && n in k.leads
    ensures Adopted(k, s, n).Valid()
    ensures SameRecords(m.store[n := Combined(k, s, n)], Adopted(k, s, n))
  {}

  lemma AdoptGroups(m: Plain, k: Wiring, s: nat, n: string)
    requires Mirrors(m, k) && s < |m.places| && n in k.leads
    ensures SameGroups(m.places[s := Named(n)], m.groups, Adopted(k, s, n))
  {
    assert forall t :: 0 <= t < |m.places| && m.places[t].Apart? ==> !Holds(k, t, n);
  }

  lemma MergeWiring(w: World, s: nat, n: string)
    requires w.Wired() && WiringOf(w).Valid() && s < |w.sessions| && Unnamed(w, s) && n in w.table
    ensures WiringOf(w.Merge(s, CoreOf(w, n))) == Adopted(WiringOf(w), s, n)
  {
    var v := w.Merge(s, CoreOf(w, n));
    assert forall i :: i in w.table ==> CoreOf(v, i) == CoreOf(w, i);
  }

  lemma ForgetMirrors(m: Plain, k: Wiring, n: string)
    requires Mirrors(m, k)
    ensures Mirrors(m.Forget(n), k.(leads := k.leads - {n}))
  {
    var v := k.(leads := k.leads - {n});
    if n in k.leads {
      ForgetPlaces(m, k, n);
      assert forall t :: 0 <= t < |m.places| ==> (m.places[t] == Named(n) <==> Holds(k, t, n));
    } else {
      assert v == k;
    }
  }

  lemma ForgetPlaces(m: Plain, k: Wiring, n: string)
    requires Mirrors(m, k) && n in k.leads
    ensures SameHolders(m.Forget(n).places, k.(leads := k.leads - {n}))
    ensures SameSharing(m.Forget(n).places, k.attached)
  {
    var v := k.(leads := k.leads - {n});
    assert forall t, i :: 0 <= t < |m.places| ==> Holds(v, t, i) == (Holds(k, t, i) && i != n);
    assert forall t :: 0 <= t < |m.places| ==> m.PlaceExists(m.places[t]);
  }

  lemma ForgetWiring(w: World, n: string)
    requires w.Wired()
    ensures WiringOf(w.(table := w.table - {n})) == WiringOf(w).(leads := WiringOf(w).leads - {n})
  {
    var v := w.(table := w.table - {n});
    assert forall i :: i in v.table ==> CoreOf(v, i) == CoreOf(w, i);
  }

  lemma AdoptSimulates(w: World, m: Plain, s: nat, n: string)
    requires Simulates(m, w) && s < |w.sessions| && Unnamed(w, s) && n in w.table
    ensures Simulates(m.Enter(s, n, Combined(WiringOf(w), s, n)), w.Merge(s, CoreOf(w, n)))
  {
    AdoptMirrors(m, WiringOf(w), s, n);
    MergeWiring(w, s, n);
  }

  lemma ForgetSimulates(w: World, m: Plain, n: string)
    requires Simulates(m, w)
    ensures Simulates(m.Forget(n), w.(table := w.table - {n}))
  {
    ForgetMirrors(m, WiringOf(w), n);
    ForgetWiring(w, n);
  }

  ghost predicate SameProgress(p: Progress, q: PlainProgress) {
    && Simulates(q.plain, p.world)
    && q.forwarded == p.forwarded && q.rejected == p.rejected && q.needNew == p.needNew
  }

  lemma AcceptsAlike(w: World, m: Plain, c: Cookie)
    requires Simulates(m, w)
    ensures c.name in m.store <==> c.name in w.table
    ensures c.name in w.table ==> m.store[c.name].secret == w.cores[CoreOf(w, c.name)].cvalue
  {
    assert c.name in w.table ==> WiringOf(w).leads[c.name] == CoreOf(w, c.name);
  }

  lemma OneSimulates(p: Progress, s: nat, q: PlainProgress, c: Cookie)
    requires p.world.Wired() && s < |p.world.sessions| && Unnamed(p.world, s)
    requires SameProgress(p, q)
    ensures SameProgress(MaskOne(p, s, c), PlainOne(q, s, c))
  {
    var w, k := p.world, WiringOf(p.world);
    AcceptsAlike(w, q.plain, c);
    SameData(q.plain, k, s);
    if Owns(w.config.name, c.name) {
      if w.Accepts(c) {
        AdoptSimulates(w, q.plain, s, c.name);
      } else {
        ForgetSimulates(w, q.plain, c.name);
      }
    }
  }

  lemma {:induction false} LoopSimulates(w: World, m: Plain, s: nat, cookies: seq<Cookie>)
    requires Inv(w) && Private(w, s) && Simulates(m, w)
    requires w.sessions[s].presented.Some? && (forall c :: c in cookies ==> c in w.sessions[s].presented.value)
    ensures SameProgress(MaskLoop(w, s, cookies), PlainLoop(m, s, cookies))
  {
    if cookies != [] {
      var front, last := cookies[..|cookies| - 1], cookies[|cookies| - 1];
      LoopSimulates(w, m, s, front);
      MaskLoopInv(w, s, front);
      var p := MaskLoop(w, s, front);
      InvUnnamed(p.world, s);
      OneSimulates(p, s, PlainLoop(m, s, front), last);
    }
  }

  function Enrolled(k: Wiring, s: nat, c: Cookie): Wiring
    requires k.Valid() && s < |k.attached|
  {
    var i := k.attached[s];
    k.(leads := k.leads[c.name := i], cores := k.cores[i := k.cores[i].(cvalue := c.value)])
  }

  /** Nobody else works on the session's core, and no name leads to it. */
  ghost predicate Alone(k: Wiring, s: nat)
    requires s < |k.attached|
  {
    && (forall t :: 0 <= t < |k.attached| && t != s ==> k.attached[t] != k.attached[s])
    && (forall n :: n in k.leads ==> k.leads[n] != k.attached[s])
  }

  lemma InvAlone(w: World, s: nat)
    requires Inv(w) && Private(w, s)
    ensures Alone(WiringOf(w), s)
  {
    forall t | 0 <= t < |w.sessions| && t != s
      ensures w.sessions[t].core != s
    {
      assert SessionOk(w, t);
    }
    InvUnnamed(w, s);
    forall n | n in w.table
      ensures CoreOf(w, n) != s
    {
      EntryLeadsToOwnCore(w, n);
    }
  }

  lemma EnrolMirrors(m: Plain, k: Wiring, s: nat, c: Cookie)
    requires Mirrors(m, k) && s < |m.places| && Alone(k, s) && c.name !in k.leads
    ensures Mirrors(m.Enter(s, c.name, Record(c.value, k.cores[k.attached[s]].data)), Enrolled(k, s, c))
  {
    EnrolPlaces(m, k, s, c);
  }

  lemma EnrolPlaces(m: Plain, k: Wiring, s: nat, c: Cookie)
    requires Mirrors(m, k) && s < |m.places| && Alone(k, s) && c.name !in k.leads
    ensures SameHolders(m.places[s := Named(c.name)], Enrolled(k, s, c))
    ensures SameSharing(m.places[s := Named(c.name)], k.attached)
  {
    var v := Enrolled(k, s, c);
    assert forall t, n :: 0 <= t < |m.places| && t != s ==> Holds(v, t, n) == Holds(k, t, n);
    assert forall n :: Holds(v, s, n) <==> n == c.name;
    assert forall t :: 0 <= t < |m.places| ==> !Holds(k, t, c.name);
  }

  lemma RegisterAttached(w: World, s: nat, c: Cookie)
    requires w.Wired() && s < |w.sessions|
    ensures WiringOf(Register(w, s, c)).attached == WiringOf(w).attached
  {
    var v := Register(w, s, c);
    assert forall t :: 0 <= t < |w.sessions| ==> v.sessions[t].core == w.sessions[t].core;
  }

  lemma RegisterLeads(w: World, s: nat, c: Cookie)
    requires w.Wired() && s < |w.sessions| && Unnamed(w, s)
    ensures WiringOf(Register(w, s, c)).leads == WiringOf(w).leads[c.name := w.sessions[s].core]
  {
    var v := Register(w, s, c);
    assert forall n :: n in w.table && n != c.name ==> CoreOf(v, n) == CoreOf(w, n);
    assert CoreOf(v, c.name) == w.sessions[s].core;
  }

  lemma RegisterWiring(w: World, s: nat, c: Cookie)
    requires w.Wired() && WiringOf(w).Valid() && s < |w.sessions| && Unnamed(w, s)
    ensures WiringOf(Register(w, s, c)) == Enrolled(WiringOf(w), s, c)
  {
    RegisterAttached(w, s, c);
    RegisterLeads(w, s, c);
  }

  lemma RegisterSimulates(w: World, m: Plain, s: nat, c: Cookie)
    requires Simulates(m, w) && s < |w.sessions| && Unnamed(w, s) && Alone(WiringOf(w), s) && c.name !in w.table
    ensures Simulates(m.Enter(s, c.name, Record(c.value, w.DataOf(s))), Register(w, s, c))
  {
    EnrolMirrors(m, WiringOf(w), s, c);
    RegisterWiring(w, s, c);
  }

  /** A mask request on the heap is a mask request on the plain machine. */
  lemma MaskRefinesPlainMap(w: World, m: Plain, s: nat, cookies: seq<Cookie>, draws: seq<NameBytes>, secret: ValueBytes)
    requires Inv(w) && Simulates(m, w) && s < |w.sessions| && w.sessions[s].presented.None?
    ensures var r, q := Mask(w, s, cookies, draws, secret), PlainMask(m, s, cookies, draws, secret);
      Simulates(q.plain, r.world) && q.output == Masked(r.forwarded, r.setCookies, r.completed)
  {
    var w1, m1 := Present(w, s, cookies), m.(masked := m.masked[s := true]);
    PresentInv(w, s, cookies);
    PresentSimulates(w, m, s, cookies);
    LoopSimulates(w1, m1, s, cookies);
    MaskLoopInv(w1, s, cookies);
    var p, q := MaskLoop(w1, s, cookies), PlainLoop(m1, s, cookies);
    assert q.plain.store.Keys == p.world.table.Keys;
    FreshNameIsFirstFree(w.config.name, p.world.table.Keys, draws);
    var name := FreshName(w.config.name, p.world.table.Keys, draws);
    if p.needNew && name.Some? {
      SameData(q.plain, WiringOf(p.world), s);
      InvUnnamed(p.world, s);
      InvAlone(p.world, s);
      RegisterSimulates(p.world, q.plain, s, Cookie(name.value, Encode(secret)));
    }
  }

  // ---------- runs ----------

  function OutputOf(w: World, e: Event): Output
    requires w.Wired() && Allowed(w, e)
  {
    match e
    case Begin => Silent
    case MaskCookies(s, cookies, draws, secret) =>
      var r := Mask(w, s, cookies, draws, secret);
      Masked(r.forwarded, r.setCookies, r.completed)
    case SetValue(_, _, _) => Silent
    case TryLogin(s, id, form, answer, token) => Shown(Login(w, s, id, form, answer, token).page)
  }

  lemma StepRefinesPlainMap(w: World, m: Plain, e: Event)
    requires Inv(w) && Simulates(m, w)
    ensures Allowed(w, e) <==> PlainAllowed(m, e)
    ensures Allowed(w, e) ==>
              && Simulates(PlainStep(m, e).plain, Step(w, e))
              && PlainStep(m, e).output == OutputOf(w, e)
  {
    if Allowed(w, e) {
      match e
      case Begin => BeginSimulates(w, m);
      case MaskCookies(s, cookies, draws, secret) => MaskRefinesPlainMap(w, m, s, cookies, draws, secret);
      case SetValue(s, key, value) =>
        SameData(m, WiringOf(w), s);
        RewriteSimulates(w, m, s, w.DataOf(s)[key := value], Step(w, e));
      case TryLogin(s, id, form, answer, token) => LoginSimulates(w, m, s, id, form, answer, token);
    }
  }

  predicate PlainPossible(m: Plain, es: seq<Event>)
    requires m.Wired()
    decreases |es|
  {
    es == [] || (PlainAllowed(m, es[0]) && PlainPossible(PlainStep(m, es[0]).plain, es[1..]))
  }

  function PlainRun(m: Plain, es: seq<Event>): (m': Plain)
    requires m.Wired() && PlainPossible(m, es)
    ensures m'.Wired()
    decreases |es|
  {
    if es == [] then m else PlainRun(PlainStep(m, es[0]).plain, es[1..])
  }

  /** The replies of a run, one for each event. */
  function Replies(w: World, es: seq<Event>): seq<Output>
    requires w.Wired() && Possible(w, es)
    decreases |es|
  {
    if es == [] then [] else [OutputOf(w, es[0])] + Replies(Step(w, es[0]), es[1..])
  }

  function PlainReplies(m: Plain, es: seq<Event>): seq<Output>
    requires m.Wired() && PlainPossible(m, es)
    decreases |es|
  {
    if es == [] then [] else [PlainStep(m, es[0]).output] + PlainReplies(PlainStep(m, es[0]).plain, es[1..])
  }

  lemma {:induction false} RunRefinesPlainMap(w: World, m: Plain, es: seq<Event>)
    requires Inv(w) && Simulates(m, w)
    ensures Possible(w, es) <==> PlainPossible(m, es)
    ensures Possible(w, es) ==>
              Simulates(PlainRun(m, es), Run(w, es)) && PlainReplies(m, es) == Replies(w, es)
    decreases |es|
  {
    if es != [] {
      StepRefinesPlainMap(w, m, es[0]);
      if Allowed(w, es[0]) {
        StepInv(w, es[0]);
        RunRefinesPlainMap(Step(w, es[0]), PlainStep(m, es[0]).plain, es[1..]);
      }
    }
  }

  /** Refinement: from an empty store, whatever requests are in flight, the same sequences of
      events are possible, they get the same replies, and they leave the same records. */
  lemma StoreRefinesPlainMap(config: Config, es: seq<Event>)
    ensures Possible(Empty(config), es) <==> PlainPossible(NoRecords(config), es)
    ensures Possible(Empty(config), es) ==>
              && PlainReplies(NoRecords(config), es) == Replies(Empty(config), es)
              && SameRecords(PlainRun(NoRecords(config), es).store, WiringOf(Run(Empty(config), es)))
  {
    EmptyInv(config);
    WiringIsValid(Empty(config));
    assert Simulates(NoRecords(config), Empty(config));
    RunRefinesPlainMap(Empty(config), NoRecords(config), es);
  }
}
