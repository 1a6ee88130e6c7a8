/** What every step of every run keeps. */
module SessionInvariants {
  import opened CookieNames
  import opened Sessions

  /** The session's own core has never been registered and nothing points at it but itself. */
  ghost predicate Private(w: World, s: nat) {
    s < |w.sessions| && w.sessions[s].core == s && w.sessions[s].issued.None?
  }

  ghost predicate SessionOk(w: World, s: nat)
    requires w.Wired() && s < |w.sessions|
  {
    var x := w.sessions[s];
    && (x.presented.None? ==> Private(w, s))
    && (x.issued.Some? ==> x.core == s && x.issued.value.value == w.cores[s].cvalue && |w.cores[s].cvalue| > 0)
    && (x.core != s ==>
          && w.sessions[x.core].issued.Some?
          && x.presented.Some?
          && w.sessions[x.core].issued.value in x.presented.value)
  }

  /** A table key names the cookie that was issued for exactly the session it leads to. */
  ghost predicate EntryOk(w: World, n: string)
    requires w.Wired() && n in w.table
  {
    && w.sessions[w.table[n]].issued.Some?
    && w.sessions[w.table[n]].issued.value.name == n
    && Owns(w.config.name, n)
  }

  ghost predicate Inv(w: World) {
    && w.Wired()
    && (forall s :: 0 <= s < |w.sessions| ==> SessionOk(w, s))
    && (forall n :: n in w.table ==> EntryOk(w, n))
  }

  lemma EmptyInv(config: Config)
    ensures Inv(Empty(config))
  {}

  lemma MaskOneInv(p: Progress, s: nat, c: Cookie)
    requires Inv(p.world) && s < |p.world.sessions|
    requires p.world.sessions[s].issued.None?
    requires p.world.sessions[s].presented.Some? && c in p.world.sessions[s].presented.value
    requires p.needNew ==> Private(p.world, s)
    ensures var q := MaskOne(p, s, c);
      && Inv(q.world)
      && q.world.config == p.world.config
      && q.world.sessions[s].issued.None?
      && q.world.sessions[s].presented == p.world.sessions[s].presented
      && (q.needNew ==> Private(q.world, s))
  {
    var w, q := p.world, MaskOne(p, s, c);
    if Owns(w.config.name, c.name) && w.Accepts(c) {
      assert EntryOk(w, c.name);
      var t := w.table[c.name];
      assert SessionOk(w, t);
      assert w.sessions[t].issued.value == c;
      forall i | 0 <= i < |q.world.sessions|
        ensures SessionOk(q.world, i)
      {
        assert SessionOk(w, i);
      }
      forall n | n in q.world.table
        ensures EntryOk(q.world, n)
      {
        assert EntryOk(w, n);
      }
    } else {
      forall i | 0 <= i < |q.world.sessions|
        ensures SessionOk(q.world, i)
      {
        assert SessionOk(w, i);
      }
      forall n | n in q.world.table
        ensures EntryOk(q.world, n)
      {
        assert EntryOk(w, n);
      }
    }
  }

  lemma {:induction false} MaskLoopInv(w: World, s: nat, cookies: seq<Cookie>)
    requires Inv(w) && Private(w, s)
    requires w.sessions[s].presented.Some? && (forall c :: c in cookies ==> c in w.sessions[s].presented.value)
    ensures var p := MaskLoop(w, s, cookies);
      && Inv(p.world)
      && p.world.config == w.config
      && p.world.sessions[s].issued.None?
      && p.world.sessions[s].presented == w.sessions[s].presented
      && (p.needNew ==> Private(p.world, s))
  {
    if cookies != [] {
      var front, last := cookies[..|cookies| - 1], cookies[|cookies| - 1];
      MaskLoopInv(w, s, front);
      MaskOneInv(MaskLoop(w, s, front), s, last);
    }
  }

  lemma PresentInv(w: World, s: nat, cookies: seq<Cookie>)
    requires Inv(w) && s < |w.sessions| && w.sessions[s].presented.None?
    ensures Inv(Present(w, s, cookies)) && Private(Present(w, s, cookies), s)
  {
    var w' := Present(w, s, cookies);
    assert SessionOk(w, s);
    forall i | 0 <= i < |w'.sessions|
      ensures SessionOk(w', i)
    {
      assert SessionOk(w, i);
    }
    forall n | n in w'.table
      ensures EntryOk(w', n)
    {
      assert EntryOk(w, n);
    }
  }

  /** The name is taken from the draws, in order, skipping taken names and nothing else. */
  lemma {:induction false} FreshNameIsFirstFree(handler: string, taken: set<string>, draws: seq<NameBytes>)
    ensures var r := FreshName(handler, taken, draws);
      && (r.None? <==> forall i :: 0 <= i < |draws| ==> CookieName(handler, draws[i]) in taken)
      && (r.Some? ==>
            && r.value !in taken
            && Owns(handler, r.value)
            && exists k :: 0 <= k < |draws| && r.value == CookieName(handler, draws[k])
                 && forall i :: 0 <= i < k ==> CookieName(handler, draws[i]) in taken)
  {
    if draws != [] {
      GeneratedNameIsOwned(handler, draws[0]);
      FreshNameIsFirstFree(handler, taken, draws[1..]);
      var r := FreshName(handler, taken, draws);
      if CookieName(handler, draws[0]) in taken {
        if r.Some? {
          var k :| 0 <= k < |draws[1..]| && r.value == CookieName(handler, draws[1..][k])
               && forall i :: 0 <= i < k ==> CookieName(handler, draws[1..][i]) in taken;
          assert r.value == CookieName(handler, draws[k + 1]);
          forall i | 0 <= i < k + 1
            ensures CookieName(handler, draws[i]) in taken
          {
            if i > 0 {
              assert draws[i] == draws[1..][i - 1];
            }
          }
        } else {
          forall i | 0 <= i < |draws|
            ensures CookieName(handler, draws[i]) in taken
          {
            if i > 0 {
              assert draws[i] == draws[1..][i - 1];
            }
          }
        }
      } else {
        assert r.value == CookieName(handler, draws[0]);
      }
    }
  }

  lemma RegisterInv(w: World, s: nat, c: Cookie)
    requires Inv(w) && Private(w, s) && w.sessions[s].presented.Some?
    requires c.name !in w.table && Owns(w.config.name, c.name) && |c.value| > 0
    ensures Inv(Register(w, s, c))
  {
    var w' := Register(w, s, c);
    forall i | 0 <= i < |w'.sessions|
      ensures SessionOk(w', i)
    {
      assert SessionOk(w, i);
    }
    forall n | n in w'.table
      ensures EntryOk(w', n)
    {
      if n != c.name {
        assert EntryOk(w, n);
        assert w.table[n] != s;
      }
    }
  }

  lemma MaskInv(w: World, s: nat, cookies: seq<Cookie>, draws: seq<NameBytes>, secret: ValueBytes)
    requires Inv(w) && s < |w.sessions| && w.sessions[s].presented.None?
    ensures Inv(Mask(w, s, cookies, draws, secret).world)
  {
    PresentInv(w, s, cookies);
    var w1 := Present(w, s, cookies);
    MaskLoopInv(w1, s, cookies);
    var p := MaskLoop(w1, s, cookies);
    FreshNameIsFirstFree(w.config.name, p.world.table.Keys, draws);
    var name := FreshName(w.config.name, p.world.table.Keys, draws);
    if p.needNew && name.Some? {
      RegisterInv(p.world, s, Cookie(name.value, Encode(secret)));
    }
  }

  lemma SameShapeInv(w: World, w': World)
    requires Inv(w) && w'.Wired()
    requires w'.config == w.config && w'.sessions == w.sessions && w'.table == w.table
    requires forall i :: 0 <= i < |w.cores| ==> w'.cores[i].cvalue == w.cores[i].cvalue
    ensures Inv(w')
  {
    forall i | 0 <= i < |w'.sessions|
      ensures SessionOk(w', i)
    {
      assert SessionOk(w, i);
    }
    forall n | n in w'.table
      ensures EntryOk(w', n)
    {
      assert EntryOk(w, n);
    }
  }

  lemma StepInv(w: World, e: Event)
    requires Inv(w) && Allowed(w, e)
    ensures Inv(Step(w, e))
  {
    var w' := Step(w, e);
    match e
    case Begin =>
      forall i | 0 <= i < |w'.sessions|
        ensures SessionOk(w', i)
      {
        if i < |w.sessions| {
          assert SessionOk(w, i);
        }
      }
      forall n | n in w'.table
        ensures EntryOk(w', n)
      {
        assert EntryOk(w, n);
      }
    case MaskCookies(s, cookies, draws, secret) => MaskInv(w, s, cookies, draws, secret);
    case SetValue(_, _, _) => SameShapeInv(w, w');
    case TryLogin(_, _, _, _, _) => SameShapeInv(w, w');
  }

  /** Every reachable store satisfies the invariant, whatever requests interleave. */
  lemma {:induction false} RunInv(w: World, es: seq<Event>)
    requires Inv(w) && Possible(w, es)
    ensures Inv(Run(w, es))
    decreases |es|
  {
    if es != [] {
      StepInv(w, es[0]);
      RunInv(Step(w, es[0]), es[1..]);
    }
  }

  lemma EntryLeadsToOwnCore(w: World, n: string)
    requires Inv(w) && n in w.table
    ensures w.sessions[w.table[n]].core == w.table[n]
    ensures w.sessions[w.table[n]].issued.Some? && w.sessions[w.table[n]].issued.value.name == n
  {
    assert EntryOk(w, n);
    assert SessionOk(w, w.table[n]);
  }

  /** Two cookie names never lead to the same core. */
  lemma NamesNeverShareCores(w: World, a: string, b: string)
    requires Inv(w) && a in w.table && b in w.table && a != b
    ensures w.sessions[w.table[a]].core != w.sessions[w.table[b]].core
  {
    assert EntryOk(w, a) && EntryOk(w, b);
    assert SessionOk(w, w.table[a]) && SessionOk(w, w.table[b]);
  }

  /** The secret held by the core behind a name is the one issued with that name, and only
      a session that presented this very cookie (or created it) is attached to that core. */
  lemma AttachedOnlyByCookie(w: World, s: nat)
    requires Inv(w) && s < |w.sessions| && w.sessions[s].core != s
    ensures var owner := w.sessions[w.sessions[s].core];
      && owner.issued.Some?
      && owner.core == w.sessions[s].core
      && owner.issued.value.value == w.cores[w.sessions[s].core].cvalue
      && w.sessions[s].presented.Some?
      && owner.issued.value in w.sessions[s].presented.value
  {
    assert SessionOk(w, s);
    assert SessionOk(w, w.sessions[s].core);
  }

  // ---------- what a request can and cannot change ----------

  /** Through which sessions can an event reach a core that has been issued a cookie. */
  ghost predicate ActsOn(w: World, e: Event, core: nat)
    requires Inv(w) && core < |w.sessions| && w.sessions[core].issued.Some?
  {
    match e
    case Begin => false
    case MaskCookies(s, cookies, _, _) => w.sessions[core].issued.value in cookies
    case SetValue(s, _, _) => s < |w.sessions| && MayTouch(w, s, core)
    case TryLogin(s, _, _, _, _) => s < |w.sessions| && MayTouch(w, s, core)
  }

  /** The session created the core, or presented its exact name and value. */
  ghost predicate MayTouch(w: World, s: nat, core: nat)
    requires Inv(w) && s < |w.sessions| && core < |w.sessions| && w.sessions[core].issued.Some?
  {
    s == core || (w.sessions[s].presented.Some? && w.sessions[core].issued.value in w.sessions[s].presented.value)
  }

  lemma {:induction false} MaskLoopTouchesPresented(w: World, s: nat, cookies: seq<Cookie>, core: nat)
    requires Inv(w) && Private(w, s)
    requires w.sessions[s].presented.Some? && (forall c :: c in cookies ==> c in w.sessions[s].presented.value)
    requires core < |w.sessions| && core != s
    ensures var p := MaskLoop(w, s, cookies);
      && |p.world.cores| == |w.cores|
      && p.world.sessions[core] == w.sessions[core]
      && p.world.cores[core].cvalue == w.cores[core].cvalue
      && (p.world.cores[core].data != w.cores[core].data ==>
            w.sessions[core].issued.Some? && w.sessions[core].issued.value in cookies)
  {
    if cookies != [] {
      var front, last := cookies[..|cookies| - 1], cookies[|cookies| - 1];
      MaskLoopTouchesPresented(w, s, front, core);
      MaskLoopInv(w, s, front);
      var u := MaskLoop(w, s, front).world;
      assert forall c :: c in front ==> c in cookies;
      if Owns(u.config.name, last.name) && u.Accepts(last) {
        assert EntryOk(u, last.name);
        assert SessionOk(u, u.table[last.name]);
        assert u.sessions[u.table[last.name]].issued.value == last;
        assert last in cookies;
      }
    }
  }

  lemma MaskTouchesPresented(w: World, s: nat, cookies: seq<Cookie>, draws: seq<NameBytes>, secret: ValueBytes,
                             core: nat)
    requires Inv(w) && s < |w.sessions| && w.sessions[s].presented.None?
    requires core < |w.sessions| && w.sessions[core].issued.Some?
    ensures var w' := Mask(w, s, cookies, draws, secret).world;
      && w'.sessions[core] == w.sessions[core]
      && w'.cores[core].cvalue == w.cores[core].cvalue
      && (w'.cores[core].data != w.cores[core].data ==> w.sessions[core].issued.value in cookies)
  {
    assert SessionOk(w, core) && SessionOk(w, s);
    PresentInv(w, s, cookies);
    var w1 := Present(w, s, cookies);
    MaskLoopInv(w1, s, cookies);
    MaskLoopTouchesPresented(w1, s, cookies, core);
  }

  /** A registered core is never re-pointed and its secret never changes; its data changes
      only through the request that created it or one that presented its exact cookie. */
  lemma RegisteredCoreIsStable(w: World, e: Event, core: nat)
    requires Inv(w) && Allowed(w, e)
    requires core < |w.sessions| && w.sessions[core].issued.Some?
    ensures var w' := Step(w, e);
      && w'.sessions[core] == w.sessions[core]
      && w'.sessions[core].core == core
      && w'.cores[core].cvalue == w.cores[core].cvalue
      && (w'.cores[core].data != w.cores[core].data ==> ActsOn(w, e, core))
  {
    assert SessionOk(w, core);
    match e
    case Begin =>
    case MaskCookies(s, cookies, draws, secret) => MaskTouchesPresented(w, s, cookies, draws, secret, core);
    case SetValue(s, _, _) => assert SessionOk(w, s);
    case TryLogin(s, _, _, _, _) => assert SessionOk(w, s);
  }
}
