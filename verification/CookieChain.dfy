/** Chains of cookie mask filters: what one request's cookies become when it passes through
    any number of handlers, one inside the other. */
module CookieChain {
  import opened CookieNames
  import opened Sessions
  import opened SessionInvariants
  import opened SessionMerge

  /** Nothing gets lost: every cookie is forwarded, proves a session, or is expired. */
  lemma {:induction false} EveryCookieHasOneFate(w: World, cookies: seq<Cookie>)
    requires w.Wired()
    ensures |Foreign(w.config.name, cookies)| + |Proved(w, cookies)| + |Expired(w, cookies)| == |cookies|
  {
    if cookies != [] {
      EveryCookieHasOneFate(w, cookies[..|cookies| - 1]);
    }
  }

  lemma {:induction false} ForeignAreForeign(handler: string, cookies: seq<Cookie>)
    ensures forall c :: c in Foreign(handler, cookies) <==> c in cookies && !Owns(handler, c.name)
  {
    if cookies != [] {
      var n := |cookies| - 1;
      ForeignAreForeign(handler, cookies[..n]);
      assert cookies == cookies[..n] + [cookies[n]];
    }
  }

  /** Removing cookies of one handler and then of another: the order does not matter. */
  lemma {:induction false} ForeignCommutes(a: string, b: string, cookies: seq<Cookie>)
    ensures Foreign(a, Foreign(b, cookies)) == Foreign(b, Foreign(a, cookies))
  {
    if cookies != [] {
      var n := |cookies| - 1;
      var front, c := cookies[..n], cookies[n];
      ForeignCommutes(a, b, front);
      ForeignSnoc(a, Foreign(b, front), c);
      ForeignSnoc(b, Foreign(a, front), c);
    }
  }

  lemma ForeignSnoc(handler: string, cookies: seq<Cookie>, c: Cookie)
    ensures Foreign(handler, cookies + [c]) ==
              Foreign(handler, cookies) + if Owns(handler, c.name) then [] else [c]
    ensures Foreign(handler, cookies + []) == Foreign(handler, cookies)
  {
    assert (cookies + [c])[..|cookies|] == cookies;
    assert cookies + [] == cookies;
  }

  /** A mask is blind to cookies of other handlers: taking them out first changes nothing
      but the forwarded list. */
  lemma {:induction false} MaskIgnoresOthers(w: World, s: nat, other: string, cookies: seq<Cookie>)
    requires w.Wired() && s < |w.sessions| && other != w.config.name
    ensures var p, q := MaskLoop(w, s, cookies), MaskLoop(w, s, Foreign(other, cookies));
      && q.world == p.world && q.rejected == p.rejected && q.needNew == p.needNew
      && p.world.config == w.config
  {
    if cookies != [] {
      var n := |cookies| - 1;
      var front, c := cookies[..n], cookies[n];
      MaskIgnoresOthers(w, s, other, front);
      if Owns(other, c.name) {
        if Owns(w.config.name, c.name) {
          OwnersAreUnique(other, w.config.name, c.name);
        }
        assert Foreign(other, cookies) == Foreign(other, front);
      } else {
        var kept := Foreign(other, cookies);
        assert kept == Foreign(other, front) + [c];
        assert kept[..|kept| - 1] == Foreign(other, front);
      }
    }
  }

  /** One filter of the chain: a handler's store, and what this request brings for it: its
      session (made by GetSession, not yet masked) and its random draws. */
  datatype Stage = Stage(world: World, session: nat, draws: seq<NameBytes>, secret: ValueBytes)

  ghost predicate Ready(t: Stage) {
    && Inv(t.world)
    && t.session < |t.world.sessions|
    && t.world.sessions[t.session].presented.None?
  }

  /** What the handler does with a cookie list, apart from recording it. */
  datatype Effect = Effect(
    cores: seq<CoreState>, attached: nat, table: map<string, nat>, setCookies: seq<SetCookie>, completed: bool)

  ghost function EffectOf(t: Stage, cookies: seq<Cookie>): Effect
    requires Ready(t)
  {
    var r := Mask(t.world, t.session, cookies, t.draws, t.secret);
    Effect(r.world.cores, r.world.sessions[t.session].core, r.world.table, r.setCookies, r.completed)
  }

  ghost function Names(stages: seq<Stage>): (r: seq<string>)
    ensures |r| == |stages|
  {
    seq(|stages|, i requires 0 <= i < |stages| => stages[i].world.config.name)
  }

  /** The cookies left when the handlers with these names have each taken out their own. */
  ghost function Strip(names: seq<string>, cookies: seq<Cookie>): seq<Cookie> {
    if names == [] then cookies else Strip(names[1..], Foreign(names[0], cookies))
  }

  datatype ChainReply = ChainReply(effects: seq<Effect>, forwarded: seq<Cookie>, setCookies: seq<SetCookie>)

  /** The nested filters: the outermost masks first and passes on what it forwards; on the
      way back each filter appends its own cookies after those of the filters inside it. */
  ghost function Chain(stages: seq<Stage>, cookies: seq<Cookie>): ChainReply
    requires forall i :: 0 <= i < |stages| ==> Ready(stages[i])
  {
    if stages == [] then ChainReply([], cookies, [])
    else
      var t := stages[0];
      assert Ready(t);
      var own := Mask(t.world, t.session, cookies, t.draws, t.secret);
      var inner := Chain(stages[1..], own.forwarded);
      ChainReply([EffectOf(t, cookies)] + inner.effects, inner.forwarded, inner.setCookies + own.setCookies)
  }

  ghost predicate DistinctNames(stages: seq<Stage>) {
    forall i, j :: 0 <= i < j < |stages| ==> stages[i].world.config.name != stages[j].world.config.name
  }

  /** Set-cookie lists, innermost first. */
  ghost function Outward(effects: seq<Effect>): seq<SetCookie> {
    if effects == [] then [] else Outward(effects[1..]) + effects[0].setCookies
  }

  lemma MaskForwards(t: Stage, cookies: seq<Cookie>)
    requires Ready(t)
    ensures Mask(t.world, t.session, cookies, t.draws, t.secret).forwarded == Foreign(t.world.config.name, cookies)
  {
    PresentInv(t.world, t.session, cookies);
    MaskLoopMeaning(Present(t.world, t.session, cookies), t.session, cookies);
  }

  lemma OneIgnoresRecord(p: Progress, q: Progress, s: nat, b: seq<Cookie>, c: Cookie)
    requires p.world.Wired() && s < |p.world.sessions|
    requires q == p.(world := Present(p.world, s, b))
    ensures MaskOne(q, s, c) == MaskOne(p, s, c).(world := Present(MaskOne(p, s, c).world, s, b))
  {}

  /** The list a session was masked with is history: it does not influence the loop. */
  lemma {:induction false} LoopIgnoresRecord(w: World, s: nat, b: seq<Cookie>, cookies: seq<Cookie>)
    requires w.Wired() && s < |w.sessions|
    ensures var p := MaskLoop(w, s, cookies);
      MaskLoop(Present(w, s, b), s, cookies) == p.(world := Present(p.world, s, b))
  {
    if cookies != [] {
      var front, c := cookies[..|cookies| - 1], cookies[|cookies| - 1];
      LoopIgnoresRecord(w, s, b, front);
      OneIgnoresRecord(MaskLoop(w, s, front), MaskLoop(Present(w, s, b), s, front), s, b, c);
    }
  }

  lemma EffectIgnoresOthers(t: Stage, other: string, cookies: seq<Cookie>)
    requires Ready(t) && other != t.world.config.name
    ensures EffectOf(t, Foreign(other, cookies)) == EffectOf(t, cookies)
  {
    var w, s := t.world, t.session;
    var fewer := Foreign(other, cookies);
    LoopIgnoresRecord(w, s, fewer, fewer);
    LoopIgnoresRecord(w, s, cookies, cookies);
    MaskIgnoresOthers(w, s, other, cookies);
  }

  /** The outermost filter of a chain, and what is left to the rest. */
  lemma OutermostFilter(stages: seq<Stage>, cookies: seq<Cookie>)
    requires stages != [] && forall i :: 0 <= i < |stages| ==> Ready(stages[i])
    ensures var own := EffectOf(stages[0], cookies);
      var inner := Chain(stages[1..], Foreign(stages[0].world.config.name, cookies));
      Chain(stages, cookies) ==
        ChainReply([own] + inner.effects, inner.forwarded, inner.setCookies + own.setCookies)
  {
    MaskForwards(stages[0], cookies);
  }

  /** What each handler would do on its own with these cookies. */
  ghost function Effects(stages: seq<Stage>, cookies: seq<Cookie>): (r: seq<Effect>)
    requires forall i :: 0 <= i < |stages| ==> Ready(stages[i])
    ensures |r| == |stages|
  {
    if stages == [] then []
    else
      assert Ready(stages[0]);
      [EffectOf(stages[0], cookies)] + Effects(stages[1..], cookies)
  }

  lemma {:induction false} InnerEffects(stages: seq<Stage>, other: string, cookies: seq<Cookie>)
    requires forall i :: 0 <= i < |stages| ==> Ready(stages[i])
    requires forall i :: 0 <= i < |stages| ==> stages[i].world.config.name != other
    ensures Effects(stages, Foreign(other, cookies)) == Effects(stages, cookies)
  {
    if stages != [] {
      assert Ready(stages[0]);
      EffectIgnoresOthers(stages[0], other, cookies);
      InnerEffects(stages[1..], other, cookies);
    }
  }

  lemma {:induction false} EffectsAt(stages: seq<Stage>, cookies: seq<Cookie>, i: nat)
    requires (forall i :: 0 <= i < |stages| ==> Ready(stages[i])) && i < |stages|
    ensures Effects(stages, cookies)[i] == EffectOf(stages[i], cookies)
  {
    if i > 0 {
      EffectsAt(stages[1..], cookies, i - 1);
    }
  }

  lemma InnerStages(stages: seq<Stage>)
    requires stages != [] && DistinctNames(stages) && forall i :: 0 <= i < |stages| ==> Ready(stages[i])
    ensures var rest := stages[1..];
      && DistinctNames(rest)
      && (forall i :: 0 <= i < |rest| ==> Ready(rest[i]))
      && (forall i :: 0 <= i < |rest| ==> rest[i].world.config.name != stages[0].world.config.name)
      && Names(stages) == [stages[0].world.config.name] + Names(rest)
  {}

  lemma OutwardJoins(own: Effect, effects: seq<Effect>)
    ensures Outward([own] + effects) == Outward(effects) + own.setCookies
  {
    assert ([own] + effects)[1..] == effects;
  }

  /** In a chain of handlers with different names, every handler's new state and every
      set-cookie is what it would have been had that handler seen the raw request alone; the
      application gets the cookies no handler owns; set-cookies come innermost first. */
  lemma {:induction false} ChainDecomposes(stages: seq<Stage>, cookies: seq<Cookie>)
    requires forall i :: 0 <= i < |stages| ==> Ready(stages[i])
    requires DistinctNames(stages)
    ensures Chain(stages, cookies) ==
              ChainReply(Effects(stages, cookies), Strip(Names(stages), cookies), Outward(Effects(stages, cookies)))
  {
    if stages != [] {
      var name, rest := stages[0].world.config.name, stages[1..];
      OutermostFilter(stages, cookies);
      InnerStages(stages);
      ChainDecomposes(rest, Foreign(name, cookies));
      InnerEffects(rest, name, cookies);
      OutwardJoins(EffectOf(stages[0], cookies), Effects(rest, cookies));
      assert Names(stages)[1..] == Names(rest);
    }
  }

  /** Stripping is independent of where a handler stands in the chain. */
  lemma {:induction false} StripMovesInward(names: seq<string>, handler: string, cookies: seq<Cookie>)
    ensures Strip(names, Foreign(handler, cookies)) == Foreign(handler, Strip(names, cookies))
    decreases |names|
  {
    if names != [] {
      ForeignCommutes(handler, names[0], cookies);
      StripMovesInward(names[1..], handler, Foreign(names[0], cookies));
    }
  }

  lemma {:induction false} StripSplits(a: seq<string>, b: seq<string>, cookies: seq<Cookie>)
    ensures Strip(a + b, cookies) == Strip(b, Strip(a, cookies))
    decreases |a|
  {
    if a == [] {
      assert a + b == b;
    } else {
      assert (a + b)[1..] == a[1..] + b;
      StripSplits(a[1..], b, Foreign(a[0], cookies));
    }
  }

  lemma StripPullsOut(names: seq<string>, i: nat, cookies: seq<Cookie>)
    requires i < |names|
    ensures Strip(names, cookies) == Strip(names[..i] + names[i + 1..], Foreign(names[i], cookies))
  {
    var a, n, b := names[..i], names[i], names[i + 1..];
    assert names == a + ([n] + b);
    StripSplits(a, [n] + b, cookies);
    assert ([n] + b)[1..] == b;
    StripMovesInward(a, n, cookies);
    StripSplits(a, b, Foreign(n, cookies));
  }

  lemma RemoveOne(n: string, a: multiset<string>, b: multiset<string>)
    requires multiset{n} + a == multiset{n} + b
    ensures a == b
  {
    assert a == multiset{n} + a - multiset{n};
    assert b == multiset{n} + b - multiset{n};
  }

  /** What the application gets does not depend on the order of the filters. */
  lemma {:induction false} OrderDoesNotMatter(a: seq<string>, b: seq<string>, cookies: seq<Cookie>)
    requires multiset(a) == multiset(b)
    ensures Strip(a, cookies) == Strip(b, cookies)
    decreases |a|
  {
    if a == [] {
      assert |multiset(a)| == |a| && |multiset(b)| == |b|;
    } else {
      var n := a[0];
      assert n in multiset(b);
      var i :| 0 <= i < |b| && b[i] == n;
      var rest := b[..i] + b[i + 1..];
      assert b == b[..i] + [n] + b[i + 1..];
      assert a == [n] + a[1..];
      RemoveOne(n, multiset(a[1..]), multiset(rest));
      OrderDoesNotMatter(a[1..], rest, Foreign(n, cookies));
      StripPullsOut(b, i, cookies);
    }
  }

  /** The application never sees a cookie that some handler of the chain owns, and sees all others. */
  lemma {:induction false} StripKeepsUnowned(names: seq<string>, cookies: seq<Cookie>, c: Cookie)
    ensures c in Strip(names, cookies) <==> c in cookies && forall n :: n in names ==> !Owns(n, c.name)
    decreases |names|
  {
    if names != [] {
      ForeignAreForeign(names[0], cookies);
      StripKeepsUnowned(names[1..], Foreign(names[0], cookies), c);
      assert names == [names[0]] + names[1..];
    }
  }
}
