/** How long sessions live: durability of a cookie presented unchanged, and the finality
    of the destruction caused by a wrong value. */
module SessionLifetime {
  import opened Wrappers
  import opened CookieNames
  import opened Sessions
  import opened SessionInvariants
  import opened SessionMerge
  import opened SessionHistory

  /** Name n leads to the core, and (n, v) is the cookie issued for it. */
  ghost predicate Live(w: World, core: nat, c: Cookie) {
    && Inv(w)
    && c.name in w.table && w.table[c.name] == core
    && w.sessions[core].issued == Some(c)
  }

  /** Nobody presents the name with another value. */
  ghost predicate NeverSpoils(es: seq<Event>, c: Cookie) {
    forall i :: 0 <= i < |es| && es[i].MaskCookies? ==>
      forall d :: d in es[i].cookies && d.name == c.name ==> d == c
  }

  lemma LiveIsAccepted(w: World, core: nat, c: Cookie)
    requires Live(w, core, c)
    ensures w.Accepts(c) && w.sessions[w.table[c.name]].core == core
  {
    assert EntryOk(w, c.name);
    assert SessionOk(w, core);
  }

  /** Masking does not change what counts as proof of an entry. */
  lemma PresentAccepts(w: World, s: nat, cookies: seq<Cookie>, c: Cookie)
    requires Inv(w) && s < |w.sessions|
    ensures Present(w, s, cookies).Accepts(c) <==> w.Accepts(c)
  {}

  lemma NewNameIsNew(w: World, s: nat, cookies: seq<Cookie>, draws: seq<NameBytes>, secret: ValueBytes, n: string)
    requires Inv(w) && s < |w.sessions| && w.sessions[s].presented.None?
    requires n in MaskLoop(Present(w, s, cookies), s, cookies).world.table
    ensures var t := MaskLoop(Present(w, s, cookies), s, cookies).world.table;
      var r := Mask(w, s, cookies, draws, secret).world.table;
      n in r && r[n] == t[n]
  {
    var p := MaskLoop(Present(w, s, cookies), s, cookies);
    FreshNameIsFirstFree(w.config.name, p.world.table.Keys, draws);
  }

  lemma LiveAfterMask(w: World, core: nat, c: Cookie, e: Event)
    requires Live(w, core, c) && e.MaskCookies? && Allowed(w, e)
    requires forall d :: d in e.cookies && d.name == c.name ==> d == c
    ensures Live(Step(w, e), core, c)
  {
    var s, cookies := e.session, e.cookies;
    var w1 := Present(w, s, cookies);
    LiveIsAccepted(w, core, c);
    PresentAccepts(w, s, cookies, c);
    PresentInv(w, s, cookies);
    MaskLoopMeaning(w1, s, cookies);
    assert !Spoiled(w1, cookies, c.name);
    NewNameIsNew(w, s, cookies, e.draws, e.secret, c.name);
    RegisteredCoreIsStable(w, e, core);
    StepInv(w, e);
  }

  /** A live cookie stays live across any run in which nobody spoils it. */
  lemma {:induction false} LiveForever(w: World, es: seq<Event>, core: nat, c: Cookie)
    requires Live(w, core, c) && Possible(w, es) && NeverSpoils(es, c)
    ensures Live(Run(w, es), core, c)
    decreases |es|
  {
    if es != [] {
      var e := es[0];
      StepInv(w, e);
      if e.MaskCookies? {
        LiveAfterMask(w, core, c, e);
      } else {
        RegisteredCoreIsStable(w, e, core);
      }
      assert NeverSpoils(es[1..], c) by {
        forall i | 0 <= i < |es[1..]| && es[1..][i].MaskCookies?
          ensures forall d :: d in es[1..][i].cookies && d.name == c.name ==> d == c
        {
          assert es[1..][i] == es[i + 1];
        }
      }
      LiveForever(Step(w, e), es[1..], core, c);
    }
  }

  /** No cookie after position i proves a session. */
  ghost predicate LastGood(w: World, cookies: seq<Cookie>, i: nat)
    requires w.Wired()
  {
    && i < |cookies| && Good(w, cookies, i)
    && forall j :: i < j < |cookies| ==> !Good(w, cookies, j)
  }

  lemma {:induction false} LastGoodIsLastProved(w: World, cookies: seq<Cookie>, i: nat)
    requires w.Wired() && LastGood(w, cookies, i)
    ensures var r := Proved(w, cookies);
      r != [] && r[|r| - 1] == w.sessions[w.table[cookies[i].name]].core
    decreases |cookies|
  {
    var n := |cookies| - 1;
    if i < n {
      var front := cookies[..n];
      assert front[..i] == cookies[..i];
      forall j | i < j < |front|
        ensures !Good(w, front, j)
      {
        assert front[..j] == cookies[..j];
        assert !Good(w, cookies, j);
      }
      assert Good(w, front, i) by { assert Good(w, cookies, i); }
      LastGoodIsLastProved(w, front, i);
    }
  }

  lemma LastGoodAttaches(w: World, core: nat, c: Cookie, s: nat, cookies: seq<Cookie>, i: nat)
    requires Live(w, core, c) && Private(w, s)
    requires LastGood(w, cookies, i) && cookies[i] == c
    ensures var p := MaskLoop(w, s, cookies);
      !p.needNew && p.world.sessions[s].core == core
  {
    LoopEndsOnLastProved(w, s, cookies);
    LastGoodIsLastProved(w, cookies, i);
    LiveIsAccepted(w, core, c);
  }

  lemma PresentLive(w: World, core: nat, c: Cookie, s: nat, cookies: seq<Cookie>)
    requires Live(w, core, c) && s < |w.sessions| && w.sessions[s].presented.None?
    ensures Live(Present(w, s, cookies), core, c) && Private(Present(w, s, cookies), s)
  {
    PresentInv(w, s, cookies);
  }

  lemma LastGoodDecides(w: World, core: nat, c: Cookie,
                        s: nat, cookies: seq<Cookie>, i: nat, draws: seq<NameBytes>, secret: ValueBytes)
    requires Live(w, core, c)
    requires s < |w.sessions| && w.sessions[s].presented.None?
    requires LastGood(Present(w, s, cookies), cookies, i) && cookies[i] == c
    ensures var r := Mask(w, s, cookies, draws, secret);
      r.completed && r.world.sessions[s].core == core
  {
    PresentLive(w, core, c, s, cookies);
    LastGoodAttaches(Present(w, s, cookies), core, c, s, cookies, i);
  }

  /** Durability: a cookie issued earlier and presented unchanged as the last valid cookie of
      a later request attaches that request to the same core, whose data are the last values
      written to it, across any run in which nobody presented the name with another value. */
  lemma SessionIsDurable(w: World, es: seq<Event>, core: nat, c: Cookie,
                         s: nat, cookies: seq<Cookie>, i: nat, draws: seq<NameBytes>, secret: ValueBytes)
    requires Live(w, core, c) && Recorded(w) && Possible(w, es) && NeverSpoils(es, c)
    requires s < |Run(w, es).sessions| && Run(w, es).sessions[s].presented.None?
    requires LastGood(Present(Run(w, es), s, cookies), cookies, i) && cookies[i] == c
    ensures var r := Mask(Run(w, es), s, cookies, draws, secret);
      && r.completed
      && r.world.sessions[s].core == core
      && r.world.DataOf(s) == Replay(r.world.log, core)
  {
    LiveForever(w, es, core, c);
    RunRecorded(w, es);
    var u := Run(w, es);
    LastGoodDecides(u, core, c, s, cookies, i, draws, secret);
    StepRecorded(u, MaskCookies(s, cookies, draws, secret));
  }

  /** The everyday case: a new session masked with just this cookie sees exactly what the
      core held, sets no cookie and forwards nothing. */
  lemma ReturningVisitor(w: World, s: nat, core: nat, c: Cookie, draws: seq<NameBytes>, secret: ValueBytes)
    requires Live(w, core, c)
    requires s < |w.sessions| && w.sessions[s].presented.None? && w.cores[s].data == map[]
    ensures var r := Mask(w, s, [c], draws, secret);
      && r.completed && r.forwarded == [] && r.setCookies == []
      && r.world.sessions[s].core == core
      && r.world.cores == w.cores
      && r.world.table == w.table
  {
    LiveIsAccepted(w, core, c);
    var w1 := Present(w, s, [c]);
    PresentAccepts(w, s, [c], c);
    assert SessionOk(w, s);
    assert MaskLoop(w1, s, [c]) == MaskOne(MaskLoop(w1, s, []), s, c) by {
      assert [c][..0] == [];
    }
    var d := w.cores[core].data;
    assert d + map[] == d;
  }

  // ---------- destruction ----------

  ghost predicate Reachable(w: World, core: nat)
    requires w.Wired()
  {
    exists n :: n in w.table && w.sessions[w.table[n]].core == core
  }

  /** An entry of the new table was there before, or leads to the session just masked. */
  lemma OnlyTheMaskedSessionEnters(w: World, e: Event, n: string)
    requires Inv(w) && Allowed(w, e) && n in Step(w, e).table
    ensures var t := Step(w, e).table[n];
      || (n in w.table && w.table[n] == t
          && (e.MaskCookies? ==> !Spoiled(Present(w, e.session, e.cookies), e.cookies, n)))
      || (e.MaskCookies? && t == e.session)
  {
    if e.MaskCookies? {
      var w1 := Present(w, e.session, e.cookies);
      PresentInv(w, e.session, e.cookies);
      MaskLoopMeaning(w1, e.session, e.cookies);
      var p := MaskLoop(w1, e.session, e.cookies);
      FreshNameIsFirstFree(w.config.name, p.world.table.Keys, e.draws);
    }
  }

  /** Presenting a name with a wrong value removes that entry: its core is unreachable. */
  lemma WrongValueDestroys(w: World, e: Event, core: nat, c: Cookie, i: nat)
    requires Live(w, core, c) && e.MaskCookies? && Allowed(w, e)
    requires i < |e.cookies| && e.cookies[i].name == c.name && e.cookies[i].value != c.value
    ensures !Reachable(Step(w, e), core)
  {
    var w1 := Present(w, e.session, e.cookies);
    LiveIsAccepted(w, core, c);
    PresentAccepts(w, e.session, e.cookies, e.cookies[i]);
    assert EntryOk(w, c.name);
    assert Spoiled(w1, e.cookies, c.name);
    StepInv(w, e);
    var w' := Step(w, e);
    forall n | n in w'.table
      ensures w'.sessions[w'.table[n]].core != core
    {
      EntryLeadsToOwnCore(w', n);
      OnlyTheMaskedSessionEnters(w, e, n);
      if n in w.table {
        EntryLeadsToOwnCore(w, n);
      }
      assert SessionOk(w, e.session);
    }
  }

  lemma StaysDestroyed(w: World, e: Event, core: nat)
    requires Inv(w) && Allowed(w, e)
    requires core < |w.sessions| && w.sessions[core].issued.Some? && !Reachable(w, core)
    ensures !Reachable(Step(w, e), core)
  {
    var w' := Step(w, e);
    StepInv(w, e);
    forall n | n in w'.table
      ensures w'.sessions[w'.table[n]].core != core
    {
      EntryLeadsToOwnCore(w', n);
      OnlyTheMaskedSessionEnters(w, e, n);
      if n in w.table {
        EntryLeadsToOwnCore(w, n);
      }
      if e.MaskCookies? {
        assert SessionOk(w, e.session);
      }
    }
  }

  /** Destruction is permanent: a core that was registered and is no longer reachable from
      the table stays unreachable, even if its old name is drawn again. */
  lemma {:induction false} DestructionIsPermanent(w: World, es: seq<Event>, core: nat)
    requires Inv(w) && Possible(w, es)
    requires core < |w.sessions| && w.sessions[core].issued.Some? && !Reachable(w, core)
    ensures !Reachable(Run(w, es), core)
    decreases |es|
  {
    if es != [] {
      StaysDestroyed(w, es[0], core);
      StepInv(w, es[0]);
      RegisteredCoreIsStable(w, es[0], core);
      DestructionIsPermanent(Step(w, es[0]), es[1..], core);
    }
  }

  /** A request whose last valid cookie is followed by the same name with another value keeps
      a core that has left the table, and gets no new cookie. In every other case the core a
      completed request ends on can be found again through the table. */
  lemma EndsReachableIff(w: World, e: Event, i: nat)
    requires Inv(w) && e.MaskCookies? && Allowed(w, e)
    requires LastGood(Present(w, e.session, e.cookies), e.cookies, i)
    ensures Reachable(Step(w, e), Step(w, e).sessions[e.session].core) <==>
              forall j :: 0 <= j < |e.cookies| && e.cookies[j].name == e.cookies[i].name ==>
                e.cookies[j] == e.cookies[i]
  {
    var s, cookies := e.session, e.cookies;
    var w1 := Present(w, s, cookies);
    var n := cookies[i].name;
    PresentInv(w, s, cookies);
    MaskLoopMeaning(w1, s, cookies);
    LoopEndsOnLastProved(w1, s, cookies);
    LastGoodIsLastProved(w1, cookies, i);
    assert w1.Accepts(cookies[i]) by { assert Good(w1, cookies, i); }
    SpoiledMeansOtherValue(w1, cookies, i);
    var w' := Step(w, e);
    StepInv(w, e);
    EntryLeadsToOwnCore(w1, n);
    assert !MaskLoop(w1, s, cookies).needNew;
    assert w' == MaskLoop(w1, s, cookies).world;
    var core := w'.sessions[s].core;
    assert core == w.table[n];
    if n in w'.table {
      EntryLeadsToOwnCore(w', n);
    }
    forall m | m in w'.table && w'.sessions[w'.table[m]].core == core
      ensures m == n
    {
      EntryLeadsToOwnCore(w', m);
      EntryLeadsToOwnCore(w1, m);
    }
  }

  lemma SpoiledMeansOtherValue(w: World, cookies: seq<Cookie>, i: nat)
    requires w.Wired() && i < |cookies| && w.Accepts(cookies[i])
    ensures !Spoiled(w, cookies, cookies[i].name) <==>
              forall j :: 0 <= j < |cookies| && cookies[j].name == cookies[i].name ==> cookies[j] == cookies[i]
  {}

  // ---------- what a request hands out ----------

  lemma RegisteredIsLive(w: World, s: nat, c: Cookie)
    requires Inv(w) && Private(w, s) && w.sessions[s].presented.Some?
    requires c.name !in w.table && Owns(w.config.name, c.name) && |c.value| > 0
    ensures Live(Register(w, s, c), s, c)
  {
    RegisterInv(w, s, c);
  }

  /** A request that proves no session is issued one cookie, after the expired ones, with the
      handler's scope; presenting it from then on proves the session just created. A request
      that proves one is issued nothing. */
  lemma IssuedCookieIsLive(w: World, e: Event)
    requires Inv(w) && e.MaskCookies? && Allowed(w, e)
    requires Mask(w, e.session, e.cookies, e.draws, e.secret).completed
    ensures var r := Mask(w, e.session, e.cookies, e.draws, e.secret);
      var w1 := Present(w, e.session, e.cookies);
      && r.forwarded == Foreign(w.config.name, e.cookies)
      && (Proved(w1, e.cookies) != [] ==> r.setCookies == Expired(w1, e.cookies))
      && (Proved(w1, e.cookies) == [] ==>
            && r.setCookies != []
            && r.setCookies[..|r.setCookies| - 1] == Expired(w1, e.cookies)
            && var c := r.setCookies[|r.setCookies| - 1];
               && Live(r.world, e.session, Cookie(c.name, c.value))
               && c.name !in MaskLoop(w1, e.session, e.cookies).world.table
               && c.path == w.config.path && c.domain == w.config.domain
               && c.maxAge == 7200 && c.httpOnly)
  {
    var w1 := Present(w, e.session, e.cookies);
    PresentInv(w, e.session, e.cookies);
    MaskLoopMeaning(w1, e.session, e.cookies);
    MaskLoopInv(w1, e.session, e.cookies);
    var p := MaskLoop(w1, e.session, e.cookies);
    if p.needNew {
      FreshNameIsFirstFree(w.config.name, p.world.table.Keys, e.draws);
      var name := FreshName(w.config.name, p.world.table.Keys, e.draws).value;
      RegisteredIsLive(p.world, e.session, Cookie(name, Encode(e.secret)));
    }
  }

  /** Every mask request, completed or not: it forwards the cookies of others, in order; its
      set-cookies are one removal for each owned cookie that proves nothing, in order, and
      after them a new cookie exactly if nothing was proved and a free name was drawn. */
  lemma MaskReplies(w: World, e: Event) returns (theirs: seq<nat>, bad: seq<nat>)
    requires Inv(w) && e.MaskCookies? && Allowed(w, e)
    ensures Positions(theirs, |e.cookies|) && Positions(bad, |e.cookies|)
    ensures forall i: nat :: i in theirs <==> i < |e.cookies| && !Owns(w.config.name, e.cookies[i].name)
    ensures forall i: nat :: i in bad <==>
              && i < |e.cookies| && Owns(w.config.name, e.cookies[i].name)
              && !Good(Present(w, e.session, e.cookies), e.cookies, i)
    ensures var r := Mask(w, e.session, e.cookies, e.draws, e.secret);
      && |r.forwarded| == |theirs| && (forall k :: 0 <= k < |theirs| ==> r.forwarded[k] == e.cookies[theirs[k]])
      && |bad| <= |r.setCookies| && (forall k :: 0 <= k < |bad| ==> Drops(r.setCookies[k], e.cookies[bad[k]]))
      && |r.setCookies| == |bad| + (if Proved(Present(w, e.session, e.cookies), e.cookies) == [] && r.completed
                                    then 1 else 0)
  {
    var w1 := Present(w, e.session, e.cookies);
    theirs := ForeignInOrder(w.config.name, e.cookies);
    bad := ExpiredDropsTheBad(w1, e.cookies);
    PresentInv(w, e.session, e.cookies);
    MaskLoopMeaning(w1, e.session, e.cookies);
  }

  /** A request stays incomplete only while nothing is proved and every draw collides with the
      table it leaves; so far it has done what the loop did. */
  lemma IncompleteIff(w: World, e: Event)
    requires Inv(w) && e.MaskCookies? && Allowed(w, e)
    ensures var r := Mask(w, e.session, e.cookies, e.draws, e.secret);
      var w1 := Present(w, e.session, e.cookies);
      var u := MaskLoop(w1, e.session, e.cookies).world;
      && (!r.completed <==>
            && Proved(w1, e.cookies) == []
            && forall k :: 0 <= k < |e.draws| ==> CookieName(w.config.name, e.draws[k]) in u.table)
      && (!r.completed ==> r.world == u)
  {
    var w1 := Present(w, e.session, e.cookies);
    PresentInv(w, e.session, e.cookies);
    MaskLoopMeaning(w1, e.session, e.cookies);
    FreshNameIsFirstFree(w.config.name, MaskLoop(w1, e.session, e.cookies).world.table.Keys, e.draws);
  }

  // ---------- a request that loses the session it proved ----------

  /** A proof followed by the same name with another value: the request stays on the core, the
      core leaves the table, and the only set-cookie is the expired one. */
  lemma SpoiledProofLosesSession(w: World, core: nat, c: Cookie, s: nat, value: string,
                                 draws: seq<NameBytes>, secret: ValueBytes)
    requires Live(w, core, c) && value != c.value
    requires s < |w.sessions| && w.sessions[s].presented.None?
    ensures var r := Mask(w, s, [c, Cookie(c.name, value)], draws, secret);
      && r.completed && r.setCookies == [SetCookie(c.name, value, "", "", -1, false)]
      && r.world.sessions[s].core == core && !Reachable(r.world, core)
  {
    var d := Cookie(c.name, value);
    var cookies := [c, d];
    var e := MaskCookies(s, cookies, draws, secret);
    var w1 := Present(w, s, cookies);
    PresentInv(w, s, cookies);
    LiveIsAccepted(w, core, c);
    assert EntryOk(w, c.name);
    assert cookies[..0] == [] && cookies[..1] == [c];
    assert w1.Accepts(c) && !w1.Accepts(d) && Owns(w.config.name, d.name);
    assert LastGood(w1, cookies, 0);
    WrongValueDestroys(w, e, core, c, 1);
    LastGoodDecides(w, core, c, s, cookies, 0, draws, secret);
    SpoiledProofExpires(w1, c, d);
    MaskLoopMeaning(w1, s, cookies);
    LastGoodIsLastProved(w1, cookies, 0);
  }

  lemma SpoiledProofExpires(w: World, c: Cookie, d: Cookie)
    requires w.Wired() && w.Accepts(c) && !w.Accepts(d) && Owns(w.config.name, d.name)
    ensures Expired(w, [c, d]) == [SetCookie(d.name, d.value, "", "", -1, false)]
  {
    assert [c, d][..1] == [c] && [c][..0] == [];
    assert Good(w, [c], 0);
    assert Expired(w, [c]) == Expired(w, []) + [];
  }

  /** The first request of a new handler is issued its first cookie. */
  lemma FirstIssue(config: Config, draw: NameBytes, secret: ValueBytes)
    ensures var w := NewSession(Empty(config));
      var e := MaskCookies(0, [], [draw], secret);
      && Allowed(w, e)
      && Live(Step(w, e), 0, Cookie(CookieName(config.name, draw), Encode(secret)))
      && |Step(w, e).sessions| == 1
  {
    var w := NewSession(Empty(config));
    var e := MaskCookies(0, [], [draw], secret);
    EmptyInv(config);
    StepInv(Empty(config), Begin);
    assert w.sessions[0] == SessionState(0, None, None);
    var w1 := Present(w, 0, []);
    assert MaskLoop(w1, 0, []) == Progress(w1, [], [], true);
    assert [draw][0] == draw && w1.table == map[];
    assert FreshName(config.name, w1.table.Keys, [draw]) == Some(CookieName(config.name, draw));
    assert Step(w, e) == Register(w1, 0, Cookie(CookieName(config.name, draw), Encode(secret)));
    PresentInv(w, 0, []);
    GeneratedNameIsOwned(config.name, draw);
    RegisteredIsLive(w1, 0, Cookie(CookieName(config.name, draw), Encode(secret)));
  }

  lemma BeginKeepsLive(w: World, core: nat, c: Cookie)
    requires Live(w, core, c)
    ensures Live(NewSession(w), core, c)
    ensures NewSession(w).sessions[|w.sessions|].presented.None?
  {
    StepInv(w, Begin);
  }

  lemma FirstVisit(config: Config, draw: NameBytes, secret: ValueBytes) returns (es: seq<Event>)
    ensures Possible(Empty(config), es)
    ensures var w := Run(Empty(config), es);
      && Live(w, 0, Cookie(CookieName(config.name, draw), Encode(secret)))
      && |w.sessions| == 2 && w.sessions[1].presented.None?
  {
    var w := NewSession(Empty(config));
    var e := MaskCookies(0, [], [draw], secret);
    FirstIssue(config, draw, secret);
    BeginKeepsLive(Step(w, e), 0, Cookie(CookieName(config.name, draw), Encode(secret)));
    OneStepFirst(Step(w, e), Begin, []);
    OneStepFirst(w, e, [Begin] + []);
    OneStepFirst(Empty(config), Begin, [e] + ([Begin] + []));
    es := [Begin] + ([e] + ([Begin] + []));
  }

  lemma OneStepFirst(w: World, e: Event, es: seq<Event>)
    requires w.Wired() && Allowed(w, e) && Possible(Step(w, e), es)
    ensures Possible(w, [e] + es) && Run(w, [e] + es) == Run(Step(w, e), es)
  {
    assert ([e] + es)[1..] == es;
  }

  /** It happens: three events after the start of any handler a request can end on a core
      outside the table. */
  lemma SpoiledProofHappens(config: Config, draw: NameBytes, secret: ValueBytes, value: string)
    returns (es: seq<Event>, e: Event)
    requires value != Encode(secret)
    ensures Possible(Empty(config), es) && e.MaskCookies? && Allowed(Run(Empty(config), es), e)
    ensures var w := Step(Run(Empty(config), es), e);
      !Reachable(w, w.sessions[e.session].core)
  {
    es := FirstVisit(config, draw, secret);
    var c := Cookie(CookieName(config.name, draw), Encode(secret));
    e := MaskCookies(1, [c, Cookie(c.name, value)], [draw], secret);
    SpoiledProofLosesSession(Run(Empty(config), es), 0, c, 1, value, [draw], secret);
  }
}
