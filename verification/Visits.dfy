/** Whole visits: what the cookie mask and the login handler do together over several
    requests, with any other requests in between. */
module Visits {
  import opened CookieNames
  import opened Sessions
  import opened SessionInvariants
  import opened SessionMerge
  import opened SessionHistory
  import opened SessionLifetime
  import opened Provenance

  lemma {:induction false} MaskKeepsFlags(w: World, e: Event, core: nat, id: string)
    requires Recorded(w) && Allowed(w, e) && e.MaskCookies? && Authenticated(w, core, id)
    ensures Authenticated(Mask(w, e.session, e.cookies, e.draws, e.secret).world, core, id)
  {
    StepKeepsFlags(w, e, core, id);
  }

  /** A visitor who logged in stays logged in: after any run in which nobody presented the
      cookie's name with another value, a new request whose last valid cookie it is reaches
      the downstream filter, whatever form it carries and whatever a checker would say. */
  lemma LoggedInVisitorReturns(w: World, es: seq<Event>, core: nat, c: Cookie, id: string,
                               e: Event, i: nat, form: Form, answer: Answer, token: TokenBytes)
    requires Live(w, core, c) && Recorded(w) && Authenticated(w, core, id)
    requires Possible(w, es) && NeverSpoils(es, c)
    requires e.MaskCookies? && Allowed(Run(w, es), e)
    requires LastGood(Present(Run(w, es), e.session, e.cookies), e.cookies, i) && e.cookies[i] == c
    ensures Login(Step(Run(w, es), e), e.session, id, form, answer, token).page.Downstream?
  {
    var u := Run(w, es);
    LiveForever(w, es, core, c);
    RunRecorded(w, es);
    AuthenticationStays(w, es, core, id);
    LastGoodDecides(u, core, c, e.session, e.cookies, i, e.draws, e.secret);
    MaskKeepsFlags(u, e, core, id);
    StepRecorded(u, e);
    DownstreamIffAuthenticated(Step(u, e), e.session, id, form, answer, token);
  }

  lemma {:induction false} ProvedAreReachable(w: World, cookies: seq<Cookie>)
    requires w.Wired()
    ensures forall j :: 0 <= j < |Proved(w, cookies)| ==> Reachable(w, Proved(w, cookies)[j])
  {
    if cookies != [] {
      ProvedAreReachable(w, cookies[..|cookies| - 1]);
    }
  }

  /** No step attaches a session to a registered core that the table no longer leads to. */
  lemma StepNeverAttaches(w: World, e: Event, core: nat, s: nat)
    requires Inv(w) && Allowed(w, e)
    requires core < |w.sessions| && w.sessions[core].issued.Some? && !Reachable(w, core)
    requires s < |Step(w, e).sessions| && (s < |w.sessions| ==> w.sessions[s].core != core)
    ensures Step(w, e).sessions[s].core != core
  {
    if e.MaskCookies? {
      var w1 := Present(w, e.session, e.cookies);
      PresentReaches(w, e.session, e.cookies, core);
      PresentInv(w, e.session, e.cookies);
      MaskLoopNeverAttaches(w1, e.session, e.cookies, core, s);
    }
  }

  lemma PresentReaches(w: World, s: nat, cookies: seq<Cookie>, core: nat)
    requires w.Wired() && s < |w.sessions|
    ensures Reachable(Present(w, s, cookies), core) <==> Reachable(w, core)
  {
    var w1 := Present(w, s, cookies);
    assert forall n :: n in w.table ==> w1.sessions[w1.table[n]].core == w.sessions[w.table[n]].core;
  }

  lemma MaskLoopNeverAttaches(w: World, s: nat, cookies: seq<Cookie>, core: nat, t: nat)
    requires Inv(w) && Private(w, s) && !Reachable(w, core)
    requires t < |w.sessions| && w.sessions[t].core != core
    ensures MaskLoop(w, s, cookies).world.sessions[t].core != core
  {
    MaskLoopMeaning(w, s, cookies);
    LoopEndsOnLastProved(w, s, cookies);
    ProvedAreReachable(w, cookies);
  }

  /** Destruction is a logout for everybody else: once a registered core is out of the table,
      no session masked later, in any continuation, is ever attached to it. */
  lemma {:induction false} NobodyAttachesLater(w: World, es: seq<Event>, core: nat, s: nat)
    requires Inv(w) && Possible(w, es)
    requires core < |w.sessions| && w.sessions[core].issued.Some? && !Reachable(w, core)
    requires s < |w.sessions| ==> w.sessions[s].core != core
    ensures s < |Run(w, es).sessions| ==> Run(w, es).sessions[s].core != core
    decreases |es|
  {
    if es != [] {
      var w' := Step(w, es[0]);
      if s < |w'.sessions| {
        StepNeverAttaches(w, es[0], core, s);
      }
      StepInv(w, es[0]);
      StaysDestroyed(w, es[0], core);
      RegisteredCoreIsStable(w, es[0], core);
      NobodyAttachesLater(w', es[1..], core, s);
    }
  }

  /** A stranger is asked to log in: a new session that proves nothing sees the login page,
      with no message, whatever form it carries. */
  lemma StrangerMustLogIn(w: World, e: Event, id: string, form: Form, answer: Answer, token: TokenBytes)
    requires Inv(w) && e.MaskCookies? && Allowed(w, e) && w.cores[e.session].data == map[]
    requires Proved(Present(w, e.session, e.cookies), e.cookies) == []
    ensures Login(Step(w, e), e.session, id, form, answer, token).page == LoginPage("", Encode(token))
  {
    var w1 := Present(w, e.session, e.cookies);
    PresentInv(w, e.session, e.cookies);
    StrangerBringsNothing(w1, e.session, e.cookies);
    NewcomerSeesLoginPage(Step(w, e), e.session, id, form, answer, token);
  }

  lemma NewcomerSeesLoginPage(w: World, s: nat, id: string, form: Form, answer: Answer, token: TokenBytes)
    requires w.Wired() && s < |w.sessions| && w.DataOf(s) == map[]
    ensures Login(w, s, id, form, answer, token).page == LoginPage("", Encode(token))
  {}

  lemma StrangerBringsNothing(w: World, s: nat, cookies: seq<Cookie>)
    requires Inv(w) && Private(w, s) && w.cores[s].data == map[] && Proved(w, cookies) == []
    ensures var u := MaskLoop(w, s, cookies).world; u.sessions[s].core == s && u.cores[s].data == map[]
  {
    MaskLoopMeaning(w, s, cookies);
    var touched := Touched(w, s, cookies);
    assert touched == [s];
    assert LastAt(touched, 0);
    assert touched[..1] == touched && touched[..0] == [];
    assert MergedData(w, touched) == w.cores[s].data + MergedData(w, touched[..0]);
  }
}
