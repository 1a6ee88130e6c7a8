/** Where authentication comes from, and how often a password checker is asked. */
module Provenance {
  import opened CookieNames
  import opened Sessions
  import opened SessionHistory

  ghost predicate Authenticated(w: World, core: nat, id: string) {
    core < |w.cores| && AuthKey(id) in w.cores[core].data && w.cores[core].data[AuthKey(id)] == Flag(true)
  }

  /** Entry i wrote the value to some core, and the merges listed in `hops`, each after the
      one before, carried it from there to `core`. */
  ghost predicate Flows(log: Log, key: string, value: Value, i: nat, hops: seq<nat>, core: nat)
    decreases |hops|
  {
    if hops == [] then
      i < |log| && log[i] == Put(core, key, value)
    else
      var h := hops[|hops| - 1];
      && i < h < |log|
      && log[h].Merged? && log[h].target == core
      && key in log[h].copied && log[h].copied[key] == value
      && Flows(log[..h], key, value, i, hops[..|hops| - 1], log[h].source)
  }

  lemma FlowsLater(log: Log, e: Entry, key: string, value: Value, i: nat, hops: seq<nat>, core: nat)
    requires Flows(log, key, value, i, hops, core)
    ensures Flows(log + [e], key, value, i, hops, core)
  {
    if hops != [] {
      var h := hops[|hops| - 1];
      assert (log + [e])[..h] == log[..h];
    }
  }

  lemma FlowStarts(log: Log, key: string, value: Value, i: nat, hops: seq<nat>, core: nat)
    requires Flows(log, key, value, i, hops, core)
    ensures i < |log| && log[i].Put? && log[i].key == key && log[i].value == value
    decreases |hops|
  {}

  /** Every value in every core was put into some core and flowed here through merges. */
  lemma {:induction false} EveryValueFlowed(log: Log, core: nat, key: string)
    requires Legal(log) && key in Replay(log, core)
    ensures exists i: nat, hops: seq<nat> :: Flows(log, key, Replay(log, core)[key], i, hops, core)
    decreases |log|
  {
    if log != [] {
      var n := |log| - 1;
      var front, e := log[..n], log[n];
      var value := Replay(log, core)[key];
      assert log == front + [e];
      if e.Put? && e.core == core && e.key == key {
        assert Flows(log, key, value, n, [], core);
      } else if e.Merged? && e.target == core && key in e.copied {
        EveryValueFlowed(front, e.source, key);
        var i: nat, hops: seq<nat> :| Flows(front, key, value, i, hops, e.source);
        FlowStarts(front, key, value, i, hops, e.source);
        assert (hops + [n])[..|hops + [n]| - 1] == hops;
        assert Flows(log, key, value, i, hops + [n], core);
      } else {
        EveryValueFlowed(front, core, key);
        var i: nat, hops: seq<nat> :| Flows(front, key, value, i, hops, core);
        FlowsLater(front, e, key, value, i, hops, core);
      }
    }
  }

  /** History entry i is a successful login for the identifier: the checker accepted the
      password, the submitted token was the one stored on that core at that time, and the
      core was not authenticated yet; the flag was written by the very next entry. */
  ghost predicate LoginAt(log: Log, id: string, i: nat) {
    && i + 1 < |log|
    && log[i].Asked? && log[i].id == id && log[i].answer == Correct
    && XsrfKey(id) in Replay(log[..i], log[i].core)
    && Replay(log[..i], log[i].core)[XsrfKey(id)] == Text(log[i].question.token)
    && AuthKey(id) !in Replay(log[..i], log[i].core)
    && log[i + 1] == Put(log[i].core, AuthKey(id), Flag(true))
  }

  lemma FlagEntry(past: Log, e: Entry, id: string)
    requires LegalEntry(past, e) && e.Put? && e.key == AuthKey(id)
    ensures e.value == Flag(true) && past != []
    ensures var q := past[|past| - 1]; q.Asked? && q.answer == Correct && q.core == e.core && q.id == id
  {
    KeysApart(id, id);
    KeysApart(past[|past| - 1].id, id);
  }

  lemma AskedWhileLegal(log: Log, i: nat)
    requires Legal(log) && i < |log| && log[i].Asked?
    ensures var data, id := Replay(log[..i], log[i].core), log[i].id;
      XsrfKey(id) in data && data[XsrfKey(id)] == Text(log[i].question.token) && AuthKey(id) !in data
  {
    LegalAt(log, i);
  }

  lemma FlagWritesAreLogins(log: Log, id: string, i: nat)
    requires Legal(log) && i < |log| && log[i].Put? && log[i].key == AuthKey(id)
    ensures i > 0 && LoginAt(log, id, i - 1)
  {
    assert LegalEntry(log[..i], log[i]) by { LegalAt(log, i); }
    FlagEntry(log[..i], log[i], id);
    assert log[..i][i - 1] == log[i - 1];
    AskedWhileLegal(log, i - 1);
  }

  /** A successful login for the identifier, and merges leading from its core to this one. */
  ghost predicate LoginReaches(log: Log, id: string, i: nat, hops: seq<nat>, core: nat) {
    LoginAt(log, id, i) && Flows(log, AuthKey(id), Flag(true), i + 1, hops, core)
  }

  lemma FlagHasALogin(w: World, core: nat, id: string) returns (i: nat, hops: seq<nat>)
    requires Recorded(w) && Authenticated(w, core, id)
    ensures LoginReaches(w.log, id, i, hops, core)
  {
    EveryValueFlowed(w.log, core, AuthKey(id));
    i, hops :| Flows(w.log, AuthKey(id), Flag(true), i, hops, core);
    FlowStarts(w.log, AuthKey(id), Flag(true), i, hops, core);
    FlagWritesAreLogins(w.log, id, i);
    i := i - 1;
  }

  /** Provenance: in every run, a core is authenticated for an identifier only if some
      login for that identifier succeeded on some core, and merges lead from there to it. */
  lemma AuthenticationHasALogin(config: Config, es: seq<Event>, core: nat, id: string)
    requires Possible(Empty(config), es)
    requires Authenticated(Run(Empty(config), es), core, id)
    ensures exists i: nat, hops: seq<nat> :: LoginReaches(Run(Empty(config), es).log, id, i, hops, core)
  {
    RunRecorded(Empty(config), es);
    var i, hops := FlagHasALogin(Run(Empty(config), es), core, id);
  }

  lemma {:induction false} MaskLoopNeverAsks(w: World, s: nat, cookies: seq<Cookie>)
    requires w.Wired() && s < |w.sessions|
    ensures var log := MaskLoop(w, s, cookies).world.log;
      w.log <= log && forall i :: |w.log| <= i < |log| ==> log[i].Merged?
  {
    if cookies != [] {
      MaskLoopNeverAsks(w, s, cookies[..|cookies| - 1]);
    }
  }

  /** The event put this question: a login request by a session attached to that core, with
      exactly the recorded token, user and password in its form and the recorded answer. */
  ghost predicate Puts(w: World, e: Event, a: Entry)
    requires w.Wired() && Allowed(w, e)
  {
    && e.TryLogin? && a.Asked?
    && w.sessions[e.session].core == a.core
    && e.id == a.id && e.answer == a.answer
    && e.form.Fields?
    && XsrfKey(e.id) in e.form.vals && e.form.vals[XsrfKey(e.id)] == [a.question.token]
    && UserKey(e.id) in e.form.vals && e.form.vals[UserKey(e.id)] == [a.question.user]
    && PasswordKey(e.id) in e.form.vals && e.form.vals[PasswordKey(e.id)] == [a.question.password]
  }

  lemma StepQuestions(w: World, e: Event)
    requires w.Wired() && Allowed(w, e)
    ensures var log := Step(w, e).log;
      && w.log <= log
      && forall i :: |w.log| <= i < |log| && log[i].Asked? ==> Puts(w, e, log[i])
  {
    match e
    case Begin =>
    case MaskCookies(s, cookies, _, _) => MaskLoopNeverAsks(Present(w, s, cookies), s, cookies);
    case SetValue(_, _, _) =>
    case TryLogin(s, id, form, answer, _) => QuestionsCarryTheToken(w.DataOf(s), id, form, answer);
  }

  ghost predicate PutsAt(w: World, es: seq<Event>, j: nat, a: Entry)
    requires w.Wired()
  {
    && j < |es| && Possible(w, es[..j]) && Allowed(Run(w, es[..j]), es[j])
    && Puts(Run(w, es[..j]), es[j], a)
  }

  /** Every question in the history was put by an event of the run. */
  lemma {:induction false} QuestionEvent(w: World, es: seq<Event>, i: nat) returns (j: nat)
    requires w.Wired() && Possible(w, es)
    requires |w.log| <= i < |Run(w, es).log| && Run(w, es).log[i].Asked?
    ensures PutsAt(w, es, j, Run(w, es).log[i])
    decreases |es|
  {
    var w' := Step(w, es[0]);
    StepQuestions(w, es[0]);
    RunExtendsLog(w', es[1..]);
    if i < |w'.log| {
      j := 0;
      assert es[..0] == [];
    } else {
      var k := QuestionEvent(w', es[1..], i);
      j := k + 1;
      assert es[..j][1..] == es[1..][..k] && es[..j][0] == es[0];
    }
  }

  lemma {:induction false} RunExtendsLog(w: World, es: seq<Event>)
    requires w.Wired() && Possible(w, es)
    ensures w.log <= Run(w, es).log
    decreases |es|
  {
    if es != [] {
      StepQuestions(w, es[0]);
      RunExtendsLog(Step(w, es[0]), es[1..]);
    }
  }

  /** The same in terms of requests: some request of the run logged in with the right token
      and an accepted password, through a session attached to the core the flag came from. */
  lemma AuthenticationHasALoginRequest(config: Config, es: seq<Event>, core: nat, id: string)
    returns (j: nat, i: nat, hops: seq<nat>)
    requires Possible(Empty(config), es)
    requires Authenticated(Run(Empty(config), es), core, id)
    ensures var log := Run(Empty(config), es).log;
      && LoginReaches(log, id, i, hops, core)
      && PutsAt(Empty(config), es, j, log[i])
  {
    RunRecorded(Empty(config), es);
    i, hops := FlagHasALogin(Run(Empty(config), es), core, id);
    j := QuestionEvent(Empty(config), es, i);
  }

  lemma {:induction false} MaskLoopKeepsFlags(w: World, s: nat, cookies: seq<Cookie>, core: nat, id: string)
    requires Recorded(w) && s < |w.sessions| && Authenticated(w, core, id)
    ensures Authenticated(MaskLoop(w, s, cookies).world, core, id)
  {
    if cookies != [] {
      var front, c := cookies[..|cookies| - 1], cookies[|cookies| - 1];
      MaskLoopKeepsFlags(w, s, front, core, id);
      MaskLoopRecorded(w, s, front);
      var u := MaskLoop(w, s, front).world;
      if AuthKey(id) in u.DataOf(s) {
        KeysApart(id, id);
        ReservedKeysAreTyped(u.log, u.sessions[s].core, AuthKey(id));
      }
    }
  }

  lemma LoginKeepsFlags(w: World, s: nat, id: string, form: Form, answer: Answer, token: TokenBytes,
                        core: nat, other: string)
    requires Recorded(w) && s < |w.sessions| && Authenticated(w, core, other)
    ensures Authenticated(Login(w, s, id, form, answer, token).world, core, other)
  {
    KeysApart(id, other);
    KeysApart(other, id);
  }

  lemma StepKeepsFlags(w: World, e: Event, core: nat, id: string)
    requires Recorded(w) && Allowed(w, e) && Authenticated(w, core, id)
    ensures Authenticated(Step(w, e), core, id)
  {
    match e
    case Begin =>
    case MaskCookies(s, cookies, _, _) => MaskLoopKeepsFlags(Present(w, s, cookies), s, cookies, core, id);
    case SetValue(_, key, _) => KeysApart(id, id);
    case TryLogin(s, id', form, answer, token) => LoginKeepsFlags(w, s, id', form, answer, token, core, id);
  }

  /** Once a core is authenticated it stays so, whatever happens next. */
  lemma {:induction false} AuthenticationStays(w: World, es: seq<Event>, core: nat, id: string)
    requires Recorded(w) && Possible(w, es) && Authenticated(w, core, id)
    ensures Authenticated(Run(w, es), core, id)
    decreases |es|
  {
    if es != [] {
      StepRecorded(w, es[0]);
      StepKeepsFlags(w, es[0], core, id);
      AuthenticationStays(Step(w, es[0]), es[1..], core, id);
    }
  }

  /** The downstream filter of an identifier runs exactly on requests whose core ends up
      authenticated for it; any other request leaves every flag as it was. */
  lemma DownstreamIffAuthenticated(w: World, s: nat, id: string, form: Form, answer: Answer, token: TokenBytes)
    requires Recorded(w) && s < |w.sessions|
    ensures var r := Login(w, s, id, form, answer, token);
      && (r.page.Downstream? <==> Authenticated(r.world, w.sessions[s].core, id))
      && (Authenticated(w, w.sessions[s].core, id) ==> r.page.Downstream? && r.world == w)
  {}

  /** Login handlers with different identifiers never set each other's flag, and no login
      attempt sets a flag on a core other than the one its session is attached to. */
  lemma LoginsDoNotInterfere(w: World, s: nat, id: string, form: Form, answer: Answer, token: TokenBytes,
                             core: nat, other: string)
    requires Recorded(w) && s < |w.sessions| && core < |w.cores|
    requires other != id || core != w.sessions[s].core
    ensures Authenticated(Login(w, s, id, form, answer, token).world, core, other) <==> Authenticated(w, core, other)
  {
    KeysApart(id, other);
    KeysApart(other, id);
  }

  /** A login attempt grants exactly when the stored token, one user and one password were
      submitted, nobody was logged in on the core, and the checker accepted them. */
  lemma GrantedIff(w: World, s: nat, id: string, form: Form, answer: Answer, token: TokenBytes)
    requires Recorded(w) && s < |w.sessions| && !Authenticated(w, w.sessions[s].core, id)
    ensures Login(w, s, id, form, answer, token).page.Downstream? <==>
      && form.Fields? && answer == Correct
      && XsrfKey(id) in w.DataOf(s)
      && XsrfKey(id) in form.vals && |form.vals[XsrfKey(id)]| == 1
      && w.DataOf(s)[XsrfKey(id)] == Text(form.vals[XsrfKey(id)][0])
      && UserKey(id) in form.vals && |form.vals[UserKey(id)]| == 1
      && PasswordKey(id) in form.vals && |form.vals[PasswordKey(id)]| == 1
  {
    KeysApart(id, id);
    var c := w.sessions[s].core;
    if AuthKey(id) in w.DataOf(s) {
      ReservedKeysAreTyped(w.log, c, AuthKey(id));
    }
    if XsrfKey(id) in w.DataOf(s) {
      ReservedKeysAreTyped(w.log, c, XsrfKey(id));
    }
  }

  function LoginForm(id: string, token: string, user: string, password: string): Form {
    Fields(map[XsrfKey(id) := [token], UserKey(id) := [user], PasswordKey(id) := [password]])
  }

  lemma FormKeysApart(id: string)
    ensures XsrfKey(id) != UserKey(id) && XsrfKey(id) != PasswordKey(id) && UserKey(id) != PasswordKey(id)
  {
    assert XsrfKey(id)[0] == 'x' && UserKey(id)[0] == 'u' && PasswordKey(id)[0] == 'p';
  }

  /** The login page carries the token the core now holds: sending it back with an accepted
      user and password, through any session on that core, logs in. */
  lemma LoginRoundTrip(w: World, s: nat, id: string, form: Form, answer: Answer, token: TokenBytes,
                       s': nat, user: string, password: string, token': TokenBytes)
    requires Recorded(w) && s < |w.sessions| && s' < |w.sessions|
    requires w.sessions[s'].core == w.sessions[s].core
    requires Login(w, s, id, form, answer, token).page.LoginPage?
    ensures var r := Login(w, s, id, form, answer, token);
      var back := LoginForm(id, r.page.token, user, password);
      && !Authenticated(r.world, w.sessions[s].core, id)
      && Login(r.world, s', id, back, Correct, token').page.Downstream?
      && Authenticated(Login(r.world, s', id, back, Correct, token').world, w.sessions[s].core, id)
  {
    var r := Login(w, s, id, form, answer, token);
    LoginRecorded(w, s, id, form, answer, token);
    KeysApart(id, id);
    FormKeysApart(id);
    var back := LoginForm(id, r.page.token, user, password);
    assert r.world.DataOf(s')[XsrfKey(id)] == Text(r.page.token);
    GrantedIff(r.world, s', id, back, Correct, token');
    DownstreamIffAuthenticated(r.world, s', id, back, Correct, token');
  }

  // ---------- token accounting ----------

  /** Password checks on the core that the checker answered. */
  ghost function Checks(log: Log, core: nat, id: string): nat {
    if log == [] then 0
    else
      var e := log[|log| - 1];
      Checks(log[..|log| - 1], core, id) +
      if e.Asked? && e.core == core && e.id == id && e.answer != CheckerError then 1 else 0
  }

  /** Tokens written to the core, by issue or by a merge from another core. */
  ghost function Tokens(log: Log, core: nat, id: string): nat {
    if log == [] then 0
    else
      var e := log[|log| - 1];
      Tokens(log[..|log| - 1], core, id) +
      if (e.Put? && e.core == core && e.key == XsrfKey(id))
         || (e.Merged? && e.target == core && e.source != core && XsrfKey(id) in e.copied) then 1 else 0
  }

  /** A token that could still be used for a check. */
  ghost function Usable(log: Log, core: nat, id: string): nat {
    if XsrfKey(id) in Replay(log, core) && AuthKey(id) !in Replay(log, core) then 1 else 0
  }

  ghost predicate Balanced(log: Log, core: nat, id: string) {
    Checks(log, core, id) + Usable(log, core, id) <= Tokens(log, core, id)
  }

  lemma CountsAppended(log: Log, e: Entry, core: nat, id: string)
    ensures Checks(log + [e], core, id) == Checks(log, core, id) +
      if e.Asked? && e.core == core && e.id == id && e.answer != CheckerError then 1 else 0
    ensures Tokens(log + [e], core, id) == Tokens(log, core, id) +
      if (e.Put? && e.core == core && e.key == XsrfKey(id))
         || (e.Merged? && e.target == core && e.source != core && XsrfKey(id) in e.copied) then 1 else 0
    ensures Replay(log + [e], core) == Extended(Replay(log, core), core, e)
  {}

  lemma MaskOneBalanced(p: Progress, s: nat, c: Cookie, core: nat, id: string)
    requires Recorded(p.world) && s < |p.world.sessions| && Balanced(p.world.log, core, id)
    ensures Balanced(MaskOne(p, s, c).world.log, core, id)
  {
    var w := p.world;
    if Owns(w.config.name, c.name) && w.Accepts(c) {
      MergeBalanced(w, s, w.sessions[w.table[c.name]].core, core, id);
    }
  }

  lemma MergeBalanced(w: World, s: nat, target: nat, core: nat, id: string)
    requires Recorded(w) && s < |w.sessions| && target < |w.cores| && Balanced(w.log, core, id)
    ensures Balanced(w.Merge(s, target).log, core, id)
  {
    var source := w.sessions[s].core;
    var e := Merged(source, target, w.DataOf(s));
    CountsAppended(w.log, e, core, id);
    if target == core && source == core {
      assert Replay(w.log, core) + w.DataOf(s) == Replay(w.log, core);
    }
  }

  lemma {:induction false} MaskLoopBalanced(w: World, s: nat, cookies: seq<Cookie>, core: nat, id: string)
    requires Recorded(w) && s < |w.sessions| && Balanced(w.log, core, id)
    ensures Balanced(MaskLoop(w, s, cookies).world.log, core, id)
  {
    if cookies != [] {
      var front, c := cookies[..|cookies| - 1], cookies[|cookies| - 1];
      MaskLoopBalanced(w, s, front, core, id);
      MaskLoopRecorded(w, s, front);
      MaskOneBalanced(MaskLoop(w, s, front), s, c, core, id);
    }
  }

  lemma TokenBalanced(log: Log, c: nat, id: string, value: Value, core: nat, other: string)
    requires Balanced(log, core, other)
    ensures Balanced(log + [Put(c, XsrfKey(id), value)], core, other)
  {}

  /** A question uses up a usable token: what follows it must either end the need for
      tokens by setting the flag or bring a new token. */
  lemma AnsweredBalanced(log: Log, c: nat, id: string, q: Question, answer: Answer, next: Entry,
                         core: nat, other: string)
    requires Balanced(log, core, other)
    requires XsrfKey(id) in Replay(log, c) && AuthKey(id) !in Replay(log, c)
    requires next.Put? && next.core == c && (next.key == AuthKey(id) || next.key == XsrfKey(id))
    ensures Balanced(log + [Asked(c, id, q, answer)] + [next], core, other)
  {
    KeysApart(id, other);
    KeysApart(other, id);
    var asked := Asked(c, id, q, answer);
    CountsAppended(log, asked, core, other);
    CountsAppended(log + [asked], next, core, other);
  }

  lemma LoginBalanced(w: World, s: nat, id: string, form: Form, answer: Answer, token: TokenBytes,
                      core: nat, other: string)
    requires Recorded(w) && s < |w.sessions| && Balanced(w.log, core, other)
    ensures Balanced(Login(w, s, id, form, answer, token).world.log, core, other)
  {
    var c := w.sessions[s].core;
    var data := w.DataOf(s);
    QuestionsCarryTheToken(data, id, form, answer);
    match Judge(data, id, form, answer)
    case AlreadyIn =>
    case Corrupt =>
    case Crash =>
    case Unanswered(q) => CountsAppended(w.log, Asked(c, id, q, answer), core, other);
    case Granted(q) => AnsweredBalanced(w.log, c, id, q, answer, Put(c, AuthKey(id), Flag(true)), core, other);
    case Refused(_, q) =>
      if q.Some? {
        AnsweredBalanced(w.log, c, id, q.value, answer, Put(c, XsrfKey(id), Text(Encode(token))), core, other);
      } else {
        TokenBalanced(w.log, c, id, Text(Encode(token)), core, other);
      }
  }

  lemma {:induction false} RunBalanced(w: World, es: seq<Event>, core: nat, id: string)
    requires Recorded(w) && Possible(w, es) && Balanced(w.log, core, id)
    ensures Balanced(Run(w, es).log, core, id)
    decreases |es|
  {
    if es != [] {
      StepRecorded(w, es[0]);
      match es[0] {
        case Begin =>
        case MaskCookies(s, cookies, _, _) => MaskLoopBalanced(Present(w, s, cookies), s, cookies, core, id);
        case SetValue(s, key, value) =>
          KeysApart(id, id);
          CountsAppended(w.log, Put(w.sessions[s].core, key, value), core, id);
        case TryLogin(s, id', form, answer, token) => LoginBalanced(w, s, id', form, answer, token, core, id);
      }
      RunBalanced(Step(w, es[0]), es[1..], core, id);
    }
  }

  /** Every answered password check used up a token written to that core for that purpose. */
  lemma ChecksNeverExceedTokens(config: Config, es: seq<Event>, core: nat, id: string)
    requires Possible(Empty(config), es)
    ensures var log := Run(Empty(config), es).log; Checks(log, core, id) <= Tokens(log, core, id)
  {
    RunBalanced(Empty(config), es, core, id);
  }
}
