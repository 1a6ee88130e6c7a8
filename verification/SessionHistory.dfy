/** The store is the replay of its history, and the history is disciplined: who may write
    a flag or a token, and when a password checker may be asked. */
module SessionHistory {
  import opened Wrappers
  import opened CookieNames
  import opened Sessions

  type Log = seq<Entry>

  /** The effect of one history entry on the data of a core. */
  ghost function Extended(data: Data, core: nat, e: Entry): Data {
    match e
    case Put(c, k, v) => if c == core then data[k := v] else data
    case Merged(_, t, copied) => if t == core then data + copied else data
    case Asked(_, _, _, _) => data
  }

  /** The data of a core according to the history alone: the last write of every key. */
  ghost function Replay(log: Log, core: nat): Data {
    if log == [] then map[]
    else
      Extended(Replay(log[..|log| - 1], core), core, log[|log| - 1])
  }

  /** A flag is only ever set right after the checker accepted a password for that
      identifier on that core; tokens are strings; a checker is only asked when the
      submitted token is the one stored and the flag is not set yet. */
  ghost predicate LegalEntry(past: Log, e: Entry) {
    match e
    case Put(c, k, v) =>
      && (AUTH_PREFIX <= k ==>
            && v == Flag(true)
            && past != []
            && var q := past[|past| - 1];
               q.Asked? && q.answer == Correct && q.core == c && k == AuthKey(q.id))
      && (XSRF_PREFIX <= k ==> v.Text?)
    case Merged(source, _, copied) => copied == Replay(past, source)
    case Asked(c, id, q, _) =>
      && XsrfKey(id) in Replay(past, c)
      && Replay(past, c)[XsrfKey(id)] == Text(q.token)
      && AuthKey(id) !in Replay(past, c)
  }

  ghost predicate Legal(log: Log) {
    log == [] || (Legal(log[..|log| - 1]) && LegalEntry(log[..|log| - 1], log[|log| - 1]))
  }

  ghost predicate WithinCores(log: Log, n: nat) {
    forall i :: 0 <= i < |log| ==>
      match log[i]
      case Put(c, _, _) => c < n
      case Merged(s, t, _) => s < n && t < n
      case Asked(c, _, _, _) => c < n
  }

  ghost predicate Recorded(w: World) {
    && w.Wired()
    && Legal(w.log)
    && WithinCores(w.log, |w.cores|)
    && forall c :: 0 <= c < |w.cores| ==> w.cores[c].data == Replay(w.log, c)
  }

  lemma LegalAt(log: Log, i: nat)
    requires Legal(log) && i < |log|
    ensures Legal(log[..i]) && LegalEntry(log[..i], log[i])
    decreases |log|
  {
    if i < |log| - 1 {
      LegalAt(log[..|log| - 1], i);
      assert log[..|log| - 1][..i] == log[..i];
    }
  }

  lemma {:induction false} UntouchedCoreIsEmpty(log: Log, c: nat)
    requires WithinCores(log, c)
    ensures Replay(log, c) == map[]
  {
    if log != [] {
      UntouchedCoreIsEmpty(log[..|log| - 1], c);
    }
  }

  // ---------- the history is kept by every step ----------

  lemma WriteRecorded(w: World, s: nat, key: string, value: Value)
    requires Recorded(w) && s < |w.sessions|
    requires LegalEntry(w.log, Put(w.sessions[s].core, key, value))
    ensures Recorded(w.Write(s, key, value))
  {}

  lemma MergeRecorded(w: World, s: nat, target: nat)
    requires Recorded(w) && s < |w.sessions| && target < |w.cores|
    ensures Recorded(w.Merge(s, target))
  {}

  lemma {:induction false} MaskLoopRecorded(w: World, s: nat, cookies: seq<Cookie>)
    requires Recorded(w) && s < |w.sessions|
    ensures Recorded(MaskLoop(w, s, cookies).world)
  {
    if cookies != [] {
      var front, c := cookies[..|cookies| - 1], cookies[|cookies| - 1];
      MaskLoopRecorded(w, s, front);
      var u := MaskLoop(w, s, front).world;
      if Owns(u.config.name, c.name) && u.Accepts(c) {
        MergeRecorded(u, s, u.sessions[u.table[c.name]].core);
      }
    }
  }

  lemma KeysApart(a: string, b: string)
    ensures AUTH_PREFIX <= AuthKey(a) && !(XSRF_PREFIX <= AuthKey(a))
    ensures XSRF_PREFIX <= XsrfKey(a) && !(AUTH_PREFIX <= XsrfKey(a))
    ensures AuthKey(a) == AuthKey(b) ==> a == b
    ensures XsrfKey(a) == XsrfKey(b) ==> a == b
    ensures AuthKey(a) != XsrfKey(b)
  {
    assert AuthKey(a)[0] == 'a' && XsrfKey(a)[0] == 'x' && XsrfKey(b)[0] == 'x';
    assert AuthKey(a)[|AUTH_PREFIX|..] == a && AuthKey(b)[|AUTH_PREFIX|..] == b;
    assert XsrfKey(a)[|XSRF_PREFIX|..] == a && XsrfKey(b)[|XSRF_PREFIX|..] == b;
  }

  lemma AskRecorded(w: World, e: Entry)
    requires Recorded(w) && e.Asked? && e.core < |w.cores| && LegalEntry(w.log, e)
    ensures Recorded(w.(log := w.log + [e]))
  {}

  /** Whenever the checker is asked, the submitted token was the stored one. */
  lemma QuestionsCarryTheToken(data: Data, id: string, form: Form, answer: Answer)
    ensures var v := Judge(data, id, form, answer);
      var q := if v.Unanswered? || v.Granted? then Some(v.question)
               else if v.Refused? then v.checked else None;
      q.Some? ==>
        && AuthKey(id) !in data && XsrfKey(id) in data && data[XsrfKey(id)] == Text(q.value.token)
        && form.Fields?
        && XsrfKey(id) in form.vals && form.vals[XsrfKey(id)] == [q.value.token]
        && UserKey(id) in form.vals && form.vals[UserKey(id)] == [q.value.user]
        && PasswordKey(id) in form.vals && form.vals[PasswordKey(id)] == [q.value.password]
        && (v.Granted? <==> answer == Correct)
        && (v.Unanswered? <==> answer == CheckerError)
  {}

  lemma LoginRecorded(w: World, s: nat, id: string, form: Form, answer: Answer, token: TokenBytes)
    requires Recorded(w) && s < |w.sessions|
    ensures Recorded(Login(w, s, id, form, answer, token).world)
  {
    var c := w.sessions[s].core;
    var data := w.DataOf(s);
    QuestionsCarryTheToken(data, id, form, answer);
    match Judge(data, id, form, answer)
    case AlreadyIn =>
    case Corrupt =>
    case Crash =>
    case Unanswered(q) => AskRecorded(w, Asked(c, id, q, answer));
    case Granted(q) => GrantRecorded(w, s, id, q);
    case Refused(_, q) =>
      KeysApart(id, id);
      if q.Some? {
        AskRecorded(w, Asked(c, id, q.value, answer));
        WriteRecorded(w.(log := w.log + [Asked(c, id, q.value, answer)]), s, XsrfKey(id), Text(Encode(token)));
      } else {
        WriteRecorded(w, s, XsrfKey(id), Text(Encode(token)));
      }
  }

  lemma GrantRecorded(w: World, s: nat, id: string, q: Question)
    requires Recorded(w) && s < |w.sessions|
    requires LegalEntry(w.log, Asked(w.sessions[s].core, id, q, Correct))
    ensures Recorded(w.(log := w.log + [Asked(w.sessions[s].core, id, q, Correct)]).Write(s, AuthKey(id), Flag(true)))
  {
    KeysApart(id, id);
    var e := Asked(w.sessions[s].core, id, q, Correct);
    AskRecorded(w, e);
    var u := w.(log := w.log + [e]);
    assert u.log[|u.log| - 1] == e;
    WriteRecorded(u, s, AuthKey(id), Flag(true));
  }

  lemma StepRecorded(w: World, e: Event)
    requires Recorded(w) && Allowed(w, e)
    ensures Recorded(Step(w, e))
  {
    match e
    case Begin => UntouchedCoreIsEmpty(w.log, |w.cores|);
    case MaskCookies(s, cookies, draws, secret) => MaskLoopRecorded(Present(w, s, cookies), s, cookies);
    case SetValue(s, key, value) => WriteRecorded(w, s, key, value);
    case TryLogin(s, id, form, answer, token) => LoginRecorded(w, s, id, form, answer, token);
  }

  /** In every reachable store each core holds exactly the last value written to it for
      every key, and the history obeys the discipline above. */
  lemma {:induction false} RunRecorded(w: World, es: seq<Event>)
    requires Recorded(w) && Possible(w, es)
    ensures Recorded(Run(w, es))
    decreases |es|
  {
    if es != [] {
      StepRecorded(w, es[0]);
      RunRecorded(Step(w, es[0]), es[1..]);
    }
  }

  /** Entry i is the last one that wrote the key to the core. */
  ghost predicate LastWrite(log: Log, core: nat, key: string, value: Value, i: nat) {
    && i < |log|
    && Writes(log[i], core, key) == Some(value)
    && forall j :: i < j < |log| ==> Writes(log[j], core, key) == None
  }

  ghost function Writes(e: Entry, core: nat, key: string): Option<Value> {
    match e
    case Put(c, k, v) => if c == core && k == key then Some(v) else None
    case Merged(_, t, copied) => if t == core && key in copied then Some(copied[key]) else None
    case Asked(_, _, _, _) => None
  }

  /** Replay means: the value of the last write, and absent if there was none. */
  lemma {:induction false} ReplayIsLastWrite(log: Log, core: nat, key: string)
    ensures key !in Replay(log, core) ==> forall i :: 0 <= i < |log| ==> Writes(log[i], core, key) == None
    ensures key in Replay(log, core) ==> exists i :: LastWrite(log, core, key, Replay(log, core)[key], i)
  {
    if log != [] {
      var n := |log| - 1;
      var front := log[..n];
      ReplayIsLastWrite(front, core, key);
      if Writes(log[n], core, key).Some? {
        assert LastWrite(log, core, key, Replay(log, core)[key], n);
      } else if key in Replay(front, core) {
        var i :| LastWrite(front, core, key, Replay(front, core)[key], i);
        assert LastWrite(log, core, key, Replay(log, core)[key], i);
      }
    }
  }

  // ---------- types of the reserved keys ----------

  lemma {:induction false} ReservedKeysAreTyped(log: Log, core: nat, key: string)
    requires Legal(log) && key in Replay(log, core)
    ensures AUTH_PREFIX <= key ==> Replay(log, core)[key] == Flag(true)
    ensures XSRF_PREFIX <= key ==> Replay(log, core)[key].Text?
    decreases |log|
  {
    if log != [] {
      var n := |log| - 1;
      if key in Replay(log[..n], core) {
        ReservedKeysAreTyped(log[..n], core, key);
      }
      match log[n]
      case Put(_, _, _) =>
      case Merged(source, t, copied) =>
        if t == core && key in copied {
          ReservedKeysAreTyped(log[..n], source, key);
        }
      case Asked(_, _, _, _) =>
    }
  }

  /** The stored token is always a string and the flag is never anything but true, so the
      login handler never panics and never meets a corrupt flag, in any run. */
  lemma LoginNeverCrashes(w: World, s: nat, id: string, form: Form, answer: Answer, token: TokenBytes)
    requires Recorded(w) && s < |w.sessions|
    ensures var page := Login(w, s, id, form, answer, token).page;
      && !page.Panic?
      && (page.ServerError? <==>
            Judge(w.DataOf(s), id, form, answer).Unanswered? && answer == CheckerError)
  {
    KeysApart(id, id);
    var c := w.sessions[s].core;
    if AuthKey(id) in w.DataOf(s) {
      ReservedKeysAreTyped(w.log, c, AuthKey(id));
    }
    if XsrfKey(id) in w.DataOf(s) {
      ReservedKeysAreTyped(w.log, c, XsrfKey(id));
    }
  }
}
