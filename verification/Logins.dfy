/** What a login request gets: every page and every write, decided by the data of the core, the
    submitted form and the answer of the password checker. */
module Logins {
  import opened Wrappers
  import opened CookieNames
  import opened Sessions
  import opened SessionHistory

  ghost predicate Has(form: Form, key: string) {
    form.Fields? && key in form.vals
  }

  /** Exactly one value for the key. */
  ghost predicate Carries(form: Form, key: string) {
    Has(form, key) && |form.vals[key]| == 1
  }

  /** One token was submitted, and a token is stored. */
  ghost predicate BringsToken(data: Data, id: string, form: Form) {
    "xsrf-" + id in data && Carries(form, "xsrf-" + id)
  }

  /** The one submitted token is the stored one. */
  ghost predicate TokenMatches(data: Data, id: string, form: Form) {
    BringsToken(data, id, form) && data["xsrf-" + id] == Text(form.vals["xsrf-" + id][0])
  }

  /** The checker is asked: nobody is logged in, and the token, one user and one password are there. */
  ghost predicate Asks(data: Data, id: string, form: Form) {
    && "authenticated-" + id !in data
    && TokenMatches(data, id, form)
    && Carries(form, "username-" + id) && Carries(form, "password-" + id)
  }

  ghost function AskedFor(id: string, form: Form): Question
    requires Carries(form, "xsrf-" + id) && Carries(form, "username-" + id) && Carries(form, "password-" + id)
  {
    Question(form.vals["xsrf-" + id][0], form.vals["username-" + id][0], form.vals["password-" + id][0])
  }

  /** What a visitor is told who is not let in and about whom the checker was not asked. */
  ghost function Complaint(data: Data, id: string, form: Form): string {
    if "xsrf-" + id !in data then ""
    else if form.Unparsable? then "Bad request"
    else if TokenMatches(data, id, form) && Has(form, "username-" + id) && Has(form, "password-" + id)
    then "Bad request"
    else "Invalid credentials"
  }

  /** The verdict on any data at all, those no run of the handler leaves behind included. */
  lemma VerdictMeaning(data: Data, id: string, form: Form, answer: Answer)
    ensures var v := Judge(data, id, form, answer);
      var flag := "authenticated-" + id;
      var panics := BringsToken(data, id, form) && !data["xsrf-" + id].Text?;
      && (v.AlreadyIn? <==> flag in data && data[flag] == Flag(true))
      && (v.Corrupt? <==> flag in data && data[flag] != Flag(true))
      && (v.Crash? <==> flag !in data && panics)
      && (Asks(data, id, form) ==>
            v == match answer
                 case Correct => Granted(AskedFor(id, form))
                 case CheckerError => Unanswered(AskedFor(id, form))
                 case BadPassword => Refused("Invalid credentials", Some(AskedFor(id, form)))
                 case NoSuchIdentifier => Refused("Invalid credentials", Some(AskedFor(id, form))))
      && (flag !in data && !panics && !Asks(data, id, form) ==>
            v == Refused(Complaint(data, id, form), None))
  {}

  /** The world after the history grew by these entries and one key of the core was written. */
  ghost function Wrote(w: World, core: nat, key: string, value: Value, entries: Log): World
    requires core < |w.cores|
  {
    w.(cores := w.cores[core := w.cores[core].(data := w.cores[core].data[key := value])],
       log := w.log + entries + [Put(core, key, value)])
  }

  /** The whole of a login request in a reachable store. Who is logged in passes through and
      changes nothing. When the checker is asked, the question is recorded: a good answer sets
      the flag and passes through, an error of the checker's own shows the error page and
      writes nothing, any other answer is a refusal. Every refusal stores a new token and
      shows the login page with that token and one of three messages. */
  lemma LoginOutcome(w: World, s: nat, id: string, form: Form, answer: Answer, token: TokenBytes)
    requires Recorded(w) && s < |w.sessions|
    ensures var core, data := w.sessions[s].core, w.DataOf(s);
      var r := Login(w, s, id, form, answer, token);
      var hex := Encode(token);
      && ("authenticated-" + id in data ==> r == LoginReply(w, Downstream))
      && (Asks(data, id, form) ==>
            var asked := Asked(core, id, AskedFor(id, form), answer);
            r == match answer
                 case Correct => LoginReply(Wrote(w, core, "authenticated-" + id, Flag(true), [asked]), Downstream)
                 case CheckerError => LoginReply(w.(log := w.log + [asked]), ServerError)
                 case BadPassword =>
                   LoginReply(Wrote(w, core, "xsrf-" + id, Text(hex), [asked]), LoginPage("Invalid credentials", hex))
                 case NoSuchIdentifier =>
                   LoginReply(Wrote(w, core, "xsrf-" + id, Text(hex), [asked]), LoginPage("Invalid credentials", hex)))
      && ("authenticated-" + id !in data && !Asks(data, id, form) ==>
            r == LoginReply(Wrote(w, core, "xsrf-" + id, Text(hex), []), LoginPage(Complaint(data, id, form), hex)))
  {
    var core, data := w.sessions[s].core, w.DataOf(s);
    KeysApart(id, id);
    VerdictMeaning(data, id, form, answer);
    if "authenticated-" + id in data {
      ReservedKeysAreTyped(w.log, core, "authenticated-" + id);
    }
    if "xsrf-" + id in data {
      ReservedKeysAreTyped(w.log, core, "xsrf-" + id);
    }
    assert w.log + [] == w.log;
  }

  /** Hence the error page is shown exactly when the checker, properly asked, failed; nothing
      is written then, and the question is recorded. */
  lemma ErrorPageIff(w: World, s: nat, id: string, form: Form, answer: Answer, token: TokenBytes)
    requires Recorded(w) && s < |w.sessions|
    ensures var r := Login(w, s, id, form, answer, token);
      && (r.page.ServerError? <==> Asks(w.DataOf(s), id, form) && answer == CheckerError)
      && (r.page.ServerError? ==>
            && r.world.cores == w.cores
            && r.world.log == w.log + [Asked(w.sessions[s].core, id, AskedFor(id, form), CheckerError)])
      && (r.page.LoginPage? ==>
            r.page.message in {"", "Bad request", "Invalid credentials"} && |r.page.token| == 128)
  {
    LoginOutcome(w, s, id, form, answer, token);
  }
}
