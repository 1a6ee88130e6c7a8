/** The session handler, its sessions and their shared cores as objects that are updated in
    place. Several sessions may point at one core; every method is proved to do to these
    objects exactly what the state machine of module Sessions does to its values. */
module SessionStore {
  import opened Wrappers
  import opened CookieNames
  import opened Sessions
  import opened SessionInvariants

  lemma MaskLoopAdvances(w: World, s: nat, cookies: seq<Cookie>, i: nat, p: Progress)
    requires w.Wired() && s < |w.sessions| && i < |cookies|
    requires p == MaskLoop(w, s, cookies[..i])
    ensures MaskLoop(w, s, cookies[..i + 1]) == MaskOne(p, s, cookies[i])
  {
    assert cookies[..i + 1][..i] == cookies[..i];
  }

  class Core {
    var cvalue: string
    var data: map<string, Value>
    ghost const id: nat

    constructor (ghost id: nat)
      ensures this.id == id && cvalue == "" && data == map[]
    {
      this.id := id;
      cvalue := "";
      data := map[];
    }

    /** Copy every key of the source over this core's data. The source may be this core. */
    method AbsorbFrom(source: Core)
      modifies this`data
      ensures data == old(data) + old(source.data)
    {
      var todo := source.data.Keys;
      ghost var d0, s0 := data, source.data;
      while todo != {}
        invariant todo <= s0.Keys
        invariant source.data.Keys == s0.Keys
        invariant forall k :: k in s0 ==> source.data[k] == s0[k]
        invariant data == d0 + (map k | k in s0 && k !in todo :: s0[k])
        decreases todo
      {
        var key :| key in todo;
        data := data[key := source.data[key]];
        todo := todo - {key};
      }
      assert (map k | k in s0 && k !in todo :: s0[k]) == s0;
    }
  }

  class Session {
    var core: Core
    const handler: Handler
    ghost const id: nat

    constructor (handler: Handler, core: Core, ghost id: nat)
      ensures this.handler == handler && this.core == core && this.id == id
    {
      this.handler := handler;
      this.core := core;
      this.id := id;
    }

    /** The session belongs to its handler. */
    ghost predicate Valid()
      reads this, handler, handler.cores, handler.sessions
    {
      handler.Valid() && id < |handler.sessions| && handler.sessions[id] == this
    }

    method GetValue(key: string) returns (value: Option<Value>)
      requires Valid()
      ensures value == if key in handler.model.DataOf(id) then Some(handler.model.DataOf(id)[key]) else None
    {
      if key !in core.data {
        value := None;
      } else {
        value := Some(core.data[key]);
      }
    }

    method SetValue(key: string, value: Value)
      requires Valid()
      modifies core`data, handler`model
      ensures Valid() && handler.model == old(handler.model).Write(id, key, value)
    {
      core.data := core.data[key := value];
      handler.model := handler.model.Write(id, key, value);
    }

    /** Adopt the core of an accepted session: merge, then re-point. */
    method Adopt(other: Session)
      requires Valid() && other.Valid() && other.handler == handler
      modifies this`core, other.core`data, handler`model
      ensures Valid() && core == old(other.core)
      ensures handler.model == old(handler.model.Merge(id, handler.model.sessions[other.id].core))
    {
      ghost var target := handler.model.sessions[other.id].core;
      other.core.AbsorbFrom(core);
      core := other.core;
      handler.model := handler.model.Merge(id, target);
    }

    /** One turn of the mask loop. */
    method Consider(cookie: Cookie, forwarded: seq<Cookie>, setCookies: seq<SetCookie>, needNew: bool)
      returns (forwarded': seq<Cookie>, setCookies': seq<SetCookie>, needNew': bool)
      requires Valid()
      modifies this`core, handler.cores, handler`table, handler`model
      ensures Valid()
      ensures handler.cores == old(handler.cores) && handler.sessions == old(handler.sessions)
      ensures Progress(handler.model, forwarded', setCookies', needNew')
                == MaskOne(Progress(old(handler.model), forwarded, setCookies, needNew), id, cookie)
    {
      forwarded', setCookies', needNew' := forwarded, setCookies, needNew;
      if Owns(handler.config.name, cookie.name) {
        if cookie.name in handler.table
           && |cookie.value| > 0
           && cookie.value == handler.table[cookie.name].core.cvalue
        {
          needNew' := false;
          Adopt(handler.table[cookie.name]);
        } else {
          handler.Forget(cookie.name);
          setCookies' := setCookies + [Expiry(cookie)];
        }
      } else {
        forwarded' := forwarded + [cookie];
      }
    }

    /** Enter this session into the table under a new cookie. */
    method Enrol(cookie: Cookie)
      requires Valid()
      modifies core`cvalue, handler`table, handler`model
      ensures Valid() && handler.model == Register(old(handler.model), id, cookie)
    {
      core.cvalue := cookie.value;
      handler.table := handler.table[cookie.name := this];
      handler.model := Register(handler.model, id, cookie);
    }

    /** Mark the cookies presented in the history; no change to the objects. */
    ghost method Record(incoming: seq<Cookie>)
      requires Valid()
      modifies handler`model
      ensures Valid() && handler.model == Present(old(handler.model), id, incoming)
    {
      handler.model := Present(handler.model, id, incoming);
    }

    /** The mask loop: which cookies are forwarded or expired, and is a new one needed. */
    method Sift(incoming: seq<Cookie>)
      returns (forwarded: seq<Cookie>, setCookies: seq<SetCookie>, newCookieNeeded: bool)
      requires Valid()
      modifies this`core, handler.cores, handler`table, handler`model
      ensures Valid()
      ensures handler.cores == old(handler.cores) && handler.sessions == old(handler.sessions)
      ensures Progress(handler.model, forwarded, setCookies, newCookieNeeded)
                == MaskLoop(old(handler.model), id, incoming)
    {
      ghost var w := handler.model;
      ghost var p := MaskLoop(w, id, []);
      forwarded, setCookies, newCookieNeeded := [], [], true;
      var i := 0;
      while i < |incoming|
        invariant 0 <= i <= |incoming|
        invariant Valid() && handler.cores == old(handler.cores) && handler.sessions == old(handler.sessions)
        invariant p == Progress(handler.model, forwarded, setCookies, newCookieNeeded)
        invariant p == MaskLoop(w, id, incoming[..i])
      {
        MaskLoopAdvances(w, id, incoming, i, p);
        forwarded, setCookies, newCookieNeeded := Consider(incoming[i], forwarded, setCookies, newCookieNeeded);
        p := MaskOne(p, id, incoming[i]);
        i := i + 1;
      }
      assert incoming[..i] == incoming;
    }

    method CookieMask(incoming: seq<Cookie>, draws: seq<NameBytes>, secret: ValueBytes)
      returns (forwarded: seq<Cookie>, setCookies: seq<SetCookie>, completed: bool)
      requires Valid()
      modifies this`core, handler.cores, handler`table, handler`model
      ensures Valid()
      ensures handler.cores == old(handler.cores) && handler.sessions == old(handler.sessions)
      ensures MaskReply(handler.model, forwarded, setCookies, completed)
                == Mask(old(handler.model), id, incoming, draws, secret)
    {
      ghost var p := MaskLoop(Present(handler.model, id, incoming), id, incoming);
      Record(incoming);
      var newCookieNeeded;
      forwarded, setCookies, newCookieNeeded := Sift(incoming);
      assert p == Progress(handler.model, forwarded, setCookies, newCookieNeeded);
      completed := true;
      if newCookieNeeded {
        var cookie := handler.GenCookie(draws, secret);
        if cookie.None? {
          completed := false;
        } else {
          setCookies := setCookies + [Issue(handler.config, cookie.value)];
          Enrol(cookie.value);
        }
      }
    }
  }

  class Handler {
    const config: Config
    var table: map<string, Session>
    ghost var cores: seq<Core>
    ghost var sessions: seq<Session>
    ghost var model: World

    ghost predicate Valid()
      reads this, cores, sessions
    {
      && model.Wired()
      && model.config == config
      && |cores| == |model.cores| && |sessions| == |model.sessions|
      && (forall i :: 0 <= i < |cores| ==>
            && cores[i].id == i
            && cores[i].cvalue == model.cores[i].cvalue
            && cores[i].data == model.cores[i].data)
      && (forall i :: 0 <= i < |sessions| ==>
            && sessions[i].id == i
            && sessions[i].handler == this
            && sessions[i].core == cores[model.sessions[i].core])
      && table.Keys == model.table.Keys
      && (forall n :: n in table ==> table[n] == sessions[model.table[n]])
    }

    constructor (config: Config)
      ensures Valid() && model == Empty(config) && this.config == config
      ensures fresh(cores) && fresh(sessions)
    {
      this.config := config;
      table := map[];
      cores, sessions, model := [], [], Empty(config);
    }

    method GetSession() returns (session: Session)
      requires Valid()
      modifies this`cores, this`sessions, this`model
      ensures Valid() && session.Valid() && fresh(session) && fresh(session.core)
      ensures session.handler == this && session.id == |old(sessions)|
      ensures sessions == old(sessions) + [session] && cores == old(cores) + [session.core]
      ensures model == NewSession(old(model))
    {
      var core := new Core(|cores|);
      session := new Session(this, core, |sessions|);
      cores, sessions := cores + [core], sessions + [session];
      model := NewSession(model);
    }

    /** Delete a table entry, if there is one. */
    method Forget(name: string)
      requires Valid()
      modifies this`table, this`model
      ensures Valid() && model == old(model).(table := old(model).table - {name})
    {
      table := table - {name};
      model := model.(table := model.table - {name});
    }

    /** Draw names until one is free; None if all the draws given collide. */
    method GenCookie(draws: seq<NameBytes>, secret: ValueBytes) returns (cookie: Option<Cookie>)
      requires Valid()
      ensures var name := FreshName(config.name, model.table.Keys, draws);
        cookie == if name.None? then None else Some(Cookie(name.value, Encode(secret)))
    {
      var k := 0;
      while k < |draws|
        invariant 0 <= k <= |draws|
        invariant FreshName(config.name, model.table.Keys, draws)
                    == FreshName(config.name, model.table.Keys, draws[k..])
      {
        var name := CookieName(config.name, draws[k]);
        if name !in table {
          return Some(Cookie(name, Encode(secret)));
        }
        k := k + 1;
      }
      cookie := None;
    }
  }

  /** The cookie mask filter: one new session per request, masked exactly once. */
  class CookieMaskFilter {
    const handler: Handler

    constructor (handler: Handler)
      ensures this.handler == handler
    {
      this.handler := handler;
    }

    /** The part of a request before the masked filter runs. */
    method Admit(cookies: seq<Cookie>, draws: seq<NameBytes>, secret: ValueBytes)
      returns (session: Session, forwarded: seq<Cookie>, setCookies: seq<SetCookie>, completed: bool)
      requires handler.Valid() && Inv(handler.model)
      modifies handler, handler.cores
      ensures session.Valid() && session.handler == handler && session.id == |old(handler.sessions)|
      ensures var w := NewSession(old(handler.model));
        MaskReply(handler.model, forwarded, setCookies, completed) == Mask(w, session.id, cookies, draws, secret)
      ensures Inv(handler.model)
    {
      StepInv(handler.model, Begin);
      session := handler.GetSession();
      MaskInv(handler.model, session.id, cookies, draws, secret);
      forwarded, setCookies, completed := session.CookieMask(cookies, draws, secret);
    }
  }

  /** A login handler in front of one downstream filter; `answer` is what its password
      checker says when it is asked. */
  class LoginHandler {
    const identifier: string

    constructor (identifier: string)
      ensures this.identifier == identifier
    {
      this.identifier := identifier;
    }

    /** The branch chain: nothing is written before its outcome is known. */
    method Examine(session: Session, form: Form, answer: Answer) returns (verdict: Verdict)
      requires session.Valid()
      ensures verdict == Judge(session.handler.model.DataOf(session.id), identifier, form, answer)
    {
      var xsrfKey, userKey, passwordKey := XsrfKey(identifier), UserKey(identifier), PasswordKey(identifier);
      var authd := session.GetValue(AuthKey(identifier));
      if authd == Some(Flag(true)) {
        return AlreadyIn;
      } else if authd.Some? {
        return Corrupt;
      }
      var stored := session.GetValue(xsrfKey);
      if stored.None? {
        verdict := Refused("", None);
      } else if form.Unparsable? {
        verdict := Refused("Bad request", None);
      } else if xsrfKey !in form.vals {
        verdict := Refused("Invalid credentials", None);
      } else if |form.vals[xsrfKey]| != 1 {
        verdict := Refused("Invalid credentials", None);
      } else if !stored.value.Text? {
        verdict := Crash;
      } else if stored.value.text != form.vals[xsrfKey][0] {
        verdict := Refused("Invalid credentials", None);
      } else if userKey !in form.vals {
        verdict := Refused("Invalid credentials", None);
      } else if passwordKey !in form.vals {
        verdict := Refused("Invalid credentials", None);
      } else if |form.vals[userKey]| != 1 || |form.vals[passwordKey]| != 1 {
        verdict := Refused("Bad request", None);
      } else {
        var question := Question(stored.value.text, form.vals[userKey][0], form.vals[passwordKey][0]);
        if answer == NoSuchIdentifier {
          verdict := Refused("Invalid credentials", Some(question));
        } else if answer == BadPassword {
          verdict := Refused("Invalid credentials", Some(question));
        } else if answer != Correct {
          verdict := Unanswered(question);
        } else {
          verdict := Granted(question);
        }
      }
    }

    /** Add a question to the history; no change to the objects. */
    ghost method Note(session: Session, question: Question, answer: Answer)
      requires session.Valid()
      modifies session.handler`model
      ensures session.Valid()
      ensures var w := old(session.handler.model);
        session.handler.model ==
          w.(log := w.log + [Asked(w.sessions[session.id].core, identifier, question, answer)])
    {
      var w := session.handler.model;
      session.handler.model :=
        w.(log := w.log + [Asked(w.sessions[session.id].core, identifier, question, answer)]);
    }

    method FilterRequest(session: Session, form: Form, answer: Answer, token: TokenBytes) returns (page: Page)
      requires session.Valid()
      modifies session.core`data, session.handler`model
      ensures session.Valid()
      ensures LoginReply(session.handler.model, page)
                == Login(old(session.handler.model), session.id, identifier, form, answer, token)
    {
      var verdict := Examine(session, form, answer);
      match verdict
      case AlreadyIn => page := Downstream;
      case Corrupt => page := ServerError;
      case Crash => page := Panic;
      case Unanswered(question) =>
        Note(session, question, answer);
        page := ServerError;
      case Granted(question) =>
        Note(session, question, answer);
        session.SetValue(AuthKey(identifier), Flag(true));
        page := Downstream;
      case Refused(message, checked) =>
        if checked.Some? {
          Note(session, checked.value, answer);
        }
        session.SetValue(XsrfKey(identifier), Text(Encode(token)));
        page := LoginPage(message, Encode(token));
    }
  }
}
