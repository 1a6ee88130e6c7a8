/** The session store as a state machine on values: what the handler, session and login
    methods do to the table, the session objects, their shared cores, and the history. */
module Sessions {
  import opened Wrappers
  import opened CookieNames

  datatype Value = Flag(on: bool) | Text(text: string) | Other(tag: int)
  type Data = map<string, Value>

  datatype Cookie = Cookie(name: string, value: string)
  datatype SetCookie =
    SetCookie(name: string, value: string, path: string, domain: string, maxAge: int, httpOnly: bool)

  datatype Config = Config(name: string, path: string, domain: string)

  const COOKIE_MAX_AGE := 2 * 60 * 60
  const XSRF_TOKEN_BYTES := 64

  type TokenBytes = bs: seq<Byte> | |bs| == XSRF_TOKEN_BYTES witness seq(XSRF_TOKEN_BYTES, _ => 0)

  /** What the password checker says when it is asked. */
  datatype Answer = Correct | BadPassword | NoSuchIdentifier | CheckerError

  datatype Question = Question(token: string, user: string, password: string)

  /** The history: every write to a core, and every question put to a password checker. */
  datatype Entry =
    | Put(core: nat, key: string, value: Value)
    | Merged(source: nat, target: nat, copied: Data)
    | Asked(core: nat, id: string, question: Question, answer: Answer)

  datatype CoreState = CoreState(cvalue: string, data: Data)

  /** `presented` holds the cookies the session was masked with, `issued` the cookie
      registered for it; both are history. */
  datatype SessionState =
    SessionState(core: nat, presented: Option<seq<Cookie>>, issued: Option<Cookie>)

  /** Session number s is created together with core number s; later it may be re-pointed. */
  datatype World = World(
    config: Config,
    cores: seq<CoreState>,
    sessions: seq<SessionState>,
    table: map<string, nat>,
    log: seq<Entry>)
  {
    ghost predicate Wired() {
      && |cores| == |sessions|
      && (forall i :: 0 <= i < |sessions| ==> sessions[i].core < |cores|)
      && (forall n :: n in table ==> table[n] < |sessions|)
    }

    function DataOf(s: nat): Data
      requires Wired() && s < |sessions|
    {
      cores[sessions[s].core].data
    }

    /** The condition under which the mask accepts a cookie as proof of a session. */
    predicate Accepts(c: Cookie)
      requires Wired()
    {
      && Owns(config.name, c.name)
      && c.name in table
      && |c.value| > 0
      && c.value == cores[sessions[table[c.name]].core].cvalue
    }

    function Write(s: nat, key: string, value: Value): (w: World)
      requires Wired() && s < |sessions|
      ensures w.Wired() && w.sessions == sessions && w.table == table && w.config == config
    {
      var c := sessions[s].core;
      this.(cores := cores[c := cores[c].(data := cores[c].data[key := value])],
            log := log + [Put(c, key, value)])
    }

    /** Copy the session's data over the target core's, then adopt the target core. */
    function Merge(s: nat, target: nat): (w: World)
      requires Wired() && s < |sessions| && target < |cores|
      ensures w.Wired() && w.table == table && w.config == config
      ensures |w.sessions| == |sessions|
    {
      var copied := DataOf(s);
      this.(cores := cores[target := cores[target].(data := cores[target].data + copied)],
            sessions := sessions[s := sessions[s].(core := target)],
            log := log + [Merged(sessions[s].core, target, copied)])
    }
  }

  function Empty(config: Config): World {
    World(config, [], [], map[], [])
  }

  function NewSession(w: World): (w': World)
    requires w.Wired()
    ensures w'.Wired() && |w'.sessions| == |w.sessions| + 1
  {
    w.(cores := w.cores + [CoreState("", map[])],
       sessions := w.sessions + [SessionState(|w.cores|, None, None)])
  }

  // ---------- the cookie mask ----------

  datatype Progress = Progress(
    world: World, forwarded: seq<Cookie>, rejected: seq<SetCookie>, needNew: bool)

  function Expiry(c: Cookie): SetCookie {
    SetCookie(c.name, c.value, "", "", -1, false)
  }

  function Issue(config: Config, c: Cookie): SetCookie {
    SetCookie(c.name, c.value, config.path, config.domain, COOKIE_MAX_AGE, true)
  }

  function MaskOne(p: Progress, s: nat, c: Cookie): (q: Progress)
    requires p.world.Wired() && s < |p.world.sessions|
    ensures q.world.Wired() && |q.world.sessions| == |p.world.sessions|
  {
    var w := p.world;
    if !Owns(w.config.name, c.name) then
      p.(forwarded := p.forwarded + [c])
    else if w.Accepts(c) then
      p.(world := w.Merge(s, w.sessions[w.table[c.name]].core), needNew := false)
    else
      p.(world := w.(table := w.table - {c.name}), rejected := p.rejected + [Expiry(c)])
  }

  function MaskLoop(w: World, s: nat, cookies: seq<Cookie>): (p: Progress)
    requires w.Wired() && s < |w.sessions|
    ensures p.world.Wired() && |p.world.sessions| == |w.sessions|
  {
    if cookies == [] then
      Progress(w, [], [], true)
    else
      MaskOne(MaskLoop(w, s, cookies[..|cookies| - 1]), s, cookies[|cookies| - 1])
  }

  /** The first candidate that is not taken; None while every draw collides. */
  function FreshName(handler: string, taken: set<string>, draws: seq<NameBytes>): Option<string> {
    if draws == [] then None
    else if CookieName(handler, draws[0]) in taken then FreshName(handler, taken, draws[1..])
    else Some(CookieName(handler, draws[0]))
  }

  function Present(w: World, s: nat, cookies: seq<Cookie>): (w': World)
    requires w.Wired() && s < |w.sessions|
    ensures w'.Wired()
  {
    w.(sessions := w.sessions[s := w.sessions[s].(presented := Some(cookies))])
  }

  function Register(w: World, s: nat, c: Cookie): (w': World)
    requires w.Wired() && s < |w.sessions|
    ensures w'.Wired()
  {
    var k := w.sessions[s].core;
    w.(cores := w.cores[k := w.cores[k].(cvalue := c.value)],
       sessions := w.sessions[s := w.sessions[s].(issued := Some(c))],
       table := w.table[c.name := s])
  }

  /** `completed` is false when the draws given so far all collide: the call has changed
      the store but is still looking for a name. */
  datatype MaskReply = MaskReply(
    world: World, forwarded: seq<Cookie>, setCookies: seq<SetCookie>, completed: bool)

  function Mask(w: World, s: nat, cookies: seq<Cookie>, draws: seq<NameBytes>, secret: ValueBytes): (r: MaskReply)
    requires w.Wired() && s < |w.sessions|
    ensures r.world.Wired() && |r.world.sessions| == |w.sessions|
  {
    var p := MaskLoop(Present(w, s, cookies), s, cookies);
    if !p.needNew then
      MaskReply(p.world, p.forwarded, p.rejected, true)
    else
      match FreshName(w.config.name, p.world.table.Keys, draws)
      case None => MaskReply(p.world, p.forwarded, p.rejected, false)
      case Some(name) =>
        var c := Cookie(name, Encode(secret));
        MaskReply(Register(p.world, s, c), p.forwarded, p.rejected + [Issue(w.config, c)], true)
  }

  // ---------- the login handler ----------

  datatype Form = Unparsable | Fields(vals: map<string, seq<string>>)

  const AUTH_PREFIX := "authenticated-"
  const XSRF_PREFIX := "xsrf-"

  function AuthKey(id: string): string { AUTH_PREFIX + id }
  function XsrfKey(id: string): string { XSRF_PREFIX + id }
  function UserKey(id: string): string { "username-" + id }
  function PasswordKey(id: string): string { "password-" + id }

  /** Keys that only login handlers write. */
  predicate Reserved(key: string) {
    AUTH_PREFIX <= key || XSRF_PREFIX <= key
  }

  datatype Verdict =
    | AlreadyIn
    | Corrupt
    | Crash
    | Unanswered(question: Question)
    | Granted(question: Question)
    | Refused(message: string, checked: Option<Question>)

  function Judge(data: Data, id: string, form: Form, answer: Answer): Verdict {
    var x, u, p := XsrfKey(id), UserKey(id), PasswordKey(id);
    if AuthKey(id) in data then
      if data[AuthKey(id)] == Flag(true) then AlreadyIn else Corrupt
    else if x !in data then Refused("", None)
    else if form.Unparsable? then Refused("Bad request", None)
    else if x !in form.vals then Refused("Invalid credentials", None)
    else if |form.vals[x]| != 1 then Refused("Invalid credentials", None)
    else if !data[x].Text? then Crash
    else if data[x].text != form.vals[x][0] then Refused("Invalid credentials", None)
    else if u !in form.vals || p !in form.vals then Refused("Invalid credentials", None)
    else if |form.vals[u]| != 1 || |form.vals[p]| != 1 then Refused("Bad request", None)
    else
      var q := Question(data[x].text, form.vals[u][0], form.vals[p][0]);
      match answer
      case Correct => Granted(q)
      case BadPassword => Refused("Invalid credentials", Some(q))
      case NoSuchIdentifier => Refused("Invalid credentials", Some(q))
      case CheckerError => Unanswered(q)
  }

  datatype Page = Downstream | LoginPage(message: string, token: string) | ServerError | Panic

  datatype LoginReply = LoginReply(world: World, page: Page)

  function Login(w: World, s: nat, id: string, form: Form, answer: Answer, token: TokenBytes): (r: LoginReply)
    requires w.Wired() && s < |w.sessions|
    ensures r.world.Wired() && r.world.sessions == w.sessions
    ensures r.world.table == w.table && r.world.config == w.config
  {
    var c := w.sessions[s].core;
    match Judge(w.DataOf(s), id, form, answer)
    case AlreadyIn => LoginReply(w, Downstream)
    case Corrupt => LoginReply(w, ServerError)
    case Crash => LoginReply(w, Panic)
    case Unanswered(q) => LoginReply(w.(log := w.log + [Asked(c, id, q, answer)]), ServerError)
    case Granted(q) =>
      LoginReply(w.(log := w.log + [Asked(c, id, q, answer)]).Write(s, AuthKey(id), Flag(true)), Downstream)
    case Refused(message, q) =>
      var w1 := if q.Some? then w.(log := w.log + [Asked(c, id, q.value, answer)]) else w;
      LoginReply(w1.Write(s, XsrfKey(id), Text(Encode(token))), LoginPage(message, Encode(token)))
  }

  // ---------- runs ----------

  datatype Event =
    | Begin
    | MaskCookies(session: nat, cookies: seq<Cookie>, draws: seq<NameBytes>, secret: ValueBytes)
    | SetValue(session: nat, key: string, value: Value)
    | TryLogin(session: nat, id: string, form: Form, answer: Answer, token: TokenBytes)

  /** The protocol of the cookie mask filter: a session is masked at most once. Components
      other than login handlers keep off the login handlers' keys. */
  predicate Allowed(w: World, e: Event) {
    match e
    case Begin => true
    case MaskCookies(s, _, _, _) => s < |w.sessions| && w.sessions[s].presented.None?
    case SetValue(s, key, _) => s < |w.sessions| && !Reserved(key)
    case TryLogin(s, _, _, _, _) => s < |w.sessions|
  }

  function Step(w: World, e: Event): (w': World)
    requires w.Wired() && Allowed(w, e)
    ensures w'.Wired()
  {
    match e
    case Begin => NewSession(w)
    case MaskCookies(s, cookies, draws, secret) => Mask(w, s, cookies, draws, secret).world
    case SetValue(s, key, value) => w.Write(s, key, value)
    case TryLogin(s, id, form, answer, token) => Login(w, s, id, form, answer, token).world
  }

  predicate Possible(w: World, es: seq<Event>)
    requires w.Wired()
    decreases |es|
  {
    es == [] || (Allowed(w, es[0]) && Possible(Step(w, es[0]), es[1..]))
  }

  /** Any interleaving of any number of requests. */
  function Run(w: World, es: seq<Event>): (w': World)
    requires w.Wired() && Possible(w, es)
    ensures w'.Wired()
    decreases |es|
  {
    if es == [] then w else Run(Step(w, es[0]), es[1..])
  }
}
