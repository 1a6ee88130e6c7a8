/** The service monitor: a status that is cached while up, for a grace period, and a filter
    that fires triggers around it. */
module Monitor {
  import opened Wrappers
  import opened RateLimit
  import opened TriggerTree

  /** The result of dialling the service. */
  datatype Probe = Reached | Refused | Faulty

  /** The outside world, and the results of dialling in the order they are asked for. */
  datatype Surroundings = Surroundings(outside: Outside, probes: seq<Probe>)

  /** What was learnt about the service, and when. */
  datatype Finding = Probed(at: int, result: Probe) | Marked(at: int)

  datatype Service = Service(
    grace: int,
    up: bool,
    lastChecked: int,
    always: Option<Tree>,
    onUp: Option<Tree>,
    onDown: Option<Tree>,
    history: seq<Finding>)

  function NewService(grace: int, always: Option<Tree>, onUp: Option<Tree>, onDown: Option<Tree>): Service {
    Service(grace, false, ZERO_TIME, always, onUp, onDown, [])
  }

  // ---------- status ----------

  /** The next reading of the clock. */
  function Read(e: Surroundings): (r: Surroundings)
    ensures e.outside.now <= r.outside.now
  {
    e.(outside := Tick(e.outside))
  }

  function NextProbe(e: Surroundings): Probe {
    if e.probes == [] then Refused else e.probes[0]
  }

  datatype StatusReply = StatusReply(service: Service, after: Surroundings, up: bool, error: bool)

  /** Dial, then note the time; an error other than a refusal is reported, but the service
      counts as down either way. */
  function Reprobe(s: Service, e: Surroundings): (r: StatusReply)
    ensures e.outside.now <= r.after.outside.now
  {
    var p := NextProbe(e);
    var e1 := Read(e.(probes := if e.probes == [] then [] else e.probes[1..]));
    StatusReply(s.(up := p.Reached?, lastChecked := e1.outside.now, history := s.history + [Probed(e1.outside.now, p)]),
           e1, p.Reached?, p.Faulty?)
  }

  function Status(s: Service, e: Surroundings): (r: StatusReply)
    ensures e.outside.now <= r.after.outside.now
  {
    if !s.up then Reprobe(s, e)
    else
      var e1 := Read(e);
      if e1.outside.now > s.lastChecked + s.grace then Reprobe(s, e1) else StatusReply(s, e1, true, false)
  }

  function SetStatusUp(s: Service, e: Surroundings): (r: StatusReply)
    ensures e.outside.now <= r.after.outside.now
  {
    var e1 := Read(e);
    var now := e1.outside.now;
    StatusReply(s.(up := true, lastChecked := now, history := s.history + [Marked(now)]), e1, true, false)
  }

  lemma StatusKeepsTriggers(s: Service, e: Surroundings)
    ensures var u := Status(s, e).service; u.always == s.always && u.onUp == s.onUp && u.onDown == s.onDown
  {}

  // ---------- the filter ----------

  datatype Response = Passthru | InternalError | NotReady

  /** What a request did: the page, whether it probed, and which triggers it fired with what
      result (None: not fired). */
  datatype Report = Report(
    page: Response, probed: Option<Probe>, always: Option<bool>, onUp: Option<bool>, onDown: Option<bool>)

  datatype Reply = Reply(service: Service, after: Surroundings, report: Report)

  datatype Triggered = Triggered(trigger: Option<Tree>, after: Surroundings, result: Option<bool>)

  /** Fire a trigger if one is configured. */
  function FireIfSet(t: Option<Tree>, e: Surroundings): (r: Triggered)
    ensures e.outside.now <= r.after.outside.now
    ensures t.None? <==> r.result.None?
  {
    if t.None? then Triggered(None, e, None)
    else
      var f := Fire(t.value, [], e.outside);
      Triggered(Some(f.tree), e.(outside := f.outside), Some(f.ok))
  }

  function FilterRequest(s: Service, e: Surroundings): (r: Reply)
    ensures e.outside.now <= r.after.outside.now
  {
    var a := Status(s, e);
    var probed := if |a.service.history| > |s.history| then Some(a.service.history[|s.history|].result) else None;
    if a.error then Reply(a.service, a.after, Report(InternalError, probed, None, None, None))
    else
      var w := FireIfSet(a.service.always, a.after);
      var s1 := a.service.(always := w.trigger);
      if w.result == Some(false) then
        Reply(s1, w.after, Report(InternalError, probed, w.result, None, None))
      else if a.up then
        var u := FireIfSet(s1.onUp, w.after);
        Reply(s1.(onUp := u.trigger), u.after,
              Report(if u.result == Some(false) then InternalError else Passthru, probed, w.result, u.result, None))
      else
        var d := FireIfSet(s1.onDown, w.after);
        Reply(s1.(onDown := d.trigger), d.after,
              Report(if d.result == Some(false) then InternalError else NotReady, probed, w.result, None, d.result))
  }

  // ---------- the cache against the history ----------

  /** The latest thing learnt says up. */
  ghost predicate LatestSaysUp(history: seq<Finding>) {
    history != [] && var l := history[|history| - 1]; l.Marked? || l.result.Reached?
  }

  ghost predicate Faithful(s: Service, now: int) {
    && (s.up <==> LatestSaysUp(s.history))
    && (s.history != [] ==> s.lastChecked == s.history[|s.history| - 1].at)
    && (forall i :: 0 <= i < |s.history| ==> s.history[i].at <= now)
    && (forall i, j :: 0 <= i < j < |s.history| ==> s.history[i].at <= s.history[j].at)
  }

  /** Status answers up without probing exactly when the latest event was an up event no older
      than the grace period at the moment of asking; a down answer always comes with a failed
      probe made in the same call. */
  lemma StatusRefinesHistory(s: Service, e: Surroundings)
    requires Faithful(s, e.outside.now)
    ensures var a := Status(s, e);
      && Faithful(a.service, a.after.outside.now)
      && (a.service.history == s.history <==>
            LatestSaysUp(s.history) && Read(e).outside.now - s.history[|s.history| - 1].at <= s.grace)
      && (a.service.history == s.history ==> a.up && !a.error && a.service == s)
      && (a.service.history != s.history ==>
            && |a.service.history| == |s.history| + 1
            && a.service.history[..|s.history|] == s.history
            && a.service.history[|s.history|] == Probed(a.after.outside.now, NextProbe(e)))
      && (a.up <==> LatestSaysUp(a.service.history))
      && (!a.up ==> a.service.history != s.history && NextProbe(e) != Reached)
      && (a.error <==> a.service.history != s.history && NextProbe(e) == Faulty)
  {}

  lemma FilterKeepsHistory(s: Service, e: Surroundings)
    ensures FilterRequest(s, e).service.history == Status(s, e).service.history
    ensures FilterRequest(s, e).report.probed ==
              if Status(s, e).service.history == s.history then None else Some(NextProbe(e))
    ensures var r, a := FilterRequest(s, e).service, Status(s, e).service;
      r.up == a.up && r.lastChecked == a.lastChecked && r.grace == s.grace
  {}

  lemma FilterKeepsFaithful(s: Service, e: Surroundings)
    requires Faithful(s, e.outside.now)
    ensures Faithful(FilterRequest(s, e).service, FilterRequest(s, e).after.outside.now)
  {
    StatusRefinesHistory(s, e);
    FilterKeepsHistory(s, e);
    var r := FilterRequest(s, e);
    assert Status(s, e).after.outside.now <= r.after.outside.now;
  }

  /** Fired and succeeded, if it was set at all. */
  predicate Went(t: Option<Tree>, result: Option<bool>) {
    result == if t.Some? then Some(true) else None
  }

  lemma ReportCases(s: Service, e: Surroundings)
    ensures var a, r := Status(s, e), FilterRequest(s, e).report;
      && (a.error ==> r.page.InternalError? && r.always.None? && r.onUp.None? && r.onDown.None?)
      && (!a.error ==> (r.always.Some? <==> s.always.Some?))
      && (!a.error && !Went(s.always, r.always) ==> r.page.InternalError? && r.onUp.None? && r.onDown.None?)
      && (!a.error && Went(s.always, r.always) && a.up ==>
            && r.onDown.None? && (r.onUp.Some? <==> s.onUp.Some?)
            && r.page == if Went(s.onUp, r.onUp) then Passthru else InternalError)
      && (!a.error && Went(s.always, r.always) && !a.up ==>
            && r.onUp.None? && (r.onDown.Some? <==> s.onDown.Some?)
            && r.page == if Went(s.onDown, r.onDown) then NotReady else InternalError)
  {}

  /** The trigger is not set, or calling it here succeeds. */
  ghost predicate Succeeds(t: Option<Tree>, e: Surroundings) {
    t.None? || Fire(t.value, [], e.outside).ok
  }

  /** The surroundings a call of the trigger leaves, if it is set. */
  ghost function Leaves(t: Option<Tree>, e: Surroundings): Surroundings {
    if t.None? then e else e.(outside := Fire(t.value, [], e.outside).outside)
  }

  /** The trigger was called here, became this tree, and gave this result. */
  ghost predicate WasFired(t: Option<Tree>, e: Surroundings, after: Option<Tree>, result: Option<bool>) {
    && t.Some?
    && after == Some(Fire(t.value, [], e.outside).tree)
    && result == Some(Fire(t.value, [], e.outside).ok)
  }

  ghost predicate NotFired(t: Option<Tree>, after: Option<Tree>, result: Option<bool>) {
    after == t && result.None?
  }

  /** Fired if set. */
  ghost predicate Attempted(t: Option<Tree>, e: Surroundings, after: Option<Tree>, result: Option<bool>) {
    if t.Some? then WasFired(t, e, after, result) else NotFired(t, after, result)
  }

  /** What a request fires, in which surroundings, and what page the results lead to. */
  lemma TriggersDecide(s: Service, e: Surroundings)
    ensures var a, q := Status(s, e), FilterRequest(s, e);
      var u, r, w := q.service, q.report, Leaves(s.always, a.after);
      && (a.error ==>
            && NotFired(s.always, u.always, r.always) && NotFired(s.onUp, u.onUp, r.onUp)
            && NotFired(s.onDown, u.onDown, r.onDown) && q.after == a.after && r.page == InternalError)
      && (!a.error ==> Attempted(s.always, a.after, u.always, r.always))
      && (!a.error && !Succeeds(s.always, a.after) ==>
            && NotFired(s.onUp, u.onUp, r.onUp) && NotFired(s.onDown, u.onDown, r.onDown)
            && q.after == w && r.page == InternalError)
      && (!a.error && Succeeds(s.always, a.after) && a.up ==>
            && Attempted(s.onUp, w, u.onUp, r.onUp) && NotFired(s.onDown, u.onDown, r.onDown)
            && q.after == Leaves(s.onUp, w)
            && r.page == if Succeeds(s.onUp, w) then Passthru else InternalError)
      && (!a.error && Succeeds(s.always, a.after) && !a.up ==>
            && Attempted(s.onDown, w, u.onDown, r.onDown) && NotFired(s.onUp, u.onUp, r.onUp)
            && q.after == Leaves(s.onDown, w)
            && r.page == if Succeeds(s.onDown, w) then NotReady else InternalError)
  {
    StatusKeepsTriggers(s, e);
  }

  /** A request launches (fires onDown) exactly when its own probe was refused and always, if
      set, succeeded; it passes through exactly when the service is up by the history, and
      always and onUp, where set, succeeded; a faulty probe fires nothing. */
  lemma RequestMeaning(s: Service, e: Surroundings)
    requires Faithful(s, e.outside.now)
    ensures var q := FilterRequest(s, e);
      var r, history := q.report, q.service.history;
      var before := Status(s, e).after;
      var w := Leaves(s.always, before);
      && (r.onDown.Some? <==> s.onDown.Some? && r.probed == Some(Refused) && Succeeds(s.always, before))
      && (r.page.Passthru? <==>
            LatestSaysUp(history) && Succeeds(s.always, before) && Succeeds(s.onUp, w))
      && (r.page.NotReady? <==>
            r.probed == Some(Refused) && Succeeds(s.always, before) && Succeeds(s.onDown, w))
      && (r.onUp.Some? <==> s.onUp.Some? && LatestSaysUp(history) && Succeeds(s.always, before))
      && (r.probed.None? ==> LatestSaysUp(s.history))
      && (r.probed == Some(Faulty) ==> r.always.None? && r.onUp.None? && r.onDown.None? && r.page.InternalError?)
  {
    StatusRefinesHistory(s, e);
    FilterKeepsHistory(s, e);
    TriggersDecide(s, e);
  }

  /** The same by the reported results. */
  lemma ReportMeaning(s: Service, e: Surroundings)
    requires Faithful(s, e.outside.now)
    ensures var q := FilterRequest(s, e);
      var r, history := q.report, q.service.history;
      && (r.onDown.Some? <==> s.onDown.Some? && r.probed == Some(Refused) && Went(s.always, r.always))
      && (r.page.Passthru? <==>
            LatestSaysUp(history) && Went(s.always, r.always) && Went(s.onUp, r.onUp))
      && (r.page.NotReady? <==>
            r.probed == Some(Refused) && Went(s.always, r.always) && Went(s.onDown, r.onDown))
      && (r.onUp.Some? ==> LatestSaysUp(history) && r.onDown.None?)
  {
    StatusRefinesHistory(s, e);
    FilterKeepsHistory(s, e);
    ReportCases(s, e);
  }

  /** A visitor who is told to wait has caused the whole onDown tree, if there is one, to be
      called, and one who is passed through has caused the whole onUp tree to be called. */
  lemma PagesTellTheTruth(s: Service, e: Surroundings)
    requires Faithful(s, e.outside.now)
    ensures var q := FilterRequest(s, e);
      && (q.report.page.NotReady? && s.onDown.Some? ==>
            q.service.onDown.Some? && CalledThrough(s.onDown.value, q.service.onDown.value, []))
      && (q.report.page.Passthru? && s.onUp.Some? ==>
            q.service.onUp.Some? && CalledThrough(s.onUp.value, q.service.onUp.value, []))
      && (q.report.page.Passthru? || q.report.page.NotReady? ==>
            s.always.Some? ==>
              q.service.always.Some? && CalledThrough(s.always.value, q.service.always.value, []))
  {
    TriggersDecide(s, e);
    var before := Status(s, e).after;
    var w := Leaves(s.always, before);
    if s.always.Some? { ResultExplains(s.always.value, [], before.outside); }
    if s.onUp.Some? { ResultExplains(s.onUp.value, [], w.outside); }
    if s.onDown.Some? { ResultExplains(s.onDown.value, [], w.outside); }
  }

  /** What a visitor and the service can rely on: the page follows from the history and from
      what Always, OnUp and OnDown answer when they are called; OnDown is left alone unless a
      dial of this request was refused and Always, if set, succeeded. */
  ghost predicate KeepsPromise(s: Service, e: Surroundings, u: Service, page: Response) {
    var before := Status(s, e).after;
    var w := Leaves(s.always, before);
    var refused := u.history != s.history && NextProbe(e) == Refused;
    && (u.history == s.history
        || (u.history != [] && u.history == s.history + [Probed(u.history[|u.history| - 1].at, NextProbe(e))]))
    && (page.Passthru? <==> LatestSaysUp(u.history) && Succeeds(s.always, before) && Succeeds(s.onUp, w))
    && (page.NotReady? <==> refused && Succeeds(s.always, before) && Succeeds(s.onDown, w))
    && (u.onDown != s.onDown ==> refused && Succeeds(s.always, before))
  }

  lemma RequestKeepsPromise(s: Service, e: Surroundings)
    requires Faithful(s, e.outside.now)
    ensures KeepsPromise(s, e, FilterRequest(s, e).service, FilterRequest(s, e).report.page)
  {
    RequestMeaning(s, e);
    TriggersDecide(s, e);
    StatusRefinesHistory(s, e);
    FilterKeepsHistory(s, e);
  }

  // ---------- runs ----------

  datatype Op = Request | AskStatus | ForceProbe | MarkUp

  /** An operation after a pause, with its own clock steps, answers and probe results. */
  datatype Turn = Turn(op: Op, pause: nat, ticks: seq<nat>, answers: seq<bool>, probes: seq<Probe>)

  datatype Moment = Moment(service: Service, now: int)

  function TurnSurroundings(m: Moment, t: Turn): Surroundings {
    Surroundings(Outside(m.now + t.pause, t.ticks, t.answers), t.probes)
  }

  function TakeTurn(m: Moment, t: Turn): Moment {
    var e := TurnSurroundings(m, t);
    match t.op
    case Request => var r := FilterRequest(m.service, e); Moment(r.service, r.after.outside.now)
    case AskStatus => var a := Status(m.service, e); Moment(a.service, a.after.outside.now)
    case ForceProbe => var a := Reprobe(m.service, e); Moment(a.service, a.after.outside.now)
    case MarkUp => var a := SetStatusUp(m.service, e); Moment(a.service, a.after.outside.now)
  }

  function TakeTurns(m: Moment, turns: seq<Turn>): Moment
    decreases |turns|
  {
    if turns == [] then m else TakeTurns(TakeTurn(m, turns[0]), turns[1..])
  }

  ghost predicate TriggerSound(t: Option<Tree>, now: int) {
    t.Some? ==> Sound(t.value, [], now)
  }

  ghost predicate Inv(m: Moment) {
    && MAX_DURATION < m.now
    && Faithful(m.service, m.now)
    && TriggersSound(m.service, m.now)
  }

  ghost predicate TriggersSound(s: Service, now: int) {
    TriggerSound(s.always, now) && TriggerSound(s.onUp, now) && TriggerSound(s.onDown, now)
  }

  lemma TriggerLater(t: Option<Tree>, now: int, later: int)
    requires TriggerSound(t, now) && now <= later
    ensures TriggerSound(t, later)
  {
    if t.Some? {
      SoundLater(t.value, [], [], now, later);
    }
  }

  lemma FiringKeepsSound(t: Option<Tree>, e: Surroundings)
    requires TriggerSound(t, e.outside.now) && MAX_DURATION < e.outside.now
    ensures TriggerSound(FireIfSet(t, e).trigger, FireIfSet(t, e).after.outside.now)
  {
    if t.Some? {
      FireKeepsSound(t.value, [], [], e.outside);
      assert Stamped([], []) == [];
    }
  }

  lemma AllLater(s: Service, u: Service, now: int, later: int)
    requires TriggersSound(s, now) && now <= later
    requires u.always == s.always && u.onUp == s.onUp && u.onDown == s.onDown
    ensures TriggersSound(u, later)
  {
    TriggerLater(s.always, now, later);
    TriggerLater(s.onUp, now, later);
    TriggerLater(s.onDown, now, later);
  }

  lemma RequestKeepsTriggers(s: Service, e: Surroundings)
    requires TriggersSound(s, e.outside.now) && MAX_DURATION < e.outside.now
    ensures TriggersSound(FilterRequest(s, e).service, FilterRequest(s, e).after.outside.now)
  {
    var a := Status(s, e);
    StatusKeepsTriggers(s, e);
    AllLater(s, a.service, e.outside.now, a.after.outside.now);
    if !a.error {
      FiringKeepsSound(s.always, a.after);
      var w := FireIfSet(s.always, a.after);
      TriggerLater(s.onUp, a.after.outside.now, w.after.outside.now);
      TriggerLater(s.onDown, a.after.outside.now, w.after.outside.now);
      if w.result != Some(false) {
        var t := if a.up then s.onUp else s.onDown;
        FiringKeepsSound(t, w.after);
        var x := FireIfSet(t, w.after);
        TriggerLater(w.trigger, w.after.outside.now, x.after.outside.now);
        TriggerLater(s.onUp, w.after.outside.now, x.after.outside.now);
        TriggerLater(s.onDown, w.after.outside.now, x.after.outside.now);
      }
    }
  }

  lemma TurnKeepsTriggers(m: Moment, t: Turn)
    requires MAX_DURATION < m.now && TriggersSound(m.service, m.now)
    ensures TriggersSound(TakeTurn(m, t).service, TakeTurn(m, t).now)
  {
    var e := TurnSurroundings(m, t);
    AllLater(m.service, m.service, m.now, e.outside.now);
    match t.op
    case Request => RequestKeepsTriggers(m.service, e);
    case AskStatus =>
      StatusKeepsTriggers(m.service, e);
      AllLater(m.service, Status(m.service, e).service, e.outside.now, Status(m.service, e).after.outside.now);
    case ForceProbe =>
      var a := Reprobe(m.service, e);
      AllLater(m.service, a.service, e.outside.now, a.after.outside.now);
    case MarkUp =>
      var a := SetStatusUp(m.service, e);
      AllLater(m.service, a.service, e.outside.now, a.after.outside.now);
  }

  lemma TurnKeepsFaithful(m: Moment, t: Turn)
    requires Faithful(m.service, m.now)
    ensures Faithful(TakeTurn(m, t).service, TakeTurn(m, t).now)
  {
    var e := TurnSurroundings(m, t);
    match t.op
    case Request => FilterKeepsFaithful(m.service, e);
    case AskStatus => StatusRefinesHistory(m.service, e);
    case ForceProbe =>
    case MarkUp =>
  }

  lemma TurnKeepsInv(m: Moment, t: Turn)
    requires Inv(m)
    ensures Inv(TakeTurn(m, t))
  {
    TurnKeepsTriggers(m, t);
    TurnKeepsFaithful(m, t);
    TimeMovesOn(m, t);
  }

  lemma TimeMovesOn(m: Moment, t: Turn)
    ensures m.now <= TakeTurn(m, t).now
  {}

  lemma {:induction false} TurnsKeepInv(m: Moment, turns: seq<Turn>)
    requires Inv(m)
    ensures Inv(TakeTurns(m, turns))
    decreases |turns|
  {
    if turns != [] {
      TurnKeepsInv(m, turns[0]);
      TurnsKeepInv(TakeTurn(m, turns[0]), turns[1..]);
    }
  }

  ghost predicate PristineIfSet(t: Option<Tree>) {
    t.Some? ==> Pristine(t.value)
  }

  ghost predicate Built(s: Service) {
    && !s.up && s.history == []
    && PristineIfSet(s.always) && PristineIfSet(s.onUp) && PristineIfSet(s.onDown)
  }

  lemma BuiltInv(s: Service, now: int)
    requires Built(s) && MAX_DURATION < now
    ensures Inv(Moment(s, now))
  {
    if s.always.Some? { PristineIsSound(s.always.value, [], now); }
    if s.onUp.Some? { PristineIsSound(s.onUp.value, [], now); }
    if s.onDown.Some? { PristineIsSound(s.onDown.value, [], now); }
  }

  ghost predicate WithinRatesIfSet(t: Option<Tree>) {
    t.Some? ==> WithinRates(t.value, [])
  }

  /** In any run of requests, status queries, forced probes and explicit marks, the cache is
      faithful to the history and every trigger tree stays within the rates of its limiters. */
  lemma RunsStayWithinRates(s: Service, now: int, turns: seq<Turn>)
    requires Built(s) && MAX_DURATION < now
    ensures var r := TakeTurns(Moment(s, now), turns);
      && Faithful(r.service, r.now)
      && WithinRatesIfSet(r.service.always)
      && WithinRatesIfSet(r.service.onUp)
      && WithinRatesIfSet(r.service.onDown)
  {
    BuiltInv(s, now);
    TurnsKeepInv(Moment(s, now), turns);
    var r := TakeTurns(Moment(s, now), turns);
    if r.service.always.Some? { SoundIsWithinRates(r.service.always.value, [], [], r.now); }
    if r.service.onUp.Some? { SoundIsWithinRates(r.service.onUp.value, [], [], r.now); }
    if r.service.onDown.Some? { SoundIsWithinRates(r.service.onDown.value, [], [], r.now); }
  }

  /** Triggers a request does not fire stay as they were. */
  lemma UnfiredTriggersStay(s: Service, e: Surroundings)
    ensures var q := FilterRequest(s, e);
      && (q.report.always.None? ==> q.service.always == s.always)
      && (q.report.onUp.None? ==> q.service.onUp == s.onUp)
      && (q.report.onDown.None? ==> q.service.onDown == s.onDown)
      && (q.report.always.Some? ==>
            Fire(s.always.value, [], Status(s, e).after.outside).tree == q.service.always.value
            && Fire(s.always.value, [], Status(s, e).after.outside).ok == q.report.always.value)
  {
    StatusKeepsTriggers(s, e);
  }

  // ---------- launches ----------

  /** One call, at most, of each leaf of the tree. */
  ghost predicate LaunchedOnce(before: Option<Tree>, after: Option<Tree>) {
    before.Some? && after.Some? && CalledAtMostOnce(before.value, after.value, [])
  }

  /** A turn leaves onDown alone, unless it is a request whose own probe was just refused, with
      always, if set, having succeeded; then it calls each leaf of onDown at most once. */
  lemma OnDownChanges(m: Moment, t: Turn)
    requires Inv(m)
    ensures var e := TurnSurroundings(m, t);
      var q := FilterRequest(m.service, e);
      var after := TakeTurn(m, t).service.onDown;
      after != m.service.onDown ==>
        && t.op.Request?
        && q.report.probed == Some(Refused) && NextProbe(e) == Refused
        && Went(m.service.always, q.report.always)
        && LaunchedOnce(m.service.onDown, after)
  {
    var e := TurnSurroundings(m, t);
    StatusKeepsTriggers(m.service, e);
    if t.op.Request? {
      UnfiredTriggersStay(m.service, e);
      ReportMeaning(m.service, e);
      FilterKeepsHistory(m.service, e);
      if FilterRequest(m.service, e).report.onDown.Some? {
        OnDownFires(m.service, e);
      }
    }
  }

  /** A fired onDown is called in the world that always left. */
  lemma OnDownFires(s: Service, e: Surroundings)
    requires FilterRequest(s, e).report.onDown.Some?
    ensures s.onDown.Some?
    ensures var w := FireIfSet(s.always, Status(s, e).after);
      var f := Fire(s.onDown.value, [], w.after.outside);
      && FilterRequest(s, e).service.onDown == Some(f.tree)
      && CalledAtMostOnce(s.onDown.value, f.tree, [])
  {
    StatusKeepsTriggers(s, e);
    var w := FireIfSet(s.always, Status(s, e).after);
    FireCallsLeavesOnce(s.onDown.value, [], w.after.outside);
  }

  /** In any run, and whatever the onDown tree, everything that launches is a request whose own
      probe was just refused, with always, if set, having succeeded; it launches once. */
  lemma EveryLaunchIsJustified(s: Service, now: int, turns: seq<Turn>, i: nat)
    requires Built(s) && MAX_DURATION < now && i < |turns|
    ensures var m := TakeTurns(Moment(s, now), turns[..i]);
      var e := TurnSurroundings(m, turns[i]);
      var q := FilterRequest(m.service, e);
      var after := TakeTurn(m, turns[i]).service.onDown;
      after != m.service.onDown ==>
        && turns[i].op.Request?
        && q.report.probed == Some(Refused) && NextProbe(e) == Refused
        && Went(m.service.always, q.report.always)
        && LaunchedOnce(m.service.onDown, after)
  {
    BuiltInv(s, now);
    TurnsKeepInv(Moment(s, now), turns[..i]);
    OnDownChanges(TakeTurns(Moment(s, now), turns[..i]), turns[i]);
  }

  /** The onDown trigger is a rate limiter, around whatever it may be. */
  ghost predicate IsLauncher(t: Option<Tree>, rate: Rate) {
    && t.Some? && t.value.Limited?
    && Rate(t.value.limiter.maxAllowed, t.value.limiter.period) == rate
  }

  /** If what is limited is a single leaf, it was called once for every call let through. */
  ghost predicate OneStampPerLaunch(t: Tree) {
    t.Limited? && t.child.Leaf? ==>
      && |t.child.calls| == |t.guarded|
      && forall i :: 0 <= i < |t.guarded| ==> t.child.calls[i] == [t.guarded[i]]
  }

  /** The limiter let nothing through and nothing below it was called, or it let one call
      through and each leaf below it was called at most once, with that stamp. */
  ghost predicate LaunchesOnceOrNot(t: Tree, r: Tree)
    requires t.Limited? && r.Limited?
  {
    || (r.guarded == t.guarded && r.child == t.child)
    || (|r.guarded| == |t.guarded| + 1 && r.guarded[..|t.guarded|] == t.guarded
        && CalledAtMostOnce(t.child, r.child, [r.guarded[|t.guarded|]]))
  }

  lemma LauncherFires(t: Tree, e: Outside)
    requires t.Limited? && OneStampPerLaunch(t)
    ensures var r := Fire(t, [], e).tree;
      && r.Limited? && r.limiter.maxAllowed == t.limiter.maxAllowed && r.limiter.period == t.limiter.period
      && OneStampPerLaunch(r) && LaunchesOnceOrNot(t, r)
  {
    var e1 := Tick(e);
    FireCallsLeavesOnce(t.child, [e1.now], e1);
    assert [] + [e1.now] == [e1.now];
  }

  lemma LauncherStays(s: Service, e: Surroundings, rate: Rate)
    requires IsLauncher(s.onDown, rate) && OneStampPerLaunch(s.onDown.value)
    ensures var r := FilterRequest(s, e);
      && IsLauncher(r.service.onDown, rate) && OneStampPerLaunch(r.service.onDown.value)
      && LaunchesOnceOrNot(s.onDown.value, r.service.onDown.value)
      && (r.service.onDown != s.onDown ==> r.report.onDown.Some?)
  {
    UnfiredTriggersStay(s, e);
    if FilterRequest(s, e).report.onDown.Some? {
      OnDownFires(s, e);
      LauncherFires(s.onDown.value, FireIfSet(s.always, Status(s, e).after).after.outside);
    }
  }

  lemma {:induction false} LauncherRuns(m: Moment, turns: seq<Turn>, rate: Rate)
    requires IsLauncher(m.service.onDown, rate) && OneStampPerLaunch(m.service.onDown.value)
    ensures var d := TakeTurns(m, turns).service.onDown;
      IsLauncher(d, rate) && OneStampPerLaunch(d.value)
    decreases |turns|
  {
    if turns != [] {
      var e := TurnSurroundings(m, turns[0]);
      LauncherStays(m.service, e, rate);
      StatusKeepsTriggers(m.service, e);
      LauncherRuns(TakeTurn(m, turns[0]), turns[1..], rate);
    }
  }

  /** End to end: with a rate limiter as the onDown trigger, whatever it limits, in any run it
      lets at most maxAllowed calls through in any closed window of one period (once, if told
      to allow nothing), and each leaf below it is called at most that often, by the times
      at which the limiter let the calls through. */
  lemma LaunchesAreBounded(s: Service, now: int, turns: seq<Turn>, rate: Rate)
    requires Built(s) && MAX_DURATION < now
    requires IsLauncher(s.onDown, rate)
    ensures var d := TakeTurns(Moment(s, now), turns).service.onDown;
      && IsLauncher(d, rate) && OneStampPerLaunch(d.value)
      && Windowed(d.value.guarded, Limit(rate.maxAllowed), rate.period)
      && LeavesWithin(d.value.child, rate)
  {
    assert Pristine(s.onDown.value.child);
    LauncherRuns(Moment(s, now), turns, rate);
    RunsStayWithinRates(s, now, turns);
    var d := TakeTurns(Moment(s, now), turns).service.onDown;
    assert [] + [rate] == [rate];
    LeavesKeepOutermostRate(d.value.child, [rate]);
  }

  // ---------- the service as an object ----------

  class MinMonitorredService {
    const grace: int
    var up: bool
    var lastChecked: int
    var always: Option<Tree>
    var onUp: Option<Tree>
    var onDown: Option<Tree>
    ghost var history: seq<Finding>
    ghost var clock: int

    ghost function Model(): Service
      reads this
    {
      Service(grace, up, lastChecked, always, onUp, onDown, history)
    }

    /** The cache agrees with the history, which ends no later than the last clock reading. */
    ghost predicate Valid()
      reads this
    {
      Faithful(Model(), clock)
    }

    constructor (grace: int, onDown: Option<Tree>, onUp: Option<Tree>, always: Option<Tree>)
      ensures Valid() && history == [] && clock == ZERO_TIME
      ensures Model() == NewService(grace, always, onUp, onDown)
    {
      this.grace := grace;
      this.onDown, this.onUp, this.always := onDown, onUp, always;
      up, lastChecked, history, clock := false, ZERO_TIME, [], ZERO_TIME;
    }

    method DoReprobe(e: Surroundings) returns (isUp: bool, error: bool, after: Surroundings)
      requires Valid() && clock <= e.outside.now
      modifies this
      ensures Valid() && clock == after.outside.now
      ensures StatusReply(Model(), after, isUp, error) == Reprobe(old(Model()), e)
      ensures history == old(history) + [Probed(clock, NextProbe(e))]
      ensures isUp <==> NextProbe(e) == Reached
      ensures error <==> NextProbe(e) == Faulty
    {
      var p := NextProbe(e);
      after := Read(e.(probes := if e.probes == [] then [] else e.probes[1..]));
      lastChecked := after.outside.now;
      history := history + [Probed(after.outside.now, p)];
      clock := after.outside.now;
      match p {
        case Reached =>
          up := true;
          isUp, error := true, false;
        case Refused =>
          up := false;
          isUp, error := false, false;
        case Faulty =>
          up := false;
          isUp, error := false, true;
      }
    }

    /** Up without dialling exactly when the latest finding says up and is no older than the
        grace period; otherwise the answer is that of a dial made in this call. */
    method DoStatus(e: Surroundings) returns (isUp: bool, error: bool, after: Surroundings)
      requires Valid() && clock <= e.outside.now
      modifies this
      ensures Valid() && clock == after.outside.now
      ensures StatusReply(Model(), after, isUp, error) == Status(old(Model()), e)
      ensures history == old(history) <==>
                LatestSaysUp(old(history)) && Read(e).outside.now - old(history)[|old(history)| - 1].at <= grace
      ensures history == old(history) ==> isUp && !error
      ensures history != old(history) ==> history == old(history) + [Probed(clock, NextProbe(e))]
      ensures isUp <==> LatestSaysUp(history)
    {
      StatusRefinesHistory(Model(), e);
      after := e;
      var stale := !up;
      if up {
        after := Read(e);
        clock := after.outside.now;
        stale := after.outside.now > lastChecked + grace;
      }
      if stale {
        isUp, error, after := DoReprobe(after);
      } else {
        isUp, error := true, false;
      }
    }

    method DoSetStatusUp(e: Surroundings) returns (after: Surroundings)
      requires Valid() && clock <= e.outside.now
      modifies this
      ensures Valid() && clock == after.outside.now
      ensures StatusReply(Model(), after, true, false) == SetStatusUp(old(Model()), e)
      ensures history == old(history) + [Marked(clock)] && LatestSaysUp(history)
    {
      after := Read(e);
      lastChecked := after.outside.now;
      up := true;
      history := history + [Marked(after.outside.now)];
      clock := after.outside.now;
    }

    /** Passthru only when the service is up by the history; onDown untouched unless a dial of
        this request was refused. */
    method DoFilterRequest(e: Surroundings) returns (page: Response, after: Surroundings)
      requires Valid() && clock <= e.outside.now
      modifies this
      ensures Valid() && clock == after.outside.now
      ensures var r := FilterRequest(old(Model()), e);
        Model() == r.service && after == r.after && page == r.report.page
      ensures KeepsPromise(old(Model()), e, Model(), page)
    {
      RequestKeepsPromise(Model(), e);
      FilterKeepsFaithful(Model(), e);
      page, after := Serve(e);
    }

    /** The branches of a request. */
    method Serve(e: Surroundings) returns (page: Response, after: Surroundings)
      requires Valid() && clock <= e.outside.now
      modifies this
      ensures clock == after.outside.now
      ensures var r := FilterRequest(old(Model()), e);
        Model() == r.service && after == r.after && page == r.report.page
    {
      var isUp, error;
      isUp, error, after := DoStatus(e);
      if error {
        return InternalError, after;
      }
      if always.Some? {
        var ok;
        ok, always, after := Call(always.value, after);
        if !ok {
          return InternalError, after;
        }
      }
      if isUp {
        if onUp.Some? {
          var ok;
          ok, onUp, after := Call(onUp.value, after);
          if !ok {
            return InternalError, after;
          }
        }
        return Passthru, after;
      }
      if onDown.Some? {
        var ok;
        ok, onDown, after := Call(onDown.value, after);
        if !ok {
          return InternalError, after;
        }
      }
      page := NotReady;
    }

    /** Call one trigger and read the clock it leaves. */
    method Call(t: Tree, e: Surroundings) returns (ok: bool, called: Option<Tree>, after: Surroundings)
      modifies this`clock
      ensures Triggered(called, after, Some(ok)) == FireIfSet(Some(t), e)
      ensures clock == after.outside.now
    {
      var f := Fire(t, [], e.outside);
      ok, called, after := f.ok, Some(f.tree), e.(outside := f.outside);
      clock := after.outside.now;
    }
  }
}
