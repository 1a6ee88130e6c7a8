/** The delay trigger: callers, one worker and one timer with a one-slot channel, as a state
    machine over their atomic steps. A tick leaves the timer in two steps (the timer expires,
    then the tick lands in the channel), and the clock may move between any two steps. */
module DelayTrigger {
  import opened Wrappers

  /** Where the worker is. Absent: nobody has called yet. */
  datatype Worker =
    | Absent
    | Starting   // about to create the timer
    | Selecting  // waiting for a request or a tick
    | Stopping   // has a request, about to stop the timer
    | Draining   // the timer was not running: waiting for its tick
    | Resetting  // about to restart the timer
    | Firing     // has a tick, about to call the delayed trigger
    | Quieting   // about to stop the timer after firing

  /** The delayed trigger was called at this time, after this many requests were accepted. */
  datatype Shot = Shot(at: int, requests: nat)

  datatype State = State(
    delay: int,
    now: int,
    worker: Worker,
    deadline: Option<int>,  // set while the timer runs
    sending: Option<int>,   // an expired timer's tick on its way, with its deadline
    channel: Option<int>,   // the timer's channel
    waiting: nat,           // callers blocked on the request channel
    accepted: seq<int>,     // when each request so far was accepted
    shots: seq<Shot>)

  function Start(delay: int, now: int): State {
    State(delay, now, Absent, None, None, None, 0, [], [])
  }

  datatype Action =
    | Wait(time: nat)
    | FirstCall
    | LaterCall
    | CreateTimer
    | Expire
    | Deliver
    | Accept
    | StopTimer
    | Drain
    | ResetTimer
    | TakeTick
    | Shoot
    | Quiet

  predicate Enabled(s: State, a: Action) {
    match a
    case Wait(_) => true
    case FirstCall => s.worker.Absent?
    case LaterCall => !s.worker.Absent?
    case CreateTimer => s.worker.Starting?
    case Expire => s.deadline.Some? && s.now >= s.deadline.value
    case Deliver => s.sending.Some?
    case Accept => s.worker.Selecting? && s.waiting > 0
    case StopTimer => s.worker.Stopping?
    case Drain => s.worker.Draining? && s.channel.Some?
    case ResetTimer => s.worker.Resetting?
    case TakeTick => s.worker.Selecting? && s.channel.Some?
    case Shoot => s.worker.Firing?
    case Quiet => s.worker.Quieting?
  }

  function Next(s: State, a: Action): State
    requires Enabled(s, a)
  {
    match a
    case Wait(time) => s.(now := s.now + time)
    case FirstCall => s.(worker := Starting, accepted := s.accepted + [s.now])
    case LaterCall => s.(waiting := s.waiting + 1)
    case CreateTimer => s.(worker := Selecting, deadline := Some(s.now + s.delay))
    case Expire => s.(deadline := None, sending := s.deadline)
    case Deliver => s.(sending := None, channel := if s.channel.None? then s.sending else s.channel)
    case Accept => s.(waiting := s.waiting - 1, accepted := s.accepted + [s.now], worker := Stopping)
    case StopTimer => if s.deadline.Some? then s.(deadline := None, worker := Resetting) else s.(worker := Draining)
    case Drain => s.(channel := None, worker := Resetting)
    case ResetTimer => s.(deadline := Some(s.now + s.delay), worker := Selecting)
    case TakeTick => s.(channel := None, worker := Firing)
    case Shoot => s.(shots := s.shots + [Shot(s.now, |s.accepted|)], worker := Quieting)
    case Quiet => s.(deadline := None, worker := Selecting)
  }

  predicate Possible(s: State, actions: seq<Action>)
    decreases |actions|
  {
    actions == [] || (Enabled(s, actions[0]) && Possible(Next(s, actions[0]), actions[1..]))
  }

  /** Any interleaving of callers, clock, timer and worker. */
  function Run(s: State, actions: seq<Action>): State
    requires Possible(s, actions)
    decreases |actions|
  {
    if actions == [] then s else Run(Next(s, actions[0]), actions[1..])
  }

  lemma {:induction false} RunJoins(s: State, first: seq<Action>, more: seq<Action>)
    requires Possible(s, first) && Possible(Run(s, first), more)
    ensures Possible(s, first + more) && Run(s, first + more) == Run(Run(s, first), more)
    decreases |first|
  {
    if first == [] {
      assert first + more == more;
    } else {
      assert (first + more)[1..] == first[1..] + more;
      RunJoins(Next(s, first[0]), first[1..], more);
    }
  }

  lemma OneMore(s: State, actions: seq<Action>, a: Action) returns (longer: seq<Action>)
    requires Possible(s, actions) && Enabled(Run(s, actions), a)
    ensures longer == actions + [a]
    ensures Possible(s, longer) && Run(s, longer) == Next(Run(s, actions), a)
  {
    RunJoins(s, actions, [a]);
    longer := actions + [a];
  }

  // ---------- the invariant ----------

  /** The time is late enough for the first n requests. */
  ghost predicate LateFor(s: State, time: int, n: nat) {
    n <= |s.accepted| && forall i :: 0 <= i < n ==> s.accepted[i] + s.delay <= time
  }

  ghost predicate NoTick(s: State) {
    s.deadline.None? && s.sending.None? && s.channel.None?
  }

  /** Exactly one tick is underway, and it is not due too early for the first n requests. */
  ghost predicate OneTick(s: State, n: nat) {
    || (s.deadline.Some? && s.sending.None? && s.channel.None? && LateFor(s, s.deadline.value, n))
    || (s.deadline.None? && s.sending.Some? && s.channel.None?
        && LateFor(s, s.sending.value, n) && s.sending.value <= s.now)
    || (s.deadline.None? && s.sending.None? && s.channel.Some?
        && LateFor(s, s.channel.value, n) && s.channel.value <= s.now)
  }

  ghost predicate BeforeShot(s: State) {
    && s.shots == []
    && match s.worker
       case Absent => NoTick(s) && s.accepted == [] && s.waiting == 0
       case Starting => NoTick(s)
       case Selecting => OneTick(s, |s.accepted|)
       case Stopping => s.accepted != [] && OneTick(s, |s.accepted| - 1)
       case Draining => s.accepted != [] && s.deadline.None? && OneTick(s, |s.accepted| - 1)
       case Resetting => NoTick(s)
       case Firing => NoTick(s) && LateFor(s, s.now, |s.accepted|)
       case Quieting => false
  }

  ghost predicate AfterShot(s: State) {
    && |s.shots| == 1
    && LateFor(s, s.shots[0].at, s.shots[0].requests) && s.shots[0].at <= s.now
    && NoTick(s)
    && s.shots[0].requests <= |s.accepted|
    && match s.worker
       case Quieting => s.shots[0].requests == |s.accepted|
       case Selecting => s.shots[0].requests == |s.accepted|
       case Stopping => s.shots[0].requests == |s.accepted| - 1
       case Draining => s.shots[0].requests == |s.accepted| - 1
       case _ => false
  }

  ghost predicate Inv(s: State) {
    && (forall i :: 0 <= i < |s.accepted| ==> s.accepted[i] <= s.now)
    && (s.worker.Absent? <==> s.accepted == [])
    && (s.deadline.Some? ==> s.deadline.value <= s.now + s.delay)
    && (BeforeShot(s) || AfterShot(s))
  }

  lemma NextInv(s: State, a: Action)
    requires Inv(s) && Enabled(s, a)
    ensures Inv(Next(s, a))
  {
    if BeforeShot(s) {
      NextBeforeShot(s, a);
    } else {
      NextAfterShot(s, a);
    }
  }

  lemma NextBeforeShot(s: State, a: Action)
    requires Inv(s) && BeforeShot(s) && Enabled(s, a)
    ensures BeforeShot(Next(s, a)) || AfterShot(Next(s, a))
  {}

  lemma NextAfterShot(s: State, a: Action)
    requires Inv(s) && AfterShot(s) && Enabled(s, a)
    ensures AfterShot(Next(s, a))
  {}

  lemma {:induction false} RunInv(s: State, actions: seq<Action>)
    requires Inv(s) && Possible(s, actions)
    ensures Inv(Run(s, actions))
    decreases |actions|
  {
    if actions != [] {
      NextInv(s, actions[0]);
      RunInv(Next(s, actions[0]), actions[1..]);
    }
  }

  // ---------- safety ----------

  /** Debounce: in every interleaving, whenever the delayed trigger is called, at least the
      delay has passed since every request accepted before; it is called at most once. */
  lemma ShotsComeAfterTheDelay(delay: int, now: int, actions: seq<Action>)
    requires Possible(Start(delay, now), actions)
    ensures var s := Run(Start(delay, now), actions);
      && (forall k, i :: 0 <= k < |s.shots| && 0 <= i < s.shots[k].requests ==>
            i < |s.accepted| && s.accepted[i] + delay <= s.shots[k].at)
      && |s.shots| <= 1
      && |s.shots| <= |s.accepted|
  {
    RunInv(Start(delay, now), actions);
    DelayNeverChanges(Start(delay, now), actions);
  }

  lemma {:induction false} DelayNeverChanges(s: State, actions: seq<Action>)
    requires Possible(s, actions)
    ensures Run(s, actions).delay == s.delay
    decreases |actions|
  {
    if actions != [] {
      DelayNeverChanges(Next(s, actions[0]), actions[1..]);
    }
  }

  /** Until the first shot the drain always finds a tick: one is in the channel or about to
      land there; and no tick is left anywhere when the timer is restarted. */
  lemma DrainFindsATick(delay: int, now: int, actions: seq<Action>)
    requires Possible(Start(delay, now), actions)
    ensures var s := Run(Start(delay, now), actions);
      && (s.worker.Draining? && s.shots == [] ==> s.channel.Some? != s.sending.Some?)
      && (s.worker.Resetting? || s.worker.Starting? ==> NoTick(s))
  {
    RunInv(Start(delay, now), actions);
  }

  // ---------- progress up to the first shot ----------

  /** The steps the worker and the timer take by themselves. */
  predicate Internal(a: Action) {
    !a.Wait? && !a.FirstCall? && !a.LaterCall? && !a.Accept?
  }

  /** How many internal steps are left at most. */
  ghost function Left(s: State): nat {
    match s.worker
    case Firing => 1
    case Selecting => if s.channel.Some? then 2 else if s.sending.Some? then 3 else 4
    case Starting => 5
    case Resetting => 5
    case Draining => if s.channel.Some? then 6 else 7
    case Stopping => if s.channel.Some? then 7 else if s.sending.Some? then 8 else 9
    case _ => 0
  }

  /** Before the first shot every internal step leads closer to it. */
  lemma InternalStepsApproach(s: State, a: Action)
    requires Inv(s) && s.shots == [] && Enabled(s, a) && Internal(a)
    ensures Next(s, a).shots != [] || Left(Next(s, a)) < Left(s)
  {}

  /** And some internal step is possible, unless the timer is running and not yet due. */
  lemma NeverStuckBeforeShot(s: State) returns (a: Action)
    requires Inv(s) && s.shots == [] && !s.worker.Absent?
    ensures Internal(a)
    ensures Enabled(s, a) || (s.worker.Selecting? && s.deadline.Some? && s.now < s.deadline.value)
  {
    match s.worker
    case Absent =>
      assert false;
    case Starting => a := CreateTimer;
    case Selecting => a := if s.channel.Some? then TakeTick else if s.sending.Some? then Deliver else Expire;
    case Stopping => a := StopTimer;
    case Draining => a := if s.channel.Some? then Drain else Deliver;
    case Resetting => a := ResetTimer;
    case Firing => a := Shoot;
    case Quieting =>
      assert false;
  }

  function Nonnegative(time: int): nat {
    if time < 0 then 0 else time
  }

  /** How long these actions wait in all. */
  function Waited(actions: seq<Action>): nat {
    if actions == [] then 0
    else Waited(actions[1..]) + if actions[0].Wait? then actions[0].time else 0
  }

  /** How much time a prompt worker has left before its shot: what the timer still has to run,
      or the whole delay if it is yet to be started. */
  ghost function Remaining(s: State): nat {
    match s.worker
    case Selecting => if s.deadline.Some? then Nonnegative(s.deadline.value - s.now) else 0
    case Firing => 0
    case _ => Nonnegative(s.delay)
  }

  lemma RemainingNeverGrows(s: State, a: Action)
    requires Inv(s) && s.shots == [] && !s.worker.Absent? && Enabled(s, a) && Internal(a)
    ensures Remaining(Next(s, a)) <= Remaining(s) || Next(s, a).shots != []
  {}

  /** So once a request has been made, the worker and the timer on their own reach a shot, and
      if they are prompt they wait no longer than the timer has to run: never more than the
      delay. */
  lemma {:induction false} ReachesShot(s: State) returns (actions: seq<Action>)
    requires Inv(s) && s.shots == [] && !s.worker.Absent?
    ensures Possible(s, actions) && |Run(s, actions).shots| == 1
    ensures forall i :: 0 <= i < |actions| ==> actions[i].Wait? || Internal(actions[i])
    ensures Waited(actions) <= Remaining(s) <= Nonnegative(s.delay)
    decreases Left(s), if s.deadline.Some? && s.now < s.deadline.value then 1 else 0
  {
    var a := NeverStuckBeforeShot(s);
    if !Enabled(s, a) {
      a := Wait(s.deadline.value - s.now);
    } else {
      InternalStepsApproach(s, a);
      RemainingNeverGrows(s, a);
    }
    NextInv(s, a);
    var t := Next(s, a);
    var rest := [];
    if t.shots == [] {
      rest := ReachesShot(t);
    }
    actions := [a] + rest;
    assert actions[1..] == rest;
  }

  /** A request before the first shot is heard at once, and restarts the timer: without any
      waiting the worker gets to a timer that runs for exactly the delay from now. */
  lemma RequestRestartsTimer(s: State) returns (actions: seq<Action>)
    requires Inv(s) && s.shots == [] && s.worker.Selecting? && s.waiting > 0
    ensures Possible(s, actions)
    ensures actions != [] && actions[0] == Accept && forall i :: 0 < i < |actions| ==> Internal(actions[i])
    ensures Run(s, actions) == State(s.delay, s.now, Selecting, Some(s.now + s.delay), None, None,
                                     s.waiting - 1, s.accepted + [s.now], [])
  {
    actions := OneMore(s, [], Accept);
    actions := OneMore(s, actions, StopTimer);
    if s.deadline.None? {
      if s.sending.Some? {
        actions := OneMore(s, actions, Deliver);
      }
      actions := OneMore(s, actions, Drain);
    }
    actions := OneMore(s, actions, ResetTimer);
  }

  /** So a prompt worker calls the delayed trigger exactly one delay after the last request. */
  lemma PromptShot(s: State) returns (actions: seq<Action>)
    requires Inv(s) && s.shots == [] && s.worker.Selecting? && s.waiting > 0 && s.delay >= 0
    ensures Possible(s, actions)
    ensures Run(s, actions).shots == [Shot(s.now + s.delay, |s.accepted| + 1)]
  {
    var first := RequestRestartsTimer(s);
    var t := Run(s, first);
    actions := OneMore(s, first, Wait(s.delay));
    actions := OneMore(s, actions, Expire);
    actions := OneMore(s, actions, Deliver);
    actions := OneMore(s, actions, TakeTick);
    actions := OneMore(s, actions, Shoot);
  }

  // ---------- after the first shot ----------

  /** The worker waits for a tick that will never come. */
  ghost predicate Hung(s: State) {
    Inv(s) && s.shots != [] && s.worker.Draining?
  }

  /** A request accepted after the shot hangs the worker: from then on nothing is accepted
      and nothing is fired, whatever anyone does. */
  lemma {:induction false} HungForever(s: State, actions: seq<Action>)
    requires Hung(s) && Possible(s, actions)
    ensures var t := Run(s, actions); Hung(t) && t.shots == s.shots && t.accepted == s.accepted
    decreases |actions|
  {
    if actions != [] {
      NextInv(s, actions[0]);
      HungForever(Next(s, actions[0]), actions[1..]);
    }
  }

  lemma RequestAfterShotHangs(s: State)
    requires Inv(s) && s.shots != [] && Enabled(s, Accept)
    ensures Possible(s, [Accept, StopTimer]) && Hung(Run(s, [Accept, StopTimer]))
  {}

  /** A single request, up to the tick on its way. */
  lemma FirstTickIsSent(delay: int, now: int) returns (actions: seq<Action>)
    ensures var s, later := Start(delay, now), now + Nonnegative(delay);
      && Possible(s, actions)
      && Run(s, actions) == State(delay, later, Selecting, None, Some(now + delay), None, 0, [now], [])
  {
    var s := Start(delay, now);
    actions := OneMore(s, [], FirstCall);
    actions := OneMore(s, actions, CreateTimer);
    actions := OneMore(s, actions, Wait(Nonnegative(delay)));
    actions := OneMore(s, actions, Expire);
  }

  /** A single request, served. */
  lemma FirstRequestIsServed(delay: int, now: int) returns (actions: seq<Action>)
    ensures var s, later := Start(delay, now), now + Nonnegative(delay);
      && Possible(s, actions)
      && Run(s, actions) == State(delay, later, Selecting, None, None, None, 0, [now], [Shot(later, 1)])
  {
    var s := Start(delay, now);
    actions := FirstTickIsSent(delay, now);
    actions := OneMore(s, actions, Deliver);
    actions := OneMore(s, actions, TakeTick);
    actions := OneMore(s, actions, Shoot);
    actions := OneMore(s, actions, Quiet);
  }

  /** Two requests are enough, whatever the delay: the first is served, and the second, made
      after that, hangs the worker. */
  lemma SecondRequestHangs(delay: int, now: int) returns (actions: seq<Action>)
    ensures Possible(Start(delay, now), actions) && Hung(Run(Start(delay, now), actions))
    ensures var s := Run(Start(delay, now), actions); |s.accepted| == 2 && |s.shots| == 1
  {
    var s := Start(delay, now);
    var first := FirstRequestIsServed(delay, now);
    var asked := OneMore(s, first, LaterCall);
    RunInv(s, asked);
    RequestAfterShotHangs(Run(s, asked));
    assert [Accept, StopTimer][1..] == [StopTimer];
    RunJoins(s, asked, [Accept, StopTimer]);
    actions := asked + [Accept, StopTimer];
  }

  lemma {:induction false} ShotIsLast(s: State, actions: seq<Action>)
    requires Inv(s) && s.shots != [] && Possible(s, actions)
    ensures Run(s, actions).shots == s.shots
    decreases |actions|
  {
    if actions != [] {
      NextInv(s, actions[0]);
      ShotIsLast(Next(s, actions[0]), actions[1..]);
    }
  }

  /** A request is followed by a call of the delayed trigger, in some continuation, exactly
      when the trigger has not been called before: it serves its first quiet period only. */
  lemma ServedIffFirst(s: State)
    requires Inv(s) && !s.worker.Absent?
    ensures (exists actions :: Possible(s, actions) && |Run(s, actions).shots| > |s.shots|) <==> s.shots == []
  {
    if s.shots == [] {
      var actions := ReachesShot(s);
      assert Possible(s, actions) && |Run(s, actions).shots| > |s.shots|;
    } else {
      forall actions | Possible(s, actions)
        ensures Run(s, actions).shots == s.shots
      {
        ShotIsLast(s, actions);
      }
    }
  }
}
