/** Trees of triggers: compound nodes, rate limiters, and leaves that do something outside. */
module TriggerTree {
  import opened Wrappers
  import opened RateLimit

  /** The outside world: a clock that moves forward between readings, and the answers of
      leaf triggers in the order they are called. */
  datatype Outside = Outside(now: int, ticks: seq<nat>, answers: seq<bool>)

  /** The next reading of the clock. */
  function Tick(e: Outside): (r: Outside)
    ensures e.now <= r.now
  {
    if e.ticks == [] then e else e.(now := e.now + e.ticks[0], ticks := e.ticks[1..])
  }

  /** A limiter carries the times of its guarded calls, a leaf carries, for each of its calls,
      the times at which the limiters around it let that call pass, outermost first. */
  datatype Tree =
    | Leaf(calls: seq<seq<int>>)
    | Limited(limiter: Limiter, guarded: seq<int>, child: Tree)
    | Compound(kids: seq<Tree>)

  datatype Fired = Fired(tree: Tree, outside: Outside, ok: bool)
  datatype FiredAll = FiredAll(trees: seq<Tree>, outside: Outside, ok: bool)

  function Fire(t: Tree, stamps: seq<int>, e: Outside): (r: Fired)
    ensures e.now <= r.outside.now
    decreases t, 1
  {
    match t
    case Leaf(calls) =>
      Fired(Leaf(calls + [stamps]),
            if e.answers == [] then e else e.(answers := e.answers[1..]),
            e.answers == [] || e.answers[0])
    case Limited(limiter, guarded, child) =>
      var e1 := Tick(e);
      var a := Admit(limiter, e1.now);
      if !a.admitted then Fired(Limited(a.limiter, guarded, child), e1, false)
      else
        var r := Fire(child, stamps + [e1.now], e1);
        Fired(Limited(a.limiter, guarded + [e1.now], r.tree), r.outside, r.ok)
    case Compound(kids) =>
      var r := FireAll(kids, stamps, e);
      Fired(Compound(r.trees), r.outside, r.ok)
  }

  function FireAll(kids: seq<Tree>, stamps: seq<int>, e: Outside): (r: FiredAll)
    ensures e.now <= r.outside.now && |r.trees| == |kids|
    decreases kids, 0
  {
    if kids == [] then FiredAll([], e, true)
    else
      var first := Fire(kids[0], stamps, e);
      if !first.ok then FiredAll([first.tree] + kids[1..], first.outside, false)
      else
        var rest := FireAll(kids[1..], stamps, first.outside);
        FiredAll([first.tree] + rest.trees, rest.outside, rest.ok)
  }

  ghost predicate Answers(kid: Tree, stamps: seq<int>, before: Outside, tree: Tree, after: Outside, ok: bool) {
    Fire(kid, stamps, before) == Fired(tree, after, ok)
  }

  /** The first `called` children were called in order, each in the world the one before
      left; all but the last of them succeeded, and the last one unless the whole failed. */
  ghost predicate CalledInOrder(kids: seq<Tree>, stamps: seq<int>, r: FiredAll, called: nat, envs: seq<Outside>) {
    && called <= |kids| == |r.trees| && |envs| == called + 1
    && envs[called] == r.outside
    && (forall i :: 0 <= i < called ==>
          Answers(kids[i], stamps, envs[i], r.trees[i], envs[i + 1], r.ok || i < called - 1))
    && r.trees[called..] == kids[called..]
    && (r.ok ==> called == |kids|)
    && (!r.ok ==> called > 0)
  }

  lemma OneMoreInFront(kid: Tree, kids: seq<Tree>, stamps: seq<int>, e: Outside, first: Fired, r: FiredAll,
                       called: nat, envs: seq<Outside>)
    requires Answers(kid, stamps, e, first.tree, first.outside, true)
    requires CalledInOrder(kids, stamps, r, called, envs) && envs[0] == first.outside
    ensures CalledInOrder([kid] + kids, stamps, r.(trees := [first.tree] + r.trees), called + 1, [e] + envs)
  {}

  /** A compound trigger calls its children in order, up to and including the first error, and
      touches no child after that. */
  lemma CompoundCallsPrefix(kids: seq<Tree>, stamps: seq<int>, e: Outside)
    returns (called: nat, envs: seq<Outside>)
    ensures var r := Fire(Compound(kids), stamps, e);
      && r.tree.Compound?
      && CalledInOrder(kids, stamps, FiredAll(r.tree.kids, r.outside, r.ok), called, envs) && envs[0] == e
  {
    called, envs := ChildrenCalledInOrder(kids, stamps, e);
  }

  lemma {:induction false} ChildrenCalledInOrder(kids: seq<Tree>, stamps: seq<int>, e: Outside)
    returns (called: nat, envs: seq<Outside>)
    ensures CalledInOrder(kids, stamps, FireAll(kids, stamps, e), called, envs) && envs[0] == e
    decreases |kids|
  {
    if kids == [] {
      called, envs := 0, [e];
    } else {
      var first := Fire(kids[0], stamps, e);
      if !first.ok {
        called, envs := 1, [e, first.outside];
        assert Answers(kids[0], stamps, e, first.tree, first.outside, false);
        assert ([first.tree] + kids[1..])[1..] == kids[1..];
      } else {
        var n, rest := ChildrenCalledInOrder(kids[1..], stamps, first.outside);
        called, envs := n + 1, [e] + rest;
        assert kids == [kids[0]] + kids[1..];
        OneMoreInFront(kids[0], kids[1..], stamps, e, first, FireAll(kids[1..], stamps, first.outside), n, rest);
      }
    }
  }

  // ---------- what the result of a call says ----------

  /** The whole tree was called: every limiter let the call pass, and every leaf was called
      once, with the times at which the limiters around it let it pass. */
  ghost predicate CalledThrough(t: Tree, r: Tree, stamps: seq<int>)
    decreases t, 1
  {
    match t
    case Leaf(calls) => r == Leaf(calls + [stamps])
    case Limited(l, guarded, child) =>
      && r.Limited? && LetPass(l, guarded, r)
      && CalledThrough(child, r.child, stamps + [r.guarded[|guarded|]])
    case Compound(kids) => r.Compound? && AllCalledThrough(kids, r.kids, stamps)
  }

  ghost predicate AllCalledThrough(kids: seq<Tree>, rs: seq<Tree>, stamps: seq<int>)
    decreases kids, 0
  {
    |kids| == |rs| && (kids == [] ||
      (CalledThrough(kids[0], rs[0], stamps) && AllCalledThrough(kids[1..], rs[1..], stamps)))
  }

  /** The limiter recorded one more call, at a time when it admits calls. */
  ghost predicate LetPass(l: Limiter, guarded: seq<int>, r: Tree)
    requires r.Limited?
  {
    && |r.guarded| == |guarded| + 1 && r.guarded[..|guarded|] == guarded
    && Admit(l, r.guarded[|guarded|]) == Admission(r.limiter, true)
  }

  /** The call ended in one place: at a leaf that answered with an error, or at a limiter that
      refused it. What comes before that place was called through, what comes after it was not
      touched. `last` is the last answer a leaf gave. */
  ghost predicate StoppedAt(t: Tree, r: Tree, stamps: seq<int>, after: Outside, last: bool)
    decreases t, 1
  {
    match t
    case Leaf(calls) => r == Leaf(calls + [stamps]) && !last
    case Limited(l, guarded, child) =>
      || (!Admit(l, after.now).admitted && r == Limited(Admit(l, after.now).limiter, guarded, child))
      || (r.Limited? && LetPass(l, guarded, r)
          && StoppedAt(child, r.child, stamps + [r.guarded[|guarded|]], after, last))
    case Compound(kids) => r.Compound? && StoppedAmong(kids, r.kids, stamps, after, last)
  }

  ghost predicate StoppedAmong(kids: seq<Tree>, rs: seq<Tree>, stamps: seq<int>, after: Outside, last: bool)
    decreases kids, 0
  {
    |kids| == |rs| && kids != [] && (
      || (StoppedAt(kids[0], rs[0], stamps, after, last) && rs[1..] == kids[1..])
      || (CalledThrough(kids[0], rs[0], stamps) && StoppedAmong(kids[1..], rs[1..], stamps, after, last)))
  }

  /** How many calls the leaves of a tree have had. */
  function Calls(t: Tree): nat
    decreases t, 1
  {
    match t
    case Leaf(calls) => |calls|
    case Limited(_, _, child) => Calls(child)
    case Compound(kids) => AllCalls(kids)
  }

  function AllCalls(kids: seq<Tree>): nat
    decreases kids, 0
  {
    if kids == [] then 0 else Calls(kids[0]) + AllCalls(kids[1..])
  }

  /** These answers were used up: one for each of the calls made, as long as there are any. */
  ghost predicate UsesUp(e: Outside, after: Outside, made: int) {
    && 0 <= made
    && after.answers == if made <= |e.answers| then e.answers[made..] else []
  }

  function Used(e: Outside, after: Outside): int {
    |e.answers| - |after.answers|
  }

  /** The last answer used up; no answer counts as success. */
  ghost predicate LastAnswer(e: Outside, after: Outside) {
    0 < Used(e, after) <= |e.answers| ==> e.answers[Used(e, after) - 1]
  }

  ghost predicate AllSucceeded(e: Outside, after: Outside) {
    forall i :: 0 <= i < Used(e, after) && i < |e.answers| ==> e.answers[i]
  }

  /** What a call of a tree did, by its result. Success: the whole tree was called and every
      leaf succeeded. Error: some leaf that was called failed, or some limiter refused. */
  ghost predicate Explains(t: Tree, stamps: seq<int>, e: Outside, r: Fired) {
    && UsesUp(e, r.outside, Calls(r.tree) - Calls(t))
    && (r.ok ==> CalledThrough(t, r.tree, stamps) && AllSucceeded(e, r.outside))
    && (!r.ok ==> StoppedAt(t, r.tree, stamps, r.outside, LastAnswer(e, r.outside)))
  }

  ghost predicate ExplainsAll(kids: seq<Tree>, stamps: seq<int>, e: Outside, r: FiredAll) {
    && UsesUp(e, r.outside, AllCalls(r.trees) - AllCalls(kids))
    && (r.ok ==> AllCalledThrough(kids, r.trees, stamps) && AllSucceeded(e, r.outside))
    && (!r.ok ==> StoppedAmong(kids, r.trees, stamps, r.outside, LastAnswer(e, r.outside)))
  }

  lemma {:induction false} ResultExplains(t: Tree, stamps: seq<int>, e: Outside)
    ensures Explains(t, stamps, e, Fire(t, stamps, e))
    decreases t, 1
  {
    match t
    case Leaf(calls) => LeafExplains(calls, stamps, e);
    case Limited(l, guarded, child) =>
      var e1 := Tick(e);
      if Admit(l, e1.now).admitted {
        var inner := Fire(child, stamps + [e1.now], e1);
        ResultExplains(child, stamps + [e1.now], e1);
        PassingExplains(l, guarded, child, stamps, e1, inner);
        SameAnswers(t, stamps, e, Fire(t, stamps, e));
      } else {
        RefusalExplains(l, guarded, child, stamps, e);
      }
    case Compound(kids) => ResultExplainsAll(kids, stamps, e);
  }

  lemma LeafExplains(calls: seq<seq<int>>, stamps: seq<int>, e: Outside)
    ensures Explains(Leaf(calls), stamps, e, Fire(Leaf(calls), stamps, e))
  {}

  lemma RefusalExplains(l: Limiter, guarded: seq<int>, child: Tree, stamps: seq<int>, e: Outside)
    requires !Admit(l, Tick(e).now).admitted
    ensures Explains(Limited(l, guarded, child), stamps, e, Fire(Limited(l, guarded, child), stamps, e))
  {}

  lemma PassingExplains(l: Limiter, guarded: seq<int>, child: Tree, stamps: seq<int>, e1: Outside, inner: Fired)
    requires Admit(l, e1.now).admitted && Explains(child, stamps + [e1.now], e1, inner)
    ensures Explains(Limited(l, guarded, child), stamps, e1,
      Fired(Limited(Admit(l, e1.now).limiter, guarded + [e1.now], inner.tree), inner.outside, inner.ok))
  {
    var r := Limited(Admit(l, e1.now).limiter, guarded + [e1.now], inner.tree);
    assert LetPass(l, guarded, r) && r.guarded[|guarded|] == e1.now;
  }

  /** Reading the clock uses up no answer. */
  lemma SameAnswers(t: Tree, stamps: seq<int>, e: Outside, r: Fired)
    requires Explains(t, stamps, Tick(e), r)
    ensures Explains(t, stamps, e, r)
  {
    assert Tick(e).answers == e.answers;
    assert LastAnswer(e, r.outside) == LastAnswer(Tick(e), r.outside);
  }

  lemma {:induction false} ResultExplainsAll(kids: seq<Tree>, stamps: seq<int>, e: Outside)
    ensures ExplainsAll(kids, stamps, e, FireAll(kids, stamps, e))
    decreases kids, 0
  {
    if kids != [] {
      var first := Fire(kids[0], stamps, e);
      var r := FireAll(kids, stamps, e);
      ResultExplains(kids[0], stamps, e);
      if first.ok {
        var rest := FireAll(kids[1..], stamps, first.outside);
        ResultExplainsAll(kids[1..], stamps, first.outside);
        assert r.trees[1..] == rest.trees;
        UsedInTurn(e, first.outside, rest.outside,
                   Calls(first.tree) - Calls(kids[0]), AllCalls(rest.trees) - AllCalls(kids[1..]));
      } else {
        assert r.trees[1..] == kids[1..];
      }
    }
  }

  lemma UsedInTurn(e: Outside, mid: Outside, after: Outside, first: int, later: int)
    requires UsesUp(e, mid, first) && UsesUp(mid, after, later) && AllSucceeded(e, mid)
    ensures UsesUp(e, after, first + later)
    ensures AllSucceeded(mid, after) ==> AllSucceeded(e, after)
    ensures LastAnswer(e, after) == LastAnswer(mid, after)
  {
    if first <= |e.answers| {
      SplitAnswers(e.answers, first, mid.answers);
      if later <= |mid.answers| {
        SplitAnswers(mid.answers, later, after.answers);
        assert after.answers == e.answers[first + later..];
      }
      assert forall i :: 0 <= i < |mid.answers| ==> mid.answers[i] == e.answers[first + i];
      AnswersInTurn(e, mid, after, first);
    }
  }

  lemma SplitAnswers(answers: seq<bool>, used: nat, rest: seq<bool>)
    requires used <= |answers| && rest == answers[used..]
    ensures |rest| == |answers| - used && answers == answers[..used] + rest
  {}

  lemma AnswersInTurn(e: Outside, mid: Outside, after: Outside, first: nat)
    requires first <= |e.answers| && |mid.answers| == |e.answers| - first && |after.answers| <= |mid.answers|
    requires forall i :: 0 <= i < |mid.answers| ==> mid.answers[i] == e.answers[first + i]
    requires AllSucceeded(e, mid)
    ensures AllSucceeded(mid, after) ==> AllSucceeded(e, after)
    ensures LastAnswer(e, after) == LastAnswer(mid, after)
  {
    if AllSucceeded(mid, after) {
      forall i | 0 <= i < Used(e, after) && i < |e.answers|
        ensures e.answers[i]
      {
        if i >= first {
          assert mid.answers[i - first];
        }
      }
    }
  }

  // ---------- what one call does to the leaves ----------

  /** Each leaf was called at most once, let through by at least these limiter stamps, and
      every limiter kept its rate. */
  ghost predicate CalledAtMostOnce(t: Tree, r: Tree, stamps: seq<int>)
    decreases t, 1
  {
    match t
    case Leaf(calls) =>
      && r.Leaf?
      && (r.calls == calls
          || (|r.calls| == |calls| + 1 && r.calls[..|calls|] == calls && stamps <= r.calls[|calls|]))
    case Limited(l, _, child) =>
      && r.Limited?
      && r.limiter.maxAllowed == l.maxAllowed && r.limiter.period == l.period
      && CalledAtMostOnce(child, r.child, stamps)
    case Compound(kids) => r.Compound? && AllCalledAtMostOnce(kids, r.kids, stamps)
  }

  ghost predicate AllCalledAtMostOnce(kids: seq<Tree>, rs: seq<Tree>, stamps: seq<int>)
    decreases kids, 0
  {
    |kids| == |rs| && (kids == [] ||
      (CalledAtMostOnce(kids[0], rs[0], stamps) && AllCalledAtMostOnce(kids[1..], rs[1..], stamps)))
  }

  lemma {:induction false} UntouchedTree(t: Tree, stamps: seq<int>)
    ensures CalledAtMostOnce(t, t, stamps)
    decreases t, 1
  {
    match t
    case Leaf(_) =>
    case Limited(_, _, child) => UntouchedTree(child, stamps);
    case Compound(kids) => UntouchedTrees(kids, stamps);
  }

  lemma {:induction false} UntouchedTrees(kids: seq<Tree>, stamps: seq<int>)
    ensures AllCalledAtMostOnce(kids, kids, stamps)
    decreases kids, 0
  {
    if kids != [] {
      UntouchedTree(kids[0], stamps);
      UntouchedTrees(kids[1..], stamps);
    }
  }

  lemma {:induction false} FewerStamps(t: Tree, r: Tree, few: seq<int>, many: seq<int>)
    requires CalledAtMostOnce(t, r, many) && few <= many
    ensures CalledAtMostOnce(t, r, few)
    decreases t, 1
  {
    match t
    case Leaf(_) =>
    case Limited(_, _, child) => FewerStamps(child, r.child, few, many);
    case Compound(kids) => AllFewerStamps(kids, r.kids, few, many);
  }

  lemma {:induction false} AllFewerStamps(kids: seq<Tree>, rs: seq<Tree>, few: seq<int>, many: seq<int>)
    requires AllCalledAtMostOnce(kids, rs, many) && few <= many
    ensures AllCalledAtMostOnce(kids, rs, few)
    decreases kids, 0
  {
    if kids != [] {
      FewerStamps(kids[0], rs[0], few, many);
      AllFewerStamps(kids[1..], rs[1..], few, many);
    }
  }

  /** One call of a tree calls each of its leaves at most once. */
  lemma {:induction false} FireCallsLeavesOnce(t: Tree, stamps: seq<int>, e: Outside)
    ensures CalledAtMostOnce(t, Fire(t, stamps, e).tree, stamps)
    decreases t, 1
  {
    match t
    case Leaf(_) =>
    case Limited(l, _, child) =>
      var e1 := Tick(e);
      if Admit(l, e1.now).admitted {
        FireCallsLeavesOnce(child, stamps + [e1.now], e1);
        FewerStamps(child, Fire(child, stamps + [e1.now], e1).tree, stamps, stamps + [e1.now]);
      } else {
        UntouchedTree(child, stamps);
      }
    case Compound(kids) => FireAllCallsLeavesOnce(kids, stamps, e);
  }

  lemma {:induction false} FireAllCallsLeavesOnce(kids: seq<Tree>, stamps: seq<int>, e: Outside)
    ensures AllCalledAtMostOnce(kids, FireAll(kids, stamps, e).trees, stamps)
    decreases kids, 0
  {
    if kids != [] {
      var first := Fire(kids[0], stamps, e);
      var trees := FireAll(kids, stamps, e).trees;
      FireCallsLeavesOnce(kids[0], stamps, e);
      if first.ok {
        FireAllCallsLeavesOnce(kids[1..], stamps, first.outside);
        assert trees[1..] == FireAll(kids[1..], stamps, first.outside).trees;
      } else {
        UntouchedTrees(kids[1..], stamps);
        assert trees[1..] == kids[1..];
      }
    }
  }

  // ---------- what every call keeps ----------

  function Column(calls: seq<seq<int>>, i: nat): seq<int>
    requires forall j :: 0 <= j < |calls| ==> i < |calls[j]|
  {
    seq(|calls|, j requires 0 <= j < |calls| => calls[j][i])
  }

  /** Every call of the leaf used up one guarded call of each limiter around it. */
  ghost predicate LeafOk(calls: seq<seq<int>>, above: seq<seq<int>>) {
    && (forall j :: 0 <= j < |calls| ==> |calls[j]| == |above|)
    && (forall i :: 0 <= i < |above| ==> multiset(Column(calls, i)) <= multiset(above[i]))
  }

  ghost predicate LimiterOk(l: Limiter, guarded: seq<int>, now: int) {
    Tracks(l, guarded, now) && Spaced(guarded, Limit(l.maxAllowed), l.period)
  }

  /** `above` holds the guarded call times of the enclosing limiters, outermost first. */
  ghost predicate Sound(t: Tree, above: seq<seq<int>>, now: int)
    decreases t, 1
  {
    match t
    case Leaf(calls) => LeafOk(calls, above)
    case Limited(l, guarded, child) => LimiterOk(l, guarded, now) && Sound(child, above + [guarded], now)
    case Compound(kids) => AllSound(kids, above, now)
  }

  ghost predicate AllSound(kids: seq<Tree>, above: seq<seq<int>>, now: int)
    decreases kids, 0
  {
    kids == [] || (Sound(kids[0], above, now) && AllSound(kids[1..], above, now))
  }

  ghost predicate Covers(more: seq<seq<int>>, less: seq<seq<int>>) {
    |more| == |less| && forall i :: 0 <= i < |less| ==> multiset(less[i]) <= multiset(more[i])
  }

  lemma TracksLater(l: Limiter, calls: seq<int>, now: int, later: int)
    requires Tracks(l, calls, now) && now <= later
    ensures Tracks(l, calls, later)
  {}

  /** Time passing and limiters around it letting more calls pass do no harm to a tree. */
  lemma {:induction false} SoundLater(t: Tree, above: seq<seq<int>>, more: seq<seq<int>>, now: int, later: int)
    requires Sound(t, above, now) && Covers(more, above) && now <= later
    ensures Sound(t, more, later)
    decreases t, 1
  {
    match t
    case Leaf(calls) =>
    case Limited(l, guarded, child) =>
      TracksLater(l, guarded, now, later);
      SoundLater(child, above + [guarded], more + [guarded], now, later);
    case Compound(kids) => AllSoundLater(kids, above, more, now, later);
  }

  lemma {:induction false} AllSoundLater(kids: seq<Tree>, above: seq<seq<int>>, more: seq<seq<int>>,
                                         now: int, later: int)
    requires AllSound(kids, above, now) && Covers(more, above) && now <= later
    ensures AllSound(kids, more, later)
    decreases kids, 0
  {
    if kids != [] {
      SoundLater(kids[0], above, more, now, later);
      AllSoundLater(kids[1..], above, more, now, later);
    }
  }

  /** Every enclosing limiter lets one more call pass. */
  function Stamped(above: seq<seq<int>>, stamps: seq<int>): (r: seq<seq<int>>)
    requires |stamps| == |above|
    ensures |r| == |above| && forall i :: 0 <= i < |r| ==> r[i] == above[i] + [stamps[i]]
  {
    seq(|above|, i requires 0 <= i < |above| => above[i] + [stamps[i]])
  }

  lemma StampedCovers(above: seq<seq<int>>, stamps: seq<int>)
    requires |stamps| == |above|
    ensures Covers(Stamped(above, stamps), above)
  {}

  lemma LeafFires(calls: seq<seq<int>>, above: seq<seq<int>>, stamps: seq<int>)
    requires LeafOk(calls, above) && |stamps| == |above|
    ensures LeafOk(calls + [stamps], Stamped(above, stamps))
  {
    forall i | 0 <= i < |above|
      ensures multiset(Column(calls + [stamps], i)) <= multiset(Stamped(above, stamps)[i])
    {
      assert Column(calls + [stamps], i) == Column(calls, i) + [stamps[i]];
    }
  }

  lemma AdmittedLimiterSound(l: Limiter, guarded: seq<int>, child: Tree, above: seq<seq<int>>, stamps: seq<int>,
                             last: int, now: int, later: int)
    requires LimiterOk(l, guarded, last) && Admit(l, now).admitted
    requires MAX_DURATION < last <= now <= later && |stamps| == |above|
    requires Sound(child, Stamped(above + [guarded], stamps + [now]), later)
    ensures Sound(Limited(Admit(l, now).limiter, guarded + [now], child), Stamped(above, stamps), later)
  {
    QueueRefinesHistory(l, guarded, last, now);
    AdmittedStaysSpaced(l, guarded, last, now);
    TracksLater(Admit(l, now).limiter, guarded + [now], now, later);
    assert Stamped(above + [guarded], stamps + [now]) == Stamped(above, stamps) + [guarded + [now]];
  }

  lemma RefusedLimiterSound(l: Limiter, guarded: seq<int>, child: Tree, above: seq<seq<int>>, stamps: seq<int>,
                            last: int, now: int)
    requires LimiterOk(l, guarded, last) && !Admit(l, now).admitted
    requires MAX_DURATION < last <= now && |stamps| == |above|
    requires Sound(child, above + [guarded], last)
    ensures Sound(Limited(Admit(l, now).limiter, guarded, child), Stamped(above, stamps), now)
  {
    QueueRefinesHistory(l, guarded, last, now);
    StampedCovers(above, stamps);
    SoundLater(child, above + [guarded], Stamped(above, stamps) + [guarded], last, now);
  }

  lemma {:induction false} FireKeepsSound(t: Tree, above: seq<seq<int>>, stamps: seq<int>, e: Outside)
    requires Sound(t, above, e.now) && |stamps| == |above| && MAX_DURATION < e.now
    ensures var r := Fire(t, stamps, e); Sound(r.tree, Stamped(above, stamps), r.outside.now)
    decreases t, 1
  {
    match t
    case Leaf(calls) => LeafFires(calls, above, stamps);
    case Limited(l, guarded, child) =>
      var e1 := Tick(e);
      if Admit(l, e1.now).admitted {
        var inner := Fire(child, stamps + [e1.now], e1);
        SoundLater(child, above + [guarded], above + [guarded], e.now, e1.now);
        FireKeepsSound(child, above + [guarded], stamps + [e1.now], e1);
        AdmittedLimiterSound(l, guarded, inner.tree, above, stamps, e.now, e1.now, inner.outside.now);
      } else {
        RefusedLimiterSound(l, guarded, child, above, stamps, e.now, e1.now);
      }
    case Compound(kids) => FireAllKeepsSound(kids, above, stamps, e);
  }

  lemma {:induction false} FireAllKeepsSound(kids: seq<Tree>, above: seq<seq<int>>, stamps: seq<int>, e: Outside)
    requires AllSound(kids, above, e.now) && |stamps| == |above| && MAX_DURATION < e.now
    ensures var r := FireAll(kids, stamps, e); AllSound(r.trees, Stamped(above, stamps), r.outside.now)
    decreases kids, 0
  {
    if kids != [] {
      var r := FireAll(kids, stamps, e);
      var first := Fire(kids[0], stamps, e);
      StampedCovers(above, stamps);
      FireKeepsSound(kids[0], above, stamps, e);
      SoundLater(first.tree, Stamped(above, stamps), Stamped(above, stamps), first.outside.now, r.outside.now);
      if first.ok {
        AllSoundLater(kids[1..], above, above, e.now, first.outside.now);
        FireAllKeepsSound(kids[1..], above, stamps, first.outside);
        assert r.trees[1..] == FireAll(kids[1..], stamps, first.outside).trees;
      } else {
        AllSoundLater(kids[1..], above, Stamped(above, stamps), e.now, first.outside.now);
        assert r.trees[1..] == kids[1..];
      }
    }
  }

  // ---------- the bounds ----------

  datatype Rate = Rate(maxAllowed: nat, period: int)

  /** Every limiter, and every leaf with respect to every limiter around it, stays within
      the limiter's rate in every window. */
  ghost predicate WithinRates(t: Tree, rates: seq<Rate>)
    decreases t, 1
  {
    match t
    case Leaf(calls) =>
      && (forall j :: 0 <= j < |calls| ==> |calls[j]| == |rates|)
      && (forall i :: 0 <= i < |rates| ==>
            Windowed(Column(calls, i), Limit(rates[i].maxAllowed), rates[i].period))
    case Limited(l, guarded, child) =>
      && Windowed(guarded, Limit(l.maxAllowed), l.period)
      && WithinRates(child, rates + [Rate(l.maxAllowed, l.period)])
    case Compound(kids) => AllWithinRates(kids, rates)
  }

  ghost predicate AllWithinRates(kids: seq<Tree>, rates: seq<Rate>)
    decreases kids, 0
  {
    kids == [] || (WithinRates(kids[0], rates) && AllWithinRates(kids[1..], rates))
  }

  lemma DropOne(a: multiset<int>, b: multiset<int>, x: int)
    requires multiset{x} + a <= multiset{x} + b
    ensures a <= b
  {
    assert a == multiset{x} + a - multiset{x};
    assert b == multiset{x} + b - multiset{x};
  }

  lemma {:induction false} FewerWithin(few: seq<int>, many: seq<int>, from: int, to: int)
    requires multiset(few) <= multiset(many)
    ensures Within(few, from, to) <= Within(many, from, to)
    decreases |few|
  {
    if few != [] {
      var x := few[0];
      assert few == [x] + few[1..];
      assert x in multiset(few);
      assert x in multiset(many);
      var k :| 0 <= k < |many| && many[k] == x;
      var a, b := many[..k], many[k + 1..];
      assert many == a + ([x] + b);
      assert multiset(many) == multiset{x} + multiset(a + b);
      DropOne(multiset(few[1..]), multiset(a + b), x);
      FewerWithin(few[1..], a + b, from, to);
      WithinAppend(a, b, from, to);
      WithinAppend(a, [x] + b, from, to);
      assert ([x] + b)[1..] == b;
    }
  }

  lemma FewerWindowed(few: seq<int>, many: seq<int>, limit: nat, period: int)
    requires multiset(few) <= multiset(many) && Windowed(many, limit, period)
    ensures Windowed(few, limit, period)
  {
    forall from
      ensures WindowOk(few, limit, period, from)
    {
      FewerWithin(few, many, from, from + period);
      assert WindowOk(many, limit, period, from);
    }
  }

  ghost predicate Bounded(above: seq<seq<int>>, rates: seq<Rate>) {
    && |above| == |rates|
    && forall i :: 0 <= i < |above| ==> Windowed(above[i], Limit(rates[i].maxAllowed), rates[i].period)
  }

  lemma {:induction false} SoundIsWithinRates(t: Tree, above: seq<seq<int>>, rates: seq<Rate>, now: int)
    requires Sound(t, above, now) && Bounded(above, rates)
    ensures WithinRates(t, rates)
    decreases t, 1
  {
    match t
    case Leaf(calls) =>
      forall i | 0 <= i < |rates|
        ensures Windowed(Column(calls, i), Limit(rates[i].maxAllowed), rates[i].period)
      {
        FewerWindowed(Column(calls, i), above[i], Limit(rates[i].maxAllowed), rates[i].period);
      }
    case Limited(l, guarded, child) =>
      SpacedMeansWindowed(guarded, Limit(l.maxAllowed), l.period);
      SoundIsWithinRates(child, above + [guarded], rates + [Rate(l.maxAllowed, l.period)], now);
    case Compound(kids) => AllSoundIsWithinRates(kids, above, rates, now);
  }

  lemma {:induction false} AllSoundIsWithinRates(kids: seq<Tree>, above: seq<seq<int>>, rates: seq<Rate>, now: int)
    requires AllSound(kids, above, now) && Bounded(above, rates)
    ensures AllWithinRates(kids, rates)
    decreases kids, 0
  {
    if kids != [] {
      SoundIsWithinRates(kids[0], above, rates, now);
      AllSoundIsWithinRates(kids[1..], above, rates, now);
    }
  }

  /** Every leaf, by the stamps of the outermost limiter around it, keeps to this rate. */
  ghost predicate LeavesWithin(t: Tree, rate: Rate)
    decreases t, 1
  {
    match t
    case Leaf(calls) =>
      && (forall j :: 0 <= j < |calls| ==> |calls[j]| > 0)
      && Windowed(Column(calls, 0), Limit(rate.maxAllowed), rate.period)
    case Limited(_, _, child) => LeavesWithin(child, rate)
    case Compound(kids) => AllLeavesWithin(kids, rate)
  }

  ghost predicate AllLeavesWithin(kids: seq<Tree>, rate: Rate)
    decreases kids, 0
  {
    kids == [] || (LeavesWithin(kids[0], rate) && AllLeavesWithin(kids[1..], rate))
  }

  lemma {:induction false} LeavesKeepOutermostRate(t: Tree, rates: seq<Rate>)
    requires WithinRates(t, rates) && rates != []
    ensures LeavesWithin(t, rates[0])
    decreases t, 1
  {
    match t
    case Leaf(_) =>
    case Limited(l, _, child) => LeavesKeepOutermostRate(child, rates + [Rate(l.maxAllowed, l.period)]);
    case Compound(kids) => AllLeavesKeepOutermostRate(kids, rates);
  }

  lemma {:induction false} AllLeavesKeepOutermostRate(kids: seq<Tree>, rates: seq<Rate>)
    requires AllWithinRates(kids, rates) && rates != []
    ensures AllLeavesWithin(kids, rates[0])
    decreases kids, 0
  {
    if kids != [] {
      LeavesKeepOutermostRate(kids[0], rates);
      AllLeavesKeepOutermostRate(kids[1..], rates);
    }
  }

  // ---------- runs ----------

  /** As constructed: nothing called yet. */
  ghost predicate Pristine(t: Tree)
    decreases t, 1
  {
    match t
    case Leaf(calls) => calls == []
    case Limited(l, guarded, child) =>
      l.queue == None && guarded == [] && l.period <= MAX_DURATION && Pristine(child)
    case Compound(kids) => AllPristine(kids)
  }

  ghost predicate AllPristine(kids: seq<Tree>)
    decreases kids, 0
  {
    kids == [] || (Pristine(kids[0]) && AllPristine(kids[1..]))
  }

  lemma {:induction false} PristineIsSound(t: Tree, above: seq<seq<int>>, now: int)
    requires Pristine(t)
    ensures Sound(t, above, now)
    decreases t, 1
  {
    match t
    case Leaf(calls) =>
      forall i | 0 <= i < |above|
        ensures multiset(Column(calls, i)) <= multiset(above[i])
      {
        assert Column(calls, i) == [];
      }
    case Limited(_, guarded, child) => PristineIsSound(child, above + [guarded], now);
    case Compound(kids) => AllPristineIsSound(kids, above, now);
  }

  lemma {:induction false} AllPristineIsSound(kids: seq<Tree>, above: seq<seq<int>>, now: int)
    requires AllPristine(kids)
    ensures AllSound(kids, above, now)
    decreases kids, 0
  {
    if kids != [] {
      PristineIsSound(kids[0], above, now);
      AllPristineIsSound(kids[1..], above, now);
    }
  }

  /** A call of the root after a pause, with its own clock steps and leaf answers. */
  datatype Call = Call(pause: nat, ticks: seq<nat>, answers: seq<bool>)

  datatype Standing = Standing(tree: Tree, now: int)

  function CallAll(m: Standing, calls: seq<Call>): Standing
    decreases |calls|
  {
    if calls == [] then m
    else
      var c := calls[0];
      var r := Fire(m.tree, [], Outside(m.now + c.pause, c.ticks, c.answers));
      CallAll(Standing(r.tree, r.outside.now), calls[1..])
  }

  lemma {:induction false} CallAllKeepsSound(m: Standing, calls: seq<Call>)
    requires Sound(m.tree, [], m.now) && MAX_DURATION < m.now
    ensures var r := CallAll(m, calls); Sound(r.tree, [], r.now)
    decreases |calls|
  {
    if calls != [] {
      var c := calls[0];
      var e := Outside(m.now + c.pause, c.ticks, c.answers);
      SoundLater(m.tree, [], [], m.now, e.now);
      FireKeepsSound(m.tree, [], [], e);
      var r := Fire(m.tree, [], e);
      assert Stamped([], []) == [];
      CallAllKeepsSound(Standing(r.tree, r.outside.now), calls[1..]);
    }
  }

  /** In any tree, over any run, every leaf is called at most as often per period as each of
      the limiters around it allows. */
  lemma TreesStayWithinRates(t: Tree, now: int, calls: seq<Call>)
    requires Pristine(t) && MAX_DURATION < now
    ensures WithinRates(CallAll(Standing(t, now), calls).tree, [])
  {
    PristineIsSound(t, [], now);
    CallAllKeepsSound(Standing(t, now), calls);
    var r := CallAll(Standing(t, now), calls);
    SoundIsWithinRates(r.tree, [], [], r.now);
  }

  // ---------- the compound trigger as an object ----------

  /** The loop has dealt with the first i children; the rest of the work is as specified. */
  ghost predicate Midway(kids: seq<Tree>, stamps: seq<int>, whole: FiredAll, trees: seq<Tree>, i: nat, after: Outside) {
    && i <= |kids| == |trees|
    && trees[i..] == kids[i..]
    && var rest := FireAll(kids[i..], stamps, after);
       whole == FiredAll(trees[..i] + rest.trees, rest.outside, rest.ok)
  }

  lemma MidwayStep(kids: seq<Tree>, stamps: seq<int>, whole: FiredAll, trees: seq<Tree>, i: nat, after: Outside)
    requires Midway(kids, stamps, whole, trees, i, after) && i < |kids|
    ensures trees[i] == kids[i]
    ensures var r := Fire(kids[i], stamps, after);
      var trees' := trees[i := r.tree];
      if r.ok then Midway(kids, stamps, whole, trees', i + 1, r.outside)
      else whole == FiredAll(trees', r.outside, false)
  {}

  class CompoundTrigger {
    var triggers: seq<Tree>

    constructor (triggers: seq<Tree>)
      ensures this.triggers == triggers
    {
      this.triggers := triggers;
    }

    method Trigger(stamps: seq<int>, e: Outside) returns (ok: bool, after: Outside)
      modifies this
      ensures FiredAll(triggers, after, ok) == FireAll(old(triggers), stamps, e)
    {
      ghost var kids := triggers;
      ghost var whole := FireAll(kids, stamps, e);
      ok, after := true, e;
      var i := 0;
      assert kids[0..] == kids && triggers[..0] + whole.trees == whole.trees;
      while i < |triggers|
        invariant 0 <= i <= |triggers| == |kids|
        invariant Midway(kids, stamps, whole, triggers, i, after)
      {
        MidwayStep(kids, stamps, whole, triggers, i, after);
        var r := Fire(triggers[i], stamps, after);
        triggers := triggers[i := r.tree];
        after := r.outside;
        if !r.ok {
          ok := false;
          return;
        }
        i := i + 1;
      }
      assert kids[i..] == [] && triggers[..i] + [] == triggers;
    }
  }
}
