/**
 When a blocked wait ends: exactly which waits need another put of their key, that
 every other wait can be brought to its end by the threads that are already at work,
 and that one that needs a put ends in no run without it.
 */
module ClusterWaits {
  import opened Messages
  import opened Cluster
  import opened ClusterInvariant
  import opened ClusterSteps
  import opened ClusterSafety
  import opened ClusterRuns
  import opened ClusterLiveness
  import opened ClusterProgress
  import opened ClusterHistory
  import opened ClusterReads

  // ----- a wait that needs a put -----

  /** Once k is stored, whoever stored it is going to answer n, or the receiver will find it. */
  lemma StoringHelps(s: State, step: Step, n: nat, k: Key)
    requires StaysBlocked(s, step, n, k) && StoresKey(s, step, k)
    ensures !NeedsPut(Apply(s, step), n, k)
  {
    assert AppOk(s, n);
    assert step.Pop? ==> MessageOk(s, k.home, s.inbox[k.home][0]);
  }

  /** Only storing k makes a thread of its home go through the requests for k. */
  lemma NobodyAnswers(s: State, step: Step, k: Key)
    requires s.WellFormed() && Enabled(s, step) && AssertsHold(s, step) && k.home < s.N() && !StoresKey(s, step, k)
    ensures s.app[k.home] != AppAnswering(k) ==> Apply(s, step).app[k.home] != AppAnswering(k)
    ensures s.recv[k.home] != RecvAnswering(k) ==> Apply(s, step).recv[k.home] != RecvAnswering(k)
  {
  }

  lemma NotStoredStays(s: State, step: Step, k: Key)
    requires Inv(s) && Enabled(s, step) && AssertsHold(s, step) && k.home < s.N() && !StoresKey(s, step, k)
    ensures k.str !in s.kv[k.home] ==> k.str !in Apply(s, step).kv[k.home]
  {
    if step.Pop? {
      assert MessageOk(s, step.n, s.inbox[step.n][0]);
    }
    assert k == Key(k.str, k.home);
  }

  /** A token in one place is in no other. */
  lemma CachedAlone(s: State, n: nat, k: Key)
    requires NeedsPut(s, n, k) && Tokens(s, n, k) == 1 && CachedRequests(s.cache[k.home], k, n) > 0
    ensures s.app[k.home] != AppAnswering(k) && s.recv[k.home] != RecvAnswering(k)
  {
  }

  lemma MissedAlone(s: State, n: nat, k: Key)
    requires NeedsPut(s, n, k) && Tokens(s, n, k) == 1 && InHand(s.recv[k.home], n) > 0
    ensures s.app[k.home] != AppAnswering(k) && s.recv[k.home].Missed?
  {
  }

  lemma QueuedAlone(s: State, n: nat, k: Key)
    requires NeedsPut(s, n, k) && Tokens(s, n, k) == 1 && Count(s.inbox[k.home], RequestOf(n)) > 0
    ensures k.str !in s.kv[k.home]
  {
  }

  lemma CachedNeedsPut(s: State, step: Step, n: nat, k: Key)
    requires StaysBlocked(s, step, n, k) && NeedsPut(s, n, k) && CachedRequests(s.cache[k.home], k, n) > 0
    requires !StoresKey(s, step, k) && Tokens(s, n, k) == 1
    ensures NeedsPut(Apply(s, step), n, k)
  {
    CachedAlone(s, n, k);
    NobodyAnswers(s, step, k);
    CachedRequestStays(s, step, n, k);
  }

  lemma MissedNeedsPut(s: State, step: Step, n: nat, k: Key)
    requires StaysBlocked(s, step, n, k) && NeedsPut(s, n, k) && InHand(s.recv[k.home], n) > 0
    requires !StoresKey(s, step, k) && Tokens(s, n, k) == 1
    ensures NeedsPut(Apply(s, step), n, k)
  {
    MissedAlone(s, n, k);
    InHandIsAwaited(s, n, k);
    NobodyAnswers(s, step, k);
    if step == Act(k.home) {
      RequestIsCached(s, k.home, n, k);
    } else {
      RecvStays(s, step, k.home);
    }
  }

  lemma QueuedNeedsPut(s: State, step: Step, n: nat, k: Key)
    requires StaysBlocked(s, step, n, k) && NeedsPut(s, n, k) && Count(s.inbox[k.home], RequestOf(n)) > 0
    requires !StoresKey(s, step, k) && Tokens(s, n, k) == 1
    ensures NeedsPut(Apply(s, step), n, k)
  {
    QueuedAlone(s, n, k);
    NotStoredStays(s, step, k);
    if step == Pop(k.home) {
      PoppedNeedsPut(s, n, k);
    } else {
      QueuedRequestStays(s, step, k.home, n);
    }
  }

  lemma PoppedNeedsPut(s: State, n: nat, k: Key)
    requires k.home < |s.inbox| && StaysBlocked(s, Pop(k.home), n, k) && Count(s.inbox[k.home], RequestOf(n)) > 0
    requires k.str !in s.kv[k.home] && k.str !in Apply(s, Pop(k.home)).kv[k.home]
    ensures NeedsPut(Apply(s, Pop(k.home)), n, k)
  {
    assert AppOk(s, k.home) && MessageOk(s, k.home, s.inbox[k.home][0]);
  }

  lemma QueuedRequestStays(s: State, step: Step, h: nat, n: nat)
    requires Inv(s) && Enabled(s, step) && AssertsHold(s, step) && h < s.N() && step != Pop(h)
    ensures Count(s.inbox[h], RequestOf(n)) <= Count(Apply(s, step).inbox[h], RequestOf(n))
  {
    InboxGrows(s, step, h);
    CountPrefix(s.inbox[h], Apply(s, step).inbox[h], RequestOf(n));
  }

  lemma NeedsPutBlocks(s: State, n: nat, k: Key)
    requires Inv(s) && NeedsPut(s, n, k)
    ensures !Enabled(s, FinishWait(n)) && Tokens(s, n, k) == 1
  {
    assert Tokens(s, n, k) == 1;
    assert AppOk(s, n);
    assert k in s.cache[n] ==> CacheOk(s, n, k, s.cache[n][k]);
  }

  /** A wait that needs a put goes on needing it exactly until the key is stored again. */
  lemma NeedsPutStep(s: State, step: Step, n: nat, k: Key)
    requires Inv(s) && NeedsPut(s, n, k) && Enabled(s, step)
    ensures AssertsHold(s, step)
    ensures NeedsPut(Apply(s, step), n, k) <==> !StoresKey(s, step, k)
  {
    NeedsPutBlocks(s, n, k);
    OtherStepsKeepBlocked(s, step, n, k);
    if StoresKey(s, step, k) {
      StoringHelps(s, step, n, k);
    } else if CachedRequests(s.cache[k.home], k, n) > 0 {
      CachedNeedsPut(s, step, n, k);
    } else if InHand(s.recv[k.home], n) > 0 {
      MissedNeedsPut(s, step, n, k);
    } else {
      QueuedNeedsPut(s, step, n, k);
    }
  }

  lemma NeedsPutInRun(states: seq<State>, steps: seq<Step>, i: nat, n: nat, k: Key)
    requires IsRun(states, steps) && i < |steps| && NeedsPut(states[i], n, k) && !StoresKey(states[i], steps[i], k)
    ensures NeedsPut(states[i + 1], n, k)
  {
    RunKeepsInv(states, steps, i);
    assert Next(states[i], steps[i], states[i + 1]);
    NeedsPutStep(states[i], steps[i], n, k);
  }

  /** Over runs: n stays blocked, whoever does whatever, until k is stored again. */
  lemma StrandedUntilStored(states: seq<State>, steps: seq<Step>, i: nat, j: nat, n: nat, k: Key)
    requires IsRun(states, steps) && i <= j < |states| && NeedsPut(states[i], n, k)
    requires forall x :: i <= x < j ==> !StoresKey(states[x], steps[x], k)
    ensures NeedsPut(states[j], n, k) && states[j].app[n] == Waiting(k)
  {
    var x := i;
    while x < j
      invariant i <= x <= j && NeedsPut(states[x], n, k)
    {
      NeedsPutInRun(states, steps, x, n, k);
      x := x + 1;
    }
  }

  /** Whoever was left behind needs another put, although its key is stored. */
  lemma LeftBehindNeedsPut(s: State) returns (n: nat, k: Key)
    requires Inv(s) && !NoWaiterLeftBehind(s)
    ensures NeedsPut(s, n, k) && k.str in s.kv[k.home]
  {
    var h: nat;
    h, k :| h < s.N() && k in s.cache[h] && k.home == h && k.str in s.kv[h]
            && s.app[h] != AppAnswering(k) && s.recv[h] != RecvAnswering(k);
    assert CacheOk(s, h, k, s.cache[h][k]);
    n := s.cache[h][k][0].sender;
    assert Is(s.cache[h][k][0], RequestOf(n));
  }

  // ----- a wait that does not -----

  /** The state after the steps, if all of them can be taken. */
  ghost function AfterAll(s: State, steps: seq<Step>): Option<State>
    decreases |steps|
  {
    if steps == [] then Some(s)
    else if After(s, steps[0]).None? then None
    else AfterAll(After(s, steps[0]).value, steps[1..])
  }

  /** Steps that the threads already have before them: no application gets on with its program. */
  predicate AtWork(step: Step) {
    step.Pop? || step.Act? || step.AppAnswer?
  }

  /** Receivers and answering applications can take the steps from s, then last, and so
      n's wait ends. */
  ghost predicate EndsWait(s: State, steps: seq<Step>, last: Step) {
    && (forall i :: 0 <= i < |steps| ==> AtWork(steps[i]))
    && AfterAll(s, steps + [last]).Some?
  }

  lemma AfterFirst(s: State, step: Step, steps: seq<Step>)
    requires After(s, step).Some?
    ensures AfterAll(s, [step] + steps) == AfterAll(After(s, step).value, steps)
  {
    assert ([step] + steps)[1..] == steps;
  }

  lemma EndsWaitEarlier(s: State, step: Step, steps: seq<Step>, last: Step)
    requires After(s, step).Some? && AtWork(step) && EndsWait(After(s, step).value, steps, last)
    ensures EndsWait(s, [step] + steps, last)
  {
    AfterFirst(s, step, steps + [last]);
    assert [step] + steps + [last] == [step] + (steps + [last]);
  }

  lemma EndsWaitNext(s: State, steps: seq<Step>, last: Step)
    requires EndsWait(s, steps, last) && steps != []
    ensures AtWork(steps[0]) && After(s, steps[0]).Some? && EndsWait(After(s, steps[0]).value, steps[1..], last)
  {
    assert (steps + [last])[1..] == steps[1..] + [last];
  }

  lemma EndsAtOnce(s: State, last: Step)
    requires After(s, last).Some?
    ensures EndsWait(s, [], last)
  {
    assert [] + [last] == [last] && [last][1..] == [];
  }

  lemma RepliedNeedsNoPut(s: State, n: nat, k: Key)
    requires s.WellFormed() && n < s.N() && k.home < s.N() && Tokens(s, n, k) == 1
    requires Count(s.inbox[n], AnyReply) > 0 || CachedReplies(s.cache[n], k) > 0
    ensures !NeedsPut(s, n, k)
  {
  }

  /** A request in the receiver's hands gets its reply, or is cached for one who will answer. */
  lemma ActAvoidsNeed(s: State, n: nat, k: Key)
    requires k.home < s.N() && StaysBlocked(s, Act(k.home), n, k)
    requires !NeedsPut(s, n, k) && InHand(s.recv[k.home], n) > 0
    ensures !NeedsPut(Apply(s, Act(k.home)), n, k)
  {
    BlockedFacts(s, Act(k.home), n, k);
    RequestInHandMoves(s, Act(k.home), n, k);
  }

  lemma StoredNeedsNoPut(s: State, n: nat, k: Key)
    requires s.WellFormed() && n < s.N() && k.home < s.N() && Tokens(s, n, k) == 1 && k.str in s.kv[k.home]
    requires Count(s.inbox[k.home], RequestOf(n)) > 0 || (s.recv[k.home].Hit? && InHand(s.recv[k.home], n) > 0)
    ensures !NeedsPut(s, n, k)
  {
  }

  lemma LookupHits(s: State, n: nat, k: Key)
    requires k.home < |s.inbox| && StaysBlocked(s, Pop(k.home), n, k) && Is(s.inbox[k.home][0], RequestOf(n))
    requires k.str in s.kv[k.home]
    ensures var r := Apply(s, Pop(k.home)).recv[k.home]; r.Hit? && InHand(r, n) > 0
  {
    assert MessageOk(s, k.home, s.inbox[k.home][0]);
  }

  /** A request still queued will find its key stored. */
  lemma ReceiverAvoidsNeed(s: State, step: Step, n: nat, k: Key)
    requires StaysBlocked(s, step, n, k) && k.home < s.N() && ReceiverStep(step, k.home)
    requires !NeedsPut(s, n, k) && Count(s.inbox[k.home], RequestOf(n)) > 0
    ensures !NeedsPut(Apply(s, step), n, k)
  {
    BlockedFacts(s, step, n, k);
    StoredStays(s, step, k.home, k.str);
    if step == Pop(k.home) && Is(s.inbox[k.home][0], RequestOf(n)) {
      LookupHits(s, n, k);
    } else {
      ReceiversRun(s, n, k);
      QueuedMoves(s, step, k.home, RequestOf(n));
    }
    StoredNeedsNoPut(Apply(s, step), n, k);
  }

  lemma NextStepAvoidsNeed(s: State, step: Step, n: nat, k: Key)
    requires StaysBlocked(s, step, n, k) && k.home < s.N() && !NeedsPut(s, n, k)
    requires step == NextStep(s, n, k) && step != FinishWait(n)
    ensures !NeedsPut(Apply(s, step), n, k)
  {
    BlockedFacts(s, step, n, k);
    match RankOf(s, n).stage
    case 1 =>
      QueuedReplyMoves(s, step, n, k);
      RepliedNeedsNoPut(Apply(s, step), n, k);
    case 2 =>
      CachedRequestMoves(s, step, n, k);
      RepliedNeedsNoPut(Apply(s, step), n, k);
    case 3 => ActAvoidsNeed(s, n, k);
    case _ => ReceiverAvoidsNeed(s, step, n, k);
  }

  /** n is blocked on k and needs no put of it. */
  ghost predicate InNoNeed(s: State, n: nat, k: Key) {
    Inv(s) && n < s.N() && s.app[n] == Waiting(k) && k.home < s.N() && !NeedsPut(s, n, k)
  }

  lemma NextStepIsTaken(s: State, n: nat, k: Key)
    requires InNoNeed(s, n, k)
    ensures After(s, NextStep(s, n, k)).Some?
  {
    NextStepIsEnabled(s, n, k);
    AssertsNeverFail(s, NextStep(s, n, k));
  }

  /** The step that works on a wait in no need of a put leaves it in no need, and nearer its answer. */
  lemma NextStepHelps(s: State, n: nat, k: Key)
    requires InNoNeed(s, n, k) && After(s, NextStep(s, n, k)).Some? && NextStep(s, n, k) != FinishWait(n)
    ensures var s' := After(s, NextStep(s, n, k)).value; InNoNeed(s', n, k) && Below(RankOf(s', n), RankOf(s, n))
  {
    AssertsNeverFail(s, NextStep(s, n, k));
    OtherStepsKeepBlocked(s, NextStep(s, n, k), n, k);
    NextStepWorks(s, n, k);
    RankNeverRises(s, NextStep(s, n, k), n, k);
    NextStepAvoidsNeed(s, NextStep(s, n, k), n, k);
  }

  /** A wait that needs no put can be brought to its end. */
  lemma {:induction false} WaitEnds(s: State, n: nat, k: Key) returns (steps: seq<Step>)
    requires InNoNeed(s, n, k)
    ensures EndsWait(s, steps, FinishWait(n))
    decreases RankOf(s, n).stage, RankOf(s, n).actions
  {
    var step := NextStep(s, n, k);
    NextStepIsTaken(s, n, k);
    if step == FinishWait(n) {
      EndsAtOnce(s, step);
      steps := [];
    } else {
      NextStepHelps(s, n, k);
      var rest := WaitEnds(After(s, step).value, n, k);
      EndsWaitEarlier(s, step, rest, FinishWait(n));
      steps := [step] + rest;
    }
  }

  // ----- a put that is under way -----

  lemma {:induction false} AfterMore(s: State, steps: seq<Step>, more: seq<Step>)
    requires AfterAll(s, steps).Some?
    ensures AfterAll(s, steps + more) == AfterAll(AfterAll(s, steps).value, more)
    decreases |steps|
  {
    if steps == [] {
      assert [] + more == more;
    } else {
      assert (steps + more)[1..] == steps[1..] + more;
      AfterMore(After(s, steps[0]).value, steps[1..], more);
    }
  }

  /** The threads at work can take the steps from s, and then the state is s'. */
  ghost predicate WorkedTo(s: State, steps: seq<Step>, s': State) {
    (forall i :: 0 <= i < |steps| ==> AtWork(steps[i])) && AfterAll(s, steps) == Some(s')
  }

  lemma WorkedFirst(s: State, step: Step, steps: seq<Step>, s': State)
    requires AtWork(step) && After(s, step).Some? && WorkedTo(After(s, step).value, steps, s')
    ensures WorkedTo(s, [step] + steps, s')
  {
    AfterFirst(s, step, steps);
  }

  lemma EndsWaitLater(s: State, steps: seq<Step>, s': State, more: seq<Step>, last: Step)
    requires WorkedTo(s, steps, s') && EndsWait(s', more, last)
    ensures EndsWait(s, steps + more, last)
  {
    AfterMore(s, steps, more + [last]);
    assert steps + more + [last] == steps + (more + [last]);
  }

  /** What the home receiver does next about its queue. */
  function DrainStep(s: State, h: nat): Step
    requires h < |s.recv|
  {
    if s.recv[h] == Idle then Pop(h) else Act(h)
  }

  lemma {:induction false} PushAllElsewhere(inbox: seq<Queue>, ms: seq<Message>, x: nat)
    requires x < |inbox|
    requires forall i :: 0 <= i < |ms| ==> ms[i].target < |inbox| && ms[i].target != x
    ensures PushAll(inbox, ms)[x] == inbox[x]
    decreases |ms|
  {
    if ms != [] {
      PushAllElsewhere(Push(inbox, ms[0]), ms[1..], x);
    }
  }

  lemma AnswerLeavesOwnInbox(s: State, h: nat, k: Key)
    requires Inv(s) && h < s.N() && k.home == h && CanAnswer(s, h, k)
    ensures AnswerCache(s, h, k).inbox[h] == s.inbox[h]
  {
    if k in s.cache[h] {
      assert CacheOk(s, h, k, s.cache[h][k]);
      PushAllElsewhere(s.inbox, Replies(h, k, s.kv[h][k.str], s.cache[h][k]), h);
    }
  }

  /** The receiver sends nothing to its own node. */
  lemma ActLeavesOwnInbox(s: State, h: nat)
    requires Inv(s) && Enabled(s, Act(h)) && AssertsHold(s, Act(h)) && !s.recv[h].TearingDown?
    ensures Apply(s, Act(h)).inbox[h] == s.inbox[h] && Apply(s, Act(h)).recv[h] == Idle
    ensures Apply(s, Act(h)).app == s.app
  {
    assert RecvOk(s, h);
    if s.recv[h].RecvAnswering? {
      AnswerLeavesOwnInbox(s, h, s.recv[h].key);
    }
  }

  /** Where the home receiver stands with a put of k that is queued or was just taken. */
  ghost predicate PutOnItsWay(s: State, k: Key)
    requires s.WellFormed() && k.home < s.N()
  {
    LastPending(s.inbox[k.home], k).Some? || (s.recv[k.home] == RecvAnswering(k) && k.str in s.kv[k.home])
  }

  lemma PopDrains(s: State, h: nat, k: Key)
    requires Inv(s) && Enabled(s, Pop(h)) && AssertsHold(s, Pop(h)) && k.home == h && LastPending(s.inbox[h], k).Some?
    ensures var s' := Apply(s, Pop(h)); s'.app == s.app && |s'.inbox[h]| == |s.inbox[h]| - 1 && PutOnItsWay(s', k)
  {
    PendingPop(s.inbox[h], k);
  }

  lemma ReceiverRuns(s: State, n: nat, h: nat)
    requires Inv(s) && n < s.N() && s.app[n] != Finished && h < s.N()
    ensures s.recv[h] != Stopped && !s.recv[h].TearingDown?
  {
    NotAllDone(s, n);
    assert RecvOk(s, h);
  }

  function Undrained(s: State, h: nat): nat
    requires h < |s.inbox| == |s.recv|
  {
    2 * |s.inbox[h]| + Busy(s.recv[h])
  }

  /** A receiver with something to do, while some application has not finished. */
  lemma DrainHelps(s: State, n: nat, k: Key)
    requires Inv(s) && n < s.N() && s.app[n] != Finished
    requires k.home < s.N() && LastPending(s.inbox[k.home], k).Some?
    ensures var next := After(s, DrainStep(s, k.home));
      && next.Some? && Inv(next.value) && next.value.N() == s.N() && next.value.app == s.app
      && Undrained(next.value, k.home) < Undrained(s, k.home) && PutOnItsWay(next.value, k)
  {
    ReceiverRuns(s, n, k.home);
    AssertsNeverFail(s, DrainStep(s, k.home));
    if s.recv[k.home] == Idle {
      PopDrains(s, k.home, k);
    } else {
      ActLeavesOwnInbox(s, k.home);
    }
  }

  /** A PutMsg for k that is queued at k's home gets there. */
  lemma {:induction false} PutArrives(s: State, n: nat, k: Key) returns (steps: seq<Step>, s': State)
    requires Inv(s) && n < s.N() && s.app[n] != Finished
    requires k.home < s.N() && LastPending(s.inbox[k.home], k).Some?
    ensures WorkedTo(s, steps, s')
    ensures Inv(s') && s'.app == s.app && s'.recv[k.home] == RecvAnswering(k) && k.str in s'.kv[k.home]
    decreases Undrained(s, k.home)
  {
    DrainHelps(s, n, k);
    var step, s1 := DrainStep(s, k.home), After(s, DrainStep(s, k.home)).value;
    var rest;
    if LastPending(s1.inbox[k.home], k).Some? {
      rest, s' := PutArrives(s1, n, k);
    } else {
      rest, s' := [], s1;
    }
    steps := [step] + rest;
    WorkedFirst(s, step, rest, s');
  }

  /** When the put has arrived the receiver goes through the requests for k, n's with them. */
  lemma ArrivedEndsWait(s: State, n: nat, k: Key) returns (steps: seq<Step>)
    requires Inv(s) && n < s.N() && BlockedOn(s.app[n], k)
    requires k.home < s.N() && s.recv[k.home] == RecvAnswering(k) && k.str in s.kv[k.home]
    ensures EndsWait(s, steps, LastStep(s, n))
  {
    if s.app[n].Spinning? {
      assert AppOk(s, n);
      EndsAtOnce(s, FinishSpin(n));
      steps := [];
    } else {
      steps := WaitEnds(s, n, k);
    }
  }

  /** So a wait for k can end once a put that is under way has arrived. */
  lemma WaitEndsAfterPut(s: State, n: nat, k: Key) returns (steps: seq<Step>)
    requires Inv(s) && n < s.N() && BlockedOn(s.app[n], k)
    requires k.home < s.N() && LastPending(s.inbox[k.home], k).Some?
    ensures EndsWait(s, steps, LastStep(s, n))
  {
    var s';
    steps, s' := PutArrives(s, n, k);
    var more := ArrivedEndsWait(s', n, k);
    EndsWaitLater(s, steps, s', more, LastStep(s, n));
    steps := steps + more;
  }

  /** The step that ends n's wait. */
  function LastStep(s: State, n: nat): Step
    requires n < |s.app|
  {
    if s.app[n].Spinning? then FinishSpin(n) else FinishWait(n)
  }

  // ----- exactly when -----

  lemma NoPutAppears(s: State, step: Step, k: Key)
    requires Inv(s) && Enabled(s, step) && AssertsHold(s, step) && AtWork(step)
    requires k.home < s.N() && LastPending(s.inbox[k.home], k) == None
    ensures LastPending(Apply(s, step).inbox[k.home], k) == None && !StoresKey(s, step, k)
  {
    if step == Pop(k.home) {
      PopTakesHead(s, k.home);
      PendingPop(s.inbox[k.home], k);
    } else {
      NoPutIsSent(s, step, k.home, k);
      PendingPrefix(s.inbox[k.home], Apply(s, step).inbox[k.home], k);
    }
  }

  /** n's wait needs a put of k and none is under way. */
  ghost predicate Stuck(s: State, n: nat, k: Key) {
    Inv(s) && NeedsPut(s, n, k) && LastPending(s.inbox[k.home], k) == None
  }

  lemma StuckStep(s: State, step: Step, n: nat, k: Key)
    requires Stuck(s, n, k) && AtWork(step) && After(s, step).Some?
    ensures Stuck(After(s, step).value, n, k)
  {
    AssertsNeverFail(s, step);
    NoPutAppears(s, step, k);
    NeedsPutStep(s, step, n, k);
  }

  /** Without a put under way the threads' own steps never end a wait that needs one. */
  lemma {:induction false} NeverEnds(s: State, steps: seq<Step>, n: nat, k: Key)
    requires Stuck(s, n, k)
    ensures !EndsWait(s, steps, FinishWait(n))
    decreases |steps|
  {
    if steps == [] {
      NeedsPutBlocks(s, n, k);
      assert ([] + [FinishWait(n)])[0] == FinishWait(n);
    } else if EndsWait(s, steps, FinishWait(n)) {
      EndsWaitNext(s, steps, FinishWait(n));
      StuckStep(s, steps[0], n, k);
      NeverEnds(After(s, steps[0]).value, steps[1..], n, k);
    }
  }

  /** The threads at work can end n's wait, without any application getting on with its
      program, if and only if it needs no put of k, or one is queued at k's home. */
  lemma WaitEndsIff(s: State, n: nat, k: Key)
    requires Inv(s) && n < s.N() && s.app[n] == Waiting(k)
    ensures k.home < s.N()
    ensures (exists steps :: EndsWait(s, steps, FinishWait(n)))
       <==> !NeedsPut(s, n, k) || LastPending(s.inbox[k.home], k).Some?
  {
    assert AppOk(s, n);
    if !NeedsPut(s, n, k) {
      var steps := WaitEnds(s, n, k);
    } else if LastPending(s.inbox[k.home], k).Some? {
      var steps := WaitEndsAfterPut(s, n, k);
    } else {
      forall steps
        ensures !EndsWait(s, steps, FinishWait(n))
      {
        NeverEnds(s, steps, n, k);
      }
    }
  }

  lemma CarefulNeedsNoPut(s: State, n: nat, k: Key)
    requires Inv(s) && NoWaiterLeftBehind(s) && MissedIsAbsent(s)
    requires k.home < s.N() && k.str in s.kv[k.home]
    ensures !NeedsPut(s, n, k)
  {
    assert RecvOk(s, k.home);
  }

  /** Where no waiter was left behind and none is about to be, every wait for a key that
      some node has put can end, whether the put has arrived or not, here or on another node. */
  lemma PutKeyWaitEnds(s: State, n: nat, k: Key, r: PutRecord) returns (steps: seq<Step>)
    requires HistoryInv(s) && NoWaiterLeftBehind(s) && MissedIsAbsent(s)
    requires n < s.N() && BlockedOn(s.app[n], k) && r in s.puts && r.key == k
    ensures EndsWait(s, steps, LastStep(s, n))
  {
    var i :| 0 <= i < |s.puts| && s.puts[i] == r;
    assert Settled(s, s.puts[i].key).Some?;
    assert AppOk(s, n);
    if LastPending(s.inbox[k.home], k).Some? {
      steps := WaitEndsAfterPut(s, n, k);
    } else if s.app[n].Spinning? {
      EndsAtOnce(s, FinishSpin(n));
      steps := [];
    } else {
      CarefulNeedsNoPut(s, n, k);
      steps := WaitEnds(s, n, k);
    }
  }

  /** In a careful run this is so of every state. */
  lemma CarefulWaitEnds(states: seq<State>, steps: seq<Step>, i: nat, n: nat, k: Key, r: PutRecord)
    returns (more: seq<Step>)
    requires IsRun(states, steps) && i < |states|
    requires forall j :: 0 <= j < |steps| ==>
               states[j].WellFormed() && steps[j].n < states[j].N() && Careful(states[j], steps[j])
    requires n < |states[i].app| && BlockedOn(states[i].app[n], k) && r in states[i].puts && r.key == k
    ensures EndsWait(states[i], more, LastStep(states[i], n))
  {
    CarefulRun(states, steps, i);
    RunKeepsHistory(states, steps, i);
    more := PutKeyWaitEnds(states[i], n, k, r);
  }
}
