/**
 How far a blocked wait is from its answer.
 */
module ClusterProgress {
  import opened Messages
  import opened Cluster
  import opened ClusterInvariant
  import opened ClusterSteps
  import opened ClusterSafety
  import opened ClusterRuns
  import opened ClusterLiveness

  /** Where the token of a wait is (4: request queued, 3: in the home receiver's hands,
      2: cached at home, 1: reply queued, 0: reply delivered) and, in a queue, how
      many receiver actions come before it. */
  datatype Rank = Rank(stage: nat, actions: nat)

  predicate Below(a: Rank, b: Rank) {
    a.stage < b.stage || (a.stage == b.stage && a.actions < b.actions)
  }

  function Position(q: Queue, c: Class): nat {
    if q == [] || Is(q[0], c) then 0 else 1 + Position(q[1..], c)
  }

  function Busy(r: RecvPc): nat { if r == Idle then 0 else 1 }

  function RankOf(s: State, n: nat): Rank
    requires n < |s.inbox| == |s.cache| == |s.recv| == |s.app|
    requires s.app[n].Waiting? && s.app[n].key.home < |s.inbox|
  {
    var k := s.app[n].key;
    var h := k.home;
    if CachedReplies(s.cache[n], k) > 0 then Rank(0, 0)
    else if Count(s.inbox[n], AnyReply) > 0 then Rank(1, 2 * Position(s.inbox[n], AnyReply) + Busy(s.recv[n]))
    else if CachedRequests(s.cache[h], k, n) > 0 then Rank(2, 0)
    else if InHand(s.recv[h], n) > 0 then Rank(3, 0)
    else Rank(4, 2 * Position(s.inbox[h], RequestOf(n)) + Busy(s.recv[h]))
  }

  lemma {:induction false} CountPrefix(q: Queue, q': Queue, c: Class)
    requires q <= q'
    ensures Count(q, c) <= Count(q', c)
    ensures Count(q, c) > 0 ==> Position(q', c) == Position(q, c)
  {
    if q != [] {
      CountPrefix(q[1..], q'[1..], c);
    }
  }

  /** n is blocked on k before and after the step. */
  ghost predicate StaysBlocked(s: State, step: Step, n: nat, k: Key) {
    && Inv(s) && Enabled(s, step) && AssertsHold(s, step)
    && n < s.N() && s.app[n] == Waiting(k) && Apply(s, step).app[n] == Waiting(k)
  }

  /** The step answers the requests cached for k at its home. */
  ghost predicate Answers(s: State, step: Step, k: Key)
    requires s.WellFormed()
  {
    k.home < s.N() && ((step == AppAnswer(k.home) && s.app[k.home] == AppAnswering(k))
                       || (step == Act(k.home) && s.recv[k.home] == RecvAnswering(k)))
  }

  /** The step is the receiver's, at node x. */
  predicate ReceiverStep(step: Step, x: nat) {
    step == Pop(x) || step == Act(x)
  }

  /** The two receivers a wait depends on have not stopped, and are not tearing down. */
  lemma ReceiversRun(s: State, n: nat, k: Key)
    requires Inv(s) && n < s.N() && s.app[n] == Waiting(k)
    ensures k.home < s.N() && k.home != n && Tokens(s, n, k) == 1
    ensures RecvOk(s, n) && !s.recv[n].TearingDown? && s.recv[n] != Stopped
    ensures RecvOk(s, k.home) && !s.recv[k.home].TearingDown? && s.recv[k.home] != Stopped
  {
    assert AppOk(s, n) && RecvOk(s, n) && RecvOk(s, k.home);
    NotAllDone(s, n);
  }

  lemma BlockedFacts(s: State, step: Step, n: nat, k: Key)
    requires StaysBlocked(s, step, n, k)
    ensures k.home < s.N() && k.home != n && Tokens(s, n, k) == 1
    ensures Inv(Apply(s, step)) && Tokens(Apply(s, step), n, k) == 1
  {
    ReceiversRun(s, n, k);
    AssertsNeverFail(s, step);
  }

  lemma DeliveredStays(s: State, step: Step, n: nat, k: Key)
    requires StaysBlocked(s, step, n, k) && CachedReplies(s.cache[n], k) > 0
    ensures CachedReplies(Apply(s, step).cache[n], k) > 0
  {
    ReceiversRun(s, n, k);
    CacheEntryStays(s, step, n, k);
  }

  // ----- a token in a queue -----

  /** A message of class c is still in the queue; fewer of the receiver's actions come
      before the first one if the receiver worked, and as many if it did not. */
  ghost predicate Nearer(q: Queue, q': Queue, r: RecvPc, r': RecvPc, c: Class, worked: bool) {
    && Count(q', c) > 0
    && var a, a' := 2 * Position(q, c) + Busy(r), 2 * Position(q', c) + Busy(r');
       if worked then a' < a else a' == a
  }

  lemma HeadLeaves(q: Queue, r': RecvPc, c: Class)
    requires Count(q, c) > 0 && !Is(q[0], c)
    ensures Nearer(q, q[1..], Idle, r', c, true)
  {
  }

  lemma QueueGrows(q: Queue, q': Queue, r: RecvPc, r': RecvPc, c: Class, worked: bool)
    requires Count(q, c) > 0 && q <= q'
    requires if worked then r != Idle && r' == Idle else r' == r
    ensures Nearer(q, q', r, r', c, worked)
  {
    CountPrefix(q, q', c);
  }

  lemma QueuedMoves(s: State, step: Step, x: nat, c: Class)
    requires s.WellFormed() && Enabled(s, step) && AssertsHold(s, step) && x < s.N() && Count(s.inbox[x], c) > 0
    requires step == Pop(x) ==> !Is(s.inbox[x][0], c)
    requires !s.recv[x].TearingDown?
    ensures Nearer(s.inbox[x], Apply(s, step).inbox[x], s.recv[x], Apply(s, step).recv[x], c, ReceiverStep(step, x))
  {
    if step == Pop(x) {
      PopTakesHead(s, x);
      HeadLeaves(s.inbox[x], Apply(s, step).recv[x], c);
    } else {
      if step == Act(x) {
        ActEnds(s, x);
      } else {
        RecvStays(s, step, x);
      }
      InboxGrows(s, step, x);
      QueueGrows(s.inbox[x], Apply(s, step).inbox[x], s.recv[x], Apply(s, step).recv[x], c, step == Act(x));
    }
  }

  lemma ReplyArrives(s: State, n: nat, k: Key)
    requires StaysBlocked(s, Pop(n), n, k) && s.inbox[n][0].ReplyData?
    ensures CachedReplies(Apply(s, Pop(n)).cache[n], k) > 0
  {
    assert MessageOk(s, n, s.inbox[n][0]);
  }

  lemma QueuedReplyMoves(s: State, step: Step, n: nat, k: Key)
    requires StaysBlocked(s, step, n, k) && Count(s.inbox[n], AnyReply) > 0
    ensures var s' := Apply(s, step);
      || CachedReplies(s'.cache[n], k) > 0
      || Nearer(s.inbox[n], s'.inbox[n], s.recv[n], s'.recv[n], AnyReply, ReceiverStep(step, n))
  {
    if step == Pop(n) && s.inbox[n][0].ReplyData? {
      ReplyArrives(s, n, k);
    } else {
      ReceiversRun(s, n, k);
      QueuedMoves(s, step, n, AnyReply);
    }
  }

  lemma RequestIsTaken(s: State, h: nat, n: nat)
    requires s.WellFormed() && Enabled(s, Pop(h)) && AssertsHold(s, Pop(h)) && Is(s.inbox[h][0], RequestOf(n))
    ensures InHand(Apply(s, Pop(h)).recv[h], n) > 0
  {
  }

  lemma QueuedRequestMoves(s: State, step: Step, n: nat, k: Key)
    requires StaysBlocked(s, step, n, k) && k.home < s.N() && Count(s.inbox[k.home], RequestOf(n)) > 0
    ensures var s', h := Apply(s, step), k.home;
      || InHand(s'.recv[h], n) > 0
      || Nearer(s.inbox[h], s'.inbox[h], s.recv[h], s'.recv[h], RequestOf(n), ReceiverStep(step, h))
  {
    if step == Pop(k.home) && Is(s.inbox[k.home][0], RequestOf(n)) {
      RequestIsTaken(s, k.home, n);
    } else {
      ReceiversRun(s, n, k);
      QueuedMoves(s, step, k.home, RequestOf(n));
    }
  }

  // ----- a token in a cache or in the receiver's hands -----

  lemma CachedRequestIsAnswered(s: State, h: nat, n: nat, k: Key)
    requires s.WellFormed() && h < s.N() && n < s.N() && CanAnswer(s, h, k)
    requires k in s.cache[h] && Count(s.cache[h][k], RequestOf(n)) > 0
    ensures Count(AnswerCache(s, h, k).inbox[n], AnyReply) > 0
  {
    AnswerCounts(s, h, k, n, h);
  }

  lemma CachedRequestMoves(s: State, step: Step, n: nat, k: Key)
    requires StaysBlocked(s, step, n, k) && k.home < s.N() && CachedRequests(s.cache[k.home], k, n) > 0
    ensures var s' := Apply(s, step);
      if Answers(s, step, k) then Count(s'.inbox[n], AnyReply) > 0 else CachedRequests(s'.cache[k.home], k, n) > 0
  {
    if Answers(s, step, k) {
      CachedRequestIsAnswered(s, k.home, n, k);
    } else {
      CachedRequestStays(s, step, n, k);
    }
  }

  lemma CachedRequestStays(s: State, step: Step, n: nat, k: Key)
    requires StaysBlocked(s, step, n, k) && k.home < s.N() && CachedRequests(s.cache[k.home], k, n) > 0
    requires !Answers(s, step, k)
    ensures CachedRequests(Apply(s, step).cache[k.home], k, n) > 0
  {
    assert AppOk(s, k.home);
    CacheEntryStays(s, step, k.home, k);
    CachedStays(s.cache[k.home], Apply(s, step).cache[k.home], k, n);
  }

  lemma CachedStays(c: Cache, c': Cache, k: Key, n: nat)
    requires CachedRequests(c, k, n) > 0 && k in c' && c[k] <= c'[k]
    ensures CachedRequests(c', k, n) > 0
  {
    CountPrefix(c[k], c'[k], RequestOf(n));
  }

  lemma RequestIsCached(s: State, h: nat, n: nat, k: Key)
    requires s.WellFormed() && Enabled(s, Act(h)) && AssertsHold(s, Act(h)) && s.recv[h].Missed?
    requires InHand(s.recv[h], n) > 0 && s.recv[h].msg.key == k
    ensures CachedRequests(Apply(s, Act(h)).cache[h], k, n) > 0
  {
    AddToCacheCounts(s.cache[h], k, s.recv[h].msg, k, n);
  }

  lemma RequestIsAnswered(s: State, h: nat, n: nat)
    requires s.WellFormed() && Enabled(s, Act(h)) && AssertsHold(s, Act(h)) && s.recv[h].Hit? && n < s.N()
    requires InHand(s.recv[h], n) > 0
    ensures Count(Apply(s, Act(h)).inbox[n], AnyReply) > 0
  {
    CountAppend(s.inbox[n], ReplyData(h, n, s.recv[h].msg.key, s.recv[h].value), AnyReply);
  }

  /** The request in the receiver's hands is for the key that its sender waits for. */
  lemma InHandIsAwaited(s: State, n: nat, k: Key)
    requires Inv(s) && n < s.N() && s.app[n] == Waiting(k) && k.home < s.N() && InHand(s.recv[k.home], n) > 0
    ensures s.recv[k.home] != Idle && s.recv[k.home].msg.key == k
  {
    assert RecvOk(s, k.home);
  }

  lemma RequestInHandMoves(s: State, step: Step, n: nat, k: Key)
    requires StaysBlocked(s, step, n, k) && k.home < s.N() && InHand(s.recv[k.home], n) > 0
    ensures var s' := Apply(s, step);
      if ReceiverStep(step, k.home) then Count(s'.inbox[n], AnyReply) > 0 || CachedRequests(s'.cache[k.home], k, n) > 0
      else InHand(s'.recv[k.home], n) > 0
  {
    var h := k.home;
    InHandIsAwaited(s, n, k);
    if step == Act(h) {
      if s.recv[h].Missed? {
        RequestIsCached(s, h, n, k);
      } else {
        RequestIsAnswered(s, h, n);
      }
    } else if step != Pop(h) {
      RecvStays(s, step, h);
    }
  }

  // ----- the rank -----

  /** The step is one that moves the token, or brings it nearer to the head of its queue. */
  ghost predicate WorksOn(s: State, step: Step, n: nat, k: Key)
    requires s.WellFormed() && n < s.N() && s.app[n] == Waiting(k) && k.home < s.N()
  {
    match RankOf(s, n).stage
    case 1 => ReceiverStep(step, n)
    case 2 => Answers(s, step, k)
    case 3 => ReceiverStep(step, k.home)
    case 4 => ReceiverStep(step, k.home)
    case _ => false
  }

  /** No step of any thread takes a blocked wait further from its answer, and every
      step of the thread that holds its token brings it nearer. */
  lemma RankNeverRises(s: State, step: Step, n: nat, k: Key)
    requires StaysBlocked(s, step, n, k)
    ensures k.home < s.N()
    ensures RankOf(Apply(s, step), n) == RankOf(s, n) || Below(RankOf(Apply(s, step), n), RankOf(s, n))
    ensures WorksOn(s, step, n, k) ==> Below(RankOf(Apply(s, step), n), RankOf(s, n))
  {
    BlockedFacts(s, step, n, k);
    match RankOf(s, n).stage
    case 0 => DeliveredStays(s, step, n, k);
    case 1 => QueuedReplyMoves(s, step, n, k);
    case 2 => CachedRequestMoves(s, step, n, k);
    case 3 => RequestInHandMoves(s, step, n, k);
    case _ => QueuedRequestMoves(s, step, n, k);
  }

  /** The step that works on n's token, or ends its wait. */
  function NextStep(s: State, n: nat, k: Key): Step
    requires n < |s.inbox| == |s.cache| == |s.recv| == |s.app|
    requires s.app[n] == Waiting(k) && k.home < |s.inbox|
  {
    match RankOf(s, n).stage
    case 0 => FinishWait(n)
    case 1 => if s.recv[n] == Idle then Pop(n) else Act(n)
    case 2 => if s.app[k.home] == AppAnswering(k) then AppAnswer(k.home) else Act(k.home)
    case 3 => Act(k.home)
    case _ => if s.recv[k.home] == Idle then Pop(k.home) else Act(k.home)
  }

  /** If n's request is cached at its home, some thread there is about to answer it. */
  ghost predicate AnsweredIfCached(s: State, n: nat, k: Key)
    requires s.WellFormed() && k.home < s.N()
  {
    CachedRequests(s.cache[k.home], k, n) > 0 ==>
      s.app[k.home] == AppAnswering(k) || s.recv[k.home] == RecvAnswering(k)
  }

  lemma NextStepIsEnabled(s: State, n: nat, k: Key)
    requires Inv(s) && n < s.N() && s.app[n] == Waiting(k) && k.home < s.N() && AnsweredIfCached(s, n, k)
    ensures Enabled(s, NextStep(s, n, k))
  {
    ReceiversRun(s, n, k);
  }

  lemma NextStepWorks(s: State, n: nat, k: Key)
    requires s.WellFormed() && n < s.N() && s.app[n] == Waiting(k) && k.home < s.N() && AnsweredIfCached(s, n, k)
    ensures NextStep(s, n, k) == FinishWait(n) || WorksOn(s, NextStep(s, n, k), n, k)
  {
  }

  lemma OtherStepsKeepBlocked(s: State, step: Step, n: nat, k: Key)
    requires Inv(s) && Enabled(s, step) && n < s.N() && s.app[n] == Waiting(k) && step != FinishWait(n)
    ensures StaysBlocked(s, step, n, k)
  {
    AssertsNeverFail(s, step);
  }

  /** Nothing is under way: every queue is empty and every thread is idle or blocked. */
  ghost predicate Quiet(s: State)
    requires s.WellFormed()
  {
    forall h :: 0 <= h < s.N() ==>
      && s.inbox[h] == [] && (s.recv[h] == Idle || s.recv[h] == Stopped)
      && !s.app[h].AppAnswering?
      && (s.app[h].Waiting? ==> s.app[h].key !in s.cache[h])
  }

  /** When a system that left no waiter behind comes to rest, whoever is still
      blocked is blocked on a key that its home does not hold. */
  lemma QuietMeansAbsent(s: State, n: nat, k: Key)
    requires Inv(s) && NoWaiterLeftBehind(s) && Quiet(s)
    requires n < s.N() && s.app[n] == Waiting(k)
    ensures k.home < s.N() && k.str !in s.kv[k.home]
  {
    assert AppOk(s, n);
    if k.str in s.kv[k.home] {
      NextStepIsEnabled(s, n, k);
      assert false;
    }
  }
}
