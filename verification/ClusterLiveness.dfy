/**
 Which waiters get their answer.  The receiver looks a request up and caches it
 in two separate actions, and put stores and answers in two separate actions, so
 a request can be cached after the only put that would have answered it.  This
 module says exactly when that happens.
 */
module ClusterLiveness {
  import opened Messages
  import opened Cluster
  import opened ClusterInvariant
  import opened ClusterSteps
  import opened ClusterRuns

  /** A request cached at its home for a key stored there is about to be answered. */
  ghost predicate NoWaiterLeftBehind(s: State)
    requires s.WellFormed()
  {
    forall h, k :: 0 <= h < s.N() && k in s.cache[h] && k.home == h && k.str in s.kv[h] ==>
      s.app[h] == AppAnswering(k) || s.recv[h] == RecvAnswering(k)
  }

  /** Nothing that is under way will end n's wait for k, it takes another put of k: n's
      request is cached and no thread is about to answer it, or it was looked up in vain
      and will be cached so, or it is still queued and k is not stored. */
  ghost predicate NeedsPut(s: State, n: nat, k: Key) {
    && s.WellFormed() && n < s.N() && k.home < s.N() && s.app[n] == Waiting(k)
    && var h := k.home;
       || (CachedRequests(s.cache[h], k, n) > 0 && s.app[h] != AppAnswering(k) && s.recv[h] != RecvAnswering(k))
       || (InHand(s.recv[h], n) > 0 && s.recv[h].Missed? && s.app[h] != AppAnswering(k))
       || (Count(s.inbox[h], RequestOf(n)) > 0 && k.str !in s.kv[h])
  }

  /** In this step k is stored at its home, by the application there or from a PutMsg. */
  predicate StoresKey(s: State, step: Step, k: Key) {
    || (step.PutLocal? && step.key == k)
    || (step == Pop(k.home) && k.home < |s.inbox| && s.inbox[k.home] != []
        && s.inbox[k.home][0].Put? && s.inbox[k.home][0].key == k)
  }

  /** The receiver caches a request it looked up before the key was stored, and the
      thread that stored the key has already gone through the cache. */
  ghost predicate Racy(s: State, step: Step)
    requires s.WellFormed() && step.n < s.N()
  {
    && step.Act? && s.recv[step.n].Missed?
    && var m := s.recv[step.n].msg;
       m.WaitAndGet? && m.key.str in s.kv[step.n] && s.app[step.n] != AppAnswering(m.key)
  }

  /** The threads' answering duties and the home caches, which is all that matters here. */
  lemma NobodyNewStranded(s: State, s': State)
    requires s.WellFormed() && s'.WellFormed() && s'.N() == s.N() && NoWaiterLeftBehind(s)
    requires forall h, k :: 0 <= h < s.N() && k in s'.cache[h] && k.home == h ==> k in s.cache[h]
    requires forall h :: 0 <= h < s.N() && (s.app[h].AppAnswering? || s'.app[h].AppAnswering?) ==> s'.app[h] == s.app[h]
    requires forall h :: 0 <= h < s.N() && (s.recv[h].RecvAnswering? || s'.recv[h].RecvAnswering?) ==>
               s'.recv[h] == s.recv[h]
    requires s'.kv == s.kv
    ensures NoWaiterLeftBehind(s')
  {
  }

  lemma AnsweringStrandsNobody(s: State, step: Step)
    requires Inv(s) && Enabled(s, step) && AssertsHold(s, step) && NoWaiterLeftBehind(s)
    requires step.AppAnswer? || (step.Act? && s.recv[step.n].RecvAnswering?)
    ensures NoWaiterLeftBehind(Apply(s, step))
  {
    assert AppOk(s, step.n) && RecvOk(s, step.n);
  }

  lemma StoringStrandsNobody(s: State, step: Step)
    requires Inv(s) && Enabled(s, step) && AssertsHold(s, step) && NoWaiterLeftBehind(s)
    requires step.PutLocal? || (step.Pop? && s.inbox[step.n][0].Put?)
    ensures NoWaiterLeftBehind(Apply(s, step))
  {
    if step.Pop? {
      assert MessageOk(s, step.n, s.inbox[step.n][0]);
    }
    var s' := Apply(s, step);
    forall h, k | 0 <= h < s.N() && k in s'.cache[h] && k.home == h && k.str in s'.kv[h]
      ensures s'.app[h] == AppAnswering(k) || s'.recv[h] == RecvAnswering(k)
    {
      assert k.str in s.kv[h] ==> s.app[h] == AppAnswering(k) || s.recv[h] == RecvAnswering(k);
      assert k == Key(k.str, h);
    }
  }

  lemma CachingStrandsIffRacy(s: State, n: nat)
    requires Inv(s) && Enabled(s, Act(n)) && AssertsHold(s, Act(n)) && NoWaiterLeftBehind(s) && s.recv[n].Missed?
    ensures NoWaiterLeftBehind(Apply(s, Act(n))) <==> !Racy(s, Act(n))
  {
    if Racy(s, Act(n)) {
      RacyCachingStrands(s, n);
    } else {
      OtherCachingStrandsNobody(s, n);
    }
  }

  lemma RacyCachingStrands(s: State, n: nat)
    requires Inv(s) && Enabled(s, Act(n)) && AssertsHold(s, Act(n)) && s.recv[n].Missed? && Racy(s, Act(n))
    ensures !NoWaiterLeftBehind(Apply(s, Act(n)))
  {
    assert RecvOk(s, n);
    var m, s' := s.recv[n].msg, Apply(s, Act(n));
    assert m.key in s'.cache[n] && m.key.home == n && m.key.str in s'.kv[n];
  }

  lemma OtherCachingStrandsNobody(s: State, n: nat)
    requires Inv(s) && Enabled(s, Act(n)) && AssertsHold(s, Act(n)) && NoWaiterLeftBehind(s) && s.recv[n].Missed?
    requires !Racy(s, Act(n))
    ensures NoWaiterLeftBehind(Apply(s, Act(n)))
  {
    assert RecvOk(s, n);
    var m, s' := s.recv[n].msg, Apply(s, Act(n));
    forall h, k | 0 <= h < s.N() && k in s'.cache[h] && k.home == h && k.str in s'.kv[h]
      ensures s'.app[h] == AppAnswering(k) || s'.recv[h] == RecvAnswering(k)
    {
      assert (h == n && k == m.key) || k in s.cache[h];
    }
  }

  lemma ReceiverStrandsNobody(s: State, step: Step)
    requires Inv(s) && Enabled(s, step) && AssertsHold(s, step) && NoWaiterLeftBehind(s)
    requires (step.Pop? && !s.inbox[step.n][0].Put?)
             || (step.Act? && (s.recv[step.n].Hit? || s.recv[step.n].TearingDown?))
    ensures NoWaiterLeftBehind(Apply(s, step))
  {
    if step.Pop? {
      OnlyRepliesAreCachedByPop(s, step.n);
    }
    NobodyNewStranded(s, Apply(s, step));
  }

  lemma AppStrandsNobody(s: State, step: Step)
    requires Inv(s) && Enabled(s, step) && AssertsHold(s, step) && NoWaiterLeftBehind(s)
    requires step.PutRemote? || step.BeginWait? || step.FinishSpin? || step.FinishWait? || step.Finish?
    ensures NoWaiterLeftBehind(Apply(s, step))
  {
    NobodyNewStranded(s, Apply(s, step));
  }

  /** One step leaves a waiter behind if and only if it is a racy one. */
  lemma StrandedIffRacy(s: State, step: Step)
    requires Inv(s) && Enabled(s, step) && AssertsHold(s, step)
    requires NoWaiterLeftBehind(s)
    ensures NoWaiterLeftBehind(Apply(s, step)) <==> !Racy(s, step)
  {
    match step
    case PutLocal(_, _, _) => StoringStrandsNobody(s, step);
    case AppAnswer(_) => AnsweringStrandsNobody(s, step);
    case Act(n) =>
      match s.recv[n] {
        case Missed(_) => CachingStrandsIffRacy(s, n);
        case RecvAnswering(_) => AnsweringStrandsNobody(s, step);
        case _ => ReceiverStrandsNobody(s, step);
      }
    case Pop(n) =>
      if s.inbox[n][0].Put? {
        StoringStrandsNobody(s, step);
      } else {
        ReceiverStrandsNobody(s, step);
      }
    case _ => AppStrandsNobody(s, step);
  }

  lemma OnlyRepliesAreCachedByPop(s: State, n: nat)
    requires Inv(s) && Enabled(s, Pop(n)) && AssertsHold(s, Pop(n))
    ensures forall k :: k in Apply(s, Pop(n)).cache[n] && k !in s.cache[n] ==> k.home != n
  {
    assert MessageOk(s, n, s.inbox[n][0]);
  }

  /** Over a whole run: no state has a waiter left behind exactly when no step is racy. */
  lemma RunStrandsIffRacy(states: seq<State>, steps: seq<Step>)
    requires IsRun(states, steps)
    ensures (forall i :: 0 <= i < |states| ==> states[i].WellFormed() && NoWaiterLeftBehind(states[i]))
       <==> (forall i :: 0 <= i < |steps| ==>
               states[i].WellFormed() && steps[i].n < states[i].N() && !Racy(states[i], steps[i]))
  {
    forall i | 0 <= i < |states|
      ensures Inv(states[i])
    {
      RunKeepsInv(states, steps, i);
    }
    if forall i :: 0 <= i < |states| ==> NoWaiterLeftBehind(states[i]) {
      forall i | 0 <= i < |steps|
        ensures steps[i].n < states[i].N() && !Racy(states[i], steps[i])
      {
        assert Next(states[i], steps[i], states[i + 1]);
        StrandedIffRacy(states[i], steps[i]);
      }
    }
    if forall i :: 0 <= i < |steps| ==> steps[i].n < states[i].N() && !Racy(states[i], steps[i]) {
      forall i | 0 <= i < |states|
        ensures NoWaiterLeftBehind(states[i])
      {
        RaceFreeRun(states, steps, i);
      }
    }
  }

  lemma {:induction false} RaceFreeRun(states: seq<State>, steps: seq<Step>, i: nat)
    requires IsRun(states, steps) && i < |states|
    requires forall j :: 0 <= j < i ==>
               states[j].WellFormed() && steps[j].n < states[j].N() && !Racy(states[j], steps[j])
    ensures states[i].WellFormed() && NoWaiterLeftBehind(states[i])
  {
    RunKeepsInv(states, steps, i);
    if i > 0 {
      RaceFreeRun(states, steps, i - 1);
      RunKeepsInv(states, steps, i - 1);
      assert Next(states[i - 1], steps[i - 1], states[i - 1 + 1]);
      StrandedIffRacy(states[i - 1], steps[i - 1]);
    }
  }

  // ----- a discipline that rules races out -----

  /** No application stores a key of its own node while that node's receiver holds
      a request for it: what taking lookup-and-cache as one atomic step amounts to. */
  ghost predicate Careful(s: State, step: Step)
    requires s.WellFormed() && step.n < s.N()
  {
    step.PutLocal? && s.recv[step.n].Missed? && s.recv[step.n].msg.WaitAndGet? ==>
      s.recv[step.n].msg.key.str != step.key.str
  }

  ghost predicate MissedIsAbsent(s: State)
    requires s.WellFormed()
  {
    forall h :: 0 <= h < s.N() && s.recv[h].Missed? && s.recv[h].msg.WaitAndGet? ==> s.recv[h].msg.key.str !in s.kv[h]
  }

  lemma MissedStaysAbsent(s: State, step: Step, h: nat)
    requires Inv(s) && Enabled(s, step) && AssertsHold(s, step) && h < s.N()
    requires Careful(s, step) && MissedIsAbsent(s)
    requires Apply(s, step).recv[h].Missed? && Apply(s, step).recv[h].msg.WaitAndGet?
    ensures Apply(s, step).recv[h].msg.key.str !in Apply(s, step).kv[h]
  {
    if step != Pop(h) && step != Act(h) {
      RecvStays(s, step, h);
      if !step.PutLocal? {
        StoreStays(s, step, h);
      }
    }
  }

  lemma CarefulStep(s: State, step: Step)
    requires Inv(s) && Enabled(s, step) && AssertsHold(s, step)
    requires Careful(s, step) && MissedIsAbsent(s)
    ensures !Racy(s, step) && MissedIsAbsent(Apply(s, step))
  {
    forall h | 0 <= h < s.N() && Apply(s, step).recv[h].Missed? && Apply(s, step).recv[h].msg.WaitAndGet?
      ensures Apply(s, step).recv[h].msg.key.str !in Apply(s, step).kv[h]
    {
      MissedStaysAbsent(s, step, h);
    }
  }

  lemma CarefulNext(s: State, step: Step, s': State)
    requires Inv(s) && Next(s, step, s') && Careful(s, step)
    requires NoWaiterLeftBehind(s) && MissedIsAbsent(s)
    ensures s'.WellFormed() && NoWaiterLeftBehind(s') && MissedIsAbsent(s')
  {
    AssertsNeverFail(s, step);
    CarefulStep(s, step);
    StrandedIffRacy(s, step);
  }

  lemma CarefulRunStep(states: seq<State>, steps: seq<Step>, i: nat)
    requires IsRun(states, steps) && i < |steps| && states[i].WellFormed() && steps[i].n < states[i].N()
    requires Careful(states[i], steps[i]) && NoWaiterLeftBehind(states[i]) && MissedIsAbsent(states[i])
    ensures states[i + 1].WellFormed() && NoWaiterLeftBehind(states[i + 1]) && MissedIsAbsent(states[i + 1])
  {
    RunKeepsInv(states, steps, i);
    assert Next(states[i], steps[i], states[i + 1]);
    CarefulNext(states[i], steps[i], states[i + 1]);
  }

  /** A run of careful steps leaves no waiter behind. */
  lemma {:induction false} CarefulRun(states: seq<State>, steps: seq<Step>, i: nat)
    requires IsRun(states, steps) && i < |states|
    requires forall j :: 0 <= j < |steps| ==>
               states[j].WellFormed() && steps[j].n < states[j].N() && Careful(states[j], steps[j])
    ensures states[i].WellFormed() && NoWaiterLeftBehind(states[i]) && MissedIsAbsent(states[i])
  {
    if i == 0 {
      CarefulStart(states[0]);
    } else {
      CarefulRun(states, steps, i - 1);
      CarefulRunStep(states, steps, i - 1);
    }
  }

  lemma CarefulStart(s: State)
    requires Init(s)
    ensures s.WellFormed() && NoWaiterLeftBehind(s) && MissedIsAbsent(s)
  {
  }

  // ----- a run that strands a waiter -----

  const RACE_KEY := Key([100], 0)
  const RACE_REQUEST := WaitAndGet(1, 0, RACE_KEY)

  /** Node 1 asks node 0 for a key; node 0's receiver looks it up in vain; node 0's
      application stores it and finds no request to answer; then the request is cached. */
  function RaceState(i: nat): State {
    if i == 0 then
      State([map[], map[]], [map[], map[]], [[], []], [Running, Running], [Idle, Idle], [false, false], [])
    else if i == 1 then
      RaceState(0).(inbox := [[RACE_REQUEST], []], app := [Running, Waiting(RACE_KEY)])
    else if i == 2 then
      RaceState(1).(inbox := [[], []], recv := [Missed(RACE_REQUEST), Idle])
    else if i == 3 then
      RaceState(2).(kv := [map[[100] := []], map[]], app := [AppAnswering(RACE_KEY), Waiting(RACE_KEY)],
                    puts := [PutRecord(0, RACE_KEY, [])])
    else if i == 4 then
      RaceState(3).(app := [Running, Waiting(RACE_KEY)])
    else
      RaceState(4).(cache := [map[RACE_KEY := [RACE_REQUEST]], map[]], recv := [Idle, Idle])
  }

  const RACE_STEPS: seq<Step> := [BeginWait(1, RACE_KEY), Pop(0), PutLocal(0, RACE_KEY, []), AppAnswer(0), Act(0)]

  lemma RaceStep01()
    ensures Next(RaceState(0), RACE_STEPS[0], RaceState(1))
    ensures Next(RaceState(1), RACE_STEPS[1], RaceState(2))
  {
    var s0, s1, s2 := RaceState(0), RaceState(1), RaceState(2);
    assert s0.inbox[0] + [RACE_REQUEST] == [RACE_REQUEST] && [RACE_REQUEST][1..] == [];
    assert s1.inbox == Push(s0.inbox, RACE_REQUEST) && s1.app == s0.app[1 := Waiting(RACE_KEY)];
    assert s2.inbox == s1.inbox[0 := s1.inbox[0][1..]] && s2.recv == s1.recv[0 := Missed(RACE_REQUEST)];
  }

  lemma RaceStep23()
    ensures Next(RaceState(2), RACE_STEPS[2], RaceState(3))
    ensures Next(RaceState(3), RACE_STEPS[3], RaceState(4))
  {
    var s2, s3, s4 := RaceState(2), RaceState(3), RaceState(4);
    assert s3.kv == s2.kv[0 := s2.kv[0][RACE_KEY.str := []]];
    assert s3.app == s2.app[0 := AppAnswering(RACE_KEY)];
    assert s3.puts == s2.puts + [PutRecord(0, RACE_KEY, [])];
    assert s4.app == s3.app[0 := Running];
  }

  lemma RaceStep4()
    ensures Next(RaceState(4), RACE_STEPS[4], RaceState(5))
  {
    var s4, s5 := RaceState(4), RaceState(5);
    assert [] + [RACE_REQUEST] == [RACE_REQUEST];
    assert s5.cache == s4.cache[0 := AddToCache(s4.cache[0], RACE_KEY, RACE_REQUEST)];
    assert s5.recv == s4.recv[0 := Idle];
  }

  /** A run on two nodes, without any care, after which node 1 waits for a key that node 0
      has stored, and only another put of that key will wake it. */
  lemma RaceStrandsAWaiter() returns (states: seq<State>, s: State)
    ensures IsRun(states, RACE_STEPS) && s == states[5] && |s.kv| == 2 && |s.cache| == 2
    ensures s.app == [Running, Waiting(RACE_KEY)] && RACE_KEY.str in s.kv[0]   // stored, and yet
    ensures s.inbox == [[], []] && s.recv == [Idle, Idle]                      // nothing is under way
    ensures RACE_KEY !in s.cache[1]                                            // and nothing has arrived
    ensures NeedsPut(s, 1, RACE_KEY)
  {
    states := [RaceState(0), RaceState(1), RaceState(2), RaceState(3), RaceState(4), RaceState(5)];
    RaceStep01();
    RaceStep23();
    RaceStep4();
    s := RaceState(5);
    assert Is(s.cache[0][RACE_KEY][0], RequestOf(1));
  }
}
