/**
 The end of a run: Teardown comes last, finds nothing left to do, and is reached.
 */
module ClusterShutdown {
  import opened Messages
  import opened Cluster
  import opened ClusterInvariant
  import opened ClusterSteps
  import opened ClusterDelivery
  import opened ClusterRuns
  import opened ClusterLiveness
  import opened ClusterProgress
  import opened ClusterHistory

  ghost predicate AllFinished(s: State) {
    forall n :: 0 <= n < |s.app| ==> s.app[n] == Finished
  }

  ghost predicate AllStopped(s: State) {
    forall n :: 0 <= n < |s.recv| ==> s.recv[n] == Stopped
  }

  /** A queue is what came before its last message, and that message is a Teardown. */
  predicate EndsInTeardown(q: Queue) {
    |q| > 0 && q[|q| - 1].Teardown? && forall i :: 0 <= i < |q| - 1 ==> !q[i].Teardown?
  }

  lemma AllDoneMeansAllFinished(s: State)
    requires Inv(s) && AllDone(s.isDone)
    ensures AllFinished(s)
  {
    assert forall n :: 0 <= n < s.N() ==> s.isDone[n];
  }

  /** A Teardown is queued, or has been obeyed, only when every application has
      finished; each node gets exactly one; it is the last thing in its queue. */
  lemma TeardownIsLast(s: State, n: nat)
    requires Inv(s) && n < s.N()
    requires s.recv[n] == Stopped || exists i :: 0 <= i < |s.inbox[n]| && s.inbox[n][i].Teardown?
    ensures AllFinished(s)
    ensures Count(s.inbox[n], AnyTeardown) + Weight(s.recv[n] == Stopped) == 1
    ensures s.recv[n] == Stopped ==> s.inbox[n] == []
    ensures s.recv[n] != Stopped ==> EndsInTeardown(s.inbox[n])
  {
    assert RecvOk(s, n);
    CountZero(s.inbox[n], AnyTeardown);
    if s.recv[n] != Stopped {
      var i :| 0 <= i < |s.inbox[n]| && s.inbox[n][i].Teardown?;
      assert MessageOk(s, n, s.inbox[n][i]);
    }
    AllDoneMeansAllFinished(s);
  }

  /** Once the server has sent a node its Teardown nobody sends that node anything. */
  lemma NothingBehindTeardown(s: State, step: Step, n: nat)
    requires Inv(s) && Enabled(s, step) && AssertsHold(s, step) && n < s.N() && TeardownSent(s, n)
    ensures Apply(s, step).inbox[n] == if step == Pop(n) then s.inbox[n][1..] else s.inbox[n]
  {
    AllDoneMeansAllFinished(s);
    if step.Act? && s.recv[step.n].RecvAnswering? {
      assert RecvOk(s, step.n);
      CachedRequestsAreWaiting(s, step.n, s.recv[step.n].key);
    }
    if step.Act? {
      assert RecvOk(s, step.n);
    }
  }

  lemma CachedMeansBlocked(s: State, n: nat, k: Key)
    requires Inv(s) && n < s.N() && k in s.cache[n]
    ensures exists x :: 0 <= x < s.N() && s.app[x] == Waiting(k)
  {
    assert CacheOk(s, n, k, s.cache[n][k]);
    var m := s.cache[n][k][0];
    assert s.app[if k.home == n then m.sender else n] == Waiting(k);
  }

  /** When every receiver has stopped: all applications have finished, no message is
      left anywhere, every key that was put is at its home, and a key that had one
      writer holds that writer's last value. */
  lemma ShutdownLosesNothing(s: State)
    requires HistoryInv(s) && AllStopped(s)
    ensures AllFinished(s)
    ensures forall n :: 0 <= n < s.N() ==> s.inbox[n] == [] && s.cache[n] == map[]
    ensures forall r :: r in s.puts ==> r.key.home < s.N() && r.key.str in s.kv[r.key.home]
    ensures forall k: Key, w: nat, v :: k.home < s.N() && SoleWriter(s.puts, k, w) && LastPut(s.puts, k) == Some(v) ==>
              k.str in s.kv[k.home] && s.kv[k.home][k.str] == v
  {
    assert RecvOk(s, 0);
    AllDoneMeansAllFinished(s);
    forall n | 0 <= n < s.N()
      ensures s.inbox[n] == [] && s.cache[n] == map[]
    {
      assert RecvOk(s, n);
      if s.cache[n] != map[] {
        var k :| k in s.cache[n];
        CachedMeansBlocked(s, n, k);
        assert false;
      }
    }
    forall r | r in s.puts
      ensures r.key.home < s.N() && r.key.str in s.kv[r.key.home]
    {
      var i :| 0 <= i < |s.puts| && s.puts[i] == r;
      assert Settled(s, s.puts[i].key).Some?;
    }
    forall k: Key, w: nat, v | k.home < s.N() && SoleWriter(s.puts, k, w) && LastPut(s.puts, k) == Some(v)
      ensures k.str in s.kv[k.home] && s.kv[k.home][k.str] == v
    {
      assert Settled(s, k) == Some(v);
    }
  }

  /** Whoever is still blocked when a race-free system comes to rest waits for a key
      that no node has ever put. */
  lemma QuietMeansNeverPut(s: State, n: nat, k: Key)
    requires HistoryInv(s) && NoWaiterLeftBehind(s) && Quiet(s)
    requires n < s.N() && s.app[n] == Waiting(k)
    ensures forall r :: r in s.puts ==> r.key != k
  {
    QuietMeansAbsent(s, n, k);
    forall r | r in s.puts
      ensures r.key != k
    {
      var i :| 0 <= i < |s.puts| && s.puts[i] == r;
      assert Settled(s, s.puts[i].key).Some?;
    }
  }

  // ----- shutting down comes to an end -----

  /** The receiver actions the first n nodes still have before them. */
  function Work(inbox: seq<Queue>, recv: seq<RecvPc>, n: nat): nat
    requires n <= |inbox| == |recv|
  {
    if n == 0 then 0 else Work(inbox, recv, n - 1) + 2 * |inbox[n - 1]| + Busy(recv[n - 1])
  }

  /** How many Teardowns the server still has to send. */
  function TeardownsToSend(s: State): nat
    requires |s.recv| > 0 && |s.kv| == |s.recv|
    requires s.recv[0].TearingDown? ==> s.recv[0].next <= |s.kv|
  {
    if !AllDone(s.isDone) then s.N()
    else if s.recv[0].TearingDown? then s.N() - s.recv[0].next
    else 0
  }

  ghost function WorkLeft(s: State): nat
    requires Inv(s)
  {
    assert RecvOk(s, 0);
    Work(s.inbox, s.recv, s.N()) + 3 * TeardownsToSend(s)
  }

  lemma {:induction false} WorkChanges(inbox: seq<Queue>, recv: seq<RecvPc>, inbox': seq<Queue>, recv': seq<RecvPc>,
                                       x: nat, n: nat)
    requires n <= |inbox| == |recv| && |inbox'| == |recv'| == |inbox| && x < |inbox|
    requires forall i :: 0 <= i < |inbox| && i != x ==> |inbox'[i]| == |inbox[i]| && Busy(recv'[i]) == Busy(recv[i])
    ensures Work(inbox', recv', n) == Work(inbox, recv, n)
              + (if x < n then 2 * |inbox'[x]| + Busy(recv'[x]) - 2 * |inbox[x]| - Busy(recv[x]) else 0)
  {
    if n > 0 {
      WorkChanges(inbox, recv, inbox', recv', x, n - 1);
    }
  }

  lemma PopUsesWork(s: State, h: nat)
    requires Inv(s) && AllFinished(s) && Enabled(s, Pop(h)) && AssertsHold(s, Pop(h)) && Inv(Apply(s, Pop(h)))
    ensures WorkLeft(Apply(s, Pop(h))) < WorkLeft(s)
  {
    var s' := Apply(s, Pop(h));
    assert MessageOk(s, h, s.inbox[h][0]);
    WorkChanges(s.inbox, s.recv, s'.inbox, s'.recv, h, s.N());
    if s.inbox[h][0].Done? {
      assert Count(s.inbox[0], DoneOf(s.inbox[h][0].sender)) >= 1 && !s.isDone[s.inbox[h][0].sender];
    }
  }

  lemma SendingUsesWork(s: State, h: nat)
    requires Inv(s) && AllFinished(s) && Enabled(s, Act(h)) && AssertsHold(s, Act(h)) && Inv(Apply(s, Act(h)))
    requires s.recv[h].TearingDown?
    ensures WorkLeft(Apply(s, Act(h))) < WorkLeft(s)
  {
    var s', i := Apply(s, Act(h)), s.recv[h].next;
    assert RecvOk(s, h);
    var inbox := Push(s.inbox, Teardown(h, i));
    WorkChanges(s.inbox, s.recv, inbox, s.recv, i, s.N());
    WorkChanges(inbox, s.recv, inbox, s'.recv, h, s.N());
  }

  /** Nobody is blocked, so the receiver holds no request and nothing is cached. */
  lemma OnlyAnswers(s: State, h: nat)
    requires Inv(s) && AllFinished(s) && Enabled(s, Act(h)) && !s.recv[h].TearingDown?
    ensures s.recv[h].RecvAnswering? && s.recv[h].key !in s.cache[h]
  {
    assert RecvOk(s, h);
    if s.recv[h].RecvAnswering? && s.recv[h].key in s.cache[h] {
      CachedMeansBlocked(s, h, s.recv[h].key);
    }
  }

  lemma FinishingUsesWork(s: State, h: nat)
    requires Inv(s) && AllFinished(s) && Enabled(s, Act(h)) && AssertsHold(s, Act(h)) && Inv(Apply(s, Act(h)))
    requires !s.recv[h].TearingDown?
    ensures WorkLeft(Apply(s, Act(h))) < WorkLeft(s)
  {
    OnlyAnswers(s, h);
    WorkChanges(s.inbox, s.recv, Apply(s, Act(h)).inbox, Apply(s, Act(h)).recv, h, s.N());
  }

  /** When every application has finished only receivers move, and each of their
      steps leaves less work: the shutdown takes at most WorkLeft more steps. */
  lemma ShutdownTerminates(s: State, step: Step)
    requires Inv(s) && AllFinished(s) && Enabled(s, step)
    ensures AssertsHold(s, step)
    ensures Inv(Apply(s, step)) && AllFinished(Apply(s, step))
    ensures WorkLeft(Apply(s, step)) < WorkLeft(s)
  {
    AssertsNeverFail(s, step);
    if step.Pop? {
      PopUsesWork(s, step.n);
    } else if s.recv[step.n].TearingDown? {
      SendingUsesWork(s, step.n);
    } else {
      FinishingUsesWork(s, step.n);
    }
  }

  /** The shutdown does not get stuck half way: until every receiver has stopped,
      some receiver can go on. */
  lemma ShutdownGoesOn(s: State) returns (step: Step)
    requires Inv(s) && AllFinished(s) && !AllStopped(s)
    ensures Enabled(s, step)
  {
    if h :| 0 <= h < s.N() && s.recv[h] != Idle && s.recv[h] != Stopped {
      step := Act(h);
    } else if h :| 0 <= h < s.N() && s.recv[h] == Idle && s.inbox[h] != [] {
      step := Pop(h);
    } else {
      EmptyMeansStopped(s);
      assert false;
    }
  }

  lemma EmptyMeansStopped(s: State)
    requires Inv(s) && AllFinished(s)
    requires forall n :: 0 <= n < s.N() ==> s.recv[n] == Stopped || (s.recv[n] == Idle && s.inbox[n] == [])
    ensures AllStopped(s)
  {
    assert RecvOk(s, 0);
    forall n | 0 <= n < s.N()
      ensures s.isDone[n]
    {
      assert Count(s.inbox[0], DoneOf(n)) == 0;
    }
    forall n | 0 <= n < s.N()
      ensures s.recv[n] == Stopped
    {
      assert TeardownSent(s, n) && RecvOk(s, n);
      assert Count(s.inbox[n], AnyTeardown) == 0;
    }
  }
}
