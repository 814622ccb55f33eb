/**
 Taking a message from an inbox, ending a wait, and the invariant over whole runs.
 */
module ClusterRuns {
  import opened Messages
  import opened Cluster
  import opened ClusterInvariant
  import opened ClusterSafety
  import opened ClusterDelivery

  // ----- Pop -----

  /** A token that leaves the inbox goes into the receiver's hands. */
  lemma PopKeepsTokens(s: State, s': State, h: nat)
    requires Inv(s) && h < s.N() && s.inbox[h] != [] && !s.inbox[h][0].ReplyData?
    requires s'.WellFormed() && s'.inbox == s.inbox[h := s.inbox[h][1..]]
    requires s'.app == s.app && s'.cache == s.cache && |s'.recv| == |s.recv|
    requires forall x, y :: 0 <= x < s.N() && 0 <= y < s.N() ==>
               InHand(s'.recv[x], y) == InHand(s.recv[x], y) + Weight(x == h && Is(s.inbox[h][0], RequestOf(y)))
    ensures TokenInv(s')
  {
    forall x | 0 <= x < s.N() && s'.app[x].Waiting? && s'.app[x].key.home < s.N()
      ensures Tokens(s', x, s'.app[x].key) == 1
    {
      assert Tokens(s, x, s.app[x].key) == 1;
    }
  }

  lemma PopRequestKeepsInv(s: State, h: nat)
    requires Inv(s) && Enabled(s, Pop(h)) && s.inbox[h][0].WaitAndGet?
    ensures Inv(Apply(s, Pop(h)))
  {
    var m, s' := s.inbox[h][0], Apply(s, Pop(h));
    assert MessageOk(s, h, m);
    NotAllDone(s, m.sender);
    PopRequestKeepsOwners(s, h);
    DoneKept(s, s');
    TeardownKept(s');
    PopRequestKeepsTokens(s, h);
  }

  lemma PopRequestKeepsTokens(s: State, h: nat)
    requires Inv(s) && Enabled(s, Pop(h)) && s.inbox[h][0].WaitAndGet?
    ensures TokenInv(Apply(s, Pop(h)))
  {
    PopKeepsTokens(s, Apply(s, Pop(h)), h);
  }

  lemma PopRequestKeepsOwners(s: State, h: nat)
    requires Inv(s) && Enabled(s, Pop(h)) && s.inbox[h][0].WaitAndGet?
    ensures OwnersInv(Apply(s, Pop(h)))
  {
    var m := s.inbox[h][0];
    assert MessageOk(s, h, m);
    NotAllDone(s, m.sender);
    assert m.key == Key(m.key.str, h);
    OwnersKept(s, Apply(s, Pop(h)));
  }

  lemma PopReplyKeepsInv(s: State, h: nat)
    requires Inv(s) && Enabled(s, Pop(h)) && s.inbox[h][0].ReplyData?
    ensures Inv(Apply(s, Pop(h)))
  {
    var m, s' := s.inbox[h][0], Apply(s, Pop(h));
    assert MessageOk(s, h, m);
    NotAllDone(s, h);
    PopReplyKeepsOwners(s, h);
    DoneKept(s, s');
    TeardownKept(s');
    PopReplyKeepsTokens(s, h);
  }

  lemma PopReplyKeepsOwners(s: State, h: nat)
    requires Inv(s) && Enabled(s, Pop(h)) && s.inbox[h][0].ReplyData?
    ensures OwnersInv(Apply(s, Pop(h)))
  {
    var m, s' := s.inbox[h][0], Apply(s, Pop(h));
    assert MessageOk(s, h, m);
    NotAllDone(s, h);
    assert m.key in s.cache[h] ==> CacheOk(s, h, m.key, s.cache[h][m.key]);
    assert ReplyOk(s', h, m);
    assert CacheOk(s', h, m.key, s'.cache[h][m.key]);
    OwnersKept(s, s');
  }

  lemma PopReplyKeepsTokens(s: State, h: nat)
    requires Inv(s) && Enabled(s, Pop(h)) && s.inbox[h][0].ReplyData?
    ensures TokenInv(Apply(s, Pop(h)))
  {
    var s' := Apply(s, Pop(h));
    forall x | 0 <= x < s.N() && s'.app[x].Waiting? && s'.app[x].key.home < s.N()
      ensures Tokens(s', x, s'.app[x].key) == 1
    {
      PopReplyMovesToken(s, h, x);
    }
  }

  lemma PopReplyMovesToken(s: State, h: nat, x: nat)
    requires Inv(s) && Enabled(s, Pop(h)) && s.inbox[h][0].ReplyData?
    requires x < s.N() && s.app[x].Waiting? && s.app[x].key.home < s.N()
    ensures Tokens(Apply(s, Pop(h)), x, s.app[x].key) == 1
  {
    assert MessageOk(s, h, s.inbox[h][0]);
    assert AppOk(s, x);
    assert Tokens(s, x, s.app[x].key) == 1;
  }

  /** A queue that loses its head keeps nothing behind its Teardown. */
  lemma PopKeepsLast(s: State, s': State, h: nat)
    requires Inv(s) && h < s.N() && s.inbox[h] != []
    requires s'.WellFormed() && s'.inbox == s.inbox[h := s.inbox[h][1..]]
    ensures TeardownLast(s')
  {
    forall n, i | 0 <= n < s.N() && 0 <= i < |s'.inbox[n]| && s'.inbox[n][i].Teardown?
      ensures i == |s'.inbox[n]| - 1
    {
      if n == h {
        assert s.inbox[h][i + 1].Teardown?;
      }
    }
  }

  lemma PopPutKeepsInv(s: State, h: nat)
    requires Inv(s) && Enabled(s, Pop(h)) && s.inbox[h][0].Put?
    ensures Inv(Apply(s, Pop(h)))
  {
    var s' := Apply(s, Pop(h));
    PopPutKeepsOwners(s, h);
    DoneKept(s, s');
    PopKeepsLast(s, s', h);
    PopPutKeepsTeardowns(s, h);
    PopPutKeepsTokens(s, h);
  }

  lemma PopPutKeepsOwners(s: State, h: nat)
    requires Inv(s) && Enabled(s, Pop(h)) && s.inbox[h][0].Put?
    ensures OwnersInv(Apply(s, Pop(h)))
  {
    var m, s' := s.inbox[h][0], Apply(s, Pop(h));
    assert MessageOk(s, h, m);
    assert m.key == Key(m.key.str, h);
    assert WasPut(s', m.key, m.value);
    OwnersKept(s, s');
  }

  lemma PopPutKeepsTeardowns(s: State, h: nat)
    requires Inv(s) && Enabled(s, Pop(h)) && s.inbox[h][0].Put?
    ensures TeardownInv(Apply(s, Pop(h)))
  {
  }

  lemma PopPutKeepsTokens(s: State, h: nat)
    requires Inv(s) && Enabled(s, Pop(h)) && s.inbox[h][0].Put?
    ensures TokenInv(Apply(s, Pop(h)))
  {
    PopKeepsTokens(s, Apply(s, Pop(h)), h);
  }

  lemma PopDoneKeepsInv(s: State, h: nat)
    requires Inv(s) && Enabled(s, Pop(h)) && s.inbox[h][0].Done? && s.inbox[h][0].sender < s.N()
    ensures h == 0
    ensures Inv(Apply(s, Pop(h)))
  {
    var m, s' := s.inbox[h][0], Apply(s, Pop(h));
    assert MessageOk(s, h, m);
    PopDoneKeepsOwners(s, h);
    TeardownKept(s);
    forall x | 0 <= x < s.N()
      ensures Count(s'.inbox[0], DoneOf(x)) + Weight(s'.isDone[x]) == Weight(s'.app[x] == Finished)
    {
    }
    PopKeepsLast(s, s', h);
    forall x | 0 <= x < s.N()
      ensures Count(s'.inbox[x], AnyTeardown) + Weight(s'.recv[x] == Stopped) == Weight(TeardownSent(s', x))
    {
      assert !TeardownSent(s, x);
    }
    PopKeepsTokens(s, s', h);
  }

  lemma PopDoneKeepsOwners(s: State, h: nat)
    requires Inv(s) && Enabled(s, Pop(h)) && s.inbox[h][0].Done? && s.inbox[h][0].sender < s.N()
    ensures h == 0 && !AllDone(s.isDone)
    ensures OwnersInv(Apply(s, Pop(h)))
  {
    var m := s.inbox[h][0];
    assert MessageOk(s, h, m);
    assert Count(s.inbox[0], DoneOf(m.sender)) >= 1 && !s.isDone[m.sender];
    OwnersKept(s, Apply(s, Pop(h)));
  }

  lemma PopTeardownKeepsInv(s: State, h: nat)
    requires Inv(s) && Enabled(s, Pop(h)) && s.inbox[h][0].Teardown?
    ensures Inv(Apply(s, Pop(h)))
  {
    var m, s' := s.inbox[h][0], Apply(s, Pop(h));
    assert MessageOk(s, h, m);
    PopTeardownKeepsOwners(s, h);
    DoneKept(s, s');
    PopKeepsLast(s, s', h);
    assert forall x :: 0 <= x < s.N() ==> TeardownSent(s', x) == TeardownSent(s, x);
    assert TeardownInv(s');
    assert forall x :: 0 <= x < s.N() ==> s.isDone[x] && s.app[x] == Finished;
  }

  lemma PopTeardownKeepsOwners(s: State, h: nat)
    requires Inv(s) && Enabled(s, Pop(h)) && s.inbox[h][0].Teardown?
    ensures OwnersInv(Apply(s, Pop(h)))
  {
    assert MessageOk(s, h, s.inbox[h][0]);
    OwnersKept(s, Apply(s, Pop(h)));
  }

  lemma PopKeepsInv(s: State, h: nat)
    requires Inv(s) && Enabled(s, Pop(h))
    ensures AssertsHold(s, Pop(h))
    ensures Inv(Apply(s, Pop(h)))
  {
    assert MessageOk(s, h, s.inbox[h][0]);
    match s.inbox[h][0]
    case WaitAndGet(_, _, _) => PopRequestKeepsInv(s, h);
    case ReplyData(_, _, _, _) => PopReplyKeepsInv(s, h);
    case Put(_, _, _, _) => PopPutKeepsInv(s, h);
    case Done(_, _) => PopDoneKeepsInv(s, h);
    case Teardown(_, _) => PopTeardownKeepsInv(s, h);
  }

  // ----- the end of a wait -----

  /** When the reply is in n's cache there is exactly one, and it is the only
      message in the system that has to do with n's wait. */
  lemma ReplyIsTheOnlyToken(s: State, n: nat)
    requires Inv(s) && Enabled(s, FinishWait(n))
    ensures AssertsHold(s, FinishWait(n))
    ensures forall h, i :: 0 <= h < s.N() && 0 <= i < |s.inbox[h]| ==> !Is(s.inbox[h][i], RequestOf(n))
    ensures forall i :: 0 <= i < |s.inbox[n]| ==> !s.inbox[n][i].ReplyData?
    ensures forall h :: 0 <= h < s.N() ==> InHand(s.recv[h], n) == 0
    ensures forall h, k, i :: 0 <= h < s.N() && k in s.cache[h] && 0 <= i < |s.cache[h][k]| ==>
              !Is(s.cache[h][k][i], RequestOf(n))
    ensures forall k :: k in s.cache[n] && k != s.app[n].key ==> k.home == n
  {
    var key := s.app[n].key;
    assert AppOk(s, n);
    assert CacheOk(s, n, key, s.cache[n][key]);
    assert Tokens(s, n, key) == 1;
    CountZero(s.inbox[key.home], RequestOf(n));
    CountZero(s.inbox[n], AnyReply);
    forall h, i | 0 <= h < s.N() && 0 <= i < |s.inbox[h]|
      ensures !Is(s.inbox[h][i], RequestOf(n))
    {
      assert MessageOk(s, h, s.inbox[h][i]);
    }
    forall h | 0 <= h < s.N()
      ensures InHand(s.recv[h], n) == 0
    {
      assert RecvOk(s, h);
    }
    forall h, k | 0 <= h < s.N() && k in s.cache[h]
      ensures forall i :: 0 <= i < |s.cache[h][k]| ==> !Is(s.cache[h][k][i], RequestOf(n))
      ensures h == n && k != key ==> k.home == n
    {
      assert CacheOk(s, h, k, s.cache[h][k]);
      assert s.cache[h][k][0].key == k;
      CountZero(s.cache[h][k], RequestOf(n));
    }
  }

  lemma FinishWaitKeepsInv(s: State, n: nat)
    requires Inv(s) && Enabled(s, FinishWait(n))
    ensures AssertsHold(s, FinishWait(n))
    ensures Inv(Apply(s, FinishWait(n)))
  {
    ReplyIsTheOnlyToken(s, n);
    var s' := Apply(s, FinishWait(n));
    FinishWaitKeepsMessages(s, n, s');
    FinishWaitKeepsReceivers(s, n, s');
    FinishWaitKeepsCaches(s, n, s');
    FinishWaitKeepsTokens(s, n, s');
    forall x | 0 <= x < s.N()
      ensures AppOk(s', x)
    {
      assert AppOk(s, x);
    }
    NotAllDone(s, n);
    TeardownKept(s');
    assert DoneInv(s');
  }

  lemma FinishWaitKeepsMessages(s: State, n: nat, s': State)
    requires Inv(s) && Enabled(s, FinishWait(n)) && AssertsHold(s, FinishWait(n))
    requires s' == Apply(s, FinishWait(n))
    ensures InboxInv(s')
  {
    ReplyIsTheOnlyToken(s, n);
    forall h, i | 0 <= h < s.N() && 0 <= i < |s'.inbox[h]|
      ensures MessageOk(s', h, s'.inbox[h][i])
    {
      assert MessageOk(s, h, s.inbox[h][i]);
    }
  }

  lemma FinishWaitKeepsReceivers(s: State, n: nat, s': State)
    requires Inv(s) && Enabled(s, FinishWait(n)) && AssertsHold(s, FinishWait(n))
    requires s' == Apply(s, FinishWait(n))
    ensures RecvInv(s')
  {
    ReplyIsTheOnlyToken(s, n);
    forall x | 0 <= x < s.N()
      ensures RecvOk(s', x)
    {
      assert RecvOk(s, x) && InHand(s.recv[x], n) == 0;
    }
  }

  lemma FinishWaitKeepsTokens(s: State, n: nat, s': State)
    requires Inv(s) && Enabled(s, FinishWait(n)) && AssertsHold(s, FinishWait(n))
    requires s' == Apply(s, FinishWait(n))
    ensures TokenInv(s')
  {
    assert AppOk(s, n);
    forall x | 0 <= x < s.N() && s'.app[x].Waiting? && s'.app[x].key.home < s.N()
      ensures Tokens(s', x, s'.app[x].key) == 1
    {
      assert AppOk(s, x);
      assert Tokens(s, x, s.app[x].key) == 1;
    }
  }

  lemma FinishWaitKeepsCaches(s: State, n: nat, s': State)
    requires Inv(s) && Enabled(s, FinishWait(n)) && AssertsHold(s, FinishWait(n))
    requires s' == Apply(s, FinishWait(n))
    ensures CacheInv(s')
  {
    ReplyIsTheOnlyToken(s, n);
    forall h, k | 0 <= h < s.N() && k in s'.cache[h]
      ensures CacheOk(s', h, k, s'.cache[h][k])
    {
      assert CacheOk(s, h, k, s.cache[h][k]);
      forall i | 0 <= i < |s.cache[h][k]|
        ensures k.home == h ==> RequestOk(s', h, s.cache[h][k][i])
        ensures k.home != h ==> ReplyOk(s', h, s.cache[h][k][i])
      {
        assert !Is(s.cache[h][k][i], RequestOf(n));
      }
    }
  }

  // ----- whole runs -----

  /** No assertion of the protocol code can fail in a state that has the invariant:
      a waiter finds exactly one message and it is a reply, a home node finds only
      requests to answer, a PutMsg arrives at its key's home and a DoneMsg at node 0. */
  lemma AssertsNeverFail(s: State, step: Step)
    requires Inv(s) && Enabled(s, step)
    ensures AssertsHold(s, step)
    ensures Inv(Apply(s, step))
  {
    match step
    case PutLocal(n, k, v) => PutLocalKeepsInv(s, n, k, v);
    case PutRemote(n, k, v) => PutRemoteKeepsInv(s, n, k, v);
    case AppAnswer(n) => AppAnswerKeepsInv(s, n);
    case BeginWait(n, k) => BeginWaitKeepsInv(s, n, k);
    case FinishSpin(n) => FinishSpinKeepsInv(s, n);
    case FinishWait(n) => FinishWaitKeepsInv(s, n);
    case Finish(n) => FinishKeepsInv(s, n);
    case Pop(n) => PopKeepsInv(s, n);
    case Act(n) =>
      match s.recv[n]
      case Missed(_) => CacheRequestKeepsInv(s, n);
      case Hit(_, _) => AnswerRequestKeepsInv(s, n);
      case RecvAnswering(_) => RecvAnswerKeepsInv(s, n);
      case TearingDown(_) => SendTeardownKeepsInv(s, n);
  }

  /** Every state of every run has the invariant. */
  lemma {:induction false} RunKeepsInv(states: seq<State>, steps: seq<Step>, i: nat)
    requires IsRun(states, steps) && i < |states|
    ensures Inv(states[i])
  {
    if i == 0 {
      InitInv(states[0]);
    } else {
      RunKeepsInv(states, steps, i - 1);
      assert Next(states[i - 1], steps[i - 1], states[i - 1 + 1]);
      AssertsNeverFail(states[i - 1], steps[i - 1]);
    }
  }
}
