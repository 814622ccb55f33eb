/**
 The steps that move tokens: answering, receiving, and ending a wait.
 */
module ClusterDelivery {
  import opened Messages
  import opened Cluster
  import opened ClusterInvariant
  import opened ClusterSafety

  // ----- tryToHandleCache_ -----

  lemma CachedRequestsAreWaiting(s: State, h: nat, k: Key)
    requires Inv(s) && h < s.N() && k.home == h && k.str in s.kv[h]
    ensures CanAnswer(s, h, k)
    ensures k in s.cache[h] ==> forall i :: 0 <= i < |s.cache[h][k]| ==>
              RequestOk(s, h, s.cache[h][k][i]) && s.cache[h][k][i].key == k
    ensures k in s.cache[h] ==> !AllDone(s.isDone)
  {
    if k in s.cache[h] {
      assert CacheOk(s, h, k, s.cache[h][k]);
      NotAllDone(s, s.cache[h][k][0].sender);
    }
  }

  lemma AnswerKeepsOwners(s: State, h: nat, k: Key)
    requires Inv(s) && h < s.N() && k.home == h && k.str in s.kv[h] && k in s.cache[h]
    requires CanAnswer(s, h, k)
    ensures OwnersInv(AnswerCache(s, h, k))
  {
    var s' := AnswerCache(s, h, k);
    var v, ms := s.kv[h][k.str], s.cache[h][k];
    var replies := Replies(h, k, v, ms);
    CachedRequestsAreWaiting(s, h, k);
    assert forall x :: 0 <= x < s.N() ==> RecvOk(s, x);
    assert k == Key(k.str, h);
    assert WasPut(s, k, v);
    forall x, i | 0 <= x < s.N() && 0 <= i < |s'.inbox[x]|
      ensures s'.inbox[x][i] in s.inbox[x] || MessageOk(s', x, s'.inbox[x][i])
    {
      PushAllElements(s.inbox, replies, x);
      if |s.inbox[x]| <= i {
        var j :| 0 <= j < |replies| && replies[j] == s'.inbox[x][i];
        assert RequestOk(s, h, ms[j]);
        assert WasPut(s', k, v);
      } else {
        assert s'.inbox[x][i] == s.inbox[x][i];
      }
    }
    OwnersKept(s, s');
  }

  lemma AnswerKeepsTokens(s: State, h: nat, k: Key)
    requires Inv(s) && h < s.N() && k.home == h && k.str in s.kv[h] && k in s.cache[h]
    requires CanAnswer(s, h, k)
    ensures TokenInv(AnswerCache(s, h, k))
  {
    var s' := AnswerCache(s, h, k);
    forall x | 0 <= x < s.N() && s'.app[x].Waiting? && s'.app[x].key.home < s.N()
      ensures Tokens(s', x, s'.app[x].key) == 1
    {
      AnsweringMovesToken(s, h, k, x);
    }
  }

  /** Who waits for another key has no request cached under k. */
  lemma OthersHaveNoneCached(s: State, h: nat, k: Key, x: nat)
    requires Inv(s) && h < s.N() && k.home == h && k.str in s.kv[h] && k in s.cache[h]
    requires x < s.N() && s.app[x].Waiting? && s.app[x].key != k
    ensures Count(s.cache[h][k], RequestOf(x)) == 0
  {
    CachedRequestsAreWaiting(s, h, k);
    CountZero(s.cache[h][k], RequestOf(x));
  }

  /** A cached request of x that is answered becomes a reply to x. */
  lemma AnsweringMovesToken(s: State, h: nat, k: Key, x: nat)
    requires Inv(s) && h < s.N() && k.home == h && k.str in s.kv[h] && k in s.cache[h]
    requires CanAnswer(s, h, k)
    requires x < s.N() && s.app[x].Waiting? && s.app[x].key.home < s.N()
    ensures Tokens(AnswerCache(s, h, k), x, s.app[x].key) == 1
  {
    var kx := s.app[x].key;
    assert AppOk(s, x);
    assert Tokens(s, x, kx) == 1;
    AnswerCounts(s, h, k, x, kx.home);
    if kx != k {
      OthersHaveNoneCached(s, h, k, x);
    }
  }

  lemma AnswerKeepsInv(s: State, h: nat, k: Key)
    requires Inv(s) && h < s.N() && k.home == h && k.str in s.kv[h]
    ensures CanAnswer(s, h, k)
    ensures Inv(AnswerCache(s, h, k))
  {
    CachedRequestsAreWaiting(s, h, k);
    if k in s.cache[h] {
      var s' := AnswerCache(s, h, k);
      var ms := s.cache[h][k];
      AnswerKeepsOwners(s, h, k);
      AnswerKeepsTokens(s, h, k);
      forall x: nat
        ensures Count(s'.inbox[0], DoneOf(x)) == Count(s.inbox[0], DoneOf(x))
      {
        PushAllCount(s.inbox, Replies(h, k, s.kv[h][k.str], ms), 0, DoneOf(x));
        RepliesCount(h, k, s.kv[h][k.str], ms, 0, DoneOf(x));
      }
      DoneKept(s, s');
      TeardownKept(s');
    }
  }

  lemma AppResumes(s: State, n: nat)
    requires Inv(s) && n < s.N() && s.app[n].AppAnswering?
    ensures Inv(s.(app := s.app[n := Running]))
  {
    var s' := s.(app := s.app[n := Running]);
    OwnersKept(s, s');
    DoneKept(s, s');
    NotAllDone(s, n);
    TeardownKept(s');
    TokensKept(s, s');
  }

  lemma RecvResumes(s: State, n: nat)
    requires Inv(s) && n < s.N() && s.recv[n].RecvAnswering?
    ensures Inv(s.(recv := s.recv[n := Idle]))
  {
    var s' := s.(recv := s.recv[n := Idle]);
    OwnersKept(s, s');
    DoneKept(s, s');
    assert TeardownInv(s') by {
      assert forall x :: 0 <= x < s.N() ==> TeardownSent(s', x) == TeardownSent(s, x);
    }
    TokensKept(s, s');
  }

  lemma AppAnswerKeepsInv(s: State, n: nat)
    requires Inv(s) && Enabled(s, AppAnswer(n))
    ensures AssertsHold(s, AppAnswer(n))
    ensures Inv(Apply(s, AppAnswer(n)))
  {
    assert AppOk(s, n);
    AnswerKeepsInv(s, n, s.app[n].key);
    AppResumes(AnswerCache(s, n, s.app[n].key), n);
  }

  lemma RecvAnswerKeepsInv(s: State, n: nat)
    requires Inv(s) && Enabled(s, Act(n)) && s.recv[n].RecvAnswering?
    ensures AssertsHold(s, Act(n))
    ensures Inv(Apply(s, Act(n)))
  {
    assert RecvOk(s, n);
    AnswerKeepsInv(s, n, s.recv[n].key);
    RecvResumes(AnswerCache(s, n, s.recv[n].key), n);
  }

  // ----- the request in the receiver's hands -----

  lemma CacheRequestKeepsInv(s: State, n: nat)
    requires Inv(s) && Enabled(s, Act(n)) && s.recv[n].Missed?
    ensures AssertsHold(s, Act(n))
    ensures Inv(Apply(s, Act(n)))
  {
    assert RecvOk(s, n);
    var m, s' := s.recv[n].msg, Apply(s, Act(n));
    NotAllDone(s, m.sender);
    CacheRequestKeepsOwners(s, n, m, s');
    DoneKept(s, s');
    TeardownKept(s');
    forall x | 0 <= x < s.N() && s'.app[x].Waiting? && s'.app[x].key.home < s.N()
      ensures Tokens(s', x, s'.app[x].key) == 1
    {
      CachingMovesToken(s, n, x);
    }
  }

  /** The request that was looked up in vain is cached. */
  lemma CachingMovesToken(s: State, n: nat, x: nat)
    requires Inv(s) && Enabled(s, Act(n)) && s.recv[n].Missed? && RecvOk(s, n)
    requires x < s.N() && s.app[x].Waiting? && s.app[x].key.home < s.N()
    ensures Tokens(Apply(s, Act(n)), x, s.app[x].key) == 1
  {
    var m := s.recv[n].msg;
    assert AppOk(s, x);
    assert Tokens(s, x, s.app[x].key) == 1;
    AddToCacheCounts(s.cache[n], m.key, m, s.app[x].key, x);
  }

  lemma CacheRequestKeepsOwners(s: State, n: nat, m: Message, s': State)
    requires Inv(s) && Enabled(s, Act(n)) && s.recv[n] == Missed(m) && RequestOk(s, n, m)
    requires s' == Apply(s, Act(n))
    ensures OwnersInv(s')
  {
    if m.key in s.cache[n] {
      assert CacheOk(s, n, m.key, s.cache[n][m.key]);
    }
    assert CacheOk(s', n, m.key, s'.cache[n][m.key]);
    OwnersKept(s, s');
  }

  lemma AnswerRequestKeepsInv(s: State, n: nat)
    requires Inv(s) && Enabled(s, Act(n)) && s.recv[n].Hit?
    ensures AssertsHold(s, Act(n))
    ensures Inv(Apply(s, Act(n)))
  {
    var m, v := s.recv[n].msg, s.recv[n].value;
    assert RecvOk(s, n);
    var s', r := Apply(s, Act(n)), ReplyData(n, m.sender, m.key, v);
    NotAllDone(s, m.sender);
    AnswerRequestKeepsOwners(s, n);
    forall x { CountAppend(s.inbox[m.sender], r, DoneOf(x)); }
    DoneKept(s, s');
    TeardownKept(s');
    AnswerRequestKeepsTokens(s, n);
  }

  lemma AnswerRequestKeepsTokens(s: State, n: nat)
    requires Inv(s) && Enabled(s, Act(n)) && s.recv[n].Hit? && RecvOk(s, n)
    ensures TokenInv(Apply(s, Act(n)))
  {
    var s' := Apply(s, Act(n));
    forall x | 0 <= x < s.N() && s'.app[x].Waiting? && s'.app[x].key.home < s.N()
      ensures Tokens(s', x, s'.app[x].key) == 1
    {
      AnswerMovesToken(s, n, x);
    }
  }

  lemma AnswerRequestKeepsOwners(s: State, n: nat)
    requires Inv(s) && Enabled(s, Act(n)) && s.recv[n].Hit? && RecvOk(s, n)
    ensures OwnersInv(Apply(s, Act(n)))
  {
    var m, s' := s.recv[n].msg, Apply(s, Act(n));
    NotAllDone(s, m.sender);
    assert forall h :: 0 <= h < s.N() ==> RecvOk(s, h);
    assert WasPut(s', m.key, s.recv[n].value);
    OwnersKept(s, s');
  }

  /** The request that was looked up successfully becomes a reply on its way. */
  lemma AnswerMovesToken(s: State, n: nat, x: nat)
    requires Inv(s) && Enabled(s, Act(n)) && s.recv[n].Hit? && RecvOk(s, n)
    requires x < s.N() && s.app[x].Waiting? && s.app[x].key.home < s.N()
    ensures Tokens(Apply(s, Act(n)), x, s.app[x].key) == 1
  {
    var m, v := s.recv[n].msg, s.recv[n].value;
    assert RecvOk(s, n);
    var r := ReplyData(n, m.sender, m.key, v);
    assert Tokens(s, x, s.app[x].key) == 1;
    CountAppend(s.inbox[m.sender], r, RequestOf(x));
    CountAppend(s.inbox[m.sender], r, AnyReply);
  }

  // ----- sendTeardownMsgs_ -----

  lemma SendTeardownKeepsInv(s: State, n: nat)
    requires Inv(s) && Enabled(s, Act(n)) && s.recv[n].TearingDown?
    ensures AssertsHold(s, Act(n))
    ensures Inv(Apply(s, Act(n)))
  {
    var i := s.recv[n].next;
    assert RecvOk(s, n);
    var s', m := Apply(s, Act(n)), Teardown(n, i);
    SendTeardownKeepsOwners(s, n);
    forall x { CountAppend(s.inbox[i], m, DoneOf(x)); }
    DoneKept(s, s');
    SendTeardownKeepsTeardowns(s, n);
    assert forall x :: 0 <= x < s.N() ==> s.isDone[x] && s.app[x] == Finished;
  }

  lemma SendTeardownKeepsOwners(s: State, n: nat)
    requires Inv(s) && Enabled(s, Act(n)) && s.recv[n].TearingDown? && RecvOk(s, n)
    ensures s.recv[s.recv[n].next] != Stopped
    ensures OwnersInv(Apply(s, Act(n)))
  {
    var i := s.recv[n].next;
    assert Count(s.inbox[i], AnyTeardown) == 0 && s.recv[i] != Stopped;
    OwnersKept(s, Apply(s, Act(n)));
  }

  /** The Teardown is the first of its queue, and its last message. */
  lemma SendTeardownKeepsTeardowns(s: State, n: nat)
    requires Inv(s) && Enabled(s, Act(n)) && s.recv[n].TearingDown? && RecvOk(s, n)
    ensures TeardownInv(Apply(s, Act(n))) && TeardownLast(Apply(s, Act(n)))
  {
    var i := s.recv[n].next;
    assert Count(s.inbox[i], AnyTeardown) == 0;
    CountZero(s.inbox[i], AnyTeardown);
    CountAppend(s.inbox[i], Teardown(n, i), AnyTeardown);
  }
}
