/**
 Every step of the protocol keeps the invariant, so every reachable state has it.
 */
module ClusterSafety {
  import opened Messages
  import opened Cluster
  import opened ClusterInvariant

  lemma InitInv(s: State)
    requires Init(s)
    ensures Inv(s)
  {
    assert !s.isDone[0];
  }

  // ----- what carries over from one state to the next -----

  /** No blocked wait ends, nothing recorded is forgotten. */
  ghost predicate Extends(s: State, s': State)
    requires s.WellFormed()
  {
    && s'.WellFormed() && s'.N() == s.N()
    && (forall n :: 0 <= n < s.N() && (s.app[n].Waiting? || s.app[n] == Finished) ==> s'.app[n] == s.app[n])
    && (forall n :: 0 <= n < s.N() && s.isDone[n] ==> s'.isDone[n])
    && (forall n :: 0 <= n < s.N() ==> s.kv[n].Keys <= s'.kv[n].Keys)
    && (forall r :: r in s.puts ==> r in s'.puts)
  }

  lemma OwnersCarryOver(s: State, s': State, h: nat, m: Message)
    requires s.WellFormed() && Extends(s, s') && h < s.N()
    ensures RequestOk(s, h, m) ==> RequestOk(s', h, m)
    ensures ReplyOk(s, h, m) ==> ReplyOk(s', h, m)
    ensures MessageOk(s, h, m) ==> MessageOk(s', h, m)
  {
  }

  /** The owners' part of the invariant holds after a step that extends the state
      when it holds of everything the step added. */
  lemma OwnersKept(s: State, s': State)
    requires Inv(s) && Extends(s, s')
    requires forall h, i :: 0 <= h < s.N() && 0 <= i < |s'.inbox[h]| ==>
               s'.inbox[h][i] in s.inbox[h] || MessageOk(s', h, s'.inbox[h][i])
    requires forall h, k :: 0 <= h < s.N() && k in s'.cache[h] ==>
               (k in s.cache[h] && s'.cache[h][k] == s.cache[h][k]) || CacheOk(s', h, k, s'.cache[h][k])
    requires forall h :: 0 <= h < s.N() ==>
               (s'.recv[h] == s.recv[h] && (s.recv[h] == Stopped ==> s'.inbox[h] == s.inbox[h])) || RecvOk(s', h)
    requires forall n :: 0 <= n < s.N() ==> s'.app[n] == s.app[n] || AppOk(s', n)
    requires forall h, str :: 0 <= h < s.N() && str in s'.kv[h] ==>
               (str in s.kv[h] && s'.kv[h][str] == s.kv[h][str]) || WasPut(s', Key(str, h), s'.kv[h][str])
    ensures OwnersInv(s')
  {
    assert InboxInv(s') by {
      forall h, i | 0 <= h < s.N() && 0 <= i < |s'.inbox[h]|
        ensures MessageOk(s', h, s'.inbox[h][i])
      {
        OwnersCarryOver(s, s', h, s'.inbox[h][i]);
      }
    }
    assert CacheInv(s') by {
      forall h, k | 0 <= h < s.N() && k in s'.cache[h] && k in s.cache[h] && s'.cache[h][k] == s.cache[h][k]
        ensures CacheOk(s', h, k, s'.cache[h][k])
      {
        assert CacheOk(s, h, k, s.cache[h][k]);
        forall m { OwnersCarryOver(s, s', h, m); }
      }
    }
    assert RecvInv(s') by {
      forall h | 0 <= h < s.N()
        ensures RecvOk(s', h)
      {
        assert RecvOk(s, h);
        forall m { OwnersCarryOver(s, s', h, m); }
      }
    }
    assert AppInv(s') by {
      forall n | 0 <= n < s.N()
        ensures AppOk(s', n)
      {
        assert AppOk(s, n);
      }
    }
    assert StoreInv(s') by {
      forall h, str | 0 <= h < s.N() && str in s'.kv[h]
        ensures WasPut(s', Key(str, h), s'.kv[h][str])
      {
      }
    }
  }

  /** As long as one application has not finished, nobody was sent a Teardown. */
  lemma NotAllDone(s: State, n: nat)
    requires Inv(s) && n < s.N() && s.app[n] != Finished
    ensures !AllDone(s.isDone)
  {
    assert !s.isDone[n];
  }

  lemma TeardownKept(s: State)
    requires s.WellFormed() && InboxInv(s) && RecvInv(s) && !AllDone(s.isDone)
    ensures TeardownInv(s) && TeardownLast(s)
  {
    forall n | 0 <= n < s.N()
      ensures Count(s.inbox[n], AnyTeardown) == 0 && s.recv[n] != Stopped
      ensures forall i :: 0 <= i < |s.inbox[n]| ==> !s.inbox[n][i].Teardown?
    {
      assert RecvOk(s, n);
      assert forall i :: 0 <= i < |s.inbox[n]| ==> MessageOk(s, n, s.inbox[n][i]);
      CountZero(s.inbox[n], AnyTeardown);
    }
  }

  lemma DoneKept(s: State, s': State)
    requires Inv(s) && Extends(s, s') && s'.isDone == s.isDone
    requires forall n :: 0 <= n < s.N() ==>
               Count(s'.inbox[0], DoneOf(n)) + Weight(s.app[n] == Finished)
                   == Count(s.inbox[0], DoneOf(n)) + Weight(s'.app[n] == Finished)
    ensures DoneInv(s')
  {
    forall n | 0 <= n < s.N()
      ensures Count(s'.inbox[0], DoneOf(n)) + Weight(s'.isDone[n]) == Weight(s'.app[n] == Finished)
    {
    }
  }

  /** The tokens of a wait are where they were, and no new wait began. */
  lemma TokensKept(s: State, s': State)
    requires Inv(s) && s'.WellFormed() && s'.N() == s.N()
    requires s'.inbox == s.inbox && s'.cache == s.cache
    requires forall x, y :: 0 <= x < s.N() && 0 <= y < s.N() ==> InHand(s'.recv[x], y) == InHand(s.recv[x], y)
    requires forall n :: 0 <= n < s.N() && s'.app[n].Waiting? ==> s'.app[n] == s.app[n]
    ensures TokenInv(s')
  {
    forall n | 0 <= n < s.N() && s'.app[n].Waiting? && s'.app[n].key.home < s.N()
      ensures Tokens(s', n, s'.app[n].key) == 1
    {
      assert Tokens(s, n, s.app[n].key) == 1;
    }
  }

  /** A message that is no token was pushed: nobody's tokens change. */
  lemma TokensKeptByPush(s: State, s': State, m: Message)
    requires Inv(s) && Extends(s, s') && m.target < s.N()
    requires s'.inbox == Push(s.inbox, m) && s'.cache == s.cache && s'.recv == s.recv
    requires !m.WaitAndGet? && !m.ReplyData?
    requires forall n :: 0 <= n < s.N() && s'.app[n].Waiting? ==> s'.app[n] == s.app[n]
    ensures TokenInv(s')
  {
    forall n | 0 <= n < s.N() && s'.app[n].Waiting? && s'.app[n].key.home < s.N()
      ensures Tokens(s', n, s'.app[n].key) == 1
    {
      var k := s.app[n].key;
      assert Tokens(s, n, k) == 1;
      CountAppend(s.inbox[m.target], m, RequestOf(n));
      CountAppend(s.inbox[m.target], m, AnyReply);
    }
  }

  // ----- one lemma for each step -----

  lemma PutLocalKeepsInv(s: State, n: nat, k: Key, v: Value)
    requires Inv(s) && Enabled(s, PutLocal(n, k, v))
    ensures Inv(Apply(s, PutLocal(n, k, v)))
  {
    var s' := Apply(s, PutLocal(n, k, v));
    assert PutRecord(n, k, v) in s'.puts;
    assert WasPut(s', k, v);
    assert k == Key(k.str, n);
    OwnersKept(s, s');
    DoneKept(s, s');
    NotAllDone(s, n);
    TeardownKept(s');
    TokensKept(s, s');
  }

  lemma PutRemoteKeepsInv(s: State, n: nat, k: Key, v: Value)
    requires Inv(s) && Enabled(s, PutRemote(n, k, v))
    ensures Inv(Apply(s, PutRemote(n, k, v)))
  {
    var s', m := Apply(s, PutRemote(n, k, v)), Put(n, k.home, k, v);
    assert PutRecord(n, k, v) in s'.puts;
    NotAllDone(s, n);
    assert forall h :: 0 <= h < s.N() ==> RecvOk(s, h);
    OwnersKept(s, s');
    forall x { CountAppend(s.inbox[k.home], m, DoneOf(x)); }
    DoneKept(s, s');
    TeardownKept(s');
    TokensKeptByPush(s, s', m);
  }

  lemma BeginWaitKeepsInv(s: State, n: nat, k: Key)
    requires Inv(s) && Enabled(s, BeginWait(n, k))
    ensures Inv(Apply(s, BeginWait(n, k)))
  {
    if k.home == n {
      LocalWaitKeepsInv(s, n, k);
    } else {
      RemoteWaitKeepsInv(s, n, k);
    }
  }

  lemma LocalWaitKeepsInv(s: State, n: nat, k: Key)
    requires Inv(s) && Enabled(s, BeginWait(n, k)) && k.home == n
    ensures Inv(Apply(s, BeginWait(n, k)))
  {
    var s' := Apply(s, BeginWait(n, k));
    NotAllDone(s, n);
    OwnersKept(s, s');
    DoneKept(s, s');
    TeardownKept(s');
    TokensKept(s, s');
  }

  lemma RemoteWaitKeepsInv(s: State, n: nat, k: Key)
    requires Inv(s) && Enabled(s, BeginWait(n, k)) && k.home != n
    ensures Inv(Apply(s, BeginWait(n, k)))
  {
    var s', m := Apply(s, BeginWait(n, k)), WaitAndGet(n, k.home, k);
    NotAllDone(s, n);
    RemoteWaitKeepsOwners(s, n, k);
    forall x { CountAppend(s.inbox[k.home], m, DoneOf(x)); }
    TokensAfterRequest(s, s', n, k);
    DoneKept(s, s');
    TeardownKept(s');
  }

  lemma RemoteWaitKeepsOwners(s: State, n: nat, k: Key)
    requires Inv(s) && Enabled(s, BeginWait(n, k)) && k.home != n
    ensures OwnersInv(Apply(s, BeginWait(n, k)))
  {
    NotAllDone(s, n);
    assert forall h :: 0 <= h < s.N() ==> RecvOk(s, h);
    OwnersKept(s, Apply(s, BeginWait(n, k)));
  }

  lemma TokensAfterRequest(s: State, s': State, n: nat, k: Key)
    requires Inv(s) && Enabled(s, BeginWait(n, k)) && k.home != n
    requires s' == Apply(s, BeginWait(n, k))
    ensures TokenInv(s')
  {
    forall x | 0 <= x < s.N() && s'.app[x].Waiting? && s'.app[x].key.home < s.N()
      ensures Tokens(s', x, s'.app[x].key) == 1
    {
      if x == n {
        OwnRequestIsToken(s, n, k);
      } else {
        OthersKeepTokens(s, n, k, x);
      }
    }
  }

  lemma OwnRequestIsToken(s: State, n: nat, k: Key)
    requires Inv(s) && Enabled(s, BeginWait(n, k)) && k.home != n
    ensures Tokens(Apply(s, BeginWait(n, k)), n, k) == 1
  {
    CountAppend(s.inbox[k.home], WaitAndGet(n, k.home, k), RequestOf(n));
    NobodyWaitsFor(s, n);
    NoTokens(s, n, k);
  }

  lemma OthersKeepTokens(s: State, n: nat, k: Key, x: nat)
    requires Inv(s) && Enabled(s, BeginWait(n, k)) && k.home != n
    requires x < s.N() && x != n && s.app[x].Waiting? && s.app[x].key.home < s.N()
    ensures Tokens(Apply(s, BeginWait(n, k)), x, s.app[x].key) == 1
  {
    CountAppend(s.inbox[k.home], WaitAndGet(n, k.home, k), RequestOf(x));
    CountAppend(s.inbox[k.home], WaitAndGet(n, k.home, k), AnyReply);
    assert Tokens(s, x, s.app[x].key) == 1;
  }

  /** No message anywhere is about a wait of node n. */
  ghost predicate NothingAbout(s: State, n: nat)
    requires s.WellFormed() && n < s.N()
  {
    && (forall h, i :: 0 <= h < s.N() && 0 <= i < |s.inbox[h]| ==> !Is(s.inbox[h][i], RequestOf(n)))
    && (forall i :: 0 <= i < |s.inbox[n]| ==> !s.inbox[n][i].ReplyData?)
    && (forall h :: 0 <= h < s.N() ==> InHand(s.recv[h], n) == 0)
    && (forall h, k, i :: 0 <= h < s.N() && k in s.cache[h] && 0 <= i < |s.cache[h][k]| ==>
        !Is(s.cache[h][k][i], RequestOf(n)))
    && (forall k :: k in s.cache[n] ==> k.home == n)
  }

  lemma NobodyWaitsFor(s: State, n: nat)
    requires Inv(s) && n < s.N() && !s.app[n].Waiting?
    ensures NothingAbout(s, n)
  {
    forall h, i | 0 <= h < s.N() && 0 <= i < |s.inbox[h]|
      ensures !Is(s.inbox[h][i], RequestOf(n)) && (h == n ==> !s.inbox[h][i].ReplyData?)
    {
      assert MessageOk(s, h, s.inbox[h][i]);
    }
    forall h | 0 <= h < s.N()
      ensures InHand(s.recv[h], n) == 0
    {
      assert RecvOk(s, h);
    }
    forall h, k | 0 <= h < s.N() && k in s.cache[h]
      ensures forall i :: 0 <= i < |s.cache[h][k]| ==> !Is(s.cache[h][k][i], RequestOf(n))
      ensures h == n ==> k.home == n
    {
      assert CacheOk(s, h, k, s.cache[h][k]);
      assert s.cache[h][k][0].key == k;
    }
  }

  lemma NoTokens(s: State, n: nat, k: Key)
    requires s.WellFormed() && n < s.N() && NothingAbout(s, n) && k.home < s.N() && k.home != n
    ensures Tokens(s, n, k) == 0
  {
    CountZero(s.inbox[k.home], RequestOf(n));
    CountZero(s.inbox[n], AnyReply);
    if k in s.cache[k.home] {
      CountZero(s.cache[k.home][k], RequestOf(n));
    }
  }

  lemma FinishSpinKeepsInv(s: State, n: nat)
    requires Inv(s) && Enabled(s, FinishSpin(n))
    ensures Inv(Apply(s, FinishSpin(n)))
  {
    var s' := Apply(s, FinishSpin(n));
    OwnersKept(s, s');
    DoneKept(s, s');
    NotAllDone(s, n);
    TeardownKept(s');
    TokensKept(s, s');
  }

  lemma FinishKeepsInv(s: State, n: nat)
    requires Inv(s) && Enabled(s, Finish(n))
    ensures Inv(Apply(s, Finish(n)))
  {
    var s', m := Apply(s, Finish(n)), Done(n, 0);
    NotAllDone(s, n);
    FinishKeepsOwners(s, n);
    forall x { CountAppend(s.inbox[0], m, DoneOf(x)); }
    DoneKept(s, s');
    TeardownKept(s');
    FinishKeepsTokens(s, n);
  }

  lemma FinishKeepsTokens(s: State, n: nat)
    requires Inv(s) && Enabled(s, Finish(n))
    ensures TokenInv(Apply(s, Finish(n)))
  {
    TokensKeptByPush(s, Apply(s, Finish(n)), Done(n, 0));
  }

  lemma FinishKeepsOwners(s: State, n: nat)
    requires Inv(s) && Enabled(s, Finish(n))
    ensures OwnersInv(Apply(s, Finish(n)))
  {
    NotAllDone(s, n);
    assert forall h :: 0 <= h < s.N() ==> RecvOk(s, h);
    OwnersKept(s, Apply(s, Finish(n)));
  }
}
