/**
 One node's store, its end of the pseudo network and its receiver, as the objects
 the code has.  Each method is proved to do what the protocol's steps say: the
 ghost argument s is the state of the whole system, which the objects mirror.
 */
module KVStore {
  import opened Messages
  import opened Cluster
  import opened ClusterInvariant
  import opened ClusterRuns

  /** The queues that all nodes of a pseudo network share. */
  class MsgQueueArr {
    var queues: seq<Queue>

    constructor (numNodes: nat)
      ensures queues == seq(numNodes, _ => [])
    {
      queues := seq(numNodes, _ => []);
    }
  }

  /** The Teardown messages sendTeardownMsgs_ still sends from target i on. */
  function Teardowns(sender: nat, i: nat, n: nat): (ms: seq<Message>)
    requires i <= n
    ensures |ms| == n - i && forall j :: 0 <= j < |ms| ==> ms[j] == Teardown(sender, i + j)
    decreases n - i
  {
    if i == n then [] else [Teardown(sender, i)] + Teardowns(sender, i + 1, n)
  }

  class PseudoNetwork {
    const mqa: MsgQueueArr
    const nodeId: nat
    const isNodeDone: array<bool>

    constructor (mqa: MsgQueueArr, ourNode: nat)
      ensures this.mqa == mqa && nodeId == ourNode && fresh(isNodeDone)
      ensures isNodeDone[..] == seq(|mqa.queues|, _ => false)
    {
      this.mqa, nodeId := mqa, ourNode;
      isNodeDone := new bool[|mqa.queues|](_ => false);
    }

    ghost predicate Valid()
      reads this, mqa
    {
      nodeId < |mqa.queues| == isNodeDone.Length
    }

    method SendMsg(m: Message)
      requires Valid() && m.target < |mqa.queues|
      modifies mqa
      ensures mqa.queues == Push(old(mqa.queues), m)
    {
      mqa.queues := mqa.queues[m.target := mqa.queues[m.target] + [m]];
    }

    /** receiveMsg: pop waits until the queue is not empty. */
    method ReceiveMsg() returns (m: Message)
      requires Valid() && mqa.queues[nodeId] != []
      modifies mqa
      ensures m == old(mqa.queues[nodeId][0])
      ensures mqa.queues == old(mqa.queues)[nodeId := old(mqa.queues)[nodeId][1..]]
    {
      m := mqa.queues[nodeId][0];
      mqa.queues := mqa.queues[nodeId := mqa.queues[nodeId][1..]];
    }

    method SendTeardownMsgs()
      requires Valid()
      modifies mqa
      ensures mqa.queues == PushAll(old(mqa.queues), Teardowns(nodeId, 0, |old(mqa.queues)|))
    {
      var n := |mqa.queues|;
      var i := 0;
      while i < n
        invariant 0 <= i <= n == |mqa.queues| && Valid()
        invariant PushAll(mqa.queues, Teardowns(nodeId, i, n)) == PushAll(old(mqa.queues), Teardowns(nodeId, 0, n))
      {
        assert Teardowns(nodeId, i, n)[1..] == Teardowns(nodeId, i + 1, n);
        SendMsg(Teardown(nodeId, i));
        i := i + 1;
      }
    }

    method HandleDoneMsg(m: Message)
      requires Valid() && m.Done? && nodeId == 0 && m.sender < |mqa.queues|
      modifies mqa, isNodeDone
      ensures isNodeDone[..] == old(isNodeDone[..])[m.sender := true]
      ensures mqa.queues == if AllDone(isNodeDone[..])
                            then PushAll(old(mqa.queues), Teardowns(0, 0, |old(mqa.queues)|))
                            else old(mqa.queues)
    {
      isNodeDone[m.sender] := true;
      var i := 0;
      while i < |mqa.queues|
        invariant 0 <= i <= |mqa.queues|
        invariant forall j :: 0 <= j < i ==> isNodeDone[j]
      {
        if !isNodeDone[i] {
          return;
        }
        i := i + 1;
      }
      SendTeardownMsgs();
    }
  }

  /** Both steps of a put of a local key can be taken, and keep the invariant. */
  lemma PutsLocally(s: State, n: nat, k: Key, v: Value)
    requires Inv(s) && Enabled(s, PutLocal(n, k, v))
    ensures var t := Apply(s, PutLocal(n, k, v));
      Enabled(t, AppAnswer(n)) && AssertsHold(t, AppAnswer(n)) && Inv(Apply(t, AppAnswer(n)))
  {
    AssertsNeverFail(s, PutLocal(n, k, v));
    AssertsNeverFail(Apply(s, PutLocal(n, k, v)), AppAnswer(n));
  }

  class Store {
    var kvMap: Cluster.Store
    var msgCache: Cache
    const storeId: nat
    const node: PseudoNetwork

    constructor (id: nat, net: PseudoNetwork)
      ensures storeId == id && node == net && kvMap == map[] && msgCache == map[]
    {
      storeId, node, kvMap, msgCache := id, net, map[], map[];
    }

    ghost predicate Valid()
      reads this, node, node.mqa
    {
      node.Valid() && node.nodeId == storeId
    }

    /** This node's part of the system state, and the shared queues. */
    ghost predicate Mirrors(s: State)
      reads this, node, node.mqa, node.isNodeDone
    {
      && s.WellFormed() && storeId < s.N() && Valid()
      && kvMap == s.kv[storeId] && msgCache == s.cache[storeId]
      && node.mqa.queues == s.inbox
      && (storeId == 0 ==> node.isNodeDone[..] == s.isDone)
    }

    method AddToCache(k: Key, msg: Message)
      modifies this`msgCache
      ensures msgCache == Cluster.AddToCache(old(msgCache), k, msg)
    {
      if k in msgCache {
        msgCache := msgCache[k := msgCache[k] + [msg]];
      } else {
        assert [] + [msg] == [msg];
        msgCache := msgCache[k := [msg]];
      }
    }

    /** Answers the requests cached under k, one reply at a time, in the order they came. */
    method TryToHandleCache(k: Key)
      requires Valid() && k.str in kvMap
      requires k in msgCache ==> forall i :: 0 <= i < |msgCache[k]| ==>
                 msgCache[k][i].WaitAndGet? && msgCache[k][i].sender < |node.mqa.queues|
      modifies this`msgCache, node.mqa
      ensures Valid() && msgCache == old(msgCache) - {k}
      ensures node.mqa.queues ==
              if k in old(msgCache)
              then PushAll(old(node.mqa.queues), Replies(storeId, k, kvMap[k.str], old(msgCache)[k]))
              else old(node.mqa.queues)
    {
      if k in msgCache {
        var arrMsgs := msgCache[k];
        msgCache := msgCache - {k};
        var i := 0;
        while i < |arrMsgs|
          invariant msgCache == old(msgCache) - {k}
          invariant 0 <= i <= |arrMsgs| && Valid() && |node.mqa.queues| == |old(node.mqa.queues)|
          invariant PushAll(node.mqa.queues, Replies(storeId, k, kvMap[k.str], arrMsgs[i..]))
                 == PushAll(old(node.mqa.queues), Replies(storeId, k, kvMap[k.str], arrMsgs))
        {
          var wagMsg := arrMsgs[i];
          var val := kvMap[k.str];
          ghost var rest := Replies(storeId, k, val, arrMsgs[i..]);
          assert rest[1..] == Replies(storeId, k, val, arrMsgs[i + 1..]);
          node.SendMsg(ReplyData(storeId, wagMsg.sender, k, val));
          i := i + 1;
        }
      }
    }

    /** put, run to its end by the application thread with nothing in between; t is
        the state between its two protocol steps when the key is local. */
    method Put(k: Key, data: Value, ghost s: State) returns (ghost t: State, ghost s': State)
      requires Inv(s) && Mirrors(s) && s.app[storeId] == Running && k.home < s.N()
      modifies this, node.mqa
      ensures Inv(s') && Mirrors(s')
      ensures if k.home == storeId then Next(s, PutLocal(storeId, k, data), t) && Next(t, AppAnswer(storeId), s')
              else Next(s, PutRemote(storeId, k, data), s')
    {
      if k.home != storeId {
        t := s;
        s' := Apply(s, PutRemote(storeId, k, data));
        AssertsNeverFail(s, PutRemote(storeId, k, data));
        node.SendMsg(Message.Put(storeId, k.home, k, data));
      } else {
        t := Apply(s, PutLocal(storeId, k, data));
        PutsLocally(s, storeId, k, data);
        s' := Apply(t, AppAnswer(storeId));
        kvMap := kvMap[k.str := data];
        TryToHandleCache(k);
      }
    }

    /** The non-blocking local lookup. */
    method GetLocal(k: Key) returns (val: Option<Value>)
      ensures val == if k.str in kvMap then Some(kvMap[k.str]) else None
    {
      if k.str in kvMap {
        val := Some(kvMap[k.str]);
      } else {
        val := None;
      }
    }

    /** getFromNetwork_ up to where it blocks. */
    method SendRequest(k: Key, ghost s: State) returns (ghost s': State)
      requires Inv(s) && Mirrors(s) && s.app[storeId] == Running && k.home < s.N() && k.home != storeId
      modifies node.mqa
      ensures Inv(s') && Mirrors(s') && Next(s, BeginWait(storeId, k), s')
    {
      s' := Apply(s, BeginWait(storeId, k));
      AssertsNeverFail(s, BeginWait(storeId, k));
      node.SendMsg(WaitAndGet(storeId, k.home, k));
    }

    /** getFromNetwork_ from where it wakes up: its three assertions hold. */
    method TakeReply(k: Key, ghost s: State) returns (val: Value, ghost s': State)
      requires Inv(s) && Mirrors(s) && s.app[storeId] == Waiting(k) && k in msgCache
      modifies this`msgCache
      ensures Inv(s') && Mirrors(s') && Next(s, FinishWait(storeId), s')
      ensures val == Returned(s, FinishWait(storeId)) && WasPut(s, k, val)
    {
      AssertsNeverFail(s, FinishWait(storeId));
      s' := Apply(s, FinishWait(storeId));
      assert CacheOk(s, storeId, k, s.cache[storeId][k]);
      var msgArr := msgCache[k];
      msgCache := msgCache - {k};
      assert |msgArr| == 1;
      var dataMsg := msgArr[0];
      assert dataMsg.ReplyData?;
      val := dataMsg.value;
    }
  }

  // ----- the receiver thread -----

  /** The server's broadcast, all of its steps in a row. */
  ghost function Broadcast(s: State): (r: State)
    requires s.WellFormed() && s.recv[0].TearingDown? && s.recv[0].next < s.N()
    ensures r.WellFormed() && r.N() == s.N()
    decreases s.N() - s.recv[0].next
  {
    var s' := Apply(s, Act(0));
    if s'.recv[0].TearingDown? then Broadcast(s') else s'
  }

  lemma TeardownIsSent(s: State)
    requires s.WellFormed() && s.recv[0].TearingDown? && s.recv[0].next < s.N()
    ensures var i := s.recv[0].next;
      Apply(s, Act(0)) == s.(inbox := Push(s.inbox, Teardown(0, i)),
                             recv := s.recv[0 := if i + 1 < s.N() then TearingDown(i + 1) else Idle])
  {
  }

  lemma NextTeardowns(inbox: seq<Queue>, i: nat, n: nat)
    requires i < n == |inbox|
    ensures PushAll(inbox, Teardowns(0, i, n)) == PushAll(Push(inbox, Teardown(0, i)), Teardowns(0, i + 1, n))
  {
    assert Teardowns(0, i, n)[1..] == Teardowns(0, i + 1, n);
  }

  lemma {:induction false} BroadcastSends(s: State)
    requires s.WellFormed() && s.recv[0].TearingDown? && s.recv[0].next < s.N()
    ensures var i := s.recv[0].next;
      Broadcast(s) == s.(inbox := PushAll(s.inbox, Teardowns(0, i, s.N())), recv := s.recv[0 := Idle])
    decreases s.N() - s.recv[0].next
  {
    var i := s.recv[0].next;
    TeardownIsSent(s);
    NextTeardowns(s.inbox, i, s.N());
    if i + 1 < s.N() {
      BroadcastSends(Apply(s, Act(0)));
      assert Apply(s, Act(0)).recv[0 := Idle] == s.recv[0 := Idle];
    } else {
      assert Teardowns(0, i + 1, s.N()) == [];
    }
  }

  lemma {:induction false} BroadcastEffect(s: State)
    requires Inv(s) && s.recv[0].TearingDown? && s.recv[0].next < s.N()
    ensures Inv(Broadcast(s))
    ensures var i := s.recv[0].next;
      Broadcast(s) == s.(inbox := PushAll(s.inbox, Teardowns(0, i, s.N())), recv := s.recv[0 := Idle])
    decreases s.N() - s.recv[0].next
  {
    BroadcastSends(s);
    AssertsNeverFail(s, Act(0));
    TeardownIsSent(s);
    if s.recv[0].next + 1 < s.N() {
      BroadcastEffect(Apply(s, Act(0)));
    }
  }

  /** The whole handling of node n's next message, with nothing in between. */
  ghost function Handled(s: State, n: nat): (r: State)
    requires Inv(s) && Enabled(s, Pop(n))
    ensures r.WellFormed() && r.N() == s.N()
  {
    AssertsNeverFail(s, Pop(n));
    var t := Apply(s, Pop(n));
    assert RecvOk(t, n);
    if t.recv[n] == Idle || t.recv[n] == Stopped then t
    else if t.recv[n].TearingDown? then Broadcast(t)
    else AssertsNeverFail(t, Act(n)); Apply(t, Act(n))
  }

  /** Handling a PutMsg: its value is stored, and the requests for its key are answered. */
  lemma HandledPut(s: State, n: nat)
    requires Inv(s) && Enabled(s, Pop(n)) && s.inbox[n][0].Put?
    ensures var m, s' := s.inbox[n][0], Handled(s, n);
      var stored := s.(inbox := s.inbox[n := s.inbox[n][1..]], kv := s.kv[n := s.kv[n][m.key.str := m.value]]);
      && m.key.home == n && CanAnswer(stored, n, m.key) && s' == AnswerCache(stored, n, m.key)
  {
    var m, t := s.inbox[n][0], Apply(s, Pop(n));
    AssertsNeverFail(s, Pop(n));
    AssertsNeverFail(t, Act(n));
    assert MessageOk(s, n, m);
    assert s.recv[n := RecvAnswering(m.key)][n := Idle] == s.recv;
  }

  /** Handling a request: it is answered, or cached until the key is put. */
  lemma HandledRequest(s: State, n: nat)
    requires Inv(s) && Enabled(s, Pop(n)) && s.inbox[n][0].WaitAndGet?
    ensures var m, s' := s.inbox[n][0], Handled(s, n);
      var taken := s.(inbox := s.inbox[n := s.inbox[n][1..]]);
      && m.sender < s.N()
      && s' == if m.key.str in s.kv[n]
               then taken.(inbox := Push(taken.inbox, ReplyData(n, m.sender, m.key, s.kv[n][m.key.str])))
               else taken.(cache := s.cache[n := Cluster.AddToCache(s.cache[n], m.key, m)])
  {
    var t := Apply(s, Pop(n));
    assert MessageOk(s, n, s.inbox[n][0]);
    assert s.recv[n := t.recv[n]][n := Idle] == s.recv;
  }

  /** Handling a reply: it is cached for the application thread. */
  lemma HandledReply(s: State, n: nat)
    requires Inv(s) && Enabled(s, Pop(n)) && s.inbox[n][0].ReplyData?
    ensures var m := s.inbox[n][0];
      Handled(s, n) == s.(inbox := s.inbox[n := s.inbox[n][1..]],
                          cache := s.cache[n := Cluster.AddToCache(s.cache[n], m.key, m)])
  {
  }

  class ReceiverThread {
    const network: PseudoNetwork
    const kv: Store

    constructor (net: PseudoNetwork, kv: Store)
      ensures network == net && this.kv == kv
    {
      network, this.kv := net, kv;
    }

    /** The situation after receiveMsg returned m: the objects mirror s without m. */
    ghost predicate Holding(s: State, m: Message)
      reads kv, kv.node, kv.node.mqa, kv.node.isNodeDone
    {
      && Inv(s) && kv.node == network && kv.storeId < s.N()
      && Enabled(s, Pop(kv.storeId)) && m == s.inbox[kv.storeId][0]
      && kv.Mirrors(s.(inbox := s.inbox[kv.storeId := s.inbox[kv.storeId][1..]]))
    }

    method HandleWaitAndGet(m: Message, ghost s: State)
      requires m.WaitAndGet? && Holding(s, m)
      modifies kv, network.mqa
      ensures kv.Mirrors(Handled(s, kv.storeId))
    {
      HandledRequest(s, kv.storeId);
      var val := kv.GetLocal(m.key);
      if val.Some? {
        network.SendMsg(ReplyData(kv.storeId, m.sender, m.key, val.value));
      } else {
        kv.AddToCache(m.key, m);
      }
    }

    method HandlePut(m: Message, ghost s: State)
      requires m.Put? && Holding(s, m)
      modifies kv, network.mqa
      ensures kv.Mirrors(Handled(s, kv.storeId))
    {
      HandledPut(s, kv.storeId);
      assert m.key.home == kv.storeId;
      kv.kvMap := kv.kvMap[m.key.str := m.value];
      kv.TryToHandleCache(m.key);
    }

    method HandleDone(m: Message, ghost s: State)
      requires m.Done? && Holding(s, m)
      modifies network.mqa, network.isNodeDone
      ensures kv.Mirrors(Handled(s, kv.storeId))
    {
      ghost var n := kv.storeId;
      AssertsNeverFail(s, Pop(n));
      ghost var t := Apply(s, Pop(n));
      assert MessageOk(s, n, m);
      assert network.nodeId == 0;
      if t.recv[n].TearingDown? {
        BroadcastEffect(t);
      }
      network.HandleDoneMsg(m);
    }

    /** One turn of the loop in run: wait for a message and handle it. */
    method HandleNext(ghost s: State) returns (isDone: bool)
      requires Inv(s) && kv.Mirrors(s) && kv.node == network && Enabled(s, Pop(kv.storeId))
      modifies kv, network.mqa, network.isNodeDone
      ensures kv.Mirrors(Handled(s, kv.storeId))
      ensures isDone <==> Handled(s, kv.storeId).recv[kv.storeId] == Stopped
    {
      ghost var n := kv.storeId;
      AssertsNeverFail(s, Pop(n));
      HandledStops(s, n);
      var m := network.ReceiveMsg();
      isDone := false;
      match m
      case WaitAndGet(_, _, _) => HandleWaitAndGet(m, s);
      case ReplyData(_, _, k, _) =>
        HandledReply(s, n);
        kv.AddToCache(k, m);
      case Put(_, _, _, _) => HandlePut(m, s);
      case Done(_, _) => HandleDone(m, s);
      case Teardown(_, _) => isDone := true;
    }
  }

  lemma HandledIsInv(s: State, n: nat)
    requires Inv(s) && Enabled(s, Pop(n))
    ensures Inv(Handled(s, n))
  {
    AssertsNeverFail(s, Pop(n));
    var t := Apply(s, Pop(n));
    assert RecvOk(t, n);
    if t.recv[n].TearingDown? {
      BroadcastEffect(t);
    } else if t.recv[n] != Idle && t.recv[n] != Stopped {
      AssertsNeverFail(t, Act(n));
    }
  }

  lemma HandledDone(s: State, n: nat)
    requires Inv(s) && Enabled(s, Pop(n)) && s.inbox[n][0].Done?
    ensures Handled(s, n).recv[n] == Idle
  {
    var t := Apply(s, Pop(n));
    assert MessageOk(s, n, s.inbox[n][0]) && n == 0;
    AssertsNeverFail(s, Pop(n));
    if t.recv[0].TearingDown? {
      BroadcastEffect(t);
      assert Handled(s, n) == Broadcast(t);
    } else {
      assert Handled(s, n) == t;
    }
  }

  lemma HandledTeardown(s: State, n: nat)
    requires Inv(s) && Enabled(s, Pop(n)) && s.inbox[n][0].Teardown?
    ensures Handled(s, n).recv[n] == Stopped
  {
  }

  /** Handling a message keeps the invariant, and stops the receiver only on a Teardown. */
  lemma HandledStops(s: State, n: nat)
    requires Inv(s) && Enabled(s, Pop(n))
    ensures Inv(Handled(s, n))
    ensures Handled(s, n).recv[n] == Stopped <==> s.inbox[n][0].Teardown?
  {
    HandledIsInv(s, n);
    match s.inbox[n][0]
    case WaitAndGet(_, _, _) => HandledRequest(s, n);
    case ReplyData(_, _, _, _) => HandledReply(s, n);
    case Put(_, _, _, _) => HandledPut(s, n);
    case Done(_, _) => HandledDone(s, n);
    case Teardown(_, _) => HandledTeardown(s, n);
  }
}
