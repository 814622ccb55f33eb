/**
 Which value a wait returns: puts travel through first-in first-out queues, so a
 node that is the only writer of a key reads back its own latest put, and no put
 is ever lost.
 */
module ClusterHistory {
  import opened Messages
  import opened Cluster
  import opened ClusterInvariant
  import opened ClusterSteps
  import opened ClusterSafety
  import opened ClusterRuns
  import opened ClusterProgress

  predicate IsPutOf(m: Message, k: Key) {
    m.Put? && m.key == k
  }

  /** The value of the last PutMsg for k in the queue. */
  function LastPending(q: Queue, k: Key): Option<Value> {
    if q == [] then None
    else if IsPutOf(q[|q| - 1], k) then Some(q[|q| - 1].value)
    else LastPending(q[..|q| - 1], k)
  }

  /** The value k will have at its home once the messages now queued there are handled. */
  function Settled(s: State, k: Key): Option<Value>
    requires k.home < |s.inbox| == |s.kv|
  {
    var pending := LastPending(s.inbox[k.home], k);
    if pending.Some? then pending
    else if k.str in s.kv[k.home] then Some(s.kv[k.home][k.str])
    else None
  }

  function LastPut(puts: seq<PutRecord>, k: Key): Option<Value> {
    if puts == [] then None
    else if puts[|puts| - 1].key == k then Some(puts[|puts| - 1].value)
    else LastPut(puts[..|puts| - 1], k)
  }

  ghost predicate SoleWriter(puts: seq<PutRecord>, k: Key, w: nat) {
    forall i :: 0 <= i < |puts| && puts[i].key == k ==> puts[i].writer == w
  }

  // ----- queues -----

  lemma PendingAppend(q: Queue, m: Message, k: Key)
    ensures LastPending(q + [m], k) == if IsPutOf(m, k) then Some(m.value) else LastPending(q, k)
  {
    assert (q + [m])[..|q|] == q;
  }

  lemma {:induction false} PendingPop(q: Queue, k: Key)
    requires q != []
    ensures LastPending(q, k) ==
      if LastPending(q[1..], k).Some? then LastPending(q[1..], k)
      else if IsPutOf(q[0], k) then Some(q[0].value) else None
  {
    if |q| > 1 && !IsPutOf(q[|q| - 1], k) {
      PendingPop(q[..|q| - 1], k);
      assert q[..|q| - 1][1..] == q[1..][..|q| - 2];
    }
  }

  lemma {:induction false} PendingNone(q: Queue, k: Key)
    ensures LastPending(q, k) == None <==> forall i :: 0 <= i < |q| ==> !IsPutOf(q[i], k)
  {
    if q != [] {
      PendingNone(q[..|q| - 1], k);
    }
  }

  /** A queue that grows by messages that are no puts of k. */
  lemma {:induction false} PendingPrefix(q: Queue, q': Queue, k: Key)
    requires q <= q' && forall j :: |q| <= j < |q'| ==> !IsPutOf(q'[j], k)
    ensures LastPending(q', k) == LastPending(q, k)
  {
    if q' != q {
      PendingPrefix(q, q'[..|q'| - 1], k);
    }
  }

  // ----- where new messages come from -----

  /** Message m is one tryToHandleCache_ sends when h answers what is cached under key. */
  ghost predicate AnswersCached(s: State, h: nat, key: Key, m: Message, x: nat)
    requires s.WellFormed() && h < s.N()
  {
    && key in s.cache[h] && key.str in s.kv[h]
    && (exists i :: 0 <= i < |s.cache[h][key]| && Is(s.cache[h][key][i], RequestOf(x)))
    && m == ReplyData(h, x, key, s.kv[h][key.str])
  }

  /** A reply carries the value its home holds for the key at that moment, or held
      when the receiver looked the request up, and goes to a node that asked. */
  ghost predicate ReplyOrigin(s: State, step: Step, m: Message, x: nat)
    requires s.WellFormed() && m.ReplyData?
  {
    && m.sender == step.n && m.sender < s.N()
    && ((step.Act? && s.recv[m.sender].Hit? && Is(s.recv[m.sender].msg, RequestOf(x))
         && m.key == s.recv[m.sender].msg.key && m.value == s.recv[m.sender].value)
        || AnswersCached(s, m.sender, m.key, m, x))
  }

  lemma AnswerOrigin(s: State, h: nat, key: Key, x: nat, j: nat)
    requires s.WellFormed() && h < s.N() && CanAnswer(s, h, key) && x < s.N()
    requires |s.inbox[x]| <= j < |AnswerCache(s, h, key).inbox[x]|
    ensures AnswersCached(s, h, key, AnswerCache(s, h, key).inbox[x][j], x)
  {
    var replies := Replies(h, key, s.kv[h][key.str], s.cache[h][key]);
    PushAllElements(s.inbox, replies, x);
    var i :| 0 <= i < |replies| && replies[i] == AnswerCache(s, h, key).inbox[x][j];
    assert Is(s.cache[h][key][i], RequestOf(x));
  }

  /** Every message a step adds to an inbox, and who sent it. */
  lemma NewMessages(s: State, step: Step, x: nat, j: nat)
    requires s.WellFormed() && Enabled(s, step) && AssertsHold(s, step) && x < s.N() && step != Pop(x)
    requires |s.inbox[x]| <= j < |Apply(s, step).inbox[x]|
    ensures var m := Apply(s, step).inbox[x][j];
      && (m.Put? ==> step == PutRemote(m.sender, m.key, m.value))
      && (m.WaitAndGet? ==> step == BeginWait(m.sender, m.key))
      && (m.ReplyData? ==> ReplyOrigin(s, step, m, x))
  {
    match step
    case AppAnswer(n) => AnswerOrigin(s, n, s.app[n].key, x, j);
    case Act(n) =>
      if s.recv[n].RecvAnswering? {
        AnswerOrigin(s, n, s.recv[n].key, x, j);
      }
    case _ =>
  }

  /** Only a remote put of k adds a PutMsg for k to a queue. */
  lemma NoPutIsSent(s: State, step: Step, h: nat, k: Key)
    requires s.WellFormed() && Enabled(s, step) && AssertsHold(s, step) && h < s.N() && step != Pop(h)
    requires step.PutRemote? ==> step.key != k
    ensures s.inbox[h] <= Apply(s, step).inbox[h]
    ensures forall j :: |s.inbox[h]| <= j < |Apply(s, step).inbox[h]| ==> !IsPutOf(Apply(s, step).inbox[h][j], k)
  {
    InboxGrows(s, step, h);
    forall j | |s.inbox[h]| <= j < |Apply(s, step).inbox[h]|
      ensures !IsPutOf(Apply(s, step).inbox[h][j], k)
    {
      NewMessages(s, step, h, j);
    }
  }

  // ----- no put is lost -----

  /** Every key that was put has a value at its home, or a value on its way there. */
  ghost predicate NoPutLost(s: State)
    requires s.WellFormed()
  {
    forall i :: 0 <= i < |s.puts| ==> s.puts[i].key.home < s.N() && Settled(s, s.puts[i].key).Some?
  }

  /** A key with one writer settles at that writer's latest put. */
  ghost predicate SettlesAtLastPut(s: State)
    requires s.WellFormed()
  {
    forall k: Key, w: nat :: k.home < s.N() && SoleWriter(s.puts, k, w) ==> Settled(s, k) == LastPut(s.puts, k)
  }

  /** A PutMsg that the receiver takes leaves its queue and is stored. */
  lemma PopKeepsSettled(s: State, k: Key)
    requires Inv(s) && k.home < s.N() && Enabled(s, Pop(k.home)) && AssertsHold(s, Pop(k.home))
    ensures Settled(Apply(s, Pop(k.home)), k) == Settled(s, k)
  {
    var m := s.inbox[k.home][0];
    assert MessageOk(s, k.home, m);
    assert k == Key(k.str, k.home) && (m.Put? ==> m.key == Key(m.key.str, k.home));
    PendingPop(s.inbox[k.home], k);
  }

  /** Steps other than the two puts leave every key where it settles. */
  lemma SettledStays(s: State, step: Step, k: Key)
    requires Inv(s) && Enabled(s, step) && AssertsHold(s, step) && k.home < s.N()
    requires !step.PutLocal? && !step.PutRemote?
    ensures Settled(Apply(s, step), k) == Settled(s, k)
  {
    var h := k.home;
    if step == Pop(h) {
      PopKeepsSettled(s, k);
    } else {
      NoPutIsSent(s, step, h, k);
      PendingPrefix(s.inbox[h], Apply(s, step).inbox[h], k);
      StoreStays(s, step, h);
    }
  }

  /** What a put does to the key it puts, and to every other key. */
  lemma PutSettles(s: State, step: Step, k: Key)
    requires Inv(s) && Enabled(s, step) && AssertsHold(s, step) && k.home < s.N()
    requires step.PutLocal? || step.PutRemote?
    ensures k != step.key ==> Settled(Apply(s, step), k) == Settled(s, k)
    ensures k == step.key ==> Settled(Apply(s, step), k).Some?
    ensures k == step.key && (step.PutRemote? || LastPending(s.inbox[k.home], k) == None) ==>
              Settled(Apply(s, step), k) == Some(step.value)
  {
    if step.PutRemote? {
      PendingAppend(s.inbox[step.key.home], Put(step.n, step.key.home, step.key, step.value), k);
    } else {
      assert k == Key(k.str, k.home) && step.key == Key(step.key.str, step.n);
    }
  }

  lemma NoPutLostStep(s: State, step: Step)
    requires Inv(s) && Enabled(s, step) && AssertsHold(s, step) && NoPutLost(s)
    ensures NoPutLost(Apply(s, step))
  {
    var s' := Apply(s, step);
    forall i | 0 <= i < |s'.puts|
      ensures s'.puts[i].key.home < s.N() && Settled(s', s'.puts[i].key).Some?
    {
      var k := s'.puts[i].key;
      if step.PutLocal? || step.PutRemote? {
        PutSettles(s, step, k);
      } else {
        PutsStay(s, step);
        SettledStays(s, step, k);
      }
    }
  }

  /** PutMsgs for a key come from other nodes, so its home's own puts overtake none
      of its own. */
  lemma HomeHasNothingPending(s: State, k: Key)
    requires Inv(s) && k.home < s.N() && SoleWriter(s.puts, k, k.home)
    ensures LastPending(s.inbox[k.home], k) == None
  {
    PendingNone(s.inbox[k.home], k);
    forall i | 0 <= i < |s.inbox[k.home]|
      ensures !IsPutOf(s.inbox[k.home][i], k)
    {
      assert MessageOk(s, k.home, s.inbox[k.home][i]);
    }
  }

  lemma SettlesAtLastPutStep(s: State, step: Step)
    requires Inv(s) && Enabled(s, step) && AssertsHold(s, step) && SettlesAtLastPut(s)
    ensures SettlesAtLastPut(Apply(s, step))
  {
    var s' := Apply(s, step);
    forall k: Key, w: nat | k.home < s.N() && SoleWriter(s'.puts, k, w)
      ensures Settled(s', k) == LastPut(s'.puts, k)
    {
      if step.PutLocal? || step.PutRemote? {
        assert s'.puts == s.puts + [PutRecord(step.n, step.key, step.value)];
        assert s'.puts[..|s.puts|] == s.puts;
        assert forall i :: 0 <= i < |s.puts| ==> s'.puts[i] == s.puts[i];
        assert SoleWriter(s.puts, k, w);
        if k == step.key {
          assert s'.puts[|s.puts|].writer == w;
          if step.PutLocal? {
            HomeHasNothingPending(s, k);
          }
        }
        PutSettles(s, step, k);
      } else {
        PutsStay(s, step);
        SettledStays(s, step, k);
      }
    }
  }

  // ----- reading one's own writes -----

  /** No put for k stands behind n's request. */
  ghost predicate PutsAhead(q: Queue, n: nat, k: Key) {
    forall i, j :: 0 <= i < j < |q| && Is(q[i], RequestOf(n)) ==> !IsPutOf(q[j], k)
  }

  /** Wherever the token of n's wait for k is, it will bring v, or already carries it. */
  ghost predicate Fresh(s: State, n: nat, k: Key, v: Value)
    requires s.WellFormed() && n < s.N() && k.home < s.N()
  {
    var h := k.home;
    && PutsAhead(s.inbox[h], n, k)
    && (Count(s.inbox[h], RequestOf(n)) == 0 ==> LastPending(s.inbox[h], k) == None)
    && (InHand(s.recv[h], n) > 0 ==> s.recv[h].Hit? && s.recv[h].value == v)
    && CachedRequests(s.cache[h], k, n) == 0
    && (forall i :: 0 <= i < |s.inbox[n]| && s.inbox[n][i].ReplyData? ==> s.inbox[n][i].value == v)
    && (k in s.cache[n] ==> forall i :: 0 <= i < |s.cache[n][k]| && s.cache[n][k][i].ReplyData? ==>
        s.cache[n][k][i].value == v)
  }

  /** n is blocked on a key that only it has put, v last. */
  ghost predicate AwaitsOwn(s: State, n: nat, k: Key, v: Value)
    requires s.WellFormed()
  {
    n < s.N() && s.app[n] == Waiting(k) && SoleWriter(s.puts, k, n) && LastPut(s.puts, k) == Some(v)
  }

  ghost predicate FreshInv(s: State)
    requires s.WellFormed()
  {
    forall n: nat, k, v :: AwaitsOwn(s, n, k, v) ==> k.home < s.N() && Fresh(s, n, k, v)
  }

  lemma FreshAtFirst(s: State, n: nat, k: Key, v: Value)
    requires Inv(s) && Enabled(s, BeginWait(n, k)) && k.home != n
    ensures Fresh(Apply(s, BeginWait(n, k)), n, k, v)
  {
    var h, m, s' := k.home, WaitAndGet(n, k.home, k), Apply(s, BeginWait(n, k));
    NobodyWaitsFor(s, n);
    CountAppend(s.inbox[h], m, RequestOf(n));
    if k in s.cache[h] {
      CountZero(s.cache[h][k], RequestOf(n));
    }
    forall i | 0 <= i < |s.inbox[h]|
      ensures !Is(s'.inbox[h][i], RequestOf(n))
    {
      assert s'.inbox[h][i] == s.inbox[h][i];
    }
  }

  lemma QueueGrowsFresh(q: Queue, q': Queue, n: nat, k: Key)
    requires q <= q' && PutsAhead(q, n, k) && (Count(q, RequestOf(n)) == 0 ==> LastPending(q, k) == None)
    requires forall j :: |q| <= j < |q'| ==> !IsPutOf(q'[j], k)
    ensures PutsAhead(q', n, k) && (Count(q', RequestOf(n)) == 0 ==> LastPending(q', k) == None)
  {
    PendingNone(q, k);
    PendingNone(q', k);
    CountPrefix(q, q', RequestOf(n));
  }

  lemma QueuePopsFresh(q: Queue, n: nat, k: Key)
    requires q != [] && PutsAhead(q, n, k) && (Count(q, RequestOf(n)) == 0 ==> LastPending(q, k) == None)
    ensures PutsAhead(q[1..], n, k) && (Count(q[1..], RequestOf(n)) == 0 ==> LastPending(q[1..], k) == None)
  {
    PendingNone(q, k);
    PendingNone(q[1..], k);
  }

  /** The home queue: requests stay behind the puts, and nothing new for k comes in. */
  lemma FreshQueue(s: State, step: Step, n: nat, k: Key, v: Value)
    requires StaysBlocked(s, step, n, k) && k.home < s.N() && Fresh(s, n, k, v)
    requires step.PutRemote? ==> step.key != k
    ensures PutsAhead(Apply(s, step).inbox[k.home], n, k)
    ensures Count(Apply(s, step).inbox[k.home], RequestOf(n)) == 0 ==>
              LastPending(Apply(s, step).inbox[k.home], k) == None
  {
    var h := k.home;
    var q, q' := s.inbox[h], Apply(s, step).inbox[h];
    if step == Pop(h) {
      assert q' == q[1..];
      QueuePopsFresh(q, n, k);
    } else {
      NoPutIsSent(s, step, h, k);
      QueueGrowsFresh(q, q', n, k);
    }
  }

  /** A request looked up after its sender's puts finds the latest of them. */
  lemma FreshLookup(s: State, n: nat, k: Key, v: Value)
    requires k.home < |s.inbox| && StaysBlocked(s, Pop(k.home), n, k) && Fresh(s, n, k, v)
    requires Settled(s, k) == Some(v)
    ensures var r := Apply(s, Pop(k.home)).recv[k.home]; InHand(r, n) > 0 ==> r.Hit? && r.value == v
  {
    var q := s.inbox[k.home];
    assert MessageOk(s, k.home, q[0]);
    if Is(q[0], RequestOf(n)) {
      PendingNone(q, k);
    }
  }

  lemma FreshRequest(s: State, step: Step, n: nat, k: Key, v: Value)
    requires StaysBlocked(s, step, n, k) && k.home < s.N() && Fresh(s, n, k, v)
    requires Settled(s, k) == Some(v)
    ensures var r := Apply(s, step).recv[k.home]; InHand(r, n) > 0 ==> r.Hit? && r.value == v
  {
    if step == Pop(k.home) {
      FreshLookup(s, n, k, v);
    } else if step == Act(k.home) {
      ReceiversRun(s, n, k);
      ActEnds(s, k.home);
    } else {
      RecvStays(s, step, k.home);
    }
  }

  lemma FreshHomeCache(s: State, step: Step, n: nat, k: Key, v: Value)
    requires StaysBlocked(s, step, n, k) && k.home < s.N() && Fresh(s, n, k, v)
    ensures CachedRequests(Apply(s, step).cache[k.home], k, n) == 0
  {
    var h := k.home;
    if k in Apply(s, step).cache[h] {
      CacheEntryGrows(s, step, h, k);
      if step == Act(h) && s.recv[h].Missed? {
        CountAppend(if k in s.cache[h] then s.cache[h][k] else [], s.recv[h].msg, RequestOf(n));
      } else if step == Pop(h) {
        CountAppend(if k in s.cache[h] then s.cache[h][k] else [], s.inbox[h][0], RequestOf(n));
      }
    }
  }

  lemma FreshReplyCache(s: State, step: Step, n: nat, k: Key, v: Value)
    requires StaysBlocked(s, step, n, k) && k.home < s.N() && Fresh(s, n, k, v)
    ensures var c: Cache := Apply(s, step).cache[n];
      k in c ==> forall i :: 0 <= i < |c[k]| && c[k][i].ReplyData? ==> c[k][i].value == v
  {
    if k in Apply(s, step).cache[n] {
      CacheEntryGrows(s, step, n, k);
      assert RecvOk(s, n);
    }
  }

  lemma NewReplyIsFresh(s: State, step: Step, n: nat, k: Key, v: Value, m: Message)
    requires StaysBlocked(s, step, n, k) && k.home < s.N() && Fresh(s, n, k, v)
    requires m.ReplyData? && ReplyOrigin(s, step, m, n)
    ensures m.value == v
  {
    var h := m.sender;
    assert RecvOk(s, h);
    if AnswersCached(s, h, m.key, m, n) {
      NobodyCachedFresh(s, n, k, v, h, m.key);
    }
  }

  lemma FreshReplies(s: State, step: Step, n: nat, k: Key, v: Value)
    requires StaysBlocked(s, step, n, k) && k.home < s.N() && Fresh(s, n, k, v)
    ensures var q': Queue := Apply(s, step).inbox[n];
      forall i :: 0 <= i < |q'| && q'[i].ReplyData? ==> q'[i].value == v
  {
    var q, q' := s.inbox[n], Apply(s, step).inbox[n];
    if step == Pop(n) {
      assert q' == q[1..];
    } else {
      InboxGrows(s, step, n);
      forall j | 0 <= j < |q'| && q'[j].ReplyData?
        ensures q'[j].value == v
      {
        if |q| <= j {
          NewMessages(s, step, n, j);
          NewReplyIsFresh(s, step, n, k, v, q'[j]);
        } else {
          assert q'[j] == q[j];
        }
      }
    }
  }

  lemma NobodyCachedFresh(s: State, n: nat, k: Key, v: Value, h: nat, key: Key)
    requires Inv(s) && n < s.N() && s.app[n] == Waiting(k) && k.home < s.N() && Fresh(s, n, k, v)
    requires h < s.N() && key in s.cache[h]
    ensures forall i :: 0 <= i < |s.cache[h][key]| ==> !Is(s.cache[h][key][i], RequestOf(n))
  {
    assert CacheOk(s, h, key, s.cache[h][key]);
    CountZero(s.cache[h][key], RequestOf(n));
  }

  lemma FreshStep(s: State, step: Step)
    requires Inv(s) && Enabled(s, step) && AssertsHold(s, step)
    requires SettlesAtLastPut(s) && FreshInv(s)
    ensures FreshInv(Apply(s, step))
  {
    var s' := Apply(s, step);
    AssertsNeverFail(s, step);
    forall n: nat, k, v | AwaitsOwn(s', n, k, v)
      ensures k.home < s.N() && Fresh(s', n, k, v)
    {
      assert AppOk(s', n);
      FreshNext(s, step, n, k, v);
    }
  }

  lemma FreshNext(s: State, step: Step, n: nat, k: Key, v: Value)
    requires Inv(s) && Enabled(s, step) && AssertsHold(s, step) && SettlesAtLastPut(s) && FreshInv(s)
    requires AwaitsOwn(Apply(s, step), n, k, v) && k.home < s.N() && k.home != n
    ensures Fresh(Apply(s, step), n, k, v)
  {
    if s.app[n] == Waiting(k) {
      AwaitedBefore(s, step, n, k, v);
      StaysFresh(s, step, n, k, v);
    } else {
      WaitBegins(s, step, n, k);
      FreshAtFirst(s, n, k, v);
    }
  }

  lemma StaysFresh(s: State, step: Step, n: nat, k: Key, v: Value)
    requires StaysBlocked(s, step, n, k) && k.home < s.N() && Fresh(s, n, k, v)
    requires Settled(s, k) == Some(v) && (step.PutRemote? ==> step.key != k)
    ensures Fresh(Apply(s, step), n, k, v)
  {
    FreshQueue(s, step, n, k, v);
    FreshRequest(s, step, n, k, v);
    FreshHomeCache(s, step, n, k, v);
    FreshReplyCache(s, step, n, k, v);
    FreshReplies(s, step, n, k, v);
  }

  /** A blocked node puts nothing, so its key's history does not move while it waits. */
  lemma AwaitedBefore(s: State, step: Step, n: nat, k: Key, v: Value)
    requires Inv(s) && Enabled(s, step) && AssertsHold(s, step) && SettlesAtLastPut(s)
    requires AwaitsOwn(Apply(s, step), n, k, v) && s.app[n] == Waiting(k) && k.home < s.N()
    ensures AwaitsOwn(s, n, k, v) && StaysBlocked(s, step, n, k)
    ensures step.PutRemote? ==> step.key != k
    ensures Settled(s, k) == Some(v)
  {
    var s' := Apply(s, step);
    if step.PutLocal? || step.PutRemote? {
      assert s'.puts == s.puts + [PutRecord(step.n, step.key, step.value)];
      assert s'.puts[..|s.puts|] == s.puts;
      assert forall i :: 0 <= i < |s.puts| ==> s'.puts[i] == s.puts[i];
      assert s'.puts[|s.puts|].writer == step.n && step.n != n;
    }
    assert SoleWriter(s.puts, k, n);
  }

  // ----- the theorems, over whole runs -----

  ghost predicate HistoryInv(s: State) {
    Inv(s) && NoPutLost(s) && SettlesAtLastPut(s) && FreshInv(s)
  }

  lemma HistoryStep(s: State, step: Step, s': State)
    requires HistoryInv(s) && Next(s, step, s') && Inv(s')
    ensures HistoryInv(s')
  {
    NoPutLostStep(s, step);
    SettlesAtLastPutStep(s, step);
    FreshStep(s, step);
  }

  lemma InitHistory(s: State)
    requires Init(s)
    ensures NoPutLost(s) && SettlesAtLastPut(s) && FreshInv(s)
  {
    forall k: Key | k.home < s.N()
      ensures Settled(s, k) == None && LastPut(s.puts, k) == None
    {
    }
  }

  lemma RunStepKeepsHistory(states: seq<State>, steps: seq<Step>, i: nat)
    requires IsRun(states, steps) && i < |steps| && HistoryInv(states[i])
    ensures HistoryInv(states[i + 1])
  {
    RunKeepsInv(states, steps, i + 1);
    assert Next(states[i], steps[i], states[i + 1]);
    HistoryStep(states[i], steps[i], states[i + 1]);
  }

  lemma {:induction false} RunKeepsHistory(states: seq<State>, steps: seq<Step>, i: nat)
    requires IsRun(states, steps) && i < |states|
    ensures HistoryInv(states[i])
  {
    if i == 0 {
      InitHistory(states[0]);
    } else {
      RunKeepsHistory(states, steps, i - 1);
      RunStepKeepsHistory(states, steps, i - 1);
    }
  }

  /** Whatever a wait returns was put for its key by some node. */
  lemma ReturnedWasPut(s: State, step: Step)
    requires Inv(s) && Enabled(s, step) && (step.FinishSpin? || step.FinishWait?)
    ensures AssertsHold(s, step)
    ensures WasPut(s, s.app[step.n].key, Returned(s, step))
  {
    AssertsNeverFail(s, step);
    var n, k := step.n, s.app[step.n].key;
    assert AppOk(s, n);
    if step.FinishWait? {
      assert CacheOk(s, n, k, s.cache[n][k]);
      assert ReplyOk(s, n, s.cache[n][k][0]);
    } else {
      assert k == Key(k.str, n);
    }
  }

  /** A key whose puts all carried v, such as one that was put once, is read as v by whoever
      waits for it, here or on another node: what a store that never changes would give. */
  lemma OneValueIsReturned(s: State, step: Step, v: Value)
    requires Inv(s) && Enabled(s, step) && (step.FinishSpin? || step.FinishWait?)
    requires forall r :: r in s.puts && r.key == s.app[step.n].key ==> r.value == v
    ensures AssertsHold(s, step) && Returned(s, step) == v
  {
    ReturnedWasPut(s, step);
    var w: nat :| PutRecord(w, s.app[step.n].key, Returned(s, step)) in s.puts;
  }

  /** A node that is the only one to have put a key reads back the value it put last,
      whether the key lives on this node or on another. */
  lemma ReadsOwnLatestPut(s: State, step: Step, v: Value)
    requires HistoryInv(s) && Enabled(s, step) && (step.FinishSpin? || step.FinishWait?)
    requires SoleWriter(s.puts, s.app[step.n].key, step.n)
    requires LastPut(s.puts, s.app[step.n].key) == Some(v)
    ensures AssertsHold(s, step)
    ensures Returned(s, step) == v
  {
    AssertsNeverFail(s, step);
    var n, k := step.n, s.app[step.n].key;
    assert AppOk(s, n);
    if step.FinishSpin? {
      HomeHasNothingPending(s, k);
    } else {
      assert AwaitsOwn(s, n, k, v);
    }
  }
}
