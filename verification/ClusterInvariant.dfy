/**
 The inductive invariant of the protocol: who owns which message, how many
 tokens a blocked wait owns, and where the Done and Teardown messages are.
 */
module ClusterInvariant {
  import opened Messages
  import opened Cluster

  // ----- counting messages in a queue -----

  datatype Class = RequestOf(n: nat) | AnyReply | DoneOf(n: nat) | AnyTeardown

  predicate Is(m: Message, c: Class) {
    match c
    case RequestOf(n) => m.WaitAndGet? && m.sender == n
    case AnyReply => m.ReplyData?
    case DoneOf(n) => m.Done? && m.sender == n
    case AnyTeardown => m.Teardown?
  }

  function Weight(b: bool): nat { if b then 1 else 0 }

  function Count(q: Queue, c: Class): nat {
    if q == [] then 0 else Weight(Is(q[0], c)) + Count(q[1..], c)
  }

  lemma {:induction false} CountAppend(q: Queue, m: Message, c: Class)
    ensures Count(q + [m], c) == Count(q, c) + Weight(Is(m, c))
  {
    if q != [] {
      assert (q + [m])[1..] == q[1..] + [m];
      CountAppend(q[1..], m, c);
    }
  }

  lemma {:induction false} CountZero(q: Queue, c: Class)
    ensures Count(q, c) == 0 <==> forall i :: 0 <= i < |q| ==> !Is(q[i], c)
  {
    if q != [] {
      CountZero(q[1..], c);
      assert forall i :: 1 <= i < |q| ==> q[i] == q[1..][i - 1];
    }
  }

  /** How many of ms are sent to x and belong to c. */
  function CountTo(ms: seq<Message>, x: nat, c: Class): nat {
    if ms == [] then 0 else Weight(ms[0].target == x && Is(ms[0], c)) + CountTo(ms[1..], x, c)
  }

  lemma {:induction false} PushAllCount(inbox: seq<Queue>, ms: seq<Message>, x: nat, c: Class)
    requires x < |inbox|
    requires forall i :: 0 <= i < |ms| ==> ms[i].target < |inbox|
    ensures Count(PushAll(inbox, ms)[x], c) == Count(inbox[x], c) + CountTo(ms, x, c)
    decreases |ms|
  {
    if ms != [] {
      PushAllCount(Push(inbox, ms[0]), ms[1..], x, c);
      CountAppend(inbox[x], ms[0], c);
    }
  }

  /** PushAll only appends, and what it appends to x is some of ms, sent to x. */
  lemma {:induction false} PushAllElements(inbox: seq<Queue>, ms: seq<Message>, x: nat)
    requires x < |inbox|
    requires forall i :: 0 <= i < |ms| ==> ms[i].target < |inbox|
    ensures inbox[x] <= PushAll(inbox, ms)[x]
    ensures forall j :: |inbox[x]| <= j < |PushAll(inbox, ms)[x]| ==>
              PushAll(inbox, ms)[x][j] in ms && PushAll(inbox, ms)[x][j].target == x
    decreases |ms|
  {
    if ms != [] {
      PushAllElements(Push(inbox, ms[0]), ms[1..], x);
    }
  }

  lemma {:induction false} RepliesCount(h: nat, k: Key, v: Value, requests: seq<Message>, x: nat, c: Class)
    requires forall i :: 0 <= i < |requests| ==> requests[i].WaitAndGet?
    ensures CountTo(Replies(h, k, v, requests), x, c) == if c == AnyReply then Count(requests, RequestOf(x)) else 0
    decreases |requests|
  {
    var r := Replies(h, k, v, requests);
    if requests != [] {
      assert r[1..] == Replies(h, k, v, requests[1..]);
      RepliesCount(h, k, v, requests[1..], x, c);
    }
  }

  /** Answering the requests cached under k sends x as many replies as x has requests there,
      and nobody a request. */
  lemma AnswerCounts(s: State, h: nat, k: Key, x: nat, y: nat)
    requires s.WellFormed() && h < s.N() && CanAnswer(s, h, k) && k in s.cache[h] && x < s.N() && y < s.N()
    ensures Count(AnswerCache(s, h, k).inbox[x], AnyReply)
         == Count(s.inbox[x], AnyReply) + Count(s.cache[h][k], RequestOf(x))
    ensures Count(AnswerCache(s, h, k).inbox[y], RequestOf(x)) == Count(s.inbox[y], RequestOf(x))
  {
    var v, ms := s.kv[h][k.str], s.cache[h][k];
    var replies := Replies(h, k, v, ms);
    PushAllCount(s.inbox, replies, x, AnyReply);
    RepliesCount(h, k, v, ms, x, AnyReply);
    PushAllCount(s.inbox, replies, y, RequestOf(x));
    RepliesCount(h, k, v, ms, y, RequestOf(x));
  }

  // ----- every message has an owner -----

  ghost predicate WasPut(s: State, k: Key, v: Value) {
    exists w: nat :: PutRecord(w, k, v) in s.puts
  }

  /** A request at its home node, whose sender is blocked on exactly that key. */
  ghost predicate RequestOk(s: State, h: nat, m: Message)
    requires s.WellFormed()
  {
    && m.WaitAndGet? && m.key.home == h && m.sender != h
    && m.sender < s.N() && s.app[m.sender] == Waiting(m.key)
  }

  /** A reply at a node blocked on exactly that key, carrying a value somebody put. */
  ghost predicate ReplyOk(s: State, n: nat, m: Message)
    requires s.WellFormed() && n < s.N()
  {
    && m.ReplyData? && m.key.home != n && m.key.home < s.N()
    && s.app[n] == Waiting(m.key) && WasPut(s, m.key, m.value)
  }

  ghost predicate MessageOk(s: State, h: nat, m: Message)
    requires s.WellFormed() && h < s.N()
  {
    && m.target == h && m.sender < s.N()
    && match m
       case WaitAndGet(_, _, _) => RequestOk(s, h, m)
       case ReplyData(_, _, _, _) => ReplyOk(s, h, m)
       case Put(w, _, k, v) => k.home == h && w != h && PutRecord(w, k, v) in s.puts
       case Done(n, _) => h == 0 && s.app[n] == Finished
       case Teardown(_, _) => AllDone(s.isDone)
  }

  ghost predicate InboxInv(s: State)
    requires s.WellFormed()
  {
    forall h, i :: 0 <= h < s.N() && 0 <= i < |s.inbox[h]| ==> MessageOk(s, h, s.inbox[h][i])
  }

  /** A cache entry holds requests at the key's home and replies anywhere else. */
  ghost predicate CacheOk(s: State, h: nat, k: Key, ms: seq<Message>)
    requires s.WellFormed() && h < s.N()
  {
    && ms != []
    && forall i :: 0 <= i < |ms| ==>
         && (if k.home == h then RequestOk(s, h, ms[i]) else ReplyOk(s, h, ms[i]))
         && ms[i].key == k
  }

  ghost predicate CacheInv(s: State)
    requires s.WellFormed()
  {
    forall h, k :: 0 <= h < s.N() && k in s.cache[h] ==> CacheOk(s, h, k, s.cache[h][k])
  }

  ghost predicate RecvOk(s: State, h: nat)
    requires s.WellFormed() && h < s.N()
  {
    match s.recv[h]
    case Idle => true
    case Missed(m) => RequestOk(s, h, m)
    case Hit(m, v) => RequestOk(s, h, m) && WasPut(s, m.key, v)
    case RecvAnswering(k) => k.home == h && k.str in s.kv[h]
    case TearingDown(i) => h == 0 && i < s.N() && AllDone(s.isDone)
    case Stopped => AllDone(s.isDone) && s.inbox[h] == []
  }

  ghost predicate RecvInv(s: State)
    requires s.WellFormed()
  {
    forall h :: 0 <= h < s.N() ==> RecvOk(s, h)
  }

  ghost predicate AppOk(s: State, n: nat)
    requires s.WellFormed() && n < s.N()
  {
    match s.app[n]
    case Spinning(k) => k.home == n
    case Waiting(k) => k.home != n && k.home < s.N()
    case AppAnswering(k) => k.home == n && k.str in s.kv[n]
    case _ => true
  }

  ghost predicate AppInv(s: State)
    requires s.WellFormed()
  {
    forall n :: 0 <= n < s.N() ==> AppOk(s, n)
  }

  /** A store holds only values that were put for its own keys. */
  ghost predicate StoreInv(s: State)
    requires s.WellFormed()
  {
    forall h, str :: 0 <= h < s.N() && str in s.kv[h] ==> WasPut(s, Key(str, h), s.kv[h][str])
  }

  // ----- how many -----

  function InHand(r: RecvPc, n: nat): nat {
    Weight((r.Missed? || r.Hit?) && Is(r.msg, RequestOf(n)))
  }

  function CachedRequests(c: Cache, k: Key, n: nat): nat {
    if k in c then Count(c[k], RequestOf(n)) else 0
  }

  function CachedReplies(c: Cache, k: Key): nat {
    if k in c then |c[k]| else 0
  }

  /** What the receiver caches under k counts there and nowhere else. */
  lemma AddToCacheCounts(c: Cache, k: Key, m: Message, key: Key, n: nat)
    ensures CachedRequests(AddToCache(c, k, m), key, n)
         == CachedRequests(c, key, n) + Weight(key == k && Is(m, RequestOf(n)))
    ensures key != k ==> CachedReplies(AddToCache(c, k, m), key) == CachedReplies(c, key)
  {
    CountAppend(if k in c then c[k] else [], m, RequestOf(n));
  }

  /** The tokens of node n's wait for k: its request at the key's home (queued, in
      the receiver's hands, or cached) and its reply at n (queued or cached). */
  function Tokens(s: State, n: nat, k: Key): nat
    requires n < |s.inbox| == |s.cache| == |s.recv| && k.home < |s.inbox|
  {
    Count(s.inbox[k.home], RequestOf(n)) + InHand(s.recv[k.home], n) + CachedRequests(s.cache[k.home], k, n)
    + Count(s.inbox[n], AnyReply) + CachedReplies(s.cache[n], k)
  }

  ghost predicate TokenInv(s: State)
    requires s.WellFormed()
  {
    forall n :: 0 <= n < s.N() && s.app[n].Waiting? && s.app[n].key.home < s.N() ==> Tokens(s, n, s.app[n].key) == 1
  }

  /** Each finished node has exactly one Done: queued at the server, or counted there. */
  ghost predicate DoneInv(s: State)
    requires s.WellFormed()
  {
    forall n :: 0 <= n < s.N() ==>
      Count(s.inbox[0], DoneOf(n)) + Weight(s.isDone[n]) == Weight(s.app[n] == Finished)
  }

  /** The server has sent node n its Teardown. */
  ghost predicate TeardownSent(s: State, n: nat)
    requires s.WellFormed()
  {
    AllDone(s.isDone) && (s.recv[0].TearingDown? ==> n < s.recv[0].next)
  }

  /** A Teardown that was sent is still queued or was obeyed, and there is one per node. */
  ghost predicate TeardownInv(s: State)
    requires s.WellFormed()
  {
    forall n :: 0 <= n < s.N() ==>
      Count(s.inbox[n], AnyTeardown) + Weight(s.recv[n] == Stopped) == Weight(TeardownSent(s, n))
  }

  /** Nothing is queued behind a Teardown. */
  ghost predicate TeardownLast(s: State)
    requires s.WellFormed()
  {
    forall n, i :: 0 <= n < s.N() && 0 <= i < |s.inbox[n]| && s.inbox[n][i].Teardown? ==> i == |s.inbox[n]| - 1
  }

  /** Every message, wait and stored value has its owner. */
  ghost predicate OwnersInv(s: State)
    requires s.WellFormed()
  {
    InboxInv(s) && CacheInv(s) && RecvInv(s) && AppInv(s) && StoreInv(s)
  }

  ghost predicate Inv(s: State) {
    s.WellFormed() && OwnersInv(s) && TokenInv(s) && DoneInv(s) && TeardownInv(s) && TeardownLast(s)
  }
}
