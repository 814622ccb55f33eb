/**
 The blocking-get and teardown protocol as a state machine over N nodes.

 Every node runs an application thread and a receiver thread.  A step is one
 action of one thread.  The places where the code holds no lock across two
 actions are places where another thread's step can come in between:
 looking a request up and then caching or answering it, and storing a value
 and then answering the requests that were waiting for it.
 */
module Cluster {
  import opened Messages

  /** Where a node's application thread is. */
  datatype AppPc =
    | Running
    | Spinning(key: Key)      // getValue on a key of this node, polling kvMap_
    | Waiting(key: Key)       // getFromNetwork_, blocked on msgCacheLock_
    | AppAnswering(key: Key)  // put: stored locally, tryToHandleCache_ still to come
    | Finished                // run_ returned and the DoneMsg was sent

  /** Where a node's receiver thread is. */
  datatype RecvPc =
    | Idle
    | Missed(msg: Message)               // request looked up and absent, not yet cached
    | Hit(msg: Message, value: Value)    // request looked up and present, not yet answered
    | RecvAnswering(key: Key)            // PutMsg stored, tryToHandleCache_ still to come
    | TearingDown(next: nat)             // sendTeardownMsgs_, next target
    | Stopped

  /** One call of put, in the order the calls were made. */
  datatype PutRecord = PutRecord(writer: nat, key: Key, value: Value)

  type Store = map<String, Value>
  type Cache = map<Key, seq<Message>>
  type Queue = seq<Message>

  /** The state of all nodes, one sequence per field, and the history of puts. */
  datatype State = State(
    kv: seq<Store>,
    cache: seq<Cache>,
    inbox: seq<Queue>,
    app: seq<AppPc>,
    recv: seq<RecvPc>,
    isDone: seq<bool>,
    puts: seq<PutRecord>)
  {
    predicate WellFormed() {
      && 0 < |kv|
      && |cache| == |kv| && |inbox| == |kv| && |app| == |kv| && |recv| == |kv| && |isDone| == |kv|
    }

    function N(): nat { |kv| }
  }

  datatype Step =
    | PutLocal(n: nat, key: Key, value: Value)
    | PutRemote(n: nat, key: Key, value: Value)
    | AppAnswer(n: nat)
    | BeginWait(n: nat, key: Key)
    | FinishSpin(n: nat)
    | FinishWait(n: nat)
    | Finish(n: nat)
    | Pop(n: nat)   // the receiver takes the head of its inbox and looks at it
    | Act(n: nat)   // the receiver finishes what the message it took asks for

  /** INetwork::sendMsg on the pseudo network: push on the target's queue. */
  function Push(inbox: seq<Queue>, m: Message): (r: seq<Queue>)
    requires m.target < |inbox|
    ensures |r| == |inbox| && r[m.target] == inbox[m.target] + [m]
    ensures forall x :: 0 <= x < |r| && x != m.target ==> r[x] == inbox[x]
  {
    inbox[m.target := inbox[m.target] + [m]]
  }

  function PushAll(inbox: seq<Queue>, ms: seq<Message>): (r: seq<Queue>)
    requires forall i :: 0 <= i < |ms| ==> ms[i].target < |inbox|
    ensures |r| == |inbox|
    decreases |ms|
  {
    if ms == [] then inbox else PushAll(Push(inbox, ms[0]), ms[1..])
  }

  /** The replies tryToHandleCache_ sends for the requests cached under k. */
  function Replies(h: nat, k: Key, v: Value, requests: seq<Message>): (r: seq<Message>)
    ensures |r| == |requests|
    ensures forall i :: 0 <= i < |r| ==> r[i] == ReplyData(h, requests[i].sender, k, v)
  {
    seq(|requests|, i requires 0 <= i < |requests| => ReplyData(h, requests[i].sender, k, v))
  }

  /** addToCache_: append to the array under k, or start one. */
  function AddToCache(cache: Cache, k: Key, m: Message): Cache {
    cache[k := (if k in cache then cache[k] else []) + [m]]
  }

  predicate AllDone(isDone: seq<bool>) {
    forall i :: 0 <= i < |isDone| ==> isDone[i]
  }

  // ----- enabling conditions: what the waiting thread's guard asks for -----

  ghost predicate Enabled(s: State, step: Step)
    requires s.WellFormed()
  {
    && step.n < s.N()
    && match step {
         case PutLocal(n, k, v) => s.app[n] == Running && k.home == n
         case PutRemote(n, k, v) => s.app[n] == Running && k.home != n && k.home < s.N()
         case AppAnswer(n) => s.app[n].AppAnswering?
         case BeginWait(n, k) => s.app[n] == Running && k.home < s.N()
         case FinishSpin(n) => s.app[n].Spinning? && s.app[n].key.str in s.kv[n]
         case FinishWait(n) => s.app[n].Waiting? && s.app[n].key in s.cache[n]
         case Finish(n) => s.app[n] == Running
         case Pop(n) => s.recv[n] == Idle && s.inbox[n] != []
         case Act(n) => s.recv[n] != Idle && s.recv[n] != Stopped
       }
  }

  /** The conditions the code asserts, or needs so as not to dereference a null
      pointer or index out of bounds, when it takes the step. */
  ghost predicate AssertsHold(s: State, step: Step)
    requires s.WellFormed() && Enabled(s, step)
  {
    match step
    case AppAnswer(n) => CanAnswer(s, n, s.app[n].key)
    case FinishWait(n) =>
      var arr := s.cache[n][s.app[n].key];
      |arr| == 1 && arr[0].ReplyData?
    case Pop(n) =>
      var m := s.inbox[n][0];
      && (m.Put? ==> m.key.home == n)
      && (m.Done? ==> n == 0 && m.sender < s.N())
    case Act(n) =>
      (match s.recv[n]
       case Missed(m) => m.WaitAndGet?
       case Hit(m, _) => m.WaitAndGet? && m.sender < s.N()
       case RecvAnswering(k) => CanAnswer(s, n, k)
       case TearingDown(i) => n == 0 && i < s.N()
       case _ => true)
    case _ => true
  }

  /** tryToHandleCache_ finds only requests, from nodes that exist, and a value to send. */
  ghost predicate CanAnswer(s: State, h: nat, k: Key)
    requires s.WellFormed() && h < s.N()
  {
    k in s.cache[h] ==>
      && k.str in s.kv[h]
      && forall i :: 0 <= i < |s.cache[h][k]| ==> s.cache[h][k][i].WaitAndGet? && s.cache[h][k][i].sender < s.N()
  }

  // ----- effects -----

  /** tryToHandleCache_: take the requests cached under k away and answer each one. */
  ghost function AnswerCache(s: State, h: nat, k: Key): (r: State)
    requires s.WellFormed() && h < s.N() && CanAnswer(s, h, k)
  {
    if k in s.cache[h] then
      s.(cache := s.cache[h := s.cache[h] - {k}],
         inbox := PushAll(s.inbox, Replies(h, k, s.kv[h][k.str], s.cache[h][k])))
    else s
  }

  /** The receiver pops the head message and does the part of its handling that
      comes before it touches anything another thread can see in between. */
  ghost function Receive(s: State, h: nat, m: Message): (r: State)
    requires s.WellFormed() && h < s.N() && (m.Done? ==> m.sender < s.N())
  {
    match m
    case WaitAndGet(_, _, k) =>
      s.(recv := s.recv[h := if k.str in s.kv[h] then Hit(m, s.kv[h][k.str]) else Missed(m)])
    case ReplyData(_, _, k, _) =>
      s.(cache := s.cache[h := AddToCache(s.cache[h], k, m)])
    case Put(_, _, k, v) =>
      s.(kv := s.kv[h := s.kv[h][k.str := v]], recv := s.recv[h := RecvAnswering(k)])
    case Done(sender, _) =>
      var d := s.isDone[sender := true];
      s.(isDone := d, recv := if AllDone(d) then s.recv[h := TearingDown(0)] else s.recv)
    case Teardown(_, _) =>
      s.(recv := s.recv[h := Stopped])
  }

  /** The receiver finishes the message it holds. */
  ghost function Complete(s: State, h: nat): (r: State)
    requires s.WellFormed() && Enabled(s, Act(h)) && AssertsHold(s, Act(h))
  {
    match s.recv[h]
    case Missed(m) =>
      s.(cache := s.cache[h := AddToCache(s.cache[h], m.key, m)], recv := s.recv[h := Idle])
    case Hit(m, v) =>
      s.(inbox := Push(s.inbox, ReplyData(h, m.sender, m.key, v)), recv := s.recv[h := Idle])
    case RecvAnswering(k) =>
      AnswerCache(s, h, k).(recv := s.recv[h := Idle])
    case TearingDown(i) =>
      s.(inbox := Push(s.inbox, Teardown(h, i)),
         recv := s.recv[h := if i + 1 < s.N() then TearingDown(i + 1) else Idle])
  }

  ghost function Apply(s: State, step: Step): (r: State)
    requires s.WellFormed() && Enabled(s, step) && AssertsHold(s, step)
    ensures r.WellFormed() && r.N() == s.N()
  {
    match step
    case PutLocal(n, k, v) =>
      s.(kv := s.kv[n := s.kv[n][k.str := v]],
         app := s.app[n := AppAnswering(k)],
         puts := s.puts + [PutRecord(n, k, v)])
    case PutRemote(n, k, v) =>
      s.(inbox := Push(s.inbox, Put(n, k.home, k, v)),
         puts := s.puts + [PutRecord(n, k, v)])
    case AppAnswer(n) =>
      AnswerCache(s, n, s.app[n].key).(app := s.app[n := Running])
    case BeginWait(n, k) =>
      if k.home == n then s.(app := s.app[n := Spinning(k)])
      else s.(inbox := Push(s.inbox, WaitAndGet(n, k.home, k)), app := s.app[n := Waiting(k)])
    case FinishSpin(n) =>
      s.(app := s.app[n := Running])
    case FinishWait(n) =>
      s.(cache := s.cache[n := s.cache[n] - {s.app[n].key}], app := s.app[n := Running])
    case Finish(n) =>
      s.(inbox := Push(s.inbox, Done(n, 0)), app := s.app[n := Finished])
    case Pop(n) =>
      Receive(s.(inbox := s.inbox[n := s.inbox[n][1..]]), n, s.inbox[n][0])
    case Act(n) =>
      Complete(s, n)
  }

  /** What the application gets when its wait ends. */
  function Returned(s: State, step: Step): Value
    requires step.FinishSpin? || step.FinishWait?
    requires step.n < |s.app| == |s.kv| == |s.cache|
    requires step.FinishSpin? ==> s.app[step.n].Spinning? && s.app[step.n].key.str in s.kv[step.n]
    requires step.FinishWait? ==>
               && s.app[step.n].Waiting? && s.app[step.n].key in s.cache[step.n]
               && |s.cache[step.n][s.app[step.n].key]| == 1
               && s.cache[step.n][s.app[step.n].key][0].ReplyData?
  {
    var k := s.app[step.n].key;
    if step.FinishSpin? then s.kv[step.n][k.str] else s.cache[step.n][k][0].value
  }

  // ----- runs -----

  ghost predicate Init(s: State) {
    && s.WellFormed()
    && (forall n :: 0 <= n < s.N() ==>
          s.kv[n] == map[] && s.cache[n] == map[] && s.inbox[n] == [] &&
          s.app[n] == Running && s.recv[n] == Idle && !s.isDone[n])
    && s.puts == []
  }

  /** The state after a step, if the step can be taken and no assertion fails. */
  ghost function After(s: State, step: Step): Option<State> {
    if s.WellFormed() && Enabled(s, step) && AssertsHold(s, step) then Some(Apply(s, step)) else None
  }

  ghost predicate Next(s: State, step: Step, s': State) {
    After(s, step) == Some(s')
  }

  /** A run: states[i] --steps[i]--> states[i+1], starting in an initial state. */
  ghost predicate IsRun(states: seq<State>, steps: seq<Step>) {
    && |states| == |steps| + 1
    && Init(states[0])
    && forall i :: 0 <= i < |steps| ==> Next(states[i], steps[i], states[i + 1])
  }
}
