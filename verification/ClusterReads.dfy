/**
 Which value a wait returns, over whole runs and for any number of writers and readers:
 one that the key's home held while the wait lasted.
 */
module ClusterReads {
  import opened Messages
  import opened Cluster
  import opened ClusterInvariant
  import opened ClusterSteps
  import opened ClusterSafety
  import opened ClusterRuns
  import opened ClusterProgress
  import opened ClusterHistory

  /** The home of k holds the value v for it. */
  predicate Holds(s: State, k: Key, v: Value) {
    k.home < |s.kv| && k.str in s.kv[k.home] && s.kv[k.home][k.str] == v
  }

  function HeldValue(s: State, k: Key): set<Value> {
    if k.home < |s.kv| && k.str in s.kv[k.home] then {s.kv[k.home][k.str]} else {}
  }

  /** The values the home of k held in the states from b to i. */
  function HeldValues(states: seq<State>, k: Key, b: nat, i: nat): set<Value>
    requires b <= i < |states|
    decreases i
  {
    (if i == b then {} else HeldValues(states, k, b, i - 1)) + HeldValue(states[i], k)
  }

  lemma {:induction false} HeldSometime(states: seq<State>, k: Key, b: nat, i: nat, v: Value) returns (j: nat)
    requires b <= i < |states| && v in HeldValues(states, k, b, i)
    ensures b <= j <= i && Holds(states[j], k, v)
  {
    if v in HeldValue(states[i], k) {
      j := i;
    } else {
      j := HeldSometime(states, k, b, i - 1, v);
    }
  }

  function ReplyValues(q: Queue): set<Value> {
    set i | 0 <= i < |q| && q[i].ReplyData? :: q[i].value
  }

  function ValueInHand(r: RecvPc, n: nat): set<Value> {
    if InHand(r, n) > 0 && r.Hit? then {r.value} else {}
  }

  /** If n is blocked on the remote key k: the values of the replies that are queued or
      have arrived, of the one the home is about to send, and of the home's store. */
  ghost function MayReturn(s: State, n: nat, k: Key): Option<set<Value>> {
    if s.WellFormed() && n < s.N() && k.home < s.N() && s.app[n] == Waiting(k) then
      Some(ReplyValues(s.inbox[n]) + (if k in s.cache[n] then ReplyValues(s.cache[n][k]) else {})
           + ValueInHand(s.recv[k.home], n) + HeldValue(s, k))
    else None
  }

  /** A new reply to n was looked up before, or is read from the store in this step. */
  lemma NewReplyIsHeld(s: State, step: Step, n: nat, k: Key, m: Message)
    requires StaysBlocked(s, step, n, k) && k.home < s.N() && m.ReplyData? && ReplyOrigin(s, step, m, n)
    ensures m.value in ValueInHand(s.recv[k.home], n) + HeldValue(s, k)
  {
    var h := m.sender;
    assert RecvOk(s, h);
    if AnswersCached(s, h, m.key, m, n) {
      assert CacheOk(s, h, m.key, s.cache[h][m.key]);
    }
  }

  lemma NextReplyValue(s: State, step: Step, n: nat, k: Key, j: nat)
    requires StaysBlocked(s, step, n, k) && k.home < s.N()
    requires j < |Apply(s, step).inbox[n]| && Apply(s, step).inbox[n][j].ReplyData?
    ensures Apply(s, step).inbox[n][j].value in
              ReplyValues(s.inbox[n]) + ValueInHand(s.recv[k.home], n) + HeldValue(s, k)
  {
    var q, q' := s.inbox[n], Apply(s, step).inbox[n];
    if step == Pop(n) {
      PopTakesHead(s, n);
      assert q'[j] == q[j + 1];
    } else {
      InboxGrows(s, step, n);
      if j < |q| {
        assert q'[j] == q[j];
      } else {
        NewMessages(s, step, n, j);
        NewReplyIsHeld(s, step, n, k, q'[j]);
      }
    }
  }

  lemma QueuedReplyValues(s: State, step: Step, n: nat, k: Key)
    requires StaysBlocked(s, step, n, k) && k.home < s.N()
    ensures ReplyValues(Apply(s, step).inbox[n]) <=
            ReplyValues(s.inbox[n]) + ValueInHand(s.recv[k.home], n) + HeldValue(s, k)
  {
    forall j | 0 <= j < |Apply(s, step).inbox[n]| && Apply(s, step).inbox[n][j].ReplyData?
      ensures Apply(s, step).inbox[n][j].value in
                ReplyValues(s.inbox[n]) + ValueInHand(s.recv[k.home], n) + HeldValue(s, k)
    {
      NextReplyValue(s, step, n, k, j);
    }
  }

  lemma CachedReplyValues(s: State, step: Step, n: nat, k: Key)
    requires StaysBlocked(s, step, n, k) && k in Apply(s, step).cache[n]
    ensures ReplyValues(Apply(s, step).cache[n][k]) <=
            ReplyValues(s.inbox[n]) + if k in s.cache[n] then ReplyValues(s.cache[n][k]) else {}
  {
    CacheEntryGrows(s, step, n, k);
    assert RecvOk(s, n);
  }

  /** What the home receiver looks up for n is what the store holds. */
  lemma LookupIsHeld(s: State, step: Step, n: nat, k: Key)
    requires StaysBlocked(s, step, n, k) && k.home < s.N()
    ensures ValueInHand(Apply(s, step).recv[k.home], n) <= ValueInHand(s.recv[k.home], n) + HeldValue(s, k)
  {
    ReceiversRun(s, n, k);
    var h := k.home;
    if step == Pop(h) {
      assert MessageOk(s, h, s.inbox[h][0]);
    } else if step != Act(h) {
      RecvStays(s, step, h);
    }
  }

  /** In every step of a wait: what it may return afterwards is what it might have
      returned before, or what the home holds now. */
  lemma MayReturnStep(s: State, step: Step, n: nat, k: Key)
    requires StaysBlocked(s, step, n, k) && k.home < s.N()
    ensures var s' := Apply(s, step);
      MayReturn(s, n, k).Some? && MayReturn(s', n, k).Some?
      && MayReturn(s', n, k).value <= MayReturn(s, n, k).value + HeldValue(s', k)
  {
    BlockedFacts(s, step, n, k);
    QueuedReplyValues(s, step, n, k);
    LookupIsHeld(s, step, n, k);
    if k in Apply(s, step).cache[n] {
      CachedReplyValues(s, step, n, k);
    }
  }

  /** When a wait begins no reply to it is anywhere. */
  lemma MayReturnAtFirst(s: State, n: nat, k: Key)
    requires Inv(s) && Enabled(s, BeginWait(n, k)) && k.home != n
    ensures var s' := Apply(s, BeginWait(n, k));
      MayReturn(s', n, k).Some? && MayReturn(s', n, k).value <= HeldValue(s', k)
  {
    NobodyWaitsFor(s, n);
  }

  // ----- the wait that a finish ends -----

  /** n is blocked in a wait for k, local or remote. */
  predicate BlockedOn(pc: AppPc, k: Key) {
    pc == Waiting(k) || pc == Spinning(k)
  }

  /** From step b on, up to state i, n is blocked in one wait for k. */
  ghost predicate OneWait(states: seq<State>, steps: seq<Step>, b: nat, i: nat, n: nat, k: Key) {
    && IsRun(states, steps) && b < i < |states| && steps[b] == BeginWait(n, k)
    && n < |states[i].app| && BlockedOn(states[i].app[n], k)
    && (forall x :: b < x <= i ==> n < |states[x].app| && states[x].app[n] == states[i].app[n])
  }

  lemma BlockedSinceBegin(s: State, step: Step, s': State, n: nat, k: Key)
    requires Next(s, step, s') && n < s'.N() && BlockedOn(s'.app[n], k)
    ensures n < s.N() && (s.app[n] == s'.app[n] || step == BeginWait(n, k))
  {
  }

  /** Whoever is blocked began to wait at some step, for that key, and was blocked since. */
  lemma {:induction false} WaitBegan(states: seq<State>, steps: seq<Step>, i: nat, n: nat, k: Key) returns (b: nat)
    requires IsRun(states, steps) && i < |states| && n < |states[i].app| && BlockedOn(states[i].app[n], k)
    ensures OneWait(states, steps, b, i, n, k)
  {
    assert i > 0;
    assert Next(states[i - 1], steps[i - 1], states[i - 1 + 1]);
    BlockedSinceBegin(states[i - 1], steps[i - 1], states[i], n, k);
    if states[i - 1].app[n] == states[i].app[n] {
      b := WaitBegan(states, steps, i - 1, n, k);
    } else {
      b := i - 1;
    }
  }

  lemma MayReturnNext(s: State, step: Step, s': State, n: nat, k: Key)
    requires Inv(s) && Next(s, step, s') && n < s'.N() && s'.app[n] == Waiting(k)
    requires step == BeginWait(n, k) || MayReturn(s, n, k).Some?
    ensures MayReturn(s', n, k).Some?
    ensures MayReturn(s', n, k).value <=
            (if step == BeginWait(n, k) then {} else MayReturn(s, n, k).value) + HeldValue(s', k)
  {
    AssertsNeverFail(s, step);
    assert AppOk(s', n);
    if step == BeginWait(n, k) {
      MayReturnAtFirst(s, n, k);
    } else {
      MayReturnStep(s, step, n, k);
    }
  }

  lemma MayReturnInRun(states: seq<State>, steps: seq<Step>, i: nat, n: nat, k: Key)
    requires IsRun(states, steps) && i < |steps| && n < |states[i + 1].app| && states[i + 1].app[n] == Waiting(k)
    requires steps[i] == BeginWait(n, k) || MayReturn(states[i], n, k).Some?
    ensures MayReturn(states[i + 1], n, k).Some?
    ensures MayReturn(states[i + 1], n, k).value <=
            (if steps[i] == BeginWait(n, k) then {} else MayReturn(states[i], n, k).value) + HeldValue(states[i + 1], k)
  {
    RunKeepsInv(states, steps, i);
    assert Next(states[i], steps[i], states[i + 1]);
    MayReturnNext(states[i], steps[i], states[i + 1], n, k);
  }

  /** What n's wait for k may return in state i + 1, it might in state i or the home holds in i + 1. */
  ghost predicate StepsAddHeld(states: seq<State>, b: nat, e: nat, n: nat, k: Key)
    requires b < e < |states|
  {
    forall i :: b <= i < e ==>
      var may, may' := MayReturn(states[i], n, k), MayReturn(states[i + 1], n, k);
      && (i == b || may.Some? ==> may'.Some?)
      && (i == b || may.Some? ==> may'.value <= (if i == b then {} else may.value) + HeldValue(states[i + 1], k))
  }

  lemma WaitAddsHeld(states: seq<State>, steps: seq<Step>, b: nat, e: nat, n: nat, k: Key)
    requires OneWait(states, steps, b, e, n, k) && states[e].app[n] == Waiting(k)
    ensures StepsAddHeld(states, b, e, n, k)
  {
    forall i | b <= i < e && (i == b || MayReturn(states[i], n, k).Some?)
      ensures var may, may' := MayReturn(states[i], n, k), MayReturn(states[i + 1], n, k);
        may'.Some? && may'.value <= (if i == b then {} else may.value) + HeldValue(states[i + 1], k)
    {
      MayReturnInRun(states, steps, i, n, k);
    }
  }

  /** All through a wait, whatever it may return was held by the home since it began. */
  lemma {:induction false} MayReturnWasHeld(states: seq<State>, b: nat, e: nat, i: nat, n: nat, k: Key)
    requires b < i <= e < |states| && StepsAddHeld(states, b, e, n, k)
    ensures MayReturn(states[i], n, k).Some? && MayReturn(states[i], n, k).value <= HeldValues(states, k, b, i)
  {
    if i > b + 1 {
      MayReturnWasHeld(states, b, e, i - 1, n, k);
    }
    assert MayReturn(states[i - 1 + 1], n, k) == MayReturn(states[i], n, k);
  }

  /** Value soundness: the value a wait returns is one that the key's home held at some
      moment from the call to the return, whoever put it and however often. */
  lemma ReturnedWasHeld(states: seq<State>, steps: seq<Step>, e: nat, n: nat, k: Key) returns (b: nat, j: nat)
    requires IsRun(states, steps) && e < |steps| && (steps[e] == FinishWait(n) || steps[e] == FinishSpin(n))
    requires n < |states[e].app| && BlockedOn(states[e].app[n], k)
    ensures OneWait(states, steps, b, e, n, k) && b <= j <= e
    ensures states[e].WellFormed() && Enabled(states[e], steps[e]) && AssertsHold(states[e], steps[e])
    ensures Holds(states[j], k, Returned(states[e], steps[e]))
  {
    RunKeepsInv(states, steps, e);
    assert Next(states[e], steps[e], states[e + 1]);
    b := WaitBegan(states, steps, e, n, k);
    assert AppOk(states[e], n);
    if steps[e].FinishSpin? {
      j := e;
    } else {
      WaitAddsHeld(states, steps, b, e, n, k);
      MayReturnWasHeld(states, b, e, e, n, k);
      assert states[e].cache[n][k][0].value in ReplyValues(states[e].cache[n][k]);
      j := HeldSometime(states, k, b, e, Returned(states[e], steps[e]));
    }
  }
}
