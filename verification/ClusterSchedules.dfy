/**
 How long a blocked wait can last, whatever the schedule: a bound on the steps taken by
 the threads that hold its token.
 */
module ClusterSchedules {
  import opened Messages
  import opened Cluster
  import opened ClusterInvariant
  import opened ClusterSafety
  import opened ClusterSteps
  import opened ClusterRuns
  import opened ClusterLiveness
  import opened ClusterProgress
  import opened ClusterHistory
  import opened ClusterReads
  import opened ClusterWaits

  /** n is blocked on k. */
  ghost predicate Blocked(s: State, n: nat, k: Key) {
    s.WellFormed() && n < s.N() && s.app[n] == Waiting(k) && k.home < s.N()
  }

  /** The step works on the token of n's wait for k. */
  ghost predicate Works(s: State, step: Step, n: nat, k: Key) {
    Blocked(s, n, k) && WorksOn(s, step, n, k)
  }

  /** What is left to do for n: the stage its token is at, and the actions before it there. */
  ghost function Left(s: State, n: nat, k: Key): nat {
    if Blocked(s, n, k) then RankOf(s, n).stage + RankOf(s, n).actions else 0
  }

  /** The actions of n's receiver that come before n's reply, if this step queues it. */
  ghost function Behind(s: State, s': State, n: nat, k: Key): nat {
    if Blocked(s, n, k) && Blocked(s', n, k) && RankOf(s, n).stage > 1 && RankOf(s', n).stage == 1 then
      RankOf(s', n).actions
    else 0
  }

  /** n is blocked on k in all states from i to j. */
  ghost predicate BlockedThrough(states: seq<State>, i: nat, j: nat, n: nat, k: Key) {
    i <= j < |states| && forall x :: i <= x <= j ==> n < |states[x].app| && states[x].app[n] == Waiting(k)
  }

  /** How many of the steps from state i to state j work on n's token. */
  ghost function WorkDone(states: seq<State>, steps: seq<Step>, i: nat, j: nat, n: nat, k: Key): nat
    requires i <= j <= |steps| && |steps| < |states|
    decreases j
  {
    if j == i then 0
    else WorkDone(states, steps, i, j - 1, n, k) + Weight(Works(states[j - 1], steps[j - 1], n, k))
  }

  /** The actions of n's receiver that came before n's reply when it was queued, if that was
      between state i and state j.  (It is once at most, since a rank never rises.) */
  ghost function ReplyBehind(states: seq<State>, i: nat, j: nat, n: nat, k: Key): nat
    requires i <= j < |states|
    decreases j
  {
    if j == i then 0
    else ReplyBehind(states, i, j - 1, n, k) + Behind(states[j - 1], states[j], n, k)
  }

  lemma RankShape(s: State, n: nat, k: Key)
    requires Blocked(s, n, k)
    ensures RankOf(s, n).stage <= 4 && (RankOf(s, n).stage in {0, 2, 3} ==> RankOf(s, n).actions == 0)
  {
  }

  /** A step that works on the token takes one off what is left to do. */
  lemma StepCounts(s: State, step: Step, s': State, n: nat, k: Key)
    requires Inv(s) && Blocked(s, n, k) && Blocked(s', n, k) && Next(s, step, s')
    ensures Weight(Works(s, step, n, k)) + Left(s', n, k) <= Left(s, n, k) + Behind(s, s', n, k)
  {
    RankNeverRises(s, step, n, k);
    RankShape(s, n, k);
    RankShape(s', n, k);
  }

  lemma BlockedIn(s: State, n: nat, k: Key)
    requires Inv(s) && n < s.N() && s.app[n] == Waiting(k)
    ensures Blocked(s, n, k)
  {
    assert AppOk(s, n);
  }

  /** The step from state x works on the token at most once for each thing less to do. */
  ghost predicate Counts(states: seq<State>, steps: seq<Step>, x: nat, n: nat, k: Key)
    requires x < |steps| < |states|
  {
    Weight(Works(states[x], steps[x], n, k)) + Left(states[x + 1], n, k)
      <= Left(states[x], n, k) + Behind(states[x], states[x + 1], n, k)
  }

  lemma StepOfRunCounts(states: seq<State>, steps: seq<Step>, x: nat, n: nat, k: Key)
    requires IsRun(states, steps) && x < |steps| && BlockedThrough(states, x, x + 1, n, k)
    ensures Counts(states, steps, x, n, k)
  {
    RunKeepsInv(states, steps, x);
    RunKeepsInv(states, steps, x + 1);
    BlockedIn(states[x], n, k);
    BlockedIn(states[x + 1], n, k);
    assert Next(states[x], steps[x], states[x + 1]);
    StepCounts(states[x], steps[x], states[x + 1], n, k);
  }

  lemma {:induction false} CountsAddUp(states: seq<State>, steps: seq<Step>, i: nat, j: nat, n: nat, k: Key)
    requires i <= j <= |steps| && |steps| < |states|
    requires forall x :: i <= x < j ==> Counts(states, steps, x, n, k)
    ensures WorkDone(states, steps, i, j, n, k) + Left(states[j], n, k)
         <= Left(states[i], n, k) + ReplyBehind(states, i, j, n, k)
    decreases j
  {
    if j > i {
      CountsAddUp(states, steps, i, j - 1, n, k);
      assert Counts(states, steps, j - 1, n, k);
    }
  }

  /** Under every schedule: the steps that the threads holding n's token take while n is
      blocked, and what is left to do, are at most what was left to begin with and the
      receiver actions that came before n's reply when it was queued. */
  lemma WaitIsBounded(states: seq<State>, steps: seq<Step>, i: nat, j: nat, n: nat, k: Key)
    requires IsRun(states, steps) && BlockedThrough(states, i, j, n, k)
    ensures WorkDone(states, steps, i, j, n, k) + Left(states[j], n, k)
         <= Left(states[i], n, k) + ReplyBehind(states, i, j, n, k)
  {
    forall x | i <= x < j
      ensures Counts(states, steps, x, n, k)
    {
      StepOfRunCounts(states, steps, x, n, k);
    }
    CountsAddUp(states, steps, i, j, n, k);
  }

  lemma NothingLeft(s: State, n: nat, k: Key)
    requires Blocked(s, n, k) && Left(s, n, k) == 0
    ensures k in s.cache[n]
  {
  }

  /** When they have taken as many steps as that, the reply is there, and n can go on. */
  lemma EnoughWorkEndsWait(states: seq<State>, steps: seq<Step>, i: nat, j: nat, n: nat, k: Key)
    requires IsRun(states, steps) && BlockedThrough(states, i, j, n, k)
    requires WorkDone(states, steps, i, j, n, k) >= Left(states[i], n, k) + ReplyBehind(states, i, j, n, k)
    ensures states[j].WellFormed() && Enabled(states[j], FinishWait(n))
  {
    WaitIsBounded(states, steps, i, j, n, k);
    RunKeepsInv(states, steps, j);
    BlockedIn(states[j], n, k);
    NothingLeft(states[j], n, k);
  }

  /** To begin with there is the queue at the key's home. */
  lemma LeftAtFirst(s: State, n: nat, k: Key)
    requires Inv(s) && Enabled(s, BeginWait(n, k)) && k.home != n
    ensures AssertsHold(s, BeginWait(n, k))
    ensures Left(Apply(s, BeginWait(n, k)), n, k) == 4 + 2 * |s.inbox[k.home]| + Busy(s.recv[k.home])
  {
    var s' := Apply(s, BeginWait(n, k));
    AssertsNeverFail(s, BeginWait(n, k));
    NobodyWaitsFor(s, n);
    NoTokens(s, n, k);
    CountZero(s.inbox[k.home], RequestOf(n));
    CountAppend(s.inbox[k.home], WaitAndGet(n, k.home, k), RequestOf(n));
    PositionBehind(s.inbox[k.home], WaitAndGet(n, k.home, k), RequestOf(n));
    assert Tokens(s', n, k) == 1;
  }

  lemma {:induction false} PositionBehind(q: Queue, m: Message, c: Class)
    requires Count(q, c) == 0 && Is(m, c)
    ensures Position(q + [m], c) == |q|
  {
    if q != [] {
      assert (q + [m])[1..] == q[1..] + [m];
      PositionBehind(q[1..], m, c);
    }
  }

  /** In a careful run some thread can always take such a step, or n can take its reply,
      as soon as the key is stored at its home. */
  lemma CarefulWaitGoesOn(states: seq<State>, steps: seq<Step>, i: nat, n: nat, k: Key)
    requires IsRun(states, steps) && i < |states| && BlockedThrough(states, i, i, n, k)
    requires forall x :: 0 <= x < |steps| ==>
               states[x].WellFormed() && steps[x].n < states[x].N() && Careful(states[x], steps[x])
    requires k.home < |states[i].kv| && k.str in states[i].kv[k.home]
    ensures Blocked(states[i], n, k) && After(states[i], NextStep(states[i], n, k)).Some?
    ensures NextStep(states[i], n, k) == FinishWait(n) || Works(states[i], NextStep(states[i], n, k), n, k)
  {
    RunKeepsInv(states, steps, i);
    BlockedIn(states[i], n, k);
    CarefulRun(states, steps, i);
    CarefulNeedsNoPut(states[i], n, k);
    NextStepIsTaken(states[i], n, k);
    NextStepWorks(states[i], n, k);
  }
}
