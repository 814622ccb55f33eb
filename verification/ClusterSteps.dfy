/**
 What one step can do to one queue, one receiver, one cache entry and one store.
 */
module ClusterSteps {
  import opened Messages
  import opened Cluster
  import opened ClusterInvariant

  lemma AnswerGrows(s: State, h: nat, k: Key, x: nat)
    requires s.WellFormed() && h < s.N() && CanAnswer(s, h, k) && x < s.N()
    ensures s.inbox[x] <= AnswerCache(s, h, k).inbox[x]
  {
    if k in s.cache[h] {
      PushAllElements(s.inbox, Replies(h, k, s.kv[h][k.str], s.cache[h][k]), x);
    }
  }

  lemma InboxGrows(s: State, step: Step, x: nat)
    requires s.WellFormed() && Enabled(s, step) && AssertsHold(s, step)
    requires x < s.N() && step != Pop(x)
    ensures s.inbox[x] <= Apply(s, step).inbox[x]
  {
    match step
    case AppAnswer(n) => AnswerGrows(s, n, s.app[n].key, x);
    case Act(n) =>
      if s.recv[n].RecvAnswering? {
        AnswerGrows(s, n, s.recv[n].key, x);
      }
    case _ =>
  }

  lemma PopTakesHead(s: State, x: nat)
    requires s.WellFormed() && Enabled(s, Pop(x)) && AssertsHold(s, Pop(x))
    ensures s.recv[x] == Idle && s.inbox[x] != [] && Apply(s, Pop(x)).inbox[x] == s.inbox[x][1..]
  {
  }

  lemma ActEnds(s: State, x: nat)
    requires s.WellFormed() && Enabled(s, Act(x)) && AssertsHold(s, Act(x)) && !s.recv[x].TearingDown?
    ensures s.recv[x] != Idle && Apply(s, Act(x)).recv[x] == Idle
  {
  }

  lemma RecvStays(s: State, step: Step, x: nat)
    requires s.WellFormed() && Enabled(s, step) && AssertsHold(s, step)
    requires x < s.N() && step != Pop(x) && step != Act(x)
    ensures Apply(s, step).recv[x] == s.recv[x]
  {
  }

  /** A cache entry only grows by the message the receiver caches. */
  lemma CacheEntryGrows(s: State, step: Step, x: nat, k: Key)
    requires s.WellFormed() && Enabled(s, step) && AssertsHold(s, step) && x < s.N()
    requires k in Apply(s, step).cache[x]
    ensures
      || (k in s.cache[x] && Apply(s, step).cache[x][k] == s.cache[x][k])
      || (step == Act(x) && s.recv[x].Missed? && s.recv[x].msg.key == k
          && Apply(s, step).cache[x][k] == (if k in s.cache[x] then s.cache[x][k] else []) + [s.recv[x].msg])
      || (step == Pop(x) && s.inbox[x][0].ReplyData? && s.inbox[x][0].key == k
          && Apply(s, step).cache[x][k] == (if k in s.cache[x] then s.cache[x][k] else []) + [s.inbox[x][0]])
  {
  }

  /** A cache entry only goes when it is answered or when its waiter takes it. */
  lemma CacheEntryStays(s: State, step: Step, x: nat, k: Key)
    requires s.WellFormed() && Enabled(s, step) && AssertsHold(s, step)
    requires x < s.N() && k in s.cache[x]
    requires !(step == FinishWait(x) && s.app[x].key == k)
    requires !(step == AppAnswer(x) && s.app[x].key == k)
    requires !(step == Act(x) && s.recv[x] == RecvAnswering(k))
    ensures k in Apply(s, step).cache[x] && s.cache[x][k] <= Apply(s, step).cache[x][k]
  {
  }

  lemma StoreStays(s: State, step: Step, h: nat)
    requires s.WellFormed() && Enabled(s, step) && AssertsHold(s, step)
    requires h < s.N() && step != Pop(h) && !step.PutLocal?
    ensures Apply(s, step).kv[h] == s.kv[h]
  {
  }

  lemma StoredStays(s: State, step: Step, h: nat, str: String)
    requires s.WellFormed() && Enabled(s, step) && AssertsHold(s, step) && h < s.N() && str in s.kv[h]
    ensures str in Apply(s, step).kv[h]
  {
  }

  lemma WaitBegins(s: State, step: Step, n: nat, k: Key)
    requires s.WellFormed() && Enabled(s, step) && AssertsHold(s, step) && n < s.N()
    requires s.app[n] != Waiting(k) && Apply(s, step).app[n] == Waiting(k)
    ensures step == BeginWait(n, k)
  {
  }

  lemma PutsStay(s: State, step: Step)
    requires s.WellFormed() && Enabled(s, step) && AssertsHold(s, step)
    requires !step.PutLocal? && !step.PutRemote?
    ensures Apply(s, step).puts == s.puts
  {
  }
}
