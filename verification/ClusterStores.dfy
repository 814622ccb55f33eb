/**
 The protocol behaves like one map for all nodes, which is what the column store takes
 the stores for, as long as every key is put with one value only.  The keys of frames
 and blocks see to that.
 */
module ClusterStores {
  import opened Messages
  import opened Cluster
  import opened ClusterInvariant
  import opened ClusterSteps
  import opened ClusterRuns
  import opened ClusterHistory
  import BlockKeys
  import ColumnStore

  // ----- the map -----

  /** The map for all nodes after the puts, in the order in which they were made. */
  function Data(puts: seq<PutRecord>): map<Key, Value> {
    if puts == [] then map[]
    else
      var last := puts[|puts| - 1];
      Data(puts[..|puts| - 1])[last.key := last.value]
  }

  /** All puts of a key carry the same value. */
  ghost predicate OneValueEach(puts: seq<PutRecord>) {
    forall q, r :: q in puts && r in puts && q.key == r.key ==> q.value == r.value
  }

  lemma DataMore(puts: seq<PutRecord>, r: PutRecord)
    ensures Data(puts + [r]) == Data(puts)[r.key := r.value]
  {
    assert (puts + [r])[..|puts|] == puts;
  }

  lemma {:induction false} DataHolds(puts: seq<PutRecord>, r: PutRecord)
    requires OneValueEach(puts) && r in puts
    ensures r.key in Data(puts) && Data(puts)[r.key] == r.value
  {
    var last := puts[|puts| - 1];
    assert last in puts;
    if last.key != r.key {
      DataHolds(puts[..|puts| - 1], r);
    }
  }

  lemma PutIsRecorded(s: State, step: Step)
    requires s.WellFormed() && Enabled(s, step) && AssertsHold(s, step) && (step.PutLocal? || step.PutRemote?)
    ensures Apply(s, step).puts == s.puts + [PutRecord(step.n, step.key, step.value)]
  {
  }

  /** A put puts to the map, any other step leaves it. */
  lemma StepFillsMap(s: State, step: Step)
    requires s.WellFormed() && Enabled(s, step) && AssertsHold(s, step)
    ensures s.puts <= Apply(s, step).puts
    ensures Data(Apply(s, step).puts) ==
            if step.PutLocal? || step.PutRemote? then Data(s.puts)[step.key := step.value] else Data(s.puts)
  {
    if step.PutLocal? || step.PutRemote? {
      PutIsRecorded(s, step);
      DataMore(s.puts, PutRecord(step.n, step.key, step.value));
    } else {
      PutsStay(s, step);
    }
  }

  /** A wait ends when the map has its key, and returns the value it has there. */
  lemma WaitReadsMap(s: State, step: Step)
    requires Inv(s) && Enabled(s, step) && (step.FinishSpin? || step.FinishWait?) && OneValueEach(s.puts)
    ensures AssertsHold(s, step)
    ensures s.app[step.n].key in Data(s.puts) && Returned(s, step) == Data(s.puts)[s.app[step.n].key]
  {
    ReturnedWasPut(s, step);
    var w: nat :| PutRecord(w, s.app[step.n].key, Returned(s, step)) in s.puts;
    DataHolds(s.puts, PutRecord(w, s.app[step.n].key, Returned(s, step)));
  }

  lemma {:induction false} PutsGrow(states: seq<State>, steps: seq<Step>, i: nat, j: nat)
    requires IsRun(states, steps) && i <= j < |states|
    ensures states[i].puts <= states[j].puts
    decreases j
  {
    if i < j {
      PutsGrow(states, steps, i, j - 1);
      assert Next(states[j - 1], steps[j - 1], states[j - 1 + 1]);
      StepFillsMap(states[j - 1], steps[j - 1]);
    }
  }

  /** Each step of a run in which every key is put with one value is a put to the map, or the
      end of a wait for a key that the map has, with the value it has, or leaves the map. */
  lemma RunOnMap(states: seq<State>, steps: seq<Step>, i: nat)
    requires IsRun(states, steps) && i < |steps| && OneValueEach(states[|steps|].puts)
    ensures Inv(states[i]) && Enabled(states[i], steps[i]) && AssertsHold(states[i], steps[i])
    ensures Data(states[i + 1].puts) ==
            if steps[i].PutLocal? || steps[i].PutRemote? then Data(states[i].puts)[steps[i].key := steps[i].value]
            else Data(states[i].puts)
    ensures steps[i].FinishSpin? || steps[i].FinishWait? ==>
              && states[i].app[steps[i].n].key in Data(states[i].puts)
              && Returned(states[i], steps[i]) == Data(states[i].puts)[states[i].app[steps[i].n].key]
  {
    RunKeepsInv(states, steps, i);
    assert Next(states[i], steps[i], states[i + 1]);
    StepFillsMap(states[i], steps[i]);
    if steps[i].FinishSpin? || steps[i].FinishWait? {
      PutsGrow(states, steps, i, |steps|);
      WaitReadsMap(states[i], steps[i]);
    }
  }

  // ----- the keys of frames and their blocks -----

  /** What is put for the frames of a program: each frame, and the blocks of its columns. */
  datatype Part = Whole(frame: nat) | BlockOf(frame: nat, col: nat, block: nat)

  function PartKey(p: Part, frames: seq<Key>, numNodes: nat): Key
    requires p.frame < |frames| && numNodes > 0
  {
    match p
    case Whole(f) => frames[f]
    case BlockOf(f, col, block) => BlockKeys.GenKey(frames[f].str, col, block, numNodes)
  }

  ghost predicate KeptApart(frames: seq<Key>, numNodes: nat)
    requires numNodes > 0
  {
    forall i, j :: 0 <= i < |frames| && 0 <= j < |frames| && i != j ==>
      ColumnStore.Independent(frames[i], frames[j], numNodes)
  }

  lemma WholeIsNoBlock(f: nat, p: Part, frames: seq<Key>, numNodes: nat)
    requires numNodes > 0 && KeptApart(frames, numNodes) && f < |frames| && p.frame < |frames| && p.BlockOf?
    ensures frames[f] != PartKey(p, frames, numNodes)
  {
    assert ColumnStore.IsBlockKey(PartKey(p, frames, numNodes), frames[p.frame].str, numNodes);
    assert |PartKey(p, frames, numNodes).str| > |frames[p.frame].str|;
    assert f != p.frame ==> ColumnStore.Independent(frames[f], frames[p.frame], numNodes);
  }

  lemma FramesDiffer(f: nat, g: nat, frames: seq<Key>, numNodes: nat)
    requires numNodes > 0 && KeptApart(frames, numNodes) && f < |frames| && g < |frames|
    ensures f != g ==> frames[f].str != frames[g].str
  {
    if f != g {
      assert ColumnStore.Independent(frames[f], frames[g], numNodes);
    }
  }

  /** No two parts have the same key. */
  lemma PartsHaveOwnKeys(p: Part, q: Part, frames: seq<Key>, numNodes: nat)
    requires numNodes > 0 && KeptApart(frames, numNodes) && p.frame < |frames| && q.frame < |frames|
    requires PartKey(p, frames, numNodes) == PartKey(q, frames, numNodes)
    ensures p == q
  {
    FramesDiffer(p.frame, q.frame, frames, numNodes);
    if p.BlockOf? && q.BlockOf? {
      BlockKeys.KeysNeverCollide(frames[p.frame].str, p.col, p.block, frames[q.frame].str, q.col, q.block, numNodes);
    } else if p.BlockOf? {
      WholeIsNoBlock(q.frame, p, frames, numNodes);
    } else if q.BlockOf? {
      WholeIsNoBlock(p.frame, q, frames, numNodes);
    }
  }

  /** The record is a put of the part with its bytes. */
  predicate IsPutOfPart(r: PutRecord, p: Part, frames: seq<Key>, numNodes: nat, bytes: Part -> Value)
    requires numNodes > 0
  {
    p.frame < |frames| && r.key == PartKey(p, frames, numNodes) && r.value == bytes(p)
  }

  /** Only parts of the frames are put, each with its bytes. */
  ghost predicate PutsParts(puts: seq<PutRecord>, frames: seq<Key>, numNodes: nat, bytes: Part -> Value)
    requires numNodes > 0
  {
    forall r :: r in puts ==> exists p :: IsPutOfPart(r, p, frames, numNodes, bytes)
  }

  lemma PartsHaveOneValue(puts: seq<PutRecord>, frames: seq<Key>, numNodes: nat, bytes: Part -> Value)
    requires numNodes > 0 && KeptApart(frames, numNodes) && PutsParts(puts, frames, numNodes, bytes)
    ensures OneValueEach(puts)
  {
    forall q, r | q in puts && r in puts && q.key == r.key
      ensures q.value == r.value
    {
      var a :| IsPutOfPart(q, a, frames, numNodes, bytes);
      var b :| IsPutOfPart(r, b, frames, numNodes, bytes);
      PartsHaveOwnKeys(a, b, frames, numNodes);
    }
  }

  /** In a run that puts frames under independent keys, with their blocks, a wait for a part
      of one of them returns that part's bytes, on any node and in any order of steps. */
  lemma FramesAreReadBack(states: seq<State>, steps: seq<Step>, i: nat, frames: seq<Key>, numNodes: nat,
                          bytes: Part -> Value, p: Part)
    requires IsRun(states, steps) && i < |steps| && (steps[i].FinishSpin? || steps[i].FinishWait?)
    requires numNodes > 0 && KeptApart(frames, numNodes) && PutsParts(states[i].puts, frames, numNodes, bytes)
    requires p.frame < |frames| && steps[i].n < |states[i].app|
    requires states[i].app[steps[i].n] in {Waiting(PartKey(p, frames, numNodes)),
                                           Spinning(PartKey(p, frames, numNodes))}
    ensures Inv(states[i]) && Enabled(states[i], steps[i]) && AssertsHold(states[i], steps[i])
    ensures Returned(states[i], steps[i]) == bytes(p)
  {
    RunKeepsInv(states, steps, i);
    assert Next(states[i], steps[i], states[i + 1]);
    ReturnedWasPut(states[i], steps[i]);
    var w: nat :| PutRecord(w, PartKey(p, frames, numNodes), Returned(states[i], steps[i])) in states[i].puts;
    var q :| IsPutOfPart(PutRecord(w, PartKey(p, frames, numNodes), Returned(states[i], steps[i])), q, frames, numNodes,
                         bytes);
    PartsHaveOwnKeys(p, q, frames, numNodes);
  }
}
