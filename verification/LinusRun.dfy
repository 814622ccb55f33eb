/**
 The nodes of the Linus application as objects, run together stage by stage: what one
 node's wait delivers is what another node wrote before.
 */
module LinusRun {
  import opened Collaborators
  import opened LinusCluster
  import opened LinusNode
  import opened LinusFrames
  import opened ColumnStore
  import opened Columns
  import opened Messages

  // ----- many sets -----

  ghost predicate Distinct(sets: seq<Set>) {
    forall i, j :: 0 <= i < j < |sets| ==> sets[i] != sets[j] && sets[i].vals != sets[j].vals
  }

  /** No set of one list shares anything with a set of the other. */
  ghost predicate Apart(a: seq<Set>, b: seq<Set>) {
    forall i, j :: 0 <= i < |a| && 0 <= j < |b| ==> a[i] != b[j] && a[i].vals != b[j].vals
  }

  /** The sets and their arrays. */
  ghost function Objects(sets: seq<Set>): (r: set<object>)
    ensures forall i :: 0 <= i < |sets| ==> sets[i] in r && sets[i].vals in r
  {
    if sets == [] then {}
    else
      var last := sets[|sets| - 1];
      Objects(sets[..|sets| - 1]) + {last, last.vals}
  }

  lemma {:induction false} NotAmong(s: Set, sets: seq<Set>)
    requires Apart([s], sets)
    ensures s !in Objects(sets) && s.vals !in Objects(sets)
  {
    assert forall j :: 0 <= j < |sets| ==> [s][0] != sets[j] && [s][0].vals != sets[j].vals;
    if sets != [] {
      NotAmong(s, sets[..|sets| - 1]);
    }
  }

  lemma {:induction false} ApartObjects(a: seq<Set>, b: seq<Set>)
    requires Apart(a, b)
    ensures Objects(a) !! Objects(b)
  {
    if a != [] {
      var last := a[|a| - 1];
      assert Apart([last], b);
      NotAmong(last, b);
      ApartObjects(a[..|a| - 1], b);
    }
  }

  /** The exchange is none of the sets. */
  lemma {:induction false} Outside(ex: Exchange, sets: seq<Set>)
    ensures ex !in Objects(sets) && ex.store !in Objects(sets)
  {
    if sets != [] {
      Outside(ex, sets[..|sets| - 1]);
    }
  }

  twostate lemma {:induction false} FreshObjects(new sets: seq<Set>)
    requires forall i :: 0 <= i < |sets| ==> fresh(sets[i]) && fresh(sets[i].vals)
    ensures fresh(Objects(sets))
  {
    if sets != [] {
      FreshObjects(sets[..|sets| - 1]);
    }
  }

  twostate lemma FreshApart(new sets: seq<Set>, others: seq<Set>)
    requires forall s :: s in sets ==> fresh(s) && fresh(s.vals)
    ensures fresh(Objects(sets)) && Apart(sets, others) && Apart(others, sets)
  {
    forall i | 0 <= i < |sets|
      ensures fresh(sets[i]) && fresh(sets[i].vals)
    {
      assert sets[i] in sets;
    }
    FreshObjects(sets);
  }

  twostate lemma FreshHalves(new a: seq<Set>, new b: seq<Set>)
    requires forall s :: s in a + b ==> fresh(s) && fresh(s.vals)
    ensures fresh(Objects(a)) && fresh(Objects(b))
  {
    forall i | 0 <= i < |a|
      ensures fresh(a[i]) && fresh(a[i].vals)
    {
      assert (a + b)[i] in a + b;
    }
    forall i | 0 <= i < |b|
      ensures fresh(b[i]) && fresh(b[i].vals)
    {
      assert (a + b)[|a| + i] in a + b;
    }
    FreshObjects(a);
    FreshObjects(b);
  }

  /** The sets are valid, of one size, and have the given members. */
  ghost predicate Hold(sets: seq<Set>, members: seq<set<int>>, size: nat)
    reads Objects(sets)
  {
    && |sets| == |members|
    && forall i :: 0 <= i < |sets| ==>
         sets[i].Valid() && sets[i].vals.Length == size && sets[i].Members == members[i]
  }

  /** One set changed: the others hold what they held. */
  twostate lemma HoldChanged(new sets: seq<Set>, new members: seq<set<int>>, new size: nat, new i: nat, new m: set<int>)
    requires i < |sets| && Distinct(sets)
    requires forall j :: 0 <= j < |sets| ==> old(allocated(sets[j])) && old(allocated(sets[j].vals))
    requires old(Hold(sets, members, size))
    requires forall j :: 0 <= j < |sets| && j != i ==> unchanged(sets[j]) && unchanged(sets[j].vals)
    requires sets[i].Valid() && sets[i].Members == m
    ensures Hold(sets, members[i := m], size)
  {
  }

  twostate lemma HoldStill(new sets: seq<Set>, new members: seq<set<int>>, new size: nat)
    requires forall j :: 0 <= j < |sets| ==> old(allocated(sets[j])) && old(allocated(sets[j].vals))
    requires old(Hold(sets, members, size))
    requires forall j :: 0 <= j < |sets| ==> unchanged(sets[j]) && unchanged(sets[j].vals)
    ensures Hold(sets, members, size)
  {
  }

  function Same(s: set<int>, n: nat): (r: seq<set<int>>)
    ensures |r| == n && forall i :: 0 <= i < n ==> r[i] == s
  {
    seq(n, _ => s)
  }

  // ----- merging -----

  /** The rows in which each node has written down its delta. */
  ghost predicate Sent(sent: seq<seq<int>>, members: seq<set<int>>, size: nat) {
    |sent| == |members| && forall i :: 0 <= i < |sent| ==> Delivered(sent[i], members[i], size)
  }

  /** What the nodes hold when the first i of them have merged. */
  function Merged(members: seq<set<int>>, i: nat): (r: seq<set<int>>)
    ensures |r| == |members|
    ensures forall j :: 0 <= j < |r| ==> r[j] == if j < i then AfterMerge(members, j) else members[j]
  {
    seq(|members|, j requires 0 <= j < |members| => if j < i then AfterMerge(members, j) else members[j])
  }

  lemma MergedNext(members: seq<set<int>>, i: nat)
    requires i < |members|
    ensures Merged(members, i)[i := AfterMerge(members, i)] == Merged(members, i + 1)
    ensures Merged(members, 0) == members
  {
  }

  /** The wait of node i for the published union ends. */
  method TakeNext(node: Linus, sets: seq<Set>, i: nat, ex: Exchange, key: Key, ghost published: seq<int>,
                  ghost members: seq<set<int>>, ghost size: nat)
    requires 0 < i < |sets| == |members| && Distinct(sets) && Hold(sets, Merged(members, i), size)
    requires ex.Has(key, published) && Delivered(published, Gather(members), size)
    modifies sets[i], sets[i].vals
    ensures Hold(sets, Merged(members, i + 1), size)
  {
    var rows := ex.Receive(key, published);
    node.TakeMerged(sets[i], rows, Gather(members));
    HoldChanged(sets, Merged(members, i), size, i, AfterMerge(members, i));
    MergedNext(members, i);
  }

  // ----- what is stored -----

  /** The rows under a key, if any. */
  function At(rows: map<Key, seq<int>>, k: Key): Option<seq<int>> {
    if k in rows then Some(rows[k]) else None
  }

  /** One of the keys of the nodes from lo up to hi. */
  ghost predicate IsPart(k: Key, name: String, stage: nat, lo: nat, hi: nat) {
    exists i: nat :: lo <= i < hi && k == DeltaKey(name, stage, i)
  }

  /** Under the keys of the nodes from lo up to hi there now are these frames, and under
      every other key what was there before. */
  ghost predicate Adds(before: map<Key, seq<int>>, after: map<Key, seq<int>>, name: String, stage: nat,
                       frames: seq<seq<int>>, lo: nat, hi: nat)
    requires hi <= |frames|
  {
    && (forall i: nat :: lo <= i < hi ==> At(after, DeltaKey(name, stage, i)) == Some(frames[i]))
    && (forall k {:trigger At(after, k)} :: !IsPart(k, name, stage, lo, hi) ==> At(after, k) == At(before, k))
  }

  lemma AddsNext(before: map<Key, seq<int>>, now: map<Key, seq<int>>, name: String, stage: nat,
                 frames: seq<seq<int>>, lo: nat, i: nat)
    requires lo <= i < |frames| && Adds(before, now, name, stage, frames, lo, i)
    ensures Adds(before, now[DeltaKey(name, stage, i) := frames[i]], name, stage, frames, lo, i + 1)
  {
    var key := DeltaKey(name, stage, i);
    var after := now[key := frames[i]];
    forall j: nat | lo <= j < i + 1
      ensures At(after, DeltaKey(name, stage, j)) == Some(frames[j])
    {
      if j < i {
        assert At(now, DeltaKey(name, stage, j)) == Some(frames[j]);
        if DeltaKey(name, stage, j) == key {
          DeltaKeysDiffer(name, stage, j, name, stage, i);
        }
      }
    }
    forall k | !IsPart(k, name, stage, lo, i + 1)
      ensures At(after, k) == At(before, k)
    {
      assert k != key && !IsPart(k, name, stage, lo, i) && At(now, k) == At(before, k);
    }
  }

  /** The frame of node 0, stored last. */
  lemma AddsZero(before: map<Key, seq<int>>, now: map<Key, seq<int>>, name: String, stage: nat,
                 frames: seq<seq<int>>, first: seq<int>)
    requires 0 < |frames| && Adds(before, now, name, stage, frames, 1, |frames|)
    ensures Adds(before, now[DeltaKey(name, stage, 0) := first], name, stage, frames[0 := first], 0, |frames|)
  {
    var key := DeltaKey(name, stage, 0);
    var after := now[key := first];
    forall j: nat | 0 <= j < |frames|
      ensures At(after, DeltaKey(name, stage, j)) == Some(frames[0 := first][j])
    {
      if 0 < j {
        assert At(now, DeltaKey(name, stage, j)) == Some(frames[j]);
        if DeltaKey(name, stage, j) == key {
          DeltaKeysDiffer(name, stage, j, name, stage, 0);
        }
      }
    }
    forall k | !IsPart(k, name, stage, 0, |frames|)
      ensures At(after, k) == At(before, k)
    {
      assert k != key && !IsPart(k, name, stage, 1, |frames|) && At(now, k) == At(before, k);
    }
  }

  /** The frames of other names or stages stay. */
  lemma OtherFramesStay(before: map<Key, seq<int>>, after: map<Key, seq<int>>, name: String, stage: nat,
                        frames: seq<seq<int>>, name': String, stage': nat, i: nat)
    requires Adds(before, after, name, stage, frames, 0, |frames|) && (name' != name || stage' != stage)
    ensures At(after, DeltaKey(name', stage', i)) == At(before, DeltaKey(name', stage', i))
  {
    if IsPart(DeltaKey(name', stage', i), name, stage, 0, |frames|) {
      var j: nat :| j < |frames| && DeltaKey(name', stage', i) == DeltaKey(name, stage, j);
      DeltaKeysDiffer(name', stage', i, name, stage, j);
    }
  }

  /** The nodes other than node 0 store their deltas. */
  method SendAll(ex: Exchange, name: String, stage: nat, sent: seq<seq<int>>, ghost members: seq<set<int>>,
                 ghost size: nat)
    requires ex.Contents().Some? && (name == USERS || name == PROJECTS) && Fits(ex.args.numNodes, stage, size)
    requires 0 < |sent| == ex.args.numNodes && Sent(sent, members, size)
    modifies ex, ex.store
    ensures ex.Contents().Some?
    ensures Adds(old(ex.Contents()).value, ex.Contents().value, name, stage, sent, 1, |sent|)
  {
    ghost var before := ex.Contents().value;
    for i := 1 to |sent|
      invariant ex.Contents().Some? && Adds(before, ex.Contents().value, name, stage, sent, 1, i)
    {
      CanBeSent(ex.args, name, stage, i, sent[i], members[i], size);
      AddsNext(before, ex.Contents().value, name, stage, sent, 1, i);
      ex.Send(DeltaKey(name, stage, i), sent[i]);
    }
  }

  lemma CanBeSent(args: Args, name: String, stage: nat, node: nat, rows: seq<int>, source: set<int>, size: nat)
    requires (name == USERS || name == PROJECTS) && node < args.numNodes && Fits(args.numNodes, stage, size)
    requires Delivered(rows, source, size)
    ensures IsDeltaKey(DeltaKey(name, stage, node)) && CanSend(DeltaKey(name, stage, node), rows, args)
  {
    forall i | 0 <= i < |rows|
      ensures 0 <= rows[i] < size
    {
      assert rows[i] in rows;
    }
    DeltaFits(name, stage, node, rows, size, args);
  }

  lemma DeltaAt(before: map<Key, seq<int>>, rows: map<Key, seq<int>>, name: String, stage: nat, sent: seq<seq<int>>,
                i: nat)
    requires 0 < i < |sent| && Adds(before, rows, name, stage, sent, 1, |sent|)
    ensures DeltaKey(name, stage, i) in rows && rows[DeltaKey(name, stage, i)] == sent[i]
    ensures sent[1..i + 1] == sent[1..i] + [sent[i]]
  {
    assert At(rows, DeltaKey(name, stage, i)) == Some(sent[i]);
  }

  /** Node 0 waits for them, one after the other. */
  method ReceiveAll(ex: Exchange, name: String, stage: nat, n: nat, ghost before: map<Key, seq<int>>,
                    ghost sent: seq<seq<int>>)
    returns (deltas: seq<seq<int>>)
    requires 0 < n == |sent| && ex.Contents().Some? && Adds(before, ex.Contents().value, name, stage, sent, 1, n)
    ensures deltas == sent[1..]
  {
    deltas := [];
    for i := 1 to n
      invariant deltas == sent[1..i]
    {
      DeltaAt(before, ex.Contents().value, name, stage, sent, i);
      var delta := ex.Receive(DeltaKey(name, stage, i), sent[i]);
      deltas := deltas + [delta];
    }
  }

  /** merge at node 0, once it got the deltas: it publishes the union of all. */
  method MergeAtZero(node: Linus, sets: seq<Set>, ex: Exchange, name: String, stage: nat, deltas: seq<seq<int>>,
                     ghost members: seq<set<int>>, ghost size: nat)
    returns (published: seq<int>)
    requires ex.Contents().Some? && (name == USERS || name == PROJECTS) && Fits(ex.args.numNodes, stage, size)
    requires 0 < ex.args.numNodes && 0 < |sets| == |deltas| + 1 && Distinct(sets) && Hold(sets, members, size)
    requires forall i :: 0 <= i < |deltas| ==> Delivered(deltas[i], members[i + 1], size)
    modifies sets[0], sets[0].vals, ex, ex.store
    ensures Hold(sets, Merged(members, 1), size) && Delivered(published, Gather(members), size)
    ensures ex.Contents() == Some(old(ex.Contents()).value[DeltaKey(name, stage, 0) := published])
  {
    published := node.MergeAtMaster(sets[0], deltas, members);
    CanBeSent(ex.args, name, stage, 0, published, Gather(members), size);
    ex.Send(DeltaKey(name, stage, 0), published);
    HoldChanged(sets, members, size, 0, Gather(members));
    MergedNext(members, 0);
  }

  /** The other nodes take what node 0 published. */
  method TakeAll(nodes: seq<Linus>, sets: seq<Set>, ex: Exchange, key: Key, ghost published: seq<int>,
                 ghost members: seq<set<int>>, ghost size: nat)
    requires 0 < |nodes| == |sets| == |members| && Distinct(sets) && Hold(sets, Merged(members, 1), size)
    requires ex.Has(key, published) && Delivered(published, Gather(members), size)
    modifies Objects(sets)
    ensures Hold(sets, Merged(members, |members|), size) && ex.Has(key, published)
  {
    Outside(ex, sets);
    for i := 1 to |sets|
      invariant Hold(sets, Merged(members, i), size) && ex.Has(key, published)
    {
      TakeNext(nodes[i], sets, i, ex, key, published, members, size);
    }
  }

  /** The frames that a merge leaves in the stores: under node 0's key the union of the
      nodes' sets, and under every other node's key its own set. */
  ghost predicate Traded(frames: seq<seq<int>>, members: seq<set<int>>, size: nat) {
    && 0 < |frames| == |members| && Delivered(frames[0], Gather(members), size)
    && forall i :: 0 < i < |frames| ==> Delivered(frames[i], members[i], size)
  }

  lemma SentAreTraded(sent: seq<seq<int>>, members: seq<set<int>>, size: nat, published: seq<int>)
    requires 0 < |sent| && Sent(sent, members, size) && Delivered(published, Gather(members), size)
    ensures Traded(sent[0 := published], members, size)
  {
  }

  lemma OthersDelivered(sent: seq<seq<int>>, members: seq<set<int>>, size: nat)
    requires 0 < |sent| && Sent(sent, members, size)
    ensures forall i :: 0 <= i < |sent[1..]| ==> Delivered(sent[1..][i], members[i + 1], size)
  {
  }

  /** merge on all nodes: node 0 takes in the deltas that the others store, and stores the
      union, which the others take. */
  method MergeAll(nodes: seq<Linus>, sets: seq<Set>, ex: Exchange, name: String, stage: nat, sent: seq<seq<int>>,
                  ghost members: seq<set<int>>, ghost size: nat)
    returns (ghost frames: seq<seq<int>>)
    requires ex.Contents().Some? && (name == USERS || name == PROJECTS) && Fits(ex.args.numNodes, stage, size)
    requires 0 < |nodes| == |sets| == ex.args.numNodes && Distinct(sets) && Hold(sets, members, size)
    requires Sent(sent, members, size)
    modifies Objects(sets), ex, ex.store
    ensures Hold(sets, Merged(members, |members|), size) && Traded(frames, members, size)
    ensures ex.Contents().Some?
    ensures Adds(old(ex.Contents()).value, ex.Contents().value, name, stage, frames, 0, |frames|)
  {
    Outside(ex, sets);
    ghost var before := ex.Contents().value;
    SendAll(ex, name, stage, sent, members, size);
    var deltas := ReceiveAll(ex, name, stage, |nodes|, before, sent);
    HoldStill(sets, members, size);
    OthersDelivered(sent, members, size);
    ghost var now := ex.Contents().value;
    ghost var published := MergeAtZero(nodes[0], sets, ex, name, stage, deltas, members, size);
    AddsZero(before, now, name, stage, sent, published);
    SentAreTraded(sent, members, size, published);
    frames := sent[0 := published];
    TakeAll(nodes, sets, ex, DeltaKey(name, stage, 0), published, members, size);
  }

  // ----- taking the union with what was merged -----

  /** The first i of the sets have become the total. */
  function United(members: seq<set<int>>, total: set<int>, i: nat): (r: seq<set<int>>)
    ensures |r| == |members| && forall j :: 0 <= j < |r| ==> r[j] == if j < i then total else members[j]
  {
    seq(|members|, j requires 0 <= j < |members| => if j < i then total else members[j])
  }

  lemma UnitedNext(members: seq<set<int>>, total: set<int>, i: nat)
    requires i < |members|
    ensures United(members, total, i)[i := total] == United(members, total, i + 1)
  {
  }

  /** Each of the members, with what is added to it, makes the total. */
  ghost predicate AddUp(members: seq<set<int>>, added: seq<set<int>>, total: set<int>) {
    |members| == |added| && forall i :: 0 <= i < |members| ==> members[i] + added[i] == total
  }

  method UnionNext(sets: seq<Set>, others: seq<Set>, i: nat, ghost members: seq<set<int>>, ghost added: seq<set<int>>,
                   ghost total: set<int>, ghost size: nat)
    requires i < |sets| == |others| && Distinct(sets) && Objects(sets) !! Objects(others)
    requires Hold(sets, United(members, total, i), size) && Hold(others, added, size) && members[i] + added[i] == total
    modifies sets[i], sets[i].vals
    ensures Hold(sets, United(members, total, i + 1), size) && Hold(others, added, size)
  {
    sets[i].Union(others[i]);
    HoldChanged(sets, United(members, total, i), size, i, total);
    UnitedNext(members, total, i);
  }

  /** The i-th set becomes the union with the i-th of the others, for every i. */
  method UnionAll(sets: seq<Set>, others: seq<Set>, ghost members: seq<set<int>>, ghost added: seq<set<int>>,
                  ghost total: set<int>, ghost size: nat)
    requires Distinct(sets) && Objects(sets) !! Objects(others) && Hold(sets, members, size)
    requires Hold(others, added, size)
    requires |sets| == |others| && AddUp(members, added, total)
    modifies Objects(sets)
    ensures Hold(sets, Same(total, |sets|), size) && Hold(others, added, size)
  {
    assert United(members, total, 0) == members;
    for i := 0 to |sets|
      invariant Hold(sets, United(members, total, i), size) && Hold(others, added, size)
    {
      UnionNext(sets, others, i, members, added, total, size);
    }
    assert United(members, total, |sets|) == Same(total, |sets|);
  }

  /** merge and then union_ on all nodes: the targets, each with what its node tagged,
      become the same union of all. */
  method MergeAndUnion(nodes: seq<Linus>, targets: seq<Set>, sets: seq<Set>, ex: Exchange, name: String, stage: nat,
                       sent: seq<seq<int>>,
                       ghost members: seq<set<int>>, ghost tagged: seq<set<int>>, ghost total: set<int>,
                       ghost all: set<int>, ghost size: nat)
    returns (ghost frames: seq<seq<int>>)
    requires ex.Contents().Some? && (name == USERS || name == PROJECTS) && Fits(ex.args.numNodes, stage, size)
    requires 0 < |nodes| == |sets| == |targets| == ex.args.numNodes && Distinct(targets) && Distinct(sets)
    requires Objects(targets) !! Objects(sets)
    requires Hold(sets, tagged, size) && Sent(sent, tagged, size) && Hold(targets, members, size)
    requires Gather(tagged) == total && Merged(tagged, |tagged|) == Same(total, |tagged|)
    requires AddUp(members, Same(total, |tagged|), all)
    modifies Objects(sets) + Objects(targets), ex, ex.store
    ensures Hold(sets, Same(total, |nodes|), size) && Hold(targets, Same(all, |nodes|), size)
    ensures Traded(frames, tagged, size) && ex.Contents().Some?
    ensures Adds(old(ex.Contents()).value, ex.Contents().value, name, stage, frames, 0, |frames|)
  {
    Outside(ex, targets);
    frames := MergeAll(nodes, sets, ex, name, stage, sent, tagged, size);
    HoldStill(targets, members, size);
    UnionAll(targets, sets, members, Same(total, |tagged|), all, size);
  }

  // ----- tagging -----

  /** The nodes of one run, each with its own sets. */
  ghost predicate IsCluster(nodes: seq<Linus>, uSets: seq<Set>, pSets: seq<Set>, commits: seq<Commit>, bs: nat) {
    && 0 < |nodes| == |uSets| == |pSets| && bs > 0
    && (forall i :: 0 <= i < |nodes| ==>
          && nodes[i].idx == i && nodes[i].numNodes == |nodes| && nodes[i].blockSize == bs
              && nodes[i].commits == commits
          && nodes[i].uSet == uSets[i] && nodes[i].pSet == pSets[i])
    && Distinct(uSets) && Distinct(pSets) && Apart(uSets, pSets)
  }

  /** The projects that the nodes tag, each in its rows. */
  function ProjectsTagged(n: nat, p: Progress, commits: seq<Commit>, bs: nat, sz: Sizes): (r: seq<set<int>>)
    requires bs > 0
    ensures |r| == n && forall i :: 0 <= i < n ==> r[i] == TaggedProjects(p, LocalCommits(commits, bs, n, i), sz)
  {
    seq(n, i requires 0 <= i < n => TaggedProjects(p, LocalCommits(commits, bs, n, i), sz))
  }

  function UsersTagged(n: nat, p: Progress, newProjects: set<int>, commits: seq<Commit>, bs: nat, sz: Sizes)
    : (r: seq<set<int>>)
    requires bs > 0
    ensures |r| == n
    ensures forall i :: 0 <= i < n ==> r[i] == TaggedUsers(p, newProjects, LocalCommits(commits, bs, n, i), sz)
  {
    seq(n, i requires 0 <= i < n => TaggedUsers(p, newProjects, LocalCommits(commits, bs, n, i), sz))
  }

  lemma NodeIsReady(nodes: seq<Linus>, uSets: seq<Set>, pSets: seq<Set>, commits: seq<Commit>, bs: nat, i: nat,
                    sz: Sizes)
    requires IsCluster(nodes, uSets, pSets, commits, bs) && i < |nodes|
    requires uSets[i].Valid() && uSets[i].vals.Length == sz.users && pSets[i].Valid()
    requires pSets[i].vals.Length == sz.projects
    ensures nodes[i].Valid() && nodes[i].Sizes() == sz && nodes[i].uSet == uSets[i] && nodes[i].pSet == pSets[i]
    ensures nodes[i].Local() == LocalCommits(commits, bs, |nodes|, i)
  {
  }

  /** The first i of the sets have got what was added to each. */
  function Grown(base: set<int>, added: seq<set<int>>, i: nat): (r: seq<set<int>>)
    ensures |r| == |added| && forall j :: 0 <= j < |r| ==> r[j] == if j < i then base + added[j] else base
  {
    seq(|added|, j requires 0 <= j < |added| => if j < i then base + added[j] else base)
  }

  lemma GrownNext(base: set<int>, added: seq<set<int>>, i: nat)
    requires i < |added|
    ensures Grown(base, added, i)[i := base + added[i]] == Grown(base, added, i + 1)
    ensures added[..i + 1] == added[..i] + [added[i]]
  {
  }

  lemma GrownEnds(base: set<int>, added: seq<set<int>>)
    ensures Grown(base, added, 0) == Same(base, |added|)
    ensures added[..0] == [] && added[..|added|] == added
  {
  }

  /** The sets of what the first nodes tagged, and the rows in which they wrote it down. */
  ghost predicate Collected(sets: seq<Set>, sent: seq<seq<int>>, members: seq<set<int>>, size: nat)
    reads sets, set i | 0 <= i < |sets| :: sets[i].vals
  {
    && Distinct(sets) && |sets| == |members| && Sent(sent, members, size)
    && forall i :: 0 <= i < |sets| ==>
         sets[i].Valid() && sets[i].vals.Length == size && sets[i].Members == members[i]
  }

  twostate lemma CollectedStill(new sets: seq<Set>, new sent: seq<seq<int>>, new members: seq<set<int>>, new size: nat)
    requires forall j :: 0 <= j < |sets| ==> old(allocated(sets[j])) && old(allocated(sets[j].vals))
    requires old(Collected(sets, sent, members, size))
    requires forall j :: 0 <= j < |sets| ==> unchanged(sets[j]) && unchanged(sets[j].vals)
    ensures Collected(sets, sent, members, size)
  {
  }

  lemma CollectedMore(sets: seq<Set>, sent: seq<seq<int>>, members: seq<set<int>>, size: nat, s: Set, rows: seq<int>,
                      m: set<int>)
    requires Collected(sets, sent, members, size) && Apart(sets, [s])
    requires s.Valid() && s.vals.Length == size && s.Members == m && Delivered(rows, m, size)
    ensures Collected(sets + [s], sent + [rows], members + [m], size)
  {
    assert forall i :: 0 <= i < |sets| ==> sets[i] != [s][0] && sets[i].vals != [s][0].vals;
  }

  /** Node i's part of the first half of step, up to where merge waits: it tags the
      projects in its rows and writes down its delta. */
  method TagProjectsNext(node: Linus, pSets: seq<Set>, i: nat, newUsers: seq<int>,
                         ghost p: Progress, ghost tagged: seq<set<int>>, ghost sz: Sizes)
    returns (newProjects: Set, delta: seq<int>)
    requires i < |pSets| == |tagged| && node.pSet == pSets[i] && Distinct(pSets) && node.Valid() && node.Sizes() == sz
    requires node.uSet.Members == p.users && tagged[i] == TaggedProjects(p, node.Local(), sz)
    requires Hold(pSets, Grown(p.projects, tagged, i), sz.projects) && Brings(newUsers, p.delta, sz.users)
    modifies pSets[i], pSets[i].vals
    ensures fresh(newProjects) && fresh(newProjects.vals) && newProjects.Valid()
    ensures newProjects.vals.Length == sz.projects
    ensures newProjects.Members == tagged[i] && Delivered(delta, tagged[i], sz.projects)
    ensures Hold(pSets, Grown(p.projects, tagged, i + 1), sz.projects)
  {
    newProjects := node.TagProjects(newUsers, p);
    HoldChanged(pSets, Grown(p.projects, tagged, i), sz.projects, i, p.projects + tagged[i]);
    GrownNext(p.projects, tagged, i);
    delta := node.SendDelta(newProjects);
  }

  /** The same, beside what the nodes in front of it did. */
  method TagProjectsBeside(node: Linus, uSets: seq<Set>, pSets: seq<Set>, sets: seq<Set>, sent: seq<seq<int>>,
                           newUsers: seq<int>,
                           ghost p: Progress, ghost tagged: seq<set<int>>, ghost sz: Sizes)
    returns (newProjects: Set, delta: seq<int>)
    requires |sets| < |pSets| == |tagged| && node.pSet == pSets[|sets|] && node.Valid() && node.Sizes() == sz
    requires Distinct(pSets) && Apart(uSets, pSets) && Apart(sets, pSets) && Brings(newUsers, p.delta, sz.users)
    requires node.uSet.Members == p.users && tagged[|sets|] == TaggedProjects(p, node.Local(), sz)
    requires Hold(uSets, Same(p.users, |uSets|), sz.users)
    requires Hold(pSets, Grown(p.projects, tagged, |sets|), sz.projects)
    requires Collected(sets, sent, tagged[..|sets|], sz.projects)
    modifies pSets[|sets|], pSets[|sets|].vals
    ensures fresh(newProjects) && fresh(newProjects.vals)
    ensures Hold(uSets, Same(p.users, |uSets|), sz.users)
    ensures Hold(pSets, Grown(p.projects, tagged, |sets| + 1), sz.projects)
    ensures Collected(sets + [newProjects], sent + [delta], tagged[..|sets| + 1], sz.projects)
  {
    var i := |sets|;
    newProjects, delta := TagProjectsNext(node, pSets, i, newUsers, p, tagged, sz);
    HoldStill(uSets, Same(p.users, |uSets|), sz.users);
    CollectedStill(sets, sent, tagged[..i], sz.projects);
    CollectedMore(sets, sent, tagged[..i], sz.projects, newProjects, delta, tagged[i]);
    GrownNext(p.projects, tagged, i);
  }

  method TagProjectsAt(nodes: seq<Linus>, uSets: seq<Set>, pSets: seq<Set>, sets: seq<Set>, sent: seq<seq<int>>,
                       ex: Exchange, key: Key, ghost newUsers: seq<int>,
                       ghost commits: seq<Commit>, ghost bs: nat, ghost p: Progress, ghost tagged: seq<set<int>>,
                       ghost sz: Sizes)
    returns (newProjects: Set, delta: seq<int>)
    requires IsCluster(nodes, uSets, pSets, commits, bs) && |sets| < |nodes| == |tagged| && Apart(sets, pSets)
    requires tagged[|sets|] == TaggedProjects(p, LocalCommits(commits, bs, |nodes|, |sets|), sz)
    requires ex.Has(key, newUsers) && Brings(newUsers, p.delta, sz.users)
    requires Hold(uSets, Same(p.users, |uSets|), sz.users)
    requires Hold(pSets, Grown(p.projects, tagged, |sets|), sz.projects)
    requires Collected(sets, sent, tagged[..|sets|], sz.projects)
    modifies pSets[|sets|], pSets[|sets|].vals
    ensures fresh(newProjects) && fresh(newProjects.vals)
    ensures Hold(uSets, Same(p.users, |uSets|), sz.users)
    ensures Hold(pSets, Grown(p.projects, tagged, |sets| + 1), sz.projects)
    ensures Collected(sets + [newProjects], sent + [delta], tagged[..|sets| + 1], sz.projects)
  {
    var rows := ex.Receive(key, newUsers);
    NodeIsReady(nodes, uSets, pSets, commits, bs, |sets|, sz);
    newProjects, delta := TagProjectsBeside(nodes[|sets|], uSets, pSets, sets, sent, rows, p, tagged, sz);
  }

  /** The first half of step up to merge, on all nodes, each of which fetches the users that
      the previous stage added. */
  method TagAllProjects(nodes: seq<Linus>, uSets: seq<Set>, pSets: seq<Set>, ex: Exchange, key: Key,
                        ghost newUsers: seq<int>,
                        ghost commits: seq<Commit>, ghost bs: nat, ghost p: Progress, ghost tagged: seq<set<int>>,
                        ghost sz: Sizes)
    returns (sets: seq<Set>, sent: seq<seq<int>>)
    requires IsCluster(nodes, uSets, pSets, commits, bs)
    requires ex.Has(key, newUsers) && Brings(newUsers, p.delta, sz.users)
    requires Hold(uSets, Same(p.users, |nodes|), sz.users) && Hold(pSets, Same(p.projects, |nodes|), sz.projects)
    requires tagged == ProjectsTagged(|nodes|, p, commits, bs, sz)
    modifies Objects(pSets)
    ensures forall s :: s in sets ==> fresh(s) && fresh(s.vals)
    ensures Collected(sets, sent, tagged, sz.projects)
    ensures Hold(uSets, Same(p.users, |nodes|), sz.users)
    ensures Hold(pSets, Grown(p.projects, tagged, |nodes|), sz.projects)
  {
    sets, sent := [], [];
    GrownEnds(p.projects, tagged);
    Outside(ex, pSets);
    for i := 0 to |nodes|
      invariant |sets| == i && forall s :: s in sets ==> fresh(s) && fresh(s.vals)
      invariant Collected(sets, sent, tagged[..i], sz.projects)
      invariant Hold(uSets, Same(p.users, |nodes|), sz.users) && Hold(pSets, Grown(p.projects, tagged, i), sz.projects)
    {
      var newProjects, delta := TagProjectsAt(nodes, uSets, pSets, sets, sent, ex, key, newUsers, commits, bs, p,
                                                tagged, sz);
      sets, sent := sets + [newProjects], sent + [delta];
    }
  }

  /** Node i's part of the second half of step, up to where merge waits. */
  method TagUsersNext(node: Linus, uSets: seq<Set>, i: nat, newProjects: Set,
                      ghost p: Progress, ghost found: set<int>, ghost tagged: seq<set<int>>, ghost sz: Sizes)
    returns (newUsers: Set, delta: seq<int>)
    requires i < |uSets| == |tagged| && node.uSet == uSets[i] && Distinct(uSets) && node.Valid() && node.Sizes() == sz
    requires newProjects.Valid() && newProjects.vals.Length == sz.projects && newProjects.Members == found
    requires newProjects != node.uSet && newProjects.vals != node.uSet.vals
    requires node.uSet.Members == p.users && tagged[i] == TaggedUsers(p, found, node.Local(), sz)
    requires Hold(uSets, Grown(p.users, tagged, i), sz.users)
    modifies uSets[i], uSets[i].vals
    ensures fresh(newUsers) && fresh(newUsers.vals) && newUsers.Valid() && newUsers.vals.Length == sz.users
    ensures newUsers.Members == tagged[i] && Delivered(delta, tagged[i], sz.users)
    ensures Hold(uSets, Grown(p.users, tagged, i + 1), sz.users)
  {
    newUsers := node.TagUsers(newProjects, p);
    HoldChanged(uSets, Grown(p.users, tagged, i), sz.users, i, p.users + tagged[i]);
    GrownNext(p.users, tagged, i);
    delta := node.SendDelta(newUsers);
  }

  /** The same, beside what the nodes in front of it did. */
  method TagUsersBeside(node: Linus, uSets: seq<Set>, pSets: seq<Set>, projects: seq<Set>, sets: seq<Set>,
                        sent: seq<seq<int>>,
                        ghost p: Progress, ghost known: set<int>, ghost found: set<int>, ghost tagged: seq<set<int>>,
                        ghost sz: Sizes)
    returns (newUsers: Set, delta: seq<int>)
    requires |sets| < |uSets| == |tagged| && node.uSet == uSets[|sets|] && node.Valid() && node.Sizes() == sz
    requires Distinct(uSets) && Apart(sets, uSets) && Apart(pSets, uSets) && Apart(projects, uSets)
    requires |projects| == |uSets|
    requires node.uSet.Members == p.users && tagged[|sets|] == TaggedUsers(p, found, node.Local(), sz)
    requires Hold(pSets, Same(known, |pSets|), sz.projects) && Hold(projects, Same(found, |projects|), sz.projects)
    requires Hold(uSets, Grown(p.users, tagged, |sets|), sz.users)
    requires Collected(sets, sent, tagged[..|sets|], sz.users)
    modifies uSets[|sets|], uSets[|sets|].vals
    ensures fresh(newUsers) && fresh(newUsers.vals)
    ensures Hold(pSets, Same(known, |pSets|), sz.projects) && Hold(projects, Same(found, |projects|), sz.projects)
    ensures Hold(uSets, Grown(p.users, tagged, |sets| + 1), sz.users)
    ensures Collected(sets + [newUsers], sent + [delta], tagged[..|sets| + 1], sz.users)
  {
    var i := |sets|;
    newUsers, delta := TagUsersNext(node, uSets, i, projects[i], p, found, tagged, sz);
    HoldStill(pSets, Same(known, |pSets|), sz.projects);
    HoldStill(projects, Same(found, |projects|), sz.projects);
    CollectedStill(sets, sent, tagged[..i], sz.users);
    CollectedMore(sets, sent, tagged[..i], sz.users, newUsers, delta, tagged[i]);
    GrownNext(p.users, tagged, i);
  }

  method TagUsersAt(nodes: seq<Linus>, uSets: seq<Set>, pSets: seq<Set>, projects: seq<Set>, sets: seq<Set>,
                    sent: seq<seq<int>>,
                    ghost commits: seq<Commit>, ghost bs: nat, ghost p: Progress, ghost known: set<int>,
                    ghost found: set<int>,
                    ghost tagged: seq<set<int>>, ghost sz: Sizes)
    returns (newUsers: Set, delta: seq<int>)
    requires IsCluster(nodes, uSets, pSets, commits, bs) && |sets| < |nodes| == |tagged| && Apart(sets, uSets)
    requires Apart(projects, uSets)
    requires tagged[|sets|] == TaggedUsers(p, found, LocalCommits(commits, bs, |nodes|, |sets|), sz)
    requires Hold(pSets, Same(known, |nodes|), sz.projects) && Hold(projects, Same(found, |nodes|), sz.projects)
    requires Hold(uSets, Grown(p.users, tagged, |sets|), sz.users) && Collected(sets, sent, tagged[..|sets|], sz.users)
    modifies uSets[|sets|], uSets[|sets|].vals
    ensures fresh(newUsers) && fresh(newUsers.vals)
    ensures Hold(pSets, Same(known, |nodes|), sz.projects) && Hold(projects, Same(found, |nodes|), sz.projects)
    ensures Hold(uSets, Grown(p.users, tagged, |sets| + 1), sz.users)
    ensures Collected(sets + [newUsers], sent + [delta], tagged[..|sets| + 1], sz.users)
  {
    NodeIsReady(nodes, uSets, pSets, commits, bs, |sets|, sz);
    newUsers, delta := TagUsersBeside(nodes[|sets|], uSets, pSets, projects, sets, sent, p, known, found, tagged, sz);
  }

  /** The second half of step up to merge, on all nodes; projects are their merged new
      projects, the same on all. */
  method TagAllUsers(nodes: seq<Linus>, uSets: seq<Set>, pSets: seq<Set>, projects: seq<Set>,
                     ghost commits: seq<Commit>, ghost bs: nat,
                     ghost p: Progress, ghost known: set<int>, ghost found: set<int>, ghost tagged: seq<set<int>>,
                     ghost sz: Sizes)
    returns (sets: seq<Set>, sent: seq<seq<int>>)
    requires IsCluster(nodes, uSets, pSets, commits, bs) && Apart(projects, uSets)
    requires Hold(uSets, Same(p.users, |nodes|), sz.users) && Hold(pSets, Same(known, |nodes|), sz.projects)
    requires Hold(projects, Same(found, |nodes|), sz.projects)
    requires tagged == UsersTagged(|nodes|, p, found, commits, bs, sz)
    modifies Objects(uSets)
    ensures forall s :: s in sets ==> fresh(s) && fresh(s.vals)
    ensures Collected(sets, sent, tagged, sz.users)
    ensures Hold(pSets, Same(known, |nodes|), sz.projects) && Hold(uSets, Grown(p.users, tagged, |nodes|), sz.users)
  {
    sets, sent := [], [];
    GrownEnds(p.users, tagged);
    for i := 0 to |nodes|
      invariant |sets| == i && forall s :: s in sets ==> fresh(s) && fresh(s.vals)
      invariant Collected(sets, sent, tagged[..i], sz.users)
      invariant Hold(pSets, Same(known, |nodes|), sz.projects) && Hold(projects, Same(found, |nodes|), sz.projects)
      invariant Hold(uSets, Grown(p.users, tagged, i), sz.users)
    {
      var newUsers, delta := TagUsersAt(nodes, uSets, pSets, projects, sets, sent, commits, bs, p, known, found,
                                        tagged, sz);
      sets, sent := sets + [newUsers], sent + [delta];
    }
  }

  // ----- a stage -----

  /** Every node has the sets of p. */
  ghost predicate AllHave(uSets: seq<Set>, pSets: seq<Set>, p: Progress, sz: Sizes)
    reads Objects(uSets), Objects(pSets)
  {
    Hold(uSets, Same(p.users, |uSets|), sz.users) && Hold(pSets, Same(p.projects, |pSets|), sz.projects)
  }

  /** After merging all have the same, and the union with it is the same for all. */
  lemma MergedIsSame(base: set<int>, tagged: seq<set<int>>, total: set<int>)
    requires Gather(tagged) == total && forall i :: 0 <= i < |tagged| ==> AfterMerge(tagged, i) == total
    ensures Merged(tagged, |tagged|) == Same(total, |tagged|)
    ensures AddUp(Grown(base, tagged, |tagged|), Same(total, |tagged|), base + total)
  {
    forall i | 0 <= i < |tagged|
      ensures Grown(base, tagged, |tagged|)[i] + Same(total, |tagged|)[i] == base + total
    {
      forall x | x in tagged[i] { GatherMember(tagged, x); }
    }
  }

  /** The nodes' deltas make up what one node with all the rows would tag. */
  ghost predicate MakeUp(tagged: seq<set<int>>, base: set<int>, total: set<int>) {
    && Gather(tagged) == total && Merged(tagged, |tagged|) == Same(total, |tagged|)
    && AddUp(Grown(base, tagged, |tagged|), Same(total, |tagged|), base + total)
  }

  lemma ProjectsMakeUp(n: nat, p: Progress, commits: seq<Commit>, bs: nat, sz: Sizes)
    requires bs > 0 && n > 0
    ensures MakeUp(ProjectsTagged(n, p, commits, bs, sz), p.projects, TaggedProjects(p, commits, sz))
  {
    ProjectsTaggedTogether(p, commits, bs, n, sz, ProjectsTagged(n, p, commits, bs, sz));
    MergedIsSame(p.projects, ProjectsTagged(n, p, commits, bs, sz), TaggedProjects(p, commits, sz));
  }

  lemma UsersMakeUp(n: nat, p: Progress, found: set<int>, commits: seq<Commit>, bs: nat, sz: Sizes)
    requires bs > 0 && n > 0
    ensures MakeUp(UsersTagged(n, p, found, commits, bs, sz), p.users, TaggedUsers(p, found, commits, sz))
  {
    UsersTaggedTogether(p, found, commits, bs, n, sz, UsersTagged(n, p, found, commits, bs, sz));
    MergedIsSame(p.users, UsersTagged(n, p, found, commits, bs, sz), TaggedUsers(p, found, commits, sz));
  }

  /** merge and union_ on all nodes, for what they have tagged. */
  method MergeTagged(nodes: seq<Linus>, targets: seq<Set>, sets: seq<Set>, ex: Exchange, name: String, stage: nat,
                     sent: seq<seq<int>>,
                     ghost base: set<int>, ghost tagged: seq<set<int>>, ghost total: set<int>, ghost size: nat)
    returns (ghost frames: seq<seq<int>>)
    requires ex.Contents().Some? && (name == USERS || name == PROJECTS) && Fits(ex.args.numNodes, stage, size)
    requires 0 < |nodes| == |targets| == |tagged| == ex.args.numNodes && Distinct(targets) && Apart(targets, sets)
    requires Collected(sets, sent, tagged, size) && MakeUp(tagged, base, total)
    requires Hold(targets, Grown(base, tagged, |nodes|), size)
    modifies Objects(sets) + Objects(targets), ex, ex.store
    ensures Hold(sets, Same(total, |nodes|), size) && Hold(targets, Same(base + total, |nodes|), size)
    ensures Traded(frames, tagged, size) && ex.Contents().Some?
    ensures Adds(old(ex.Contents()).value, ex.Contents().value, name, stage, frames, 0, |frames|)
  {
    ApartObjects(targets, sets);
    frames := MergeAndUnion(nodes, targets, sets, ex, name, stage, sent, Grown(base, tagged, |nodes|), tagged,
                            total, base + total, size);
  }

  /** The same beside sets that it does not touch. */
  method MergeBeside(nodes: seq<Linus>, targets: seq<Set>, sets: seq<Set>, ex: Exchange, name: String, stage: nat,
                     sent: seq<seq<int>>, ghost others: seq<Set>,
                     ghost base: set<int>, ghost tagged: seq<set<int>>, ghost total: set<int>, ghost size: nat,
                     ghost held: seq<set<int>>, ghost otherSize: nat)
    returns (ghost frames: seq<seq<int>>)
    requires ex.Contents().Some? && (name == USERS || name == PROJECTS) && Fits(ex.args.numNodes, stage, size)
    requires 0 < |nodes| == |targets| == |tagged| == ex.args.numNodes && Distinct(targets)
    requires Apart(targets, sets) && Apart(others, sets) && Apart(others, targets)
    requires Collected(sets, sent, tagged, size) && MakeUp(tagged, base, total)
    requires Hold(targets, Grown(base, tagged, |nodes|), size) && Hold(others, held, otherSize)
    modifies Objects(sets) + Objects(targets), ex, ex.store
    ensures Hold(sets, Same(total, |nodes|), size) && Hold(targets, Same(base + total, |nodes|), size)
    ensures Hold(others, held, otherSize) && Traded(frames, tagged, size) && ex.Contents().Some?
    ensures Adds(old(ex.Contents()).value, ex.Contents().value, name, stage, frames, 0, |frames|)
  {
    ApartObjects(others, sets);
    ApartObjects(others, targets);
    Outside(ex, others);
    frames := MergeTagged(nodes, targets, sets, ex, name, stage, sent, base, tagged, total, size);
  }

  /** The exchange can take the frames of a stage. */
  ghost predicate Ready(ex: Exchange, n: nat, stage: nat, sz: Sizes)
    reads ex, ex.store
  {
    ex.Contents().Some? && ex.args.numNodes == n && Fits(n, stage, sz.users) && Fits(n, stage, sz.projects)
  }

  /** Up to merge, into sets that are apart from those of the nodes. */
  method TagProjectsApart(nodes: seq<Linus>, uSets: seq<Set>, pSets: seq<Set>, ex: Exchange, key: Key,
                          ghost newUsers: seq<int>, ghost commits: seq<Commit>, ghost bs: nat, ghost p: Progress,
                          ghost tagged: seq<set<int>>, ghost sz: Sizes)
    returns (sets: seq<Set>, sent: seq<seq<int>>)
    requires IsCluster(nodes, uSets, pSets, commits, bs) && AllHave(uSets, pSets, p, sz)
    requires ex.Has(key, newUsers) && Brings(newUsers, p.delta, sz.users)
    requires tagged == ProjectsTagged(|nodes|, p, commits, bs, sz)
    modifies Objects(pSets)
    ensures fresh(Objects(sets)) && Collected(sets, sent, tagged, sz.projects)
    ensures Apart(sets, uSets) && Apart(uSets, sets) && Apart(pSets, sets)
    ensures Hold(uSets, Same(p.users, |nodes|), sz.users)
    ensures Hold(pSets, Grown(p.projects, tagged, |nodes|), sz.projects)
  {
    sets, sent := TagAllProjects(nodes, uSets, pSets, ex, key, newUsers, commits, bs, p, tagged, sz);
    FreshApart(sets, uSets);
    FreshApart(sets, pSets);
  }

  /** The frame of node 0 is the one that the others fetch. */
  lemma FirstFrame(before: map<Key, seq<int>>, after: map<Key, seq<int>>, name: String, stage: nat,
                   frames: seq<seq<int>>, tagged: seq<set<int>>, size: nat)
    requires Traded(frames, tagged, size) && Adds(before, after, name, stage, frames, 0, |frames|)
    ensures At(after, DeltaKey(name, stage, 0)) == Some(frames[0]) && Delivered(frames[0], Gather(tagged), size)
  {
  }

  /** Tagging and merging the projects, on all nodes. */
  method MergeProjects(nodes: seq<Linus>, uSets: seq<Set>, pSets: seq<Set>, ex: Exchange, stage: nat,
                       ghost newUsers: seq<int>, ghost commits: seq<Commit>, ghost bs: nat, ghost p: Progress,
                       ghost tagged: seq<set<int>>, ghost found: set<int>, ghost sz: Sizes)
    returns (sets: seq<Set>, ghost frames: seq<seq<int>>)
    requires IsCluster(nodes, uSets, pSets, commits, bs) && AllHave(uSets, pSets, p, sz)
    requires Ready(ex, |nodes|, stage, sz)
    requires ex.Has(DeltaKey(USERS, stage, 0), newUsers) && Brings(newUsers, p.delta, sz.users)
    requires tagged == ProjectsTagged(|nodes|, p, commits, bs, sz) && MakeUp(tagged, p.projects, found)
    modifies Objects(pSets), ex, ex.store
    ensures Apart(sets, uSets) && Hold(sets, Same(found, |nodes|), sz.projects)
    ensures Hold(uSets, Same(p.users, |nodes|), sz.users)
    ensures Hold(pSets, Same(p.projects + found, |nodes|), sz.projects)
    ensures Traded(frames, tagged, sz.projects) && ex.Contents().Some?
    ensures Adds(old(ex.Contents()).value, ex.Contents().value, PROJECTS, stage, frames, 0, |frames|)
  {
    Outside(ex, pSets);
    var sent;
    sets, sent := TagProjectsApart(nodes, uSets, pSets, ex, DeltaKey(USERS, stage, 0), newUsers, commits, bs, p,
                                   tagged, sz);
    frames := MergeBeside(nodes, pSets, sets, ex, PROJECTS, stage, sent, uSets, p.projects, tagged, found,
                          sz.projects, Same(p.users, |nodes|), sz.users);
  }

  /** The first half of step on all nodes: sets is what each then holds as new projects,
      and the frames "projects-stage-i" are stored, beside the frame of users. */
  method StageProjects(nodes: seq<Linus>, uSets: seq<Set>, pSets: seq<Set>, ex: Exchange, stage: nat,
                       ghost newUsers: seq<int>, ghost commits: seq<Commit>, ghost bs: nat, ghost p: Progress,
                       ghost found: set<int>, ghost sz: Sizes)
    returns (sets: seq<Set>, ghost frames: seq<seq<int>>)
    requires IsCluster(nodes, uSets, pSets, commits, bs) && AllHave(uSets, pSets, p, sz)
    requires Ready(ex, |nodes|, stage, sz)
    requires ex.Has(DeltaKey(USERS, stage, 0), newUsers) && Brings(newUsers, p.delta, sz.users)
    requires MakeUp(ProjectsTagged(|nodes|, p, commits, bs, sz), p.projects, found)
    modifies Objects(pSets), ex, ex.store
    ensures Apart(sets, uSets) && Hold(sets, Same(found, |nodes|), sz.projects)
    ensures AllHave(uSets, pSets, p.(projects := p.projects + found), sz)
    ensures Traded(frames, ProjectsTagged(|nodes|, p, commits, bs, sz), sz.projects) && ex.Contents().Some?
    ensures Adds(old(ex.Contents()).value, ex.Contents().value, PROJECTS, stage, frames, 0, |frames|)
    ensures ex.Has(DeltaKey(USERS, stage, 0), newUsers) && ex.Has(DeltaKey(PROJECTS, stage, 0), frames[0])
    ensures Delivered(frames[0], found, sz.projects)
  {
    ghost var tagged := ProjectsTagged(|nodes|, p, commits, bs, sz);
    ghost var before := ex.Contents().value;
    sets, frames := MergeProjects(nodes, uSets, pSets, ex, stage, newUsers, commits, bs, p, tagged, found, sz);
    OtherFramesStay(before, ex.Contents().value, PROJECTS, stage, frames, USERS, stage, 0);
    FirstFrame(before, ex.Contents().value, PROJECTS, stage, frames, tagged, sz.projects);
  }

  method TagUsersApart(nodes: seq<Linus>, uSets: seq<Set>, pSets: seq<Set>, projects: seq<Set>,
                       ghost commits: seq<Commit>, ghost bs: nat, ghost p: Progress, ghost known: set<int>,
                       ghost found: set<int>, ghost tagged: seq<set<int>>, ghost sz: Sizes)
    returns (sets: seq<Set>, sent: seq<seq<int>>)
    requires IsCluster(nodes, uSets, pSets, commits, bs) && Apart(projects, uSets)
    requires Hold(uSets, Same(p.users, |nodes|), sz.users) && Hold(pSets, Same(known, |nodes|), sz.projects)
    requires Hold(projects, Same(found, |nodes|), sz.projects)
    requires tagged == UsersTagged(|nodes|, p, found, commits, bs, sz)
    modifies Objects(uSets)
    ensures fresh(Objects(sets)) && Collected(sets, sent, tagged, sz.users)
    ensures Apart(pSets, sets) && Apart(uSets, sets)
    ensures Hold(pSets, Same(known, |nodes|), sz.projects) && Hold(uSets, Grown(p.users, tagged, |nodes|), sz.users)
  {
    sets, sent := TagAllUsers(nodes, uSets, pSets, projects, commits, bs, p, known, found, tagged, sz);
    FreshApart(sets, uSets);
    FreshApart(sets, pSets);
  }

  /** Tagging and merging the users, on all nodes. */
  method MergeUsers(nodes: seq<Linus>, uSets: seq<Set>, pSets: seq<Set>, projects: seq<Set>, ex: Exchange,
                    stage: nat, ghost commits: seq<Commit>, ghost bs: nat, ghost p: Progress, ghost known: set<int>,
                    ghost found: set<int>, ghost tagged: seq<set<int>>, ghost added: set<int>, ghost sz: Sizes)
    returns (ghost frames: seq<seq<int>>)
    requires IsCluster(nodes, uSets, pSets, commits, bs) && Apart(projects, uSets)
    requires Ready(ex, |nodes|, stage, sz)
    requires Hold(uSets, Same(p.users, |nodes|), sz.users) && Hold(pSets, Same(known, |nodes|), sz.projects)
    requires Hold(projects, Same(found, |nodes|), sz.projects)
    requires tagged == UsersTagged(|nodes|, p, found, commits, bs, sz) && MakeUp(tagged, p.users, added)
    modifies Objects(uSets), ex, ex.store
    ensures Hold(uSets, Same(p.users + added, |nodes|), sz.users) && Hold(pSets, Same(known, |nodes|), sz.projects)
    ensures Traded(frames, tagged, sz.users) && ex.Contents().Some?
    ensures Adds(old(ex.Contents()).value, ex.Contents().value, USERS, stage, frames, 0, |frames|)
  {
    Outside(ex, uSets);
    var sets, sent := TagUsersApart(nodes, uSets, pSets, projects, commits, bs, p, known, found, tagged, sz);
    frames := MergeBeside(nodes, uSets, sets, ex, USERS, stage, sent, pSets, p.users, tagged, added, sz.users,
                          Same(known, |nodes|), sz.projects);
  }

  /** The second half of step on all nodes: the frames "users-stage-i" are stored. */
  method StageUsers(nodes: seq<Linus>, uSets: seq<Set>, pSets: seq<Set>, projects: seq<Set>, ex: Exchange,
                    stage: nat, ghost commits: seq<Commit>, ghost bs: nat,
                    ghost p: Progress, ghost known: set<int>, ghost found: set<int>, ghost added: set<int>,
                    ghost sz: Sizes)
    returns (ghost frames: seq<seq<int>>)
    requires IsCluster(nodes, uSets, pSets, commits, bs) && Apart(projects, uSets)
    requires Ready(ex, |nodes|, stage, sz)
    requires Hold(uSets, Same(p.users, |nodes|), sz.users) && Hold(pSets, Same(known, |nodes|), sz.projects)
    requires Hold(projects, Same(found, |nodes|), sz.projects)
    requires MakeUp(UsersTagged(|nodes|, p, found, commits, bs, sz), p.users, added)
    modifies Objects(uSets), ex, ex.store
    ensures Hold(uSets, Same(p.users + added, |nodes|), sz.users) && Hold(pSets, Same(known, |nodes|), sz.projects)
    ensures Traded(frames, UsersTagged(|nodes|, p, found, commits, bs, sz), sz.users) && ex.Contents().Some?
    ensures Adds(old(ex.Contents()).value, ex.Contents().value, USERS, stage, frames, 0, |frames|)
    ensures ex.Has(DeltaKey(USERS, stage, 0), frames[0]) && Delivered(frames[0], added, sz.users)
  {
    ghost var tagged := UsersTagged(|nodes|, p, found, commits, bs, sz);
    ghost var before := ex.Contents().value;
    frames := MergeUsers(nodes, uSets, pSets, projects, ex, stage, commits, bs, p, known, found, tagged, added, sz);
    FirstFrame(before, ex.Contents().value, USERS, stage, frames, tagged, sz.users);
  }

  /** The frame under node 0's key lists the total, and under every other node's key what
      that node tagged. */
  ghost predicate FramesList(rows: map<Key, seq<int>>, name: String, stage: nat, total: set<int>,
                             tagged: seq<set<int>>, size: nat)
  {
    forall i :: 0 <= i < |tagged| ==>
      && DeltaKey(name, stage, i) in rows
      && Delivered(rows[DeltaKey(name, stage, i)], if i == 0 then total else tagged[i], size)
  }

  /** What a stage that begins with p leaves in the stores: under "projects-stage-0" the new
      projects, under "users-stage+1-0" the new users, and beside them the nodes' deltas. */
  ghost predicate StageFrames(rows: map<Key, seq<int>>, stage: nat, n: nat, p: Progress, commits: seq<Commit>,
                              bs: nat, sz: Sizes)
    requires bs > 0
  {
    var found := TaggedProjects(p, commits, sz);
    && FramesList(rows, PROJECTS, stage, found, ProjectsTagged(n, p, commits, bs, sz), sz.projects)
    && FramesList(rows, USERS, stage + 1, Stage(p, commits, sz).delta, UsersTagged(n, p, found, commits, bs, sz),
                  sz.users)
  }

  /** All frames but those of the stage are what they were. */
  ghost predicate OnlyStage(before: map<Key, seq<int>>, after: map<Key, seq<int>>, stage: nat, n: nat) {
    forall k {:trigger At(after, k)} :: !IsPart(k, PROJECTS, stage, 0, n) && !IsPart(k, USERS, stage + 1, 0, n) ==>
      At(after, k) == At(before, k)
  }

  lemma TradedAreListed(before: map<Key, seq<int>>, after: map<Key, seq<int>>, name: String, stage: nat,
                        frames: seq<seq<int>>, tagged: seq<set<int>>, size: nat)
    requires Traded(frames, tagged, size) && Adds(before, after, name, stage, frames, 0, |frames|)
    ensures FramesList(after, name, stage, Gather(tagged), tagged, size)
  {
    forall i | 0 <= i < |tagged|
      ensures DeltaKey(name, stage, i) in after
      ensures Delivered(after[DeltaKey(name, stage, i)], if i == 0 then Gather(tagged) else tagged[i], size)
    {
      assert At(after, DeltaKey(name, stage, i)) == Some(frames[i]);
    }
  }

  lemma ListedStay(before: map<Key, seq<int>>, after: map<Key, seq<int>>, name: String, stage: nat, total: set<int>,
                   tagged: seq<set<int>>, size: nat)
    requires FramesList(before, name, stage, total, tagged, size)
    requires forall i: nat :: At(after, DeltaKey(name, stage, i)) == At(before, DeltaKey(name, stage, i))
    ensures FramesList(after, name, stage, total, tagged, size)
  {
    forall i | 0 <= i < |tagged|
      ensures DeltaKey(name, stage, i) in after
      ensures Delivered(after[DeltaKey(name, stage, i)], if i == 0 then total else tagged[i], size)
    {
      assert At(after, DeltaKey(name, stage, i)) == At(before, DeltaKey(name, stage, i));
    }
  }

  /** Both halves of a stage together. */
  lemma StageStored(before: map<Key, seq<int>>, mid: map<Key, seq<int>>, after: map<Key, seq<int>>, stage: nat,
                    n: nat, p: Progress, commits: seq<Commit>, bs: nat, sz: Sizes,
                    pFrames: seq<seq<int>>, uFrames: seq<seq<int>>)
    requires bs > 0 && n > 0
    requires Traded(pFrames, ProjectsTagged(n, p, commits, bs, sz), sz.projects)
    requires Traded(uFrames, UsersTagged(n, p, TaggedProjects(p, commits, sz), commits, bs, sz), sz.users)
    requires Adds(before, mid, PROJECTS, stage, pFrames, 0, |pFrames|)
    requires Adds(mid, after, USERS, stage + 1, uFrames, 0, |uFrames|)
    ensures StageFrames(after, stage, n, p, commits, bs, sz) && OnlyStage(before, after, stage, n)
  {
    var found := TaggedProjects(p, commits, sz);
    var pTagged, uTagged := ProjectsTagged(n, p, commits, bs, sz), UsersTagged(n, p, found, commits, bs, sz);
    ProjectsMakeUp(n, p, commits, bs, sz);
    UsersMakeUp(n, p, found, commits, bs, sz);
    TradedAreListed(before, mid, PROJECTS, stage, pFrames, pTagged, sz.projects);
    TradedAreListed(mid, after, USERS, stage + 1, uFrames, uTagged, sz.users);
    forall i: nat
      ensures At(after, DeltaKey(PROJECTS, stage, i)) == At(mid, DeltaKey(PROJECTS, stage, i))
    {
      OtherFramesStay(mid, after, USERS, stage + 1, uFrames, PROJECTS, stage, i);
    }
    ListedStay(mid, after, PROJECTS, stage, found, pTagged, sz.projects);
    OnlyStageChanged(before, mid, after, stage, pFrames, uFrames);
  }

  lemma OnlyStageChanged(before: map<Key, seq<int>>, mid: map<Key, seq<int>>, after: map<Key, seq<int>>, stage: nat,
                         pFrames: seq<seq<int>>, uFrames: seq<seq<int>>)
    requires |pFrames| == |uFrames|
    requires Adds(before, mid, PROJECTS, stage, pFrames, 0, |pFrames|)
    requires Adds(mid, after, USERS, stage + 1, uFrames, 0, |uFrames|)
    ensures OnlyStage(before, after, stage, |pFrames|)
  {
    forall k | !IsPart(k, PROJECTS, stage, 0, |pFrames|) && !IsPart(k, USERS, stage + 1, 0, |pFrames|)
      ensures At(after, k) == At(before, k)
    {
      assert At(after, k) == At(mid, k);
    }
  }

  /** A later stage leaves the frames of the stages before it. */
  lemma StageFramesStay(before: map<Key, seq<int>>, after: map<Key, seq<int>>, stage: nat, s: nat, n: nat,
                        p: Progress, commits: seq<Commit>, bs: nat, sz: Sizes)
    requires bs > 0 && s < stage && OnlyStage(before, after, stage, n)
    requires StageFrames(before, s, n, p, commits, bs, sz)
    ensures StageFrames(after, s, n, p, commits, bs, sz)
  {
    var found := TaggedProjects(p, commits, sz);
    OtherStage(before, after, stage, n, PROJECTS, s);
    OtherStage(before, after, stage, n, USERS, s + 1);
    ListedStay(before, after, PROJECTS, s, found, ProjectsTagged(n, p, commits, bs, sz), sz.projects);
    ListedStay(before, after, USERS, s + 1, Stage(p, commits, sz).delta, UsersTagged(n, p, found, commits, bs, sz),
               sz.users);
  }

  lemma OtherStage(before: map<Key, seq<int>>, after: map<Key, seq<int>>, stage: nat, n: nat, name: String, s: nat)
    requires OnlyStage(before, after, stage, n)
    requires (name == PROJECTS && s < stage) || (name == USERS && s <= stage)
    ensures forall i: nat :: At(after, DeltaKey(name, s, i)) == At(before, DeltaKey(name, s, i))
  {
    forall i: nat
      ensures At(after, DeltaKey(name, s, i)) == At(before, DeltaKey(name, s, i))
    {
      if IsPart(DeltaKey(name, s, i), PROJECTS, stage, 0, n) {
        var j: nat :| j < n && DeltaKey(name, s, i) == DeltaKey(PROJECTS, stage, j);
        DeltaKeysDiffer(name, s, i, PROJECTS, stage, j);
      }
      if IsPart(DeltaKey(name, s, i), USERS, stage + 1, 0, n) {
        var j: nat :| j < n && DeltaKey(name, s, i) == DeltaKey(USERS, stage + 1, j);
        DeltaKeysDiffer(name, s, i, USERS, stage + 1, j);
      }
    }
  }

  /** A stage on all nodes, in an order the waits allow: each half is tagged and stored by all,
      merged and published by node 0, and taken by the others, all through frames that one
      node stores and others fetch.  Every node ends with the sets of a stage on a single
      node; the stage's frames are stored under their keys, and every other frame stays. */
  method RunStage(nodes: seq<Linus>, uSets: seq<Set>, pSets: seq<Set>, ex: Exchange, stage: nat,
                  ghost newUsers: seq<int>, ghost commits: seq<Commit>, ghost bs: nat, ghost p: Progress,
                  ghost sz: Sizes)
    returns (ghost published: seq<int>)
    requires IsCluster(nodes, uSets, pSets, commits, bs) && AllHave(uSets, pSets, p, sz)
    requires Ready(ex, |nodes|, stage + 1, sz)
    requires ex.Has(DeltaKey(USERS, stage, 0), newUsers) && Brings(newUsers, p.delta, sz.users)
    modifies Objects(uSets) + Objects(pSets), ex, ex.store
    ensures AllHave(uSets, pSets, Stage(p, commits, sz), sz)
    ensures ex.Has(DeltaKey(USERS, stage + 1, 0), published)
    ensures Delivered(published, Stage(p, commits, sz).delta, sz.users) && ex.Contents().Some?
    ensures StageFrames(ex.Contents().value, stage, |nodes|, p, commits, bs, sz)
    ensures OnlyStage(old(ex.Contents()).value, ex.Contents().value, stage, |nodes|)
  {
    ghost var found := TaggedProjects(p, commits, sz);
    ghost var added := TaggedUsers(p, found, commits, sz);
    ProjectsMakeUp(|nodes|, p, commits, bs, sz);
    UsersMakeUp(|nodes|, p, found, commits, bs, sz);
    Outside(ex, uSets);
    Outside(ex, pSets);
    ghost var before := ex.Contents().value;
    var projects, pFrames := StageProjects(nodes, uSets, pSets, ex, stage, newUsers, commits, bs, p, found, sz);
    ghost var mid := ex.Contents().value;
    ghost var uFrames := StageUsers(nodes, uSets, pSets, projects, ex, stage + 1, commits, bs, p, p.projects + found,
                                    found, added, sz);
    published := uFrames[0];
    StageStored(before, mid, ex.Contents().value, stage, |nodes|, p, commits, bs, sz, pFrames, uFrames);
  }

  // ----- a run -----

  lemma HoldMore(sets: seq<Set>, size: nat, s: Set)
    requires Hold(sets, Same({}, |sets|), size) && s.Valid() && s.vals.Length == size && s.Members == {}
    ensures Hold(sets + [s], Same({}, |sets| + 1), size)
  {
  }

  lemma DistinctMore(sets: seq<Set>, s: Set)
    requires Distinct(sets) && forall t :: t in sets ==> t != s && t.vals != s.vals
    ensures Distinct(sets + [s])
  {
    assert forall i :: 0 <= i < |sets| ==> sets[i] in sets;
  }

  lemma ApartMore(a: seq<Set>, b: seq<Set>, s: Set, t: Set)
    requires Apart(a, b) && s != t && s.vals != t.vals
    requires forall x :: x in a ==> x != t && x.vals != t.vals
    requires forall x :: x in b ==> x != s && x.vals != s.vals
    ensures Apart(a + [s], b + [t])
  {
  }

  /** The nodes made so far, each with its two sets. */
  ghost predicate Made(nodes: seq<Linus>, uSets: seq<Set>, pSets: seq<Set>, n: nat, commits: seq<Commit>, bs: nat) {
    && |nodes| == |uSets| == |pSets|
    && (forall j :: 0 <= j < |nodes| ==>
          && nodes[j].idx == j && nodes[j].numNodes == n && nodes[j].blockSize == bs && nodes[j].commits == commits
          && nodes[j].uSet == uSets[j] && nodes[j].pSet == pSets[j])
  }

  /** readInput on n nodes: each makes its own two sets, empty. */
  method NewCluster(n: nat, commits: seq<Commit>, bs: nat, sz: Sizes)
    returns (nodes: seq<Linus>, uSets: seq<Set>, pSets: seq<Set>)
    requires n > 0 && bs > 0
    ensures |nodes| == n && IsCluster(nodes, uSets, pSets, commits, bs)
    ensures forall s :: s in uSets + pSets ==> fresh(s) && fresh(s.vals)
    ensures Hold(uSets, Same({}, n), sz.users) && Hold(pSets, Same({}, n), sz.projects)
  {
    nodes, uSets, pSets := [], [], [];
    for i := 0 to n
      invariant |nodes| == i && Made(nodes, uSets, pSets, n, commits, bs)
      invariant forall s :: s in uSets + pSets ==> fresh(s) && fresh(s.vals)
      invariant Distinct(uSets) && Distinct(pSets) && Apart(uSets, pSets)
      invariant Hold(uSets, Same({}, i), sz.users) && Hold(pSets, Same({}, i), sz.projects)
    {
      var node := new Linus(i, sz.users, sz.projects, commits, bs, n);
      HoldMore(uSets, sz.users, node.uSet);
      HoldMore(pSets, sz.projects, node.pSet);
      DistinctMore(uSets, node.uSet);
      DistinctMore(pSets, node.pSet);
      ApartMore(uSets, pSets, node.uSet, node.pSet);
      nodes, uSets, pSets := nodes + [node], uSets + [node.uSet], pSets + [node.pSet];
    }
  }

  /** The frame with Linus alone. */
  method SendLinus(ex: Exchange, linus: int, stages: nat, ghost sz: Sizes)
    requires Ready(ex, ex.args.numNodes, stages, sz) && Codec.IsInt(linus)
    modifies ex, ex.store
    ensures ex.Has(DeltaKey(USERS, 0, 0), [linus])
  {
    DeltaKeyIsValid(USERS, 0, 0);
    ex.Send(DeltaKey(USERS, 0, 0), [linus]);
  }

  /** Before the first stage: the nodes with empty sets, and the frame with Linus alone. */
  method StartRun(store: Stores, args: Args, stages: nat, linus: int, commits: seq<Commit>, sz: Sizes)
    returns (nodes: seq<Linus>, uSets: seq<Set>, pSets: seq<Set>, ex: Exchange)
    requires args.Valid() && Codec.IsInt(linus)
    requires Fits(args.numNodes, stages, sz.users) && Fits(args.numNodes, stages, sz.projects)
    modifies store
    ensures |nodes| == args.numNodes && IsCluster(nodes, uSets, pSets, commits, args.blockSize)
    ensures fresh(Objects(uSets)) && fresh(Objects(pSets)) && fresh(ex) && ex.store == store && ex.args == args
    ensures Hold(uSets, Same({}, |nodes|), sz.users) && Hold(pSets, Same({}, |nodes|), sz.projects)
    ensures ex.Has(DeltaKey(USERS, 0, 0), [linus])
  {
    ex := new Exchange(store, args);
    SendLinus(ex, linus, stages, sz);
    nodes, uSets, pSets := NewCluster(args.numNodes, commits, args.blockSize, sz);
    FreshHalves(uSets, pSets);
  }

  /** The frames of the first stages, and the one with Linus alone. */
  ghost predicate RunFrames(rows: map<Key, seq<int>>, stages: nat, n: nat, linus: int, commits: seq<Commit>, bs: nat,
                            sz: Sizes)
    requires bs > 0
  {
    && At(rows, DeltaKey(USERS, 0, 0)) == Some([linus])
    && forall s: nat {:trigger StageFrames(rows, s, n, Stages(s, Start(linus, sz), commits, sz), commits, bs, sz)} ::
         s < stages ==> StageFrames(rows, s, n, Stages(s, Start(linus, sz), commits, sz), commits, bs, sz)
  }

  lemma RunFramesNext(before: map<Key, seq<int>>, after: map<Key, seq<int>>, i: nat, n: nat, linus: int,
                      commits: seq<Commit>, bs: nat, sz: Sizes)
    requires bs > 0 && RunFrames(before, i, n, linus, commits, bs, sz) && OnlyStage(before, after, i, n)
    requires StageFrames(after, i, n, Stages(i, Start(linus, sz), commits, sz), commits, bs, sz)
    ensures RunFrames(after, i + 1, n, linus, commits, bs, sz)
  {
    OtherStage(before, after, i, n, USERS, 0);
    forall s: nat | s < i
      ensures StageFrames(after, s, n, Stages(s, Start(linus, sz), commits, sz), commits, bs, sz)
    {
      StageFramesStay(before, after, i, s, n, Stages(s, Start(linus, sz), commits, sz), commits, bs, sz);
    }
  }

  /** Linus on all nodes for the given number of stages, from the frame with Linus alone, the
      nodes trading their deltas through frames in the stores: every node ends with the sets
      that the stages make on a single node, and the stores hold every stage's frames. */
  method Run(store: Stores, args: Args, stages: nat, linus: int, commits: seq<Commit>, sz: Sizes)
    returns (nodes: seq<Linus>, uSets: seq<Set>, pSets: seq<Set>, ex: Exchange)
    requires args.Valid() && Codec.IsInt(linus)
    requires Fits(args.numNodes, stages, sz.users) && Fits(args.numNodes, stages, sz.projects)
    modifies store
    ensures |nodes| == args.numNodes && IsCluster(nodes, uSets, pSets, commits, args.blockSize)
    ensures AllHave(uSets, pSets, Stages(stages, Start(linus, sz), commits, sz), sz)
    ensures ex.store == store && ex.args == args && ex.Contents().Some?
    ensures RunFrames(ex.Contents().value, stages, |nodes|, linus, commits, args.blockSize, sz)
  {
    nodes, uSets, pSets, ex := StartRun(store, args, stages, linus, commits, sz);
    Outside(ex, uSets);
    Outside(ex, pSets);
    ghost var newUsers := [linus];
    for i := 0 to stages
      invariant AllHave(uSets, pSets, Stages(i, Start(linus, sz), commits, sz), sz)
      invariant ex.Has(DeltaKey(USERS, i, 0), newUsers)
      invariant Brings(newUsers, Stages(i, Start(linus, sz), commits, sz).delta, sz.users)
      invariant RunFrames(ex.Contents().value, i, |nodes|, linus, commits, args.blockSize, sz)
    {
      ghost var before := ex.Contents().value;
      newUsers := RunStage(nodes, uSets, pSets, ex, i, newUsers, commits, args.blockSize,
                           Stages(i, Start(linus, sz), commits, sz), sz);
      RunFramesNext(before, ex.Contents().value, i, |nodes|, linus, commits, args.blockSize, sz);
    }
  }
}
