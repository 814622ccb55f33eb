/**
 The Linus computation spread over N nodes: each node tags the projects and users
 it sees in its own rows, node 0 merges and publishes, every node takes the union.
 */
module LinusCluster {
  import opened RowBlocks
  import opened Collaborators

  /** The commits whose rows are homed on node id, in row order. */
  function LocalCommits(commits: seq<Commit>, bs: nat, numNodes: nat, id: nat): (r: seq<Commit>)
    requires bs > 0 && numNodes > 0
  {
    var rows := RowsOf(|commits|, bs, numNodes, id);
    RowsOfIncreasing(|commits|, bs, numNodes, id);
    seq(|rows|, i requires 0 <= i < |rows| => commits[rows[i]])
  }

  /** The union node 0 builds from its own set and the others' deltas. */
  function Gather(sets: seq<set<int>>): set<int> {
    if sets == [] then {} else Gather(sets[..|sets| - 1]) + sets[|sets| - 1]
  }

  /** What a node holds after merge: node 0 the union; another node its own set, updated
      with the published union. */
  function AfterMerge(sets: seq<set<int>>, id: nat): set<int>
    requires id < |sets|
  {
    if id == 0 then Gather(sets) else sets[id] + Gather(sets)
  }

  /** ProjectsTagger mapped over the node's rows: projects touched by the delta, not tagged before. */
  function TaggedProjects(p: Progress, local: seq<Commit>, sz: Sizes): set<int> {
    ProjectsOf(local, p.delta, sz) - p.projects
  }

  /** UsersTagger mapped over the node's rows. */
  function TaggedUsers(p: Progress, newProjects: set<int>, local: seq<Commit>, sz: Sizes): set<int> {
    AuthorsOf(local, newProjects, sz) - p.users
  }

  /** One node's step: its sets after tagging locally and merging twice, and the
      delta that node 0 publishes for the next stage. */
  function NodeStep(p: Progress, local: seq<Commit>, newProjects: set<int>, newUsers: set<int>, published: set<int>,
                    sz: Sizes): Progress {
    Progress(p.users + TaggedUsers(p, newProjects, local, sz) + newUsers,
             p.projects + TaggedProjects(p, local, sz) + newProjects,
             published)
  }

  /** All nodes' step. */
  function ClusterStage(ps: seq<Progress>, commits: seq<Commit>, bs: nat, sz: Sizes): (r: seq<Progress>)
    requires bs > 0 && |ps| > 0
    ensures |r| == |ps|
  {
    var n := |ps|;
    var projects := seq(n, i requires 0 <= i < n => TaggedProjects(ps[i], LocalCommits(commits, bs, n, i), sz));
    var users := seq(n, i requires 0 <= i < n =>
      TaggedUsers(ps[i], AfterMerge(projects, i), LocalCommits(commits, bs, n, i), sz));
    seq(n, i requires 0 <= i < n =>
      NodeStep(ps[i], LocalCommits(commits, bs, n, i), AfterMerge(projects, i), AfterMerge(users, i), Gather(users),
               sz))
  }

  function ClusterStages(k: nat, n: nat, linus: int, commits: seq<Commit>, bs: nat, sz: Sizes): (r: seq<Progress>)
    requires bs > 0 && n > 0
    ensures |r| == n
  {
    if k == 0 then seq(n, i => Start(linus, sz))
    else ClusterStage(ClusterStages(k - 1, n, linus, commits, bs, sz), commits, bs, sz)
  }

  // ----- the rows are dealt out completely -----

  lemma LocalMember(commits: seq<Commit>, bs: nat, numNodes: nat, id: nat, c: Commit)
    requires bs > 0 && numNodes > 0 && c in LocalCommits(commits, bs, numNodes, id)
    ensures c in commits
  {
    RowsOfIncreasing(|commits|, bs, numNodes, id);
  }

  lemma SomeNodeHasIt(commits: seq<Commit>, bs: nat, numNodes: nat, c: Commit) returns (id: nat)
    requires bs > 0 && numNodes > 0 && c in commits
    ensures id < numNodes && c in LocalCommits(commits, bs, numNodes, id)
  {
    var i :| 0 <= i < |commits| && commits[i] == c;
    id := HomeOfRow(i, bs, numNodes);
    var rows := RowsOf(|commits|, bs, numNodes, id);
    RowsOfMember(|commits|, bs, numNodes, id, i);
    var j :| 0 <= j < |rows| && rows[j] == i;
    assert LocalCommits(commits, bs, numNodes, id)[j] == c;
  }

  lemma {:induction false} GatherMember(sets: seq<set<int>>, x: int)
    ensures x in Gather(sets) <==> exists i :: 0 <= i < |sets| && x in sets[i]
  {
    if sets != [] {
      GatherMember(sets[..|sets| - 1], x);
    }
  }

  /** What all nodes tag together is what one node with all the rows would tag. */
  lemma ProjectsTaggedTogether(p: Progress, commits: seq<Commit>, bs: nat, n: nat, sz: Sizes, sets: seq<set<int>>)
    requires bs > 0 && n > 0 && |sets| == n
    requires forall i :: 0 <= i < n ==> sets[i] == TaggedProjects(p, LocalCommits(commits, bs, n, i), sz)
    ensures Gather(sets) == TaggedProjects(p, commits, sz)
    ensures forall i :: 0 <= i < n ==> AfterMerge(sets, i) == Gather(sets)
  {
    forall x
      ensures x in Gather(sets) <==> x in TaggedProjects(p, commits, sz)
      ensures forall i :: 0 <= i < n && x in sets[i] ==> x in Gather(sets)
    {
      GatherMember(sets, x);
      if i :| 0 <= i < n && x in sets[i] {
        var c :| c in LocalCommits(commits, bs, n, i) && InRange(c.pid, sz.projects)
            && Test(p.delta, sz.users, c.author) && c.pid == x;
        LocalMember(commits, bs, n, i, c);
      }
      if x in TaggedProjects(p, commits, sz) {
        var c :| c in commits && InRange(c.pid, sz.projects) && Test(p.delta, sz.users, c.author) && c.pid == x;
        var id := SomeNodeHasIt(commits, bs, n, c);
        assert x in sets[id];
      }
    }
  }

  lemma UsersTaggedTogether(p: Progress, newProjects: set<int>, commits: seq<Commit>, bs: nat, n: nat, sz: Sizes,
                            sets: seq<set<int>>)
    requires bs > 0 && n > 0 && |sets| == n
    requires forall i :: 0 <= i < n ==> sets[i] == TaggedUsers(p, newProjects, LocalCommits(commits, bs, n, i), sz)
    ensures Gather(sets) == TaggedUsers(p, newProjects, commits, sz)
    ensures forall i :: 0 <= i < n ==> AfterMerge(sets, i) == Gather(sets)
  {
    forall x
      ensures x in Gather(sets) <==> x in TaggedUsers(p, newProjects, commits, sz)
      ensures forall i :: 0 <= i < n && x in sets[i] ==> x in Gather(sets)
    {
      GatherMember(sets, x);
      if i :| 0 <= i < n && x in sets[i] {
        var c :| c in LocalCommits(commits, bs, n, i) && InRange(c.author, sz.users)
            && Test(newProjects, sz.projects, c.pid) && c.author == x;
        LocalMember(commits, bs, n, i, c);
      }
      if x in TaggedUsers(p, newProjects, commits, sz) {
        var c :| c in commits && InRange(c.author, sz.users) && Test(newProjects, sz.projects, c.pid) && c.author == x;
        var id := SomeNodeHasIt(commits, bs, n, c);
        assert x in sets[id];
      }
    }
  }

  /** Nodes that agree before a stage agree after it, on what one node alone computes. */
  lemma ClusterStageIsStage(ps: seq<Progress>, p: Progress, commits: seq<Commit>, bs: nat, sz: Sizes)
    requires bs > 0 && |ps| > 0 && forall i :: 0 <= i < |ps| ==> ps[i] == p
    ensures forall i :: 0 <= i < |ps| ==> ClusterStage(ps, commits, bs, sz)[i] == Stage(p, commits, sz)
  {
    var n := |ps|;
    var projects := seq(n, i requires 0 <= i < n => TaggedProjects(ps[i], LocalCommits(commits, bs, n, i), sz));
    var users := seq(n, i requires 0 <= i < n =>
      TaggedUsers(ps[i], AfterMerge(projects, i), LocalCommits(commits, bs, n, i), sz));
    ProjectsTaggedTogether(p, commits, bs, n, sz, projects);
    var newProjects := Gather(projects);
    UsersTaggedTogether(p, newProjects, commits, bs, n, sz, users);
    forall i | 0 <= i < n
      ensures ClusterStage(ps, commits, bs, sz)[i] == Stage(p, commits, sz)
    {
      var local := LocalCommits(commits, bs, n, i);
      assert projects[i] <= newProjects by {
        forall x | x in projects[i] { GatherMember(projects, x); }
      }
      assert users[i] <= Gather(users) by {
        forall x | x in users[i] { GatherMember(users, x); }
      }
      assert p.projects + projects[i] + newProjects == p.projects + newProjects;
      assert p.users + users[i] + Gather(users) == p.users + Gather(users);
    }
  }

  /** The result does not depend on how many nodes run or how rows are cut into blocks:
      after every stage every node has the sets a single node would have. */
  lemma {:induction false} NodeCountDoesNotMatter(k: nat, n: nat, linus: int, commits: seq<Commit>, bs: nat, sz: Sizes)
    requires bs > 0 && n > 0
    ensures forall i :: 0 <= i < n ==>
              ClusterStages(k, n, linus, commits, bs, sz)[i] == Stages(k, Start(linus, sz), commits, sz)
  {
    if k > 0 {
      NodeCountDoesNotMatter(k - 1, n, linus, commits, bs, sz);
      ClusterStageIsStage(ClusterStages(k - 1, n, linus, commits, bs, sz),
                          Stages(k - 1, Start(linus, sz), commits, sz), commits, bs, sz);
    }
  }
}
