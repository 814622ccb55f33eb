/**
 One node of the Linus application as the objects the code has: bit sets, the two
 taggers mapped over the node's commits, the writer and updater that turn a set
 into rows and back, and the two merges of a step.
 */
module LinusNode {
  import opened RowBlocks
  import opened Collaborators
  import opened LinusCluster

  /** A fixed-size bit set with a count of its elements. */
  class Set {
    const vals: array<bool>
    var setSize: nat
    ghost var Members: set<int>

    ghost predicate Valid()
      reads this, vals
    {
      && (forall i :: i in Members <==> 0 <= i < vals.Length && vals[i])
      && setSize == |Members|
    }

    constructor (sz: nat)
      ensures Valid() && fresh(vals) && vals.Length == sz && Members == {}
    {
      vals := new bool[sz](_ => false);
      setSize := 0;
      Members := {};
    }

    /** set: ignores identifiers out of range and elements already there. */
    method Add(idx: int)
      requires Valid()
      modifies this, vals
      ensures Valid()
      ensures Members == if InRange(idx, vals.Length) then old(Members) + {idx} else old(Members)
    {
      if !(0 <= idx < vals.Length) {
        return;
      }
      if vals[idx] {
        return;
      }
      vals[idx] := true;
      setSize := setSize + 1;
      Members := Members + {idx};
    }

    method Contains(idx: int) returns (b: bool)
      requires Valid()
      ensures b == Test(Members, vals.Length, idx)
    {
      if !(0 <= idx < vals.Length) {
        return true;
      }
      return vals[idx];
    }

    /** union_, which walks the other set's range. */
    method Union(other: Set)
      requires Valid() && other.Valid() && other.vals.Length == vals.Length && other != this && other.vals != vals
      modifies this, vals
      ensures Valid() && Members == old(Members) + old(other.Members)
    {
      var i := 0;
      while i < other.vals.Length
        invariant 0 <= i <= other.vals.Length && Valid()
        invariant old(Members) <= Members <= old(Members) + other.Members
        invariant forall j :: 0 <= j < i && j in other.Members ==> j in Members
      {
        var b := other.Contains(i);
        if b {
          Add(i);
        }
        i := i + 1;
      }
    }
  }

  predicate TagsProject(c: Commit, users: set<int>, sz: Sizes) {
    InRange(c.pid, sz.projects) && Test(users, sz.users, c.author)
  }

  predicate TagsUser(c: Commit, projects: set<int>, sz: Sizes) {
    InRange(c.author, sz.users) && Test(projects, sz.projects, c.pid)
  }

  /** The projects tagged by the first i rows. */
  ghost function ProjectsUpTo(rows: seq<Commit>, i: nat, users: set<int>, sz: Sizes): set<int>
    requires i <= |rows|
  {
    if i == 0 then {}
    else ProjectsUpTo(rows, i - 1, users, sz) + if TagsProject(rows[i - 1], users, sz) then {rows[i - 1].pid} else {}
  }

  ghost function UsersUpTo(rows: seq<Commit>, i: nat, projects: set<int>, sz: Sizes): set<int>
    requires i <= |rows|
  {
    if i == 0 then {}
    else UsersUpTo(rows, i - 1, projects, sz) + if TagsUser(rows[i - 1], projects, sz) then {rows[i - 1].author} else {}
  }

  lemma {:induction false} TaggedByPrefix(rows: seq<Commit>, i: nat, s: set<int>, sz: Sizes)
    requires i <= |rows|
    ensures ProjectsUpTo(rows, i, s, sz) == ProjectsOf(rows[..i], s, sz)
    ensures UsersUpTo(rows, i, s, sz) == AuthorsOf(rows[..i], s, sz)
  {
    if i > 0 {
      TaggedByPrefix(rows, i - 1, s, sz);
      assert rows[..i] == rows[..i - 1] + [rows[i - 1]];
    }
  }

  lemma ProjectsByAllRows(rows: seq<Commit>, users: set<int>, sz: Sizes)
    ensures ProjectsUpTo(rows, |rows|, users, sz) == ProjectsOf(rows, users, sz)
  {
    assert rows[..|rows|] == rows;
    TaggedByPrefix(rows, |rows|, users, sz);
  }

  lemma UsersByAllRows(rows: seq<Commit>, projects: set<int>, sz: Sizes)
    ensures UsersUpTo(rows, |rows|, projects, sz) == AuthorsOf(rows, projects, sz)
  {
    assert rows[..|rows|] == rows;
    TaggedByPrefix(rows, |rows|, projects, sz);
  }

  /** One visit: both sets get what the row tags, unless it was marked before. */
  lemma OneVisit(found: set<int>, before: set<int>, new0: set<int>, all0: set<int>, tags: bool, x: int,
                 found': set<int>, new1: set<int>, all1: set<int>)
    requires new0 == found - before && all0 == before + new0
    requires found' == found + if tags then {x} else {}
    requires new1 == new0 + if tags && x !in all0 then {x} else {}
    requires all1 == all0 + if tags && x !in all0 then {x} else {}
    ensures new1 == found' - before && all1 == before + new1
  {
  }

  /** Marks the projects a known user authored a commit to; newProjects are the new ones. */
  class ProjectsTagger {
    const uSet: Set
    const pSet: Set
    const newProjects: Set

    constructor (uSet: Set, pSet: Set)
      requires uSet.Valid() && pSet.Valid() && uSet != pSet && uSet.vals != pSet.vals
      ensures Valid() && this.uSet == uSet && this.pSet == pSet
      ensures fresh(newProjects) && fresh(newProjects.vals) && newProjects.Members == {}
    {
      this.uSet, this.pSet := uSet, pSet;
      newProjects := new Set(pSet.vals.Length);
    }

    ghost predicate Valid()
      reads uSet, uSet.vals, pSet, pSet.vals, newProjects, newProjects.vals
    {
      && uSet.Valid() && pSet.Valid() && newProjects.Valid() && newProjects.vals.Length == pSet.vals.Length
      && uSet != pSet && uSet != newProjects && pSet != newProjects
      && uSet.vals != pSet.vals && uSet.vals != newProjects.vals && pSet.vals != newProjects.vals
    }

    ghost function Sizes(): Collaborators.Sizes {
      Collaborators.Sizes(uSet.vals.Length, pSet.vals.Length)
    }

    method Visit(row: Commit)
      requires Valid()
      modifies pSet, pSet.vals, newProjects, newProjects.vals
      ensures Valid()
      ensures var tags := TagsProject(row, uSet.Members, Sizes()) && row.pid !in old(pSet.Members);
        var added := if tags then {row.pid} else {};
        pSet.Members == old(pSet.Members) + added && newProjects.Members == old(newProjects.Members) + added
    {
      var isKnown := uSet.Contains(row.author);
      if isKnown {
        var isTagged := pSet.Contains(row.pid);
        if !isTagged {
          pSet.Add(row.pid);
          newProjects.Add(row.pid);
        }
      }
    }

    /** The first n rows have been visited, starting from the members before. */
    ghost predicate Marked(rows: seq<Commit>, n: nat, before: set<int>)
      requires n <= |rows|
      reads uSet, pSet, newProjects, uSet.vals, pSet.vals
    {
      && newProjects.Members == ProjectsUpTo(rows, n, uSet.Members, Sizes()) - before
      && pSet.Members == before + newProjects.Members
    }

    method VisitNext(rows: seq<Commit>, i: nat, ghost before: set<int>)
      requires Valid() && i < |rows| && Marked(rows, i, before)
      modifies pSet, pSet.vals, newProjects, newProjects.vals
      ensures Valid() && uSet.Members == old(uSet.Members) && Marked(rows, i + 1, before)
    {
      ghost var known, sz, new0, all0 := uSet.Members, Sizes(), newProjects.Members, pSet.Members;
      Visit(rows[i]);
      OneVisit(ProjectsUpTo(rows, i, known, sz), before, new0, all0, TagsProject(rows[i], known, sz), rows[i].pid,
               ProjectsUpTo(rows, i + 1, known, sz), newProjects.Members, pSet.Members);
    }

    /** The tagger mapped over the given rows. */
    method VisitAll(rows: seq<Commit>)
      requires Valid() && newProjects.Members == {}
      modifies pSet, pSet.vals, newProjects, newProjects.vals
      ensures Valid()
      ensures newProjects.Members == ProjectsUpTo(rows, |rows|, uSet.Members, Sizes()) - old(pSet.Members)
      ensures pSet.Members == old(pSet.Members) + newProjects.Members
    {
      ghost var before := pSet.Members;
      for i := 0 to |rows|
        invariant Valid() && uSet.Members == old(uSet.Members) && Marked(rows, i, before)
      {
        VisitNext(rows, i, before);
      }
    }
  }

  /** Marks the authors of commits to the given projects; newUsers are the new ones. */
  class UsersTagger {
    const pSet: Set
    const uSet: Set
    const newUsers: Set

    constructor (pSet: Set, uSet: Set)
      requires pSet.Valid() && uSet.Valid() && pSet != uSet && pSet.vals != uSet.vals
      ensures Valid() && this.pSet == pSet && this.uSet == uSet
      ensures fresh(newUsers) && fresh(newUsers.vals) && newUsers.Members == {}
    {
      this.pSet, this.uSet := pSet, uSet;
      newUsers := new Set(uSet.vals.Length);
    }

    ghost predicate Valid()
      reads pSet, pSet.vals, uSet, uSet.vals, newUsers, newUsers.vals
    {
      && pSet.Valid() && uSet.Valid() && newUsers.Valid() && newUsers.vals.Length == uSet.vals.Length
      && pSet != uSet && pSet != newUsers && uSet != newUsers
      && pSet.vals != uSet.vals && pSet.vals != newUsers.vals && uSet.vals != newUsers.vals
    }

    ghost function Sizes(): Collaborators.Sizes {
      Collaborators.Sizes(uSet.vals.Length, pSet.vals.Length)
    }

    method Visit(row: Commit)
      requires Valid()
      modifies uSet, uSet.vals, newUsers, newUsers.vals
      ensures Valid()
      ensures var tags := TagsUser(row, pSet.Members, Sizes()) && row.author !in old(uSet.Members);
        var added := if tags then {row.author} else {};
        uSet.Members == old(uSet.Members) + added && newUsers.Members == old(newUsers.Members) + added
    {
      var isKnown := pSet.Contains(row.pid);
      if isKnown {
        var isTagged := uSet.Contains(row.author);
        if !isTagged {
          uSet.Add(row.author);
          newUsers.Add(row.author);
        }
      }
    }

    /** The first n rows have been visited, starting from the members before. */
    ghost predicate Marked(rows: seq<Commit>, n: nat, before: set<int>)
      requires n <= |rows|
      reads uSet, pSet, newUsers, uSet.vals, pSet.vals
    {
      && newUsers.Members == UsersUpTo(rows, n, pSet.Members, Sizes()) - before
      && uSet.Members == before + newUsers.Members
    }

    method VisitNext(rows: seq<Commit>, i: nat, ghost before: set<int>)
      requires Valid() && i < |rows| && Marked(rows, i, before)
      modifies uSet, uSet.vals, newUsers, newUsers.vals
      ensures Valid() && pSet.Members == old(pSet.Members) && Marked(rows, i + 1, before)
    {
      ghost var known, sz, new0, all0 := pSet.Members, Sizes(), newUsers.Members, uSet.Members;
      Visit(rows[i]);
      OneVisit(UsersUpTo(rows, i, known, sz), before, new0, all0, TagsUser(rows[i], known, sz), rows[i].author,
               UsersUpTo(rows, i + 1, known, sz), newUsers.Members, uSet.Members);
    }

    /** The tagger mapped over the given rows. */
    method VisitAll(rows: seq<Commit>)
      requires Valid() && newUsers.Members == {}
      modifies uSet, uSet.vals, newUsers, newUsers.vals
      ensures Valid()
      ensures newUsers.Members == UsersUpTo(rows, |rows|, pSet.Members, Sizes()) - old(uSet.Members)
      ensures uSet.Members == old(uSet.Members) + newUsers.Members
    {
      ghost var before := uSet.Members;
      for i := 0 to |rows|
        invariant Valid() && pSet.Members == old(pSet.Members) && Marked(rows, i, before)
      {
        VisitNext(rows, i, before);
      }
    }
  }

  // ----- sets as rows -----

  /** The rows a SetWriter produces for a set: its elements, each once, ascending. */
  ghost predicate Lists(rows: seq<int>, s: set<int>) {
    && (forall x :: x in rows <==> x in s)
    && (forall i, j :: 0 <= i < j < |rows| ==> rows[i] < rows[j])
  }

  class SetWriter {
    const source: Set
    var i: nat

    constructor (s: Set)
      ensures source == s && i == 0
    {
      source, i := s, 0;
    }

    /** done: skip over absent elements; true at the end of the range. */
    method Done() returns (b: bool)
      requires i <= source.vals.Length
      modifies this`i
      ensures old(i) <= i <= source.vals.Length
      ensures forall j :: old(i) <= j < i ==> !source.vals[j]
      ensures if b then i == source.vals.Length else i < source.vals.Length && source.vals[i]
    {
      while i < source.vals.Length && !source.vals[i]
        invariant old(i) <= i <= source.vals.Length
        invariant forall j :: old(i) <= j < i ==> !source.vals[j]
      {
        i := i + 1;
      }
      return i == source.vals.Length;
    }

    method Visit() returns (row: int)
      requires i < source.vals.Length
      modifies this`i
      ensures row == old(i) && i == old(i) + 1
    {
      row := i;
      i := i + 1;
    }
  }

  /** DataFrame.visit with a SetWriter: the rows of the frame it builds. */
  method WriteSet(s: Set) returns (rows: seq<int>)
    requires s.Valid()
    ensures Lists(rows, s.Members) && |rows| == s.setSize
  {
    rows := [];
    var writer := new SetWriter(s);
    var finished := writer.Done();
    while !finished
      invariant writer.i <= s.vals.Length
      invariant !finished ==> writer.i < s.vals.Length && s.vals[writer.i]
      invariant finished ==> writer.i == s.vals.Length
      invariant forall x :: x in rows <==> 0 <= x < writer.i && s.vals[x]
      invariant forall k :: 0 <= k < |rows| ==> rows[k] < writer.i
      invariant forall i, j :: 0 <= i < j < |rows| ==> rows[i] < rows[j]
      decreases !finished, s.vals.Length - writer.i
    {
      var row := writer.Visit();
      rows := rows + [row];
      finished := writer.Done();
    }
    ListLength(rows, s.Members);
  }

  lemma {:induction false} ListLength(rows: seq<int>, s: set<int>)
    requires Lists(rows, s)
    ensures |rows| == |s|
    decreases |rows|
  {
    if rows == [] {
      assert forall x :: x in s ==> x in rows;
    } else {
      var t, last := rows[..|rows| - 1], rows[|rows| - 1];
      assert rows == t + [last];
      ListLength(t, s - {last});
    }
  }

  /** Reading the rows into a set of the given size adds the elements of source: of the
      rows, an element out of range is passed over. */
  ghost predicate Brings(rows: seq<int>, source: set<int>, size: nat) {
    forall x :: x in source <==> x in rows && InRange(x, size)
  }

  /** The elements in range of the first i rows. */
  ghost function Taken(rows: seq<int>, i: nat, size: nat): set<int>
    requires i <= |rows|
  {
    if i == 0 then {} else Taken(rows, i - 1, size) + if InRange(rows[i - 1], size) then {rows[i - 1]} else {}
  }

  lemma {:induction false} TakenIs(rows: seq<int>, i: nat, size: nat)
    requires i <= |rows|
    ensures Brings(rows[..i], Taken(rows, i, size), size)
  {
    if i > 0 {
      TakenIs(rows, i - 1, size);
      assert rows[..i] == rows[..i - 1] + [rows[i - 1]];
    }
  }

  lemma AllTaken(rows: seq<int>, source: set<int>, size: nat)
    requires Brings(rows, source, size)
    ensures Taken(rows, |rows|, size) == source
  {
    TakenIs(rows, |rows|, size);
    assert rows[..|rows|] == rows;
    forall x
      ensures x in Taken(rows, |rows|, size) <==> x in source
    {
    }
  }

  lemma TakeOne(before: set<int>, rows: seq<int>, i: nat, size: nat)
    requires i < |rows|
    ensures before + Taken(rows, i + 1, size) == before + Taken(rows, i, size) +
              if InRange(rows[i], size) then {rows[i]} else {}
  {
  }

  method AddAll(s: Set, rows: seq<int>)
    requires s.Valid()
    modifies s, s.vals
    ensures s.Valid() && s.Members == old(s.Members) + Taken(rows, |rows|, s.vals.Length)
  {
    for i := 0 to |rows|
      invariant s.Valid() && s.Members == old(s.Members) + Taken(rows, i, s.vals.Length)
    {
      TakeOne(old(s.Members), rows, i, s.vals.Length);
      s.Add(rows[i]);
    }
  }

  /** DataFrame.map with a SetUpdater. */
  method UpdateSet(s: Set, rows: seq<int>, ghost source: set<int>)
    requires s.Valid() && Brings(rows, source, s.vals.Length)
    modifies s, s.vals
    ensures s.Valid() && s.Members == old(s.Members) + source
  {
    AddAll(s, rows);
    AllTaken(rows, source, s.vals.Length);
  }

  // ----- one node's step -----

  /** The rows written for a set of elements in range, and what the waits of a step deliver:
      to node 0 the other nodes' deltas, to another node the union that node 0 published. */
  ghost predicate Delivered(rows: seq<int>, source: set<int>, size: nat) {
    Lists(rows, source) && forall x :: x in source ==> InRange(x, size)
  }

  class Linus {
    const idx: nat
    const uSet: Set
    const pSet: Set
    const commits: seq<Commit>  // the whole frame; local_map visits this node's rows of it
    const blockSize: nat
    const numNodes: nat

    constructor (idx: nat, users: nat, projects: nat, commits: seq<Commit>, blockSize: nat, numNodes: nat)
      requires blockSize > 0 && idx < numNodes
      ensures Valid() && Sizes() == Collaborators.Sizes(users, projects)
      ensures fresh(uSet) && fresh(uSet.vals) && fresh(pSet) && fresh(pSet.vals)
      ensures this.idx == idx && this.commits == commits && this.blockSize == blockSize && this.numNodes == numNodes
      ensures uSet.Members == {} && pSet.Members == {}
    {
      this.idx, this.commits, this.blockSize, this.numNodes := idx, commits, blockSize, numNodes;
      uSet := new Set(users);
      pSet := new Set(projects);
    }

    ghost predicate Valid()
      reads this, uSet, uSet.vals, pSet, pSet.vals
    {
      uSet.Valid() && pSet.Valid() && uSet != pSet && uSet.vals != pSet.vals && blockSize > 0 && idx < numNodes
    }

    ghost function Sizes(): Collaborators.Sizes {
      Collaborators.Sizes(uSet.vals.Length, pSet.vals.Length)
    }

    ghost function Local(): seq<Commit>
      requires blockSize > 0 && numNodes > 0
    {
      LocalCommits(commits, blockSize, numNodes, idx)
    }

    /** The rows local_map shows on this node: those homed on it, in order. */
    method LocalRows() returns (rows: seq<Commit>)
      requires blockSize > 0 && numNodes > 0
      ensures rows == Local()
      ensures var idxs := RowsOf(|commits|, blockSize, numNodes, idx);
        && |rows| == |idxs|
        && forall k :: 0 <= k < |idxs| ==> idxs[k] < |commits| && rows[k] == commits[idxs[k]]
    {
      var visited := LocalMap(|commits|, blockSize, numNodes, idx);
      RowsOfIncreasing(|commits|, blockSize, numNodes, idx);
      rows := [];
      for i := 0 to |visited|
        invariant rows == Local()[..i]
      {
        rows := rows + [commits[visited[i]]];
      }
    }

    /** merge at node 0: take in the deltas of nodes 1, 2, ... in turn, publish the union. */
    method MergeAtMaster(s: Set, deltas: seq<seq<int>>, ghost sources: seq<set<int>>) returns (published: seq<int>)
      requires s.Valid() && |deltas| + 1 == |sources| && sources[0] == s.Members
      requires forall i :: 0 <= i < |deltas| ==> Delivered(deltas[i], sources[i + 1], s.vals.Length)
      modifies s, s.vals
      ensures s.Valid() && s.Members == Gather(sources)
      ensures Delivered(published, Gather(sources), s.vals.Length)
    {
      var i := 0;
      assert sources[..1] == [sources[0]] && Gather([sources[0]]) == Gather([]) + sources[0];
      while i < |deltas|
        invariant 0 <= i <= |deltas| && s.Valid() && s.Members == Gather(sources[..i + 1])
      {
        assert sources[..i + 2][..i + 1] == sources[..i + 1];
        UpdateSet(s, deltas[i], sources[i + 1]);
        i := i + 1;
      }
      assert sources[..|sources|] == sources;
      published := WriteSet(s);
    }

    /** merge at another node, up to its wait: send the own delta. */
    method SendDelta(s: Set) returns (sent: seq<int>)
      requires s.Valid()
      ensures Delivered(sent, s.Members, s.vals.Length)
    {
      sent := WriteSet(s);
    }

    /** merge at another node, from where its wait ends: take in the published union. */
    method TakeMerged(s: Set, merged: seq<int>, ghost total: set<int>)
      requires s.Valid() && Delivered(merged, total, s.vals.Length)
      modifies s, s.vals
      ensures s.Valid() && s.Members == old(s.Members) + total
    {
      UpdateSet(s, merged, total);
    }

    /** The first half of step up to merge: delta from the published rows, then the
        projects the delta touches in this node's rows. */
    method TagProjects(newUsers: seq<int>, ghost p: Progress) returns (newProjects: Set)
      requires Valid() && uSet.Members == p.users && pSet.Members == p.projects
      requires Brings(newUsers, p.delta, uSet.vals.Length)
      modifies pSet, pSet.vals
      ensures Valid() && fresh(newProjects) && fresh(newProjects.vals) && newProjects.Valid()
      ensures newProjects.vals.Length == pSet.vals.Length
      ensures newProjects.Members == TaggedProjects(p, Local(), Sizes())
      ensures pSet.Members == p.projects + newProjects.Members
    {
      var delta := new Set(uSet.vals.Length);
      UpdateSet(delta, newUsers, p.delta);
      assert delta.Members == p.delta;
      var tagger := new ProjectsTagger(delta, pSet);
      var rows := LocalRows();
      ProjectsByAllRows(rows, p.delta, Sizes());
      tagger.VisitAll(rows);
      newProjects := tagger.newProjects;
    }

    /** The second half up to merge: the authors of the merged new projects. */
    method TagUsers(newProjects: Set, ghost p: Progress) returns (newUsers: Set)
      requires Valid() && uSet.Members == p.users
      requires newProjects.Valid() && newProjects.vals.Length == pSet.vals.Length
      requires newProjects != uSet && newProjects.vals != uSet.vals
      modifies uSet, uSet.vals
      ensures Valid() && fresh(newUsers) && fresh(newUsers.vals) && newUsers.Valid()
      ensures newUsers.vals.Length == uSet.vals.Length
      ensures newUsers.Members == TaggedUsers(p, newProjects.Members, Local(), Sizes())
      ensures uSet.Members == p.users + newUsers.Members
    {
      var tagger := new UsersTagger(newProjects, uSet);
      var rows := LocalRows();
      UsersByAllRows(rows, newProjects.Members, Sizes());
      tagger.VisitAll(rows);
      newUsers := tagger.newUsers;
    }
  }
}
