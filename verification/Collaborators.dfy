/**
 What the Linus application computes: the collaborators of one user, stage by
 stage, each stage looking only at the users the previous stage added.
 */
module Collaborators {
  /** A commit to project pid by user author.  (The committer column is never read.) */
  datatype Commit = Commit(pid: int, author: int)

  /** The sizes of the two bit sets: how many users and how many projects there are. */
  datatype Sizes = Sizes(users: nat, projects: nat)

  predicate InRange(x: int, size: nat) {
    0 <= x < size
  }

  /** Set::test: an identifier outside the set's range counts as present. */
  predicate Test(members: set<int>, size: nat, x: int) {
    !InRange(x, size) || x in members
  }

  /** The projects with a commit authored by one of the given users. */
  function ProjectsOf(commits: seq<Commit>, users: set<int>, sz: Sizes): set<int> {
    set c | c in commits && InRange(c.pid, sz.projects) && Test(users, sz.users, c.author) :: c.pid
  }

  /** The authors of the commits to one of the given projects. */
  function AuthorsOf(commits: seq<Commit>, projects: set<int>, sz: Sizes): set<int> {
    set c | c in commits && InRange(c.author, sz.users) && Test(projects, sz.projects, c.pid) :: c.author
  }

  /** One node's uSet and pSet, and the users the previous stage added. */
  datatype Progress = Progress(users: set<int>, projects: set<int>, delta: set<int>)

  function Start(linus: int, sz: Sizes): Progress {
    Progress({}, {}, if InRange(linus, sz.users) then {linus} else {})
  }

  // ----- one node -----

  /** One stage of the computation on a single node, trading only deltas. */
  function Stage(p: Progress, commits: seq<Commit>, sz: Sizes): Progress {
    var newProjects := ProjectsOf(commits, p.delta, sz) - p.projects;
    var projects := p.projects + newProjects;
    var newUsers := AuthorsOf(commits, newProjects, sz) - p.users;
    Progress(p.users + newUsers, projects, newUsers)
  }

  function Stages(n: nat, p: Progress, commits: seq<Commit>, sz: Sizes): Progress {
    if n == 0 then p else Stage(Stages(n - 1, p, commits, sz), commits, sz)
  }

  /** The progress of a single node after n stages. */
  function After(n: nat, linus: int, commits: seq<Commit>, sz: Sizes): Progress {
    Stages(n, Start(linus, sz), commits, sz)
  }

  // ----- the naive computation -----

  /** Linus and the users found in n naive rounds. */
  function Known(n: nat, linus: int, commits: seq<Commit>, sz: Sizes): set<int> {
    Start(linus, sz).delta + NaiveUsers(n, linus, commits, sz)
  }

  /** One naive round takes all projects of everybody known, then all their authors. */
  function NaiveProjects(n: nat, linus: int, commits: seq<Commit>, sz: Sizes): set<int>
    decreases n, 0
  {
    if n == 0 then {} else ProjectsOf(commits, Start(linus, sz).delta + NaiveUsers(n - 1, linus, commits, sz), sz)
  }

  function NaiveUsers(n: nat, linus: int, commits: seq<Commit>, sz: Sizes): set<int>
    decreases n, 1
  {
    if n == 0 then {} else AuthorsOf(commits, NaiveProjects(n, linus, commits, sz), sz)
  }

  lemma ProjectsOfUnion(commits: seq<Commit>, a: set<int>, b: set<int>, sz: Sizes)
    ensures ProjectsOf(commits, a + b, sz) == ProjectsOf(commits, a, sz) + ProjectsOf(commits, b, sz)
  {
    forall x | x in ProjectsOf(commits, a + b, sz)
      ensures x in ProjectsOf(commits, a, sz) + ProjectsOf(commits, b, sz)
    {
      var c :| c in commits && InRange(c.pid, sz.projects) && Test(a + b, sz.users, c.author) && c.pid == x;
      assert Test(a, sz.users, c.author) || Test(b, sz.users, c.author);
    }
  }

  lemma AuthorsOfUnion(commits: seq<Commit>, a: set<int>, b: set<int>, sz: Sizes)
    ensures AuthorsOf(commits, a + b, sz) == AuthorsOf(commits, a, sz) + AuthorsOf(commits, b, sz)
  {
    forall x | x in AuthorsOf(commits, a + b, sz)
      ensures x in AuthorsOf(commits, a, sz) + AuthorsOf(commits, b, sz)
    {
      var c :| c in commits && InRange(c.author, sz.users) && Test(a + b, sz.projects, c.pid) && c.author == x;
      assert Test(a, sz.projects, c.pid) || Test(b, sz.projects, c.pid);
    }
  }

  lemma ProjectsFromDelta(commits: seq<Commit>, seen: set<int>, delta: set<int>, projects: set<int>, sz: Sizes)
    requires projects == ProjectsOf(commits, seen, sz) || (projects == {} && seen == {})
    ensures projects + (ProjectsOf(commits, delta, sz) - projects) == ProjectsOf(commits, seen + delta, sz)
  {
    if projects == {} && seen == {} {
      assert seen + delta == delta;
    } else {
      ProjectsOfUnion(commits, seen, delta, sz);
    }
  }

  lemma AuthorsFromDelta(commits: seq<Commit>, projects: set<int>, delta: set<int>, users: set<int>, sz: Sizes)
    requires users == AuthorsOf(commits, projects, sz) || (users == {} && projects == {})
    ensures users + (AuthorsOf(commits, delta, sz) - users) == AuthorsOf(commits, projects + delta, sz)
  {
    if users == {} && projects == {} {
      assert projects + delta == delta;
    } else {
      AuthorsOfUnion(commits, projects, delta, sz);
    }
  }

  lemma NaiveIsRound(n: nat, linus: int, commits: seq<Commit>, sz: Sizes)
    requires n > 0
    ensures NaiveUsers(n, linus, commits, sz)
         == AuthorsOf(commits, ProjectsOf(commits, Known(n - 1, linus, commits, sz), sz), sz)
  {
  }

  lemma RoundIsMonotone(commits: seq<Commit>, a: set<int>, b: set<int>, sz: Sizes)
    requires a <= b
    ensures AuthorsOf(commits, ProjectsOf(commits, a, sz), sz) <= AuthorsOf(commits, ProjectsOf(commits, b, sz), sz)
  {
    assert a + b == b;
    ProjectsOfUnion(commits, a, b, sz);
    var p, q := ProjectsOf(commits, a, sz), ProjectsOf(commits, b, sz);
    assert p + q == q;
    AuthorsOfUnion(commits, p, q, sz);
  }

  /** Who is found by some rounds is found by more. */
  lemma {:induction false} FoundStays(m: nat, k: nat, linus: int, commits: seq<Commit>, sz: Sizes)
    ensures NaiveUsers(m, linus, commits, sz) <= NaiveUsers(m + k, linus, commits, sz)
    decreases m
  {
    if m > 0 {
      FoundStays(m - 1, k, linus, commits, sz);
      NaiveIsRound(m, linus, commits, sz);
      NaiveIsRound(m + k, linus, commits, sz);
      RoundIsMonotone(commits, Known(m - 1, linus, commits, sz), Known(m + k - 1, linus, commits, sz), sz);
    }
  }

  /** The users a stage need not look at again. */
  ghost function Seen(n: nat, linus: int, commits: seq<Commit>, sz: Sizes): set<int> {
    if n == 0 then {} else Known(n - 1, linus, commits, sz)
  }

  /** What n naive rounds have found, and what the last of them added. */
  ghost function Naive(n: nat, linus: int, commits: seq<Commit>, sz: Sizes): Progress {
    Progress(NaiveUsers(n, linus, commits, sz), NaiveProjects(n, linus, commits, sz),
             if n == 0 then Start(linus, sz).delta
             else NaiveUsers(n, linus, commits, sz) - NaiveUsers(n - 1, linus, commits, sz))
  }

  lemma KnownIsSeenAndDelta(n: nat, linus: int, commits: seq<Commit>, sz: Sizes)
    ensures Known(n, linus, commits, sz) == Seen(n, linus, commits, sz) + Naive(n, linus, commits, sz).delta
  {
    if n > 0 {
      FoundStays(n - 1, 1, linus, commits, sz);
    }
  }

  lemma StageIsRound(n: nat, linus: int, commits: seq<Commit>, sz: Sizes)
    requires n > 0
    ensures Stage(Naive(n - 1, linus, commits, sz), commits, sz) == Naive(n, linus, commits, sz)
  {
    var p := Naive(n - 1, linus, commits, sz);
    var q := Stage(p, commits, sz);
    var newProjects := ProjectsOf(commits, p.delta, sz) - p.projects;
    KnownIsSeenAndDelta(n - 1, linus, commits, sz);
    ProjectsFromDelta(commits, Seen(n - 1, linus, commits, sz), p.delta, p.projects, sz);
    assert q.projects == NaiveProjects(n, linus, commits, sz);
    AuthorsFromDelta(commits, p.projects, newProjects, p.users, sz);
    assert q.users == NaiveUsers(n, linus, commits, sz);
    assert q.delta == q.users - p.users;
  }

  lemma NoRoundsNoStages(linus: int, commits: seq<Commit>, sz: Sizes)
    ensures After(0, linus, commits, sz) == Naive(0, linus, commits, sz)
  {
  }

  lemma NextStageIsRound(n: nat, linus: int, commits: seq<Commit>, sz: Sizes)
    requires n > 0
    requires After(n - 1, linus, commits, sz) == Naive(n - 1, linus, commits, sz)
    ensures After(n, linus, commits, sz) == Naive(n, linus, commits, sz)
  {
    StageIsRound(n, linus, commits, sz);
  }

  /** Trading deltas loses nothing: after any number of stages the sets are those of
      the naive computation, with identifiers out of range handled as Set::test does,
      and the delta is what the last round added. */
  lemma {:induction false} DeltasAreEnough(n: nat, linus: int, commits: seq<Commit>, sz: Sizes)
    ensures After(n, linus, commits, sz) == Naive(n, linus, commits, sz)
  {
    if n == 0 {
      NoRoundsNoStages(linus, commits, sz);
    } else {
      DeltasAreEnough(n - 1, linus, commits, sz);
      NextStageIsRound(n, linus, commits, sz);
    }
  }

  // ----- degrees of separation -----

  /** u and v both authored a commit to one project. */
  ghost predicate Collaborate(u: int, v: int, commits: seq<Commit>) {
    exists c, d :: c in commits && d in commits && c.author == u && d.author == v && c.pid == d.pid
  }

  /** A chain of collaborators. */
  ghost predicate Chain(path: seq<int>, commits: seq<Commit>) {
    forall i :: 0 <= i < |path| - 1 ==> Collaborate(path[i], path[i + 1], commits)
  }

  /** v is the end of a chain of one to n links that starts at linus. */
  ghost predicate WithinDegree(v: int, n: nat, linus: int, commits: seq<Commit>) {
    exists path :: 2 <= |path| <= n + 1 && path[0] == linus && path[|path| - 1] == v && Chain(path, commits)
  }

  /** A user who passes for a collaborator of everybody, because Set::test takes
      identifiers out of range for members: the author of a commit to a project out of
      range, or to one that an author out of range also committed to. */
  ghost predicate Wild(w: int, commits: seq<Commit>, sz: Sizes) {
    && InRange(w, sz.users)
    && exists d :: d in commits && d.author == w && (!InRange(d.pid, sz.projects) || HasStranger(d.pid, commits, sz))
  }

  ghost predicate HasStranger(pid: int, commits: seq<Commit>, sz: Sizes) {
    exists c :: c in commits && c.pid == pid && !InRange(c.author, sz.users)
  }

  /** One round finds, in range, the collaborators of known users and every wild user. */
  lemma RoundIsOneLink(known: set<int>, v: int, commits: seq<Commit>, sz: Sizes)
    ensures v in AuthorsOf(commits, ProjectsOf(commits, known, sz), sz) <==>
              InRange(v, sz.users) && (Wild(v, commits, sz) || exists u :: u in known && Collaborate(u, v, commits))
  {
    var projects := ProjectsOf(commits, known, sz);
    if u :| u in known && Collaborate(u, v, commits) {
      var c, d :| c in commits && d in commits && c.author == u && d.author == v && c.pid == d.pid;
      assert Test(projects, sz.projects, d.pid);
    }
    if Wild(v, commits, sz) {
      var d :| d in commits && d.author == v && (!InRange(d.pid, sz.projects) || HasStranger(d.pid, commits, sz));
      assert Test(projects, sz.projects, d.pid);
    }
    if v in AuthorsOf(commits, projects, sz) && !Wild(v, commits, sz) {
      var d :| d in commits && Test(projects, sz.projects, d.pid) && d.author == v;
      var c :| c in commits && Test(known, sz.users, c.author) && c.pid == d.pid;
      assert Collaborate(c.author, v, commits);
    }
  }

  lemma ExtendChain(u: int, v: int, n: nat, linus: int, commits: seq<Commit>)
    requires u == linus || WithinDegree(u, n, linus, commits)
    requires Collaborate(u, v, commits)
    ensures WithinDegree(v, n + 1, linus, commits)
  {
    if u == linus {
      var path := [linus, v];
      assert Chain(path, commits);
      assert 2 <= |path| <= n + 2 && path[0] == linus && path[|path| - 1] == v;
    } else {
      var p :| 2 <= |p| <= n + 1 && p[0] == linus && p[|p| - 1] == u && Chain(p, commits);
      var path := p + [v];
      assert Chain(path, commits);
      assert 2 <= |path| <= n + 2 && path[0] == linus && path[|path| - 1] == v;
    }
  }

  lemma ShortenChain(v: int, n: nat, linus: int, commits: seq<Commit>) returns (u: int)
    requires n > 0 && WithinDegree(v, n, linus, commits)
    ensures u == linus || WithinDegree(u, n - 1, linus, commits)
    ensures Collaborate(u, v, commits)
  {
    var p :| 2 <= |p| <= n + 1 && p[0] == linus && p[|p| - 1] == v && Chain(p, commits);
    var q := p[..|p| - 1];
    u := q[|q| - 1];
    assert Collaborate(p[|p| - 2], p[|p| - 1], commits);
    if |q| > 1 {
      assert Chain(q, commits);
      assert 2 <= |q| <= n && q[0] == linus && q[|q| - 1] == u;
    }
  }

  /** The end of a chain is found as many rounds after its start as it has links.  A start
      out of range need not be known: whoever collaborates with it is wild. */
  lemma {:induction false} ChainIsFound(start: int, m: nat, v: int, k: nat, linus: int, commits: seq<Commit>, sz: Sizes)
    requires InRange(start, sz.users) ==> start in Known(m, linus, commits, sz)
    requires WithinDegree(v, k, start, commits) && InRange(v, sz.users)
    ensures v in NaiveUsers(m + k, linus, commits, sz)
    decreases k
  {
    var u := ShortenChain(v, k, start, commits);
    if InRange(u, sz.users) {
      if WithinDegree(u, k - 1, start, commits) {
        ChainIsFound(start, m, u, k - 1, linus, commits, sz);
      } else {
        FoundStays(m, k - 1, linus, commits, sz);
      }
    } else {
      StrangersMakeWild(u, v, commits, sz);
    }
    RoundIsOneLink(Known(m + k - 1, linus, commits, sz), v, commits, sz);
  }

  lemma StrangersMakeWild(u: int, v: int, commits: seq<Commit>, sz: Sizes)
    requires !InRange(u, sz.users) && InRange(v, sz.users) && Collaborate(u, v, commits)
    ensures Wild(v, commits, sz)
  {
    var c, d :| c in commits && d in commits && c.author == u && d.author == v && c.pid == d.pid;
    assert HasStranger(d.pid, commits, sz);
  }

  /** v is joined to Linus by at most n links, or to a wild user by less. */
  ghost predicate Reached(v: int, n: nat, linus: int, commits: seq<Commit>, sz: Sizes) {
    || WithinDegree(v, n, linus, commits)
    || (n > 0 && exists w :: Wild(w, commits, sz) && (v == w || WithinDegree(v, n - 1, w, commits)))
  }

  lemma ReachedIsFound(n: nat, v: int, linus: int, commits: seq<Commit>, sz: Sizes)
    requires InRange(v, sz.users) && Reached(v, n, linus, commits, sz)
    ensures v in NaiveUsers(n, linus, commits, sz)
  {
    if WithinDegree(v, n, linus, commits) {
      ChainIsFound(linus, 0, v, n, linus, commits, sz);
    } else {
      var w :| Wild(w, commits, sz) && (v == w || WithinDegree(v, n - 1, w, commits));
      RoundIsOneLink(Known(0, linus, commits, sz), w, commits, sz);
      if v == w {
        RoundIsOneLink(Known(n - 1, linus, commits, sz), v, commits, sz);
      } else {
        ChainIsFound(w, 1, v, n - 1, linus, commits, sz);
      }
    }
  }

  lemma OneLinkFurther(u: int, v: int, n: nat, linus: int, commits: seq<Commit>, sz: Sizes)
    requires u == linus || Reached(u, n, linus, commits, sz)
    requires Collaborate(u, v, commits)
    ensures Reached(v, n + 1, linus, commits, sz)
  {
    if u == linus || WithinDegree(u, n, linus, commits) {
      ExtendChain(u, v, n, linus, commits);
    } else {
      var w :| Wild(w, commits, sz) && (u == w || WithinDegree(u, n - 1, w, commits));
      ExtendChain(u, v, n - 1, w, commits);
    }
  }

  /** What the rounds compute, whatever identifiers the data has and also for a Linus out of
      range: the users in range joined to Linus by at most n links, all wild users, and who
      is joined to one of these by less than n. */
  lemma {:induction false} NaiveUsersAreReached(n: nat, v: int, linus: int, commits: seq<Commit>, sz: Sizes)
    ensures v in NaiveUsers(n, linus, commits, sz) <==> InRange(v, sz.users) && Reached(v, n, linus, commits, sz)
  {
    if InRange(v, sz.users) && Reached(v, n, linus, commits, sz) {
      ReachedIsFound(n, v, linus, commits, sz);
    }
    if v in NaiveUsers(n, linus, commits, sz) {
      var known := Known(n - 1, linus, commits, sz);
      NaiveIsRound(n, linus, commits, sz);
      RoundIsOneLink(known, v, commits, sz);
      if !Wild(v, commits, sz) {
        var u :| u in known && Collaborate(u, v, commits);
        if u != linus {
          NaiveUsersAreReached(n - 1, u, linus, commits, sz);
        }
        OneLinkFurther(u, v, n - 1, linus, commits, sz);
      }
    }
  }

  // ----- exactly when the sets are the degrees of separation -----

  /** Every wild user did collaborate with Linus. */
  ghost predicate WildKnowLinus(linus: int, commits: seq<Commit>, sz: Sizes) {
    forall w :: Wild(w, commits, sz) ==> Collaborate(linus, w, commits)
  }

  lemma PrependLink(linus: int, w: int, v: int, n: nat, commits: seq<Commit>)
    requires Collaborate(linus, w, commits) && WithinDegree(v, n, w, commits)
    ensures WithinDegree(v, n + 1, linus, commits)
  {
    var p :| 2 <= |p| <= n + 1 && p[0] == w && p[|p| - 1] == v && Chain(p, commits);
    var path := [linus] + p;
    forall i | 0 <= i < |path| - 1
      ensures Collaborate(path[i], path[i + 1], commits)
    {
      if i > 0 {
        assert Collaborate(p[i - 1], p[i - 1 + 1], commits);
      }
    }
    assert 2 <= |path| <= n + 2 && path[0] == linus && path[|path| - 1] == v;
  }

  lemma ReachedIsDegree(v: int, n: nat, linus: int, commits: seq<Commit>, sz: Sizes)
    requires WildKnowLinus(linus, commits, sz)
    ensures Reached(v, n, linus, commits, sz) <==> WithinDegree(v, n, linus, commits)
  {
    if n > 0 {
      if w :| Wild(w, commits, sz) && (v == w || WithinDegree(v, n - 1, w, commits)) {
        if v == w {
          ExtendChain(linus, w, 0, linus, commits);
          MoreLinks(v, 1, n, linus, commits);
        } else {
          PrependLink(linus, w, v, n - 1, commits);
        }
      }
    }
  }

  lemma MoreLinks(v: int, m: nat, n: nat, linus: int, commits: seq<Commit>)
    requires m <= n && WithinDegree(v, m, linus, commits)
    ensures WithinDegree(v, n, linus, commits)
  {
    var p :| 2 <= |p| <= m + 1 && p[0] == linus && p[|p| - 1] == v && Chain(p, commits);
    assert 2 <= |p| <= n + 1;
  }

  /** A chain of one link. */
  lemma FirstDegree(v: int, linus: int, commits: seq<Commit>)
    ensures WithinDegree(v, 1, linus, commits) <==> Collaborate(linus, v, commits)
    ensures !WithinDegree(v, 0, linus, commits)
  {
    if Collaborate(linus, v, commits) {
      ExtendChain(linus, v, 0, linus, commits);
    }
  }

  /** The users found in n rounds are those in range that a chain of at most n links joins
      to Linus, for all n, if and only if every wild user did collaborate with Linus. */
  lemma NaiveUsersAreDegreesIff(linus: int, commits: seq<Commit>, sz: Sizes)
    ensures (forall n: nat, v :: v in NaiveUsers(n, linus, commits, sz) <==>
                                   InRange(v, sz.users) && WithinDegree(v, n, linus, commits))
       <==> WildKnowLinus(linus, commits, sz)
  {
    forall n: nat, v
      ensures v in NaiveUsers(n, linus, commits, sz) <==> InRange(v, sz.users) && Reached(v, n, linus, commits, sz)
      ensures WildKnowLinus(linus, commits, sz) ==>
                (Reached(v, n, linus, commits, sz) <==> WithinDegree(v, n, linus, commits))
    {
      NaiveUsersAreReached(n, v, linus, commits, sz);
      if WildKnowLinus(linus, commits, sz) {
        ReachedIsDegree(v, n, linus, commits, sz);
      }
    }
    if w :| Wild(w, commits, sz) && !Collaborate(linus, w, commits) {
      FirstDegree(w, linus, commits);
      assert Reached(w, 1, linus, commits, sz);
    }
  }

  /** The shortest chain from Linus to v has n links. */
  ghost predicate OfDegree(v: int, n: nat, linus: int, commits: seq<Commit>) {
    WithinDegree(v, n, linus, commits) && (n > 0 ==> !WithinDegree(v, n - 1, linus, commits))
  }

  /** What a stage adds is what one more round finds. */
  lemma StageFindsNext(n: nat, v: int, linus: int, commits: seq<Commit>, sz: Sizes)
    requires n > 0
    ensures v in After(n, linus, commits, sz).delta
       <==> v in NaiveUsers(n, linus, commits, sz) && v !in NaiveUsers(n - 1, linus, commits, sz)
  {
    DeltasAreEnough(n, linus, commits, sz);
  }

  lemma StageFindsItsDegree(n: nat, v: int, linus: int, commits: seq<Commit>, sz: Sizes)
    requires n > 0 && WildKnowLinus(linus, commits, sz)
    ensures v in After(n, linus, commits, sz).delta
       <==> InRange(v, sz.users) && OfDegree(v, n, linus, commits)
  {
    StageFindsNext(n, v, linus, commits, sz);
    NaiveUsersAreReached(n, v, linus, commits, sz);
    NaiveUsersAreReached(n - 1, v, linus, commits, sz);
    ReachedIsDegree(v, n, linus, commits, sz);
    ReachedIsDegree(v, n - 1, linus, commits, sz);
  }

  lemma WildIsFoundFirst(w: int, linus: int, commits: seq<Commit>, sz: Sizes)
    requires Wild(w, commits, sz)
    ensures w in After(1, linus, commits, sz).delta
  {
    NaiveIsRound(1, linus, commits, sz);
    RoundIsOneLink(Known(0, linus, commits, sz), w, commits, sz);
    StageFindsNext(1, w, linus, commits, sz);
  }

  /** The users the n-th stage adds, which are those it reports, are exactly the users in
      range whose shortest chain to Linus has n links, for all stages, if and only if every
      wild user did collaborate with Linus. */
  lemma StageFindsItsDegreeIff(linus: int, commits: seq<Commit>, sz: Sizes)
    ensures (forall n: nat, v :: n > 0 ==>
               (v in After(n, linus, commits, sz).delta
                <==> InRange(v, sz.users) && OfDegree(v, n, linus, commits)))
       <==> WildKnowLinus(linus, commits, sz)
  {
    if WildKnowLinus(linus, commits, sz) {
      forall n: nat, v | n > 0
        ensures v in After(n, linus, commits, sz).delta
           <==> InRange(v, sz.users) && OfDegree(v, n, linus, commits)
      {
        StageFindsItsDegree(n, v, linus, commits, sz);
      }
    } else {
      var w :| Wild(w, commits, sz) && !Collaborate(linus, w, commits);
      WildIsFoundFirst(w, linus, commits, sz);
      FirstDegree(w, linus, commits);
      assert !OfDegree(w, 1, linus, commits);
    }
  }

  /** Where all identifiers are in range there are no wild users. */
  lemma DataInRangeIsTame(linus: int, commits: seq<Commit>, sz: Sizes)
    requires forall c :: c in commits ==> InRange(c.pid, sz.projects) && InRange(c.author, sz.users)
    ensures WildKnowLinus(linus, commits, sz)
  {
  }

  /** A commit to a project that does not exist: its author, whom no chain joins to Linus,
      is reported as a collaborator of his in the first stage. */
  lemma WildUserIsReported(n: nat)
    ensures var commits, sz := [Commit(0, 0), Commit(7, 1)], Sizes(2, 1);
      1 in After(1, 0, commits, sz).delta && !WithinDegree(1, n, 0, commits)
  {
    var commits, sz := [Commit(0, 0), Commit(7, 1)], Sizes(2, 1);
    assert commits[1].author == 1 && commits[1] in commits;
    WildIsFoundFirst(1, 0, commits, sz);
    NotJoined(n, commits);
  }

  lemma {:induction false} NotJoined(n: nat, commits: seq<Commit>)
    requires commits == [Commit(0, 0), Commit(7, 1)]
    ensures !WithinDegree(1, n, 0, commits)
  {
    if WithinDegree(1, n, 0, commits) {
      var u := ShortenChain(1, n, 0, commits);
      NotJoined(n - 1, commits);
    }
  }
}
