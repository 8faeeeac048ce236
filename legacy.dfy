/** index.js: the older, recursive variant of the propagation. Each user
    carries a `visited` flag that is set when it is processed and never
    cleared; a processed user recurses into its connected coaches that are
    not visited at that moment, and every nested call shares one list of
    tagged users. */
module Legacy {
  import opened Seqs
  import opened Graph
  import opened Limited
  import LimitedProps
  import Util

  /** `!coach.visited`, by the flags `vis`. */
  predicate Fresh(vis: seq<bool>, c: UserId) {
    c < |vis| && !vis[c]
  }

  /** The unvisited coaches of each user in `xs`, concatenated in order. */
  function UnvisitedCoachesOf(links: Links, vis: seq<bool>, xs: seq<UserId>): (r: seq<UserId>)
    requires links.Valid()
    requires forall k :: 0 <= k < |xs| ==> xs[k] < links.Count()
    ensures |r| <= |links.CoachesOf(xs)|
  {
    if xs == [] then []
    else Filter((c: UserId) => Fresh(vis, c), links.coaches[xs[0]]) + UnvisitedCoachesOf(links, vis, xs[1..])
  }

  /** `getUnvisitedConnectedCoaches`, by the flags `vis`: the unvisited own
      coaches, then the students that are unvisited coaches, then the
      unvisited coaches of every student. */
  function UnvisitedConnected(links: Links, vis: seq<bool>, u: UserId): (r: seq<UserId>)
    requires links.Valid() && u < links.Count()
    ensures |r| <= |links.coaches[u]| + |links.students[u]| + |links.CoachesOf(links.students[u])|
  {
    Filter((c: UserId) => Fresh(vis, c), links.coaches[u])
      + Filter((s: UserId) => links.IsCoach(s) && Fresh(vis, s), links.students[u])
      + UnvisitedCoachesOf(links, vis, links.students[u])
  }

  lemma {:induction false} UnvisitedCoachesOfIsFilter(links: Links, vis: seq<bool>, xs: seq<UserId>)
    requires links.Valid()
    requires forall k :: 0 <= k < |xs| ==> xs[k] < links.Count()
    ensures UnvisitedCoachesOf(links, vis, xs) == Filter((c: UserId) => Fresh(vis, c), links.CoachesOf(xs))
  {
    if xs != [] {
      UnvisitedCoachesOfIsFilter(links, vis, xs[1..]);
      FilterConcat((c: UserId) => Fresh(vis, c), links.coaches[xs[0]], links.CoachesOf(xs[1..]));
    }
  }

  /** `getUnvisitedConnectedCoaches()` is `getConnectedCoaches()` with the
      currently visited users removed, order and duplicates kept. */
  lemma UnvisitedConnectedIsFilter(links: Links, vis: seq<bool>, u: UserId)
    requires links.Valid() && u < links.Count()
    ensures UnvisitedConnected(links, vis, u) == Filter((c: UserId) => Fresh(vis, c), links.ConnectedCoaches(u))
    ensures forall y :: y in UnvisitedConnected(links, vis, u) <==> y in links.ConnectedCoaches(u) && Fresh(vis, y)
  {
    var fresh' := (c: UserId) => Fresh(vis, c);
    FilterMembers(fresh', links.ConnectedCoaches(u));
    UnvisitedCoachesOfIsFilter(links, vis, links.students[u]);
    FilterFilter(fresh', links.IsCoach, (s: UserId) => links.IsCoach(s) && Fresh(vis, s), links.students[u]);
    FilterConcat(fresh', links.coaches[u], links.CoachingStudents(u));
    FilterConcat(fresh', links.coaches[u] + links.CoachingStudents(u), links.CoachesOf(links.students[u]));
  }

  /** The propagation's effect on tags and the tagged list, compared with
      an earlier state: the list only grows at its end; tags only change to
      `v`; a tag changed exactly for the users appended; each of those was
      not tagged before and is now. */
  ghost predicate Grows(t0: seq<int>, t1: seq<int>, i0: seq<UserId>, i1: seq<UserId>, v: int) {
    && |t1| == |t0|
    && |i0| <= |i1| && i1[..|i0|] == i0
    && (forall i :: 0 <= i < |t0| ==> t1[i] == t0[i] || t1[i] == v)
    && (forall i :: 0 <= i < |t0| ==> (t1[i] != t0[i] <==> i in i1[|i0|..]))
    && (forall k :: |i0| <= k < |i1| ==> i1[k] < |t0| && t0[i1[k]] != v && t1[i1[k]] == v)
  }

  lemma GrowsRefl(t: seq<int>, i: seq<UserId>, v: int)
    ensures Grows(t, t, i, i, v)
  {
    assert i[..|i|] == i;
  }

  /** Two successive stretches of propagation make one. */
  lemma GrowsTrans(t0: seq<int>, t1: seq<int>, t2: seq<int>, i0: seq<UserId>, i1: seq<UserId>, i2: seq<UserId>, v: int)
    requires Grows(t0, t1, i0, i1, v) && Grows(t1, t2, i1, i2, v)
    ensures Grows(t0, t2, i0, i2, v)
  {
    assert i2[..|i0|] == i1[..|i0|];
    assert i2[|i0|..] == i1[|i0|..] + i2[|i1|..] by {
      assert i2 == i1 + i2[|i1|..];
    }
    forall k | |i0| <= k < |i2| ensures i2[k] < |t0| && t0[i2[k]] != v && t2[i2[k]] == v {
      if k < |i1| {
        assert i2[k] == i1[k];
      }
    }
  }

  /** The class step of the walk obeys `Grows`. */
  lemma ClassStepGrows(links: Links, tags: seq<int>, infected: seq<UserId>, u: UserId, cap: Capacity, v: int)
    requires links.Valid() && |tags| == links.Count() && u < links.Count()
    ensures var r := ClassStep(links, tags, infected, u, cap, v); Grows(tags, r.0, infected, r.1, v)
  {
    var r := ClassStep(links, tags, infected, u, cap, v);
    ClassStepSpec(links, tags, infected, u, cap, v);
    forall i | 0 <= i < |tags| ensures r.0[i] == tags[i] || r.0[i] == v {
      if r.0[i] != tags[i] {
        var k :| 0 <= k < |r.1[|infected|..]| && r.1[|infected|..][k] == i;
        assert r.1[|infected| + k] == i;
      }
    }
  }

  /** The flags only go from unset to set. */
  ghost predicate Marked(vis0: seq<bool>, vis1: seq<bool>) {
    |vis1| == |vis0| && forall i :: 0 <= i < |vis0| && vis0[i] ==> vis1[i]
  }

  /** Every connected coach of `x` is visited. */
  ghost predicate Covered(links: Links, vis: seq<bool>, x: UserId)
    requires links.Valid() && |vis| == links.Count() && x < links.Count()
  {
    forall k :: 0 <= k < |links.ConnectedCoaches(x)| ==> vis[links.ConnectedCoaches(x)[k]]
  }

  /** Every user that became visited between `vis0` and `vis1` has all its
      connected coaches visited. */
  ghost predicate NewlyCovered(links: Links, vis0: seq<bool>, vis1: seq<bool>)
    requires links.Valid() && |vis0| == links.Count() && |vis1| == links.Count()
  {
    forall x :: 0 <= x < links.Count() && !vis0[x] && vis1[x] ==> Covered(links, vis1, x)
  }

  lemma CoveredMarked(links: Links, vis1: seq<bool>, vis2: seq<bool>, x: UserId)
    requires links.Valid() && |vis1| == links.Count() && x < links.Count()
    requires Marked(vis1, vis2) && Covered(links, vis1, x)
    ensures Covered(links, vis2, x)
  {
  }

  lemma NewlyCoveredTrans(links: Links, vis0: seq<bool>, vis1: seq<bool>, vis2: seq<bool>)
    requires links.Valid() && |vis0| == links.Count()
    requires Marked(vis0, vis1) && Marked(vis1, vis2)
    requires NewlyCovered(links, vis0, vis1) && NewlyCovered(links, vis1, vis2)
    ensures NewlyCovered(links, vis0, vis2)
  {
    forall x | 0 <= x < links.Count() && !vis0[x] && vis2[x] ensures Covered(links, vis2, x) {
      if vis1[x] {
        CoveredMarked(links, vis1, vis2, x);
      }
    }
  }

  /** Every user that became visited between `vis0` and `vis1` and is a
      coach carries `v`, and so do all its students. */
  ghost predicate NewlyTagged(links: Links, vis0: seq<bool>, vis1: seq<bool>, t1: seq<int>, v: int)
    requires links.Valid() && |vis0| == links.Count() && |vis1| == links.Count() && |t1| == links.Count()
  {
    forall x :: 0 <= x < links.Count() && !vis0[x] && vis1[x] ==> LimitedProps.ClassTagged(links, t1, x, v)
  }

  /** A class that carries `v` keeps it while tags only change to `v`. */
  lemma ClassTaggedPersists(links: Links, t1: seq<int>, t2: seq<int>, x: UserId, v: int)
    requires links.Valid() && |t1| == links.Count() && |t2| == links.Count() && x < links.Count()
    requires forall i :: 0 <= i < |t1| ==> t2[i] == t1[i] || t2[i] == v
    requires LimitedProps.ClassTagged(links, t1, x, v)
    ensures LimitedProps.ClassTagged(links, t2, x, v)
  {
    if links.IsCoach(x) {
      forall k | 0 <= k < |links.students[x]| ensures t2[links.students[x][k]] == v {
        assert t1[links.students[x][k]] == v;
      }
    }
  }

  lemma NewlyTaggedTrans(links: Links, vis0: seq<bool>, vis1: seq<bool>, vis2: seq<bool>, t1: seq<int>, t2: seq<int>, v: int)
    requires links.Valid() && |vis0| == links.Count() && |t1| == links.Count() && |t2| == links.Count()
    requires Marked(vis0, vis1) && Marked(vis1, vis2)
    requires forall i :: 0 <= i < |t1| ==> t2[i] == t1[i] || t2[i] == v
    requires NewlyTagged(links, vis0, vis1, t1, v) && NewlyTagged(links, vis1, vis2, t2, v)
    ensures NewlyTagged(links, vis0, vis2, t2, v)
  {
    forall x | 0 <= x < links.Count() && !vis0[x] && vis2[x] ensures LimitedProps.ClassTagged(links, t2, x, v) {
      if vis1[x] {
        ClassTaggedPersists(links, t1, t2, x, v);
      }
    }
  }

  /** After the recursion from `user`, whose class carried `v` after its
      own class step: `user`'s class still carries it, and `user` joins
      the newly visited users whose classes are tagged. */
  lemma FinishTagged(links: Links, vis0: seq<bool>, vis1: seq<bool>, vis2: seq<bool>, t1: seq<int>, t2: seq<int>, user: UserId, v: int)
    requires links.Valid() && |vis0| == links.Count() && |t1| == links.Count() && |t2| == links.Count()
    requires user < links.Count() && vis1 == vis0[user := true] && Marked(vis1, vis2)
    requires forall i :: 0 <= i < |t1| ==> t2[i] == t1[i] || t2[i] == v
    requires LimitedProps.ClassTagged(links, t1, user, v)
    requires NewlyTagged(links, vis1, vis2, t2, v)
    ensures LimitedProps.ClassTagged(links, t2, user, v)
    ensures NewlyTagged(links, vis0, vis2, t2, v)
  {
    ClassTaggedPersists(links, t1, t2, user, v);
    forall x | 0 <= x < links.Count() && !vis0[x] && vis2[x] ensures LimitedProps.ClassTagged(links, t2, x, v) {
      if x != user {
        assert !vis1[x];
      }
    }
  }

  /** The users whose flag is not set. */
  function UnvisitedIn(vis: seq<bool>): set<UserId> {
    set i: nat | i < |vis| && !vis[i]
  }

  lemma MarkedUnvisited(vis1: seq<bool>, vis2: seq<bool>)
    requires Marked(vis1, vis2)
    ensures UnvisitedIn(vis2) <= UnvisitedIn(vis1)
  {
  }

  /** What a stretch of the recursion does, compared with an earlier
      state: `Grows` for tags and tagged list, the list kept within the
      capacity when it started within it, flags only set, and every newly
      visited user with all its connected coaches visited. */
  ghost predicate Progress(links: Links, cap: Capacity, v: int, t0: seq<int>, t1: seq<int>,
                           i0: seq<UserId>, i1: seq<UserId>, vis0: seq<bool>, vis1: seq<bool>)
    requires links.Valid()
  {
    && Grows(t0, t1, i0, i1, v)
    && (cap.Finite? && |i0| <= cap.limit ==> |i1| <= cap.limit)
    && (links.NoDupStudents() ==> NoDup(i1[|i0|..]))
    && |vis0| == links.Count() && Marked(vis0, vis1)
    && NewlyCovered(links, vis0, vis1)
    && (cap.Unbounded? && |t1| == links.Count() ==> NewlyTagged(links, vis0, vis1, t1, v))
  }

  lemma ProgressTrans(links: Links, cap: Capacity, v: int, t0: seq<int>, t1: seq<int>, t2: seq<int>,
                      i0: seq<UserId>, i1: seq<UserId>, i2: seq<UserId>, vis0: seq<bool>, vis1: seq<bool>, vis2: seq<bool>)
    requires links.Valid()
    requires Progress(links, cap, v, t0, t1, i0, i1, vis0, vis1) && Progress(links, cap, v, t1, t2, i1, i2, vis1, vis2)
    ensures Progress(links, cap, v, t0, t2, i0, i2, vis0, vis2)
  {
    GrowsTrans(t0, t1, t2, i0, i1, i2, v);
    NewlyCoveredTrans(links, vis0, vis1, vis2);
    if cap.Unbounded? && |t2| == links.Count() {
      NewlyTaggedTrans(links, vis0, vis1, vis2, t1, t2, v);
    }
    if links.NoDupStudents() {
      var a := i1[|i0|..];
      var b := i2[|i1|..];
      assert i2[|i0|..] == a + b by {
        assert i2 == i1 + b;
      }
      forall i, j | 0 <= i < |a| && 0 <= j < |b| ensures a[i] != b[j] {
        assert a[i] == i1[|i0| + i] && b[j] == i2[|i1| + j];
      }
      NoDupConcat(a, b);
    }
  }

  /** A call that starts from an empty tagged list and obeys `Grows`
      returns the number of users whose tag changed, when no user is listed
      twice. */
  lemma GrowsCount(t0: seq<int>, t1: seq<int>, i1: seq<UserId>, v: int)
    requires Grows(t0, t1, [], i1, v) && NoDup(i1)
    ensures |i1| == |set i: nat | i < |t0| && t1[i] != t0[i]|
  {
    assert i1[0..] == i1;
    assert Elements(i1) == set i: nat | i < |t0| && t1[i] != t0[i] by {
      forall x ensures x in Elements(i1) ==> x < |t0| && t1[x] != t0[x] {
        if x in i1 {
          var k :| 0 <= k < |i1| && i1[k] == x;
        }
      }
    }
    NoDupCard(i1);
  }

  /** After the recursion into the listed coaches `coaches` of `user`:
      every connected coach of `user` is visited (it was listed, or already
      visited when the list was made), so `user` joins the users whose
      connected coaches are all visited. */
  lemma FinishVisit(links: Links, vis0: seq<bool>, vis1: seq<bool>, vis2: seq<bool>, user: UserId, coaches: seq<UserId>)
    requires links.Valid() && |vis0| == links.Count() && user < links.Count()
    requires vis1 == vis0[user := true] && Marked(vis1, vis2)
    requires forall y :: y in links.ConnectedCoaches(user) && !vis1[y] ==> y in coaches
    requires forall j :: 0 <= j < |coaches| ==> coaches[j] < |vis2| && vis2[coaches[j]]
    requires NewlyCovered(links, vis1, vis2)
    ensures Marked(vis0, vis2) && vis2[user]
    ensures Covered(links, vis2, user)
    ensures NewlyCovered(links, vis0, vis2)
  {
    forall k | 0 <= k < |links.ConnectedCoaches(user)| ensures vis2[links.ConnectedCoaches(user)[k]] {
      var y := links.ConnectedCoaches(user)[k];
      if !vis1[y] {
        assert y in links.ConnectedCoaches(user);
        var j :| 0 <= j < |coaches| && coaches[j] == y;
      }
    }
    forall x | 0 <= x < links.Count() && !vis0[x] && vis2[x] ensures Covered(links, vis2, x) {
      if x != user {
        assert !vis1[x];
      }
    }
  }

  /** The users of index.js: the same lists and tags as in lib/User.js,
      plus the `visited` flag of each user. */
  class LegacyUsers {
    var links: Links
    var siteVersion: seq<int>
    var visited: seq<bool>

    ghost predicate Valid()
      reads this
    {
      links.Valid() && |siteVersion| == links.Count() && |visited| == links.Count()
    }

    function Count(): nat
      reads this
    {
      |siteVersion|
    }

    /** The users whose flag is not set. */
    function UnvisitedSet(): set<UserId>
      reads this
    {
      UnvisitedIn(visited)
    }

    constructor ()
      ensures Valid() && Count() == 0
      ensures links == Links([], []) && visited == []
    {
      links := Links([], []);
      siteVersion := [];
      visited := [];
    }

    /** `new User({siteVersion, students, coaches})`: a new user with the
        given tag and lists, not visited. */
    method NewUser(tag: int, students: seq<UserId>, coaches: seq<UserId>) returns (id: UserId)
      requires Valid()
      requires forall k :: 0 <= k < |students| ==> students[k] < Count()
      requires forall k :: 0 <= k < |coaches| ==> coaches[k] < Count()
      modifies this
      ensures Valid()
      ensures id == old(Count())
      ensures links == Links(old(links.students) + [students], old(links.coaches) + [coaches])
      ensures siteVersion == old(siteVersion) + [tag] && visited == old(visited) + [false]
    {
      id := |siteVersion|;
      links := Links(links.students + [students], links.coaches + [coaches]);
      siteVersion := siteVersion + [tag];
      visited := visited + [false];
    }

    /** `addStudent`, as in lib/User.js. */
    method AddStudent(c: UserId, s: UserId)
      requires Valid() && c < Count() && s < Count()
      modifies this`links
      ensures Valid()
      ensures links == old(links).WithStudent(c, s)
      ensures old(links).Symmetric() ==> links.Symmetric()
    {
      if links.Symmetric() {
        WithStudentSymmetric(links, c, s);
      }
      links := links.WithStudent(c, s);
    }

    /** `addStudents`, as in lib/User.js. */
    method AddStudents(c: UserId, xs: seq<UserId>)
      requires Valid() && c < Count()
      requires forall k :: 0 <= k < |xs| ==> xs[k] < Count()
      modifies this`links
      ensures Valid()
      ensures links == old(links).WithStudents(c, xs)
    {
      for i := 0 to |xs|
        invariant Valid()
        invariant links == old(links).WithStudents(c, xs[..i])
      {
        WithStudentsSnoc(old(links), c, xs[..i], xs[i]);
        assert xs[..i + 1] == xs[..i] + [xs[i]];
        AddStudent(c, xs[i]);
      }
      assert xs[..|xs|] == xs;
    }

    /** `getUnvisitedConnectedCoaches()` of user `u`. */
    function UnvisitedConnectedCoaches(u: UserId): (r: seq<UserId>)
      reads this
      requires Valid() && u < Count()
      ensures forall k :: 0 <= k < |r| ==> r[k] < Count() && !visited[r[k]]
      ensures forall y :: y in links.ConnectedCoaches(u) && !visited[y] ==> y in r
    {
      var r := UnvisitedConnected(links, visited, u);
      UnvisitedConnectedIsFilter(links, visited, u);
      assert forall k :: 0 <= k < |r| ==> r[k] in r;
      r
    }

    /** `infect`: writes `v` into each listed user's tag and appends the
        user to the tagged list. */
    method Infect(students: seq<UserId>, infected: seq<UserId>, v: int) returns (r: seq<UserId>)
      requires Valid()
      requires forall k :: 0 <= k < |students| ==> students[k] < |siteVersion|
      modifies this`siteVersion
      ensures Valid()
      ensures siteVersion == TagAll(old(siteVersion), students, v)
      ensures r == infected + students
    {
      r := infected;
      for i := 0 to |students|
        invariant Valid()
        invariant |siteVersion| == |old(siteVersion)|
        invariant forall j :: 0 <= j < |siteVersion| ==>
          siteVersion[j] == if j in students[..i] then v else old(siteVersion)[j]
        invariant r == infected + students[..i]
      {
        assert forall j :: j in students[..i + 1] <==> j in students[..i] || j == students[i] by {
          assert students[..i + 1] == students[..i] + [students[i]];
        }
        siteVersion := siteVersion[students[i] := v];
        r := r + [students[i]];
        assert students[..i + 1] == students[..i] + [students[i]];
      }
      assert students[..|students|] == students;
      TagAllAt(old(siteVersion), students, v);
    }

    /** The fit test and the tagging of `user`'s class, as in the queue
        variant. */
    method InfectClass(user: UserId, infected: seq<UserId>, numToInfect: Capacity, v: int) returns (r: seq<UserId>)
      requires Valid() && user < Count()
      modifies this`siteVersion
      ensures Valid()
      ensures (siteVersion, r) == ClassStep(links, old(siteVersion), infected, user, numToInfect, v)
    {
      r := infected;
      var uninfectedStudents := Uninfected(links.students[user], siteVersion, v);
      UninfectedMembers(links.students[user], siteVersion, v);
      var isUserInfected := siteVersion[user] == v;
      var willYouAndYourClassFit :=
        numToInfect.Admits((if isUserInfected then 0 else 1) + |uninfectedStudents| + |infected|);
      if links.IsCoach(user) && willYouAndYourClassFit {
        r := Infect(uninfectedStudents, r, v);
        if siteVersion[user] != v {
          ghost var t1 := siteVersion;
          r := Infect([user], r, v);
          assert siteVersion == t1[user := v];
        }
      }
    }

    /** The part of `limitedInfection` before the recursion: the class
        step on `user`, then its flag is set. */
    method VisitUser(user: UserId, infected: seq<UserId>, numToInfect: Capacity, v: int) returns (r: seq<UserId>)
      requires Valid() && user < Count()
      modifies this`siteVersion, this`visited
      ensures Valid() && links == old(links)
      ensures visited == old(visited)[user := true]
      ensures (siteVersion, r) == ClassStep(links, old(siteVersion), infected, user, numToInfect, v)
      ensures numToInfect.Unbounded? ==> LimitedProps.ClassTagged(links, siteVersion, user, v)
      ensures Grows(old(siteVersion), siteVersion, infected, r, v)
      ensures links.NoDupStudents() ==> NoDup(r[|infected|..])
      ensures numToInfect.Finite? && |infected| <= numToInfect.limit ==> |r| <= numToInfect.limit
    {
      ghost var t0 := siteVersion;
      r := InfectClass(user, infected, numToInfect, v);
      ClassStepGrows(links, t0, infected, user, numToInfect, v);
      ClassStepSpec(links, t0, infected, user, numToInfect, v);
      visited := visited[user := true];
    }

    /** `limitedInfection({user, numToInfect, siteVersion, infected})`:
        refuses a capacity below one without touching anything; otherwise
        runs the class step on `user`, sets its flag, and recurses into each
        coach `getUnvisitedConnectedCoaches()` listed, in order, even when an
        earlier sibling's recursion has visited it since. Returns the length
        of the shared tagged list and the list itself.

        On success the tags and the list obey `Grows` relative to the
        call's start, the list stays within the capacity when it started
        within it, the flags only get set, `user` ends visited, and every
        user this call visits (and `user` itself) ends with all its
        connected coaches visited. */
    method LimitedInfection(user: UserId, numToInfect: Capacity, v: int, infected: seq<UserId>)
      returns (r: Result<nat>, infected': seq<UserId>)
      requires Valid() && user < Count()
      modifies this`siteVersion, this`visited
      ensures Valid() && links == old(links)
      ensures numToInfect.BelowOne() ==>
        r == Err(TooFewUsers) && infected' == infected && siteVersion == old(siteVersion) && visited == old(visited)
      ensures !numToInfect.BelowOne() ==>
        && r == Ok(|infected'|)
        && Progress(links, numToInfect, v, old(siteVersion), siteVersion, infected, infected', old(visited), visited)
        && Progress(links, numToInfect, v, ClassStep(links, old(siteVersion), infected, user, numToInfect, v).0, siteVersion,
                    ClassStep(links, old(siteVersion), infected, user, numToInfect, v).1, infected', old(visited)[user := true], visited)
        && visited[user] && Covered(links, visited, user)
        && (numToInfect.Unbounded? ==> LimitedProps.ClassTagged(links, siteVersion, user, v))
      decreases UnvisitedSet(), if visited[user] then 1 else 0, 1
    {
      if numToInfect.BelowOne() {
        return Err(TooFewUsers), infected;
      }
      ghost var vis0 := visited;
      infected' := VisitUser(user, infected, numToInfect, v);
      ghost var t1 := siteVersion;
      ghost var i1 := infected';
      ghost var vis1 := visited;
      assert UnvisitedIn(vis1) == UnvisitedIn(vis0) - {user};
      var coaches := UnvisitedConnectedCoaches(user);
      infected' := VisitCoaches(coaches, numToInfect, v, infected');
      FinishVisit(links, vis0, vis1, visited, user, coaches);
      if numToInfect.Unbounded? {
        FinishTagged(links, vis0, vis1, visited, t1, siteVersion, user, v);
      }
      ProgressTrans(links, numToInfect, v, old(siteVersion), t1, siteVersion, infected, i1, infected', vis0, vis0, visited);
      r := Ok(|infected'|);
    }

    /** The `forEach` of `limitedInfection` over the unvisited connected
        coaches: the recursive call on each in turn, threading the tagged
        list. Afterwards every listed coach is visited. */
    method VisitCoaches(coaches: seq<UserId>, numToInfect: Capacity, v: int, infected: seq<UserId>)
      returns (infected': seq<UserId>)
      requires Valid() && !numToInfect.BelowOne()
      requires forall j :: 0 <= j < |coaches| ==> coaches[j] < Count() && !visited[coaches[j]]
      modifies this`siteVersion, this`visited
      ensures Valid() && links == old(links)
      ensures Progress(links, numToInfect, v, old(siteVersion), siteVersion, infected, infected', old(visited), visited)
      ensures forall j :: 0 <= j < |coaches| ==> coaches[j] < |visited| && visited[coaches[j]]
      decreases UnvisitedSet(), 1, 0
    {
      infected' := infected;
      GrowsRefl(siteVersion, infected, v);
      for i := 0 to |coaches|
        invariant Valid() && links == old(links)
        invariant Progress(links, numToInfect, v, old(siteVersion), siteVersion, infected, infected', old(visited), visited)
        invariant forall j :: 0 <= j < i ==> visited[coaches[j]]
      {
        ghost var t1 := siteVersion;
        ghost var i1 := infected';
        ghost var visB := visited;
        MarkedUnvisited(old(visited), visited);
        assert coaches[i] in UnvisitedIn(old(visited));
        var _, infected2 := LimitedInfection(coaches[i], numToInfect, v, infected');
        infected' := infected2;
        ProgressTrans(links, numToInfect, v, old(siteVersion), t1, siteVersion, infected, i1, infected', old(visited), visB, visited);
      }
    }

    /** `totalInfection({user, siteVersion})`: `limitedInfection` with
        `numToInfect: Infinity`; never refused. */
    method TotalInfection(user: UserId, v: int) returns (count: nat)
      requires Valid() && user < Count()
      modifies this`siteVersion, this`visited
      ensures Valid() && links == old(links)
      ensures exists infected ::
        Progress(links, Unbounded, v, old(siteVersion), siteVersion, [], infected, old(visited), visited) && count == |infected|
      ensures visited[user] && Covered(links, visited, user)
      ensures LimitedProps.ClassTagged(links, siteVersion, user, v)
      ensures NewlyTagged(links, old(visited), visited, siteVersion, v)
      ensures links.NoDupStudents() ==>
        count == |set i: nat | i < |siteVersion| && siteVersion[i] != old(siteVersion)[i]|
    {
      var r, infected := LimitedInfection(user, Unbounded, v, []);
      count := r.value;
      if links.NoDupStudents() {
        assert infected[0..] == infected;
        GrowsCount(old(siteVersion), siteVersion, infected, v);
      }
    }
  }
}
