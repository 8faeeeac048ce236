/** lib/User.js: users, their coach/student lists and the queries the
    propagation walks use.

    A user is named by its id, which is also its index: the source hands out
    ids from a counter that grows by one per constructed user, so the ids of
    the users that exist are exactly `0 .. n-1`. */
module Graph {
  import opened Seqs

  type UserId = nat

  /** The coach/student lists of every user, indexed by id. */
  datatype Links = Links(students: seq<seq<UserId>>, coaches: seq<seq<UserId>>) {

    /** Number of users. */
    function Count(): nat {
      |students|
    }

    /** Every user has both lists, and every listed id names a user. */
    predicate Valid() {
      && |coaches| == Count()
      && (forall u, k :: 0 <= u < Count() && 0 <= k < |students[u]| ==> students[u][k] < Count())
      && (forall u, k :: 0 <= u < Count() && 0 <= k < |coaches[u]| ==> coaches[u][k] < Count())
    }

    /** The relation is kept in both directions: `s` occurs in `c`'s students
        exactly as often as `c` occurs in `s`'s coaches. */
    ghost predicate Symmetric()
      requires Valid()
    {
      forall c, s :: 0 <= c < Count() && 0 <= s < Count() ==>
        multiset(students[c])[s] == multiset(coaches[s])[c]
    }

    /** No user lists the same student twice. */
    ghost predicate NoDupStudents()
      requires Valid()
    {
      forall u :: 0 <= u < Count() ==> NoDup(students[u])
    }

    /** No user is its own student. */
    ghost predicate NoSelfCoach()
      requires Valid()
    {
      forall u :: 0 <= u < Count() ==> u !in students[u]
    }

    /** `isCoach`: the student list is non-empty. */
    predicate IsCoach(u: UserId)
      ensures IsCoach(u) ==> u < |students| && |students[u]| >= 1
    {
      u < |students| && students[u] != []
    }

    /** The students of `u` that are coaches themselves, in stored order. */
    function CoachingStudents(u: UserId): seq<UserId>
      requires u < Count()
    {
      Filter(IsCoach, students[u])
    }

    /** The coach lists of the users in `xs`, concatenated in order. */
    function CoachesOf(xs: seq<UserId>): (r: seq<UserId>)
      requires Valid()
      requires forall k :: 0 <= k < |xs| ==> xs[k] < Count()
      ensures forall k :: 0 <= k < |r| ==> r[k] < Count()
    {
      if xs == [] then [] else coaches[xs[0]] + CoachesOf(xs[1..])
    }

    /** `getConnectedCoaches`: own coaches, then the students that are
        coaches, then every student's coaches; duplicates are kept. */
    function ConnectedCoaches(u: UserId): (r: seq<UserId>)
      requires Valid() && u < Count()
      ensures forall k :: 0 <= k < |r| ==> r[k] < Count()
    {
      var cs := CoachingStudents(u);
      assert forall k :: 0 <= k < |cs| ==> cs[k] < Count() by {
        FilterMembers(IsCoach, students[u]);
        forall k | 0 <= k < |cs| ensures cs[k] < Count() {
          assert cs[k] in cs;
          var j :| 0 <= j < |students[u]| && students[u][j] == cs[k];
        }
      }
      coaches[u] + cs + CoachesOf(students[u])
    }

    /** What `addStudent` does to the lists: `s` joins `c`'s students and
        `c` joins `s`'s coaches, at the end. */
    function WithStudent(c: UserId, s: UserId): (r: Links)
      requires Valid() && c < Count() && s < Count()
      ensures r.Valid() && r.Count() == Count()
    {
      Links(students[c := students[c] + [s]], coaches[s := coaches[s] + [c]])
    }

    /** What `addStudents` does: `WithStudent` for each element, in order. */
    function WithStudents(c: UserId, xs: seq<UserId>): (r: Links)
      requires Valid() && c < Count()
      requires forall k :: 0 <= k < |xs| ==> xs[k] < Count()
      ensures r.Valid() && r.Count() == Count()
      decreases xs
    {
      if xs == [] then this else WithStudent(c, xs[0]).WithStudents(c, xs[1..])
    }
  }

  /** The sum of the coach-list lengths of the users in `xs`. */
  function CoachTotal(links: Links, xs: seq<UserId>): nat
    requires links.Valid()
    requires forall k :: 0 <= k < |xs| ==> xs[k] < links.Count()
  {
    if xs == [] then 0 else |links.coaches[xs[0]]| + CoachTotal(links, xs[1..])
  }

  /** Appending a student keeps the relation symmetric. */
  lemma WithStudentSymmetric(links: Links, c: UserId, s: UserId)
    requires links.Valid() && c < links.Count() && s < links.Count()
    requires links.Symmetric()
    ensures links.WithStudent(c, s).Symmetric()
  {
    var r := links.WithStudent(c, s);
    forall a, b | 0 <= a < r.Count() && 0 <= b < r.Count()
      ensures multiset(r.students[a])[b] == multiset(r.coaches[b])[a]
    {
      assert multiset(links.students[a])[b] == multiset(links.coaches[b])[a];
      if a == c {
        assert multiset(r.students[a]) == multiset(links.students[a]) + multiset{s};
      } else {
        assert r.students[a] == links.students[a];
      }
      if b == s {
        assert multiset(r.coaches[b]) == multiset(links.coaches[b]) + multiset{c};
      } else {
        assert r.coaches[b] == links.coaches[b];
      }
    }
  }

  /** `addStudent(s)` touches only `c`'s students and `s`'s coaches, and
      only by appending to them. */
  lemma WithStudentFrame(links: Links, c: UserId, s: UserId)
    requires links.Valid() && c < links.Count() && s < links.Count()
    ensures var r := links.WithStudent(c, s);
      && r.students[c] == links.students[c] + [s]
      && r.coaches[s] == links.coaches[s] + [c]
      && (forall u :: 0 <= u < links.Count() && u != c ==> r.students[u] == links.students[u])
      && (forall u :: 0 <= u < links.Count() && u != s ==> r.coaches[u] == links.coaches[u])
  {
  }

  /** Adding a list of students one by one, then one more, is adding the
      extended list. */
  lemma {:induction false} WithStudentsSnoc(links: Links, c: UserId, xs: seq<UserId>, x: UserId)
    requires links.Valid() && c < links.Count() && x < links.Count()
    requires forall k :: 0 <= k < |xs| ==> xs[k] < links.Count()
    ensures links.WithStudents(c, xs + [x]) == links.WithStudents(c, xs).WithStudent(c, x)
    decreases xs
  {
    if xs == [] {
      assert xs + [x] == [x];
      assert [x][1..] == [];
    } else {
      assert (xs + [x])[0] == xs[0];
      assert (xs + [x])[1..] == xs[1..] + [x];
      WithStudentsSnoc(links.WithStudent(c, xs[0]), c, xs[1..], x);
    }
  }

  /** `addStudents(xs)` appends exactly `xs` to `c`'s students and changes no
      other user's students. */
  lemma {:induction false} WithStudentsAppends(links: Links, c: UserId, xs: seq<UserId>)
    requires links.Valid() && c < links.Count()
    requires forall k :: 0 <= k < |xs| ==> xs[k] < links.Count()
    ensures var r := links.WithStudents(c, xs);
      && r.students[c] == links.students[c] + xs
      && (forall u :: 0 <= u < links.Count() && u != c ==> r.students[u] == links.students[u])
    decreases xs
  {
    if xs == [] {
      assert links.students[c] + xs == links.students[c];
    } else {
      var l1 := links.WithStudent(c, xs[0]);
      WithStudentFrame(links, c, xs[0]);
      WithStudentsAppends(l1, c, xs[1..]);
      assert l1.students[c] + xs[1..] == links.students[c] + xs by {
        assert [xs[0]] + xs[1..] == xs;
      }
    }
  }

  /** `addStudents` keeps the relation symmetric. */
  lemma {:induction false} WithStudentsSymmetric(links: Links, c: UserId, xs: seq<UserId>)
    requires links.Valid() && c < links.Count()
    requires forall k :: 0 <= k < |xs| ==> xs[k] < links.Count()
    requires links.Symmetric()
    ensures links.WithStudents(c, xs).Symmetric()
    decreases xs
  {
    if xs != [] {
      WithStudentSymmetric(links, c, xs[0]);
      WithStudentsSymmetric(links.WithStudent(c, xs[0]), c, xs[1..]);
    }
  }

  /** With a symmetric relation, a user is a coach exactly when some user
      lists it as a coach. */
  lemma CoachIffListedAsCoach(links: Links, u: UserId)
    requires links.Valid() && links.Symmetric() && u < links.Count()
    ensures links.IsCoach(u) <==> exists s :: 0 <= s < links.Count() && u in links.coaches[s]
  {
    if links.IsCoach(u) {
      var s := links.students[u][0];
      assert multiset(links.students[u])[s] > 0;
      assert multiset(links.coaches[s])[u] == multiset(links.students[u])[s];
      assert u in links.coaches[s];
    }
    if exists s :: 0 <= s < links.Count() && u in links.coaches[s] {
      var s :| 0 <= s < links.Count() && u in links.coaches[s];
      assert multiset(links.coaches[s])[u] > 0;
      assert multiset(links.students[u])[s] == multiset(links.coaches[s])[u];
      assert links.students[u] != [];
    }
  }

  /** Membership in the concatenated coach lists. */
  lemma {:induction false} CoachesOfMembers(links: Links, xs: seq<UserId>, y: UserId)
    requires links.Valid()
    requires forall k :: 0 <= k < |xs| ==> xs[k] < links.Count()
    ensures y in links.CoachesOf(xs) <==> exists s :: s in xs && y in links.coaches[s]
  {
    if xs != [] {
      CoachesOfMembers(links, xs[1..], y);
      if y in links.coaches[xs[0]] {
        assert xs[0] in xs;
      }
      forall s | s in xs && y in links.coaches[s]
        ensures y in links.CoachesOf(xs)
      {
        if s != xs[0] {
          assert s in xs[1..];
        }
      }
    }
  }

  /** The concatenated coach lists are as long as their lengths add up to. */
  lemma {:induction false} CoachesOfLength(links: Links, xs: seq<UserId>)
    requires links.Valid()
    requires forall k :: 0 <= k < |xs| ==> xs[k] < links.Count()
    ensures |links.CoachesOf(xs)| == CoachTotal(links, xs)
  {
    if xs != [] {
      CoachesOfLength(links, xs[1..]);
    }
  }

  /** Who appears in `getConnectedCoaches()`: exactly the user's own coaches,
      its students that are coaches, and the coaches of its students. */
  lemma ConnectedCoachesMembers(links: Links, u: UserId, y: UserId)
    requires links.Valid() && u < links.Count()
    ensures y in links.ConnectedCoaches(u) <==>
      || y in links.coaches[u]
      || (y in links.students[u] && links.IsCoach(y))
      || (exists s :: s in links.students[u] && y in links.coaches[s])
  {
    CoachesOfMembers(links, links.students[u], y);
    FilterMembers(links.IsCoach, links.students[u]);
  }

  /** `getConnectedCoaches()` keeps every duplicate: its length is the number
      of own coaches plus the number of coaching students plus the students'
      coach-list lengths. */
  lemma ConnectedCoachesLength(links: Links, u: UserId)
    requires links.Valid() && u < links.Count()
    ensures |links.ConnectedCoaches(u)| ==
      |links.coaches[u]| + |links.CoachingStudents(u)| + CoachTotal(links, links.students[u])
  {
    CoachesOfLength(links, links.students[u]);
  }

  /** A coach whose students were added symmetrically is among its own
      connected coaches: each student lists it as a coach. */
  lemma SelfInConnectedCoaches(links: Links, u: UserId)
    requires links.Valid() && links.Symmetric() && u < links.Count()
    requires links.IsCoach(u)
    ensures u in links.ConnectedCoaches(u)
  {
    var s := links.students[u][0];
    assert multiset(links.students[u])[s] > 0;
    assert multiset(links.coaches[s])[u] == multiset(links.students[u])[s];
    assert u in links.coaches[s];
    ConnectedCoachesMembers(links, u, u);
  }

  /** All users constructed so far. The source's module-level id counter is
      the number of users: each construction takes the next id. */
  class Users {
    var links: Links
    var siteVersion: seq<int>

    ghost predicate Valid()
      reads this
    {
      links.Valid() && |siteVersion| == links.Count()
    }

    function Count(): nat
      reads this
    {
      |siteVersion|
    }

    /** No users yet; the counter starts at 0. */
    constructor ()
      ensures Valid() && Count() == 0
      ensures links == Links([], [])
    {
      links := Links([], []);
      siteVersion := [];
    }

    /** `new User({siteVersion, students, coaches})`: the new user takes the
        next id and starts with the given tag and lists (by default 0 and
        empty lists). Given lists are stored as they are: the listed users'
        own lists are not updated. */
    method NewUser(tag: int, students: seq<UserId>, coaches: seq<UserId>) returns (id: UserId)
      requires Valid()
      requires forall k :: 0 <= k < |students| ==> students[k] < Count()
      requires forall k :: 0 <= k < |coaches| ==> coaches[k] < Count()
      modifies this
      ensures Valid()
      ensures id == old(Count()) && Count() == old(Count()) + 1
      ensures links == Links(old(links.students) + [students], old(links.coaches) + [coaches])
      ensures siteVersion == old(siteVersion) + [tag]
      ensures students == [] && coaches == [] && old(links).Symmetric() ==> links.Symmetric()
    {
      id := |siteVersion|;
      var old_links := links;
      links := Links(links.students + [students], links.coaches + [coaches]);
      siteVersion := siteVersion + [tag];
      if students == [] && coaches == [] && old_links.Symmetric() {
        forall c, s | 0 <= c < links.Count() && 0 <= s < links.Count()
          ensures multiset(links.students[c])[s] == multiset(links.coaches[s])[c]
        {
          if c < id && s < id {
            assert links.students[c] == old_links.students[c];
            assert links.coaches[s] == old_links.coaches[s];
            assert multiset(old_links.students[c])[s] == multiset(old_links.coaches[s])[c];
          } else if c == id {
            assert multiset(links.students[c]) == multiset{};
            if s < id {
              assert links.coaches[s] == old_links.coaches[s];
              assert c !in links.coaches[s];
            }
          } else {
            assert s == id;
            assert multiset(links.coaches[s]) == multiset{};
            assert links.students[c] == old_links.students[c];
            assert s !in links.students[c];
          }
        }
      }
    }

    /** `addStudent`: `s` becomes a student of `c` and `c` a coach of `s`;
        no tag changes. */
    method AddStudent(c: UserId, s: UserId)
      requires Valid() && c < Count() && s < Count()
      modifies this`links
      ensures Valid()
      ensures links == old(links).WithStudent(c, s)
      ensures old(links).Symmetric() ==> links.Symmetric()
    {
      if links.Symmetric() {
        WithStudentSymmetric(links, c, s);
      }
      links := links.WithStudent(c, s);
    }

    /** `addStudents`: `addStudent` for each element, in order. */
    method AddStudents(c: UserId, xs: seq<UserId>)
      requires Valid() && c < Count()
      requires forall k :: 0 <= k < |xs| ==> xs[k] < Count()
      modifies this`links
      ensures Valid()
      ensures links == old(links).WithStudents(c, xs)
    {
      for i := 0 to |xs|
        invariant Valid()
        invariant links == old(links).WithStudents(c, xs[..i])
      {
        WithStudentsSnoc(old(links), c, xs[..i], xs[i]);
        assert xs[..i + 1] == xs[..i] + [xs[i]];
        AddStudent(c, xs[i]);
      }
      assert xs[..|xs|] == xs;
    }
  }
}
