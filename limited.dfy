/** lib/limitedInfection.js: bounded propagation of a tag value over the
    coach/student graph by a first-in-first-out walk.

    The walk is specified by the functions `ClassStep` (the fit test and the
    tagging of one class), `Visit` (one dequeue) and `Propagate` (dequeue
    until the queue is empty); the method `LimitedInfection` runs the
    source's loop over a `Users` object and is proved to end in the state
    `Propagate` describes. */
module Limited {
  import opened Seqs
  import opened Graph
  import Util

  /** The `numToInfect` argument: a number, or `Infinity` (no bound). */
  datatype Capacity = Finite(limit: int) | Unbounded {

    /** `numToInfect < 1`: the call is refused. */
    predicate BelowOne() {
      Finite? && limit < 1
    }

    /** `k <= numToInfect`. */
    predicate Admits(k: int) {
      Unbounded? || k <= limit
    }
  }

  datatype Error = TooFewUsers

  datatype Result<T> = Ok(value: T) | Err(error: Error)

  /** The state of the walk: every user's tag, the queue, the ids already
      visited and the users tagged so far, in tagging order. */
  datatype Walk = Walk(tags: seq<int>, queue: seq<UserId>, visited: set<UserId>, infected: seq<UserId>) {

    /** There is a tag per user and the queue names existing users. */
    predicate Fits(links: Links) {
      |tags| == links.Count() && forall k :: 0 <= k < |queue| ==> queue[k] < links.Count()
    }
  }

  /** The walk before the first dequeue: only the host is queued. */
  function Start(tags: seq<int>, host: UserId): Walk {
    Walk(tags, [host], {}, [])
  }

  /** The users not yet visited. */
  function Unvisited(links: Links, visited: set<UserId>): set<UserId> {
    Range(links.Count()) - visited
  }

  /** The test `Uninfected` filters by: an existing user whose tag differs
      from `v`. */
  function LacksTag(tags: seq<int>, v: int): UserId -> bool {
    (s: UserId) => s < |tags| && tags[s] != v
  }

  /** The listed students whose tag differs from `v`, in stored order
      (duplicates kept). */
  function Uninfected(students: seq<UserId>, tags: seq<int>, v: int): (r: seq<UserId>)
    ensures |r| <= |students|
  {
    Filter(LacksTag(tags, v), students)
  }

  /** What `Uninfected` keeps: exactly the listed students that exist and
      lack the tag; it adds no duplicate. */
  lemma UninfectedMembers(students: seq<UserId>, tags: seq<int>, v: int)
    ensures var r := Uninfected(students, tags, v);
      && (forall k :: 0 <= k < |r| ==> r[k] < |tags| && tags[r[k]] != v)
      && (forall s :: s in r <==> s in students && s < |tags| && tags[s] != v)
      && (NoDup(students) ==> NoDup(r))
  {
    var r := Uninfected(students, tags, v);
    FilterMembers(LacksTag(tags, v), students);
    assert forall k :: 0 <= k < |r| ==> r[k] in r;
    if NoDup(students) {
      FilterNoDup(LacksTag(tags, v), students);
    }
  }

  /** The number of users accepting the class of `u` would tag: `u`
      itself unless it already carries `v`, plus its untagged students. */
  function ClassSize(links: Links, tags: seq<int>, u: UserId, v: int): nat
    requires u < |tags| && u < links.Count()
  {
    (if tags[u] == v then 0 else 1) + |Uninfected(links.students[u], tags, v)|
  }

  /** Writes `v` into the tag of every listed user. */
  function TagAll(tags: seq<int>, xs: seq<UserId>, v: int): (r: seq<int>)
    requires forall k :: 0 <= k < |xs| ==> xs[k] < |tags|
    ensures |r| == |tags|
    decreases xs
  {
    if xs == [] then tags else TagAll(tags[xs[0] := v], xs[1..], v)
  }

  /** After `TagAll`, a user carries `v` exactly when it is listed, and
      keeps its tag otherwise. */
  lemma {:induction false} TagAllAt(tags: seq<int>, xs: seq<UserId>, v: int)
    requires forall k :: 0 <= k < |xs| ==> xs[k] < |tags|
    ensures forall i :: 0 <= i < |tags| ==> TagAll(tags, xs, v)[i] == (if i in xs then v else tags[i])
    decreases xs
  {
    if xs != [] {
      TagAllAt(tags[xs[0] := v], xs[1..], v);
      assert forall i :: i in xs <==> i == xs[0] || i in xs[1..] by {
        assert xs == [xs[0]] + xs[1..];
      }
    }
  }

  /** The fit test: `u` is a coach and its class fits in what is left of
      the capacity. */
  predicate Accepts(links: Links, tags: seq<int>, infected: seq<UserId>, u: UserId, cap: Capacity, v: int)
    requires u < |tags| && u < links.Count()
  {
    links.IsCoach(u) && cap.Admits(ClassSize(links, tags, u, v) + |infected|)
  }

  /** The fit test and, when it passes, the tagging of the class: first the
      untagged students, in order, then `u` if it still lacks the tag.
      Returns the new tags and the new list of tagged users. */
  function ClassStep(links: Links, tags: seq<int>, infected: seq<UserId>, u: UserId, cap: Capacity, v: int)
    : (r: (seq<int>, seq<UserId>))
    requires links.Valid() && |tags| == links.Count() && u < links.Count()
    ensures |r.0| == |tags|
  {
    var uninfected := Uninfected(links.students[u], tags, v);
    UninfectedMembers(links.students[u], tags, v);
    if Accepts(links, tags, infected, u, cap, v) then
      var t1 := TagAll(tags, uninfected, v);
      var i1 := infected + uninfected;
      if t1[u] != v then (t1[u := v], i1 + [u]) else (t1, i1)
    else
      (tags, infected)
  }

  /** What a class step does: a refused class changes nothing; an accepted
      one tags `u` and all its students, appends exactly the users whose tag
      changed (each of them lacked `v`), and appends as many users as the
      class size when `u` is not its own student. */
  lemma ClassStepSpec(links: Links, tags: seq<int>, infected: seq<UserId>, u: UserId, cap: Capacity, v: int)
    requires links.Valid() && |tags| == links.Count() && u < links.Count()
    ensures var r := ClassStep(links, tags, infected, u, cap, v);
      && (Accepts(links, tags, infected, u, cap, v) ==>
            r.0[u] == v && forall k :: 0 <= k < |links.students[u]| ==> r.0[links.students[u][k]] == v)
      && (!Accepts(links, tags, infected, u, cap, v) ==> r == (tags, infected))
      && (!links.IsCoach(u) ==> r == (tags, infected))
      && |infected| <= |r.1| <= |infected| + ClassSize(links, tags, u, v)
      && r.1[..|infected|] == infected
      && (Accepts(links, tags, infected, u, cap, v) && u !in links.students[u] ==>
            |r.1| == |infected| + ClassSize(links, tags, u, v))
      && (forall i :: 0 <= i < |tags| ==> (r.0[i] != tags[i] <==> i in r.1[|infected|..]))
      && (forall k :: |infected| <= k < |r.1| ==> r.1[k] < |tags| && tags[r.1[k]] != v && r.0[r.1[k]] == v)
      && (NoDup(links.students[u]) ==> NoDup(r.1[|infected|..]))
  {
    var r := ClassStep(links, tags, infected, u, cap, v);
    var uninfected := Uninfected(links.students[u], tags, v);
    UninfectedMembers(links.students[u], tags, v);
    if Accepts(links, tags, infected, u, cap, v) {
      var t1 := TagAll(tags, uninfected, v);
      TagAllAt(tags, uninfected, v);
      var i1 := infected + uninfected;
      assert i1[..|infected|] == infected;
      assert i1[|infected|..] == uninfected;
      assert forall k :: 0 <= k < |links.students[u]| ==> t1[links.students[u][k]] == v by {
        forall k | 0 <= k < |links.students[u]|
          ensures t1[links.students[u][k]] == v
        {
          var s := links.students[u][k];
          if tags[s] != v {
            assert s in links.students[u];
            assert s in uninfected;
          }
        }
      }
      if t1[u] != v {
        assert (i1 + [u])[..|infected|] == infected;
        assert (i1 + [u])[|infected|..] == uninfected + [u];
        assert u !in uninfected;
        assert NoDup(links.students[u]) ==> NoDup(uninfected + [u]) by {
          if NoDup(links.students[u]) {
            NoDupConcat(uninfected, [u]);
          }
        }
      } else {
        assert u !in links.students[u] ==> tags[u] == v by {
          if u !in links.students[u] {
            assert u !in uninfected;
          }
        }
      }
    } else {
      assert infected[..|infected|] == infected;
      assert infected[|infected|..] == [];
    }
  }

  /** One iteration of the walk: dequeue the front user; skip it if it was
      visited; otherwise run the class step, mark it visited and enqueue its
      connected coaches, unfiltered. */
  function Visit(links: Links, w: Walk, cap: Capacity, v: int): (r: Walk)
    requires links.Valid() && w.Fits(links) && w.queue != []
    ensures r.Fits(links)
  {
    var u := w.queue[0];
    if u in w.visited then
      w.(queue := w.queue[1..])
    else
      var (tags, infected) := ClassStep(links, w.tags, w.infected, u, cap, v);
      Walk(tags, w.queue[1..] + links.ConnectedCoaches(u), w.visited + {u}, infected)
  }

  /** One dequeue: a visited front user is dropped; a new one is marked
      visited, its connected coaches join the back of the queue, and the
      tags and tagged list are what the class step gives. */
  lemma VisitSpec(links: Links, w: Walk, cap: Capacity, v: int)
    requires links.Valid() && w.Fits(links) && w.queue != []
    ensures var r := Visit(links, w, cap, v);
      && (w.queue[0] in w.visited ==> r == w.(queue := w.queue[1..]))
      && (w.queue[0] !in w.visited ==>
            && r.visited == w.visited + {w.queue[0]}
            && r.queue == w.queue[1..] + links.ConnectedCoaches(w.queue[0])
            && (r.tags, r.infected) == ClassStep(links, w.tags, w.infected, w.queue[0], cap, v))
  {
  }

  /** The whole loop: visit until the queue is empty. It terminates because
      each iteration either shortens the queue or visits a new user. */
  function Propagate(links: Links, w: Walk, cap: Capacity, v: int): (r: Walk)
    requires links.Valid() && w.Fits(links)
    ensures r.Fits(links) && r.queue == []
    decreases Unvisited(links, w.visited), |w.queue|
  {
    if w.queue == [] then w
    else
      var u := w.queue[0];
      var next := Visit(links, w, cap, v);
      assert u !in w.visited ==> u in Unvisited(links, w.visited) && u !in Unvisited(links, next.visited);
      Propagate(links, next, cap, v)
  }

  /** The outcome of `limitedInfection` from `host`: refused when the
      capacity is below one, otherwise the final state of the walk. */
  function Spread(links: Links, tags: seq<int>, host: UserId, cap: Capacity, v: int): (r: Result<Walk>)
    requires links.Valid() && |tags| == links.Count() && host < links.Count()
    ensures r.Err? <==> cap.BelowOne()
    ensures r.Ok? ==> r.value.queue == [] && |r.value.tags| == |tags|
  {
    if cap.BelowOne() then Err(TooFewUsers)
    else Ok(Propagate(links, Start(tags, host), cap, v))
  }

  /** `infect`: writes `v` into each listed user's tag and appends the user
      to the tagged list, in order. */
  method Infect(g: Users, students: seq<UserId>, infected: seq<UserId>, v: int) returns (r: seq<UserId>)
    requires g.Valid()
    requires forall k :: 0 <= k < |students| ==> students[k] < |g.siteVersion|
    modifies g`siteVersion
    ensures g.Valid()
    ensures g.siteVersion == TagAll(old(g.siteVersion), students, v)
    ensures r == infected + students
  {
    r := infected;
    for i := 0 to |students|
      invariant g.Valid()
      invariant |g.siteVersion| == |old(g.siteVersion)|
      invariant forall j :: 0 <= j < |g.siteVersion| ==>
        g.siteVersion[j] == if j in students[..i] then v else old(g.siteVersion)[j]
      invariant r == infected + students[..i]
    {
      assert forall j :: j in students[..i + 1] <==> j in students[..i] || j == students[i] by {
        assert students[..i + 1] == students[..i] + [students[i]];
      }
      g.siteVersion := g.siteVersion[students[i] := v];
      r := r + [students[i]];
      assert students[..i + 1] == students[..i] + [students[i]];
    }
    assert students[..|students|] == students;
    TagAllAt(old(g.siteVersion), students, v);
  }

  /** The body of the loop up to marking `user` visited: filter the
      untagged students, run the fit test and, if it passes, infect the
      students and then `user` unless it already carries the tag. */
  method InfectClass(g: Users, user: UserId, infected: seq<UserId>, numToInfect: Capacity, siteVersion: int)
    returns (r: seq<UserId>)
    requires g.Valid() && user < g.Count()
    modifies g`siteVersion
    ensures g.Valid()
    ensures (g.siteVersion, r) == ClassStep(g.links, old(g.siteVersion), infected, user, numToInfect, siteVersion)
  {
    r := infected;
    var uninfectedStudents := Uninfected(g.links.students[user], g.siteVersion, siteVersion);
    UninfectedMembers(g.links.students[user], g.siteVersion, siteVersion);
    var isUserInfected := g.siteVersion[user] == siteVersion;
    var willYouAndYourClassFit :=
      numToInfect.Admits((if isUserInfected then 0 else 1) + |uninfectedStudents| + |infected|);
    if g.links.IsCoach(user) && willYouAndYourClassFit {
      r := Infect(g, uninfectedStudents, r, siteVersion);
      if g.siteVersion[user] != siteVersion {
        ghost var t1 := g.siteVersion;
        r := Infect(g, [user], r, siteVersion);
        assert g.siteVersion == t1[user := siteVersion];
      }
    }
  }

  /** `limitedInfection({user: host, numToInfect, siteVersion})`: refuses a
      capacity below one before touching any user; otherwise runs the walk,
      leaving every tag as `Spread` says, and returns the number of users it
      tagged. The coach/student lists are only read. */
  method LimitedInfection(g: Users, host: UserId, numToInfect: Capacity, siteVersion: int) returns (r: Result<nat>)
    requires g.Valid() && host < g.Count()
    modifies g`siteVersion
    ensures g.Valid() && g.links == old(g.links)
    ensures Spread(g.links, old(g.siteVersion), host, numToInfect, siteVersion).Err? ==>
      r == Err(TooFewUsers) && g.siteVersion == old(g.siteVersion)
    ensures Spread(g.links, old(g.siteVersion), host, numToInfect, siteVersion).Ok? ==>
      var w := Spread(g.links, old(g.siteVersion), host, numToInfect, siteVersion).value;
      r == Ok(|w.infected|) && g.siteVersion == w.tags
  {
    if numToInfect.BelowOne() {
      return Err(TooFewUsers);
    }
    var queue := [host];
    var visited: set<UserId> := {};
    var infected: seq<UserId> := [];
    ghost var final := Propagate(g.links, Start(g.siteVersion, host), numToInfect, siteVersion);
    while queue != []
      invariant g.Valid() && g.links == old(g.links)
      invariant Walk(g.siteVersion, queue, visited, infected).Fits(g.links)
      invariant Propagate(g.links, Walk(g.siteVersion, queue, visited, infected), numToInfect, siteVersion) == final
      decreases Unvisited(g.links, visited), |queue|
    {
      ghost var before := Walk(g.siteVersion, queue, visited, infected);
      ghost var after := Visit(g.links, before, numToInfect, siteVersion);
      var user := queue[0];
      queue := queue[1..];
      if user in visited {
        continue;
      }
      assert user in Unvisited(g.links, visited);
      infected := InfectClass(g, user, infected, numToInfect, siteVersion);
      visited := visited + {user};
      var coaches := g.links.ConnectedCoaches(user);
      queue := Util.AddTo(queue, coaches);
      assert Walk(g.siteVersion, queue, visited, infected) == after;
    }
    return Ok(|infected|);
  }
}
