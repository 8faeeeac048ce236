/** Properties of the bounded walk of lib/limitedInfection.js, proved about
    the specification functions `ClassStep`, `Visit`, `Propagate` and
    `Spread`, from which the method `Limited.LimitedInfection` is proved to
    compute its result. */
module LimitedProps {
  import opened Seqs
  import opened Graph
  import opened Limited

  /** Every tag in `t` is the one in `t0` or the target value. */
  ghost predicate MovesToward(t0: seq<int>, t: seq<int>, v: int) {
    |t| == |t0| && forall i :: 0 <= i < |t0| ==> t[i] == t0[i] || t[i] == v
  }

  /** The tagged list of `w` names exactly the users whose tag differs from
      `t0`, and each of them now carries `v`. */
  ghost predicate Accounted(t0: seq<int>, w: Walk, v: int) {
    && MovesToward(t0, w.tags, v)
    && (forall i :: 0 <= i < |t0| ==> (w.tags[i] != t0[i] <==> i in w.infected))
    && (forall k :: 0 <= k < |w.infected| ==> w.infected[k] < |t0| && w.tags[w.infected[k]] == v)
  }

  /** The users whose tag differs between `t0` and `t`. */
  ghost function Changed(t0: seq<int>, t: seq<int>): set<UserId> {
    set i: nat | i < |t0| && i < |t| && t[i] != t0[i]
  }

  /** The bound `infected.length <= numToInfect`. */
  ghost predicate WithinCapacity(cap: Capacity, w: Walk) {
    cap.Finite? ==> |w.infected| <= cap.limit
  }

  /** Every user reached from a visited user by `getConnectedCoaches` is
      visited or still queued. */
  ghost predicate Closed(links: Links, w: Walk)
    requires links.Valid()
  {
    forall x, k :: x in w.visited && x < links.Count() && 0 <= k < |links.ConnectedCoaches(x)| ==>
      links.ConnectedCoaches(x)[k] in w.visited || links.ConnectedCoaches(x)[k] in w.queue
  }

  /** When `u` is a coach, it and all of its students carry `v`. */
  ghost predicate ClassTagged(links: Links, tags: seq<int>, u: UserId, v: int)
    requires links.Valid() && |tags| == links.Count() && u < links.Count()
  {
    links.IsCoach(u) ==>
      tags[u] == v && forall k :: 0 <= k < |links.students[u]| ==> tags[links.students[u][k]] == v
  }

  /** Every visited coach and all of its students carry `v`. */
  ghost predicate ClassesTagged(links: Links, w: Walk, v: int)
    requires links.Valid() && |w.tags| == links.Count()
  {
    forall u :: u in w.visited && u < links.Count() ==> ClassTagged(links, w.tags, u, v)
  }

  /** Every tagged user is a visited coach whose class was accepted, or one
      of its students. */
  ghost predicate TaggedByClass(links: Links, w: Walk)
    requires links.Valid()
  {
    forall k :: 0 <= k < |w.infected| ==>
      exists c :: c in w.visited && c < links.Count() && links.IsCoach(c) &&
        (w.infected[k] == c || w.infected[k] in links.students[c])
  }

  /** `S` holds every student and every coach of each of its users: a union
      of connected components of the coaching graph. */
  ghost predicate ClosedSet(links: Links, S: set<UserId>)
    requires links.Valid()
  {
    && (forall x, k :: x in S && x < links.Count() && 0 <= k < |links.students[x]| ==> links.students[x][k] in S)
    && (forall x, k :: x in S && x < links.Count() && 0 <= k < |links.coaches[x]| ==> links.coaches[x][k] in S)
  }

  // ---------------------------------------------------------------------
  // One visit

  /** A visit writes no tag other than `v`. */
  lemma VisitMovesToward(links: Links, w: Walk, cap: Capacity, v: int)
    requires links.Valid() && w.Fits(links) && w.queue != []
    ensures MovesToward(w.tags, Visit(links, w, cap, v).tags, v)
  {
    var r := Visit(links, w, cap, v);
    VisitSpec(links, w, cap, v);
    ClassStepSpec(links, w.tags, w.infected, w.queue[0], cap, v);
    var u := w.queue[0];
    if u !in w.visited {
      var step := ClassStep(links, w.tags, w.infected, u, cap, v);
      var added := step.1[|w.infected|..];
      forall i | 0 <= i < |w.tags| ensures r.tags[i] == w.tags[i] || r.tags[i] == v {
        if r.tags[i] != w.tags[i] {
          assert i in added;
          var k :| 0 <= k < |added| && added[k] == i;
          assert step.1[|w.infected| + k] == i;
        }
      }
    }
  }

  /** A visit keeps the tagged list exact. */
  lemma VisitAccounted(links: Links, w: Walk, cap: Capacity, v: int, t0: seq<int>)
    requires links.Valid() && w.Fits(links) && w.queue != []
    requires Accounted(t0, w, v)
    ensures Accounted(t0, Visit(links, w, cap, v), v)
  {
    var r := Visit(links, w, cap, v);
    VisitSpec(links, w, cap, v);
    VisitMovesToward(links, w, cap, v);
    if w.queue[0] !in w.visited {
      ClassStepSpec(links, w.tags, w.infected, w.queue[0], cap, v);
      AccountedAfter(t0, w, r, v);
    } else {
      assert r.tags == w.tags && r.infected == w.infected;
    }
  }

  /** Tags that move from `w` to `r` only onto the users appended to the
      tagged list, each untagged before, keep the list exact. */
  lemma AccountedAfter(t0: seq<int>, w: Walk, r: Walk, v: int)
    requires Accounted(t0, w, v) && MovesToward(w.tags, r.tags, v)
    requires |w.infected| <= |r.infected| && r.infected[..|w.infected|] == w.infected
    requires forall i :: 0 <= i < |w.tags| ==> (r.tags[i] != w.tags[i] <==> i in r.infected[|w.infected|..])
    requires forall k :: |w.infected| <= k < |r.infected| ==>
      r.infected[k] < |w.tags| && w.tags[r.infected[k]] != v && r.tags[r.infected[k]] == v
    ensures Accounted(t0, r, v)
  {
    var n := |w.infected|;
    var added := r.infected[n..];
    assert r.infected == w.infected + added by {
      assert r.infected[..n] == w.infected;
    }
    forall i | 0 <= i < |t0| ensures r.tags[i] != t0[i] <==> i in r.infected {
      if r.tags[i] == w.tags[i] {
        assert i !in added;
      } else {
        assert i in added;
        var k :| 0 <= k < |added| && added[k] == i;
        assert r.infected[n + k] == i;
        assert w.tags[i] != v;
      }
    }
    forall k | 0 <= k < |r.infected| ensures r.infected[k] < |t0| && r.tags[r.infected[k]] == v {
      if k < n {
        assert r.infected[k] == w.infected[k];
      }
    }
  }

  /** A visit keeps `infected.length <= numToInfect`. */
  lemma VisitWithinCapacity(links: Links, w: Walk, cap: Capacity, v: int)
    requires links.Valid() && w.Fits(links) && w.queue != []
    requires WithinCapacity(cap, w)
    ensures WithinCapacity(cap, Visit(links, w, cap, v))
  {
    VisitSpec(links, w, cap, v);
    ClassStepSpec(links, w.tags, w.infected, w.queue[0], cap, v);
  }

  /** With duplicate-free student lists, a visit keeps the tagged list
      duplicate-free. */
  lemma VisitNoDup(links: Links, w: Walk, cap: Capacity, v: int, t0: seq<int>)
    requires links.Valid() && links.NoDupStudents() && w.Fits(links) && w.queue != []
    requires Accounted(t0, w, v) && NoDup(w.infected)
    ensures NoDup(Visit(links, w, cap, v).infected)
  {
    var r := Visit(links, w, cap, v);
    VisitSpec(links, w, cap, v);
    ClassStepSpec(links, w.tags, w.infected, w.queue[0], cap, v);
    var u := w.queue[0];
    if u !in w.visited {
      var n := |w.infected|;
      var added := r.infected[n..];
      assert r.infected == w.infected + added by {
        assert r.infected[..n] == w.infected;
      }
      assert NoDup(links.students[u]);
      forall i, j | 0 <= i < n && 0 <= j < |added| ensures w.infected[i] != added[j] {
        assert r.infected[n + j] == added[j];
      }
      NoDupConcat(w.infected, added);
    }
  }

  /** A visit keeps the visited set closed up to what is queued, and keeps
      the host visited or queued. */
  lemma VisitClosed(links: Links, w: Walk, cap: Capacity, v: int, host: UserId)
    requires links.Valid() && w.Fits(links) && w.queue != []
    requires Closed(links, w) && (host in w.visited || host in w.queue)
    ensures Closed(links, Visit(links, w, cap, v))
    ensures host in Visit(links, w, cap, v).visited || host in Visit(links, w, cap, v).queue
  {
    var r := Visit(links, w, cap, v);
    VisitSpec(links, w, cap, v);
    ClassStepSpec(links, w.tags, w.infected, w.queue[0], cap, v);
    var u := w.queue[0];
    forall y | y in w.queue && y != u ensures y in w.queue[1..] {
      var k :| 0 <= k < |w.queue| && w.queue[k] == y;
      assert k != 0;
      assert w.queue[1..][k - 1] == y;
    }
    if u !in w.visited {
      forall x, k | x in r.visited && x < links.Count() && 0 <= k < |links.ConnectedCoaches(x)|
        ensures links.ConnectedCoaches(x)[k] in r.visited || links.ConnectedCoaches(x)[k] in r.queue
      {
        var y := links.ConnectedCoaches(x)[k];
        if x == u {
          assert r.queue[|w.queue| - 1 + k] == y;
        }
      }
    }
  }

  /** With no cap, a visit tags the whole class of every new coach and no
      visited coach's class loses its tags. */
  lemma VisitClassesTagged(links: Links, w: Walk, v: int)
    requires links.Valid() && w.Fits(links) && w.queue != []
    requires ClassesTagged(links, w, v)
    ensures ClassesTagged(links, Visit(links, w, Unbounded, v), v)
  {
    var r := Visit(links, w, Unbounded, v);
    var u0 := w.queue[0];
    VisitSpec(links, w, Unbounded, v);
    if u0 !in w.visited {
      ClassStepSpec(links, w.tags, w.infected, u0, Unbounded, v);
      VisitMovesToward(links, w, Unbounded, v);
      if links.IsCoach(u0) {
        assert Accepts(links, w.tags, w.infected, u0, Unbounded, v);
      }
      assert ClassTagged(links, r.tags, u0, v);
      TaggedAfterVisit(links, w, r, u0, v);
    } else {
      assert r.tags == w.tags && r.visited == w.visited;
      assert ClassesTagged(links, r, v) == ClassesTagged(links, w, v);
    }
  }

  /** Adding one visited user keeps every visited coach's class tagged, as
      long as no tag is taken away and the new user's class is tagged. */
  lemma TaggedAfterVisit(links: Links, w: Walk, r: Walk, u0: UserId, v: int)
    requires links.Valid() && |w.tags| == links.Count() && u0 < links.Count()
    requires ClassesTagged(links, w, v)
    requires r.visited == w.visited + {u0} && MovesToward(w.tags, r.tags, v)
    requires ClassTagged(links, r.tags, u0, v)
    ensures ClassesTagged(links, r, v)
  {
    forall u | u in r.visited && u < links.Count() ensures ClassTagged(links, r.tags, u, v) {
      if u != u0 {
        assert u in w.visited;
        assert ClassTagged(links, w.tags, u, v);
      }
    }
  }

  /** The class step tags only `u` and its students. */
  lemma ClassStepTagsClass(links: Links, tags: seq<int>, infected: seq<UserId>, u: UserId, cap: Capacity, v: int)
    requires links.Valid() && |tags| == links.Count() && u < links.Count()
    ensures var r := ClassStep(links, tags, infected, u, cap, v);
      forall k :: |infected| <= k < |r.1| ==> r.1[k] == u || r.1[k] in links.students[u]
  {
    var r := ClassStep(links, tags, infected, u, cap, v);
    var un := Uninfected(links.students[u], tags, v);
    UninfectedMembers(links.students[u], tags, v);
    if Accepts(links, tags, infected, u, cap, v) {
      assert r.1 == infected + un || r.1 == infected + un + [u];
      forall k | |infected| <= k < |r.1| ensures r.1[k] == u || r.1[k] in links.students[u] {
        if k < |infected| + |un| {
          assert r.1[k] == un[k - |infected|];
          assert un[k - |infected|] in un;
        }
      }
    }
  }

  /** A visit tags only the class of the user it visits. */
  lemma VisitTaggedByClass(links: Links, w: Walk, cap: Capacity, v: int)
    requires links.Valid() && w.Fits(links) && w.queue != []
    requires TaggedByClass(links, w)
    ensures TaggedByClass(links, Visit(links, w, cap, v))
  {
    var r := Visit(links, w, cap, v);
    VisitSpec(links, w, cap, v);
    ClassStepSpec(links, w.tags, w.infected, w.queue[0], cap, v);
    var u := w.queue[0];
    if u !in w.visited {
      var n := |w.infected|;
      ClassStepTagsClass(links, w.tags, w.infected, u, cap, v);
      forall k | 0 <= k < |r.infected|
        ensures exists c :: (c in r.visited && c < links.Count() && links.IsCoach(c) &&
          (r.infected[k] == c || r.infected[k] in links.students[c]))
      {
        if k < n {
          assert r.infected[k] == w.infected[k];
          var c :| c in w.visited && c < links.Count() && links.IsCoach(c) &&
            (w.infected[k] == c || w.infected[k] in links.students[c]);
          assert c in r.visited;
        } else {
          assert links.IsCoach(u);
          assert u in r.visited;
        }
      }
    } else {
      assert r.infected == w.infected && r.visited == w.visited;
    }
  }

  // ---------------------------------------------------------------------
  // The whole walk

  lemma {:induction false} PropagateAccounted(links: Links, w: Walk, cap: Capacity, v: int, t0: seq<int>)
    requires links.Valid() && w.Fits(links)
    requires Accounted(t0, w, v)
    ensures Accounted(t0, Propagate(links, w, cap, v), v)
    decreases Unvisited(links, w.visited), |w.queue|
  {
    if w.queue != [] {
      var u := w.queue[0];
      var next := Visit(links, w, cap, v);
      assert u !in w.visited ==> u in Unvisited(links, w.visited) && u !in Unvisited(links, next.visited);
      VisitAccounted(links, w, cap, v, t0);
      PropagateAccounted(links, next, cap, v, t0);
    }
  }

  lemma {:induction false} PropagateWithinCapacity(links: Links, w: Walk, cap: Capacity, v: int)
    requires links.Valid() && w.Fits(links)
    requires WithinCapacity(cap, w)
    ensures WithinCapacity(cap, Propagate(links, w, cap, v))
    decreases Unvisited(links, w.visited), |w.queue|
  {
    if w.queue != [] {
      var u := w.queue[0];
      var next := Visit(links, w, cap, v);
      assert u !in w.visited ==> u in Unvisited(links, w.visited) && u !in Unvisited(links, next.visited);
      VisitWithinCapacity(links, w, cap, v);
      PropagateWithinCapacity(links, next, cap, v);
    }
  }

  lemma {:induction false} PropagateNoDup(links: Links, w: Walk, cap: Capacity, v: int, t0: seq<int>)
    requires links.Valid() && links.NoDupStudents() && w.Fits(links)
    requires Accounted(t0, w, v) && NoDup(w.infected)
    ensures NoDup(Propagate(links, w, cap, v).infected)
    decreases Unvisited(links, w.visited), |w.queue|
  {
    if w.queue != [] {
      var u := w.queue[0];
      var next := Visit(links, w, cap, v);
      assert u !in w.visited ==> u in Unvisited(links, w.visited) && u !in Unvisited(links, next.visited);
      VisitNoDup(links, w, cap, v, t0);
      VisitAccounted(links, w, cap, v, t0);
      PropagateNoDup(links, next, cap, v, t0);
    }
  }

  lemma {:induction false} PropagateClosed(links: Links, w: Walk, cap: Capacity, v: int, host: UserId)
    requires links.Valid() && w.Fits(links)
    requires Closed(links, w) && (host in w.visited || host in w.queue)
    ensures Closed(links, Propagate(links, w, cap, v)) && host in Propagate(links, w, cap, v).visited
    decreases Unvisited(links, w.visited), |w.queue|
  {
    if w.queue != [] {
      var u := w.queue[0];
      var next := Visit(links, w, cap, v);
      assert u !in w.visited ==> u in Unvisited(links, w.visited) && u !in Unvisited(links, next.visited);
      VisitClosed(links, w, cap, v, host);
      PropagateClosed(links, next, cap, v, host);
    }
  }

  lemma {:induction false} PropagateTaggedByClass(links: Links, w: Walk, cap: Capacity, v: int)
    requires links.Valid() && w.Fits(links)
    requires TaggedByClass(links, w)
    ensures TaggedByClass(links, Propagate(links, w, cap, v))
    decreases Unvisited(links, w.visited), |w.queue|
  {
    if w.queue != [] {
      var u := w.queue[0];
      var next := Visit(links, w, cap, v);
      assert u !in w.visited ==> u in Unvisited(links, w.visited) && u !in Unvisited(links, next.visited);
      VisitTaggedByClass(links, w, cap, v);
      PropagateTaggedByClass(links, next, cap, v);
    }
  }

  /** The visited set only grows: an id, once visited, is skipped by every
      later dequeue, so it meets the fit test at most once. */
  lemma {:induction false} PropagateVisitedGrows(links: Links, w: Walk, cap: Capacity, v: int)
    requires links.Valid() && w.Fits(links)
    ensures w.visited <= Propagate(links, w, cap, v).visited
    decreases Unvisited(links, w.visited), |w.queue|
  {
    if w.queue != [] {
      var u := w.queue[0];
      var next := Visit(links, w, cap, v);
      assert u !in w.visited ==> u in Unvisited(links, w.visited) && u !in Unvisited(links, next.visited);
      PropagateVisitedGrows(links, next, cap, v);
    }
  }

  lemma {:induction false} PropagateClassesTagged(links: Links, w: Walk, v: int)
    requires links.Valid() && w.Fits(links)
    requires ClassesTagged(links, w, v)
    ensures ClassesTagged(links, Propagate(links, w, Unbounded, v), v)
    decreases Unvisited(links, w.visited), |w.queue|
  {
    if w.queue != [] {
      var u := w.queue[0];
      var next := Visit(links, w, Unbounded, v);
      assert u !in w.visited ==> u in Unvisited(links, w.visited) && u !in Unvisited(links, next.visited);
      VisitClassesTagged(links, w, v);
      PropagateClassesTagged(links, next, v);
    }
  }

  // ---------------------------------------------------------------------
  // The call

  /** `numToInfect < 1` is refused, and nothing else is. */
  lemma RefusedIffBelowOne(links: Links, tags: seq<int>, host: UserId, cap: Capacity, v: int)
    requires links.Valid() && |tags| == links.Count() && host < links.Count()
    ensures Spread(links, tags, host, cap, v).Err? <==> cap.Finite? && cap.limit < 1
  {
  }

  /** The returned count never exceeds `numToInfect`. */
  lemma CountWithinCapacity(links: Links, tags: seq<int>, host: UserId, cap: Capacity, v: int)
    requires links.Valid() && |tags| == links.Count() && host < links.Count()
    requires Spread(links, tags, host, cap, v).Ok?
    ensures cap.Finite? ==> |Spread(links, tags, host, cap, v).value.infected| <= cap.limit
  {
    PropagateWithinCapacity(links, Start(tags, host), cap, v);
  }

  /** Tags are only ever changed to `v`; the users counted are exactly the
      users whose tag changed, each of which was untagged before the call. */
  lemma SpreadAccounting(links: Links, tags: seq<int>, host: UserId, cap: Capacity, v: int)
    requires links.Valid() && |tags| == links.Count() && host < links.Count()
    requires Spread(links, tags, host, cap, v).Ok?
    ensures var w := Spread(links, tags, host, cap, v).value;
      && MovesToward(tags, w.tags, v)
      && (forall i :: 0 <= i < |tags| ==> (w.tags[i] != tags[i] <==> i in w.infected))
      && (forall k :: 0 <= k < |w.infected| ==> w.infected[k] < |tags| && w.tags[w.infected[k]] == v && tags[w.infected[k]] != v)
  {
    PropagateAccounted(links, Start(tags, host), cap, v, tags);
  }

  /** Only classes are tagged: every counted user is a visited coach or a
      student of one, so a user with no students is never tagged on its
      own visit. */
  lemma SpreadTagsWholeClassesOnly(links: Links, tags: seq<int>, host: UserId, cap: Capacity, v: int)
    requires links.Valid() && |tags| == links.Count() && host < links.Count()
    requires Spread(links, tags, host, cap, v).Ok?
    ensures TaggedByClass(links, Spread(links, tags, host, cap, v).value)
  {
    PropagateTaggedByClass(links, Start(tags, host), cap, v);
  }

  /** With duplicate-free student lists, no user is counted twice, so the
      returned count is the number of users whose tag changed. */
  lemma CountIsNumberChanged(links: Links, tags: seq<int>, host: UserId, cap: Capacity, v: int)
    requires links.Valid() && links.NoDupStudents() && |tags| == links.Count() && host < links.Count()
    requires Spread(links, tags, host, cap, v).Ok?
    ensures var w := Spread(links, tags, host, cap, v).value;
      NoDup(w.infected) && |w.infected| == |Changed(tags, w.tags)|
  {
    var w := Spread(links, tags, host, cap, v).value;
    PropagateAccounted(links, Start(tags, host), cap, v, tags);
    PropagateNoDup(links, Start(tags, host), cap, v, tags);
    assert Elements(w.infected) == Changed(tags, w.tags) by {
      forall x ensures x in Elements(w.infected) <==> x in Changed(tags, w.tags) {
        if x in w.infected {
          var k :| 0 <= k < |w.infected| && w.infected[k] == x;
        }
      }
    }
    NoDupCard(w.infected);
  }

  /** The walk ends with the host visited and the visited set closed under
      `getConnectedCoaches`. */
  lemma SpreadVisitsClosure(links: Links, tags: seq<int>, host: UserId, cap: Capacity, v: int)
    requires links.Valid() && |tags| == links.Count() && host < links.Count()
    requires Spread(links, tags, host, cap, v).Ok?
    ensures var w := Spread(links, tags, host, cap, v).value;
      && host in w.visited
      && forall x, k :: x in w.visited && x < links.Count() && 0 <= k < |links.ConnectedCoaches(x)| ==>
           links.ConnectedCoaches(x)[k] in w.visited
  {
    PropagateClosed(links, Start(tags, host), cap, v, host);
  }

  /** With no cap, every coach the walk visits ends with its whole class
      tagged. */
  lemma UnboundedTagsVisitedClasses(links: Links, tags: seq<int>, host: UserId, v: int)
    requires links.Valid() && |tags| == links.Count() && host < links.Count()
    ensures Spread(links, tags, host, Unbounded, v).Ok?
    ensures ClassesTagged(links, Spread(links, tags, host, Unbounded, v).value, v)
  {
    assert ClassesTagged(links, Start(tags, host), v);
    PropagateClassesTagged(links, Start(tags, host), v);
  }

  // ---------------------------------------------------------------------
  // A capacity of at least the population is no capacity

  /** No class can overflow the population: the tagged list, the untagged
      students of `u` and `u` itself are pairwise distinct users. */
  lemma ClassFitsPopulation(links: Links, tags: seq<int>, infected: seq<UserId>, u: UserId, v: int)
    requires links.Valid() && links.NoDupStudents() && links.NoSelfCoach()
    requires |tags| == links.Count() && u < links.Count()
    requires NoDup(infected)
    requires forall k :: 0 <= k < |infected| ==> infected[k] < |tags| && tags[infected[k]] == v
    ensures ClassSize(links, tags, u, v) + |infected| <= links.Count()
  {
    var un := Uninfected(links.students[u], tags, v);
    UninfectedMembers(links.students[u], tags, v);
    var me: seq<UserId> := if tags[u] == v then [] else [u];
    var xs := infected + un + me;
    assert NoDup(un);
    forall i, j | 0 <= i < |infected| && 0 <= j < |un| ensures infected[i] != un[j] {
    }
    NoDupConcat(infected, un);
    forall i, j | 0 <= i < |infected + un| && 0 <= j < |me| ensures (infected + un)[i] != me[j] {
      if i >= |infected| {
        assert (infected + un)[i] == un[i - |infected|];
        assert un[i - |infected|] in un;
      }
    }
    NoDupConcat(infected + un, me);
    NoDupCard(xs);
    forall x | x in Elements(xs) ensures x in Range(links.Count()) {
      var k :| 0 <= k < |xs| && xs[k] == x;
      if k < |infected| {
        assert xs[k] == infected[k];
      } else if k < |infected| + |un| {
        assert xs[k] == un[k - |infected|];
      }
    }
    SubsetCard(Elements(xs), Range(links.Count()));
  }

  /** Under the same conditions a capacity of at least the population
      accepts exactly the classes no capacity accepts. */
  lemma LargeCapacityAccepts(links: Links, tags: seq<int>, infected: seq<UserId>, u: UserId, c: int, v: int)
    requires links.Valid() && links.NoDupStudents() && links.NoSelfCoach()
    requires |tags| == links.Count() && u < links.Count() && c >= links.Count()
    requires NoDup(infected)
    requires forall k :: 0 <= k < |infected| ==> infected[k] < |tags| && tags[infected[k]] == v
    ensures Accepts(links, tags, infected, u, Finite(c), v) == Accepts(links, tags, infected, u, Unbounded, v)
  {
    ClassFitsPopulation(links, tags, infected, u, v);
  }

  lemma {:induction false} PropagateLargeCapacity(links: Links, w: Walk, c: int, v: int, t0: seq<int>)
    requires links.Valid() && links.NoDupStudents() && links.NoSelfCoach() && w.Fits(links)
    requires c >= links.Count()
    requires Accounted(t0, w, v) && NoDup(w.infected)
    ensures Propagate(links, w, Finite(c), v) == Propagate(links, w, Unbounded, v)
    decreases Unvisited(links, w.visited), |w.queue|
  {
    if w.queue != [] {
      var u := w.queue[0];
      var next := Visit(links, w, Unbounded, v);
      if u !in w.visited {
        LargeCapacityAccepts(links, w.tags, w.infected, u, c, v);
      }
      assert Visit(links, w, Finite(c), v) == next;
      assert u !in w.visited ==> u in Unvisited(links, w.visited) && u !in Unvisited(links, next.visited);
      VisitAccounted(links, w, Unbounded, v, t0);
      VisitNoDup(links, w, Unbounded, v, t0);
      PropagateLargeCapacity(links, next, c, v, t0);
    }
  }

  /** With duplicate-free student lists and no coach of itself, a capacity
      of at least the population behaves exactly like `Infinity`, which is
      how `totalInfection` is built. */
  lemma LargeCapacityIsTotal(links: Links, tags: seq<int>, host: UserId, c: int, v: int)
    requires links.Valid() && links.NoDupStudents() && links.NoSelfCoach()
    requires |tags| == links.Count() && host < links.Count() && c >= links.Count()
    ensures Spread(links, tags, host, Finite(c), v) == Spread(links, tags, host, Unbounded, v)
  {
    PropagateLargeCapacity(links, Start(tags, host), c, v, tags);
  }

  /** The tagged list only grows along a walk. */
  lemma {:induction false} PropagateInfectedGrows(links: Links, w: Walk, cap: Capacity, v: int)
    requires links.Valid() && w.Fits(links)
    ensures |w.infected| <= |Propagate(links, w, cap, v).infected|
    decreases Unvisited(links, w.visited), |w.queue|
  {
    if w.queue != [] {
      var u := w.queue[0];
      var next := Visit(links, w, cap, v);
      VisitSpec(links, w, cap, v);
      if u !in w.visited {
        ClassStepSpec(links, w.tags, w.infected, u, cap, v);
      }
      assert u !in w.visited ==> u in Unvisited(links, w.visited) && u !in Unvisited(links, next.visited);
      PropagateInfectedGrows(links, next, cap, v);
    }
  }

  /** With no coach of itself, a capacity at least the number of users the
      uncapped walk tags accepts every class the uncapped walk accepts, so
      the two walks agree. */
  lemma {:induction false} PropagateCapAtLeastFinal(links: Links, w: Walk, c: int, v: int)
    requires links.Valid() && links.NoSelfCoach() && w.Fits(links)
    requires c >= |Propagate(links, w, Unbounded, v).infected|
    ensures Propagate(links, w, Finite(c), v) == Propagate(links, w, Unbounded, v)
    decreases Unvisited(links, w.visited), |w.queue|
  {
    if w.queue != [] {
      var u := w.queue[0];
      var next := Visit(links, w, Unbounded, v);
      VisitSpec(links, w, Unbounded, v);
      VisitSpec(links, w, Finite(c), v);
      assert u !in w.visited ==> u in Unvisited(links, w.visited) && u !in Unvisited(links, next.visited);
      assert Propagate(links, w, Unbounded, v) == Propagate(links, next, Unbounded, v);
      if u !in w.visited && links.IsCoach(u) {
        ClassStepSpec(links, w.tags, w.infected, u, Unbounded, v);
        PropagateInfectedGrows(links, next, Unbounded, v);
        assert ClassSize(links, w.tags, u, v) + |w.infected| <= c;
      }
      assert Visit(links, w, Finite(c), v) == next;
      PropagateCapAtLeastFinal(links, next, c, v);
    }
  }

  /** With no coach of itself, any capacity of at least one that is at
      least the count `totalInfection` would return gives exactly the
      uncapped result. */
  lemma CapAtLeastTotalIsTotal(links: Links, tags: seq<int>, host: UserId, c: int, v: int)
    requires links.Valid() && links.NoSelfCoach()
    requires |tags| == links.Count() && host < links.Count()
    requires c >= 1 && c >= |Spread(links, tags, host, Unbounded, v).value.infected|
    ensures Spread(links, tags, host, Finite(c), v) == Spread(links, tags, host, Unbounded, v)
  {
    PropagateCapAtLeastFinal(links, Start(tags, host), c, v);
  }

  // ---------------------------------------------------------------------
  // Staying inside a component

  /** `getConnectedCoaches` never leaves a closed set. */
  lemma ConnectedCoachesIn(links: Links, S: set<UserId>, u: UserId, k: nat)
    requires links.Valid() && ClosedSet(links, S) && u in S && u < links.Count()
    requires k < |links.ConnectedCoaches(u)|
    ensures links.ConnectedCoaches(u)[k] in S
  {
    var y := links.ConnectedCoaches(u)[k];
    ConnectedCoachesMembers(links, u, y);
    if y in links.coaches[u] {
      var j :| 0 <= j < |links.coaches[u]| && links.coaches[u][j] == y;
    } else if y in links.students[u] {
      var j :| 0 <= j < |links.students[u]| && links.students[u][j] == y;
    } else {
      var s :| s in links.students[u] && y in links.coaches[s];
      var i :| 0 <= i < |links.students[u]| && links.students[u][i] == s;
      var j :| 0 <= j < |links.coaches[s]| && links.coaches[s][j] == y;
    }
  }

  /** A walk whose queue and visited users lie in a closed set never visits
      a user outside it. */
  lemma {:induction false} PropagateStaysIn(links: Links, w: Walk, cap: Capacity, v: int, S: set<UserId>)
    requires links.Valid() && w.Fits(links) && ClosedSet(links, S)
    requires w.visited <= S && forall k :: 0 <= k < |w.queue| ==> w.queue[k] in S
    ensures Propagate(links, w, cap, v).visited <= S
    decreases Unvisited(links, w.visited), |w.queue|
  {
    if w.queue != [] {
      var u := w.queue[0];
      var next := Visit(links, w, cap, v);
      VisitSpec(links, w, cap, v);
      assert u in S;
      forall k | 0 <= k < |next.queue| ensures next.queue[k] in S {
        if k < |w.queue| - 1 {
          assert next.queue[k] == w.queue[k + 1];
        } else {
          assert u !in w.visited;
          ConnectedCoachesIn(links, S, u, k - (|w.queue| - 1));
        }
      }
      assert u !in w.visited ==> u in Unvisited(links, w.visited) && u !in Unvisited(links, next.visited);
      PropagateStaysIn(links, next, cap, v, S);
    }
  }

  /** Whatever the capacity, the walk from `host` visits and tags only users
      of every closed set that holds `host`: nothing outside the host's
      connected component changes. */
  lemma SpreadStaysIn(links: Links, tags: seq<int>, host: UserId, cap: Capacity, v: int, S: set<UserId>)
    requires links.Valid() && |tags| == links.Count() && host < links.Count()
    requires ClosedSet(links, S) && host in S
    requires Spread(links, tags, host, cap, v).Ok?
    ensures var w := Spread(links, tags, host, cap, v).value;
      w.visited <= S && Changed(tags, w.tags) <= S
  {
    var w := Spread(links, tags, host, cap, v).value;
    PropagateStaysIn(links, Start(tags, host), cap, v, S);
    SpreadAccounting(links, tags, host, cap, v);
    SpreadTagsWholeClassesOnly(links, tags, host, cap, v);
    forall i | i in Changed(tags, w.tags) ensures i in S {
      var k :| 0 <= k < |w.infected| && w.infected[k] == i;
      var c :| c in w.visited && c < links.Count() && links.IsCoach(c) && (i == c || i in links.students[c]);
      if i != c {
        var j :| 0 <= j < |links.students[c]| && links.students[c][j] == i;
      }
    }
  }

  /** The component form: with duplicate-free student lists and no coach of
      itself, a capacity of at least the number of users in any closed set
      holding the host gives exactly the uncapped result. */
  lemma ComponentCapacityIsTotal(links: Links, tags: seq<int>, host: UserId, c: int, v: int, S: set<UserId>)
    requires links.Valid() && links.NoDupStudents() && links.NoSelfCoach()
    requires |tags| == links.Count() && host < links.Count()
    requires ClosedSet(links, S) && host in S
    requires c >= |set x | x in S && x < links.Count()|
    ensures Spread(links, tags, host, Finite(c), v) == Spread(links, tags, host, Unbounded, v)
  {
    var inS := set x | x in S && x < links.Count();
    var w := Spread(links, tags, host, Unbounded, v).value;
    SubsetCard({host}, inS);
    SpreadStaysIn(links, tags, host, Unbounded, v, S);
    CountIsNumberChanged(links, tags, host, Unbounded, v);
    SubsetCard(Changed(tags, w.tags), inS);
    CapAtLeastTotalIsTotal(links, tags, host, c, v);
  }
}
