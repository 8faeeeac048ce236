/** lib/totalInfection.js: the bounded walk with no bound. */
module Total {
  import opened Seqs
  import opened Graph
  import opened Limited
  import LimitedProps

  /** `totalInfection({user: host, siteVersion})`: `limitedInfection` with
      `numToInfect: Infinity`. It is never refused; it leaves every tag as
      the unbounded walk says and returns the number of users it tagged. */
  method TotalInfection(g: Users, host: UserId, siteVersion: int) returns (count: nat)
    requires g.Valid() && host < g.Count()
    modifies g`siteVersion
    ensures g.Valid() && g.links == old(g.links)
    ensures Spread(g.links, old(g.siteVersion), host, Unbounded, siteVersion).Ok?
    ensures var w := Spread(g.links, old(g.siteVersion), host, Unbounded, siteVersion).value;
      count == |w.infected| && g.siteVersion == w.tags
  {
    var r := LimitedInfection(g, host, Unbounded, siteVersion);
    count := r.value;
  }

  /** What the unbounded walk from `host` reaches and tags: the host is
      visited, every user `getConnectedCoaches` yields from a visited user is
      visited, every visited coach and all its students carry the tag, and
      the users counted are exactly those whose tag changed. */
  lemma TotalTagsReachedClasses(links: Links, tags: seq<int>, host: UserId, v: int)
    requires links.Valid() && |tags| == links.Count() && host < links.Count()
    ensures Spread(links, tags, host, Unbounded, v).Ok?
    ensures var w := Spread(links, tags, host, Unbounded, v).value;
      && host in w.visited
      && (forall x: UserId, k :: x in w.visited && x < links.Count() && 0 <= k < |links.ConnectedCoaches(x)| ==>
            links.ConnectedCoaches(x)[k] in w.visited)
      && LimitedProps.ClassesTagged(links, w, v)
      && (forall i :: 0 <= i < |tags| ==> (w.tags[i] != tags[i] <==> i in w.infected))
  {
    LimitedProps.SpreadVisitsClosure(links, tags, host, Unbounded, v);
    LimitedProps.UnboundedTagsVisitedClasses(links, tags, host, v);
    LimitedProps.SpreadAccounting(links, tags, host, Unbounded, v);
  }

  /** A user the unbounded walk reaches: visited, or a student of a
      visited coach (such a student is tagged without being dequeued). */
  ghost predicate Reached(links: Links, w: Walk, y: UserId)
    requires links.Valid()
  {
    || y in w.visited
    || exists c, k :: c in w.visited && c < links.Count() && 0 <= k < |links.students[c]| && links.students[c][k] == y
  }

  /** Every user `getConnectedCoaches` yields from a visited user is
      visited. */
  ghost predicate VisitedClosed(links: Links, w: Walk)
    requires links.Valid()
  {
    forall x: UserId, y :: x in w.visited && x < links.Count() && y in links.ConnectedCoaches(x) ==> y in w.visited
  }

  /** A reached user that is not visited is a student of a visited coach;
      it has no students, and its coaches are visited. */
  lemma ReachedUnvisited(links: Links, w: Walk, y: UserId)
    requires links.Valid() && VisitedClosed(links, w)
    requires y < links.Count() && Reached(links, w, y) && y !in w.visited
    ensures links.students[y] == []
    ensures forall k :: 0 <= k < |links.coaches[y]| ==> links.coaches[y][k] in w.visited
  {
    var c, j :| c in w.visited && c < links.Count() && 0 <= j < |links.students[c]| && links.students[c][j] == y;
    assert y in links.students[c];
    ConnectedCoachesMembers(links, c, y);
    forall k | 0 <= k < |links.coaches[y]| ensures links.coaches[y][k] in w.visited {
      ConnectedCoachesMembers(links, c, links.coaches[y][k]);
    }
  }

  /** The coaches of a reached user are reached. */
  lemma ReachedCoaches(links: Links, w: Walk, x: UserId, k: nat)
    requires links.Valid() && VisitedClosed(links, w)
    requires x < links.Count() && Reached(links, w, x) && k < |links.coaches[x]|
    ensures Reached(links, w, links.coaches[x][k])
  {
    if x in w.visited {
      ConnectedCoachesMembers(links, x, links.coaches[x][k]);
    } else {
      ReachedUnvisited(links, w, x);
    }
  }

  /** The students of a reached user are reached. */
  lemma ReachedStudents(links: Links, w: Walk, x: UserId, k: nat)
    requires links.Valid() && VisitedClosed(links, w)
    requires x < links.Count() && Reached(links, w, x) && k < |links.students[x]|
    ensures Reached(links, w, links.students[x][k])
  {
    if x !in w.visited {
      ReachedUnvisited(links, w, x);
    }
  }

  /** With no cap and symmetric lists, a reached user with a coach or a
      student carries the tag. */
  lemma ReachedTagged(links: Links, w: Walk, v: int, x: UserId)
    requires links.Valid() && links.Symmetric() && |w.tags| == links.Count()
    requires VisitedClosed(links, w) && LimitedProps.ClassesTagged(links, w, v)
    requires x < links.Count() && Reached(links, w, x)
    requires links.students[x] != [] || links.coaches[x] != []
    ensures w.tags[x] == v
  {
    if x in w.visited && links.IsCoach(x) {
      assert LimitedProps.ClassTagged(links, w.tags, x, v);
    } else if x in w.visited {
      var c := links.coaches[x][0];
      ConnectedCoachesMembers(links, x, c);
      assert multiset(links.coaches[x])[c] > 0;
      assert multiset(links.students[c])[x] == multiset(links.coaches[x])[c];
      assert x in links.students[c];
      var j :| 0 <= j < |links.students[c]| && links.students[c][j] == x;
      assert links.IsCoach(c) && LimitedProps.ClassTagged(links, w.tags, c, v);
    } else {
      var c, j :| c in w.visited && c < links.Count() && 0 <= j < |links.students[c]| && links.students[c][j] == x;
      assert links.IsCoach(c) && LimitedProps.ClassTagged(links, w.tags, c, v);
    }
  }

  /** A tagged user is reached. */
  lemma TaggedReached(links: Links, w: Walk, i: UserId)
    requires links.Valid() && LimitedProps.TaggedByClass(links, w)
    requires i in w.infected
    ensures Reached(links, w, i)
  {
    var k :| 0 <= k < |w.infected| && w.infected[k] == i;
    var c :| c in w.visited && c < links.Count() && links.IsCoach(c) && (i == c || i in links.students[c]);
    if i != c {
      var j :| 0 <= j < |links.students[c]| && links.students[c][j] == i;
    }
  }

  /** `totalInfection` covers the host's connected component. With the
      lists kept symmetric by `addStudent`, the reached users include the
      host and every student and coach of a reached user, so they include
      every user connected to the host; every reached user with a coach or a
      student ends with the tag; and no user outside them changes. */
  lemma TotalCoversComponent(links: Links, tags: seq<int>, host: UserId, v: int)
    requires links.Valid() && links.Symmetric() && |tags| == links.Count() && host < links.Count()
    ensures Spread(links, tags, host, Unbounded, v).Ok?
    ensures var w := Spread(links, tags, host, Unbounded, v).value;
      && Reached(links, w, host)
      && (forall x: UserId, k :: x < links.Count() && Reached(links, w, x) && 0 <= k < |links.students[x]| ==>
            Reached(links, w, links.students[x][k]))
      && (forall x: UserId, k :: x < links.Count() && Reached(links, w, x) && 0 <= k < |links.coaches[x]| ==>
            Reached(links, w, links.coaches[x][k]))
      && (forall x: UserId :: x < links.Count() && Reached(links, w, x) && (links.students[x] != [] || links.coaches[x] != []) ==>
            w.tags[x] == v)
      && (forall i :: 0 <= i < |tags| && w.tags[i] != tags[i] ==> Reached(links, w, i))
  {
    TotalTagsReachedClasses(links, tags, host, v);
    var w := Spread(links, tags, host, Unbounded, v).value;
    assert VisitedClosed(links, w) by {
      forall x: UserId, y | x in w.visited && x < links.Count() && y in links.ConnectedCoaches(x) ensures y in w.visited {
        var k :| 0 <= k < |links.ConnectedCoaches(x)| && links.ConnectedCoaches(x)[k] == y;
      }
    }
    forall x: UserId, k | x < links.Count() && Reached(links, w, x) && 0 <= k < |links.students[x]|
      ensures Reached(links, w, links.students[x][k])
    {
      ReachedStudents(links, w, x, k);
    }
    forall x: UserId, k | x < links.Count() && Reached(links, w, x) && 0 <= k < |links.coaches[x]|
      ensures Reached(links, w, links.coaches[x][k])
    {
      ReachedCoaches(links, w, x, k);
    }
    forall x: UserId | x < links.Count() && Reached(links, w, x) && (links.students[x] != [] || links.coaches[x] != [])
      ensures w.tags[x] == v
    {
      ReachedTagged(links, w, v, x);
    }
    LimitedProps.SpreadTagsWholeClassesOnly(links, tags, host, Unbounded, v);
    forall i | 0 <= i < |tags| && w.tags[i] != tags[i] ensures Reached(links, w, i) {
      TaggedReached(links, w, i);
    }
  }

  /** The reached users are the host's connected component and no more:
      every closed set that holds the host holds every reached user and
      every user whose tag changed. With `TotalCoversComponent`, the reached
      users form the least such set. */
  lemma TotalWithinComponent(links: Links, tags: seq<int>, host: UserId, v: int, S: set<UserId>)
    requires links.Valid() && |tags| == links.Count() && host < links.Count()
    requires LimitedProps.ClosedSet(links, S) && host in S
    ensures Spread(links, tags, host, Unbounded, v).Ok?
    ensures var w := Spread(links, tags, host, Unbounded, v).value;
      && (forall y: UserId :: Reached(links, w, y) ==> y in S)
      && (forall i :: 0 <= i < |tags| && w.tags[i] != tags[i] ==> i in S)
  {
    var w := Spread(links, tags, host, Unbounded, v).value;
    LimitedProps.SpreadStaysIn(links, tags, host, Unbounded, v, S);
    forall y: UserId | Reached(links, w, y) ensures y in S {
      if y !in w.visited {
        var c, k :| c in w.visited && c < links.Count() && 0 <= k < |links.students[c]| && links.students[c][k] == y;
      }
    }
    forall i | 0 <= i < |tags| && w.tags[i] != tags[i] ensures i in S {
      assert i in LimitedProps.Changed(tags, w.tags);
    }
  }
}
