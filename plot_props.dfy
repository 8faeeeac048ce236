/** Properties of the records lib/getPlotData.js gathers, proved about the
    specification functions `EmitClass`, `PlotVisit` and `PlotWalk`, from
    which the method `PlotData.GetPlotData` is proved to compute its
    result. */
module PlotProps {
  import opened Seqs
  import opened Graph
  import opened PlotData

  /** A node record is the coach node of a coach, or the student node of a
      student of some seen coach; either way its colour is the one its
      user's tag gives. */
  ghost predicate NodeOk(links: Links, tags: seq<int>, target: Target, d: Drawing, n: Node)
    requires links.Valid() && |tags| == links.Count()
  {
    && n.id < links.Count()
    && n.id in d.visited
    && ((n == CoachNode(tags, target, n.id) && links.IsCoach(n.id))
        || (n == StudentNode(tags, target, n.id) &&
            exists c :: c in d.visited && c < links.Count() && n.id in links.students[c]))
  }

  /** An edge record goes from a seen coach, whose coach node was emitted,
      to one of its listed students. */
  ghost predicate EdgeOk(links: Links, tags: seq<int>, target: Target, d: Drawing, e: Edge)
    requires links.Valid() && |tags| == links.Count()
  {
    && e.from < links.Count() && links.IsCoach(e.from) && e.from in d.visited
    && e.to in links.students[e.from]
    && CoachNode(tags, target, e.from) in d.nodes
  }

  ghost predicate NodesOk(links: Links, tags: seq<int>, target: Target, d: Drawing)
    requires links.Valid() && |tags| == links.Count()
  {
    forall k :: 0 <= k < |d.nodes| ==> NodeOk(links, tags, target, d, d.nodes[k])
  }

  ghost predicate EdgesOk(links: Links, tags: seq<int>, target: Target, d: Drawing)
    requires links.Valid() && |tags| == links.Count()
  {
    forall k :: 0 <= k < |d.edges| ==> EdgeOk(links, tags, target, d, d.edges[k])
  }

  /** Every record is well formed. */
  ghost predicate DrawingOk(links: Links, tags: seq<int>, target: Target, d: Drawing)
    requires links.Valid() && |tags| == links.Count()
  {
    NodesOk(links, tags, target, d) && EdgesOk(links, tags, target, d)
  }

  /** What one visit emits. A seen user is dropped from the queue; a new
      user that is not a coach emits nothing; a new coach emits its coach
      node, then a student node for each of its students not seen before
      (distinct, and all of them), and exactly one edge per entry of its
      student list, after the records already there. */
  lemma PlotVisitEmits(links: Links, tags: seq<int>, target: Target, p: Plot)
    requires links.Valid() && Fits(links, tags, p) && p.queue != []
    ensures var u := p.queue[0]; var r := PlotVisit(links, tags, target, p);
      && (u in p.drawn.visited ==> r.drawn == p.drawn)
      && (u !in p.drawn.visited && !links.IsCoach(u) ==>
            r.drawn == p.drawn.(visited := p.drawn.visited + {u}))
      && (u !in p.drawn.visited && links.IsCoach(u) ==>
            && r.drawn.visited == p.drawn.visited + {u} + Elements(links.students[u])
            && r.drawn.edges == p.drawn.edges + ClassEdges(u, links.students[u])
            && |p.drawn.nodes| < |r.drawn.nodes|
            && r.drawn.nodes[..|p.drawn.nodes| + 1] == p.drawn.nodes + [CoachNode(tags, target, u)]
            && (forall k :: |p.drawn.nodes| < k < |r.drawn.nodes| ==>
                  r.drawn.nodes[k].id in links.students[u] && r.drawn.nodes[k].id !in p.drawn.visited &&
                  r.drawn.nodes[k].id < |tags| && r.drawn.nodes[k] == StudentNode(tags, target, r.drawn.nodes[k].id))
            && (forall i, j :: |p.drawn.nodes| < i < j < |r.drawn.nodes| ==> r.drawn.nodes[i].id != r.drawn.nodes[j].id)
            && (forall s :: s in links.students[u] && s !in p.drawn.visited ==>
                  exists k :: |p.drawn.nodes| < k < |r.drawn.nodes| && r.drawn.nodes[k].id == s))
  {
    var u := p.queue[0];
    if u !in p.drawn.visited && links.IsCoach(u) {
      EmitClassEmits(links, tags, target, u, p.drawn);
    }
  }

  /** What `EmitClass` adds for a coach: its students are marked seen, one
      edge per student entry, the coach node, then distinct student nodes
      for exactly the students not seen before. */
  lemma EmitClassEmits(links: Links, tags: seq<int>, target: Target, u: UserId, d: Drawing)
    requires links.Valid() && |tags| == links.Count() && u < links.Count()
    ensures var e := EmitClass(links, tags, target, u, d);
      && e.visited == d.visited + Elements(links.students[u])
      && e.edges == d.edges + ClassEdges(u, links.students[u])
      && |d.nodes| < |e.nodes|
      && e.nodes[..|d.nodes| + 1] == d.nodes + [CoachNode(tags, target, u)]
      && (forall k :: |d.nodes| < k < |e.nodes| ==>
            e.nodes[k].id in links.students[u] && e.nodes[k].id !in d.visited &&
            e.nodes[k].id < |tags| && e.nodes[k] == StudentNode(tags, target, e.nodes[k].id))
      && (forall i, j :: |d.nodes| < i < j < |e.nodes| ==> e.nodes[i].id != e.nodes[j].id)
      && (forall s :: s in links.students[u] && s !in d.visited ==>
            exists k :: |d.nodes| < k < |e.nodes| && e.nodes[k].id == s)
  {
    var d1 := d.(nodes := d.nodes + [CoachNode(tags, target, u)]);
    var e := EmitStudents(tags, target, u, links.students[u], d1);
    EmitStudentsSpec(tags, target, u, links.students[u], d1);
    EmitStudentsNodes(tags, target, u, links.students[u], d1);
    assert e.nodes[..|d1.nodes|] == d1.nodes;
  }

  /** A visit keeps every node record well formed. */
  lemma PlotVisitNodesOk(links: Links, tags: seq<int>, target: Target, p: Plot)
    requires links.Valid() && Fits(links, tags, p) && p.queue != []
    requires NodesOk(links, tags, target, p.drawn)
    ensures NodesOk(links, tags, target, PlotVisit(links, tags, target, p).drawn)
  {
    var u := p.queue[0];
    var d := p.drawn;
    var r := PlotVisit(links, tags, target, p).drawn;
    PlotVisitEmits(links, tags, target, p);
    if u !in d.visited && links.IsCoach(u) {
      ClassNodesOk(links, tags, target, u, d, r);
    } else if u !in d.visited {
      forall k | 0 <= k < |r.nodes| ensures NodeOk(links, tags, target, r, r.nodes[k]) {
        assert NodeOk(links, tags, target, d, d.nodes[k]);
      }
    }
  }

  /** The node records after a coach's class are well formed. */
  lemma ClassNodesOk(links: Links, tags: seq<int>, target: Target, u: UserId, d: Drawing, r: Drawing)
    requires links.Valid() && |tags| == links.Count() && u < links.Count()
    requires r.visited == d.visited + {u} + Elements(links.students[u])
    requires links.IsCoach(u)
    requires |d.nodes| < |r.nodes| && r.nodes[..|d.nodes| + 1] == d.nodes + [CoachNode(tags, target, u)]
    requires forall k :: |d.nodes| < k < |r.nodes| ==>
      r.nodes[k].id in links.students[u] && r.nodes[k].id < |tags| && r.nodes[k] == StudentNode(tags, target, r.nodes[k].id)
    requires NodesOk(links, tags, target, d)
    ensures NodesOk(links, tags, target, r)
  {
    forall k | 0 <= k < |r.nodes| ensures NodeOk(links, tags, target, r, r.nodes[k]) {
      if k < |d.nodes| {
        assert r.nodes[k] == (r.nodes[..|d.nodes| + 1])[k];
        assert NodeOk(links, tags, target, d, d.nodes[k]);
      } else if k == |d.nodes| {
        assert r.nodes[k] == (r.nodes[..|d.nodes| + 1])[k];
      } else {
        var s := r.nodes[k].id;
        assert s in Elements(links.students[u]);
      }
    }
  }

  /** A visit keeps every edge record well formed. */
  lemma PlotVisitEdgesOk(links: Links, tags: seq<int>, target: Target, p: Plot)
    requires links.Valid() && Fits(links, tags, p) && p.queue != []
    requires EdgesOk(links, tags, target, p.drawn)
    ensures EdgesOk(links, tags, target, PlotVisit(links, tags, target, p).drawn)
  {
    var u := p.queue[0];
    var d := p.drawn;
    var r := PlotVisit(links, tags, target, p).drawn;
    PlotVisitEmits(links, tags, target, p);
    if u !in d.visited && links.IsCoach(u) {
      ClassEdgesOk(links, tags, target, u, d, r);
    } else if u !in d.visited {
      forall k | 0 <= k < |r.edges| ensures EdgeOk(links, tags, target, r, r.edges[k]) {
        assert EdgeOk(links, tags, target, d, d.edges[k]);
      }
    }
  }

  /** The edge records after a coach's class are well formed: the earlier
      ones keep their coach node, the new ones start at the coach. */
  lemma ClassEdgesOk(links: Links, tags: seq<int>, target: Target, u: UserId, d: Drawing, r: Drawing)
    requires links.Valid() && |tags| == links.Count() && u < links.Count() && links.IsCoach(u)
    requires d.visited + {u} <= r.visited
    requires r.edges == d.edges + ClassEdges(u, links.students[u])
    requires |d.nodes| < |r.nodes| && r.nodes[..|d.nodes| + 1] == d.nodes + [CoachNode(tags, target, u)]
    requires EdgesOk(links, tags, target, d)
    ensures EdgesOk(links, tags, target, r)
  {
    forall k | 0 <= k < |r.edges| ensures EdgeOk(links, tags, target, r, r.edges[k]) {
      if k < |d.edges| {
        assert EdgeOk(links, tags, target, d, d.edges[k]);
        var j :| 0 <= j < |d.nodes| && d.nodes[j] == CoachNode(tags, target, d.edges[k].from);
        assert r.nodes[j] == (r.nodes[..|d.nodes| + 1])[j];
      } else {
        assert r.edges[k] == ClassEdges(u, links.students[u])[k - |d.edges|];
        assert r.nodes[|d.nodes|] == (r.nodes[..|d.nodes| + 1])[|d.nodes|];
      }
    }
  }

  /** A visit keeps every record well formed. */
  lemma PlotVisitOk(links: Links, tags: seq<int>, target: Target, p: Plot)
    requires links.Valid() && Fits(links, tags, p) && p.queue != []
    requires DrawingOk(links, tags, target, p.drawn)
    ensures DrawingOk(links, tags, target, PlotVisit(links, tags, target, p).drawn)
  {
    PlotVisitNodesOk(links, tags, target, p);
    PlotVisitEdgesOk(links, tags, target, p);
  }

  /** With no coach of itself, a visit keeps node ids distinct: a coach is
      emitted only when dequeued unseen, a student only when unseen, and
      both are then seen. */
  lemma PlotVisitDistinct(links: Links, tags: seq<int>, target: Target, p: Plot)
    requires links.Valid() && links.NoSelfCoach() && Fits(links, tags, p) && p.queue != []
    requires DrawingOk(links, tags, target, p.drawn) && DistinctFrom(0, p.drawn)
    ensures DistinctFrom(0, PlotVisit(links, tags, target, p).drawn)
  {
    var u := p.queue[0];
    var d := p.drawn;
    var r := PlotVisit(links, tags, target, p).drawn;
    PlotVisitEmits(links, tags, target, p);
    if u !in d.visited && links.IsCoach(u) {
      ClassDistinct(links, tags, target, u, d, r);
    }
  }

  /** The node ids after a coach's class stay distinct: the ones before
      were, the coach was unseen, and its student nodes are distinct, unseen
      and not the coach itself. */
  lemma ClassDistinct(links: Links, tags: seq<int>, target: Target, u: UserId, d: Drawing, r: Drawing)
    requires links.Valid() && links.NoSelfCoach() && |tags| == links.Count() && u < links.Count()
    requires NodesOk(links, tags, target, d) && DistinctFrom(0, d) && u !in d.visited
    requires |d.nodes| < |r.nodes| && r.nodes[..|d.nodes| + 1] == d.nodes + [CoachNode(tags, target, u)]
    requires forall k :: |d.nodes| < k < |r.nodes| ==>
      r.nodes[k].id in links.students[u] && r.nodes[k].id !in d.visited
    requires forall i, j :: |d.nodes| < i < j < |r.nodes| ==> r.nodes[i].id != r.nodes[j].id
    ensures DistinctFrom(0, r)
  {
    assert forall k :: 0 <= k < |d.nodes| ==> r.nodes[k] == d.nodes[k] by {
      assert r.nodes[..|d.nodes|] == d.nodes;
    }
    assert r.nodes[|d.nodes|] == (r.nodes[..|d.nodes| + 1])[|d.nodes|];
    forall i, j | 0 <= i < j < |r.nodes| ensures r.nodes[i].id != r.nodes[j].id {
      if j < |d.nodes| {
      } else if i < |d.nodes| {
        assert NodeOk(links, tags, target, d, d.nodes[i]);
      } else if i == |d.nodes| {
        assert r.nodes[j].id in links.students[u];
      }
    }
  }

  lemma {:induction false} PlotWalkOk(links: Links, tags: seq<int>, target: Target, p: Plot)
    requires links.Valid() && Fits(links, tags, p)
    requires DrawingOk(links, tags, target, p.drawn)
    ensures DrawingOk(links, tags, target, PlotWalk(links, tags, target, p).drawn)
    decreases Limited.Unvisited(links, p.drawn.visited), |p.queue|
  {
    if p.queue != [] {
      var u := p.queue[0];
      var next := PlotVisit(links, tags, target, p);
      PlotVisitSpec(links, tags, target, p);
      assert u !in p.drawn.visited ==>
        u in Limited.Unvisited(links, p.drawn.visited) && u !in Limited.Unvisited(links, next.drawn.visited);
      PlotVisitOk(links, tags, target, p);
      PlotWalkOk(links, tags, target, next);
    }
  }

  lemma {:induction false} PlotWalkDistinct(links: Links, tags: seq<int>, target: Target, p: Plot)
    requires links.Valid() && links.NoSelfCoach() && Fits(links, tags, p)
    requires DrawingOk(links, tags, target, p.drawn) && DistinctFrom(0, p.drawn)
    ensures DistinctFrom(0, PlotWalk(links, tags, target, p).drawn)
    decreases Limited.Unvisited(links, p.drawn.visited), |p.queue|
  {
    if p.queue != [] {
      var u := p.queue[0];
      var next := PlotVisit(links, tags, target, p);
      PlotVisitSpec(links, tags, target, p);
      assert u !in p.drawn.visited ==>
        u in Limited.Unvisited(links, p.drawn.visited) && u !in Limited.Unvisited(links, next.drawn.visited);
      PlotVisitDistinct(links, tags, target, p);
      PlotVisitOk(links, tags, target, p);
      PlotWalkDistinct(links, tags, target, next);
    }
  }

  /** The records `getPlotData` returns: every node is the coach node of a
      coach or the student node of a listed student, coloured by its user's
      tag; every edge goes from a coach whose node was emitted to one of
      its students. */
  lemma PlotRecordsWellFormed(links: Links, tags: seq<int>, host: UserId, target: Target)
    requires links.Valid() && |tags| == links.Count() && host < links.Count()
    ensures DrawingOk(links, tags, target, PlotFrom(links, tags, host, target).drawn)
  {
    PlotWalkOk(links, tags, target, Plot([host], Drawing({}, [], [])));
  }

  /** With no coach of itself, no id appears twice among the nodes. */
  lemma PlotNodeIdsDistinct(links: Links, tags: seq<int>, host: UserId, target: Target)
    requires links.Valid() && links.NoSelfCoach() && |tags| == links.Count() && host < links.Count()
    ensures var nodes := PlotFrom(links, tags, host, target).drawn.nodes;
      forall i, j :: 0 <= i < j < |nodes| ==> nodes[i].id != nodes[j].id
  {
    PlotWalkDistinct(links, tags, target, Plot([host], Drawing({}, [], [])));
    assert DistinctFrom(0, PlotFrom(links, tags, host, target).drawn);
  }
}
