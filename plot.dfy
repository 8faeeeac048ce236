/** lib/getPlotData.js: the node and edge records of the coach/student
    graph around a host, gathered by the same first-in-first-out walk as the
    propagation but without tagging.

    The walk is specified by `EmitStudents`/`EmitClass` (what
    `generatePlotData` emits for one coach), `PlotVisit` (one dequeue) and
    `PlotWalk` (dequeue until the queue is empty); the methods
    `GeneratePlotData` and `GetPlotData` run the source's loops and are
    proved to produce what those functions describe. Both methods only read
    the users: they have no `modifies` clause. */
module PlotData {
  import opened Seqs
  import opened Graph
  import Limited
  import Util

  /** `infectedColor` and `uninfectedColor`. */
  datatype Color = InfectedColor | UninfectedColor

  /** The `siteVersion` argument, which callers may omit (`undefined`, equal
      to no user's tag). */
  datatype Target = Version(value: int) | NoVersion

  /** `Coach <id>` and `Student <id>`. */
  datatype Label = CoachLabel(id: UserId) | StudentLabel(id: UserId)

  datatype Node = Node(id: UserId, caption: Label, color: Color)

  datatype Edge = Edge(from: UserId, to: UserId)

  /** What the walk has gathered: the seen ids (the `visited` map) and the
      emitted nodes and edges. */
  datatype Drawing = Drawing(visited: set<UserId>, nodes: seq<Node>, edges: seq<Edge>)

  /** The state of the walk: the queue and the drawing. */
  datatype Plot = Plot(queue: seq<UserId>, drawn: Drawing)

  /** `user.siteVersion === siteVersion ? infectedColor : uninfectedColor`. */
  function ColorOf(tag: int, target: Target): Color {
    if target == Version(tag) then InfectedColor else UninfectedColor
  }

  /** The node record of a user, labelled as a coach or as a student. */
  function CoachNode(tags: seq<int>, target: Target, c: UserId): Node
    requires c < |tags|
  {
    Node(c, CoachLabel(c), ColorOf(tags[c], target))
  }

  function StudentNode(tags: seq<int>, target: Target, s: UserId): Node
    requires s < |tags|
  {
    Node(s, StudentLabel(s), ColorOf(tags[s], target))
  }

  /** One edge from `c` to each listed student, in order. */
  function ClassEdges(c: UserId, xs: seq<UserId>): (r: seq<Edge>)
    ensures |r| == |xs|
    ensures forall k :: 0 <= k < |xs| ==> r[k] == Edge(c, xs[k])
  {
    seq(|xs|, k requires 0 <= k < |xs| => Edge(c, xs[k]))
  }

  /** The body of the `forEach` for one student `s` of `c`: a node the
      first time `s` is seen, and an edge every time. */
  function EmitStudent(tags: seq<int>, target: Target, c: UserId, s: UserId, p: Drawing): (r: Drawing)
    requires s < |tags|
    ensures s in r.visited && r.edges == p.edges + [Edge(c, s)]
    ensures |p.nodes| <= |r.nodes| <= |p.nodes| + 1 && r.nodes[..|p.nodes|] == p.nodes
  {
    if s in p.visited then p.(edges := p.edges + [Edge(c, s)])
    else p.(visited := p.visited + {s}, nodes := p.nodes + [StudentNode(tags, target, s)], edges := p.edges + [Edge(c, s)])
  }

  /** The `forEach` over the students `xs` of `c`, in order. */
  function EmitStudents(tags: seq<int>, target: Target, c: UserId, xs: seq<UserId>, p: Drawing): (r: Drawing)
    requires forall k :: 0 <= k < |xs| ==> xs[k] < |tags|
    ensures |r.edges| == |p.edges| + |xs| && |p.nodes| <= |r.nodes|
    decreases |xs|
  {
    if xs == [] then p
    else EmitStudent(tags, target, c, xs[|xs| - 1], EmitStudents(tags, target, c, xs[..|xs| - 1], p))
  }

  /** The `forEach` marks every student seen and emits an edge per
      student, in order; earlier nodes stay in place. */
  lemma EmitStudentsSpec(tags: seq<int>, target: Target, c: UserId, xs: seq<UserId>, p: Drawing)
    requires forall k :: 0 <= k < |xs| ==> xs[k] < |tags|
    ensures var r := EmitStudents(tags, target, c, xs, p);
      && r.visited == p.visited + Elements(xs)
      && r.edges == p.edges + ClassEdges(c, xs)
      && |p.nodes| <= |r.nodes| && r.nodes[..|p.nodes|] == p.nodes
  {
    EmitStudentsVisited(tags, target, c, xs, p);
    EmitStudentsEdges(tags, target, c, xs, p);
    EmitStudentsKeepsNodes(tags, target, c, xs, p);
  }

  lemma {:induction false} EmitStudentsVisited(tags: seq<int>, target: Target, c: UserId, xs: seq<UserId>, p: Drawing)
    requires forall k :: 0 <= k < |xs| ==> xs[k] < |tags|
    ensures EmitStudents(tags, target, c, xs, p).visited == p.visited + Elements(xs)
    decreases |xs|
  {
    if xs != [] {
      var init := xs[..|xs| - 1];
      var s := xs[|xs| - 1];
      assert xs == init + [s];
      EmitStudentsVisited(tags, target, c, init, p);
      EmitStudentSpec(tags, target, c, s, EmitStudents(tags, target, c, init, p));
      ElementsSnoc(init, s);
    }
  }

  lemma {:induction false} EmitStudentsEdges(tags: seq<int>, target: Target, c: UserId, xs: seq<UserId>, p: Drawing)
    requires forall k :: 0 <= k < |xs| ==> xs[k] < |tags|
    ensures EmitStudents(tags, target, c, xs, p).edges == p.edges + ClassEdges(c, xs)
    decreases |xs|
  {
    if xs != [] {
      var init := xs[..|xs| - 1];
      var s := xs[|xs| - 1];
      assert xs == init + [s];
      EmitStudentsEdges(tags, target, c, init, p);
      EmitStudentSpec(tags, target, c, s, EmitStudents(tags, target, c, init, p));
      ClassEdgesSnoc(c, init, s);
      assert p.edges + ClassEdges(c, init) + [Edge(c, s)] == p.edges + (ClassEdges(c, init) + [Edge(c, s)]);
    }
  }

  lemma {:induction false} EmitStudentsKeepsNodes(tags: seq<int>, target: Target, c: UserId, xs: seq<UserId>, p: Drawing)
    requires forall k :: 0 <= k < |xs| ==> xs[k] < |tags|
    ensures var r := EmitStudents(tags, target, c, xs, p); |p.nodes| <= |r.nodes| && r.nodes[..|p.nodes|] == p.nodes
    decreases |xs|
  {
    if xs == [] {
      assert p.nodes[..|p.nodes|] == p.nodes;
    } else {
      var init := xs[..|xs| - 1];
      var s := xs[|xs| - 1];
      var q := EmitStudents(tags, target, c, init, p);
      EmitStudentsKeepsNodes(tags, target, c, init, p);
      EmitStudentSpec(tags, target, c, s, q);
      PrefixOfPrefix(p.nodes, q.nodes, EmitStudent(tags, target, c, s, q).nodes);
    }
  }

  /** One student: it is marked seen and gets an edge; earlier nodes stay. */
  lemma EmitStudentSpec(tags: seq<int>, target: Target, c: UserId, s: UserId, q: Drawing)
    requires s < |tags|
    ensures var r := EmitStudent(tags, target, c, s, q);
      && r.visited == q.visited + {s}
      && r.edges == q.edges + [Edge(c, s)]
      && |q.nodes| <= |r.nodes| && r.nodes[..|q.nodes|] == q.nodes
  {
    var r := EmitStudent(tags, target, c, s, q);
    assert r.nodes[..|q.nodes|] == q.nodes;
  }

  lemma ClassEdgesSnoc(c: UserId, xs: seq<UserId>, s: UserId)
    ensures ClassEdges(c, xs + [s]) == ClassEdges(c, xs) + [Edge(c, s)]
  {
  }

  lemma PrefixOfPrefix<T>(a: seq<T>, b: seq<T>, c: seq<T>)
    requires |a| <= |b| <= |c| && c[..|b|] == b && b[..|a|] == a
    ensures c[..|a|] == a
  {
    assert c[..|a|] == c[..|b|][..|a|];
  }

  /** The nodes of `r` past those of `p` are student nodes of users listed
      in `xs` that `p` had not seen. */
  ghost predicate NewStudentNodes(tags: seq<int>, target: Target, xs: seq<UserId>, p: Drawing, r: Drawing)
    requires |p.nodes| <= |r.nodes|
  {
    forall k :: |p.nodes| <= k < |r.nodes| ==>
      r.nodes[k].id in xs && r.nodes[k].id !in p.visited && r.nodes[k].id < |tags| &&
      r.nodes[k] == StudentNode(tags, target, r.nodes[k].id)
  }

  /** The nodes of `r` past the first `n` have distinct ids. */
  ghost predicate DistinctFrom(n: nat, r: Drawing) {
    forall i, j :: n <= i < j < |r.nodes| ==> r.nodes[i].id != r.nodes[j].id
  }

  /** Every user of `xs` that `p` had not seen has a node in `r` past
      those of `p`. */
  ghost predicate CoversNew(xs: seq<UserId>, p: Drawing, r: Drawing) {
    forall s :: s in xs && s !in p.visited ==> exists k :: |p.nodes| <= k < |r.nodes| && r.nodes[k].id == s
  }

  /** The nodes the `forEach` adds are distinct student nodes of listed
      students not seen before, and every listed student not seen before
      gets one. */
  lemma {:induction false} EmitStudentsNodes(tags: seq<int>, target: Target, c: UserId, xs: seq<UserId>, p: Drawing)
    requires forall k :: 0 <= k < |xs| ==> xs[k] < |tags|
    ensures NewStudentNodes(tags, target, xs, p, EmitStudents(tags, target, c, xs, p))
    ensures DistinctFrom(|p.nodes|, EmitStudents(tags, target, c, xs, p))
    ensures CoversNew(xs, p, EmitStudents(tags, target, c, xs, p))
    decreases |xs|
  {
    if xs != [] {
      var init := xs[..|xs| - 1];
      var last := xs[|xs| - 1];
      assert xs == init + [last];
      var q := EmitStudents(tags, target, c, init, p);
      var r := EmitStudents(tags, target, c, xs, p);
      assert r == EmitStudent(tags, target, c, last, q);
      EmitStudentsSpec(tags, target, c, init, p);
      EmitStudentsNodes(tags, target, c, init, p);
      EmitStudentStep(tags, target, c, init, last, p, q, r);
    }
  }

  /** The inductive step of `EmitStudentsNodes`: one more student. */
  lemma EmitStudentStep(tags: seq<int>, target: Target, c: UserId, init: seq<UserId>, last: UserId, p: Drawing, q: Drawing, r: Drawing)
    requires last < |tags|
    requires |p.nodes| <= |q.nodes| && q.nodes[..|p.nodes|] == p.nodes
    requires q.visited == p.visited + Elements(init)
    requires r == EmitStudent(tags, target, c, last, q)
    requires NewStudentNodes(tags, target, init, p, q) && DistinctFrom(|p.nodes|, q) && CoversNew(init, p, q)
    ensures |p.nodes| <= |r.nodes|
    ensures NewStudentNodes(tags, target, init + [last], p, r)
    ensures DistinctFrom(|p.nodes|, r)
    ensures CoversNew(init + [last], p, r)
  {
    if last in q.visited {
      SeenStudentNodes(tags, target, init, last, p, q, r);
    } else {
      NewStudentNode(tags, target, init, last, p, q, r);
    }
  }

  /** A student seen before adds no node. */
  lemma SeenStudentNodes(tags: seq<int>, target: Target, init: seq<UserId>, last: UserId, p: Drawing, q: Drawing, r: Drawing)
    requires |p.nodes| <= |q.nodes| && r.nodes == q.nodes
    requires q.visited == p.visited + Elements(init) && last in q.visited
    requires NewStudentNodes(tags, target, init, p, q) && DistinctFrom(|p.nodes|, q) && CoversNew(init, p, q)
    ensures NewStudentNodes(tags, target, init + [last], p, r)
    ensures DistinctFrom(|p.nodes|, r)
    ensures CoversNew(init + [last], p, r)
  {
    forall k | |p.nodes| <= k < |r.nodes| ensures r.nodes[k].id in init + [last] {
      assert q.nodes[k].id in init;
    }
    forall s | s in init + [last] && s !in p.visited
      ensures exists k :: |p.nodes| <= k < |r.nodes| && r.nodes[k].id == s
    {
      assert s in init;
      var k :| |p.nodes| <= k < |q.nodes| && q.nodes[k].id == s;
      assert r.nodes[k].id == s;
    }
  }

  /** A student not seen before adds its node at the end. */
  lemma NewStudentNode(tags: seq<int>, target: Target, init: seq<UserId>, last: UserId, p: Drawing, q: Drawing, r: Drawing)
    requires last < |tags|
    requires |p.nodes| <= |q.nodes| && r.nodes == q.nodes + [StudentNode(tags, target, last)]
    requires q.visited == p.visited + Elements(init) && last !in q.visited
    requires NewStudentNodes(tags, target, init, p, q) && DistinctFrom(|p.nodes|, q) && CoversNew(init, p, q)
    ensures NewStudentNodes(tags, target, init + [last], p, r)
    ensures DistinctFrom(|p.nodes|, r)
    ensures CoversNew(init + [last], p, r)
  {
    forall k | |p.nodes| <= k < |q.nodes| ensures r.nodes[k] == q.nodes[k] && r.nodes[k].id in init {
    }
    forall i, j | |p.nodes| <= i < j < |r.nodes| ensures r.nodes[i].id != r.nodes[j].id {
      if j == |q.nodes| {
        assert q.nodes[i].id in Elements(init);
      }
    }
    forall s | s in init + [last] && s !in p.visited
      ensures exists k :: |p.nodes| <= k < |r.nodes| && r.nodes[k].id == s
    {
      if s in init {
        var k :| |p.nodes| <= k < |q.nodes| && q.nodes[k].id == s;
        assert r.nodes[k] == q.nodes[k];
      } else {
        assert r.nodes[|q.nodes|].id == s;
      }
    }
  }

  /** `generatePlotData` for coach `c`: its coach node, then the students.
      The coach itself is not marked seen here. */
  function EmitClass(links: Links, tags: seq<int>, target: Target, c: UserId, p: Drawing): (r: Drawing)
    requires links.Valid() && |tags| == links.Count() && c < links.Count()
    ensures |r.edges| == |p.edges| + |links.students[c]| && |r.nodes| > |p.nodes|
  {
    EmitStudents(tags, target, c, links.students[c], p.(nodes := p.nodes + [CoachNode(tags, target, c)]))
  }

  /** There is a tag per user and the queue and the seen set name existing
      users. */
  predicate Fits(links: Links, tags: seq<int>, p: Plot) {
    && |tags| == links.Count()
    && (forall k :: 0 <= k < |p.queue| ==> p.queue[k] < links.Count())
    && (forall x :: x in p.drawn.visited ==> x < links.Count())
  }

  /** One iteration of the loop of `getPlotData`: dequeue the front user;
      skip it if seen; otherwise emit its class when it is a coach, mark it
      seen and enqueue its connected coaches. A seen or non-coach user emits
      nothing; a new coach emits its node first and an edge per student
      entry. */
  function PlotVisit(links: Links, tags: seq<int>, target: Target, p: Plot): (r: Plot)
    requires links.Valid() && Fits(links, tags, p) && p.queue != []
    ensures Fits(links, tags, r)
  {
    var u := p.queue[0];
    if u in p.drawn.visited then p.(queue := p.queue[1..])
    else
      var q := if links.IsCoach(u) then EmitClass(links, tags, target, u, p.drawn) else p.drawn;
      EmitStudentsSpec(tags, target, u, links.students[u], p.drawn.(nodes := p.drawn.nodes + [CoachNode(tags, target, u)]));
      assert forall x :: x in Elements(links.students[u]) ==> x < links.Count() by {
        forall x | x in Elements(links.students[u]) ensures x < links.Count() {
          var k :| 0 <= k < |links.students[u]| && links.students[u][k] == x;
        }
      }
      Plot(p.queue[1..] + links.ConnectedCoaches(u), q.(visited := q.visited + {u}))
  }

  /** A seen user is only dropped from the queue; an unseen one is marked
      seen and its connected coaches are enqueued. */
  lemma PlotVisitSpec(links: Links, tags: seq<int>, target: Target, p: Plot)
    requires links.Valid() && Fits(links, tags, p) && p.queue != []
    ensures var r := PlotVisit(links, tags, target, p);
      && (p.queue[0] in p.drawn.visited ==> r == p.(queue := p.queue[1..]))
      && (p.queue[0] !in p.drawn.visited ==>
            && r.queue == p.queue[1..] + links.ConnectedCoaches(p.queue[0])
            && p.drawn.visited + {p.queue[0]} <= r.drawn.visited)
  {
    var u := p.queue[0];
    if u !in p.drawn.visited && links.IsCoach(u) {
      EmitStudentsSpec(tags, target, u, links.students[u], p.drawn.(nodes := p.drawn.nodes + [CoachNode(tags, target, u)]));
    }
  }

  /** The whole loop: visit until the queue is empty. */
  function PlotWalk(links: Links, tags: seq<int>, target: Target, p: Plot): (r: Plot)
    requires links.Valid() && Fits(links, tags, p)
    ensures Fits(links, tags, r) && r.queue == []
    decreases Limited.Unvisited(links, p.drawn.visited), |p.queue|
  {
    if p.queue == [] then p
    else
      var u := p.queue[0];
      var next := PlotVisit(links, tags, target, p);
      PlotVisitSpec(links, tags, target, p);
      assert u !in p.drawn.visited ==>
        u in Limited.Unvisited(links, p.drawn.visited) && u !in Limited.Unvisited(links, next.drawn.visited);
      PlotWalk(links, tags, target, next)
  }

  /** The records `getPlotData` returns for `host`. */
  function PlotFrom(links: Links, tags: seq<int>, host: UserId, target: Target): (r: Plot)
    requires links.Valid() && |tags| == links.Count() && host < links.Count()
    ensures Fits(links, tags, r) && r.queue == []
  {
    PlotWalk(links, tags, target, Plot([host], Drawing({}, [], [])))
  }

  /** `generatePlotData(coach, nodes, edges, siteVersion, visited)`: pushes
      the coach node, then for each student a node the first time it is
      seen and an edge every time. The source pushes onto the lists and the
      map in place; here the extended ones are returned. */
  method GeneratePlotData(g: Users, coach: UserId, nodes: seq<Node>, edges: seq<Edge>, target: Target, visited: set<UserId>)
    returns (nodes': seq<Node>, edges': seq<Edge>, visited': set<UserId>)
    requires g.Valid() && coach < g.Count()
    ensures Drawing(visited', nodes', edges') == EmitClass(g.links, g.siteVersion, target, coach, Drawing(visited, nodes, edges))
  {
    nodes' := nodes + [CoachNode(g.siteVersion, target, coach)];
    edges' := edges;
    visited' := visited;
    ghost var d0 := Drawing(visited, nodes', edges);
    var students := g.links.students[coach];
    for i := 0 to |students|
      invariant Drawing(visited', nodes', edges') == EmitStudents(g.siteVersion, target, coach, students[..i], d0)
    {
      var student := students[i];
      assert students[..i + 1][..i] == students[..i];
      assert EmitStudents(g.siteVersion, target, coach, students[..i + 1], d0)
        == EmitStudent(g.siteVersion, target, coach, student, EmitStudents(g.siteVersion, target, coach, students[..i], d0));
      if student !in visited' {
        visited' := visited' + {student};
        nodes' := nodes' + [Node(student, StudentLabel(student), ColorOf(g.siteVersion[student], target))];
      }
      edges' := edges' + [Edge(coach, student)];
    }
    assert students[..|students|] == students;
  }

  /** `getPlotData({user: host, siteVersion})`: returns the records the
      walk from `host` emits. No tag and no list of any user changes. */
  method GetPlotData(g: Users, host: UserId, target: Target) returns (nodes: seq<Node>, edges: seq<Edge>)
    requires g.Valid() && host < g.Count()
    ensures nodes == PlotFrom(g.links, g.siteVersion, host, target).drawn.nodes
    ensures edges == PlotFrom(g.links, g.siteVersion, host, target).drawn.edges
  {
    var queue := [host];
    var visited: set<UserId> := {};
    nodes := [];
    edges := [];
    ghost var final := PlotFrom(g.links, g.siteVersion, host, target);
    while queue != []
      invariant Fits(g.links, g.siteVersion, Plot(queue, Drawing(visited, nodes, edges)))
      invariant PlotWalk(g.links, g.siteVersion, target, Plot(queue, Drawing(visited, nodes, edges))) == final
      decreases Limited.Unvisited(g.links, visited), |queue|
    {
      ghost var before := Plot(queue, Drawing(visited, nodes, edges));
      ghost var after := PlotVisit(g.links, g.siteVersion, target, before);
      PlotVisitSpec(g.links, g.siteVersion, target, before);
      var user := queue[0];
      queue := queue[1..];
      if user in visited {
        continue;
      }
      assert user in Limited.Unvisited(g.links, visited);
      if g.links.IsCoach(user) {
        nodes, edges, visited := GeneratePlotData(g, user, nodes, edges, target, visited);
      }
      visited := visited + {user};
      queue := Util.AddTo(queue, g.links.ConnectedCoaches(user));
      assert Plot(queue, Drawing(visited, nodes, edges)) == after;
    }
  }
}
