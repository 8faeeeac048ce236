/** Lemmas for following the walks of `limitedInfection` and `getPlotData`
    one dequeue at a time on a concrete population.

    The concrete runs (modules `LimitedRuns` and `PlotRuns`) use these
    rather than unfolding `Visit` or `PlotVisit` on a literal population:
    each lemma below names one case of a dequeue, and states the walk after
    it from facts about the front user alone. */
module Runs {
  import opened Seqs
  import opened Graph
  import opened Limited
  import opened PlotData

  // ---------------------------------------------------------------------
  // Tags.

  /** There are `n` tags and none of them is `v`. */
  ghost predicate NoneTagged(tags: seq<int>, n: nat, v: int) {
    |tags| == n && forall i :: 0 <= i < n ==> tags[i] != v
  }

  /** What one dequeue reads of the population: there are `n` users, and
      user `u` has students `s` and connected coaches `cc`. */
  ghost predicate HasClass(links: Links, n: nat, u: UserId, s: seq<UserId>, cc: seq<UserId>) {
    links.Valid() && links.Count() == n && u < n && links.students[u] == s && links.ConnectedCoaches(u) == cc
  }

  /** Every listed user exists and does not carry `v`. */
  ghost predicate Untagged(tags: seq<int>, xs: seq<UserId>, v: int) {
    forall k :: 0 <= k < |xs| ==> xs[k] < |tags| && tags[xs[k]] != v
  }

  /** Every listed user exists and carries `v`. */
  ghost predicate Tagged(tags: seq<int>, xs: seq<UserId>, v: int) {
    forall k :: 0 <= k < |xs| ==> xs[k] < |tags| && tags[xs[k]] == v
  }

  lemma {:induction false} FilterKeepsAll<T(!new)>(p: T -> bool, xs: seq<T>)
    requires forall k :: 0 <= k < |xs| ==> p(xs[k])
    ensures Filter(p, xs) == xs
  {
    if xs != [] {
      FilterKeepsAll(p, xs[1..]);
    }
  }

  lemma {:induction false} FilterDropsAll<T(!new)>(p: T -> bool, xs: seq<T>)
    requires forall k :: 0 <= k < |xs| ==> !p(xs[k])
    ensures Filter(p, xs) == []
  {
    if xs != [] {
      FilterDropsAll(p, xs[1..]);
    }
  }

  /** When no listed student carries `v`, all of them are uninfected. */
  lemma UninfectedAll(students: seq<UserId>, tags: seq<int>, v: int)
    requires Untagged(tags, students, v)
    ensures Uninfected(students, tags, v) == students
  {
    FilterKeepsAll((s: UserId) => s < |tags| && tags[s] != v, students);
  }

  /** When every listed student carries `v`, none of them is uninfected. */
  lemma UninfectedNone(students: seq<UserId>, tags: seq<int>, v: int)
    requires Tagged(tags, students, v)
    ensures Uninfected(students, tags, v) == []
  {
    FilterDropsAll((s: UserId) => s < |tags| && tags[s] != v, students);
  }

  /** `TagAll` on one, two and three users, as plain updates. */
  lemma TagAllOne(tags: seq<int>, a: UserId, v: int)
    requires a < |tags|
    ensures TagAll(tags, [a], v) == tags[a := v]
  {
    assert [a][1..] == [];
  }

  lemma TagAllTwo(tags: seq<int>, a: UserId, b: UserId, v: int)
    requires a < |tags| && b < |tags|
    ensures TagAll(tags, [a, b], v) == tags[a := v][b := v]
  {
    assert [a, b][1..] == [b];
    TagAllOne(tags[a := v], b, v);
  }

  lemma TagAllThree(tags: seq<int>, a: UserId, b: UserId, c: UserId, v: int)
    requires a < |tags| && b < |tags| && c < |tags|
    ensures TagAll(tags, [a, b, c], v) == tags[a := v][b := v][c := v]
  {
    assert [a, b, c][1..] == [b, c];
    TagAllTwo(tags[a := v], b, c, v);
  }

  // ---------------------------------------------------------------------
  // One dequeue of `limitedInfection`, case by case. In each, `u` is the
  // front of the queue, `rest` the remainder, `cc` the connected coaches of
  // `u` and `r` the walk after the dequeue.

  /** An id already visited is dropped from the queue. */
  lemma VisitSeen(links: Links, w: Walk, u: UserId, rest: seq<UserId>, cap: Capacity, v: int, r: Walk)
    requires links.Valid() && w.Fits(links) && w.queue == [u] + rest
    requires u in w.visited
    requires r == w.(queue := rest)
    ensures Visit(links, w, cap, v) == r
  {
  }

  /** A user visited for the first time whose class fails the fit test
      (a non-coach, or a class of untagged students too large for what is
      left): nothing is tagged. */
  lemma VisitRefuses(links: Links, w: Walk, u: UserId, rest: seq<UserId>, cap: Capacity, v: int, cc: seq<UserId>, r: Walk)
    requires links.Valid() && w.Fits(links) && w.queue == [u] + rest && u < links.Count()
    requires u !in w.visited && Untagged(w.tags, links.students[u], v)
    requires !(links.IsCoach(u) && cap.Admits((if w.tags[u] == v then 0 else 1) + |links.students[u]| + |w.infected|))
    requires links.ConnectedCoaches(u) == cc
    requires r == Walk(w.tags, rest + cc, w.visited + {u}, w.infected)
    ensures Visit(links, w, cap, v) == r
  {
    UninfectedAll(links.students[u], w.tags, v);
  }

  /** A coach visited for the first time whose students are all untagged
      and whose class fits: the students are tagged in order, then the
      coach unless it already carries the tag. */
  lemma VisitAccepts(links: Links, w: Walk, u: UserId, rest: seq<UserId>, cap: Capacity, v: int, cc: seq<UserId>, r: Walk)
    requires links.Valid() && w.Fits(links) && w.queue == [u] + rest && u < links.Count()
    requires u !in w.visited && Untagged(w.tags, links.students[u], v) && u !in links.students[u]
    requires links.IsCoach(u) && cap.Admits((if w.tags[u] == v then 0 else 1) + |links.students[u]| + |w.infected|)
    requires links.ConnectedCoaches(u) == cc
    requires r == if w.tags[u] == v
                  then Walk(TagAll(w.tags, links.students[u], v), rest + cc, w.visited + {u}, w.infected + links.students[u])
                  else Walk(TagAll(w.tags, links.students[u], v)[u := v], rest + cc, w.visited + {u}, w.infected + links.students[u] + [u])
    ensures Visit(links, w, cap, v) == r
  {
    UninfectedAll(links.students[u], w.tags, v);
    TagAllAt(w.tags, links.students[u], v);
  }

  /** An untagged coach visited for the first time whose students all
      carry the tag already: its class is the coach alone. */
  lemma VisitTagsCoach(links: Links, w: Walk, u: UserId, rest: seq<UserId>, cap: Capacity, v: int, cc: seq<UserId>, r: Walk)
    requires links.Valid() && w.Fits(links) && w.queue == [u] + rest && u < links.Count()
    requires u !in w.visited && Tagged(w.tags, links.students[u], v) && w.tags[u] != v
    requires links.IsCoach(u) && cap.Admits(1 + |w.infected|)
    requires links.ConnectedCoaches(u) == cc
    requires r == Walk(w.tags[u := v], rest + cc, w.visited + {u}, w.infected + [u])
    ensures Visit(links, w, cap, v) == r
  {
    UninfectedNone(links.students[u], w.tags, v);
  }

  /** A tagged user visited for the first time whose students all carry
      the tag: its class is empty, so whatever the fit test says nothing is
      tagged. */
  lemma VisitTaggedClass(links: Links, w: Walk, u: UserId, rest: seq<UserId>, cap: Capacity, v: int, cc: seq<UserId>, r: Walk)
    requires links.Valid() && w.Fits(links) && w.queue == [u] + rest && u < links.Count()
    requires u !in w.visited && Tagged(w.tags, links.students[u], v) && w.tags[u] == v
    requires links.ConnectedCoaches(u) == cc
    requires r == Walk(w.tags, rest + cc, w.visited + {u}, w.infected)
    ensures Visit(links, w, cap, v) == r
  {
    UninfectedNone(links.students[u], w.tags, v);
  }

  /** Of two listed students, the first carrying `v` and the second not,
      only the second is uninfected. */
  lemma UninfectedSecond(tags: seq<int>, a: UserId, b: UserId, v: int)
    requires a < |tags| && b < |tags| && tags[a] == v && tags[b] != v
    ensures Uninfected([a, b], tags, v) == [b]
  {
    var p := LacksTag(tags, v);
    assert !p(a) && p(b);
    assert [a, b][1..] == [b];
    assert [b][1..] == [];
    assert Filter(p, [b]) == [b] + Filter(p, []);
    assert Filter(p, [a, b]) == [] + Filter(p, [b]);
  }

  /** A user visited for the first time whose class, made of the untagged
      students `un`, fails the fit test: nothing is tagged. */
  lemma VisitRefusesSome(links: Links, w: Walk, u: UserId, rest: seq<UserId>, cap: Capacity, v: int,
                         un: seq<UserId>, cc: seq<UserId>, r: Walk)
    requires links.Valid() && w.Fits(links) && w.queue == [u] + rest && u < links.Count()
    requires u !in w.visited && Uninfected(links.students[u], w.tags, v) == un
    requires !(links.IsCoach(u) && cap.Admits((if w.tags[u] == v then 0 else 1) + |un| + |w.infected|))
    requires links.ConnectedCoaches(u) == cc
    requires r == Walk(w.tags, rest + cc, w.visited + {u}, w.infected)
    ensures Visit(links, w, cap, v) == r
  {
  }

  /** A coach visited for the first time whose class, made of the untagged
      students `un` and the coach unless it carries the tag, fits: `un` is
      tagged in order, then the coach. */
  lemma VisitAcceptsSome(links: Links, w: Walk, u: UserId, rest: seq<UserId>, cap: Capacity, v: int,
                         un: seq<UserId>, cc: seq<UserId>, r: Walk)
    requires links.Valid() && w.Fits(links) && w.queue == [u] + rest && u < links.Count()
    requires u !in w.visited && u !in links.students[u] && Untagged(w.tags, un, v)
    requires Uninfected(links.students[u], w.tags, v) == un
    requires links.IsCoach(u) && cap.Admits((if w.tags[u] == v then 0 else 1) + |un| + |w.infected|)
    requires links.ConnectedCoaches(u) == cc
    requires r == if w.tags[u] == v
                  then Walk(TagAll(w.tags, un, v), rest + cc, w.visited + {u}, w.infected + un)
                  else Walk(TagAll(w.tags, un, v)[u := v], rest + cc, w.visited + {u}, w.infected + un + [u])
    ensures Visit(links, w, cap, v) == r
  {
    UninfectedMembers(links.students[u], w.tags, v);
    TagAllAt(w.tags, un, v);
  }

  /** The loop ends in `last` if it does from the walk one dequeue
      produces. */
  lemma PropagateFrom(links: Links, w: Walk, cap: Capacity, v: int, r: Walk, last: Walk)
    requires links.Valid() && w.Fits(links) && w.queue != [] && Visit(links, w, cap, v) == r
    requires r.Fits(links) && Propagate(links, r, cap, v) == last
    ensures Propagate(links, w, cap, v) == last
  {
  }

  /** Two dequeues that leave only visited users queued end the loop. */
  lemma TwoVisitsDrain(links: Links, w0: Walk, w1: Walk, w2: Walk, cap: Capacity, v: int)
    requires links.Valid() && w0.Fits(links) && w0.queue != [] && Visit(links, w0, cap, v) == w1
    requires w1.queue != [] && Visit(links, w1, cap, v) == w2
    requires forall k :: 0 <= k < |w2.queue| ==> w2.queue[k] in w2.visited
    ensures Propagate(links, w0, cap, v) == w2.(queue := [])
  {
    PropagateDrains(links, w2, cap, v);
    PropagateFrom(links, w1, cap, v, w2, w2.(queue := []));
    PropagateFrom(links, w0, cap, v, w1, w2.(queue := []));
  }

  /** Once every queued user has been visited, the rest of the walk only
      empties the queue. */
  lemma {:induction false} PropagateDrains(links: Links, w: Walk, cap: Capacity, v: int)
    requires links.Valid() && w.Fits(links)
    requires forall k :: 0 <= k < |w.queue| ==> w.queue[k] in w.visited
    ensures Propagate(links, w, cap, v) == w.(queue := [])
    decreases |w.queue|
  {
    if w.queue != [] {
      var next := Visit(links, w, cap, v);
      assert next == w.(queue := w.queue[1..]);
      PropagateDrains(links, next, cap, v);
    }
  }

  // ---------------------------------------------------------------------
  // One dequeue of `getPlotData`, case by case.

  /** An id already seen is dropped from the queue. */
  lemma PlotSeen(links: Links, tags: seq<int>, target: Target, p: Plot, u: UserId, rest: seq<UserId>, r: Plot)
    requires links.Valid() && PlotData.Fits(links, tags, p) && p.queue == [u] + rest
    requires u in p.drawn.visited
    requires r == p.(queue := rest)
    ensures PlotVisit(links, tags, target, p) == r
  {
  }

  /** A user seen for the first time that is not a coach is marked seen
      and draws nothing. */
  lemma PlotNonCoach(links: Links, tags: seq<int>, target: Target, p: Plot, u: UserId, rest: seq<UserId>, cc: seq<UserId>, r: Plot)
    requires links.Valid() && PlotData.Fits(links, tags, p) && p.queue == [u] + rest && u < links.Count()
    requires u !in p.drawn.visited && !links.IsCoach(u)
    requires links.ConnectedCoaches(u) == cc
    requires r == Plot(rest + cc, p.drawn.(visited := p.drawn.visited + {u}))
    ensures PlotVisit(links, tags, target, p) == r
  {
  }

  /** A coach seen for the first time draws its class `d` and is marked
      seen. */
  lemma PlotCoach(links: Links, tags: seq<int>, target: Target, p: Plot, u: UserId, rest: seq<UserId>, cc: seq<UserId>, d: Drawing, r: Plot)
    requires links.Valid() && PlotData.Fits(links, tags, p) && p.queue == [u] + rest && u < links.Count()
    requires u !in p.drawn.visited && links.IsCoach(u)
    requires EmitClass(links, tags, target, u, p.drawn) == d
    requires links.ConnectedCoaches(u) == cc
    requires r == Plot(rest + cc, d.(visited := d.visited + {u}))
    ensures PlotVisit(links, tags, target, p) == r
  {
  }

  /** The `forEach` over one and over two students. */
  lemma EmitStudentsOne(tags: seq<int>, target: Target, c: UserId, a: UserId, d: Drawing)
    requires a < |tags|
    ensures EmitStudents(tags, target, c, [a], d) == EmitStudent(tags, target, c, a, d)
  {
    assert [a][..0] == [];
  }

  lemma EmitStudentsTwo(tags: seq<int>, target: Target, c: UserId, a: UserId, b: UserId, d: Drawing)
    requires a < |tags| && b < |tags|
    ensures EmitStudents(tags, target, c, [a, b], d) == EmitStudent(tags, target, c, b, EmitStudent(tags, target, c, a, d))
  {
    assert [a, b][..1] == [a];
    EmitStudentsOne(tags, target, c, a, d);
  }

  /** The plot walk ends in `last` if it does from the state one dequeue
      produces. */
  lemma PlotWalkFrom(links: Links, tags: seq<int>, target: Target, p: Plot, r: Plot, last: Plot)
    requires links.Valid() && PlotData.Fits(links, tags, p) && p.queue != [] && PlotVisit(links, tags, target, p) == r
    requires PlotData.Fits(links, tags, r) && PlotWalk(links, tags, target, r) == last
    ensures PlotWalk(links, tags, target, p) == last
  {
  }

  /** Dropping the front of the queue keeps the plot within the users. */
  lemma FitsTail(links: Links, tags: seq<int>, u: UserId, rest: seq<UserId>, d: Drawing)
    requires PlotData.Fits(links, tags, Plot([u] + rest, d))
    ensures PlotData.Fits(links, tags, Plot(rest, d))
  {
    assert forall k :: 0 <= k < |rest| ==> rest[k] == ([u] + rest)[k + 1];
  }

  /** A seen user at the front of the queue does not change where the plot
      walk ends. */
  lemma PlotSeenFrom(links: Links, tags: seq<int>, target: Target, u: UserId, rest: seq<UserId>, d: Drawing, last: Plot)
    requires links.Valid() && PlotData.Fits(links, tags, Plot([u] + rest, d)) && u in d.visited
    requires PlotData.Fits(links, tags, Plot(rest, d)) && PlotWalk(links, tags, target, Plot(rest, d)) == last
    ensures PlotWalk(links, tags, target, Plot([u] + rest, d)) == last
  {
    PlotSeen(links, tags, target, Plot([u] + rest, d), u, rest, Plot(rest, d));
    PlotWalkFrom(links, tags, target, Plot([u] + rest, d), Plot(rest, d), last);
  }

  /** Once every queued user has been seen, the rest of the plot walk only
      empties the queue. */
  lemma {:induction false} PlotWalkDrains(links: Links, tags: seq<int>, target: Target, p: Plot)
    requires links.Valid() && PlotData.Fits(links, tags, p)
    requires forall k :: 0 <= k < |p.queue| ==> p.queue[k] in p.drawn.visited
    ensures PlotWalk(links, tags, target, p) == p.(queue := [])
    decreases |p.queue|
  {
    if p.queue != [] {
      var next := PlotVisit(links, tags, target, p);
      assert next == p.(queue := p.queue[1..]);
      PlotWalkDrains(links, tags, target, next);
    }
  }
}
