/** Runs of `getPlotData` on populations of test/test.js and on the
    populations that show the walk's edge cases.

    As for the propagation, a run is proved for any `links` with the
    population's facts and any tags `t` and `target`, then applied to the
    population with no `siteVersion` argument, as the tests call it. Lemmas
    named `...Step` state one dequeue and lemmas named `...From` state where
    the walk ends from a given state. */
module PlotRuns {
  import opened Graph
  import opened PlotData
  import opened Runs
  import opened Populations

  // ---------------------------------------------------------------------
  // A host (0) coaching one student (1): test/test.js:394-418.

  lemma HostAndStudentPlotStep1(links: Links, t: seq<int>, target: Target)
    requires HasClass(links, 2, 0, [1], [0]) && |t| == 2
    ensures PlotVisit(links, t, target, Plot([0], Drawing({}, [], [])))
         == Plot([0], Drawing({1, 0}, [CoachNode(t, target, 0), StudentNode(t, target, 1)], [Edge(0, 1)]))
  {
    var d := Drawing({1}, [CoachNode(t, target, 0), StudentNode(t, target, 1)], [Edge(0, 1)]);
    EmitStudentsOne(t, target, 0, 1, Drawing({}, [CoachNode(t, target, 0)], []));
    PlotCoach(links, t, target, Plot([0], Drawing({}, [], [])), 0, [], [0], d, Plot([0], d.(visited := {1, 0})));
  }

  lemma HostAndStudentPlotFrom0(links: Links, t: seq<int>, target: Target)
    requires links.Valid() && links.Count() == 2 && |t| == 2
    requires PlotVisit(links, t, target, Plot([0], Drawing({}, [], [])))
          == Plot([0], Drawing({1, 0}, [CoachNode(t, target, 0), StudentNode(t, target, 1)], [Edge(0, 1)]))
    ensures PlotWalk(links, t, target, Plot([0], Drawing({}, [], [])))
         == Plot([], Drawing({1, 0}, [CoachNode(t, target, 0), StudentNode(t, target, 1)], [Edge(0, 1)]))
  {
    var p1 := Plot([0], Drawing({1, 0}, [CoachNode(t, target, 0), StudentNode(t, target, 1)], [Edge(0, 1)]));
    PlotWalkDrains(links, t, target, p1);
    PlotWalkFrom(links, t, target, Plot([0], Drawing({}, [], [])), p1, p1.(queue := []));
  }

  lemma HostAndStudentPlotRun(links: Links, t: seq<int>, target: Target)
    requires HostAndStudentFacts(links) && |t| == 2
    ensures PlotFrom(links, t, 0, target)
         == Plot([], Drawing({1, 0}, [CoachNode(t, target, 0), StudentNode(t, target, 1)], [Edge(0, 1)]))
  {
    HostAndStudentPlotStep1(links, t, target);
    HostAndStudentPlotFrom0(links, t, target);
  }

  /** The host's coach node, then its student's node, both uncoloured, and
      one edge from the host to the student. */
  lemma PlotHostAndStudent(t: seq<int>)
    requires |t| == 2
    ensures HostAndStudent().Valid() && |t| == HostAndStudent().Count()
    ensures PlotFrom(HostAndStudent(), t, 0, NoVersion).drawn.nodes
         == [Node(0, CoachLabel(0), UninfectedColor), Node(1, StudentLabel(1), UninfectedColor)]
    ensures PlotFrom(HostAndStudent(), t, 0, NoVersion).drawn.edges == [Edge(0, 1)]
  {
    HostAndStudentHasFacts();
    HostAndStudentPlotRun(HostAndStudent(), t, NoVersion);
  }

  // ---------------------------------------------------------------------
  // The host (0) coaches 1 and 2; a coach (4) has 2 and 3:
  // test/test.js:420-434.

  lemma SharedPlotStep1(links: Links, t: seq<int>, target: Target)
    requires HasClass(links, 5, 0, [1, 2], [0, 0, 4]) && |t| == 5
    ensures PlotVisit(links, t, target, Plot([0], Drawing({}, [], [])))
         == Plot([0, 0, 4], Drawing({1, 2, 0}, [CoachNode(t, target, 0), StudentNode(t, target, 1), StudentNode(t, target, 2)],
                                    [Edge(0, 1), Edge(0, 2)]))
  {
    var d := Drawing({1, 2}, [CoachNode(t, target, 0), StudentNode(t, target, 1), StudentNode(t, target, 2)], [Edge(0, 1), Edge(0, 2)]);
    var d0 := Drawing({}, [CoachNode(t, target, 0)], []);
    EmitStudentsTwo(t, target, 0, 1, 2, d0);
    assert Drawing({}, [], []).(nodes := [] + [CoachNode(t, target, 0)]) == d0;
    assert EmitClass(links, t, target, 0, Drawing({}, [], [])) == EmitStudents(t, target, 0, [1, 2], d0);
    PlotCoach(links, t, target, Plot([0], Drawing({}, [], [])), 0, [], [0, 0, 4], d, Plot([0, 0, 4], d.(visited := {1, 2, 0})));
  }

  /** The coach 4 draws an edge to the student 2 it shares with the host,
      but no second node for it. */
  lemma SharedPlotStep4(links: Links, t: seq<int>, target: Target)
    requires HasClass(links, 5, 4, [2, 3], [0, 4, 4]) && |t| == 5
    ensures PlotVisit(links, t, target,
                      Plot([4], Drawing({1, 2, 0}, [CoachNode(t, target, 0), StudentNode(t, target, 1), StudentNode(t, target, 2)],
                                        [Edge(0, 1), Edge(0, 2)])))
         == Plot([0, 4, 4], Drawing({1, 2, 0, 3, 4},
                                    [CoachNode(t, target, 0), StudentNode(t, target, 1), StudentNode(t, target, 2),
                                     CoachNode(t, target, 4), StudentNode(t, target, 3)],
                                    [Edge(0, 1), Edge(0, 2), Edge(4, 2), Edge(4, 3)]))
  {
    var d1 := Drawing({1, 2, 0}, [CoachNode(t, target, 0), StudentNode(t, target, 1), StudentNode(t, target, 2)], [Edge(0, 1), Edge(0, 2)]);
    var d := Drawing({1, 2, 0, 3},
                     [CoachNode(t, target, 0), StudentNode(t, target, 1), StudentNode(t, target, 2),
                      CoachNode(t, target, 4), StudentNode(t, target, 3)],
                     [Edge(0, 1), Edge(0, 2), Edge(4, 2), Edge(4, 3)]);
    EmitStudentsTwo(t, target, 4, 2, 3, d1.(nodes := d1.nodes + [CoachNode(t, target, 4)]));
    PlotCoach(links, t, target, Plot([4], d1), 4, [], [0, 4, 4], d, Plot([0, 4, 4], d.(visited := {1, 2, 0, 3, 4})));
  }

  lemma SharedPlotFrom3(links: Links, t: seq<int>, target: Target, d1: Drawing, d2: Drawing)
    requires links.Valid() && links.Count() == 5 && |t| == 5
    requires d2.visited == {1, 2, 0, 3, 4}
    requires PlotData.Fits(links, t, Plot([4], d1))
    requires PlotVisit(links, t, target, Plot([4], d1)) == Plot([0, 4, 4], d2)
    ensures PlotWalk(links, t, target, Plot([4], d1)) == Plot([], d2)
  {
    PlotWalkDrains(links, t, target, Plot([0, 4, 4], d2));
    PlotWalkFrom(links, t, target, Plot([4], d1), Plot([0, 4, 4], d2), Plot([], d2));
  }

  /** Two copies of the host are dropped from the queue. */
  lemma SharedPlotFrom1(links: Links, t: seq<int>, target: Target, d1: Drawing, last: Plot)
    requires links.Valid() && PlotData.Fits(links, t, Plot([0, 0, 4], d1)) && 0 in d1.visited
    requires PlotData.Fits(links, t, Plot([4], d1)) && PlotWalk(links, t, target, Plot([4], d1)) == last
    ensures PlotWalk(links, t, target, Plot([0, 0, 4], d1)) == last
  {
    assert [0, 0, 4] == [0] + [0, 4] && [0, 4] == [0] + [4];
    FitsTail(links, t, 0, [0, 4], d1);
    PlotSeenFrom(links, t, target, 0, [4], d1, last);
    PlotSeenFrom(links, t, target, 0, [0, 4], d1, last);
  }

  lemma SharedPlotFrom0(links: Links, t: seq<int>, target: Target, d1: Drawing, last: Plot)
    requires links.Valid() && links.Count() == 5 && |t| == 5
    requires d1.visited == {1, 2, 0}
    requires PlotVisit(links, t, target, Plot([0], Drawing({}, [], []))) == Plot([0, 0, 4], d1)
    requires PlotWalk(links, t, target, Plot([0, 0, 4], d1)) == last
    ensures PlotWalk(links, t, target, Plot([0], Drawing({}, [], []))) == last
  {
    PlotWalkFrom(links, t, target, Plot([0], Drawing({}, [], [])), Plot([0, 0, 4], d1), last);
  }

  lemma SharedPlotRun(links: Links, t: seq<int>, target: Target)
    requires SharedStudentFacts(links) && |t| == 5
    ensures PlotFrom(links, t, 0, target)
         == Plot([], Drawing({1, 2, 0, 3, 4},
                             [CoachNode(t, target, 0), StudentNode(t, target, 1), StudentNode(t, target, 2),
                              CoachNode(t, target, 4), StudentNode(t, target, 3)],
                             [Edge(0, 1), Edge(0, 2), Edge(4, 2), Edge(4, 3)]))
  {
    var d1 := Drawing({1, 2, 0}, [CoachNode(t, target, 0), StudentNode(t, target, 1), StudentNode(t, target, 2)], [Edge(0, 1), Edge(0, 2)]);
    var d2 := Drawing({1, 2, 0, 3, 4},
                      [CoachNode(t, target, 0), StudentNode(t, target, 1), StudentNode(t, target, 2),
                       CoachNode(t, target, 4), StudentNode(t, target, 3)],
                      [Edge(0, 1), Edge(0, 2), Edge(4, 2), Edge(4, 3)]);
    SharedPlotStep1(links, t, target);
    SharedPlotStep4(links, t, target);
    SharedPlotFrom3(links, t, target, d1, d2);
    SharedPlotFrom1(links, t, target, d1, Plot([], d2));
    SharedPlotFrom0(links, t, target, d1, Plot([], d2));
  }

  /** Five nodes (the host, its two students, the other coach, then that
      coach's other student) and four edges: the shared student gets one
      node and an edge from each of its coaches. */
  lemma PlotSharedStudent(t: seq<int>)
    requires |t| == 5
    ensures SharedStudent().Valid() && |t| == SharedStudent().Count()
    ensures PlotFrom(SharedStudent(), t, 0, NoVersion).drawn.nodes
         == [Node(0, CoachLabel(0), UninfectedColor), Node(1, StudentLabel(1), UninfectedColor),
             Node(2, StudentLabel(2), UninfectedColor), Node(4, CoachLabel(4), UninfectedColor),
             Node(3, StudentLabel(3), UninfectedColor)]
    ensures PlotFrom(SharedStudent(), t, 0, NoVersion).drawn.edges == [Edge(0, 1), Edge(0, 2), Edge(4, 2), Edge(4, 3)]
    ensures |PlotFrom(SharedStudent(), t, 0, NoVersion).drawn.nodes| == 5
    ensures |PlotFrom(SharedStudent(), t, 0, NoVersion).drawn.edges| == 4
  {
    SharedStudentHasFacts();
    SharedPlotRun(SharedStudent(), t, NoVersion);
  }

  // ---------------------------------------------------------------------
  // The chain of test/test.js:233-280 as a plot: 0 coaches 1, who coaches 2.

  lemma ChainPlotStep1(links: Links, t: seq<int>, target: Target)
    requires HasClass(links, 4, 0, [1], [1, 0]) && |t| == 4
    ensures PlotVisit(links, t, target, Plot([0], Drawing({}, [], [])))
         == Plot([1, 0], Drawing({1, 0}, [CoachNode(t, target, 0), StudentNode(t, target, 1)], [Edge(0, 1)]))
  {
    var d := Drawing({1}, [CoachNode(t, target, 0), StudentNode(t, target, 1)], [Edge(0, 1)]);
    EmitStudentsOne(t, target, 0, 1, Drawing({}, [CoachNode(t, target, 0)], []));
    PlotCoach(links, t, target, Plot([0], Drawing({}, [], [])), 0, [], [1, 0], d, Plot([1, 0], d.(visited := {1, 0})));
  }

  lemma ChainPlotFrom0(links: Links, t: seq<int>, target: Target)
    requires links.Valid() && links.Count() == 4 && |t| == 4
    requires PlotVisit(links, t, target, Plot([0], Drawing({}, [], [])))
          == Plot([1, 0], Drawing({1, 0}, [CoachNode(t, target, 0), StudentNode(t, target, 1)], [Edge(0, 1)]))
    ensures PlotWalk(links, t, target, Plot([0], Drawing({}, [], [])))
         == Plot([], Drawing({1, 0}, [CoachNode(t, target, 0), StudentNode(t, target, 1)], [Edge(0, 1)]))
  {
    var p1 := Plot([1, 0], Drawing({1, 0}, [CoachNode(t, target, 0), StudentNode(t, target, 1)], [Edge(0, 1)]));
    PlotWalkDrains(links, t, target, p1);
    PlotWalkFrom(links, t, target, Plot([0], Drawing({}, [], [])), p1, p1.(queue := []));
  }

  /** The coach 1 is first met as the host's student and marked seen
      then, so when it is dequeued it is skipped: its class (the edge to 2
      and the nodes of 2 and 3) is never drawn, and 1 is drawn only as a
      student. */
  lemma PlotSkipsCoachSeenAsStudent(t: seq<int>)
    requires |t| == 4
    ensures Chain().Valid() && |t| == Chain().Count() && Chain().IsCoach(1)
    ensures PlotFrom(Chain(), t, 0, NoVersion).drawn.nodes
         == [Node(0, CoachLabel(0), UninfectedColor), Node(1, StudentLabel(1), UninfectedColor)]
    ensures PlotFrom(Chain(), t, 0, NoVersion).drawn.edges == [Edge(0, 1)]
  {
    ChainHasFacts();
    ChainPlotStep1(Chain(), t, NoVersion);
    ChainPlotFrom0(Chain(), t, NoVersion);
  }

  // ---------------------------------------------------------------------
  // A student (0) whose coach (1) has no other student.

  lemma DanglingPlotStep1(links: Links, t: seq<int>, target: Target)
    requires HasClass(links, 2, 0, [], [1]) && |t| == 2
    ensures PlotVisit(links, t, target, Plot([0], Drawing({}, [], []))) == Plot([1], Drawing({0}, [], []))
  {
    PlotNonCoach(links, t, target, Plot([0], Drawing({}, [], [])), 0, [], [1], Plot([1], Drawing({0}, [], [])));
  }

  lemma DanglingPlotStep2(links: Links, t: seq<int>, target: Target)
    requires HasClass(links, 2, 1, [0], [1]) && |t| == 2
    ensures PlotVisit(links, t, target, Plot([1], Drawing({0}, [], [])))
         == Plot([1], Drawing({0, 1}, [CoachNode(t, target, 1)], [Edge(1, 0)]))
  {
    var d := Drawing({0}, [CoachNode(t, target, 1)], [Edge(1, 0)]);
    EmitStudentsOne(t, target, 1, 0, Drawing({0}, [CoachNode(t, target, 1)], []));
    PlotCoach(links, t, target, Plot([1], Drawing({0}, [], [])), 1, [], [1], d, Plot([1], d.(visited := {0, 1})));
  }

  lemma DanglingPlotFrom1(links: Links, t: seq<int>, target: Target)
    requires links.Valid() && links.Count() == 2 && |t| == 2
    requires PlotVisit(links, t, target, Plot([1], Drawing({0}, [], [])))
          == Plot([1], Drawing({0, 1}, [CoachNode(t, target, 1)], [Edge(1, 0)]))
    ensures PlotWalk(links, t, target, Plot([1], Drawing({0}, [], [])))
         == Plot([], Drawing({0, 1}, [CoachNode(t, target, 1)], [Edge(1, 0)]))
  {
    var p2 := Plot([1], Drawing({0, 1}, [CoachNode(t, target, 1)], [Edge(1, 0)]));
    PlotWalkDrains(links, t, target, p2);
    PlotWalkFrom(links, t, target, Plot([1], Drawing({0}, [], [])), p2, p2.(queue := []));
  }

  lemma DanglingPlotFrom0(links: Links, t: seq<int>, target: Target, last: Plot)
    requires links.Valid() && links.Count() == 2 && |t| == 2
    requires PlotVisit(links, t, target, Plot([0], Drawing({}, [], []))) == Plot([1], Drawing({0}, [], []))
    requires PlotWalk(links, t, target, Plot([1], Drawing({0}, [], []))) == last
    ensures PlotWalk(links, t, target, Plot([0], Drawing({}, [], []))) == last
  {
    PlotWalkFrom(links, t, target, Plot([0], Drawing({}, [], [])), Plot([1], Drawing({0}, [], [])), last);
  }

  lemma DanglingPlotRun(links: Links, t: seq<int>, target: Target)
    requires StudentWithCoachFacts(links) && |t| == 2
    ensures PlotFrom(links, t, 0, target) == Plot([], Drawing({0, 1}, [CoachNode(t, target, 1)], [Edge(1, 0)]))
  {
    DanglingPlotStep1(links, t, target);
    DanglingPlotStep2(links, t, target);
    DanglingPlotFrom1(links, t, target);
    DanglingPlotFrom0(links, t, target, Plot([], Drawing({0, 1}, [CoachNode(t, target, 1)], [Edge(1, 0)])));
  }

  /** From a host that is only a student, the host is marked seen without
      a node; its coach then draws its own node and an edge to the host, so
      the edge ends at an id no node carries. */
  lemma PlotDanglingEdge(t: seq<int>)
    requires |t| == 2
    ensures StudentWithCoach().Valid() && |t| == StudentWithCoach().Count()
    ensures PlotFrom(StudentWithCoach(), t, 0, NoVersion).drawn.nodes == [Node(1, CoachLabel(1), UninfectedColor)]
    ensures PlotFrom(StudentWithCoach(), t, 0, NoVersion).drawn.edges == [Edge(1, 0)]
  {
    StudentWithCoachHasFacts();
    DanglingPlotRun(StudentWithCoach(), t, NoVersion);
  }

  // ---------------------------------------------------------------------
  // A user (0) listed as its own student.

  lemma SelfPlotStep1(links: Links, t: seq<int>, target: Target)
    requires HasClass(links, 1, 0, [0], [0, 0, 0]) && |t| == 1
    ensures PlotVisit(links, t, target, Plot([0], Drawing({}, [], [])))
         == Plot([0, 0, 0], Drawing({0}, [CoachNode(t, target, 0), StudentNode(t, target, 0)], [Edge(0, 0)]))
  {
    var d := Drawing({0}, [CoachNode(t, target, 0), StudentNode(t, target, 0)], [Edge(0, 0)]);
    EmitStudentsOne(t, target, 0, 0, Drawing({}, [CoachNode(t, target, 0)], []));
    PlotCoach(links, t, target, Plot([0], Drawing({}, [], [])), 0, [], [0, 0, 0], d, Plot([0, 0, 0], d));
  }

  lemma SelfPlotFrom0(links: Links, t: seq<int>, target: Target)
    requires links.Valid() && links.Count() == 1 && |t| == 1
    requires PlotVisit(links, t, target, Plot([0], Drawing({}, [], [])))
          == Plot([0, 0, 0], Drawing({0}, [CoachNode(t, target, 0), StudentNode(t, target, 0)], [Edge(0, 0)]))
    ensures PlotWalk(links, t, target, Plot([0], Drawing({}, [], [])))
         == Plot([], Drawing({0}, [CoachNode(t, target, 0), StudentNode(t, target, 0)], [Edge(0, 0)]))
  {
    var p1 := Plot([0, 0, 0], Drawing({0}, [CoachNode(t, target, 0), StudentNode(t, target, 0)], [Edge(0, 0)]));
    PlotWalkDrains(links, t, target, p1);
    PlotWalkFrom(links, t, target, Plot([0], Drawing({}, [], [])), p1, p1.(queue := []));
  }

  /** The coach node is pushed before the coach's students are looked at,
      and the coach is not yet marked seen, so a user that is its own
      student gets a coach node and a student node with the same id. */
  lemma PlotSelfCoachRepeatsId(t: seq<int>)
    requires |t| == 1
    ensures SelfCoached().Valid() && |t| == SelfCoached().Count()
    ensures PlotFrom(SelfCoached(), t, 0, NoVersion).drawn.nodes
         == [Node(0, CoachLabel(0), UninfectedColor), Node(0, StudentLabel(0), UninfectedColor)]
    ensures PlotFrom(SelfCoached(), t, 0, NoVersion).drawn.edges == [Edge(0, 0)]
  {
    SelfCoachedHasFacts();
    SelfPlotStep1(SelfCoached(), t, NoVersion);
    SelfPlotFrom0(SelfCoached(), t, NoVersion);
  }
}
