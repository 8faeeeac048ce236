/** Runs of `limitedInfection` and `totalInfection` on the populations of
    test/test.js.

    Every run starts from tags `t` on which no user carries the written
    value `v` (the tests' users start without a `siteVersion` and the calls
    write 1). A run is proved for any `links` with the population's facts,
    then applied to the population. Lemmas named `...Step` state one
    dequeue; lemmas named `...From` state where the loop ends from a given
    walk, working back from the last dequeue to the first. */
module LimitedRuns {
  import opened Graph
  import opened Limited
  import opened Runs
  import opened Populations

  // ---------------------------------------------------------------------
  // totalInfection: a host with one student (test/test.js:13-21).

  lemma HostAndStudentRun(links: Links, t: seq<int>, v: int)
    requires HostAndStudentFacts(links) && NoneTagged(t, 2, v)
    ensures Spread(links, t, 0, Unbounded, v) == Ok(Walk(t[1 := v][0 := v], [], {0}, [1, 0]))
  {
    var w1 := Walk(t[1 := v][0 := v], [0], {0}, [1, 0]);
    TagAllOne(t, 1, v);
    VisitAccepts(links, Walk(t, [0], {}, []), 0, [], Unbounded, v, [0], w1);
    PropagateDrains(links, w1, Unbounded, v);
    PropagateFrom(links, Walk(t, [0], {}, []), Unbounded, v, w1, w1.(queue := []));
  }

  /** The host and its student are both tagged, the student first, and the
      count is 2. */
  lemma TotalHostAndStudent(t: seq<int>, v: int)
    requires NoneTagged(t, 2, v)
    ensures HostAndStudent().Valid() && |t| == HostAndStudent().Count()
    ensures Spread(HostAndStudent(), t, 0, Unbounded, v) == Ok(Walk(t[1 := v][0 := v], [], {0}, [1, 0]))
  {
    HostAndStudentHasFacts();
    HostAndStudentRun(HostAndStudent(), t, v);
  }

  // ---------------------------------------------------------------------
  // totalInfection: a host with two students (test/test.js:23-31).

  lemma HostAndTwoStudentsStep1(links: Links, t: seq<int>, v: int)
    requires HostAndTwoStudentsFacts(links) && NoneTagged(t, 3, v)
    ensures Visit(links, Walk(t, [0], {}, []), Unbounded, v) == Walk(t[1 := v][2 := v][0 := v], [0, 0], {0}, [1, 2, 0])
  {
    TagAllTwo(t, 1, 2, v);
    VisitAccepts(links, Walk(t, [0], {}, []), 0, [], Unbounded, v, [0, 0],
                 Walk(t[1 := v][2 := v][0 := v], [0, 0], {0}, [1, 2, 0]));
  }

  lemma HostAndTwoStudentsRun(links: Links, t: seq<int>, v: int)
    requires HostAndTwoStudentsFacts(links) && NoneTagged(t, 3, v)
    ensures Spread(links, t, 0, Unbounded, v) == Ok(Walk(t[1 := v][2 := v][0 := v], [], {0}, [1, 2, 0]))
  {
    var w1 := Walk(t[1 := v][2 := v][0 := v], [0, 0], {0}, [1, 2, 0]);
    HostAndTwoStudentsStep1(links, t, v);
    PropagateDrains(links, w1, Unbounded, v);
    PropagateFrom(links, Walk(t, [0], {}, []), Unbounded, v, w1, w1.(queue := []));
  }

  /** Both students and then the host are tagged. */
  lemma TotalHostAndTwoStudents(t: seq<int>, v: int)
    requires NoneTagged(t, 3, v)
    ensures HostAndTwoStudents().Valid() && |t| == HostAndTwoStudents().Count()
    ensures Spread(HostAndTwoStudents(), t, 0, Unbounded, v) == Ok(Walk(t[1 := v][2 := v][0 := v], [], {0}, [1, 2, 0]))
  {
    HostAndTwoStudentsHasFacts();
    HostAndTwoStudentsRun(HostAndTwoStudents(), t, v);
  }

  // ---------------------------------------------------------------------
  // totalInfection: the host's coach (test/test.js:33-42).

  lemma StudentWithCoachStep1(links: Links, t: seq<int>, v: int)
    requires StudentWithCoachFacts(links) && NoneTagged(t, 2, v)
    ensures Visit(links, Walk(t, [0], {}, []), Unbounded, v) == Walk(t, [1], {0}, [])
  {
    VisitRefuses(links, Walk(t, [0], {}, []), 0, [], Unbounded, v, [1], Walk(t, [1], {0}, []));
  }

  lemma StudentWithCoachStep2(links: Links, t: seq<int>, v: int)
    requires StudentWithCoachFacts(links) && NoneTagged(t, 2, v)
    ensures Visit(links, Walk(t, [1], {0}, []), Unbounded, v) == Walk(t[0 := v][1 := v], [1], {0, 1}, [0, 1])
  {
    TagAllOne(t, 0, v);
    VisitAccepts(links, Walk(t, [1], {0}, []), 1, [], Unbounded, v, [1], Walk(t[0 := v][1 := v], [1], {0, 1}, [0, 1]));
  }

  lemma StudentWithCoachRun(links: Links, t: seq<int>, v: int)
    requires StudentWithCoachFacts(links) && NoneTagged(t, 2, v)
    ensures Spread(links, t, 0, Unbounded, v) == Ok(Walk(t[0 := v][1 := v], [], {0, 1}, [0, 1]))
  {
    StudentWithCoachStep1(links, t, v);
    StudentWithCoachStep2(links, t, v);
    TwoVisitsDrain(links, Walk(t, [0], {}, []), Walk(t, [1], {0}, []), Walk(t[0 := v][1 := v], [1], {0, 1}, [0, 1]), Unbounded, v);
  }

  /** The host has no class, so nothing is tagged until its coach is
      dequeued; then the host (as the coach's student) and the coach are
      tagged. */
  lemma TotalTagsHostsCoach(t: seq<int>, v: int)
    requires NoneTagged(t, 2, v)
    ensures StudentWithCoach().Valid() && |t| == StudentWithCoach().Count()
    ensures Spread(StudentWithCoach(), t, 0, Unbounded, v) == Ok(Walk(t[0 := v][1 := v], [], {0, 1}, [0, 1]))
  {
    StudentWithCoachHasFacts();
    StudentWithCoachRun(StudentWithCoach(), t, v);
  }

  // ---------------------------------------------------------------------
  // totalInfection: the host's coach and the host's classmate
  // (test/test.js:44-54).

  lemma CoachOfHostAndClassmateStep1(links: Links, t: seq<int>, v: int)
    requires CoachOfHostAndClassmateFacts(links) && NoneTagged(t, 3, v)
    ensures Visit(links, Walk(t, [0], {}, []), Unbounded, v) == Walk(t, [2], {0}, [])
  {
    VisitRefuses(links, Walk(t, [0], {}, []), 0, [], Unbounded, v, [2], Walk(t, [2], {0}, []));
  }

  lemma CoachOfHostAndClassmateStep2(links: Links, t: seq<int>, v: int)
    requires CoachOfHostAndClassmateFacts(links) && NoneTagged(t, 3, v)
    ensures Visit(links, Walk(t, [2], {0}, []), Unbounded, v) == Walk(t[1 := v][0 := v][2 := v], [2, 2], {0, 2}, [1, 0, 2])
  {
    TagAllTwo(t, 1, 0, v);
    VisitAccepts(links, Walk(t, [2], {0}, []), 2, [], Unbounded, v, [2, 2], Walk(t[1 := v][0 := v][2 := v], [2, 2], {0, 2}, [1, 0, 2]));
  }

  lemma CoachOfHostAndClassmateRun(links: Links, t: seq<int>, v: int)
    requires CoachOfHostAndClassmateFacts(links) && NoneTagged(t, 3, v)
    ensures Spread(links, t, 0, Unbounded, v) == Ok(Walk(t[1 := v][0 := v][2 := v], [], {0, 2}, [1, 0, 2]))
  {
    CoachOfHostAndClassmateStep1(links, t, v);
    CoachOfHostAndClassmateStep2(links, t, v);
    TwoVisitsDrain(links, Walk(t, [0], {}, []), Walk(t, [2], {0}, []), Walk(t[1 := v][0 := v][2 := v], [2, 2], {0, 2}, [1, 0, 2]), Unbounded, v);
  }

  /** The coach's class is tagged: the classmate, the host, then the
      coach. */
  lemma TotalTagsCoachsClass(t: seq<int>, v: int)
    requires NoneTagged(t, 3, v)
    ensures CoachOfHostAndClassmate().Valid() && |t| == CoachOfHostAndClassmate().Count()
    ensures Spread(CoachOfHostAndClassmate(), t, 0, Unbounded, v)
         == Ok(Walk(t[1 := v][0 := v][2 := v], [], {0, 2}, [1, 0, 2]))
  {
    CoachOfHostAndClassmateHasFacts();
    CoachOfHostAndClassmateRun(CoachOfHostAndClassmate(), t, v);
  }

  // ---------------------------------------------------------------------
  // totalInfection: the host's coach, the host's classmate and the
  // classmate's other coach (test/test.js:56-70).

  lemma ClassmateStep1(links: Links, t: seq<int>, v: int)
    requires ClassmateWithOtherCoachFacts(links) && NoneTagged(t, 4, v)
    ensures Visit(links, Walk(t, [0], {}, []), Unbounded, v) == Walk(t, [2], {0}, [])
  {
    VisitRefuses(links, Walk(t, [0], {}, []), 0, [], Unbounded, v, [2], Walk(t, [2], {0}, []));
  }

  lemma ClassmateStep2(links: Links, t: seq<int>, v: int)
    requires ClassmateWithOtherCoachFacts(links) && NoneTagged(t, 4, v)
    ensures Visit(links, Walk(t, [2], {0}, []), Unbounded, v)
         == Walk(t[1 := v][0 := v][2 := v], [2, 3, 2], {0, 2}, [1, 0, 2])
  {
    TagAllTwo(t, 1, 0, v);
    VisitAccepts(links, Walk(t, [2], {0}, []), 2, [], Unbounded, v, [2, 3, 2],
                 Walk(t[1 := v][0 := v][2 := v], [2, 3, 2], {0, 2}, [1, 0, 2]));
  }

  lemma ClassmateStep3(links: Links, t: seq<int>, v: int)
    requires ClassmateWithOtherCoachFacts(links) && NoneTagged(t, 4, v)
    ensures Visit(links, Walk(t[1 := v][0 := v][2 := v], [3, 2], {0, 2}, [1, 0, 2]), Unbounded, v)
         == Walk(t[1 := v][0 := v][2 := v][3 := v], [2, 2, 3], {0, 2, 3}, [1, 0, 2, 3])
  {
    var t1 := t[1 := v][0 := v][2 := v];
    VisitTagsCoach(links, Walk(t1, [3, 2], {0, 2}, [1, 0, 2]), 3, [2], Unbounded, v, [2, 3],
                   Walk(t1[3 := v], [2, 2, 3], {0, 2, 3}, [1, 0, 2, 3]));
  }

  lemma ClassmateFrom3(links: Links, t: seq<int>, v: int)
    requires ClassmateWithOtherCoachFacts(links) && NoneTagged(t, 4, v)
    ensures Propagate(links, Walk(t[1 := v][0 := v][2 := v], [3, 2], {0, 2}, [1, 0, 2]), Unbounded, v)
         == Walk(t[1 := v][0 := v][2 := v][3 := v], [], {0, 2, 3}, [1, 0, 2, 3])
  {
    var w := Walk(t[1 := v][0 := v][2 := v][3 := v], [2, 2, 3], {0, 2, 3}, [1, 0, 2, 3]);
    ClassmateStep3(links, t, v);
    PropagateDrains(links, w, Unbounded, v);
    PropagateFrom(links, Walk(t[1 := v][0 := v][2 := v], [3, 2], {0, 2}, [1, 0, 2]), Unbounded, v, w, w.(queue := []));
  }

  lemma ClassmateFrom1(links: Links, t: seq<int>, v: int)
    requires ClassmateWithOtherCoachFacts(links) && NoneTagged(t, 4, v)
    ensures Propagate(links, Walk(t, [2], {0}, []), Unbounded, v)
         == Walk(t[1 := v][0 := v][2 := v][3 := v], [], {0, 2, 3}, [1, 0, 2, 3])
  {
    var t1 := t[1 := v][0 := v][2 := v];
    var last := Walk(t1[3 := v], [], {0, 2, 3}, [1, 0, 2, 3]);
    var w2 := Walk(t1, [2, 3, 2], {0, 2}, [1, 0, 2]);
    var w3 := Walk(t1, [3, 2], {0, 2}, [1, 0, 2]);
    ClassmateStep2(links, t, v);
    VisitSeen(links, w2, 2, [3, 2], Unbounded, v, w3);
    ClassmateFrom3(links, t, v);
    PropagateFrom(links, w2, Unbounded, v, w3, last);
    PropagateFrom(links, Walk(t, [2], {0}, []), Unbounded, v, w2, last);
  }

  lemma ClassmateRun(links: Links, t: seq<int>, v: int)
    requires ClassmateWithOtherCoachFacts(links) && NoneTagged(t, 4, v)
    ensures Spread(links, t, 0, Unbounded, v)
         == Ok(Walk(t[1 := v][0 := v][2 := v][3 := v], [], {0, 2, 3}, [1, 0, 2, 3]))
  {
    ClassmateStep1(links, t, v);
    ClassmateFrom1(links, t, v);
    PropagateFrom(links, Walk(t, [0], {}, []), Unbounded, v, Walk(t, [2], {0}, []),
                  Walk(t[1 := v][0 := v][2 := v][3 := v], [], {0, 2, 3}, [1, 0, 2, 3]));
  }

  /** From a host with no class of its own, the walk reaches the host's
      coach, tags that coach's class (the classmate, the host, then the
      coach), then reaches the classmate's other coach and tags it: all four
      users, and the count is 4. */
  lemma TotalReachesClassmatesCoach(t: seq<int>, v: int)
    requires NoneTagged(t, 4, v)
    ensures ClassmateWithOtherCoach().Valid() && |t| == ClassmateWithOtherCoach().Count()
    ensures Spread(ClassmateWithOtherCoach(), t, 0, Unbounded, v)
         == Ok(Walk(t[1 := v][0 := v][2 := v][3 := v], [], {0, 2, 3}, [1, 0, 2, 3]))
  {
    ClassmateWithOtherCoachHasFacts();
    ClassmateRun(ClassmateWithOtherCoach(), t, v);
  }

  // ---------------------------------------------------------------------
  // limitedInfection: the host's coach has another student
  // (test/test.js:78-84 and 86-126).

  lemma CoachOfHostRefused(links: Links, t: seq<int>, v: int)
    requires CoachOfHostFacts(links) && NoneTagged(t, 3, v)
    ensures Spread(links, t, 0, Finite(2), v) == Ok(Walk(t, [], {0, 1}, []))
  {
    var w1 := Walk(t, [1], {0}, []);
    var w2 := Walk(t, [1, 1], {0, 1}, []);
    VisitRefuses(links, Walk(t, [0], {}, []), 0, [], Finite(2), v, [1], w1);
    VisitRefuses(links, w1, 1, [], Finite(2), v, [1, 1], w2);
    PropagateDrains(links, w2, Finite(2), v);
    PropagateFrom(links, w1, Finite(2), v, w2, w2.(queue := []));
    PropagateFrom(links, Walk(t, [0], {}, []), Finite(2), v, w1, w2.(queue := []));
  }

  lemma CoachOfHostAcceptedStep1(links: Links, t: seq<int>, v: int)
    requires CoachOfHostFacts(links) && NoneTagged(t, 3, v)
    ensures Visit(links, Walk(t, [0], {}, []), Finite(3), v) == Walk(t, [1], {0}, [])
  {
    VisitRefuses(links, Walk(t, [0], {}, []), 0, [], Finite(3), v, [1], Walk(t, [1], {0}, []));
  }

  lemma CoachOfHostAcceptedStep2(links: Links, t: seq<int>, v: int)
    requires CoachOfHostFacts(links) && NoneTagged(t, 3, v)
    ensures Visit(links, Walk(t, [1], {0}, []), Finite(3), v) == Walk(t[0 := v][2 := v][1 := v], [1, 1], {0, 1}, [0, 2, 1])
  {
    TagAllTwo(t, 0, 2, v);
    VisitAccepts(links, Walk(t, [1], {0}, []), 1, [], Finite(3), v, [1, 1], Walk(t[0 := v][2 := v][1 := v], [1, 1], {0, 1}, [0, 2, 1]));
  }

  lemma CoachOfHostAcceptedRun(links: Links, t: seq<int>, v: int)
    requires CoachOfHostFacts(links) && NoneTagged(t, 3, v)
    ensures Spread(links, t, 0, Finite(3), v) == Ok(Walk(t[0 := v][2 := v][1 := v], [], {0, 1}, [0, 2, 1]))
  {
    CoachOfHostAcceptedStep1(links, t, v);
    CoachOfHostAcceptedStep2(links, t, v);
    TwoVisitsDrain(links, Walk(t, [0], {}, []), Walk(t, [1], {0}, []), Walk(t[0 := v][2 := v][1 := v], [1, 1], {0, 1}, [0, 2, 1]), Finite(3), v);
  }

  /** A capacity of 0 is refused. With 2, the host has no class and its
      coach's class of three does not fit, so nothing is tagged and the
      count is 0. With 3 the coach's class fits and all three are tagged. */
  lemma LimitedCoachOfHost(t: seq<int>, v: int)
    requires NoneTagged(t, 3, v)
    ensures CoachOfHost().Valid() && |t| == CoachOfHost().Count()
    ensures Spread(CoachOfHost(), t, 0, Finite(0), v) == Err(TooFewUsers)
    ensures Spread(CoachOfHost(), t, 0, Finite(2), v) == Ok(Walk(t, [], {0, 1}, []))
    ensures Spread(CoachOfHost(), t, 0, Finite(3), v) == Ok(Walk(t[0 := v][2 := v][1 := v], [], {0, 1}, [0, 2, 1]))
  {
    CoachOfHostHasFacts();
    CoachOfHostRefused(CoachOfHost(), t, v);
    CoachOfHostAcceptedRun(CoachOfHost(), t, v);
  }

  // ---------------------------------------------------------------------
  // limitedInfection: one of the host's students is shared with another
  // coach (test/test.js:139-183). The host's class is tagged first; the
  // coach's class, with one student already tagged, is two more users.

  lemma SharedStep1(links: Links, t: seq<int>, v: int, c: int)
    requires SharedStudentFacts(links) && NoneTagged(t, 5, v) && c >= 3
    ensures Visit(links, Walk(t, [0], {}, []), Finite(c), v) == Walk(t[1 := v][2 := v][0 := v], [0, 0, 4], {0}, [1, 2, 0])
  {
    TagAllTwo(t, 1, 2, v);
    VisitAccepts(links, Walk(t, [0], {}, []), 0, [], Finite(c), v, [0, 0, 4],
                 Walk(t[1 := v][2 := v][0 := v], [0, 0, 4], {0}, [1, 2, 0]));
  }

  lemma SharedFrom1(links: Links, t1: seq<int>, c: int, v: int, last: Walk)
    requires SharedStudentFacts(links) && |t1| == 5
    requires Propagate(links, Walk(t1, [4], {0}, [1, 2, 0]), Finite(c), v) == last
    ensures Propagate(links, Walk(t1, [0, 0, 4], {0}, [1, 2, 0]), Finite(c), v) == last
  {
    var w1 := Walk(t1, [0, 0, 4], {0}, [1, 2, 0]);
    var w2 := Walk(t1, [0, 4], {0}, [1, 2, 0]);
    var w3 := Walk(t1, [4], {0}, [1, 2, 0]);
    VisitSeen(links, w1, 0, [0, 4], Finite(c), v, w2);
    VisitSeen(links, w2, 0, [4], Finite(c), v, w3);
    PropagateFrom(links, w2, Finite(c), v, w3, last);
    PropagateFrom(links, w1, Finite(c), v, w2, last);
  }

  lemma SharedPrefix(links: Links, t: seq<int>, v: int, c: int, last: Walk)
    requires SharedStudentFacts(links) && NoneTagged(t, 5, v) && c >= 3
    requires Propagate(links, Walk(t[1 := v][2 := v][0 := v], [4], {0}, [1, 2, 0]), Finite(c), v) == last
    ensures Spread(links, t, 0, Finite(c), v) == Ok(last)
  {
    var w1 := Walk(t[1 := v][2 := v][0 := v], [0, 0, 4], {0}, [1, 2, 0]);
    SharedStep1(links, t, v, c);
    SharedFrom1(links, t[1 := v][2 := v][0 := v], c, v, last);
    PropagateFrom(links, Walk(t, [0], {}, []), Finite(c), v, w1, last);
  }

  lemma SharedNoRoomRun(links: Links, t: seq<int>, v: int)
    requires SharedStudentFacts(links) && NoneTagged(t, 5, v)
    ensures Spread(links, t, 0, Finite(3), v) == Ok(Walk(t[1 := v][2 := v][0 := v], [], {0, 4}, [1, 2, 0]))
  {
    var t1 := t[1 := v][2 := v][0 := v];
    var w3 := Walk(t1, [4], {0}, [1, 2, 0]);
    var w4 := Walk(t1, [0, 4, 4], {0, 4}, [1, 2, 0]);
    UninfectedSecond(t1, 2, 3, v);
    VisitRefusesSome(links, w3, 4, [], Finite(3), v, [3], [0, 4, 4], w4);
    PropagateDrains(links, w4, Finite(3), v);
    PropagateFrom(links, w3, Finite(3), v, w4, w4.(queue := []));
    SharedPrefix(links, t, v, 3, w4.(queue := []));
  }

  lemma SharedRoomRun(links: Links, t: seq<int>, v: int)
    requires SharedStudentFacts(links) && NoneTagged(t, 5, v)
    ensures Spread(links, t, 0, Finite(5), v)
         == Ok(Walk(t[1 := v][2 := v][0 := v][3 := v][4 := v], [], {0, 4}, [1, 2, 0, 3, 4]))
  {
    var t1 := t[1 := v][2 := v][0 := v];
    var w3 := Walk(t1, [4], {0}, [1, 2, 0]);
    var w4 := Walk(t1[3 := v][4 := v], [0, 4, 4], {0, 4}, [1, 2, 0, 3, 4]);
    UninfectedSecond(t1, 2, 3, v);
    TagAllOne(t1, 3, v);
    VisitAcceptsSome(links, w3, 4, [], Finite(5), v, [3], [0, 4, 4], w4);
    PropagateDrains(links, w4, Finite(5), v);
    PropagateFrom(links, w3, Finite(5), v, w4, w4.(queue := []));
    SharedPrefix(links, t, v, 5, w4.(queue := []));
  }

  /** With room for 3, only the host's class is tagged: the count is 3,
      and the other coach and its own student keep their tags. */
  lemma LimitedSharedStudentNoRoom(t: seq<int>, v: int)
    requires NoneTagged(t, 5, v)
    ensures SharedStudent().Valid() && |t| == SharedStudent().Count()
    ensures Spread(SharedStudent(), t, 0, Finite(3), v) == Ok(Walk(t[1 := v][2 := v][0 := v], [], {0, 4}, [1, 2, 0]))
    ensures var w := Spread(SharedStudent(), t, 0, Finite(3), v).value;
      |w.infected| == 3 && w.tags[4] == t[4] != v && w.tags[3] == t[3] != v
  {
    SharedStudentHasFacts();
    SharedNoRoomRun(SharedStudent(), t, v);
  }

  /** With room for 5, both classes are tagged: all five users, and the
      count is 5. */
  lemma LimitedSharedStudentRoom(t: seq<int>, v: int)
    requires NoneTagged(t, 5, v)
    ensures SharedStudent().Valid() && |t| == SharedStudent().Count()
    ensures Spread(SharedStudent(), t, 0, Finite(5), v)
         == Ok(Walk(t[1 := v][2 := v][0 := v][3 := v][4 := v], [], {0, 4}, [1, 2, 0, 3, 4]))
  {
    SharedStudentHasFacts();
    SharedRoomRun(SharedStudent(), t, v);
  }

  // ---------------------------------------------------------------------
  // limitedInfection: one of the host's students has a class
  // (test/test.js:185-229).

  lemma StudentClassRoomStep1(links: Links, t: seq<int>, v: int)
    requires StudentHasClassFacts(links) && NoneTagged(t, 4, v)
    ensures Visit(links, Walk(t, [0], {}, []), Finite(4), v) == Walk(t[1 := v][2 := v][0 := v], [1, 0, 0], {0}, [1, 2, 0])
  {
    TagAllTwo(t, 1, 2, v);
    VisitAccepts(links, Walk(t, [0], {}, []), 0, [], Finite(4), v, [1, 0, 0], Walk(t[1 := v][2 := v][0 := v], [1, 0, 0], {0}, [1, 2, 0]));
  }

  lemma StudentClassRoomStep2(links: Links, t: seq<int>, v: int)
    requires StudentHasClassFacts(links) && NoneTagged(t, 4, v)
    ensures Visit(links, Walk(t[1 := v][2 := v][0 := v], [1, 0, 0], {0}, [1, 2, 0]), Finite(4), v) == Walk(t[1 := v][2 := v][0 := v][3 := v], [0, 0, 0, 1], {0, 1}, [1, 2, 0, 3])
  {
    TagAllOne(t[1 := v][2 := v][0 := v], 3, v);
    VisitAccepts(links, Walk(t[1 := v][2 := v][0 := v], [1, 0, 0], {0}, [1, 2, 0]), 1, [0, 0], Finite(4), v, [0, 1], Walk(t[1 := v][2 := v][0 := v][3 := v], [0, 0, 0, 1], {0, 1}, [1, 2, 0, 3]));
  }

  lemma StudentClassRoomRun(links: Links, t: seq<int>, v: int)
    requires StudentHasClassFacts(links) && NoneTagged(t, 4, v)
    ensures Spread(links, t, 0, Finite(4), v) == Ok(Walk(t[1 := v][2 := v][0 := v][3 := v], [], {0, 1}, [1, 2, 0, 3]))
  {
    StudentClassRoomStep1(links, t, v);
    StudentClassRoomStep2(links, t, v);
    TwoVisitsDrain(links, Walk(t, [0], {}, []), Walk(t[1 := v][2 := v][0 := v], [1, 0, 0], {0}, [1, 2, 0]), Walk(t[1 := v][2 := v][0 := v][3 := v], [0, 0, 0, 1], {0, 1}, [1, 2, 0, 3]), Finite(4), v);
  }

  lemma StudentClassOnlyStep1(links: Links, t: seq<int>, v: int)
    requires StudentHasClassFacts(links) && NoneTagged(t, 4, v)
    ensures Visit(links, Walk(t, [0], {}, []), Finite(2), v) == Walk(t, [1, 0, 0], {0}, [])
  {
    VisitRefuses(links, Walk(t, [0], {}, []), 0, [], Finite(2), v, [1, 0, 0], Walk(t, [1, 0, 0], {0}, []));
  }

  lemma StudentClassOnlyStep2(links: Links, t: seq<int>, v: int)
    requires StudentHasClassFacts(links) && NoneTagged(t, 4, v)
    ensures Visit(links, Walk(t, [1, 0, 0], {0}, []), Finite(2), v) == Walk(t[3 := v][1 := v], [0, 0, 0, 1], {0, 1}, [3, 1])
  {
    TagAllOne(t, 3, v);
    VisitAccepts(links, Walk(t, [1, 0, 0], {0}, []), 1, [0, 0], Finite(2), v, [0, 1], Walk(t[3 := v][1 := v], [0, 0, 0, 1], {0, 1}, [3, 1]));
  }

  lemma StudentClassOnlyRun(links: Links, t: seq<int>, v: int)
    requires StudentHasClassFacts(links) && NoneTagged(t, 4, v)
    ensures Spread(links, t, 0, Finite(2), v) == Ok(Walk(t[3 := v][1 := v], [], {0, 1}, [3, 1]))
  {
    StudentClassOnlyStep1(links, t, v);
    StudentClassOnlyStep2(links, t, v);
    TwoVisitsDrain(links, Walk(t, [0], {}, []), Walk(t, [1, 0, 0], {0}, []), Walk(t[3 := v][1 := v], [0, 0, 0, 1], {0, 1}, [3, 1]), Finite(2), v);
  }

  /** With room for 4, the host's class and then the student's class are
      tagged: all four users, and the count is 4. */
  lemma LimitedStudentClassRoom(t: seq<int>, v: int)
    requires NoneTagged(t, 4, v)
    ensures StudentHasClass().Valid() && |t| == StudentHasClass().Count()
    ensures Spread(StudentHasClass(), t, 0, Finite(4), v)
         == Ok(Walk(t[1 := v][2 := v][0 := v][3 := v], [], {0, 1}, [1, 2, 0, 3]))
  {
    StudentHasClassHasFacts();
    StudentClassRoomRun(StudentHasClass(), t, v);
  }

  /** With room for 2, the host's class of 3 is refused and the student's
      class of 2 is tagged: the count is 2, and the host and the other
      student keep their tags. */
  lemma LimitedStudentClassOnly(t: seq<int>, v: int)
    requires NoneTagged(t, 4, v)
    ensures StudentHasClass().Valid() && |t| == StudentHasClass().Count()
    ensures Spread(StudentHasClass(), t, 0, Finite(2), v) == Ok(Walk(t[3 := v][1 := v], [], {0, 1}, [3, 1]))
    ensures var w := Spread(StudentHasClass(), t, 0, Finite(2), v).value;
      |w.infected| == 2 && w.tags[0] == t[0] != v && w.tags[2] == t[2] != v
  {
    StudentHasClassHasFacts();
    StudentClassOnlyRun(StudentHasClass(), t, v);
  }

  // ---------------------------------------------------------------------
  // limitedInfection: a chain of classes (test/test.js:233-280).

  lemma ChainStep1(links: Links, t: seq<int>, v: int, c: int)
    requires HasClass(links, 4, 0, [1], [1, 0]) && NoneTagged(t, 4, v) && 3 <= c
    ensures Visit(links, Walk(t, [0], {}, []), Finite(c), v) == Walk(t[1 := v][0 := v], [1, 0], {0}, [1, 0])
  {
    TagAllOne(t, 1, v);
    VisitAccepts(links, Walk(t, [0], {}, []), 0, [], Finite(c), v, [1, 0], Walk(t[1 := v][0 := v], [1, 0], {0}, [1, 0]));
  }

  lemma ChainStep2(links: Links, t: seq<int>, v: int, c: int)
    requires HasClass(links, 4, 1, [2], [0, 2, 1]) && NoneTagged(t, 4, v) && 3 <= c
    ensures Visit(links, Walk(t[1 := v][0 := v], [1, 0], {0}, [1, 0]), Finite(c), v)
         == Walk(t[1 := v][0 := v][2 := v], [0, 0, 2, 1], {0, 1}, [1, 0, 2])
  {
    var t1 := t[1 := v][0 := v];
    TagAllOne(t1, 2, v);
    VisitAccepts(links, Walk(t1, [1, 0], {0}, [1, 0]), 1, [0], Finite(c), v, [0, 2, 1],
                 Walk(t1[2 := v], [0, 0, 2, 1], {0, 1}, [1, 0, 2]));
  }

  /** With a capacity of 3 the class of 2 (its student 3) does not fit. */
  lemma ChainStep3Refused(links: Links, t: seq<int>, v: int)
    requires HasClass(links, 4, 2, [3], [1, 2]) && NoneTagged(t, 4, v)
    ensures Visit(links, Walk(t[1 := v][0 := v][2 := v], [2, 1], {0, 1}, [1, 0, 2]), Finite(3), v)
         == Walk(t[1 := v][0 := v][2 := v], [1, 1, 2], {0, 1, 2}, [1, 0, 2])
  {
    var t2 := t[1 := v][0 := v][2 := v];
    VisitRefuses(links, Walk(t2, [2, 1], {0, 1}, [1, 0, 2]), 2, [1], Finite(3), v, [1, 2],
                 Walk(t2, [1, 1, 2], {0, 1, 2}, [1, 0, 2]));
  }

  /** With a capacity of 4 it does. */
  lemma ChainStep3Accepted(links: Links, t: seq<int>, v: int)
    requires HasClass(links, 4, 2, [3], [1, 2]) && NoneTagged(t, 4, v)
    ensures Visit(links, Walk(t[1 := v][0 := v][2 := v], [2, 1], {0, 1}, [1, 0, 2]), Finite(4), v)
         == Walk(t[1 := v][0 := v][2 := v][3 := v], [1, 1, 2], {0, 1, 2}, [1, 0, 2, 3])
  {
    var t2 := t[1 := v][0 := v][2 := v];
    TagAllOne(t2, 3, v);
    VisitAccepts(links, Walk(t2, [2, 1], {0, 1}, [1, 0, 2]), 2, [1], Finite(4), v, [1, 2],
                 Walk(t2[3 := v], [1, 1, 2], {0, 1, 2}, [1, 0, 2, 3]));
  }

  lemma ChainFrom4(links: Links, t2: seq<int>, cap: Capacity, v: int, i: seq<UserId>)
    requires links.Valid() && links.Count() == 4 && |t2| == 4 && |i| <= 4
    requires forall k :: 0 <= k < |i| ==> i[k] < 4
    requires Visit(links, Walk(t2, [2, 1], {0, 1}, [1, 0, 2]), cap, v) == Walk(t2, [1, 1, 2], {0, 1, 2}, i)
    ensures Propagate(links, Walk(t2, [2, 1], {0, 1}, [1, 0, 2]), cap, v) == Walk(t2, [], {0, 1, 2}, i)
  {
    var w5 := Walk(t2, [1, 1, 2], {0, 1, 2}, i);
    PropagateDrains(links, w5, cap, v);
    PropagateFrom(links, Walk(t2, [2, 1], {0, 1}, [1, 0, 2]), cap, v, w5, w5.(queue := []));
  }

  /** From the walk after the class of 1: the queue starts with two copies
      of 0, which are dropped. */
  lemma ChainFrom2(links: Links, t: seq<int>, v: int, c: int, last: Walk)
    requires links.Valid() && links.Count() == 4 && |t| == 4
    requires Propagate(links, Walk(t[1 := v][0 := v][2 := v], [2, 1], {0, 1}, [1, 0, 2]), Finite(c), v) == last
    ensures Propagate(links, Walk(t[1 := v][0 := v][2 := v], [0, 0, 2, 1], {0, 1}, [1, 0, 2]), Finite(c), v) == last
  {
    var t2 := t[1 := v][0 := v][2 := v];
    var w2 := Walk(t2, [0, 0, 2, 1], {0, 1}, [1, 0, 2]);
    var w3 := Walk(t2, [0, 2, 1], {0, 1}, [1, 0, 2]);
    var w4 := Walk(t2, [2, 1], {0, 1}, [1, 0, 2]);
    VisitSeen(links, w2, 0, [0, 2, 1], Finite(c), v, w3);
    VisitSeen(links, w3, 0, [2, 1], Finite(c), v, w4);
    PropagateFrom(links, w3, Finite(c), v, w4, last);
    PropagateFrom(links, w2, Finite(c), v, w3, last);
  }

  lemma ChainFrom1(links: Links, t: seq<int>, v: int, c: int, last: Walk)
    requires links.Valid() && links.Count() == 4 && |t| == 4
    requires Visit(links, Walk(t[1 := v][0 := v], [1, 0], {0}, [1, 0]), Finite(c), v)
          == Walk(t[1 := v][0 := v][2 := v], [0, 0, 2, 1], {0, 1}, [1, 0, 2])
    requires Propagate(links, Walk(t[1 := v][0 := v][2 := v], [0, 0, 2, 1], {0, 1}, [1, 0, 2]), Finite(c), v) == last
    ensures Propagate(links, Walk(t[1 := v][0 := v], [1, 0], {0}, [1, 0]), Finite(c), v) == last
  {
    PropagateFrom(links, Walk(t[1 := v][0 := v], [1, 0], {0}, [1, 0]), Finite(c), v,
                  Walk(t[1 := v][0 := v][2 := v], [0, 0, 2, 1], {0, 1}, [1, 0, 2]), last);
  }

  lemma ChainFrom0(links: Links, t: seq<int>, v: int, c: int, last: Walk)
    requires links.Valid() && links.Count() == 4 && |t| == 4
    requires Visit(links, Walk(t, [0], {}, []), Finite(c), v) == Walk(t[1 := v][0 := v], [1, 0], {0}, [1, 0])
    requires Propagate(links, Walk(t[1 := v][0 := v], [1, 0], {0}, [1, 0]), Finite(c), v) == last
    ensures Propagate(links, Walk(t, [0], {}, []), Finite(c), v) == last
  {
    PropagateFrom(links, Walk(t, [0], {}, []), Finite(c), v, Walk(t[1 := v][0 := v], [1, 0], {0}, [1, 0]), last);
  }

  /** The first two classes, whatever the capacity of at least 3. */
  lemma ChainPrefix(links: Links, t: seq<int>, v: int, c: int, last: Walk)
    requires ChainFacts(links) && NoneTagged(t, 4, v) && 3 <= c
    requires Propagate(links, Walk(t[1 := v][0 := v][2 := v], [2, 1], {0, 1}, [1, 0, 2]), Finite(c), v) == last
    ensures Spread(links, t, 0, Finite(c), v) == Ok(last)
  {
    ChainStep1(links, t, v, c);
    ChainStep2(links, t, v, c);
    ChainFrom2(links, t, v, c, last);
    ChainFrom1(links, t, v, c, last);
    ChainFrom0(links, t, v, c, last);
  }

  lemma ChainRefusesThird(links: Links, t: seq<int>, v: int)
    requires ChainFacts(links) && NoneTagged(t, 4, v)
    ensures Spread(links, t, 0, Finite(3), v) == Ok(Walk(t[1 := v][0 := v][2 := v], [], {0, 1, 2}, [1, 0, 2]))
  {
    ChainStep3Refused(links, t, v);
    ChainFrom4(links, t[1 := v][0 := v][2 := v], Finite(3), v, [1, 0, 2]);
    ChainPrefix(links, t, v, 3, Walk(t[1 := v][0 := v][2 := v], [], {0, 1, 2}, [1, 0, 2]));
  }

  lemma ChainAcceptsThird(links: Links, t: seq<int>, v: int)
    requires ChainFacts(links) && NoneTagged(t, 4, v)
    ensures Spread(links, t, 0, Finite(4), v) == Ok(Walk(t[1 := v][0 := v][2 := v][3 := v], [], {0, 1, 2}, [1, 0, 2, 3]))
  {
    var t2 := t[1 := v][0 := v][2 := v];
    var w4 := Walk(t2, [2, 1], {0, 1}, [1, 0, 2]);
    var w5 := Walk(t2[3 := v], [1, 1, 2], {0, 1, 2}, [1, 0, 2, 3]);
    ChainStep3Accepted(links, t, v);
    PropagateDrains(links, w5, Finite(4), v);
    PropagateFrom(links, w4, Finite(4), v, w5, w5.(queue := []));
    ChainPrefix(links, t, v, 4, w5.(queue := []));
  }

  /** With a capacity of 4 all four users are tagged. With 3 the classes
      of 0 and 1 are tagged; the class of 2 would need a fourth user, so 3
      keeps its tag while its coach 2 was tagged as a student of 1. */
  lemma LimitedChain(t: seq<int>, v: int)
    requires NoneTagged(t, 4, v)
    ensures Chain().Valid() && |t| == Chain().Count()
    ensures Spread(Chain(), t, 0, Finite(3), v) == Ok(Walk(t[1 := v][0 := v][2 := v], [], {0, 1, 2}, [1, 0, 2]))
    ensures Spread(Chain(), t, 0, Finite(4), v) == Ok(Walk(t[1 := v][0 := v][2 := v][3 := v], [], {0, 1, 2}, [1, 0, 2, 3]))
  {
    ChainHasFacts();
    ChainRefusesThird(Chain(), t, v);
    ChainAcceptsThird(Chain(), t, v);
  }

  // ---------------------------------------------------------------------
  // limitedInfection: greedy first fit (test/test.js:284-319), and a
  // second call on the tags the first one leaves.

  lemma GreedyStep1(links: Links, t: seq<int>, v: int)
    requires HasClass(links, 8, 0, [1, 2], [1, 2, 0, 0]) && NoneTagged(t, 8, v)
    ensures Visit(links, Walk(t, [0], {}, []), Finite(6), v)
         == Walk(t[1 := v][2 := v][0 := v], [1, 2, 0, 0], {0}, [1, 2, 0])
  {
    TagAllTwo(t, 1, 2, v);
    VisitAccepts(links, Walk(t, [0], {}, []), 0, [], Finite(6), v, [1, 2, 0, 0],
                 Walk(t[1 := v][2 := v][0 := v], [1, 2, 0, 0], {0}, [1, 2, 0]));
  }

  lemma GreedyStep2(links: Links, t: seq<int>, v: int)
    requires HasClass(links, 8, 1, [3, 4], [0, 1, 1]) && NoneTagged(t, 8, v)
    ensures Visit(links, Walk(t[1 := v][2 := v][0 := v], [1, 2, 0, 0], {0}, [1, 2, 0]), Finite(6), v)
         == Walk(t[1 := v][2 := v][0 := v][3 := v][4 := v], [2, 0, 0, 0, 1, 1], {0, 1}, [1, 2, 0, 3, 4])
  {
    var t1 := t[1 := v][2 := v][0 := v];
    TagAllTwo(t1, 3, 4, v);
    VisitAccepts(links, Walk(t1, [1, 2, 0, 0], {0}, [1, 2, 0]), 1, [2, 0, 0], Finite(6), v, [0, 1, 1],
                 Walk(t1[3 := v][4 := v], [2, 0, 0, 0, 1, 1], {0, 1}, [1, 2, 0, 3, 4]));
  }

  lemma GreedyStep3(links: Links, t: seq<int>, v: int)
    requires HasClass(links, 8, 2, [5, 6, 7], [0, 2, 2, 2]) && NoneTagged(t, 8, v)
    ensures Visit(links, Walk(t[1 := v][2 := v][0 := v][3 := v][4 := v], [2, 0, 0, 0, 1, 1], {0, 1}, [1, 2, 0, 3, 4]), Finite(6), v)
         == Walk(t[1 := v][2 := v][0 := v][3 := v][4 := v], [0, 0, 0, 1, 1, 0, 2, 2, 2], {0, 1, 2}, [1, 2, 0, 3, 4])
  {
    var t2 := t[1 := v][2 := v][0 := v][3 := v][4 := v];
    VisitRefuses(links, Walk(t2, [2, 0, 0, 0, 1, 1], {0, 1}, [1, 2, 0, 3, 4]), 2, [0, 0, 0, 1, 1], Finite(6), v, [0, 2, 2, 2],
                 Walk(t2, [0, 0, 0, 1, 1, 0, 2, 2, 2], {0, 1, 2}, [1, 2, 0, 3, 4]));
  }

  lemma GreedyFrom2(links: Links, t: seq<int>, v: int)
    requires links.Valid() && links.Count() == 8 && |t| == 8
    requires Visit(links, Walk(t[1 := v][2 := v][0 := v][3 := v][4 := v], [2, 0, 0, 0, 1, 1], {0, 1}, [1, 2, 0, 3, 4]), Finite(6), v)
          == Walk(t[1 := v][2 := v][0 := v][3 := v][4 := v], [0, 0, 0, 1, 1, 0, 2, 2, 2], {0, 1, 2}, [1, 2, 0, 3, 4])
    ensures Propagate(links, Walk(t[1 := v][2 := v][0 := v][3 := v][4 := v], [2, 0, 0, 0, 1, 1], {0, 1}, [1, 2, 0, 3, 4]), Finite(6), v)
         == Walk(t[1 := v][2 := v][0 := v][3 := v][4 := v], [], {0, 1, 2}, [1, 2, 0, 3, 4])
  {
    var t2 := t[1 := v][2 := v][0 := v][3 := v][4 := v];
    var w3 := Walk(t2, [0, 0, 0, 1, 1, 0, 2, 2, 2], {0, 1, 2}, [1, 2, 0, 3, 4]);
    PropagateDrains(links, w3, Finite(6), v);
    PropagateFrom(links, Walk(t2, [2, 0, 0, 0, 1, 1], {0, 1}, [1, 2, 0, 3, 4]), Finite(6), v, w3, w3.(queue := []));
  }

  lemma GreedyFrom1(links: Links, t: seq<int>, v: int, last: Walk)
    requires links.Valid() && links.Count() == 8 && |t| == 8
    requires Visit(links, Walk(t[1 := v][2 := v][0 := v], [1, 2, 0, 0], {0}, [1, 2, 0]), Finite(6), v)
          == Walk(t[1 := v][2 := v][0 := v][3 := v][4 := v], [2, 0, 0, 0, 1, 1], {0, 1}, [1, 2, 0, 3, 4])
    requires Propagate(links, Walk(t[1 := v][2 := v][0 := v][3 := v][4 := v], [2, 0, 0, 0, 1, 1], {0, 1}, [1, 2, 0, 3, 4]), Finite(6), v) == last
    ensures Propagate(links, Walk(t[1 := v][2 := v][0 := v], [1, 2, 0, 0], {0}, [1, 2, 0]), Finite(6), v) == last
  {
    PropagateFrom(links, Walk(t[1 := v][2 := v][0 := v], [1, 2, 0, 0], {0}, [1, 2, 0]), Finite(6), v,
                  Walk(t[1 := v][2 := v][0 := v][3 := v][4 := v], [2, 0, 0, 0, 1, 1], {0, 1}, [1, 2, 0, 3, 4]), last);
  }

  lemma GreedyFrom0(links: Links, t: seq<int>, v: int, last: Walk)
    requires links.Valid() && links.Count() == 8 && |t| == 8
    requires Visit(links, Walk(t, [0], {}, []), Finite(6), v) == Walk(t[1 := v][2 := v][0 := v], [1, 2, 0, 0], {0}, [1, 2, 0])
    requires Propagate(links, Walk(t[1 := v][2 := v][0 := v], [1, 2, 0, 0], {0}, [1, 2, 0]), Finite(6), v) == last
    ensures Propagate(links, Walk(t, [0], {}, []), Finite(6), v) == last
  {
    PropagateFrom(links, Walk(t, [0], {}, []), Finite(6), v, Walk(t[1 := v][2 := v][0 := v], [1, 2, 0, 0], {0}, [1, 2, 0]), last);
  }

  lemma GreedyRun(links: Links, t: seq<int>, v: int)
    requires TwoSubclassesFacts(links) && NoneTagged(t, 8, v)
    ensures Spread(links, t, 0, Finite(6), v)
         == Ok(Walk(t[1 := v][2 := v][0 := v][3 := v][4 := v], [], {0, 1, 2}, [1, 2, 0, 3, 4]))
  {
    var last := Walk(t[1 := v][2 := v][0 := v][3 := v][4 := v], [], {0, 1, 2}, [1, 2, 0, 3, 4]);
    GreedyStep1(links, t, v);
    GreedyStep2(links, t, v);
    GreedyStep3(links, t, v);
    GreedyFrom2(links, t, v);
    GreedyFrom1(links, t, v, last);
    GreedyFrom0(links, t, v, last);
  }

  /** With a capacity of 6 the walk takes the first class that fits and
      never goes back: the host's class of three, then the class of 1
      brings the count to five, and the class of 2 would bring it to eight,
      so 5, 6 and 7 stay untagged. */
  lemma LimitedIsGreedy(t: seq<int>, v: int)
    requires NoneTagged(t, 8, v)
    ensures TwoSubclasses().Valid() && |t| == TwoSubclasses().Count()
    ensures Spread(TwoSubclasses(), t, 0, Finite(6), v)
         == Ok(Walk(t[1 := v][2 := v][0 := v][3 := v][4 := v], [], {0, 1, 2}, [1, 2, 0, 3, 4]))
  {
    TwoSubclassesHasFacts();
    GreedyRun(TwoSubclasses(), t, v);
  }

  lemma RepeatStep1(links: Links, t: seq<int>, v: int)
    requires HasClass(links, 8, 0, [1, 2], [1, 2, 0, 0]) && NoneTagged(t, 8, v)
    ensures Visit(links, Walk(t[1 := v][2 := v][0 := v][3 := v][4 := v], [0], {}, []), Finite(6), v)
         == Walk(t[1 := v][2 := v][0 := v][3 := v][4 := v], [1, 2, 0, 0], {0}, [])
  {
    var t2 := t[1 := v][2 := v][0 := v][3 := v][4 := v];
    VisitTaggedClass(links, Walk(t2, [0], {}, []), 0, [], Finite(6), v, [1, 2, 0, 0], Walk(t2, [1, 2, 0, 0], {0}, []));
  }

  lemma RepeatStep2(links: Links, t: seq<int>, v: int)
    requires HasClass(links, 8, 1, [3, 4], [0, 1, 1]) && NoneTagged(t, 8, v)
    ensures Visit(links, Walk(t[1 := v][2 := v][0 := v][3 := v][4 := v], [1, 2, 0, 0], {0}, []), Finite(6), v)
         == Walk(t[1 := v][2 := v][0 := v][3 := v][4 := v], [2, 0, 0, 0, 1, 1], {0, 1}, [])
  {
    var t2 := t[1 := v][2 := v][0 := v][3 := v][4 := v];
    VisitTaggedClass(links, Walk(t2, [1, 2, 0, 0], {0}, []), 1, [2, 0, 0], Finite(6), v, [0, 1, 1],
                     Walk(t2, [2, 0, 0, 0, 1, 1], {0, 1}, []));
  }

  lemma RepeatStep3(links: Links, t: seq<int>, v: int)
    requires HasClass(links, 8, 2, [5, 6, 7], [0, 2, 2, 2]) && NoneTagged(t, 8, v)
    ensures Visit(links, Walk(t[1 := v][2 := v][0 := v][3 := v][4 := v], [2, 0, 0, 0, 1, 1], {0, 1}, []), Finite(6), v)
         == Walk(t[1 := v][2 := v][0 := v][3 := v][4 := v][5 := v][6 := v][7 := v], [0, 0, 0, 1, 1, 0, 2, 2, 2], {0, 1, 2}, [5, 6, 7])
  {
    var t2 := t[1 := v][2 := v][0 := v][3 := v][4 := v];
    TagAllThree(t2, 5, 6, 7, v);
    VisitAccepts(links, Walk(t2, [2, 0, 0, 0, 1, 1], {0, 1}, []), 2, [0, 0, 0, 1, 1], Finite(6), v, [0, 2, 2, 2],
                 Walk(t2[5 := v][6 := v][7 := v], [0, 0, 0, 1, 1, 0, 2, 2, 2], {0, 1, 2}, [5, 6, 7]));
  }

  lemma RepeatFrom2(links: Links, t: seq<int>, v: int)
    requires links.Valid() && links.Count() == 8 && |t| == 8
    requires Visit(links, Walk(t[1 := v][2 := v][0 := v][3 := v][4 := v], [2, 0, 0, 0, 1, 1], {0, 1}, []), Finite(6), v)
          == Walk(t[1 := v][2 := v][0 := v][3 := v][4 := v][5 := v][6 := v][7 := v], [0, 0, 0, 1, 1, 0, 2, 2, 2], {0, 1, 2}, [5, 6, 7])
    ensures Propagate(links, Walk(t[1 := v][2 := v][0 := v][3 := v][4 := v], [2, 0, 0, 0, 1, 1], {0, 1}, []), Finite(6), v)
         == Walk(t[1 := v][2 := v][0 := v][3 := v][4 := v][5 := v][6 := v][7 := v], [], {0, 1, 2}, [5, 6, 7])
  {
    var t2 := t[1 := v][2 := v][0 := v][3 := v][4 := v];
    var w3 := Walk(t2[5 := v][6 := v][7 := v], [0, 0, 0, 1, 1, 0, 2, 2, 2], {0, 1, 2}, [5, 6, 7]);
    PropagateDrains(links, w3, Finite(6), v);
    PropagateFrom(links, Walk(t2, [2, 0, 0, 0, 1, 1], {0, 1}, []), Finite(6), v, w3, w3.(queue := []));
  }

  lemma RepeatFrom1(links: Links, t: seq<int>, v: int, last: Walk)
    requires links.Valid() && links.Count() == 8 && |t| == 8
    requires Visit(links, Walk(t[1 := v][2 := v][0 := v][3 := v][4 := v], [1, 2, 0, 0], {0}, []), Finite(6), v)
          == Walk(t[1 := v][2 := v][0 := v][3 := v][4 := v], [2, 0, 0, 0, 1, 1], {0, 1}, [])
    requires Propagate(links, Walk(t[1 := v][2 := v][0 := v][3 := v][4 := v], [2, 0, 0, 0, 1, 1], {0, 1}, []), Finite(6), v) == last
    ensures Propagate(links, Walk(t[1 := v][2 := v][0 := v][3 := v][4 := v], [1, 2, 0, 0], {0}, []), Finite(6), v) == last
  {
    var t2 := t[1 := v][2 := v][0 := v][3 := v][4 := v];
    PropagateFrom(links, Walk(t2, [1, 2, 0, 0], {0}, []), Finite(6), v, Walk(t2, [2, 0, 0, 0, 1, 1], {0, 1}, []), last);
  }

  lemma RepeatFrom0(links: Links, t: seq<int>, v: int, last: Walk)
    requires links.Valid() && links.Count() == 8 && |t| == 8
    requires Visit(links, Walk(t[1 := v][2 := v][0 := v][3 := v][4 := v], [0], {}, []), Finite(6), v)
          == Walk(t[1 := v][2 := v][0 := v][3 := v][4 := v], [1, 2, 0, 0], {0}, [])
    requires Propagate(links, Walk(t[1 := v][2 := v][0 := v][3 := v][4 := v], [1, 2, 0, 0], {0}, []), Finite(6), v) == last
    ensures Propagate(links, Walk(t[1 := v][2 := v][0 := v][3 := v][4 := v], [0], {}, []), Finite(6), v) == last
  {
    var t2 := t[1 := v][2 := v][0 := v][3 := v][4 := v];
    PropagateFrom(links, Walk(t2, [0], {}, []), Finite(6), v, Walk(t2, [1, 2, 0, 0], {0}, []), last);
  }

  lemma RepeatRun(links: Links, t: seq<int>, v: int)
    requires TwoSubclassesFacts(links) && NoneTagged(t, 8, v)
    ensures Spread(links, t[1 := v][2 := v][0 := v][3 := v][4 := v], 0, Finite(6), v)
         == Ok(Walk(t[1 := v][2 := v][0 := v][3 := v][4 := v][5 := v][6 := v][7 := v], [], {0, 1, 2}, [5, 6, 7]))
  {
    var last := Walk(t[1 := v][2 := v][0 := v][3 := v][4 := v][5 := v][6 := v][7 := v], [], {0, 1, 2}, [5, 6, 7]);
    RepeatStep1(links, t, v);
    RepeatStep2(links, t, v);
    RepeatStep3(links, t, v);
    RepeatFrom2(links, t, v);
    RepeatFrom1(links, t, v, last);
    RepeatFrom0(links, t, v, last);
  }

  /** Calling again with the same arguments on the tags the first call
      leaves tags the class of 2 as well: the class the first call refused
      now only needs its three untagged students, and the count starts
      again from zero. So a second call is not a no-op: it returns 3. */
  lemma LimitedRepeatedCallTagsMore(t: seq<int>, v: int)
    requires NoneTagged(t, 8, v)
    ensures TwoSubclasses().Valid() && |t| == TwoSubclasses().Count()
    ensures Spread(TwoSubclasses(), t, 0, Finite(6), v) == Ok(Walk(t[1 := v][2 := v][0 := v][3 := v][4 := v], [], {0, 1, 2}, [1, 2, 0, 3, 4]))
    ensures Spread(TwoSubclasses(), t[1 := v][2 := v][0 := v][3 := v][4 := v], 0, Finite(6), v)
         == Ok(Walk(t[1 := v][2 := v][0 := v][3 := v][4 := v][5 := v][6 := v][7 := v], [], {0, 1, 2}, [5, 6, 7]))
  {
    TwoSubclassesHasFacts();
    GreedyRun(TwoSubclasses(), t, v);
    RepeatRun(TwoSubclasses(), t, v);
  }

  // ---------------------------------------------------------------------
  // limitedInfection: the host's class does not fit but its coach's does
  // (test/test.js:322-351).

  lemma CoachClassStep1(links: Links, t: seq<int>, v: int)
    requires HasClass(links, 6, 0, [1, 2, 3], [4, 0, 0, 0]) && NoneTagged(t, 6, v)
    ensures Visit(links, Walk(t, [0], {}, []), Finite(3), v) == Walk(t, [4, 0, 0, 0], {0}, [])
  {
    VisitRefuses(links, Walk(t, [0], {}, []), 0, [], Finite(3), v, [4, 0, 0, 0], Walk(t, [4, 0, 0, 0], {0}, []));
  }

  lemma CoachClassStep2(links: Links, t: seq<int>, v: int)
    requires HasClass(links, 6, 4, [0, 5], [0, 4, 4]) && NoneTagged(t, 6, v)
    ensures Visit(links, Walk(t, [4, 0, 0, 0], {0}, []), Finite(3), v)
         == Walk(t[0 := v][5 := v][4 := v], [0, 0, 0, 0, 4, 4], {0, 4}, [0, 5, 4])
  {
    TagAllTwo(t, 0, 5, v);
    VisitAccepts(links, Walk(t, [4, 0, 0, 0], {0}, []), 4, [0, 0, 0], Finite(3), v, [0, 4, 4],
                 Walk(t[0 := v][5 := v][4 := v], [0, 0, 0, 0, 4, 4], {0, 4}, [0, 5, 4]));
  }

  lemma CoachClassFrom1(links: Links, t: seq<int>, v: int)
    requires links.Valid() && links.Count() == 6 && |t| == 6
    requires Visit(links, Walk(t, [4, 0, 0, 0], {0}, []), Finite(3), v)
          == Walk(t[0 := v][5 := v][4 := v], [0, 0, 0, 0, 4, 4], {0, 4}, [0, 5, 4])
    ensures Propagate(links, Walk(t, [4, 0, 0, 0], {0}, []), Finite(3), v)
         == Walk(t[0 := v][5 := v][4 := v], [], {0, 4}, [0, 5, 4])
  {
    var w2 := Walk(t[0 := v][5 := v][4 := v], [0, 0, 0, 0, 4, 4], {0, 4}, [0, 5, 4]);
    PropagateDrains(links, w2, Finite(3), v);
    PropagateFrom(links, Walk(t, [4, 0, 0, 0], {0}, []), Finite(3), v, w2, w2.(queue := []));
  }

  lemma CoachClassFrom0(links: Links, t: seq<int>, v: int, last: Walk)
    requires links.Valid() && links.Count() == 6 && |t| == 6
    requires Visit(links, Walk(t, [0], {}, []), Finite(3), v) == Walk(t, [4, 0, 0, 0], {0}, [])
    requires Propagate(links, Walk(t, [4, 0, 0, 0], {0}, []), Finite(3), v) == last
    ensures Propagate(links, Walk(t, [0], {}, []), Finite(3), v) == last
  {
    PropagateFrom(links, Walk(t, [0], {}, []), Finite(3), v, Walk(t, [4, 0, 0, 0], {0}, []), last);
  }

  lemma CoachClassRun(links: Links, t: seq<int>, v: int)
    requires HostClassTooLargeFacts(links) && NoneTagged(t, 6, v)
    ensures Spread(links, t, 0, Finite(3), v) == Ok(Walk(t[0 := v][5 := v][4 := v], [], {0, 4}, [0, 5, 4]))
  {
    CoachClassStep1(links, t, v);
    CoachClassStep2(links, t, v);
    CoachClassFrom1(links, t, v);
    CoachClassFrom0(links, t, v, Walk(t[0 := v][5 := v][4 := v], [], {0, 4}, [0, 5, 4]));
  }

  /** With a capacity of 3 the host's class of four is skipped and the
      coach's class of three (the host, the coach's other student, then the
      coach) is tagged instead; the host's own students stay untagged. */
  lemma LimitedTakesCoachClass(t: seq<int>, v: int)
    requires NoneTagged(t, 6, v)
    ensures HostClassTooLarge().Valid() && |t| == HostClassTooLarge().Count()
    ensures Spread(HostClassTooLarge(), t, 0, Finite(3), v) == Ok(Walk(t[0 := v][5 := v][4 := v], [], {0, 4}, [0, 5, 4]))
  {
    HostClassTooLargeHasFacts();
    CoachClassRun(HostClassTooLarge(), t, v);
  }

  // ---------------------------------------------------------------------
  // limitedInfection: the host's one student is shared with another coach
  // (test/test.js:354-386).

  lemma SingleSharedStep3(links: Links, t: seq<int>, v: int)
    requires SingleSharedStudentFacts(links) && NoneTagged(t, 3, v)
    ensures Visit(links, Walk(t[1 := v][0 := v], [2], {0}, [1, 0]), Finite(3), v)
         == Walk(t[1 := v][0 := v][2 := v], [0, 2], {0, 2}, [1, 0, 2])
  {
    var t1 := t[1 := v][0 := v];
    VisitTagsCoach(links, Walk(t1, [2], {0}, [1, 0]), 2, [], Finite(3), v, [0, 2],
                   Walk(t1[2 := v], [0, 2], {0, 2}, [1, 0, 2]));
  }

  lemma SingleSharedFrom2(links: Links, t: seq<int>, v: int)
    requires SingleSharedStudentFacts(links) && NoneTagged(t, 3, v)
    ensures Propagate(links, Walk(t[1 := v][0 := v], [2], {0}, [1, 0]), Finite(3), v)
         == Walk(t[1 := v][0 := v][2 := v], [], {0, 2}, [1, 0, 2])
  {
    var w3 := Walk(t[1 := v][0 := v][2 := v], [0, 2], {0, 2}, [1, 0, 2]);
    SingleSharedStep3(links, t, v);
    PropagateDrains(links, w3, Finite(3), v);
    PropagateFrom(links, Walk(t[1 := v][0 := v], [2], {0}, [1, 0]), Finite(3), v, w3, w3.(queue := []));
  }

  lemma SingleSharedRun(links: Links, t: seq<int>, v: int)
    requires SingleSharedStudentFacts(links) && NoneTagged(t, 3, v)
    ensures Spread(links, t, 0, Finite(3), v) == Ok(Walk(t[1 := v][0 := v][2 := v], [], {0, 2}, [1, 0, 2]))
  {
    var t1 := t[1 := v][0 := v];
    var w1 := Walk(t1, [0, 2], {0}, [1, 0]);
    var w2 := Walk(t1, [2], {0}, [1, 0]);
    var last := Walk(t1[2 := v], [], {0, 2}, [1, 0, 2]);
    TagAllOne(t, 1, v);
    VisitAccepts(links, Walk(t, [0], {}, []), 0, [], Finite(3), v, [0, 2], w1);
    VisitSeen(links, w1, 0, [2], Finite(3), v, w2);
    SingleSharedFrom2(links, t, v);
    PropagateFrom(links, w1, Finite(3), v, w2, last);
    PropagateFrom(links, Walk(t, [0], {}, []), Finite(3), v, w1, last);
  }

  /** The host's class (the student, then the host) is tagged, then the
      other coach, whose class is only itself by then: all three, and the
      count is 3. */
  lemma LimitedSingleSharedStudent(t: seq<int>, v: int)
    requires NoneTagged(t, 3, v)
    ensures SingleSharedStudent().Valid() && |t| == SingleSharedStudent().Count()
    ensures Spread(SingleSharedStudent(), t, 0, Finite(3), v)
         == Ok(Walk(t[1 := v][0 := v][2 := v], [], {0, 2}, [1, 0, 2]))
  {
    SingleSharedStudentHasFacts();
    SingleSharedRun(SingleSharedStudent(), t, v);
  }

  // ---------------------------------------------------------------------
  // totalInfection from a user with no coach and no student.

  lemma LonerRun(links: Links, t: seq<int>, v: int)
    requires LonerFacts(links) && |t| == 1
    ensures Spread(links, t, 0, Unbounded, v) == Ok(Walk(t, [], {0}, []))
  {
    VisitRefuses(links, Walk(t, [0], {}, []), 0, [], Unbounded, v, [], Walk(t, [], {0}, []));
    PropagateFrom(links, Walk(t, [0], {}, []), Unbounded, v, Walk(t, [], {0}, []), Walk(t, [], {0}, []));
  }

  /** Such a host is not a coach, so (unlike the host of a class) it is
      never tagged: the walk changes no tag and returns 0. */
  lemma TotalLeavesLonerUntagged(t: seq<int>, v: int)
    requires |t| == 1
    ensures Loner().Valid() && |t| == Loner().Count()
    ensures Spread(Loner(), t, 0, Unbounded, v) == Ok(Walk(t, [], {0}, []))
    ensures |Spread(Loner(), t, 0, Unbounded, v).value.infected| == 0
  {
    LonerHasFacts();
    LonerRun(Loner(), t, v);
  }
}
