/** The small coach/student populations of test/test.js, written out as
    `Links`.

    A population's users are the users its test links together, numbered
    from 0: the host first, then the others in the order the test creates
    them; users a test creates but never links are left out. Next to each population, a `...Facts`
    predicate collects what the walks read of it (the number of users, and
    the student lists and connected coaches of the users they visit), and a
    lemma proves the population has those facts. The runs are proved from
    the facts, for any `links` that has them. */
module Populations {
  import opened Graph

  // ---------------------------------------------------------------------
  // A host (0) coaching one student (1): test/test.js:13-21 and 394-418.

  function HostAndStudent(): Links {
    Links([[1], []], [[], [0]])
  }

  ghost predicate HostAndStudentFacts(links: Links) {
    && links.Valid() && links.Count() == 2
    && links.students[0] == [1] && links.ConnectedCoaches(0) == [0]
  }

  lemma HostAndStudentHasFacts()
    ensures HostAndStudentFacts(HostAndStudent())
  {
  }

  // ---------------------------------------------------------------------
  // A host (0), a classmate (1), their coach (2), and another coach (3) of
  // the classmate: test/test.js:56-70.

  function ClassmateWithOtherCoach(): Links {
    Links([[], [], [1, 0], [1]], [[2], [2, 3], [], []])
  }

  ghost predicate ClassmateWithOtherCoachFacts(links: Links) {
    && links.Valid() && links.Count() == 4
    && links.students[0] == [] && links.ConnectedCoaches(0) == [2]
    && links.students[2] == [1, 0] && links.ConnectedCoaches(2) == [2, 3, 2]
    && links.students[3] == [1] && links.ConnectedCoaches(3) == [2, 3]
  }

  lemma ClassmateWithOtherCoachHasFacts()
    ensures ClassmateWithOtherCoachFacts(ClassmateWithOtherCoach())
  {
  }

  // ---------------------------------------------------------------------
  // A host (0) whose coach (1) has another student (2): test/test.js:86-126.

  function CoachOfHost(): Links {
    Links([[], [0, 2], []], [[1], [], [1]])
  }

  ghost predicate CoachOfHostFacts(links: Links) {
    && links.Valid() && links.Count() == 3
    && links.students[0] == [] && links.ConnectedCoaches(0) == [1]
    && links.students[1] == [0, 2] && links.ConnectedCoaches(1) == [1, 1]
  }

  lemma CoachOfHostHasFacts()
    ensures CoachOfHostFacts(CoachOfHost())
  {
  }

  // ---------------------------------------------------------------------
  // A chain of classes: 0 coaches 1, 1 coaches 2, 2 coaches 3:
  // test/test.js:233-280.

  function Chain(): Links {
    Links([[1], [2], [3], []], [[], [0], [1], [2]])
  }

  ghost predicate ChainFacts(links: Links) {
    && links.Valid() && links.Count() == 4
    && links.students[0] == [1] && links.ConnectedCoaches(0) == [1, 0]
    && links.students[1] == [2] && links.ConnectedCoaches(1) == [0, 2, 1]
    && links.students[2] == [3] && links.ConnectedCoaches(2) == [1, 2]
  }

  lemma ChainHasFacts()
    ensures ChainFacts(Chain())
  {
  }

  // ---------------------------------------------------------------------
  // The host (0) coaches 1 and 2; 1 coaches 3 and 4; 2 coaches 5, 6 and 7:
  // test/test.js:284-319.

  function TwoSubclasses(): Links {
    Links([[1, 2], [3, 4], [5, 6, 7], [], [], [], [], []],
          [[], [0], [0], [1], [1], [2], [2], [2]])
  }

  ghost predicate TwoSubclassesFacts(links: Links) {
    && links.Valid() && links.Count() == 8
    && links.students[0] == [1, 2] && links.ConnectedCoaches(0) == [1, 2, 0, 0]
    && links.students[1] == [3, 4] && links.ConnectedCoaches(1) == [0, 1, 1]
    && links.students[2] == [5, 6, 7] && links.ConnectedCoaches(2) == [0, 2, 2, 2]
  }

  lemma TwoSubclassesCoaches0()
    ensures TwoSubclasses().Valid() && TwoSubclasses().ConnectedCoaches(0) == [1, 2, 0, 0]
  {
  }

  lemma TwoSubclassesCoaches1()
    ensures TwoSubclasses().Valid() && TwoSubclasses().ConnectedCoaches(1) == [0, 1, 1]
  {
  }

  lemma TwoSubclassesCoaches2()
    ensures TwoSubclasses().Valid() && TwoSubclasses().ConnectedCoaches(2) == [0, 2, 2, 2]
  {
  }

  lemma TwoSubclassesHasFacts()
    ensures TwoSubclassesFacts(TwoSubclasses())
  {
    TwoSubclassesCoaches0();
    TwoSubclassesCoaches1();
    TwoSubclassesCoaches2();
  }

  // ---------------------------------------------------------------------
  // The host (0) coaches 1, 2 and 3; a coach (4) has the host and 5:
  // test/test.js:322-351.

  function HostClassTooLarge(): Links {
    Links([[1, 2, 3], [], [], [], [0, 5], []], [[4], [0], [0], [0], [], [4]])
  }

  ghost predicate HostClassTooLargeFacts(links: Links) {
    && links.Valid() && links.Count() == 6
    && links.students[0] == [1, 2, 3] && links.ConnectedCoaches(0) == [4, 0, 0, 0]
    && links.students[4] == [0, 5] && links.ConnectedCoaches(4) == [0, 4, 4]
  }

  lemma HostClassTooLargeCoaches0()
    ensures HostClassTooLarge().Valid() && HostClassTooLarge().ConnectedCoaches(0) == [4, 0, 0, 0]
  {
  }

  lemma HostClassTooLargeCoaches4()
    ensures HostClassTooLarge().Valid() && HostClassTooLarge().ConnectedCoaches(4) == [0, 4, 4]
  {
  }

  lemma HostClassTooLargeHasFacts()
    ensures HostClassTooLargeFacts(HostClassTooLarge())
  {
    HostClassTooLargeCoaches0();
    HostClassTooLargeCoaches4();
  }

  // ---------------------------------------------------------------------
  // The host (0) coaches 1 and 2; a coach (4) has 2 and 3:
  // test/test.js:139-183 and 420-434.

  function SharedStudent(): Links {
    Links([[1, 2], [], [], [], [2, 3]], [[], [0], [0, 4], [4], []])
  }

  ghost predicate SharedStudentFacts(links: Links) {
    && links.Valid() && links.Count() == 5
    && links.students[0] == [1, 2] && links.ConnectedCoaches(0) == [0, 0, 4]
    && links.students[4] == [2, 3] && links.ConnectedCoaches(4) == [0, 4, 4]
  }

  lemma SharedStudentHasFacts()
    ensures SharedStudentFacts(SharedStudent())
  {
  }

  // ---------------------------------------------------------------------
  // A host (0) and its coach (1), who has no other student:
  // test/test.js:33-42.

  function StudentWithCoach(): Links {
    Links([[], [0]], [[1], []])
  }

  ghost predicate StudentWithCoachFacts(links: Links) {
    && links.Valid() && links.Count() == 2
    && links.students[0] == [] && links.ConnectedCoaches(0) == [1]
    && links.students[1] == [0] && links.ConnectedCoaches(1) == [1]
  }

  lemma StudentWithCoachHasFacts()
    ensures StudentWithCoachFacts(StudentWithCoach())
  {
  }

  // ---------------------------------------------------------------------
  // A population no test builds, for the run that shows a self-coaching
  // edge case: a user (0) listed as its own student.

  function SelfCoached(): Links {
    Links([[0]], [[0]])
  }

  ghost predicate SelfCoachedFacts(links: Links) {
    && links.Valid() && links.Count() == 1
    && links.students[0] == [0] && links.ConnectedCoaches(0) == [0, 0, 0]
  }

  lemma SelfCoachedHasFacts()
    ensures SelfCoachedFacts(SelfCoached())
  {
  }

  // ---------------------------------------------------------------------
  // A host (0) coaching two students (1 and 2): test/test.js:23-31.

  function HostAndTwoStudents(): Links {
    Links([[1, 2], [], []], [[], [0], [0]])
  }

  ghost predicate HostAndTwoStudentsFacts(links: Links) {
    && links.Valid() && links.Count() == 3
    && links.students[0] == [1, 2] && links.ConnectedCoaches(0) == [0, 0]
  }

  lemma HostAndTwoStudentsHasFacts()
    ensures HostAndTwoStudentsFacts(HostAndTwoStudents())
  {
  }

  // ---------------------------------------------------------------------
  // A host (0) and a classmate (1), both coached by 2: test/test.js:44-54.

  function CoachOfHostAndClassmate(): Links {
    Links([[], [], [1, 0]], [[2], [2], []])
  }

  ghost predicate CoachOfHostAndClassmateFacts(links: Links) {
    && links.Valid() && links.Count() == 3
    && links.students[0] == [] && links.ConnectedCoaches(0) == [2]
    && links.students[2] == [1, 0] && links.ConnectedCoaches(2) == [2, 2]
  }

  lemma CoachOfHostAndClassmateHasFacts()
    ensures CoachOfHostAndClassmateFacts(CoachOfHostAndClassmate())
  {
  }

  // ---------------------------------------------------------------------
  // The host (0) coaches 1 and 2; 1 coaches 3: test/test.js:185-229.

  function StudentHasClass(): Links {
    Links([[1, 2], [3], [], []], [[], [0], [0], [1]])
  }

  ghost predicate StudentHasClassFacts(links: Links) {
    && links.Valid() && links.Count() == 4
    && links.students[0] == [1, 2] && links.ConnectedCoaches(0) == [1, 0, 0]
    && links.students[1] == [3] && links.ConnectedCoaches(1) == [0, 1]
  }

  lemma StudentHasClassHasFacts()
    ensures StudentHasClassFacts(StudentHasClass())
  {
  }

  // ---------------------------------------------------------------------
  // The host (0) and a coach (2) share their one student (1):
  // test/test.js:354-386.

  function SingleSharedStudent(): Links {
    Links([[1], [], [1]], [[], [0, 2], []])
  }

  ghost predicate SingleSharedStudentFacts(links: Links) {
    && links.Valid() && links.Count() == 3
    && links.students[0] == [1] && links.ConnectedCoaches(0) == [0, 2]
    && links.students[2] == [1] && links.ConnectedCoaches(2) == [0, 2]
  }

  lemma SingleSharedStudentHasFacts()
    ensures SingleSharedStudentFacts(SingleSharedStudent())
  {
  }

  // ---------------------------------------------------------------------
  // A user (0) with no coach and no student; no test builds it.

  function Loner(): Links {
    Links([[]], [[]])
  }

  ghost predicate LonerFacts(links: Links) {
    && links.Valid() && links.Count() == 1
    && links.students[0] == [] && links.ConnectedCoaches(0) == []
  }

  lemma LonerHasFacts()
    ensures LonerFacts(Loner())
  {
  }
}
