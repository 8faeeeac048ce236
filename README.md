# khan-infection in Dafny

A model of the "infection" propagation of khan-infection, with proofs about it.
Users are linked by coach/student relations. Each user carries an integer tag, `siteVersion`.
The propagation starts at a host user and writes a target version into whole classes.
A class is a coach together with its students.
It walks outward over the coaches connected to each visited user.
An optional cap, `numToInfect`, bounds how many users may be tagged.

The model follows the structure of the repository:

- `user.dfy`, module `Graph` (lib/User.js). A user is its id. Ids are the indices `0 .. n-1`, handed out in order of construction.
  - The datatype `Links` holds every user's student list and coach list.
  - `IsCoach` is `isCoach`: the student list is non-empty.
  - `ConnectedCoaches` is `getConnectedCoaches`, duplicates kept.
  - `WithStudent` and `WithStudents` are the effect of `addStudent` and `addStudents` on the lists.
  - The class `Users` holds the lists and the tags as fields. Its constructor, `NewUser`, `AddStudent` and `AddStudents` update them in place.
- `util.dfy`, module `Util` (lib/util.js). `addTo` as a loop that appends one element at a time.
- `limited.dfy`, module `Limited` (lib/limitedInfection.js). The walk is specified by `ClassStep` (the fit test and the tagging of one class), `Visit` (one dequeue), `Propagate` (dequeue until the queue is empty) and `Spread` (the whole call, refused below a capacity of one).
  - The methods `Infect`, `InfectClass` and `LimitedInfection` run the source's loops over a `Users` object.
  - They are proved to end in the state those functions describe.
- `limited_props.dfy`, module `LimitedProps`. What the walk guarantees, proved about `Visit`, `Propagate` and `Spread`: the capacity bound, all-or-nothing class tagging, which users are counted, and what a visited set closes over.
- `total.dfy`, module `Total` (lib/totalInfection.js). The walk with no cap: it tags every reached class and covers the host's connected component.
- `plot.dfy` and `plot_props.dfy`, modules `PlotData` and `PlotProps` (lib/getPlotData.js). The same queue walk without tagging emits node and edge records.
  - `GetPlotData` and `GeneratePlotData` are proved to produce what the functions `PlotWalk` and `EmitClass` describe.
  - The records are proved well formed and, when no user coaches itself, free of repeated node ids.
- `legacy.dfy`, module `Legacy` (index.js). The older recursive variant: a per-user `visited` flag, `getUnvisitedConnectedCoaches`, and one tagged list shared by every nested call.
- `seqs.dfy`, module `Seqs`. Filtering, duplicate-freedom and cardinality facts about sequences.
- `populations.dfy`, `runs.dfy`, `limited_runs.dfy` and `plot_runs.dfy`.
  - The populations built in test/test.js, written out as `Links`.
  - The exact outcome of the walks on them, proved step by step.
  - A few further populations that show the code's edge cases.

## Model

| member | source | states |
|---|---|---|
| Graph.Users.constructor | lib/User.js:3 | no users exist yet: the id counter is at 0 and the lists are empty |
| Graph.Users.NewUser | lib/User.js:6-16 | the new user takes the next id, one more than the largest existing id (the old population size); it gets the given tag and lists, and the counter grows by one; fresh empty lists keep the relation symmetric |
| Graph.Users.AddStudent | lib/User.js:18-21 | the lists become `WithStudent(c, s)` of the old lists and no tag changes; a symmetric relation stays symmetric |
| Graph.Users.AddStudents | lib/User.js:23-25 | the lists become those of calling `addStudent` on each element in order; no tag changes |
| Graph.Links.WithStudent | lib/User.js:18-21 | appending a student keeps every listed id a user and keeps the population |
| Graph.Links.WithStudents | lib/User.js:23-25 | adding a list of students keeps every listed id a user and keeps the population |
| Graph.WithStudentSymmetric | lib/User.js:18-21 | `addStudent` appends once to each side, so `s` occurs in `c`'s students exactly as often as `c` occurs in `s`'s coaches |
| Graph.WithStudentFrame | lib/User.js:18-21 | `addStudent` appends `s` to `c`'s students and `c` to `s`'s coaches, and changes no other list |
| Graph.WithStudentsSnoc | lib/User.js:23-25 | adding `xs` and then one more student is adding `xs` extended by it |
| Graph.WithStudentsAppends | lib/User.js:23-25 | `addStudents(xs)` appends exactly `xs`, in order, to `c`'s students and changes no other student list |
| Graph.WithStudentsSymmetric | lib/User.js:23-25 | `addStudents` keeps the relation symmetric |
| Graph.Links.IsCoach | lib/User.js:27-29 | a coach is a user with at least one student |
| Graph.CoachIffListedAsCoach | lib/User.js:27-29 | with symmetric lists, a user is a coach exactly when some user lists it among its coaches |
| Graph.Links.CoachesOf | lib/User.js:34-35 | the students' coach lists, concatenated in order; every listed id is a user |
| Graph.CoachesOfMembers | lib/User.js:34-35 | the concatenated coach lists of the students hold exactly the coaches of some student |
| Graph.Links.ConnectedCoaches | lib/User.js:31-38 | own coaches, then coaching students, then the students' coaches; every listed id is a user |
| Graph.ConnectedCoachesMembers | lib/User.js:31-38 | `getConnectedCoaches` holds exactly the own coaches, the students that are coaches, and the coaches of some student |
| Graph.ConnectedCoachesLength | lib/User.js:31-38 | no duplicate is dropped: the length is the number of own coaches, plus the coaching students, plus the sum of the students' coach-list lengths |
| Graph.SelfInConnectedCoaches | lib/User.js:31-38 | with symmetric lists, a coach is among its own connected coaches |
| Util.AddTo | lib/util.js:3-7 | the result is the old list followed by `toAdd` in order, longer by exactly `toAdd`'s length; an empty `toAdd` leaves it unchanged |
| Limited.Uninfected | lib/limitedInfection.js:17-19 | the students lacking the target version, in order; never longer than the student list |
| Limited.UninfectedMembers | lib/limitedInfection.js:17-19 | the filter keeps exactly the students that lack the target version, in order, with no duplicate added |
| Limited.TagAll | lib/limitedInfection.js:41-46 | `infect`'s tag writes, one listed user after another; there is still one tag per user |
| Limited.TagAllAt | lib/limitedInfection.js:41-46 | after tagging a list, a user carries the target exactly when it is listed, and keeps its old tag otherwise |
| Limited.ClassStep | lib/limitedInfection.js:17-30 | the fit test and the tagging of one class; there is still one tag per user |
| Limited.ClassStepSpec | lib/limitedInfection.js:17-30 | a refused class (too big, or no students) changes nothing; an accepted one tags the coach and every student, and appends exactly the users whose tag changed, each of which lacked the target; with no self-coaching it appends the class size; with no duplicate students it appends no user twice |
| Limited.Visit | lib/limitedInfection.js:13-35 | one iteration of the loop; the walk stays well formed: one tag per user and only existing users queued |
| Limited.VisitSpec | lib/limitedInfection.js:13-35 | a dequeued visited user is only dropped; a new one runs the class step, is marked visited, and its connected coaches join the back of the queue |
| Limited.Spread | lib/limitedInfection.js:3-39 | the whole call: refused exactly when the capacity is below one, and otherwise a walk with an empty queue and one tag per user |
| Limited.Propagate | lib/limitedInfection.js:12-36 | the loop terminates with an empty queue: each iteration shortens the queue or visits a new user |
| Limited.Infect | lib/limitedInfection.js:41-46 | each listed user gets the target version, and the tagged list gains the listed users in order |
| Limited.InfectClass | lib/limitedInfection.js:17-30 | the tags and tagged list become what `ClassStep` says |
| Limited.LimitedInfection | lib/limitedInfection.js:3-39 | a capacity below one is refused before any tag changes; otherwise the tags end as `Spread` says and the count is the length of its tagged list; the lists are never changed |
| LimitedProps.PropagateVisitedGrows | lib/limitedInfection.js:15-32 | the visited set only grows, so a visited id is skipped at every later dequeue and meets the fit test at most once |
| LimitedProps.RefusedIffBelowOne | lib/limitedInfection.js:3-6 | the call is refused exactly when the capacity is below one |
| LimitedProps.CountWithinCapacity | lib/limitedInfection.js:21-22 | the returned count never exceeds `numToInfect` |
| LimitedProps.SpreadAccounting | lib/limitedInfection.js:17-29 | tags are only ever changed to the target; the counted users are exactly those whose tag changed; none of them carried the target before |
| LimitedProps.SpreadTagsWholeClassesOnly | lib/limitedInfection.js:24-30 | every counted user is a visited coach or a student of one, so a user with no students is never tagged on its own visit |
| LimitedProps.CountIsNumberChanged | lib/limitedInfection.js:38 | with no duplicate students, no user is counted twice and the count is the number of users whose tag changed |
| LimitedProps.SpreadVisitsClosure | lib/limitedInfection.js:32-35 | the host ends visited, and every connected coach of a visited user is visited |
| LimitedProps.UnboundedTagsVisitedClasses | lib/limitedInfection.js:21-30 | with no cap, the call is not refused and every visited coach ends with itself and all its students tagged |
| LimitedProps.ClassFitsPopulation | lib/limitedInfection.js:21-22 | with no duplicate students and no self-coaching, the users already tagged plus a class's new users never exceed the population |
| LimitedProps.LargeCapacityAccepts | lib/limitedInfection.js:21-24 | under the same conditions, a capacity of at least the population accepts exactly the classes no cap accepts |
| LimitedProps.LargeCapacityIsTotal | lib/totalInfection.js:3-9 | under the same conditions, a capacity of at least the population gives the same outcome as `Infinity` |
| LimitedProps.PropagateInfectedGrows | lib/limitedInfection.js:24-30 | the tagged list never shrinks during the loop |
| LimitedProps.PropagateCapAtLeastFinal | lib/limitedInfection.js:21-24 | with no self-coaching, a cap at least the final uncapped count accepts every class the uncapped loop accepts, so both loops end alike |
| LimitedProps.CapAtLeastTotalIsTotal | lib/limitedInfection.js:4-36 | with no self-coaching, a capacity of at least one and at least the count `totalInfection` returns gives exactly the uncapped outcome |
| LimitedProps.ComponentCapacityIsTotal | lib/limitedInfection.js:4-36 | with no duplicate students and no self-coaching, a capacity of at least the size of any closed set of users holding the host (such as its connected component) gives exactly the uncapped outcome |
| LimitedProps.ConnectedCoachesIn | lib/User.js:31-38 | `getConnectedCoaches` of a user in a set closed under students and coaches stays inside that set |
| LimitedProps.PropagateStaysIn | lib/limitedInfection.js:12-36 | a loop whose queue and visited users lie in a closed set visits no user outside it |
| LimitedProps.SpreadStaysIn | lib/limitedInfection.js:3-39 | for any capacity, every visited user and every user whose tag changed lies in each closed set holding the host: nothing outside the host's connected component changes |
| Total.TotalInfection | lib/totalInfection.js:3-9 | never refused; the tags end as the uncapped walk says and the count is its number of tagged users |
| Total.TotalTagsReachedClasses | lib/totalInfection.js:3-9 | the uncapped walk visits the host and everything connected coaches reach, tags every visited class whole, and counts exactly the changed users |
| Total.ReachedUnvisited | lib/limitedInfection.js:32-35 | a reached but unvisited user is a student with no students of its own, whose coaches are all visited |
| Total.TotalCoversComponent | lib/totalInfection.js:3-9 | with symmetric lists, the reached users contain the host and every coach and student of a reached user, hence the host's connected component; each of them with a coach or a student is tagged, and no other user's tag changes |
| Total.TotalWithinComponent | lib/totalInfection.js:3-9 | every closed set holding the host holds every reached user and every user whose tag changed; with `TotalCoversComponent`, the reached users are exactly the host's connected component and nothing outside it changes |
| PlotData.EmitStudent | lib/getPlotData.js:40-53 | one student entry: the student is marked seen, one edge from the coach is appended, and at most one node is added after the earlier ones |
| PlotData.EmitStudentSpec | lib/getPlotData.js:40-53 | one student is marked seen and gets exactly one edge from the coach; earlier nodes stay in place |
| PlotData.EmitStudents | lib/getPlotData.js:39-54 | the `forEach` over the students: one edge per entry, and no node removed |
| PlotData.EmitStudentsSpec | lib/getPlotData.js:39-54 | the `forEach` marks every student seen and emits one edge per student entry in order; earlier nodes stay in place |
| PlotData.EmitClass | lib/getPlotData.js:32-55 | `generatePlotData` for one coach: its node and one edge per student entry |
| PlotData.EmitStudentsNodes | lib/getPlotData.js:40-48 | the nodes the `forEach` adds are student nodes of listed students not seen before, with distinct ids, and every such student gets one |
| PlotData.PlotVisit | lib/getPlotData.js:13-23 | one iteration of the plot loop; the walk stays well formed |
| PlotData.PlotVisitSpec | lib/getPlotData.js:13-23 | a seen user is only dropped from the queue; a new one is marked seen and its connected coaches join the back of the queue |
| PlotData.PlotWalk | lib/getPlotData.js:12-24 | the loop terminates with an empty queue |
| PlotData.PlotFrom | lib/getPlotData.js:6-30 | the loop from the host ends well formed with an empty queue |
| PlotData.GeneratePlotData | lib/getPlotData.js:32-55 | the coach node, then a node for each first-seen student and an edge for every student entry, exactly as `EmitClass` describes |
| PlotData.GetPlotData | lib/getPlotData.js:6-30 | returns the records of `PlotWalk` from the host; no user's tags or lists change, because the method has no `modifies` clause |
| PlotProps.EmitClassEmits | lib/getPlotData.js:32-55 | a coach contributes its coach node first, then distinct student nodes for exactly its unseen students, and one edge per student entry |
| PlotProps.PlotVisitEmits | lib/getPlotData.js:15-23 | a seen or non-coach user emits nothing; a new coach emits exactly what `EmitClassEmits` states, after the records already there |
| PlotProps.PlotVisitOk | lib/getPlotData.js:15-23 | one visit keeps every record well formed |
| PlotProps.PlotWalkOk | lib/getPlotData.js:12-24 | the whole loop keeps every record well formed |
| PlotProps.PlotWalkDistinct | lib/getPlotData.js:12-24 | with no self-coaching, the loop adds no node whose id is already drawn |
| PlotProps.PlotRecordsWellFormed | lib/getPlotData.js:33-53 | every node is the `Coach` node of a coach or the `Student` node of a listed student, coloured infected exactly when its tag equals the target; every edge goes from a coach whose node was emitted to one of its students |
| PlotProps.PlotNodeIdsDistinct | lib/getPlotData.js:15-41 | with no self-coaching, no id appears twice among the nodes |
| Legacy.LegacyUsers.constructor | index.js:4-10 | no users and no flags |
| Legacy.LegacyUsers.NewUser | index.js:4-10 | the new user gets the given tag and lists and starts not visited |
| Legacy.LegacyUsers.AddStudent | index.js:12-15 | behaves as in lib/User.js: the lists become `WithStudent(c, s)`, keeping symmetry |
| Legacy.LegacyUsers.AddStudents | index.js:17-19 | behaves as in lib/User.js: `addStudent` on each element in order |
| Legacy.UnvisitedCoachesOf | index.js:30-33 | the unvisited coaches of each student, concatenated; never longer than the students' coach lists |
| Legacy.UnvisitedCoachesOfIsFilter | index.js:30-33 | the students' unvisited coaches are the students' concatenated coach lists with the visited users removed |
| Legacy.UnvisitedConnected | index.js:25-36 | `getUnvisitedConnectedCoaches` by the flags; never longer than its three unfiltered parts together |
| Legacy.UnvisitedConnectedIsFilter | index.js:25-36 | `getUnvisitedConnectedCoaches` is `getConnectedCoaches` with the currently visited users removed, order and duplicates kept |
| Legacy.LegacyUsers.UnvisitedConnectedCoaches | index.js:25-36 | every listed coach exists and is unvisited, and every unvisited connected coach is listed |
| Legacy.LegacyUsers.Infect | index.js:84-89 | each listed user gets the target version, and the tagged list gains the listed users in order |
| Legacy.LegacyUsers.InfectClass | index.js:60-73 | the same fit test and all-or-nothing class tagging as the queue variant: the result is `ClassStep` |
| Legacy.LegacyUsers.VisitUser | index.js:60-75 | the new tags and list are exactly `ClassStep`'s, then the user's flag is set for good; with no cap the user's class ends tagged; tags only change to the target, exactly for the users appended, who were untagged; the cap is kept |
| Legacy.LegacyUsers.LimitedInfection | index.js:55-82 | refuses a capacity below one with no effect. Otherwise the recursion terminates, the shared list stays within the cap, and tags change only to the target, exactly for the users appended. With no duplicate students no user is appended twice, even when a sibling was visited before its turn. Flags are only set, and the user and every newly visited user end with all connected coaches visited. The same holds from the state right after the user's own class step, which is `ClassStep`'s. With no cap, the user's class and the class of every newly visited coach end tagged |
| Legacy.LegacyUsers.VisitCoaches | index.js:77-79 | the recursive call on each listed coach in turn, threading the shared list; the same guarantees as above hold for the whole loop, and every listed coach ends visited |
| Legacy.LegacyUsers.TotalInfection | index.js:47-53 | the uncapped recursion is never refused. The host ends visited with all its connected coaches visited. The host's class and the class of every newly visited coach end tagged. With no duplicate students, the count is the number of users whose tag changed |
| LimitedRuns.TotalHostAndStudent | test/test.js:13-21 | a host with one student: the student and then the host are tagged, and the count is 2 |
| LimitedRuns.TotalHostAndTwoStudents | test/test.js:23-31 | a host with two students: both students and then the host are tagged, and the count is 3 |
| LimitedRuns.TotalTagsHostsCoach | test/test.js:33-42 | a host whose coach has no other student: the host, as that coach's student, and then the coach are tagged |
| LimitedRuns.TotalTagsCoachsClass | test/test.js:44-54 | a host whose coach has another student: the classmate, the host and the coach are tagged |
| LimitedRuns.TotalReachesClassmatesCoach | test/test.js:56-70 | the host's coach, the coach's other student and that classmate's other coach are all tagged, and the count is 4 |
| LimitedRuns.LimitedCoachOfHost | test/test.js:78-126 | capacity 0 is refused; with 2 the coach's class does not fit and the count is 0; with 3 all three are tagged |
| LimitedRuns.LimitedSharedStudentNoRoom | test/test.js:147-164 | with capacity 3 only the host's class is tagged, for a count of 3; the other coach and its own student keep their tags |
| LimitedRuns.LimitedSharedStudentRoom | test/test.js:166-182 | with capacity 5 both classes are tagged, the shared student once, for a count of 5 |
| LimitedRuns.LimitedStudentClassRoom | test/test.js:192-209 | with capacity 4 the host's class and then the student's class are tagged, for a count of 4 |
| LimitedRuns.LimitedStudentClassOnly | test/test.js:211-229 | with capacity 2 the host's class of 3 is refused and the student's class of 2 is tagged, for a count of 2; the host and the other student keep their tags |
| LimitedRuns.LimitedChain | test/test.js:233-280 | in a chain of four, capacity 4 tags all; capacity 3 tags the first three and leaves the last student untagged |
| LimitedRuns.LimitedIsGreedy | test/test.js:284-319 | with capacity 6 the first classes that fit are taken, for a count of 5, and the three-student class is left untagged |
| LimitedRuns.LimitedTakesCoachClass | test/test.js:322-351 | with capacity 3 the host's class is skipped and the coach's class is tagged instead, for a count of 3 |
| LimitedRuns.LimitedSingleSharedStudent | test/test.js:354-386 | with capacity 3 the host's class is tagged, then the other coach alone, since the shared student already carries the tag; the count is 3 |
| LimitedRuns.TotalLeavesLonerUntagged | lib/limitedInfection.js:24 | a host with no coach and no student is not a coach, so even the uncapped walk tags nothing, not even the host, and returns 0 |
| LimitedRuns.LimitedRepeatedCallTagsMore | lib/limitedInfection.js:8-10 | the tagged list restarts empty on every call, so a second identical call accepts the class the first refused and returns 3, not 0 |
| PlotRuns.PlotHostAndStudent | test/test.js:394-418 | a host and its student give the `Coach 0` and `Student 1` nodes, both uncoloured, and one edge between them |
| PlotRuns.PlotSharedStudent | test/test.js:420-434 | the shared-student case gives 5 nodes, the shared student drawn once, and 4 edges |
| PlotRuns.PlotSkipsCoachSeenAsStudent | lib/getPlotData.js:15-21 | a coach first drawn as a student is skipped when dequeued, so its own class is never drawn |
| PlotRuns.PlotDanglingEdge | lib/getPlotData.js:17-23 | a host that is only a student is marked seen without a node, so its coach's edge ends at an id no node carries |
| PlotRuns.PlotSelfCoachRepeatsId | lib/getPlotData.js:33-48 | a user listed as its own student gets a coach node and a student node with the same id |

## Behaviours of the code worth knowing

- A second identical call need not return 0. The code restarts its tagged list on every call, so the second call can accept a class the first refused. `LimitedRuns.LimitedRepeatedCallTagsMore` states this outcome.
- Only coaches are ever tagged on their own visit. A host with no coach and no student is never tagged, not even by `totalInfection`, because `isCoach()` is false for it and its call returns 0 (`LimitedRuns.TotalLeavesLonerUntagged`).
- The plot records are not a closed graph. An edge can end at an id that has no node (`PlotRuns.PlotDanglingEdge`). A coach first met as a student is never expanded (`PlotRuns.PlotSkipsCoachSeenAsStudent`).
- `addStudent` does not refuse duplicates or self-coaching. Both are modelled. The properties that need their absence say so, with `NoDupStudents` and `NoSelfCoach` hypotheses.

## Left out

- demo/index.js: browser drawing code, adapters outside the core.
- webpack.config.js and `require('babel/register')` at index.js:1: build and loader set-up.
- Object identity and aliasing: users are ids into value lists. JS arrays shared by reference are values here and are returned from methods. This covers `queue`, `infected`, `nodes`, `edges` and `addTo`'s `list`, so the model does not capture aliasing between them.
- Util.AddTo: returns the extended list rather than pushing onto a shared array. The same helper at index.js:41-45 is identical and is covered by this member.
- `numToInfect` is an integer or `Infinity` (`Capacity.Unbounded`). Non-integer, `NaN` and non-number arguments are not modelled.
- The thrown `Error('too few users to infect')` is the result `Err(TooFewUsers)`. The message text is not modelled.
- The colour strings `#FF2525` and `#97C2FC` are the two `Color` values. The labels `Coach <id>` and `Student <id>` are a `Label` constructor carrying the id, not a formatted string.
- The `siteVersion` argument of `getPlotData` may be omitted. This is `Target.NoVersion`, which equals no tag.
- Graph.Users.NewUser: requires every listed id to be an existing user. The source accepts any objects and does not update the listed users' own lists; the model stores the given lists as given.
- Legacy.LegacyUsers.NewUser: the same requirement, for the same reason.
- The index.js `User` has no `id`. Its users are numbered like those of lib/User.js.
- Legacy.LegacyUsers.LimitedInfection: returns the shared tagged list as a second result instead of mutating the caller's array; the recursion result is discarded as in the source.
