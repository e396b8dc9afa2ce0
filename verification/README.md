# File-system support of the ArchMinix C library: a verified model

ArchMinix carries the RTEMS C support library. This project models the parts of it that are
hard to get right and proves what they are meant to guarantee:

* `realpath`: a resolver that works in place on fixed-size character buffers, proved equal to
  pathname resolution over a stack of components and a list of tokens (section 4.13 of the Base
  Definitions volume of POSIX.1-2017).
* the path evaluator, which walks a forest of mounted file systems one token at a time and
  evaluates symbolic links by recursion.
* reference-counted global locations: deferred release, location chains of mount entries,
  cascading unmounts, and the user environments that own the handles.
* the malloc family with its chain of deferred frees, and the file descriptor table with its
  free list.
* the Internet checksum of an IP header (section 2 of RFC 1071) with its incremental update
  (RFC 1141), the interface packet queues, and the number printing of `vprintk`.

Code that updates objects or buffers is a class or a method over arrays, proved against a
function on values; the theorems are about these functions.

| file | contents |
|---|---|
| `Basics.dfy`, `CStrings.dfy`, `PathText.dfy` | shared notions; C strings in buffers; path text as tokens and component stacks |
| `Realpath.dfy`, `RealpathMeaning.dfy` | `realpath` on buffers and on strings; what it computes |
| `RealpathLimits.dfy` | what its limits do: cut link targets, reading behind a buffer, the number of links |
| `RealpathDots.dfy` | "." and ".." behind a component that is no directory |
| `EvalPath.dfy`, `EvalPathMachine.dfy` | the evaluator on context values and on the context object |
| `EvalPathProps.dfy`, `EvalPathParents.dfy` | what every evaluation keeps; where ".." leads across mounts |
| `EvalLaws.dfy` | what an evaluation does with each token, how it starts and how it ends |
| `Locations.dfy`, `DeferredRelease.dfy` | one release with everything it sets off; deferred release and its refinement |
| `LocationProtocol.dfy`, `LocationRuns.dfy` | the locked regions as steps of a state machine; runs that lose an unmount |
| `LocationRefinement.dfy` | interleaved regions against whole releases |
| `LocationCalls.dfy`, `LocationOrder.dfy` | the other calls as whole steps; interleaved regions of all calls against their order |
| `EvalGuards.dfy`, `EvalExamples.dfy` | which locations that evaluations take off can lose an unmount; paths that go wrong |
| `LocationTable.dfy`, `UserEnv.dfy` | the location functions on linked objects; who owns the handles |
| `MallocDeferred.dfy`, `IopTable.dfy` | heap with deferred frees; descriptor free list |
| `InCksum.dfy`, `HeaderForward.dfy`, `IfQueue.dfy`, `PrintNum.dfy` | checksum, forwarding, packet queues, number printing |

## How to read it

**realpath.** `Realpath.Run` is the code on buffers. It is proved to compute `Realpath.Spec`, the
same loop on strings. `RealpathMeaning.Resolution` is pathname resolution over components and
tokens, with every link read whole. `RealpathLimits.RealpathIsWalk` says when the two agree: if the
path and every step fit into `PATH_MAX` they do, and if something does not fit and no link was cut
the call fails with ENAMETOOLONG. `RealpathReadsIff` makes the remaining case exact: the loop reads
what resolution reads if and only if every link it follows is shorter than `PATH_MAX`. Like the code,
`Resolution` takes "." and ".." without looking for a directory; `RealpathDots.RealpathIsStrictIff`
says when that is right. `PATH_MAX`
and `MAXSYMLINKS` are parameters, `lstat`, `readlink` and `getcwd` arbitrary functions of one
unchanging file system.

**The evaluator.** `EvalPath.World` says what file systems answer. Trees and mount points are fixed;
the answers of `eval_token`, what is mounted and what can be cloned may change during an evaluation
and are indexed by a clock. `World.Valid` is the contract of `eval_token`: it moves along its own
tree, crosses down into a mount, follows a link, or reports an error. `EvalLaws` says what
comes of every answer, by the path and the answers alone; its cases cover every token that can be read,
every start and every end. `EvalGuards` takes the locations of an evaluation for the ones of
`LocationProtocol`.

**Locations.** `Locations.Release` is one release with its cascade of unmounts. Any two releases
commute (`ReleasesCommute`), from which deferring makes no difference
(`DeferringMakesNoDifference`). `LocationProtocol` splits the same calls into their locked regions
and lets threads interleave them freely; `LocationRefinement.QuiescentRunsRelease` ties it back:
whenever nothing is under way any more, the interleaved regions have done what the whole releases
do. `LocationOrder.GuardedRunsAreSequential` says so for runs of all calls: as long as each thread
works on what stays (`Guarded`: something it has a handle on, or that is mounted), the regions have
done what the calls do one after the other in the order in which they were begun. `LocationTable` is
the code on linked objects.

## Model

| member | source | states |
|---|---|---|
| `CStrings.Strlcpy` | libc/strlcpy.c:31-48 | returns the length it tried to create, leaves the longest prefix that fits as a terminated string when there is any room, and writes nothing but that string and its terminator |
| `CStrings.Strlcat` | libc/strlcat.c:37-46 | returns the length of the concatenation and leaves its longest prefix that fits; all bytes but the appended ones and the terminator stay, and a destination with no room is not written to |
| `PathText.SplitOfJoin` | libc/realpath.c:110-127 | splitting at slashes undoes joining with slashes |
| `PathText.JoinOfSplit` | libc/realpath.c:110-127 | joining the tokens of any path text gives the text back, empty tokens included |
| `PathText.SplitAppend` | libc/realpath.c:217-241 | a slash between two texts separates their tokens, which is what splicing a link target relies on |
| `PathText.StripLastPops` | libc/realpath.c:206-215 | cutting behind the last slash uncovers the directory of a component |
| `Realpath.TakeToken` | libc/realpath.c:115-127 | takes the first token off the unread text; the new `left_len` bounds the rest with slack and is zero exactly when no token is left; with a slash found the bytes moved end at `left_len` + 2, behind the buffer if and only if `left_len` is `PATH_MAX` - 1 |
| `Realpath.Strip` | libc/realpath.c:168-173 | drops the last component of a directory text in place |
| `Realpath.SpliceLink` | libc/realpath.c:217-242 | leaves link target and unread rest in `left`, or reports that they do not fit |
| `Realpath.LinkStep` | libc/realpath.c:192-242 | the link branch on the buffers does what the link round on strings does, error exits included |
| `Realpath.TokenStep` | libc/realpath.c:138-243 | every branch for a token on the buffers does what the round on strings does; a failing round leaves the offending path in `resolved` |
| `Realpath.RoundStep` | libc/realpath.c:110-244 | one whole round on the buffers, with the exact new `left_len` and whether the round reads behind `left` |
| `Realpath.OneRound` | libc/realpath.c:110-244 | a round that goes on has used up a link of the budget or some of the text |
| `Realpath.Resolve` | libc/realpath.c:110-252 | the loop ends, computes the loop on strings, follows at most `MAXSYMLINKS` + 1 links, and says whether some round reads behind `left` |
| `Realpath.Run` | libc/realpath.c:54-253 | the whole call: NULL and empty arguments, allocation of the buffer, `getcwd` failure, result and buffer contents on every exit |
| `RealpathMeaning.SplicedTokens` | libc/realpath.c:217-242 | the spliced text has the tokens of the link target followed by the remaining ones, without an empty token at the seam |
| `RealpathMeaning.SplicedFits` | libc/realpath.c:222-241 | splicing is refused exactly when the text of the expanded tokens is not shorter than `PATH_MAX` |
| `RealpathMeaning.RoundMatches` | libc/realpath.c:110-244 | a round does the step of pathname resolution for the first token, links cut at the buffer size, or is refused exactly when that step does not fit |
| `RealpathMeaning.LoopIsWalk` | libc/realpath.c:110-252 | from any stack and unread text the loop reports what resolution over cut links finds if every step fits, else ENAMETOOLONG |
| `RealpathMeaning.RealpathIsCutWalk` | libc/realpath.c:64-252 | for every path, "/", the empty one and a missing working directory included, `realpath` reports what the path resolves to with every link cut, if path and steps fit, else ENAMETOOLONG |
| `RealpathLimits.RealpathIsWalk` | libc/realpath.c:64-252 | for every file system, working directory and path: `realpath` returns what the path resolves to, links read whole, when path and steps fit; when they do not and no link was cut, ENAMETOOLONG |
| `RealpathLimits.RealpathReadsIff` | libc/realpath.c:199-205 | as far as it gets, the loop reads exactly the tokens that pathname resolution reads, if and only if every link it follows has a target shorter than `PATH_MAX` |
| `RealpathLimits.StepOfCut` | libc/realpath.c:192-242 | a step fits with whole links exactly when it fits with cut ones and no followed target is too long; a cut target that is followed changes the tokens read next |
| `RealpathLimits.BehindTheCut` | libc/realpath.c:199-205 | what is behind the cut of a link target never changes the result |
| `RealpathLimits.CutLinkExample` | libc/realpath.c:199-205 | an input with a wrong success: the link names a missing entry, and `realpath` returns the file that the cut text names |
| `RealpathLimits.CallOverreadsIff` | libc/realpath.c:110-127 | a call reads behind `left` if and only if the path, or the text of some link it expands, has length `PATH_MAX` - 1 and a slash in it |
| `RealpathLimits.FullPathOverreads` | libc/realpath.c:127-127 | every such path reads behind the buffer, whatever the file system |
| `RealpathLimits.OverreadExample` | libc/realpath.c:127-127 | "/a/b" with a limit of four bytes is one |
| `RealpathDots.RealpathIsStrictIff` | libc/realpath.c:161-175 | when everything fits, a success of `realpath` is what the path resolves to with "." and ".." looked for in directories if and only if every one of them is read in a directory |
| `RealpathDots.WalkIsStrictIff` | libc/realpath.c:161-175 | the same for any walk over components and tokens |
| `RealpathDots.TrailingSlash` | libc/realpath.c:138-160 | a real path with a slash behind it is returned if it is a directory, is ENOTDIR if it is a file, and else the error of `lstat` |
| `RealpathDots.FileDotDot` | libc/realpath.c:163-175 | "/f/.." is "/" although "/f" is a file |
| `RealpathMeaning.BudgetOnlyCuts` | libc/realpath.c:193-198 | a walk that ends by itself ends the same way under every larger link budget |
| `RealpathMeaning.SelfLinkLoops` | libc/realpath.c:192-198 | a link to itself ends in ELOOP at its own path, whatever the budget |
| `RealpathLimits.ChainResolvesIff` | libc/realpath.c:192-198 | a chain of links resolves if and only if it has at most `MAXSYMLINKS` + 1 of them, else ELOOP at the link behind those |
| `RealpathLimits.BoundAttained` | libc/realpath.c:192-198 | for every `MAXSYMLINKS` there is a path through one link more that resolves |
| `RealpathMeaning.ResultIsReal` | libc/realpath.c:128-252 | a result is absolute, canonical, shorter than `PATH_MAX`, and free of symbolic links as far as the working directory is |
| `RealpathMeaning.WalkEndsReal` | libc/realpath.c:161-215 | resolution keeps a stack canonical and free of links |
| `RealpathMeaning.RealpathIdempotent` | libc/realpath.c:54-253 | `realpath` of its result is the result |
| `EvalPath.NextToken` | libc/sup_fs_next_token.c:28-65 | the unread text shrinks by at least the token, and strictly when there was any |
| `EvalPath.Handler` | libc/sup_fs_eval_path_generic.c:49-127 | every call of a file system's handler uses up text, or leaves the text and goes to an older mount: the termination measure |
| `EvalPath.ParentLen` | libc/sup_fs_eval_path.c:30-43 | the length up to and including the last delimiter |
| `EvalPathMachine.SetStart` | libc/sup_fs_eval_path.c:45-72 | the context that an evaluation starts with: the text to read, root and start location, `errno` |
| `EvalLaws.Starts` | libc/sup_fs_eval_path.c:45-72 | an evaluation reads all of its path, of an absolute one what is behind the first delimiter, from its start location; an empty path is ENOENT, a start location that cannot be obtained ENXIO, and one that cannot be cloned gives that error |
| `EvalLaws.AbsoluteIsFromRoot` | libc/sup_fs_eval_path.c:54-62 | an absolute path leads where the text behind its delimiters leads from the root location |
| `EvalPathMachine.Context.constructor` | libc/sup_fs_eval_path.c:139-167 | start of an evaluation: root and start location obtained, the start location cloned |
| `EvalPathMachine.Context.EatDelimiter` | libc/sup_fs_next_token.c:28-41 | the loop skips exactly the leading delimiters |
| `EvalPathMachine.Context.TakeToken` | libc/sup_fs_next_token.c:43-65 | the loops split off the next token |
| `EvalPathProps.PutBackRereads` | include/rtems/libio_.h:690-699 | a token that is put back is read again, with the same text behind it |
| `EvalPathMachine.Context.Fail` | libc/sup_fs_eval_path.c:268-285 | ends the evaluation at the null location; a second error changes nothing |
| `EvalPathMachine.Context.RestartAt` | libc/sup_fs_eval_path.c:317-330 | start and current location move to the obtained location, or become null with the error; what is taken off is on record with the start location of that moment |
| `EvalPathMachine.Context.EvalRecursive` | libc/sup_fs_eval_path.c:234-266 | evaluates a link's text one level down and takes up the saved path again; empty text and too many levels are errors |
| `EvalPathMachine.Context.RunSteps` | libc/sup_fs_eval_path.c:115-117 | the driving loop ends, by unread text and then the rank of the mount |
| `EvalPathMachine.Context.EvalGeneric` | libc/sup_fs_eval_path_generic.c:49-127 | the token loop ends and computes its function: "." and "..", the stop at the root location, crossing upwards, missing entries |
| `EvalLaws.NotADirectory` | libc/sup_fs_eval_path_generic.c:119-122 | a token that is read where there is no directory is ENOTDIR |
| `EvalLaws.RejectedDot` | libc/sup_fs_eval_path_generic.c:64-78 | a dot at the end of a path that does not allow it is EINVAL |
| `EvalLaws.Entered` | libc/sup_fs_eval_path_generic.c:64-103 | after a move within a file system the rest is evaluated from there, whether the token loop goes on or not |
| `EvalLaws.Crossed` | libc/sup_fs_eval_path.c:317-330 | a token that names a mount point goes on at the root of what is mounted there; that is ENXIO if it is not mounted any more, or the error of the clone |
| `EvalLaws.LeftUpwards` | libc/sup_fs_eval_path_generic.c:83-97 | ".." in the root of a mounted file system is evaluated again from the node it is mounted on, if that can be obtained and cloned |
| `EvalLaws.Denied` | libc/sup_fs_eval_path.c:268-285 | an error of the file system ends the evaluation with that error |
| `EvalLaws.NotThere` | libc/sup_fs_eval_path_generic.c:105-118 | a missing entry is left over as the token at the end of the path, or with only delimiters behind it if the caller accepts them; else it is ENOENT |
| `EvalLaws.LinkRefused` | libc/sup_fs_eval_path.c:240-266 | a link with an empty text is ENOENT, one at the level limit ELOOP |
| `EvalLaws.LinkFollowed` | libc/sup_fs_eval_path.c:240-259 | any other link: its text is evaluated from here or, when it is absolute, from the root location, and the rest from where that ends |
| `EvalPathMachine.Context.CheckFinal` | libc/sup_fs_eval_path.c:74-107 | the access check at the end, on a null location too |
| `EvalPathMachine.Context.ContinuePath` | libc/sup_fs_eval_path.c:109-137 | the whole continuation with the make and exclusive flags |
| `EvalLaws.SucceedsIff` | libc/sup_fs_eval_path.c:74-137 | an evaluation that has read its path succeeds, where it is, if and only if a token is left that is to be made or none is left and the entry need not be new, and the access is granted, on a writeable mount for write access; else the error is ENOENT, EEXIST, EROFS, EACCES or the one of `fstat` |
| `EvalPathMachine.ParentPathLen` | libc/sup_fs_eval_path.c:30-43 | the counting loop finds the last delimiter |
| `EvalPathMachine.StartWithParent` | libc/sup_fs_eval_path.c:186-232 | evaluates the parent's path, clones the location, and goes on with the name |
| `EvalLaws.ParentThenName` | libc/sup_fs_eval_path.c:195-231 | the parent is where the part up to the last delimiter leads, and the name behind it is looked up from there |
| `EvalLaws.ParentIsCwd` | libc/sup_fs_eval_path.c:202-207 | for a name alone the parent is the working directory, and the name is looked up there |
| `EvalPathProps.LeadsInside` | libc/sup_fs_eval_path_generic.c:79-100 | a token that is not ".." at the root location leads from inside it to inside it |
| `EvalPathProps.StepsOk` | libc/sup_fs_eval_path.c:115-117 | every step of an evaluation, links and mount crossings included, keeps it inside its root location, keeps its first error in `errno`, and keeps its start location on the mount of its current one |
| `EvalPathProps.EvaluationStaysInside` | libc/sup_fs_eval_path.c:139-167 | an evaluation reaches only locations at or below its root location if and only if it starts inside; ending at the null location means that `errno` is the error that ended it |
| `EvalPathProps.EvaluationStaysBelow` | libc/sup_fs_eval_path.c:45-72 | measured by the root location asked for, obtained or not, an evaluation stays at or below it if and only if the path is empty or absolute or the working directory cannot be obtained or is below it; provided that an unmounted file system does not come back |
| `EvalPathProps.EvaluationIsAnchored` | libc/sup_fs_eval_path.c:298-330 | at every restart and in the end, the location taken off its chain is on the mount of the start location |
| `EvalExamples.OutsideExample` | libc/sup_fs_eval_path.c:54-65 | a relative path that is evaluated although its root location is gone, and ends outside it |
| `EvalPathProps.FirstErrorWins` | libc/sup_fs_eval_path.c:109-137 | once the current location is null, no remaining path and no flag changes `errno` or finds a location |
| `EvalPathProps.OutsideStaysOutside` | libc/sup_fs_eval_path.c:109-137 | an evaluation never counts as confined again once a recorded location was outside its root location, or once it is over with its start location outside |
| `EvalPathParents.DotDotClimbs` | libc/sup_fs_eval_path_generic.c:79-100 | ".." leads to the parent in the forest of mounts, through any stack of mounts and never above the root location, and the rest is evaluated from there |
| `EvalPathParents.ClimbUndoesDescent` | libc/sup_fs_eval_path_generic.c:83-97 | the parent of what a step down reaches is where it started, across mounts |
| `EvalPathParents.DownAndUp` | libc/sup_fs_eval_path_generic.c:64-103 | a name followed by ".." leads back, also when the name crosses into a mounted file system |
| `EvalPathProps.ParentAndName` | libc/sup_fs_eval_path.c:195-212 | the parent's path and the name make up the path, and the name holds no delimiter |
| `EvalPathProps.ParentStaysInside` | libc/sup_fs_eval_path.c:186-232 | the evaluation with a parent stays inside as well and reports the error of the parent's evaluation |
| `EvalPathProps.MissingEntryFails` | libc/sup_fs_eval_path_generic.c:105-118 | a missing entry with more path behind it is ENOENT |
| `EvalPathProps.DanglingLink` | libc/sup_fs_eval_path.c:240-259 | a link, relative or absolute and of any length, whose text leads to a missing entry: at the end of the path it is reported as ENOENT unless the entry is to be made; with anything behind it, the rest is evaluated from where the text led and the missing entry is forgotten |
| `EvalPathProps.MissingTargetStandsIff` | libc/sup_fs_eval_path.c:258-259 | the token of a missing target survives if and only if nothing is behind the link |
| `EvalPathProps.TrailingDelimiterIff` | libc/sup_fs_eval_path.c:109-137 | with at most delimiters behind it, the link to a missing entry fails if and only if there are none |
| `EvalExamples.DanglingExample` | libc/sup_fs_eval_path.c:258-259 | "l" is a link to a missing entry: "l" is ENOENT, "l/" succeeds in the link's directory |
| `Locations.NullStays` | libc/__usrenv.c:214-243 | the null location keeps the two references of its own mount entry, which is never ready for unmount |
| `Locations.DroppedKeeps` | libc/sup_fs_location.c:122-131 | counting down and freeing at zero keeps every count exact |
| `Locations.ReadyIsUnheld` | include/rtems/libio_.h:579-592 | a mount entry that tests ready is held by nobody |
| `Locations.DetachedKeeps` | libc/sup_fs_location.c:228-247 | taking out a ready mount entry keeps every count exact; its mount point belongs to an older mount |
| `Locations.Release` | libc/sup_fs_location.c:111-136 | a release with its cascade ends and takes back exactly the references it was asked to |
| `Locations.ReleasesAdd` | libc/sup_fs_location.c:111-136 | two releases of one location are one release of the sum |
| `Locations.ReleasesCommute` | libc/sup_fs_location.c:111-136 | any two releases, with all the unmounts they set off, can change places |
| `DeferredRelease.DeferOwed` | libc/sup_fs_location.c:192-207 | a deferred release adds one to what is owed of its location, and the list holds each location once with a positive count |
| `DeferredRelease.DeferPlaces` | libc/sup_fs_location.c:192-207 | a location that was not on the list comes to its head; a further deferral keeps the order |
| `DeferredRelease.ReplayEnabled` | libc/sup_fs_location.c:185-191 | with dispatching enabled throughout, releases are done at once and nothing more is owed |
| `DeferredRelease.ReplayDisabled` | libc/sup_fs_location.c:191-208 | without it the locations stay as they are |
| `DeferredRelease.Drain` | libc/sup_fs_location.c:138-160 | draining takes back exactly what is owed |
| `DeferredRelease.DrainDefer` | libc/sup_fs_location.c:138-207 | a release that is deferred and then drained might as well have been done at once |
| `DeferredRelease.DeferringMakesNoDifference` | libc/sup_fs_location.c:111-209 | any mix of immediate and deferred releases, once drained, leaves the counts, freed locations and mounts of doing each at once |
| `LocationProtocol.InitialOk` | libc/__usrenv.c:214-249 | the static initial state is consistent, with four references to the null location |
| `LocationProtocol.StepKeeps` | libc/sup_fs_location.c:42-247 | every locked region, whatever other threads did before it, keeps the accounts |
| `LocationProtocol.ReachableAccounts` | libc/sup_fs_location.c:74-247 | in every reachable state counts equal handles plus deferred and running releases plus mount shares; the deferred list holds living locations once each; nothing is freed or unmounted twice; the null location keeps two references |
| `LocationProtocol.NothingVanishes` | libc/sup_fs_location.c:128-247 | in every reachable state a location is alive, was freed, or left with its mount; a mount entry is there or was unmounted |
| `LocationProtocol.FreesOrUnmounts` | libc/sup_fs_location.c:122-135 | one locked region never both finds its location unreferenced and its mount ready |
| `LocationProtocol.CountedKeeps` | libc/sup_fs_location.c:122-126 | counting down keeps the accounts; a location without references left is on its way out |
| `LocationProtocol.MovingNeverUnmounts` | libc/sup_fs_location.c:64-93 | removing a location that was copied first never unmounts |
| `LocationProtocol.LeaveKeeps` | libc/sup_fs_location.c:228-247 | an unmount keeps the accounts, whether its mount point is released at once or deferred |
| `LocationProtocol.NodesKeep` | libc/clonenode.c:28-41 | copying a node onto a chain and removing one, with or without the readiness test, keeps the accounts |
| `LocationRuns.ReadyOnlyUntested` | libc/sup_fs_location.c:122-126 | only the untested steps, taking off a path evaluation's location and marking an entry as unmounted, make an entry ready |
| `LocationRuns.LosesIff` | libc/sup_fs_eval_path.c:287-296 | an untested step leaves its entry ready if and only if, before it, the entry is unmounted or being marked so, only its root and the node that goes are on its chain, nobody has a handle on it, nothing is mounted on its root, and it is not on its way out |
| `LocationRuns.ReadyUntilJoined` | include/rtems/libio_.h:579-592 | a ready entry that was not tested stays ready until a location joins its chain |
| `LocationRuns.ReadyIff` | libc/sup_fs_eval_path.c:287-296 | a state has an entry ready if and only if an untested step met that condition and no location has joined the entry's chain since |
| `LocationRuns.NoUnmountLostIff` | libc/sup_fs_eval_path.c:287-296 | no state of a run has an entry ready and unnoticed if and only if no untested step meets that condition |
| `LocationRuns.GuardedRunsLoseNothing` | libc/sup_fs_eval_path.c:298-306 | no unmount is lost when untested steps are made with a handle on the same entry |
| `EvalGuards.EvaluationLosesNothing` | libc/sup_fs_eval_path.c:298-330 | no restart and no cleanup of an evaluation loses an unmount, nor does marking the entry it ends on (libc/file/unmount.c:60-69), in any state that has its handles |
| `EvalGuards.ParentEvaluationLosesNothing` | libc/sup_fs_eval_path.c:308-330 | the same for an evaluation with a parent, apart from the parent's location |
| `EvalGuards.CleanupWithParentIff` | libc/sup_fs_eval_path.c:308-315 | the handles of an evaluation rule out that taking its parent's location off loses an unmount if and only if that location is null or on the mount of the start or of the root location that the evaluation ends with |
| `EvalExamples.UnguardedExample` | libc/sup_fs_eval_path.c:308-315 | "m/.." with a file system mounted on "m": the parent's location is on neither |
| `LocationRuns.LostUnmountExample` | libc/sup_fs_eval_path.c:308-315 | without that handle a run ends with nothing under way and an entry ready that nobody will test |
| `LocationRefinement.WholeOk` | libc/sup_fs_location.c:111-247 | a state of the protocol, seen without what is under way, has exact counts |
| `LocationRefinement.AnyOrder` | libc/sup_fs_location.c:111-136 | releases in any order, with all they set off, end alike |
| `LocationRefinement.QuiescentRunsRelease` | libc/sup_fs_location.c:111-247 | however the locked regions of immediate and deferred releases are interleaved, once nothing is under way the counts, freed locations and mounts are those of whole releases one after the other |
| `LocationCalls.ChangeKeeps` | libc/sup_fs_location.c:74-93 | obtaining, creating, copying, removing, mounting and marking keep every count exact |
| `LocationCalls.ReleaseIsLater` | libc/sup_fs_location.c:111-136 | a release takes out nothing but locations that it frees and entries that it unmounts, never a mounted one |
| `LocationCalls.ChangePastRelease` | libc/sup_fs_location.c:111-183 | each of these may be made before or after a release with all it sets off, if what it works on stays |
| `LocationCalls.ClosePastRelease` | libc/sup_fs_location.c:211-247 | removing a location with the readiness test, and the unmounts that sets off, commutes with releases |
| `LocationOrder.EditEnds` | libc/sup_fs_location.c:162-183 | a guarded call amid releases under way leads where it leads behind them, and `obtain` hands out the same location |
| `LocationOrder.GuardedRunsAreSequential` | libc/sup_fs_location.c:26-247 | however the locked regions of obtaining, releasing, creating, copying, removing, mounting and marking are interleaved, once nothing is under way the state is that of the whole calls one after the other in the order in which they were begun, if each works on what stays |
| `LocationTable.Table.DeferRelease` | libc/sup_fs_location.c:192-207 | the linked deferred list gains the location at its head, or its count goes up |
| `LocationTable.Table.PopDeferred` | libc/sup_fs_location.c:146-154 | the head leaves the linked list with its count, and its link and count are cleared |
| `LocationTable.Table.TestReady` | include/rtems/libio_.h:579-592 | the readiness test, which empties the chain when it succeeds |
| `LocationTable.Table.DoUnmount` | libc/sup_fs_location.c:228-247 | takes the entry out and releases its mount point |
| `LocationTable.Table.FreeLocation` | libc/file/freenode.c:25-31 | takes the location off its chain, with the removal's own test |
| `LocationTable.Table.ReleaseWithCount` | libc/sup_fs_location.c:111-136 | the code with its two tests does one release with its cascade |
| `LocationTable.FirstTestFindsNothingFreed` | libc/sup_fs_location.c:122-126 | when the count reaches zero the test in the same region finds the mount not ready |
| `LocationTable.Table.DrainDeferred` | libc/sup_fs_location.c:138-160 | the loop ends with an empty list and has done the drain |
| `UserEnv.Environments.Obtain` | libc/sup_fs_location.c:162-183 | drains, then hands out the location, or the null location when it is not mounted any more |
| `UserEnv.Environments.ReleaseHandle` | libc/sup_fs_location.c:185-209 | a release is done at once with dispatching enabled, else owed to the deferred list; the balance holds either way |
| `UserEnv.Environments.FreeUserEnv` | libc/privateenv.c:41-51 | gives both handles of an environment back: with dispatching enabled two releases, the working directory's first, else both are owed to the list and nothing else changes |
| `UserEnv.Environments.SetPrivateEnv` | libc/privateenv.c:53-99 | every exit is balanced, and each status is returned exactly on its condition; success means a private environment with the global one's locations, failure leaves the environments as they were and hands back what was obtained, at once or owed |
| `UserEnv.Environments.UseGlobalEnv` | libc/privateenv.c:101-114 | the private environment is gone and its two handles are released or, with dispatching disabled, owed to the list |
| `UserEnv.Environments.AssignEnv` | libc/sup_fs_location.c:95-109 | exchanges one handle of an environment and hands the old one back, at once or owed |
| `UserEnv.Environments.Evaluate` | libc/sup_fs_eval_path.c:45-72 | an evaluation with any number of restarts holds exactly two handles, and state, deferred list and both locations are those of `Evaluated` |
| `UserEnv.Evaluated` | libc/sup_fs_eval_path.c:317-330 | after any restarts both handles are held and a start location that is not null can still be obtained |
| `UserEnv.RestartIs` | libc/sup_fs_eval_path.c:317-330 | a restart moves the start location to what can be obtained and hands the old one back, at once or owed |
| `UserEnv.StartIs` | libc/sup_fs_eval_path.c:45-72 | without restarts the start location is the root or working directory if that can be obtained, else null, whatever is drained first |
| `UserEnv.Environments.TransformToGlobal` | libc/sup_fs_location.c:74-93 | the caller gets one handle, of the new location or of the null location; on a mounted file system the new one can be obtained |
| `UserEnv.Environments.Enter` | libc/chroot.c:55-87 | succeeds if and only if the location is a directory, can be obtained, and a private environment exists or can be made; the handles end in it, and those of the environment before, or on failure the new root's, are handed back |
| `UserEnv.Environments.Chroot` | libc/chroot.c:30-96 | every exit of `chroot` is balanced, with dispatching enabled or not; it succeeds if and only if the evaluation finds a location and its last start location could be obtained, memory suffices, the location is a directory, and a private environment exists or can be made, that is, both global locations can be obtained before the call; failure leaves the environments as they were; on every exit the handles of the evaluation, and on failure that of the new location, are handed back, at once or owed |
| `MallocDeferred.DrainEndsIff` | libc/malloc_deferred.c:41-50 | processing deferred frees ends if and only if the system state is good or nothing is deferred; in a bad state a full cycle of rounds leads back to the start |
| `MallocDeferred.Drained` | libc/malloc_deferred.c:41-50 | draining empties the chain, returns exactly the deferred blocks and leaves the others alone |
| `MallocDeferred.CallKeepsBooks` | libc/realloc.c:30-87 | each call of malloc, free, realloc and the aligned allocators leaves live exactly what the program has in hand; contents survive, also across `realloc` up to the shorter size |
| `MallocDeferred.CallAnswers` | libc/malloc.c:27-73 | each call returns the block that the heap offers or has resized exactly when size and state allow it, else NULL; and a call that goes to the heap for a block leaves nothing deferred |
| `MallocDeferred.BadPointer` | libc/realloc.c:58-61 | a pointer that is not a block's is refused and nothing changes |
| `MallocDeferred.RunsBalance` | libc/malloc_deferred.c:35-57 | over every run under changing system states each block is exactly one of in hand, deferred once, or free, and draining leaves allocated exactly what is in hand |
| `MallocDeferred.Allocator.Free` | libc/free.c:29-52 | back to the heap in a good state, onto the chain in a bad one |
| `MallocDeferred.Allocator.ProcessDeferred` | libc/malloc_deferred.c:41-50 | the loop ends and drains |
| `MallocDeferred.Allocator.Malloc` | libc/malloc.c:27-73 | drains first, then checks size and state |
| `MallocDeferred.Allocator.MemAlign` | libc/rtems_memalign.c:27-67 | each status exactly on its condition; checks the state before it drains, so it always ends |
| `MallocDeferred.Allocator.AllocateAligned` | libc/rtems_malloc.c:29-49 | checks the state before it drains, so it always ends |
| `MallocDeferred.Allocator.Realloc` | libc/realloc.c:30-87 | resizes, or allocates, copies and frees |
| `IopTable.Table.constructor` | libc/libio_init.c:50-56 | the free list is all descriptors in table order |
| `IopTable.Table.Allocate` | libc/libio.c:114-130 | fails if and only if all descriptors are open, else opens the first of the free list; the free list stays acyclic, duplicate-free and exactly the rest of the table |
| `IopTable.Table.Free` | libc/libio.c:132-145 | the descriptor is free again, first on the list, and nothing else changes |
| `IopTable.Table.OpenFiles` | libc/resource_snapshot.c:83-100 | the walk along the links ends and returns the exact number of open descriptors |
| `InCksum.ChainFolds` | include/machine/in_cksum.h:75-80 | along the additions low word plus pending carry stays within 32 bits, so the last carry is never lost |
| `InCksum.AllVariantsAgree` | include/machine/in_cksum.h:67-270 | the five routines return the complement of the one's complement sum of the header's halves, for every header |
| `HeaderForward.RoutinesCompute` | include/machine/in_cksum.h:67-270 | each routine on the byte order of its processor computes the header checksum value |
| `HeaderForward.VerifiesIff` | include/machine/in_cksum.h:67-270 | a header verifies exactly when the one's complement sum of its fields is all ones, on either byte order |
| `HeaderForward.Packet.UpdateChecksum` | include/machine/in_cksum.h:96-102 | adds 256 to the checksum field in one's complement arithmetic |
| `HeaderForward.HopKeepsChecksum` | include/machine/in_cksum.h:172-178 | decrementing the time to live and updating leaves the value of `in_cksum_hdr` as it was, if and only if the time to live was not zero |
| `HeaderForward.HopsKeepChecksum` | include/machine/in_cksum.h:286-291 | so it does over any number of hops that the time to live allows |
| `IfQueue.Queue.Full` | include/net/if_var.h:173-173 | full when the length has reached the maximum |
| `IfQueue.Queue.Enqueue` | include/net/if_var.h:176-184 | the packet is last; head, links, tail and length spell the sequence |
| `IfQueue.Queue.Prepend` | include/net/if_var.h:186-192 | the packet is first; head, links, tail and length spell the sequence |
| `IfQueue.Queue.Dequeue` | include/net/if_var.h:194-202 | the first packet, unlinked, or null exactly when the queue is empty |
| `PrintNum.DigitsReadBack` | libc/vprintk.c:206-211 | the digits read back to the number and have no leading zero |
| `PrintNum.DigitsFit` | libc/vprintk.c:195-196 | at most 22 digits for every 64-bit number in the three bases, so the buffer never overflows |
| `PrintNum.StoreDigits` | libc/vprintk.c:206-211 | the division loop fills the buffer with exactly the digits |
| `PrintNum.EmitDigits` | libc/vprintk.c:216-218 | emits them from the last to the first |
| `PrintNum.Print` | libc/vprintk.c:184-219 | sign, padding and digits; the digits read back to the absolute value in a signed conversion and to the number modulo 2^64 in an unsigned one, and the characters number the larger of the width and sign plus digits |

## Findings

Where the code does not do what it is meant to, the model keeps the code and a theorem gives the exact
condition.

* `realpath` reads one byte behind `left` if and only if the path, or the text of a link it expands,
  has length `PATH_MAX` - 1 and a slash in it (`RealpathLimits.CallOverreadsIff`, `OverreadExample`).
  What such a move brings in lands behind the terminator, so the result is not affected; the model's
  move stops at the end of the buffer.
* `realpath` gives `readlink` a buffer of `PATH_MAX` - 1 bytes and follows a longer target cut off. It
  then can succeed with the wrong file (`RealpathLimits.CutLinkExample`). It reads what resolution
  reads if and only if every followed target is shorter than `PATH_MAX` (`RealpathReadsIff`).
* `realpath` takes "." and ".." behind a component that is no directory, although the comment at
  libc/realpath.c:139-147 expects other checks to cover that. It is right if and only if every such
  token is read in a directory (`RealpathDots.RealpathIsStrictIff`, `FileDotDot`).
* `realpath` follows `MAXSYMLINKS` + 1 links, not `MAXSYMLINKS`: the counter is compared before it
  is incremented (`RealpathLimits.ChainResolvesIff`, `BoundAttained`).
* evaluator: a symbolic link to a missing entry is reported if and only if nothing is behind it in the
  path, not even a delimiter (`EvalPathProps.DanglingLink`, `MissingTargetStandsIff`,
  `TrailingDelimiterIff`; `EvalExamples.DanglingExample`), because the token that the inner evaluation
  leaves behind is overwritten by the next one.
* evaluator: a relative path is evaluated although the root location cannot be obtained any more, and
  then without a root location. `EvalPathProps.EvaluationStaysInside` gives the exact condition for
  staying inside the root location that was obtained. Measured by the one that was asked for, only a
  working directory that is not below it leads out (`EvaluationStaysBelow`;
  `EvalExamples.OutsideExample`).
* unmount: an entry can become ready for unmount without anybody testing it, and `unmount` then waits
  forever (`LocationRuns.LostUnmountExample`). `NoUnmountLostIff` is the exact condition on the steps
  of a run. Restarts, cleanups and `unmount` itself never meet it (`EvalGuards.EvaluationLosesNothing`);
  releasing a parent location can, exactly when it is on another mount than the start and the root
  location of the evaluation (`CleanupWithParentIff`; `EvalExamples.UnguardedExample`).
* `malloc` never returns when it is called with dispatching disabled while frees are deferred
  (`MallocDeferred.DrainEndsIff`): it drains before it checks the state.
* `in_cksum_update` is right without any condition on the version field; only a time to live of
  zero breaks it.
* `printNum` emits the sign before the padding, also when padding with blanks.

## Left out

- Heap internals: the heap is a map from blocks to contents; what it can offer is a parameter.
- Chains, interrupt locks, semaphores and thread dispatching: each locked region is one step, and whether dispatching is enabled is a parameter.
- Races between threads finer than the locked regions of the code.
- Changes of the trees and mount points while a path is evaluated: `parentOf`, `pointOf` and `rootOf` are fixed, so a directory that another thread moves between two restarts is outside the evaluator's model.
- LocationRefinement.QuiescentRunsRelease: is about runs of releases; LocationOrder.GuardedRunsAreSequential covers the other calls.
- LocationOrder.GuardedRunsAreSequential: is about guarded runs; runs in which a thread works on a mount that nothing keeps are covered by LocationProtocol.ReachableAccounts and LocationRuns.ReadyIff only.
- Files linked in two directories: `parentOf` gives a node one parent, so World.Valid takes each link for a node of its own.
- EvalPathProps.EvaluationStaysBelow: takes for granted that the file system of the root location does not come back once it has been unmounted, as `mounted` is only set when an entry is made (libc/file/mount.c:81).
- LocationProtocol.LeaveKeeps: an unmount from the region that finds the entry ready to the end of `do_unmount` is two steps, so the order of the mount point's release and `fsunmount_me_h` inside it is not modelled; neither is the event sent to the unmounting task.
- LocationTable.Table.DoUnmount: models the call with dispatching enabled, where the mount point is released at once; the deferred case is a step of LocationProtocol.
- LocationProtocol.MovingNeverUnmounts: is stated for a copy on the same chain that is not the file system's root, which is what a copy always is.
- UserEnv.Environments.Evaluate: follows the handles of an evaluation only; where its restarts lead is a parameter here, and the evaluator's model.
- UserEnv.Environments.Chroot: `errno` is not part of the model; where the path's restarts lead and whether it finds a location are parameters.
- MallocDeferred.Allocator.MemAlign: alignment is part of what the heap offers.
- MallocDeferred.Allocator.AllocateAligned: alignment and boundary are part of what the heap offers.
- MallocDeferred.Allocator.Malloc: extension of the heap and the dirty helper are part of the offer that the heap makes.
- EvalPathMachine.Context.RestartAt: instance locks are not modelled, and the location chains are followed in LocationProtocol.
- EvalPathMachine.Context.CheckFinal: the permission bits are one answer of the file system for read and one for write.
- IopTable.Table.Free: the release of the descriptor's location is not part of the table.
- Unmounting the root file system: `unmount` would follow the null mount point there; entries without a mount point stay mounted in the model.
- Thin wrappers (chmod, chown, stat, link, symlink, mknod, utime and the reentrant forms): one call each.
- The format parser and string output of `vprintk`, and console output: characters are a sequence here.
- Association look-ups, permission bits, ring buffer and bit-field macros, alignment rounding: they would only add easy members.
- Register and constant headers, start-up, clock, console and network driver code.
- The generic `in_cksum_hdr`, radix tree, header compression, packet filter and MD5: declared in the headers, defined elsewhere.
