# AutoGit, modelled in Dafny

AutoGit keeps Visual Studio solution directories in step with a `git` sibling directory that holds
the repository. For every managed location it can:

- **push**: mirror the working files into the git directory and commit and push them;
- **pull**: pull the repository and mirror it back over the working files;
- **status**: dry-run both directions in check mode and report what each would change;
- **update**: after a status run, perform the direction found to be safe;
- **promote an executable**: copy the newest build output into the solution before a push.

Collisions are tracked and can stop a run. A destination newer than its source counts as a collision. Two kinds exist:

- a data overwrite: the contents differ;
- a time overwrite: only the timestamp differs.

Removals of files that vanished on the other side are tracked the same way. Confirmation is asked in three places:

- a directed push or pull (neither a status run nor an update) first runs a silent check-mode pass and goes on only if that pass counted no collisions or the user confirms;
- in an update, the mirror step that follows a pull which found changes runs the same silent pass and asks the same way;
- a safe move asks only when its status shows changes on both sides. It does not ask about time overwrites.

The model covers:

- **Run options and status record.** `state.hpp` holds the run options and the per-direction status record.
- **Which entries may be touched.** The rules in `access.hpp`: project files, build directories and `.git` are off limits.
- **Executable promotion.** `exe.hpp` copies the most recent executable.
- **The mirror engine.** `move.hpp` covers `perform_move`, `clear_paths`, `find_removables` and `move`.
- **The git step.** `git.hpp` covers status interpretation, the pull, the push and the hard pull.
- **Collision report and confirmation.** These are in `collisions.hpp`.
- **The per-directory driver.** `autogit_directory.hpp` covers command planning, the status and check passes, the verdicts and the safe move.
- **The top-level driver.** `autogit.hpp` covers directory discovery, the collision check, the run over the selected directories and the offer of safe moves.
- **The older driver.** `directory.hpp` is the older revision of the per-directory driver.
- **The first mirror.** `main.cpp` has the first mirror (`check_overwrite`, `move_files`).

How the model represents the system:

- **Filesystem.** The filesystem is a map from paths (sequences of names) to nodes. A node is a directory or a file with contents and a modification time.
- **Host.** What the `qpl` library and the operating system decide is a value of `Environment.Host`:
  - the order of directory listings;
  - the ignore list, looked up by path alone;
  - file comparison;
  - solution and git directory detection.
- **Process state.** The class `Environment.World` holds the process-wide state:
  - the filesystem and the checked set;
  - the running change count;
  - the console input lines;
  - the stream of `git status` outputs;
  - the global history that the older revision's engines write into.
- **Mirror passes.** Each pass is specified by a function over a `Pass` value, and the method that performs the pass is proved to equal that function. Lemmas then state the properties of the function:
  - what is spared;
  - what is removed: every unvisited, touchable top-level destination entry, with its subtree;
  - what is mirrored: every reachable, non-ignored source entry has its destination, holding the source's node or one the comparison in use takes for it.
- **The `git` program.** It appears only as the output lines it prints and the command scripts the model records in `ran`.
- **Ghost logs.** The drivers keep a ghost log (`steps`, `visits`) of the engine invocations they make, so that the ordering, the gating and the read-only guarantees can be stated.

The files read the history of a pass in two ways:

- `move.hpp` and `collisions.hpp` record it in the global `info` namespace;
- `autogit_directory.hpp` reads a per-directory `history_status`.

`history_status` itself is not part of this model. Its fields are inferred from their uses, and the model threads one `History` value through both. `state.hpp` as shown lacks the fields `only_conflicts` and `target_input_directories` that `autogit.hpp` and `autogit_directory.hpp` use, and the field `hard_pull` that `git.hpp` uses; `RunState` carries all three.

## Model

| member | source | states |
|---|---|---|
| State.BeforeIsStrictTotal | src/state.hpp:3-17 | `<` on commands is a strict total order with exe < move < git, and equal ranks mean equal commands |
| State.CommandStringInjective | src/state.hpp:55-62 | distinct commands print distinct labels |
| State.Status.Reset | src/state.hpp:24-29 | after a reset no flag is set, the status is clean and nothing can be executed |
| State.Status.CanExecute | src/state.hpp:47-52 | a direction can execute iff there is no collision and exactly one of local and git changes is pending; just-git-changes implies it; executable is never clean |
| State.Status.BothChanges | src/state.hpp:44-52 | local and git changes together are neither executable nor clean |
| State.Status.Lines | src/state.hpp:30-43 | one report line per set flag, each ending in a newline |
| State.Status.Text | src/state.hpp:30-46 | the report is empty iff the status is clean |
| State.History.Reset | src/autogit_directory.hpp:268-270 | a reset history has no changes and no collisions |
| Access.TwoPartRule | src/access.hpp:10-14 | the two-part split test is the same as "a dot-free stem followed by `.vcxproj`" |
| Access.FiltersRule | src/access.hpp:15-17 | the three-part split test is the same as "a dot-free stem followed by `.vcxproj.filters`" |
| Access.UserRule | src/access.hpp:18-20 | the three-part split test is the same as "a dot-free stem followed by `.vcxproj.user`" |
| Access.RejectedSplitIsProjectFileName | src/access.hpp:9-21 | the name split on dots is rejected iff the name is a project file name |
| Access.CanTouchWorkingFileName | src/access.hpp:9-21 | a file name may be touched iff it is not a project file name |
| Access.CanTouchWorkingFile | src/access.hpp:5-22 | a path may be touched unless it is a file with a project file name |
| Access.CanTouchWorkingDirectory | src/access.hpp:24-40 | a path may be touched unless it is a directory named Debug, Release or x64 |
| Access.CanTouchWorking | src/access.hpp:42-44 | the conjunction of the two working rules |
| Access.GitRuleAdmitsMetadata | src/access.hpp:46-51 | the git-side rule refuses a `.git` directory yet admits every file inside it, and everything else that is not itself a `.git` directory |
| Access.CanTouch | src/access.hpp:53-60 | a push tests the git-side rule and a pull the working-side rule |
| Access.MarkerIsProjectFile | src/access.hpp:66-68 | the listed entry that validates a directory is exactly the file `<name>.vcxproj` |
| Access.ValidWorkingDirectoryMeans | src/access.hpp:62-73 | a directory is a valid working directory iff one of its children is the file `<name>.vcxproj` |
| Access.IsValidWorkingDirectory | src/access.hpp:62-73 | the scan over the listing returns exactly that predicate |
| Environment.World.ReadLine | src/collisions.hpp:50 | reading input consumes the first line, and end of input yields nothing |
| Environment.World.NextReport | src/git.hpp:80 | each git status query consumes one report, and an exhausted stream yields no lines |
| Executable.Candidates | src/exe.hpp:17-20 | four locations are searched, each three levels below the solution's parent |
| Executable.MostRecent | src/exe.hpp:6-30 | the result is none iff no candidate exists; otherwise an existing candidate with the newest timestamp |
| Executable.Promote | src/exe.hpp:32-70 | only the destination entry may change; check mode leaves the filesystem alone; without a push or a candidate nothing happens; an identical copy changes nothing; otherwise it records move changes and, outside check mode, copies the contents |
| Executable.Exe | src/exe.hpp:32-70 | the method's resulting state equals `Promote` |
| Executable.MostRecentFrame | src/exe.hpp:6-30 | writing a non-candidate path does not change the chosen executable |
| Executable.PromoteIdempotent | src/exe.hpp:32-70 | promoting twice has the effect of promoting once |
| Collisions.ActionWord | src/collisions.hpp:7 | "PULL" iff the action is pull, otherwise "PUSH" |
| Collisions.SectionsShape | src/collisions.hpp:6-40 | at most three sections, each non-empty, in the order time, data, removal |
| Collisions.SectionsPresence | src/collisions.hpp:6-40 | a section is printed iff its list is non-empty |
| Collisions.SectionsWording | src/collisions.hpp:18-39 | the WARNING prefix appears iff the section is not the time hint and the run is not in check mode, and every section names the action and lists its entries |
| Collisions.EntryLines | src/collisions.hpp:13-15 | one indented line per entry |
| Collisions.CollisionLines | src/collisions.hpp:6-40 | the report has its computed size and is empty iff there are no collisions |
| Collisions.Answer | src/collisions.hpp:44-59 | the answer consumes lines up to the first y or n and is yes iff that line is y; end of input is no |
| Collisions.AnswerIsFirstDecisiveLine | src/collisions.hpp:44-59 | the answer is decided by the first line that is y or n |
| Collisions.ConfirmCollisions | src/collisions.hpp:42-62 | with no pending changes or in a status run it returns true and reads nothing; otherwise it returns the answer and consumes exactly the lines it read |
| Collisions.Prompt | src/collisions.hpp:44-59 | the prompt loop returns `Answer` of the input and consumes what `Answer` consumed |
| Verdict.StatusOf | src/autogit_directory.hpp:215-222 | a collision is recorded iff there are data overwrites or removals; time overwrites are flagged separately; the change flags are copied |
| Verdict.TimeOverwritesAreBenign | src/autogit_directory.hpp:215-222 | time overwrites alone are not a collision, and the status is then clean iff nothing changed |
| Verdict.VerdictTrichotomy | src/autogit_directory.hpp:231-254 | a safe verdict excludes a conflict and a clean status; otherwise a conflict is exactly an unclean status |
| Verdict.VerdictsExclusive | src/autogit_directory.hpp:234-245 | the safe and overwrite verdicts of a directory exclude each other pairwise |
| Verdict.SafeFlagsNarrowingIsVacuous | src/autogit_directory.hpp:380-386 | narrowing the two flags when both are set never changes them, because both set already means both plain verdicts hold |
| Verdict.SafeDirection | src/autogit_directory.hpp:308-321 | the safe move pushes iff a push verdict holds, pulls iff only a pull verdict holds, and does nothing iff no verdict holds |
| Verdict.SafeMoveHasDirection | src/autogit_directory.hpp:323-325 | a directory offers a safe move iff the safe direction exists |
| Verdict.ConflictString | src/autogit_directory.hpp:255-266 | the two explanations, chosen by which side can execute while the other has only git changes |
| Verdict.ConflictStringExplains | src/autogit_directory.hpp:255-266 | an explained conflict indeed rules out that direction |
| Verdict.BothChangesWasAConflict | src/autogit_directory.hpp:246-254 | an overwrite verdict is a conflict only when the both-changes case is counted |
| Verdict.StatusOfWithoutSeverity | src/directory.hpp:135-141 | the older status: every recorded collision is a collision and time overwrites are not flagged |
| Planning.InsertSorted | src/autogit_directory.hpp:97-110 | inserting into a sorted command list keeps it sorted and adds exactly the element |
| Planning.Sort | src/autogit_directory.hpp:97-110 | the sort result is ordered and is a permutation of the input |
| Planning.SortedUnique | src/autogit_directory.hpp:97-110 | two sorted permutations are equal, so the order does not depend on the sort algorithm |
| Planning.UnsortedCommands | src/autogit_directory.hpp:80-96 | a directory never runs exe from this list; it mirrors iff it is a solution and the location includes local (`both` only without git); it runs git iff it is managed and the location is not local |
| Planning.Commands | src/autogit_directory.hpp:97-119 | a push lists the commands ascending, a pull descending, both as permutations, and the undirected action lists none |
| Planning.SolutionPushOrder | src/autogit_directory.hpp:104-110 | a solution pushes by mirroring first and then running git |
| Planning.SolutionPullOrder | src/autogit_directory.hpp:97-103 | a solution pulls by running git first and then mirroring |
| Files.RemoveTree | src/move.hpp:159-193 | removing a path removes exactly it and everything below it and keeps the rest unchanged |
| Mirror.Classify | src/move.hpp:31-156 | an entry is ignored iff the host ignores it, created iff its destination is missing, and overwritten iff it is a file that differs; the kind of overwrite reflects size, then time, then contents |
| Mirror.Touch | src/move.hpp:30-157 | one entry: only the destination may change and it is marked checked; check mode writes nothing; a change copies the node and records move changes; a collision bumps the count and goes to the time or data list by equal contents |
| Mirror.PerformMove | src/move.hpp:30-157 | the method's resulting state equals `Touch`, and the outcome equals `Classify` |
| Mirror.MoveFile | src/move.hpp:62-156 | the file branch's resulting state equals `Touch` |
| Mirror.OverwriteFile | src/move.hpp:72-142 | the overwrite branch's resulting state equals `Touch` |
| Mirror.RecordCollision | src/move.hpp:79-96 | when looking for collisions, a newer destination counts once and is listed as a time or data overwrite according to its contents |
| Mirror.ClearOne | src/move.hpp:159-193 | a removable path is listed, counted and, outside check mode, removed with its subtree; anything else is left alone |
| Mirror.ClearPath | src/move.hpp:159-193 | the method's resulting state equals `ClearOne` |
| Mirror.ClearAll | src/move.hpp:195-205 | clearing removes only entries below the given paths, lists only unchecked paths among them, and keeps everything else unchanged |
| Mirror.ClearPaths | src/move.hpp:195-205 | the method's resulting state equals the specification of the clearing loop |
| Mirror.Removables | src/move.hpp:207-224 | the removal scan only shrinks the filesystem, never removes a checked path, and writes nothing in check mode |
| Mirror.FindRemovables | src/move.hpp:207-224 | the method's resulting state equals `Removables` over the root's listing |
| Mirror.WalkTree | src/move.hpp:257-285 | walking a subtree marks exactly the destinations of its entries as checked and never shrinks the filesystem |
| Mirror.WalkEntry | src/move.hpp:240-285 | a touchable entry's destination is marked checked |
| Mirror.WalkAll | src/move.hpp:240-285 | the walk over the listing only grows the filesystem and the checked set |
| Mirror.WalkAllMirrors | src/move.hpp:240-285 | the walk keeps every mirror already made; a touchable entry, and everything below it when it is a directory, gets its destination marked and, unless ignored or in check mode, holds the source node or one the comparison takes for it |
| Mirror.WalkDirectory | src/move.hpp:257-285 | the method's resulting state equals `WalkTree` |
| Mirror.MoveEntry | src/move.hpp:240-285 | the method's resulting state equals `WalkEntry` |
| Mirror.WalkListing | src/move.hpp:240-285 | the method's resulting state equals `WalkAll` |
| Mirror.WalkedMirrors | src/move.hpp:240-285 | outside check mode the walk mirrors every non-ignored entry reachable from a touchable top-level source entry, and marks the destinations of it and of all its ancestors |
| Mirror.MoveSpec | src/move.hpp:226-289 | an unmirrored directory is left alone; check mode writes nothing; the pass only extends the history, and no path listed for removal was mirrored |
| Mirror.Move | src/move.hpp:226-289 | the method returns the guard's verdict, and its resulting state equals `MoveSpec` |
| Mirror.MoveMirrorsSources | src/move.hpp:226-289 | after `move`, outside check mode, every non-ignored source entry reachable from a touchable top-level entry has its destination, holding its node or one the comparison takes for it, and the removal pass does not take it away |
| Mirror.MoveRemovesUnvisited | src/move.hpp:207-289 | after `move`, every top-level destination entry the walk did not write, that is not ignored and may be touched, is listed for removal and, outside check mode, gone with its subtree |
| Mirror.RemovablesSpareRejected | src/move.hpp:207-224 | a child of the root that is not listed, or that the destination side may not touch, keeps its whole subtree through the removal scan |
| Mirror.RemovablesSpareVisited | src/move.hpp:207-224 | a path whose every ancestor below the root, and itself, was visited survives the removal scan unchanged |
| Mirror.RemovablesClear | src/move.hpp:207-224 | every listed root entry that was not visited, is not ignored and may be touched is recorded for removal and, outside check mode, removed with its whole subtree |
| Mirror.PushSparesGitMetadata | src/move.hpp:207-224 | a push never removes or lists anything inside the git directory's `.git` |
| Mirror.PullSparesProjectFiles | src/move.hpp:207-224 | a pull never removes the working directory's project files or build directories |
| GitSync.GitRoot | src/git.hpp:12-18 | git runs in the sibling named `git` when it exists, otherwise in the path itself |
| GitSync.PlanFor | src/git.hpp:36-62 | a status run never plans a command that changes the repository |
| GitSync.PullChanges | src/git.hpp:87-95 | a pull sees changes unless the second line says the branch is up to date or ahead, and a one-line output counts as changes |
| GitSync.PushDecision | src/git.hpp:96-112 | a push sees changes unless the tree is clean; a clean tree sees changes iff the branch is ahead; only then, outside a status run, does it plan a bare push |
| GitSync.Runs | src/git.hpp:80-124 | the status script runs first, and a changing command runs only after changes were seen outside a status run |
| GitSync.HardPullClearRemoves | src/git.hpp:63-78 | the hard pull clears exactly the subtrees of the root's entries not named `.git` |
| GitSync.HardPullKeepsGitMetadata | src/git.hpp:63-78 | the hard pull keeps `.git` intact and removes every other child's subtree |
| GitSync.HardPull | src/git.hpp:63-78 | the method's resulting filesystem equals `HardPullClear` |
| GitSync.ReadStatus | src/git.hpp:86-112 | the decision read from the lines equals `Decide` |
| GitSync.Query | src/git.hpp:80-124 | a query consumes one report, runs the planned scripts, and records the decided git changes; no output leaves the history alone |
| GitSync.Git | src/git.hpp:7-125 | a check-mode non-status run does nothing; a hard pull clears the repository; otherwise one query decides and records git changes |
| GitSync.PullUpToDateExample | src/git.hpp:87-95 | "up to date" output means nothing to pull |
| GitSync.PullBehindExample | src/git.hpp:87-95 | "behind" output means changes and runs the pull |
| GitSync.PushAheadExample | src/git.hpp:96-112 | a clean tree that is ahead yields a bare push |
| AutogitDirectories.Forced | src/autogit_directory.hpp:121-136 | exe and move run in check mode whenever the run is a status run, with nothing else changed |
| AutogitDirectories.CollisionState | src/autogit.hpp:60-66 | the collision pre-pass is a silent check-mode search for conflicts that keeps action, location and status |
| AutogitDirectories.Planned | src/autogit_directory.hpp:146-214 | every engine step carries the run's options, including whether it only looks for conflicts; in a status or check run every step is read-only; exe and the undirected move plan nothing |
| AutogitDirectories.PlannedAll | src/autogit_directory.hpp:268-284 | the same for a command list |
| AutogitDirectories.SafeState | src/autogit_directory.hpp:289-316 | the safe move's state differs from the run's only in being a printing, non-status run in the chosen direction |
| AutogitDirectories.PlanRunsAsPlanned | src/autogit_directory.hpp:146-160 | running every command's whole plan is one way of running as planned |
| AutogitDirectories.RanAsPlannedWithoutMoves | src/autogit_directory.hpp:146-160 | without a mirror command, running as planned means running exactly the whole plan, since only a mirror can be refused |
| AutogitDirectories.CommandMain | src/autogit_directory.hpp:146-160 | in a real update one command adds, apart from its collision pass, exactly its plan, or nothing when the confirmation before a mirror is refused |
| AutogitDirectories.DirectoryName | src/autogit_directory.hpp:47-69 | the display name is the path's name, or its parent's when the path is the `git` directory |
| AutogitDirectories.DirectoryKinds | src/autogit_directory.hpp:23-34 | a directory is empty iff it has no git path, and the git, solution and solution-without-git kinds exclude each other |
| AutogitDirectories.ExeEffect | src/autogit_directory.hpp:121-128 | on the globals the promotion keeps the checked set, the tally and the reports, and in check mode or a status run it writes nothing |
| AutogitDirectories.MoveEffect | src/autogit_directory.hpp:129-136 | on the globals the mirror keeps the reports, and in check mode or a status run it writes nothing |
| AutogitDirectories.GitEffect | src/autogit_directory.hpp:137-144 | on the globals the git command keeps the checked set and the tally, and in check mode or a status run it writes nothing |
| AutogitDirectories.CommandsEffectReadOnly | src/autogit_directory.hpp:268-284 | commands run in check mode or in a status run leave the filesystem as it was |
| AutogitDirectories.StatusPassQueries | src/autogit_directory.hpp:346-355 | a status pass keeps the filesystem and adds only read-only steps of status runs |
| AutogitDirectories.StatusRunPassesQueries | src/autogit_directory.hpp:336-372 | all status passes of an undirected run, reruns included, keep the filesystem and add only read-only steps of status runs |
| AutogitDirectories.AutogitDirectory.SetPath | src/autogit_directory.hpp:47-69 | the paths come from classifying the location; statuses are clean and flags cleared |
| AutogitDirectories.AutogitDirectory.ActivePath | src/autogit_directory.hpp:70-78 | the active path is empty iff the directory is, otherwise the git or the solution path by kind |
| AutogitDirectories.AutogitDirectory.PerformExe | src/autogit_directory.hpp:121-128 | it promotes the executable under the forced state, except at the git location; its effect on the filesystem, checked set, tally, reports and history is `ExeEffect` |
| AutogitDirectories.AutogitDirectory.PerformMove | src/autogit_directory.hpp:129-136 | it runs `MoveSpec` under the forced state, except at the git location; its effect on the globals is `MoveEffect` |
| AutogitDirectories.AutogitDirectory.PerformGit | src/autogit_directory.hpp:137-144 | skipped for the local location; otherwise a check-mode non-status run changes nothing, a hard pull clears the repository and keeps the history, and a query consumes one report and sets the git flag to the decision read from it, or keeps the history when the output is empty; `pulled` is set once a pull found changes; its effect on the globals is `GitEffect` |
| AutogitDirectories.AutogitDirectory.ExecuteCommand | src/autogit_directory.hpp:146-214 | an ungated command runs its plan and changes the globals as `CommandEffect` says (a pull mirrors then promotes, a push promotes then mirrors); a gated one runs the collision pass first and proceeds only on confirmation; status and check runs leave files alone; input is read only from the front |
| AutogitDirectories.AutogitDirectory.DetermineStatus | src/autogit_directory.hpp:223-230 | the status of the run's direction becomes `StatusOf` the history and the other is kept |
| AutogitDirectories.AutogitDirectory.RunCommands | src/autogit_directory.hpp:270-283 | outside a real update the steps are exactly the plan of the command list; in a real update the steps other than collision passes are that plan, less the steps of any mirror whose confirmation was refused; every step carries the run's options; an empty list keeps the history; outside a real update the globals end as `CommandsEffect`, the commands' effects in turn; input is read only from the front |
| AutogitDirectories.AutogitDirectory.ExecuteAll | src/autogit_directory.hpp:268-284 | the history is reset, the commands run in order with the same guarantee about their plan, and the direction's status becomes `StatusOf` the history; outside a real update the globals are `PassEffect`, the commands' effects from a cleared history; input is read only from the front |
| AutogitDirectories.AutogitDirectory.PerformSafeMove | src/autogit_directory.hpp:285-322 | nothing happens without a safe move, or when both sides changed and the answer is no; otherwise it runs the safe direction's plan with status off and printing on, all of it outside a real update and, in a real update, all of it except the steps of a mirror whose collision confirmation is refused; input is read only from the front |
| AutogitDirectories.AutogitDirectory.MoveInSafeDirection | src/autogit_directory.hpp:308-321 | with no safe direction nothing runs; otherwise the safe direction's commands run under the safe state: the whole plan outside a real update, and as planned in one |
| AutogitDirectories.AutogitDirectory.SafeMoveTo | src/autogit_directory.hpp:308-321 | the move in one direction runs that direction's sorted commands under the safe state, with the same guarantee about their plan |
| AutogitDirectories.AutogitDirectory.StatusPass | src/autogit_directory.hpp:346-355 | one check-mode status pass writes nothing, reads no input and only queries; its globals, statuses and steps are `StatusPassEffect`: the direction's commands run from a cleared history, `StatusOf` that history becomes the direction's status and the other status is kept |
| AutogitDirectories.AutogitDirectory.StatusPasses | src/autogit_directory.hpp:346-372 | the passes run in check mode with status and collision search on, printing exactly when the run is a status run; their outcome is `StatusPassesEffect`: push, then pull, then the reruns; they write nothing, only query, and read no input |
| AutogitDirectories.AutogitDirectory.FirstPasses | src/autogit_directory.hpp:351-354 | the push pass and then the pull pass, each as `StatusPassEffect` |
| AutogitDirectories.AutogitDirectory.Reruns | src/autogit_directory.hpp:357-372 | when the run does not print, the push pass runs again iff the push status shows time overwrites, then the pull pass iff the pull status does; the outcome is `RerunsEffect`, and no rerun is undirected |
| AutogitDirectories.AutogitDirectory.PassesAndVerdict | src/autogit_directory.hpp:346-411 | without update the outcome is that of the status passes, `StatusPassesEffect`, and the safe flags are the verdict of its statuses; with update the safe move those statuses allow follows |
| AutogitDirectories.AutogitDirectory.RecordSafeFlags | src/autogit_directory.hpp:374-386 | the safe flags are the verdicts, and each implies its direction's verdict |
| AutogitDirectories.AutogitDirectory.Execute | src/autogit_directory.hpp:326-425 | an empty directory is untouched; the statuses are reset first; an undirected status or update run ends, without update, in exactly the state `StatusRunPasses` computes from the reset statuses, with the safe flags the verdict of those statuses, and with update makes the safe move they allow; a directed run executes its sorted commands, its globals being `PassEffect` outside a real update, and in a real update it runs as planned; only an update reads input, from the front; check mode writes nothing |
| AutogitDirectories.AutogitDirectory.DirectedRun | src/autogit_directory.hpp:413-423 | a directed run executes `Commands(st)` in order: the whole plan outside a real update, and in a real update the plan less the steps of any mirror whose confirmation is refused; only a real update reads input; outside a real update the globals are `PassEffect`; input is read only from the front |
| AutogitDirectories.AutogitDirectory.StatusRun | src/autogit_directory.hpp:336-411 | with no commands in either direction nothing runs; otherwise, without update, the globals, statuses and steps are `StatusRunPasses` (the passes and their reruns) and the safe flags their verdict; with update, the safe flags are the verdict of the statuses those passes compute and the safe move they allow follows: nothing without a verdict or after a refused prompt, otherwise the safe direction's plan, less only the steps of a refused mirror in a real update; only an update reads input, from the front |
| AutogitDirectories.AutogitDirectory.VerdictAndMove | src/autogit_directory.hpp:374-411 | the safe flags become the verdict of the statuses the passes left; without update nothing else changes; with update the safe move they allow follows, with the caller's check mode restored |
| AutogitDirectories.AutogitDirectory.MoveAfterPasses | src/autogit_directory.hpp:407-410 | when the safe flags are the verdict of the statuses, what follows is the safe move those statuses allow, after the question when both sides changed |
| Autogit.LocationPath | src/autogit.hpp:45-50 | the split path joins back to the configured location |
| Autogit.FoundAreManaged | src/autogit.hpp:9-31 | every discovered directory is managed, not commented out, and lies at or below the search root |
| Autogit.FoundAllAreManaged | src/autogit.hpp:22-25 | the same for a listing, each result coming from one entry |
| Autogit.FoundNotNested | src/autogit.hpp:18-30 | discovery never returns one directory nested in another |
| Autogit.SelectedMeans | src/autogit.hpp:52-59 | a directory is run iff it is selected by the target list, and with no targets every directory runs |
| Autogit.CountMatchesMovers | src/autogit.hpp:84-89 | the counted safe moves are the directories later moved |
| Autogit.ListedWordAsWrittenMisleads | src/autogit.hpp:106 | when both directions are safe the list says "pull" while the move pushes |
| Autogit.ListedWordNamesDirection | src/autogit.hpp:106 | the corrected word always names the direction the safe move takes |
| Autogit.OfferReadConsumed | src/autogit.hpp:90-131 | the offer reads only from the front of the input |
| Autogit.Autogit.FindDirectory | src/autogit.hpp:9-31 | it appends exactly the directories discovered below the path |
| Autogit.Autogit.SearchEntries | src/autogit.hpp:22-25 | the recursion over a listing appends exactly what each entry discovers |
| Autogit.Autogit.FindDirectories | src/autogit.hpp:45-50 | the directory list is exactly what the locations discover |
| Autogit.Autogit.ExecuteNoCollisions | src/autogit.hpp:52-59 | each selected directory runs once, in order, and unselected ones are unchanged; outside an update no input is read; input is read only from the front |
| Autogit.Autogit.ExecuteCheckCollisions | src/autogit.hpp:60-70 | the collision pre-pass runs every selected directory in check mode and writes nothing; `found` is the change tally it leaves, and the log records `Confirm(found, ok)` after its runs; outside an update `ok` holds iff `found` is zero, the run is a status run, or the operator answers yes, and exactly the answer's lines are read |
| Autogit.Autogit.CountSafeMoves | src/autogit.hpp:84-89 | the count equals the number of movable directories |
| Autogit.Autogit.ListSafeMoves | src/autogit.hpp:102-109 | one word per directory that can do a safe move, in directory order: "pull" whenever its safe pull is allowed and "push" otherwise, as written (see Findings) |
| Autogit.Autogit.OfferSafeMoves | src/autogit.hpp:84-131 | on yes exactly the movable directories move in order; on no nothing happens; with nothing movable no input is read, otherwise the answer's lines are read and only an accepted offer reads on (`OfferRead`); which directories can move does not change |
| Autogit.Autogit.AskAndMove | src/autogit.hpp:93-130 | the answer's lines are read; on yes the movable directories move in order, on no nothing changes |
| Autogit.Autogit.PerformSafeMoves | src/autogit.hpp:123-130 | the movable directories are moved in order; input is read only from the front |
| Autogit.Autogit.Execute | src/autogit.hpp:72-144 | a directed run without status or update logs the collision pass, then `Confirm(found, confirmed)` with `confirmed` iff the tally is zero or the answer is yes, then the selected directories iff confirmed, reading only the answer's lines; a status run of both directions visits the selected directories, `asked` being what they leave of the input (all of it outside an update), and then, iff some directory can move and the answer to `asked` is yes, exactly the movable ones move with update set, the offer reading as `OfferRead` says |
| Autogit.Autogit.StatusRunAll | src/autogit.hpp:81-131 | the selected directories run, leaving `asked`, a suffix of the input and all of it outside an update; then exactly the movable ones move, in order, iff there is one and the answer to `asked` is yes, the offer reading as `OfferRead` says; nothing else is visited |
| Directories.AllCommands | src/directory.hpp:67-75 | a git directory runs git; a solution runs exe, move and git; anything else runs nothing |
| Directories.CommandsFor | src/directory.hpp:76-98 | push ascending, pull descending, both permutations; the undirected action lists nothing |
| Directories.SolutionOrders | src/directory.hpp:76-89 | a solution pushes exe, move, git and pulls git, move, exe |
| Directories.CommandSteps | src/directory.hpp:122-134 | every step carries the run's options, read-only in status or check runs |
| Directories.InactiveCommandsTakeNoStep | src/directory.hpp:208-221 | a command the location does not activate takes no step, except exe on a pull |
| Directories.UpdateAgreesWithSafeDirection | src/directory.hpp:274-298 | the older update picks the same direction as the later safe move, never moves when both sides changed, and stays put only without a plain verdict |
| Directories.Directory.SetPath | src/directory.hpp:38-56 | the paths come from classifying the location; statuses are clean |
| Directories.Directory.ActivePath | src/directory.hpp:57-65 | the active path is empty iff the directory is, otherwise the git or the solution path |
| Directories.Directory.Exe | src/directory.hpp:100-107 | it promotes the executable under the forced state, accumulating into the global history; on the globals it is `ExeEffect` |
| Directories.Directory.Move | src/directory.hpp:108-115 | it runs `MoveSpec` under the forced state, accumulating into the global history; on the globals it is `MoveEffect` |
| Directories.Directory.Git | src/directory.hpp:116-120 | skipped for the local location; otherwise a check-mode non-status run changes nothing, a hard pull clears the repository, and a query consumes one report and sets the global git flag to the decision read from it, or keeps the history when the output is empty; on the globals it is `GitEffect` |
| Directories.Directory.ExecuteCommand | src/directory.hpp:122-134 | the steps are the command's plan, and the globals change as `CommandOnGlobals`: promotion, mirror or git |
| Directories.Directory.AnyActiveCommands | src/directory.hpp:222-229 | the scan returns whether any command is active |
| Directories.Directory.DetermineStatus | src/directory.hpp:142-149 | the direction's status is recomputed from the global history |
| Directories.Directory.ExecuteAll | src/directory.hpp:196-206 | with no active command nothing happens; otherwise the globals are the commands' effects from a cleared global history and the direction's status is recomputed from it |
| Directories.Directory.RunCommands | src/directory.hpp:202-204 | the steps are the plans of the commands in the given order, and status or check runs leave files alone; the globals are `CommandsOnGlobals`, the commands' effects in turn |
| Directories.Directory.CheckPass | src/directory.hpp:249-252 | a check pass writes nothing, its steps are those of its direction's commands when any is active and none otherwise, and its outcome is `PassOutcome` |
| Directories.Directory.OnePass | src/directory.hpp:196-206 | the outcome of a pass is `PassOutcome`: nothing unless a command is active, otherwise the commands from a cleared history, whose status becomes the direction's |
| Directories.Directory.PassOutcome | src/directory.hpp:196-206 | a pass appends exactly the steps of its direction's commands when any is active |
| Directories.Directory.PassOutcomeKeepsFs | src/directory.hpp:249-252 | a check-mode pass leaves the filesystem as it was |
| Directories.Directory.StatusRoundsKeepFs | src/directory.hpp:244-270 | the status rounds, rerun included, leave the filesystem as they found it |
| Directories.Directory.StatusPasses | src/directory.hpp:244-270 | a round of pull then push in silent check mode, whose statuses are `firstPush` and `firstPull` as `RoundOutcome` computes them, and a second identical round exactly when those statuses can neither push nor pull and show a conflict; the outcome is `StatusRounds` |
| Directories.Directory.StatusRound | src/directory.hpp:249-252 | one round takes the pull pass's steps and then the push pass's, writing nothing; its outcome is `RoundOutcome` |
| Directories.Directory.UpdatePass | src/directory.hpp:274-298 | the update runs in the direction the statuses allow, push first, or does nothing when neither is allowed; its outcome is `UpdateOutcome` |
| Directories.Directory.UpdateIn | src/directory.hpp:276-297 | the update pass prints, every step carries its direction, and its outcome is `PassOutcome` |
| Directories.Directory.UndirectedRun | src/directory.hpp:240-299 | the outcome is `UndirectedOutcome`: the status rounds, then on update the pass their statuses allow; read-only passes followed by at most one direction |
| Directories.Directory.Execute | src/directory.hpp:231-311 | an empty directory is untouched; the statuses are reset; a directed run's outcome is one pass, `PassOutcome`; the undirected run's is `UndirectedOutcome` from the reset statuses, read-only passes followed by at most one direction |
| LegacyMirror.Overwrite | src/main.cpp:4-40 | only the destination changes; an existing directory or an identical file is left alone; a file's contents are mirrored |
| LegacyMirror.Check | src/main.cpp:4-40 | the destination is marked checked, and only git-side entries change |
| LegacyMirror.CheckOverwrite | src/main.cpp:4-40 | the method's resulting state equals `Check` |
| LegacyMirror.MirroredIsCanTouchWorking | src/main.cpp:50-62 | the legacy filter is the working-side touch rule |
| LegacyMirror.WalkEntry | src/main.cpp:84-90 | a mirrored entry's destination exists and is checked; any other entry changes nothing |
| LegacyMirror.MoveEntry | src/main.cpp:84-90 | the method's resulting state equals `WalkEntry` |
| LegacyMirror.WalkAllVisits | src/main.cpp:84-90 | every mirrored entry of the listing ends up checked and present |
| LegacyMirror.RemovesMetadataAsWritten | src/main.cpp:97-112 | the as-written removal deletes `git/.git/HEAD` when it was not visited |
| LegacyMirror.RemoveStaleKeepsMetadata | src/main.cpp:97-112 | the corrected removal keeps everything inside `.git` |
| LegacyMirror.RemoveStaleKeepsVisited | src/main.cpp:97-112 | a visited path is never removed |
| LegacyMirror.RemoveStaleRemoves | src/main.cpp:97-112 | the pass, with the test as written or as intended, removes every listed path that its test does not spare |
| LegacyMirror.MoveFilesKeepsMetadata | src/main.cpp:97-112 | with the intended test, a whole run keeps everything inside the repository's `.git` |
| LegacyMirror.MoveFilesRemovesMetadata | src/main.cpp:97-112 | as written, a whole run deletes every file inside the repository's `.git` that the walk did not write |
| LegacyMirror.MoveFilesMirrorsEntries | src/main.cpp:42-113 | every mirrored top-level entry exists in the git directory after a run, as written and as intended |
| LegacyMirror.MoveFilesRemovesStale | src/main.cpp:42-113 | as written, no unvisited path of the git directory survives a run unless it is itself a directory named `.git` |
| LegacyMirror.MoveFilesCorrectedRemovesStale | src/main.cpp:42-113 | with the intended test, no unvisited path survives outside the repository's `.git` and the nested `.git` directories |
| LegacyMirror.MoveFiles | src/main.cpp:42-113 | the method's resulting filesystem equals `MoveFilesSpec`, the run as written |

## Left out

- Console output: colours, the collision listings' wording beyond their line structure, `print`, `time_diff_string` and the ten-second timer. None of it affects the outcome.
- The `qpl` library is represented by `Environment.Host`. Its listing order, ignore list, file comparisons and solution or git directory detection are parameters. `ValidHost` only says that listings enumerate children and subtrees.
- Batch files, the `cd /D` prefix and `output.txt` are left out. `git` is represented by the output lines it prints and by the scripts the model records in `ran`.
- Paths are sequences of names. Trailing backslashes and drive letters do not appear.
- A closed console input counts as the answer "n".
- `main()` and the configuration it reads are left out, as are `history_status::command_reset` and `any_output`, which only steer printing.
- `copy` and `copy_overwrite` copy the whole node, including its modification time.
- `ensure_branches_exist` creates only the destination entry, not missing intermediate directories.
- The older revision in `directory.hpp` calls `exe`, `move` and `git` without a history argument. The model has them write into `World.info`, the global history.
- Autogit.Autogit.Execute: repeated prompts are folded into one `Answer` over the remaining input lines.
- Autogit.Autogit.Execute: the tally that decides the collision confirmation is the change count the collision pass leaves in `World.totalChangeSum`. The driver does not sum it up from the directories' passes; each directory's `Execute` states its own pass's effect on it.
- Autogit.Autogit.ExecuteCheckCollisions: the same holds for `found`.
- AutogitDirectories.AutogitDirectory.Execute: in an update run the input is stated only to be read from the front. How many lines the confirmations inside a real update read is not stated.
- Autogit.Autogit.StatusRunAll: in an update run `asked` is stated only to be a suffix of the input, for the same reason.
- LegacyMirror.MoveFilesMirrorsEntries: requires that the mirrored directory is not itself named `git`. In that case the legacy tool mirrors into its own tree.
- LegacyMirror.MoveFiles: file contents are tracked per step (`Overwrite`), but the whole-run lemmas state presence and absence only.
- Mirror.Touch: the `any_output` flag is not modelled, because it only decides whether an empty line is printed.
- Strings.Split, Access.FileStem and Access.FileExtension are assumptions about `qpl`, whose source is not part of this model: `split_string` is taken to keep empty segments, and the file-name helpers to split at the last dot.
- Mirror.MoveMirrorsSources: assumes the directory is not the filesystem root and is not itself named `git`, and that every ancestor of the entry from the top-level entry down exists. For a file the destination is promised to hold the source's node, or one that the comparison in use (sizes, times or contents) takes for it.
- Mirror.MoveRemovesUnvisited: speaks of the top-level entries of the destination root; deeper entries are covered only through the subtree of their top-level entry.
- LegacyMirror.MoveFiles: follows the removal test as written. The run with the intended test is `MoveFilesCorrected`, which only the lemmas use.
- `info::total_reset` is not modelled, because nothing in the modelled files calls it.
- The ignore list held by `qpl` is looked up by path alone. A change of the filesystem during a run does not change what is ignored.

## Findings

| source | as written | input that shows it | evidently intended | confidence | as-written member | corrected member |
|---|---|---|---|---|---|---|
| src/autogit.hpp:106 | the list of safe moves says "pull" whenever `can_safely_pull` is set | push and pull statuses both with local changes only: both flags are set, and `perform_safe_move` pushes | the listed word names the direction the move takes | not executed | Autogit.ListedWordAsWrittenMisleads | Autogit.ListedWordNamesDirection |
| src/main.cpp:97-112 | the removal pass deletes every unvisited path under the git directory that passes `can_touch_git_directory`, which tests only the `.git` directory itself | a git directory holding `git/.git/HEAD` with nothing visited: `HEAD` is a file, so it passes and is removed | the repository metadata under `.git` is kept | not executed | LegacyMirror.RemovesMetadataAsWritten | LegacyMirror.MoveFilesKeepsMetadata |
