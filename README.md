# Embabel coding agent: the deterministic core, in Dafny

The embabel coding agent changes a software project through an LLM. Around
each LLM call sits deterministic scaffolding, and this project models it:

- the Coder agent's four conditions (build needed, build was the last
  action, build succeeded, build failed), its catalogue of actions with their
  declared guards, costs and rerun flags, and the bodies of its steps:
  modify, fix and share;
- the log entries (request, report, completed modification) with the
  completion's running time and content text;
- the append-only JSONL audit log that a project keeps at
  `.embabel/log.jsonl`;
- the two task-focus components, the shell commands that report and set the
  focus, and the creation of a new agent project with the external
  `project-creator` tool;
- the repository that loads one project per `pom.xml` found under a root.

Each Kotlin source file maps to one Dafny module:

| Kotlin source | Dafny module (file) |
|---|---|
| agent/Coder.kt | `CoderAgent` (coder.dfy) |
| domain/CodeModification.kt | `CodeModification` (code_modification.dfy) |
| agent/support/InProjectLogWriter.kt | `InProjectLogWriter` (in_project_log_writer.dfy) |
| agent/TaskFocus.kt | `AgentTaskFocus` (agent_task_focus.dfy) |
| domain/TaskFocus.kt | `DomainTaskFocus` (domain_task_focus.dfy) |
| agent/CodingCommands.kt | `CodingCommands` (coding_commands.dfy) |
| agent/AgentProjectCreator.kt | `AgentProjectCreator` (agent_project_creator.dfy) |
| domain/FromDiskSoftwareProjectRepository.kt | `ProjectRepository` (project_repository.dfy) |

Three supporting modules sit under them:

- `SoftwareProjects` (software_projects.dfy) models the `SoftwareProject`
  type that the core uses but whose definition is not part of this model. It
  holds the descriptive value (a datatype) and the mutable working tree: a
  class with a file map and the ordered set of paths changed since the last
  flush.
- `Strings` (strings.dfy) models the Kotlin string operations the core
  relies on: `contains`, `replace(pat, "")`, integer printing, line
  splitting and joining, and lexicographic order.
- `Wrappers` (wrappers.dfy) holds `Option` and `Result`.

Mutable objects become classes whose methods carry `modifies` clauses. Each
method is proved against a pure function, and the properties are proved as
lemmas about those functions. Nullable values become `Option`. In the
project creator, the exceptions that `invokeProjectCreatorWithArgs` and
`executeCommand` throw become `Result` errors; elsewhere, collaborators are
assumed not to throw (see "## Left out").

Everything nondeterministic or external becomes a parameter:

- the LLM's text, and the file writes its tools make;
- the JSON serialiser, a function from log entry to text;
- the clock: instants are integers of nanoseconds;
- generated request ids;
- the disk search for `pom.xml`;
- the outcome of running a process.

The model follows the code as written. Points where the code may surprise a
reader:

- **Build conditions.** `buildSucceeded` and `buildFailed` take the
  `BuildResult` that the framework binds, not the last step's result. So
  `BuildSucceeded` and `BuildFailed` are predicates over a `BuildResult`.
  `ConditionHolds` receives that bound result separately from the last
  result. Once a build has succeeded, a later report (a modify or fix step)
  leaves BUILD_SUCCEEDED true through that old bound build, so the share is
  then enabled together with both builds; `EnabledAfterReport` states this.
- **Running time.** `shareCodeModificationReport` builds the completion
  with a *fresh* `CodeModificationRequest(report.text)`, not the user's
  request. Its running time therefore starts when the share step builds that
  request.
- **Files changed.** Each modify or fix step flushes the change set first, so
  a completion lists only the files of the last step before it. After modify,
  a failed build, fix and share, it lists the fix's files only; the
  `ModifyFixAndShare` contract states this.
- **Exit code.** `createProject` throws away the `ProcessResult`. A tool
  that exits with a non-zero code still yields the created project.
  `CreateProject` and `ExitedRunGivesResult` state this.
- **Timeout.** In `executeCommand`, the timeout exception is raised inside
  the `try` and re-wrapped by the `catch`. All failures of a run therefore
  surface as "Failed to execute command: <command joined by spaces>", with the
  timeout or the process fault as the cause.
- **Project roots.** `replace("pom.xml", "")` removes every occurrence, not
  only the file name. A directory whose name contains "pom.xml" is mangled
  too: the path "pom.xml-d/pom.xml" gives the root "-d/"
  (`PomInDirectoryName`).
- **Created flag.** The definition of `SoftwareProject` is not part of this
  model. Projects loaded from disk leave `wasCreated` to its default, which
  the model takes to be false, since `createProject` is the one caller that
  sets it (to true).
- **Which focus.** `Coder` and `CodingCommands` sit in the `agent`
  package, so they use the `agent` `TaskFocus`. `AgentProjectCreator`
  imports the `domain` one. So `createAgentProject` switches the `domain`
  focus only: `loadExistingProject` and the `focus` command still show the
  `agent` focus, which the new project does not change.

## Model

| member | source | states |
|---|---|---|
| CoderAgent.ConditionKeysDistinct | src/main/kotlin/com/embabel/coding/agent/Coder.kt:36-41 | the four condition names have four distinct keys |
| CoderAgent.BuildNeeded | src/main/kotlin/com/embabel/coding/agent/Coder.kt:134-139 | holds for every report, holds for a project exactly when it was just created, and for no other kind of last result, none at all included |
| CoderAgent.BuildWasLastAction | src/main/kotlin/com/embabel/coding/agent/Coder.kt:145-147 | holds exactly when the last result is a build result, which never also asks for a build |
| CoderAgent.BuildSucceeded | src/main/kotlin/com/embabel/coding/agent/Coder.kt:153-154 | false without a status; with a status, exactly its success flag |
| CoderAgent.BuildFailed | src/main/kotlin/com/embabel/coding/agent/Coder.kt:160-161 | false without a status; with a status, exactly the negation of its success flag |
| CoderAgent.BuildVerdicts | src/main/kotlin/com/embabel/coding/agent/Coder.kt:153-161 | build succeeded and build failed never hold together; both are false without a status; with a status exactly one holds |
| CoderAgent.NoBuildAfterBuild | src/main/kotlin/com/embabel/coding/agent/Coder.kt:134-147 | a build result never makes a build needed, and always makes "build was last action" hold, whatever its status |
| CoderAgent.BuildsShareGuards | src/main/kotlin/com/embabel/coding/agent/Coder.kt:97-128 | `build` and `buildWithCommand` share pre BUILD_NEEDED, post BUILD_SUCCEEDED and rerunnability; `build` (500) is strictly cheaper than `buildWithCommand` (10000) |
| CoderAgent.FixAndShareGuards | src/main/kotlin/com/embabel/coding/agent/Coder.kt:65-272 | `fixBrokenBuild` needs BUILD_FAILED and BUILD_WAS_LAST_ACTION; `shareCodeModificationReport` needs only BUILD_SUCCEEDED; of the seven actions, exactly the two builds, `modifyProject` and `fixBrokenBuild` declare `canRerun = true` |
| CoderAgent.EnabledAfterBuild | src/main/kotlin/com/embabel/coding/agent/Coder.kt:120-161 | right after a build no build is enabled; the fix is enabled iff that build failed, the share iff it succeeded, never both |
| CoderAgent.EnabledAfterReport | src/main/kotlin/com/embabel/coding/agent/Coder.kt:134-161 | after a report or a freshly created project both builds are enabled and the fix is not; when the bound build is an earlier successful one, the share is enabled too |
| CoderAgent.Coder.constructor | src/main/kotlin/com/embabel/coding/agent/Coder.kt:57-61 | the agent keeps the task focus and the log writer it is given; `coderProperties` only configures the LLM calls, which are left out |
| CoderAgent.DeclaredPostsHold | src/main/kotlin/com/embabel/coding/agent/Coder.kt:120-125 | the BUILD_NEEDED that `modifyProject` declares holds of its report, and a successful build meets its declared BUILD_SUCCEEDED; the BUILD_SUCCEEDED that `fixBrokenBuild` declares (line 228) does not yet hold right after it, while the bound build is the failed one |
| CoderAgent.Coder.LoadExistingProject | src/main/kotlin/com/embabel/coding/agent/Coder.kt:65-69 | returns the current focus, possibly none |
| CoderAgent.Coder.ModifyProject | src/main/kotlin/com/embabel/coding/agent/Coder.kt:167-218 | logs the request only when exactly one request has been seen, flushes, applies the LLM's writes; the report has the LLM's text and exactly the paths written after the flush, in first-write order; a build is then needed |
| CoderAgent.Coder.FixBrokenBuild | src/main/kotlin/com/embabel/coding/agent/Coder.kt:225-265 | flushes, applies the LLM's writes, reports exactly the paths written after the flush; a build is needed again; the log is not touched |
| CoderAgent.Coder.ShareCodeModificationReport | src/main/kotlin/com/embabel/coding/agent/Coder.kt:272-297 | the completion carries the input report unchanged, a request whose text is the report text, and the commit message; it is appended to the log exactly once |
| CoderAgent.Coder.ModifyFixAndShare | src/main/kotlin/com/embabel/coding/agent/Coder.kt:182-186 | over modify (first request), fix and share, a log that started empty ends up holding exactly two lines: the request, then the completion |
| CoderAgent.Coder.CycleLog | src/main/kotlin/com/embabel/coding/agent/Coder.kt:182-186 | on the files alone: logging the request, two rounds of writes that miss the log, and logging the completion leave a log that started empty holding exactly the request line, then the completion line |
| CodeModification.SuccessfulCodeModification.RunningTime | src/main/kotlin/com/embabel/coding/domain/CodeModification.kt:32-33 | request timestamp plus running time equals the completion timestamp; the time is negative only if the request is later |
| CodeModification.WholeSeconds | src/main/kotlin/com/embabel/coding/domain/CodeModification.kt:36 | `Duration.seconds`: the floor of the nanoseconds divided by 10^9 |
| CodeModification.SuccessfulCodeModification.Content | src/main/kotlin/com/embabel/coding/domain/CodeModification.kt:35-36 | the content starts with "Code modification completed in " and ends with the report text |
| CodeModification.CodeModificationReport.Content | src/main/kotlin/com/embabel/coding/domain/CodeModification.kt:61-62 | a report's content is its text |
| CodeModification.ContentRoundTrip | src/main/kotlin/com/embabel/coding/domain/CodeModification.kt:35-36 | the completion content starts with "Code modification completed in ", the whole seconds can be read back out of it, it ends with the report's content, its length is exactly that of the prefix, the printed seconds, " seconds" plus a newline, and the report text, and it starts with the prefix, the seconds exactly as `Long.toString` prints them, and " seconds" plus a newline |
| CodeModification.ReportedSecondsExact | src/main/kotlin/com/embabel/coding/domain/CodeModification.kt:35-36 | a figure read back is printed there exactly: the text starts with the prefix, the printed figure, and " seconds" plus a newline |
| InProjectLogWriter.InProjectLogWriter.constructor | src/main/kotlin/com/embabel/coding/agent/support/InProjectLogWriter.kt:14-17 | the log path defaults to ".embabel/log.jsonl" |
| InProjectLogWriter.InProjectLogWriter.LogRequest | src/main/kotlin/com/embabel/coding/agent/support/InProjectLogWriter.kt:19-29 | appends exactly the serialised request plus a newline to the log path, creating the file if missing; no other file changes |
| InProjectLogWriter.InProjectLogWriter.LogResponse | src/main/kotlin/com/embabel/coding/agent/support/InProjectLogWriter.kt:31-37 | appends exactly the serialised completion plus a newline to the same path; no other file changes |
| InProjectLogWriter.AppendAddsOneLine | src/main/kotlin/com/embabel/coding/agent/support/InProjectLogWriter.kt:23-28 | the old log is a prefix of the new one; when the serialised entry holds no newline, the log then splits into the old lines followed by exactly that entry |
| InProjectLogWriter.JsonLineShape | src/main/kotlin/com/embabel/coding/agent/support/InProjectLogWriter.kt:23 | `JsonLine` is the serialised entry with one newline added at its end; a newline-free entry gives a line whose only newline is that one |
| SoftwareProjects.FindByRoot | src/main/kotlin/com/embabel/coding/domain/TaskFocus.kt:25 | the first project in list order whose root contains the name; none exactly when no root contains it |
| SoftwareProjects.FirstIndexContaining | src/main/kotlin/com/embabel/coding/domain/TaskFocus.kt:25 | the first index whose root contains the name; no earlier root contains it |
| SoftwareProjects.FindEmptyNameIsFirst | src/main/kotlin/com/embabel/coding/agent/TaskFocus.kt:38 | an empty name matches the first project of a non-empty list |
| SoftwareProjects.Record | src/main/kotlin/com/embabel/coding/agent/Coder.kt:216 | a write adds its path to the change set once, keeping the order of first change |
| SoftwareProjects.RecordAll | src/main/kotlin/com/embabel/coding/agent/Coder.kt:214-217 | the change set after several writes holds exactly the old paths and the written ones, with no duplicates |
| SoftwareProjects.RecordAllAppend | src/main/kotlin/com/embabel/coding/agent/Coder.kt:214-217 | recording two runs of writes is recording them one after the other |
| SoftwareProjects.RecordAllFirstWriteOrder | src/main/kotlin/com/embabel/coding/agent/Coder.kt:214-217 | paths are listed in the order of their first write: a path first written after another comes after it |
| SoftwareProjects.Appended | src/main/kotlin/com/embabel/coding/agent/support/InProjectLogWriter.kt:24-28 | the file gains the text at its end, is created when missing, and no other file changes |
| SoftwareProjects.Written | src/main/kotlin/com/embabel/coding/agent/Coder.kt:188-213 | after the LLM's writes, untouched files are unchanged and every written path exists |
| SoftwareProjects.WrittenKeepsContent | src/main/kotlin/com/embabel/coding/agent/Coder.kt:188-213 | a file none of the writes touches keeps its content |
| SoftwareProjects.WorkingTree.GetChanges | src/main/kotlin/com/embabel/coding/agent/Coder.kt:216 | the changed paths, without duplicates |
| SoftwareProjects.WorkingTree.FlushChanges | src/main/kotlin/com/embabel/coding/agent/Coder.kt:186 | empties the change set and leaves the files as they are |
| SoftwareProjects.WorkingTree.AppendToFile | src/main/kotlin/com/embabel/coding/agent/support/InProjectLogWriter.kt:24-28 | the files become the appended map and the path is recorded as changed |
| SoftwareProjects.WorkingTree.ApplyWrites | src/main/kotlin/com/embabel/coding/agent/Coder.kt:188-213 | the files become the written map and the written paths are recorded as changed |
| SoftwareProjects.Paths | src/main/kotlin/com/embabel/coding/agent/Coder.kt:216 | the paths of the writes, in order |
| AgentTaskFocus.TaskFocus.constructor | src/main/kotlin/com/embabel/coding/agent/TaskFocus.kt:33-35 | the initial focus is the first project whose root contains "embabel-agent-api", else none |
| AgentTaskFocus.TaskFocus.SetFocus | src/main/kotlin/com/embabel/coding/agent/TaskFocus.kt:37-46 | returns the first project whose root contains the name; on a match it becomes the focus, otherwise the focus is unchanged; the repository is not modified |
| DomainTaskFocus.TaskFocus.constructor | src/main/kotlin/com/embabel/coding/domain/TaskFocus.kt:18-22 | the focus starts empty and is set through `setFocus` only when a default project is configured |
| DomainTaskFocus.TaskFocus.SetFocus | src/main/kotlin/com/embabel/coding/domain/TaskFocus.kt:24-33 | returns the first project whose root contains the name; on a match it becomes the focus, otherwise the focus is unchanged; the repository is not modified |
| DomainTaskFocus.TaskFocus.SaveAndSwitch | src/main/kotlin/com/embabel/coding/domain/TaskFocus.kt:35-39 | saves the project in the repository, then makes it the focus |
| CodingCommands.CodingCommands.constructor | src/main/kotlin/com/embabel/coding/agent/CodingCommands.kt:23 | the commands keep the task focus they are given |
| CodingCommands.RootOr | src/main/kotlin/com/embabel/coding/agent/CodingCommands.kt:27 | a project's root, or the fallback text when there is no project |
| CodingCommands.CodingCommands.Focus | src/main/kotlin/com/embabel/coding/agent/CodingCommands.kt:25-28 | the focused root, or exactly "No project is currently focused." when there is no focus |
| CodingCommands.CodingCommands.SetFocus | src/main/kotlin/com/embabel/coding/agent/CodingCommands.kt:30-33 | returns the new root or exactly "No project found with name containing '<name>'."; after a match `focus` shows that root, otherwise it shows what it showed before |
| AgentProjectCreator.RequirementsDefaults | src/main/kotlin/com/embabel/coding/agent/AgentProjectCreator.kt:31-38 | the defaults are projectName "demo", groupId "com.example" and language "kotlin" |
| AgentProjectCreator.CreatorArgs | src/main/kotlin/com/embabel/coding/agent/AgentProjectCreator.kt:95-99 | "--repo" then "1" exactly for Kotlin and "2" otherwise, then "--project-name" and the name, then "--package" and the package |
| AgentProjectCreator.ArgsIgnoreGroupIdAndRequirements | src/main/kotlin/com/embabel/coding/agent/AgentProjectCreator.kt:95-99 | the arguments depend only on the project name, the package name and whether the language is Kotlin |
| AgentProjectCreator.ProjectCreatorCommand | src/main/kotlin/com/embabel/coding/agent/AgentProjectCreator.kt:136-142 | the fixed prefix `uvx --from <git url> project-creator` followed by the additional arguments in order |
| AgentProjectCreator.ErrorMessage | src/main/kotlin/com/embabel/coding/agent/AgentProjectCreator.kt:129-134 | the first letter of the message tells the three kinds of error apart, and the message ends with the path or command line it is about (the texts at lines 130, 133 and 177) |
| AgentProjectCreator.FaultMessage | src/main/kotlin/com/embabel/coding/agent/AgentProjectCreator.kt:166-169 | a timeout's message starts with "Command timed out after ", ends with " seconds", and between them is a canonical integer literal (so, by `Strings.LiteralIsPrinted`, exactly the limit as `Long.toString` prints it); any other fault keeps its message |
| AgentProjectCreator.ExecuteCommand | src/main/kotlin/com/embabel/coding/agent/AgentProjectCreator.kt:147-179 | a run that exited gives its result, whatever the exit code; a timeout or a fault gives "Failed to execute command" with the command line joined by spaces, never a result |
| AgentProjectCreator.InvocationOutcome | src/main/kotlin/com/embabel/coding/agent/AgentProjectCreator.kt:124-145 | a missing directory is rejected first, a non-directory second; a result comes only from a valid directory |
| AgentProjectCreator.TimeoutNeverSucceeds | src/main/kotlin/com/embabel/coding/agent/AgentProjectCreator.kt:164-169 | a run still going at the timeout never yields a result |
| AgentProjectCreator.ExitedRunGivesResult | src/main/kotlin/com/embabel/coding/agent/AgentProjectCreator.kt:185-192 | in a valid directory an exited run gives a result, and `isSuccess` holds exactly when the exit code is 0 |
| AgentProjectCreator.ProcessResult.IsSuccess | src/main/kotlin/com/embabel/coding/agent/AgentProjectCreator.kt:190-191 | success exactly when the exit code is 0 |
| AgentProjectCreator.InvokeProjectCreatorWithArgs | src/main/kotlin/com/embabel/coding/agent/AgentProjectCreator.kt:124-145 | the checks, the command assembled from the prefix and then extended with the arguments, and the run, with the default timeout of 300 seconds, agree with the outcome function |
| AgentProjectCreator.ChildPath | src/main/kotlin/com/embabel/coding/agent/AgentProjectCreator.kt:101 | `File(workingDir, name)`: the parent, then one "/", then the name, with exactly that length; under the root parent "/" no second slash is added; an empty name gives the parent |
| AgentProjectCreator.CreatedProject | src/main/kotlin/com/embabel/coding/agent/AgentProjectCreator.kt:101-109 | the project's root is the working directory's child named after the project; the build command is "mvn test"; it is marked created, so a build is needed after it |
| AgentProjectCreator.CreateProject | src/main/kotlin/com/embabel/coding/agent/AgentProjectCreator.kt:91-111 | the created project comes back exactly when the tool invocation gave a result, whatever its exit code; otherwise the invocation's error |
| AgentProjectCreator.CreateAgentProject | src/main/kotlin/com/embabel/coding/agent/AgentProjectCreator.kt:57-68 | on success, the new project is saved and becomes the focus; on failure, neither the repository nor the focus changes |
| AgentProjectCreator.CreatedProjectEstablishesPost | src/main/kotlin/com/embabel/coding/agent/AgentProjectCreator.kt:57 | the BUILD_NEEDED that `createAgentProject` declares holds of every project it returns |
| AgentProjectCreator.DescribeNeedsSuccessfulBuild | src/main/kotlin/com/embabel/coding/agent/AgentProjectCreator.kt:70-73 | `describeShinyNewAgentProject` is enabled exactly when the bound build succeeded, and never without a build |
| ProjectRepository.FindHighest | src/main/kotlin/com/embabel/coding/domain/FromDiskSoftwareProjectRepository.kt:48-51 | only the highest `pom.xml` of a tree is wanted exactly when nested projects are not |
| ProjectRepository.ProjectFromPom | src/main/kotlin/com/embabel/coding/domain/FromDiskSoftwareProjectRepository.kt:54-65 | the root is the path with "pom.xml" removed, strictly shorter when the path names one and unchanged otherwise; placeholder url, "mvn test", the fixed technology text, no coding style, not created |
| ProjectRepository.FindProjectsUnderRoot | src/main/kotlin/com/embabel/coding/domain/FromDiskSoftwareProjectRepository.kt:53-66 | one project per path, in the same order; each root is its path with "pom.xml" removed; placeholder url, "mvn test", the fixed technology text, not created |
| ProjectRepository.PomInDirectoryName | src/main/kotlin/com/embabel/coding/domain/FromDiskSoftwareProjectRepository.kt:54 | every "pom.xml" is removed, so "pom.xml-d/pom.xml" gives the root "-d/" |
| ProjectRepository.PomPathRoot | src/main/kotlin/com/embabel/coding/domain/FromDiskSoftwareProjectRepository.kt:54 | for `dir + "/pom.xml"` with no "pom.xml" inside `dir`, the root is `dir + "/"` |
| ProjectRepository.IndexOfId | src/main/kotlin/com/embabel/coding/domain/FromDiskSoftwareProjectRepository.kt:32 | the position of the project whose id (its root) is the given one, if any |
| ProjectRepository.Saved | src/main/kotlin/com/embabel/coding/domain/FromDiskSoftwareProjectRepository.kt:31-32 | saving keeps ids unique, contains the saved project, keeps every project with another id, and adds nothing else |
| ProjectRepository.SavedAll | src/main/kotlin/com/embabel/coding/domain/FromDiskSoftwareProjectRepository.kt:39 | `saveAll`: saving in turn keeps ids unique and adds nothing that was neither stored nor saved |
| ProjectRepository.SavedAllSnoc | src/main/kotlin/com/embabel/coding/domain/FromDiskSoftwareProjectRepository.kt:39 | saving a list is saving its prefix, then its last project |
| ProjectRepository.SavedAllRoots | src/main/kotlin/com/embabel/coding/domain/FromDiskSoftwareProjectRepository.kt:39 | after `saveAll` ids are unique, every saved root is present, and nothing else was added |
| ProjectRepository.SavedKeepsId | src/main/kotlin/com/embabel/coding/domain/FromDiskSoftwareProjectRepository.kt:39 | an id present before `saveAll` is still present after it |
| ProjectRepository.InsertByRoot | src/main/kotlin/com/embabel/coding/domain/FromDiskSoftwareProjectRepository.kt:42 | inserting into a root-sorted list keeps it sorted and adds exactly that project |
| ProjectRepository.SortByRoot | src/main/kotlin/com/embabel/coding/domain/FromDiskSoftwareProjectRepository.kt:42 | `sortedBy { it.root }`: sorted by root and a permutation of the input |
| ProjectRepository.Roots | src/main/kotlin/com/embabel/coding/domain/FromDiskSoftwareProjectRepository.kt:42 | the roots of the projects, in order |
| ProjectRepository.StartupListing | src/main/kotlin/com/embabel/coding/domain/FromDiskSoftwareProjectRepository.kt:41-42 | the listing is "Projects:", a newline and a tab, then the roots of a root-sorted permutation of the stored projects joined by a newline and a tab; an empty store lists nothing after the header, and a single project lists its root |
| ProjectRepository.FromDiskSoftwareProjectRepository.constructor | src/main/kotlin/com/embabel/coding/domain/FromDiskSoftwareProjectRepository.kt:38-43 | the store holds what saving the projects found for "**/pom.xml" gives, with highest-only search unless nested projects are wanted |
| ProjectRepository.FromDiskSoftwareProjectRepository.FindAll | src/main/kotlin/com/embabel/coding/domain/FromDiskSoftwareProjectRepository.kt:32 | `findAll` lists the stored projects, each id (root) at most once |
| ProjectRepository.FromDiskSoftwareProjectRepository.Save | src/main/kotlin/com/embabel/coding/domain/FromDiskSoftwareProjectRepository.kt:31-32 | the store becomes the saved list and its ids stay unique |
| ProjectRepository.FromDiskSoftwareProjectRepository.SaveAll | src/main/kotlin/com/embabel/coding/domain/FromDiskSoftwareProjectRepository.kt:39 | the store becomes the result of saving each project in turn |
| Strings.ContainsIffOccurs | src/main/kotlin/com/embabel/coding/domain/TaskFocus.kt:25 | `contains` holds exactly when the fragment occurs at some position |
| Strings.RemoveAll | src/main/kotlin/com/embabel/coding/domain/FromDiskSoftwareProjectRepository.kt:54 | `replace(pat, "")` never lengthens the text |
| Strings.RemoveAllLeftmost | src/main/kotlin/com/embabel/coding/domain/FromDiskSoftwareProjectRepository.kt:54 | at the leftmost occurrence, the text before it is kept, the occurrence is dropped, and removal goes on in the rest: every occurrence is removed, scanning left to right |
| Strings.JoinWith | src/main/kotlin/com/embabel/coding/domain/FromDiskSoftwareProjectRepository.kt:42 | `joinToString(sep)`: no parts give the empty text, one part gives that part |
| Strings.JoinWithSnoc | src/main/kotlin/com/embabel/coding/domain/FromDiskSoftwareProjectRepository.kt:42 | joining one more part adds the separator and then that part at the end |
| Strings.RemoveAllUnchangedIff | src/main/kotlin/com/embabel/coding/domain/FromDiskSoftwareProjectRepository.kt:54 | removal leaves the text unchanged exactly when the pattern does not occur, and shortens it otherwise |
| Strings.RemoveAllTrailing | src/main/kotlin/com/embabel/coding/domain/FromDiskSoftwareProjectRepository.kt:54 | a text ending in the pattern, with no earlier occurrence, loses exactly that ending |
| Strings.LiteralIsPrinted | src/main/kotlin/com/embabel/coding/domain/CodeModification.kt:36 | a canonical integer literal (digits with no leading zero, an optional minus, no "-0") is exactly how its value is printed: parsing and printing are inverse both ways |
| Strings.IntToStringRoundTrip | src/main/kotlin/com/embabel/coding/domain/CodeModification.kt:36 | the printed integer is a canonical literal that parses back to the same number |
| Strings.ParseNatToString | src/main/kotlin/com/embabel/coding/domain/CodeModification.kt:36 | printing a natural number and parsing it back gives the number |
| Strings.NatToString | src/main/kotlin/com/embabel/coding/domain/CodeModification.kt:36 | decimal digits, at least one, with no leading zero |
| Strings.SplitJoinLines | src/main/kotlin/com/embabel/coding/agent/support/InProjectLogWriter.kt:23 | newline-terminated lines without inner newlines split back into the same lines |
| Strings.JoinLinesAppend | src/main/kotlin/com/embabel/coding/agent/support/InProjectLogWriter.kt:23-28 | appending one newline-terminated line adds one line |
| Strings.StrLeTotal | src/main/kotlin/com/embabel/coding/domain/FromDiskSoftwareProjectRepository.kt:42 | string order is total |
| Strings.StrLeTrans | src/main/kotlin/com/embabel/coding/domain/FromDiskSoftwareProjectRepository.kt:42 | string order is transitive |

## Left out

- The LLM calls and their prompts: `codeModificationRequestFromUserInput` (agent/Coder.kt:75-88) and the prompts of the modify, fix and share steps. Their outputs, the text and the file writes made by the tools, are parameters.
- The bodies of `build` and `buildWithCommand` (agent/Coder.kt:97-128). They call `project.build()` and `ci.parseBuildOutput`, which are not part of this model. Only their catalogue entries are modelled, and `BuildResult` is an optional success flag plus the raw output.
- The goal planner that picks an action by cost and checks `pre`, `post` and `canRerun` belongs to the framework, not to this repository. The catalogue is data. `Enabled` only says which guards hold; it selects nothing.
- `context.count<CodeModificationRequest>()` is a blackboard query. `ModifyProject` takes that count as the parameter `requestsSeen`.
- `describeShinyNewAgentProject` and `askUserForAgentRequirements` (agent/AgentProjectCreator.kt:53-86) are a text template and a form prompt. Only the guards of the first are kept, in `DescribeShinyNewAgentProjectAction`; the second declares none.
- CoderAgent.Coder.ModifyProject assumes that `logRequest`, the LLM call and the file writes never throw. In the code nothing catches them. A failing `logRequest` aborts the step before `flushChanges`. A failing LLM call leaves the changes flushed and returns no report.
- CoderAgent.Coder.FixBrokenBuild assumes that the LLM call and the file writes never throw. When they do, the changes stay flushed and no report is returned.
- CoderAgent.Coder.ShareCodeModificationReport assumes that the commit-message LLM call and `logResponse` never throw. When either does, no completion is returned, and a failing `logResponse` may leave a partial line in the log.
- CoderAgent.Coder.ModifyFixAndShare assumes the same of the three steps it composes.
- InProjectLogWriter.InProjectLogWriter.LogRequest assumes that `appendToFile` never throws. An I/O error there propagates to the caller and leaves the log unchanged or partly written.
- InProjectLogWriter.InProjectLogWriter.LogResponse assumes the same.
- Process execution: starting the process, reading its streams and destroying it on timeout. `Launcher` stands for the run and reports only how it ended.
- AgentProjectCreator.ExecuteCommand treats every run as ending in one of three ways. It does not capture that `executeCommand` reads stdout to its end (agent/AgentProjectCreator.kt:160) before the timeout wait at line 164 begins. A tool that never closes stdout therefore blocks forever, where the model gives `TimedOut(300)`.
- AgentProjectCreator.TimeoutNeverSucceeds has the same gap: the timeout applies only once both streams are closed.
- Because stdout is read fully before stderr, a tool that fills the stderr pipe while its stdout is still open can deadlock. `Launcher` cannot express that.
- `File` path handling: `ChildPath` joins the parent and the project name with one "/" (none after the root "/") and does not normalise either of them.
- `SoftwareProject` itself is not part of this model. `WorkingTree` assumes that `appendToFile` records its path as changed, like any other write. `createIfNotExists = false` is never used by the core and is not modelled.
- The in-memory repository library is not part of this model. `Saved` assumes that saving replaces the entry with the same id in place, and otherwise appends.
- Log messages are not modelled: logging has no effect the model could state. The one exception is the text of the startup listing, which `ProjectRepository.StartupListing` states.
- The JSON serialiser. `serialise` is any function; the line lemmas need it to emit no newline, which Jackson's compact output satisfies.
- Clock and id generation: `Instant.now()` and the generated request id are inputs.
- The focus reference is a plain unsynchronised `var`, so concurrent use is not modelled.
- `Strings.StrLe` compares characters by code point. Kotlin compares UTF-16 code units, so the two orders differ for characters outside the Basic Multilingual Plane.
- `Strings.RemoveAll` requires a non-empty pattern. The core only removes "pom.xml"; Kotlin's behaviour for an empty pattern is not modelled.
