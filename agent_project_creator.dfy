/** Creating a new agent project with the external `project-creator` tool:
    the arguments derived from the requirements, the checks on the working
    directory, the command line, the decision on how the process ended, and
    the project that results. Running the process is an input: `launch`
    tells what happens when a command runs in a directory with a timeout. */
module AgentProjectCreator {

  import opened Wrappers
  import opened Strings
  import opened SoftwareProjects
  import opened ProjectRepository
  import DomainTaskFocus
  import opened CoderAgent

  datatype AgentRequirements = AgentRequirements(
    projectName: string := "demo",
    groupId: string := "com.example",
    packageName: string,
    language: string := "kotlin",
    requirements: string)

  /** Only the package name and the requirements text must be given. */
  lemma RequirementsDefaults(packageName: string, requirements: string)
    ensures var r := AgentRequirements(packageName := packageName, requirements := requirements);
      r.projectName == "demo" && r.groupId == "com.example" && r.language == "kotlin"
      && r.packageName == packageName && r.requirements == requirements
  {
  }

  const ProjectCreatorSource: string := "git+https://github.com/embabel/project-creator.git"
  const CommandPrefix: seq<string> := ["uvx", "--from", ProjectCreatorSource, "project-creator"]
  const DefaultTimeoutSeconds: int := 300
  const CreatedTech: string := "Kotlin, Spring Boot, Maven, Spring Web, Spring Actuator, Spring DevTools"
  const CreatedCodingStyle: string :=
    "Modern Kotlin with Spring Boot conventions. Clean architecture with separation of concerns."
  const CreatedBuildCommand: string := "mvn test"

  datatype ProcessResult = ProcessResult(exitCode: int, stdout: string, stderr: string) {
    /** Success means a zero exit code and nothing else. */
    predicate IsSuccess()
      ensures IsSuccess() <==> exitCode == 0
    {
      exitCode == 0
    }
  }

  /** How a launched command ended, as far as the caller can tell. */
  datatype ProcessRun =
    | Exited(exitCode: int, stdout: string, stderr: string)  // finished within the timeout
    | StillRunning                                          // not finished within the timeout
    | Faulted(message: string)                              // could not start, or its output could not be read

  /** What the file system says about the working directory. */
  datatype Directory = Directory(absolutePath: string, present: bool, isDirectory: bool)

  datatype ExecutionFault = TimedOut(seconds: int) | ProcessFault(message: string)

  datatype CreatorError =
    | DirectoryDoesNotExist(path: string)                            // IllegalArgumentException
    | NotADirectory(path: string)                                    // IllegalArgumentException
    | ExecutionFailed(commandLine: string, cause: ExecutionFault)    // IOException

  const DirectoryMissingText: string := "Directory does not exist: "
  const NotADirectoryText: string := "Path is not a directory: "
  const ExecutionFailedText: string := "Failed to execute command: "
  const TimedOutText: string := "Command timed out after "

  /** The path or command line an error is about. */
  function Subject(e: CreatorError): string {
    match e
    case DirectoryDoesNotExist(path) => path
    case NotADirectory(path) => path
    case ExecutionFailed(commandLine, _) => commandLine
  }

  /** The exception message: its first letter tells the kind of error, and
      it ends with the path or command line the error is about. */
  function ErrorMessage(e: CreatorError): (m: string)
    ensures |m| > |Subject(e)|
    ensures m[0] == 'D' <==> e.DirectoryDoesNotExist?
    ensures m[0] == 'P' <==> e.NotADirectory?
    ensures m[0] == 'F' <==> e.ExecutionFailed?
    ensures m[|m| - |Subject(e)|..] == Subject(e)
  {
    match e
    case DirectoryDoesNotExist(path) => DirectoryMissingText + path
    case NotADirectory(path) => NotADirectoryText + path
    case ExecutionFailed(commandLine, _) => ExecutionFailedText + commandLine
  }

  /** The message of the cause: a timeout names its limit in seconds, and any
      other fault keeps its own message. */
  function FaultMessage(f: ExecutionFault): (m: string)
    ensures f.ProcessFault? ==> m == f.message
    ensures f.TimedOut? ==> && IsPrefix(TimedOutText, m)
                            && |m| >= |TimedOutText| + 8 && m[|m| - 8..] == " seconds"
                            && IsIntLiteral(m[|TimedOutText|..|m| - 8])
                            && ParseInt(m[|TimedOutText|..|m| - 8]) == f.seconds
  {
    match f
    case TimedOut(seconds) =>
      var n := IntToString(seconds);
      var m := TimedOutText + n + " seconds";
      assert m[..|TimedOutText|] == TimedOutText;
      assert m[|TimedOutText|..|m| - 8] == n;
      assert m[|m| - 8..] == " seconds";
      IntToStringRoundTrip(seconds);
      m
    case ProcessFault(message) => message
  }

  type Launcher = (seq<string>, string, int) -> ProcessRun

  /** The arguments `createProject` passes: repository 1 for Kotlin, 2
      otherwise, then the project and package names. */
  function CreatorArgs(requirements: AgentRequirements): (args: seq<string>)
    ensures |args| == 6
    ensures args[0] == "--repo" && args[2] == "--project-name" && args[4] == "--package"
    ensures args[1] == "1" <==> requirements.language == "kotlin"
    ensures args[1] == "2" <==> requirements.language != "kotlin"
    ensures args[3] == requirements.projectName && args[5] == requirements.packageName
  {
    ["--repo", if requirements.language == "kotlin" then "1" else "2",
     "--project-name", requirements.projectName,
     "--package", requirements.packageName]
  }

  /** The group id and the requirements text are collected but never passed
      to the tool. */
  lemma ArgsIgnoreGroupIdAndRequirements(r1: AgentRequirements, r2: AgentRequirements)
    requires r1.projectName == r2.projectName && r1.packageName == r2.packageName
    requires (r1.language == "kotlin") == (r2.language == "kotlin")
    ensures CreatorArgs(r1) == CreatorArgs(r2)
  {
  }

  /** The fixed four-word prefix followed by the additional arguments in order. */
  function ProjectCreatorCommand(additionalArgs: seq<string>): (command: seq<string>)
    ensures |command| == |CommandPrefix| + |additionalArgs|
    ensures command[..|CommandPrefix|] == CommandPrefix
    ensures command[|CommandPrefix|..] == additionalArgs
  {
    CommandPrefix + additionalArgs
  }

  /** `executeCommand`: a process that exited gives its result whatever the
      exit code; one still running at the timeout, or one that failed, gives
      an error naming the command line, never a result. */
  function ExecuteCommand(command: seq<string>, run: ProcessRun, timeoutSeconds: int): (r: Result<ProcessResult, CreatorError>)
    ensures r.Ok? <==> run.Exited?
    ensures run.Exited? ==> r.value == ProcessResult(run.exitCode, run.stdout, run.stderr)
    ensures run.StillRunning? ==> r == Err(ExecutionFailed(JoinWith(command, " "), TimedOut(timeoutSeconds)))
    ensures run.Faulted? ==> r == Err(ExecutionFailed(JoinWith(command, " "), ProcessFault(run.message)))
    ensures r.Err? ==> ErrorMessage(r.error) == ExecutionFailedText + JoinWith(command, " ")
  {
    match run
    case Exited(code, out, err) => Ok(ProcessResult(code, out, err))
    case StillRunning => Err(ExecutionFailed(JoinWith(command, " "), TimedOut(timeoutSeconds)))
    case Faulted(message) => Err(ExecutionFailed(JoinWith(command, " "), ProcessFault(message)))
  }

  /** The outcome of `invokeProjectCreatorWithArgs`: a missing directory is
      rejected first, a non-directory second, and only then is the command
      run. */
  function InvocationOutcome(workingDirectory: Directory, additionalArgs: seq<string>,
                             launch: Launcher, timeoutSeconds: int): (r: Result<ProcessResult, CreatorError>)
    ensures !workingDirectory.present ==> r == Err(DirectoryDoesNotExist(workingDirectory.absolutePath))
    ensures workingDirectory.present && !workingDirectory.isDirectory ==>
      r == Err(NotADirectory(workingDirectory.absolutePath))
    ensures r.Ok? ==> workingDirectory.present && workingDirectory.isDirectory
    ensures !workingDirectory.present ==> ErrorMessage(r.error) == DirectoryMissingText + workingDirectory.absolutePath
    ensures workingDirectory.present && !workingDirectory.isDirectory ==>
      ErrorMessage(r.error) == NotADirectoryText + workingDirectory.absolutePath
  {
    if !workingDirectory.present then Err(DirectoryDoesNotExist(workingDirectory.absolutePath))
    else if !workingDirectory.isDirectory then Err(NotADirectory(workingDirectory.absolutePath))
    else
      var command := ProjectCreatorCommand(additionalArgs);
      ExecuteCommand(command, launch(command, workingDirectory.absolutePath, timeoutSeconds), timeoutSeconds)
  }

  /** A run that does not finish within the timeout never yields a result. */
  lemma TimeoutNeverSucceeds(workingDirectory: Directory, additionalArgs: seq<string>,
                             launch: Launcher, timeoutSeconds: int)
    requires launch(ProjectCreatorCommand(additionalArgs), workingDirectory.absolutePath, timeoutSeconds).StillRunning?
    ensures InvocationOutcome(workingDirectory, additionalArgs, launch, timeoutSeconds).Err?
  {
  }

  /** In a valid directory, a run that exits gives a result whatever its
      exit code, and that result counts as a success exactly when the code
      is 0. */
  lemma ExitedRunGivesResult(workingDirectory: Directory, additionalArgs: seq<string>,
                             launch: Launcher, timeoutSeconds: int)
    requires workingDirectory.present && workingDirectory.isDirectory
    requires launch(ProjectCreatorCommand(additionalArgs), workingDirectory.absolutePath, timeoutSeconds).Exited?
    ensures var outcome := InvocationOutcome(workingDirectory, additionalArgs, launch, timeoutSeconds);
      && outcome.Ok?
      && (outcome.value.IsSuccess() <==>
          launch(ProjectCreatorCommand(additionalArgs), workingDirectory.absolutePath, timeoutSeconds).exitCode == 0)
  {
  }

  method InvokeProjectCreatorWithArgs(workingDirectory: Directory, additionalArgs: seq<string>,
                                      launch: Launcher, timeoutSeconds: int := DefaultTimeoutSeconds)
    returns (r: Result<ProcessResult, CreatorError>)
    ensures r == InvocationOutcome(workingDirectory, additionalArgs, launch, timeoutSeconds)
  {
    if !workingDirectory.present {
      return Err(DirectoryDoesNotExist(workingDirectory.absolutePath));
    }
    if !workingDirectory.isDirectory {
      return Err(NotADirectory(workingDirectory.absolutePath));
    }
    var command := CommandPrefix;
    command := command + additionalArgs;
    r := ExecuteCommand(command, launch(command, workingDirectory.absolutePath, timeoutSeconds), timeoutSeconds);
  }

  /** `File(parent, child).absolutePath` for an absolute parent. */
  function ChildPath(parent: string, child: string): (path: string)
    ensures child == "" ==> path == parent
    ensures child != "" ==> && IsPrefix(parent, path)
                            && |path| > |child| && path[|path| - |child|..] == child
                            && path[|path| - |child| - 1] == '/'
    ensures child != "" ==> |path| == |parent| + |child| + (if parent == "/" then 0 else 1)
  {
    if child == "" then parent
    else if parent == "/" then parent + child
    else parent + "/" + child
  }

  /** The project `createProject` describes: under the working directory,
      built with "mvn test", and marked as just created, so that a build is
      needed once it is the last result. */
  function CreatedProject(workingDir: Directory, requirements: AgentRequirements): (p: SoftwareProject)
    ensures p.root == ChildPath(workingDir.absolutePath, requirements.projectName)
    ensures p.buildCommand == CreatedBuildCommand && p.wasCreated
    ensures BuildNeeded(ProjectResult(p))
  {
    SoftwareProject(
      root := ChildPath(workingDir.absolutePath, requirements.projectName),
      url := None,
      tech := CreatedTech,
      defaultCodingStyle := Some(CreatedCodingStyle),
      buildCommand := CreatedBuildCommand,
      wasCreated := true)
  }

  /** `createProject`: run the tool, then describe the new project. The
      process result is discarded: a tool that exits with a failure code
      still yields the project; only a rejected directory or a failed run
      gives an error. */
  method CreateProject(workingDir: Directory, requirements: AgentRequirements, launch: Launcher)
    returns (r: Result<SoftwareProject, CreatorError>)
    ensures var outcome := InvocationOutcome(workingDir, CreatorArgs(requirements), launch, DefaultTimeoutSeconds);
      && (r.Ok? <==> outcome.Ok?)
      && (r.Ok? ==> r.value == CreatedProject(workingDir, requirements))
      && (r.Err? ==> r.error == outcome.error)
  {
    var invoked := InvokeProjectCreatorWithArgs(workingDir, CreatorArgs(requirements), launch);
    if invoked.Err? {
      return Err(invoked.error);
    }
    r := Ok(CreatedProject(workingDir, requirements));
  }

  /** `createAgentProject`: create the project under the configured root,
      save it and switch the focus to it. */
  method CreateAgentProject(requirements: AgentRequirements, root: Directory,
                            taskFocus: DomainTaskFocus.TaskFocus, launch: Launcher)
    returns (r: Result<SoftwareProject, CreatorError>)
    requires taskFocus.repository.Valid()
    modifies taskFocus, taskFocus.repository
    ensures taskFocus.repository.Valid()
    ensures r.Ok? <==> InvocationOutcome(root, CreatorArgs(requirements), launch, DefaultTimeoutSeconds).Ok?
    ensures r.Ok? ==> r.value == CreatedProject(root, requirements)
    ensures r.Ok? ==> taskFocus.softwareProject == Some(r.value)
    ensures r.Ok? ==> taskFocus.repository.FindAll() == Saved(old(taskFocus.repository.FindAll()), r.value)
    ensures r.Err? ==> taskFocus.softwareProject == old(taskFocus.softwareProject)
    ensures r.Err? ==> taskFocus.repository.FindAll() == old(taskFocus.repository.FindAll())
  {
    r := CreateProject(root, requirements, launch);
    if r.Ok? {
      taskFocus.SaveAndSwitch(r.value);
    }
  }

  // The creator's guarded actions, as their annotations declare them.
  const CreateAgentProjectAction: ActionMetadata :=
    ActionMetadata("createAgentProject", [], [BUILD_NEEDED], None, None)
  const DescribeShinyNewAgentProjectAction: ActionMetadata :=
    ActionMetadata("describeShinyNewAgentProject", [BUILD_SUCCEEDED], [], None, None)

  /** What `createAgentProject` declares it establishes, BUILD_NEEDED, holds
      of every project it returns. */
  lemma CreatedProjectEstablishesPost(workingDir: Directory, requirements: AgentRequirements, bound: Option<BuildResult>)
    ensures forall k :: 0 <= k < |CreateAgentProjectAction.post| ==>
      ConditionHolds(CreateAgentProjectAction.post[k], ProjectResult(CreatedProject(workingDir, requirements)), bound)
  {
    assert CreateAgentProjectAction.post == [BUILD_NEEDED];
  }

  /** The new project is described only once a build of it succeeded. */
  lemma DescribeNeedsSuccessfulBuild(last: StepResult, b: BuildResult)
    ensures Enabled(DescribeShinyNewAgentProjectAction, last, Some(b)) <==> BuildSucceeded(b)
    ensures !Enabled(DescribeShinyNewAgentProjectAction, last, None)
  {
    assert !ConditionHolds(DescribeShinyNewAgentProjectAction.pre[0], last, None);
    assert ConditionHolds(DescribeShinyNewAgentProjectAction.pre[0], last, Some(b)) == BuildSucceeded(b);
  }
}
