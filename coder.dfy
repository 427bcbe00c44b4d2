/** The Coder agent: the four conditions that classify the last step's
    result, the catalogue of actions with the guards, costs and rerun flags
    they declare, and the bodies of the steps that change a project. The
    planner that picks an action from the catalogue is not part of this
    model; the catalogue is data. LLM calls are inputs: their text, and the
    file writes their tools make. */
module CoderAgent {

  import opened Wrappers
  import opened Strings
  import opened SoftwareProjects
  import opened CodeModification
  import LogWriting = InProjectLogWriter
  import AgentTaskFocus

  // ---------------------------------------------------------------------
  // Conditions

  /** The closed set of condition names, with the keys the source declares. */
  datatype ConditionName = BUILD_NEEDED | BUILD_FAILED | BUILD_SUCCEEDED | BUILD_WAS_LAST_ACTION

  function ConditionKey(c: ConditionName): string {
    match c
    case BUILD_NEEDED => "buildNeeded"
    case BUILD_FAILED => "buildFailed"
    case BUILD_SUCCEEDED => "buildSucceeded"
    case BUILD_WAS_LAST_ACTION => "buildWasLastAction"
  }

  /** No two condition names share a key. */
  lemma ConditionKeysDistinct(c: ConditionName, d: ConditionName)
    ensures ConditionKey(c) == ConditionKey(d) ==> c == d
  {
  }

  /** The build verdict type is not part of this model beyond an optional
      success flag and the raw output it was parsed from. */
  datatype BuildStatus = BuildStatus(success: bool)
  datatype BuildResult = BuildResult(status: Option<BuildStatus>, rawOutput: string)

  /** The result of the most recently completed step, by kind. */
  datatype StepResult =
    | NoResult
    | RequestResult(request: CodeModificationRequest)
    | ProjectResult(project: SoftwareProject)
    | BuildOutcome(build: BuildResult)
    | ReportResult(report: CodeModificationReport)
    | SuccessResult(success: SuccessfulCodeModification)
    | OtherResult

  /** A report was just produced, or a project was just created. No other
      kind of result, none at all included, asks for a build. */
  predicate BuildNeeded(last: StepResult)
    ensures last.ReportResult? ==> BuildNeeded(last)
    ensures last.ProjectResult? ==> (BuildNeeded(last) <==> last.project.wasCreated)
    ensures BuildNeeded(last) ==> last.ReportResult? || last.ProjectResult?
  {
    last.ReportResult? || (last.ProjectResult? && last.project.wasCreated)
  }

  /** A build result, whatever its status; such a result never asks for a
      build. */
  predicate BuildWasLastAction(last: StepResult)
    ensures BuildWasLastAction(last) <==> last.BuildOutcome?
    ensures BuildWasLastAction(last) ==> !BuildNeeded(last)
  {
    last.BuildOutcome?
  }

  /** `status?.success == true`, over the build result the framework binds:
      a missing status is not a success. */
  predicate BuildSucceeded(buildResult: BuildResult)
    ensures BuildSucceeded(buildResult) ==> buildResult.status.Some?
    ensures buildResult.status.Some? ==> (BuildSucceeded(buildResult) <==> buildResult.status.value.success)
  {
    buildResult.status.Some? && buildResult.status.value.success
  }

  /** `status?.success == false`: a missing status is not a failure either. */
  predicate BuildFailed(buildResult: BuildResult)
    ensures BuildFailed(buildResult) ==> buildResult.status.Some?
    ensures buildResult.status.Some? ==> (BuildFailed(buildResult) <==> !buildResult.status.value.success)
  {
    buildResult.status.Some? && !buildResult.status.value.success
  }

  /** The two verdicts exclude each other, both are false without a status,
      and with a status exactly one holds. */
  lemma BuildVerdicts(b: BuildResult)
    ensures !(BuildSucceeded(b) && BuildFailed(b))
    ensures b.status.None? ==> !BuildSucceeded(b) && !BuildFailed(b)
    ensures b.status.Some? ==> (BuildSucceeded(b) <==> !BuildFailed(b))
  {
  }

  /** A build result never asks for another build, and always counts as the
      last action being a build, whatever its status. */
  lemma NoBuildAfterBuild(b: BuildResult)
    ensures !BuildNeeded(BuildOutcome(b))
    ensures BuildWasLastAction(BuildOutcome(b))
  {
  }

  // ---------------------------------------------------------------------
  // The action catalogue, as each `@Action` annotation declares it.
  // `cost` and `canRerun` are None where the annotation leaves them out.

  datatype ActionMetadata = ActionMetadata(
    name: string,
    pre: seq<ConditionName>,
    post: seq<ConditionName>,
    cost: Option<real>,
    canRerun: Option<bool>)

  const LoadExistingProjectAction: ActionMetadata :=
    ActionMetadata("loadExistingProject", [], [], None, None)
  const RequestFromUserInputAction: ActionMetadata :=
    ActionMetadata("codeModificationRequestFromUserInput", [], [], None, None)
  const BuildWithCommandAction: ActionMetadata :=
    ActionMetadata("buildWithCommand", [BUILD_NEEDED], [BUILD_SUCCEEDED], Some(10000.0), Some(true))
  const BuildAction: ActionMetadata :=
    ActionMetadata("build", [BUILD_NEEDED], [BUILD_SUCCEEDED], Some(500.0), Some(true))
  const ModifyProjectAction: ActionMetadata :=
    ActionMetadata("modifyProject", [], [BUILD_NEEDED], None, Some(true))
  const FixBrokenBuildAction: ActionMetadata :=
    ActionMetadata("fixBrokenBuild", [BUILD_FAILED, BUILD_WAS_LAST_ACTION], [BUILD_SUCCEEDED], None, Some(true))
  const ShareCodeModificationReportAction: ActionMetadata :=
    ActionMetadata("shareCodeModificationReport", [BUILD_SUCCEEDED], [], None, None)

  /** The Coder's actions in declaration order. */
  const CoderActions: seq<ActionMetadata> := [
    LoadExistingProjectAction, RequestFromUserInputAction, BuildWithCommandAction,
    BuildAction, ModifyProjectAction, FixBrokenBuildAction, ShareCodeModificationReportAction]

  /** The two builds share their guards and are both rerunnable; the one that
      runs the declared command is the cheaper. */
  lemma BuildsShareGuards()
    ensures BuildAction.pre == BuildWithCommandAction.pre == [BUILD_NEEDED]
    ensures BuildAction.post == BuildWithCommandAction.post == [BUILD_SUCCEEDED]
    ensures BuildAction.canRerun == BuildWithCommandAction.canRerun == Some(true)
    ensures BuildAction.cost.Some? && BuildWithCommandAction.cost.Some?
    ensures BuildAction.cost.value < BuildWithCommandAction.cost.value
  {
  }

  /** The fix needs a failed build that was the last action; the report is
      shared only after a successful build. Of the whole catalogue, exactly
      the two builds, modify and fix are declared rerunnable: the share is
      not, and neither are the two actions that declare nothing. */
  lemma FixAndShareGuards()
    ensures FixBrokenBuildAction.pre == [BUILD_FAILED, BUILD_WAS_LAST_ACTION]
    ensures ShareCodeModificationReportAction.pre == [BUILD_SUCCEEDED]
    ensures ShareCodeModificationReportAction.canRerun != Some(true)
    ensures forall a :: a in CoderActions ==>
      (a.canRerun == Some(true) <==>
       a in [BuildWithCommandAction, BuildAction, ModifyProjectAction, FixBrokenBuildAction])
  {
  }

  /** Whether a condition holds for the last step's result and the build
      result the framework can bind (none when no build has run yet). */
  predicate ConditionHolds(c: ConditionName, last: StepResult, bound: Option<BuildResult>) {
    match c
    case BUILD_NEEDED => BuildNeeded(last)
    case BUILD_WAS_LAST_ACTION => BuildWasLastAction(last)
    case BUILD_SUCCEEDED => bound.Some? && BuildSucceeded(bound.value)
    case BUILD_FAILED => bound.Some? && BuildFailed(bound.value)
  }

  /** An action's declared preconditions all hold. Whether it then runs is
      up to the framework's planner, which also wants its inputs bound. */
  predicate Enabled(a: ActionMetadata, last: StepResult, bound: Option<BuildResult>) {
    forall k :: 0 <= k < |a.pre| ==> ConditionHolds(a.pre[k], last, bound)
  }

  /** Right after a build, no build is enabled again; the fix is enabled
      exactly when that build failed and the share exactly when it
      succeeded, so never both. */
  lemma EnabledAfterBuild(b: BuildResult)
    ensures !Enabled(BuildAction, BuildOutcome(b), Some(b)) && !Enabled(BuildWithCommandAction, BuildOutcome(b), Some(b))
    ensures Enabled(FixBrokenBuildAction, BuildOutcome(b), Some(b)) <==> BuildFailed(b)
    ensures Enabled(ShareCodeModificationReportAction, BuildOutcome(b), Some(b)) <==> BuildSucceeded(b)
    ensures !(Enabled(FixBrokenBuildAction, BuildOutcome(b), Some(b)) &&
              Enabled(ShareCodeModificationReportAction, BuildOutcome(b), Some(b)))
  {
    assert ConditionHolds(BuildAction.pre[0], BuildOutcome(b), Some(b)) == BuildNeeded(BuildOutcome(b));
    assert ConditionHolds(BuildWithCommandAction.pre[0], BuildOutcome(b), Some(b)) == BuildNeeded(BuildOutcome(b));
    assert ConditionHolds(FixBrokenBuildAction.pre[0], BuildOutcome(b), Some(b)) == BuildFailed(b);
    assert ConditionHolds(FixBrokenBuildAction.pre[1], BuildOutcome(b), Some(b));
    assert ConditionHolds(ShareCodeModificationReportAction.pre[0], BuildOutcome(b), Some(b)) == BuildSucceeded(b);
  }

  /** `modifyProject` declares BUILD_NEEDED, and that holds of the report it
      returns; a build declares BUILD_SUCCEEDED, which holds when it did
      succeed. `fixBrokenBuild` also declares BUILD_SUCCEEDED, but right
      after it the bound build is still the failed one, so that declaration
      is a planning expectation, not yet a fact. */
  lemma DeclaredPostsHold(report: CodeModificationReport, b: BuildResult, failed: BuildResult, bound: Option<BuildResult>)
    requires BuildSucceeded(b) && BuildFailed(failed)
    ensures forall k :: 0 <= k < |ModifyProjectAction.post| ==>
      ConditionHolds(ModifyProjectAction.post[k], ReportResult(report), bound)
    ensures forall k :: 0 <= k < |BuildAction.post| ==>
      ConditionHolds(BuildAction.post[k], BuildOutcome(b), Some(b))
    ensures !(forall k :: 0 <= k < |FixBrokenBuildAction.post| ==>
      ConditionHolds(FixBrokenBuildAction.post[k], ReportResult(report), Some(failed)))
  {
    assert !ConditionHolds(FixBrokenBuildAction.post[0], ReportResult(report), Some(failed));
  }

  /** Right after a report, or after a project was created, both builds are
      enabled and the fix is not, whatever an earlier build said. */
  lemma EnabledAfterReport(last: StepResult, bound: Option<BuildResult>)
    requires BuildNeeded(last)
    ensures Enabled(BuildAction, last, bound) && Enabled(BuildWithCommandAction, last, bound)
    ensures !Enabled(FixBrokenBuildAction, last, bound)
    ensures bound.Some? && BuildSucceeded(bound.value) ==> Enabled(ShareCodeModificationReportAction, last, bound)
  {
    assert !ConditionHolds(FixBrokenBuildAction.pre[1], last, bound);
  }

  // ---------------------------------------------------------------------
  // The steps

  class Coder {
    const taskFocus: AgentTaskFocus.TaskFocus
    const logWriter: LogWriting.InProjectLogWriter

    constructor (taskFocus: AgentTaskFocus.TaskFocus, logWriter: LogWriting.InProjectLogWriter)
      ensures this.taskFocus == taskFocus && this.logWriter == logWriter
    {
      this.taskFocus := taskFocus;
      this.logWriter := logWriter;
    }

    /** The files after `logRequest` when this is the first request seen. */
    function FilesAfterRequestLog(files: map<string, string>, request: CodeModificationRequest, requestsSeen: nat): map<string, string> {
      if requestsSeen == 1
      then Appended(files, logWriter.path, LogWriting.JsonLine(logWriter.serialise, RequestEntry(request)))
      else files
    }

    /** `loadExistingProject`: the current focus. */
    method LoadExistingProject() returns (p: Option<SoftwareProject>)
      ensures p == taskFocus.softwareProject
    {
      p := taskFocus.softwareProject;
    }

    /** Log the request if it is the only one seen, flush, let the LLM edit
        the project, and report the paths changed since the flush. */
    method ModifyProject(codeModificationRequest: CodeModificationRequest, project: WorkingTree,
                         requestsSeen: nat, llmText: string, llmWrites: seq<FileWrite>)
      returns (report: CodeModificationReport)
      requires project.Valid()
      modifies project
      ensures project.Valid()
      ensures report.text == llmText
      ensures report.filesChanged == project.changes == RecordAll([], Paths(llmWrites))
      ensures forall q :: q in report.filesChanged <==> q in Paths(llmWrites)
      ensures project.files == Written(FilesAfterRequestLog(old(project.files), codeModificationRequest, requestsSeen), llmWrites)
      ensures BuildNeeded(ReportResult(report))
    {
      var isFirstModification := requestsSeen == 1;
      if isFirstModification {
        logWriter.LogRequest(codeModificationRequest, project);
      }
      project.FlushChanges();
      project.ApplyWrites(llmWrites);
      report := CodeModificationReport(llmText, project.GetChanges());
    }

    /** Flush, let the LLM fix the project, and report the paths changed
        since the flush. The request and the failed build only shape the
        prompt. */
    method FixBrokenBuild(codeModificationRequest: CodeModificationRequest, project: WorkingTree,
                          buildFailure: BuildResult, llmText: string, llmWrites: seq<FileWrite>)
      returns (report: CodeModificationReport)
      requires project.Valid()
      modifies project
      ensures project.Valid()
      ensures report.text == llmText
      ensures report.filesChanged == project.changes == RecordAll([], Paths(llmWrites))
      ensures forall q :: q in report.filesChanged <==> q in Paths(llmWrites)
      ensures project.files == Written(old(project.files), llmWrites)
      ensures BuildNeeded(ReportResult(report))
    {
      project.FlushChanges();
      project.ApplyWrites(llmWrites);
      report := CodeModificationReport(llmText, project.GetChanges());
    }

    /** Build the completion from the report unchanged, with a fresh request
        made from the report text, and log it once. */
    method ShareCodeModificationReport(codeModificationReport: CodeModificationReport, softwareProject: WorkingTree,
                                       suggestedCommitMessage: string, requestId: string,
                                       requestTime: int, completionTime: int)
      returns (success: SuccessfulCodeModification)
      requires softwareProject.Valid()
      modifies softwareProject
      ensures softwareProject.Valid()
      ensures success.report == codeModificationReport
      ensures success.request == CodeModificationRequest(codeModificationReport.text, requestId, requestTime)
      ensures success.suggestedCommitMessage == suggestedCommitMessage
      ensures success.timestamp == completionTime
      ensures softwareProject.files ==
        Appended(old(softwareProject.files), logWriter.path, LogWriting.JsonLine(logWriter.serialise, SuccessEntry(success)))
      ensures softwareProject.changes == Record(old(softwareProject.changes), logWriter.path)
    {
      success := SuccessfulCodeModification(
        CodeModificationRequest(codeModificationReport.text, requestId, requestTime),
        codeModificationReport,
        suggestedCommitMessage,
        completionTime);
      logWriter.LogResponse(success, softwareProject);
    }

    /** One cycle with a failed first build: modify (first request), fix,
        share. When no LLM edit touches the log and the serialiser emits no
        newline, the log of a project that had none holds exactly one request
        line and one completion line. */
    method ModifyFixAndShare(request: CodeModificationRequest, project: WorkingTree,
                             modifyText: string, modifyWrites: seq<FileWrite>,
                             failedBuild: BuildResult, fixText: string, fixWrites: seq<FileWrite>,
                             commitMessage: string, shareRequestId: string, shareTime: int)
      returns (success: SuccessfulCodeModification)
      requires project.Valid()
      requires Content(project.files, logWriter.path) == ""
      requires logWriter.path !in Paths(modifyWrites) && logWriter.path !in Paths(fixWrites)
      requires forall e :: NoNewline(logWriter.serialise(e))
      modifies project
      ensures success.report.filesChanged == RecordAll([], Paths(fixWrites))
      ensures SplitLines(Content(project.files, logWriter.path)) ==
        [logWriter.serialise(RequestEntry(request)), logWriter.serialise(SuccessEntry(success))]
    {
      ghost var f0 := project.files;
      var report := ModifyProject(request, project, 1, modifyText, modifyWrites);
      report := FixBrokenBuild(request, project, failedBuild, fixText, fixWrites);
      success := ShareCodeModificationReport(report, project, commitMessage, shareRequestId, shareTime, shareTime);
      CycleLog(f0, request, modifyWrites, fixWrites, success);
    }

    /** The log after one modify, fix and share cycle, on the files alone:
        the request line, then the completion line. */
    lemma CycleLog(f0: map<string, string>, request: CodeModificationRequest,
                   modifyWrites: seq<FileWrite>, fixWrites: seq<FileWrite>, success: SuccessfulCodeModification)
      requires Content(f0, logWriter.path) == ""
      requires logWriter.path !in Paths(modifyWrites) && logWriter.path !in Paths(fixWrites)
      requires forall e :: NoNewline(logWriter.serialise(e))
      ensures SplitLines(Content(Appended(Written(Written(FilesAfterRequestLog(f0, request, 1), modifyWrites), fixWrites),
                                          logWriter.path, LogWriting.JsonLine(logWriter.serialise, SuccessEntry(success))),
                                 logWriter.path)) ==
        [logWriter.serialise(RequestEntry(request)), logWriter.serialise(SuccessEntry(success))]
    {
      var path := logWriter.path;
      var ser := logWriter.serialise;
      var requestLine := ser(RequestEntry(request));
      LogWriting.AppendAddsOneLine(f0, path, [], ser, RequestEntry(request));
      var f1 := Written(FilesAfterRequestLog(f0, request, 1), modifyWrites);
      WrittenKeepsContent(FilesAfterRequestLog(f0, request, 1), modifyWrites, path);
      assert Content(f1, path) == JoinLines([requestLine]);
      var f2 := Written(f1, fixWrites);
      WrittenKeepsContent(f1, fixWrites, path);
      assert Content(f2, path) == JoinLines([requestLine]);
      LogWriting.AppendAddsOneLine(f2, path, [requestLine], ser, SuccessEntry(success));
      assert [requestLine] + [ser(SuccessEntry(success))] == [requestLine, ser(SuccessEntry(success))];
    }
  }
}
