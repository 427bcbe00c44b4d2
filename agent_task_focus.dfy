/** The focus used by the shell commands and the Coder agent: a single
    mutable reference to the current project, looked up by a fragment of
    the project root. The repository is only read. */
module AgentTaskFocus {

  import opened Wrappers
  import opened SoftwareProjects
  import opened ProjectRepository

  /** The fragment the initial focus is looked up by. */
  const InitialFocusName: string := "embabel-agent-api"

  class TaskFocus {
    const repository: FromDiskSoftwareProjectRepository
    var softwareProject: Option<SoftwareProject>

    /** The initial focus is the first project whose root contains
        "embabel-agent-api", if there is one. */
    constructor (repository: FromDiskSoftwareProjectRepository)
      ensures this.repository == repository
      ensures softwareProject == FindByRoot(repository.FindAll(), InitialFocusName)
    {
      this.repository := repository;
      softwareProject := FindByRoot(repository.FindAll(), InitialFocusName);
    }

    /** Focus on the first project whose root contains `name`; when none
        does, the focus stays as it was. */
    method SetFocus(name: string) returns (newFocus: Option<SoftwareProject>)
      modifies this
      ensures newFocus == FindByRoot(repository.FindAll(), name)
      ensures newFocus.Some? ==> softwareProject == newFocus
      ensures newFocus.None? ==> softwareProject == old(softwareProject)
      ensures unchanged(repository)
    {
      newFocus := FindByRoot(repository.FindAll(), name);
      if newFocus.Some? {
        softwareProject := newFocus;
      }
    }
  }
}
