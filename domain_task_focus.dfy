/** The focus used when a project is created: it starts empty, takes the
    configured default project if there is one, and can save a new project
    into the repository and switch to it. */
module DomainTaskFocus {

  import opened Wrappers
  import opened SoftwareProjects
  import opened ProjectRepository

  class TaskFocus {
    const repository: FromDiskSoftwareProjectRepository
    var softwareProject: Option<SoftwareProject>

    /** Focus starts empty and is set by `SetFocus(defaultProject)` when a
        default project is configured. */
    constructor (repository: FromDiskSoftwareProjectRepository, defaultProject: Option<string>)
      ensures this.repository == repository
      ensures defaultProject.None? ==> softwareProject == None
      ensures defaultProject.Some? ==> softwareProject == FindByRoot(repository.FindAll(), defaultProject.value)
      ensures unchanged(repository)
    {
      this.repository := repository;
      softwareProject := None;
      new;
      if defaultProject.Some? {
        var _ := SetFocus(defaultProject.value);
      }
    }

    /** Focus on the first project whose root contains `name`; when none
        does, the focus stays as it was. */
    method SetFocus(name: string) returns (newFocus: Option<SoftwareProject>)
      modifies this
      ensures newFocus == FindByRoot(repository.FindAll(), name)
      ensures newFocus.Some? ==> softwareProject == newFocus
      ensures newFocus.None? ==> softwareProject == old(softwareProject)
      ensures unchanged(repository)
    {
      newFocus := FindByRoot(repository.FindAll(), name);
      if newFocus.Some? {
        softwareProject := newFocus;
      }
    }

    /** Save the new project in the repository, then focus on it. */
    method SaveAndSwitch(newAgentProject: SoftwareProject)
      requires repository.Valid()
      modifies this, repository
      ensures repository.Valid()
      ensures repository.FindAll() == Saved(old(repository.FindAll()), newAgentProject)
      ensures softwareProject == Some(newAgentProject)
    {
      repository.Save(newAgentProject);
      softwareProject := Some(newAgentProject);
    }
  }
}
