/** The shell commands that report and set the focus. */
module CodingCommands {

  import opened Wrappers
  import opened SoftwareProjects
  import AgentTaskFocus

  const NoFocusMessage: string := "No project is currently focused."

  function NotFoundMessage(name: string): string {
    "No project found with name containing '" + name + "'."
  }

  /** The text a command shows for a project, or the fallback text when there
      is none. */
  function RootOr(project: Option<SoftwareProject>, fallback: string): (s: string)
    ensures project.Some? ==> s == project.value.root
    ensures project.None? ==> s == fallback
  {
    match project
    case Some(p) => p.root
    case None => fallback
  }

  class CodingCommands {
    const taskFocus: AgentTaskFocus.TaskFocus

    constructor (taskFocus: AgentTaskFocus.TaskFocus)
      ensures this.taskFocus == taskFocus
    {
      this.taskFocus := taskFocus;
    }

    /** `focus`: the focused root, or the fixed "no focus" message. */
    function Focus(): (s: string)
      reads taskFocus
      ensures taskFocus.softwareProject.Some? ==> s == taskFocus.softwareProject.value.root
      ensures taskFocus.softwareProject.None? ==> s == NoFocusMessage
    {
      RootOr(taskFocus.softwareProject, NoFocusMessage)
    }

    /** `set-focus name`: the new root, or the fixed "not found" message;
        after a match `focus` shows that root, otherwise it shows what it
        showed before. */
    method SetFocus(name: string) returns (s: string)
      modifies taskFocus
      ensures var found := FindByRoot(taskFocus.repository.FindAll(), name);
        && s == RootOr(found, NotFoundMessage(name))
        && (found.Some? ==> Focus() == s)
        && (found.None? ==> Focus() == old(Focus()))
      ensures unchanged(taskFocus.repository)
    {
      var newFocus := taskFocus.SetFocus(name);
      s := RootOr(newFocus, NotFoundMessage(name));
    }
  }
}
