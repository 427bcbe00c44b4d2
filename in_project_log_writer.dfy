/** The append-only JSONL audit log kept inside the focused project. The JSON
    serialiser is an input: any function from a log entry to its text. */
module InProjectLogWriter {

  import opened Strings
  import opened SoftwareProjects
  import opened CodeModification

  const DefaultLogPath: string := ".embabel/log.jsonl"

  /** One log line: the serialised entry followed by a newline. */
  function JsonLine(serialise: LogEntry -> string, entry: LogEntry): (line: string)
  {
    serialise(entry) + "\n"
  }

  /** A log line is the serialised entry with exactly one newline added, at
      its end; when the serialised entry has none, that end is the line's
      only newline. */
  lemma JsonLineShape(serialise: LogEntry -> string, entry: LogEntry)
    ensures var line := JsonLine(serialise, entry);
      && |line| == |serialise(entry)| + 1
      && line[..|line| - 1] == serialise(entry) && line[|line| - 1] == '\n'
      && (NoNewline(serialise(entry)) ==> forall k :: 0 <= k < |line| - 1 ==> line[k] != '\n')
  {
    var line := JsonLine(serialise, entry);
    assert line[..|line| - 1] == serialise(entry);
  }

  /** Writes both kinds of entry to the one file `path` of a project. */
  class InProjectLogWriter {
    const path: string
    const serialise: LogEntry -> string

    constructor (serialise: LogEntry -> string, path: string := DefaultLogPath)
      ensures this.path == path && this.serialise == serialise
    {
      this.path := path;
      this.serialise := serialise;
    }

    /** Appends the serialised request and a newline to the log file. */
    method LogRequest(request: CodeModificationRequest, project: WorkingTree)
      requires project.Valid()
      modifies project
      ensures project.Valid()
      ensures project.files == Appended(old(project.files), path, JsonLine(serialise, RequestEntry(request)))
      ensures project.changes == Record(old(project.changes), path)
    {
      var jsonLine := serialise(RequestEntry(request)) + "\n";
      project.AppendToFile(path, jsonLine);
    }

    /** Appends the serialised completion and a newline to the same file. */
    method LogResponse(success: SuccessfulCodeModification, project: WorkingTree)
      requires project.Valid()
      modifies project
      ensures project.Valid()
      ensures project.files == Appended(old(project.files), path, JsonLine(serialise, SuccessEntry(success)))
      ensures project.changes == Record(old(project.changes), path)
    {
      var jsonLine := serialise(SuccessEntry(success)) + "\n";
      project.AppendToFile(path, jsonLine);
    }
  }

  /** Appending one line to a log made of whole lines keeps the old text as a
      prefix, and, when the serialised entry holds no newline, the log then
      splits into exactly the old lines followed by that entry. */
  lemma AppendAddsOneLine(files: map<string, string>, path: string, lines: seq<string>,
                          serialise: LogEntry -> string, entry: LogEntry)
    requires Content(files, path) == JoinLines(lines)
    requires forall k :: 0 <= k < |lines| ==> NoNewline(lines[k])
    requires NoNewline(serialise(entry))
    ensures IsPrefix(Content(files, path), Content(Appended(files, path, JsonLine(serialise, entry)), path))
    ensures Content(Appended(files, path, JsonLine(serialise, entry)), path) == JoinLines(lines + [serialise(entry)])
    ensures SplitLines(Content(Appended(files, path, JsonLine(serialise, entry)), path)) == lines + [serialise(entry)]
  {
    var x := serialise(entry);
    JoinLinesAppend(lines, x);
    assert JoinLines(lines) + x + "\n" == JoinLines(lines) + JsonLine(serialise, entry);
    SplitJoinLines(lines + [x]);
  }
}
