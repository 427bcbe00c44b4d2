/** The SoftwareProject type the core works on. Its definition is not part of
    this model; only what the core relies on is kept: the descriptive value
    (root, url, technology text, coding style, build command, the
    "was just created" flag) and, separately, the mutable working tree under
    the root: its files and its change tracker (`flushChanges`,
    `getChanges`, `appendToFile`). */
module SoftwareProjects {

  import opened Wrappers
  import opened Strings

  /** The descriptive value of a project. `url` and `defaultCodingStyle` are
      `None`, and `wasCreated` is false, where a constructor call leaves them
      to the type's default; the type's own defaults are not part of this
      model, and false is assumed because `createProject` is the one caller
      that sets the flag, to true. */
  datatype SoftwareProject = SoftwareProject(
    root: string,
    url: Option<string>,
    tech: string,
    defaultCodingStyle: Option<string>,
    buildCommand: string,
    wasCreated: bool)

  // ---------------------------------------------------------------------
  // Finding a project by a fragment of its root: `find { it.root.contains(name) }`

  /** The index of the first project, in list order, whose root contains
      `name`. */
  function FirstIndexContaining(projects: seq<SoftwareProject>, name: string): (r: Option<nat>)
    ensures r.Some? ==> r.value < |projects| && Contains(projects[r.value].root, name)
    ensures r.Some? ==> forall j :: 0 <= j < r.value ==> !Contains(projects[j].root, name)
    ensures r.None? ==> forall j :: 0 <= j < |projects| ==> !Contains(projects[j].root, name)
  {
    if projects == [] then None
    else if Contains(projects[0].root, name) then Some(0)
    else
      match FirstIndexContaining(projects[1..], name)
      case None => None
      case Some(k) => Some(k + 1)
  }

  /** Kotlin's `find`: the first project whose root contains `name`, or none. */
  function FindByRoot(projects: seq<SoftwareProject>, name: string): (r: Option<SoftwareProject>)
    ensures r.Some? ==> r.value in projects && Contains(r.value.root, name)
    ensures r.Some? ==> exists i :: 0 <= i < |projects| && projects[i] == r.value &&
                          forall j :: 0 <= j < i ==> !Contains(projects[j].root, name)
    ensures r.None? <==> forall p :: p in projects ==> !Contains(p.root, name)
  {
    match FirstIndexContaining(projects, name)
    case None => None
    case Some(i) => Some(projects[i])
  }

  /** Every root contains the empty string, so an empty name matches the
      first project of a non-empty list. */
  lemma FindEmptyNameIsFirst(projects: seq<SoftwareProject>)
    requires |projects| > 0
    ensures FindByRoot(projects, "") == Some(projects[0])
  {
    ContainsEmpty(projects[0].root);
  }

  // ---------------------------------------------------------------------
  // The change set: an ordered set of paths

  predicate NoDuplicates(s: seq<string>) {
    forall i, j :: 0 <= i < j < |s| ==> s[i] != s[j]
  }

  /** A write to `path` marks it changed; a path already marked keeps its place. */
  function Record(changes: seq<string>, path: string): (r: seq<string>)
    ensures changes <= r
    ensures forall q :: q in r <==> q in changes || q == path
    ensures NoDuplicates(changes) ==> NoDuplicates(r)
  {
    if path in changes then changes else changes + [path]
  }

  /** The change set after writes to `paths`, in order. */
  function RecordAll(changes: seq<string>, paths: seq<string>): (r: seq<string>)
    ensures changes <= r
    ensures forall q :: q in r <==> q in changes || q in paths
    ensures NoDuplicates(changes) ==> NoDuplicates(r)
    decreases |paths|
  {
    if paths == [] then changes else RecordAll(Record(changes, paths[0]), paths[1..])
  }

  /** Recording two runs of writes is recording them one after the other. */
  lemma {:induction false} RecordAllAppend(changes: seq<string>, xs: seq<string>, ys: seq<string>)
    ensures RecordAll(changes, xs + ys) == RecordAll(RecordAll(changes, xs), ys)
    decreases |xs|
  {
    if xs != [] {
      assert (xs + ys)[1..] == xs[1..] + ys;
      RecordAllAppend(Record(changes, xs[0]), xs[1..], ys);
    } else {
      assert xs + ys == ys;
    }
  }

  /** A path not yet marked goes right after the paths already marked. */
  lemma RecordAllNewPath(m: seq<string>, p: string, rest: seq<string>)
    requires p !in m
    ensures m + [p] <= RecordAll(m, [p] + rest)
  {
    assert ([p] + rest)[1..] == rest;
  }

  /** The change set lists paths in the order of their first write: a path
      first written at `j`, and not marked before, comes after every path
      written earlier. */
  lemma RecordAllFirstWriteOrder(changes: seq<string>, paths: seq<string>, i: nat, j: nat)
    requires i < j < |paths|
    requires paths[j] !in changes && paths[j] !in paths[..j]
    ensures exists a, b :: (0 <= a < b < |RecordAll(changes, paths)| &&
                            RecordAll(changes, paths)[a] == paths[i] &&
                            RecordAll(changes, paths)[b] == paths[j])
  {
    RecordAllAt(changes, paths, j);
    var m := RecordAll(changes, paths[..j]);
    var p := paths[j];
    assert paths[i] == paths[..j][i] && paths[i] in m;
    var a :| 0 <= a < |m| && m[a] == paths[i];
    RecordAllNewPath(m, p, paths[j + 1..]);
    var r := RecordAll(changes, paths);
    assert (m + [p])[a] == paths[i] && (m + [p])[|m|] == p;
    assert r[a] == paths[i] && r[|m|] == p;
  }

  /** Recording `paths` is recording the writes before `j`, then the write
      at `j` and the rest. */
  lemma RecordAllAt(changes: seq<string>, paths: seq<string>, j: nat)
    requires j < |paths|
    ensures RecordAll(changes, paths) == RecordAll(RecordAll(changes, paths[..j]), [paths[j]] + paths[j + 1..])
  {
    assert paths == paths[..j] + ([paths[j]] + paths[j + 1..]);
    RecordAllAppend(changes, paths[..j], [paths[j]] + paths[j + 1..]);
  }

  // ---------------------------------------------------------------------
  // Files of the working tree

  datatype FileWrite = FileWrite(path: string, content: string)

  function Paths(writes: seq<FileWrite>): (ps: seq<string>)
    ensures |ps| == |writes|
    ensures forall k :: 0 <= k < |writes| ==> ps[k] == writes[k].path
  {
    if writes == [] then [] else [writes[0].path] + Paths(writes[1..])
  }

  /** The content of `path`; a missing file reads as empty. */
  function Content(files: map<string, string>, path: string): string {
    if path in files then files[path] else ""
  }

  /** `appendToFile(path, text, createIfNotExists = true)`: the file gains
      `text` at its end, is created if missing, and no other file changes. */
  function Appended(files: map<string, string>, path: string, text: string): (r: map<string, string>)
    ensures path in r && r[path] == Content(files, path) + text
    ensures IsPrefix(Content(files, path), r[path])
    ensures forall q :: q != path ==> (q in r <==> q in files) && (q in files ==> r[q] == files[q])
  {
    files[path := Content(files, path) + text]
  }

  /** The files after the writes, applied in order (a later write wins). */
  function Written(files: map<string, string>, writes: seq<FileWrite>): (r: map<string, string>)
    ensures forall q :: q !in Paths(writes) ==> (q in r <==> q in files) && (q in files ==> r[q] == files[q])
    ensures forall q :: q in Paths(writes) ==> q in r
    decreases |writes|
  {
    if writes == [] then files else Written(files[writes[0].path := writes[0].content], writes[1..])
  }

  /** A file no write touches keeps its content. */
  lemma WrittenKeepsContent(files: map<string, string>, writes: seq<FileWrite>, q: string)
    requires q !in Paths(writes)
    ensures Content(Written(files, writes), q) == Content(files, q)
  {
  }

  /** The working tree under a project's root: its files and the paths changed
      since the last flush. */
  class WorkingTree {
    var files: map<string, string>
    var changes: seq<string>

    ghost predicate Valid()
      reads this
    {
      NoDuplicates(changes)
    }

    constructor (files: map<string, string>)
      ensures Valid()
      ensures this.files == files && changes == []
    {
      this.files := files;
      changes := [];
    }

    /** `getChanges()`: the changed paths, in the order first changed. */
    function GetChanges(): (r: seq<string>)
      reads this
      requires Valid()
      ensures NoDuplicates(r)
      ensures forall q :: q in r <==> q in changes
    {
      changes
    }

    /** `flushChanges()`: the current files become the new baseline. */
    method FlushChanges()
      requires Valid()
      modifies this
      ensures Valid()
      ensures changes == [] && files == old(files)
    {
      changes := [];
    }

    /** `appendToFile(path, text, createIfNotExists = true)`. */
    method AppendToFile(path: string, text: string)
      requires Valid()
      modifies this
      ensures Valid()
      ensures files == Appended(old(files), path, text)
      ensures changes == Record(old(changes), path)
    {
      files := Appended(files, path, text);
      changes := Record(changes, path);
    }

    /** The edits an opaque collaborator (the LLM and its file tools) makes. */
    method ApplyWrites(writes: seq<FileWrite>)
      requires Valid()
      modifies this
      ensures Valid()
      ensures files == Written(old(files), writes)
      ensures changes == RecordAll(old(changes), Paths(writes))
    {
      files := Written(files, writes);
      changes := RecordAll(changes, Paths(writes));
    }
  }
}
