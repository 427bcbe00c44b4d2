/** The project repository loaded from disk: each `pom.xml` path found under
    the configured root becomes a project whose root is that path without the
    file name. The file search is an input. The in-memory store keeps
    projects in insertion order, keyed by root. */
module ProjectRepository {

  import opened Wrappers
  import opened Strings
  import opened SoftwareProjects

  const PomGlob: string := "**/pom.xml"
  const PomFileName: string := "pom.xml"
  const PlaceholderUrl: string := "TODO: call git"
  const MavenBuildCommand: string := "mvn test"
  /** The technology text after `trimMargin`. */
  const MavenTech: string := "Maven, Java, Spring Boot\nJUnit 5, Mockito\n"

  /** Only the highest `pom.xml` of a tree is kept unless nested projects are wanted. */
  function FindHighest(findNestedProjects: bool): (r: bool)
    ensures r != findNestedProjects
  {
    !findNestedProjects
  }

  /** The project for one found `pom.xml` path: its root is the path with
      "pom.xml" removed, so strictly shorter whenever the path names one, and
      the rest is fixed. */
  function ProjectFromPom(pomPath: string): (p: SoftwareProject)
    ensures p.root == RemoveAll(pomPath, PomFileName)
    ensures Contains(pomPath, PomFileName) ==> |p.root| < |pomPath|
    ensures !Contains(pomPath, PomFileName) ==> p.root == pomPath
    ensures p.url == Some(PlaceholderUrl) && p.buildCommand == MavenBuildCommand && p.tech == MavenTech
    ensures p.defaultCodingStyle.None? && !p.wasCreated
  {
    RemoveAllUnchangedIff(pomPath, PomFileName);
    SoftwareProject(
      root := RemoveAll(pomPath, PomFileName),
      url := Some(PlaceholderUrl),
      tech := MavenTech,
      defaultCodingStyle := None,
      buildCommand := MavenBuildCommand,
      wasCreated := false)
  }

  /** One project per found path, in the same order. */
  function FindProjectsUnderRoot(pomFiles: seq<string>): (projects: seq<SoftwareProject>)
    ensures |projects| == |pomFiles|
    ensures forall i :: 0 <= i < |pomFiles| ==>
      && projects[i].root == RemoveAll(pomFiles[i], PomFileName)
      && projects[i].url == Some(PlaceholderUrl)
      && projects[i].buildCommand == MavenBuildCommand
      && projects[i].tech == MavenTech
      && !projects[i].wasCreated
  {
    seq(|pomFiles|, i requires 0 <= i < |pomFiles| => ProjectFromPom(pomFiles[i]))
  }

  /** A directory whose name contains "pom.xml" loses that part of its name
      too: `replace` removes every occurrence, not only the file name. */
  lemma PomInDirectoryName()
    ensures ProjectFromPom("pom.xml-d/pom.xml").root == "-d/"
  {
    var s := "pom.xml-d/pom.xml";
    assert OccursAt(s, PomFileName, 0);
    RemoveAllLeftmost(s, PomFileName, 0);
    assert s[7..] == "-d/pom.xml";
    PomAfterDirectory();
  }

  lemma PomAfterDirectory()
    ensures RemoveAll("-d/pom.xml", PomFileName) == "-d/"
  {
    var t := "-d/pom.xml";
    assert OccursAt(t, PomFileName, 3);
    forall j | 0 <= j < 3
      ensures !OccursAt(t, PomFileName, j)
    {
      assert t[j] != 'p';
    }
    RemoveAllLeftmost(t, PomFileName, 3);
    assert t[10..] == "";
  }

  /** For a path `dir + "/pom.xml"` whose directory part does not itself
      contain "pom.xml", the root is the directory with its trailing slash. */
  lemma PomPathRoot(dir: string)
    requires !Contains(dir, PomFileName)
    ensures ProjectFromPom(dir + "/" + PomFileName).root == dir + "/"
  {
    var a := dir + "/";
    assert dir + "/" + PomFileName == a + PomFileName;
    forall i | 0 <= i < |a|
      ensures !IsPrefix(PomFileName, (a + PomFileName)[i..])
    {
      var w := (a + PomFileName)[i..];
      if i + |PomFileName| <= |dir| {
        if IsPrefix(PomFileName, w) {
          assert dir[i..i + |PomFileName|] == w[..|PomFileName|];
          ContainsIffOccurs(dir, PomFileName);
          assert OccursAt(dir, PomFileName, i);
          assert false;
        }
      } else {
        var k := |dir| - i;
        assert 0 <= k < |PomFileName| && k < |w|;
        assert w[k] == '/';
        assert PomFileName[k] != '/';
        if |PomFileName| <= |w| {
          assert w[..|PomFileName|][k] != PomFileName[k];
        }
      }
    }
    RemoveAllTrailing(a, PomFileName);
  }

  // ---------------------------------------------------------------------
  // The in-memory store, keyed by `root`

  /** The id of a project is its root. */
  function Id(p: SoftwareProject): string {
    p.root
  }

  predicate UniqueIds(projects: seq<SoftwareProject>) {
    forall i, j :: 0 <= i < j < |projects| ==> Id(projects[i]) != Id(projects[j])
  }

  function IndexOfId(projects: seq<SoftwareProject>, id: string): (r: Option<nat>)
    ensures r.Some? ==> r.value < |projects| && Id(projects[r.value]) == id
    ensures r.None? ==> forall j :: 0 <= j < |projects| ==> Id(projects[j]) != id
  {
    if projects == [] then None
    else if Id(projects[0]) == id then Some(0)
    else
      match IndexOfId(projects[1..], id)
      case None => None
      case Some(k) => Some(k + 1)
  }

  /** Saving replaces the project with the same id in place, or appends. */
  function Saved(projects: seq<SoftwareProject>, p: SoftwareProject): (r: seq<SoftwareProject>)
    ensures p in r
    ensures UniqueIds(projects) ==> UniqueIds(r)
    ensures forall q :: q in r ==> q == p || q in projects
    ensures UniqueIds(projects) ==> forall q :: q in r && q != p ==> Id(q) != Id(p)
    ensures forall q :: q in projects && Id(q) != Id(p) ==> q in r
  {
    match IndexOfId(projects, Id(p))
    case Some(i) =>
      var r := projects[i := p];
      assert r[i] == p;
      assert forall k :: 0 <= k < |r| && k != i ==> r[k] == projects[k];
      assert UniqueIds(projects) ==> forall k :: 0 <= k < |projects| && k != i ==> Id(projects[k]) != Id(p);
      r
    case None => projects + [p]
  }

  /** Saving each project of `ps` in turn: ids stay unique and nothing is
      added that was neither stored nor saved. */
  function SavedAll(projects: seq<SoftwareProject>, ps: seq<SoftwareProject>): (r: seq<SoftwareProject>)
    ensures UniqueIds(projects) ==> UniqueIds(r)
    ensures forall q :: q in r ==> q in projects || q in ps
    decreases |ps|
  {
    if ps == [] then projects else SavedAll(Saved(projects, ps[0]), ps[1..])
  }

  lemma {:induction false} SavedAllSnoc(projects: seq<SoftwareProject>, ps: seq<SoftwareProject>, p: SoftwareProject)
    ensures SavedAll(projects, ps + [p]) == Saved(SavedAll(projects, ps), p)
    decreases |ps|
  {
    if ps == [] {
      assert [p][1..] == [];
    } else {
      assert (ps + [p])[1..] == ps[1..] + [p];
      SavedAllSnoc(Saved(projects, ps[0]), ps[1..], p);
    }
  }

  /** Saving the first `i + 1` projects is saving the first `i`, then the next. */
  lemma SavedAllNext(projects: seq<SoftwareProject>, ps: seq<SoftwareProject>, i: nat)
    requires i < |ps|
    ensures SavedAll(projects, ps[..i + 1]) == Saved(SavedAll(projects, ps[..i]), ps[i])
  {
    assert ps[..i + 1] == ps[..i] + [ps[i]];
    SavedAllSnoc(projects, ps[..i], ps[i]);
  }

  /** After saving a list into a store with unique ids, ids are still
      unique, every saved root is present, and nothing else was added. */
  lemma {:induction false} SavedAllRoots(projects: seq<SoftwareProject>, ps: seq<SoftwareProject>)
    requires UniqueIds(projects)
    ensures UniqueIds(SavedAll(projects, ps))
    ensures forall q :: q in ps ==> exists r :: r in SavedAll(projects, ps) && Id(r) == Id(q)
    ensures forall r :: r in SavedAll(projects, ps) ==> r in projects || r in ps
    decreases |ps|
  {
    if ps != [] {
      var next := Saved(projects, ps[0]);
      SavedAllRoots(next, ps[1..]);
      var all := SavedAll(next, ps[1..]);
      assert exists r :: r in all && Id(r) == Id(ps[0]) by {
        assert ps[0] in next;
        SavedKeepsId(next, ps[1..], ps[0]);
      }
    }
  }

  lemma {:induction false} SavedKeepsId(projects: seq<SoftwareProject>, ps: seq<SoftwareProject>, q: SoftwareProject)
    requires q in projects
    ensures exists r :: r in SavedAll(projects, ps) && Id(r) == Id(q)
    decreases |ps|
  {
    if ps != [] {
      var next := Saved(projects, ps[0]);
      assert SavedAll(projects, ps) == SavedAll(next, ps[1..]);
      if Id(q) == Id(ps[0]) {
        assert ps[0] in next;
        SavedKeepsId(next, ps[1..], ps[0]);
      } else {
        assert q in next;
        SavedKeepsId(next, ps[1..], q);
      }
    } else {
      assert q in SavedAll(projects, ps) && Id(q) == Id(q);
    }
  }

  // ---------------------------------------------------------------------
  // The startup listing: the roots, sorted

  predicate SortedByRoot(ps: seq<SoftwareProject>) {
    forall i, j :: 0 <= i < j < |ps| ==> StrLe(ps[i].root, ps[j].root)
  }

  function InsertByRoot(p: SoftwareProject, sorted: seq<SoftwareProject>): (r: seq<SoftwareProject>)
    requires SortedByRoot(sorted)
    ensures SortedByRoot(r)
    ensures multiset(r) == multiset(sorted) + multiset{p}
  {
    if sorted == [] then [p]
    else if StrLe(p.root, sorted[0].root) then
      PrependBelowHead(p, sorted);
      [p] + sorted
    else
      var rest := InsertByRoot(p, sorted[1..]);
      assert sorted == [sorted[0]] + sorted[1..];
      PrependBelowAll(sorted[0], p, sorted[1..], rest);
      [sorted[0]] + rest
  }

  /** A project whose root is no greater than any root of a sorted list
      can go in front. */
  lemma PrependSorted(x: SoftwareProject, r: seq<SoftwareProject>)
    requires SortedByRoot(r)
    requires forall k :: 0 <= k < |r| ==> StrLe(x.root, r[k].root)
    ensures SortedByRoot([x] + r)
  {
    var xr := [x] + r;
    forall i, j | 0 <= i < j < |xr|
      ensures StrLe(xr[i].root, xr[j].root)
    {
      assert xr[j] == r[j - 1];
      if i > 0 {
        assert xr[i] == r[i - 1];
      }
    }
  }

  lemma PrependBelowHead(p: SoftwareProject, sorted: seq<SoftwareProject>)
    requires SortedByRoot(sorted) && sorted != [] && StrLe(p.root, sorted[0].root)
    ensures SortedByRoot([p] + sorted)
  {
    forall k | 0 <= k < |sorted|
      ensures StrLe(p.root, sorted[k].root)
    {
      if k > 0 {
        StrLeTrans(p.root, sorted[0].root, sorted[k].root);
      }
    }
    PrependSorted(p, sorted);
  }

  /** The head of a sorted list stays in front when `p`, which sorts after
      it, is inserted into the tail. */
  lemma PrependBelowAll(x: SoftwareProject, p: SoftwareProject, tail: seq<SoftwareProject>, rest: seq<SoftwareProject>)
    requires SortedByRoot([x] + tail) && SortedByRoot(rest)
    requires !StrLe(p.root, x.root)
    requires multiset(rest) == multiset(tail) + multiset{p}
    ensures SortedByRoot([x] + rest)
  {
    StrLeTotal(p.root, x.root);
    forall k | 0 <= k < |rest|
      ensures StrLe(x.root, rest[k].root)
    {
      assert rest[k] in multiset(rest);
      if rest[k] != p {
        assert rest[k] in multiset(tail);
        var m :| 0 <= m < |tail| && tail[m] == rest[k];
        assert ([x] + tail)[0] == x && ([x] + tail)[m + 1] == rest[k];
      }
    }
    PrependSorted(x, rest);
  }

  /** `sortedBy { it.root }`: the same projects, ordered by root. */
  function SortByRoot(ps: seq<SoftwareProject>): (r: seq<SoftwareProject>)
    ensures SortedByRoot(r)
    ensures multiset(r) == multiset(ps)
  {
    if ps == [] then []
    else
      assert ps == [ps[0]] + ps[1..];
      InsertByRoot(ps[0], SortByRoot(ps[1..]))
  }

  function Roots(ps: seq<SoftwareProject>): (rs: seq<string>)
    ensures |rs| == |ps| && forall k :: 0 <= k < |ps| ==> rs[k] == ps[k].root
  {
    if ps == [] then [] else [ps[0].root] + Roots(ps[1..])
  }

  /** The second startup log message: the sorted roots, one per tab-indented line. */
  function StartupListing(ps: seq<SoftwareProject>): (listing: string)
    ensures IsPrefix("Projects:\n\t", listing)
    ensures ps == [] ==> listing == "Projects:\n\t"
    ensures |ps| == 1 ==> listing == "Projects:\n\t" + ps[0].root
    ensures exists s :: (SortedByRoot(s) && multiset(s) == multiset(ps) &&
                         listing == "Projects:\n\t" + JoinWith(Roots(s), "\n\t"))
  {
    assert IsPrefix("Projects:\n\t", "Projects:\n\t" + JoinWith(Roots(SortByRoot(ps)), "\n\t"));
    "Projects:\n\t" + JoinWith(Roots(SortByRoot(ps)), "\n\t")
  }

  /** The repository, a list of projects with distinct roots. */
  class FromDiskSoftwareProjectRepository {
    var projects: seq<SoftwareProject>

    ghost predicate Valid()
      reads this
    {
      UniqueIds(projects)
    }

    /** `init`: find the `pom.xml` files under the root and save a project for
        each. `findFiles(glob, findHighest)` stands for the file search. */
    constructor (findNestedProjects: bool, findFiles: (string, bool) -> seq<string>)
      ensures Valid()
      ensures projects == SavedAll([], FindProjectsUnderRoot(findFiles(PomGlob, FindHighest(findNestedProjects))))
    {
      projects := [];
      new;
      SaveAll(FindProjectsUnderRoot(findFiles(PomGlob, !findNestedProjects)));
    }

    /** `findAll()`: the projects in store order. */
    function FindAll(): (all: seq<SoftwareProject>)
      reads this
      ensures Valid() ==> UniqueIds(all)
      ensures forall p :: p in all <==> p in projects
    {
      projects
    }

    method Save(p: SoftwareProject)
      requires Valid()
      modifies this
      ensures Valid()
      ensures projects == Saved(old(projects), p)
    {
      projects := Saved(projects, p);
    }

    method SaveAll(ps: seq<SoftwareProject>)
      requires Valid()
      modifies this
      ensures Valid()
      ensures projects == SavedAll(old(projects), ps)
    {
      var i := 0;
      while i < |ps|
        invariant 0 <= i <= |ps|
        invariant Valid()
        invariant projects == SavedAll(old(projects), ps[..i])
      {
        SavedAllNext(old(projects), ps, i);
        Save(ps[i]);
        i := i + 1;
      }
      assert ps[..i] == ps;
    }
  }
}
