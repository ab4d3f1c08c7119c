/**
 The local archive (`check_for_archive`, `check_for_file` and
 `persist_commit_list` of commitViewer_v0_01.py): one JSON file per
 repository, named `<owner>_<repo>.json`, inside the archive directory. The
 directory's content is a map from file name to what a JSON load of that file
 gives.
 */
module Archive {
  import opened Strings
  import opened Records

  /** What loading an archive file gives: a parse failure, or the stored commit list. */
  datatype FileState = Unparsable | Parsed(commits: seq<CommitRecord>)

  /** The archive directory's files by name. */
  type Files = map<string, FileState>

  /** The archive directory before the lookup: present, missing but creatable, or missing and uncreatable. */
  datatype RootState = RootPresent | RootCreatable | RootUncreatable

  /** The outcome of the archive lookup. */
  datatype Lookup = Hit(commits: seq<CommitRecord>) | Miss | RootFailed

  /** The archive file name of a repository. */
  function FileName(owner: string, repo: string): string {
    owner + "_" + repo + ".json"
  }

  /**
   `check_for_file`: an uncreatable archive directory ends the program; a
   file that is missing or fails to parse is a miss; a parsed file is a hit.
   A directory that had to be created holds no files.
   */
  function CheckForFile(root: RootState, files: Files, owner: string, repo: string): (r: Lookup)
    ensures r.RootFailed? <==> root == RootUncreatable
    ensures r.Hit? <==> root == RootPresent && FileName(owner, repo) in files && files[FileName(owner, repo)].Parsed?
    ensures r.Hit? ==> files[FileName(owner, repo)] == Parsed(r.commits)
  {
    match root
    case RootUncreatable => RootFailed
    case RootCreatable => Miss
    case RootPresent =>
      var name := FileName(owner, repo);
      if name !in files then Miss
      else match files[name]
        case Unparsable => Miss
        case Parsed(commits) => Hit(commits)
  }

  /** `persist_commit_list`: the repository's file is overwritten wholesale with the list. */
  function Save(files: Files, owner: string, repo: string, commits: seq<CommitRecord>): (r: Files)
    ensures FileName(owner, repo) in r && r[FileName(owner, repo)] == Parsed(commits)
    ensures forall name :: name != FileName(owner, repo) ==> (name in r <==> name in files)
    ensures forall name :: name != FileName(owner, repo) && name in files ==> r[name] == files[name]
  {
    files[FileName(owner, repo) := Parsed(commits)]
  }

  /** A saved list is what the next lookup of the same repository finds. */
  lemma SaveThenLookup(files: Files, owner: string, repo: string, commits: seq<CommitRecord>)
    ensures CheckForFile(RootPresent, Save(files, owner, repo, commits), owner, repo) == Hit(commits)
  {
  }

  /**
   Two repositories share an archive file only when an owner name holds `_`:
   without one, the file name determines the owner and the repository.
   */
  lemma FileNameInjective(owner1: string, repo1: string, owner2: string, repo2: string)
    requires '_' !in owner1 && '_' !in owner2
    requires FileName(owner1, repo1) == FileName(owner2, repo2)
    ensures owner1 == owner2 && repo1 == repo2
  {
    var name := FileName(owner1, repo1);
    assert name == owner1 + ['_'] + (repo1 + ".json");
    assert name == owner2 + ['_'] + (repo2 + ".json");
    BeforeFirstOf(owner1, '_', repo1 + ".json");
    BeforeFirstOf(owner2, '_', repo2 + ".json");
    assert repo1 + ".json" == name[|owner1| + 1..];
    assert repo1 == (repo1 + ".json")[..|repo1|];
  }

  /** With a `_` in the owner, two different repositories collide on one file. */
  lemma FileNameCollision()
    ensures FileName("a_b", "c") == FileName("a", "b_c")
  {
  }
}
