/**
 The main loop of commitViewer_v0_01.py: one line of operator input is an
 exit command, a help request, or a repository URL; an accepted URL is
 resolved by the archive, then the API, then the CLI, stopping at the first
 stage that succeeds. Everything the stages read from outside is part of
 the `World`.
 */
module Resolver {
  import opened Wrappers
  import opened Strings
  import opened Urls
  import opened Records
  import opened Archive
  import opened ApiFetcher
  import opened CliFetcher

  /** The outside state one resolution reads. */
  datatype World = World(
    root: RootState,
    files: Files,
    server: string -> Reply,
    scratch: ScratchState,
    gitInstalled: bool,
    cloneErrors: string,
    log: string)

  /** The three tiers, in the order they are tried. */
  datatype Stage = CacheStage | ApiStage | CliStage

  /** Why the program ended on its own. */
  datatype FatalReason = ArchiveUncreatable | ScratchUnremovable | GitNotInstalled

  /**
   How a resolution ended: with the list from one of the stages, with the
   overall error, with a fatal exit, or with the uncaught exception a
   malformed log line raises.
   */
  datatype Outcome =
    | FromCache(commits: seq<CommitRecord>)
    | FromApi(commits: seq<CommitRecord>)
    | FromCli(commits: seq<CommitRecord>)
    | Unresolved
    | Fatal(reason: FatalReason)
    | Crashed(error: CliError)

  /** The outcome, the stages attempted in order, and the archive files afterwards. */
  datatype Resolution = Resolution(outcome: Outcome, attempted: seq<Stage>, files: Files)

  /** True when only the repository's own archive file may differ between the two directories. */
  ghost predicate OnlyFileChanged(before: Files, after: Files, name: string) {
    forall other :: other != name ==>
      (other in after <==> other in before) && (other in before ==> after[other] == before[other])
  }

  /**
   The archive directory's files once `check_for_archive` has run: a
   directory that had to be created is empty.
   */
  function ArchiveFiles(w: World): (files: Files)
    ensures w.root == RootPresent ==> files == w.files
    ensures w.root != RootPresent ==> files == map[]
  {
    if w.root == RootPresent then w.files else map[]
  }

  /** The archive misses and the API stage fails, so the CLI stage runs. */
  predicate CliReached(w: World, id: RepoId) {
    CheckForFile(w.root, w.files, id.owner, id.repo).Miss? && !FetchViaApi(w.server, id.owner, id.repo).ok
  }

  /**
   The fallback chain at the bottom of the main loop (commitViewer_v0_01.py:238-241):
   archive, then API, then CLI, then the overall error. The API stage writes
   its list after every page it consumes, so a stage that fails on a later
   page leaves its partial list in the archive.
   */
  function Resolve(w: World, id: RepoId): (r: Resolution)
    ensures |r.attempted| >= 1 && r.attempted <= [CacheStage, ApiStage, CliStage]
    ensures OnlyFileChanged(ArchiveFiles(w), r.files, FileName(id.owner, id.repo))
    ensures r.outcome.FromApi? || r.outcome.FromCli? ==>
      FileName(id.owner, id.repo) in r.files && r.files[FileName(id.owner, id.repo)] == Parsed(r.outcome.commits)
    // The archive stage: an uncreatable directory ends the program, a hit ends the resolution.
    ensures CheckForFile(w.root, w.files, id.owner, id.repo).RootFailed? <==> r.outcome == Fatal(ArchiveUncreatable)
    ensures CheckForFile(w.root, w.files, id.owner, id.repo).Hit? <==> r.outcome.FromCache?
    ensures r.outcome.FromCache? ==>
      r.outcome.commits == CheckForFile(w.root, w.files, id.owner, id.repo).commits && r.files == w.files
    ensures r.outcome == Fatal(ArchiveUncreatable) || r.outcome.FromCache? ==> r.attempted == [CacheStage]
    // The API stage runs on a miss and ends the resolution when it succeeds.
    ensures r.outcome.FromApi? <==>
      CheckForFile(w.root, w.files, id.owner, id.repo).Miss? && FetchViaApi(w.server, id.owner, id.repo).ok
    ensures r.outcome.FromApi? ==>
      r.outcome.commits == FetchViaApi(w.server, id.owner, id.repo).commits && r.attempted == [CacheStage, ApiStage]
    // The CLI stage runs when the API fails; its outcome decides the resolution.
    ensures CliReached(w, id) <==> r.attempted == [CacheStage, ApiStage, CliStage]
    ensures CliReached(w, id) ==> match FetchViaCli(w.scratch, w.gitInstalled, w.cloneErrors, w.log)
      case CliFetched(commits) => r.outcome == FromCli(commits)
      case AuthFailed => r.outcome == Unresolved
      case ScratchNotRemovable => r.outcome == Fatal(ScratchUnremovable)
      case GitMissing => r.outcome == Fatal(GitNotInstalled)
      case LogMalformed(e) => r.outcome == Crashed(e)
    // A failed API stage leaves its partial list behind unless the CLI stage replaces it.
    ensures CliReached(w, id) && !r.outcome.FromCli? && |FetchViaApi(w.server, id.owner, id.repo).pages| > 0 ==>
      r.files == Save(ArchiveFiles(w), id.owner, id.repo, FetchViaApi(w.server, id.owner, id.repo).commits)
    ensures CliReached(w, id) && !r.outcome.FromCli? && |FetchViaApi(w.server, id.owner, id.repo).pages| == 0 ==>
      r.files == ArchiveFiles(w)
  {
    var owner := id.owner;
    var repo := id.repo;
    var files := ArchiveFiles(w);
    match CheckForFile(w.root, w.files, owner, repo)
    case RootFailed => Resolution(Fatal(ArchiveUncreatable), [CacheStage], files)
    case Hit(commits) => Resolution(FromCache(commits), [CacheStage], files)
    case Miss =>
      var api := FetchViaApi(w.server, owner, repo);
      var afterApi := if |api.pages| > 0 then Save(files, owner, repo, api.commits) else files;
      if api.ok then Resolution(FromApi(api.commits), [CacheStage, ApiStage], afterApi)
      else
        var stages := [CacheStage, ApiStage, CliStage];
        match FetchViaCli(w.scratch, w.gitInstalled, w.cloneErrors, w.log)
        case CliFetched(commits) => Resolution(FromCli(commits), stages, Save(afterApi, owner, repo, commits))
        case AuthFailed => Resolution(Unresolved, stages, afterApi)
        case ScratchNotRemovable => Resolution(Fatal(ScratchUnremovable), stages, afterApi)
        case GitMissing => Resolution(Fatal(GitNotInstalled), stages, afterApi)
        case LogMalformed(e) => Resolution(Crashed(e), stages, afterApi)
  }

  /**
   An archive hit ends the resolution at the first stage, leaves the archive
   as it was, and does not depend on the host, the scratch directory, `git`
   or the clone: neither the API nor the CLI is attempted.
   */
  lemma CacheHitShortCircuits(w: World, id: RepoId, server: string -> Reply, scratch: ScratchState,
                              gitInstalled: bool, cloneErrors: string, log: string)
    requires CheckForFile(w.root, w.files, id.owner, id.repo).Hit?
    ensures Resolve(w, id) == Resolution(FromCache(CheckForFile(w.root, w.files, id.owner, id.repo).commits), [CacheStage], w.files)
    ensures Resolve(w, id) == Resolve(World(w.root, w.files, server, scratch, gitInstalled, cloneErrors, log), id)
  {
  }

  /** An API success ends the resolution at the second stage and does not depend on anything the CLI reads. */
  lemma ApiSuccessSkipsCli(w: World, id: RepoId, scratch: ScratchState, gitInstalled: bool, cloneErrors: string, log: string)
    requires CheckForFile(w.root, w.files, id.owner, id.repo).Miss?
    requires FetchViaApi(w.server, id.owner, id.repo).ok
    ensures Resolve(w, id).outcome == FromApi(FetchViaApi(w.server, id.owner, id.repo).commits)
    ensures Resolve(w, id).attempted == [CacheStage, ApiStage]
    ensures Resolve(w, id) == Resolve(World(w.root, w.files, w.server, scratch, gitInstalled, cloneErrors, log), id)
  {
  }

  /** The overall error is reported exactly when all three stages fail. */
  lemma UnresolvedIffAllStagesFail(w: World, id: RepoId)
    ensures Resolve(w, id).outcome == Unresolved <==>
      CheckForFile(w.root, w.files, id.owner, id.repo).Miss?
      && !FetchViaApi(w.server, id.owner, id.repo).ok
      && FetchViaCli(w.scratch, w.gitInstalled, w.cloneErrors, w.log).AuthFailed?
  {
  }

  /**
   With an archive miss, an API whose first request raises and a clone
   rejected for bad credentials, the overall error is reported after all
   three stages and the archive is not written.
   */
  lemma UnreachableApiRejectedClone(w: World, id: RepoId, before: string, after: string)
    requires CheckForFile(w.root, w.files, id.owner, id.repo).Miss?
    requires w.server(ApiUrl(id.owner, id.repo)) == Raised
    requires w.scratch != ScratchStuck && w.gitInstalled
    requires w.cloneErrors == before + AuthFailureMarker + after
    ensures Resolve(w, id).outcome == Unresolved
    ensures Resolve(w, id).attempted == [CacheStage, ApiStage, CliStage]
    ensures Resolve(w, id).files == ArchiveFiles(w)
  {
    AuthMarkerFails(w.scratch, before, after, w.log);
  }

  /** A list fetched by the API or the CLI is found in the archive by the next request for the same repository. */
  lemma FetchedListIsCached(w: World, id: RepoId)
    requires Resolve(w, id).outcome.FromApi? || Resolve(w, id).outcome.FromCli?
    ensures Resolve(w.(root := RootPresent, files := Resolve(w, id).files), id)
      == Resolution(FromCache(Resolve(w, id).outcome.commits), [CacheStage], Resolve(w, id).files)
  {
  }

  /** What one line of operator input does. */
  datatype Step = Exited | HelpShown | UrlRejected | Resolved(id: RepoId, resolution: Resolution)

  /**
   One turn of the main loop as written (commitViewer_v0_01.py:224-249): `e`
   exits, `h` shows help, and any other line is a URL that is resolved if the
   written check accepts it. That check reads the owner and repository up to
   the end of the line or up to a repeated `https://github.com/`.
   */
  function HandleLine(w: World, line: string): (s: Step)
    ensures s.Exited? <==> line == "e"
    ensures s.HelpShown? <==> line == "h"
    ensures s.Resolved? ==> ValidId(s.id) && RepoUrl(s.id) <= line
    ensures s.Resolved? ==> |line| == |RepoUrl(s.id)| || OccursAt(line, GithubPrefix, |RepoUrl(s.id)|)
    ensures s.Resolved? ==> s.resolution == Resolve(w, s.id)
    ensures s.UrlRejected? ==> line != "e" && line != "h"
  {
    if line == "e" then Exited
    else if line == "h" then HelpShown
    else match ParseUrlAsWritten(line)
      case None => UrlRejected
      case Some(id) => Resolved(id, Resolve(w, id))
  }

  /** The same turn with the corrected URL check: a resolved line is exactly a repository URL. */
  function HandleLineCorrected(w: World, line: string): (s: Step)
    ensures s.Exited? <==> line == "e"
    ensures s.HelpShown? <==> line == "h"
    ensures s.Resolved? ==> ValidId(s.id) && line == RepoUrl(s.id)
    ensures s.Resolved? ==> s.resolution == Resolve(w, s.id)
    ensures s.UrlRejected? ==> line != "e" && line != "h"
  {
    if line == "e" then Exited
    else if line == "h" then HelpShown
    else match ParseUrl(line)
      case None => UrlRejected
      case Some(id) => Resolved(id, Resolve(w, id))
  }

  /** Every repository URL is resolved for its own owner and repository, by either turn. */
  lemma RepoUrlIsResolved(w: World, id: RepoId)
    requires ValidId(id)
    ensures HandleLine(w, RepoUrl(id)) == Resolved(id, Resolve(w, id))
    ensures HandleLineCorrected(w, RepoUrl(id)) == Resolved(id, Resolve(w, id))
  {
    AsWrittenParsesRepoUrl(id);
    ParseRepoUrl(id);
    assert RepoUrl(id)[0] == 'h';
    assert |RepoUrl(id)| > 1;
  }

  /**
   A repository URL followed by the prefix again and any text is resolved as
   that repository by the turn as written, and rejected by the corrected turn.
   */
  lemma TrailingTextResolvedAsWritten(w: World, id: RepoId, trailing: string)
    requires ValidId(id)
    ensures HandleLine(w, RepoUrl(id) + GithubPrefix + trailing) == Resolved(id, Resolve(w, id))
    ensures HandleLineCorrected(w, RepoUrl(id) + GithubPrefix + trailing) == UrlRejected
  {
    var line := RepoUrl(id) + GithubPrefix + trailing;
    AsWrittenAcceptsTrailingText(id, trailing);
    ParseUrlRejectsTrailingText(id, trailing);
    assert line[0] == 'h';
    assert |line| > 1;
  }
}
