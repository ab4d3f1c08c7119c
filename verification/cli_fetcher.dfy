/**
 The CLI stage, `get_commits_viaCLI` and `verify_local_aux_repo` of
 commitViewer_v0_01.py: clear the scratch clone directory, clone, and unless
 the clone's error output reports bad credentials, normalise the `git log`
 output. The scratch directory, the presence of `git`, the clone's error
 output and the log text are inputs.
 */
module CliFetcher {
  import opened Wrappers
  import opened Strings
  import opened Records

  /** The scratch clone directory left by an earlier run: absent, removable, or impossible to remove. */
  datatype ScratchState = NoScratch | ScratchRemovable | ScratchStuck

  /** The marker in the clone's error output that makes the stage fail. */
  const AuthFailureMarker: string := "Invalid username or password"

  /**
   The outcome of the stage. `ScratchNotRemovable` and `GitMissing` end the
   program; `LogMalformed` is the exception a log line with too few fields
   raises, which nothing catches.
   */
  datatype CliOutcome =
    | CliFetched(commits: seq<CommitRecord>)
    | AuthFailed
    | ScratchNotRemovable
    | GitMissing
    | LogMalformed(error: CliError)

  /** `get_commits_viaCLI`. */
  function FetchViaCli(scratch: ScratchState, gitInstalled: bool, cloneErrors: string, log: string): (r: CliOutcome)
    ensures r.ScratchNotRemovable? <==> scratch == ScratchStuck
    ensures r.GitMissing? <==> scratch != ScratchStuck && !gitInstalled
    ensures r.AuthFailed? ==> Contains(cloneErrors, AuthFailureMarker)
    ensures r.CliFetched? ==> TransformCli(log, []) == Ok(r.commits)
    ensures r.CliFetched? ==> |r.commits| == multiset(log)['\n'] + 1
    ensures r.LogMalformed? ==> TransformCli(log, []) == Err(r.error)
  {
    if scratch == ScratchStuck then ScratchNotRemovable
    else if !gitInstalled then GitMissing
    else if Contains(cloneErrors, AuthFailureMarker) then AuthFailed
    else match TransformCli(log, [])
      case Ok(commits) => CliFetched(commits)
      case Err(e) => LogMalformed(e)
  }

  /**
   The stage fails, without ending the program, exactly when the marker
   appears anywhere in the clone's error output (and the scratch directory
   and `git` are usable).
   */
  lemma AuthMarkerFails(scratch: ScratchState, before: string, after: string, log: string)
    requires scratch != ScratchStuck
    ensures FetchViaCli(scratch, true, before + AuthFailureMarker + after, log) == AuthFailed
  {
    ContainsInfix(before, AuthFailureMarker, after);
  }

  /** Any other clone error output lets the stage go on to read the log. */
  lemma NoMarkerReadsLog(scratch: ScratchState, cloneErrors: string, log: string)
    requires scratch != ScratchStuck
    requires !Contains(cloneErrors, AuthFailureMarker)
    ensures FetchViaCli(scratch, true, cloneErrors, log).CliFetched?
         || FetchViaCli(scratch, true, cloneErrors, log).LogMalformed?
  {
  }
}
