# Commit viewer — Dafny model of the fetch-and-normalise core

The commit viewer (`commitViewer_v0_01.py`) reads a GitHub repository URL at a prompt and shows the
repository's commit list. It gets the list from three tiers, in order:

1. the local archive, which holds one JSON file per repository;
2. the GitHub REST API, with pagination through the `Link` header;
3. `git clone` followed by `git log`.

It stops at the first tier that succeeds. Both remote shapes, API entries and `git log` text, are
normalised into one record `{hash, author, date, message}`.

The model is functional. Strings are `seq<char>`. Every I/O step is an input:

- the HTTP host is an oracle `string -> Reply` keyed by URL, where a reply is a raised exception or a
  response with a status, an optional `Link` header and a body of entries;
- the archive directory is a map from file name to load result;
- the presence of the archive directory, the state of the scratch clone directory and whether `git`
  is installed are small enumerations;
- the clone's error output and the `git log` text are strings.

Modules, leaf first:

- `Wrappers` (wrappers.dfy): `Option` and `Result`.
- `Strings` (strings.dfy): the Python string operations the program uses, each with its Python
  semantics. This covers clamped slices `s[0:n]`, `s[1:]` and `s[:-1]`; `str.split` on a character,
  with its join round trip and part count; `str.split` on a substring; `str.replace`; and substring
  search.
- `Urls` (urls.dfy): URL validation in the main loop.
- `Records` (records.dfy): `transform_api_response` and `transform_cli_response`.
- `ApiFetcher` (api_fetcher.dfy): `get_commits_viaAPI` and its page loop.
- `CliFetcher` (cli_fetcher.dfy): `get_commits_viaCLI` and `verify_local_aux_repo`.
- `Archive` (archive.dfy): `check_for_archive`, `check_for_file` and `persist_commit_list`.
- `Resolver` (resolver.dfy): the fallback chain and one turn of the main loop.

In several places the code behaves in ways a reader might not expect, and the model follows the code:

- **Page ceiling.** `pageCounter` is incremented after each followed link, and the loop breaks once it
  exceeds 2. So a fetch consumes up to four pages, the first page plus three links, not three pages in
  total (`ApiFetcher.PageCeiling`).
- **Short CLI lines.** A `git log` line with fewer than four `;`-fields is not skipped. Indexing the
  missing field raises, and nothing catches the exception. The model gives an error result
  (`Records.TransformCli`), which surfaces as the `Crashed` outcome of a resolution. Empty log text is
  one empty line, so it fails in the same way (`Records.EmptyLogFails`).
- **Partial archive writes.** The API stage writes the list after every page. When a later request
  raises, the stage fails but the partial list stays in the archive. If the CLI stage then fails
  too, that partial list is still the repository's archive file.
- **Follow-up status.** Follow-up responses are used whatever their status; only the first response
  is checked against `"200 OK"`. A follow-up error reply whose body is a JSON object, such as the
  rate-limit refusal, crashes the program instead; that case is under "Left out".
- **Quote stripping.** The CLI normaliser drops the first character of the hash and the last character
  of the message. That removes the two quotes of `--pretty=format:'%h;%an;%ci;%s'` when those quotes
  reach `git` verbatim (`Records.NormalizeLogLine`). The command runs through a shell, and a POSIX
  shell strips the quotes, so there `git` writes bare lines. On the bare line
  `abc1234;Jane Doe;2019-11-01 10:00:00 +0000;Fix bug`, the code yields hash `bc1234` and message
  `Fix bu` (`Records.CliLineFields`).

## Model

| member | source | states |
|---|---|---|
| Urls.ParseUrl | commitViewer_v0_01.py:231-237 | Corrected validation. An accepted URL is exactly `https://github.com/` + owner + `/` + repo, with owner and repo non-empty and free of `/`. |
| Urls.ParseRepoUrl | commitViewer_v0_01.py:231-237 | Converse of `ParseUrl`: every URL of that form is accepted and yields its own owner and repo. Together the two give "accepted iff prefix + `<owner>/<repo>`". |
| Urls.ParseUrlAsWritten | commitViewer_v0_01.py:231-237 | Validation as written, with `split(prefix)[1]` as the segment. Whatever it accepts has non-empty, `/`-free owner and repo. The URL starts with prefix + owner + `/` + repo, and that text ends at the end of the URL or at a repeated prefix. |
| Urls.PrefixNotInName | commitViewer_v0_01.py:232-236 | The prefix never occurs inside the `<owner>/<repo>` text of a valid pair. |
| Urls.AsWrittenParsesRepoUrl | commitViewer_v0_01.py:231-237 | The written check accepts every repository URL as its own owner and repository. |
| Urls.AsWrittenAgrees | commitViewer_v0_01.py:232-236 | The written check and the corrected check give the same verdict on every URL whose remainder after the prefix does not contain the prefix again. |
| Urls.AsWrittenAcceptsTrailingText | commitViewer_v0_01.py:232-236 | The written check accepts a repository URL followed by the prefix and any text, as that repository. |
| Urls.ParseUrlRejectsTrailingText | commitViewer_v0_01.py:231-237 | The corrected check rejects those same URLs. |
| Records.NormalizeApiEntry | commitViewer_v0_01.py:128-132 | hash is a prefix of `sha` of length min(7, \|sha\|). author is copied. date is a prefix of the timestamp with no `T`, followed in the timestamp by `T` or by nothing. message has the source's length, contains no newline, and is the source character for character with each newline turned into a space. |
| Records.TransformApi | commitViewer_v0_01.py:120-133 | The output is the input list unchanged, followed by one normalised record per entry in entry order. |
| Records.TransformApiConcat | commitViewer_v0_01.py:166-174 | Transforming page after page onto the running list is the same as transforming all their entries at once. |
| Records.NormalizeCliLine | commitViewer_v0_01.py:144-147 | A line gives a record exactly when it holds at least three `;`, i.e. at least four fields. |
| Records.CliLineFields | commitViewer_v0_01.py:144-148 | For four `;`-free fields: hash = field 0 without its first character, author = field 1, date = the first min(10, \|field 2\|) characters of field 2, message = field 3 without its last character. |
| Records.CliLineExtraFields | commitViewer_v0_01.py:144-147 | Fields after the fourth are ignored, so text after a `;` in the message is lost. |
| Records.NormalizeLogLine | commitViewer_v0_01.py:144-147 | On the quoted line that `--pretty=format:'%h;%an;%ci;%s'` writes when the quotes reach `git` verbatim, the normaliser strips exactly the quotes and cuts the committer date to ten characters. |
| Records.NormalizeLogLineSemicolonSubject | commitViewer_v0_01.py:147 | A subject containing `;` becomes its text before the first `;`, minus the last character. |
| Records.NormalizeLines | commitViewer_v0_01.py:143-148 | Succeeds iff every line is accepted. On success: input list, then one record per line in order. On failure: the index of the first rejected line, with all earlier lines accepted. |
| Records.TransformCli | commitViewer_v0_01.py:135-149 | Succeeds iff every `\n`-separated line has at least four fields. On success: the input list, then one record per line in order, each the normalisation of its line; newline-count + 1 records. On failure: the reported line is a line of the log that is rejected, and every earlier line is accepted. |
| Records.EmptyLogFails | commitViewer_v0_01.py:141-145 | Empty log text fails at line 0. |
| Records.CliLogRoundTrip | commitViewer_v0_01.py:141-149 | A log of one or more quoted lines (the quotes reaching `git` verbatim), joined by newlines, normalises to the intended records in order after the input list. |
| ApiFetcher.NextPageUrlOf | commitViewer_v0_01.py:171 | A header `<url>;…` yields `url` whenever `url` holds no `;`. |
| ApiFetcher.FollowLinks | commitViewer_v0_01.py:169-178 | The loop extends the pages consumed so far. It stops after at most four pages in total, or at a page without a link, or at a raised request. The list is the normalised entries of every page consumed. |
| ApiFetcher.FetchViaApi | commitViewer_v0_01.py:151-181 | No page is consumed iff the first request raises or has a status other than `"200 OK"`. Each further page is the host's answer to the previous page's link. At most four pages are consumed. The list length is the sum of the page entry counts. Success iff a page was consumed and the ceiling or a page without a link ended the loop. A failure after the first page means the last link's request raised. |
| ApiFetcher.PageCeiling | commitViewer_v0_01.py:177-178 | With a host that always answers with a link, exactly four pages are consumed and the stage succeeds. |
| ApiFetcher.SinglePage | commitViewer_v0_01.py:163-169 | An accepted first response without `Link` gives success with that page's records only. |
| Archive.CheckForFile | commitViewer_v0_01.py:91-105 | Fatal iff the archive directory cannot be created. A hit iff the directory exists and the repository's file exists and parses, and then the hit returns the stored list. A missing or unparsable file is a miss. |
| Archive.Save | commitViewer_v0_01.py:107-118 | The repository's file now holds the list, and every other file is unchanged. |
| Archive.SaveThenLookup | commitViewer_v0_01.py:96-101 | A saved list is what the next lookup returns. |
| Archive.FileNameInjective | commitViewer_v0_01.py:96 | When neither owner contains `_`, equal archive file names mean equal owner and repository. |
| Archive.FileNameCollision | commitViewer_v0_01.py:96 | `a_b`/`c` and `a`/`b_c` share one archive file. |
| CliFetcher.FetchViaCli | commitViewer_v0_01.py:194-220 | The program exits iff the scratch directory cannot be removed, or `git` is missing. The stage fails only when the error output contains `Invalid username or password`. On success it returns exactly the normalised log, newline-count + 1 records. |
| CliFetcher.AuthMarkerFails | commitViewer_v0_01.py:211 | The marker anywhere in the clone's error output makes the stage fail. |
| CliFetcher.NoMarkerReadsLog | commitViewer_v0_01.py:211-217 | Without the marker the stage goes on to the log, which either normalises or raises. |
| Resolver.Resolve | commitViewer_v0_01.py:238-241 | Stages are attempted as a non-empty prefix of archive, API, CLI. The archive stage ends the program iff the directory cannot be created, and returns the stored list iff it hits. The API stage runs on a miss and gives the result iff it succeeds, with its list. The CLI stage runs exactly when the API fails: a CLI success gives its list, a rejected clone the overall error, a stuck scratch directory or missing `git` a fatal exit, and a malformed log the crash. Only the repository's own archive file can change (a directory that had to be created starts empty). An API or CLI result is left stored in that file; a failed API stage leaves its partial list unless the CLI replaces it. |
| Resolver.CacheHitShortCircuits | commitViewer_v0_01.py:238 | An archive hit returns the stored list after one stage, with the archive untouched. The result does not depend on the host, the scratch directory, `git`, the clone or the log. |
| Resolver.ApiSuccessSkipsCli | commitViewer_v0_01.py:239-240 | An API success ends after two stages, and the result does not depend on anything the CLI stage reads. |
| Resolver.UnresolvedIffAllStagesFail | commitViewer_v0_01.py:238-241 | The overall error is reported iff the archive misses, the API fails and the clone is rejected. |
| Resolver.UnreachableApiRejectedClone | commitViewer_v0_01.py:158-161 | If the archive misses, the first API request raises and the clone is rejected, the overall error follows all three stages and the archive is not written. |
| Resolver.FetchedListIsCached | commitViewer_v0_01.py:238-241 | After an API or CLI success, the next request for the same repository is an archive hit that returns that list. |
| Resolver.HandleLine | commitViewer_v0_01.py:224-249 | One turn as written. `e` exits and `h` shows help, each exactly for that line. A resolved line starts with the URL of a valid owner/repo pair, which ends at the end of the line or at a repeated prefix, and that pair is resolved. |
| Resolver.HandleLineCorrected | commitViewer_v0_01.py:224-249 | The same turn with the corrected check. A resolved line is exactly the URL of a valid owner/repo pair. |
| Resolver.RepoUrlIsResolved | commitViewer_v0_01.py:231-240 | Every repository URL is resolved for its own owner and repository, by both turns. |
| Resolver.TrailingTextResolvedAsWritten | commitViewer_v0_01.py:231-240 | A repository URL followed by the prefix and any text is resolved as that repository by the turn as written, and rejected by the corrected turn. |

## Findings

| source | as written | input that shows it | evidently intended | confidence | as-written member | corrected member |
|---|---|---|---|---|---|---|
| commitViewer_v0_01.py:232-236 | The owner/repo segment is `url.split("https://github.com/")[1]`, which ends where the prefix occurs a second time. | `https://github.com/o/rhttps://github.com/x` is accepted as owner `o`, repository `r`. | Accept only `https://github.com/<owner>/<repo>`, i.e. examine the whole remainder after the prefix, as the error message `Valid URL -> https://github.com/<user>/<repository>` says. | medium; not executed | Urls.ParseUrlAsWritten, Urls.AsWrittenAcceptsTrailingText, Resolver.HandleLine | Urls.ParseUrl, Urls.ParseRepoUrl, Urls.ParseUrlRejectsTrailingText, Resolver.HandleLineCorrected |

`Resolver.HandleLine` models the turn as written; `Resolver.HandleLineCorrected` uses the corrected
`Urls.ParseUrl`. `Urls.AsWrittenAgrees` shows that the two checks differ only on URLs that repeat the
prefix, and `Resolver.TrailingTextResolvedAsWritten` shows the two turns apart on such a URL.

## Left out

- HTTP requests, the 5-second timeout, `git clone`/`git log` subprocesses and the `clear` call are
  foreign I/O. Their results are inputs: the reply oracle, the clone's error output and the log text.
- JSON `load`/`dump` are library calls. A file is modelled as either unparsable or a stored commit
  list. A file that parses to some other JSON value is not modelled. Its verdict in the source depends
  on whether `print_commits` raises on it.
- `persist_commit_list` failures (its `open` is outside the `try`) are not modelled, and neither is
  the archive directory being removed during a run. The directory is taken to exist once the lookup
  succeeds.
- Missing keys in an API entry, a missing `status` header and a body that is not JSON raise uncaught exceptions in the
  source. Entries are modelled with all four fields present, and every response has a status.
- ApiFetcher.FetchViaApi: a follow-up body that is a non-empty JSON object (GitHub's error replies,
  including the rate-limit refusal) makes `response[i]` raise at line 128, outside any `try`, and the
  program ends. Bodies are modelled as lists of entries, so this crash is not modelled.
- Archive.CheckForFile: an archive file that exists but cannot be opened (a permission error, say)
  makes the `open` at line 97, outside the `try`, raise, and the program ends. A file is modelled as
  parsed or unparsable only, so this crash is not modelled; such a file is not a miss in the source.
- UTF-8 decoding of the clone's error output is not modelled, because strings are sequences of
  characters.
- `print_commits`, the colouring lambdas, the banner and help texts are presentation only. So is the
  repeated display after each API page; only the final content of the archive file is modelled.
- The interactive `input` loop is modelled one turn at a time (`Resolver.HandleLine`). The scratch
  directory left behind by a successful clone is an input to the next turn, not tracked across
  turns. The unused `threading` import has no behaviour.
- `sys.exit(0)` is the `Fatal` outcome; process termination itself is not modelled.
- Which link a `Link` header lists first belongs to the host. The fetcher follows the first bracketed
  URL whatever its `rel`, and the model does the same.
