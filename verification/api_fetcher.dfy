/**
 The API stage, `get_commits_viaAPI` of commitViewer_v0_01.py: one request to
 the commits endpoint, then the `Link` header is followed page by page until
 a page has no header or the page counter passes its limit. The host is an
 oracle from URL to reply.
 */
module ApiFetcher {
  import opened Wrappers
  import opened Strings
  import opened Records

  /** A response: the `status` header, the `Link` header if present, and the entries of the body. */
  datatype Response = Response(status: string, link: Option<string>, body: seq<ApiEntry>)

  /** What a request yields: an exception (network error, timeout) or a response. */
  datatype Reply = Raised | Answered(response: Response)

  /** The status the first response must carry for the stage to go on. */
  const StatusOk: string := "200 OK"

  /** The most pages one fetch consumes: the first page and three followed links. */
  const MaxPages: nat := 4

  /** The commits endpoint of a repository. */
  function ApiUrl(owner: string, repo: string): string {
    "https://api.github.com/repos/" + owner + "/" + repo + "/commits"
  }

  /**
   The next-page URL taken from a `Link` header: the text before the first
   `;` without its first and last characters (the angle brackets).
   */
  function NextPageUrl(link: string): string {
    DropLast(DropFirst(BeforeFirst(link, ';')))
  }

  /** A header `<url>; ...` yields `url` whenever `url` holds no `;`. */
  lemma NextPageUrlOf(url: string, params: string)
    requires ';' !in url
    ensures NextPageUrl("<" + url + ">" + ";" + params) == url
  {
    BeforeFirstOf("<" + url + ">", ';', params);
    assert "<" + url + ">" + ";" + params == ("<" + url + ">") + [';'] + params;
    var inner := DropFirst("<" + url + ">");
    assert inner == url + ">";
    assert DropLast(inner) + [inner[|inner| - 1]] == inner;
  }

  /** The outcome of the stage: whether it succeeded, the pages consumed in order, and the commit list built. */
  datatype ApiOutcome = ApiOutcome(ok: bool, pages: seq<Response>, commits: seq<CommitRecord>)

  /** All entries of the pages, page after page. */
  function Entries(pages: seq<Response>): seq<ApiEntry>
    decreases |pages|
  {
    if |pages| == 0 then [] else Entries(pages[..|pages| - 1]) + pages[|pages| - 1].body
  }

  /** The total number of entries on the pages. */
  function EntryCount(pages: seq<Response>): nat
    decreases |pages|
  {
    if |pages| == 0 then 0 else EntryCount(pages[..|pages| - 1]) + |pages[|pages| - 1].body|
  }

  lemma {:induction false} EntriesLength(pages: seq<Response>)
    ensures |Entries(pages)| == EntryCount(pages)
    decreases |pages|
  {
    if |pages| > 0 {
      EntriesLength(pages[..|pages| - 1]);
    }
  }

  /** `next` is what the host answers to the link of `page`. */
  predicate Follows(server: string -> Reply, page: Response, next: Response) {
    page.link.Some? && server(NextPageUrl(page.link.value)) == Answered(next)
  }

  /** Each page after the first is the host's answer to the link of the page before it. */
  predicate LinkChain(server: string -> Reply, pages: seq<Response>) {
    forall i :: 0 <= i < |pages| - 1 ==> Follows(server, pages[i], pages[i + 1])
  }

  /** The first request raised no exception and its response has the expected status. */
  predicate FirstAccepted(server: string -> Reply, url: string) {
    server(url).Answered? && server(url).response.status == StatusOk
  }

  /**
   The page loop. `current` is the last page consumed, `counter` the number of
   links already followed (`pageCounter`); a followed link adds a page and
   stops the loop once the counter exceeds 2.
   */
  function FollowLinks(server: string -> Reply, current: Response, counter: nat, pages: seq<Response>, commits: seq<CommitRecord>)
    : (res: ApiOutcome)
    requires counter <= 2
    requires |pages| == counter + 1 && pages[counter] == current
    requires LinkChain(server, pages)
    requires commits == TransformApi(Entries(pages), [])
    ensures pages <= res.pages && |res.pages| <= MaxPages
    ensures LinkChain(server, res.pages)
    ensures res.commits == TransformApi(Entries(res.pages), [])
    ensures res.ok <==> |res.pages| == MaxPages || res.pages[|res.pages| - 1].link.None?
    ensures !res.ok ==> res.pages[|res.pages| - 1].link.Some?
    ensures !res.ok ==> server(NextPageUrl(res.pages[|res.pages| - 1].link.value)) == Raised
    decreases 2 - counter
  {
    if current.link.None? then ApiOutcome(true, pages, commits)
    else
      match server(NextPageUrl(current.link.value))
      case Raised => ApiOutcome(false, pages, commits)
      case Answered(next) =>
        var pages' := pages + [next];
        var commits' := TransformApi(next.body, commits);
        assert pages'[..|pages'| - 1] == pages;
        TransformApiConcat(Entries(pages), next.body, []);
        assert LinkChain(server, pages') by {
          forall i | 0 <= i < |pages'| - 1
            ensures Follows(server, pages'[i], pages'[i + 1])
          {
            if i < |pages| - 1 {
              assert pages'[i] == pages[i] && pages'[i + 1] == pages[i + 1];
            }
          }
        }
        if counter + 1 > 2 then ApiOutcome(true, pages', commits')
        else FollowLinks(server, next, counter + 1, pages', commits')
  }

  /**
   `get_commits_viaAPI`: the stage fails on an exception or a status other
   than "200 OK" for the first request, and on an exception for any followed
   link; the commit list is the normalised entries of every page consumed.
   */
  function FetchViaApi(server: string -> Reply, owner: string, repo: string): (res: ApiOutcome)
    ensures |res.pages| <= MaxPages
    ensures |res.pages| == 0 <==> !FirstAccepted(server, ApiUrl(owner, repo))
    ensures |res.pages| > 0 ==> res.pages[0] == server(ApiUrl(owner, repo)).response
    ensures LinkChain(server, res.pages)
    ensures res.commits == TransformApi(Entries(res.pages), [])
    ensures |res.commits| == EntryCount(res.pages)
    ensures res.ok <==> |res.pages| > 0 && (|res.pages| == MaxPages || res.pages[|res.pages| - 1].link.None?)
    ensures !res.ok && |res.pages| > 0 ==> res.pages[|res.pages| - 1].link.Some?
    ensures !res.ok && |res.pages| > 0 ==> server(NextPageUrl(res.pages[|res.pages| - 1].link.value)) == Raised
  {
    var url := ApiUrl(owner, repo);
    var res :=
      match server(url)
      case Raised => ApiOutcome(false, [], [])
      case Answered(first) =>
        if first.status != StatusOk then ApiOutcome(false, [], [])
        else
          assert Entries([first]) == first.body by {
            assert [first][..0] == [];
          }
          FollowLinks(server, first, 0, [first], TransformApi(first.body, []));
    EntriesLength(res.pages);
    res
  }

  /**
   When the host always answers and every page carries a link, exactly four
   pages are consumed: the ceiling is reached without an error.
   */
  lemma PageCeiling(server: string -> Reply, owner: string, repo: string)
    requires FirstAccepted(server, ApiUrl(owner, repo))
    requires forall u :: server(u).Answered? && server(u).response.link.Some?
    ensures FetchViaApi(server, owner, repo).ok
    ensures |FetchViaApi(server, owner, repo).pages| == MaxPages
  {
    var res := FetchViaApi(server, owner, repo);
    assert server(NextPageUrl(res.pages[|res.pages| - 1].link.value)).Answered?;
  }

  /** When the first response has no `Link` header, the stage succeeds with that page alone. */
  lemma SinglePage(server: string -> Reply, owner: string, repo: string)
    requires FirstAccepted(server, ApiUrl(owner, repo))
    requires server(ApiUrl(owner, repo)).response.link.None?
    ensures FetchViaApi(server, owner, repo).ok
    ensures FetchViaApi(server, owner, repo).commits == TransformApi(server(ApiUrl(owner, repo)).response.body, [])
  {
    var res := FetchViaApi(server, owner, repo);
    var first := server(ApiUrl(owner, repo)).response;
    assert res.pages[0].link.None?;
    assert |res.pages| == 1 by {
      if |res.pages| > 1 {
        assert false;
      }
    }
    assert res.pages == [first];
    assert [first][..0] == [];
  }
}
