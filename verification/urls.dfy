/**
 Validation of the repository URL typed at the prompt (commitViewer_v0_01.py,
 main loop). An accepted URL names an owner and a repository; both are
 non-empty and free of `/`.
 */
module Urls {
  import opened Wrappers
  import opened Strings

  /** The only accepted URL prefix; it is 19 characters long. */
  const GithubPrefix: string := "https://github.com/"

  /** The owner/repository pair a URL names. */
  datatype RepoId = RepoId(owner: string, repo: string)

  /** What an accepted URL guarantees about the pair it yields. */
  predicate ValidId(id: RepoId) {
    |id.owner| > 0 && |id.repo| > 0 && '/' !in id.owner && '/' !in id.repo
  }

  /** The web URL of a repository; the CLI fetcher clones from it. */
  function RepoUrl(id: RepoId): string {
    GithubPrefix + id.owner + "/" + id.repo
  }

  /**
   The checks applied to the text after the prefix: it is non-empty, it splits
   on `/` into exactly two parts, and both parts are non-empty.
   */
  function OwnerAndRepo(segment: string): (r: Option<RepoId>)
    ensures r.Some? ==> ValidId(r.value) && segment == r.value.owner + "/" + r.value.repo
  {
    if |segment| > 0 then
      var parts := Split(segment, '/');
      if |parts| == 2 && |parts[0]| > 0 && |parts[1]| > 0 then
        assert Join(parts, '/') == parts[0] + ['/'] + parts[1];
        Some(RepoId(parts[0], parts[1]))
      else
        None
    else
      None
  }

  /**
   The URL check as the main loop writes it: the segment examined is
   `url.split("https://github.com/")[1]`, which ends at a second occurrence
   of the prefix, if there is one.
   */
  function ParseUrlAsWritten(url: string): (r: Option<RepoId>)
    ensures r.Some? ==> ValidId(r.value)
    ensures r.Some? ==> RepoUrl(r.value) <= url
    ensures r.Some? ==> |url| == |RepoUrl(r.value)| || OccursAt(url, GithubPrefix, |RepoUrl(r.value)|)
  {
    if Take(url, |GithubPrefix|) != GithubPrefix then None
    else
      assert OccursAt(url, GithubPrefix, 0);
      var rest := url[|GithubPrefix|..];
      assert url == GithubPrefix + rest;
      assert SplitOn(url, GithubPrefix) == [url[..0]] + SplitOn(rest, GithubPrefix);
      var segment := SplitOn(url, GithubPrefix)[1];
      assert segment == SplitOn(rest, GithubPrefix)[0];
      var r := OwnerAndRepo(segment);
      SegmentEndsAtRepeat(url, rest, segment);
      r
  }

  /** The piece after the prefix is the URL's text up to its end or up to the next occurrence of the prefix. */
  lemma SegmentEndsAtRepeat(url: string, rest: string, segment: string)
    requires url == GithubPrefix + rest
    requires segment == SplitOn(rest, GithubPrefix)[0]
    ensures GithubPrefix + segment <= url
    ensures |url| == |GithubPrefix + segment| || OccursAt(url, GithubPrefix, |GithubPrefix + segment|)
  {
    match Find(rest, GithubPrefix)
    case None =>
    case Some(i) =>
      assert segment == rest[..i];
      assert url[|GithubPrefix| + i..|GithubPrefix| + i + |GithubPrefix|] == rest[i..i + |GithubPrefix|];
  }

  /**
   The URL check with the whole remainder after the prefix as the segment:
   a URL is accepted exactly when it is the prefix followed by
   `<owner>/<repo>`.
   */
  function ParseUrl(url: string): (r: Option<RepoId>)
    ensures r.Some? ==> ValidId(r.value) && url == RepoUrl(r.value)
  {
    if Take(url, |GithubPrefix|) != GithubPrefix then None
    else
      var r := OwnerAndRepo(url[|GithubPrefix|..]);
      assert r.Some? ==> url == GithubPrefix + url[|GithubPrefix|..];
      r
  }

  /** Every well-formed repository URL is accepted and yields its own owner and repository. */
  lemma ParseRepoUrl(id: RepoId)
    requires ValidId(id)
    ensures ParseUrl(RepoUrl(id)) == Some(id)
  {
    var url := RepoUrl(id);
    assert url[..|GithubPrefix|] == GithubPrefix;
    var segment := url[|GithubPrefix|..];
    assert segment == id.owner + ['/'] + id.repo;
    SplitJoin([id.owner, id.repo], '/');
  }

  /**
   The prefix never occurs inside `<owner>/<repo>`: it holds two adjacent
   `/`, and a valid pair's text holds a single `/`.
   */
  lemma PrefixNotInName(id: RepoId)
    requires ValidId(id)
    ensures !Contains(id.owner + "/" + id.repo, GithubPrefix)
  {
    var named := id.owner + "/" + id.repo;
    forall j: nat
      ensures !OccursAt(named, GithubPrefix, j)
    {
      if j + |GithubPrefix| <= |named| {
        var window := named[j..j + |GithubPrefix|];
        assert window[6] == named[j + 6] && window[7] == named[j + 7];
        if j + 6 < |id.owner| {
          assert named[j + 6] == id.owner[j + 6];
        } else if j + 6 > |id.owner| {
          assert named[j + 6] == id.repo[j + 6 - |id.owner| - 1];
        } else {
          assert named[j + 7] == id.repo[0];
        }
      }
    }
  }

  /** The URL check as written also accepts every repository URL as its own owner and repository. */
  lemma AsWrittenParsesRepoUrl(id: RepoId)
    requires ValidId(id)
    ensures ParseUrlAsWritten(RepoUrl(id)) == Some(id)
  {
    var url := RepoUrl(id);
    assert url[|GithubPrefix|..] == id.owner + "/" + id.repo;
    PrefixNotInName(id);
    AsWrittenAgrees(url);
    ParseRepoUrl(id);
  }

  /** Both readings agree unless the prefix occurs again after the first one. */
  lemma AsWrittenAgrees(url: string)
    requires |url| >= |GithubPrefix| ==> !Contains(url[|GithubPrefix|..], GithubPrefix)
    ensures ParseUrlAsWritten(url) == ParseUrl(url)
  {
    if Take(url, |GithubPrefix|) == GithubPrefix {
      var rest := url[|GithubPrefix|..];
      assert OccursAt(url, GithubPrefix, 0);
      assert url[|GithubPrefix|..] == rest;
      assert SplitOn(url, GithubPrefix) == [url[..0]] + SplitOn(rest, GithubPrefix);
    }
  }

  /**
   A repository URL followed by the prefix again and any text is accepted as
   written, naming the repository before the repeated prefix.
   */
  lemma AsWrittenAcceptsTrailingText(id: RepoId, trailing: string)
    requires ValidId(id)
    ensures ParseUrlAsWritten(RepoUrl(id) + GithubPrefix + trailing) == Some(id)
  {
    var url := RepoUrl(id) + GithubPrefix + trailing;
    var named := id.owner + "/" + id.repo;
    var rest := named + GithubPrefix + trailing;
    assert url == GithubPrefix + rest;
    assert url[..|GithubPrefix|] == GithubPrefix;
    assert url[|GithubPrefix|..] == rest;
    assert OccursAt(url, GithubPrefix, 0);
    assert SplitOn(url, GithubPrefix)[1] == SplitOn(rest, GithubPrefix)[0];
    FirstRepeatAfterName(id, trailing);
    assert SplitOn(rest, GithubPrefix)[0] == named;
    assert named == id.owner + ['/'] + id.repo;
    SplitJoin([id.owner, id.repo], '/');
  }

  /** The same URL is rejected once the whole remainder is examined: it holds more than one `/`. */
  lemma ParseUrlRejectsTrailingText(id: RepoId, trailing: string)
    requires ValidId(id)
    ensures ParseUrl(RepoUrl(id) + GithubPrefix + trailing) == None
  {
    var url := RepoUrl(id) + GithubPrefix + trailing;
    var after := id.repo + GithubPrefix + trailing;
    var rest := id.owner + ['/'] + after;
    assert url == GithubPrefix + rest;
    assert url[..|GithubPrefix|] == GithubPrefix;
    assert url[|GithubPrefix|..] == rest;
    SplitAfterPart(id.owner, after, '/');
    assert after[|id.repo| + 7] == '/';
    SplitOfSeparated(after, '/');
  }

  /**
   In `<owner>/<repo>` + prefix + trailing, the first prefix is the one after
   the pair's text: the prefix does not occur inside that text, and it cannot
   overlap its own copy, since its only other `h` (index 11) is followed by
   `u` where the copy has `t`.
   */
  lemma FirstRepeatAfterName(id: RepoId, trailing: string)
    requires ValidId(id)
    ensures Find(id.owner + "/" + id.repo + GithubPrefix + trailing, GithubPrefix) == Some(|id.owner + "/" + id.repo|)
  {
    var named := id.owner + "/" + id.repo;
    var s := named + GithubPrefix + trailing;
    var m := |named|;
    assert s[m..m + |GithubPrefix|] == GithubPrefix;
    assert OccursAt(s, GithubPrefix, m);
    PrefixNotInName(id);
    forall j: nat | j < m
      ensures !OccursAt(s, GithubPrefix, j)
    {
      if j + |GithubPrefix| <= m {
        assert s[j..j + |GithubPrefix|] == named[j..j + |GithubPrefix|];
        assert !OccursAt(named, GithubPrefix, j);
      } else if j + |GithubPrefix| <= |s| {
        var d := m - j;
        PrefixNoSelfOverlap(d);
        assert s[j..j + |GithubPrefix|][d..] == s[m..j + |GithubPrefix|];
        assert s[m..m + |GithubPrefix|][..|GithubPrefix| - d] == s[m..j + |GithubPrefix|];
      }
    }
  }

  /** No proper suffix of the prefix is also its beginning, so two occurrences never overlap. */
  lemma PrefixNoSelfOverlap(d: nat)
    requires 0 < d < |GithubPrefix|
    ensures GithubPrefix[d..] != GithubPrefix[..|GithubPrefix| - d]
  {
    if d == 11 {
      assert GithubPrefix[d..][1] == 'u' != 't' == GithubPrefix[..|GithubPrefix| - d][1];
    } else {
      assert GithubPrefix[d..][0] != 'h' == GithubPrefix[..|GithubPrefix| - d][0];
    }
  }
}
