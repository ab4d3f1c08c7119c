/**
 The record normaliser: `transform_api_response` and `transform_cli_response`
 of commitViewer_v0_01.py turn the two raw shapes (API entries, `git log`
 text) into one canonical commit record and append the records, in source
 order, to an existing list.
 */
module Records {
  import opened Wrappers
  import opened Strings

  /** The canonical record shown to the operator and written to the archive. */
  datatype CommitRecord = CommitRecord(hash: string, author: string, date: string, message: string)

  /**
   The fields of one API commit entry that the normaliser reads: `sha`,
   `commit.author.name`, `commit.author.date` and `commit.message`.
   */
  datatype ApiEntry = ApiEntry(sha: string, authorName: string, authorDate: string, message: string)

  /** Length of the abbreviated hash kept from the API's full `sha`. */
  const HashLength: nat := 7

  /** Length of the `YYYY-MM-DD` date kept from the CLI's committer date. */
  const DateLength: nat := 10

  /** Normalises one API entry (commitViewer_v0_01.py:128-132). */
  function NormalizeApiEntry(e: ApiEntry): (c: CommitRecord)
    ensures c.hash <= e.sha && |c.hash| == (if |e.sha| < HashLength then |e.sha| else HashLength)
    ensures c.author == e.authorName
    ensures c.date <= e.authorDate && 'T' !in c.date
    ensures |c.date| < |e.authorDate| ==> e.authorDate[|c.date|] == 'T'
    ensures |c.message| == |e.message| && '\n' !in c.message
    ensures forall i :: 0 <= i < |e.message| && e.message[i] != '\n' ==> c.message[i] == e.message[i]
    ensures forall i :: 0 <= i < |e.message| && e.message[i] == '\n' ==> c.message[i] == ' '
  {
    CommitRecord(
      Take(e.sha, HashLength),
      e.authorName,
      BeforeFirst(e.authorDate, 'T'),
      ReplaceChar(e.message, '\n', ' '))
  }

  /**
   `transform_api_response`: appends one normalised record per entry, in
   order, to `acc`, leaving `acc` itself untouched.
   */
  function TransformApi(entries: seq<ApiEntry>, acc: seq<CommitRecord>): (out: seq<CommitRecord>)
    ensures |out| == |acc| + |entries|
    ensures out[..|acc|] == acc
    ensures forall i :: 0 <= i < |entries| ==> out[|acc| + i] == NormalizeApiEntry(entries[i])
    decreases |entries|
  {
    if |entries| == 0 then acc
    else TransformApi(entries[1..], acc + [NormalizeApiEntry(entries[0])])
  }

  /** Transforming two batches one after the other is transforming their concatenation. */
  lemma TransformApiConcat(first: seq<ApiEntry>, second: seq<ApiEntry>, acc: seq<CommitRecord>)
    ensures TransformApi(second, TransformApi(first, acc)) == TransformApi(first + second, acc)
  {
    var lhs := TransformApi(second, TransformApi(first, acc));
    var rhs := TransformApi(first + second, acc);
    assert |lhs| == |rhs|;
    forall i | 0 <= i < |lhs|
      ensures lhs[i] == rhs[i]
    {
      if i < |acc| {
        assert lhs[i] == lhs[..|acc|][i];
        assert rhs[i] == rhs[..|acc|][i];
      } else if i < |acc| + |first| {
        var mid := TransformApi(first, acc);
        assert lhs[i] == lhs[..|mid|][i] == mid[i];
        assert (first + second)[i - |acc|] == first[i - |acc|];
      } else {
        assert (first + second)[i - |acc|] == second[i - |acc| - |first|];
      }
    }
  }

  /** Why one CLI log line could not be normalised. */
  datatype CliError = MissingFields(line: nat)

  /**
   Normalises one `git log` line (commitViewer_v0_01.py:144-148). The line is
   split on `;`; a line with fewer than four fields makes the source's
   indexing raise, which is an error here. Fields after the fourth are ignored.
   */
  function NormalizeCliLine(line: string): (r: Option<CommitRecord>)
    ensures r.Some? <==> multiset(line)[';'] >= 3
  {
    var fields := Split(line, ';');
    SplitPartCount(line, ';');
    if |fields| < 4 then None
    else Some(CommitRecord(DropFirst(fields[0]), fields[1], Take(fields[2], DateLength), DropLast(fields[3])))
  }

  /**
   A line of four `;`-free fields yields hash = first field without its first
   character, author = second field, date = at most the first ten characters
   of the third field, and message = fourth field without its last character.
   */
  lemma CliLineFields(f0: string, f1: string, f2: string, f3: string)
    requires ';' !in f0 && ';' !in f1 && ';' !in f2 && ';' !in f3
    ensures NormalizeCliLine(f0 + ";" + f1 + ";" + f2 + ";" + f3)
      == Some(CommitRecord(DropFirst(f0), f1, Take(f2, DateLength), DropLast(f3)))
  {
    var line := f0 + ";" + f1 + ";" + f2 + ";" + f3;
    assert line == f0 + [';'] + (f1 + [';'] + (f2 + [';'] + f3));
    SplitWithoutSeparator(f3, ';');
    SplitAfterPart(f2, f3, ';');
    SplitAfterPart(f1, f2 + [';'] + f3, ';');
    SplitAfterPart(f0, f1 + [';'] + (f2 + [';'] + f3), ';');
    assert Split(line, ';') == [f0, f1, f2, f3];
  }

  /** Whatever follows a fourth `;` is ignored, so a message containing `;` is cut there. */
  lemma CliLineExtraFields(f0: string, f1: string, f2: string, f3: string, extra: string)
    requires ';' !in f0 && ';' !in f1 && ';' !in f2 && ';' !in f3
    ensures NormalizeCliLine(f0 + ";" + f1 + ";" + f2 + ";" + f3 + ";" + extra)
      == Some(CommitRecord(DropFirst(f0), f1, Take(f2, DateLength), DropLast(f3)))
  {
    var line := f0 + ";" + f1 + ";" + f2 + ";" + f3 + ";" + extra;
    assert line == f0 + [';'] + (f1 + [';'] + (f2 + [';'] + (f3 + [';'] + extra)));
    SplitAfterPart(f3, extra, ';');
    SplitAfterPart(f2, f3 + [';'] + extra, ';');
    SplitAfterPart(f1, f2 + [';'] + (f3 + [';'] + extra), ';');
    SplitAfterPart(f0, f1 + [';'] + (f2 + [';'] + (f3 + [';'] + extra)), ';');
    var fields := Split(line, ';');
    assert fields == [f0, f1, f2, f3] + Split(extra, ';');
    assert fields[..4] == [f0, f1, f2, f3];
  }

  /**
   The line `git log --pretty=format:'%h;%an;%ci;%s'` writes for one commit
   when the single quotes reach `git` verbatim: abbreviated hash, author name,
   committer date and subject, between quotes.
   */
  datatype LogEntry = LogEntry(abbrev: string, authorName: string, committed: string, subject: string)

  function LogLine(e: LogEntry): string {
    "'" + e.abbrev + ";" + e.authorName + ";" + e.committed + ";" + e.subject + "'"
  }

  /** True when no field of the entry holds a `;` or a newline. */
  predicate PlainEntry(e: LogEntry) {
    ';' !in e.abbrev && ';' !in e.authorName && ';' !in e.committed && ';' !in e.subject
    && '\n' !in e.abbrev && '\n' !in e.authorName && '\n' !in e.committed && '\n' !in e.subject
  }

  /** The record a quoted log line is meant to yield. */
  function RecordOf(e: LogEntry): CommitRecord {
    CommitRecord(e.abbrev, e.authorName, Take(e.committed, DateLength), e.subject)
  }

  /**
   On a quoted log line whose fields hold no `;`, the normaliser removes
   exactly the two quotes and cuts the date to ten characters.
   */
  lemma NormalizeLogLine(e: LogEntry)
    requires ';' !in e.abbrev && ';' !in e.authorName && ';' !in e.committed && ';' !in e.subject
    ensures NormalizeCliLine(LogLine(e)) == Some(RecordOf(e))
  {
    var q := "'";
    var f0 := q + e.abbrev;
    var f3 := e.subject + q;
    var fields := [f0, e.authorName, e.committed, f3];
    assert fields[1..][1..][1..] == [f3];
    assert Join(fields[1..][1..], ';') == e.committed + [';'] + f3;
    assert Join(fields[1..], ';') == e.authorName + [';'] + (e.committed + [';'] + f3);
    assert LogLine(e) == Join(fields, ';');
    SplitJoin(fields, ';');
    assert [f0[0]] + e.abbrev == f0;
    assert e.subject + [f3[|f3| - 1]] == f3;
  }

  /**
   A subject containing `;` is cut at its first `;`, and the last character
   before that cut is lost as well, because the normaliser drops the last
   character of the fourth field whatever it is.
   */
  lemma NormalizeLogLineSemicolonSubject(e: LogEntry)
    requires ';' !in e.abbrev && ';' !in e.authorName && ';' !in e.committed && ';' in e.subject
    ensures NormalizeCliLine(LogLine(e)).Some?
    ensures NormalizeCliLine(LogLine(e)).value.message == DropLast(BeforeFirst(e.subject, ';'))
  {
    var q := "'";
    var f0 := q + e.abbrev;
    var cut := BeforeFirst(e.subject, ';');
    var after := e.subject[|cut| + 1..] + q;
    assert e.subject == cut + [';'] + e.subject[|cut| + 1..];
    var line := LogLine(e);
    assert line == f0 + [';'] + (e.authorName + [';'] + (e.committed + [';'] + (cut + [';'] + after)));
    SplitAfterPart(cut, after, ';');
    SplitAfterPart(e.committed, cut + [';'] + after, ';');
    SplitAfterPart(e.authorName, e.committed + [';'] + (cut + [';'] + after), ';');
    SplitAfterPart(f0, e.authorName + [';'] + (e.committed + [';'] + (cut + [';'] + after)), ';');
    SplitPartCount(line, ';');
  }

  /**
   Applies the line normaliser `parse` to the lines in order, appending onto
   `acc`; the first line it rejects stops the run with that line's index.
   */
  function NormalizeLines(parse: string -> Option<CommitRecord>, lines: seq<string>, acc: seq<CommitRecord>)
    : (r: Result<seq<CommitRecord>, CliError>)
    ensures r.Ok? <==> forall i :: 0 <= i < |lines| ==> parse(lines[i]).Some?
    ensures r.Ok? ==> |r.value| == |acc| + |lines| && r.value[..|acc|] == acc
    ensures r.Ok? ==> forall i :: 0 <= i < |lines| ==> parse(lines[i]) == Some(r.value[|acc| + i])
    ensures r.Err? ==> r.error.line < |lines| && parse(lines[r.error.line]).None?
    ensures r.Err? ==> forall i :: 0 <= i < r.error.line ==> parse(lines[i]).Some?
    decreases |lines|
  {
    if |lines| == 0 then Ok(acc)
    else match parse(lines[0])
      case None => Err(MissingFields(0))
      case Some(c) =>
        var rest := lines[1..];
        assert forall i :: 0 <= i < |rest| ==> rest[i] == lines[i + 1];
        match NormalizeLines(parse, rest, acc + [c])
        case Ok(out) =>
          assert out[..|acc|] == out[..|acc| + 1][..|acc|];
          assert out[|acc|] == out[..|acc| + 1][|acc|];
          Ok(out)
        case Err(e) => Err(MissingFields(e.line + 1))
  }

  /**
   `transform_cli_response`: splits the log on newlines and appends one record
   per line, or reports the first line that has fewer than four fields.
   */
  function TransformCli(text: string, acc: seq<CommitRecord>): (r: Result<seq<CommitRecord>, CliError>)
    ensures r.Ok? <==> forall i :: 0 <= i < |Split(text, '\n')| ==> NormalizeCliLine(Split(text, '\n')[i]).Some?
    ensures r.Ok? ==> |r.value| == |acc| + multiset(text)['\n'] + 1 && r.value[..|acc|] == acc
    ensures r.Ok? ==> |r.value| == |acc| + |Split(text, '\n')|
    ensures r.Ok? ==> forall i :: 0 <= i < |Split(text, '\n')| ==>
      NormalizeCliLine(Split(text, '\n')[i]) == Some(r.value[|acc| + i])
    ensures r.Err? ==> r.error.line <= multiset(text)['\n']
    ensures r.Err? ==> r.error.line < |Split(text, '\n')|
    ensures r.Err? ==> NormalizeCliLine(Split(text, '\n')[r.error.line]).None?
    ensures r.Err? ==> forall i :: 0 <= i < r.error.line ==> NormalizeCliLine(Split(text, '\n')[i]).Some?
  {
    SplitPartCount(text, '\n');
    NormalizeLines(NormalizeCliLine, Split(text, '\n'), acc)
  }

  /** Empty log output (a repository without commits) is one empty line, which has too few fields. */
  lemma EmptyLogFails(acc: seq<CommitRecord>)
    ensures TransformCli("", acc) == Err(MissingFields(0))
  {
    assert Split("", '\n') == [""];
    assert multiset("")[';'] == 0;
  }

  /**
   The log of one or more commits, one quoted line per commit joined by
   newlines, normalises to their records in order after `acc`.
   */
  lemma {:induction false} CliLogRoundTrip(entries: seq<LogEntry>, acc: seq<CommitRecord>)
    requires |entries| >= 1
    requires forall i :: 0 <= i < |entries| ==> PlainEntry(entries[i])
    ensures TransformCli(Join(LogLines(entries), '\n'), acc)
      == Ok(acc + seq(|entries|, i requires 0 <= i < |entries| => RecordOf(entries[i])))
  {
    var lines := LogLines(entries);
    var records := seq(|entries|, i requires 0 <= i < |entries| => RecordOf(entries[i]));
    LogLinesNormalize(entries, records);
    SplitJoin(lines, '\n');
    assert Split(Join(lines, '\n'), '\n') == lines;
    NormalizeAllLines(NormalizeCliLine, lines, acc, records);
  }

  /** Each quoted line of plain entries is free of newlines and normalises to its entry's record. */
  lemma LogLinesNormalize(entries: seq<LogEntry>, records: seq<CommitRecord>)
    requires forall i :: 0 <= i < |entries| ==> PlainEntry(entries[i])
    requires records == seq(|entries|, i requires 0 <= i < |entries| => RecordOf(entries[i]))
    ensures forall i :: 0 <= i < |entries| ==> '\n' !in LogLines(entries)[i]
    ensures forall i :: 0 <= i < |entries| ==> NormalizeCliLine(LogLines(entries)[i]) == Some(records[i])
  {
    var lines := LogLines(entries);
    forall i | 0 <= i < |entries|
      ensures '\n' !in lines[i]
      ensures NormalizeCliLine(lines[i]) == Some(records[i])
    {
      var e := entries[i];
      assert lines[i] == LogLine(e);
      LogLineHasNoNewline(e);
      NormalizeLogLine(e);
    }
  }

  /** The quoted line of a plain entry holds no newline. */
  lemma LogLineHasNoNewline(e: LogEntry)
    requires PlainEntry(e)
    ensures '\n' !in LogLine(e)
  {
  }

  /** When every line is accepted, the run appends exactly the accepted records. */
  lemma NormalizeAllLines(parse: string -> Option<CommitRecord>, lines: seq<string>, acc: seq<CommitRecord>, records: seq<CommitRecord>)
    requires |records| == |lines|
    requires forall i :: 0 <= i < |lines| ==> parse(lines[i]) == Some(records[i])
    ensures NormalizeLines(parse, lines, acc) == Ok(acc + records)
  {
    var r := NormalizeLines(parse, lines, acc);
    assert r.Ok?;
    forall i | 0 <= i < |acc| + |records|
      ensures r.value[i] == (acc + records)[i]
    {
      if i < |acc| {
        assert r.value[i] == r.value[..|acc|][i];
      } else {
        assert parse(lines[i - |acc|]) == Some(r.value[|acc| + (i - |acc|)]);
      }
    }
    assert r.value == acc + records;
  }

  /** One quoted log line per entry. */
  function LogLines(entries: seq<LogEntry>): (lines: seq<string>)
    ensures |lines| == |entries|
    ensures forall i :: 0 <= i < |entries| ==> lines[i] == LogLine(entries[i])
  {
    seq(|entries|, i requires 0 <= i < |entries| => LogLine(entries[i]))
  }
}
