/** The loader `cleanUp` and its two repairs (cleanUpData.py).

    For each sensor log of a day, `cleanUp` first rewrites, in the file
    itself, the lines whose date was logged in UTC with a two-digit year
    (`fixUTCStamps`), unless the file is already confirmed. It then reads the
    file as a table, removes rows whose timestamp cannot be parsed (the known
    bad stamps first, then `autoFix`), shifts the sensor's clock by its hour
    offset, drops rows before the cut-off and keeps the table under the
    sensor's name.

    Files are lines of text in a map from path to lines. Parsing a timestamp
    (`pd.Timestamp`, `pd.to_datetime`), formatting one (`strftime`) and
    reading a table (`pd.read_csv`) are parameters. Times are whole seconds. */
module CleanUpData {
  import opened Wrappers
  import opened Frames
  import opened PyText
  import opened PyDict

  /** A table row as read, before its Date_Time text is converted. */
  datatype RawRow = RawRow(stamp: string, readings: seq<int>)

  /** `pd.Timestamp(text)`: seconds, or None where pandas raises. */
  type Parser = string -> Option<int>

  /** `strftime(' %Y/%m/%d, %H:%M:%S')`. */
  type Formatter = int -> string

  /** `pd.read_csv(lines, header=1, parse_dates=[[0, 1]], usecols=...)`:
      `None` selects every column. */
  type Reader = (seq<string>, Option<seq<string>>) -> seq<RawRow>

  /** UTC to Pacific standard time: seven hours (cleanUpData.py:121). */
  const UtcOffset: int := 7 * 3600

  /* ---------------------------------------------------------------- */
  /* fixUTCStamps                                                      */
  /* ---------------------------------------------------------------- */

  /** The exception `fixUTCStamps` raises: fewer than four lines
      (IndexError on `content[3]`), no time field in the fourth line
      (`.span()` on None), or a rewritten stamp pandas cannot parse. */
  datatype FixError = TooShort | NoTimeSpan | BadStamp(text: string)

  /** `re.match(r"   \d{2}/\d+/\d+", line)`: where the match at the start of
      the line ends. */
  function BadDateEnd(line: string): (r: Option<nat>)
    ensures r.Some? ==>
      9 <= r.value <= |line| && line[..3] == "   " && IsDigit(line[3]) && IsDigit(line[4]) &&
      line[5] == '/' && IsDigit(line[r.value - 1])
  {
    if |line| < 6 || line[..3] != "   " || !IsDigit(line[3]) || !IsDigit(line[4]) || line[5] != '/' then None
    else
      var m := DigitRun(line, 6);
      if m == 0 || 6 + m >= |line| || line[6 + m] != '/' then None
      else
        var d := DigitRun(line, 7 + m);
        DigitRunAll(line, 7 + m);
        if d == 0 then None else Some(7 + m + d)
  }

  /** Where `,\s+\d+:\d+:\d+` matched at `p` ends. */
  function TimeSpanAt(s: string, p: nat): (r: Option<nat>)
    ensures r.Some? ==> p < |s| && s[p] == ',' && p < r.value <= |s|
  {
    if p >= |s| || s[p] != ',' then None
    else
      var w := SpaceRun(s, p + 1);
      var b := p + 1 + w;
      var h := DigitRun(s, b);
      var c := b + h;
      if w == 0 || h == 0 || c >= |s| || s[c] != ':' then None
      else
        var m := DigitRun(s, c + 1);
        var e := c + 1 + m;
        if m == 0 || e >= |s| || s[e] != ':' then None
        else
          var sec := DigitRun(s, e + 1);
          if sec == 0 then None else Some(e + 1 + sec)
  }

  /** `re.search(r",\s+\d+:\d+:\d+", s).span()` from position `from` on:
      the leftmost match. */
  function SearchTimeSpan(s: string, from: nat): (r: Option<(nat, nat)>)
    ensures r.Some? ==> from <= r.value.0 && TimeSpanAt(s, r.value.0) == Some(r.value.1)
    decreases |s| - from
  {
    if from >= |s| then None
    else match TimeSpanAt(s, from)
      case Some(e) => Some((from, e))
      case None => SearchTimeSpan(s, from + 1)
  }

  /** The search finds the leftmost match, and finds none only when there
      is none. */
  lemma {:induction false} SearchTimeSpanLeftmost(s: string, from: nat)
    ensures var r := SearchTimeSpan(s, from);
            (r.Some? ==> forall q :: from <= q < r.value.0 ==> TimeSpanAt(s, q).None?) &&
            (r.None? ==> forall q :: from <= q ==> TimeSpanAt(s, q).None?)
    decreases |s| - from
  {
    if from < |s| && TimeSpanAt(s, from).None? {
      SearchTimeSpanLeftmost(s, from + 1);
    }
  }

  /** One line of the rewrite loop (cleanUpData.py:141-149): a line without
      the two-digit-year date is kept; otherwise the year is expanded by
      `str.replace`, the time field is cut out at the columns found in the
      fourth line, and the stamp is parsed, moved back seven hours and
      formatted, followed by the rest of the line. */
  function RewriteLine(line: string, span: (nat, nat), year: string, parse: Parser, format: Formatter): (r: Result<string, FixError>)
    ensures BadDateEnd(line).None? ==> r == Success(line)
    ensures r.Failure? ==> r.error.BadStamp?
    ensures BadDateEnd(line).Some? ==>
      var stamp := StampText(line, BadDateEnd(line).value, span, year);
      (parse(stamp).None? ==> r == Failure(BadStamp(stamp))) &&
      (parse(stamp).Some? ==> r == Success(format(parse(stamp).value - 7 * 3600) + Slice(line, span.1, |line|)))
  {
    match BadDateEnd(line)
    case None => Success(line)
    case Some(e) =>
      var stamp := StampText(line, e, span, year);
      match parse(stamp)
      case None => Failure(BadStamp(stamp))
      case Some(t) => Success(format(t - UtcOffset) + Slice(line, span.1, |line|))
  }

  /** `dateStamp + i[charTimeStart+1:charTimeEnd]`. */
  function StampText(line: string, e: nat, span: (nat, nat), year: string): string
    requires e <= |line|
  {
    Replace(line[..e], year, "20" + year) + Slice(line, span.0 + 1, span.1)
  }

  /** For every line whose matched date starts with the run's two-digit
      year, the stamp handed to pandas starts with the four-digit year. */
  lemma {:induction false} YearPrefixExpanded(line: string, e: nat, span: (nat, nat), year: string)
    requires BadDateEnd(line) == Some(e)
    requires year != [] && 3 + |year| <= e && line[3..3 + |year|] == year
    ensures var stamp := StampText(line, e, span, year);
            5 + |year| <= |stamp| && stamp[..5 + |year|] == "   20" + year
  {
    var s := line[..e];
    var rep := "20" + year;
    assert year[0] == line[3];
    assert s[3..][..|year|] == year;
    assert OccursAt(s[3..], year, 0);
    var tail := ReplaceFrom(s[3..][|year|..], year, rep);
    assert ReplaceFrom(s[3..], year, rep) == rep + tail;
    SkipFirst(s[2..], year, rep);
    assert s[2..][1..] == s[3..];
    SkipFirst(s[1..], year, rep);
    assert s[1..][1..] == s[2..];
    SkipFirst(s, year, rep);
    assert Replace(s, year, rep) == "   " + rep + tail;
  }

  /** A line whose date starts with the run's year and whose expanded stamp
      parses to `t` becomes the four-digit-year stamp moved back seven
      hours, followed by the line from the end of the time field on; when
      the stamp does not parse, the exception names it. */
  lemma RewriteMatching(line: string, e: nat, span: (nat, nat), year: string, parse: Parser, format: Formatter)
    requires BadDateEnd(line) == Some(e)
    requires year != [] && 3 + |year| <= e && line[3..3 + |year|] == year
    ensures var stamp := StampText(line, e, span, year);
            5 + |year| <= |stamp| && stamp[..5 + |year|] == "   20" + year &&
            RewriteLine(line, span, year, parse, format) ==
              if parse(stamp).Some? then Success(format(parse(stamp).value - 25200) + Slice(line, span.1, |line|))
              else Failure(BadStamp(stamp))
  {
    YearPrefixExpanded(line, e, span, year);
  }

  /** What the file holds after the rewrite, and what was raised, if anything. */
  datatype Fixed = Fixed(content: seq<string>, error: Option<FixError>)

  /** `f` applied to each of the first `n` lines. */
  function MapLines(f: string -> Result<string, FixError>, lines: seq<string>, n: nat): (rw: seq<Result<string, FixError>>)
    requires n <= |lines|
    ensures |rw| == n
  {
    if n == 0 then [] else MapLines(f, lines, n - 1) + [f(lines[n - 1])]
  }

  lemma {:induction false} MapLinesAt(f: string -> Result<string, FixError>, lines: seq<string>, n: nat, i: nat)
    requires i < n <= |lines|
    ensures MapLines(f, lines, n)[i] == f(lines[i])
  {
    if i < n - 1 {
      MapLinesAt(f, lines, n - 1, i);
    }
  }

  /** The rewrite of each line. */
  function Rewrites(lines: seq<string>, span: (nat, nat), year: string, parse: Parser, format: Formatter)
    : (rw: seq<Result<string, FixError>>)
    ensures |rw| == |lines|
  {
    MapLines(l => RewriteLine(l, span, year, parse, format), lines, |lines|)
  }

  lemma RewritesAt(lines: seq<string>, span: (nat, nat), year: string, parse: Parser, format: Formatter, i: nat)
    requires i < |lines|
    ensures Rewrites(lines, span, year, parse, format)[i] == RewriteLine(lines[i], span, year, parse, format)
  {
    MapLinesAt(l => RewriteLine(l, span, year, parse, format), lines, |lines|, i);
  }

  /** The write loop after `k` lines, given each line's rewrite: lines are
      written one at a time, and the first line whose stamp does not parse
      raises, leaving the lines written before it. */
  function WriteUpTo(rw: seq<Result<string, FixError>>, k: nat): Fixed
    requires k <= |rw|
  {
    if k == 0 then Fixed([], None)
    else
      var p := WriteUpTo(rw, k - 1);
      if p.error.Some? then p
      else match rw[k - 1]
        case Failure(e) => Fixed(p.content, Some(e))
        case Success(l) => Fixed(p.content + [l], None)
  }

  /** The write loop over all of `lines`. */
  function WriteAll(lines: seq<string>, span: (nat, nat), year: string, parse: Parser, format: Formatter): Fixed
  {
    WriteUpTo(Rewrites(lines, span, year, parse, format), |lines|)
  }

  /** One more line of the write loop. */
  lemma WriteStep(rw: seq<Result<string, FixError>>, k: nat, written: seq<string>)
    requires k < |rw| && WriteUpTo(rw, k) == Fixed(written, None)
    ensures WriteUpTo(rw, k + 1) ==
      match rw[k]
      case Failure(e) => Fixed(written, Some(e))
      case Success(l) => Fixed(written + [l], None)
  {
  }

  /** The write loop writes at most one line per source line, writes them
      all when nothing was raised, and otherwise stops at the line whose
      rewrite raised. */
  lemma {:induction false} WriteUpToStops(rw: seq<Result<string, FixError>>, k: nat)
    requires k <= |rw|
    ensures var f := WriteUpTo(rw, k);
            var n := |f.content|;
            n <= k && (f.error.None? <==> n == k) &&
            (f.error.Some? ==> rw[n] == Failure(f.error.value))
  {
    if k > 0 {
      WriteUpToStops(rw, k - 1);
    }
  }

  /** Each written line is the rewrite of the source line at its position. */
  lemma {:induction false} WriteUpToLines(rw: seq<Result<string, FixError>>, k: nat)
    requires k <= |rw|
    ensures var f := WriteUpTo(rw, k);
            |f.content| <= k &&
            forall i :: 0 <= i < |f.content| ==> rw[i] == Success(f.content[i])
  {
    WriteUpToStops(rw, k);
    if k > 0 {
      WriteUpToLines(rw, k - 1);
      WriteUpToStops(rw, k - 1);
    }
  }

  /** What the write loop leaves, in terms of the lines: at most one
      written line per source line, each the rewrite of the line at its
      position; all of them when nothing was raised, and otherwise the
      error is the rewrite error of the first line not written. */
  lemma WriteAllMeans(lines: seq<string>, span: (nat, nat), year: string, parse: Parser, format: Formatter)
    ensures var f := WriteAll(lines, span, year, parse, format);
            var n := |f.content|;
            && n <= |lines| && (f.error.None? <==> n == |lines|)
            && (forall i :: 0 <= i < n ==> RewriteLine(lines[i], span, year, parse, format) == Success(f.content[i]))
            && (f.error.Some? ==> RewriteLine(lines[n], span, year, parse, format) == Failure(f.error.value))
  {
    var rw := Rewrites(lines, span, year, parse, format);
    var f := WriteUpTo(rw, |lines|);
    WriteUpToStops(rw, |lines|);
    WriteUpToLines(rw, |lines|);
    forall i | 0 <= i < |lines|
      ensures rw[i] == RewriteLine(lines[i], span, year, parse, format)
    {
      RewritesAt(lines, span, year, parse, format, i);
    }
  }

  /** `fixUTCStamps(filePath, date)` on the file's lines. The file is opened
      for writing only after the time field was found, so the first two
      errors leave it as it was. */
  function FixLines(content: seq<string>, date: string, parse: Parser, format: Formatter): Fixed
  {
    if |content| < 4 then Fixed(content, Some(TooShort))
    else match SearchTimeSpan(content[3], 0)
      case None => Fixed(content, Some(NoTimeSpan))
      case Some(span) => WriteAll(content, span, LastField(date, '-'), parse, format)
  }

  /** The rewrite as the source runs it: read all lines, find the time
      field in the fourth, then write each line back in turn. */
  method FixUTCStamps(content: seq<string>, date: string, parse: Parser, format: Formatter)
    returns (written: seq<string>, error: Option<FixError>)
    ensures Fixed(written, error) == FixLines(content, date, parse, format)
  {
    if |content| < 4 {
      return content, Some(TooShort);
    }
    var span := SearchTimeSpan(content[3], 0);
    if span.None? {
      return content, Some(NoTimeSpan);
    }
    written, error := WriteLines(content, span.value, LastField(date, '-'), parse, format);
  }

  /** The write loop: each line goes back to the file rewritten, until a
      stamp fails to parse. */
  method WriteLines(content: seq<string>, span: (nat, nat), year: string, parse: Parser, format: Formatter)
    returns (written: seq<string>, error: Option<FixError>)
    ensures Fixed(written, error) == WriteAll(content, span, year, parse, format)
  {
    ghost var rw := Rewrites(content, span, year, parse, format);
    written := [];
    for idx := 0 to |content|
      invariant WriteUpTo(rw, idx) == Fixed(written, None)
    {
      var line := FixLine(content[idx], span, year, parse, format);
      RewritesAt(content, span, year, parse, format, idx);
      WriteStep(rw, idx, written);
      if line.Failure? {
        error := Some(line.error);
        ErrorSticks(rw, idx + 1, |content|);
        return;
      }
      written := written + [line.value];
    }
    error := None;
  }

  /** The body of the write loop for one line. */
  method FixLine(i: string, span: (nat, nat), year: string, parse: Parser, format: Formatter)
    returns (r: Result<string, FixError>)
    ensures r == RewriteLine(i, span, year, parse, format)
  {
    var m := BadDateEnd(i);
    if m.None? {
      return Success(i);
    }
    var stamp := StampText(i, m.value, span, year);
    var t := parse(stamp);
    if t.None? {
      return Failure(BadStamp(stamp));
    }
    r := Success(format(t.value - UtcOffset) + Slice(i, span.1, |i|));
  }

  /** Once the write loop has raised, later lines change nothing. */
  lemma {:induction false} ErrorSticks(rw: seq<Result<string, FixError>>, k: nat, n: nat)
    requires k <= n <= |rw|
    requires WriteUpTo(rw, k).error.Some?
    ensures WriteUpTo(rw, n) == WriteUpTo(rw, k)
    decreases n - k
  {
    if k < n {
      ErrorSticks(rw, k, n - 1);
    }
  }

  /** A formatter whose output starts like ' 2022/...': one space, then a digit. */
  ghost predicate OneSpaceThenDigit(format: Formatter)
  {
    forall t :: |format(t)| >= 2 && format(t)[0] == ' ' && IsDigit(format(t)[1])
  }

  /** Rewriting a line removes the three-space date, so a second rewrite
      leaves it alone. */
  lemma RewriteLineOnce(line: string, span: (nat, nat), span': (nat, nat), year: string, year': string,
                        parse: Parser, format: Formatter)
    requires OneSpaceThenDigit(format)
    requires RewriteLine(line, span, year, parse, format).Success?
    ensures var l := RewriteLine(line, span, year, parse, format).value;
            BadDateEnd(l).None? && RewriteLine(l, span', year', parse, format) == Success(l)
  {
    if BadDateEnd(line).Some? {
      var t := parse(StampText(line, BadDateEnd(line).value, span, year)).value;
      FormattedHasNoBadDate(format, t - UtcOffset, Slice(line, span.1, |line|));
    }
  }

  /** A formatted stamp has one leading space, not three. */
  lemma FormattedHasNoBadDate(format: Formatter, t: int, rest: string)
    requires OneSpaceThenDigit(format)
    ensures BadDateEnd(format(t) + rest).None?
  {
    var f := format(t);
    assert |f| >= 2 && IsDigit(f[1]);
    assert (f + rest)[1] == f[1];
  }

  /** Running the repair a second time on a repaired file changes nothing:
      no line carries the three-space date any more, so nothing is shifted
      back seven hours twice. */
  lemma FixTwice(content: seq<string>, date: string, date': string, parse: Parser, format: Formatter)
    requires OneSpaceThenDigit(format)
    requires FixLines(content, date, parse, format).error.None?
    ensures var once := FixLines(content, date, parse, format).content;
            var twice := FixLines(once, date', parse, format);
            twice.content == once && (twice.error.None? || twice.error == Some(NoTimeSpan))
  {
    var span := SearchTimeSpan(content[3], 0).value;
    var once := FixLines(content, date, parse, format).content;
    WriteAllMeans(content, span, LastField(date, '-'), parse, format);
    match SearchTimeSpan(once[3], 0)
    case None =>
    case Some(span') =>
      RewriteAgain(content, span, LastField(date, '-'), span', LastField(date', '-'), parse, format);
  }

  /** A second write loop over the rewritten lines writes them back as they are. */
  lemma RewriteAgain(content: seq<string>, span: (nat, nat), year: string, span': (nat, nat), year': string,
                     parse: Parser, format: Formatter)
    requires OneSpaceThenDigit(format)
    requires WriteAll(content, span, year, parse, format).error.None?
    ensures var once := WriteAll(content, span, year, parse, format).content;
            |once| == |content| && WriteAll(once, span', year', parse, format) == Fixed(once, None)
  {
    var once := WriteAll(content, span, year, parse, format).content;
    WriteAllMeans(content, span, year, parse, format);
    var rw' := Rewrites(once, span', year', parse, format);
    forall i | 0 <= i < |once|
      ensures rw'[i] == Success(once[i])
    {
      RewriteLineOnce(content[i], span, span', year, year', parse, format);
      RewritesAt(once, span', year', parse, format, i);
    }
    WriteUpToAllKept(rw', once, |once|);
    assert once[..|once|] == once;
  }

  /** When every line is written back unchanged the file is unchanged. */
  lemma {:induction false} WriteUpToAllKept(rw: seq<Result<string, FixError>>, lines: seq<string>, k: nat)
    requires k <= |rw| == |lines|
    requires forall i :: 0 <= i < k ==> rw[i] == Success(lines[i])
    ensures WriteUpTo(rw, k) == Fixed(lines[..k], None)
  {
    if k > 0 {
      WriteUpToAllKept(rw, lines, k - 1);
      assert lines[..k] == lines[..k - 1] + [lines[k - 1]];
    }
  }

  /* ---------------------------------------------------------------- */
  /* Row filters and autoFix                                           */
  /* ---------------------------------------------------------------- */

  /** The rows whose stamp is not one of `bad`, in their order: what
      `df.drop(df[df['Date_Time'] == time].index)` leaves for each `time`. */
  function Keep(rows: seq<RawRow>, bad: seq<string>): (r: seq<RawRow>)
    ensures |r| <= |rows|
  {
    if rows == [] then []
    else (if rows[0].stamp in bad then [] else [rows[0]]) + Keep(rows[1..], bad)
  }

  /** The rows whose stamp parses, in their order. */
  function KeepParseable(rows: seq<RawRow>, parse: Parser): (r: seq<RawRow>)
    ensures |r| <= |rows| && AllParse(r, parse)
  {
    if rows == [] then []
    else
      var rest := KeepParseable(rows[1..], parse);
      if parse(rows[0].stamp).Some? then
        assert ([rows[0]] + rest)[1..] == rest;
        [rows[0]] + rest
      else rest
  }

  /** Every stamp parses: `pd.to_datetime` on the column does not raise. */
  predicate AllParse(rows: seq<RawRow>, parse: Parser)
  {
    rows == [] || (parse(rows[0].stamp).Some? && AllParse(rows[1..], parse))
  }

  lemma {:induction false} AllParseMeans(rows: seq<RawRow>, parse: Parser)
    ensures AllParse(rows, parse) <==> forall i :: 0 <= i < |rows| ==> parse(rows[i].stamp).Some?
  {
    if rows != [] {
      AllParseMeans(rows[1..], parse);
      if forall i :: 0 <= i < |rows| ==> parse(rows[i].stamp).Some? {
        assert forall i :: 0 <= i < |rows[1..]| ==> rows[1..][i] == rows[i + 1];
      }
    }
  }

  lemma {:induction false} KeepMembers(rows: seq<RawRow>, bad: seq<string>)
    ensures forall x :: x in Keep(rows, bad) <==> x in rows && x.stamp !in bad
  {
    if rows != [] {
      KeepMembers(rows[1..], bad);
      assert rows == [rows[0]] + rows[1..];
    }
  }

  /** A row survives `autoFix` exactly when its stamp parses. */
  lemma {:induction false} KeepParseableMembers(rows: seq<RawRow>, parse: Parser)
    ensures forall x :: x in KeepParseable(rows, parse) <==> x in rows && parse(x.stamp).Some?
  {
    if rows != [] {
      KeepParseableMembers(rows[1..], parse);
      assert rows == [rows[0]] + rows[1..];
    }
  }

  /** Both filters keep the relative order of the rows: filtering a
      concatenation filters each part. */
  lemma {:induction false} FiltersKeepOrder(a: seq<RawRow>, b: seq<RawRow>, bad: seq<string>, parse: Parser)
    ensures Keep(a + b, bad) == Keep(a, bad) + Keep(b, bad)
    ensures KeepParseable(a + b, parse) == KeepParseable(a, parse) + KeepParseable(b, parse)
  {
    if a != [] {
      FiltersKeepOrder(a[1..], b, bad, parse);
      assert (a + b)[1..] == a[1..] + b;
    } else {
      assert a + b == b;
    }
  }

  /** `autoFix` changes nothing exactly when every stamp parses. */
  lemma {:induction false} KeepParseableAll(rows: seq<RawRow>, parse: Parser)
    ensures AllParse(rows, parse) <==> KeepParseable(rows, parse) == rows
  {
    if rows != [] {
      KeepParseableAll(rows[1..], parse);
      if parse(rows[0].stamp).None? {
        assert |KeepParseable(rows, parse)| < |rows|;
      } else {
        assert KeepParseable(rows, parse) == [rows[0]] + KeepParseable(rows[1..], parse);
        if KeepParseable(rows, parse) == rows {
          assert KeepParseable(rows[1..], parse) == ([rows[0]] + KeepParseable(rows[1..], parse))[1..];
        }
      }
    }
  }

  /** Dropping the rows equal to an unparseable stamp does not change which
      rows parse. */
  lemma {:induction false} DropUnparseable(rows: seq<RawRow>, stamp: string, parse: Parser)
    requires parse(stamp).None?
    ensures KeepParseable(Keep(rows, [stamp]), parse) == KeepParseable(rows, parse)
  {
    if rows != [] {
      DropUnparseable(rows[1..], stamp, parse);
      var k := Keep(rows[1..], [stamp]);
      if rows[0].stamp != stamp {
        assert Keep(rows, [stamp]) == [rows[0]] + k;
        assert ([rows[0]] + k)[1..] == k;
      } else {
        assert Keep(rows, [stamp]) == k;
        assert KeepParseable(rows, parse) == KeepParseable(rows[1..], parse);
      }
    }
  }

  /** Dropping the stamp of the first row that does not parse, at `at`:
      fewer rows, the same parseable rows, and the rows before `at` (so
      the first `idx` of them) still in place and parseable. */
  lemma DropFirstBad(rows: seq<RawRow>, parse: Parser, at: nat, idx: nat)
    requires idx <= at < |rows| && parse(rows[at].stamp).None?
    requires forall i :: 0 <= i < at ==> parse(rows[i].stamp).Some?
    ensures var dropped := Keep(rows, [rows[at].stamp]);
            && |dropped| < |rows|
            && KeepParseable(dropped, parse) == KeepParseable(rows, parse)
            && forall i :: 0 <= i < idx && i < |dropped| ==> parse(dropped[i].stamp).Some?
  {
    var stamp := rows[at].stamp;
    var dropped := Keep(rows, [stamp]);
    DropKeepsPrefix(rows, stamp, at, at);
    DropUnparseable(rows, stamp, parse);
    forall i | 0 <= i < idx && i < |dropped|
      ensures parse(dropped[i].stamp).Some?
    {
      assert dropped[i] == dropped[..at][i] == rows[..at][i];
    }
  }

  lemma {:induction false} DropKeepsPrefix(rows: seq<RawRow>, stamp: string, n: nat, at: nat)
    requires n <= |rows| && forall i :: 0 <= i < n ==> rows[i].stamp != stamp
    requires at < |rows| && rows[at].stamp == stamp
    ensures n <= |Keep(rows, [stamp])| < |rows|
    ensures Keep(rows, [stamp])[..n] == rows[..n]
  {
    if n > 0 {
      DropKeepsPrefix(rows[1..], stamp, n - 1, at - 1);
      assert rows[0].stamp != stamp;
    } else if at > 0 {
      DropKeepsPrefix(rows[1..], stamp, 0, at - 1);
    }
  }

  /** `autoFix(file, df, start)` (cleanUpData.py:155-176): scan the stamps
      from position `start`; at the first that does not parse, drop every
      row carrying it and start again at the offset where it was found
      (counted from `start`, so never later than the failure). */
  method AutoFix(rows: seq<RawRow>, parse: Parser, start: nat) returns (r: seq<RawRow>)
    requires forall i :: 0 <= i < start && i < |rows| ==> parse(rows[i].stamp).Some?
    ensures r == KeepParseable(rows, parse)
    decreases |rows|
  {
    var idx := 0;
    while start + idx < |rows|
      invariant forall i :: 0 <= i < start + idx && i < |rows| ==> parse(rows[i].stamp).Some?
      decreases |rows| - (start + idx)
    {
      var i := rows[start + idx].stamp;
      if parse(i).None? {
        var dropped := Keep(rows, [i]);
        DropFirstBad(rows, parse, start + idx, idx);
        r := AutoFix(dropped, parse, idx);
        return;
      }
      idx := idx + 1;
    }
    AllParseMeans(rows, parse);
    KeepParseableAll(rows, parse);
    r := rows;
  }

  /** `for time in badTimes: df.drop(...)` (cleanUpData.py:68-69). */
  method DropBadTimes(rows: seq<RawRow>, badTimes: seq<string>) returns (r: seq<RawRow>)
    ensures r == Keep(rows, badTimes)
  {
    r := rows;
    KeepNone(rows);
    for k := 0 to |badTimes|
      invariant r == Keep(rows, badTimes[..k])
    {
      KeepMore(rows, badTimes[..k], badTimes[k]);
      assert badTimes[..k + 1] == badTimes[..k] + [badTimes[k]];
      r := Keep(r, [badTimes[k]]);
    }
    assert badTimes[..|badTimes|] == badTimes;
  }

  lemma {:induction false} KeepNone(rows: seq<RawRow>)
    ensures Keep(rows, []) == rows
  {
    if rows != [] {
      KeepNone(rows[1..]);
    }
  }

  lemma {:induction false} KeepMore(rows: seq<RawRow>, bad: seq<string>, t: string)
    ensures Keep(Keep(rows, bad), [t]) == Keep(rows, bad + [t])
  {
    if rows != [] {
      KeepMore(rows[1..], bad, t);
      FiltersKeepOrder(if rows[0].stamp in bad then [] else [rows[0]], Keep(rows[1..], bad), [t], x => None);
    }
  }

  /* ---------------------------------------------------------------- */
  /* Conversion, clock offset and cut-off                              */
  /* ---------------------------------------------------------------- */

  function ToSamples(rows: seq<RawRow>, parse: Parser): (r: seq<Sample>)
    requires AllParse(rows, parse)
    ensures |r| == |rows|
  {
    if rows == [] then []
    else [Sample(parse(rows[0].stamp).value, rows[0].readings)] + ToSamples(rows[1..], parse)
  }

  /** Converting keeps each row's readings and gives it its parsed time. */
  lemma {:induction false} ToSamplesAt(rows: seq<RawRow>, parse: Parser, i: nat)
    requires AllParse(rows, parse) && i < |rows|
    ensures parse(rows[i].stamp).Some? &&
            ToSamples(rows, parse)[i] == Sample(parse(rows[i].stamp).value, rows[i].readings)
  {
    if i > 0 {
      ToSamplesAt(rows[1..], parse, i - 1);
    }
  }

  /** The Date_Time conversion (cleanUpData.py:67-76): when pandas could
      parse the whole column the rows are kept; otherwise the known bad
      stamps are dropped, and if the column still does not parse,
      `autoFix` drops the rest of the unparseable rows. */
  function ParseTimes(rows: seq<RawRow>, badTimes: seq<string>, parse: Parser): (r: seq<Sample>)
  {
    if AllParse(rows, parse) then ToSamples(rows, parse)
    else
      var kept := Keep(rows, badTimes);
      if AllParse(kept, parse) then ToSamples(kept, parse)
      else ToSamples(KeepParseable(kept, parse), parse)
  }

  /** After conversion exactly the parseable rows remain, in order, minus
      the known bad stamps when the column did not parse at first. */
  lemma ParseTimesKeeps(rows: seq<RawRow>, badTimes: seq<string>, parse: Parser)
    ensures var base := if AllParse(rows, parse) then rows else Keep(rows, badTimes);
            ParseTimes(rows, badTimes, parse) == ToSamples(KeepParseable(base, parse), parse)
  {
    var base := if AllParse(rows, parse) then rows else Keep(rows, badTimes);
    KeepParseableAll(base, parse);
    KeepParseableAll(Keep(rows, badTimes), parse);
  }

  /** `df['Date_Time'] - pd.Timedelta(hours=offset)`. */
  function Shift(samples: seq<Sample>, hours: int): (r: seq<Sample>)
    ensures |r| == |samples|
  {
    if samples == [] then []
    else [Sample(samples[0].time - hours * 3600, samples[0].readings)] + Shift(samples[1..], hours)
  }

  /** Every row moves back by the same number of hours and keeps its readings. */
  lemma {:induction false} ShiftAt(samples: seq<Sample>, hours: int, i: nat)
    requires i < |samples|
    ensures Shift(samples, hours)[i] == Sample(samples[i].time - hours * 3600, samples[i].readings)
  {
    if i > 0 {
      ShiftAt(samples[1..], hours, i - 1);
    }
  }

  /** `df.drop(df[df['Date_Time'] < cutoff].index)`. */
  function AtOrAfter(samples: seq<Sample>, cutoff: int): (r: seq<Sample>)
  {
    if samples == [] then []
    else (if samples[0].time < cutoff then [] else [samples[0]]) + AtOrAfter(samples[1..], cutoff)
  }

  lemma {:induction false} AtOrAfterBound(samples: seq<Sample>, cutoff: int)
    ensures forall i :: 0 <= i < |AtOrAfter(samples, cutoff)| ==> cutoff <= AtOrAfter(samples, cutoff)[i].time
  {
    AtOrAfterMembers(samples, cutoff);
    forall i | 0 <= i < |AtOrAfter(samples, cutoff)|
      ensures cutoff <= AtOrAfter(samples, cutoff)[i].time
    {
      assert AtOrAfter(samples, cutoff)[i] in AtOrAfter(samples, cutoff);
    }
  }

  /** Rows strictly before the cut-off go, rows at it or after stay. */
  lemma {:induction false} AtOrAfterMembers(samples: seq<Sample>, cutoff: int)
    ensures forall x :: x in AtOrAfter(samples, cutoff) <==> x in samples && cutoff <= x.time
  {
    if samples != [] {
      AtOrAfterMembers(samples[1..], cutoff);
      assert samples == [samples[0]] + samples[1..];
    }
  }

  /* ---------------------------------------------------------------- */
  /* Sensor name                                                       */
  /* ---------------------------------------------------------------- */

  /** `Data\` followed by letters and digits, matched at `p`: the letters and digits. */
  function SensorNameAt(file: string, p: nat): (r: Option<string>)
    ensures r.Some? ==> 0 < |r.value| && IsLetter(r.value[0]) && IsDigit(r.value[|r.value| - 1])
    ensures p + 5 > |file| ==> r.None?
  {
    if p + 5 <= |file| && file[p..p + 5] == "Data\\" then
      var l := LetterRun(file, p + 5);
      var d := DigitRun(file, p + 5 + l);
      DigitRunAll(file, p + 5 + l);
      if l > 0 && d > 0 then Some(file[p + 5..p + 5 + l + d]) else None
    else None
  }

  /** `re.search(r"Data\\[a-zA-Z]+\d+", file)[0].replace("Data\\", "")`
      from position `from` on: the leftmost match. */
  function SensorName(file: string, from: nat): (r: Option<string>)
    ensures r.Some? ==> 0 < |r.value|
    decreases |file| - from
  {
    if from >= |file| then None
    else if SensorNameAt(file, from).Some? then SensorNameAt(file, from)
    else SensorName(file, from + 1)
  }

  /** The name comes from the leftmost `Data\` followed by letters and
      digits; there is no name only when the path has no such part. */
  lemma SensorNameLeftmost(file: string, from: nat)
    ensures var r := SensorName(file, from);
            (r.Some? ==> exists p :: from <= p < |file| && SensorNameAt(file, p) == r &&
                           forall q :: from <= q < p ==> SensorNameAt(file, q).None?) &&
            (r.None? ==> forall p :: from <= p ==> SensorNameAt(file, p).None?)
  {
    if SensorName(file, from).Some? {
      var p := SensorNameWhere(file, from);
    } else {
      SensorNameNowhere(file, from);
    }
  }

  lemma {:induction false} SensorNameWhere(file: string, from: nat) returns (p: nat)
    requires SensorName(file, from).Some?
    ensures from <= p < |file| && SensorNameAt(file, p) == SensorName(file, from)
    ensures forall q :: from <= q < p ==> SensorNameAt(file, q).None?
    decreases |file| - from
  {
    if SensorNameAt(file, from).Some? {
      p := from;
    } else {
      p := SensorNameWhere(file, from + 1);
    }
  }

  lemma {:induction false} SensorNameNowhere(file: string, from: nat)
    requires SensorName(file, from).None?
    ensures forall p :: from <= p ==> SensorNameAt(file, p).None?
    decreases |file| - from
  {
    if from < |file| {
      SensorNameNowhere(file, from + 1);
    }
  }


  /* ---------------------------------------------------------------- */
  /* cleanUp                                                           */
  /* ---------------------------------------------------------------- */

  /** The arguments of `cleanUp` that stay fixed over the file loop. */
  datatype Settings = Settings(cutoff: int, offsets: map<string, int>, columns: seq<string>,
                               badTimes: seq<string>, date: string, confirmed: seq<string>)

  /** The pandas operations the loader calls. */
  datatype Tools = Tools(parse: Parser, format: Formatter, readCsv: Reader)

  /** The loop state: the tables by sensor, whether each sensor's clock was
      shifted (`mod`), the repair outcome by file (`filesChecked`) and the files. */
  datatype Loaded = Loaded(fData: Dict<string, seq<Sample>>, mod: Dict<string, bool>,
                           checked: Dict<string, bool>, disk: map<string, seq<string>>)

  /** The exceptions that escape `cleanUp`. */
  datatype CleanError =
    | Missing(path: string)
    | Unfixable(path: string, cause: FixError)
    | NoSensorName(path: string)
    | EmptyTable(path: string)

  /** `usecols`: every column when 'all' is listed. */
  function UseCols(columns: seq<string>): Option<seq<string>>
  {
    if "all" in columns then None else Some(columns)
  }

  /** The repair step for one file (cleanUpData.py:17-28): confirmed files
      are left alone; a file with fewer than four lines is recorded as not
      checked and skipped (`None`); other failures escape. */
  function Repair(st: Loaded, file: string, cfg: Settings, tools: Tools): Result<Option<Loaded>, CleanError>
  {
    if file in cfg.confirmed then Success(Some(st))
    else if file !in st.disk then Failure(Missing(file))
    else
      var f := FixLines(st.disk[file], cfg.date, tools.parse, tools.format);
      if f.error == Some(TooShort) then Success(None)
      else if f.error.Some? then Failure(Unfixable(file, f.error.value))
      else Success(Some(st.(disk := st.disk[file := f.content], checked := Put(st.checked, file, true))))
  }

  /** The table kept for a sensor (cleanUpData.py:67-96): the converted
      rows, moved back by the sensor's hour offset when it has one, from
      the cut-off on. */
  function Table(rows: seq<RawRow>, name: string, cfg: Settings, parse: Parser): seq<Sample>
  {
    AtOrAfter(Shifted(rows, name, cfg, parse), cfg.cutoff)
  }

  /** The converted rows, moved back by the sensor's offset if it has one. */
  function Shifted(rows: seq<RawRow>, name: string, cfg: Settings, parse: Parser): seq<Sample>
  {
    var samples := ParseTimes(rows, cfg.badTimes, parse);
    if name in cfg.offsets then Shift(samples, cfg.offsets[name]) else samples
  }

  /** `mod[name] = ...` and `fData[name] = df`. */
  function Store(st: Loaded, name: string, table: seq<Sample>, shifted: bool): Loaded
  {
    st.(fData := Put(st.fData, name, table), mod := Put(st.mod, name, shifted))
  }

  /** The loading step for one file (cleanUpData.py:34-103): the sensor
      name comes from the path, and a table with no rows fails on its
      first stamp. */
  function Load(st: Loaded, file: string, cfg: Settings, tools: Tools): Result<Loaded, CleanError>
  {
    if file !in st.disk then Failure(Missing(file))
    else match SensorName(file, 0)
      case None => Failure(NoSensorName(file))
      case Some(name) =>
        var rows := tools.readCsv(st.disk[file], UseCols(cfg.columns));
        if rows == [] then Failure(EmptyTable(file))
        else Success(Store(st, name, Table(rows, name, cfg, tools.parse), name in cfg.offsets))
  }

  /** One iteration of the file loop. */
  function CleanFile(st: Loaded, file: string, cfg: Settings, tools: Tools): Result<Loaded, CleanError>
  {
    match Repair(st, file, cfg, tools)
    case Failure(e) => Failure(e)
    case Success(None) => Success(st.(checked := Put(st.checked, file, false)))
    case Success(Some(st1)) => Load(st1, file, cfg, tools)
  }

  type Step = (Loaded, string) -> Result<Loaded, CleanError>

  /** The loop body with its fixed arguments. */
  function StepOf(cfg: Settings, tools: Tools): Step
  {
    (st, file) => CleanFile(st, file, cfg, tools)
  }

  /** The state after the first `k` files; the first exception ends the loop. */
  function Fold(files: seq<string>, k: nat, st0: Loaded, step: Step): Result<Loaded, CleanError>
    requires k <= |files|
  {
    if k == 0 then Success(st0)
    else match Fold(files, k - 1, st0, step)
      case Failure(e) => Failure(e)
      case Success(st) => step(st, files[k - 1])
  }

  lemma FoldNext(files: seq<string>, k: nat, st0: Loaded, step: Step, st: Loaded)
    requires k < |files| && Fold(files, k, st0, step) == Success(st)
    ensures Fold(files, k + 1, st0, step) == step(st, files[k])
  {
  }

  lemma StepOfIs(st: Loaded, file: string, cfg: Settings, tools: Tools)
    ensures StepOf(cfg, tools)(st, file) == CleanFile(st, file, cfg, tools)
  {
  }

  lemma {:induction false} FailureSticks(files: seq<string>, k: nat, n: nat, st0: Loaded, step: Step)
    requires k <= n <= |files| && Fold(files, k, st0, step).Failure?
    ensures Fold(files, n, st0, step) == Fold(files, k, st0, step)
    decreases n - k
  {
    if k < n {
      FailureSticks(files, k, n - 1, st0, step);
    }
  }

  /** What `cleanUp` returns for the files, starting from the files on disk. */
  function CleanFiles(files: seq<string>, disk: map<string, seq<string>>, cfg: Settings, tools: Tools): Result<Loaded, CleanError>
  {
    Fold(files, |files|, Loaded([], [], [], disk), StepOf(cfg, tools))
  }

  /** `cleanUp(cutoff, timeRectifyingParams, filePaths, columns, badTimes,
      date, confirmedFiles)`: the loaded tables and `filesChecked`, with the
      files as they are afterwards. */
  method CleanUp(files: seq<string>, disk: map<string, seq<string>>, cfg: Settings, tools: Tools)
    returns (r: Result<Loaded, CleanError>)
    ensures r == CleanFiles(files, disk, cfg, tools)
  {
    var st0 := Loaded([], [], [], disk);
    var st := st0;
    for idx := 0 to |files|
      invariant Fold(files, idx, st0, StepOf(cfg, tools)) == Success(st)
    {
      var next := CleanStep(files, idx, st0, st, cfg, tools);
      if next.Failure? {
        return next;
      }
      st := next.value;
    }
    r := Success(st);
  }

  /** One turn of the file loop: the state after the next file. */
  method CleanStep(files: seq<string>, idx: nat, st0: Loaded, st: Loaded, cfg: Settings, tools: Tools)
    returns (next: Result<Loaded, CleanError>)
    requires idx < |files| && Fold(files, idx, st0, StepOf(cfg, tools)) == Success(st)
    ensures next == Fold(files, idx + 1, st0, StepOf(cfg, tools))
    ensures next.Failure? ==> next == Fold(files, |files|, st0, StepOf(cfg, tools))
  {
    next := CleanOneFile(st, files[idx], cfg, tools);
    FoldNext(files, idx, st0, StepOf(cfg, tools), st);
    if next.Failure? {
      FailureSticks(files, idx + 1, |files|, st0, StepOf(cfg, tools));
    }
  }

  /** The body of the file loop, calling the repair and `autoFix` as the
      source does. */
  method CleanOneFile(st: Loaded, file: string, cfg: Settings, tools: Tools) returns (r: Result<Loaded, CleanError>)
    ensures r == StepOf(cfg, tools)(st, file)
  {
    StepOfIs(st, file, cfg, tools);
    var st1 := st;
    if file !in cfg.confirmed {
      if file !in st.disk {
        return Failure(Missing(file));
      }
      var written, error := FixUTCStamps(st.disk[file], cfg.date, tools.parse, tools.format);
      if error == Some(TooShort) {
        return Success(st.(checked := Put(st.checked, file, false)));
      } else if error.Some? {
        return Failure(Unfixable(file, error.value));
      }
      st1 := st.(disk := st.disk[file := written], checked := Put(st.checked, file, true));
    }
    r := LoadFile(st1, file, cfg, tools);
  }

  /** The loading step as the source runs it. */
  method LoadFile(st: Loaded, file: string, cfg: Settings, tools: Tools) returns (r: Result<Loaded, CleanError>)
    ensures r == Load(st, file, cfg, tools)
  {
    if file !in st.disk {
      return Failure(Missing(file));
    }
    var rows := tools.readCsv(st.disk[file], UseCols(cfg.columns));
    var name := SensorName(file, 0);
    if name.None? {
      return Failure(NoSensorName(file));
    }
    if rows == [] {
      return Failure(EmptyTable(file));
    }
    var samples := ConvertTimes(rows, cfg.badTimes, tools.parse);
    if name.value in cfg.offsets {
      samples := Shift(samples, cfg.offsets[name.value]);
    }
    samples := AtOrAfter(samples, cfg.cutoff);
    r := Success(Store(st, name.value, samples, name.value in cfg.offsets));
  }

  /** The Date_Time conversion as the source runs it, with the drop loop
      and `autoFix`. */
  method ConvertTimes(rows: seq<RawRow>, badTimes: seq<string>, parse: Parser) returns (r: seq<Sample>)
    ensures r == ParseTimes(rows, badTimes, parse)
  {
    if AllParse(rows, parse) {
      return ToSamples(rows, parse);
    }
    var kept := DropBadTimes(rows, badTimes);
    KeepParseableAll(kept, parse);
    if AllParse(kept, parse) {
      return ToSamples(kept, parse);
    }
    var fixed := AutoFix(kept, parse, 0);
    r := ToSamples(fixed, parse);
  }

  /* ---------------------------------------------------------------- */
  /* What cleanUp promises                                             */
  /* ---------------------------------------------------------------- */

  /** Every loaded row is at or after the cut-off. */
  ghost predicate AllAtOrAfter(fData: Dict<string, seq<Sample>>, cutoff: int)
  {
    forall i, j :: 0 <= i < |fData| && 0 <= j < |fData[i].1| ==> cutoff <= fData[i].1[j].time
  }

  /** The bookkeeping the loop keeps: unique keys; every file outside the
      confirmed list that was visited has a `filesChecked` entry and no
      other file has one; confirmed files are never rewritten; every loaded
      row is at or after the cut-off. */
  ghost predicate Kept(st: Loaded, files: seq<string>, disk: map<string, seq<string>>, cfg: Settings)
  {
    UniqueKeys(st.fData) && UniqueKeys(st.mod) && UniqueKeys(st.checked) &&
    (forall f :: HasKey(st.checked, f) <==> f in files && f !in cfg.confirmed) &&
    (forall f :: f in cfg.confirmed && f in disk ==> f in st.disk && st.disk[f] == disk[f]) &&
    AllAtOrAfter(st.fData, cfg.cutoff)
  }

  /** Recording a file in `filesChecked` keeps the bookkeeping. */
  lemma CheckedKeeps(st: Loaded, file: string, ok: bool, files: seq<string>, disk: map<string, seq<string>>, cfg: Settings)
    requires Kept(st, files, disk, cfg) && file !in cfg.confirmed
    ensures Kept(st.(checked := Put(st.checked, file, ok)), files + [file], disk, cfg)
  {
    var c := Put(st.checked, file, ok);
    PutUnique(st.checked, file, ok);
    PutKeys(st.checked, file, ok);
    forall f
      ensures HasKey(c, f) <==> f in files + [file] && f !in cfg.confirmed
    {
      HasKeyIsInKeys(st.checked, f);
      HasKeyIsInKeys(c, f);
    }
  }

  /** Storing a table that starts at the cut-off keeps the bookkeeping. */
  lemma StoreKeeps(st: Loaded, name: string, table: seq<Sample>, shifted: bool, files: seq<string>,
                   disk: map<string, seq<string>>, cfg: Settings)
    requires Kept(st, files, disk, cfg)
    requires forall j :: 0 <= j < |table| ==> cfg.cutoff <= table[j].time
    ensures Kept(Store(st, name, table, shifted), files, disk, cfg)
  {
    PutUnique(st.fData, name, table);
    PutUnique(st.mod, name, shifted);
    PutAtOrAfter(st.fData, name, table, cfg.cutoff);
  }

  lemma PutAtOrAfter(fData: Dict<string, seq<Sample>>, name: string, table: seq<Sample>, cutoff: int)
    requires AllAtOrAfter(fData, cutoff)
    requires forall j :: 0 <= j < |table| ==> cutoff <= table[j].time
    ensures AllAtOrAfter(Put(fData, name, table), cutoff)
  {
    var d := Put(fData, name, table);
    forall i, j | 0 <= i < |d| && 0 <= j < |d[i].1|
      ensures cutoff <= d[i].1[j].time
    {
      PutEntry(fData, name, table, i);
      if d[i] != (name, table) {
        var i' :| 0 <= i' < |fData| && fData[i'] == d[i];
      }
    }
  }

  /** Every entry after `d[k] = v` is `(k, v)` or an entry that was there. */
  lemma {:induction false} PutEntry<K, V>(d: Dict<K, V>, k: K, v: V, i: nat)
    requires i < |Put(d, k, v)|
    ensures Put(d, k, v)[i] == (k, v) || Put(d, k, v)[i] in d
  {
    if d != [] && d[0].0 != k && i > 0 {
      PutEntry(d[1..], k, v, i - 1);
    }
  }

  lemma LoadKeeps(st: Loaded, file: string, files: seq<string>, disk: map<string, seq<string>>,
                  cfg: Settings, tools: Tools)
    requires Kept(st, files, disk, cfg)
    requires Load(st, file, cfg, tools).Success?
    ensures Kept(Load(st, file, cfg, tools).value, files, disk, cfg)
  {
    var name := SensorName(file, 0).value;
    var rows := tools.readCsv(st.disk[file], UseCols(cfg.columns));
    AtOrAfterBound(Shifted(rows, name, cfg, tools.parse), cfg.cutoff);
    StoreKeeps(st, name, Table(rows, name, cfg, tools.parse), name in cfg.offsets, files, disk, cfg);
  }

  lemma CleanFileKeeps(st: Loaded, file: string, files: seq<string>, disk: map<string, seq<string>>,
                       cfg: Settings, tools: Tools)
    requires Kept(st, files, disk, cfg)
    requires CleanFile(st, file, cfg, tools).Success?
    ensures Kept(CleanFile(st, file, cfg, tools).value, files + [file], disk, cfg)
  {
    var rep := Repair(st, file, cfg, tools);
    if file in cfg.confirmed {
      LoadKeeps(st, file, files + [file], disk, cfg, tools);
    } else if rep.value.None? {
      CheckedKeeps(st, file, false, files, disk, cfg);
    } else {
      CheckedKeeps(st, file, true, files, disk, cfg);
      var st1 := rep.value.value;
      LoadKeeps(st1, file, files + [file], disk, cfg, tools);
    }
  }

  lemma StepKeeps(st: Loaded, file: string, files: seq<string>, disk: map<string, seq<string>>,
                  cfg: Settings, tools: Tools)
    requires Kept(st, files, disk, cfg)
    requires StepOf(cfg, tools)(st, file).Success?
    ensures Kept(StepOf(cfg, tools)(st, file).value, files + [file], disk, cfg)
  {
    CleanFileKeeps(st, file, files, disk, cfg, tools);
  }

  /** Every step of the file loop keeps the bookkeeping. */
  ghost predicate StepKeepsAll(step: Step, disk: map<string, seq<string>>, cfg: Settings)
  {
    forall st, file, files ::
      Kept(st, files, disk, cfg) && step(st, file).Success? ==> Kept(step(st, file).value, files + [file], disk, cfg)
  }

  lemma {:induction false} FoldKeeps(files: seq<string>, k: nat, st0: Loaded, step: Step,
                                     disk: map<string, seq<string>>, cfg: Settings)
    requires k <= |files| && StepKeepsAll(step, disk, cfg) && Kept(st0, [], disk, cfg)
    requires Fold(files, k, st0, step).Success?
    ensures Kept(Fold(files, k, st0, step).value, files[..k], disk, cfg)
  {
    if k > 0 {
      FoldKeeps(files, k - 1, st0, step, disk, cfg);
      assert files[..k] == files[..k - 1] + [files[k - 1]];
    }
  }

  /** What `cleanUp` leaves behind when it returns: `filesChecked` has an
      entry for exactly the files not in `confirmedFiles`, confirmed files
      are untouched on disk, no sensor or file is listed twice, and every
      loaded row is at or after the cut-off. */
  lemma CleanUpKeeps(files: seq<string>, disk: map<string, seq<string>>, cfg: Settings, tools: Tools)
    requires CleanFiles(files, disk, cfg, tools).Success?
    ensures Kept(CleanFiles(files, disk, cfg, tools).value, files, disk, cfg)
  {
    forall st, file, files' | Kept(st, files', disk, cfg) && StepOf(cfg, tools)(st, file).Success?
      ensures Kept(StepOf(cfg, tools)(st, file).value, files' + [file], disk, cfg)
    {
      StepKeeps(st, file, files', disk, cfg, tools);
    }
    FoldKeeps(files, |files|, Loaded([], [], [], disk), StepOf(cfg, tools), disk, cfg);
    assert files[..|files|] == files;
  }

  /** A file with fewer than four lines is recorded as not checked and
      nothing is loaded from it. */
  lemma ShortFileSkipped(st: Loaded, file: string, cfg: Settings, tools: Tools)
    requires file !in cfg.confirmed && file in st.disk && |st.disk[file]| < 4
    ensures CleanFile(st, file, cfg, tools) == Success(st.(checked := Put(st.checked, file, false)))
  {
  }

  /** A loaded file's table is stored under its sensor name, replacing an
      earlier table of the same sensor. */
  lemma LoadStores(st: Loaded, file: string, cfg: Settings, tools: Tools)
    requires Load(st, file, cfg, tools).Success?
    ensures var name := SensorName(file, 0).value;
            var rows := tools.readCsv(st.disk[file], UseCols(cfg.columns));
            Get(Load(st, file, cfg, tools).value.fData, name) == Some(Table(rows, name, cfg, tools.parse))
  {
    var name := SensorName(file, 0).value;
    var rows := tools.readCsv(st.disk[file], UseCols(cfg.columns));
    PutGet(st.fData, name, Table(rows, name, cfg, tools.parse));
  }

  lemma {:induction false} ShiftZero(samples: seq<Sample>)
    ensures Shift(samples, 0) == samples
  {
    if samples != [] {
      ShiftZero(samples[1..]);
    }
  }

  /** Converting and shifting gives one row per parseable row, at its
      parsed time less the offset, with its readings. */
  lemma ConvertedRows(good: seq<RawRow>, parse: Parser, hours: int)
    requires AllParse(good, parse)
    ensures forall x :: x in Shift(ToSamples(good, parse), hours) <==>
      exists r :: r in good && parse(r.stamp).Some? && x == Sample(parse(r.stamp).value - hours * 3600, r.readings)
  {
    var samples := ToSamples(good, parse);
    var shifted := Shift(samples, hours);
    forall i | 0 <= i < |good|
      ensures parse(good[i].stamp).Some? &&
              shifted[i] == Sample(parse(good[i].stamp).value - hours * 3600, good[i].readings)
    {
      ToSamplesAt(good, parse, i);
      ShiftAt(samples, hours, i);
    }
    forall x
      ensures x in shifted <==>
        exists r :: r in good && parse(r.stamp).Some? && x == Sample(parse(r.stamp).value - hours * 3600, r.readings)
    {
      if x in shifted {
        var i :| 0 <= i < |shifted| && shifted[i] == x;
        assert good[i] in good;
      }
      if exists r :: r in good && parse(r.stamp).Some? && x == Sample(parse(r.stamp).value - hours * 3600, r.readings) {
        var r :| r in good && parse(r.stamp).Some? && x == Sample(parse(r.stamp).value - hours * 3600, r.readings);
        var i :| 0 <= i < |good| && good[i] == r;
        assert shifted[i] == x;
      }
    }
  }

  /** The converted rows before the cut-off is applied: one per parseable
      row (less the known bad stamps when the column did not parse at
      first), at its time less the sensor's offset, with its readings. */
  lemma ShiftedRows(rows: seq<RawRow>, name: string, cfg: Settings, parse: Parser)
    ensures var base := if AllParse(rows, parse) then rows else Keep(rows, cfg.badTimes);
            var hours := if name in cfg.offsets then cfg.offsets[name] else 0;
            forall x :: x in Shifted(rows, name, cfg, parse) <==>
              exists r :: r in base && parse(r.stamp).Some? &&
                x == Sample(parse(r.stamp).value - hours * 3600, r.readings)
  {
    var base := if AllParse(rows, parse) then rows else Keep(rows, cfg.badTimes);
    var hours := if name in cfg.offsets then cfg.offsets[name] else 0;
    var samples := ParseTimes(rows, cfg.badTimes, parse);
    ParseTimesKeeps(rows, cfg.badTimes, parse);
    var good := KeepParseable(base, parse);
    KeepParseableMembers(base, parse);
    ShiftZero(samples);
    assert Shifted(rows, name, cfg, parse) == Shift(ToSamples(good, parse), hours);
    ConvertedRows(good, parse, hours);
  }

  /** What a sensor's table holds: the converted rows at or after the
      cut-off. */
  lemma TableRows(rows: seq<RawRow>, name: string, cfg: Settings, parse: Parser)
    ensures var base := if AllParse(rows, parse) then rows else Keep(rows, cfg.badTimes);
            var hours := if name in cfg.offsets then cfg.offsets[name] else 0;
            forall x :: x in Table(rows, name, cfg, parse) <==>
              (exists r :: r in base && parse(r.stamp).Some? &&
                 x == Sample(parse(r.stamp).value - hours * 3600, r.readings)) &&
              cfg.cutoff <= x.time
  {
    ShiftedRows(rows, name, cfg, parse);
    AtOrAfterMembers(Shifted(rows, name, cfg, parse), cfg.cutoff);
  }

  /** The two-digit year is replaced wherever it occurs in the date, so a
      day equal to the year is expanded as well: for 22 April 2022, logged
      as `   22/4/22`, the parser is handed the day 2022. */
  lemma YearReplacedEverywhere(line: string, date: string)
    requires line == "   22/4/22,   11:58:8" && date == "4-22-22"
    ensures BadDateEnd(line) == Some(10)
    ensures var year := LastField(date, '-');
            Replace(line[..10], year, "20" + year) == "   2022/4/2022"
  {
    YearOfDate(date);
    DateEnd(line);
    YearExpanded(line[..10], "22");
  }

  lemma YearOfDate(date: string)
    requires date == "4-22-22"
    ensures LastField(date, '-') == "22"
  {
    assert LastField(date[..5], '-') == [];
    assert LastField(date[..6], '-') == ['2'];
  }

  lemma DateEnd(line: string)
    requires line == "   22/4/22,   11:58:8"
    ensures BadDateEnd(line) == Some(10)
  {
    assert DigitRun(line, 10) == 0;
    assert DigitRun(line, 9) == 1;
    assert DigitRun(line, 8) == 2;
    assert DigitRun(line, 7) == 0;
    assert DigitRun(line, 6) == 1;
  }

  lemma NotAtStart(t: string, pat: string)
    requires 0 < |pat| && 0 < |t| && t[0] != pat[0]
    ensures !OccursAt(t, pat, 0)
  {
    if |pat| <= |t| {
      assert t[0..|pat|][0] == t[0];
    }
  }

  lemma YearExpanded(s: string, year: string)
    requires s == "   22/4/22" && year == "22"
    ensures Replace(s, year, "20" + year) == "   2022/4/2022"
  {
    var rep := "20" + year;
    YearExpandedDay(s[3..], year);
    SkipFirst(s[2..], year, rep);
    assert s[2..][1..] == s[3..];
    SkipFirst(s[1..], year, rep);
    assert s[1..][1..] == s[2..];
    SkipFirst(s, year, rep);
  }

  /** A string whose first character does not start `pat` keeps that
      character. */
  lemma SkipFirst(t: string, pat: string, rep: string)
    requires 0 < |pat| && 0 < |t| && t[0] != pat[0]
    ensures ReplaceFrom(t, pat, rep) == [t[0]] + ReplaceFrom(t[1..], pat, rep)
  {
    NotAtStart(t, pat);
  }


  lemma YearExpandedDay(t: string, year: string)
    requires t == "22/4/22" && year == "22"
    ensures ReplaceFrom(t, year, "20" + year) == "2022/4/2022"
  {
    YearExpandedTail(t[2..], year);
    assert OccursAt(t, year, 0);
  }

  lemma YearExpandedTail(t: string, year: string)
    requires t == "/4/22" && year == "22"
    ensures ReplaceFrom(t, year, "20" + year) == "/4/2022"
  {
    var rep := "20" + year;
    assert ReplaceFrom(t[5..], year, rep) == [];
    assert OccursAt(t[3..], year, 0) && t[3..][2..] == t[5..];
    assert ReplaceFrom(t[3..], year, rep) == "2022";
    SkipFirst(t[2..], year, rep);
    assert t[2..][1..] == t[3..];
    SkipFirst(t[1..], year, rep);
    assert t[1..][1..] == t[2..];
    SkipFirst(t, year, rep);
  }

}
