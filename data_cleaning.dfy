/** The driver of the pipeline (project/dataCleaning.py): the merge of the
    interpolated tables into one upsampled table (`mergeDataFrames`), the
    recording-health audit (`checkDataRecordingPerformance`), the call of
    the gap-fill resampler for every sensor (`interpolateMissingData`) and
    the bookkeeping `main` keeps per day in the parameter file. */
module DataCleaning {
  import opened Wrappers
  import opened Frames
  import opened PyDict
  import FillDataFrame

  /* ---------------------------------------------------------------- */
  /* mergeDataFrames: shortest index and 10x upsample                  */
  /* ---------------------------------------------------------------- */

  /** One row of `mergedData.values`: the timestamp and then one value per sensor. */
  type Row = seq<real>

  /** All rows have the same number of columns. */
  predicate Rect(rows: seq<Row>)
  {
    forall i :: 0 <= i < |rows| ==> |rows[i]| == |rows[0]|
  }

  /** `x + increment*count` with `increment = (y - x)/10`, column by column. */
  function Tenth(x: Row, y: Row, c: nat): (r: Row)
    requires |x| == |y|
  {
    seq(|x|, j requires 0 <= j < |x| => x[j] + (y[j] - x[j]) / 10.0 * (c as real))
  }

  /** What source row `k` adds to `tempList`: ten steps towards the next
      row, or the row itself when it is the last one (the IndexError). */
  function Block(rows: seq<Row>, k: nat): seq<Row>
    requires k < |rows| && Rect(rows)
  {
    if k + 1 < |rows| then seq(10, c requires 0 <= c < 10 => Tenth(rows[k], rows[k + 1], c))
    else [rows[k]]
  }

  /** `tempList` after the first `k` source rows. */
  function UpTo(rows: seq<Row>, k: nat): seq<Row>
    requires k <= |rows| && Rect(rows)
  {
    if k == 0 then [] else UpTo(rows, k - 1) + Block(rows, k - 1)
  }

  /** The upsampled table. */
  function Upsample(rows: seq<Row>): seq<Row>
    requires Rect(rows)
  {
    UpTo(rows, |rows|)
  }

  lemma {:induction false} UpToLength(rows: seq<Row>, k: nat)
    requires Rect(rows) && k < |rows|
    ensures |UpTo(rows, k)| == 10 * k
  {
    if k > 0 {
      UpToLength(rows, k - 1);
    }
  }

  /** `n` rows become `10*(n-1) + 1` rows. */
  lemma UpsampleLength(rows: seq<Row>)
    requires Rect(rows) && |rows| >= 1
    ensures |Upsample(rows)| == 10 * (|rows| - 1) + 1
  {
    UpToLength(rows, |rows| - 1);
  }

  lemma {:induction false} UpToAt(rows: seq<Row>, m: nat, k: nat, c: nat)
    requires Rect(rows) && k < m < |rows| && c < 10
    ensures |UpTo(rows, m)| == 10 * m
    ensures UpTo(rows, m)[10 * k + c] == Tenth(rows[k], rows[k + 1], c)
  {
    UpToLength(rows, m);
    UpToLength(rows, m - 1);
    if k < m - 1 {
      UpToAt(rows, m - 1, k, c);
    }
  }

  /** Row `10k + c` lies the fraction `c/10` of the way from source row `k`
      to source row `k + 1`. */
  lemma UpsampleAt(rows: seq<Row>, k: nat, c: nat)
    requires Rect(rows) && k + 1 < |rows| && c < 10
    ensures 10 * k + c < |Upsample(rows)|
    ensures Upsample(rows)[10 * k + c] == Tenth(rows[k], rows[k + 1], c)
  {
    UpToAt(rows, |rows| - 1, k, c);
  }

  /** Every tenth row is a source row, and the last row is the last source row. */
  lemma UpsampleKeepsRows(rows: seq<Row>)
    requires Rect(rows) && |rows| >= 1
    ensures forall k :: 0 <= k < |rows| ==> 10 * k < |Upsample(rows)| && Upsample(rows)[10 * k] == rows[k]
    ensures Upsample(rows)[|Upsample(rows)| - 1] == rows[|rows| - 1]
  {
    UpsampleLength(rows);
    forall k | 0 <= k < |rows|
      ensures 10 * k < |Upsample(rows)| && Upsample(rows)[10 * k] == rows[k]
    {
      if k + 1 < |rows| {
        UpsampleAt(rows, k, 0);
        assert Tenth(rows[k], rows[k + 1], 0) == rows[k];
      } else {
        UpToLength(rows, k);
      }
    }
  }

  /** The upsample loop, recomputed once per column of `mergedData` as the
      source does; every pass builds the same table. */
  method UpsampleFrame(rows: seq<Row>, columns: nat) returns (hiRes: seq<Row>)
    requires Rect(rows) && columns >= 1
    ensures hiRes == Upsample(rows)
  {
    hiRes := [];
    for i := 0 to columns
      invariant i >= 1 ==> hiRes == Upsample(rows)
    {
      var tempList := UpsampleOnce(rows);
      hiRes := tempList;
    }
  }

  /** One pass of the row loop, building `tempList`. */
  method UpsampleOnce(rows: seq<Row>) returns (tempList: seq<Row>)
    requires Rect(rows)
    ensures tempList == Upsample(rows)
  {
    tempList := [];
    for idx := 0 to |rows|
      invariant tempList == UpTo(rows, idx)
    {
      var x := rows[idx];
      if idx + 1 < |rows| {
        var next := rows[idx + 1];
        var increment := seq(|x|, j requires 0 <= j < |x| => (next[j] - x[j]) / 10.0);
        for count := 0 to 10
          invariant tempList == UpTo(rows, idx) + Block(rows, idx)[..count]
        {
          var step := seq(|x|, j requires 0 <= j < |x| => x[j] + increment[j] * (count as real));
          assert step == Tenth(x, next, count) by {
            forall j | 0 <= j < |x|
              ensures step[j] == Tenth(x, next, count)[j]
            {
              assert increment[j] == (next[j] - x[j]) / 10.0;
            }
          }
          tempList := tempList + [step];
          assert Block(rows, idx)[..count + 1] == Block(rows, idx)[..count] + [step];
        }
        assert Block(rows, idx)[..10] == Block(rows, idx);
      } else {
        tempList := tempList + [x];
      }
    }
  }

  /** `min(length_list)`. */
  function MinOf(s: seq<nat>): (m: nat)
    requires |s| > 0
    ensures m in s
    ensures forall j :: 0 <= j < |s| ==> m <= s[j]
  {
    if |s| == 1 then s[0]
    else
      var m := MinOf(s[1..]);
      assert m == s[1..][0] || m in s[1..][1..];
      if s[0] <= m then s[0] else m
  }

  /** `length_list.index(v)`: the first position holding `v`. */
  function IndexOf(s: seq<nat>, v: nat): (i: nat)
    requires v in s
    ensures i < |s| && s[i] == v
    ensures forall j :: 0 <= j < i ==> s[j] != v
  {
    if s[0] == v then 0 else 1 + IndexOf(s[1..], v)
  }

  /** The particle column must exist in every table (a missing one raises KeyError). */
  predicate HasColumn(tables: Dict<string, seq<Sample>>, p: nat)
  {
    forall c, i :: 0 <= c < |tables| && 0 <= i < |tables[c].1| ==> p < |tables[c].1[i].readings|
  }

  /** `length_list`. */
  function Lengths(tables: Dict<string, seq<Sample>>): (ls: seq<nat>)
    ensures |ls| == |tables| && forall c :: 0 <= c < |tables| ==> ls[c] == |tables[c].1|
  {
    seq(|tables|, c requires 0 <= c < |tables| => |tables[c].1|)
  }

  /** `interpDF[x][particle]` placed into a frame of `n` rows: the frame's
      index is 0..n-1, so pandas keeps the first `n` values. */
  function ParticleColumn(rows: seq<Sample>, p: nat, n: nat): seq<real>
    requires n <= |rows| && forall i :: 0 <= i < |rows| ==> p < |rows[i].readings|
  {
    seq(n, i requires 0 <= i < n => rows[i].readings[p] as real)
  }

  /** The `Date_Time` column of a table, first `n` rows. */
  function TimeColumn(rows: seq<Sample>, n: nat): seq<real>
    requires n <= |rows|
  {
    seq(n, i requires 0 <= i < n => rows[i].time as real)
  }

  /** The columns of `mergedData`: `Date_Time` of the first shortest table,
      then the particle column of every table in key order. */
  function MergedColumns(tables: Dict<string, seq<Sample>>, p: nat): (cols: seq<seq<real>>)
    requires |tables| > 0 && HasColumn(tables, p)
    ensures |cols| == |tables| + 1
    ensures forall c :: 0 <= c < |cols| ==> |cols[c]| == MinOf(Lengths(tables))
  {
    var low := MinOf(Lengths(tables));
    var lowIdx := IndexOf(Lengths(tables), low);
    [TimeColumn(tables[lowIdx].1, low)]
      + seq(|tables|, c requires 0 <= c < |tables| => ParticleColumn(tables[c].1, p, low))
  }

  /** `mergedData.values`: the columns read row by row. */
  function Values(cols: seq<seq<real>>, n: nat): (rows: seq<Row>)
    requires forall c :: 0 <= c < |cols| ==> |cols[c]| == n
    ensures |rows| == n && forall i :: 0 <= i < n ==> |rows[i]| == |cols|
  {
    seq(n, i requires 0 <= i < n => seq(|cols|, c requires 0 <= c < |cols| => cols[c][i]))
  }

  /** `min([])` raises ValueError when no sensor has interpolated data. */
  datatype MergeError = NoTables

  /** What `mergeDataFrames` returns, without the `Average` and `Variance` columns. */
  function Merged(tables: Dict<string, seq<Sample>>, p: nat): Result<seq<Row>, MergeError>
    requires HasColumn(tables, p)
  {
    if tables == [] then Failure(NoTables)
    else Success(Upsample(Values(MergedColumns(tables, p), MinOf(Lengths(tables)))))
  }

  /** `mergeDataFrames(interpDF, particle, start, end)` as the source runs it. */
  method MergeDataFrames(tables: Dict<string, seq<Sample>>, p: nat) returns (r: Result<seq<Row>, MergeError>)
    requires HasColumn(tables, p)
    ensures r == Merged(tables, p)
  {
    var lengthList: seq<nat> := [];
    for x := 0 to |tables|
      invariant lengthList == Lengths(tables)[..x]
    {
      lengthList := lengthList + [|tables[x].1|];
    }
    if lengthList == [] {
      return Failure(NoTables);
    }
    assert lengthList == Lengths(tables);
    var lowValue := MinOf(lengthList);
    var lowIdx := IndexOf(lengthList, lowValue);
    var mergedData := [TimeColumn(tables[lowIdx].1, lowValue)];
    for idx := 0 to |tables|
      invariant mergedData == MergedColumns(tables, p)[..idx + 1]
    {
      mergedData := mergedData + [ParticleColumn(tables[idx].1, p, lowValue)];
    }
    assert mergedData == MergedColumns(tables, p);
    var values := Values(mergedData, lowValue);
    var hiRes := UpsampleFrame(values, |mergedData| + 2);
    r := Success(hiRes);
  }

  /** Before the upsample the merged table has as many rows as the shortest
      table; row `i` holds the `i`-th time of the first shortest table and
      the `i`-th particle value of every table. */
  lemma MergedRows(tables: Dict<string, seq<Sample>>, p: nat)
    requires |tables| > 0 && HasColumn(tables, p)
    ensures var low := MinOf(Lengths(tables));
            var v := Values(MergedColumns(tables, p), low);
            var first := IndexOf(Lengths(tables), low);
            && |v| == low
            && (forall c :: 0 <= c < |tables| ==> low <= |tables[c].1|)
            && (forall c :: 0 <= c < first ==> low < |tables[c].1|)
            && (forall i :: 0 <= i < low ==> v[i][0] == tables[first].1[i].time as real)
            && (forall i, c :: 0 <= i < low && 0 <= c < |tables| ==> v[i][c + 1] == tables[c].1[i].readings[p] as real)
  {
  }

  /** The merged table: `10*(n-1) + 1` rows for a shortest length `n >= 1`,
      and every tenth row is row `i` of the merged table. */
  lemma MergedUpsampled(tables: Dict<string, seq<Sample>>, p: nat)
    requires |tables| > 0 && HasColumn(tables, p) && MinOf(Lengths(tables)) >= 1
    ensures var low := MinOf(Lengths(tables));
            var out := Merged(tables, p);
            && out.Success?
            && |out.value| == 10 * (low - 1) + 1
            && forall i :: 0 <= i < low ==> out.value[10 * i] == Values(MergedColumns(tables, p), low)[i]
  {
    var low := MinOf(Lengths(tables));
    var v := Values(MergedColumns(tables, p), low);
    UpsampleLength(v);
    UpsampleKeepsRows(v);
  }

  /* ---------------------------------------------------------------- */
  /* checkDataRecordingPerformance                                     */
  /* ---------------------------------------------------------------- */

  /** The expected recording interval, in seconds. */
  const Interval := 20

  /** Seconds in a day: `Timedelta.seconds` is the gap modulo a day. */
  const Day := 86400

  /** The row with label `i` is strictly inside the window. The tables come
      out of `reset_index(drop=True)`, so labels are positions. */
  predicate InWindow(t: seq<int>, i: int, start: int, end: int)
  {
    0 <= i < |t| && start < t[i] < end
  }

  /** The labels of the rows among the first `n` that the window keeps, in order. */
  function Labels(t: seq<int>, start: int, end: int, n: nat): (ls: seq<nat>)
    requires n <= |t|
    ensures forall k :: 0 <= k < |ls| ==> ls[k] < n && InWindow(t, ls[k], start, end)
    ensures forall j, k :: 0 <= j < k < |ls| ==> ls[j] < ls[k]
  {
    if n == 0 then []
    else if InWindow(t, n - 1, start, end) then Labels(t, start, end, n - 1) + [n - 1]
    else Labels(t, start, end, n - 1)
  }

  /** `temp['Date_Time']` read by position. */
  function Temp(t: seq<int>, start: int, end: int): (temp: seq<int>)
  {
    var ls := Labels(t, start, end, |t|);
    seq(|ls|, k requires 0 <= k < |ls| => t[ls[k]])
  }

  /** The gaps (`timeErr`) the first `n` iterations of the `enumerate` loop
      record: iteration `idx` reads `temp['Date_Time'][idx+1]`, the row with
      LABEL `idx+1`, which exists only when that row is in the window (a
      KeyError otherwise, swallowed by the bare `except`), and records the
      difference when it is more than the interval. */
  function LabelGaps(t: seq<int>, temp: seq<int>, start: int, end: int, n: nat): (gaps: seq<int>)
    requires n <= |temp|
    ensures forall k :: 0 <= k < |gaps| ==> gaps[k] > Interval
  {
    if n == 0 then []
    else
      var idx := n - 1;
      if InWindow(t, idx + 1, start, end) && t[idx + 1] - temp[idx] > Interval
      then LabelGaps(t, temp, start, end, idx) + [t[idx + 1] - temp[idx]]
      else LabelGaps(t, temp, start, end, idx)
  }

  /** `timeErr.seconds` of a positive gap. */
  function Seconds(d: int): int
  {
    d % Day
  }

  function SecondsOf(gaps: seq<int>): (secs: seq<int>)
    ensures |secs| == |gaps| && forall k :: 0 <= k < |gaps| ==> secs[k] == Seconds(gaps[k])
  {
    seq(|gaps|, k requires 0 <= k < |gaps| => Seconds(gaps[k]))
  }

  function Sum(s: seq<int>): int
  {
    if s == [] then 0 else Sum(s[..|s| - 1]) + s[|s| - 1]
  }

  /** What the audit reports for one sensor with rows in the window: the
      rows in the window, the number of long gaps (`counter`), how often each
      gap length in seconds occurred (`errorCount`), the time missing at the
      start and at the end, the time lost in long gaps and the total. */
  datatype Report = Report(rows: nat, counter: nat, errorCount: Dict<int, nat>,
                           startGap: int, endGap: int, during: int, lost: int)

  /** The audit of one sensor; `None` when no row is in the window. */
  function Audit(t: seq<int>, start: int, end: int): Option<Report>
  {
    var temp := Temp(t, start, end);
    ReportOf(temp, LabelGaps(t, temp, start, end, |temp|), start, end)
  }

  /** The report built from the rows in the window and the gaps found. */
  function ReportOf(temp: seq<int>, gaps: seq<int>, start: int, end: int): Option<Report>
  {
    if temp == [] then None
    else
      var startGap := if temp[0] > start then temp[0] - start else 0;
      var endGap := if temp[|temp| - 1] < end then end - temp[|temp| - 1] else 0;
      var during := Sum(SecondsOf(gaps));
      Some(Report(|temp|, |gaps|, CountUp(SecondsOf(gaps)), startGap, endGap, during, during + startGap + endGap))
  }

  /** `errorCount[x][k] += 1` on a known length, `= 1` on a new one. */
  function Bump(d: Dict<int, nat>, k: int): Dict<int, nat>
  {
    match Get(d, k)
    case Some(n) => Put(d, k, n + 1)
    case None => Put(d, k, 1)
  }

  /** `errorCount[x]` after the seconds `secs` were recorded in order. */
  function CountUp(secs: seq<int>): Dict<int, nat>
  {
    if secs == [] then [] else Bump(CountUp(secs[..|secs| - 1]), secs[|secs| - 1])
  }

  /** A bump adds one to the count of `k` and leaves the others. */
  lemma BumpGet(d: Dict<int, nat>, k: int, k': int)
    ensures Get(Bump(d, k), k') == if k' == k then Some(if Get(d, k).Some? then Get(d, k).value + 1 else 1) else Get(d, k')
  {
    var n := if Get(d, k).Some? then Get(d, k).value + 1 else 1;
    assert Bump(d, k) == Put(d, k, n);
    PutGet(d, k, n);
  }

  /** The count of one length after recording `secs`. */
  lemma {:induction false} CountUpGet(secs: seq<int>, k: int)
    ensures Get(CountUp(secs), k) == if k in multiset(secs) then Some(multiset(secs)[k]) else None
  {
    if secs != [] {
      var init := secs[..|secs| - 1];
      var last := secs[|secs| - 1];
      assert secs == init + [last];
      assert multiset(secs)[k] == multiset(init)[k] + if k == last then 1 else 0;
      CountUpGet(init, k);
      CountUpGet(init, last);
      BumpGet(CountUp(init), last, k);
    }
  }

  /** Every length is recorded once in the table. */
  lemma {:induction false} CountUpUnique(secs: seq<int>)
    ensures UniqueKeys(CountUp(secs))
  {
    if secs != [] {
      var init := secs[..|secs| - 1];
      var last := secs[|secs| - 1];
      var d := CountUp(init);
      CountUpUnique(init);
      var n := if Get(d, last).Some? then Get(d, last).value + 1 else 1;
      assert Bump(d, last) == Put(d, last, n);
      PutUnique(d, last, n);
    }
  }

  /** The table holds, for every length recorded, how often it was recorded. */
  lemma CountUpCounts(secs: seq<int>)
    ensures UniqueKeys(CountUp(secs))
    ensures forall k :: Get(CountUp(secs), k) == if k in multiset(secs) then Some(multiset(secs)[k]) else None
  {
    CountUpUnique(secs);
    forall k
      ensures Get(CountUp(secs), k) == if k in multiset(secs) then Some(multiset(secs)[k]) else None
    {
      CountUpGet(secs, k);
    }
  }

  /** `sum(seconds * amount for seconds, amount in d.items())`. */
  function ItemsSum(d: Dict<int, nat>): int
  {
    if d == [] then 0 else ItemsSum(d[..|d| - 1]) + d[|d| - 1].0 * d[|d| - 1].1
  }

  lemma {:induction false} ItemsSumCons(a: (int, nat), d: Dict<int, nat>)
    ensures ItemsSum([a] + d) == a.0 * a.1 + ItemsSum(d)
  {
    if d != [] {
      assert ([a] + d)[..|d|] == [a] + d[..|d| - 1];
      ItemsSumCons(a, d[..|d| - 1]);
    }
  }

  /** Storing `d[k] = v` replaces `k`'s term of the sum. */
  lemma {:induction false} ItemsSumPut(d: Dict<int, nat>, k: int, v: nat)
    ensures ItemsSum(Put(d, k, v)) == ItemsSum(d) - (if Get(d, k).Some? then k * Get(d, k).value else 0) + k * v
  {
    if d == [] {
      assert ItemsSum([(k, v)]) == ItemsSum([]) + k * v;
    } else if d[0].0 == k {
      assert d == [d[0]] + d[1..];
      ItemsSumCons(d[0], d[1..]);
      ItemsSumCons((k, v), d[1..]);
    } else {
      assert d == [d[0]] + d[1..];
      ItemsSumPut(d[1..], k, v);
      ItemsSumCons(d[0], d[1..]);
      ItemsSumCons(d[0], Put(d[1..], k, v));
    }
  }

  /** A bump adds `k` to the sum. */
  lemma BumpSum(d: Dict<int, nat>, k: int)
    ensures ItemsSum(Bump(d, k)) == ItemsSum(d) + k
  {
    if Get(d, k).Some? {
      var n := Get(d, k).value;
      assert Bump(d, k) == Put(d, k, n + 1);
      ItemsSumPut(d, k, n + 1);
      MulSucc(k, n);
    } else {
      assert Bump(d, k) == Put(d, k, 1);
      ItemsSumPut(d, k, 1);
    }
  }

  /** Summing the count table gives the sum of the recorded seconds. */
  lemma {:induction false} CountUpSum(secs: seq<int>)
    ensures ItemsSum(CountUp(secs)) == Sum(secs)
  {
    if secs != [] {
      var init := secs[..|secs| - 1];
      CountUpSum(init);
      BumpSum(CountUp(init), secs[|secs| - 1]);
    }
  }

  lemma MulSucc(x: int, n: nat)
    ensures x * (n + 1) == x * n + x
  {
  }

  /** The per-sensor body of the audit loop as the source runs it. */
  method AuditSensor(t: seq<int>, start: int, end: int) returns (r: Option<Report>)
    ensures r == Audit(t, start, end)
  {
    var temp := Temp(t, start, end);
    var counter, errorCount := CountGaps(t, temp, start, end);
    if temp == [] {
      return None;
    }
    var timeDeltaStart := 0;
    var timeDeltaEnd := 0;
    if temp[0] > start {
      timeDeltaStart := temp[0] - start;
    }
    if temp[|temp| - 1] < end {
      timeDeltaEnd := end - temp[|temp| - 1];
    }
    var timeDeltaDuring := SumItems(errorCount);
    CountUpSum(SecondsOf(LabelGaps(t, temp, start, end, |temp|)));
    r := Some(Report(|temp|, counter, errorCount, timeDeltaStart, timeDeltaEnd, timeDeltaDuring,
                     timeDeltaDuring + timeDeltaEnd + timeDeltaStart));
  }

  /** The `enumerate` loop: `counter` and `errorCount[x]`. */
  method CountGaps(t: seq<int>, temp: seq<int>, start: int, end: int) returns (counter: nat, errorCount: Dict<int, nat>)
    ensures counter == |LabelGaps(t, temp, start, end, |temp|)|
    ensures errorCount == CountUp(SecondsOf(LabelGaps(t, temp, start, end, |temp|)))
  {
    errorCount := [];
    counter := 0;
    ghost var gaps: seq<int> := [];
    for idx := 0 to |temp|
      invariant gaps == LabelGaps(t, temp, start, end, idx)
      invariant counter == |gaps|
      invariant errorCount == CountUp(SecondsOf(gaps))
    {
      ghost var next := LabelGaps(t, temp, start, end, idx + 1);
      // `temp['Date_Time'][idx+1]` finds the row labelled idx+1 only when it is in the window
      if InWindow(t, idx + 1, start, end) {
        var timeErr := t[idx + 1] - temp[idx];
        if timeErr > Interval {
          errorCount := Tally(errorCount, Seconds(timeErr));
          counter := counter + 1;
          CountUpSnoc(gaps, timeErr);
          gaps := gaps + [timeErr];
        }
      }
      assert gaps == next;
    }
  }

  /** `errorCount[x][key] += 1`, or 1 for a new key. */
  method Tally(errorCount: Dict<int, nat>, key: int) returns (next: Dict<int, nat>)
    ensures next == Bump(errorCount, key)
  {
    match Get(errorCount, key) {
      case Some(n) =>
        next := Put(errorCount, key, n + 1);
      case None =>
        next := Put(errorCount, key, 1);
    }
  }

  lemma CountUpSnoc(gaps: seq<int>, gap: int)
    ensures CountUp(SecondsOf(gaps + [gap])) == Bump(CountUp(SecondsOf(gaps)), Seconds(gap))
  {
    assert SecondsOf(gaps + [gap]) == SecondsOf(gaps) + [Seconds(gap)];
  }

  /** `sum([... for time, amount in errorCount[x].items()])`, walking the items in order. */
  method SumItems(errorCount: Dict<int, nat>) returns (during: int)
    ensures during == ItemsSum(errorCount)
  {
    during := 0;
    for i := 0 to |errorCount|
      invariant during == ItemsSum(errorCount[..i])
    {
      assert errorCount[..i + 1][..i] == errorCount[..i];
      during := during + errorCount[i].0 * errorCount[i].1;
    }
    assert errorCount[..|errorCount|] == errorCount;
  }

  /** What a report says, for any timestamps: `None` exactly when no row
      is in the window; otherwise it counts the rows in the window, every
      recorded gap is longer than the interval, both edge gaps are positive
      (the rows are strictly inside the window), the tally of gap lengths
      adds up to the time lost in gaps, and the total is the sum of the
      three. */
  lemma AuditReport(t: seq<int>, start: int, end: int)
    ensures Audit(t, start, end).None? <==> forall i :: 0 <= i < |t| ==> !InWindow(t, i, start, end)
    ensures Audit(t, start, end).Some? ==>
      var r := Audit(t, start, end).value;
      && r.rows == |Labels(t, start, end, |t|)|
      && r.startGap > 0 && r.endGap > 0
      && ItemsSum(r.errorCount) == r.during
      && r.lost == r.during + r.startGap + r.endGap
  {
    var temp := Temp(t, start, end);
    LabelsEmpty(t, start, end, |t|);
    if temp != [] {
      var gaps := LabelGaps(t, temp, start, end, |temp|);
      CountUpSum(SecondsOf(gaps));
    }
  }

  lemma {:induction false} LabelsEmpty(t: seq<int>, start: int, end: int, n: nat)
    requires n <= |t|
    ensures Labels(t, start, end, n) == [] <==> forall i :: 0 <= i < n ==> !InWindow(t, i, start, end)
  {
    if n > 0 {
      LabelsEmpty(t, start, end, n - 1);
    }
  }

  /** Every row of the first `n` that is in the window has its label kept. */
  lemma {:induction false} LabelsComplete(t: seq<int>, start: int, end: int, n: nat, j: nat)
    requires j < n <= |t| && InWindow(t, j, start, end)
    ensures j in Labels(t, start, end, n)
  {
    if j < n - 1 {
      LabelsComplete(t, start, end, n - 1, j);
    }
  }

  /** Timestamps that never go back. */
  predicate Ascending(t: seq<int>)
  {
    forall i, j :: 0 <= i <= j < |t| ==> t[i] <= t[j]
  }

  lemma {:induction false} LabelsAll(t: seq<int>, start: int, end: int, n: nat)
    requires n <= |t| && forall i :: 0 <= i < n ==> InWindow(t, i, start, end)
    ensures Labels(t, start, end, n) == seq(n, i => i)
  {
    if n > 0 {
      LabelsAll(t, start, end, n - 1);
    }
  }

  /** When the first row is already past the start, the window is a prefix
      of the table: labels are positions. */
  lemma {:induction false} LabelsPrefix(t: seq<int>, start: int, end: int, n: nat)
    requires Ascending(t) && 0 < |t| && t[0] > start && n <= |t|
    ensures forall k :: 0 <= k < |Labels(t, start, end, n)| ==> Labels(t, start, end, n)[k] == k
  {
    if n > 0 {
      if InWindow(t, n - 1, start, end) {
        LabelsAll(t, start, end, n - 1);
      } else {
        LabelsPrefix(t, start, end, n - 1);
      }
    }
  }

  /** The window as a prefix: rows in it are exactly the first `|temp|`. */
  lemma WindowPrefix(t: seq<int>, start: int, end: int)
    requires Ascending(t) && 0 < |t| && t[0] > start
    ensures var temp := Temp(t, start, end);
      && |temp| <= |t|
      && (forall k :: 0 <= k < |temp| ==> temp[k] == t[k])
      && (forall j :: 0 <= j < |t| ==> (InWindow(t, j, start, end) <==> j < |temp|))
  {
    var ls := Labels(t, start, end, |t|);
    LabelsPrefix(t, start, end, |t|);
    if ls != [] {
      assert ls[|ls| - 1] == |ls| - 1;
    }
    forall j | 0 <= j < |t| && InWindow(t, j, start, end)
      ensures j < |ls|
    {
      LabelsComplete(t, start, end, |t|, j);
    }
  }

  /** The gaps between consecutive rows of the window, as the loop evidently
      means to find them: iteration `idx` compares the row after position
      `idx` with the row at `idx`. */
  function PositionalGaps(temp: seq<int>, n: nat): (gaps: seq<int>)
    requires n <= |temp|
  {
    if n == 0 then []
    else
      var idx := n - 1;
      if idx + 1 < |temp| && temp[idx + 1] - temp[idx] > Interval
      then PositionalGaps(temp, idx) + [temp[idx + 1] - temp[idx]]
      else PositionalGaps(temp, idx)
  }

  /** A gap is recorded exactly when two consecutive rows of the window are
      more than the interval apart, in the order of the rows. */
  lemma {:induction false} PositionalGapsExact(temp: seq<int>, n: nat, g: int)
    requires n <= |temp|
    ensures g in PositionalGaps(temp, n) <==>
            exists k :: 0 <= k < n && k + 1 < |temp| && g == temp[k + 1] - temp[k] > Interval
  {
    if n > 0 {
      PositionalGapsExact(temp, n - 1, g);
    }
  }

  /** The audit as evidently intended: gaps between consecutive rows. */
  function IntendedAudit(t: seq<int>, start: int, end: int): Option<Report>
  {
    var temp := Temp(t, start, end);
    ReportOf(temp, PositionalGaps(temp, |temp|), start, end)
  }

  /** When the table starts inside the window the label lookup finds the
      intended gaps. */
  lemma LabelGapsPositional(t: seq<int>, start: int, end: int)
    requires Ascending(t) && 0 < |t| && t[0] > start
    ensures var temp := Temp(t, start, end);
      LabelGaps(t, temp, start, end, |temp|) == PositionalGaps(temp, |temp|)
  {
    var temp := Temp(t, start, end);
    WindowPrefix(t, start, end);
    PrefixGaps(t, temp, start, end, |temp|);
  }

  lemma {:induction false} PrefixGaps(t: seq<int>, temp: seq<int>, start: int, end: int, n: nat)
    requires n <= |temp| <= |t|
    requires forall k :: 0 <= k < |temp| ==> temp[k] == t[k]
    requires forall j :: 0 <= j < |t| ==> (InWindow(t, j, start, end) <==> j < |temp|)
    ensures LabelGaps(t, temp, start, end, n) == PositionalGaps(temp, n)
  {
    if n > 0 {
      PrefixGaps(t, temp, start, end, n - 1);
    }
  }

  /** Strictly increasing labels, none of them 0, sit at least one place
      past their position. */
  lemma {:induction false} LabelsShifted(ls: seq<nat>, k: nat)
    requires k < |ls| && (forall i :: 0 <= i < |ls| ==> ls[i] != 0)
    requires forall i, j :: 0 <= i < j < |ls| ==> ls[i] < ls[j]
    ensures ls[k] >= k + 1
  {
    if k > 0 {
      LabelsShifted(ls, k - 1);
    }
  }

  /** When the table starts at or before the window start (row 0 is not in
      the window), every label is at least one past its position, so the
      row looked up is never later than the row it is compared with: the
      loop records no gap at all, however long the gaps are. */
  lemma {:induction false} LabelGapsNone(t: seq<int>, start: int, end: int, n: nat)
    requires Ascending(t) && 0 < |t| && t[0] <= start && n <= |Temp(t, start, end)|
    ensures LabelGaps(t, Temp(t, start, end), start, end, n) == []
  {
    if n > 0 {
      LabelGapsNone(t, start, end, n - 1);
      var ls := Labels(t, start, end, |t|);
      LabelsShifted(ls, n - 1);
    }
  }

  /** With the intended gaps, the time reported lost never exceeds the
      window, when the timestamps never go back. */
  lemma IntendedLostWithin(t: seq<int>, start: int, end: int)
    requires Ascending(t)
    ensures IntendedAudit(t, start, end).Some? ==> IntendedAudit(t, start, end).value.lost <= end - start
  {
    var temp := Temp(t, start, end);
    if temp != [] {
      assert temp[0] > start && temp[|temp| - 1] < end;
      TempAscending(t, start, end);
      PositionalGapsSpan(temp, |temp|);
    }
  }

  /** The rows in the window of ascending timestamps are ascending. */
  lemma TempAscending(t: seq<int>, start: int, end: int)
    requires Ascending(t)
    ensures Ascending(Temp(t, start, end))
  {
    var ls := Labels(t, start, end, |t|);
    var temp := Temp(t, start, end);
    forall i, j | 0 <= i <= j < |temp|
      ensures temp[i] <= temp[j]
    {
      assert ls[i] <= ls[j];
    }
  }

  /** The intended gaps of the first `n` iterations add up to no more than
      the span they cross. */
  lemma {:induction false} PositionalGapsSpan(temp: seq<int>, n: nat)
    requires Ascending(temp) && 0 < n <= |temp|
    ensures Sum(SecondsOf(PositionalGaps(temp, n))) <= temp[if n < |temp| then n else n - 1] - temp[0]
  {
    if n > 1 {
      PositionalGapsSpan(temp, n - 1);
      var gaps := PositionalGaps(temp, n - 1);
      if n < |temp| && temp[n] - temp[n - 1] > Interval {
        var g := temp[n] - temp[n - 1];
        assert SecondsOf(gaps + [g]) == SecondsOf(gaps) + [Seconds(g)];
        assert (SecondsOf(gaps) + [Seconds(g)])[..|gaps|] == SecondsOf(gaps);
      }
    }
  }

  /** Concrete case: a sensor whose first row is exactly at the window
      start (the loader keeps it, as it is at the cut-off), with a 90 s gap
      inside the window. The label lookup reports no long interval, while the
      intended audit reports the 90 s gap. */
  lemma LabelLookupMissesGap()
    ensures Temp([5, 10, 100], 5, 1000) == [10, 100]
    ensures Audit([5, 10, 100], 5, 1000).value.counter == 0
    ensures IntendedAudit([5, 10, 100], 5, 1000).value.counter == 1
  {
    var t := [5, 10, 100];
    assert Labels(t, 5, 1000, 1) == [];
    assert Labels(t, 5, 1000, 2) == [1];
    assert Labels(t, 5, 1000, 3) == [1, 2];
    var temp := Temp(t, 5, 1000);
    assert temp == [10, 100];
    LabelGapsNone(t, 5, 1000, 2);
    assert PositionalGaps(temp, 1) == [90];
  }

  /** An exception that ends the audit: the empty-window branch reads
      `timeDeltaEnd` and `timeDeltaStart`, which are unbound until some
      earlier sensor had rows in the window (UnboundLocalError). */
  datatype AuditError = Unbound(sensor: string)

  /** `f` applied to the rows of each of the first `n` sensors. */
  function MapSensors<T>(f: seq<Sample> --> T, data: Dict<string, seq<Sample>>, n: nat): (r: seq<T>)
    requires n <= |data| && forall i :: 0 <= i < n ==> f.requires(data[i].1)
    ensures |r| == n
  {
    if n == 0 then [] else MapSensors(f, data, n - 1) + [f(data[n - 1].1)]
  }

  lemma {:induction false} MapSensorsAt<T>(f: seq<Sample> --> T, data: Dict<string, seq<Sample>>, n: nat, i: nat)
    requires i < n <= |data| && forall j :: 0 <= j < n ==> f.requires(data[j].1)
    ensures MapSensors(f, data, n)[i] == f(data[i].1)
  {
    if i < n - 1 {
      MapSensorsAt(f, data, n - 1, i);
    }
  }

  /** The audit of each of the first `n` sensors. */
  function Reports(data: Dict<string, seq<Sample>>, start: int, end: int, n: nat): (reps: seq<Option<Report>>)
    requires n <= |data|
    ensures |reps| == n
  {
    MapSensors(rows => Audit(Times(rows), start, end), data, n)
  }

  lemma ReportsAt(data: Dict<string, seq<Sample>>, start: int, end: int, n: nat, i: nat)
    requires i < n <= |data|
    ensures Reports(data, start, end, n)[i] == Audit(Times(data[i].1), start, end)
  {
    MapSensorsAt(rows => Audit(Times(rows), start, end), data, n, i);
  }


  /** The audit loop over the first `n` sensors, given their reports: the
      reports kept so far and whether the time deltas are bound yet. */
  function Collect(data: Dict<string, seq<Sample>>, reps: seq<Option<Report>>, n: nat)
    : Result<(seq<(string, Option<Report>)>, bool), AuditError>
    requires n <= |data| == |reps|
  {
    if n == 0 then Success(([], false))
    else match Collect(data, reps, n - 1)
      case Failure(e) => Failure(e)
      case Success(acc) =>
        if reps[n - 1].None? && !acc.1 then Failure(Unbound(data[n - 1].0))
        else Success((acc.0 + [(data[n - 1].0, reps[n - 1])], acc.1 || reps[n - 1].Some?))
  }

  /** `checkDataRecordingPerformance(data, date, particle, start, end)`:
      the per-sensor reports in the order of `data`. */
  function AuditAll(data: Dict<string, seq<Sample>>, start: int, end: int): Result<seq<(string, Option<Report>)>, AuditError>
  {
    match Collect(data, Reports(data, start, end, |data|), |data|)
    case Failure(e) => Failure(e)
    case Success(acc) => Success(acc.0)
  }

  /** The audit loop as the source runs it; it stops at the first
      failure. */
  method CheckDataRecordingPerformance(data: Dict<string, seq<Sample>>, start: int, end: int)
    returns (r: Result<seq<(string, Option<Report>)>, AuditError>)
    ensures r == AuditAll(data, start, end)
  {
    ghost var reps := Reports(data, start, end, |data|);
    var acc := Success(([], false));
    var x := 0;
    while x < |data| && acc.Success?
      invariant x <= |data| && acc == Collect(data, reps, x)
    {
      acc := AuditStep(data, start, end, x, reps, acc.value.0, acc.value.1);
      x := x + 1;
    }
    if acc.Failure? {
      FailureStays(data, reps, x, |data|);
      return Failure(acc.error);
    }
    r := Success(acc.value.0);
  }

  /** One sensor of the audit loop. */
  method AuditStep(data: Dict<string, seq<Sample>>, start: int, end: int, x: nat, ghost reps: seq<Option<Report>>,
                   reports: seq<(string, Option<Report>)>, bound: bool)
    returns (next: Result<(seq<(string, Option<Report>)>, bool), AuditError>)
    requires x < |data| && reps == Reports(data, start, end, |data|)
    requires Collect(data, reps, x) == Success((reports, bound))
    ensures next == Collect(data, reps, x + 1)
  {
    var rep := AuditSensor(Times(data[x].1), start, end);
    ReportsAt(data, start, end, |data|, x);
    if rep.None? && !bound {
      next := Failure(Unbound(data[x].0));
    } else {
      next := Success((reports + [(data[x].0, rep)], bound || rep.Some?));
    }
  }

  lemma {:induction false} FailureStays(data: Dict<string, seq<Sample>>, reps: seq<Option<Report>>, k: nat, n: nat)
    requires k <= n <= |data| == |reps| && Collect(data, reps, k).Failure?
    ensures Collect(data, reps, n) == Collect(data, reps, k)
    decreases n - k
  {
    if k < n {
      FailureStays(data, reps, k, n - 1);
    }
  }

  /** Once the first sensor had rows in the window the deltas stay bound;
      a report is kept for every sensor. */
  lemma {:induction false} CollectBound(data: Dict<string, seq<Sample>>, reps: seq<Option<Report>>, n: nat)
    requires 1 <= n <= |data| == |reps| && reps[0].Some?
    ensures Collect(data, reps, n).Success?
    ensures Collect(data, reps, n).value.1
    ensures |Collect(data, reps, n).value.0| == n
  {
    if n > 1 {
      CollectBound(data, reps, n - 1);
    }
  }

  /** The audit fails exactly when the first sensor has no row in the
      window: only then are the deltas unbound when an empty window is met. */
  lemma AuditFailsIff(data: Dict<string, seq<Sample>>, start: int, end: int)
    ensures AuditAll(data, start, end).Failure? <==> |data| > 0 && Audit(Times(data[0].1), start, end).None?
  {
    var reps := Reports(data, start, end, |data|);
    if |data| > 0 {
      ReportsAt(data, start, end, |data|, 0);
      if reps[0].None? {
        assert Collect(data, reps, 1).Failure?;
        FailureStays(data, reps, 1, |data|);
      } else {
        CollectBound(data, reps, |data|);
      }
    }
  }

  /* ---------------------------------------------------------------- */
  /* interpolateMissingData                                            */
  /* ---------------------------------------------------------------- */

  /** The grid step (`freq = '10s'`) and the longest gap that is
      interpolated rather than zero-padded (`cutoff = 40`), in seconds. */
  const Freq := 10
  const Cutoff := 40

  /** Every table has the same columns in every row. */
  predicate AllUniform(data: Dict<string, seq<Sample>>)
  {
    forall i :: 0 <= i < |data| ==> Uniform(data[i].1)
  }

  /** The resampling of each of the first `n` sensors. */
  function Fills(data: Dict<string, seq<Sample>>, start: int, end: int, n: nat): (fs: seq<Result<FillDataFrame.Filled, FillDataFrame.FillError>>)
    requires n <= |data| && AllUniform(data)
    ensures |fs| == n
  {
    MapSensors(FillOf(start, end), data, n)
  }

  /** `fillDf` with the driver's grid and cutoff. */
  function FillOf(start: int, end: int): seq<Sample> --> Result<FillDataFrame.Filled, FillDataFrame.FillError>
  {
    rows requires Uniform(rows) => FillDataFrame.Fill(rows, Freq, start, end, Cutoff)
  }

  lemma FillsAt(data: Dict<string, seq<Sample>>, start: int, end: int, n: nat, i: nat)
    requires i < n <= |data| && AllUniform(data)
    ensures Fills(data, start, end, n)[i] == FillDataFrame.Fill(data[i].1, Freq, start, end, Cutoff)
  {
    MapSensorsAt(FillOf(start, end), data, n, i);
  }


  /** `interpDF` after the first `n` sensors, given what `fillDf` returns
      for each: the resampled table of each sensor whose `fillDf` returns,
      nothing for one that raises `IndexError` ("NO DATA"). */
  function Kept(data: Dict<string, seq<Sample>>, fills: seq<Result<FillDataFrame.Filled, FillDataFrame.FillError>>, n: nat)
    : Dict<string, seq<Sample>>
    requires n <= |data| == |fills|
  {
    if n == 0 then []
    else
      var acc := Kept(data, fills, n - 1);
      match fills[n - 1]
      case Success(f) => Put(acc, data[n - 1].0, f.rows)
      case Failure(_) => acc
  }

  /** The result of `interpolateMissingData(data, cutOffTime, endTime, date)`. */
  function Interpolated(data: Dict<string, seq<Sample>>, start: int, end: int): Dict<string, seq<Sample>>
    requires AllUniform(data)
  {
    Kept(data, Fills(data, start, end, |data|), |data|)
  }

  /** The loop of `interpolateMissingData`. */
  method InterpolateMissingData(data: Dict<string, seq<Sample>>, start: int, end: int)
    returns (interpDF: Dict<string, seq<Sample>>)
    requires AllUniform(data)
    ensures interpDF == Interpolated(data, start, end)
  {
    ghost var fills := Fills(data, start, end, |data|);
    interpDF := [];
    for x := 0 to |data|
      invariant interpDF == Kept(data, fills, x)
    {
      interpDF := InterpolateOne(data, start, end, x, fills, interpDF);
    }
  }

  /** One sensor: `interpDF[x], accuracy = fillDf(...)`, or "NO DATA". */
  method InterpolateOne(data: Dict<string, seq<Sample>>, start: int, end: int, x: nat,
                        ghost fills: seq<Result<FillDataFrame.Filled, FillDataFrame.FillError>>,
                        interpDF: Dict<string, seq<Sample>>)
    returns (next: Dict<string, seq<Sample>>)
    requires x < |data| && AllUniform(data) && fills == Fills(data, start, end, |data|)
    requires interpDF == Kept(data, fills, x)
    ensures next == Kept(data, fills, x + 1)
  {
    var filled := FillDataFrame.FillDf(data[x].1, Freq, start, end, Cutoff);
    FillsAt(data, start, end, |data|, x);
    match filled {
      case Success(f) =>
        next := Put(interpDF, data[x].0, f.rows);
      case Failure(_) =>
        next := interpDF;
    }
  }

  /** With one table per sensor, `interpDF` holds each sensor's resampled
      table when its `fillDf` returns and nothing when it raises. */
  lemma {:induction false} KeptGet(data: Dict<string, seq<Sample>>, fills: seq<Result<FillDataFrame.Filled, FillDataFrame.FillError>>, n: nat, i: nat)
    requires i < n <= |data| == |fills| && UniqueKeys(data)
    ensures Get(Kept(data, fills, n), data[i].0) == if fills[i].Success? then Some(fills[i].value.rows) else None
  {
    var acc := Kept(data, fills, n - 1);
    if i < n - 1 {
      KeptGet(data, fills, n - 1, i);
      if fills[n - 1].Success? {
        assert data[i].0 != data[n - 1].0;
        PutGet(acc, data[n - 1].0, fills[n - 1].value.rows);
      }
    } else if fills[n - 1].Success? {
      PutGet(acc, data[n - 1].0, fills[n - 1].value.rows);
    } else {
      KeptMissing(data, fills, n - 1, data[i].0);
    }
  }

  /** `interpDF` has no key that `data` lacks among its first `n` sensors. */
  lemma {:induction false} KeptMissing(data: Dict<string, seq<Sample>>, fills: seq<Result<FillDataFrame.Filled, FillDataFrame.FillError>>, n: nat, k: string)
    requires n <= |data| == |fills| && forall i :: 0 <= i < n ==> data[i].0 != k
    ensures Get(Kept(data, fills, n), k) == None
  {
    if n > 0 {
      KeptMissing(data, fills, n - 1, k);
      if fills[n - 1].Success? {
        PutGet(Kept(data, fills, n - 1), data[n - 1].0, fills[n - 1].value.rows);
      }
    }
  }

  /** `interpolateMissingData` keeps exactly the sensors whose resample
      succeeds, each with its resampled table, and invents none. */
  lemma InterpolatedGet(data: Dict<string, seq<Sample>>, start: int, end: int, k: string)
    requires AllUniform(data) && UniqueKeys(data)
    ensures (forall i :: 0 <= i < |data| ==> data[i].0 != k) ==> Get(Interpolated(data, start, end), k) == None
    ensures forall i :: 0 <= i < |data| && data[i].0 == k ==>
      Get(Interpolated(data, start, end), k) ==
        match FillDataFrame.Fill(data[i].1, Freq, start, end, Cutoff)
        case Success(f) => Some(f.rows)
        case Failure(_) => None
  {
    var fills := Fills(data, start, end, |data|);
    if forall i :: 0 <= i < |data| ==> data[i].0 != k {
      KeptMissing(data, fills, |data|, k);
    }
    forall i | 0 <= i < |data| && data[i].0 == k
      ensures Get(Interpolated(data, start, end), k) ==
        match FillDataFrame.Fill(data[i].1, Freq, start, end, Cutoff)
        case Success(f) => Some(f.rows)
        case Failure(_) => None
    {
      FillsAt(data, start, end, |data|, i);
      KeptGet(data, fills, |data|, i);
    }
  }

  /** Rows on the 10 s grid from the window start, never past the end. */
  predicate OnTenSecondGrid(rows: seq<Sample>, start: int, end: int)
  {
    forall j :: 0 <= j < |rows| ==> rows[j].time == start + j * Freq && rows[j].time <= end
  }

  lemma {:induction false} KeptOnGrid(data: Dict<string, seq<Sample>>, fills: seq<Result<FillDataFrame.Filled, FillDataFrame.FillError>>,
                                      n: nat, start: int, end: int)
    requires n <= |data| == |fills|
    requires forall i :: 0 <= i < |fills| && fills[i].Success? ==> OnTenSecondGrid(fills[i].value.rows, start, end)
    ensures forall k :: 0 <= k < |Kept(data, fills, n)| ==> OnTenSecondGrid(Kept(data, fills, n)[k].1, start, end)
  {
    if n > 0 {
      KeptOnGrid(data, fills, n - 1, start, end);
      if fills[n - 1].Success? {
        PutValues(Kept(data, fills, n - 1), data[n - 1].0, fills[n - 1].value.rows);
      }
    }
  }

  /** Every resampled table lies on the 10 s grid from the window start:
      row `j` is stamped `start + 10 j`, never past the end. */
  lemma InterpolatedOnGrid(data: Dict<string, seq<Sample>>, start: int, end: int)
    requires AllUniform(data)
    ensures forall k :: 0 <= k < |Interpolated(data, start, end)| ==> OnTenSecondGrid(Interpolated(data, start, end)[k].1, start, end)
  {
    var fills := Fills(data, start, end, |data|);
    forall i | 0 <= i < |fills| && fills[i].Success?
      ensures OnTenSecondGrid(fills[i].value.rows, start, end)
    {
      FillsAt(data, start, end, |data|, i);
      FillDataFrame.FillGapless(data[i].1, Freq, start, end, Cutoff);
    }
    KeptOnGrid(data, fills, |data|, start, end);
  }

  /** After `d[k] = v` every value is `v` or was already there. */
  lemma {:induction false} PutValues(d: Dict<string, seq<Sample>>, k: string, v: seq<Sample>)
    ensures forall i :: 0 <= i < |Put(d, k, v)| ==> Put(d, k, v)[i].1 == v || Put(d, k, v)[i] in d
  {
    if d != [] && d[0].0 != k {
      PutValues(d[1..], k, v);
      assert Put(d, k, v) == [d[0]] + Put(d[1..], k, v);
      forall i | 0 <= i < |Put(d, k, v)|
        ensures Put(d, k, v)[i].1 == v || Put(d, k, v)[i] in d
      {
        if i > 0 {
          assert Put(d, k, v)[i] == Put(d[1..], k, v)[i - 1];
        }
      }
    }
  }

  /* ---------------------------------------------------------------- */
  /* main: confirmedFiles and the processed flags                      */
  /* ---------------------------------------------------------------- */

  /** The files `cleanUp` checked `True`, in `filesChecked` order. */
  function Confirmed(filesChecked: Dict<string, bool>): seq<string>
  {
    if filesChecked == [] then []
    else
      var last := filesChecked[|filesChecked| - 1];
      Confirmed(filesChecked[..|filesChecked| - 1]) + (if last.1 then [last.0] else [])
  }

  /** A file is confirmed exactly when it was checked `True`. */
  lemma {:induction false} ConfirmedMembers(filesChecked: Dict<string, bool>, f: string)
    ensures f in Confirmed(filesChecked) <==> (f, true) in filesChecked
  {
    if filesChecked != [] {
      var init := filesChecked[..|filesChecked| - 1];
      ConfirmedMembers(init, f);
      assert filesChecked == init + [filesChecked[|filesChecked| - 1]];
    }
  }

  /** Confirming never repeats a file `filesChecked` holds once. */
  lemma {:induction false} ConfirmedLength(filesChecked: Dict<string, bool>)
    ensures |Confirmed(filesChecked)| <= |filesChecked|
  {
    if filesChecked != [] {
      ConfirmedLength(filesChecked[..|filesChecked| - 1]);
    }
  }

  /** `checkFileList = list(...["confirmedFiles"])`, then append every
      file checked `True`. */
  method MergeConfirmed(confirmedFiles: seq<string>, filesChecked: Dict<string, bool>) returns (checkFileList: seq<string>)
    ensures checkFileList == confirmedFiles + Confirmed(filesChecked)
  {
    checkFileList := confirmedFiles;
    for i := 0 to |filesChecked|
      invariant checkFileList == confirmedFiles + Confirmed(filesChecked[..i])
    {
      assert filesChecked[..i + 1][..i] == filesChecked[..i];
      var (specificFile, check) := filesChecked[i];
      if check {
        checkFileList := checkFileList + [specificFile];
      }
    }
    assert filesChecked[..|filesChecked|] == filesChecked;
  }

  /** One entry of `Days`: the confirmed files, the glob pattern split
      into path parts, and the particles already processed. */
  datatype DayEntry = DayEntry(confirmedFiles: seq<string>, filePattern: seq<string>, processed: Dict<string, bool>)

  /** What processing one day (date, particle, entry) gives back:
      `filesChecked` from `cleanUp`, or `None` when a stage raised and ended
      the run. The glob of the entry's pattern, the files, the stages after
      `cleanUp` and their output stand behind this function. */
  type Runner = (string, string, DayEntry) -> Option<Dict<string, bool>>

  /** The day is skipped when `processAll` is off and its `processed` flag
      for the particle is `True`; a missing flag (`KeyError`) does not skip. */
  predicate Skip(processAll: bool, e: DayEntry, particle: string)
  {
    !processAll && Get(e.processed, particle) == Some(true)
  }

  /** The entry after the day was processed for `particle`. */
  function Processed(e: DayEntry, particle: string, filesChecked: Dict<string, bool>): DayEntry
  {
    e.(confirmedFiles := e.confirmedFiles + Confirmed(filesChecked), processed := Put(e.processed, particle, true))
  }

  /** The inner loop over the first `n` days, for one particle. */
  function DayPass(days: Dict<string, DayEntry>, particle: string, processAll: bool, run: Runner, n: nat)
    : (r: Option<Dict<string, DayEntry>>)
    requires n <= |days|
    ensures r.Some? ==> |r.value| == |days|
  {
    if n == 0 then Some(days)
    else match DayPass(days, particle, processAll, run, n - 1)
      case None => None
      case Some(acc) =>
        var (date, e) := acc[n - 1];
        if Skip(processAll, e, particle) then Some(acc)
        else match run(date, particle, e)
          case None => None
          case Some(filesChecked) => Some(acc[n - 1 := (date, Processed(e, particle, filesChecked))])
  }

  /** The outer loop over the first `m` particles. */
  function Passes(days: Dict<string, DayEntry>, particles: seq<string>, processAll: bool, run: Runner, m: nat)
    : (r: Option<Dict<string, DayEntry>>)
    requires m <= |particles|
    ensures r.Some? ==> |r.value| == |days|
  {
    if m == 0 then Some(days)
    else match Passes(days, particles, processAll, run, m - 1)
      case None => None
      case Some(acc) => DayPass(acc, particles[m - 1], processAll, run, |acc|)
  }

  /** The bookkeeping of `main`: the new `Days`, and whether the parameter
      file is rewritten, which it is when anything differs from what was
      read. */
  function MainDays(days: Dict<string, DayEntry>, particles: seq<string>, processAll: bool, run: Runner)
    : Option<(Dict<string, DayEntry>, bool)>
  {
    match Passes(days, particles, processAll, run, |particles|)
    case None => None
    case Some(acc) => Some((acc, acc != days))
  }

  method ProcessDays(days: Dict<string, DayEntry>, particles: seq<string>, processAll: bool, run: Runner)
    returns (r: Option<(Dict<string, DayEntry>, bool)>)
    ensures r == MainDays(days, particles, processAll, run)
  {
    var current := days;
    for p := 0 to |particles|
      invariant Passes(days, particles, processAll, run, p) == Some(current)
    {
      var next := ProcessParticle(current, particles[p], processAll, run);
      if next.None? {
        PassesNoneStays(days, particles, processAll, run, p + 1, |particles|);
        return None;
      }
      current := next.value;
    }
    r := Some((current, current != days));
  }

  lemma {:induction false} PassesNoneStays(days: Dict<string, DayEntry>, particles: seq<string>, processAll: bool, run: Runner, k: nat, m: nat)
    requires k <= m <= |particles| && Passes(days, particles, processAll, run, k).None?
    ensures Passes(days, particles, processAll, run, m).None?
    decreases m - k
  {
    if k < m {
      PassesNoneStays(days, particles, processAll, run, k, m - 1);
    }
  }

  /** `for date, condition in conditionDictionary["Days"].items()`, one particle. */
  method ProcessParticle(days: Dict<string, DayEntry>, particle: string, processAll: bool, run: Runner)
    returns (r: Option<Dict<string, DayEntry>>)
    ensures r == DayPass(days, particle, processAll, run, |days|)
  {
    var current := days;
    for i := 0 to |days|
      invariant DayPass(days, particle, processAll, run, i) == Some(current)
    {
      var (date, condition) := current[i];
      if Skip(processAll, condition, particle) {
        continue;
      }
      var filesChecked := run(date, particle, condition);
      if filesChecked.None? {
        DayPassNoneStays(days, particle, processAll, run, i + 1, |days|);
        return None;
      }
      var checkFileList := MergeConfirmed(condition.confirmedFiles, filesChecked.value);
      current := current[i := (date, condition.(confirmedFiles := checkFileList,
                                                processed := Put(condition.processed, particle, true)))];
    }
    r := Some(current);
  }

  lemma {:induction false} DayPassNoneStays(days: Dict<string, DayEntry>, particle: string, processAll: bool, run: Runner, k: nat, n: nat)
    requires k <= n <= |days| && DayPass(days, particle, processAll, run, k).None?
    ensures DayPass(days, particle, processAll, run, n).None?
    decreases n - k
  {
    if k < n {
      DayPassNoneStays(days, particle, processAll, run, k, n - 1);
    }
  }

  /** `after` is `before` with, per day, the same date and pattern, a
      confirmed list that only grew at its end, and every `True` processed
      flag still `True`. */
  ghost predicate Grown(before: Dict<string, DayEntry>, after: Dict<string, DayEntry>)
  {
    && |after| == |before|
    && forall i :: 0 <= i < |before| ==>
      && after[i].0 == before[i].0
      && after[i].1.filePattern == before[i].1.filePattern
      && before[i].1.confirmedFiles <= after[i].1.confirmedFiles
      && forall q :: Get(before[i].1.processed, q) == Some(true) ==> Get(after[i].1.processed, q) == Some(true)
  }

  lemma GrownTrans(a: Dict<string, DayEntry>, b: Dict<string, DayEntry>, c: Dict<string, DayEntry>)
    requires Grown(a, b) && Grown(b, c)
    ensures Grown(a, c)
  {
  }

  /** Processing a day appends to its confirmed files, keeps its pattern
      and every `True` flag, and sets the particle's flag. */
  lemma ProcessedGrows(e: DayEntry, particle: string, filesChecked: Dict<string, bool>)
    ensures var e' := Processed(e, particle, filesChecked);
      && e.confirmedFiles <= e'.confirmedFiles
      && e'.filePattern == e.filePattern
      && Get(e'.processed, particle) == Some(true)
      && forall q :: Get(e.processed, q) == Some(true) ==> Get(e'.processed, q) == Some(true)
  {
    PutGet(e.processed, particle, true);
  }

  lemma UpdateGrows(acc: Dict<string, DayEntry>, i: nat, particle: string, filesChecked: Dict<string, bool>)
    requires i < |acc|
    ensures Grown(acc, acc[i := (acc[i].0, Processed(acc[i].1, particle, filesChecked))])
  {
    ProcessedGrows(acc[i].1, particle, filesChecked);
  }

  /** One pass keeps the dates and patterns, only appends confirmed files,
      never clears a flag, and leaves the days it has not reached alone. */
  lemma {:induction false} DayPassGrows(days: Dict<string, DayEntry>, particle: string, processAll: bool, run: Runner, n: nat)
    requires n <= |days| && DayPass(days, particle, processAll, run, n).Some?
    ensures var acc := DayPass(days, particle, processAll, run, n).value;
      && Grown(days, acc)
      && (forall i :: n <= i < |days| ==> acc[i] == days[i])
  {
    if n > 0 {
      DayPassGrows(days, particle, processAll, run, n - 1);
      var acc := DayPass(days, particle, processAll, run, n - 1).value;
      var (date, e) := acc[n - 1];
      if !Skip(processAll, e, particle) {
        var filesChecked := run(date, particle, e).value;
        UpdateGrows(acc, n - 1, particle, filesChecked);
        GrownTrans(days, acc, acc[n - 1 := (date, Processed(e, particle, filesChecked))]);
      }
    }
  }

  /** After a pass that got through, the particle's flag is `True` on every
      day it reached: set there, or already `True` when the day was skipped. */
  lemma {:induction false} DayPassFlags(days: Dict<string, DayEntry>, particle: string, processAll: bool, run: Runner, n: nat)
    requires n <= |days| && DayPass(days, particle, processAll, run, n).Some?
    ensures var acc := DayPass(days, particle, processAll, run, n).value;
      forall i :: 0 <= i < n ==> Get(acc[i].1.processed, particle) == Some(true)
  {
    if n > 0 {
      DayPassFlags(days, particle, processAll, run, n - 1);
      var acc := DayPass(days, particle, processAll, run, n - 1).value;
      var (date, e) := acc[n - 1];
      if !Skip(processAll, e, particle) {
        var filesChecked := run(date, particle, e).value;
        ProcessedGrows(e, particle, filesChecked);
      }
    }
  }

  /** Every run that got through only grew the days. */
  lemma {:induction false} PassesGrown(days: Dict<string, DayEntry>, particles: seq<string>, processAll: bool, run: Runner, m: nat)
    requires m <= |particles| && Passes(days, particles, processAll, run, m).Some?
    ensures Grown(days, Passes(days, particles, processAll, run, m).value)
  {
    if m > 0 {
      PassesGrown(days, particles, processAll, run, m - 1);
      var acc := Passes(days, particles, processAll, run, m - 1).value;
      DayPassGrows(acc, particles[m - 1], processAll, run, |acc|);
      GrownTrans(days, acc, DayPass(acc, particles[m - 1], processAll, run, |acc|).value);
    }
  }

  /** Every day is processed for every particle of `done`. */
  predicate AllDone(acc: Dict<string, DayEntry>, done: seq<string>)
  {
    forall p, i :: 0 <= p < |done| && 0 <= i < |acc| ==> Get(acc[i].1.processed, done[p]) == Some(true)
  }

  /** A pass that got through adds its particle to those done. */
  lemma PassDone(acc: Dict<string, DayEntry>, particle: string, done: seq<string>, processAll: bool, run: Runner)
    requires AllDone(acc, done) && DayPass(acc, particle, processAll, run, |acc|).Some?
    ensures AllDone(DayPass(acc, particle, processAll, run, |acc|).value, done + [particle])
  {
    var after := DayPass(acc, particle, processAll, run, |acc|).value;
    DayPassGrows(acc, particle, processAll, run, |acc|);
    DayPassFlags(acc, particle, processAll, run, |acc|);
    var done' := done + [particle];
    forall p, i | 0 <= p < |done'| && 0 <= i < |after|
      ensures Get(after[i].1.processed, done'[p]) == Some(true)
    {
      if p < |done| {
        assert Get(acc[i].1.processed, done[p]) == Some(true);
      }
    }
  }

  /** After a run that got through, every day is processed for every
      particle. */
  lemma {:induction false} PassesDone(days: Dict<string, DayEntry>, particles: seq<string>, processAll: bool, run: Runner, m: nat)
    requires m <= |particles| && Passes(days, particles, processAll, run, m).Some?
    ensures AllDone(Passes(days, particles, processAll, run, m).value, particles[..m])
  {
    if m > 0 {
      PassesDone(days, particles, processAll, run, m - 1);
      var acc := Passes(days, particles, processAll, run, m - 1).value;
      PassDone(acc, particles[m - 1], particles[..m - 1], processAll, run);
      assert particles[..m] == particles[..m - 1] + [particles[m - 1]];
    }
  }

  /** A pass over days already processed for the particle skips them all
      (unless `processAll`): the days come back unchanged, without running
      anything. */
  lemma {:induction false} DayPassIdle(days: Dict<string, DayEntry>, particle: string, run: Runner, n: nat)
    requires n <= |days| && forall i :: 0 <= i < |days| ==> Get(days[i].1.processed, particle) == Some(true)
    ensures DayPass(days, particle, false, run, n) == Some(days)
  {
    if n > 0 {
      DayPassIdle(days, particle, run, n - 1);
    }
  }

  /** Running `main` a second time on what the first run wrote changes
      nothing and does not rewrite the parameter file. */
  lemma SecondRunIdle(days: Dict<string, DayEntry>, particles: seq<string>, run: Runner, run': Runner)
    requires MainDays(days, particles, false, run).Some?
    ensures var after := MainDays(days, particles, false, run).value.0;
      MainDays(after, particles, false, run') == Some((after, false))
  {
    var after := Passes(days, particles, false, run, |particles|).value;
    PassesDone(days, particles, false, run, |particles|);
    assert particles[..|particles|] == particles;
    SecondPassesIdle(after, particles, run', |particles|);
  }

  lemma {:induction false} SecondPassesIdle(days: Dict<string, DayEntry>, particles: seq<string>, run: Runner, m: nat)
    requires m <= |particles| && AllDone(days, particles)
    ensures Passes(days, particles, false, run, m) == Some(days)
  {
    if m > 0 {
      SecondPassesIdle(days, particles, run, m - 1);
      DayPassIdle(days, particles[m - 1], run, |days|);
    }
  }
}
