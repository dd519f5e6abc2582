/** The gap-fill resampler `fillDf` (project/fillDataFrame.py).

    A sensor series is laid onto a fixed-frequency grid. A cursor `count`
    walks the grid; every source row moves it past the grid points at or
    before the row's timestamp, and the points it passes are filled by one
    of three rules: zero padding when the gap is longer than the threshold,
    linear interpolation from the previous source row, or the row itself.
    Times are whole seconds; `freq` and `cutoff` are in seconds. */
module FillDataFrame {
  import opened Wrappers
  import opened Frames

  /** `overall[-1]` on an empty output raises IndexError (fillDataFrame.py:114). */
  datatype FillError = NoData

  /** The loop state of `fillDf`: the grid cursor, the rows emitted so far
      and the three tallies (interpolated, zero-padded, unchanged). */
  datatype Scan = Scan(count: nat, overall: seq<Sample>, volatility: nat, padding: nat, nochange: nat)

  /** What `fillDf` returns: the new frame and the counts behind its three percentages. */
  datatype Filled = Filled(rows: seq<Sample>, volatility: nat, padding: nat, nochange: nat)

  /** `pd.date_range(start, end, freq)`: every `start + k*freq` that is not after `end`. */
  function Grid(start: int, end: int, freq: nat): (g: seq<int>)
    requires freq > 0
    ensures forall k :: 0 <= k < |g| ==> g[k] == start + k * freq && g[k] <= end
    ensures start + |g| * freq > end
  {
    if end < start then []
    else
      var n := (end - start) / freq + 1;
      DivisionBounds(end - start, freq);
      seq(n, k requires 0 <= k < n => start + k * freq)
  }

  lemma DivisionBounds(d: nat, freq: nat)
    requires freq > 0
    ensures (d / freq) * freq <= d < (d / freq + 1) * freq
    ensures forall k :: 0 <= k <= d / freq ==> k * freq <= d
  {
    forall k | 0 <= k <= d / freq
      ensures k * freq <= d
    {
      MulMonotone(k, d / freq, freq);
    }
  }

  lemma MulMonotone(a: int, b: int, m: nat)
    requires a <= b
    ensures a * m <= b * m
  {
  }

  lemma MulMonotoneIf(a: int, b: int, m: nat)
    ensures a <= b ==> a * m <= b * m
  {
    if a <= b {
      MulMonotone(a, b, m);
    }
  }

  /** Distance between two grid points. */
  lemma GridDistance(start: int, end: int, freq: nat, j: nat, k: nat)
    requires freq > 0 && j <= k < |Grid(start, end, freq)|
    ensures Grid(start, end, freq)[k] - Grid(start, end, freq)[j] == (k - j) * freq
  {
    var g := Grid(start, end, freq);
    assert g[k] - g[j] == k * freq - j * freq;
  }

  /** Strictly increasing grid points. */
  predicate Ascending(g: seq<int>)
  {
    forall j, k :: 0 <= j < k < |g| ==> g[j] < g[k]
  }

  lemma GridIsAscending(start: int, end: int, freq: nat)
    requires freq > 0
    ensures Ascending(Grid(start, end, freq))
  {
    var g := Grid(start, end, freq);
    forall j, k | 0 <= j < k < |g|
      ensures g[j] < g[k]
    {
      GridDistance(start, end, freq, j, k);
      MulMonotone(1, k - j, freq);
    }
  }

  /** Where `while row[0] >= index[count]: count += 1` stops for a row at
      time `t`: the first grid point after `t`, or the end of the grid, at
      which point the next `index[count]` raises IndexError. */
  function Advance(grid: seq<int>, t: int, c: nat): (k: nat)
    ensures c <= |grid| ==> c <= k <= |grid|
    ensures c > |grid| ==> k == c
    ensures forall j :: c <= j < k ==> grid[j] <= t
    ensures k < |grid| ==> t < grid[k]
    decreases |grid| - c
  {
    if c < |grid| && grid[c] <= t then Advance(grid, t, c + 1) else c
  }

  /** The zero-padded rows for grid points `lo` up to `hi`. */
  function PadRows(grid: seq<int>, lo: nat, hi: nat, w: nat): seq<Sample>
    requires lo <= hi <= |grid|
  {
    seq(hi - lo, j requires 0 <= j < hi - lo => Sample(grid[lo + j], Zeros(w)))
  }

  /** `np.floor(temp + inc * step)` with `inc = (row[1:] - temp) / val`,
      written exactly: the floor of `prev + (cur - prev) * step / val`. */
  function Lerp(prev: seq<int>, cur: seq<int>, step: nat, val: nat): seq<int>
    requires val > 0 && |prev| == |cur|
  {
    seq(|cur|, c requires 0 <= c < |cur| => prev[c] + (cur[c] - prev[c]) * step / val)
  }

  /** The interpolated rows for grid points `lo` up to `hi`, from `prev` towards `cur`. */
  function InterpRows(grid: seq<int>, lo: nat, hi: nat, prev: seq<int>, cur: seq<int>): seq<Sample>
    requires lo < hi <= |grid| && |prev| == |cur|
  {
    seq(hi - lo, j requires 0 <= j < hi - lo => Sample(grid[lo + j], Lerp(prev, cur, j, hi - lo)))
  }

  /** The rows of `fillDf`'s output so far lie on the grid: row j is at grid point j. */
  predicate OnGrid(out: seq<Sample>, grid: seq<int>, w: nat)
  {
    |out| <= |grid| &&
    forall j :: 0 <= j < |out| ==> out[j].time == grid[j] && |out[j].readings| == w
  }

  /** The loop invariant of `fillDf`: the output is the grid up to the cursor,
      except that once a row has run off the end of the grid (count == |grid|)
      the output stops wherever it was; the tallies add up to the output. */
  predicate ScanInv(grid: seq<int>, w: nat, s: Scan)
  {
    s.count <= |grid| &&
    |s.overall| <= s.count &&
    (|s.overall| == s.count || s.count == |grid|) &&
    OnGrid(s.overall, grid, w) &&
    s.volatility + s.padding + s.nochange == |s.overall|
  }

  /** One iteration of the `for idx, row in enumerate(df.values)` loop
      (fillDataFrame.py:34-112). */
  function Step(grid: seq<int>, rows: seq<Sample>, cutoff: int, s: Scan, idx: nat): Scan
    requires idx < |rows| && Uniform(rows)
  {
    var row := rows[idx];
    var c := Advance(grid, row.time, s.count);
    if c >= |grid| then s.(count := c)
    else
      var val := c - s.count;
      if val == 0 then s
      else if cutoff < grid[c] - grid[s.count] then
        s.(count := c, overall := s.overall + PadRows(grid, s.count, c, Width(rows)),
           padding := s.padding + val)
      else if val > 1 then
        var prev := if idx == 0 then rows[0].readings else rows[idx - 1].readings;
        s.(count := c, overall := s.overall + InterpRows(grid, s.count, c, prev, row.readings),
           volatility := s.volatility + val)
      else
        s.(count := c, overall := s.overall + [Sample(grid[s.count], row.readings)],
           nochange := s.nochange + 1)
  }

  lemma StepKeepsInv(grid: seq<int>, rows: seq<Sample>, cutoff: int, s: Scan, idx: nat)
    requires idx < |rows| && Uniform(rows) && ScanInv(grid, Width(rows), s)
    ensures ScanInv(grid, Width(rows), Step(grid, rows, cutoff, s, idx))
    ensures |s.overall| <= |Step(grid, rows, cutoff, s, idx).overall|
    ensures s.count <= Step(grid, rows, cutoff, s, idx).count
  {
    var s' := Step(grid, rows, cutoff, s, idx);
    var c := Advance(grid, rows[idx].time, s.count);
    var w := Width(rows);
    assert |rows[idx].readings| == w;
    if c < |grid| && c > s.count {
      assert |s.overall| == s.count;
      var block := s'.overall[|s.overall|..];
      assert s'.overall == s.overall + block;
      assert |block| == c - s.count;
      forall j | 0 <= j < |block|
        ensures block[j].time == grid[s.count + j] && |block[j].readings| == w
      {
        if cutoff < grid[c] - grid[s.count] {
          assert block == PadRows(grid, s.count, c, w);
          assert block[j] == Sample(grid[s.count + j], Zeros(w));
        } else if c - s.count > 1 {
          var prev := if idx == 0 then rows[0].readings else rows[idx - 1].readings;
          assert block == InterpRows(grid, s.count, c, prev, rows[idx].readings);
          assert block[j] == Sample(grid[s.count + j], Lerp(prev, rows[idx].readings, j, c - s.count));
          assert |Lerp(prev, rows[idx].readings, j, c - s.count)| == w;
        } else {
          assert block == [Sample(grid[s.count], rows[idx].readings)];
        }
      }
      forall j | 0 <= j < |s'.overall|
        ensures s'.overall[j].time == grid[j] && |s'.overall[j].readings| == w
      {
        if j >= |s.overall| {
          assert s'.overall[j] == block[j - |s.overall|];
        }
      }
    }
  }

  /** The state after the first `n` source rows. */
  function ScanTo(grid: seq<int>, rows: seq<Sample>, cutoff: int, n: nat): Scan
    requires n <= |rows| && Uniform(rows)
  {
    if n == 0 then Scan(0, [], 0, 0, 0)
    else Step(grid, rows, cutoff, ScanTo(grid, rows, cutoff, n - 1), n - 1)
  }

  lemma {:induction false} ScanToInv(grid: seq<int>, rows: seq<Sample>, cutoff: int, n: nat)
    requires n <= |rows| && Uniform(rows)
    ensures ScanInv(grid, Width(rows), ScanTo(grid, rows, cutoff, n))
  {
    if n > 0 {
      ScanToInv(grid, rows, cutoff, n - 1);
      ScanNextInv(grid, rows, cutoff, n);
    }
  }

  /** One more row keeps the invariant of the scan. */
  lemma ScanNextInv(grid: seq<int>, rows: seq<Sample>, cutoff: int, n: nat)
    requires 0 < n <= |rows| && Uniform(rows)
    requires ScanInv(grid, Width(rows), ScanTo(grid, rows, cutoff, n - 1))
    ensures ScanInv(grid, Width(rows), ScanTo(grid, rows, cutoff, n))
  {
    StepKeepsInv(grid, rows, cutoff, ScanTo(grid, rows, cutoff, n - 1), n - 1);
  }

  function Last(g: seq<int>): int
    requires g != []
  {
    g[|g| - 1]
  }

  /** `fillDf(df, freq, start, end, cutoff)` with `start` and `end` given:
      the scan over all rows, then `Finish`. */
  function Fill(rows: seq<Sample>, freq: nat, start: int, end: int, cutoff: int): (r: Result<Filled, FillError>)
    requires freq > 0 && Uniform(rows)
    ensures r.Failure? <==> ScanTo(Grid(start, end, freq), rows, cutoff, |rows|).overall == []
    ensures r.Success? ==>
      0 < |r.value.rows| && OnGrid(r.value.rows, Grid(start, end, freq), Width(rows)) &&
      r.value.volatility + r.value.padding + r.value.nochange == |r.value.rows|
  {
    var grid := Grid(start, end, freq);
    ScanToInv(grid, rows, cutoff, |rows|);
    Finish(grid, Width(rows), ScanTo(grid, rows, cutoff, |rows|))
  }

  /** After the loop (fillDataFrame.py:114-125): an empty output is the
      IndexError raised by `overall[-1]`; otherwise, when the last emitted
      point is before the last grid point, zero rows are added from the
      cursor to the end of the grid. */
  function Finish(grid: seq<int>, w: nat, s: Scan): (r: Result<Filled, FillError>)
    requires ScanInv(grid, w, s)
    ensures r.Failure? <==> s.overall == []
    ensures r.Success? ==>
      0 < |r.value.rows| && OnGrid(r.value.rows, grid, w) &&
      r.value.volatility + r.value.padding + r.value.nochange == |r.value.rows|
  {
    if s.overall == [] then Failure(NoData)
    else if s.overall[|s.overall| - 1].time < Last(grid) then
      TailKeepsOnGrid(grid, w, s);
      Success(Filled(s.overall + PadRows(grid, s.count, |grid|, w),
                     s.volatility, s.padding + (|grid| - s.count), s.nochange))
    else
      Success(Filled(s.overall, s.volatility, s.padding, s.nochange))
  }

  lemma TailKeepsOnGrid(grid: seq<int>, w: nat, s: Scan)
    requires ScanInv(grid, w, s) && s.overall != []
    ensures OnGrid(s.overall + PadRows(grid, s.count, |grid|, w), grid, w)
  {
    var tail := PadRows(grid, s.count, |grid|, w);
    if tail != [] {
      assert |s.overall| == s.count;
      forall j | 0 <= j < |tail|
        ensures tail[j].time == grid[s.count + j] && |tail[j].readings| == w
      {
        assert tail[j] == Sample(grid[s.count + j], Zeros(w));
      }
    }
  }

  /** `fillDf` as the source runs it: a cursor loop inside a loop over the
      rows, each block appended to `overall` row by row. */
  method FillDf(rows: seq<Sample>, freq: nat, start: int, end: int, cutoff: int) returns (r: Result<Filled, FillError>)
    requires freq > 0 && Uniform(rows)
    ensures r == Fill(rows, freq, start, end, cutoff)
  {
    var index := Grid(start, end, freq);
    var s := Scan(0, [], 0, 0, 0);
    for idx := 0 to |rows|
      invariant s == ScanTo(index, rows, cutoff, idx)
    {
      ScanToInv(index, rows, cutoff, idx);
      s := ScanRow(index, rows, cutoff, s, idx);
    }
    FillIsFinish(rows, freq, start, end, cutoff);
    r := FinishScan(index, Width(rows), s);
  }

  /** The tail of fillDf after the row loop (fillDataFrame.py:114-130):
      no rows means no data, otherwise pad out to the last grid point. */
  method FinishScan(index: seq<int>, w: nat, s: Scan) returns (r: Result<Filled, FillError>)
    requires ScanInv(index, w, s)
    ensures r == Finish(index, w, s)
  {
    if s.overall == [] {
      return Failure(NoData);
    }
    var overall, padding := s.overall, s.padding;
    if overall[|overall| - 1].time < index[|index| - 1] {
      overall, padding := PadBlock(index, s.count, |index|, w, overall, padding);
    }
    r := Success(Filled(overall, s.volatility, padding, s.nochange));
  }

  lemma FillIsFinish(rows: seq<Sample>, freq: nat, start: int, end: int, cutoff: int)
    requires freq > 0 && Uniform(rows)
    ensures ScanInv(Grid(start, end, freq), Width(rows), ScanTo(Grid(start, end, freq), rows, cutoff, |rows|))
    ensures Fill(rows, freq, start, end, cutoff)
         == Finish(Grid(start, end, freq), Width(rows), ScanTo(Grid(start, end, freq), rows, cutoff, |rows|))
  {
    ScanToInv(Grid(start, end, freq), rows, cutoff, |rows|);
  }

  /** The body of the loop over the source rows (fillDataFrame.py:35-112):
      move the cursor, then skip the row, zero-pad, interpolate or pass it on. */
  method ScanRow(index: seq<int>, rows: seq<Sample>, cutoff: int, s: Scan, idx: nat) returns (s': Scan)
    requires idx < |rows| && Uniform(rows) && ScanInv(index, Width(rows), s)
    ensures s' == Step(index, rows, cutoff, s, idx)
  {
    var row := rows[idx];
    var count, oldCount := s.count, s.count;
    while count < |index| && row.time >= index[count]
      invariant oldCount <= count <= |index|
      invariant Advance(index, row.time, count) == Advance(index, row.time, oldCount)
      decreases |index| - count
    {
      count := count + 1;
    }
    if count == |index| {
      // index[count] raised IndexError: the row is skipped
      return s.(count := count);
    }
    var val := count - oldCount;
    if val == 0 {
      return s;
    }
    var w := Width(rows);
    if cutoff < index[count] - index[oldCount] {
      var overall, padding := PadBlock(index, oldCount, count, w, s.overall, s.padding);
      return s.(count := count, overall := overall, padding := padding);
    }
    if val > 1 {
      var temp := if idx == 0 then rows[0].readings else rows[idx - 1].readings;
      var overall, volatility := InterpBlock(index, oldCount, count, temp, row.readings, s.overall, s.volatility);
      s' := s.(count := count, overall := overall, volatility := volatility);
    } else {
      s' := s.(count := count, overall := s.overall + [Sample(index[oldCount], row.readings)],
               nochange := s.nochange + 1);
    }
  }

  /** `for step, ovrwrt in enumerate(range(lo, hi))` appending zero rows and
      counting them as padding (fillDataFrame.py:73-79 and 119-125). */
  method PadBlock(index: seq<int>, lo: nat, hi: nat, w: nat, overall: seq<Sample>, padding: nat)
    returns (overall': seq<Sample>, padding': nat)
    requires lo <= hi <= |index|
    ensures overall' == overall + PadRows(index, lo, hi, w)
    ensures padding' == padding + (hi - lo)
  {
    overall', padding' := overall, padding;
    for ovrwrt := lo to hi
      invariant overall' == overall + PadRows(index, lo, ovrwrt, w)
      invariant padding' == padding + (ovrwrt - lo)
    {
      padding' := padding' + 1;
      overall' := overall' + [Sample(index[ovrwrt], Zeros(w))];
    }
  }

  /** The interpolation loop (fillDataFrame.py:93-103): `hi - lo` rows on the
      line from `temp` towards `cur`, counted as interpolated. */
  method InterpBlock(index: seq<int>, lo: nat, hi: nat, temp: seq<int>, cur: seq<int>,
                     overall: seq<Sample>, volatility: nat)
    returns (overall': seq<Sample>, volatility': nat)
    requires lo < hi <= |index| && |temp| == |cur|
    ensures overall' == overall + InterpRows(index, lo, hi, temp, cur)
    ensures volatility' == volatility + (hi - lo)
  {
    var val := hi - lo;
    overall', volatility' := overall, volatility;
    for step := 0 to val
      invariant overall' == overall + InterpRows(index, lo, hi, temp, cur)[..step]
      invariant volatility' == volatility + step
    {
      volatility' := volatility' + 1;
      overall' := overall' + [Sample(index[lo + step], Lerp(temp, cur, step, val))];
    }
    assert InterpRows(index, lo, hi, temp, cur)[..val] == InterpRows(index, lo, hi, temp, cur);
  }

  /* ---------------------------------------------------------------- */
  /* What the resampler promises                                       */
  /* ---------------------------------------------------------------- */

  /** Smaller and larger of two readings. */
  function Min(a: int, b: int): int { if a <= b then a else b }
  function Max(a: int, b: int): int { if a <= b then b else a }

  lemma DivMonotone(a: int, b: int, d: nat)
    requires d > 0 && a <= b
    ensures a / d <= b / d
  {
    MulMonotoneIf(b / d + 1, a / d, d);
  }

  lemma MulDivCancel(x: int, d: nat)
    requires d > 0
    ensures (x * d) / d == x
  {
    var q, r := (x * d) / d, (x * d) % d;
    assert (x - q) * d == r;
    MulMonotoneIf(1, x - q, d);
    MulMonotoneIf(x - q, -1, d);
  }

  /** An interpolated reading lies between the two source readings it is
      drawn from, and step 0 reproduces the previous row exactly. */
  lemma LerpWithin(prev: seq<int>, cur: seq<int>, step: nat, val: nat)
    requires val > 0 && |prev| == |cur| && step <= val
    ensures |Lerp(prev, cur, step, val)| == |cur|
    ensures forall c :: 0 <= c < |cur| ==>
      Min(prev[c], cur[c]) <= Lerp(prev, cur, step, val)[c] <= Max(prev[c], cur[c])
    ensures step == 0 ==> Lerp(prev, cur, step, val) == prev
  {
    var l := Lerp(prev, cur, step, val);
    forall c | 0 <= c < |cur|
      ensures Min(prev[c], cur[c]) <= l[c] <= Max(prev[c], cur[c])
    {
      var d := cur[c] - prev[c];
      assert l[c] == prev[c] + d * step / val;
      if d >= 0 {
        MulMonotone(0, step, d);
        MulMonotone(step, val, d);
        DivMonotone(0, d * step, val);
        DivMonotone(d * step, d * val, val);
        MulDivCancel(d, val);
      } else {
        MulMonotone(d, 0, step);
        MulMonotone(step, val, -d);
        DivMonotone(d * step, 0, val);
        DivMonotone(d * val, d * step, val);
        MulDivCancel(d, val);
      }
    }
    if step == 0 {
      assert forall c :: 0 <= c < |cur| ==> l[c] == prev[c];
    }
  }

  /** Where the cursor stops for a row at or after the last grid point:
      at the end of the grid, which is the IndexError that skips the row. */
  lemma AdvanceRunsOff(grid: seq<int>, t: int, c: nat)
    requires Ascending(grid) && c < |grid|
    ensures Advance(grid, t, c) == |grid| <==> grid[|grid| - 1] <= t
  {
    var k := Advance(grid, t, c);
    if k < |grid| - 1 {
      assert grid[k] < grid[|grid| - 1];
    }
  }

  /** Which rule a row falls under depends only on how many grid points it
      passes and on how that gap compares with the threshold: more than
      `cutoff` seconds is zero-padded, otherwise two or more points are
      interpolated and a single point takes the row unchanged. A row that
      passes no point, or runs off the end of the grid, changes nothing but
      the cursor. */
  lemma StepRule(start: int, end: int, freq: nat, rows: seq<Sample>, cutoff: int, s: Scan, idx: nat)
    requires freq > 0 && idx < |rows| && Uniform(rows)
    requires ScanInv(Grid(start, end, freq), Width(rows), s)
    ensures var grid := Grid(start, end, freq);
            var s' := Step(grid, rows, cutoff, s, idx);
            var c := Advance(grid, rows[idx].time, s.count);
            var gap := (c - s.count) * freq;
            (s'.padding > s.padding <==> c < |grid| && c > s.count && cutoff < gap) &&
            (s'.volatility > s.volatility <==> c < |grid| && c > s.count + 1 && gap <= cutoff) &&
            (s'.nochange > s.nochange <==> c < |grid| && c == s.count + 1 && gap <= cutoff) &&
            (c == s.count || c == |grid| <==> s'.overall == s.overall)
  {
    var grid := Grid(start, end, freq);
    var c := Advance(grid, rows[idx].time, s.count);
    if c < |grid| && c > s.count {
      GridDistance(start, end, freq, s.count, c);
      var s' := Step(grid, rows, cutoff, s, idx);
      assert |s'.overall| == |s.overall| + (c - s.count);
    }
  }

  /** A step only appends: the rows emitted before it are kept as they were. */
  lemma StepExtends(grid: seq<int>, rows: seq<Sample>, cutoff: int, s: Scan, idx: nat)
    requires idx < |rows| && Uniform(rows) && ScanInv(grid, Width(rows), s)
    ensures var s' := Step(grid, rows, cutoff, s, idx);
            |s.overall| <= |s'.overall| && s'.overall[..|s.overall|] == s.overall
  {
  }

  /** A zero-padded block is all zeros. */
  lemma StepPadsZeros(grid: seq<int>, rows: seq<Sample>, cutoff: int, s: Scan, idx: nat)
    requires idx < |rows| && Uniform(rows) && ScanInv(grid, Width(rows), s)
    ensures var s' := Step(grid, rows, cutoff, s, idx);
            s'.padding > s.padding ==>
              forall j, c :: |s.overall| <= j < |s'.overall| && 0 <= c < |s'.overall[j].readings| ==>
                s'.overall[j].readings[c] == 0
  {
    var s' := Step(grid, rows, cutoff, s, idx);
    var c := Advance(grid, rows[idx].time, s.count);
    if s'.padding > s.padding {
      var block := PadRows(grid, s.count, c, Width(rows));
      assert s'.overall == s.overall + block;
      forall j, col | |s.overall| <= j < |s'.overall| && 0 <= col < |s'.overall[j].readings|
        ensures s'.overall[j].readings[col] == 0
      {
        assert s'.overall[j] == block[j - |s.overall|] == Sample(grid[j], Zeros(Width(rows)));
      }
    }
  }

  /** An interpolated block starts at the previous source row, and every
      reading in it lies between the previous and the current row. */
  lemma StepInterpolatesBetween(grid: seq<int>, rows: seq<Sample>, cutoff: int, s: Scan, idx: nat)
    requires idx < |rows| && Uniform(rows) && ScanInv(grid, Width(rows), s)
    ensures var s' := Step(grid, rows, cutoff, s, idx);
            var prev := if idx == 0 then rows[0].readings else rows[idx - 1].readings;
            var cur := rows[idx].readings;
            s'.volatility > s.volatility ==>
              |s.overall| < |s'.overall| &&
              s'.overall[|s.overall|].readings == prev &&
              forall j, c ::
                |s.overall| <= j < |s'.overall| && 0 <= c < |cur| && 0 <= c < |prev| &&
                0 <= c < |s'.overall[j].readings| ==>
                Min(prev[c], cur[c]) <= s'.overall[j].readings[c] <= Max(prev[c], cur[c])
  {
    var s' := Step(grid, rows, cutoff, s, idx);
    var c := Advance(grid, rows[idx].time, s.count);
    var cur := rows[idx].readings;
    var prev := if idx == 0 then rows[0].readings else rows[idx - 1].readings;
    if s'.volatility > s.volatility {
      var val := c - s.count;
      var block := InterpRows(grid, s.count, c, prev, cur);
      assert s'.overall == s.overall + block;
      LerpWithin(prev, cur, 0, val);
      assert s'.overall[|s.overall|] == block[0];
      forall j, col | |s.overall| <= j < |s'.overall| && 0 <= col < |cur| && 0 <= col < |prev| &&
                      0 <= col < |s'.overall[j].readings|
        ensures Min(prev[col], cur[col]) <= s'.overall[j].readings[col] <= Max(prev[col], cur[col])
      {
        var step := j - |s.overall|;
        assert s'.overall[j] == block[step];
        LerpWithin(prev, cur, step, val);
      }
    }
  }

  /** A row that passes exactly one grid point is emitted unchanged at that point. */
  lemma StepPassesRow(grid: seq<int>, rows: seq<Sample>, cutoff: int, s: Scan, idx: nat)
    requires idx < |rows| && Uniform(rows) && ScanInv(grid, Width(rows), s)
    ensures var s' := Step(grid, rows, cutoff, s, idx);
            s'.nochange > s.nochange ==>
              s.count < |grid| && s'.overall == s.overall + [Sample(grid[s.count], rows[idx].readings)]
  {
  }

  /** A successful resample is gapless: row j is at `start + j*freq`. */
  lemma FillGapless(rows: seq<Sample>, freq: nat, start: int, end: int, cutoff: int)
    requires freq > 0 && Uniform(rows)
    ensures var r := Fill(rows, freq, start, end, cutoff);
            r.Success? ==>
              forall j :: 0 <= j < |r.value.rows| ==>
                r.value.rows[j].time == start + j * freq && r.value.rows[j].time <= end
  {
    var r := Fill(rows, freq, start, end, cutoff);
    if r.Success? {
      var g := Grid(start, end, freq);
      forall j | 0 <= j < |r.value.rows|
        ensures r.value.rows[j].time == start + j * freq && r.value.rows[j].time <= end
      {
        assert r.value.rows[j].time == g[j];
      }
    }
  }

  /** Every one of the first `n` rows is before the last grid point. */
  predicate AllBeforeLast(grid: seq<int>, rows: seq<Sample>, n: nat)
    requires grid != [] && n <= |rows|
  {
    n == 0 || (AllBeforeLast(grid, rows, n - 1) && rows[n - 1].time < grid[|grid| - 1])
  }

  /** Some row in the first `n` reaches the first grid point while no row
      up to it has reached the last one. */
  predicate Reaches(grid: seq<int>, rows: seq<Sample>, n: nat)
    requires grid != [] && n <= |rows|
  {
    n > 0 &&
    (Reaches(grid, rows, n - 1) || (AllBeforeLast(grid, rows, n) && grid[0] <= rows[n - 1].time))
  }

  lemma {:induction false} AllBeforeLastMeans(grid: seq<int>, rows: seq<Sample>, n: nat)
    requires grid != [] && n <= |rows|
    ensures AllBeforeLast(grid, rows, n) <==> forall i :: 0 <= i < n ==> rows[i].time < grid[|grid| - 1]
  {
    if n > 0 {
      AllBeforeLastMeans(grid, rows, n - 1);
    }
  }

  lemma {:induction false} ReachesMeans(grid: seq<int>, rows: seq<Sample>, n: nat)
    requires grid != [] && n <= |rows|
    ensures Reaches(grid, rows, n) <==>
      exists i :: 0 <= i < n && grid[0] <= rows[i].time &&
        forall j :: 0 <= j <= i ==> rows[j].time < grid[|grid| - 1]
  {
    if n > 0 {
      ReachesMeans(grid, rows, n - 1);
      AllBeforeLastMeans(grid, rows, n);
      if !Reaches(grid, rows, n - 1) && Reaches(grid, rows, n) {
        assert 0 <= n - 1 < n && grid[0] <= rows[n - 1].time &&
          forall j :: 0 <= j <= n - 1 ==> rows[j].time < grid[|grid| - 1];
      }
      if exists i :: 0 <= i < n && grid[0] <= rows[i].time &&
          forall j :: 0 <= j <= i ==> rows[j].time < grid[|grid| - 1] {
        var i :| 0 <= i < n && grid[0] <= rows[i].time &&
          forall j :: 0 <= j <= i ==> rows[j].time < grid[|grid| - 1];
        if i == n - 1 {
          assert AllBeforeLast(grid, rows, n);
        }
      }
    }
  }

  /** One row moves the cursor to the end of the grid exactly when it is at
      or after the last grid point; the output is then left short of the grid. */
  lemma StepCount(grid: seq<int>, rows: seq<Sample>, cutoff: int, p: Scan, idx: nat)
    requires Ascending(grid) && grid != [] && idx < |rows| && Uniform(rows)
    requires ScanInv(grid, Width(rows), p) && (p.count == |grid| ==> |p.overall| < |grid|)
    ensures var s := Step(grid, rows, cutoff, p, idx);
            (s.count < |grid| <==> p.count < |grid| && rows[idx].time < grid[|grid| - 1]) &&
            (s.count == |grid| ==> |s.overall| < |grid|)
  {
    if p.count < |grid| {
      AdvanceRunsOff(grid, rows[idx].time, p.count);
    }
  }

  /** Output appears at the first row that reaches the grid while the cursor
      is still inside it. */
  lemma StepNonEmpty(grid: seq<int>, rows: seq<Sample>, cutoff: int, p: Scan, idx: nat)
    requires Ascending(grid) && grid != [] && idx < |rows| && Uniform(rows)
    requires ScanInv(grid, Width(rows), p)
    ensures var s := Step(grid, rows, cutoff, p, idx);
            var t := rows[idx].time;
            s.overall != [] <==>
              p.overall != [] || (p.count < |grid| && grid[0] <= t && t < grid[|grid| - 1])
  {
    var t := rows[idx].time;
    StepKeepsInv(grid, rows, cutoff, p, idx);
    if p.overall == [] && p.count < |grid| {
      assert p.count == 0;
      AdvanceRunsOff(grid, t, 0);
    }
  }

  /** The cursor stays inside the grid exactly while no row has reached the
      last grid point; once one has, the cursor sits at the end and the
      output stops short of the grid. The output is non-empty exactly when
      some row reached the grid before that. */
  lemma {:induction false} ScanReach(grid: seq<int>, rows: seq<Sample>, cutoff: int, n: nat)
    requires Ascending(grid) && grid != [] && n <= |rows| && Uniform(rows)
    ensures var s := ScanTo(grid, rows, cutoff, n);
            (s.count < |grid| <==> AllBeforeLast(grid, rows, n)) &&
            (s.count == |grid| ==> |s.overall| < |grid|) &&
            (s.overall != [] <==> Reaches(grid, rows, n))
  {
    if n > 0 {
      var p := ScanTo(grid, rows, cutoff, n - 1);
      ScanReach(grid, rows, cutoff, n - 1);
      ScanToInv(grid, rows, cutoff, n - 1);
      ReachStep(grid, rows, cutoff, p, n);
      assert ScanTo(grid, rows, cutoff, n) == Step(grid, rows, cutoff, p, n - 1);
    }
  }

  /** One more row keeps what `ScanReach` states. */
  lemma ReachStep(grid: seq<int>, rows: seq<Sample>, cutoff: int, p: Scan, n: nat)
    requires Ascending(grid) && grid != [] && 0 < n <= |rows| && Uniform(rows)
    requires ScanInv(grid, Width(rows), p)
    requires (p.count < |grid| <==> AllBeforeLast(grid, rows, n - 1)) &&
             (p.count == |grid| ==> |p.overall| < |grid|) &&
             (p.overall != [] <==> Reaches(grid, rows, n - 1))
    ensures var s := Step(grid, rows, cutoff, p, n - 1);
            (s.count < |grid| <==> AllBeforeLast(grid, rows, n)) &&
            (s.count == |grid| ==> |s.overall| < |grid|) &&
            (s.overall != [] <==> Reaches(grid, rows, n))
  {
    StepCount(grid, rows, cutoff, p, n - 1);
    StepNonEmpty(grid, rows, cutoff, p, n - 1);
  }

  /** The resampler fills the whole grid exactly when no source row is at or
      after the last grid point: a row there runs the cursor off the end,
      and the final zero padding then starts from the end of the grid and
      adds nothing. It fails with no data exactly when no row reaches the
      grid before that happens. */
  lemma FillCoverage(rows: seq<Sample>, freq: nat, start: int, end: int, cutoff: int)
    requires freq > 0 && Uniform(rows)
    ensures var grid := Grid(start, end, freq);
            var r := Fill(rows, freq, start, end, cutoff);
            (r.Failure? <==> grid == [] || !Reaches(grid, rows, |rows|)) &&
            (r.Success? ==> (|r.value.rows| == |grid| <==> AllBeforeLast(grid, rows, |rows|)))
  {
    var grid := Grid(start, end, freq);
    var s := ScanTo(grid, rows, cutoff, |rows|);
    FillIsFinish(rows, freq, start, end, cutoff);
    if grid == [] {
      assert s.count == 0 && |s.overall| <= s.count;
    } else {
      GridIsAscending(start, end, freq);
      ScanReach(grid, rows, cutoff, |rows|);
      if s.overall != [] && s.count < |grid| {
        assert |s.overall| == s.count;
        assert s.overall[|s.overall| - 1].time == grid[s.count - 1] < grid[|grid| - 1];
      }
    }
  }

  /** A worked case: readings [5] at 0 s, [7] at 20 s and [9] at 70 s,
      resampled every 10 s over 0..70 s with a 40 s threshold. The first row
      is passed on, the second fills 10 s and 20 s on the line from [5]
      towards [7], and the third lands on the last grid point and is
      dropped, so only three of the eight grid points are filled. */
  lemma WorkedCase(rows: seq<Sample>, freq: nat, start: int, end: int, cutoff: int)
    requires rows == [Sample(0, [5]), Sample(20, [7]), Sample(70, [9])]
    requires freq == 10 && start == 0 && end == 70 && cutoff == 40
    ensures Fill(rows, freq, start, end, cutoff)
         == Success(Filled([Sample(0, [5]), Sample(10, [5]), Sample(20, [6])], 2, 0, 1))
  {
    var grid := Grid(start, end, freq);
    assert grid == [0, 10, 20, 30, 40, 50, 60, 70];
    WorkedThird(grid);
    WorkedFinish(grid);
    FillIsFinish(rows, freq, start, end, cutoff);
  }

  /** After the loop the last emitted row is at 20 s, before the last grid
      point, but the cursor is already at the end: nothing is padded. */
  lemma WorkedFinish(grid: seq<int>)
    requires grid == [0, 10, 20, 30, 40, 50, 60, 70]
    ensures ScanInv(grid, 1, Scan(8, [Sample(0, [5]), Sample(10, [5]), Sample(20, [6])], 2, 0, 1))
    ensures Finish(grid, 1, Scan(8, [Sample(0, [5]), Sample(10, [5]), Sample(20, [6])], 2, 0, 1))
         == Success(Filled([Sample(0, [5]), Sample(10, [5]), Sample(20, [6])], 2, 0, 1))
  {
    var s3 := Scan(8, [Sample(0, [5]), Sample(10, [5]), Sample(20, [6])], 2, 0, 1);
    assert s3.overall + PadRows(grid, 8, 8, 1) == s3.overall;
  }

  /** The first row passes one grid point and is emitted unchanged. */
  lemma WorkedFirst(grid: seq<int>)
    requires grid == [0, 10, 20, 30, 40, 50, 60, 70]
    ensures ScanTo(grid, [Sample(0, [5]), Sample(20, [7]), Sample(70, [9])], 40, 1)
         == Scan(1, [Sample(0, [5])], 0, 0, 1)
  {
    assert Advance(grid, 0, 0) == 1;
  }

  /** The second row passes two grid points, 20 s apart, and is interpolated. */
  lemma WorkedSecond(grid: seq<int>)
    requires grid == [0, 10, 20, 30, 40, 50, 60, 70]
    ensures ScanTo(grid, [Sample(0, [5]), Sample(20, [7]), Sample(70, [9])], 40, 2)
         == Scan(3, [Sample(0, [5]), Sample(10, [5]), Sample(20, [6])], 2, 0, 1)
  {
    WorkedFirst(grid);
    assert Advance(grid, 20, 2) == 3;
    assert Advance(grid, 20, 1) == 3;
    assert Lerp([5], [7], 0, 2) == [5];
    assert Lerp([5], [7], 1, 2) == [6];
    assert InterpRows(grid, 1, 3, [5], [7]) == [Sample(10, [5]), Sample(20, [6])];
  }

  /** The third row is on the last grid point: the cursor runs off the end. */
  lemma WorkedThird(grid: seq<int>)
    requires grid == [0, 10, 20, 30, 40, 50, 60, 70]
    ensures ScanTo(grid, [Sample(0, [5]), Sample(20, [7]), Sample(70, [9])], 40, 3)
         == Scan(8, [Sample(0, [5]), Sample(10, [5]), Sample(20, [6])], 2, 0, 1)
  {
    WorkedSecond(grid);
    assert Advance(grid, 70, 6) == 8;
    assert Advance(grid, 70, 4) == 8;
    assert Advance(grid, 70, 3) == 8;
  }
}
