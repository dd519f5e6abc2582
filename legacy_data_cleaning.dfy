/** The older driver (dataCleaning.py at the top of the repository). Its
    merge, upsample and interpolation are the same code as the newer
    driver's and are the members of `DataCleaning`; what differs is kept
    here: the audit has no guard for an empty window, the days carry one
    plain `processed` flag for the single particle, and the parameter file
    is rewritten under the `newFilesChecked` flag. */
module LegacyDataCleaning {
  import opened Wrappers
  import opened Frames
  import opened PyDict
  import opened DataCleaning

  /* ---------------------------------------------------------------- */
  /* checkDataRecordingPerformance without the empty-window guard      */
  /* ---------------------------------------------------------------- */

  /** `temp["Date_Time"].iloc[0]` on an empty window raises `IndexError`,
      which nothing catches. */
  datatype LegacyAuditError = EmptyWindow(sensor: string)

  /** The audit loop over the first `n` sensors, given their reports. */
  function LegacyCollect(data: Dict<string, seq<Sample>>, reps: seq<Option<Report>>, n: nat)
    : Result<seq<(string, Report)>, LegacyAuditError>
    requires n <= |data| == |reps|
  {
    if n == 0 then Success([])
    else match LegacyCollect(data, reps, n - 1)
      case Failure(e) => Failure(e)
      case Success(acc) =>
        match reps[n - 1]
        case None => Failure(EmptyWindow(data[n - 1].0))
        case Some(rep) => Success(acc + [(data[n - 1].0, rep)])
  }

  /** `checkDataRecordingPerformance(data, date, particle, start, end)`. */
  function LegacyAuditAll(data: Dict<string, seq<Sample>>, start: int, end: int): Result<seq<(string, Report)>, LegacyAuditError>
  {
    LegacyCollect(data, Reports(data, start, end, |data|), |data|)
  }

  method CheckDataRecordingPerformance(data: Dict<string, seq<Sample>>, start: int, end: int)
    returns (r: Result<seq<(string, Report)>, LegacyAuditError>)
    ensures r == LegacyAuditAll(data, start, end)
  {
    ghost var reps := Reports(data, start, end, |data|);
    var reports: seq<(string, Report)> := [];
    for x := 0 to |data|
      invariant LegacyCollect(data, reps, x) == Success(reports)
    {
      var rep := AuditSensor(Times(data[x].1), start, end);
      ReportsAt(data, start, end, |data|, x);
      if rep.None? {
        LegacyFailureStays(data, reps, x + 1, |data|);
        return Failure(EmptyWindow(data[x].0));
      }
      reports := reports + [(data[x].0, rep.value)];
    }
    r := Success(reports);
  }

  lemma {:induction false} LegacyFailureStays(data: Dict<string, seq<Sample>>, reps: seq<Option<Report>>, k: nat, n: nat)
    requires k <= n <= |data| == |reps| && LegacyCollect(data, reps, k).Failure?
    ensures LegacyCollect(data, reps, n) == LegacyCollect(data, reps, k)
    decreases n - k
  {
    if k < n {
      LegacyFailureStays(data, reps, k, n - 1);
    }
  }

  /** The loop gets through exactly when every report exists, and then
      lists them all in order; otherwise it stops at the first sensor with
      an empty window. */
  lemma {:induction false} LegacyCollectMeans(data: Dict<string, seq<Sample>>, reps: seq<Option<Report>>, n: nat)
    requires n <= |data| == |reps|
    ensures var r := LegacyCollect(data, reps, n);
      && (r.Success? <==> forall i :: 0 <= i < n ==> reps[i].Some?)
      && (r.Success? ==> |r.value| == n && forall i :: 0 <= i < n ==> r.value[i] == (data[i].0, reps[i].value))
      && (r.Failure? ==> exists j :: 0 <= j < n && reps[j].None? && r.error == EmptyWindow(data[j].0) &&
                                     forall i :: 0 <= i < j ==> reps[i].Some?)
  {
    if n > 0 {
      LegacyCollectMeans(data, reps, n - 1);
    }
  }

  /** The older audit fails exactly when some sensor has no row in the
      window, naming the first such sensor; otherwise it reports on every
      sensor, in order, as the newer audit does. */
  lemma LegacyAuditMeans(data: Dict<string, seq<Sample>>, start: int, end: int)
    ensures var r := LegacyAuditAll(data, start, end);
      && (r.Failure? <==> exists i :: 0 <= i < |data| && Audit(Times(data[i].1), start, end).None?)
      && (r.Success? ==>
            && |r.value| == |data|
            && forall i :: 0 <= i < |data| ==> r.value[i] == (data[i].0, Audit(Times(data[i].1), start, end).value))
      && (r.Failure? ==> exists j :: 0 <= j < |data| && Audit(Times(data[j].1), start, end).None? &&
                                     r.error == EmptyWindow(data[j].0))
  {
    var reps := Reports(data, start, end, |data|);
    forall i | 0 <= i < |data|
      ensures reps[i] == Audit(Times(data[i].1), start, end)
    {
      ReportsAt(data, start, end, |data|, i);
    }
    LegacyCollectMeans(data, reps, |data|);
  }

  /* ---------------------------------------------------------------- */
  /* main: confirmedFiles, the processed flag and the rewrite flag     */
  /* ---------------------------------------------------------------- */

  /** One entry of `Days` in the older parameter file. */
  datatype LegacyDay = LegacyDay(confirmedFiles: seq<string>, filePattern: string, date: string, processed: bool)

  /** Processing one day (key, entry): `filesChecked`, or `None` when a
      stage raised and ended the run. */
  type LegacyRunner = (string, LegacyDay) -> Option<Dict<string, bool>>

  /** The loop over the first `n` days: the days and `newFilesChecked`. */
  function LegacyPass(days: Dict<string, LegacyDay>, processAll: bool, run: LegacyRunner, n: nat)
    : (r: Option<(Dict<string, LegacyDay>, bool)>)
    requires n <= |days|
    ensures r.Some? ==> |r.value.0| == |days|
  {
    if n == 0 then Some((days, true))
    else match LegacyPass(days, processAll, run, n - 1)
      case None => None
      case Some(acc) =>
        var (day, e) := acc.0[n - 1];
        if !processAll && e.processed then Some(acc)
        else match run(day, e)
          case None => None
          case Some(filesChecked) =>
            var e' := e.(confirmedFiles := e.confirmedFiles + Confirmed(filesChecked), processed := true);
            Some((acc.0[n - 1 := (day, e')], acc.1 || filesChecked != []))
  }

  /** The bookkeeping of the older `main`: the new `Days` and whether the
      parameter file is rewritten. */
  function LegacyMain(days: Dict<string, LegacyDay>, processAll: bool, run: LegacyRunner): Option<(Dict<string, LegacyDay>, bool)>
  {
    LegacyPass(days, processAll, run, |days|)
  }

  method LegacyProcessDays(days: Dict<string, LegacyDay>, processAll: bool, run: LegacyRunner)
    returns (r: Option<(Dict<string, LegacyDay>, bool)>)
    ensures r == LegacyMain(days, processAll, run)
  {
    var current := days;
    var newFilesChecked := true;
    for i := 0 to |days|
      invariant LegacyPass(days, processAll, run, i) == Some((current, newFilesChecked))
    {
      var (day, condition) := current[i];
      if !processAll && condition.processed {
        continue;
      }
      var filesChecked := run(day, condition);
      if filesChecked.None? {
        LegacyNoneStays(days, processAll, run, i + 1, |days|);
        return None;
      }
      if filesChecked.value != [] {
        newFilesChecked := true;
      }
      var checkFileList := MergeConfirmed(condition.confirmedFiles, filesChecked.value);
      current := current[i := (day, condition.(confirmedFiles := checkFileList, processed := true))];
    }
    r := Some((current, newFilesChecked));
  }

  lemma {:induction false} LegacyNoneStays(days: Dict<string, LegacyDay>, processAll: bool, run: LegacyRunner, k: nat, n: nat)
    requires k <= n <= |days| && LegacyPass(days, processAll, run, k).None?
    ensures LegacyPass(days, processAll, run, n).None?
    decreases n - k
  {
    if k < n {
      LegacyNoneStays(days, processAll, run, k, n - 1);
    }
  }

  /** After a run that got through, every day is processed, keeps its key,
      pattern and date, and its confirmed list only grew at its end. */
  lemma {:induction false} LegacyPassDone(days: Dict<string, LegacyDay>, processAll: bool, run: LegacyRunner, n: nat)
    requires n <= |days| && LegacyPass(days, processAll, run, n).Some?
    ensures var acc := LegacyPass(days, processAll, run, n).value.0;
      && (forall i :: 0 <= i < n ==> acc[i].1.processed)
      && (forall i :: n <= i < |days| ==> acc[i] == days[i])
      && forall i :: 0 <= i < |days| ==>
           && acc[i].0 == days[i].0
           && acc[i].1.filePattern == days[i].1.filePattern
           && acc[i].1.date == days[i].1.date
           && days[i].1.confirmedFiles <= acc[i].1.confirmedFiles
  {
    if n > 0 {
      LegacyPassDone(days, processAll, run, n - 1);
    }
  }

  /** As written, `newFilesChecked` starts `True`, so the parameter file is
      rewritten after every run that gets through. */
  lemma {:induction false} LegacyAlwaysRewrites(days: Dict<string, LegacyDay>, processAll: bool, run: LegacyRunner, n: nat)
    requires n <= |days| && LegacyPass(days, processAll, run, n).Some?
    ensures LegacyPass(days, processAll, run, n).value.1
  {
    if n > 0 {
      LegacyAlwaysRewrites(days, processAll, run, n - 1);
    }
  }

  /** When every day is already processed, the run skips them all and
      changes nothing, yet the flag still calls for a rewrite. */
  lemma {:induction false} LegacyIdleStillRewrites(days: Dict<string, LegacyDay>, run: LegacyRunner, n: nat)
    requires n <= |days| && forall i :: 0 <= i < |days| ==> days[i].1.processed
    ensures LegacyPass(days, false, run, n) == Some((days, true))
  {
    if n > 0 {
      LegacyIdleStillRewrites(days, run, n - 1);
    }
  }

  /** The rewrite as evidently intended (and as the newer `main` decides
      it): only when the days differ from what was read. */
  function RewriteNeeded(before: Dict<string, LegacyDay>, after: Dict<string, LegacyDay>): bool
  {
    after != before
  }

  /** With the intended rewrite, a run over days that are all processed
      does not rewrite the file, and a run that processes a day that was
      not yet processed does. */
  lemma RewriteNeededMeans(days: Dict<string, LegacyDay>, processAll: bool, run: LegacyRunner)
    requires LegacyMain(days, processAll, run).Some?
    ensures var after := LegacyMain(days, processAll, run).value.0;
      && ((!processAll && forall i :: 0 <= i < |days| ==> days[i].1.processed) ==> !RewriteNeeded(days, after))
      && ((exists i :: 0 <= i < |days| && !days[i].1.processed) ==> RewriteNeeded(days, after))
  {
    var after := LegacyMain(days, processAll, run).value.0;
    if !processAll && forall i :: 0 <= i < |days| ==> days[i].1.processed {
      LegacyIdleStillRewrites(days, run, |days|);
    }
    LegacyPassDone(days, processAll, run, |days|);
    if exists i :: 0 <= i < |days| && !days[i].1.processed {
      var i :| 0 <= i < |days| && !days[i].1.processed;
      assert after[i].1.processed;
    }
  }
}
