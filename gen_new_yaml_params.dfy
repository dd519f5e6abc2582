/** The generator of new day entries (project/genNewYamlParams.py): dates
    found in the data file names that the parameter file does not list yet
    get a fresh entry. */
module GenNewYamlParams {
  import opened Wrappers
  import opened PyDict
  import opened PyText
  import opened DataCleaning

  /* ---------------------------------------------------------------- */
  /* genSampleObj                                                      */
  /* ---------------------------------------------------------------- */

  /** `genSampleObj(date)`: a one-entry dict whose entry has no confirmed
      files, the path parts `"..", "Data", "*<date>.txt"` and no processed flags. */
  function GenSampleObj(date: string): (obj: Dict<string, DayEntry>)
    ensures |obj| == 1 && obj[0].0 == date
    ensures obj[0].1.confirmedFiles == [] && obj[0].1.processed == []
    ensures obj[0].1.filePattern == ["..", "Data", "*" + date + ".txt"]
  {
    [(date, DayEntry([], ["..", "Data", "*" + date + ".txt"], []))]
  }

  /* ---------------------------------------------------------------- */
  /* The date pattern                                                  */
  /* ---------------------------------------------------------------- */

  /** A group of `\d{1,2}` with `n` digits at `p`. */
  predicate DigitsAt(s: string, p: nat, n: nat)
  {
    1 <= n <= 2 && p + n <= |s| && IsDigit(s[p]) && (n == 2 ==> IsDigit(s[p + 1]))
  }

  /** The three groups of `\d{1,2}\S\d{1,2}\S\d{1,2}` at `p` with `a`,
      `b` and `c` digits. */
  predicate Fits(s: string, p: nat, a: nat, b: nat, c: nat)
  {
    && DigitsAt(s, p, a)
    && p + a < |s| && !IsSpace(s[p + a])
    && DigitsAt(s, p + a + 1, b)
    && p + a + 1 + b < |s| && !IsSpace(s[p + a + 1 + b])
    && DigitsAt(s, p + a + b + 2, c)
  }

  /** The group lengths in the order the backtracking matcher tries them:
      each greedy `\d{1,2}` tries two digits before one. */
  const Orders: seq<(nat, nat, nat)> :=
    [(2, 2, 2), (2, 2, 1), (2, 1, 2), (2, 1, 1), (1, 2, 2), (1, 2, 1), (1, 1, 2), (1, 1, 1)]

  /** The first group lengths, from `Orders[k]` on, that fit at `p`. */
  function FirstFit(s: string, p: nat, k: nat): (r: Option<(nat, nat, nat)>)
    requires k <= |Orders|
    ensures r.Some? ==> r.value in Orders[k..] && Fits(s, p, r.value.0, r.value.1, r.value.2)
    decreases |Orders| - k
  {
    if k == |Orders| then None
    else if Fits(s, p, Orders[k].0, Orders[k].1, Orders[k].2) then Some(Orders[k])
    else FirstFit(s, p, k + 1)
  }

  /** `FirstFit` finds nothing exactly when no lengths from `Orders[k]` on
      fit, and what it finds is the first that fits in that order. */
  lemma {:induction false} FirstFitFirst(s: string, p: nat, k: nat)
    requires k <= |Orders|
    ensures var r := FirstFit(s, p, k);
            (r.None? <==> forall j :: k <= j < |Orders| ==> !Fits(s, p, Orders[j].0, Orders[j].1, Orders[j].2)) &&
            (r.Some? ==> exists j :: k <= j < |Orders| && r.value == Orders[j] &&
                           forall i :: k <= i < j ==> !Fits(s, p, Orders[i].0, Orders[i].1, Orders[i].2))
    decreases |Orders| - k
  {
    if k < |Orders| && !Fits(s, p, Orders[k].0, Orders[k].1, Orders[k].2) {
      FirstFitFirst(s, p, k + 1);
    }
  }

  /** The group lengths of the match starting at `p`, if any: the
      look-behind wants a `-` or a `_` just before `p`; both alternatives
      share the body. */
  function MatchAt(s: string, p: nat): (r: Option<(nat, nat, nat)>)
    ensures r.Some? ==> Matched(s, p, r.value) && p + Span(r.value) <= |s|
  {
    if 0 < p <= |s| && (s[p - 1] == '-' || s[p - 1] == '_') then FirstFit(s, p, 0) else None
  }

  /** There is no match at `p` exactly when `p` is not right after a `-`
      or a `_`, or no group lengths the matcher tries fit there. */
  lemma MatchAtNone(s: string, p: nat)
    ensures MatchAt(s, p).None? <==>
      !(0 < p <= |s| && (s[p - 1] == '-' || s[p - 1] == '_')) ||
      forall j :: 0 <= j < |Orders| ==> !Fits(s, p, Orders[j].0, Orders[j].1, Orders[j].2)
  {
    FirstFitFirst(s, p, 0);
  }

  /** A match at `p` with group lengths `g`: right after a `-` or a `_`,
      each group one or two digits, the groups split by non-space
      characters. */
  predicate Matched(s: string, p: nat, g: (nat, nat, nat))
  {
    && 0 < p <= |s| && (s[p - 1] == '-' || s[p - 1] == '_')
    && 1 <= g.0 <= 2 && 1 <= g.1 <= 2 && 1 <= g.2 <= 2
    && Fits(s, p, g.0, g.1, g.2)
  }

  /** Every group lengths of one or two digits each are among those the
      matcher tries, so a marked text that fits always gives a match. */
  lemma MatchAtComplete(s: string, p: nat, g: (nat, nat, nat))
    requires Matched(s, p, g)
    ensures MatchAt(s, p).Some?
  {
    var j := 4 * (2 - g.0) + 2 * (2 - g.1) + (2 - g.2);
    assert Orders[j] == g;
    MatchAtNone(s, p);
  }

  /** Length of a match with these group lengths. */
  function Span(g: (nat, nat, nat)): nat
  {
    g.0 + g.1 + g.2 + 2
  }

  /** The match at each of the first `n` positions of `s`. */
  function Matches(s: string, n: nat): (ms: seq<Option<(nat, nat, nat)>>)
    requires n <= |s|
    ensures |ms| == n
    ensures forall i :: 0 <= i < n && ms[i].Some? ==> i + Span(ms[i].value) <= |s| && Matched(s, i, ms[i].value)
  {
    if n == 0 then [] else Matches(s, n - 1) + [MatchAt(s, n - 1)]
  }

  lemma {:induction false} MatchesAt(s: string, n: nat, i: nat)
    requires i < n <= |s|
    ensures Matches(s, n)[i] == MatchAt(s, i)
  {
    if i < n - 1 {
      MatchesAt(s, n - 1, i);
    }
  }

  /** The search from `p` on, given the match at every position. */
  function Scan(s: string, ms: seq<Option<(nat, nat, nat)>>, p: nat): seq<string>
    requires |ms| == |s|
    requires forall i :: 0 <= i < |s| && ms[i].Some? ==> i + Span(ms[i].value) <= |s|
    decreases |s| - p
  {
    if p >= |s| then []
    else match ms[p]
      case Some(g) => [s[p..p + Span(g)]] + Scan(s, ms, p + Span(g))
      case None => Scan(s, ms, p + 1)
  }

  /** `re.findall(datePattern, s)`: leftmost matches, each search resuming
      where the last match ended. */
  function FindAll(s: string): seq<string>
  {
    Scan(s, Matches(s, |s|), 0)
  }

  /** Three digit groups of one or two digits joined by single non-space
      characters. */
  predicate Groups(m: string, a: nat, b: nat)
  {
    1 <= a <= 2 && 1 <= b <= 2 && a + b + 3 <= |m| <= a + b + 4 && Fits(m, 0, a, b, |m| - a - b - 2)
  }

  ghost predicate DateText(m: string)
  {
    exists a, b :: Groups(m, a, b)
  }

  /** The match at `p` is date text. */
  lemma FitIsDate(s: string, p: nat, a: nat, b: nat, c: nat)
    requires 1 <= a <= 2 && 1 <= b <= 2 && 1 <= c <= 2 && Fits(s, p, a, b, c)
    ensures DateText(s[p..p + a + b + c + 2])
  {
    var m := s[p..p + a + b + c + 2];
    assert forall i :: 0 <= i < |m| ==> m[i] == s[p + i];
    assert Groups(m, a, b);
  }

  /** `m` stands in `s` at `q`, right after a `-` or a `_`. */
  predicate MarkedAt(s: string, q: nat, m: string)
  {
    0 < q && q + |m| <= |s| && s[q..q + |m|] == m && (s[q - 1] == '-' || s[q - 1] == '_')
  }

  /** Every match is the match found at some position `q`. */
  lemma {:induction false} ScanAt(s: string, ms: seq<Option<(nat, nat, nat)>>, p: nat, m: string) returns (q: nat)
    requires |ms| == |s|
    requires forall i :: 0 <= i < |s| && ms[i].Some? ==> i + Span(ms[i].value) <= |s|
    requires m in Scan(s, ms, p)
    ensures q < |s| && ms[q].Some? && m == s[q..q + Span(ms[q].value)]
    decreases |s| - p
  {
    if p >= |s| {
      assert false;
    } else if ms[p].Some? {
      if m == s[p..p + Span(ms[p].value)] {
        q := p;
      } else {
        q := ScanAt(s, ms, p + Span(ms[p].value), m);
      }
    } else {
      q := ScanAt(s, ms, p + 1, m);
    }
  }

  /** Every match is date text that stands in `s` right after a `-` or a
      `_`. */
  lemma FoundDates(s: string, m: string)
    requires m in FindAll(s)
    ensures DateText(m)
    ensures exists q :: MarkedAt(s, q, m)
  {
    var ms := Matches(s, |s|);
    var q := ScanAt(s, ms, 0, m);
    MatchedIsDate(s, ms, q);
  }

  /** The text of a match found at `q` is date text right after a mark. */
  lemma MatchedIsDate(s: string, ms: seq<Option<(nat, nat, nat)>>, q: nat)
    requires q < |ms| == |s| && ms[q].Some? && Matched(s, q, ms[q].value)
    ensures var m := s[q..q + Span(ms[q].value)];
            DateText(m) && MarkedAt(s, q, m)
  {
    var g := ms[q].value;
    FitIsDate(s, q, g.0, g.1, g.2);
    var m := s[q..q + Span(g)];
    assert |m| == Span(g) && s[q..q + |m|] == m;
  }

  /** Without a `-` or a `_` there is no date. */
  lemma NoMarkNoDate(s: string)
    requires forall i :: 0 <= i < |s| ==> s[i] != '-' && s[i] != '_'
    ensures FindAll(s) == []
  {
    var ms := Matches(s, |s|);
    forall i | 0 <= i < |s|
      ensures ms[i] == None
    {
      MatchesAt(s, |s|, i);
    }
    ScanNone(s, ms, 0);
  }

  lemma {:induction false} ScanNone(s: string, ms: seq<Option<(nat, nat, nat)>>, p: nat)
    requires |ms| == |s| && forall i :: 0 <= i < |s| ==> ms[i] == None
    ensures Scan(s, ms, p) == []
    decreases |s| - p
  {
    if p < |s| {
      ScanNone(s, ms, p + 1);
    }
  }

  /** `{match.replace("_", "-") for match in re.findall(datePattern, allFiles)}`. */
  function DatesInData(allFiles: string): set<string>
  {
    set m | m in FindAll(allFiles) :: Replace(m, "_", "-")
  }

  /** Every date found is date text with no `_` left in it. */
  lemma DatesAreDashed(allFiles: string, d: string)
    requires d in DatesInData(allFiles)
    ensures DateText(d) && '_' !in d
  {
    var m :| m in FindAll(allFiles) && d == Replace(m, "_", "-");
    FoundDates(allFiles, m);
    ReplaceChar(m, '_', '-');
    var a, b :| Groups(m, a, b);
    DashedGroups(m, d, a, b);
  }

  /** Turning `_` into `-` keeps the digit groups and their separators'
      shape. */
  lemma DashedGroups(m: string, d: string, a: nat, b: nat)
    requires Groups(m, a, b)
    requires |d| == |m| && forall i :: 0 <= i < |m| ==> d[i] == if m[i] == '_' then '-' else m[i]
    ensures Groups(d, a, b) && '_' !in d
  {
  }

  /** The pattern at the first three positions of the example name: the
      greedy groups `12`, then `3` after the two-digit try fails, then `45`. */
  lemma FileNameMatches(s: string)
    requires s == "x_12_3_45"
    ensures MatchAt(s, 0) == None && MatchAt(s, 1) == None && MatchAt(s, 2) == Some((2, 1, 2))
  {
    assert !DigitsAt(s, 5, 2) by { assert !IsDigit(s[6]); }
    assert FirstFit(s, 2, 0) == FirstFit(s, 2, 2);
    assert Fits(s, 2, 2, 1, 2);
  }

  /** A concrete file name: the date after the `_` is found, and the
      `_`s inside it start no second match. */
  lemma OneFileName(s: string)
    requires s == "x_12_3_45"
    ensures FindAll(s) == ["12_3_45"]
  {
    var ms := Matches(s, |s|);
    FileNameMatches(s);
    MatchesAt(s, |s|, 0);
    MatchesAt(s, |s|, 1);
    MatchesAt(s, |s|, 2);
    assert ms[0] == None && ms[1] == None && ms[2] == Some((2, 1, 2));
    assert s[2..9] == "12_3_45";
    assert Scan(s, ms, 9) == [];
    assert Scan(s, ms, 2) == ["12_3_45"];
    assert Scan(s, ms, 0) == Scan(s, ms, 1) == Scan(s, ms, 2);
  }

  /* ---------------------------------------------------------------- */
  /* main: the missing dates and the Days update                       */
  /* ---------------------------------------------------------------- */

  /** `[d for d in datesInData if d not in datesInYaml]`, walking the set in
      the order `dates` gives. */
  function Missing(dates: seq<string>, days: Dict<string, DayEntry>): (missing: seq<string>)
    ensures forall d :: d in missing <==> d in dates && !HasKey(days, d)
  {
    if dates == [] then []
    else
      var init := Missing(dates[..|dates| - 1], days);
      var d := dates[|dates| - 1];
      assert forall x :: x in dates <==> x in dates[..|dates| - 1] || x == d;
      init + (if HasKey(days, d) then [] else [d])
  }

  /** `Days` after `.update(genSampleObj(date))` for every date of `missing`. */
  function AddDays(days: Dict<string, DayEntry>, missing: seq<string>): Dict<string, DayEntry>
  {
    if missing == [] then days
    else
      var d := missing[|missing| - 1];
      Put(AddDays(days, missing[..|missing| - 1]), d, GenSampleObj(d)[0].1)
  }

  /** No string occurs twice in `s`, as in a walk over a set. */
  predicate Distinct(s: seq<string>)
  {
    forall i, j :: 0 <= i < j < |s| ==> s[i] != s[j]
  }

  /** The generator's result: the new `Days` and whether the parameter
      file is rewritten. */
  function NewDays(days: Dict<string, DayEntry>, dates: seq<string>): (Dict<string, DayEntry>, bool)
  {
    var missing := Missing(dates, days);
    (AddDays(days, missing), missing != [])
  }

  /** `main` of the generator. `dates` is the set of dates found, in the
      order the interpreter walks it; the files it came from are read
      outside this model. */
  method GenNewYaml(days: Dict<string, DayEntry>, allFiles: string, dates: seq<string>)
    returns (newDays: Dict<string, DayEntry>, rewrite: bool)
    requires Distinct(dates)
    requires forall d :: d in dates <==> d in DatesInData(allFiles)
    ensures (newDays, rewrite) == NewDays(days, dates)
  {
    var missingDates: seq<string> := [];
    for i := 0 to |dates|
      invariant missingDates == Missing(dates[..i], days)
    {
      assert dates[..i + 1][..i] == dates[..i];
      if !HasKey(days, dates[i]) {
        missingDates := missingDates + [dates[i]];
      }
    }
    assert dates[..|dates|] == dates;
    newDays := days;
    rewrite := false;
    if missingDates != [] {
      for k := 0 to |missingDates|
        invariant newDays == AddDays(days, missingDates[..k])
      {
        assert missingDates[..k + 1][..k] == missingDates[..k];
        var obj := GenSampleObj(missingDates[k]);
        newDays := Put(newDays, obj[0].0, obj[0].1);
      }
      assert missingDates[..|missingDates|] == missingDates;
      rewrite := true;
    }
  }

  /** Adding the missing days keeps every entry that was there, and each
      added date gets the sample entry. */
  lemma {:induction false} AddDaysGet(days: Dict<string, DayEntry>, missing: seq<string>, k: string)
    ensures Get(AddDays(days, missing), k) ==
      if k in missing then Some(GenSampleObj(k)[0].1) else Get(days, k)
  {
    if missing != [] {
      var init := missing[..|missing| - 1];
      var d := missing[|missing| - 1];
      AddDaysGet(days, init, k);
      PutGet(AddDays(days, init), d, GenSampleObj(d)[0].1);
      assert k in missing <==> k in init || k == d;
    }
  }

  /** The keys of `Days` after the update are the old keys followed by the
      missing dates, in order. */
  lemma {:induction false} AddDaysKeys(days: Dict<string, DayEntry>, missing: seq<string>)
    requires Distinct(missing)
    requires forall d :: d in missing ==> !HasKey(days, d)
    ensures Keys(AddDays(days, missing)) == Keys(days) + missing
  {
    if missing != [] {
      var init := missing[..|missing| - 1];
      var d := missing[|missing| - 1];
      AddDaysKeys(days, init);
      var before := AddDays(days, init);
      AddDaysGet(days, init, d);
      PutKeys(before, d, GenSampleObj(d)[0].1);
      HasKeyIsInKeys(before, d);
      assert missing == init + [d];
    }
  }

  /** What the generator promises: the new keys are the old keys followed
      by the missing dates; a key is present exactly when it was before or
      was found; old entries are unchanged, new ones are sample entries;
      and the file is rewritten exactly when some found date was missing. */
  lemma NewDaysMeans(days: Dict<string, DayEntry>, allFiles: string, dates: seq<string>, k: string)
    requires Distinct(dates)
    requires forall d :: d in dates <==> d in DatesInData(allFiles)
    ensures var newDays := NewDays(days, dates).0;
      && Keys(newDays) == Keys(days) + Missing(dates, days)
      && (HasKey(newDays, k) <==> HasKey(days, k) || k in DatesInData(allFiles))
      && (HasKey(days, k) ==> Get(newDays, k) == Get(days, k))
      && (!HasKey(days, k) && k in DatesInData(allFiles) ==> Get(newDays, k) == Some(GenSampleObj(k)[0].1))
      && (NewDays(days, dates).1 <==> exists d :: d in DatesInData(allFiles) && !HasKey(days, d))
  {
    var missing := Missing(dates, days);
    MissingDistinct(dates, days);
    AddDaysKeys(days, missing);
    AddDaysGet(days, missing, k);
    if missing != [] {
      assert missing[0] in missing;
    }
  }

  /** The missing dates are as distinct as the dates walked. */
  lemma {:induction false} MissingDistinct(dates: seq<string>, days: Dict<string, DayEntry>)
    requires Distinct(dates)
    ensures Distinct(Missing(dates, days))
  {
    if dates != [] {
      var init := dates[..|dates| - 1];
      MissingDistinct(init, days);
      var d := dates[|dates| - 1];
      var before := Missing(init, days);
      assert Distinct(before);
      assert d !in init;
      assert d !in before;
      assert Missing(dates, days) == before + (if HasKey(days, d) then [] else [d]);
      if !HasKey(days, d) {
        var missing := before + [d];
        assert Missing(dates, days) == missing;
        forall i, j | 0 <= i < j < |missing|
          ensures missing[i] != missing[j]
        {
          if j == |before| {
            assert missing[i] == before[i] && before[i] in before && missing[j] == d;
          } else {
            assert missing[i] == before[i] && missing[j] == before[j] && before[i] != before[j];
          }
        }
      }
    }
  }

  /** Nothing is missing when every date walked is already a key. */
  lemma {:induction false} MissingNone(dates: seq<string>, days: Dict<string, DayEntry>)
    requires forall d :: d in dates ==> HasKey(days, d)
    ensures Missing(dates, days) == []
  {
    if dates != [] {
      MissingNone(dates[..|dates| - 1], days);
      assert dates[|dates| - 1] in dates;
    }
  }

  /** Running the generator again right away finds nothing missing and
      does not rewrite the file. */
  lemma GenerateTwice(days: Dict<string, DayEntry>, dates: seq<string>)
    ensures var once := NewDays(days, dates).0;
      NewDays(once, dates) == (once, false)
  {
    var missing := Missing(dates, days);
    var once := AddDays(days, missing);
    forall d | d in dates
      ensures HasKey(once, d)
    {
      AddDaysGet(days, missing, d);
    }
    MissingNone(dates, once);
  }
}
