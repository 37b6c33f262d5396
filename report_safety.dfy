/** Day 2: a report is a line of levels; it is safe when the levels move in
    one direction by steps of one to three, and the dampener lets one level
    be removed to make it so. The answer is the number of lines whose
    report passes the dampened check, or the first error met. */
module ReportSafety {
  import opened Results
  import opened InputLines
  import opened Sequences

  /** The program's error type: reading a line failed, or a word of it is
      not an integer. */
  datatype Error = IoError | NotParseableAsNumber

  /** `parse_into_numbers`: every word of a readable line as an integer; an
      unreadable line passes its I/O error on. */
  function ParseIntoNumbers(line: Line): (r: Result<seq<int>, Error>)
    ensures line.Unreadable? ==> r == Err(IoError)
    ensures line.Line? && !AllInts(line.words) ==> r == Err(NotParseableAsNumber)
    ensures line.Line? && AllInts(line.words) ==>
              r.Ok? && |r.value| == |line.words| &&
              forall i | 0 <= i < |line.words| :: line.words[i] == Int(r.value[i])
  {
    match line
    case Unreadable => Err(IoError)
    case Line(words) => if AllInts(words) then Ok(Values(words)) else Err(NotParseableAsNumber)
  }

  function Abs(n: int): nat {
    if n < 0 then -n else n
  }

  /** A step of one to three levels, in either direction. */
  predicate InRange(diff: int) {
    1 <= Abs(diff) <= 3
  }

  /** The difference `w[0] - w[1]` of the window of two levels at `i`. */
  function Step(report: seq<int>, i: nat): int
    requires i + 1 < |report|
  {
    report[i] - report[i + 1]
  }

  /** The differences over the windows of two adjacent levels, in order. */
  function Differences(report: seq<int>): (r: seq<int>)
    ensures |r| == if |report| < 2 then 0 else |report| - 1
    ensures forall i | 0 <= i < |r| :: r[i] == Step(report, i)
  {
    if |report| < 2 then []
    else
      var rest := Differences(report[1..]);
      assert forall i | 0 <= i < |rest| :: Step(report[1..], i) == Step(report, i + 1);
      [Step(report, 0)] + rest
  }

  /** The fold of `report_is_safe`: the set of differences seen, and
      whether every one of them was in range. */
  function FoldDifferences(diffs: seq<int>): (r: (set<int>, bool))
    ensures forall d :: d in r.0 <==> exists i | 0 <= i < |diffs| :: diffs[i] == d
    ensures r.1 <==> forall i | 0 <= i < |diffs| :: InRange(diffs[i])
  {
    if diffs == [] then ({}, true)
    else
      var (allDiffs, allValid) := FoldDifferences(diffs[..|diffs| - 1]);
      var d := diffs[|diffs| - 1];
      assert forall i | 0 <= i < |diffs| - 1 :: diffs[..|diffs| - 1][i] == diffs[i];
      (allDiffs + {d}, allValid && InRange(d))
  }

  predicate AllPositive(diffs: set<int>) {
    forall d | d in diffs :: d > 0
  }

  predicate AllNegative(diffs: set<int>) {
    forall d | d in diffs :: d < 0
  }

  /** `report_is_safe`: all differences have one sign and all are in range. */
  function ReportIsSafe(report: seq<int>): (r: bool)
    ensures |report| < 2 ==> r
    ensures r ==> Gradual(report)
  {
    var (allDiffs, allValid) := FoldDifferences(Differences(report));
    var allIncreasing := AllPositive(allDiffs);
    var allDecreasing := AllNegative(allDiffs);
    (allIncreasing || allDecreasing) && allValid
  }

  /** The levels strictly fall from each to the next. */
  predicate Falling(report: seq<int>) {
    forall i | 0 <= i < |report| - 1 :: Step(report, i) > 0
  }

  /** The levels strictly rise from each to the next. */
  predicate Rising(report: seq<int>) {
    forall i | 0 <= i < |report| - 1 :: Step(report, i) < 0
  }

  /** Every adjacent step is between one and three. */
  predicate Gradual(report: seq<int>) {
    forall i | 0 <= i < |report| - 1 :: InRange(Step(report, i))
  }

  /** Safety stated on the levels themselves: strictly falling or strictly
      rising, with every adjacent step between one and three. */
  predicate Safe(report: seq<int>) {
    (Falling(report) || Rising(report)) && Gradual(report)
  }

  /** Every difference seen is positive exactly when the levels fall. */
  lemma PositiveDifferences(report: seq<int>)
    ensures AllPositive(FoldDifferences(Differences(report)).0) <==> Falling(report)
  {
    var diffs := Differences(report);
    var allDiffs := FoldDifferences(diffs).0;
    assert forall i | 0 <= i < |diffs| :: diffs[i] in allDiffs;
    if Falling(report) {
      forall d | d in allDiffs
        ensures d > 0
      {
        var i :| 0 <= i < |diffs| && diffs[i] == d;
      }
    }
    if AllPositive(allDiffs) {
      forall i | 0 <= i < |report| - 1
        ensures Step(report, i) > 0
      {
        assert diffs[i] in allDiffs;
      }
    }
  }

  /** Every difference seen is negative exactly when the levels rise. */
  lemma NegativeDifferences(report: seq<int>)
    ensures AllNegative(FoldDifferences(Differences(report)).0) <==> Rising(report)
  {
    var diffs := Differences(report);
    var allDiffs := FoldDifferences(diffs).0;
    assert forall i | 0 <= i < |diffs| :: diffs[i] in allDiffs;
    if Rising(report) {
      forall d | d in allDiffs
        ensures d < 0
      {
        var i :| 0 <= i < |diffs| && diffs[i] == d;
      }
    }
    if AllNegative(allDiffs) {
      forall i | 0 <= i < |report| - 1
        ensures Step(report, i) < 0
      {
        assert diffs[i] in allDiffs;
      }
    }
  }

  /** What `report_is_safe` computes is exactly safety of the levels. */
  lemma ReportIsSafeMeaning(report: seq<int>)
    ensures ReportIsSafe(report) <==> Safe(report)
  {
    PositiveDifferences(report);
    NegativeDifferences(report);
  }

  /** With fewer than two levels there are no windows, so the report is safe. */
  lemma ShortReportIsSafe(report: seq<int>)
    requires |report| < 2
    ensures ReportIsSafe(report)
  {
    ReportIsSafeMeaning(report);
  }

  /** Backwards, the window at `i` is the window at the mirrored index
      with its two levels swapped. */
  lemma ReversedStep(report: seq<int>, i: nat)
    requires i + 1 < |report|
    ensures var n := |report|;
            Step(Reversed(report), i) == -Step(report, n - 2 - i)
  {
  }

  /** Backwards, falling levels rise. */
  lemma ReversedFalling(report: seq<int>)
    requires Falling(report)
    ensures Rising(Reversed(report))
  {
    var r, n := Reversed(report), |report|;
    forall i | 0 <= i < n - 1
      ensures Step(r, i) < 0
    {
      ReversedStep(report, i);
    }
  }

  /** Backwards, rising levels fall. */
  lemma ReversedRising(report: seq<int>)
    requires Rising(report)
    ensures Falling(Reversed(report))
  {
    var r, n := Reversed(report), |report|;
    forall i | 0 <= i < n - 1
      ensures Step(r, i) > 0
    {
      ReversedStep(report, i);
    }
  }

  /** Backwards, every step has the same size. */
  lemma ReversedGradual(report: seq<int>)
    requires Gradual(report)
    ensures Gradual(Reversed(report))
  {
    var r, n := Reversed(report), |report|;
    forall i | 0 <= i < n - 1
      ensures InRange(Step(r, i))
    {
      ReversedStep(report, i);
    }
  }

  lemma ReversedSafe(report: seq<int>)
    requires Safe(report)
    ensures Safe(Reversed(report))
  {
    ReversedGradual(report);
    if Falling(report) {
      ReversedFalling(report);
    } else {
      ReversedRising(report);
    }
  }

  /** Reading a report backwards only flips the sign of every difference,
      so it is safe exactly when the report is. */
  lemma ReversedIsSafe(report: seq<int>)
    ensures ReportIsSafe(Reversed(report)) <==> ReportIsSafe(report)
  {
    ReportIsSafeMeaning(report);
    ReportIsSafeMeaning(Reversed(report));
    if Safe(report) {
      ReversedSafe(report);
    }
    if Safe(Reversed(report)) {
      ReversedSafe(Reversed(report));
      ReversedTwice(report);
    }
  }

  /** The report with the level at index `i` removed, as built from
      `split_at(i)`. */
  function OneDropped(report: seq<int>, i: nat): (r: seq<int>)
    requires i < |report|
    ensures |r| == |report| - 1
    ensures forall j | 0 <= j < |r| :: r[j] == if j < i then report[j] else report[j + 1]
  {
    report[..i] + report[i + 1..]
  }

  /** Removing some one level leaves a safe report. */
  predicate DampenedSafe(report: seq<int>) {
    exists i | 0 <= i < |report| :: ReportIsSafe(OneDropped(report, i))
  }

  /** Removing some level at index `i` or later leaves a safe report. */
  function DampenedFrom(report: seq<int>, i: nat): bool
    decreases |report| - i
  {
    i < |report| && (ReportIsSafe(OneDropped(report, i)) || DampenedFrom(report, i + 1))
  }

  /** Trying the indices from `i` on finds a safe removal exactly when one
      exists there. */
  lemma {:induction false} DampenedFromMeaning(report: seq<int>, i: nat)
    ensures DampenedFrom(report, i) <==>
            exists j | i <= j < |report| :: ReportIsSafe(OneDropped(report, j))
    decreases |report| - i
  {
    if i < |report| {
      DampenedFromMeaning(report, i + 1);
      if !ReportIsSafe(OneDropped(report, i)) {
        forall j | i <= j < |report| && ReportIsSafe(OneDropped(report, j))
          ensures i + 1 <= j
        {
        }
      }
    }
  }

  /** `determine_if_removing_any_one_element_makes_report_safe`: an error
      passes through; otherwise try each index in turn and stop at the
      first whose removal leaves a safe report. */
  method DetermineIfDampenedSafe(maybeReport: Result<seq<int>, Error>) returns (r: Result<bool, Error>)
    ensures maybeReport.Err? ==> r == Err(maybeReport.error)
    ensures maybeReport.Ok? ==> r.Ok? && (r.value <==> DampenedSafe(maybeReport.value))
  {
    if maybeReport.Err? {
      return Err(maybeReport.error);
    }
    var report := maybeReport.value;
    DampenedFromMeaning(report, 0);
    for i := 0 to |report|
      invariant DampenedFrom(report, i) == DampenedSafe(report)
    {
      var oneDropped := OneDropped(report, i);
      if ReportIsSafe(oneDropped) {
        return Ok(true);
      }
    }
    return Ok(false);
  }

  /** An empty report has no level to remove, so it fails the dampened check. */
  lemma EmptyIsNotDampenedSafe()
    ensures !DampenedSafe([])
  {
  }

  /** The levels after the first of a safe report are still safe. */
  lemma SafeTail(report: seq<int>)
    requires |report| > 0 && Safe(report)
    ensures Safe(report[1..])
  {
    var t := report[1..];
    assert forall i | 0 <= i < |t| - 1 :: Step(t, i) == Step(report, i + 1);
  }

  /** A non-empty safe report passes the dampened check: removing its first
      level keeps it safe. */
  lemma SafeIsDampenedSafe(report: seq<int>)
    requires |report| > 0 && ReportIsSafe(report)
    ensures DampenedSafe(report)
  {
    ReportIsSafeMeaning(report);
    SafeTail(report);
    assert OneDropped(report, 0) == report[1..];
    ReportIsSafeMeaning(report[1..]);
  }

  /** The dampener accepts reports that are not safe: in a b c where the
      first step is too large and the second is a small rise, removing a
      leaves b c, which is safe. */
  lemma DampenerRescuesExample(a: int, b: int, c: int)
    requires b - a > 3 && 1 <= c - b <= 3
    ensures !ReportIsSafe([a, b, c]) && DampenedSafe([a, b, c])
  {
    var report := [a, b, c];
    ReportIsSafeMeaning(report);
    assert !Gradual(report) by {
      assert !InRange(Step(report, 0));
    }
    SmallRiseIsSafe(b, c);
    assert OneDropped(report, 0) == [b, c];
  }

  lemma SmallRiseIsSafe(b: int, c: int)
    requires 1 <= c - b <= 3
    ensures ReportIsSafe([b, c])
  {
    ReportIsSafeMeaning([b, c]);
    assert Rising([b, c]) && Gradual([b, c]);
  }

  /** `sum_safe_reports`: one more for a safe report, the same for an unsafe
      one, and an error passed on. */
  function SumSafeReports(accum: int, nextItem: Result<bool, Error>): (r: Result<int, Error>)
    ensures nextItem.Err? ==> r == Err(nextItem.error)
    ensures nextItem.Ok? ==> r.Ok? && r.value - accum == if nextItem.value then 1 else 0
  {
    match nextItem
    case Ok(isSafe) => Ok(if isSafe then accum + 1 else accum + 0)
    case Err(e) => Err(e)
  }

  /** Every line parses. */
  predicate AllParse(lines: seq<Line>) {
    forall i | 0 <= i < |lines| :: ParseIntoNumbers(lines[i]).Ok?
  }

  /** The number of lines, all of which parse, whose report passes the
      dampened check. */
  function DampenedSafeCount(lines: seq<Line>): (r: nat)
    requires AllParse(lines)
    ensures r <= |lines|
  {
    if lines == [] then 0
    else
      var last := ParseIntoNumbers(lines[|lines| - 1]).value;
      DampenedSafeCount(lines[..|lines| - 1]) + if DampenedSafe(last) then 1 else 0
  }

  /** `find_num_safe_reports` on lines already read: parse each line, run
      the dampened check, and add it up, stopping at the first error. */
  method FindNumSafeReports(lines: seq<Line>) returns (r: Result<int, Error>)
    ensures AllParse(lines) ==> r == Ok(DampenedSafeCount(lines))
    ensures !AllParse(lines) ==>
              r.Err? && exists k | 0 <= k < |lines| ::
                ParseIntoNumbers(lines[k]) == Err(r.error) && AllParse(lines[..k])
  {
    var numSafe := 0;
    for i := 0 to |lines|
      invariant AllParse(lines[..i]) && numSafe == DampenedSafeCount(lines[..i])
    {
      var report := ParseIntoNumbers(lines[i]);
      var isSafe := DetermineIfDampenedSafe(report);
      var next := SumSafeReports(numSafe, isSafe);
      if next.Err? {
        assert lines[..i + 1][..i] == lines[..i];
        return next;
      }
      assert lines[..i + 1][..i] == lines[..i];
      numSafe := next.value;
    }
    assert lines[..|lines|] == lines;
    return Ok(numSafe);
  }
}
