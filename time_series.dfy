/** Expanding transaction patterns into a time series of dated points: a
    recurring pattern yields one point per whole frequency period between its
    start and end dates, any other pattern yields its own single point. */
module TimeSeries {
  import opened GoArith
  import opened Wrappers

  datatype RecurrencePattern = RecurrencePattern(
    endDate: string,
    frequencyHours: int,
    frequencyType: string,
    isTimeBound: bool,
    startDate: string)

  datatype TransactionPattern = TransactionPattern(
    amount: int,
    categoryId: string,
    date: string,
    description: string,
    id: string,
    isRecurring: bool,
    recurrencePattern: RecurrencePattern,
    title: string,
    kind: string)

  datatype Point = Point(date: string, amount: int)

  /** Date handling, left uninterpreted: `parse` is `time.Parse` with layout
      "2006-01-02" as whole hours since an epoch (a failed parse yields
      whatever instant `parse` gives, Go's zero time), and `format` is
      `Format("2006-01-02")`. */
  datatype Calendar = Calendar(parse: string -> int, format: int -> string)

  /** The run-time panics of the generator: an integer division by a zero
      frequency, and `make` with a negative capacity. */
  datatype Panic = DivideByZero | NegativeCapacity

  datatype Generation = Generated(points: seq<Point>) | Panicked(reason: Panic)

  /** The pattern's period count can be computed: non-recurring, or a
      non-zero frequency. */
  predicate Divisible(tp: TransactionPattern)
  {
    !tp.isRecurring || tp.recurrencePattern.frequencyHours != 0
  }

  predicate NoZeroFrequency(tps: seq<TransactionPattern>)
  {
    forall i :: 0 <= i < |tps| ==> Divisible(tps[i])
  }

  function StartOf(tp: TransactionPattern, cal: Calendar): int
  {
    cal.parse(tp.recurrencePattern.startDate)
  }

  function EndOf(tp: TransactionPattern, cal: Calendar): int
  {
    cal.parse(tp.recurrencePattern.endDate)
  }

  /** What the first pass adds for one pattern: the whole periods in the
      recurring range, truncated toward zero (and negative when the range and
      the frequency have opposite signs), or 1. */
  function PointCount(tp: TransactionPattern, cal: Calendar): int
    requires Divisible(tp)
  {
    if tp.isRecurring then TruncDiv(EndOf(tp, cal) - StartOf(tp, cal), tp.recurrencePattern.frequencyHours)
    else 1
  }

  /** The first pass: `totalPoints`, the capacity handed to `make`. */
  function FirstPassTotal(tps: seq<TransactionPattern>, cal: Calendar): int
    requires NoZeroFrequency(tps)
  {
    if tps == [] then 0
    else FirstPassTotal(tps[..|tps| - 1], cal) + PointCount(tps[|tps| - 1], cal)
  }

  /** The instants of a recurring pattern's points: start, start+f, start+2f,
      ... one per counted period; none when the count is not positive. */
  function Instants(tp: TransactionPattern, cal: Calendar): (r: seq<int>)
    requires tp.isRecurring && Divisible(tp)
  {
    var n := PointCount(tp, cal);
    var f := tp.recurrencePattern.frequencyHours;
    seq(if n < 0 then 0 else n, k => StartOf(tp, cal) + k * f)
  }

  /** The points one pattern contributes. */
  function PatternPoints(tp: TransactionPattern, cal: Calendar): (r: seq<Point>)
    requires Divisible(tp)
    ensures forall k :: 0 <= k < |r| ==> r[k].amount == tp.amount
    ensures tp.isRecurring ==> (|r| == |Instants(tp, cal)| &&
      forall k :: 0 <= k < |r| ==> r[k].date == cal.format(Instants(tp, cal)[k]))
    ensures !tp.isRecurring ==> r == [Point(tp.date, tp.amount)]
  {
    if tp.isRecurring then
      var inst := Instants(tp, cal);
      seq(|inst|, k requires 0 <= k < |inst| => Point(cal.format(inst[k]), tp.amount))
    else [Point(tp.date, tp.amount)]
  }

  /** The generated series: the per-pattern point lists in input order. */
  function Expected(tps: seq<TransactionPattern>, cal: Calendar): seq<Point>
    requires NoZeroFrequency(tps)
  {
    if tps == [] then []
    else Expected(tps[..|tps| - 1], cal) + PatternPoints(tps[|tps| - 1], cal)
  }

  /** The first pass.  It stops with a division-by-zero panic at the first
      recurring pattern whose frequency is zero. */
  method CountPoints(tps: seq<TransactionPattern>, cal: Calendar) returns (total: Result<int, Panic>)
    ensures total.Failure? <==> !NoZeroFrequency(tps)
    ensures total.Failure? ==> total.error == DivideByZero
    ensures total.Success? ==> NoZeroFrequency(tps) && total.value == FirstPassTotal(tps, cal)
  {
    var totalPoints := 0;
    var i := 0;
    while i < |tps|
      invariant 0 <= i <= |tps|
      invariant NoZeroFrequency(tps[..i])
      invariant totalPoints == FirstPassTotal(tps[..i], cal)
    {
      var tp := tps[i];
      assert tps[..i + 1][..i] == tps[..i];
      if tp.isRecurring {
        var startDate := cal.parse(tp.recurrencePattern.startDate);
        var endDate := cal.parse(tp.recurrencePattern.endDate);
        var duration := endDate - startDate;
        var frequency := tp.recurrencePattern.frequencyHours;
        if frequency == 0 {
          assert !Divisible(tps[i]);
          return Failure(DivideByZero);
        }
        var points := TruncDiv(duration, frequency);
        totalPoints := totalPoints + points;
      } else {
        totalPoints := totalPoints + 1;
      }
      i := i + 1;
    }
    assert tps[..i] == tps;
    return Success(totalPoints);
  }

  /** The second pass: append each pattern's points, advancing the current
      date by the frequency. */
  method EmitPoints(tps: seq<TransactionPattern>, cal: Calendar) returns (points: seq<Point>)
    requires NoZeroFrequency(tps)
    ensures points == Expected(tps, cal)
  {
    points := [];
    for i := 0 to |tps|
      invariant points == Expected(tps[..i], cal)
    {
      var tp := tps[i];
      assert tps[..i + 1][..i] == tps[..i];
      assert Divisible(tp);
      if tp.isRecurring {
        points := EmitRecurring(tp, cal, points);
      } else {
        points := points + [Point(tp.date, tp.amount)];
      }
    }
    assert tps[..|tps|] == tps;
  }

  /** The inner loop for one recurring pattern: one point per counted period,
      dated start, start+f, start+2f, ... */
  method EmitRecurring(tp: TransactionPattern, cal: Calendar, acc: seq<Point>) returns (points: seq<Point>)
    requires tp.isRecurring && Divisible(tp)
    ensures points == acc + PatternPoints(tp, cal)
  {
    var startDate := cal.parse(tp.recurrencePattern.startDate);
    var endDate := cal.parse(tp.recurrencePattern.endDate);
    var frequency := tp.recurrencePattern.frequencyHours;
    var n := TruncDiv(endDate - startDate, frequency);
    ghost var pattern := PatternPoints(tp, cal);
    points := acc;
    var current := startDate;
    var k := 0;
    while k < n
      invariant 0 <= k && (k == 0 || k <= n)
      invariant current == startDate + k * frequency
      invariant points == acc + pattern[..k]
    {
      assert pattern[k] == Point(cal.format(current), tp.amount);
      assert pattern[..k + 1] == pattern[..k] + [pattern[k]];
      points := points + [Point(cal.format(current), tp.amount)];
      current := current + frequency;
      assert (k + 1) * frequency == k * frequency + frequency;
      k := k + 1;
    }
    assert pattern[..k] == pattern;
  }

  /** generateTimeSeriesPoints as written: a zero frequency panics, and so
      does a negative first-pass total, because it is the capacity given to
      `make`. */
  method GenerateTimeSeriesPoints(tps: seq<TransactionPattern>, cal: Calendar) returns (out: Generation)
    ensures !NoZeroFrequency(tps) ==> out == Panicked(DivideByZero)
    ensures NoZeroFrequency(tps) && FirstPassTotal(tps, cal) < 0 ==> out == Panicked(NegativeCapacity)
    ensures NoZeroFrequency(tps) && FirstPassTotal(tps, cal) >= 0 ==> out == Generated(Expected(tps, cal))
  {
    var total := CountPoints(tps, cal);
    if total.Failure? {
      return Panicked(total.error);
    }
    if total.value < 0 {
      return Panicked(NegativeCapacity);
    }
    var points := EmitPoints(tps, cal);
    out := Generated(points);
  }

  /** The capacity the first pass evidently means: each pattern's point count,
      with a negative count taken as no points. */
  function ClampedTotal(tps: seq<TransactionPattern>, cal: Calendar): int
    requires NoZeroFrequency(tps)
  {
    if tps == [] then 0
    else
      var n := PointCount(tps[|tps| - 1], cal);
      ClampedTotal(tps[..|tps| - 1], cal) + (if n < 0 then 0 else n)
  }

  /** The first pass with each pattern's count clamped at zero. */
  method CountPointsClamped(tps: seq<TransactionPattern>, cal: Calendar) returns (total: Result<int, Panic>)
    ensures total.Failure? <==> !NoZeroFrequency(tps)
    ensures total.Failure? ==> total.error == DivideByZero
    ensures total.Success? ==> NoZeroFrequency(tps) && total.value == |Expected(tps, cal)|
  {
    var totalPoints := 0;
    var i := 0;
    while i < |tps|
      invariant 0 <= i <= |tps|
      invariant NoZeroFrequency(tps[..i])
      invariant totalPoints == ClampedTotal(tps[..i], cal)
    {
      var tp := tps[i];
      assert tps[..i + 1][..i] == tps[..i];
      if tp.isRecurring {
        var duration := cal.parse(tp.recurrencePattern.endDate) - cal.parse(tp.recurrencePattern.startDate);
        var frequency := tp.recurrencePattern.frequencyHours;
        if frequency == 0 {
          assert !Divisible(tps[i]);
          return Failure(DivideByZero);
        }
        var points := TruncDiv(duration, frequency);
        if points > 0 {
          totalPoints := totalPoints + points;
        }
      } else {
        totalPoints := totalPoints + 1;
      }
      i := i + 1;
    }
    assert tps[..i] == tps;
    ClampedTotalIsLength(tps, cal);
    return Success(totalPoints);
  }

  /** generateTimeSeriesPoints with the clamped first pass: only a zero
      frequency panics, and the capacity is exactly the number of points. */
  method GenerateTimeSeriesPointsClamped(tps: seq<TransactionPattern>, cal: Calendar) returns (out: Generation)
    ensures out.Panicked? <==> !NoZeroFrequency(tps)
    ensures out.Panicked? ==> out.reason == DivideByZero
    ensures NoZeroFrequency(tps) ==> out == Generated(Expected(tps, cal))
  {
    var total := CountPointsClamped(tps, cal);
    if total.Failure? {
      return Panicked(total.error);
    }
    var points := EmitPoints(tps, cal);
    out := Generated(points);
  }

  // ---------------------------------------------------------------------
  // Properties

  /** The series of a concatenation is the concatenation of the series. */
  lemma {:induction false} ExpectedConcat(a: seq<TransactionPattern>, b: seq<TransactionPattern>, cal: Calendar)
    requires NoZeroFrequency(a) && NoZeroFrequency(b)
    ensures NoZeroFrequency(a + b)
    ensures Expected(a + b, cal) == Expected(a, cal) + Expected(b, cal)
    decreases |b|
  {
    assert forall i :: 0 <= i < |a + b| ==> Divisible((a + b)[i]) by {
      forall i | 0 <= i < |a + b| ensures Divisible((a + b)[i]) {
        if i >= |a| { assert (a + b)[i] == b[i - |a|]; }
      }
    }
    if b == [] {
      assert a + b == a;
    } else {
      var init := b[..|b| - 1];
      assert (a + b)[..|a + b| - 1] == a + init;
      assert NoZeroFrequency(init) by {
        forall i | 0 <= i < |init| ensures Divisible(init[i]) {
          assert init[i] == b[i];
        }
      }
      ExpectedConcat(a, init, cal);
    }
  }

  /** The clamped total is the exact number of generated points. */
  lemma {:induction false} ClampedTotalIsLength(tps: seq<TransactionPattern>, cal: Calendar)
    requires NoZeroFrequency(tps)
    ensures ClampedTotal(tps, cal) == |Expected(tps, cal)|
  {
    if tps != [] {
      var init := tps[..|tps| - 1];
      assert NoZeroFrequency(init) by {
        forall i | 0 <= i < |init| ensures Divisible(init[i]) {
          assert init[i] == tps[i];
        }
      }
      ClampedTotalIsLength(init, cal);
      var last := tps[|tps| - 1];
      assert Divisible(last);
    }
  }

  /** When no recurring pattern has a negative count (for instance every
      end date is at or after its start date and every frequency positive),
      the first-pass total is the length of the series. */
  lemma {:induction false} FirstPassTotalIsLength(tps: seq<TransactionPattern>, cal: Calendar)
    requires NoZeroFrequency(tps)
    requires forall i :: 0 <= i < |tps| ==> PointCount(tps[i], cal) >= 0
    ensures FirstPassTotal(tps, cal) == |Expected(tps, cal)|
  {
    if tps != [] {
      var init := tps[..|tps| - 1];
      assert NoZeroFrequency(init) by {
        forall i | 0 <= i < |init| ensures Divisible(init[i]) {
          assert init[i] == tps[i];
        }
      }
      assert forall i :: 0 <= i < |init| ==> PointCount(init[i], cal) >= 0 by {
        forall i | 0 <= i < |init| ensures PointCount(init[i], cal) >= 0 {
          assert init[i] == tps[i];
        }
      }
      FirstPassTotalIsLength(init, cal);
      assert PointCount(tps[|tps| - 1], cal) >= 0;
    }
  }

  /** A recurring pattern with end at or after start and a positive frequency
      has a non-negative count. */
  lemma ForwardRangeCountsNonNegative(tp: TransactionPattern, cal: Calendar)
    requires tp.isRecurring && tp.recurrencePattern.frequencyHours > 0
    requires EndOf(tp, cal) >= StartOf(tp, cal)
    ensures PointCount(tp, cal) >= 0
  {
  }

  /** A recurring pattern whose end precedes its start contributes no point
      when the frequency is positive, though it lowers the first-pass total. */
  lemma ReversedRangeHasNoPoints(tp: TransactionPattern, cal: Calendar)
    requires tp.isRecurring && tp.recurrencePattern.frequencyHours > 0
    requires EndOf(tp, cal) < StartOf(tp, cal)
    ensures PatternPoints(tp, cal) == []
    ensures PointCount(tp, cal) <= 0
  {
    TruncDivNegative(EndOf(tp, cal) - StartOf(tp, cal), tp.recurrencePattern.frequencyHours);
  }

  /** With a positive frequency the instants go up by exactly the frequency
      and stay in the half-open range from the start date to the end date. */
  lemma RecurringInstantsInRange(tp: TransactionPattern, cal: Calendar)
    requires tp.isRecurring && tp.recurrencePattern.frequencyHours > 0
    ensures var inst := Instants(tp, cal);
      && (forall k :: 0 <= k < |inst| ==> StartOf(tp, cal) <= inst[k] < EndOf(tp, cal))
      && (forall k :: 0 < k < |inst| ==> inst[k] == inst[k - 1] + tp.recurrencePattern.frequencyHours)
  {
    var inst := Instants(tp, cal);
    var f := tp.recurrencePattern.frequencyHours;
    var span := EndOf(tp, cal) - StartOf(tp, cal);
    forall k | 0 <= k < |inst| ensures StartOf(tp, cal) <= inst[k] < EndOf(tp, cal) {
      if span < 0 {
        TruncDivNegative(span, f);
      } else {
        TruncDivBelow(span, f, k);
        MulMonotone(0, k, f);
      }
    }
    forall k | 0 < k < |inst| ensures inst[k] == inst[k - 1] + f {
      assert k * f == (k - 1) * f + f;
    }
  }

  /** So the instants strictly increase. */
  lemma RecurringInstantsIncreasing(tp: TransactionPattern, cal: Calendar, j: int, k: int)
    requires tp.isRecurring && tp.recurrencePattern.frequencyHours > 0
    requires 0 <= j < k < |Instants(tp, cal)|
    ensures Instants(tp, cal)[j] < Instants(tp, cal)[k]
  {
    var f := tp.recurrencePattern.frequencyHours;
    assert k * f - j * f == (k - j) * f;
    MulMonotone(1, k - j, f);
  }

  /** Finding: one recurring pattern whose end date is a day before its start
      date.  The intended series is empty, but the first-pass total is -1, so
      the generator as written panics instead of returning it. */
  lemma NegativeTotalExample()
    ensures var cal := Calendar(s => if s == "2020-01-02" then 24 else 0, t => "");
      var tps := [TransactionPattern(5, "", "2020-01-02", "", "", true,
                                     RecurrencePattern("2020-01-01", 24, "custom", false, "2020-01-02"), "", "income")];
      && NoZeroFrequency(tps)
      && FirstPassTotal(tps, cal) == -1
      && Expected(tps, cal) == []
  {
    var cal := Calendar(s => if s == "2020-01-02" then 24 else 0, t => "");
    var tps := [TransactionPattern(5, "", "2020-01-02", "", "", true,
                                   RecurrencePattern("2020-01-01", 24, "custom", false, "2020-01-02"), "", "income")];
    assert tps[..0] == [];
    assert PointCount(tps[0], cal) == TruncDiv(-24, 24) == -1;
  }
}
