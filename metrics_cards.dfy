/**
 * The summary cards: call, answer and meeting counts, total and per-call
 * cost, total and average duration, and average attempts per lead.
 */
module MetricsCards {
  import opened Wrappers
  import opened Leads
  import opened NumberText

  /**
   * The total cost of the calls: the sum of every lead's cost, a missing
   * cost counting as 0 (a `reduce` over `Custo_total || 0`). With no
   * negative cost present it is not negative.
   */
  function TotalCost(ls: seq<Lead>): (r: real)
    ensures NoNegativeCost(ls) ==> r >= 0.0
  {
    if ls == [] then 0.0 else TotalCost(ls[..|ls| - 1]) + CostOrZero(ls[|ls| - 1])
  }

  /** No lead carries a negative cost. */
  predicate NoNegativeCost(ls: seq<Lead>) {
    forall i :: 0 <= i < |ls| ==> CostOrZero(ls[i]) >= 0.0
  }

  /** No lead carries a negative duration. */
  predicate NoNegativeDuration(ls: seq<Lead>) {
    forall i :: 0 <= i < |ls| ==> DurationOrZero(ls[i]) >= 0
  }

  /** A lead's duration in seconds, 0 when missing (`Duracao || 0`). */
  function DurationOrZero(l: Lead): int {
    l.duration.GetOr(0)
  }

  /**
   * The total talk time: the sum of every lead's duration, a missing one
   * counting as 0 (a `reduce` over `Duracao || 0`). With no negative
   * duration present it is not negative.
   */
  function TotalDuration(ls: seq<Lead>): (r: int)
    ensures NoNegativeDuration(ls) ==> r >= 0
  {
    if ls == [] then 0 else TotalDuration(ls[..|ls| - 1]) + DurationOrZero(ls[|ls| - 1])
  }

  /**
   * A lead's attempt count (`parseInt(tentativas) || 0`): what `parseInt`
   * reads from the column, 0 when it is missing or reads as NaN. A null
   * column reaches `parseInt` as the text "null", which reads as NaN too
   * (NullAttemptsReadAsNaN), so it gives 0. A column of decimal digits
   * counts as its decimal value.
   */
  function AttemptsOf(l: Lead): (r: int)
    ensures l.attempts.None? || ParseInt(l.attempts.value).None? ==> r == 0
    ensures l.attempts.Some? && l.attempts.value != [] && IsDigits(l.attempts.value) ==> r == ValueOf(l.attempts.value, 10)
  {
    match l.attempts
    case None => 0
    case Some(t) =>
      if t != [] && IsDigits(t) then
        ParseIntOfDigits(t, []);
        assert t + [] == t;
        ParseInt(t).GetOr(0)
      else ParseInt(t).GetOr(0)
  }

  lemma NullAttemptsReadAsNaN()
    ensures ParseInt("null") == None
  {
    NoDigitsParsesAsNaN("null");
  }

  /** The attempt count of every lead, in order. */
  function AttemptCounts(ls: seq<Lead>): seq<int> {
    seq(|ls|, i requires 0 <= i < |ls| => AttemptsOf(ls[i]))
  }

  /** The sum of a list of integers, added from the front as `reduce` does. */
  function Sum(xs: seq<int>): int {
    if xs == [] then 0 else Sum(xs[..|xs| - 1]) + xs[|xs| - 1]
  }

  /** The attempts of all leads added up, each read as AttemptsOf reads it. */
  function AttemptsSum(ls: seq<Lead>): int {
    Sum(AttemptCounts(ls))
  }

  /**
   * `avgAttempts`: the mean attempt count, 0 for no leads, and not
   * negative unless the attempts add up to less than 0.
   */
  function AvgAttempts(ls: seq<Lead>): (r: real)
    ensures |ls| == 0 ==> r == 0.0
    ensures AttemptsSum(ls) >= 0 ==> r >= 0.0
  {
    Mean(AttemptsSum(ls), |ls|)
  }

  /** The mean of `n` values adding up to `total`, 0 for none (`n > 0 ? total / n : 0`). */
  function Mean(total: int, n: nat): real {
    if n > 0 then total as real / n as real else 0.0
  }

  lemma MeanScaled(total: int, n: nat)
    ensures n == 0 ==> Mean(total, n) == 0.0
    ensures n > 0 ==> Mean(total, n) * n as real == total as real
  {
  }

  /** The average times the number of leads is the attempt sum; with no leads it is 0. */
  lemma AvgAttemptsIsMean(ls: seq<Lead>)
    ensures |ls| == 0 ==> AvgAttempts(ls) == 0.0
    ensures |ls| > 0 ==> AvgAttempts(ls) * |ls| as real == AttemptsSum(ls) as real
  {
    MeanScaled(AttemptsSum(ls), |ls|);
  }

  datatype Metrics = Metrics(
    totalCalls: nat,
    answeredCalls: nat,
    scheduledMeetings: nat,
    totalCost: real,
    totalDuration: int,
    avgAttempts: real,
    answerRate: real,       // "% taxa de atendimento"
    conversionRate: real,   // "% conversão"
    costPerCall: real,      // "por ligação"
    durationMajor: int,     // Math.floor(totalDuration / 60), shown with "h"
    durationMinor: int,     // totalDuration % 60, shown with "m"
    avgDuration: int)       // "s média por ligação"

  /** Every value the cards show, before number formatting. */
  function ComputeMetrics(ls: seq<Lead>): (m: Metrics)
    ensures m.totalCalls == |ls|
    ensures m.answeredCalls == CountAnswered(ls) && m.scheduledMeetings == CountBooked(ls)
    ensures m.answeredCalls <= m.totalCalls && m.scheduledMeetings <= m.totalCalls
    ensures m.totalCost == TotalCost(ls) && m.totalDuration == TotalDuration(ls)
    ensures m.avgAttempts == AvgAttempts(ls)
    ensures m.totalCalls == 0 ==>
      m.answerRate == 0.0 && m.conversionRate == 0.0 && m.costPerCall == 0.0
      && m.avgDuration == 0 && m.avgAttempts == 0.0
    ensures m.answeredCalls == 0 ==> m.conversionRate == 0.0
  {
    var totalCalls := |ls|;
    var answered := CountAnswered(ls);
    var scheduled := CountBooked(ls);
    var totalCost := TotalCost(ls);
    var totalDuration := TotalDuration(ls);
    Metrics(
      totalCalls, answered, scheduled, totalCost, totalDuration, AvgAttempts(ls),
      Percent(answered, totalCalls),
      Percent(scheduled, answered),
      if totalCalls > 0 then totalCost / totalCalls as real else 0.0,
      FloorDiv(totalDuration, 60),
      Rem(totalDuration, 60),
      if totalCalls > 0 then FloorDiv(totalDuration, totalCalls) else 0)
  }

  /** The cost per call is the mean cost: times the number of calls it gives back the total. */
  lemma CostPerCallIsMean(ls: seq<Lead>)
    ensures var m := ComputeMetrics(ls);
      m.totalCalls > 0 ==> m.costPerCall * m.totalCalls as real == m.totalCost
  {
    CostPerCallOf(ComputeMetrics(ls));
  }

  lemma CostPerCallOf(m: Metrics)
    requires m.totalCalls > 0 ==> m.costPerCall == m.totalCost / m.totalCalls as real
    ensures m.totalCalls > 0 ==> m.costPerCall * m.totalCalls as real == m.totalCost
  {
  }

  /** The average duration is the mean duration rounded down. */
  lemma AvgDurationIsFloorMean(ls: seq<Lead>)
    ensures var m := ComputeMetrics(ls);
      m.totalCalls > 0 ==>
        m.avgDuration * m.totalCalls <= m.totalDuration < (m.avgDuration + 1) * m.totalCalls
  {
    AvgDurationOf(ComputeMetrics(ls));
  }

  lemma AvgDurationOf(m: Metrics)
    requires m.totalCalls > 0 ==> m.avgDuration == FloorDiv(m.totalDuration, m.totalCalls)
    ensures m.totalCalls > 0 ==>
      m.avgDuration * m.totalCalls <= m.totalDuration < (m.avgDuration + 1) * m.totalCalls
  {
  }

  /**
   * The total duration splits into whole sixties and a remainder: below 60
   * for a non-negative total, above -60 for a negative one, and the two
   * together give the total back.
   */
  lemma DurationSplit(ls: seq<Lead>)
    ensures var m := ComputeMetrics(ls);
      && 60 * m.durationMajor <= m.totalDuration < 60 * m.durationMajor + 60
      && (m.totalDuration >= 0 ==> 0 <= m.durationMinor < 60 && 60 * m.durationMajor + m.durationMinor == m.totalDuration)
      && (m.totalDuration < 0 ==> -60 < m.durationMinor <= 0)
  {
    DurationSplitOf(ComputeMetrics(ls));
  }

  lemma DurationSplitOf(m: Metrics)
    requires m.durationMajor == FloorDiv(m.totalDuration, 60) && m.durationMinor == Rem(m.totalDuration, 60)
    ensures && 60 * m.durationMajor <= m.totalDuration < 60 * m.durationMajor + 60
      && (m.totalDuration >= 0 ==> 0 <= m.durationMinor < 60 && 60 * m.durationMajor + m.durationMinor == m.totalDuration)
      && (m.totalDuration < 0 ==> -60 < m.durationMinor <= 0)
  {
  }

  /** The answer rate is the share of answered calls in all calls, a percentage. */
  lemma AnswerRateIsPercentage(ls: seq<Lead>)
    ensures var m := ComputeMetrics(ls);
      && 0.0 <= m.answerRate <= 100.0
      && (m.totalCalls > 0 ==> m.answerRate * m.totalCalls as real == m.answeredCalls as real * 100.0)
  {
    AnswerRateOf(ComputeMetrics(ls));
  }

  lemma AnswerRateOf(m: Metrics)
    requires m.answerRate == Percent(m.answeredCalls, m.totalCalls) && m.answeredCalls <= m.totalCalls
    ensures && 0.0 <= m.answerRate <= 100.0
      && (m.totalCalls > 0 ==> m.answerRate * m.totalCalls as real == m.answeredCalls as real * 100.0)
  {
    PercentProperties(m.answeredCalls, m.totalCalls);
  }

  /**
   * The conversion rate is taken of the answered calls, not of all calls:
   * once some call is answered it is never below the funnel's meeting share
   * of all calls, and it exceeds 100 exactly when more meetings are booked
   * than calls answered. With no answered call it is 0 even when meetings
   * were booked.
   */
  lemma ConversionRateIsRelativeToAnswered(ls: seq<Lead>)
    ensures var m := ComputeMetrics(ls);
      && (m.answeredCalls > 0 ==> m.conversionRate * m.answeredCalls as real == m.scheduledMeetings as real * 100.0)
      && (m.answeredCalls > 0 ==> m.conversionRate >= Percent(m.scheduledMeetings, m.totalCalls))
      && (m.answeredCalls > 0 ==> (m.conversionRate > 100.0 <==> m.scheduledMeetings > m.answeredCalls))
  {
    ConversionRateOf(ComputeMetrics(ls));
  }

  lemma ConversionRateOf(m: Metrics)
    requires m.conversionRate == Percent(m.scheduledMeetings, m.answeredCalls) && m.answeredCalls <= m.totalCalls
    ensures && (m.answeredCalls > 0 ==> m.conversionRate * m.answeredCalls as real == m.scheduledMeetings as real * 100.0)
      && (m.answeredCalls > 0 ==> m.conversionRate >= Percent(m.scheduledMeetings, m.totalCalls))
      && (m.answeredCalls > 0 ==> (m.conversionRate > 100.0 <==> m.scheduledMeetings > m.answeredCalls))
  {
    ConversionFacts(m.answeredCalls, m.scheduledMeetings, m.totalCalls, m.conversionRate);
  }

  lemma ConversionFacts(a: nat, s: nat, t: nat, c: real)
    requires a <= t && c == Percent(s, a)
    ensures a > 0 ==> c * a as real == s as real * 100.0
    ensures a > 0 ==> c >= Percent(s, t)
    ensures a > 0 ==> (c > 100.0 <==> s > a)
  {
    PercentProperties(s, a);
    PercentProperties(s, t);
    if a > 0 {
      ShareOfSmallerWhole(Percent(s, a), Percent(s, t), a as real, t as real, s as real * 100.0);
      PercentAbove100(Percent(s, a), a as real, s as real);
    }
  }

  /** A part's ratio to a smaller whole is at least its ratio to a larger one. */
  lemma ShareOfSmallerWhole(c: real, f: real, a: real, t: real, p: real)
    requires 0.0 < a <= t && c * a == p && f * t == p && 0.0 <= c
    ensures c >= f
  {
    ScaleMonotone(a, t, c);
    ScaleMonotone(c, f, t);
  }

  lemma PercentAbove100(c: real, a: real, s: real)
    requires a > 0.0 && c * a == s * 100.0
    ensures c > 100.0 <==> s > a
  {
    ScaleMonotone(c, 100.0, a);
    ScaleMonotone(100.0, c, a);
  }

  /** Multiplying by a positive number keeps the order, and by a non-negative one keeps it loosely. */
  lemma ScaleMonotone(x: real, y: real, k: real)
    requires k >= 0.0
    ensures x <= y ==> x * k <= y * k
    ensures k > 0.0 && x < y ==> x * k < y * k
  {
  }

  /** Costs add up over a concatenation of lead lists, so the order of the reduce does not matter. */
  lemma {:induction false} TotalCostAppend(a: seq<Lead>, b: seq<Lead>)
    ensures TotalCost(a + b) == TotalCost(a) + TotalCost(b)
    decreases |b|
  {
    if b != [] {
      var b' := b[..|b| - 1];
      TotalCostAppend(a, b');
      assert (a + b)[..|a + b| - 1] == a + b';
    } else {
      assert a + b == a;
    }
  }

  lemma {:induction false} SumBounds(xs: seq<int>, hi: int)
    requires forall i :: 0 <= i < |xs| ==> 0 <= xs[i] <= hi
    ensures 0 <= Sum(xs) <= |xs| * hi
  {
    if xs != [] {
      var n := |xs|;
      SumBounds(xs[..n - 1], hi);
      assert (n - 1) * hi + hi == n * hi;
    }
  }

  /** When every lead's attempt count lies in 0..hi, the sum lies in 0..|ls| * hi. */
  lemma AttemptsSumBounds(ls: seq<Lead>, hi: int)
    requires forall i :: 0 <= i < |ls| ==> 0 <= AttemptsOf(ls[i]) <= hi
    ensures 0 <= AttemptsSum(ls) <= |ls| * hi
  {
    var xs := AttemptCounts(ls);
    assert forall i :: 0 <= i < |xs| ==> xs[i] == AttemptsOf(ls[i]);
    SumBounds(xs, hi);
  }

  /** When every lead's attempt count lies in 0..hi, so does the average. */
  lemma AvgAttemptsBounds(ls: seq<Lead>, hi: int)
    requires forall i :: 0 <= i < |ls| ==> 0 <= AttemptsOf(ls[i]) <= hi
    ensures 0.0 <= AvgAttempts(ls)
    ensures |ls| > 0 ==> AvgAttempts(ls) <= hi as real
  {
    AttemptsSumBounds(ls, hi);
    MeanWithin(AttemptsSum(ls), |ls|, hi);
  }

  /** A mean of values in 0..hi lies in 0..hi; the mean of nothing is 0. */
  lemma MeanWithin(total: int, n: nat, hi: int)
    requires 0 <= total <= n * hi
    ensures 0.0 <= Mean(total, n)
    ensures n > 0 ==> Mean(total, n) <= hi as real
  {
    MeanScaled(total, n);
    if n > 0 {
      IntBoundAsReal(total, n, hi);
      RealScaleBounds(Mean(total, n), n as real, total as real, hi as real);
    }
  }

  lemma IntBoundAsReal(p: int, n: int, hi: int)
    requires 0 <= p <= n * hi
    ensures 0.0 <= p as real <= n as real * hi as real
  {
    assert (n * hi) as real == n as real * hi as real;
  }

  lemma RealScaleBounds(r: real, n: real, p: real, hi: real)
    requires n > 0.0 && r * n == p && 0.0 <= p <= n * hi
    ensures 0.0 <= r <= hi
  {
    ScaleMonotone(hi, r, n);
    ScaleMonotone(r, 0.0, n);
  }

  /**
   * The "Duração Total" card: `${Math.floor(d / 60)}h ${d % 60}m`. The two
   * numbers are whole minutes and leftover seconds, shown with the letters
   * "h" and "m". Whatever the total, the text reads back as its whole
   * minutes, rounded down.
   */
  function DurationCardText(d: int): (r: string)
    ensures ParseInt(r) == Some(FloorDiv(d, 60))
    ensures r[|r| - 1] == 'm'
  {
    ParseIntOfIntToString(FloorDiv(d, 60), "h " + IntToString(Rem(d, 60)) + "m");
    IntToString(FloorDiv(d, 60)) + ("h " + IntToString(Rem(d, 60)) + "m")
  }

  /**
   * For a non-negative total the card reads back as the split of the total
   * into a quotient and a remainder by 60: the number before "h" times 60
   * plus the number after it is the total, and the second is below 60.
   */
  lemma DurationCardReadsBack(d: int)
    requires d >= 0
    ensures var text := DurationCardText(d);
      var q := IntToString(d / 60);
      && ParseInt(text) == Some(d / 60)
      && ParseInt(text[|q| + 2..]) == Some(d % 60)
      && 60 * (d / 60) + d % 60 == d && 0 <= d % 60 < 60
  {
    assert FloorDiv(d, 60) == d / 60 && Rem(d, 60) == d % 60;
    CardTextReadsBoth(d / 60, d % 60);
  }

  /** The text of the card reads back as the number before "h" and, after "h ", the number before "m". */
  lemma CardTextReadsBoth(q: int, r: int)
    ensures var text := IntToString(q) + ("h " + IntToString(r) + "m");
      && ParseInt(text) == Some(q)
      && ParseInt(text[|IntToString(q)| + 2..]) == Some(r)
  {
    ParseIntOfIntToString(q, "h " + IntToString(r) + "m");
    TextAfterUnit(IntToString(q), IntToString(r));
    ParseIntOfIntToString(r, "m");
  }

  /** What follows the number before "h" and the "h " itself. */
  lemma TextAfterUnit(q: string, r: string)
    ensures (q + ("h " + r + "m"))[|q| + 2..] == r + "m"
  {
    assert (q + ("h " + r + "m"))[|q|..] == "h " + r + "m";
  }
}
