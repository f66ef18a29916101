/**
 * The "best hours" and "best weekdays" heatmaps: 24 hour buckets and 7
 * weekday buckets of calls made, calls answered and answer rate, and the
 * colour class a rate is drawn with.
 */
module TimeAnalysis {
  import opened Wrappers
  import opened Leads
  import opened Tally

  datatype HourBucket = HourBucket(hour: nat, total: nat, answered: nat, rate: real)

  datatype DayBucket = DayBucket(name: string, day: nat, total: nat, answered: nat, rate: real)

  const WeekdayNames: seq<string> := ["Domingo", "Segunda", "Terça", "Quarta", "Quinta", "Sexta", "Sábado"]

  /** What the bucket of hour `h` holds once every lead has been counted. */
  function HourSlot(ls: seq<Lead>, h: nat): HourBucket {
    var total := CountAt(ls, HourOfDay, h);
    var answered := AnsweredAt(ls, HourOfDay, h);
    HourBucket(h, total, answered, Percent(answered, total))
  }

  /** What the bucket of weekday `d` holds once every lead has been counted. */
  function DaySlot(ls: seq<Lead>, d: nat): DayBucket
    requires d < 7
  {
    var total := CountAt(ls, DayOfWeek, d);
    var answered := AnsweredAt(ls, DayOfWeek, d);
    DayBucket(WeekdayNames[d], d, total, answered, Percent(answered, total))
  }

  function HourTotals(bs: seq<HourBucket>): int {
    if bs == [] then 0 else HourTotals(bs[..|bs| - 1]) + bs[|bs| - 1].total
  }

  function DayTotals(bs: seq<DayBucket>): int {
    if bs == [] then 0 else DayTotals(bs[..|bs| - 1]) + bs[|bs| - 1].total
  }

  /** The hour bucket of `h` after the counting pass, before its rate is set. */
  function HourCounted(ls: seq<Lead>, h: nat): HourBucket {
    HourBucket(h, CountAt(ls, HourOfDay, h), AnsweredAt(ls, HourOfDay, h), 0.0)
  }

  /** The weekday bucket of `d` after the counting pass, before its rate is set. */
  function DayCounted(ls: seq<Lead>, d: nat): DayBucket
    requires d < 7
  {
    DayBucket(WeekdayNames[d], d, CountAt(ls, DayOfWeek, d), AnsweredAt(ls, DayOfWeek, d), 0.0)
  }

  /**
   * `getHourHeatmap`: allocate the 24 buckets, add each timed lead to the
   * bucket of its hour (and to its answered count when answered), then
   * compute every bucket's rate.
   */
  method HourHeatmap(leads: seq<Lead>) returns (hours: seq<HourBucket>)
    ensures |hours| == 24
    ensures forall h :: 0 <= h < 24 ==> hours[h] == HourSlot(leads, h)
    ensures HourTotals(hours) == CountTimed(leads)
  {
    var a := CountByHour(leads);
    SetHourRates(a);
    hours := a[..];
    HourBucketTotals(leads, hours);
  }

  /** The counting pass of `getHourHeatmap`. */
  method CountByHour(leads: seq<Lead>) returns (a: array<HourBucket>)
    ensures fresh(a) && a.Length == 24
    ensures forall h :: 0 <= h < 24 ==> a[h] == HourCounted(leads, h)
  {
    a := new HourBucket[24](i => HourBucket(i, 0, 0, 0.0));
    for j := 0 to |leads|
      invariant forall h :: 0 <= h < 24 ==> a[h] == HourCounted(leads[..j], h)
    {
      var lead := leads[j];
      HourCountedStep(leads, j);
      if lead.callTime.Some? {
        var h := lead.callTime.value.hour;
        var b := a[h].(total := a[h].total + 1);
        if lead.answered == Some("sim") {
          b := b.(answered := b.answered + 1);
        }
        assert b == HourCounted(leads[..j + 1], h);
        a[h] := b;
      }
    }
    assert leads[..|leads|] == leads;
  }

  /** Counting lead `j` bumps the bucket of its hour, and its answered count when it was answered. */
  lemma HourCountedStep(ls: seq<Lead>, j: nat)
    requires j < |ls|
    ensures forall h :: 0 <= h < 24 ==>
      var b := HourCounted(ls[..j], h);
      HourCounted(ls[..j + 1], h) ==
        if ls[j].callTime.Some? && ls[j].callTime.value.hour == h
        then b.(total := b.total + 1, answered := b.answered + if ls[j].answered == Some("sim") then 1 else 0)
        else b
  {
    CountStep(ls, j, HourOfDay);
    AnsweredStep(ls, j, HourOfDay);
  }

  /** The rate pass of `getHourHeatmap`: `rate = total > 0 ? answered / total * 100 : 0`. */
  method SetHourRates(a: array<HourBucket>)
    modifies a
    ensures forall h :: 0 <= h < a.Length ==>
      a[h] == old(a[h]).(rate := Percent(old(a[h]).answered, old(a[h]).total))
  {
    for h := 0 to a.Length
      invariant forall k :: 0 <= k < h ==> a[k] == old(a[k]).(rate := Percent(old(a[k]).answered, old(a[k]).total))
      invariant forall k :: h <= k < a.Length ==> a[k] == old(a[k])
    {
      a[h] := a[h].(rate := if a[h].total > 0 then (a[h].answered as real / a[h].total as real) * 100.0 else 0.0);
    }
  }

  lemma HourBucketTotals(ls: seq<Lead>, hours: seq<HourBucket>)
    requires |hours| == 24
    requires forall h :: 0 <= h < 24 ==> hours[h] == HourSlot(ls, h)
    ensures HourTotals(hours) == CountTimed(ls)
  {
    HourTotalsAreSlotSum(ls, hours, 24);
    assert hours[..24] == hours;
    HourAndWeekdaySlotsCountEveryTimedLead(ls);
  }

  /**
   * `getWeekdayHeatmap`: the 7 buckets Domingo..Sábado, filled and rated
   * like the hour buckets by the local day of week.
   */
  method WeekdayHeatmap(leads: seq<Lead>) returns (days: seq<DayBucket>)
    ensures |days| == 7
    ensures forall d :: 0 <= d < 7 ==> days[d] == DaySlot(leads, d)
    ensures DayTotals(days) == CountTimed(leads)
  {
    var a := CountByWeekday(leads);
    SetDayRates(a);
    days := a[..];
    DayBucketTotals(leads, days);
  }

  /** The counting pass of `getWeekdayHeatmap`. */
  method CountByWeekday(leads: seq<Lead>) returns (a: array<DayBucket>)
    ensures fresh(a) && a.Length == 7
    ensures forall d :: 0 <= d < 7 ==> a[d] == DayCounted(leads, d)
  {
    a := new DayBucket[7](i requires 0 <= i < 7 => DayBucket(WeekdayNames[i], i, 0, 0, 0.0));
    for j := 0 to |leads|
      invariant forall d :: 0 <= d < 7 ==> a[d] == DayCounted(leads[..j], d)
    {
      var lead := leads[j];
      DayCountedStep(leads, j);
      if lead.callTime.Some? {
        var d := lead.callTime.value.weekday;
        var b := a[d].(total := a[d].total + 1);
        if lead.answered == Some("sim") {
          b := b.(answered := b.answered + 1);
        }
        assert b == DayCounted(leads[..j + 1], d);
        a[d] := b;
      }
    }
    assert leads[..|leads|] == leads;
  }

  /** Counting lead `j` bumps the bucket of its weekday, and its answered count when it was answered. */
  lemma DayCountedStep(ls: seq<Lead>, j: nat)
    requires j < |ls|
    ensures forall d :: 0 <= d < 7 ==>
      var b := DayCounted(ls[..j], d);
      DayCounted(ls[..j + 1], d) ==
        if ls[j].callTime.Some? && ls[j].callTime.value.weekday == d
        then b.(total := b.total + 1, answered := b.answered + if ls[j].answered == Some("sim") then 1 else 0)
        else b
  {
    CountStep(ls, j, DayOfWeek);
    AnsweredStep(ls, j, DayOfWeek);
  }

  /** The rate pass of `getWeekdayHeatmap`. */
  method SetDayRates(a: array<DayBucket>)
    modifies a
    ensures forall d :: 0 <= d < a.Length ==>
      a[d] == old(a[d]).(rate := Percent(old(a[d]).answered, old(a[d]).total))
  {
    for d := 0 to a.Length
      invariant forall k :: 0 <= k < d ==> a[k] == old(a[k]).(rate := Percent(old(a[k]).answered, old(a[k]).total))
      invariant forall k :: d <= k < a.Length ==> a[k] == old(a[k])
    {
      a[d] := a[d].(rate := if a[d].total > 0 then (a[d].answered as real / a[d].total as real) * 100.0 else 0.0);
    }
  }

  lemma DayBucketTotals(ls: seq<Lead>, days: seq<DayBucket>)
    requires |days| == 7
    requires forall d :: 0 <= d < 7 ==> days[d] == DaySlot(ls, d)
    ensures DayTotals(days) == CountTimed(ls)
  {
    DayTotalsAreSlotSum(ls, days, 7);
    assert days[..7] == days;
    HourAndWeekdaySlotsCountEveryTimedLead(ls);
  }

  lemma {:induction false} HourTotalsAreSlotSum(ls: seq<Lead>, bs: seq<HourBucket>, n: nat)
    requires n <= |bs| && n <= 24
    requires forall h :: 0 <= h < |bs| ==> bs[h].total == CountAt(ls, HourOfDay, h)
    ensures HourTotals(bs[..n]) == SumAt(ls, HourOfDay, Range(n))
  {
    if n > 0 {
      HourTotalsAreSlotSum(ls, bs, n - 1);
      assert bs[..n][..n - 1] == bs[..n - 1];
      assert Range(n)[..n - 1] == Range(n - 1);
    }
  }

  lemma {:induction false} DayTotalsAreSlotSum(ls: seq<Lead>, bs: seq<DayBucket>, n: nat)
    requires n <= |bs| && n <= 7
    requires forall d :: 0 <= d < |bs| ==> bs[d].total == CountAt(ls, DayOfWeek, d)
    ensures DayTotals(bs[..n]) == SumAt(ls, DayOfWeek, Range(n))
  {
    if n > 0 {
      DayTotalsAreSlotSum(ls, bs, n - 1);
      assert bs[..n][..n - 1] == bs[..n - 1];
      assert Range(n)[..n - 1] == Range(n - 1);
    }
  }

  /**
   * Every hour bucket answers at most the calls it counts; its rate is the
   * answered share as a percentage (Percent), 0 when it counts none, and
   * lies in 0..100.
   */
  lemma HourSlotInvariants(ls: seq<Lead>, h: nat)
    requires h < 24
    ensures var b := HourSlot(ls, h);
      && b.hour == h && b.answered <= b.total
      && b.rate == Percent(b.answered, b.total)
      && (b.total == 0 ==> b.rate == 0.0)
      && 0.0 <= b.rate <= 100.0
  {
    var b := HourSlot(ls, h);
    RateFacts(b.answered, b.total, b.rate);
  }

  /** The same for every weekday bucket, which also carries its weekday's name. */
  lemma DaySlotInvariants(ls: seq<Lead>, d: nat)
    requires d < 7
    ensures var b := DaySlot(ls, d);
      && b.day == d && b.name == WeekdayNames[d] && b.answered <= b.total
      && b.rate == Percent(b.answered, b.total)
      && (b.total == 0 ==> b.rate == 0.0)
      && 0.0 <= b.rate <= 100.0
  {
    var b := DaySlot(ls, d);
    RateFacts(b.answered, b.total, b.rate);
  }

  lemma RateFacts(answered: nat, total: nat, rate: real)
    requires answered <= total && rate == Percent(answered, total)
    ensures total == 0 ==> rate == 0.0
    ensures 0.0 <= rate <= 100.0
  {
    PercentProperties(answered, total);
  }

  const Gray := "bg-gray-700"
  const Red := "bg-red-600"
  const Yellow := "bg-yellow-600"
  const Blue := "bg-blue-600"
  const Green := "bg-green-600"

  /** `getHeatmapColor`: the colour class of an answer rate. */
  function HeatmapColor(rate: real): (c: string)
    ensures c in {Gray, Red, Yellow, Blue, Green}
  {
    if rate == 0.0 then Gray
    else if rate < 25.0 then Red
    else if rate < 50.0 then Yellow
    else if rate < 75.0 then Blue
    else Green
  }

  /** The colour classes from coolest to hottest. */
  function ColorRank(c: string): nat {
    if c == Gray then 0 else if c == Red then 1 else if c == Yellow then 2 else if c == Blue then 3 else 4
  }

  /** For rates that are percentages, a higher rate never gets a cooler colour. */
  lemma HeatmapColorMonotone(a: real, b: real)
    requires 0.0 <= a <= b
    ensures ColorRank(HeatmapColor(a)) <= ColorRank(HeatmapColor(b))
  {
  }

  /**
   * The colour of a bucket in terms of its counts: gray exactly when
   * nothing was answered there, then red, yellow, blue and green by
   * quarters of the answered share.
   */
  lemma BucketColor(answered: nat, total: nat)
    requires answered <= total
    ensures var c := HeatmapColor(Percent(answered, total));
      && (c == Gray <==> answered == 0)
      && (c == Red <==> 0 < answered && 4 * answered < total)
      && (c == Yellow <==> total <= 4 * answered < 2 * total)
      && (c == Blue <==> 2 * total <= 4 * answered < 3 * total)
      && (c == Green <==> 0 < total && 3 * total <= 4 * answered)
  {
    var r := Percent(answered, total);
    if total > 0 {
      var t := total as real;
      var a := answered as real;
      assert r * t == a * 100.0;
      BelowIffScaled(r, t, a * 100.0, 25.0);
      BelowIffScaled(r, t, a * 100.0, 50.0);
      BelowIffScaled(r, t, a * 100.0, 75.0);
    }
  }

  lemma BelowIffScaled(r: real, t: real, p: real, q: real)
    requires t > 0.0 && r * t == p
    ensures r < q <==> p < q * t
  {
    if r < q { assert r * t < q * t; } else { assert r * t >= q * t; }
  }
}
