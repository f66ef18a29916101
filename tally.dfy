/**
 * Counting leads by a key read off their call timestamp: the local hour,
 * the local day of week or the calendar date. The hour and weekday
 * heatmaps and the weekly trend all add one per lead to the slot whose key
 * matches, skipping leads without a timestamp; the functions here say what
 * those slots end up holding.
 */
module Tally {
  import opened Wrappers
  import opened Leads

  datatype Axis = HourOfDay | DayOfWeek | CalendarDay

  /** The key a lead is counted under, None when it has no call timestamp. */
  function KeyOf(l: Lead, axis: Axis): (k: Option<int>)
    ensures k.Some? <==> HasCallTime(l)
    ensures k.Some? && axis == HourOfDay ==> 0 <= k.value < 24
    ensures k.Some? && axis == DayOfWeek ==> 0 <= k.value < 7
  {
    match l.callTime
    case None => None
    case Some(t) =>
      Some(match axis
           case HourOfDay => t.hour
           case DayOfWeek => t.weekday
           case CalendarDay => t.dayKey)
  }

  /** The number of leads counted under `key`. */
  function CountAt(ls: seq<Lead>, axis: Axis, key: int): (r: nat)
    ensures r <= CountTimed(ls)
  {
    if ls == [] then 0
    else CountAt(ls[..|ls| - 1], axis, key) + (if KeyOf(ls[|ls| - 1], axis) == Some(key) then 1 else 0)
  }

  /** The number of answered leads counted under `key`. */
  function AnsweredAt(ls: seq<Lead>, axis: Axis, key: int): (r: nat)
    ensures r <= CountAt(ls, axis, key)
  {
    if ls == [] then 0
    else
      var l := ls[|ls| - 1];
      AnsweredAt(ls[..|ls| - 1], axis, key) + (if KeyOf(l, axis) == Some(key) && Answered(l) then 1 else 0)
  }

  /** The number of leads whose key is one of `keys`. */
  function CountWithin(ls: seq<Lead>, axis: Axis, keys: seq<int>): (r: nat)
    ensures r <= CountTimed(ls)
  {
    if ls == [] then 0
    else
      var k := KeyOf(ls[|ls| - 1], axis);
      CountWithin(ls[..|ls| - 1], axis, keys) + (if k.Some? && k.value in keys then 1 else 0)
  }

  /** Counting one more lead changes only the count under its key. */
  lemma CountStep(ls: seq<Lead>, j: nat, axis: Axis)
    requires j < |ls|
    ensures forall k ::
      CountAt(ls[..j + 1], axis, k) == CountAt(ls[..j], axis, k) + (if KeyOf(ls[j], axis) == Some(k) then 1 else 0)
  {
    assert ls[..j + 1][..j] == ls[..j];
  }

  /** Counting one more lead changes only the answered count under its key, and only if it was answered. */
  lemma AnsweredStep(ls: seq<Lead>, j: nat, axis: Axis)
    requires j < |ls|
    ensures forall k ::
      AnsweredAt(ls[..j + 1], axis, k) ==
      AnsweredAt(ls[..j], axis, k) + (if KeyOf(ls[j], axis) == Some(k) && Answered(ls[j]) then 1 else 0)
  {
    assert ls[..j + 1][..j] == ls[..j];
  }

  /** The slot counts of `keys`, added up. */
  function SumAt(ls: seq<Lead>, axis: Axis, keys: seq<int>): int {
    if keys == [] then 0
    else SumAt(ls, axis, keys[..|keys| - 1]) + CountAt(ls, axis, keys[|keys| - 1])
  }

  predicate Distinct(keys: seq<int>) {
    forall i, j :: 0 <= i < j < |keys| ==> keys[i] != keys[j]
  }

  /** `[0, 1, ..., n - 1]` */
  function Range(n: nat): (r: seq<int>)
    ensures |r| == n && Distinct(r)
    ensures forall i :: 0 <= i < n ==> r[i] == i
  {
    seq(n, i => i)
  }

  /** A lead appended to the list adds one to the slot sum exactly when its key is counted. */
  lemma {:induction false} SumAtAppend(ls: seq<Lead>, l: Lead, axis: Axis, keys: seq<int>)
    requires Distinct(keys)
    ensures var k := KeyOf(l, axis);
      SumAt(ls + [l], axis, keys) == SumAt(ls, axis, keys) + (if k.Some? && k.value in keys then 1 else 0)
  {
    var ls' := ls + [l];
    assert ls'[..|ls'| - 1] == ls;
    if keys != [] {
      var front := keys[..|keys| - 1];
      assert Distinct(front);
      SumAtAppend(ls, l, axis, front);
      assert keys == front + [keys[|keys| - 1]];
      var k := KeyOf(l, axis);
      if k.Some? && k.value in keys {
        assert k.value in front <==> k.value != keys[|keys| - 1];
      }
    }
  }

  lemma {:induction false} SumAtEmpty(axis: Axis, keys: seq<int>)
    ensures SumAt([], axis, keys) == 0
  {
    if keys != [] {
      SumAtEmpty(axis, keys[..|keys| - 1]);
    }
  }

  /**
   * Conservation: over distinct keys, the slot counts add up to the number
   * of leads whose key is one of them; no lead is counted twice.
   */
  lemma {:induction false} SumAtIsCountWithin(ls: seq<Lead>, axis: Axis, keys: seq<int>)
    requires Distinct(keys)
    ensures SumAt(ls, axis, keys) == CountWithin(ls, axis, keys)
  {
    if ls == [] {
      SumAtEmpty(axis, keys);
    } else {
      var front := ls[..|ls| - 1];
      var l := ls[|ls| - 1];
      SumAtIsCountWithin(front, axis, keys);
      SumAtAppend(front, l, axis, keys);
      assert front + [l] == ls;
    }
  }

  /** When every key a lead can have is among `keys`, every timed lead is counted. */
  lemma {:induction false} CountWithinAll(ls: seq<Lead>, axis: Axis, keys: seq<int>)
    requires forall l: Lead :: KeyOf(l, axis).Some? ==> KeyOf(l, axis).value in keys
    ensures CountWithin(ls, axis, keys) == CountTimed(ls)
  {
    if ls != [] {
      CountWithinAll(ls[..|ls| - 1], axis, keys);
    }
  }

  /**
   * The hour slots 0..23 together count every lead with a timestamp, and
   * so do the weekday slots 0..6.
   */
  lemma HourAndWeekdaySlotsCountEveryTimedLead(ls: seq<Lead>)
    ensures SumAt(ls, HourOfDay, Range(24)) == CountTimed(ls)
    ensures SumAt(ls, DayOfWeek, Range(7)) == CountTimed(ls)
  {
    forall l: Lead | KeyOf(l, HourOfDay).Some?
      ensures KeyOf(l, HourOfDay).value in Range(24)
    {
      assert Range(24)[KeyOf(l, HourOfDay).value] == KeyOf(l, HourOfDay).value;
    }
    forall l: Lead | KeyOf(l, DayOfWeek).Some?
      ensures KeyOf(l, DayOfWeek).value in Range(7)
    {
      assert Range(7)[KeyOf(l, DayOfWeek).value] == KeyOf(l, DayOfWeek).value;
    }
    SumAtIsCountWithin(ls, HourOfDay, Range(24));
    CountWithinAll(ls, HourOfDay, Range(24));
    SumAtIsCountWithin(ls, DayOfWeek, Range(7));
    CountWithinAll(ls, DayOfWeek, Range(7));
  }
}
