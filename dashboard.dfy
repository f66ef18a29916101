/**
 * The dashboard page's own computations: the seven-day call and cost
 * trends (`getWeeklyData`, `getCostData`) and the recent-leads table.
 *
 * Dates are day numbers (days since 1970-01-01). `today` is the day number
 * of the ISO (UTC) date of the current instant; it is a parameter, since
 * the page reads the clock. A lead's day is the `dayKey` of its call time.
 */
module Dashboard {
  import opened Wrappers
  import opened Leads
  import opened Tally
  import opened MetricsCards

  /** `toLocaleDateString('pt-BR', { weekday: 'short' })`, Sunday first. */
  const ShortWeekdayNames: seq<string> := ["dom.", "seg.", "ter.", "qua.", "qui.", "sex.", "sáb."]

  /** The day of week of a day number: 1970-01-01 was a Thursday (4). */
  function WeekdayOfKey(key: int): (d: Weekday) {
    (key + 4) % 7
  }

  /**
   * The chart label of a day: a short pt-BR weekday name of four
   * characters ending in a dot, "dom." exactly on Sundays.
   */
  function DayLabel(key: int): (r: string)
    ensures |r| == 4 && r[3] == '.'
    ensures r == "dom." <==> WeekdayOfKey(key) == 0
  {
    ShortWeekdayNames[WeekdayOfKey(key)]
  }

  /**
   * Entry `k` of the window: `Array.from({ length: 7 }, (_, i) => today - i)`
   * reversed, so entry `k` is `today - (6 - k)`, oldest first.
   */
  function WindowKey(today: int, k: int): int {
    today - (6 - k)
  }

  function WindowKeys(today: int): seq<int> {
    seq(7, k => WindowKey(today, k))
  }

  /**
   * The window is the seven consecutive days ending today, oldest first,
   * with no day twice.
   */
  lemma WindowIsLastSevenDays(today: int)
    ensures var w := WindowKeys(today);
      && |w| == 7 && w[0] == today - 6 && w[6] == today
      && (forall k :: 0 <= k < 6 ==> w[k + 1] == w[k] + 1)
      && Distinct(w)
  {
  }

  /** Shifting a day number by `i` shifts its weekday by `i`, modulo 7. */
  lemma WeekdayShift(key: int, i: int)
    ensures WeekdayOfKey(key + i) == (WeekdayOfKey(key) + i) % 7
  {
  }

  /** The seven days of the window fall on the seven different days of the week. */
  lemma WindowWeekdaysDistinct(today: int)
    ensures forall i, j :: 0 <= i < j < 7 ==> WeekdayOfKey(WindowKey(today, i)) != WeekdayOfKey(WindowKey(today, j))
  {
    var first := WindowKey(today, 0);
    forall i, j | 0 <= i < j < 7
      ensures WeekdayOfKey(WindowKey(today, i)) != WeekdayOfKey(WindowKey(today, j))
    {
      WeekdayShift(first, i);
      WeekdayShift(first, j);
      assert WindowKey(today, i) == first + i && WindowKey(today, j) == first + j;
    }
  }

  lemma ShortNamesDistinct()
    ensures forall a, b :: 0 <= a < b < 7 ==> ShortWeekdayNames[a] != ShortWeekdayNames[b]
  {
    var n := ShortWeekdayNames;
    assert forall a :: 0 <= a < 7 ==> |n[a]| == 4;
    assert forall a, b :: 0 <= a < b < 7 && n[a][..2] != n[b][..2] ==> n[a] != n[b];
  }

  /** The seven days of the window carry the seven different weekday names. */
  lemma WindowLabelsDistinct(today: int)
    ensures forall i, j :: 0 <= i < j < 7 ==> DayLabel(WindowKey(today, i)) != DayLabel(WindowKey(today, j))
  {
    WindowWeekdaysDistinct(today);
    ShortNamesDistinct();
    forall i, j | 0 <= i < j < 7
      ensures DayLabel(WindowKey(today, i)) != DayLabel(WindowKey(today, j))
    {
      var a, b := WeekdayOfKey(WindowKey(today, i)), WeekdayOfKey(WindowKey(today, j));
      if a < b {
        assert ShortWeekdayNames[a] != ShortWeekdayNames[b];
      } else {
        assert ShortWeekdayNames[b] != ShortWeekdayNames[a];
      }
    }
  }

  /**
   * `last7Days.find(pred)`: the first index whose entry satisfies `pred`,
   * None when no entry does.
   */
  function Find<T>(s: seq<T>, pred: T -> bool): (r: Option<nat>)
    ensures r.Some? ==> r.value < |s| && pred(s[r.value])
    ensures r.Some? ==> forall i :: 0 <= i < r.value ==> !pred(s[i])
    ensures r.None? <==> forall i :: 0 <= i < |s| ==> !pred(s[i])
  {
    if s == [] then None
    else if pred(s[0]) then Some(0)
    else match Find(s[1..], pred)
      case None => None
      case Some(i) => Some(i + 1)
  }

  /**
   * Looking up a date in seven entries dated like the window finds the
   * entry of that day when the date lies in the window, and nothing
   * otherwise.
   */
  lemma FindWindowDay<T>(a: seq<T>, dateOf: T -> int, today: int, key: int, onDay: T -> bool)
    requires |a| == 7 && forall k :: 0 <= k < 7 ==> dateOf(a[k]) == WindowKey(today, k)
    requires forall d :: onDay(d) <==> dateOf(d) == key
    ensures Find(a, onDay).Some? <==> today - 6 <= key <= today
    ensures Find(a, onDay).Some? ==> Find(a, onDay).value == key - today + 6
  {
    if today - 6 <= key <= today {
      assert onDay(a[key - today + 6]);
    }
  }

  // ---------------------------------------------------------------- calls

  /** One point of the weekly calls chart: `{ day, date, calls }`. */
  datatype CallsDay = CallsDay(day: string, date: int, calls: nat)

  /** What entry `k` of the calls chart holds: the number of leads called that day. */
  function CallsSlot(leads: seq<Lead>, today: int, k: int): CallsDay {
    var key := WindowKey(today, k);
    CallsDay(DayLabel(key), key, CountAt(leads, CalendarDay, key))
  }

  /**
   * `getWeeklyData`: every lead with a call timestamp adds one to the day
   * of the window whose date equals its call date; other leads add nothing.
   */
  method WeeklyData(leads: seq<Lead>, today: int) returns (days: seq<CallsDay>)
    ensures |days| == 7
    ensures forall k :: 0 <= k < 7 ==> days[k] == CallsSlot(leads, today, k)
  {
    var a := new CallsDay[7](k requires 0 <= k < 7 => CallsDay(DayLabel(WindowKey(today, k)), WindowKey(today, k), 0));
    assert leads[..0] == [];
    for j := 0 to |leads|
      invariant forall k :: 0 <= k < 7 ==> a[k] == CallsSlot(leads[..j], today, k)
    {
      CallsSlotStep(leads, j, today);
      var t := leads[j].callTime;
      if t.Some? {
        var key := t.value.dayKey;
        var onDay := (d: CallsDay) => d.date == key;
        var found := Find(a[..], onDay);
        FindWindowDay(a[..], (d: CallsDay) => d.date, today, key, onDay);
        if found.Some? {
          var i := found.value;
          var d := a[i];
          a[i] := d.(calls := d.calls + 1);
        }
      }
    }
    assert leads[..|leads|] == leads;
    days := a[..];
  }

  /** Counting lead `j` adds one call to the window day of its call date and changes no other day. */
  lemma CallsSlotStep(ls: seq<Lead>, j: nat, today: int)
    requires j < |ls|
    ensures forall k :: 0 <= k < 7 ==>
      var d := CallsSlot(ls[..j], today, k);
      CallsSlot(ls[..j + 1], today, k) ==
        if KeyOf(ls[j], CalendarDay) == Some(d.date) then d.(calls := d.calls + 1) else d
  {
    CountStep(ls, j, CalendarDay);
  }

  /** The calls of the chart's points, added up. */
  function CallsTotal(days: seq<CallsDay>): int {
    if days == [] then 0 else CallsTotal(days[..|days| - 1]) + days[|days| - 1].calls
  }

  lemma {:induction false} CallsTotalIsSlotSum(leads: seq<Lead>, today: int, days: seq<CallsDay>, n: nat)
    requires n <= |days| && n <= 7
    requires forall k :: 0 <= k < |days| ==> days[k] == CallsSlot(leads, today, k)
    ensures CallsTotal(days[..n]) == SumAt(leads, CalendarDay, WindowKeys(today)[..n])
  {
    if n > 0 {
      CallsTotalIsSlotSum(leads, today, days, n - 1);
      assert days[..n][..n - 1] == days[..n - 1];
      assert WindowKeys(today)[..n][..n - 1] == WindowKeys(today)[..n - 1];
    }
  }

  /**
   * The chart's calls add up to the number of leads called during the
   * window, hence to at most the number of leads with a call timestamp:
   * no lead is counted twice, and leads outside the window are not
   * counted.
   */
  lemma WeeklyCallsCountTheWindow(leads: seq<Lead>, today: int, days: seq<CallsDay>)
    requires |days| == 7
    requires forall k :: 0 <= k < 7 ==> days[k] == CallsSlot(leads, today, k)
    ensures CallsTotal(days) == CountWithin(leads, CalendarDay, WindowKeys(today))
    ensures CallsTotal(days) <= CountTimed(leads)
  {
    WindowIsLastSevenDays(today);
    CallsTotalIsSlotSum(leads, today, days, 7);
    assert days[..7] == days && WindowKeys(today)[..7] == WindowKeys(today);
    SumAtIsCountWithin(leads, CalendarDay, WindowKeys(today));
  }

  // ---------------------------------------------------------------- costs

  /** `lead.Data_horario_ligação && lead.Custo_total`: a timestamp and a non-zero cost. */
  predicate CostCounted(l: Lead) {
    l.callTime.Some? && l.totalCost.Some? && l.totalCost.value != 0.0
  }

  /** The cost a lead adds to day `key` of the costs chart. */
  function CostAdded(l: Lead, key: int): real {
    if CostCounted(l) && l.callTime.value.dayKey == key then l.totalCost.value else 0.0
  }

  /**
   * The sum of the costs of the leads called on day `key`, as `getCostData`
   * adds them: 0 for a day on which no lead was called, and not negative
   * when no cost is.
   */
  function CostOn(ls: seq<Lead>, key: int): (r: real)
    ensures (forall i :: 0 <= i < |ls| ==> !HasCallTime(ls[i]) || ls[i].callTime.value.dayKey != key) ==> r == 0.0
    ensures (forall i :: 0 <= i < |ls| ==> CostOrZero(ls[i]) >= 0.0) ==> r >= 0.0
  {
    if ls == [] then 0.0 else CostOn(ls[..|ls| - 1], key) + CostAdded(ls[|ls| - 1], key)
  }

  /** One point of the costs chart: `{ day, date, cost }`. */
  datatype CostDay = CostDay(day: string, date: int, cost: real)

  function CostSlot(leads: seq<Lead>, today: int, k: int): CostDay {
    var key := WindowKey(today, k);
    CostDay(DayLabel(key), key, CostOn(leads, key))
  }

  lemma CostStep(ls: seq<Lead>, j: nat)
    requires j < |ls|
    ensures forall key :: CostOn(ls[..j + 1], key) == CostOn(ls[..j], key) + CostAdded(ls[j], key)
  {
    assert ls[..j + 1][..j] == ls[..j];
  }

  /**
   * `getCostData`: every lead with a call timestamp and a non-zero cost adds
   * its cost to the day of the window whose date equals its call date.
   */
  method CostData(leads: seq<Lead>, today: int) returns (days: seq<CostDay>)
    ensures |days| == 7
    ensures forall k :: 0 <= k < 7 ==> days[k] == CostSlot(leads, today, k)
  {
    var a := new CostDay[7](k requires 0 <= k < 7 => CostDay(DayLabel(WindowKey(today, k)), WindowKey(today, k), 0.0));
    assert leads[..0] == [];
    for j := 0 to |leads|
      invariant forall k :: 0 <= k < 7 ==> a[k] == CostSlot(leads[..j], today, k)
    {
      CostStep(leads, j);
      var l := leads[j];
      if l.callTime.Some? && l.totalCost.Some? && l.totalCost.value != 0.0 {
        var key := l.callTime.value.dayKey;
        var onDay := (d: CostDay) => d.date == key;
        var found := Find(a[..], onDay);
        FindWindowDay(a[..], (d: CostDay) => d.date, today, key, onDay);
        if found.Some? {
          var i := found.value;
          var d := a[i];
          a[i] := d.(cost := d.cost + l.totalCost.value);
        }
      }
    }
    assert leads[..|leads|] == leads;
    days := a[..];
  }

  /** The sum of the costs (missing ones as 0) of the timed leads called on day `key`. */
  function DayCost(ls: seq<Lead>, key: int): real {
    if ls == [] then 0.0
    else
      var l := ls[|ls| - 1];
      DayCost(ls[..|ls| - 1], key) + (if KeyOf(l, CalendarDay) == Some(key) then CostOrZero(l) else 0.0)
  }

  /**
   * The non-zero test before adding a cost changes nothing: a day's point
   * is the plain sum of the costs of that day's calls, a missing cost
   * counting as 0.
   */
  lemma {:induction false} CostOnIsDayCost(ls: seq<Lead>, key: int)
    ensures CostOn(ls, key) == DayCost(ls, key)
  {
    if ls != [] {
      CostOnIsDayCost(ls[..|ls| - 1], key);
    }
  }

  /** The cost of the leads called on one of the days `keys`, each lead once. */
  function CostWithin(ls: seq<Lead>, keys: seq<int>): real {
    if ls == [] then 0.0
    else
      var l := ls[|ls| - 1];
      var k := KeyOf(l, CalendarDay);
      CostWithin(ls[..|ls| - 1], keys) + (if k.Some? && k.value in keys then CostOrZero(l) else 0.0)
  }

  /** The chart's points for the days `keys`, added up. */
  function CostSum(ls: seq<Lead>, keys: seq<int>): real {
    if keys == [] then 0.0 else CostSum(ls, keys[..|keys| - 1]) + DayCost(ls, keys[|keys| - 1])
  }

  lemma {:induction false} CostSumEmpty(keys: seq<int>)
    ensures CostSum([], keys) == 0.0
  {
    if keys != [] {
      CostSumEmpty(keys[..|keys| - 1]);
    }
  }

  lemma {:induction false} CostSumAppend(ls: seq<Lead>, l: Lead, keys: seq<int>)
    requires Distinct(keys)
    ensures var k := KeyOf(l, CalendarDay);
      CostSum(ls + [l], keys) == CostSum(ls, keys) + (if k.Some? && k.value in keys then CostOrZero(l) else 0.0)
  {
    var ls' := ls + [l];
    assert ls'[..|ls'| - 1] == ls;
    if keys != [] {
      var front := keys[..|keys| - 1];
      assert Distinct(front);
      CostSumAppend(ls, l, front);
      assert keys == front + [keys[|keys| - 1]];
      var k := KeyOf(l, CalendarDay);
      if k.Some? && k.value in keys {
        assert k.value in front <==> k.value != keys[|keys| - 1];
      }
    }
  }

  /** Over distinct days the points add up to the cost of the leads called on those days. */
  lemma {:induction false} CostSumIsCostWithin(ls: seq<Lead>, keys: seq<int>)
    requires Distinct(keys)
    ensures CostSum(ls, keys) == CostWithin(ls, keys)
  {
    if ls == [] {
      CostSumEmpty(keys);
    } else {
      var front := ls[..|ls| - 1];
      var l := ls[|ls| - 1];
      CostSumIsCostWithin(front, keys);
      CostSumAppend(front, l, keys);
      assert front + [l] == ls;
    }
  }

  /** With no negative cost, the cost of some of the leads is at most the total cost card. */
  lemma {:induction false} CostWithinAtMostTotal(ls: seq<Lead>, keys: seq<int>)
    requires forall i :: 0 <= i < |ls| ==> CostOrZero(ls[i]) >= 0.0
    ensures 0.0 <= CostWithin(ls, keys) <= TotalCost(ls)
  {
    if ls != [] {
      CostWithinAtMostTotal(ls[..|ls| - 1], keys);
    }
  }

  /** The costs of the chart's points, added up. */
  function CostTotal(days: seq<CostDay>): real {
    if days == [] then 0.0 else CostTotal(days[..|days| - 1]) + days[|days| - 1].cost
  }

  lemma {:induction false} CostTotalIsSlotSum(leads: seq<Lead>, today: int, days: seq<CostDay>, n: nat)
    requires n <= |days| && n <= 7
    requires forall k :: 0 <= k < |days| ==> days[k] == CostSlot(leads, today, k)
    ensures CostTotal(days[..n]) == CostSum(leads, WindowKeys(today)[..n])
  {
    if n > 0 {
      CostTotalIsSlotSum(leads, today, days, n - 1);
      assert days[..n][..n - 1] == days[..n - 1];
      assert WindowKeys(today)[..n][..n - 1] == WindowKeys(today)[..n - 1];
      CostOnIsDayCost(leads, WindowKey(today, n - 1));
    }
  }

  /**
   * The seven points of the costs chart add up to the cost of the calls
   * made during the window; with no negative cost that is at most the
   * total cost card.
   */
  lemma WeeklyCostsCountTheWindow(leads: seq<Lead>, today: int, days: seq<CostDay>)
    requires |days| == 7
    requires forall k :: 0 <= k < 7 ==> days[k] == CostSlot(leads, today, k)
    ensures CostTotal(days) == CostWithin(leads, WindowKeys(today))
    ensures (forall i :: 0 <= i < |leads| ==> CostOrZero(leads[i]) >= 0.0) ==>
      0.0 <= CostTotal(days) <= TotalCost(leads)
  {
    WindowIsLastSevenDays(today);
    CostTotalIsSlotSum(leads, today, days, 7);
    assert days[..7] == days && WindowKeys(today)[..7] == WindowKeys(today);
    CostSumIsCostWithin(leads, WindowKeys(today));
    if forall i :: 0 <= i < |leads| ==> CostOrZero(leads[i]) >= 0.0 {
      CostWithinAtMostTotal(leads, WindowKeys(today));
    }
  }

  /**
   * The "Tendências" tab: both charts for the same `today`. They share
   * their days: the same labels and dates in the same order.
   */
  method Trends(leads: seq<Lead>, today: int) returns (calls: seq<CallsDay>, costs: seq<CostDay>)
    ensures |calls| == 7 && |costs| == 7
    ensures forall k :: 0 <= k < 7 ==> calls[k].day == costs[k].day && calls[k].date == costs[k].date
    ensures forall k :: 0 <= k < 7 ==> calls[k].date == WindowKey(today, k) && calls[k].day == DayLabel(calls[k].date)
    ensures CallsTotal(calls) == CountWithin(leads, CalendarDay, WindowKeys(today))
    ensures CostTotal(costs) == CostWithin(leads, WindowKeys(today))
  {
    calls := WeeklyData(leads, today);
    costs := CostData(leads, today);
    WeeklyCallsCountTheWindow(leads, today, calls);
    WeeklyCostsCountTheWindow(leads, today, costs);
  }

  // ---------------------------------------------------------- recent table

  /** One row of the "Leads Recentes" table. */
  datatype Row = Row(id: int, name: string, email: string, phone: string, status: Badge, meeting: Badge, cost: real)

  /**
   * The row of one lead: no text cell is left empty, and the pills read
   * "Atendido" and "Marcada" exactly for an answered call and a booked
   * meeting.
   */
  function RowOf(l: Lead): (r: Row)
    ensures r.id == l.id && r.cost == CostOrZero(l)
    ensures r.name != "" && r.email != "" && r.phone != ""
    ensures r.status.text == "Atendido" <==> Answered(l)
    ensures r.meeting.text == "Marcada" <==> MeetingBooked(l)
  {
    Row(l.id, DisplayOr(l.name, "N/A"), DisplayOr(l.email, "N/A"), DisplayOr(l.phone, "N/A"),
        StatusBadge(l), MeetingBadge(l), CostOrZero(l))
  }

  /** `filteredLeads.slice(0, 10).map(...)`: the first ten leads, in order, one row each. */
  function RecentRows(ls: seq<Lead>): (rows: seq<Row>)
    ensures |rows| == if |ls| < 10 then |ls| else 10
    ensures forall k :: 0 <= k < |rows| ==> rows[k] == RowOf(ls[k])
  {
    var n := if |ls| < 10 then |ls| else 10;
    seq(n, k requires 0 <= k < n => RowOf(ls[k]))
  }

  /**
   * Only the first ten leads reach the table: leads after them change
   * nothing.
   */
  lemma RecentRowsIgnoreTheRest(ls: seq<Lead>, more: seq<Lead>)
    requires |ls| >= 10
    ensures RecentRows(ls + more) == RecentRows(ls)
  {
    var a, b := RecentRows(ls + more), RecentRows(ls);
    assert forall k :: 0 <= k < 10 ==> (ls + more)[k] == ls[k];
    assert |a| == |b|;
    assert forall k :: 0 <= k < |a| ==> a[k] == b[k];
  }
}
