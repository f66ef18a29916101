/**
 * The lead record (one call attempt of the automated agent) as the
 * dashboard reads it from the `Retell_Leads` table, and the counts and
 * rates that several dashboard components compute over a list of leads.
 */
module Leads {
  import opened Wrappers

  type Hour = h: int | 0 <= h < 24
  type Weekday = d: int | 0 <= d < 7

  /** Text that JavaScript treats as true: anything but the empty string. */
  type NonEmptyText = s: string | s != "" witness "?"

  /**
   * A call timestamp, already read by the browser's date functions: the
   * stored text, which is never empty, its local hour, its local day of
   * week (0 = Sunday) and its calendar-date key (days since 1970-01-01, the
   * date part of the UTC ISO string).
   */
  datatype CallTime = CallTime(text: NonEmptyText, hour: Hour, weekday: Weekday, dayKey: int)

  /**
   * One row. Every column but `id` and `createdAt` is nullable. `callTime`
   * is None both when the column is null and when it holds the empty
   * string, since every reader tests it for truthiness first.
   */
  datatype Lead = Lead(
    id: int,
    createdAt: string,
    answered: Option<string>,          // "atendido?"
    totalCost: Option<real>,           // Custo_total
    callTime: Option<CallTime>,        // Data_horario_ligação
    scheduledAt: Option<string>,       // dateTime
    duration: Option<int>,             // Duracao, in seconds
    closerEmail: Option<string>,       // email_closer
    email: Option<string>,             // email_lead
    name: Option<string>,              // Nome
    phone: Option<string>,             // Numero
    summary: Option<string>,           // Resumo_ligação
    meetingScheduled: Option<string>,  // "Reuniao_marcada?"
    sentiment: Option<string>,         // Sentimento_do_usuário
    attempts: Option<string>)          // tentativas, a number stored as text

  /** JavaScript truthiness of a nullable text column: present and non-empty. */
  predicate Truthy(v: Option<string>) {
    v.Some? && v.value != ""
  }

  /** The call was answered: `lead['atendido?'] === 'sim'`. */
  predicate Answered(l: Lead) {
    l.answered == Some("sim")
  }

  /** A meeting was booked: `lead['Reuniao_marcada?'] === 'sim'`. */
  predicate MeetingBooked(l: Lead) {
    l.meetingScheduled == Some("sim")
  }

  predicate HasCallTime(l: Lead) {
    l.callTime.Some?
  }

  /** The number of answered calls (`filter(...).length` over `atendido? === 'sim'`). */
  function CountAnswered(ls: seq<Lead>): (r: nat)
    ensures r <= |ls|
    ensures r == 0 <==> forall i :: 0 <= i < |ls| ==> !Answered(ls[i])
  {
    if ls == [] then 0
    else CountAnswered(ls[..|ls| - 1]) + (if Answered(ls[|ls| - 1]) then 1 else 0)
  }

  /** The number of leads with a booked meeting (`filter(...).length` over `Reuniao_marcada? === 'sim'`). */
  function CountBooked(ls: seq<Lead>): (r: nat)
    ensures r <= |ls|
    ensures r == 0 <==> forall i :: 0 <= i < |ls| ==> !MeetingBooked(ls[i])
  {
    if ls == [] then 0
    else CountBooked(ls[..|ls| - 1]) + (if MeetingBooked(ls[|ls| - 1]) then 1 else 0)
  }

  /** The number of leads with a (truthy) call timestamp. */
  function CountTimed(ls: seq<Lead>): (r: nat)
    ensures r <= |ls|
    ensures r == 0 <==> forall i :: 0 <= i < |ls| ==> !HasCallTime(ls[i])
  {
    if ls == [] then 0
    else CountTimed(ls[..|ls| - 1]) + (if HasCallTime(ls[|ls| - 1]) then 1 else 0)
  }

  /** `value || fallback` for a text column: the fallback stands in for null and for the empty string. */
  function DisplayOr(v: Option<string>, fallback: string): (r: string)
    ensures Truthy(v) ==> r == v.value
    ensures !Truthy(v) ==> r == fallback
    ensures fallback != "" ==> r != ""
  {
    if Truthy(v) then v.value else fallback
  }

  /** A coloured status pill: its text and its background class. */
  datatype Badge = Badge(text: string, style: string)

  /** The call-status pill: green "Atendido" for an answered call, red "Não Atendido" otherwise. */
  function StatusBadge(l: Lead): (b: Badge)
    ensures b.text == "Atendido" <==> Answered(l)
    ensures b.style == "bg-green-600 text-white" <==> b.text == "Atendido"
    ensures b.text != "Atendido" ==> b == Badge("Não Atendido", "bg-red-600 text-white")
  {
    if l.answered == Some("sim") then Badge("Atendido", "bg-green-600 text-white")
    else Badge("Não Atendido", "bg-red-600 text-white")
  }

  /** The meeting pill: blue "Marcada" for a booked meeting, gray "Não Marcada" otherwise. */
  function MeetingBadge(l: Lead): (b: Badge)
    ensures b.text == "Marcada" <==> MeetingBooked(l)
    ensures b.style == "bg-blue-600 text-white" <==> b.text == "Marcada"
    ensures b.text != "Marcada" ==> b == Badge("Não Marcada", "bg-gray-600 text-white")
  {
    if l.meetingScheduled == Some("sim") then Badge("Marcada", "bg-blue-600 text-white")
    else Badge("Não Marcada", "bg-gray-600 text-white")
  }

  /** `lead.Custo_total || 0`: a missing cost counts as 0. */
  function CostOrZero(l: Lead): real {
    l.totalCost.GetOr(0.0)
  }

  /**
   * `whole > 0 ? (part / whole) * 100 : 0`, in exact arithmetic: the share
   * of `part` in `whole` as a percentage, 0 when there is nothing to divide by.
   */
  function Percent(part: nat, whole: nat): (r: real)
    ensures whole == 0 ==> r == 0.0
    ensures 0.0 <= r
    ensures part <= whole ==> r <= 100.0
  {
    if whole > 0 then ShareInRange(part as real, whole as real); (part as real / whole as real) * 100.0 else 0.0
  }

  /** A non-negative part of a positive whole is between 0% and 100% of it when not larger. */
  lemma ShareInRange(p: real, w: real)
    requires p >= 0.0 && w > 0.0
    ensures p / w * 100.0 >= 0.0
    ensures p <= w ==> p / w * 100.0 <= 100.0
  {
    var q := p / w;
    assert q * w == p;
    if p <= w {
      assert q * w <= 1.0 * w;
    }
  }

  /**
   * The zero guard and the range of a percentage: 0 with nothing to divide
   * by, otherwise the value whose `whole`-fold is `100 * part`; between 0
   * and 100 when the part is at most the whole; 0 exactly when nothing is
   * counted and 100 exactly when everything is.
   */
  lemma PercentProperties(part: nat, whole: nat)
    ensures var r := Percent(part, whole);
      && (whole == 0 ==> r == 0.0)
      && (whole > 0 ==> r * whole as real == part as real * 100.0)
      && 0.0 <= r
      && (part <= whole ==> r <= 100.0)
      && (r == 0.0 <==> part == 0 || whole == 0)
      && (whole > 0 ==> (r == 100.0 <==> part == whole))
  {
    if whole > 0 {
      var w := whole as real;
      var q := part as real / w;
      assert q * w == part as real;
      if part <= whole {
        assert q * w <= 1.0 * w;
      }
      if q == 1.0 { assert part as real == w; }
    }
  }
}
