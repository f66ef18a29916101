/**
 * The conversion funnel: calls made, calls answered and meetings booked,
 * each with its share of the calls made.
 */
module ConversionFunnel {
  import opened Wrappers
  import opened Leads

  datatype Stage = Stage(name: string, count: nat, percentage: real, color: string)

  /**
   * `funnelData`: three stages in a fixed order, counting every call, the
   * answered calls and the booked meetings. The first stage's percentage is
   * a literal 100; the other two are shares of the calls made.
   */
  function FunnelData(ls: seq<Lead>): (stages: seq<Stage>)
    ensures |stages| == 3
    ensures stages[0].name == "Ligações Realizadas"
    ensures stages[1].name == "Ligações Atendidas"
    ensures stages[2].name == "Reuniões Marcadas"
    ensures stages[0].count == |ls| && stages[0].percentage == 100.0
    ensures stages[1].count == CountAnswered(ls) && stages[2].count == CountBooked(ls)
    ensures stages[1].count <= stages[0].count && stages[2].count <= stages[0].count
  {
    var total := |ls|;
    var answered := CountAnswered(ls);
    var booked := CountBooked(ls);
    [ Stage("Ligações Realizadas", total, 100.0, "#3b82f6"),
      Stage("Ligações Atendidas", answered, Percent(answered, total), "#10b981"),
      Stage("Reuniões Marcadas", booked, Percent(booked, total), "#8b5cf6") ]
  }

  /**
   * The percentages of the answered and the meeting stage: both are shares
   * of the calls made (the meeting share is not taken of the answered
   * calls), 0 for an empty list, and within 0..100.
   */
  lemma FunnelPercentages(ls: seq<Lead>, i: nat)
    requires 1 <= i < 3
    ensures var st := FunnelData(ls)[i];
      && (|ls| == 0 ==> st.percentage == 0.0)
      && (|ls| > 0 ==> st.percentage * |ls| as real == st.count as real * 100.0)
      && 0.0 <= st.percentage <= 100.0
  {
    var st := FunnelData(ls)[i];
    assert st.percentage == Percent(st.count, |ls|);
    PercentProperties(st.count, |ls|);
  }

  /**
   * The meeting stage is not a sub-stage of the answered one: a lead may be
   * marked as having a meeting without being marked answered, so the third
   * count can exceed the second.
   */
  lemma BookedMayExceedAnswered()
    ensures exists ls: seq<Lead> :: FunnelData(ls)[2].count > FunnelData(ls)[1].count
  {
    var l := Lead(1, "", None, None, None, None, None, None, None, None, None, None, Some("sim"), None, None);
    assert CountAnswered([l]) == 0;
    assert CountBooked([l]) == 1;
    assert FunnelData([l])[2].count > FunnelData([l])[1].count;
  }
}
