/**
 * The lead-detail panel: the sentiment classifiers, the `m:ss` call
 * duration, the fallbacks shown for empty fields and what the panel shows
 * at all.
 */
module LeadDetails {
  import opened Wrappers
  import opened Leads
  import opened NumberText

  /** `toLowerCase` on one character, for the ASCII letters. */
  function LowerChar(c: char): char {
    if 'A' <= c <= 'Z' then (c as int - 'A' as int + 'a' as int) as char else c
  }

  function ToLower(s: string): (r: string)
    ensures |r| == |s|
    ensures forall i :: 0 <= i < |s| ==> r[i] == LowerChar(s[i])
  {
    seq(|s|, i requires 0 <= i < |s| => LowerChar(s[i]))
  }

  /** Lowering an already lowered text changes nothing. */
  lemma ToLowerIdempotent(s: string)
    ensures ToLower(ToLower(s)) == ToLower(s)
  {
    var once := ToLower(s);
    assert forall i :: 0 <= i < |s| ==> LowerChar(once[i]) == once[i];
  }

  /** The four classes both sentiment switches tell apart. */
  datatype Sentiment = Positive | Negative | Neutral | Other

  /** `sentiment?.toLowerCase()` matched against the three keywords; null matches none. */
  function Classify(sentiment: Option<string>): (c: Sentiment)
    ensures c == Positive <==> sentiment.Some? && ToLower(sentiment.value) == "positivo"
    ensures c == Negative <==> sentiment.Some? && ToLower(sentiment.value) == "negativo"
    ensures c == Neutral <==> sentiment.Some? && ToLower(sentiment.value) == "neutro"
  {
    match sentiment
    case None => Other
    case Some(s) =>
      var t := ToLower(s);
      if t == "positivo" then Positive
      else if t == "negativo" then Negative
      else if t == "neutro" then Neutral
      else Other
  }

  /**
   * `getSentimentColor`: green for a text that lowers to "positivo", red
   * for "negativo", yellow for "neutro", and gray for every other text and
   * for a missing sentiment.
   */
  function SentimentColor(sentiment: Option<string>): (r: string)
    ensures r == "text-green-400" <==> sentiment.Some? && ToLower(sentiment.value) == "positivo"
    ensures r == "text-red-400" <==> sentiment.Some? && ToLower(sentiment.value) == "negativo"
    ensures r == "text-yellow-400" <==> sentiment.Some? && ToLower(sentiment.value) == "neutro"
    ensures r == "text-gray-400" || r == "text-green-400" || r == "text-red-400" || r == "text-yellow-400"
  {
    match sentiment
    case None => "text-gray-400"
    case Some(s) =>
      var t := ToLower(s);
      if t == "positivo" then "text-green-400"
      else if t == "negativo" then "text-red-400"
      else if t == "neutro" then "text-yellow-400"
      else "text-gray-400"
  }

  /**
   * `getSentimentIcon`: a smiling face for a text that lowers to
   * "positivo", a disappointed one for "negativo", a neutral one for
   * "neutro", and a question mark for every other text and for a missing
   * sentiment.
   */
  function SentimentIcon(sentiment: Option<string>): (r: string)
    ensures r == "\U{1F60A}" <==> sentiment.Some? && ToLower(sentiment.value) == "positivo"
    ensures r == "\U{1F61E}" <==> sentiment.Some? && ToLower(sentiment.value) == "negativo"
    ensures r == "\U{1F610}" <==> sentiment.Some? && ToLower(sentiment.value) == "neutro"
    ensures r == "\U{2753}" || r == "\U{1F60A}" || r == "\U{1F61E}" || r == "\U{1F610}"
  {
    match sentiment
    case None => "\U{2753}"
    case Some(s) =>
      var t := ToLower(s);
      if t == "positivo" then "\U{1F60A}"
      else if t == "negativo" then "\U{1F61E}"
      else if t == "neutro" then "\U{1F610}"
      else "\U{2753}"
  }

  /**
   * The two switches cut the inputs into the same four classes: green goes
   * with the smiling face, red with the disappointed one, yellow with the
   * neutral one and gray, the default for every other text and for a
   * missing sentiment, with the question mark.
   */
  lemma ColorAndIconAgree(sentiment: Option<string>)
    ensures var c, i, k := SentimentColor(sentiment), SentimentIcon(sentiment), Classify(sentiment);
      && (c == "text-green-400" <==> k == Positive) && (i == "\U{1F60A}" <==> k == Positive)
      && (c == "text-red-400" <==> k == Negative) && (i == "\U{1F61E}" <==> k == Negative)
      && (c == "text-yellow-400" <==> k == Neutral) && (i == "\U{1F610}" <==> k == Neutral)
      && (c == "text-gray-400" <==> k == Other) && (i == "\U{2753}" <==> k == Other)
  {
  }

  /**
   * The classification ignores case: a text and its lowered form get the
   * same colour and icon, so do two texts that differ only in the case of
   * their letters, and a missing sentiment is drawn like an unknown one.
   */
  lemma SentimentIgnoresCase(s: string, t: string)
    requires ToLower(s) == ToLower(t)
    ensures SentimentColor(Some(s)) == SentimentColor(Some(ToLower(s))) == SentimentColor(Some(t))
    ensures SentimentIcon(Some(s)) == SentimentIcon(Some(ToLower(s))) == SentimentIcon(Some(t))
    ensures SentimentColor(None) == SentimentColor(Some("")) == "text-gray-400"
  {
    ToLowerIdempotent(s);
    assert ToLower("") == "";
  }

  /** The seconds field: `(d % 60).toString().padStart(2, '0')`. */
  function SecondsText(d: int): string {
    PadStart(IntToString(Rem(d, 60)), 2, '0')
  }

  /**
   * The "Duração" tile: minutes, a colon and the padded seconds for a
   * truthy duration, "0:00" for a missing one and for 0, which are falsy.
   * No other duration is shown as "0:00".
   */
  function DurationText(duration: Option<int>): (r: string)
    ensures r == "0:00" <==> duration.None? || duration == Some(0)
  {
    match duration
    case None => "0:00"
    case Some(d) =>
      if d == 0 then "0:00"
      else
        MinutesAndSecondsNotZero(d);
        IntToString(FloorDiv(d, 60)) + ":" + SecondsText(d)
  }

  /**
   * A non-zero duration never prints as "0:00": a negative one starts with
   * a minus sign, and a positive one reads back as minutes and seconds that
   * are not both zero.
   */
  lemma MinutesAndSecondsNotZero(d: int)
    requires d != 0
    ensures IntToString(FloorDiv(d, 60)) + ":" + SecondsText(d) != "0:00"
  {
    var text := IntToString(FloorDiv(d, 60)) + ":" + SecondsText(d);
    if d < 0 {
      assert FloorDiv(d, 60) < 0;
      assert text[0] == '-';
    } else {
      var q, r := d / 60, d % 60;
      assert FloorDiv(d, 60) == q && Rem(d, 60) == r;
      PaddedSeconds(r);
      var ss := PadStart(NatToString(r), 2, '0');
      assert SecondsText(d) == ss;
      MinutesColonSeconds(q, ss);
      ZeroClockReadsZero();
      if q > 0 {
        assert ParseInt(text) != ParseInt("0:00");
      } else {
        assert IntToString(q) == "0";
        assert r > 0 && ValueOf(text[2..], 10) == r;
      }
    }
  }

  /** "0:00" reads as 0 minutes before the colon and 0 seconds after it. */
  lemma ZeroClockReadsZero()
    ensures ParseInt("0:00") == Some(0)
    ensures ValueOf("0:00"[2..], 10) == 0
  {
    ParseIntOfIntToString(0, ":00");
    assert IntToString(0) + ":00" == "0:00";
    assert "0:00"[2..] == "00" && "00"[..1] == "0" && "0"[..0] == [];
  }

  /** For 0 <= r < 60 the padded seconds are two decimal digits worth r. */
  lemma PaddedSeconds(r: nat)
    requires r < 60
    ensures var ss := PadStart(NatToString(r), 2, '0');
      |ss| == 2 && IsDigits(ss) && ValueOf(ss, 10) == r
  {
    var ss := PadStart(NatToString(r), 2, '0');
    if r < 10 {
      assert ss == ['0', DigitChar(r)];
      assert ss[..1] == ['0'] && ['0'][..0] == [];
      assert ValueOf(ss[..1], 10) == 0;
    } else {
      assert ss == NatToString(r);
      ValueOfNatToString(r);
    }
  }

  /**
   * A positive integer duration reads back: the text is minutes, one colon
   * and exactly two digits of seconds, the seconds are below 60, and
   * minutes times 60 plus seconds is the duration.
   */
  lemma DurationTextReadsBack(d: int)
    requires d > 0
    ensures var text, i := DurationText(Some(d)), |IntToString(d / 60)|;
      && |text| == i + 3 && text[i] == ':'
      && IsDigits(text[..i]) && IsDigits(text[i + 1..])
      && ParseInt(text) == Some(d / 60)
      && ParseInt(text[i + 1..]) == Some(d % 60)
      && 60 * (d / 60) + d % 60 == d && 0 <= d % 60 < 60
  {
    DurationTextIsClock(d);
    ClockReadsBack(d / 60, d % 60);
  }

  /** A positive duration is shown as its whole minutes, a colon and its padded leftover seconds. */
  lemma DurationTextIsClock(d: int)
    requires d > 0
    ensures DurationText(Some(d)) == IntToString(d / 60) + ":" + PadStart(NatToString(d % 60), 2, '0')
  {
    assert FloorDiv(d, 60) == d / 60 && Rem(d, 60) == d % 60;
  }

  /** Minutes, a colon and two digits of seconds read back as the minutes and the seconds. */
  lemma ClockReadsBack(q: nat, r: nat)
    requires r < 60
    ensures var text, i := IntToString(q) + ":" + PadStart(NatToString(r), 2, '0'), |IntToString(q)|;
      && |text| == i + 3 && text[i] == ':'
      && IsDigits(text[..i]) && IsDigits(text[i + 1..])
      && ParseInt(text) == Some(q)
      && ParseInt(text[i + 1..]) == Some(r)
  {
    PaddedSeconds(r);
    MinutesColonSeconds(q, PadStart(NatToString(r), 2, '0'));
  }

  /** `${minutes}:${ss}` for a non-negative minute count and two digits of seconds. */
  lemma MinutesColonSeconds(q: nat, ss: string)
    requires |ss| == 2 && IsDigits(ss)
    ensures var m := IntToString(q); var text := m + ":" + ss;
      && |text| == |m| + 3 && text[|m|] == ':'
      && IsDigits(text[..|m|]) && text[|m| + 1..] == ss
      && ParseInt(text) == Some(q)
      && ParseInt(ss) == Some(ValueOf(ss, 10))
  {
    var m := IntToString(q);
    var text := m + ":" + ss;
    assert text[..|m|] == m;
    assert text == m + (":" + ss);
    ParseIntOfIntToString(q, ":" + ss);
    ParseIntOfDigits(ss, []);
    assert ss + [] == ss;
  }

  /** How a date cell is shown: `'N/A'`, or the date as `toLocaleString('pt-BR')` formats it. */
  datatype DateCell = NotAvailable | LocaleString(source: string)

  /** Everything the panel shows for one lead, before layout. */
  datatype Details = Details(
    name: string,
    email: string,
    phone: string,
    closer: string,        // "Responsável"
    attempts: string,      // "Tentativas"
    duration: string,      // "Duração"
    cost: real,            // "Custo", before `toFixed(2)`
    status: Badge,
    meeting: Badge,
    sentimentColor: string,
    sentimentIcon: string,
    sentimentText: string,
    callDate: DateCell,
    scheduledDate: DateCell,
    summary: Option<string>)  // the "Resumo da Ligação" block, shown only when present

  /**
   * What the panel shows for a lead: no text cell is ever empty, and the
   * sentiment's colour and icon are the pair its classification picks.
   */
  function DetailsOf(l: Lead): (d: Details)
    ensures d.name != "" && d.email != "" && d.phone != "" && d.closer != "" && d.attempts != ""
    ensures d.duration != "" && d.sentimentText != ""
    ensures d.sentimentColor == "text-green-400" <==> Classify(l.sentiment) == Positive
    ensures d.sentimentIcon == "\U{1F60A}" <==> Classify(l.sentiment) == Positive
    ensures d.sentimentColor == "text-gray-400" <==> Classify(l.sentiment) == Other
    ensures d.sentimentIcon == "\U{2753}" <==> Classify(l.sentiment) == Other
  {
    Details(
      DisplayOr(l.name, "N/A"),
      DisplayOr(l.email, "N/A"),
      DisplayOr(l.phone, "N/A"),
      DisplayOr(l.closerEmail, "N/A"),
      DisplayOr(l.attempts, "0"),
      DurationText(l.duration),
      CostOrZero(l),
      StatusBadge(l),
      MeetingBadge(l),
      SentimentColor(l.sentiment),
      SentimentIcon(l.sentiment),
      DisplayOr(l.sentiment, "Não informado"),
      if l.callTime.Some? then LocaleString(l.callTime.value.text) else NotAvailable,
      if Truthy(l.scheduledAt) then LocaleString(l.scheduledAt.value) else NotAvailable,
      if Truthy(l.summary) then l.summary else None)
  }

  /** `if (!lead) return null;`: no lead selected, no panel. */
  function Render(lead: Option<Lead>): (r: Option<Details>)
    ensures r.None? <==> lead.None?
  {
    match lead
    case None => None
    case Some(l) => Some(DetailsOf(l))
  }

  /**
   * The fallbacks: empty or missing name, email, phone and closer show
   * "N/A", missing attempts show "0", a falsy duration shows "0:00", a
   * missing cost is 0, a missing sentiment reads "Não informado", missing
   * dates show "N/A" and the summary block appears only for a non-empty
   * summary.
   */
  lemma DetailsFallbacks(l: Lead)
    ensures var d := DetailsOf(l);
      && (d.name == "N/A" <==> !Truthy(l.name) || l.name == Some("N/A"))
      && (!Truthy(l.email) ==> d.email == "N/A") && (!Truthy(l.phone) ==> d.phone == "N/A")
      && (!Truthy(l.closerEmail) ==> d.closer == "N/A")
      && (!Truthy(l.attempts) ==> d.attempts == "0")
      && (l.duration.None? || l.duration == Some(0) ==> d.duration == "0:00")
      && (l.totalCost.None? ==> d.cost == 0.0)
      && (!Truthy(l.sentiment) ==> d.sentimentText == "Não informado")
      && (d.callDate == NotAvailable <==> !HasCallTime(l))
      && (d.scheduledDate == NotAvailable <==> !Truthy(l.scheduledAt))
      && (d.summary.Some? <==> Truthy(l.summary)) && (d.summary.Some? ==> d.summary.value != "")
  {
  }

  /** The panel's badges are the table's: the same text and colour for the same lead. */
  lemma PanelBadgesMatchLabels(l: Lead)
    ensures var d := DetailsOf(l);
      && (d.status.text == "Atendido" <==> Answered(l))
      && (d.meeting.text == "Marcada" <==> MeetingBooked(l))
  {
  }
}
