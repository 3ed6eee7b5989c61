/** The analysis card: how the glucose range of an analysis selects the status
    badge (colour and label) and the progress bar (value and background). Only
    the part of the range before its first hyphen is read, with `parseFloat`. */
module AnalysisResults {
  import opened HealthTypes
  import opened JsBuiltins
  import GeminiActions

  /** The three keys of the status table. */
  datatype GlucoseStatus = Normal | Warning | Danger

  /** `parseFloat(range.split('-')[0])`, with `None` for `NaN`. A range with
      no hyphen is parsed whole; one that starts with a hyphen has an empty
      lower bound, which is `NaN`. */
  function LowerBound(range: string): (r: Option<real>)
    ensures '-' !in range ==> r == ParseFloat(range)
    ensures |range| > 0 && range[0] == '-' ==> r.None?
  {
    var head := SplitFirst(range, '-');
    assert '-' !in range ==> head == range;
    assert |range| > 0 && range[0] == '-' ==> head == [];
    ParseFloat(head)
  }

  /** `getGlucoseStatus`: below 70 is a warning, above 180 is danger, anything
      else is normal, including a lower bound that does not parse, since `NaN`
      fails both comparisons. */
  function GetGlucoseStatus(range: string): (s: GlucoseStatus)
    ensures s == Warning <==> LowerBound(range).Some? && LowerBound(range).value < 70.0
    ensures s == Danger <==> LowerBound(range).Some? && LowerBound(range).value > 180.0
    ensures s == Normal <==> LowerBound(range).None? || 70.0 <= LowerBound(range).value <= 180.0
  {
    var lower := LowerBound(range);
    if NumberLess(lower, 70.0) then Warning
    else if NumberGreater(lower, 180.0) then Danger
    else Normal
  }

  /** The upper bound never matters: a range is classified by the text before
      its first hyphen alone. */
  lemma UpperBoundIgnored(lower: string, upper: string)
    requires '-' !in lower
    ensures GetGlucoseStatus(lower + ['-'] + upper) == GetGlucoseStatus(lower)
  {
    SplitFirstIgnoresTail(lower, '-', upper);
    SplitFirstAppend(lower, '-', []);
    assert lower + [] == lower;
  }

  /** A range whose lower bound is negative is split at its own sign: the text
      before the first hyphen is empty, parses as `NaN`, and the status is
      normal. */
  lemma LeadingHyphenIsNormal(rest: string)
    ensures LowerBound(['-'] + rest) == None
    ensures GetGlucoseStatus(['-'] + rest) == Normal
  {
    assert SplitFirst(['-'] + rest, '-') == [];
  }

  /** After optional white space, a whole numeral lower bound is read as its
      value, whether a hyphen, a unit or nothing follows it (an exponent mark
      excepted). */
  lemma WholeLowerBound(ws: string, whole: string, rest: string)
    requires AllWhiteSpace(ws)
    requires whole != [] && AllDigits(whole)
    requires rest == [] || (!IsDigit(rest[0]) && rest[0] != '.' && rest[0] != 'e' && rest[0] != 'E')
    ensures LowerBound(ws + whole + rest) == Some(DigitsValue(whole) as real)
  {
    assert '-' !in ws + whole by {
      forall i | 0 <= i < |ws + whole| ensures (ws + whole)[i] != '-' {
        if i < |ws| { assert IsJsWhiteSpace(ws[i]); } else { assert IsDigit(whole[i - |ws|]); }
      }
    }
    SplitFirstAppend(ws + whole, '-', rest);
    var head := SplitFirst(rest, '-');
    assert head == [] || head[0] == rest[0];
    assert ws + whole + head == ws + whole + head;
    ParseFloatReadsInteger(ws, whole, head);
  }

  /** After optional white space, a lower bound with a decimal fraction is read
      as its value when neither a digit nor an exponent mark follows it. */
  lemma DecimalLowerBound(ws: string, whole: string, fraction: string, rest: string)
    requires AllWhiteSpace(ws)
    requires whole != [] && AllDigits(whole) && AllDigits(fraction)
    requires rest == [] || (!IsDigit(rest[0]) && rest[0] != 'e' && rest[0] != 'E')
    ensures LowerBound(ws + whole + "." + fraction + rest) == Some(DecimalValue(whole, fraction))
  {
    var numeral := ws + whole + "." + fraction;
    assert '-' !in numeral by {
      forall i | 0 <= i < |numeral| ensures numeral[i] != '-' {
        if i < |ws| { assert IsJsWhiteSpace(ws[i]); }
        else if i < |ws| + |whole| { assert IsDigit(whole[i - |ws|]); }
        else if i > |ws| + |whole| { assert IsDigit(fraction[i - |ws| - |whole| - 1]); }
      }
    }
    SplitFirstAppend(numeral, '-', rest);
    var head := SplitFirst(rest, '-');
    assert head == [] || head[0] == rest[0];
    ParseFloatReadsDecimal(ws, whole, fraction, head);
  }

  /** A status-table entry: its colour classes and its label text. */
  datatype Badge = Badge(color: string, text: string)

  /** `statusMap[glucoseStatus]`: the badge shown next to the card title. */
  function StatusBadge(s: GlucoseStatus): (b: Badge)
    ensures ProgressClass(s) <= b.color
    ensures b.text == "Normal Range" <==> s == Normal
    ensures b.text == "Low - Monitor Closely" <==> s == Warning
    ensures b.text == "High - Take Action" <==> s == Danger
  {
    assert |"Normal Range"| == 12 && |"Low - Monitor Closely"| == 21 && |"High - Take Action"| == 18;
    match s
    case Normal => Badge("bg-green-100 text-green-800", "Normal Range")
    case Warning => Badge("bg-yellow-100 text-yellow-800", "Low - Monitor Closely")
    case Danger => Badge("bg-red-100 text-red-800", "High - Take Action")
  }

  /** The three statuses show three different labels and three different
      colours, so the badge alone tells them apart. */
  lemma BadgesDistinct(s: GlucoseStatus, t: GlucoseStatus)
    requires s != t
    ensures StatusBadge(s).text != StatusBadge(t).text
    ensures StatusBadge(s).color != StatusBadge(t).color
  {
    assert |StatusBadge(s).text| != |StatusBadge(t).text|;
  }

  /** The fill of the glucose progress bar. */
  function ProgressValue(s: GlucoseStatus): (v: int)
    ensures 0 < v < 100
    ensures v == 50 <==> s == Normal
    ensures v == 25 <==> s == Warning
    ensures v == 85 <==> s == Danger
  {
    match s
    case Normal => 50
    case Warning => 25
    case Danger => 85
  }

  /** The background class of the glucose progress bar: green, yellow or red
      background, one per status. */
  function ProgressClass(s: GlucoseStatus): (c: string)
    ensures c == "bg-green-100" <==> s == Normal
    ensures c == "bg-yellow-100" <==> s == Warning
    ensures c == "bg-red-100" <==> s == Danger
  {
    assert |"bg-green-100"| == 12 && |"bg-yellow-100"| == 13 && |"bg-red-100"| == 10;
    match s
    case Normal => "bg-green-100"
    case Warning => "bg-yellow-100"
    case Danger => "bg-red-100"
  }

  /** The bar's background is the background of the badge of its own status
      and of no other, so bar and badge always agree in colour. */
  lemma ProgressMatchesBadge(s: GlucoseStatus, t: GlucoseStatus)
    ensures ProgressClass(s) <= StatusBadge(t).color <==> s == t
  {
    if s != t {
      assert ProgressClass(s)[3] != StatusBadge(t).color[3];
    }
  }

  /** The bar never falls as the parsed lower bound rises: low ranges fill it
      least and high ranges most. */
  lemma ProgressFollowsLowerBound(a: string, b: string)
    requires LowerBound(a).Some? && LowerBound(b).Some?
    requires LowerBound(a).value <= LowerBound(b).value
    ensures ProgressValue(GetGlucoseStatus(a)) <= ProgressValue(GetGlucoseStatus(b))
  {
    var sa, sb := GetGlucoseStatus(a), GetGlucoseStatus(b);
    if sa == Danger { assert sb == Danger; }
    if sb == Warning { assert sa == Warning; }
  }

  /** A range that starts with neither white space, a sign, a digit nor a
      point has no parsable lower bound, and is shown as normal. */
  lemma NonNumericRangeIsNormal(range: string)
    requires range != [] && range[0] != '-' && range[0] != '+'
    requires !IsJsWhiteSpace(range[0]) && !IsDigit(range[0]) && range[0] != '.'
    ensures LowerBound(range) == None
    ensures GetGlucoseStatus(range) == Normal
  {
    var head := SplitFirst(range, '-');
    assert head != [] && head[0] == range[0];
    TrimStartOfWhiteSpace([], head);
    assert [] + head == head;
  }

  /** A low range of the shape the prompt asks for is a warning. */
  lemma LowRangeExample()
    ensures GetGlucoseStatus("65-85 mg/dL") == Warning
  {
    var range := "65-85 mg/dL";
    var whole, rest := range[..2], range[2..];
    assert range == [] + whole + rest;
    assert whole == ['6', '5'] && rest[0] == '-';
    assert DigitsValue(whole) == 65 by {
      assert whole[..1] == ['6'] && ['6'][..0] == [];
    }
    WholeLowerBound([], whole, rest);
  }

  /** A high range of the shape the prompt asks for is danger. */
  lemma HighRangeExample()
    ensures GetGlucoseStatus("200-220 mg/dL") == Danger
  {
    var range := "200-220 mg/dL";
    var whole, rest := range[..3], range[3..];
    assert range == [] + whole + rest;
    assert whole == ['2', '0', '0'] && rest[0] == '-';
    assert DigitsValue(whole) == 200 by {
      assert whole[..2] == ['2', '0'] && ['2', '0'][..1] == ['2'] && ['2'][..0] == [];
    }
    WholeLowerBound([], whole, rest);
  }

  /** The boundary 70 itself is in the normal band. */
  lemma BoundaryRangeExample()
    ensures GetGlucoseStatus("70-99 mg/dL") == Normal
  {
    var range := "70-99 mg/dL";
    var whole, rest := range[..2], range[2..];
    assert range == [] + whole + rest;
    assert whole == ['7', '0'] && rest[0] == '-';
    assert DigitsValue(whole) == 70 by {
      assert whole[..1] == ['7'] && ['7'][..0] == [];
    }
    WholeLowerBound([], whole, rest);
  }

  /** The error record of a failed analysis carries the range "Unable to
      estimate", which does not parse: the card shows the green "Normal Range"
      badge and a half-filled bar for it. */
  lemma FailedAnalysisShowsNormal()
    ensures GetGlucoseStatus(GeminiActions.ErrorResult.glucoseRange) == Normal
    ensures StatusBadge(GetGlucoseStatus(GeminiActions.ErrorResult.glucoseRange)).text == "Normal Range"
    ensures ProgressValue(GetGlucoseStatus(GeminiActions.ErrorResult.glucoseRange)) == 50
  {
    NonNumericRangeIsNormal(GeminiActions.ErrorResult.glucoseRange);
  }
}
