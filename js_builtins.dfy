/** The JavaScript built-ins the core leans on, modelled on `string`:
    `String.prototype.trim`, `split(sep)[0]`, `parseFloat` (plain decimals only),
    the leftmost/rightmost character searches behind the greedy `{…}` regular
    expression, and the facts about where a piece lands in a string assembled
    by concatenation. */
module JsBuiltins {
  import opened HealthTypes

  // ---------------------------------------------------------------- white space

  /** The WhiteSpace and LineTerminator code points of ECMA-262 (sections 12.2
      and 12.3): the characters `trim` removes and `parseFloat` skips. */
  predicate IsJsWhiteSpace(c: char) {
    || c == '\t' || c == '\U{000B}' || c == '\U{000C}' || c == ' '
    || c == '\U{00A0}' || c == '\U{FEFF}' || c == '\U{1680}'
    || ('\U{2000}' <= c <= '\U{200A}')
    || c == '\U{202F}' || c == '\U{205F}' || c == '\U{3000}'
    || c == '\n' || c == '\r' || c == '\U{2028}' || c == '\U{2029}'
  }

  predicate AllWhiteSpace(s: string) {
    forall i :: 0 <= i < |s| ==> IsJsWhiteSpace(s[i])
  }

  /** Drops leading white space: the result is the suffix of `s` left after a
      white-space run, and it does not itself start with white space. */
  function TrimStart(s: string): (r: string)
    ensures |r| <= |s| && r == s[|s| - |r|..]
    ensures AllWhiteSpace(s[..|s| - |r|])
    ensures r == [] || !IsJsWhiteSpace(r[0])
    decreases |s|
  {
    if |s| > 0 && IsJsWhiteSpace(s[0]) then
      var back := s[1..];
      var r := TrimStart(back);
      assert r == s[|s| - |r|..] by { assert back[|back| - |r|..] == s[|s| - |r|..]; }
      assert s[..|s| - |r|] == [s[0]] + back[..|back| - |r|];
      AllWhiteSpaceAppend([s[0]], back[..|back| - |r|]);
      r
    else s
  }

  /** Drops trailing white space: the result is the prefix of `s` before a
      white-space run, and it does not itself end with white space. */
  function TrimEnd(s: string): (r: string)
    ensures |r| <= |s| && r == s[..|r|]
    ensures AllWhiteSpace(s[|r|..])
    ensures r == [] || !IsJsWhiteSpace(r[|r| - 1])
    decreases |s|
  {
    if |s| > 0 && IsJsWhiteSpace(s[|s| - 1]) then
      var front := s[..|s| - 1];
      var r := TrimEnd(front);
      assert r == s[..|r|] by { assert front[..|r|] == s[..|r|]; }
      assert s[|r|..] == front[|r|..] + [s[|s| - 1]];
      AllWhiteSpaceAppend(front[|r|..], [s[|s| - 1]]);
      r
    else s
  }

  /** `r` is `s` with a white-space run cut from each end. */
  ghost predicate CutBetweenWhiteSpace(s: string, r: string) {
    exists a, b :: 0 <= a <= b <= |s| && r == s[a..b] && AllWhiteSpace(s[..a]) && AllWhiteSpace(s[b..])
  }

  /** `s.trim()`: the slice of `s` left once a white-space run is cut from each
      end; empty exactly when `s` is nothing but white space, and otherwise it
      neither starts nor ends with white space. */
  function Trim(s: string): (r: string)
    ensures CutBetweenWhiteSpace(s, r)
    ensures r == [] <==> AllWhiteSpace(s)
    ensures r != [] ==> !IsJsWhiteSpace(r[0]) && !IsJsWhiteSpace(r[|r| - 1])
  {
    var t := TrimStart(s);
    TrimBothEnds(s, t, TrimEnd(t));
    SliceBetweenWhiteSpace(s, t, TrimEnd(t));
    TrimEnd(t)
  }

  /** A prefix kept after a white-space suffix is cut, taken from a suffix kept
      after a white-space prefix is cut, is a slice of the whole between two
      white-space runs. */
  lemma SliceBetweenWhiteSpace(s: string, t: string, r: string)
    requires |t| <= |s| && t == s[|s| - |t|..] && AllWhiteSpace(s[..|s| - |t|])
    requires |r| <= |t| && r == t[..|r|] && AllWhiteSpace(t[|r|..])
    ensures CutBetweenWhiteSpace(s, r)
  {
    var a := |s| - |t|;
    var b := a + |r|;
    assert r == s[a..b];
    assert s[b..] == t[|r|..];
  }

  /** Cutting a white-space prefix and then a white-space suffix leaves
      nothing exactly when the whole was white space, and otherwise a text that
      does not start with white space. */
  lemma TrimBothEnds(s: string, t: string, r: string)
    requires |t| <= |s| && t == s[|s| - |t|..] && AllWhiteSpace(s[..|s| - |t|])
    requires t == [] || !IsJsWhiteSpace(t[0])
    requires |r| <= |t| && r == t[..|r|] && AllWhiteSpace(t[|r|..])
    ensures r == [] <==> AllWhiteSpace(s)
    ensures r != [] ==> !IsJsWhiteSpace(r[0])
  {
    var k := |s| - |t|;
    assert s == s[..k] + t;
    if r == [] {
      assert t == t[|r|..];
      AllWhiteSpaceAppend(s[..k], t);
    } else {
      assert r[0] == t[0] == s[k];
    }
  }

  lemma AllWhiteSpaceAppend(a: string, b: string)
    requires AllWhiteSpace(a) && AllWhiteSpace(b)
    ensures AllWhiteSpace(a + b)
  {
    forall i | 0 <= i < |a + b| ensures IsJsWhiteSpace((a + b)[i]) {
      if i < |a| { assert (a + b)[i] == a[i]; } else { assert (a + b)[i] == b[i - |a|]; }
    }
  }

  lemma {:induction false} TrimStartOfWhiteSpace(ws: string, t: string)
    requires AllWhiteSpace(ws)
    requires t == [] || !IsJsWhiteSpace(t[0])
    ensures TrimStart(ws + t) == t
    decreases |ws|
  {
    if ws == [] {
      assert ws + t == t;
    } else {
      assert (ws + t)[0] == ws[0];
      assert (ws + t)[1..] == ws[1..] + t;
      TrimStartOfWhiteSpace(ws[1..], t);
    }
  }

  // ---------------------------------------------------------------- split

  /** `s.split(sep)[0]`: the longest prefix of `s` free of `sep`; it is all of
      `s` or it stops right before the first `sep`. */
  function SplitFirst(s: string, sep: char): (r: string)
    ensures r <= s
    ensures sep !in r
    ensures r == s || s[|r|] == sep
  {
    if s == [] then []
    else if s[0] == sep then []
    else [s[0]] + SplitFirst(s[1..], sep)
  }

  /** Whatever follows the first separator never reaches `split(sep)[0]`. */
  lemma {:induction false} SplitFirstIgnoresTail(head: string, sep: char, tail: string)
    requires sep !in head
    ensures SplitFirst(head + [sep] + tail, sep) == head
    decreases |head|
  {
    if head == [] {
      assert head + [sep] + tail == [sep] + tail;
    } else {
      assert (head + [sep] + tail)[0] == head[0];
      assert (head + [sep] + tail)[1..] == head[1..] + [sep] + tail;
      SplitFirstIgnoresTail(head[1..], sep, tail);
    }
  }

  /** A separator-free prefix passes through `split(sep)[0]` unchanged. */
  lemma {:induction false} SplitFirstAppend(head: string, sep: char, s: string)
    requires sep !in head
    ensures SplitFirst(head + s, sep) == head + SplitFirst(s, sep)
    decreases |head|
  {
    if head == [] {
      assert head + s == s;
    } else {
      assert (head + s)[0] == head[0];
      assert (head + s)[1..] == head[1..] + s;
      SplitFirstAppend(head[1..], sep, s);
    }
  }

  // ---------------------------------------------------------------- searches

  /** Leftmost occurrence of `c`. */
  function IndexOf(s: string, c: char): (r: Option<nat>)
    ensures r.Some? ==> r.value < |s| && s[r.value] == c && c !in s[..r.value]
    ensures r.None? <==> c !in s
  {
    if s == [] then None
    else if s[0] == c then Some(0)
    else
      match IndexOf(s[1..], c)
      case None => None
      case Some(k) =>
        assert s[..k + 1] == [s[0]] + s[1..][..k];
        Some(k + 1)
  }

  /** Rightmost occurrence of `c`. */
  function LastIndexOf(s: string, c: char): (r: Option<nat>)
    ensures r.Some? ==> r.value < |s| && s[r.value] == c && c !in s[r.value + 1..]
    ensures r.None? <==> c !in s
  {
    if s == [] then None
    else if s[|s| - 1] == c then Some(|s| - 1)
    else
      var r := LastIndexOf(s[..|s| - 1], c);
      assert s == s[..|s| - 1] + [s[|s| - 1]];
      if r.Some? then assert s[r.value + 1..] == s[..|s| - 1][r.value + 1..] + [s[|s| - 1]]; r
      else r
  }

  // ---------------------------------------------------------------- numbers

  predicate IsDigit(c: char) {
    '0' <= c <= '9'
  }

  predicate AllDigits(s: string) {
    forall i :: 0 <= i < |s| ==> IsDigit(s[i])
  }

  /** The leading run of decimal digits. */
  function DigitPrefix(s: string): (r: string)
    ensures r <= s && AllDigits(r)
    ensures r == s || !IsDigit(s[|r|])
  {
    if s != [] && IsDigit(s[0]) then [s[0]] + DigitPrefix(s[1..]) else []
  }

  lemma {:induction false} DigitPrefixOfDigits(ds: string, rest: string)
    requires AllDigits(ds)
    requires rest == [] || !IsDigit(rest[0])
    ensures DigitPrefix(ds + rest) == ds
    decreases |ds|
  {
    if ds == [] {
      assert ds + rest == rest;
    } else {
      assert (ds + rest)[0] == ds[0];
      assert (ds + rest)[1..] == ds[1..] + rest;
      DigitPrefixOfDigits(ds[1..], rest);
    }
  }

  /** The value of a decimal numeral. */
  function DigitsValue(ds: string): nat
    requires AllDigits(ds)
  {
    if ds == [] then 0
    else DigitsValue(ds[..|ds| - 1]) * 10 + (ds[|ds| - 1] as int - '0' as int)
  }

  function Pow10(n: nat): (r: nat)
    ensures r > 0
  {
    if n == 0 then 1 else 10 * Pow10(n - 1)
  }

  /** What remains after an optional leading sign. */
  function Unsigned(t: string): string {
    if |t| > 0 && (t[0] == '+' || t[0] == '-') then t[1..] else t
  }

  /** A decimal literal starts here: a digit, or a point followed by a digit. */
  predicate StartsDecimal(u: string) {
    || (|u| > 0 && IsDigit(u[0]))
    || (|u| > 1 && u[0] == '.' && IsDigit(u[1]))
  }

  /** The digits after a decimal point, if `rest` starts with one. */
  function FractionDigits(rest: string): (r: string)
    ensures AllDigits(r)
  {
    if |rest| > 0 && rest[0] == '.' then DigitPrefix(rest[1..]) else []
  }

  /** The value of `whole.fraction`. */
  function DecimalValue(whole: string, fraction: string): real
    requires AllDigits(whole) && AllDigits(fraction)
  {
    DigitsValue(whole) as real + DigitsValue(fraction) as real / Pow10(|fraction|) as real
  }

  /** The unsigned decimal literal at the start of `u`, read as far as it goes. */
  function ReadDecimal(u: string): (r: Option<real>)
    ensures r.None? <==> !StartsDecimal(u)
  {
    var whole := DigitPrefix(u);
    var fraction := FractionDigits(u[|whole|..]);
    if whole == [] && fraction == [] then None else Some(DecimalValue(whole, fraction))
  }

  /** A signed decimal literal at the very start of `t`, read as far as it goes. */
  function ReadSigned(t: string): (r: Option<real>)
    ensures r.None? <==> !StartsDecimal(Unsigned(t))
  {
    match ReadDecimal(Unsigned(t))
    case None => None
    case Some(magnitude) => Some(if |t| > 0 && t[0] == '-' then -magnitude else magnitude)
  }

  /** `parseFloat(s)` on plain decimals: skip white space, read an optional sign,
      digits and an optional fraction, ignore the rest. `None` is `NaN`: it is
      returned exactly when no decimal literal starts after the white space and
      the sign. */
  function ParseFloat(s: string): (r: Option<real>)
    ensures r.None? <==> !StartsDecimal(Unsigned(TrimStart(s)))
  {
    ReadSigned(TrimStart(s))
  }

  /** `x < y` on a parsed number: every comparison with `NaN` is false. */
  predicate NumberLess(x: Option<real>, y: real) {
    match x
    case None => false
    case Some(v) => v < y
  }

  /** `x > y` on a parsed number: every comparison with `NaN` is false. */
  predicate NumberGreater(x: Option<real>, y: real) {
    match x
    case None => false
    case Some(v) => v > y
  }

  /** `parseFloat` skips the leading white space and reads what follows it. */
  lemma ParseFloatAfterWhiteSpace(ws: string, t: string)
    requires AllWhiteSpace(ws)
    requires t == [] || !IsJsWhiteSpace(t[0])
    ensures ParseFloat(ws + t) == ParseFloat(t)
  {
    TrimStartOfWhiteSpace(ws, t);
    TrimStartOfWhiteSpace([], t);
    assert [] + t == t;
  }

  /** Unsigned text is read by `ReadDecimal` alone. */
  lemma ParseFloatUnsigned(t: string)
    requires t != [] && IsDigit(t[0])
    ensures ParseFloat(t) == ReadDecimal(t)
  {
    TrimStartOfWhiteSpace([], t);
    assert [] + t == t;
    assert Unsigned(t) == t;
  }

  /** The digits after a point are read up to the first non-digit. */
  lemma FractionAfterPoint(fraction: string, rest: string)
    requires AllDigits(fraction)
    requires rest == [] || !IsDigit(rest[0])
    ensures FractionDigits("." + fraction + rest) == fraction
  {
    var tail := "." + fraction + rest;
    assert tail[0] == '.';
    assert tail[1..] == fraction + rest;
    DigitPrefixOfDigits(fraction, rest);
  }

  /** A numeral with a fraction is read as its value, whatever non-digit text
      follows it. */
  lemma ReadDecimalWithFraction(whole: string, fraction: string, rest: string)
    requires whole != [] && AllDigits(whole) && AllDigits(fraction)
    requires rest == [] || !IsDigit(rest[0])
    ensures ReadDecimal(whole + "." + fraction + rest) == Some(DecimalValue(whole, fraction))
  {
    var tail := "." + fraction + rest;
    var t := whole + tail;
    assert whole + "." + fraction + rest == t;
    DigitPrefixOfDigits(whole, tail);
    assert t[|whole|..] == tail;
    FractionAfterPoint(fraction, rest);
  }

  /** A whole numeral is read as its value when neither a digit nor a point
      follows it. */
  lemma ReadDecimalInteger(whole: string, rest: string)
    requires whole != [] && AllDigits(whole)
    requires rest == [] || (!IsDigit(rest[0]) && rest[0] != '.')
    ensures ReadDecimal(whole + rest) == Some(DigitsValue(whole) as real)
  {
    DigitPrefixOfDigits(whole, rest);
    assert (whole + rest)[|whole|..] == rest;
    assert FractionDigits(rest) == [];
    assert DecimalValue(whole, []) == DigitsValue(whole) as real;
  }

  /** A numeral with a fraction, after any white space, is read back as its
      value when neither a digit nor an exponent mark follows it. */
  lemma ParseFloatReadsDecimal(ws: string, whole: string, fraction: string, rest: string)
    requires AllWhiteSpace(ws)
    requires whole != [] && AllDigits(whole) && AllDigits(fraction)
    requires rest == [] || (!IsDigit(rest[0]) && rest[0] != 'e' && rest[0] != 'E')
    ensures ParseFloat(ws + whole + "." + fraction + rest) == Some(DecimalValue(whole, fraction))
  {
    var t := whole + "." + fraction + rest;
    assert ws + whole + "." + fraction + rest == ws + t;
    assert t[0] == whole[0];
    ParseFloatAfterWhiteSpace(ws, t);
    ParseFloatUnsigned(t);
    ReadDecimalWithFraction(whole, fraction, rest);
  }

  /** A whole numeral, after any white space, is read back as its value when
      neither a digit, a point nor an exponent mark follows it. */
  lemma ParseFloatReadsInteger(ws: string, whole: string, rest: string)
    requires AllWhiteSpace(ws)
    requires whole != [] && AllDigits(whole)
    requires rest == [] || (!IsDigit(rest[0]) && rest[0] != '.' && rest[0] != 'e' && rest[0] != 'E')
    ensures ParseFloat(ws + whole + rest) == Some(DigitsValue(whole) as real)
  {
    var t := whole + rest;
    assert ws + whole + rest == ws + t;
    assert t[0] == whole[0];
    ParseFloatAfterWhiteSpace(ws, t);
    ParseFloatUnsigned(t);
    ReadDecimalInteger(whole, rest);
  }

  /** Text that does not start with white space is read from its first
      character. */
  lemma ParseFloatNoLeadingWhiteSpace(t: string)
    requires t != [] && !IsJsWhiteSpace(t[0])
    ensures ParseFloat(t) == ReadSigned(t)
  {
    assert TrimStart(t) == t;
  }

  /** A leading minus negates whatever decimal literal follows it. */
  lemma ParseFloatNegative(u: string)
    requires StartsDecimal(u)
    ensures ParseFloat(['-'] + u) == Some(-ReadDecimal(u).value)
  {
    ParseFloatNoLeadingWhiteSpace(['-'] + u);
    assert Unsigned(['-'] + u) == u;
  }

  /** A numeral with no whole digits is read from its point. */
  lemma ReadDecimalFromPoint(fraction: string, rest: string)
    requires fraction != [] && AllDigits(fraction)
    requires rest == [] || !IsDigit(rest[0])
    ensures ReadDecimal(['.'] + fraction + rest) == Some(DecimalValue([], fraction))
  {
    var t := ['.'] + fraction + rest;
    assert DigitPrefix(t) == [];
    assert t[0..] == t;
    assert ['.'] + fraction + rest == "." + fraction + rest;
    FractionAfterPoint(fraction, rest);
  }

  /** A numeral may open with its point and no whole digits: it is read as the
      fraction alone. */
  lemma ParseFloatLeadingPoint(fraction: string, rest: string)
    requires fraction != [] && AllDigits(fraction)
    requires rest == [] || !IsDigit(rest[0])
    ensures ParseFloat(['.'] + fraction + rest) == Some(DigitsValue(fraction) as real / Pow10(|fraction|) as real)
  {
    var t := ['.'] + fraction + rest;
    assert t[0] == '.';
    TrimStartOfWhiteSpace([], t);
    assert [] + t == t;
    assert Unsigned(t) == t;
    ReadDecimalFromPoint(fraction, rest);
    assert ParseFloat(t) == Some(DecimalValue([], fraction));
    assert DecimalValue([], fraction) == 0.0 + DigitsValue(fraction) as real / Pow10(|fraction|) as real;
  }

  // ---------------------------------------------------------------- substrings

  /** `needle` stands in `hay` from position `k` on. */
  predicate OccursAt(hay: string, needle: string, k: nat) {
    k + |needle| <= |hay| && hay[k..k + |needle|] == needle
  }

  ghost predicate Occurs(hay: string, needle: string) {
    exists k: nat :: OccursAt(hay, needle, k)
  }

  /** `hay` ends with `suffix`. */
  predicate EndsWith(hay: string, suffix: string) {
    |suffix| <= |hay| && hay[|hay| - |suffix|..] == suffix
  }

  lemma EndsWithLast(front: string, suffix: string)
    ensures EndsWith(front + suffix, suffix)
  {
    assert (front + suffix)[|front|..] == suffix;
  }

  /** Each piece of a two-piece concatenation stands after the one before it. */
  lemma OccursInTwo(a: string, b: string)
    ensures OccursAt(a + b, a, 0)
    ensures OccursAt(a + b, b, |a|)
  {
    assert (a + b)[..|a|] == a;
    assert (a + b)[|a|..] == b;
  }

  /** Each piece of a three-piece concatenation stands at the sum of the
      lengths before it. */
  lemma OccursInThree(a: string, b: string, c: string)
    ensures OccursAt(a + b + c, a, 0)
    ensures OccursAt(a + b + c, b, |a|)
    ensures OccursAt(a + b + c, c, |a| + |b|)
  {
    var s := a + b + c;
    assert s[..|a|] == a;
    assert s[|a|..|a| + |b|] == b;
    assert s[|a| + |b|..] == c;
  }

  /** Each piece of a five-piece concatenation stands at the sum of the lengths
      before it. */
  lemma OccursInFive(a: string, b: string, c: string, d: string, e: string)
    ensures OccursAt(a + b + c + d + e, a, 0)
    ensures OccursAt(a + b + c + d + e, b, |a|)
    ensures OccursAt(a + b + c + d + e, c, |a| + |b|)
    ensures OccursAt(a + b + c + d + e, d, |a| + |b| + |c|)
    ensures OccursAt(a + b + c + d + e, e, |a| + |b| + |c| + |d|)
  {
    var s := a + b + c + d + e;
    assert s[..|a|] == a;
    assert s[|a|..|a| + |b|] == b;
    assert s[|a| + |b|..|a| + |b| + |c|] == c;
    assert s[|a| + |b| + |c|..|a| + |b| + |c| + |d|] == d;
    assert s[|a| + |b| + |c| + |d|..] == e;
  }

  /** An occurrence inside an occurrence is an occurrence in the outer text. */
  lemma OccursAtNested(hay: string, mid: string, needle: string, k: nat, m: nat)
    requires OccursAt(hay, mid, k) && OccursAt(mid, needle, m)
    ensures OccursAt(hay, needle, k + m)
  {
    forall i | 0 <= i < |needle| ensures hay[k + m..k + m + |needle|][i] == needle[i] {
      assert hay[k..k + |mid|][m + i] == mid[m + i];
      assert mid[m..m + |needle|][i] == needle[i];
    }
  }

  /** Two occurrences side by side are one occurrence of the two joined. */
  lemma OccursAtAdjacent(hay: string, a: string, b: string, k: nat)
    requires OccursAt(hay, a, k) && OccursAt(hay, b, k + |a|)
    ensures OccursAt(hay, a + b, k)
  {
    assert hay[k..k + |a + b|] == hay[k..k + |a|] + hay[k + |a|..k + |a| + |b|];
  }
}
