/** pointKey: the dictionary key of a location, "<latitude> <longitude>" with
    both coordinates written as JavaScript writes an integer (decimal digits,
    a leading '-' when negative). */
module PointKeys {
  import opened Messages

  predicate IsDigit(c: char) { '0' <= c <= '9' }

  function DigitChar(d: nat): (c: char)
    requires d < 10
    ensures IsDigit(c) && (c as int) - ('0' as int) == d
  {
    (('0' as int) + d) as char
  }

  function DigitValue(c: char): nat
    requires IsDigit(c)
  {
    (c as int) - ('0' as int)
  }

  /** The decimal digits of `n`, most significant first, without leading zeros. */
  function NatToDecimal(n: nat): (s: string)
    ensures |s| >= 1
    ensures forall i :: 0 <= i < |s| ==> IsDigit(s[i])
    ensures s[0] == '0' <==> n == 0
  {
    if n < 10 then [DigitChar(n)] else NatToDecimal(n / 10) + [DigitChar(n % 10)]
  }

  /** `String(i)` for an integer `i` whose magnitude is below 10^21. */
  function IntToDecimal(i: int): (s: string)
    ensures |s| >= 1
    ensures s[0] == '-' <==> i < 0
    ensures s[0] == '-' || IsDigit(s[0])
    ensures forall j :: 1 <= j < |s| ==> IsDigit(s[j])
  {
    if i < 0 then "-" + NatToDecimal(-i) else NatToDecimal(i)
  }

  /** The key holds exactly one space, which separates the rendered latitude
      from the rendered longitude. */
  function PointKey(p: Point): (k: string)
    ensures var lat := IntToDecimal(p.latitude);
      && |lat| < |k|
      && k[..|lat|] == lat
      && k[|lat| + 1..] == IntToDecimal(p.longitude)
      && forall j :: 0 <= j < |k| ==> (k[j] == ' ' <==> j == |lat|)
  {
    IntToDecimal(p.latitude) + " " + IntToDecimal(p.longitude)
  }

  predicate AllDigits(s: string)
  {
    |s| >= 1 && forall i :: 0 <= i < |s| ==> IsDigit(s[i])
  }

  /** The number a non-empty string of decimal digits denotes. */
  function DecimalValue(s: string): nat
    requires AllDigits(s)
  {
    var n := |s| - 1;
    if n == 0 then DigitValue(s[0]) else DecimalValue(s[..n]) * 10 + DigitValue(s[n])
  }

  function ParseInt(s: string): Option<int>
  {
    if |s| >= 1 && s[0] == '-' then
      if AllDigits(s[1..]) then Some(-(DecimalValue(s[1..]) as int)) else None
    else if AllDigits(s) then Some(DecimalValue(s))
    else None
  }

  /** The index of the first space in `s`, or `|s|` when there is none. */
  function FirstSpace(s: string): (i: nat)
    ensures i <= |s|
    ensures forall j :: 0 <= j < i ==> s[j] != ' '
    ensures i < |s| ==> s[i] == ' '
  {
    if s == [] then 0 else if s[0] == ' ' then 0 else 1 + FirstSpace(s[1..])
  }

  /** Reads a key back into the point it names. */
  function ParseKey(k: string): Option<Point>
  {
    var i := FirstSpace(k);
    if i == |k| then None
    else
      match (ParseInt(k[..i]), ParseInt(k[i + 1..]))
      case (Some(lat), Some(lon)) => Some(Point(lat, lon))
      case _ => None
  }

  lemma {:induction false} DecimalRoundTrip(n: nat)
    ensures DecimalValue(NatToDecimal(n)) == n
  {
    if n >= 10 {
      var s := NatToDecimal(n);
      assert s[..|s| - 1] == NatToDecimal(n / 10);
      DecimalRoundTrip(n / 10);
    }
  }

  lemma IntRoundTrip(i: int)
    ensures ParseInt(IntToDecimal(i)) == Some(i)
  {
    var s := IntToDecimal(i);
    if i < 0 {
      assert s[1..] == NatToDecimal(-i);
      DecimalRoundTrip(-i);
    } else {
      assert IsDigit(s[0]);
      DecimalRoundTrip(i);
    }
  }

  /** Reading a key back gives the point it was made from. */
  lemma KeyRoundTrip(p: Point)
    ensures ParseKey(PointKey(p)) == Some(p)
  {
    var lat, lon := IntToDecimal(p.latitude), IntToDecimal(p.longitude);
    var k := PointKey(p);
    assert forall j :: 0 <= j < |lat| ==> k[j] == lat[j] != ' ';
    assert k[|lat|] == ' ';
    var i := FirstSpace(k);
    assert i == |lat|;
    assert k[..i] == lat;
    assert k[i + 1..] == lon;
    IntRoundTrip(p.latitude);
    IntRoundTrip(p.longitude);
  }

  /** Two locations share a key only when they are the same location. */
  lemma KeyInjective(p: Point, q: Point)
    ensures PointKey(p) == PointKey(q) <==> p == q
  {
    KeyRoundTrip(p);
    KeyRoundTrip(q);
  }
}
