/** The parts of the Java platform the performer relies on: nullable string
    references, Guava's isNullOrEmpty, and Integer.parseInt in radix 10. */
module Java {

  datatype Option<+T> = None | Some(value: T)

  /** A java.lang.String reference; None stands for null. */
  type JString = Option<string>

  /** Guava Strings.isNullOrEmpty. */
  predicate IsNullOrEmpty(s: JString) {
    s.None? || s.value == ""
  }

  /** Integer.MIN_VALUE and Integer.MAX_VALUE. */
  const MinInt: int := -0x8000_0000
  const MaxInt: int := 0x7fff_ffff

  predicate IsDigit(ch: char) {
    '0' <= ch <= '9'
  }

  predicate AllDigits(s: string) {
    forall i :: 0 <= i < |s| ==> IsDigit(s[i])
  }

  function DigitValue(ch: char): (d: nat)
    requires IsDigit(ch)
    ensures d < 10
  {
    ch as int - '0' as int
  }

  function DigitChar(d: nat): (ch: char)
    requires d < 10
    ensures IsDigit(ch) && DigitValue(ch) == d
  {
    ('0' as int + d) as char
  }

  /** The value of a run of decimal digits, most significant digit first. */
  function DigitsValue(s: string): nat
    requires AllDigits(s)
  {
    if s == [] then 0 else 10 * DigitsValue(s[..|s| - 1]) + DigitValue(s[|s| - 1])
  }

  /** t without its leading sign, if it has one. */
  function Unsigned(t: string): (u: string)
    ensures |u| <= |t|
  {
    if t != [] && (t[0] == '-' || t[0] == '+') then t[1..] else t
  }

  /** Integer.parseInt(s): None wherever Java throws NumberFormatException
      (null, "", a lone sign, a non-digit, or a value outside 32 bits). */
  function ParseInt(s: JString): (r: Option<int>)
    ensures r.Some? ==> MinInt <= r.value <= MaxInt
    ensures r.Some? ==> s.Some? && |s.value| > 0 && (IsDigit(s.value[0]) || s.value[0] in "+-")
    ensures r.Some? ==> (|s.value| > 1 || IsDigit(s.value[0]))
                        && forall i :: 1 <= i < |s.value| ==> IsDigit(s.value[i])
    ensures r.Some? ==> (r.value < 0 ==> s.value[0] == '-') && (s.value[0] == '-' ==> r.value <= 0)
    ensures IsNullOrEmpty(s) ==> r.None?
  {
    if IsNullOrEmpty(s) then None
    else
      var t := s.value;
      var digits := Unsigned(t);
      if digits == [] || !AllDigits(digits) then None
      else
        var magnitude: int := DigitsValue(digits);
        var n: int := if t[0] == '-' then -magnitude else magnitude;
        if MinInt <= n <= MaxInt then Some(n) else None
  }

  /** The shortest decimal representation of n. */
  function Decimal(n: nat): (s: string)
    ensures |s| > 0 && AllDigits(s)
  {
    if n < 10 then [DigitChar(n)] else Decimal(n / 10) + [DigitChar(n % 10)]
  }

  /** Integer.toString(n). */
  function IntToString(n: int): string {
    if n < 0 then "-" + Decimal(-n) else Decimal(n)
  }

  lemma {:induction false} DecimalValue(n: nat)
    ensures DigitsValue(Decimal(n)) == n
  {
    if n >= 10 {
      var s := Decimal(n);
      assert s[..|s| - 1] == Decimal(n / 10);
      DecimalValue(n / 10);
    }
  }

  /** Every 32-bit integer, written in decimal, parses back to itself. */
  lemma ParseIntToString(n: int)
    requires MinInt <= n <= MaxInt
    ensures ParseInt(Some(IntToString(n))) == Some(n)
  {
    if n < 0 {
      DecimalValue(-n);
      assert IntToString(n)[1..] == Decimal(-n);
    } else {
      DecimalValue(n);
    }
  }

  /** d without its redundant leading zeros ("007" becomes "7", "000" becomes "0"). */
  function StripZeros(d: string): (r: string)
    ensures |r| <= |d|
  {
    if |d| > 1 && d[0] == '0' then StripZeros(d[1..]) else d
  }

  lemma DigitCharOfValue(ch: char)
    requires IsDigit(ch)
    ensures DigitChar(DigitValue(ch)) == ch
  {
  }

  /** A leading zero does not change the value of a run of digits. */
  lemma {:induction false} LeadingZeroValue(d: string)
    requires AllDigits(d)
    ensures AllDigits("0" + d) && DigitsValue("0" + d) == DigitsValue(d)
  {
    if d != [] {
      var z := "0" + d;
      assert z[..|z| - 1] == "0" + d[..|d| - 1];
      LeadingZeroValue(d[..|d| - 1]);
    }
  }

  lemma {:induction false} StripZerosValue(d: string)
    requires AllDigits(d)
    ensures AllDigits(StripZeros(d)) && DigitsValue(StripZeros(d)) == DigitsValue(d)
  {
    if |d| > 1 && d[0] == '0' {
      StripZerosValue(d[1..]);
      assert d == "0" + d[1..];
      LeadingZeroValue(d[1..]);
    }
  }

  /** The value of a run of digits is at least that of its first digit. */
  lemma {:induction false} FirstDigitBound(d: string)
    requires d != [] && AllDigits(d)
    ensures DigitsValue(d) >= DigitValue(d[0])
  {
    if |d| > 1 {
      FirstDigitBound(d[..|d| - 1]);
    }
  }

  /** A run of digits with no redundant leading zero is the decimal writing of its value. */
  lemma {:induction false} CanonicalDigits(d: string)
    requires d != [] && AllDigits(d) && (|d| == 1 || d[0] != '0')
    ensures Decimal(DigitsValue(d)) == d
  {
    if |d| == 1 {
      DigitCharOfValue(d[0]);
      assert d == [d[0]];
    } else {
      var init := d[..|d| - 1];
      FirstDigitBound(init);
      CanonicalDigits(init);
      DigitCharOfValue(d[|d| - 1]);
      var v := DigitsValue(d);
      assert v / 10 == DigitsValue(init) && v % 10 == DigitValue(d[|d| - 1]);
      assert d == init + [d[|d| - 1]];
    }
  }

  lemma {:induction false} StripZerosCanonical(d: string)
    requires d != [] && AllDigits(d)
    ensures var r := StripZeros(d); r != [] && (|r| == 1 || r[0] != '0')
  {
    if |d| > 1 && d[0] == '0' {
      StripZerosCanonical(d[1..]);
    }
  }

  /** What a successful parse accepted: an optional sign, '-' exactly when
      the value is negative (or "-0"), then digits that, leading zeros removed, are the
      decimal writing of the value's magnitude. */
  lemma ParseIntAccepts(s: JString, n: int)
    requires ParseInt(s) == Some(n)
    ensures var u := Unsigned(s.value);
            && AllDigits(u)
            && StripZeros(u) == Decimal(if n < 0 then -n else n)
            && (n < 0 <==> s.value[0] == '-' && n != 0)
  {
    var u := Unsigned(s.value);
    StripZerosValue(u);
    StripZerosCanonical(u);
    CanonicalDigits(StripZeros(u));
  }

  /** Strings with anything but digits after the sign, and a lone sign, are rejected. */
  lemma ParseIntRejectsJunk()
    ensures ParseInt(Some("7a")).None? && ParseInt(Some("4 2")).None? && ParseInt(Some("1e3")).None?
    ensures ParseInt(Some("+")).None? && ParseInt(Some("-")).None? && ParseInt(Some(" 7")).None?
  {
  }
}
