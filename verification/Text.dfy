/** Decimal rendering and byte order of the strings that names and labels are
    made of: strconv's Itoa, Atoi and ParseUint, fmt's %06d, Go's string "<". */
module Text {
  import opened Common

  predicate IsDigit(c: char) {
    '0' <= c <= '9'
  }

  function DigitChar(d: nat): char
    requires d < 10
  {
    "0123456789"[d]
  }

  function DigitValue(c: char): nat
    requires IsDigit(c)
  {
    c as int - '0' as int
  }

  function Itoa(n: nat): string {
    if n < 10 then [DigitChar(n)] else Itoa(n / 10) + [DigitChar(n % 10)]
  }

  predicate AllDigits(s: string) {
    forall i :: 0 <= i < |s| ==> IsDigit(s[i])
  }

  function Digits(s: string): nat
    requires AllDigits(s)
  {
    if s == "" then 0 else 10 * Digits(s[..|s| - 1]) + DigitValue(s[|s| - 1])
  }

  /** strconv.ParseUint(s, 10, 64), without the 64-bit range check. */
  function ParseUint(s: string): Option<nat> {
    if s != "" && AllDigits(s) then Some(Digits(s)) else None
  }

  /** strconv.Atoi: an optional sign, then decimal digits. */
  function Atoi(s: string): Option<int> {
    if s == "" then None
    else
      var unsigned := if s[0] == '+' || s[0] == '-' then s[1..] else s;
      match ParseUint(unsigned)
      case None => None
      case Some(n) =>
        var v: int := n;
        Some(if s[0] == '-' then -v else v)
  }

  lemma {:induction false} ItoaRoundTrip(n: nat)
    ensures AllDigits(Itoa(n)) && Itoa(n) != "" && Digits(Itoa(n)) == n
    ensures ParseUint(Itoa(n)) == Some(n) && Atoi(Itoa(n)) == Some(n)
  {
    var s := Itoa(n);
    if n < 10 {
      assert Digits(s[..0]) == 0;
    } else {
      ItoaRoundTrip(n / 10);
      assert s[..|s| - 1] == Itoa(n / 10);
    }
  }

  /** Nothing but a non-empty run of digits parses. */
  lemma ParsesExactly(s: string)
    ensures ParseUint(s).Some? <==> s != "" && forall c :: c in s ==> '0' <= c <= '9'
    ensures ParseUint(s).Some? ==> Atoi(s).Some? && Atoi(s).value == ParseUint(s).value
  {
    if s != "" && forall c :: c in s ==> '0' <= c <= '9' {
      assert forall i :: 0 <= i < |s| ==> s[i] in s;
    }
    if ParseUint(s).Some? {
      assert IsDigit(s[0]);
    }
  }

  /** A sign only negates. */
  lemma SignsParse(n: nat)
    ensures Atoi("-" + Itoa(n)).Some? && Atoi("-" + Itoa(n)).value == -(n as int)
    ensures Atoi("+" + Itoa(n)).Some? && Atoi("+" + Itoa(n)).value == n
  {
    ItoaRoundTrip(n);
    assert ("-" + Itoa(n))[1..] == Itoa(n) && ("+" + Itoa(n))[1..] == Itoa(n);
  }

  // ---- %06d ----

  function Pow10(w: nat): nat {
    if w == 0 then 1 else 10 * Pow10(w - 1)
  }

  /** The last w decimal digits of n, zero-padded. */
  function PadDigits(n: nat, w: nat): string {
    if w == 0 then "" else PadDigits(n / 10, w - 1) + [DigitChar(n % 10)]
  }

  /** fmt.Sprintf("%06d", n): padded below a million, all its digits above. */
  function Pad6(n: nat): string {
    if n < 1_000_000 then PadDigits(n, 6) else Itoa(n)
  }

  lemma {:induction false} PadDigitsRoundTrip(n: nat, w: nat)
    requires n < Pow10(w)
    ensures |PadDigits(n, w)| == w && AllDigits(PadDigits(n, w)) && Digits(PadDigits(n, w)) == n
  {
    if w > 0 {
      PadDigitsRoundTrip(n / 10, w - 1);
      var s := PadDigits(n, w);
      assert s[..|s| - 1] == PadDigits(n / 10, w - 1);
    }
  }

  lemma Pow10Six()
    ensures Pow10(6) == 1_000_000
  {
    assert Pow10(3) == 1_000;
    assert Pow10(5) == 100 * Pow10(3);
  }

  /** A padded number reads back as itself, beyond a million too. */
  lemma Pad6RoundTrip(n: nat)
    ensures Atoi(Pad6(n)) == Some(n)
    ensures n < 1_000_000 ==> |Pad6(n)| == 6
  {
    Pow10Six();
    if n < 1_000_000 {
      PadDigitsRoundTrip(n, 6);
      ParsesExactly(Pad6(n));
    } else {
      ItoaRoundTrip(n);
    }
  }

  // ---- Byte order ----

  /** Go's string "<". */
  predicate Less(a: string, b: string) {
    b != "" && (a == "" || a[0] < b[0] || (a[0] == b[0] && Less(a[1..], b[1..])))
  }

  lemma {:induction false} LessTransitive(a: string, b: string, c: string)
    requires Less(a, b) && Less(b, c)
    ensures Less(a, c)
  {
    if a != "" && a[0] == b[0] == c[0] {
      LessTransitive(a[1..], b[1..], c[1..]);
    }
  }

  lemma {:induction false} LessTotal(a: string, b: string)
    ensures (Less(a, b) && a != b && !Less(b, a)) || a == b || (Less(b, a) && a != b && !Less(a, b))
    ensures !Less(a, a)
  {
    if a != "" {
      LessTotal(a[1..], if b == "" then "" else b[1..]);
      if b != "" && a[0] == b[0] && a[1..] == b[1..] {
        assert a == [a[0]] + a[1..] == b;
      }
    }
  }

  lemma {:induction false} LessUnderPrefix(p: string, a: string, b: string)
    ensures Less(p + a, p + b) <==> Less(a, b)
  {
    if p == "" {
      assert p + a == a && p + b == b;
    } else {
      LessUnderPrefix(p[1..], a, b);
      assert (p + a)[1..] == p[1..] + a && (p + b)[1..] == p[1..] + b;
    }
  }

  /** A proper prefix sorts first. */
  lemma PrefixSortsFirst(a: string, suffix: string)
    requires suffix != ""
    ensures Less(a, a + suffix)
  {
    LessUnderPrefix(a, "", suffix);
    assert a + "" == a;
  }

  lemma {:induction false} LessSameLengthSnoc(a: string, b: string, x: char, y: char)
    requires |a| == |b|
    ensures Less(a + [x], b + [y]) <==> Less(a, b) || (a == b && x < y)
  {
    if a != "" {
      LessSameLengthSnoc(a[1..], b[1..], x, y);
      assert (a + [x])[1..] == a[1..] + [x] && (b + [y])[1..] == b[1..] + [y];
      assert a == [a[0]] + a[1..] && b == [b[0]] + b[1..];
    }
  }

  lemma DigitCharOrder(a: nat, b: nat)
    requires a < 10 && b < 10
    ensures DigitChar(a) < DigitChar(b) <==> a < b
  {
  }

  lemma LessByQuotientThenRemainder(m: nat, n: nat)
    ensures m < n <==> m / 10 < n / 10 || (m / 10 == n / 10 && m % 10 < n % 10)
  {
  }

  lemma {:induction false} PadDigitsOrder(m: nat, n: nat, w: nat)
    requires m < Pow10(w) && n < Pow10(w)
    ensures Less(PadDigits(m, w), PadDigits(n, w)) <==> m < n
  {
    if w > 0 {
      var p, q := PadDigits(m / 10, w - 1), PadDigits(n / 10, w - 1);
      PadDigitsOrder(m / 10, n / 10, w - 1);
      PadDigitsRoundTrip(m / 10, w - 1);
      PadDigitsRoundTrip(n / 10, w - 1);
      assert p == q <==> m / 10 == n / 10;
      LessSameLengthSnoc(p, q, DigitChar(m % 10), DigitChar(n % 10));
      DigitCharOrder(m % 10, n % 10);
      LessByQuotientThenRemainder(m, n);
    }
  }

  /** Below a million, zero-padded names sort by index. */
  lemma Pad6Order(m: nat, n: nat)
    requires m < 1_000_000 && n < 1_000_000
    ensures Less(Pad6(m), Pad6(n)) <==> m < n
  {
    Pow10Six();
    PadDigitsOrder(m, n, 6);
  }
}
