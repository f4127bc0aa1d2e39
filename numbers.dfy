/**
  The numeric conversions of the record format: `%d` and `atoi` for whole
  numbers, `%lf` and `%.2f` for the balance owed, which this model keeps
  in whole cents.
 */
module Numbers {
  import opened Wrappers
  import opened Text

  const Int32Min: int := -0x8000_0000
  const Int32Max: int := 0x7FFF_FFFF

  predicate IsInt32(n: int) {
    Int32Min <= n <= Int32Max
  }

  predicate AllDigits(s: string) {
    forall i :: 0 <= i < |s| ==> IsDigit(s[i])
  }

  function DigitChar(d: nat): (c: char)
    requires d < 10
    ensures IsDigit(c)
  {
    ('0' as int + d) as char
  }

  function DigitValue(c: char): (d: nat)
    requires IsDigit(c)
    ensures d < 10 && DigitChar(d) == c
  {
    c as int - '0' as int
  }

  // ---------------------------------------------------------------- printing

  /** Decimal digits of `n`, most significant first, with no leading zero. */
  function NatToString(n: nat): (s: string)
    ensures 1 <= |s| && AllDigits(s)
  {
    if n < 10 then [DigitChar(n)] else NatToString(n / 10) + [DigitChar(n % 10)]
  }

  /** `printf("%d", n)` */
  function IntToString(n: int): (s: string)
  {
    if n < 0 then "-" + NatToString(-n) else NatToString(n)
  }

  /** `printf("%.2f", cents / 100.0)` for a balance held in whole cents. */
  function CentsToString(cents: int): (s: string)
  {
    if cents < 0 then "-" + UnsignedCents(-cents) else UnsignedCents(cents)
  }

  function UnsignedCents(cents: nat): string
  {
    var r := cents % 100;
    NatToString(cents / 100) + "." + [DigitChar(r / 10), DigitChar(r % 10)]
  }

  // ----------------------------------------------------------------- reading

  /** What is left of `s` once its leading white space is skipped. */
  function SkipSpace(s: string): (r: string)
    ensures r != [] ==> !IsSpace(r[0])
    ensures |r| <= |s|
  {
    if s != [] && IsSpace(s[0]) then SkipSpace(s[1..]) else s
  }

  /** The number of digits `s` starts with. */
  function DigitRun(s: string): (k: nat)
    ensures k <= |s|
    ensures forall i :: 0 <= i < k ==> IsDigit(s[i])
    ensures k < |s| ==> !IsDigit(s[k])
  {
    if s != [] && IsDigit(s[0]) then 1 + DigitRun(s[1..]) else 0
  }

  /** The value of a string of decimal digits, read most significant first. */
  function DigitsValue(s: string): nat
    requires AllDigits(s)
  {
    if s == [] then 0 else DigitsValue(s[..|s| - 1]) * 10 + DigitValue(s[|s| - 1])
  }

  /** The sign `s` may start with, and what follows it. */
  function SplitSign(t: string): (r: (bool, string))
    ensures |r.1| <= |t|
  {
    if t != [] && (t[0] == '-' || t[0] == '+') then (t[0] == '-', t[1..]) else (false, t)
  }

  /**
    The `%d` conversion of `scanf`: white space, an optional sign, then at
    least one digit. Gives the value and the text after it, or None when no
    digit follows (a matching failure). Every digit in reach is taken, so
    what is left is shorter than `s` and does not start with a digit.
   */
  function ScanInt(s: string): (r: Option<(int, string)>)
    ensures r.Some? ==> |r.value.1| < |s|
    ensures r.Some? && r.value.1 != [] ==> !IsDigit(r.value.1[0])
  {
    var (negative, u) := SplitSign(SkipSpace(s));
    var k := DigitRun(u);
    if k == 0 then None
    else
      var v: int := DigitsValue(u[..k]);
      Some((if negative then -v else v, u[k..]))
  }

  /** glibc's `atoi`, `(int) strtol(s, NULL, 10)`: the value saturates at 64 bits and is then cut to 32 bits; 0 when there is no digit. */
  function Atoi(s: string): (v: int)
    ensures IsInt32(v)
    ensures ScanInt(s).None? ==> v == 0
    ensures ScanInt(s).Some? && IsInt32(ScanInt(s).value.0) ==> v == ScanInt(s).value.0
  {
    match ScanInt(s)
    case None => 0
    case Some((x, _)) => ToInt32(Saturate64(x))
  }

  function Saturate64(x: int): int
  {
    if x < -0x8000_0000_0000_0000 then -0x8000_0000_0000_0000
    else if x > 0x7FFF_FFFF_FFFF_FFFF then 0x7FFF_FFFF_FFFF_FFFF
    else x
  }

  /** Conversion to a 32-bit `int`: two's-complement wrap-around. */
  function ToInt32(x: int): (v: int)
    ensures IsInt32(v)
    ensures IsInt32(x) ==> v == x
  {
    (x - Int32Min) % 0x1_0000_0000 + Int32Min
  }

  /** The cents of a fraction: its first two digits; later digits are dropped. */
  function Hundredths(f: string): (c: nat)
    requires AllDigits(f)
    ensures c < 100
  {
    if |f| == 0 then 0
    else if |f| == 1 then 10 * DigitValue(f[0])
    else 10 * DigitValue(f[0]) + DigitValue(f[1])
  }

  /**
    The `%lf` conversion of `scanf` for plain decimal notation, in cents:
    white space, an optional sign, digits with an optional decimal point,
    and at least one digit before or after the point. The value is rounded
    down to the cent, so a negative amount with a non-zero digit past the
    hundredths loses one more cent: the result is below zero exactly when
    the number read is (`ScanCentsSign`). Every digit in reach is taken,
    so what is left is shorter than `s` and does not start with a digit.
   */
  function ScanCents(s: string): (r: Option<(int, string)>)
    ensures r.Some? ==> |r.value.1| < |s|
    ensures r.Some? && r.value.1 != [] ==> !IsDigit(r.value.1[0])
  {
    var t := SkipSpace(s);
    var u := SplitSign(t).1;
    match ScanUnsignedCents(u)
    case None => None
    case Some((c, rest)) =>
      var cents := if !SplitSign(t).0 then c as int else if ExactCents(u) then -(c as int) else -(c as int) - 1;
      Some((cents, rest))
  }

  /** Every digit of the number `u` starts with past the hundredths is zero: it is a whole number of cents. */
  predicate ExactCents(u: string)
  {
    var k := DigitRun(u);
    if k < |u| && u[k] == '.' then
      var f := u[k + 1..];
      forall i :: 2 <= i < DigitRun(f) ==> f[i] == '0'
    else true
  }

  /** Every digit of the number `u` starts with, before and after the point, is zero. */
  predicate ZeroNumber(u: string)
  {
    var k := DigitRun(u);
    && (forall i :: 0 <= i < k ==> u[i] == '0')
    && if k < |u| && u[k] == '.' then
         var f := u[k + 1..];
         forall i :: 0 <= i < DigitRun(f) ==> f[i] == '0'
       else true
  }

  /** The unsigned part of ScanCents. */
  function ScanUnsignedCents(u: string): (r: Option<(nat, string)>)
    ensures r.Some? ==> |r.value.1| < |u|
    ensures r.Some? && r.value.1 != [] ==> !IsDigit(r.value.1[0])
  {
    var k := DigitRun(u);
    var whole := DigitsValue(u[..k]);
    if k < |u| && u[k] == '.' then
      var f := u[k + 1..];
      var m := DigitRun(f);
      if k == 0 && m == 0 then None
      else Some((whole * 100 + Hundredths(f[..m]), f[m..]))
    else if k == 0 then None
    else Some((whole * 100, u[k..]))
  }

  /** A digit string has the value zero exactly when every digit is `0`. */
  lemma {:induction false} DigitsValueZero(s: string)
    requires AllDigits(s)
    ensures DigitsValue(s) == 0 <==> forall i :: 0 <= i < |s| ==> s[i] == '0'
  {
    if s != [] {
      var t := s[..|s| - 1];
      DigitsValueZero(t);
      assert forall i :: 0 <= i < |t| ==> t[i] == s[i];
    }
  }

  /** Zero cents with no digit dropped is read exactly from a number written with zeros only. */
  lemma ZeroCents(u: string)
    requires ScanUnsignedCents(u).Some?
    ensures ScanUnsignedCents(u).value.0 == 0 && ExactCents(u) <==> ZeroNumber(u)
  {
    var k := DigitRun(u);
    DigitsValueZero(u[..k]);
    assert forall i :: 0 <= i < k ==> u[..k][i] == u[i];
    if k < |u| && u[k] == '.' {
      var f := u[k + 1..];
      var g := f[..DigitRun(f)];
      assert forall i :: 0 <= i < |g| ==> g[i] == f[i];
    }
  }

  /**
    A balance read is below zero exactly when a minus sign stands before a
    number that is not all zeros: the test `amountOwed < 0` of `AddBoat`
    gives the same answer on the cents as on the C `double`.
   */
  lemma ScanCentsSign(s: string)
    requires ScanCents(s).Some?
    ensures ScanCents(s).value.0 < 0 <==> SplitSign(SkipSpace(s)).0 && !ZeroNumber(SplitSign(SkipSpace(s)).1)
  {
    ZeroCents(SplitSign(SkipSpace(s)).1);
  }

  /** A debt of a tenth of a cent reads as one cent owed the other way: below zero, as the `double` is. */
  lemma SubCentDebt()
    ensures ScanCents("-0.001") == Some((-1, ""))
  {
    var u := "0.001";
    assert SplitSign(SkipSpace("-0.001")) == (true, u);
    assert DigitRun(u) == 1 && u[1] == '.';
    var f := u[2..];
    assert f == "001" && DigitRun(f) == 3;
    assert !ExactCents(u) by {
      assert f[2] != '0';
    }
  }

  // ------------------------------------------------------------ round trips

  /** Digits read back give the number printed. */
  lemma {:induction false} DigitsValueOfNatToString(n: nat)
    ensures DigitsValue(NatToString(n)) == n
  {
    if n >= 10 {
      var s := NatToString(n);
      assert s[..|s| - 1] == NatToString(n / 10);
      DigitsValueOfNatToString(n / 10);
    }
  }

  /** A digit string followed by a non-digit is read up to its end. */
  lemma DigitRunOfDigits(ds: string, rest: string)
    requires AllDigits(ds)
    requires rest == [] || !IsDigit(rest[0])
    ensures DigitRun(ds + rest) == |ds|
    ensures (ds + rest)[..|ds|] == ds && (ds + rest)[|ds|..] == rest
  {
  }

  /** `%d` prints a minus sign exactly for a negative number, and digits after it. */
  lemma IntToStringForm(n: int)
    ensures 1 <= |IntToString(n)| && (IntToString(n)[0] == '-' <==> n < 0)
    ensures n >= 0 ==> AllDigits(IntToString(n))
    ensures n < 0 ==> 2 <= |IntToString(n)| && AllDigits(IntToString(n)[1..])
  {
    if n < 0 {
      assert IntToString(n)[1..] == NatToString(-n);
    }
  }

  /** `%.2f` prints a minus sign exactly for a negative balance, then digits, a point and two digits. */
  lemma CentsToStringForm(cents: int)
    ensures |CentsToString(cents)| >= if cents < 0 then 5 else 4
    ensures CentsToString(cents)[0] == '-' <==> cents < 0
    ensures var s := CentsToString(cents);
      s[|s| - 3] == '.' && IsDigit(s[|s| - 2]) && IsDigit(s[|s| - 1])
  {
    var m := if cents < 0 then -cents else cents;
    var u := UnsignedCents(m);
    var ds := NatToString(m / 100);
    assert u == ds + "." + [DigitChar(m % 100 / 10), DigitChar(m % 100 % 10)];
    assert IsDigit(u[0]) by {
      assert u[0] == ds[0];
    }
  }

  /** Every 32-bit number prints in at most 11 characters. */
  lemma Int32TextLength(n: int)
    requires IsInt32(n)
    ensures |IntToString(n)| <= 11
  {
    if n < 0 {
      NatToStringLength(-n, 10);
    } else {
      NatToStringLength(n, 10);
    }
  }

  function Pow10(k: nat): (p: nat)
    ensures p >= 1
  {
    if k == 0 then 1 else 10 * Pow10(k - 1)
  }

  /** A number below 10^k has at most k digits. */
  lemma {:induction false} NatToStringLength(n: nat, k: nat)
    requires 1 <= k && n < Pow10(k)
    ensures |NatToString(n)| <= k
  {
    if n >= 10 {
      NatToStringLength(n / 10, k - 1);
    }
  }

  /** A balance under 10^(k+2) cents prints in at most k+4 characters: sign, k digits, point, two digits. */
  lemma CentsTextLength(cents: int, k: nat)
    requires 1 <= k && -(Pow10(k + 2) as int) < cents < Pow10(k + 2)
    ensures |CentsToString(cents)| <= k + 4
  {
    var m := if cents < 0 then -cents else cents;
    assert Pow10(k + 2) == 100 * Pow10(k);
    NatToStringLength(m / 100, k);
  }

  /** Printed numbers are made of digits, signs and points only: they hold no newline and no comma. */
  lemma PrintedHasNoBreak(n: int, cents: int)
    ensures '\n' !in IntToString(n) && ',' !in IntToString(n)
    ensures '\n' !in CentsToString(cents) && ',' !in CentsToString(cents)
  {
  }

  /** `%d` reads back what `%d` printed. */
  lemma ScanIntOfIntToString(n: int, rest: string)
    requires rest == [] || !IsDigit(rest[0])
    ensures ScanInt(IntToString(n) + rest) == Some((n, rest))
  {
    var m := if n < 0 then -n else n;
    var ds := NatToString(m);
    var s := IntToString(n) + rest;
    assert s == if n < 0 then "-" + (ds + rest) else ds + rest;
    assert SkipSpace(s) == s by {
      assert s[0] == '-' || IsDigit(s[0]);
    }
    assert SplitSign(s) == (n < 0, ds + rest);
    DigitRunOfDigits(ds, rest);
    DigitsValueOfNatToString(m);
  }

  /** `atoi` reads back any 32-bit number `%d` printed. */
  lemma AtoiOfIntToString(n: int)
    requires IsInt32(n)
    ensures Atoi(IntToString(n)) == n
  {
    ScanIntOfIntToString(n, []);
    assert IntToString(n) + [] == IntToString(n);
  }

  /** Two digits printed for `r < 100` are read back as `r` hundredths. */
  lemma HundredthsOfTwoDigits(r: nat)
    requires r < 100
    ensures Hundredths([DigitChar(r / 10), DigitChar(r % 10)]) == r
  {
  }

  /** `%lf` reads back the unsigned text `%.2f` printed: whole part, point, two fraction digits. */
  lemma ScanUnsignedCentsOfText(m: nat, rest: string)
    requires rest == [] || !IsDigit(rest[0])
    ensures ScanUnsignedCents(UnsignedCents(m) + rest) == Some((m, rest))
  {
    var ds := NatToString(m / 100);
    var frac := [DigitChar(m % 100 / 10), DigitChar(m % 100 % 10)];
    assert UnsignedCents(m) + rest == ds + ("." + (frac + rest));
    ScanPointed(ds, frac, rest);
    DigitsValueOfNatToString(m / 100);
    HundredthsOfTwoDigits(m % 100);
  }

  /** Digits, a point and two fraction digits, then a non-digit: all of the number is read. */
  lemma ScanPointed(ds: string, frac: string, rest: string)
    requires AllDigits(ds) && AllDigits(frac) && |frac| == 2
    requires rest == [] || !IsDigit(rest[0])
    ensures ScanUnsignedCents(ds + ("." + (frac + rest))) == Some((DigitsValue(ds) * 100 + Hundredths(frac), rest))
  {
    var tail := frac + rest;
    var u := ds + ("." + tail);
    DigitRunOfDigits(ds, "." + tail);
    DigitRunOfDigits(frac, rest);
    assert u[|ds|] == '.' && u[|ds| + 1..] == tail;
    assert DigitRun(tail) == 2 && tail[..2] == frac && tail[2..] == rest;
  }

  /** The text `%.2f` prints has two fraction digits, so it stands for a whole number of cents. */
  lemma ExactCentsOfText(m: nat, rest: string)
    requires rest == [] || !IsDigit(rest[0])
    ensures ExactCents(UnsignedCents(m) + rest)
  {
    var ds := NatToString(m / 100);
    var frac := [DigitChar(m % 100 / 10), DigitChar(m % 100 % 10)];
    assert UnsignedCents(m) + rest == ds + ("." + (frac + rest));
    TwoFractionDigits(ds, frac, rest);
  }

  /** A number with exactly two digits after its point is a whole number of cents. */
  lemma TwoFractionDigits(ds: string, frac: string, rest: string)
    requires AllDigits(ds) && AllDigits(frac) && |frac| == 2
    requires rest == [] || !IsDigit(rest[0])
    ensures ExactCents(ds + ("." + (frac + rest)))
  {
    var u := ds + ("." + (frac + rest));
    DigitRunOfDigits(ds, "." + (frac + rest));
    assert u[|ds| + 1..] == frac + rest;
    DigitRunOfDigits(frac, rest);
  }

  /** ScanCents on a signed text whose unsigned part starts with a digit. */
  lemma ScanCentsOfSigned(negative: bool, u: string, m: nat, rest: string)
    requires u != [] && IsDigit(u[0]) && ScanUnsignedCents(u) == Some((m, rest))
    requires ExactCents(u)
    ensures ScanCents(if negative then "-" + u else u) == Some((if negative then -(m as int) else m, rest))
  {
    var s := if negative then "-" + u else u;
    assert SkipSpace(s) == s by {
      assert s[0] == '-' || IsDigit(s[0]);
    }
    assert SplitSign(s) == (negative, u);
  }

  /** The text `%.2f` prints for a non-negative amount starts with a digit. */
  lemma UnsignedCentsStartsWithDigit(m: nat, rest: string)
    ensures UnsignedCents(m) + rest != [] && IsDigit((UnsignedCents(m) + rest)[0])
  {
  }

  /** The last step of ScanCentsOfCentsToString, once the unsigned part is read. */
  lemma ScanCentsOfPrinted(cents: int, rest: string, u: string)
    requires u == UnsignedCents(if cents < 0 then -cents else cents) + rest
    requires u != [] && IsDigit(u[0])
    requires ScanUnsignedCents(u) == Some((if cents < 0 then -cents else cents, rest))
    requires ExactCents(u)
    ensures ScanCents(CentsToString(cents) + rest) == Some((cents, rest))
  {
    assert CentsToString(cents) + rest == if cents < 0 then "-" + u else u;
    ScanCentsOfSigned(cents < 0, u, if cents < 0 then -cents else cents, rest);
  }

  /** `%lf` reads back, to the cent, what `%.2f` printed. */
  lemma ScanCentsOfCentsToString(cents: int, rest: string)
    requires rest == [] || !IsDigit(rest[0])
    ensures ScanCents(CentsToString(cents) + rest) == Some((cents, rest))
  {
    var m: nat := if cents < 0 then -cents else cents;
    ScanUnsignedCentsOfText(m, rest);
    ExactCentsOfText(m, rest);
    UnsignedCentsStartsWithDigit(m, rest);
    ScanCentsOfPrinted(cents, rest, UnsignedCents(m) + rest);
  }
}
