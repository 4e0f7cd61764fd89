/** Decimal numerals. */
module Decimal {
  type U16 = n: nat | n < 0x1_0000

  // What a reader returns: the value it recognised and the text that follows it.
  datatype Parsed<+T> = Parsed(value: T, rest: string)

  predicate IsDigit(c: char) {
    '0' <= c <= '9'
  }

  function DigitChar(d: nat): char
    requires d < 10
  {
    (d + '0' as int) as char
  }

  function PrintNat(n: nat): (s: string)
    ensures s != "" && forall k :: 0 <= k < |s| ==> IsDigit(s[k])
  {
    if n < 10 then [DigitChar(n)] else PrintNat(n / 10) + [DigitChar(n % 10)]
  }

  function ReadDigits(sofar: nat, t: string): (r: Parsed<nat>)
    ensures |r.rest| <= |t|
    decreases t
  {
    if t != "" && IsDigit(t[0]) then ReadDigits(10 * sofar + (t[0] as int - '0' as int), t[1..]) else Parsed(sofar, t)
  }

  predicate AllDigits(t: string) {
    forall k :: 0 <= k < |t| ==> IsDigit(t[k])
  }

  predicate Zeros(t: string) {
    forall k :: 0 <= k < |t| ==> t[k] == '0'
  }

  lemma {:induction false} ReadsAllDigits(sofar: nat, t: string)
    ensures ReadDigits(sofar, t).rest == "" <==> AllDigits(t)
    decreases t
  {
    if t != "" && IsDigit(t[0]) {
      ReadsAllDigits(10 * sofar + (t[0] as int - '0' as int), t[1..]);
      assert forall k :: 1 <= k < |t| ==> t[k] == t[1..][k - 1];
    }
  }

  lemma {:induction false} ReadLastDigit(sofar: nat, t: string, d: nat)
    requires AllDigits(t) && d < 10
    ensures ReadDigits(sofar, t + [DigitChar(d)]).value == 10 * ReadDigits(sofar, t).value + d
    decreases t
  {
    if t == "" {
      assert t + [DigitChar(d)] == [DigitChar(d)];
    } else {
      assert (t + [DigitChar(d)])[1..] == t[1..] + [DigitChar(d)];
      ReadLastDigit(10 * sofar + (t[0] as int - '0' as int), t[1..], d);
    }
  }

  // A non-empty string of digits is the printed value it reads as, behind zeros.
  lemma {:induction false} DigitsArePadded(t: string) returns (k: nat)
    requires AllDigits(t) && t != ""
    ensures k < |t| && Zeros(t[..k]) && t[k..] == PrintNat(ReadDigits(0, t).value)
    decreases |t|
  {
    var init, d: nat := t[..|t| - 1], t[|t| - 1] as int - '0' as int;
    assert t == init + [DigitChar(d)];
    ReadLastDigit(0, init, d);
    if init == "" {
      k := 0;
    } else {
      k := DigitsArePadded(init);
      if ReadDigits(0, init).value == 0 {
        assert init == init[..k] + "0";
        k := |init|;
      } else {
        assert t[k..] == init[k..] + [DigitChar(d)];
      }
    }
  }

  lemma {:induction false} ReadZeros(zeros: string, t: string)
    requires Zeros(zeros)
    ensures ReadDigits(0, zeros + t) == ReadDigits(0, t)
  {
    if zeros == "" {
      assert zeros + t == t;
    } else {
      assert (zeros + t)[1..] == zeros[1..] + t;
      ReadZeros(zeros[1..], t);
    }
  }

  lemma ReadDigit(sofar: nat, d: nat, rest: string)
    requires d < 10
    ensures ReadDigits(sofar, [DigitChar(d)] + rest) == ReadDigits(10 * sofar + d, rest)
  {
    var t := [DigitChar(d)] + rest;
    assert t[1..] == rest;
  }

  lemma {:induction false} ReadPrintedNat(n: nat, rest: string)
    ensures ReadDigits(0, PrintNat(n) + rest) == ReadDigits(n, rest)
  {
    if n < 10 {
      ReadDigit(0, n, rest);
    } else {
      var last := [DigitChar(n % 10)];
      assert PrintNat(n) + rest == PrintNat(n / 10) + (last + rest);
      ReadPrintedNat(n / 10, last + rest);
      ReadDigit(n / 10, n % 10, rest);
    }
  }
}
