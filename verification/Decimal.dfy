/** Whole numbers in decimal notation. */
module Decimal {
  import opened Prelude
  import opened Text

  function DigitOf(n: nat): char
    requires n < 10
  {
    (48 + n) as char
  }

  function DigitValue(c: char): nat
    requires IsDigit(c)
  {
    c as int - 48
  }

  function ShowNat(n: nat): string {
    if n < 10 then [DigitOf(n)] else ShowNat(n / 10) + [DigitOf(n % 10)]
  }

  function NatOf(s: string): nat
    requires AllDigits(s)
  {
    if s == "" then 0 else 10 * NatOf(s[..|s| - 1]) + DigitValue(s[|s| - 1])
  }

  function Show(n: int): string {
    if n < 0 then "-" + ShowNat(-n) else ShowNat(n)
  }

  /** An optional minus sign and at least one digit. */
  function Read(s: string): Option<int> {
    if s != "" && AllDigits(s) then Some(NatOf(s) as int)
    else if |s| > 1 && s[0] == '-' && AllDigits(s[1..]) then Some(-(NatOf(s[1..]) as int))
    else None
  }

  lemma {:induction false} NatOfShow(n: nat)
    ensures ShowNat(n) != "" && AllDigits(ShowNat(n)) && NatOf(ShowNat(n)) == n
    ensures n > 0 ==> ShowNat(n)[0] != '0'
  {
    if n >= 10 {
      NatOfShow(n / 10);
      assert ShowNat(n)[..|ShowNat(n)| - 1] == ShowNat(n / 10);
    }
  }

  lemma ReadNegative(digits: string)
    requires digits != "" && AllDigits(digits)
    ensures Read("-" + digits) == Some(-(NatOf(digits) as int))
  {
    var s := "-" + digits;
    assert s[0] == '-' && s[1..] == digits;
  }

  /** Reading undoes showing. */
  lemma ReadShow(n: int)
    ensures Show(n) != "" && Read(Show(n)) == Some(n)
    ensures forall i | 0 <= i < |Show(n)| :: IsDigit(Show(n)[i]) || Show(n)[i] == '-'
  {
    if n < 0 {
      NatOfShow(-n);
      ReadNegative(ShowNat(-n));
    } else {
      NatOfShow(n);
    }
  }

  lemma ShowSnoc(a: nat, d: nat)
    requires a > 0 && d < 10
    ensures ShowNat(10 * a + d) == ShowNat(a) + [DigitOf(d)]
  {
    assert (10 * a + d) / 10 == a && (10 * a + d) % 10 == d;
  }

  /** A text without a leading zero is the notation of its number. */
  lemma {:induction false} ShowOf(s: string)
    requires s != "" && AllDigits(s) && (s[0] == '0' ==> |s| == 1)
    ensures ShowNat(NatOf(s)) == s
  {
    var n := |s| - 1;
    var front, d := s[..n], DigitValue(s[n]);
    assert DigitOf(d) == s[n];
    if n == 0 {
      assert NatOf(s) == d;
      assert s == [s[n]];
    } else {
      assert front[0] == s[0];
      ShowOf(front);
      LeadingDigit(front);
      ShowSnoc(NatOf(front), d);
      assert s == front + [s[n]];
    }
  }

  lemma {:induction false} LeadingDigit(s: string)
    requires s != "" && AllDigits(s) && s[0] != '0'
    ensures NatOf(s) > 0
  {
    if |s| > 1 {
      assert s[..|s| - 1][0] == s[0];
      LeadingDigit(s[..|s| - 1]);
    }
  }
}
