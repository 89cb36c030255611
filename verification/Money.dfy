/** Amounts of money as text. */
module Money {
  import opened Dates
  import opened Wrappers

  /** Decimal text of an integer, with a minus sign when negative. */
  function Decimal(n: int): string {
    if n < 0 then "-" + Digits(-n, 1) else Digits(n, 1)
  }

  /** `itoa`: digits are prepended, lowest first, until nothing is left. */
  method Itoa(n: int) returns (s: string)
    ensures s == Decimal(n)
  {
    if n == 0 { return "0"; }
    var m := if n < 0 then -n else n;
    ghost var whole := m;
    s := "";
    while m > 0
      invariant 0 <= m
      invariant s == "" ==> m == whole
      invariant s != "" ==> Digits(whole, 1) == (if m == 0 then s else Digits(m, 1) + s)
    {
      if m < 10 {
        assert Digits(m, 1) == [Digit(m % 10)];
      } else {
        assert Digits(m, 1) == Digits(m / 10, 0) + [Digit(m % 10)];
        DigitsNarrow(m / 10);
      }
      assert s != "" && m >= 10 ==> Digits(m / 10, 1) + ([Digit(m % 10)] + s) == Digits(m, 1) + s;
      s := [Digit(m % 10)] + s;
      m := m / 10;
    }
    if n < 0 { s := "-" + s; }
  }

  lemma DigitsNarrow(n: nat)
    requires n > 0
    ensures Digits(n, 0) == Digits(n, 1)
  {
  }

  /** `centsToYuan`: yuan with one decimal, which is dropped when zero. Division truncates. */
  function CentsToYuan(cents: int): string {
    var whole, tenths := Truncate(cents, 100), Tenths(cents);
    if tenths == 0 then Decimal(whole) else Decimal(whole) + "." + Decimal(tenths)
  }

  /** The tenths of a yuan, with the sign of the amount. */
  function Tenths(cents: int): int { Truncate(cents - 100 * Truncate(cents, 100), 10) }

  /** Reads an amount without sign: with a decimal point second to last, or without one. */
  function ReadUnsigned(s: string): Option<int> {
    if |s| >= 3 && s[|s| - 2] == '.' && AllDigits(s[..|s| - 2]) && AllDigits(s[|s| - 1..]) then
      Some(100 * Value(s[..|s| - 2]) + 10 * Value(s[|s| - 1..]))
    else if s != "" && AllDigits(s) then Some(100 * Value(s))
    else None
  }

  /** Reads an amount back, with or without a leading minus sign. */
  function YuanToCents(s: string): Option<int> {
    if s != "" && s[0] == '-' then
      match ReadUnsigned(s[1..]) case None => None case Some(n) => Some(-n)
    else ReadUnsigned(s)
  }

  lemma ReadDecimal(whole: nat, tenths: nat)
    requires tenths < 10
    ensures ReadUnsigned(Digits(whole, 1) + "." + Digits(tenths, 1)) == Some(100 * whole + 10 * tenths)
  {
    var w, t := Digits(whole, 1), Digits(tenths, 1);
    var s := w + "." + t;
    assert |t| == 1;
    assert s[..|s| - 2] == w && s[|s| - 1..] == t;
    ValueOfDigits(whole, 1);
    ValueOfDigits(tenths, 1);
  }

  lemma ReadWhole(whole: nat)
    ensures ReadUnsigned(Digits(whole, 1)) == Some(100 * whole)
  {
    var w := Digits(whole, 1);
    ValueOfDigits(whole, 1);
    if |w| >= 2 { assert IsDigit(w[|w| - 2]); }
  }

  /** A minus sign after the decimal point is not an amount. */
  lemma ReadSignedTenths(whole: nat, tenths: nat)
    requires 0 < tenths < 10
    ensures ReadUnsigned(Digits(whole, 1) + "." + ("-" + Digits(tenths, 1))) == None
  {
    var w, t := Digits(whole, 1), Digits(tenths, 1);
    var s := w + "." + ("-" + t);
    assert |t| == 1;
    assert s[|s| - 2] == '-' && !IsDigit(s[|s| - 2]);
  }

  lemma UnsignedStart(whole: nat, rest: string)
    ensures YuanToCents(Digits(whole, 1) + rest) == ReadUnsigned(Digits(whole, 1) + rest)
  {
    var s := Digits(whole, 1) + rest;
    assert s[0] == Digits(whole, 1)[0] && IsDigit(s[0]);
    hide ReadUnsigned;
  }

  lemma SignedStart(s: string)
    ensures YuanToCents("-" + s) == match ReadUnsigned(s) case None => None case Some(n) => Some(-n)
  {
    assert ("-" + s)[1..] == s;
    hide ReadUnsigned;
  }

  lemma SplitCents(cents: nat)
    ensures Truncate(cents, 100) == cents / 100 && Tenths(cents) == cents % 100 / 10
    ensures 100 * (cents / 100) + 10 * (cents % 100 / 10) == cents - cents % 10 && cents % 100 / 10 < 10
  {
    var whole, rest := cents / 100, cents % 100;
    assert cents == 100 * whole + rest;
    assert rest == 10 * (rest / 10) + rest % 10;
    assert cents == 10 * (10 * whole + rest / 10) + rest % 10;
  }

  lemma SplitDebt(cents: int)
    requires cents >= 0
    ensures Truncate(-cents, 100) == -Truncate(cents, 100) && Tenths(-cents) == -Tenths(cents)
  {
  }

  lemma AmountText(whole: nat, tenths: nat, cents: int)
    requires cents >= 0 && whole == Truncate(cents, 100) && tenths == Tenths(cents)
    ensures CentsToYuan(cents) == Digits(whole, 1) + (if tenths == 0 then "" else "." + Digits(tenths, 1))
    ensures CentsToYuan(-cents) == (if whole == 0 then "" else "-") + Digits(whole, 1)
        + (if tenths == 0 then "" else "." + ("-" + Digits(tenths, 1)))
  {
    hide Digits, Truncate;
    SplitDebt(cents);
  }

  lemma CreditRoundTrip(cents: nat)
    ensures YuanToCents(CentsToYuan(cents)) == Some(cents - cents % 10)
  {
    hide YuanToCents, ReadUnsigned, CentsToYuan, Digits, Truncate, Tenths;
    SplitCents(cents);
    var whole, tenths := cents / 100, cents % 100 / 10;
    AmountText(whole, tenths, cents);
    if tenths == 0 {
      UnsignedStart(whole, "");
      assert Digits(whole, 1) + "" == Digits(whole, 1);
      ReadWhole(whole);
    } else {
      UnsignedStart(whole, "." + Digits(tenths, 1));
      assert Digits(whole, 1) + ("." + Digits(tenths, 1)) == Digits(whole, 1) + "." + Digits(tenths, 1);
      ReadDecimal(whole, tenths);
    }
  }

  lemma DebtRoundTrip(cents: int)
    requires cents > 0
    ensures YuanToCents(CentsToYuan(-cents)) == if cents % 100 < 10 then Some(-(cents - cents % 100)) else None
  {
    hide YuanToCents, ReadUnsigned, CentsToYuan, Digits, Truncate, Tenths;
    SplitCents(cents);
    var whole, tenths := cents / 100, cents % 100 / 10;
    AmountText(whole, tenths, cents);
    var tail := if tenths == 0 then "" else "." + ("-" + Digits(tenths, 1));
    var text := Digits(whole, 1) + tail;
    assert "" + Digits(whole, 1) + tail == text && "-" + Digits(whole, 1) + tail == "-" + text;
    UnsignedStart(whole, tail);
    SignedStart(text);
    if tenths == 0 {
      assert text == Digits(whole, 1);
      ReadWhole(whole);
    } else {
      assert text == Digits(whole, 1) + "." + ("-" + Digits(tenths, 1));
      ReadSignedTenths(whole, tenths);
    }
  }

  /**
   An amount survives being written in yuan exactly when it is a whole number of ten-cent units and,
   if it is negative, of yuan. A positive amount loses only its odd cents.
   */
  lemma YuanRoundTrip(cents: int)
    ensures YuanToCents(CentsToYuan(cents)) == Some(cents)
        <==> (if cents >= 0 then cents % 10 == 0 else cents % 100 == 0)
    ensures cents >= 0 ==> YuanToCents(CentsToYuan(cents)) == Some(cents - cents % 10)
  {
    hide YuanToCents, CentsToYuan;
    if cents >= 0 {
      CreditRoundTrip(cents);
    } else {
      DebtRoundTrip(-cents);
      Remainders(-cents);
    }
  }

  lemma Remainders(n: int)
    ensures (-n) % 100 == 0 <==> n % 100 == 0
  {
  }

  /** Fifteen cents become 0.1 yuan, and a debt of 1.5 yuan is written with a second sign. */
  lemma FifteenCents()
    ensures YuanToCents(CentsToYuan(15)) == Some(10)
    ensures CentsToYuan(-150) == "-1.-5" && YuanToCents("-1.-5") == None
  {
    YuanRoundTrip(15);
    DebtRoundTrip(150);
    AmountText(1, 5, 150);
  }
}
