/** Which texts are numerals and what they stand for: place values, signs and prefixes. */
module NumeralLaws {
  import opened Wrappers
  import opened Numerals

  /** A digit is known by its place among 0 to 9 and a to f, in either case. */
  lemma DigitsAre(c: char, d: nat)
    ensures DigitOf(c) == Some(d) <==> d < 16 && (c == "0123456789abcdef"[d] || c == "0123456789ABCDEF"[d])
  {
    if d < 16 {
      assert "0123456789abcdef"[d] as int == if d < 10 then 48 + d else 87 + d;
      assert "0123456789ABCDEF"[d] as int == if d < 10 then 48 + d else 55 + d;
    }
  }

  function Power(base: nat, n: nat): nat { if n == 0 then 1 else base * Power(base, n - 1) }

  ghost predicate AllDigits(s: string, base: nat) {
    forall i :: 0 <= i < |s| ==> DigitOf(s[i]).Some? && DigitOf(s[i]).value < base
  }

  lemma {:induction false} DigitsDefined(s: string, base: nat)
    ensures Digits(s, base).Some? <==> AllDigits(s, base)
  {
    if s == "" {
    } else {
      DigitsDefined(s[..|s| - 1], base);
      assert s == s[..|s| - 1] + [s[|s| - 1]];
    }
  }

  function Value(s: string, base: nat): nat
    requires AllDigits(s, base)
  {
    DigitsDefined(s, base);
    Digits(s, base).value
  }

  /** The digits in front count as many times as the base to the number of digits behind. */
  lemma {:induction false} PlaceValue(s: string, t: string, base: nat)
    requires AllDigits(s, base) && AllDigits(t, base)
    ensures AllDigits(s + t, base) && Value(s + t, base) == Value(s, base) * Power(base, |t|) + Value(t, base)
    decreases |t|
  {
    if t == "" {
      assert s + t == s;
    } else {
      var front, last := t[..|t| - 1], t[|t| - 1];
      PlaceValue(s, front, base);
      assert (s + t)[..|s + t| - 1] == s + front && (s + t)[|s + t| - 1] == last;
      LastDigit(s + t, base);
      LastDigit(t, base);
      Regroup(Value(s, base), Value(front, base), Power(base, |front|), base, DigitOf(last).value);
    }
  }

  lemma LastDigit(s: string, base: nat)
    requires AllDigits(s, base) && s != ""
    ensures AllDigits(s[..|s| - 1], base) && DigitOf(s[|s| - 1]).Some?
    ensures Value(s, base) == Value(s[..|s| - 1], base) * base + DigitOf(s[|s| - 1]).value
  {
    DigitsDefined(s, base);
    DigitsDefined(s[..|s| - 1], base);
  }

  lemma Regroup(x: nat, y: nat, p: nat, base: nat, d: nat)
    ensures (x * p + y) * base + d == x * (base * p) + (y * base + d)
  {
    assert (x * p) * base == x * (p * base) == x * (base * p);
  }

  lemma OneDigit(c: char, base: nat)
    requires DigitOf(c).Some? && DigitOf(c).value < base
    ensures AllDigits([c], base) && Value([c], base) == DigitOf(c).value
  {
    assert [c][..0] == "";
    assert Digits("", base) == Some(0);
  }

  /** The prefixes that a numeral can have, and the base that its digits are then in. */
  ghost predicate PrefixOk(base: nat, prefix: string, radix: nat) {
    match base
    case 16 => radix == 16 && prefix in {"", "0x", "0X"}
    case 10 => radix == 10 && prefix == ""
    case _ =>
      || (radix == 10 && prefix == "")
      || (radix == 16 && prefix in {"0x", "0X"})
      || (radix == 8 && prefix in {"0o", "0O"})
      || (radix == 2 && prefix in {"0b", "0B"})
  }

  /** The parts of a numeral. */
  datatype Numeral = Numeral(sign: string, prefix: string, digits: string, radix: nat)

  /** Where the base is inferred, decimals other than 0 do not start with 0. */
  ghost predicate Says(num: Numeral, base: nat, n: nat) {
    && PrefixOk(base, num.prefix, num.radix) && num.digits != "" && Digits(num.digits, num.radix) == Some(n)
    && (base == 0 && num.radix == 10 && num.digits[0] == '0' ==> n == 0)
  }

  function Signed(sign: string, k: int): int { if sign == "-" then -k else k }

  ghost predicate Spells(text: string, base: nat, num: Numeral, k: int) {
    && text == num.sign + (num.prefix + num.digits) && num.sign in {"", "-", "+"}
    && exists n: nat :: Says(num, base, n) && k == Signed(num.sign, n)
  }

  lemma SaidIsRead(num: Numeral, base: nat, n: nat)
    requires base in {0, 10, 16} && Says(num, base, n)
    ensures
      var text := num.prefix + num.digits;
      text != "" && text[0] != '-' && text[0] != '+' && Unsigned(text, base) == Some(n)
  {
    var text := num.prefix + num.digits;
    DigitsDefined(num.digits, num.radix);
    assert num.prefix == "" ==> text == num.digits;
    assert text[|num.prefix|..] == num.digits;
    assert DigitOf(num.digits[0]).Some?;
    if num.prefix == "" && |text| > 1 { assert DigitOf(num.digits[1]).Some? && DigitOf(num.digits[1]).value < num.radix; }
    if num.prefix != "" { assert text[0] == num.prefix[0] && text[1] == num.prefix[1]; }
  }

  function WithoutPrefix(text: string, radix: nat): Numeral { Numeral("", "", text, radix) }

  function SplitPrefix(text: string, radix: nat): Numeral
    requires |text| >= 2
  {
    Numeral("", text[..2], text[2..], radix)
  }

  lemma PrefixIsSplit(text: string, low: char, up: char)
    requires HasPrefix(text, low, up)
    ensures text[..2] == ['0', low] || text[..2] == ['0', up]
  {
    assert text[..2] == [text[0], text[1]];
  }

  lemma ReadIsSaid(text: string, base: nat) returns (num: Numeral)
    requires base in {0, 10, 16} && Unsigned(text, base).Some?
    ensures num.sign == "" && text == num.prefix + num.digits && Says(num, base, Unsigned(text, base).value)
  {
    hide Digits;
    if base != 10 && HasPrefix(text, 'x', 'X') {
      PrefixIsSplit(text, 'x', 'X');
      num := SplitPrefix(text, 16);
    } else if base != 0 {
      num := WithoutPrefix(text, base);
    } else if HasPrefix(text, 'o', 'O') {
      PrefixIsSplit(text, 'o', 'O');
      num := SplitPrefix(text, 8);
    } else if HasPrefix(text, 'b', 'B') {
      PrefixIsSplit(text, 'b', 'B');
      num := SplitPrefix(text, 2);
    } else {
      num := WithoutPrefix(text, 10);
    }
  }

  /** A text is a numeral for k exactly if it is put together from a sign, a prefix and digits that say so. */
  lemma NumeralsAre(text: string, base: nat, k: int)
    requires base in {0, 10, 16}
    ensures ParseInt(text, base) == Some(k) <==> exists num :: Spells(text, base, num, k)
  {
    hide Unsigned, Digits, PrefixOk;
    if ParseInt(text, base) == Some(k) {
      var signed := text != "" && (text[0] == '-' || text[0] == '+');
      var num := ReadIsSaid(if signed then text[1..] else text, base);
      var sign := if signed then [text[0]] else "";
      assert Says(num.(sign := sign), base, Unsigned(if signed then text[1..] else text, base).value);
      assert Spells(text, base, num.(sign := sign), k);
    }
    if num :| Spells(text, base, num, k) {
      var n: nat :| Says(num, base, n) && k == Signed(num.sign, n);
      SaidIsRead(num, base, n);
      assert text[|num.sign|..] == num.prefix + num.digits;
      assert num.sign == "" ==> text == num.prefix + num.digits;
    }
  }

  /** Rewritten numbers have a minus sign if they are negative, `0x` if they are hexadecimal, and no leading zeros. */
  lemma PrintedForm(n: int, base: nat)
    requires base == 10 || base == 16
    ensures exists digits :: PrintInt(n, base) == (if n < 0 then "-" else "") + (if base == 16 then "0x" else "") + digits
                             && digits != "" && (digits[0] == '0' ==> n == 0)
  {
    var k: nat := if n < 0 then -n else n;
    NoLeadingZero(k, base);
    var digits := PrintNat(k, base);
    var prefix := if base == 16 then "0x" else "";
    assert "" + prefix == prefix;
    assert PrintInt(n, base) == (if n < 0 then "-" else "") + prefix + digits;
  }

  lemma {:induction false} NoLeadingZero(k: nat, base: nat)
    requires base == 10 || base == 16
    ensures PrintNat(k, base) != "" && (PrintNat(k, base)[0] == '0' <==> k == 0)
  {
    if k < base {
    } else {
      NoLeadingZero(k / base, base);
    }
  }
}
