/**
 * The numerals that int and hex symbols are made of: Python's `int(s, base)` on
 * signed digit strings, and `str(n)` / `hex(n)`, which rewrite a clamped value.
 */
module Numerals {
  import opened Wrappers

  /** The value of one digit, for bases up to 16. */
  function DigitOf(c: char): Option<nat> {
    if '0' <= c <= '9' then Some((c as int) - ('0' as int))
    else if 'a' <= c <= 'f' then Some((c as int) - ('a' as int) + 10)
    else if 'A' <= c <= 'F' then Some((c as int) - ('A' as int) + 10)
    else None
  }

  /** Reads a (possibly empty) run of digits. */
  function Digits(s: string, base: nat): Option<nat> {
    if s == "" then Some(0)
    else
      var high :- Digits(s[..|s| - 1], base);
      var d :- DigitOf(s[|s| - 1]);
      if d < base then Some(high * base + d) else None
  }

  function Magnitude(s: string, base: nat): Option<nat> {
    if s == "" then None else Digits(s, base)
  }

  predicate HasPrefix(s: string, low: char, up: char) {
    |s| >= 2 && s[0] == '0' && (s[1] == low || s[1] == up)
  }

  /** An unsigned numeral. Base 0 means that the base is inferred from the prefix. */
  function Unsigned(s: string, base: nat): Option<nat> {
    if base == 16 then Magnitude(if HasPrefix(s, 'x', 'X') then s[2..] else s, 16)
    else if base == 10 then Magnitude(s, 10)
    else if HasPrefix(s, 'x', 'X') then Magnitude(s[2..], 16)
    else if HasPrefix(s, 'o', 'O') then Magnitude(s[2..], 8)
    else if HasPrefix(s, 'b', 'B') then Magnitude(s[2..], 2)
    else
      var n :- Magnitude(s, 10);
      if n != 0 && s[0] == '0' then None else Some(n)
  }

  /** `int(s, base)`, with None for ValueError. */
  function ParseInt(s: string, base: nat): Option<int> {
    var signed := s != "" && (s[0] == '-' || s[0] == '+');
    match Unsigned(if signed then s[1..] else s, base)
    case None => None
    case Some(n) => var k: int := n; Some(if signed && s[0] == '-' then 0 - k else k)
  }

  predicate IsBaseN(s: string, base: nat) {
    ParseInt(s, base).Some?
  }

  /** The integer that a range bound or default stands for: 0 if it is not a numeral. */
  function NumOrZero(s: string, base: nat): int {
    match ParseInt(s, base)
    case Some(n) => n
    case None => 0
  }

  function DigitChar(d: nat): char
    requires d < 16
  {
    "0123456789abcdef"[d]
  }

  function PrintNat(n: nat, base: nat): string
    requires 2 <= base <= 16
  {
    if n < base then [DigitChar(n)]
    else PrintNat(n / base, base) + [DigitChar(n % base)]
  }

  /** `str(n)` for base 10 and `hex(n)` for base 16. */
  function PrintInt(n: int, base: nat): string
    requires base == 10 || base == 16
  {
    var prefix := if base == 16 then "0x" else "";
    if n < 0 then "-" + prefix + PrintNat(-n, base) else prefix + PrintNat(n, base)
  }

  lemma DigitCharRead(d: nat)
    requires d < 16
    ensures DigitOf(DigitChar(d)) == Some(d)
  {
  }

  lemma {:induction false} PrintedDigitsRead(n: nat, base: nat)
    requires base == 10 || base == 16
    ensures Digits(PrintNat(n, base), base) == Some(n)
    ensures PrintNat(n, base) != "" && DigitOf(PrintNat(n, base)[0]).Some?
    decreases n
  {
    DigitCharRead(n % base);
    if n < base {
      DigitsSnoc("", n, base);
    } else {
      var p := PrintNat(n / base, base);
      PrintedDigitsRead(n / base, base);
      DigitsSnoc(p, n % base, base);
      if base == 10 { assert n == (n / 10) * 10 + n % 10; } else { assert n == (n / 16) * 16 + n % 16; }
    }
  }

  lemma DigitsSnoc(p: string, d: nat, base: nat)
    requires d < base <= 16
    ensures Digits(p + [DigitChar(d)], base) ==
      match Digits(p, base)
      case None => None
      case Some(high) => Some(high * base + d)
  {
    DigitCharRead(d);
    assert (p + [DigitChar(d)])[..|p|] == p;
  }

  lemma UnsignedReads(n: nat, base: nat)
    requires base == 10 || base == 16
    ensures Unsigned((if base == 16 then "0x" else "") + PrintNat(n, base), base) == Some(n)
  {
    var p := PrintNat(n, base);
    PrintedDigitsRead(n, base);
    if base == 16 {
      assert ("0x" + p)[2..] == p;
    } else {
      assert "" + p == p;
    }
  }

  lemma SignReads(text: string, base: nat, k: nat)
    requires Unsigned(text, base) == Some(k)
    requires text != "" && text[0] != '-' && text[0] != '+'
    ensures ParseInt(text, base) == Some(k)
    ensures ParseInt("-" + text, base) == Some(0 - k)
  {
    assert ("-" + text)[1..] == text;
  }

  /** Reading a rewritten value gives back the number it was rewritten from. */
  lemma PrintedIntReads(n: int, base: nat)
    requires base == 10 || base == 16
    ensures ParseInt(PrintInt(n, base), base) == Some(n)
  {
    var k: nat := if n < 0 then -n else n;
    var prefix := if base == 16 then "0x" else "";
    PrintedDigitsRead(k, base);
    UnsignedReads(k, base);
    SignReads(prefix + PrintNat(k, base), base, k);
    assert "-" + (prefix + PrintNat(k, base)) == "-" + prefix + PrintNat(k, base);
  }

  /** strcmp() with a result of -1, 0 or 1. */
  function StrCmp(a: string, b: string): int {
    if a == "" then (if b == "" then 0 else -1)
    else if b == "" then 1
    else if a[0] < b[0] then -1
    else if b[0] < a[0] then 1
    else StrCmp(a[1..], b[1..])
  }
}
