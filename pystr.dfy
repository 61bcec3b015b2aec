/** Python's text conversions used by the core: `int(s)`, `int(s, 16)`,
    `str(n)` / f-string formatting of an integer, `str.encode()` (UTF-8) and
    the whitespace class of `str.isspace`, `str.strip` and the regex `\s`. */
module PyStr {
  import opened Outcomes

  /** Value of a digit character in base 16, or -1. */
  function DigitValue(c: char): int {
    if '0' <= c <= '9' then c as int - '0' as int
    else if 'a' <= c <= 'f' then c as int - 'a' as int + 10
    else if 'A' <= c <= 'F' then c as int - 'A' as int + 10
    else -1
  }

  predicate IsDigitIn(c: char, base: nat) {
    0 <= DigitValue(c) < base
  }

  /** The digits of `s` read in `base`, most significant first; None when `s`
      is empty or holds a character that is not a digit of `base`. */
  function ParseDigits(s: string, base: nat): (r: Option<nat>)
    requires base == 10 || base == 16
    ensures r.Some? <==> |s| > 0 && forall i :: 0 <= i < |s| ==> IsDigitIn(s[i], base)
  {
    if |s| == 0 then None
    else if !IsDigitIn(s[|s| - 1], base) then None
    else if |s| == 1 then Some(DigitValue(s[0]))
    else match ParseDigits(s[..|s| - 1], base)
      case None => None
      case Some(v) => Some(v * base + DigitValue(s[|s| - 1]))
  }

  /** Splits an optional leading sign off. */
  function SignOf(s: string): (int, string) {
    if |s| > 0 && s[0] == '-' then (-1, s[1..])
    else if |s| > 0 && s[0] == '+' then (1, s[1..])
    else (1, s)
  }

  /** Python `int(s)`: an optional sign followed by decimal digits; anything else
      raises ValueError. */
  function ParseInt(s: string): (r: Result<int>)
    ensures r.Err? ==> r.error == ValueError
  {
    var (sign, t) := SignOf(s);
    match ParseDigits(t, 10)
    case None => Err(ValueError)
    case Some(v) => Ok(sign * v)
  }

  /** Python `int(s, 16)`: an optional sign, an optional `0x`/`0X` prefix and
      hexadecimal digits of either case. */
  function ParseHex(s: string): (r: Result<int>)
    ensures r.Err? ==> r.error == ValueError
  {
    var (sign, t) := SignOf(s);
    var digits := if |t| >= 2 && t[0] == '0' && (t[1] == 'x' || t[1] == 'X') then t[2..] else t;
    match ParseDigits(digits, 16)
    case None => Err(ValueError)
    case Some(v) => Ok(sign * v)
  }

  function DigitChar(d: nat): (c: char)
    requires d < 16
    ensures DigitValue(c) == d
  {
    if d < 10 then ('0' as int + d) as char else ('a' as int + d - 10) as char
  }

  /** Digits of `n` in `base`, without leading zeros (`str(n)` for base 10). */
  function ShowNat(n: nat, base: nat := 10): (r: string)
    requires base == 10 || base == 16
    ensures |r| > 0
    ensures forall i :: 0 <= i < |r| ==> IsDigitIn(r[i], base)
  {
    if n < base then [DigitChar(n)] else ShowNat(n / base, base) + [DigitChar(n % base)]
  }

  /** `str(n)` / `f'{n}'` for an integer. */
  function ShowInt(n: int): string {
    if n < 0 then "-" + ShowNat(-n) else ShowNat(n)
  }

  lemma {:induction false} ParseShowNat(n: nat, base: nat)
    requires base == 10 || base == 16
    ensures ParseDigits(ShowNat(n, base), base) == Some(n)
    decreases n
  {
    var s := ShowNat(n, base);
    if n >= base {
      ParseShowNat(n / base, base);
      assert s[..|s| - 1] == ShowNat(n / base, base);
    }
  }

  /** Reading back what `str()` printed gives the same integer. */
  lemma ParseShowInt(n: int)
    ensures ParseInt(ShowInt(n)) == Ok(n)
  {
    if n < 0 {
      var t := ShowNat(-n);
      ParseShowNat(-n, 10);
      assert ("-" + t)[1..] == t;
      assert SignOf("-" + t) == (-1, t);
    } else {
      var t := ShowNat(n);
      ParseShowNat(n, 10);
      assert IsDigitIn(t[0], 10);
      assert SignOf(t) == (1, t);
    }
  }

  lemma ShowNatInjective(m: nat, n: nat)
    requires ShowNat(m) == ShowNat(n)
    ensures m == n
  {
    ParseShowNat(m, 10);
    ParseShowNat(n, 10);
  }

  /** Register names as the programs spell them: `f'X{i}'`. */
  function RegName(i: nat): string {
    "X" + ShowNat(i)
  }

  lemma RegNameInjective(i: nat, j: nat)
    requires RegName(i) == RegName(j)
    ensures i == j
  {
    assert ShowNat(i) == RegName(i)[1..];
    assert ShowNat(j) == RegName(j)[1..];
    ShowNatInjective(i, j);
  }

  /** Number of bytes `str.encode()` (UTF-8) produces for one character. */
  function Utf8Width(c: char): nat {
    var v := c as int;
    if v < 0x80 then 1 else if v < 0x800 then 2 else if v < 0x10000 then 3 else 4
  }

  /** UTF-8 encoding of one Unicode scalar value. */
  function Utf8Char(c: char): (r: seq<Byte>)
    ensures |r| == Utf8Width(c)
  {
    var v := c as int;
    if v < 0x80 then [v]
    else if v < 0x800 then [0xC0 + v / 0x40, 0x80 + v % 0x40]
    else if v < 0x10000 then [0xE0 + v / 0x1000, 0x80 + (v / 0x40) % 0x40, 0x80 + v % 0x40]
    else [0xF0 + v / 0x40000, 0x80 + (v / 0x1000) % 0x40, 0x80 + (v / 0x40) % 0x40, 0x80 + v % 0x40]
  }

  /** Python `s.encode()`. */
  function Utf8(s: string): (r: seq<Byte>)
    ensures |r| >= |s|
  {
    if |s| == 0 then [] else Utf8Char(s[0]) + Utf8(s[1..])
  }

  lemma {:induction false} Utf8Append(a: string, b: string)
    ensures Utf8(a + b) == Utf8(a) + Utf8(b)
  {
    if |a| > 0 {
      assert (a + b)[1..] == a[1..] + b;
      Utf8Append(a[1..], b);
    } else {
      assert a + b == b;
    }
  }

  /** The characters Python's `str.isspace()` accepts; the same class is
      matched by `\s` in a `str` regular expression and removed by `str.strip()`. */
  predicate IsSpace(c: char) {
    var v := c as int;
    (0x09 <= v <= 0x0D) || (0x1C <= v <= 0x20) || v == 0x85 || v == 0xA0 || v == 0x1680
    || (0x2000 <= v <= 0x200A) || v == 0x2028 || v == 0x2029 || v == 0x202F || v == 0x205F
    || v == 0x3000
  }

  /** `s.strip()` is non-empty. */
  predicate NotBlank(s: string) {
    exists i :: 0 <= i < |s| && !IsSpace(s[i])
  }
}
