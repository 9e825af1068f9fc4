/**
 * Character and string helpers shared by the C loader and the Python harness:
 * decimal rendering as `printf("%d")` and Python's `str(int)` produce it,
 * decimal parsing as Python's `int()` and `json.loads` read it, substring
 * search, joining, and Python's notion of whitespace.
 */
module Text {
  import opened Wrappers

  /** One octet of file or socket content. */
  newtype byte = b: int | 0 <= b < 256

  /** The class `[0-9]` of a Python regular expression: ASCII digits only. */
  predicate IsDigit(c: char) {
    '0' <= c <= '9'
  }

  predicate AllDigits(s: string) {
    forall i | 0 <= i < |s| :: IsDigit(s[i])
  }

  /** A digit run as JSON writes an integer: non-empty, no leading zero. */
  predicate CanonicalDigits(s: string) {
    |s| > 0 && AllDigits(s) && (|s| > 1 ==> s[0] != '0')
  }

  function DigitChar(d: nat): (c: char)
    requires d < 10
    ensures IsDigit(c) && c as int - '0' as int == d
  {
    ('0' as int + d) as char
  }

  /** Decimal rendering of a natural number, without leading zeros. */
  function NatDigits(n: nat): string
    decreases n
  {
    if n < 10 then [DigitChar(n)] else NatDigits(n / 10) + [DigitChar(n % 10)]
  }

  /** Value of a digit run read left to right, as Python's `int()` reads `[0-9]+`. */
  function DigitsValue(s: string): nat
    requires AllDigits(s)
  {
    if s == [] then 0 else DigitsValue(s[..|s| - 1]) * 10 + (s[|s| - 1] as int - '0' as int)
  }

  /** `printf("%d", i)` in C and `str(i)` / `f'{i}'` in Python. */
  function Decimal(i: int): string {
    if i < 0 then "-" + NatDigits(-i) else NatDigits(i)
  }

  /** Reads an integer written as JSON writes one: an optional minus and canonical digits. */
  function ParseInt(s: string): Option<int> {
    if |s| > 0 && s[0] == '-' then
      if CanonicalDigits(s[1..]) then Some(-(DigitsValue(s[1..]) as int)) else None
    else if CanonicalDigits(s) then Some(DigitsValue(s)) else None
  }

  /** Every natural number renders as a canonical digit run that reads back as itself. */
  lemma {:induction false} NatDigitsCanonical(n: nat)
    ensures CanonicalDigits(NatDigits(n))
    ensures DigitsValue(NatDigits(n)) == n
    decreases n
  {
    if n >= 10 {
      NatDigitsCanonical(n / 10);
      var s := NatDigits(n);
      assert s[..|s| - 1] == NatDigits(n / 10);
      assert s[0] == NatDigits(n / 10)[0];
    }
  }

  /** `int(str(i)) == i`: the decimal rendering of any integer parses back to it. */
  lemma DecimalRoundTrip(i: int)
    ensures ParseInt(Decimal(i)) == Some(i)
    ensures |Decimal(i)| > 0 && (IsDigit(Decimal(i)[0]) || Decimal(i)[0] == '-')
    ensures forall k | 0 < k < |Decimal(i)| :: IsDigit(Decimal(i)[k])
  {
    if i < 0 {
      NatDigitsCanonical(-i);
      assert Decimal(i)[1..] == NatDigits(-i);
      assert Decimal(i)[0] == '-';
    } else {
      NatDigitsCanonical(i);
      assert Decimal(i)[0] != '-';
    }
  }

  /** Two integers with the same rendering are equal. */
  lemma DecimalInjective(i: int, j: int)
    requires Decimal(i) == Decimal(j)
    ensures i == j
  {
    DecimalRoundTrip(i);
    DecimalRoundTrip(j);
  }

  /** C's `strncmp(s, p, strlen(p)) == 0` and Python's `s.startswith(p)`. */
  predicate StartsWith(s: string, p: string) {
    |p| <= |s| && s[..|p|] == p
  }

  predicate OccursAt(s: string, p: string, i: nat) {
    i + |p| <= |s| && s[i..i + |p|] == p
  }

  /** Python's `s.find(p, k)`: the first index at or after `k` where `p` occurs. */
  function FindFrom(s: string, p: string, k: nat): (r: Option<nat>)
    decreases |s| - k
    ensures r.Some? ==> k <= r.value && OccursAt(s, p, r.value)
    ensures r.Some? ==> forall j | k <= j < r.value :: !OccursAt(s, p, j)
    ensures r.None? ==> forall j | k <= j :: !OccursAt(s, p, j)
  {
    if k + |p| > |s| then None
    else if OccursAt(s, p, k) then Some(k)
    else FindFrom(s, p, k + 1)
  }

  /** Python's `p in s`. */
  predicate Contains(s: string, p: string) {
    FindFrom(s, p, 0).Some?
  }

  /** `p in s` holds exactly when `p` occurs at some index of `s`. */
  lemma ContainsIff(s: string, p: string)
    ensures Contains(s, p) <==> exists i: nat :: OccursAt(s, p, i)
  {
    if Contains(s, p) {
      assert OccursAt(s, p, FindFrom(s, p, 0).value);
    }
  }

  /** Python's `sep.join(parts)`. */
  function Join(parts: seq<string>, sep: string): string {
    if |parts| == 0 then ""
    else if |parts| == 1 then parts[0]
    else parts[0] + sep + Join(parts[1..], sep)
  }

  /** Python's `''.join(parts)`. */
  function Concat(parts: seq<string>): string {
    if parts == [] then "" else parts[0] + Concat(parts[1..])
  }

  /**
   * The characters Python's `str.strip()` and `str.isspace()` treat as
   * whitespace (Unicode White_Space plus the four ASCII separators).
   */
  predicate IsSpace(c: char) {
    var n := c as int;
    (9 <= n <= 13) || (28 <= n <= 32) || n == 0x85 || n == 0xA0 || n == 0x1680
    || (0x2000 <= n <= 0x200A) || n == 0x2028 || n == 0x2029 || n == 0x202F
    || n == 0x205F || n == 0x3000
  }

  /** `s.strip() == ''`: nothing but whitespace. */
  predicate IsBlank(s: string) {
    forall i | 0 <= i < |s| :: IsSpace(s[i])
  }
}
