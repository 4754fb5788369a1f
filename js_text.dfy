/**
 * The few JavaScript string built-ins the screens rely on: `trim`, ASCII `toLowerCase`,
 * `parseInt` without a radix, number-to-string conversion and `padStart(2, "0")`.
 */
module JsText {
  import opened Wrappers

  /** ECMAScript WhiteSpace and LineTerminator code points: what `trim()` strips and `\s` matches. */
  predicate IsSpace(c: char) {
    var n := c as int;
    (9 <= n <= 13) || n == 32 || n == 0xA0 || n == 0x1680 || (0x2000 <= n <= 0x200A)
    || n == 0x2028 || n == 0x2029 || n == 0x202F || n == 0x205F || n == 0x3000 || n == 0xFEFF
  }

  predicate AllSpace(s: string) {
    forall k :: 0 <= k < |s| ==> IsSpace(s[k])
  }

  /** `trimStart()`: drops the leading white space and keeps the rest as it is. */
  function TrimStart(s: string): string
  {
    if s != [] && IsSpace(s[0]) then TrimStart(s[1..]) else s
  }

  /** What `trimStart()` drops is white space, and what it keeps is a suffix that does not start with white space. */
  lemma {:induction false} TrimStartCuts(s: string)
    ensures var r := TrimStart(s);
      && |r| <= |s| && r == s[|s| - |r|..]
      && AllSpace(s[..|s| - |r|])
      && (r != [] ==> !IsSpace(r[0]))
    decreases |s|
  {
    if s != [] && IsSpace(s[0]) {
      TrimStartCuts(s[1..]);
      var r := TrimStart(s);
      var n := |s| - |r|;
      assert s[1..][n - 1..] == s[n..];
      forall k | 0 <= k < n
        ensures IsSpace(s[..n][k])
      {
        if k > 0 {
          assert s[..n][k] == s[1..][..n - 1][k - 1];
        }
      }
    }
  }

  /** Length of `s` once its trailing white space is dropped. */
  function KeptLength(s: string): (n: nat)
    ensures n <= |s|
  {
    if s != [] && IsSpace(s[|s| - 1]) then KeptLength(s[..|s| - 1]) else |s|
  }

  /** Everything after the kept length is white space, and the last kept character is not. */
  lemma {:induction false} KeptLengthCuts(s: string)
    ensures var n := KeptLength(s);
      && (forall k :: n <= k < |s| ==> IsSpace(s[k]))
      && (n > 0 ==> !IsSpace(s[n - 1]))
    decreases |s|
  {
    if s != [] && IsSpace(s[|s| - 1]) {
      var p := s[..|s| - 1];
      KeptLengthCuts(p);
      assert forall k :: 0 <= k < |p| ==> p[k] == s[k];
    }
  }

  /** `trimEnd()`: drops the trailing white space and keeps the rest as it is. */
  function TrimEnd(s: string): string
  {
    s[..KeptLength(s)]
  }

  /** What `trimEnd()` drops is white space, and what it keeps is a prefix that does not end with white space. */
  lemma TrimEndCuts(s: string)
    ensures var r := TrimEnd(s);
      && |r| <= |s| && r == s[..|r|]
      && AllSpace(s[|r|..])
      && (r != [] ==> !IsSpace(r[|r| - 1]))
  {
    KeptLengthCuts(s);
    var n := KeptLength(s);
    assert forall k :: 0 <= k < |s| - n ==> s[n..][k] == s[n + k];
  }

  /**
   * `trim()`: the input with its leading and trailing white space cut off. Empty exactly for
   * blank or white-space-only input, otherwise bounded by non-space characters.
   */
  function Trim(s: string): (r: string)
    ensures |r| <= |s|
    ensures exists i, j :: 0 <= i <= j <= |s| && AllSpace(s[..i]) && AllSpace(s[j..]) && r == s[i..j]
    ensures r == [] <==> AllSpace(s)
    ensures r != [] ==> !IsSpace(r[0]) && !IsSpace(r[|r| - 1])
  {
    var t := TrimStart(s);
    var r := TrimEnd(t);
    TrimStartCuts(s);
    TrimEndCuts(t);
    TrimBothEnds(s, t, r);
    r
  }

  /**
   * Cutting the white space off the front (`t`) and then off the back (`r`) leaves the slice
   * of `s` between two white-space runs; it is empty exactly when `s` is all white space.
   */
  lemma TrimBothEnds(s: string, t: string, r: string)
    requires |t| <= |s| && t == s[|s| - |t|..] && AllSpace(s[..|s| - |t|])
    requires |r| <= |t| && r == t[..|r|] && AllSpace(t[|r|..])
    requires r != [] ==> !IsSpace(r[|r| - 1])
    ensures exists i, j :: 0 <= i <= j <= |s| && AllSpace(s[..i]) && AllSpace(s[j..]) && r == s[i..j]
    ensures r == [] <==> AllSpace(s)
  {
    var i := |s| - |t|;
    assert t[..|r|] == s[i..i + |r|];
    assert t[|r|..] == s[i + |r|..];
    BlankSlice(s, i, r);
  }

  /** A slice cut out between white-space runs is empty exactly when the whole string is white space. */
  lemma BlankSlice(s: string, i: nat, r: string)
    requires i + |r| <= |s| && AllSpace(s[..i]) && AllSpace(s[i + |r|..]) && r == s[i..i + |r|]
    requires r != [] ==> !IsSpace(r[|r| - 1])
    ensures r == [] <==> AllSpace(s)
  {
    if r == [] {
      AllSpaceSplit(s, i);
    } else {
      assert r[|r| - 1] == s[i + |r| - 1];
      NotAllSpace(s, i + |r| - 1);
    }
  }

  lemma AllSpaceSplit(s: string, i: nat)
    requires i <= |s| && AllSpace(s[..i]) && AllSpace(s[i..])
    ensures AllSpace(s)
  {
    forall k | 0 <= k < |s|
      ensures IsSpace(s[k])
    {
      if k < i {
        assert s[k] == s[..i][k];
      } else {
        assert s[k] == s[i..][k - i];
      }
    }
  }

  lemma NotAllSpace(s: string, k: nat)
    requires k < |s| && !IsSpace(s[k])
    ensures !AllSpace(s)
  {
  }

  /** `toLowerCase()` restricted to the ASCII letters. */
  function LowerChar(c: char): char {
    if 'A' <= c <= 'Z' then (c as int - 'A' as int + 'a' as int) as char else c
  }

  function ToLowerAscii(s: string): (r: string)
    ensures |r| == |s|
    ensures forall k :: 0 <= k < |s| ==> r[k] == LowerChar(s[k])
  {
    seq(|s|, k requires 0 <= k < |s| => LowerChar(s[k]))
  }

  predicate IsDecimalDigit(c: char) {
    '0' <= c <= '9'
  }

  predicate AllDecimal(s: string) {
    forall k :: 0 <= k < |s| ==> IsDecimalDigit(s[k])
  }

  predicate IsHexDigit(c: char) {
    '0' <= c <= '9' || 'a' <= c <= 'f' || 'A' <= c <= 'F'
  }

  predicate AllHex(s: string) {
    forall k :: 0 <= k < |s| ==> IsHexDigit(s[k])
  }

  function DigitChar(d: nat): (c: char)
    requires d < 10
    ensures IsDecimalDigit(c)
  {
    ('0' as int + d) as char
  }

  /** `n.toString()` for a non-negative integer: its decimal digits, without leading zeros. */
  function NatToString(n: nat): (r: string)
    ensures |r| >= 1 && AllDecimal(r)
    ensures |r| > 1 ==> r[0] != '0'
    decreases n
  {
    if n < 10 then [DigitChar(n)] else NatToString(n / 10) + [DigitChar(n % 10)]
  }

  /** The number a string of decimal digits denotes. */
  function DecimalValue(s: string): nat
    requires AllDecimal(s)
  {
    if s == [] then 0 else 10 * DecimalValue(s[..|s| - 1]) + (s[|s| - 1] as int - '0' as int)
  }

  lemma {:induction false} DecimalRoundTrip(n: nat)
    ensures DecimalValue(NatToString(n)) == n
    decreases n
  {
    if n >= 10 {
      DecimalRoundTrip(n / 10);
      var s := NatToString(n);
      assert s[..|s| - 1] == NatToString(n / 10);
    }
  }

  /** `String(i)` for an integer. */
  function IntToString(i: int): (r: string)
    ensures |r| >= 1
  {
    if i < 0 then "-" + NatToString(-i) else NatToString(i)
  }

  /** `padStart(2, "0")`: left-pads with zeros to two characters and never truncates. */
  function PadStart2(s: string): (r: string)
    ensures |r| == if |s| >= 2 then |s| else 2
    ensures r[|r| - |s|..] == s
    ensures forall k :: 0 <= k < |r| - |s| ==> r[k] == '0'
  {
    if |s| >= 2 then s else seq(2 - |s|, _ => '0') + s
  }

  /** The value of `c` as a digit in `radix` (10 or 16), if it is one. */
  function DigitValue(c: char, radix: nat): Option<nat>
  {
    if '0' <= c <= '9' && (c as int - '0' as int) < radix then Some(c as int - '0' as int)
    else if radix == 16 && 'a' <= c <= 'f' then Some(c as int - 'a' as int + 10)
    else if radix == 16 && 'A' <= c <= 'F' then Some(c as int - 'A' as int + 10)
    else None
  }

  /** How many characters at the front of `s` are digits in `radix`. */
  function LeadingDigitCount(s: string, radix: nat): (n: nat)
    ensures n <= |s|
    ensures forall k :: 0 <= k < n ==> DigitValue(s[k], radix).Some?
    ensures n < |s| ==> DigitValue(s[n], radix).None?
  {
    if s == [] || DigitValue(s[0], radix).None? then 0 else 1 + LeadingDigitCount(s[1..], radix)
  }

  function DigitsValue(s: string, radix: nat): nat
    requires forall k :: 0 <= k < |s| ==> DigitValue(s[k], radix).Some?
  {
    if s == [] then 0 else radix * DigitsValue(s[..|s| - 1], radix) + DigitValue(s[|s| - 1], radix).value
  }

  /** Whether `u` starts with the `0x`/`0X` prefix that switches `parseInt` to radix 16. */
  predicate HasHexPrefix(u: string) {
    |u| >= 2 && u[0] == '0' && (u[1] == 'x' || u[1] == 'X')
  }

  /** What `parseInt` looks at once leading white space and one sign character are gone. */
  function Unsigned(s: string): string {
    var t := TrimStart(s);
    if t != [] && (t[0] == '-' || t[0] == '+') then t[1..] else t
  }

  function Radix(u: string): nat {
    if HasHexPrefix(u) then 16 else 10
  }

  /** The characters after the optional `0x` prefix. */
  function DigitRun(u: string): string {
    if HasHexPrefix(u) then u[2..] else u
  }

  /** Whether the first character after the leading white space is a minus sign. */
  predicate NegativeSign(s: string) {
    var t := TrimStart(s);
    t != [] && t[0] == '-'
  }

  /** The longest run of `radix` digits at the front of `digits`, negated when `neg`; `None` for no digits. */
  function ReadDigits(neg: bool, digits: string, radix: nat): (r: Option<int>)
    ensures r.Some? <==> LeadingDigitCount(digits, radix) > 0
  {
    var n := LeadingDigitCount(digits, radix);
    if n == 0 then None
    else
      var magnitude: int := DigitsValue(digits[..n], radix);
      Some(if neg then -magnitude else magnitude)
  }

  /**
   * `parseInt(s)` with no radix argument: skip leading white space, read one optional sign,
   * read a `0x` prefix as radix 16, then take the longest run of digits. `None` is `NaN`.
   */
  function ParseInt(s: string): (r: Option<int>)
    ensures r.Some? <==> LeadingDigitCount(DigitRun(Unsigned(s)), Radix(Unsigned(s))) > 0
  {
    var u := Unsigned(s);
    ReadDigits(NegativeSign(s), DigitRun(u), Radix(u))
  }

  /** `parseInt(s)` is a number above zero (so neither NaN nor 0 nor negative). */
  predicate PositiveInt(s: string) {
    ParseInt(s).Some? && ParseInt(s).value > 0
  }

  lemma DecimalDigitsAgree(s: string)
    requires AllDecimal(s)
    ensures forall k :: 0 <= k < |s| ==> DigitValue(s[k], 10).Some?
    ensures DigitsValue(s, 10) == DecimalValue(s)
  {
    if s != [] {
      DecimalDigitsAgree(s[..|s| - 1]);
    }
  }

  /** `parseInt` reads back every number that `toString` prints. */
  lemma ParseIntOfNatToString(n: nat)
    ensures ParseInt(NatToString(n)) == Some(n)
  {
    ParseIntOfIntToString(n);
  }

  /** `parseInt` reads the decimal text of any integer, sign included, back as that integer. */
  lemma ParseIntOfIntToString(i: int)
    ensures ParseInt(IntToString(i)) == Some(i)
  {
    var n: nat := if i < 0 then -i else i;
    var d := NatToString(n);
    DecimalRoundTrip(n);
    assert d + [] == d;
    if i < 0 {
      SignedDecimal("-", d, []);
      assert IntToString(i) == "-" + d;
    } else {
      SignedDecimal("", d, []);
      assert IntToString(i) == "" + d;
    }
  }

  /** Leading white space is skipped up to the first character that is not white space. */
  lemma {:induction false} TrimStartAfterSpace(w: string, v: string)
    requires AllSpace(w)
    requires v == [] || !IsSpace(v[0])
    ensures TrimStart(w + v) == v
    decreases |w|
  {
    if w != [] {
      assert (w + v)[1..] == w[1..] + v;
      TrimStartAfterSpace(w[1..], v);
    } else {
      assert w + v == v;
    }
  }

  /** The digit run ends where the first non-digit starts. */
  lemma {:induction false} LeadingRun(d: string, t: string, radix: nat)
    requires forall k :: 0 <= k < |d| ==> DigitValue(d[k], radix).Some?
    requires t == [] || DigitValue(t[0], radix).None?
    ensures LeadingDigitCount(d + t, radix) == |d|
    decreases |d|
  {
    if d != [] {
      assert (d + t)[1..] == d[1..] + t;
      LeadingRun(d[1..], t, radix);
    } else {
      assert d + t == t;
    }
  }

  /** Digits followed by a non-digit are read up to the non-digit. */
  lemma ReadRun(neg: bool, d: string, t: string, radix: nat)
    requires d != [] && forall k :: 0 <= k < |d| ==> DigitValue(d[k], radix).Some?
    requires t == [] || DigitValue(t[0], radix).None?
    ensures var m: int := DigitsValue(d, radix); ReadDigits(neg, d + t, radix) == Some(if neg then -m else m)
  {
    LeadingRun(d, t, radix);
    PrefixOfJoin(d, t);
    ReadCounted(neg, d + t, radix, d);
  }

  /** `ReadDigits` reads exactly the counted digits. */
  lemma ReadCounted(neg: bool, digits: string, radix: nat, run: string)
    requires run != [] && LeadingDigitCount(digits, radix) == |run|
    requires digits[..|run|] == run
    ensures forall k :: 0 <= k < |run| ==> DigitValue(run[k], radix).Some?
    ensures var m: int := DigitsValue(run, radix); ReadDigits(neg, digits, radix) == Some(if neg then -m else m)
  {
  }

  lemma PrefixOfJoin<T>(a: seq<T>, b: seq<T>)
    ensures (a + b)[..|a|] == a
  {
  }

  /** Leading white space does not change what `parseInt` reads. */
  lemma SkipSpace(w: string, v: string)
    requires AllSpace(w)
    requires v == [] || !IsSpace(v[0])
    ensures ParseInt(w + v) == ParseInt(v)
  {
    TrimStartAfterSpace(w, v);
    NoLeadingSpace(v);
    SameStart(w + v, v);
  }

  /** `parseInt` only looks at what is left once the leading white space is gone. */
  lemma SameStart(a: string, b: string)
    requires TrimStart(a) == TrimStart(b)
    ensures ParseInt(a) == ParseInt(b)
  {
  }

  /** One sign in front of `u`: `parseInt` goes on with `u`, negative exactly for `-`. */
  lemma SignedRun(sign: string, u: string)
    requires sign == "" || sign == "+" || sign == "-"
    requires u != [] && IsDecimalDigit(u[0])
    ensures var v := sign + u; v != [] && !IsSpace(v[0])
    ensures Unsigned(sign + u) == u
    ensures NegativeSign(sign + u) <==> sign == "-"
  {
    var v := sign + u;
    if sign == "" {
      assert v == u;
    } else {
      assert v[0] == sign[0] && v[1..] == u;
    }
    assert v != [];
    NoLeadingSpace(v);
  }

  lemma NoLeadingSpace(v: string)
    requires v == [] || !IsSpace(v[0])
    ensures TrimStart(v) == v
  {
  }

  /**
   * `parseInt` on decimal input: white space, an optional sign, then the longest run of
   * decimal digits, whatever follows. A lone `0` followed by `x` or `X` is the hex case.
   */
  lemma ParseIntDecimal(w: string, sign: string, d: string, t: string)
    requires AllSpace(w)
    requires sign == "" || sign == "+" || sign == "-"
    requires d != [] && AllDecimal(d)
    requires t == [] || !IsDecimalDigit(t[0])
    requires !(d == "0" && t != [] && (t[0] == 'x' || t[0] == 'X'))
    ensures var m: int := DecimalValue(d); ParseInt(w + sign + d + t) == Some(if sign == "-" then -m else m)
  {
    var v := sign + (d + t);
    assert w + sign + d + t == w + v;
    SignedDecimal(sign, d, t);
    SkipSpace(w, v);
  }

  /** `parseInt` on an optional sign followed by decimal digits and then anything else. */
  lemma SignedDecimal(sign: string, d: string, t: string)
    requires sign == "" || sign == "+" || sign == "-"
    requires d != [] && AllDecimal(d)
    requires t == [] || !IsDecimalDigit(t[0])
    requires !(d == "0" && t != [] && (t[0] == 'x' || t[0] == 'X'))
    ensures var v := sign + (d + t); v != [] && !IsSpace(v[0])
    ensures var m: int := DecimalValue(d); ParseInt(sign + (d + t)) == Some(if sign == "-" then -m else m)
  {
    var u := d + t;
    assert u[0] == d[0];
    SignedRun(sign, u);
    DecimalRun(d, t);
    ReadRun(sign == "-", d, t, 10);
    ParseIntParts(sign + u, sign == "-", u);
  }

  /** `parseInt(s)` reads the digits of the unsigned part with the sign of `s`. */
  lemma ParseIntParts(s: string, neg: bool, u: string)
    requires Unsigned(s) == u && (NegativeSign(s) <==> neg)
    ensures ParseInt(s) == ReadDigits(neg, DigitRun(u), Radix(u))
  {
  }

  /** A decimal digit run followed by a non-digit is read in radix 10. */
  lemma DecimalRun(d: string, t: string)
    requires d != [] && AllDecimal(d)
    requires t == [] || !IsDecimalDigit(t[0])
    requires !(d == "0" && t != [] && (t[0] == 'x' || t[0] == 'X'))
    ensures Radix(d + t) == 10 && DigitRun(d + t) == d + t
    ensures forall k :: 0 <= k < |d| ==> DigitValue(d[k], 10).Some?
    ensures t == [] || DigitValue(t[0], 10).None?
    ensures DigitsValue(d, 10) == DecimalValue(d)
  {
    var u := d + t;
    if |d| >= 2 {
      assert u[1] == d[1];
    } else if t != [] {
      assert u[1] == t[0];
    }
    assert !HasHexPrefix(u);
    DecimalDigitsAgree(d);
  }

  /** `parseInt` on `0x` input: white space, an optional sign, `0x` or `0X`, then the longest run of hex digits. */
  lemma ParseIntHex(w: string, sign: string, x: char, h: string, t: string)
    requires AllSpace(w)
    requires sign == "" || sign == "+" || sign == "-"
    requires x == 'x' || x == 'X'
    requires h != [] && AllHex(h)
    requires t == [] || !IsHexDigit(t[0])
    ensures var m: int := DigitsValue(h, 16); ParseInt(w + sign + ['0', x] + h + t) == Some(if sign == "-" then -m else m)
  {
    var v := sign + (['0', x] + (h + t));
    Regroup(w, sign, ['0', x], h, t);
    SignedHex(sign, x, h, t);
    SkipSpace(w, v);
  }

  /** `parseInt` on an optional sign, `0x` or `0X`, hex digits and then anything else. */
  lemma SignedHex(sign: string, x: char, h: string, t: string)
    requires sign == "" || sign == "+" || sign == "-"
    requires x == 'x' || x == 'X'
    requires h != [] && AllHex(h)
    requires t == [] || !IsHexDigit(t[0])
    ensures var v := sign + (['0', x] + (h + t)); v != [] && !IsSpace(v[0])
    ensures var m: int := DigitsValue(h, 16); ParseInt(sign + (['0', x] + (h + t))) == Some(if sign == "-" then -m else m)
  {
    var u := ['0', x] + (h + t);
    assert u[0] == '0';
    SignedRun(sign, u);
    HexRun(x, h + t);
    HexDigitsRead(sign == "-", h, t);
    ParseIntParts(sign + u, sign == "-", u);
  }

  /** Concatenation regrouped to the right. */
  lemma Regroup<T>(a: seq<T>, b: seq<T>, c: seq<T>, d: seq<T>, e: seq<T>)
    ensures a + b + c + d + e == a + (b + (c + (d + e)))
  {
  }

  /** A hex digit run followed by a non-digit is read whole in radix 16. */
  lemma HexDigitsRead(neg: bool, h: string, t: string)
    requires h != [] && AllHex(h)
    requires t == [] || !IsHexDigit(t[0])
    ensures var m: int := DigitsValue(h, 16); ReadDigits(neg, h + t, 16) == Some(if neg then -m else m)
  {
    assert forall k :: 0 <= k < |h| ==> DigitValue(h[k], 16).Some?;
    ReadRun(neg, h, t, 16);
  }

  /** A `0x` or `0X` prefix switches to radix 16 and is not part of the digit run. */
  lemma HexRun(x: char, rest: string)
    requires x == 'x' || x == 'X'
    ensures Radix(['0', x] + rest) == 16 && DigitRun(['0', x] + rest) == rest
  {
    var u := ['0', x] + rest;
    assert u[0] == '0' && u[1] == x;
    assert u[2..] == rest;
  }
}
