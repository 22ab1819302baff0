/** The JavaScript string and number primitives the application leans on:
    printing and parsing integers (`toString`, `parseInt`), `padStart`,
    `trim`, `split`, `slice`, `substring`, `startsWith`, and the `||`
    defaulting between empty strings and null. */
module Text {
  import opened Wrappers

  /** A JavaScript number as the integer-valued code paths see it. */
  datatype JsInt = NaN | Num(n: int)

  /** The bases `parseInt` accepts without an explicit radix argument. */
  datatype Radix = Decimal | Hex {
    function Base(): nat {
      if Decimal? then 10 else 16
    }
  }

  predicate IsDigit(c: char) {
    '0' <= c <= '9'
  }

  predicate IsDigitIn(c: char, radix: Radix) {
    IsDigit(c) || (radix == Hex && ('a' <= c <= 'f' || 'A' <= c <= 'F'))
  }

  predicate AllDigitsIn(s: string, radix: Radix) {
    forall i :: 0 <= i < |s| ==> IsDigitIn(s[i], radix)
  }

  function DigitValue(c: char, radix: Radix): (d: nat)
    requires IsDigitIn(c, radix)
    ensures d < radix.Base()
  {
    if IsDigit(c) then c as int - '0' as int
    else if 'a' <= c <= 'f' then c as int - 'a' as int + 10
    else c as int - 'A' as int + 10
  }

  /** The number a string of digits denotes, most significant digit first. */
  function ValueIn(s: string, radix: Radix): nat
    requires AllDigitsIn(s, radix)
  {
    if s == [] then 0
    else ValueIn(s[..|s| - 1], radix) * radix.Base() + DigitValue(s[|s| - 1], radix)
  }

  function DigitChar(d: nat): (c: char)
    requires d < 10
    ensures IsDigit(c) && DigitValue(c, Decimal) == d
  {
    ('0' as int + d) as char
  }

  /** `n.toString()` for a non-negative integer: the shortest decimal
      numeral (its meaning is stated by `NatToStringDenotes`). */
  function NatToString(n: nat): (s: string)
    ensures |s| == 1 <==> n < 10
  {
    if n < 10 then [DigitChar(n)] else NatToString(n / 10) + [DigitChar(n % 10)]
  }

  /** The numeral of `n` is made of digits, denotes `n`, and has no leading zero. */
  lemma {:induction false} NatToStringDenotes(n: nat)
    ensures AllDigitsIn(NatToString(n), Decimal)
    ensures ValueIn(NatToString(n), Decimal) == n
    ensures NatToString(n)[0] == '0' <==> n == 0
  {
    if n >= 10 {
      NatToStringDenotes(n / 10);
      var front := NatToString(n / 10);
      var s := front + [DigitChar(n % 10)];
      assert s[..|s| - 1] == front;
    }
  }

  /** `i.toString()` for any integer: a minus sign before negative numerals. */
  function IntToString(i: int): (s: string)
    ensures |s| >= 1
    ensures i >= 0 ==> s == NatToString(i)
  {
    if i < 0 then NegToString(i) else NatToString(i)
  }

  /** The numeral of a negative integer. */
  function NegToString(i: int): (s: string)
    requires i < 0
    ensures |s| >= 2 && s[0] == '-'
  {
    "-" + NatToString(-i)
  }

  /** `String(x)` for a number that is NaN or an integer. */
  function JsIntToString(x: JsInt): string {
    match x
    case NaN => "NaN"
    case Num(i) => IntToString(i)
  }

  /** `x + 1`; NaN stays NaN. */
  function Succ(x: JsInt): (r: JsInt)
    ensures r.NaN? <==> x.NaN?
    ensures x.Num? ==> r.n == x.n + 1
  {
    match x
    case NaN => NaN
    case Num(i) => Num(i + 1)
  }

  function Repeat(c: char, n: nat): (r: string)
    ensures |r| == n && forall i :: 0 <= i < n ==> r[i] == c
  {
    seq(n, _ => c)
  }

  /** `s.padStart(width, c)` with a one-character filler: never truncates. */
  function PadStart(s: string, width: nat, c: char): (r: string)
    ensures |r| == if |s| >= width then |s| else width
    ensures r[|r| - |s|..] == s
    ensures forall i :: 0 <= i < |r| - |s| ==> r[i] == c
  {
    if |s| >= width then s else Repeat(c, width - |s|) + s
  }

  /** The white space and line terminators that `trim` and `parseInt` skip. */
  predicate IsSpace(c: char) {
    var n := c as int;
    n == 0x09 || n == 0x0A || n == 0x0B || n == 0x0C || n == 0x0D || n == 0x20
    || n == 0xA0 || n == 0x1680 || 0x2000 <= n <= 0x200A || n == 0x2028 || n == 0x2029
    || n == 0x202F || n == 0x205F || n == 0x3000 || n == 0xFEFF
  }

  function TrimStart(s: string): (r: string)
    ensures |r| <= |s| && r == s[|s| - |r|..]
    ensures forall i :: 0 <= i < |s| - |r| ==> IsSpace(s[i])
    ensures r == [] || !IsSpace(r[0])
  {
    if s != [] && IsSpace(s[0]) then TrimStart(s[1..]) else s
  }

  function TrimEnd(s: string): (r: string)
    ensures r <= s
    ensures forall i :: |r| <= i < |s| ==> IsSpace(s[i])
    ensures r == [] || !IsSpace(r[|r| - 1])
  {
    if s != [] && IsSpace(s[|s| - 1]) then TrimEnd(s[..|s| - 1]) else s
  }

  /** `s.trim()`. */
  function Trim(s: string): (r: string)
    ensures |r| <= |s|
    ensures r == [] || (!IsSpace(r[0]) && !IsSpace(r[|r| - 1]))
    ensures (s == [] || (!IsSpace(s[0]) && !IsSpace(s[|s| - 1]))) ==> r == s
  {
    TrimEnd(TrimStart(s))
  }

  /** The longest prefix of `s` made of digits of `radix`. */
  function LeadingDigits(s: string, radix: Radix): (d: string)
    ensures d <= s && AllDigitsIn(d, radix)
    ensures |d| < |s| ==> !IsDigitIn(s[|d|], radix)
  {
    if s == [] || !IsDigitIn(s[0], radix) then []
    else [s[0]] + LeadingDigits(s[1..], radix)
  }

  /** The digits after any sign: `0x`/`0X` selects base 16, otherwise base
      10, and the longest run of digits is read; no digits gives nothing. */
  function ParseUnsigned(u: string): Option<nat> {
    var hex := |u| >= 2 && u[0] == '0' && (u[1] == 'x' || u[1] == 'X');
    var radix := if hex then Hex else Decimal;
    var digits := LeadingDigits(if hex then u[2..] else u, radix);
    if digits == [] then None else Some(ValueIn(digits, radix))
  }

  /** At most one sign, then the digits. */
  function ParseSigned(t: string): JsInt {
    var signed := |t| > 0 && (t[0] == '-' || t[0] == '+');
    match ParseUnsigned(if signed then t[1..] else t)
    case None => NaN
    case Some(v) => if |t| > 0 && t[0] == '-' then Num(0 - v) else Num(v)
  }

  /** `parseInt(s)` with no radix argument: leading white space is skipped,
      one sign is allowed, `0x`/`0X` selects base 16, and the longest run of
      digits that follows is read; no digits at all gives NaN. */
  function ParseInt(s: string): JsInt {
    ParseSigned(TrimStart(s))
  }

  /** `parseInt(x)` where `x` may be `undefined` (read as NaN). */
  function ParseIntOpt(s: Option<string>): JsInt {
    match s
    case None => NaN
    case Some(t) => ParseInt(t)
  }

  /** The index of the first `c` in `s`, or `|s|` when there is none. */
  function Find(s: string, c: char): (i: nat)
    ensures i <= |s|
    ensures i < |s| ==> s[i] == c
    ensures forall k :: 0 <= k < i ==> s[k] != c
  {
    if s == [] || s[0] == c then 0 else 1 + Find(s[1..], c)
  }

  /** `s.lastIndexOf(c)`: the index of the last `c` in `s`, or -1 when there is none. */
  function LastIndexOf(s: string, c: char): (i: int)
    ensures -1 <= i < |s|
    ensures i >= 0 ==> s[i] == c
    ensures forall k :: i < k < |s| ==> s[k] != c
  {
    if s == [] then -1
    else if s[|s| - 1] == c then |s| - 1
    else LastIndexOf(s[..|s| - 1], c)
  }

  /** `s.split(sep)[1]`: the text between the first and the second `sep`
      (or the end), and `undefined` when `sep` does not occur. */
  function SplitSecond(s: string, sep: char): Option<string> {
    var i := Find(s, sep);
    if i == |s| then None
    else
      var rest := s[i + 1..];
      Some(rest[..Find(rest, sep)])
  }

  /** `s.slice(-n)` for `n > 0`: the last `n` characters, or all of `s`. */
  function LastN(s: string, n: nat): (r: string)
    ensures |r| == if |s| <= n then |s| else n
    ensures r == s[|s| - |r|..]
  {
    if |s| <= n then s else s[|s| - n..]
  }

  /** `s.substring(0, n)`: the first `n` characters, or all of `s`. */
  function Prefix(s: string, n: nat): (r: string)
    ensures r <= s
    ensures |r| == if |s| <= n then |s| else n
  {
    if |s| <= n then s else s[..n]
  }

  /** `s.startsWith(p)`. */
  predicate StartsWith(s: string, p: string) {
    p <= s
  }

  /** `toUpperCase` on one character; only the ASCII letters are mapped. */
  function ToUpper(c: char): char {
    if 'a' <= c <= 'z' then (c as int - 32) as char else c
  }

  /** `s.charAt(0).toUpperCase() + s.slice(1)`. */
  function Capitalize(s: string): (r: string)
    ensures |r| == |s|
    ensures s != [] ==> r[0] == ToUpper(s[0]) && r[1..] == s[1..]
  {
    if s == [] then [] else [ToUpper(s[0])] + s[1..]
  }

  /** JavaScript truthiness of a nullable string. */
  predicate Truthy(s: Option<string>) {
    s.Some? && s.value != ""
  }

  /** `s || null` for a form string. */
  function OrNull(s: string): (r: Option<string>)
    ensures r.None? <==> s == ""
    ensures r.Some? ==> r.value == s
  {
    if s == "" then None else Some(s)
  }

  /** `s || ""` for a nullable column. */
  function OrEmpty(s: Option<string>): (r: string)
    ensures Truthy(s) ==> r == s.value
    ensures !Truthy(s) ==> r == ""
  {
    if s.Some? then s.value else ""
  }

  // ---------------------------------------------------------------------
  // Round trips

  /** Emptying a form field and reading it back as a column is the identity. */
  lemma OrEmptyOrNull(s: string)
    ensures OrEmpty(OrNull(s)) == s
  {
  }

  /** Reading a column into a form and saving it back is the identity,
      except that an empty non-null string comes back as null. */
  lemma OrNullOrEmpty(s: Option<string>)
    ensures OrNull(OrEmpty(s)) == (if Truthy(s) then s else None)
  {
  }

  /** Leading zeros do not change the value of a numeral. */
  lemma {:induction false} ValueIgnoresLeadingZeros(z: string, s: string, radix: Radix)
    requires forall i :: 0 <= i < |z| ==> z[i] == '0'
    requires AllDigitsIn(s, radix)
    ensures AllDigitsIn(z + s, radix)
    ensures ValueIn(z + s, radix) == ValueIn(s, radix)
    decreases |s|
  {
    var w := z + s;
    assert forall i :: 0 <= i < |w| ==> IsDigitIn(w[i], radix) by {
      forall i | 0 <= i < |w| ensures IsDigitIn(w[i], radix) {
        if i < |z| { assert w[i] == z[i]; } else { assert w[i] == s[i - |z|]; }
      }
    }
    if s == [] {
      assert w == z;
      AllZerosValue(z, radix);
    } else {
      assert w[..|w| - 1] == z + s[..|s| - 1];
      assert w[|w| - 1] == s[|s| - 1];
      ValueIgnoresLeadingZeros(z, s[..|s| - 1], radix);
    }
  }

  lemma {:induction false} AllZerosValue(z: string, radix: Radix)
    requires forall i :: 0 <= i < |z| ==> z[i] == '0'
    ensures AllDigitsIn(z, radix) && ValueIn(z, radix) == 0
    decreases |z|
  {
    assert AllDigitsIn(z, radix) by {
      forall i | 0 <= i < |z| ensures IsDigitIn(z[i], radix) {
        assert z[i] == '0';
      }
    }
    if z != [] {
      AllZerosValue(z[..|z| - 1], radix);
    }
  }

  /** A string made only of digits is its own longest digit prefix. */
  lemma LeadingDigitsAll(s: string, radix: Radix)
    requires AllDigitsIn(s, radix)
    ensures LeadingDigits(s, radix) == s
  {
  }

  /** A run of decimal digits is read whole. */
  lemma ParseUnsignedDecimal(s: string)
    requires |s| >= 1 && AllDigitsIn(s, Decimal)
    ensures ParseUnsigned(s) == Some(ValueIn(s, Decimal))
  {
    var hex := |s| >= 2 && s[0] == '0' && (s[1] == 'x' || s[1] == 'X');
    assert !hex by {
      if |s| >= 2 { assert IsDigitIn(s[1], Decimal); }
    }
    LeadingDigitsAll(s, Decimal);
    assert LeadingDigits(s, Decimal) == s;
  }

  /** `parseInt` reads a plain decimal numeral back exactly. */
  lemma ParseIntDecimal(s: string)
    requires |s| >= 1 && AllDigitsIn(s, Decimal)
    ensures ParseInt(s) == Num(ValueIn(s, Decimal))
  {
    assert IsDigitIn(s[0], Decimal);
    assert !IsSpace(s[0]);
    assert TrimStart(s) == s;
    assert s[0] != '-' && s[0] != '+';
    ParseUnsignedDecimal(s);
    assert ParseSigned(s) == Num(ValueIn(s, Decimal));
  }

  /** Text that starts with neither white space, a sign nor a digit reads as NaN. */
  lemma ParseIntNotNumeric(s: string)
    requires |s| >= 1 && !IsSpace(s[0]) && !IsDigit(s[0]) && s[0] != '-' && s[0] != '+'
    ensures ParseInt(s) == NaN
  {
    assert TrimStart(s) == s;
    assert !(|s| >= 2 && s[0] == '0');
    assert LeadingDigits(s, Decimal) == [];
    assert ParseUnsigned(s) == None;
  }

  /** `parseInt(String(i)) === i` for every integer. */
  lemma ParseIntToString(i: int)
    ensures ParseInt(IntToString(i)) == Num(i)
  {
    if i >= 0 {
      ParseNatToString(i);
    } else {
      ParseNegIntToString(i, -i);
    }
  }

  /** The negative case, with the magnitude `n` named so that no negated
      term reaches the numeral's recursion. */
  lemma ParseNegIntToString(i: int, n: nat)
    requires i < 0 && n == -i
    ensures ParseInt(IntToString(i)) == Num(i)
  {
    assert IntToString(i) == "-" + NatToString(n);
    ParseNegNatToString(n);
  }

  lemma ParseNatToString(n: nat)
    ensures ParseInt(NatToString(n)) == Num(n)
  {
    NatToStringDenotes(n);
    ParseIntDecimal(NatToString(n));
  }

  lemma ParseNegNatToString(n: nat)
    ensures ParseInt("-" + NatToString(n)) == Num(0 - n)
  {
    NatToStringDenotes(n);
    ParseNegativeNumeral(NatToString(n));
  }

  /** A minus sign before a run of decimal digits negates its value. */
  lemma ParseNegativeNumeral(digits: string)
    requires |digits| >= 1 && AllDigitsIn(digits, Decimal)
    ensures ParseInt("-" + digits) == Num(0 - ValueIn(digits, Decimal))
  {
    var s := "-" + digits;
    assert s[0] == '-' && !IsSpace(s[0]);
    assert TrimStart(s) == s;
    SignedNegative(digits);
  }

  lemma SignedNegative(digits: string)
    requires |digits| >= 1 && AllDigitsIn(digits, Decimal)
    ensures ParseSigned("-" + digits) == Num(0 - ValueIn(digits, Decimal))
  {
    var s := "-" + digits;
    assert s[1..] == digits;
    ParseUnsignedDecimal(digits);
  }

  /** The first separator of `p + sep + q` is the one after `p`. */
  lemma FindAfter(p: string, q: string, sep: char)
    requires sep !in p
    ensures Find(p + [sep] + q, sep) == |p|
  {
    var s := p + [sep] + q;
    assert s[|p|] == sep;
    assert forall k :: 0 <= k < |p| ==> s[k] == p[k];
  }

  /** Splitting `p + sep + q` (and anything after a second `sep`) returns `q`. */
  lemma SplitSecondOf(p: string, q: string, tail: string, sep: char)
    requires sep !in p && sep !in q
    requires tail == [] || tail[0] == sep
    ensures SplitSecond(p + [sep] + q + tail, sep) == Some(q)
  {
    var s := p + [sep] + q + tail;
    assert s[|p|] == sep;
    assert forall k :: 0 <= k < |p| ==> s[k] == p[k];
    var i := Find(s, sep);
    assert i == |p|;
    var rest := s[i + 1..];
    assert rest == q + tail;
    assert forall k :: 0 <= k < |q| ==> rest[k] == q[k];
    var j := Find(rest, sep);
    assert j == |q| by {
      if tail != [] { assert rest[|q|] == sep; }
    }
    assert rest[..j] == q;
  }

  /** `split` finds nothing to return when the separator is absent. */
  lemma SplitSecondAbsent(s: string, sep: char)
    requires sep !in s
    ensures SplitSecond(s, sep) == None
  {
    assert Find(s, sep) == |s| by {
      assert forall k :: 0 <= k < |s| ==> s[k] != sep;
    }
  }

  /** The last separator of `p + sep + q` is the one after `p`. */
  lemma {:induction false} LastIndexAfter(p: string, q: string, sep: char)
    requires sep !in q
    ensures LastIndexOf(p + [sep] + q, sep) == |p|
    decreases |q|
  {
    var s := p + [sep] + q;
    if q != [] {
      assert s[|s| - 1] == q[|q| - 1];
      assert s[..|s| - 1] == p + [sep] + q[..|q| - 1];
      LastIndexAfter(p, q[..|q| - 1], sep);
    }
  }
}
