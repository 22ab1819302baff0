/** Case-file numbers of the form `YY/NNN`: the last two characters of the
    current year, a slash, and a per-year counter padded with zeros to at
    least three digits (src/components/expedientes/ExpedienteForm.tsx:111-130).

    The counter continues from the most recently CREATED number of the same
    year (ordered by creation time, limit 1), not from the largest suffix on
    record; `latest` is that number when there is one. */
module Numbering {
  import opened Wrappers
  import opened Text

  /** `new Date().getFullYear().toString().slice(-2)`. */
  function YearPrefix(year: int): string {
    LastN(IntToString(year), 2)
  }

  /** `correlativo.toString().padStart(3, "0")`. */
  function FormatCounter(c: JsInt): string {
    PadStart(JsIntToString(c), 3, '0')
  }

  /** One more than the integer `parseInt` reads after the first `/` of the
      latest same-year number, or 1 when the year has no number yet. */
  function NextCounter(latest: Option<string>): JsInt {
    match latest
    case None => Num(1)
    case Some(s) => Succ(ParseIntOpt(SplitSecond(s, '/')))
  }

  /** `generateNumeroExpediente`. */
  function GenerateNumero(year: int, latest: Option<string>): (r: string)
    ensures |r| >= |YearPrefix(year)| + 4
    ensures r[..|YearPrefix(year)| + 1] == YearPrefix(year) + "/"
  {
    YearPrefix(year) + "/" + FormatCounter(NextCounter(latest))
  }

  /** The number the next case file of `year` gets, given the numbers on
      record in creation order. */
  function NextNumero(numeros: seq<string>, year: int): string {
    GenerateNumero(year, LatestWithPrefix(numeros, YearPrefix(year)))
  }

  /** The numbers matching the pattern `prefix/%`, in creation order. */
  function Matching(numeros: seq<string>, prefix: string): seq<string> {
    if numeros == [] then []
    else
      var m := Matching(numeros[..|numeros| - 1], prefix);
      if StartsWith(numeros[|numeros| - 1], prefix + "/") then m + [numeros[|numeros| - 1]] else m
  }

  /** The most recently created number matching `prefix/%`: the query
      ordered by creation time, descending, limited to one row. */
  function LatestWithPrefix(numeros: seq<string>, prefix: string): (r: Option<string>)
    ensures r.None? <==> forall i :: 0 <= i < |numeros| ==> !StartsWith(numeros[i], prefix + "/")
    ensures r.Some? ==> exists i :: 0 <= i < |numeros| && numeros[i] == r.value
                          && StartsWith(numeros[i], prefix + "/")
                          && forall j :: i < j < |numeros| ==> !StartsWith(numeros[j], prefix + "/")
  {
    if numeros == [] then None
    else if StartsWith(numeros[|numeros| - 1], prefix + "/") then Some(numeros[|numeros| - 1])
    else LatestWithPrefix(numeros[..|numeros| - 1], prefix)
  }

  /** The reading of a number back into its year prefix and counter:
      the text before the first `/`, and `parseInt` of the second field. */
  function SplitNumero(s: string): (string, JsInt) {
    (s[..Find(s, '/')], ParseIntOpt(SplitSecond(s, '/')))
  }

  // ---------------------------------------------------------------------
  // Year prefix

  lemma NatToStringLast(n: nat)
    ensures NatToString(n)[|NatToString(n)| - 1] == DigitChar(n % 10)
  {
  }

  /** For every year from 10 on, the prefix is its last two decimal digits. */
  lemma YearPrefixDigits(year: int)
    requires year >= 10
    ensures YearPrefix(year) == [DigitChar((year / 10) % 10), DigitChar(year % 10)]
  {
    var q := year / 10;
    var s := NatToString(year);
    var front := NatToString(q);
    assert IntToString(year) == s;
    assert s == front + [DigitChar(year % 10)];
    NatToStringLast(q);
    var last := front[|front| - 1];
    assert |s| >= 2;
    assert LastN(s, 2) == s[|s| - 2..];
    assert s[|s| - 2] == last;
    assert s[|s| - 2..] == [last, DigitChar(year % 10)];
  }

  lemma YearPrefix2025()
    ensures YearPrefix(2025) == "25"
  {
    YearPrefixDigits(2025);
  }

  /** The year prefix never holds the separator. */
  lemma YearPrefixHasNoSlash(year: int)
    ensures '/' !in YearPrefix(year)
  {
    var s := IntToString(year);
    assert forall i :: 0 <= i < |s| ==> s[i] != '/' by {
      forall i | 0 <= i < |s| ensures s[i] != '/' {
        if year >= 0 {
          NatToStringDenotes(year);
          assert IsDigitIn(NatToString(year)[i], Decimal);
        } else if i > 0 {
          NatToStringDenotes(-year);
          assert s[i] == NatToString(-year)[i - 1];
          assert IsDigitIn(NatToString(-year)[i - 1], Decimal);
        }
      }
    }
  }

  // ---------------------------------------------------------------------
  // Counter text

  /** The counter is padded with zeros to three characters and never
      truncated: its text is all digits and denotes the counter. */
  lemma FormatCounterShape(n: nat)
    ensures var t := FormatCounter(Num(n));
      && |t| == (if n < 100 then 3 else |NatToString(n)|)
      && AllDigitsIn(t, Decimal)
      && ValueIn(t, Decimal) == n
      && (n >= 100 ==> t == NatToString(n))
  {
    var d := NatToString(n);
    NatToStringDenotes(n);
    var t := FormatCounter(Num(n));
    assert |d| <= 2 <==> n < 100 by {
      if n >= 100 {
        NatToStringLength(n);
      } else if n >= 10 {
        assert d == NatToString(n / 10) + [DigitChar(n % 10)];
      }
    }
    var z := t[..|t| - |d|];
    assert t == z + d;
    ValueIgnoresLeadingZeros(z, d, Decimal);
  }

  /** A numeral is at least three characters long once the number reaches 100. */
  lemma NatToStringLength(n: nat)
    requires n >= 100
    ensures |NatToString(n)| >= 3
  {
  }

  lemma FirstCounterText()
    ensures FormatCounter(Num(1)) == "001"
  {
  }

  /** `parseInt` reads a formatted counter back for every non-negative
      counter, and NaN back as NaN. */
  lemma ParseFormattedCounter(c: JsInt)
    requires c.NaN? || c.n >= 0
    ensures ParseInt(FormatCounter(c)) == c
  {
    if c.Num? {
      ParseFormattedNum(c.n);
    } else {
      ParseFormattedNaN();
    }
  }

  lemma ParseFormattedNum(n: nat)
    ensures ParseInt(FormatCounter(Num(n))) == Num(n)
  {
    FormatCounterShape(n);
    ParseIntDecimal(FormatCounter(Num(n)));
  }

  lemma ParseFormattedNaN()
    ensures ParseInt(FormatCounter(NaN)) == NaN
  {
    var t := "NaN";
    assert FormatCounter(NaN) == t;
    assert !IsSpace(t[0]);
    assert TrimStart(t) == t;
    assert !IsDigitIn(t[0], Decimal);
    assert LeadingDigits(t, Decimal) == [];
    assert ParseUnsigned(t) == None;
  }

  lemma FormatCounterHasNoSlash(c: JsInt)
    requires c.NaN? || c.n >= 0
    ensures '/' !in FormatCounter(c)
  {
    if c.Num? {
      FormatCounterShape(c.n);
      DigitsHaveNoSlash(FormatCounter(c));
    } else {
      assert FormatCounter(c) == "NaN";
    }
  }

  lemma DigitsHaveNoSlash(t: string)
    requires AllDigitsIn(t, Decimal)
    ensures '/' !in t
  {
    forall i | 0 <= i < |t| ensures t[i] != '/' {
      assert IsDigitIn(t[i], Decimal);
    }
  }

  // ---------------------------------------------------------------------
  // Generation

  /** With no same-year number on record the counter starts at 1. */
  lemma FirstOfYear(year: int)
    ensures GenerateNumero(year, None) == YearPrefix(year) + "/001"
  {
    FirstCounterText();
  }

  /** Round trip: splitting a generated number at `/` gives back the year
      prefix and the counter it was built from (for every counter the
      generator can reach from well-formed data: NaN or non-negative). */
  lemma {:induction false} SplitGenerated(year: int, latest: Option<string>)
    requires NextCounter(latest).NaN? || NextCounter(latest).n >= 0
    ensures SplitNumero(GenerateNumero(year, latest)) == (YearPrefix(year), NextCounter(latest))
  {
    var c := NextCounter(latest);
    YearPrefixHasNoSlash(year);
    FormatCounterHasNoSlash(c);
    SplitNumeroOf(YearPrefix(year), FormatCounter(c));
    ParseFormattedCounter(c);
  }

  lemma SplitNumeroOf(p: string, q: string)
    requires '/' !in p && '/' !in q
    ensures SplitNumero(p + "/" + q) == (p, ParseInt(q))
  {
    var s := p + "/" + q;
    assert s == p + ['/'] + q + [];
    SplitSecondOf(p, q, [], '/');
    FindAfter(p, q, '/');
    assert s[..|p|] == p;
  }

  /** The number that follows a generated number continues its count. */
  lemma {:induction false} NextAfterGenerated(year: int, n: nat)
    ensures NextCounter(Some(NumberOf(YearPrefix(year), n))) == Num(n + 1)
  {
    YearPrefixHasNoSlash(year);
    NextAfterNumber(YearPrefix(year), n);
  }

  lemma NextAfterNumber(p: string, n: nat)
    requires '/' !in p
    ensures NextCounter(Some(NumberOf(p, n))) == Num(n + 1)
  {
    FormatCounterHasNoSlash(Num(n));
    NextCounterOf(p, FormatCounter(Num(n)));
    ParseFormattedCounter(Num(n));
  }

  /** The counter after `p/q` is one more than `parseInt(q)`. */
  lemma NextCounterOf(p: string, q: string)
    requires '/' !in p && '/' !in q
    ensures NextCounter(Some(p + "/" + q)) == Succ(ParseInt(q))
  {
    assert p + "/" + q == p + ['/'] + q + [];
    SplitSecondOf(p, q, [], '/');
  }

  /** A latest number whose suffix is not numeric yields the text "NaN". */
  lemma MalformedLatest(year: int)
    ensures GenerateNumero(year, Some(YearPrefix(year) + "/abc")) == YearPrefix(year) + "/NaN"
  {
    YearPrefixHasNoSlash(year);
    MalformedCounter(YearPrefix(year));
    assert FormatCounter(NaN) == "NaN";
  }

  lemma MalformedCounter(p: string)
    requires '/' !in p
    ensures NextCounter(Some(p + "/abc")) == NaN
  {
    assert p + "/abc" == p + ['/'] + "abc" + [];
    SplitSecondOf(p, "abc", [], '/');
    assert !IsSpace('a');
    ParseIntNotNumeric("abc");
  }

  // ---------------------------------------------------------------------
  // Sequential uniqueness

  /** Same-year numbers, in creation order, read prefix/001, prefix/002, … */
  ghost predicate Sequential(numeros: seq<string>, prefix: string) {
    CountsUp(Matching(numeros, prefix), prefix)
  }

  /** `f` reads prefix/001, prefix/002, …, up to its own length. */
  ghost predicate CountsUp(f: seq<string>, prefix: string)
    decreases |f|
  {
    f == [] || (CountsUp(f[..|f| - 1], prefix) && f[|f| - 1] == NumberOf(prefix, |f|))
  }

  /** The number of a year with counter `c`: `prefix/00c`. */
  function NumberOf(prefix: string, c: nat): string {
    prefix + "/" + FormatCounter(Num(c))
  }

  lemma MatchingAppend(numeros: seq<string>, x: string, prefix: string)
    ensures Matching(numeros + [x], prefix)
         == if StartsWith(x, prefix + "/") then Matching(numeros, prefix) + [x] else Matching(numeros, prefix)
  {
    assert (numeros + [x])[..|numeros|] == numeros;
  }

  /** The latest matching number is the last of the matching numbers. */
  lemma {:induction false} LatestIsLastMatching(numeros: seq<string>, prefix: string)
    ensures var m := Matching(numeros, prefix);
      LatestWithPrefix(numeros, prefix) == if m == [] then None else Some(m[|m| - 1])
    decreases |numeros|
  {
    if numeros != [] {
      LatestIsLastMatching(numeros[..|numeros| - 1], prefix);
    }
  }

  /** Every position of a counted-up sequence holds its own number. */
  lemma {:induction false} CountsUpAt(f: seq<string>, prefix: string, i: nat)
    requires CountsUp(f, prefix) && i < |f|
    ensures f[i] == NumberOf(prefix, i + 1)
    decreases |f|
  {
    if i < |f| - 1 {
      CountsUpAt(f[..|f| - 1], prefix, i);
    }
  }

  lemma CountsUpAppend(f: seq<string>, prefix: string, x: string, g: seq<string>)
    requires CountsUp(f, prefix) && x == NumberOf(prefix, |f| + 1) && g == f + [x]
    ensures CountsUp(g, prefix)
  {
    assert g[..|f|] == f;
  }

  /** Creating case files one at a time keeps each year's numbers sequential:
      the new number is prefix/(k+1) after k numbers of that year. */
  lemma {:induction false} GenerateKeepsSequential(numeros: seq<string>, year: int)
    requires Sequential(numeros, YearPrefix(year))
    ensures Sequential(numeros + [NextNumero(numeros, year)], YearPrefix(year))
  {
    NextNumeroInSequence(numeros, year);
    AppendNextInCount(numeros, YearPrefix(year), NextNumero(numeros, year));
  }

  /** Appending the next number in the count keeps a year sequential. */
  lemma AppendNextInCount(numeros: seq<string>, p: string, x: string)
    requires Sequential(numeros, p) && x == NumberOf(p, |Matching(numeros, p)| + 1)
    ensures Sequential(numeros + [x], p)
  {
    var f := Matching(numeros, p);
    StartsWithItsYear(x, p, |f| + 1);
    MatchingAppendHit(numeros, x, p);
    CountsUpAppend(f, p, x, Matching(numeros + [x], p));
  }

  lemma MatchingAppendHit(numeros: seq<string>, x: string, prefix: string)
    requires StartsWith(x, prefix + "/")
    ensures Matching(numeros + [x], prefix) == Matching(numeros, prefix) + [x]
  {
    MatchingAppend(numeros, x, prefix);
  }

  lemma StartsWithItsYear(x: string, p: string, c: nat)
    requires x == NumberOf(p, c)
    ensures StartsWith(x, p + "/")
  {
    ConcatStartsWith(p + "/", FormatCounter(Num(c)));
  }

  /** In a sequential year the next number is the year's next in the count. */
  lemma NextNumeroInSequence(numeros: seq<string>, year: int)
    requires Sequential(numeros, YearPrefix(year))
    ensures NextNumero(numeros, year) == NumberOf(YearPrefix(year), |Matching(numeros, YearPrefix(year))| + 1)
  {
    NextOfSequential(numeros, year);
  }

  lemma ConcatStartsWith(a: string, b: string)
    ensures StartsWith(a + b, a)
  {
    assert (a + b)[..|a|] == a;
  }

  /** In a sequential year the next counter is one more than the count of its numbers. */
  lemma NextOfSequential(numeros: seq<string>, year: int)
    requires Sequential(numeros, YearPrefix(year))
    ensures NextCounter(LatestWithPrefix(numeros, YearPrefix(year)))
         == Num(|Matching(numeros, YearPrefix(year))| + 1)
  {
    var p := YearPrefix(year);
    var f := Matching(numeros, p);
    LatestIsLastMatching(numeros, p);
    if f != [] {
      assert f[|f| - 1] == NumberOf(p, |f|);
      NextAfterGenerated(year, |f|);
    }
  }

  /** Creating a case file in a year with another two-character prefix
      leaves this prefix's sequence as it was. */
  lemma OtherYearKeepsSequential(numeros: seq<string>, year: int, prefix: string)
    requires Sequential(numeros, prefix)
    requires |prefix| == |YearPrefix(year)| && prefix != YearPrefix(year)
    ensures Sequential(numeros + [NextNumero(numeros, year)], prefix)
  {
    var p := YearPrefix(year);
    OtherPrefixDiffers(p, prefix, FormatCounter(NextCounter(LatestWithPrefix(numeros, p))));
    MatchingAppend(numeros, NextNumero(numeros, year), prefix);
  }

  lemma OtherPrefixDiffers(p: string, prefix: string, q: string)
    requires |prefix| == |p| && prefix != p
    ensures !StartsWith(p + "/" + q, prefix + "/")
  {
    var x := p + "/" + q;
    assert x[..|p|] == p;
    assert (prefix + "/")[..|p|] == prefix;
  }

  /** Numbers of a sequential year are pairwise distinct. */
  lemma SequentialDistinct(numeros: seq<string>, prefix: string, i: nat, j: nat)
    requires Sequential(numeros, prefix)
    requires i < j < |Matching(numeros, prefix)|
    ensures Matching(numeros, prefix)[i] != Matching(numeros, prefix)[j]
  {
    var f := Matching(numeros, prefix);
    CountsUpAt(f, prefix, i);
    CountsUpAt(f, prefix, j);
    PositionsDistinct(f[i], f[j], prefix, i, j);
  }

  /** The `i`-th and `j`-th numbers of a year differ. */
  lemma PositionsDistinct(a: string, b: string, prefix: string, i: nat, j: nat)
    requires a == NumberOf(prefix, i + 1) && b == NumberOf(prefix, j + 1)
    requires i < j
    ensures a != b
  {
    NumberedDistinct(a, b, prefix, i + 1, j + 1);
  }

  /** Numbers of a year with different counters differ. */
  lemma NumberedDistinct(a: string, b: string, prefix: string, m: nat, n: nat)
    requires a == NumberOf(prefix, m) && b == NumberOf(prefix, n)
    requires m != n
    ensures a != b
  {
    NumbersDistinct(prefix, m, n);
    DistinctAsTheirValues(a, b, NumberOf(prefix, m), NumberOf(prefix, n));
  }

  /** Two strings equal to two different strings differ. */
  lemma DistinctAsTheirValues(a: string, b: string, c: string, d: string)
    requires a == c && b == d && c != d
    ensures a != b
  {
  }

  /** Different counters give different numbers. */
  lemma NumbersDistinct(prefix: string, m: nat, n: nat)
    requires m != n
    ensures NumberOf(prefix, m) != NumberOf(prefix, n)
  {
    FormattedDistinct(m, n);
    SameHeadDistinct(prefix + "/", FormatCounter(Num(m)), FormatCounter(Num(n)));
  }

  /** Different counters are written differently. */
  lemma FormattedDistinct(m: nat, n: nat)
    requires m != n
    ensures FormatCounter(Num(m)) != FormatCounter(Num(n))
  {
    ParseFormattedCounter(Num(m));
    ParseFormattedCounter(Num(n));
    DistinctByParse(FormatCounter(Num(m)), FormatCounter(Num(n)));
  }

  lemma DistinctByParse(a: string, b: string)
    requires ParseInt(a) != ParseInt(b)
    ensures a != b
  {
  }

  lemma SameHeadDistinct(pre: string, a: string, b: string)
    requires a != b
    ensures pre + a != pre + b
  {
    assert (pre + a)[|pre|..] == a && (pre + b)[|pre|..] == b;
  }
}
