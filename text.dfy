/** String building used by the pipeline: decimal rendering of years, the
    "<low>-<high>" period label, and Python's `str.replace`. */
module Text {

  predicate IsDigit(c: char) { '0' <= c <= '9' }

  predicate AllDigits(s: string) { forall i :: 0 <= i < |s| ==> IsDigit(s[i]) }

  function DigitChar(d: nat): (c: char)
    requires d < 10
    ensures IsDigit(c)
  {
    (48 + d) as char
  }

  function DigitValue(c: char): nat
    requires IsDigit(c)
  {
    c as int - 48
  }

  /** `str(n)` for a non-negative integer: its decimal digits, most significant first. */
  function NatToString(n: nat): (s: string)
    ensures |s| > 0 && AllDigits(s)
    decreases n
  {
    if n < 10 then [DigitChar(n)] else NatToString(n / 10) + [DigitChar(n % 10)]
  }

  /** The value of a string of decimal digits. */
  function ParseNat(s: string): nat
    requires AllDigits(s)
  {
    if s == [] then 0 else ParseNat(s[..|s| - 1]) * 10 + DigitValue(s[|s| - 1])
  }

  /** Reading back a rendered number gives the number. */
  lemma {:induction false} ParseNatToString(n: nat)
    ensures ParseNat(NatToString(n)) == n
    decreases n
  {
    if n >= 10 {
      var s := NatToString(n);
      assert s[..|s| - 1] == NatToString(n / 10);
      ParseNatToString(n / 10);
    }
  }

  /** The rendering of numbers is injective. */
  lemma {:induction false} NatToStringInjective(m: nat, n: nat)
    requires NatToString(m) == NatToString(n)
    ensures m == n
  {
    ParseNatToString(m);
    ParseNatToString(n);
  }

  /** `"-".join` of the two construction-year bounds. */
  function PeriodLabel(low: nat, high: nat): (s: string)
  {
    NatToString(low) + "-" + NatToString(high)
  }

  /** The length of the run of digits that starts `s`. */
  function LeadingDigitCount(s: string): (n: nat)
    ensures n <= |s|
  {
    if s == [] || !IsDigit(s[0]) then 0 else 1 + LeadingDigitCount(s[1..])
  }

  lemma {:induction false} LeadingDigits(a: string, t: string)
    requires AllDigits(a) && t != [] && !IsDigit(t[0])
    ensures LeadingDigitCount(a + t) == |a|
  {
    if a != [] {
      assert (a + t)[1..] == a[1..] + t;
      LeadingDigits(a[1..], t);
    }
  }

  /** Distinct year pairs get distinct period labels, so grouping by the label is
      grouping by the pair of years. */
  lemma {:induction false} PeriodLabelInjective(low: nat, high: nat, low': nat, high': nat)
    requires PeriodLabel(low, high) == PeriodLabel(low', high')
    ensures low == low' && high == high'
  {
    var a, b := NatToString(low), NatToString(high);
    var a', b' := NatToString(low'), NatToString(high');
    var s := PeriodLabel(low, high);
    assert s == a + "-" + b;
    assert s == a' + "-" + b';
    LeadingDigits(a, "-" + b);
    LeadingDigits(a', "-" + b');
    assert s == a + ("-" + b) == a' + ("-" + b');
    assert a == s[..|a|] == a';
    assert b == s[|a| + 1..] == b';
    NatToStringInjective(low, low');
    NatToStringInjective(high, high');
  }

  /** `pat` occurs in `s` starting at `i`. */
  predicate OccursAt(pat: string, s: string, i: nat)
  {
    i + |pat| <= |s| && s[i..i + |pat|] == pat
  }

  predicate Occurs(pat: string, s: string)
  {
    exists i :: 0 <= i <= |s| && OccursAt(pat, s, i)
  }

  /** Python's `s.replace(pat, repl)`: every non-overlapping occurrence of `pat`,
      scanning from the left, is replaced by `repl`; an empty `pat` inserts `repl`
      before every character and at the end. */
  function ReplaceAll(s: string, pat: string, repl: string): (r: string)
    ensures pat == repl ==> r == s
    decreases |s|
  {
    if pat == [] then
      if s == [] then repl else repl + [s[0]] + ReplaceAll(s[1..], pat, repl)
    else if OccursAt(pat, s, 0) then
      repl + ReplaceAll(s[|pat|..], pat, repl)
    else if s == [] then
      []
    else
      [s[0]] + ReplaceAll(s[1..], pat, repl)
  }

  /** A non-empty pattern that does not occur leaves the string unchanged. */
  lemma {:induction false} ReplaceWithoutOccurrence(s: string, pat: string, repl: string)
    requires pat != [] && !Occurs(pat, s)
    ensures ReplaceAll(s, pat, repl) == s
    decreases |s|
  {
    assert !OccursAt(pat, s, 0);
    if s != [] {
      assert !Occurs(pat, s[1..]) by {
        if Occurs(pat, s[1..]) {
          var i :| 0 <= i <= |s[1..]| && OccursAt(pat, s[1..], i);
          OccursShift(pat, s, i);
        }
      }
      ReplaceWithoutOccurrence(s[1..], pat, repl);
      ReplaceSkip(s, pat, repl);
      assert [s[0]] + s[1..] == s;
    }
  }

  /** The leftmost occurrence of `pat`, at `j`, is replaced: the text before it
      is copied, the occurrence becomes `repl`, and the scan goes on after it. */
  lemma {:induction false} ReplaceLeftmost(s: string, pat: string, repl: string, j: nat)
    requires pat != [] && OccursAt(pat, s, j)
    requires forall i :: 0 <= i < j ==> !OccursAt(pat, s, i)
    ensures ReplaceAll(s, pat, repl) == s[..j] + repl + ReplaceAll(s[j + |pat|..], pat, repl)
    decreases j, 1
  {
    if j == 0 {
      ReplaceAtStart(s, pat, repl);
      assert s[..j] + repl == repl;
    } else {
      NoEarlierOccurrence(pat, s, j);
      ReplaceSkip(s, pat, repl);
      ReplaceLeftmostInTail(s, pat, repl, j);
      Regroup(s, ReplaceAll(s, pat, repl), ReplaceAll(s[1..], pat, repl), repl,
              ReplaceAll(s[j + |pat|..], pat, repl), j);
    }
  }

  /** The same occurrence, seen from `s[1..]`. */
  lemma {:induction false} ReplaceLeftmostInTail(s: string, pat: string, repl: string, j: nat)
    requires pat != [] && 0 < j && OccursAt(pat, s, j)
    requires forall i :: 0 <= i < j ==> !OccursAt(pat, s, i)
    ensures ReplaceAll(s[1..], pat, repl) == s[1..j] + repl + ReplaceAll(s[j + |pat|..], pat, repl)
    decreases j, 0
  {
    var t := s[1..];
    NoEarlierOccurrence(pat, s, j);
    ReplaceLeftmost(t, pat, repl, j - 1);
    assert t[..j - 1] == s[1..j];
    assert t[j - 1 + |pat|..] == s[j + |pat|..];
  }

  /** The occurrence at `j` of `s` is at `j - 1` of `s[1..]`, and is the first there too. */
  lemma {:induction false} NoEarlierOccurrence(pat: string, s: string, j: nat)
    requires 0 < j && OccursAt(pat, s, j)
    requires forall i :: 0 <= i < j ==> !OccursAt(pat, s, i)
    ensures s != [] && !OccursAt(pat, s, 0)
    ensures OccursAt(pat, s[1..], j - 1)
    ensures forall i :: 0 <= i < j - 1 ==> !OccursAt(pat, s[1..], i)
  {
    OccursShift(pat, s, j - 1);
    forall i | 0 <= i < j - 1 ensures !OccursAt(pat, s[1..], i) {
      OccursShift(pat, s, i);
    }
  }

  lemma {:induction false} Regroup(s: string, rs: string, rt: string, repl: string, x: string, j: nat)
    requires 0 < j <= |s|
    requires rs == [s[0]] + rt && rt == s[1..j] + repl + x
    ensures rs == s[..j] + repl + x
  {
    assert [s[0]] + s[1..j] == s[..j];
  }

  lemma {:induction false} OccursShift(pat: string, s: string, i: nat)
    requires s != []
    ensures OccursAt(pat, s[1..], i) <==> OccursAt(pat, s, i + 1)
  {
    if i + 1 + |pat| <= |s| {
      assert s[1..][i..i + |pat|] == s[i + 1..i + 1 + |pat|];
    }
  }

  lemma {:induction false} ReplaceAtStart(s: string, pat: string, repl: string)
    requires pat != [] && OccursAt(pat, s, 0)
    ensures ReplaceAll(s, pat, repl) == repl + ReplaceAll(s[|pat|..], pat, repl)
  {
  }

  lemma {:induction false} ReplaceSkip(s: string, pat: string, repl: string)
    requires pat != [] && s != [] && !OccursAt(pat, s, 0)
    ensures ReplaceAll(s, pat, repl) == [s[0]] + ReplaceAll(s[1..], pat, repl)
  {
  }

  /** Every occurrence is replaced: `k` copies of `pat` become `k` copies of `repl`. */
  lemma {:induction false} ReplaceRepeated(pat: string, repl: string, k: nat)
    requires pat != []
    ensures ReplaceAll(Repeat(pat, k), pat, repl) == Repeat(repl, k)
    decreases k
  {
    if k > 0 {
      var rest := Repeat(pat, k - 1);
      var whole := pat + rest;
      assert Repeat(pat, k) == whole;
      assert ReplaceAll(whole, pat, repl) == repl + ReplaceAll(rest, pat, repl) by {
        assert OccursAt(pat, whole, 0);
        ReplaceAtStart(whole, pat, repl);
        assert whole[|pat|..] == rest;
      }
      ReplaceRepeated(pat, repl, k - 1);
    }
  }

  function Repeat(s: string, k: nat): string
  {
    if k == 0 then [] else s + Repeat(s, k - 1)
  }
}
