/**
 * Pad labels of the filter graph. Every label the planner emits is a fixed
 * prefix followed by the decimal rendering of an index (`v3`, `v02`, `row1`,
 * `black12`) or the bare final label `v`. The lemmas here are what makes the
 * "no duplicate output label" invariant of the builders provable.
 */
module Labels {

  /** The digit character for 0 <= d < 10. */
  function Digit(d: nat): (c: char)
    requires d < 10
    ensures '0' <= c <= '9'
    ensures DigitValue(c) == d
  {
    ('0' as int + d) as char
  }

  /** The value of a digit character (0 for anything else). */
  function DigitValue(c: char): nat
  {
    if '0' <= c <= '9' then c as int - '0' as int else 0
  }

  /** Decimal rendering of a natural number, as template literals print an index. */
  function NatStr(n: nat): (s: string)
    ensures |s| >= 1
    decreases n
  {
    if n < 10 then [Digit(n)] else NatStr(n / 10) + [Digit(n % 10)]
  }

  /** The rendering is all digits, starts with `0` only for zero (no leading
      zero), and is a single digit exactly below 10. */
  lemma {:induction false} NatStrShape(n: nat)
    ensures var s := NatStr(n);
            && (forall k :: 0 <= k < |s| ==> '0' <= s[k] <= '9')
            && (s[0] == '0' <==> n == 0)
            && (n < 10 <==> |s| == 1)
    decreases n
  {
    if n >= 10 {
      NatStrShape(n / 10);
      var s, t := NatStr(n), NatStr(n / 10);
      assert s == t + [Digit(n % 10)];
      assert s[0] == t[0];
    }
  }

  /** Reads a decimal string back (the inverse of NatStr). */
  function ValueOf(s: string): nat
  {
    if |s| == 0 then 0 else ValueOf(s[..|s| - 1]) * 10 + DigitValue(s[|s| - 1])
  }

  /** Rendering then reading gives the number back. */
  lemma {:induction false} ValueOfNatStr(n: nat)
    ensures ValueOf(NatStr(n)) == n
    decreases n
  {
    var s := NatStr(n);
    if n < 10 {
      assert s[..0] == [];
    } else {
      assert s[..|s| - 1] == NatStr(n / 10);
      ValueOfNatStr(n / 10);
    }
  }

  /** Distinct numbers have distinct renderings. */
  lemma NatStrInjective(a: nat, b: nat)
    ensures NatStr(a) == NatStr(b) ==> a == b
  {
    ValueOfNatStr(a);
    ValueOfNatStr(b);
  }

  lemma CancelPrefix(p: string, x: string, y: string)
    ensures p + x == p + y ==> x == y
  {
    assert x == (p + x)[|p|..];
    assert y == (p + y)[|p|..];
  }

  /** Output of the i-th trim or scale node: `v{i}`. */
  function ClipLabel(i: nat): string { "v" + NatStr(i) }

  /** Intermediate result of the i-th cross-fade: `v0{i}`. */
  function FoldLabel(i: nat): string { "v0" + NatStr(i) }

  /** Output of the hstack of grid row r: `row{r}`. */
  function RowLabel(r: nat): string { "row" + NatStr(r) }

  /** Output of the black filler of grid cell (r, c): `black{r}{c}` (no separator). */
  function FillerLabel(r: nat, c: nat): string { "black" + NatStr(r) + NatStr(c) }

  /** The label the transition and stack builders map to the output. */
  const FinalLabel: string := "v"

  lemma ClipLabelInjective(i: nat, j: nat)
    ensures ClipLabel(i) == ClipLabel(j) ==> i == j
  {
    CancelPrefix("v", NatStr(i), NatStr(j));
    NatStrInjective(i, j);
  }

  lemma FoldLabelInjective(i: nat, j: nat)
    ensures FoldLabel(i) == FoldLabel(j) ==> i == j
  {
    CancelPrefix("v0", NatStr(i), NatStr(j));
    NatStrInjective(i, j);
  }

  lemma RowLabelInjective(i: nat, j: nat)
    ensures RowLabel(i) == RowLabel(j) ==> i == j
  {
    CancelPrefix("row", NatStr(i), NatStr(j));
    NatStrInjective(i, j);
  }

  /** Within one grid row the filler labels are distinct. */
  lemma FillerLabelInjective(r: nat, c: nat, d: nat)
    ensures FillerLabel(r, c) == FillerLabel(r, d) ==> c == d
  {
    assert FillerLabel(r, c) == ("black" + NatStr(r)) + NatStr(c);
    assert FillerLabel(r, d) == ("black" + NatStr(r)) + NatStr(d);
    CancelPrefix("black" + NatStr(r), NatStr(c), NatStr(d));
    NatStrInjective(c, d);
  }

  /** Across rows the filler labels can coincide: `black` + `1` + `11` is `black` + `11` + `1`. */
  lemma FillerLabelsCollideAcrossRows()
    ensures FillerLabel(1, 11) == FillerLabel(11, 1)
  {
    assert NatStr(1) == "1";
    assert NatStr(11) == NatStr(1) + [Digit(1)];
  }

  /** `v{i}` is never an intermediate fold label `v0{j}`: renderings have no leading zero. */
  lemma ClipLabelNotFoldLabel(i: nat, j: nat)
    ensures ClipLabel(i) != FoldLabel(j)
  {
    var s, t := NatStr(i), "0" + NatStr(j);
    NatStrShape(i);
    if i == 0 {
      assert |s| < |t|;
    } else {
      assert s[0] != t[0];
    }
    assert FoldLabel(j) == "v" + t;
    CancelPrefix("v", s, t);
  }

  /** Indexed labels never equal the bare final label. */
  lemma IndexedLabelsNotFinal(i: nat, j: nat, r: nat, c: nat)
    ensures ClipLabel(i) != FinalLabel && FoldLabel(j) != FinalLabel
    ensures RowLabel(r) != FinalLabel && FillerLabel(r, c) != FinalLabel
  {
    assert |ClipLabel(i)| >= 2 && |FoldLabel(j)| >= 3;
    assert RowLabel(r)[0] == 'r' && FillerLabel(r, c)[0] == 'b';
  }

  /** Labels of different families differ in their first character. */
  lemma FamiliesDiffer(i: nat, j: nat, r: nat, c: nat, q: nat)
    ensures ClipLabel(i) != RowLabel(q) && ClipLabel(i) != FillerLabel(r, c)
    ensures RowLabel(q) != FillerLabel(r, c)
    ensures FoldLabel(j) != RowLabel(q) && FoldLabel(j) != FillerLabel(r, c)
  {
    assert ClipLabel(i)[0] == 'v' && FoldLabel(j)[0] == 'v';
    assert RowLabel(q)[0] == 'r' && FillerLabel(r, c)[0] == 'b';
  }
}
