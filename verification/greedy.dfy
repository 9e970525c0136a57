/**
 * The candidate rules of the greedy search over column formats: which bit
 * widths and which formats are tried for a column, how a chosen format is
 * named in a saved combination, and how many combinations the search
 * space holds. The processing style and the cascade block size, globals
 * of the search script, are parameters here.
 */
module Greedy {
  import opened Wrappers
  import opened ProcessingStyles
  import opened Formats
  import Strings

  // ---------------------------------------------------------------------------
  // Bit widths
  // ---------------------------------------------------------------------------

  /** The first of the powers of two 2, 4, 8, 16, 32 that is not below `b`, if any. */
  function NextPowerOfTwo(b: nat): (r: Option<nat>)
    ensures r.Some? <==> b <= 32
    ensures r.Some? ==> b <= r.value && r.value in {2, 4, 8, 16, 32} && (r.value == 2 || r.value / 2 < b)
  {
    if b <= 2 then Some(2)
    else if b <= 4 then Some(4)
    else if b <= 8 then Some(8)
    else if b <= 16 then Some(16)
    else if b <= 32 then Some(32)
    else None
  }

  /**
   * The bit widths worth trying for a column needing `b` bits: `b` itself,
   * the next even width, the next multiple of 8 (always above `b`), and the
   * smallest power of two from 2 to 32 that is not below `b`, if any.
   */
  function BwCandidates(b: nat): set<nat>
  {
    var pot := NextPowerOfTwo(b);
    {b, b + b % 2, b + (8 - b % 8)} + (if pot.Some? then {pot.value} else {})
  }

  /** The elements of `s` from `lo` up to, not including, `hi`, in ascending order. */
  function Ascending(s: set<nat>, lo: nat, hi: nat): (r: seq<nat>)
    ensures forall i, j :: 0 <= i < j < |r| ==> r[i] < r[j]
    ensures forall x :: x in r <==> x in s && lo <= x < hi
    decreases hi - lo
  {
    if lo >= hi then []
    else
      var rest := Ascending(s, lo + 1, hi);
      var head := if lo in s then [lo] else [];
      forall j | 0 <= j < |rest|
        ensures lo < rest[j]
      {
        assert rest[j] in rest;
      }
      assert forall x :: x in head + rest <==> x in head || x in rest;
      head + rest
  }

  /** The candidate bit widths below 64, in ascending order. */
  function GetBwChoice(b: nat): seq<nat>
  {
    Ascending(BwCandidates(b), 0, 64)
  }

  /**
   * The bit-width choice is the candidate set, sorted, without duplicates
   * and without widths of 64 or more; no candidate is below `b`, `b` comes
   * first when it is below 64, and for a multiple of 8 the byte candidate is
   * the next multiple, `b + 8`.
   */
  lemma GetBwChoiceSpec(b: nat)
    ensures var r := GetBwChoice(b);
      && (forall i, j :: 0 <= i < j < |r| ==> r[i] < r[j])
      && (forall x :: x in r <==> x in BwCandidates(b) && x < 64)
      && (forall x <- r :: b <= x < 64)
      && (b < 64 ==> |r| > 0 && r[0] == b)
      && (b % 8 == 0 ==> b + 8 in BwCandidates(b))
  {
    var r := GetBwChoice(b);
    BwCandidatesFacts(b);
    if b < 64 {
      AscendingLeast(BwCandidates(b), 0, 64, b);
    }
  }

  /** The least element of `s` in range comes first. */
  lemma AscendingLeast(s: set<nat>, lo: nat, hi: nat, x: nat)
    requires x in s && lo <= x < hi
    requires forall y <- s :: x <= y
    ensures var r := Ascending(s, lo, hi); |r| > 0 && r[0] == x
  {
    var r := Ascending(s, lo, hi);
    assert x in r;
    assert r[0] in r;
  }

  lemma BwCandidatesFacts(b: nat)
    ensures b in BwCandidates(b)
    ensures forall x <- BwCandidates(b) :: b <= x
    ensures b % 8 == 0 ==> b + 8 in BwCandidates(b)
  {
    var even := b % 2;
    var byte := b % 8;
    assert 0 <= even < 2 && 0 <= byte < 8;
    var pot := NextPowerOfTwo(b);
    assert BwCandidates(b) == {b, b + even, b + (8 - byte)} + (if pot.Some? then {pot.value} else {});
  }

  /** At most four widths are ever tried. */
  lemma GetBwChoiceAtMostFour(b: nat)
    ensures |GetBwChoice(b)| <= 4
  {
    var r := GetBwChoice(b);
    DistinctBound(r, BwCandidates(b));
    BwCandidatesAtMostFour(b);
  }

  lemma BwCandidatesAtMostFour(b: nat)
    ensures |BwCandidates(b)| <= 4
  {
    var pot := NextPowerOfTwo(b);
    var p := if pot.Some? then pot.value else b;
    assert BwCandidates(b) == {b, b + b % 2, b + (8 - b % 8), p};
  }

  /** A strictly ascending sequence drawn from `s` is no longer than `s` is large. */
  lemma {:induction false} DistinctBound(r: seq<nat>, s: set<nat>)
    requires forall i, j :: 0 <= i < j < |r| ==> r[i] < r[j]
    requires forall x <- r :: x in s
    ensures |r| <= |s|
    decreases |r|
  {
    if r != [] {
      var last := r[|r| - 1];
      var front := r[..|r| - 1];
      assert forall x <- front :: x < last;
      DistinctBound(front, s - {last});
    }
  }

  // ---------------------------------------------------------------------------
  // Format choices
  // ---------------------------------------------------------------------------

  /** One static format per bit width, in order. */
  function StaticChoices(infos: PsInfos, ps: ProcessingStyle, bws: seq<nat>): (r: seq<Format>)
    ensures |r| == |bws|
    ensures forall i :: 0 <= i < |bws| ==> r[i] == NewStaticVBP(infos, ps, Some(bws[i]), None)
  {
    if bws == [] then [] else [NewStaticVBP(infos, ps, Some(bws[0]), None)] + StaticChoices(infos, ps, bws[1..])
  }

  /** The formats without random access: dynamic_vbp and both cascades over it. */
  function SequentialChoices(infos: PsInfos, ps: ProcessingStyle, bs: nat): (r: seq<Format>)
    ensures |r| == 3 && r[0].DynamicVBP? && r[1].DeltaCasc? && r[2].ForCasc?
    ensures r[1].phy == r[0] && r[2].phy == r[0] && r[1].bs == bs && r[2].bs == bs
  {
    var d := NewDynamicVBP(infos, ps, None);
    [d, NewDeltaCasc(infos, bs, ps, d, None), NewForCasc(infos, bs, ps, d, None)]
  }

  /**
   * The formats tried for a column: static_vbp at each candidate width and,
   * only when the column is never accessed randomly, the sequential formats.
   */
  function GetFmtChoice(infos: PsInfos, ps: ProcessingStyle, bs: nat, hasRndAcc: bool, maxBw: nat): seq<Format>
  {
    StaticChoices(infos, ps, GetBwChoice(maxBw)) + (if hasRndAcc then [] else SequentialChoices(infos, ps, bs))
  }

  /**
   * The choice lists one static format per candidate width, in the order of
   * the widths; the sequential formats follow exactly when the column has
   * no random access.
   */
  lemma GetFmtChoiceSpec(infos: PsInfos, ps: ProcessingStyle, bs: nat, hasRndAcc: bool, maxBw: nat)
    ensures var r := GetFmtChoice(infos, ps, bs, hasRndAcc, maxBw);
      var bws := GetBwChoice(maxBw);
      && |r| == |bws| + (if hasRndAcc then 0 else 3)
      && (forall i :: 0 <= i < |bws| ==> r[i].StaticVBP? && r[i].bw == Some(bws[i]) && r[i].mode.None?)
      && (forall i :: |bws| <= i < |r| ==> !r[i].StaticVBP?)
      && (!hasRndAcc ==> r[|bws|..] == SequentialChoices(infos, ps, bs))
  {
    var bws := GetBwChoice(maxBw);
    var st := StaticChoices(infos, ps, bws);
    var tail := if hasRndAcc then [] else SequentialChoices(infos, ps, bs);
    var r := st + tail;
    assert r == GetFmtChoice(infos, ps, bs, hasRndAcc, maxBw);
    assert r[|bws|..] == tail;
    forall i | 0 <= i < |bws|
      ensures r[i].StaticVBP? && r[i].bw == Some(bws[i]) && r[i].mode.None?
    {
      assert r[i] == NewStaticVBP(infos, ps, Some(bws[i]), None);
    }
    forall i | |bws| <= i < |r|
      ensures !r[i].StaticVBP?
    {
      var k := i - |bws|;
      assert r[i] == tail[k] && 0 <= k < 3;
      assert !tail[k].StaticVBP? by {
        if k == 0 {} else if k == 1 {} else {}
      }
    }
  }

  /** Every choice list has at most seven formats. */
  lemma GetFmtChoiceAtMostSeven(infos: PsInfos, ps: ProcessingStyle, bs: nat, hasRndAcc: bool, maxBw: nat)
    ensures |GetFmtChoice(infos, ps, bs, hasRndAcc, maxBw)| <= 7
  {
    GetBwChoiceAtMostFour(maxBw);
  }

  /** The text Python's `"{}".format(bw)` gives for a bit width that may be unset. */
  function BwText(bw: Option<nat>): string
  {
    if bw.None? then "None" else Strings.NatToString(bw.value)
  }

  /** The name a saved combination uses: the simple name, plus "_" and the width for static formats. */
  function GetAltSimpleName(f: Format): string
  {
    SimpleName(f) + (if f.StaticVBP? then "_" + BwText(f.bw) else "")
  }

  /**
   * Only static formats get a suffix; two static formats with set widths
   * share an alternative name exactly when their widths agree.
   */
  lemma GetAltSimpleNameSpec(f: Format, g: Format)
    ensures !f.StaticVBP? ==> GetAltSimpleName(f) == SimpleName(f)
    ensures f.StaticVBP? && g.StaticVBP? && f.bw.Some? && g.bw.Some? ==>
      (GetAltSimpleName(f) == GetAltSimpleName(g) <==> f.bw == g.bw)
  {
    if f.StaticVBP? && g.StaticVBP? && f.bw.Some? && g.bw.Some? {
      StandAloneNames(f);
      StandAloneNames(g);
      var p := SimpleName(f) + "_";
      assert GetAltSimpleName(f) == p + Strings.NatToString(f.bw.value);
      assert GetAltSimpleName(g) == p + Strings.NatToString(g.bw.value);
      if GetAltSimpleName(f) == GetAltSimpleName(g) {
        assert Strings.NatToString(f.bw.value) == GetAltSimpleName(f)[|p|..];
        assert Strings.NatToString(g.bw.value) == GetAltSimpleName(g)[|p|..];
        Strings.NatToStringInjective(f.bw.value, g.bw.value);
      }
    }
  }

  // ---------------------------------------------------------------------------
  // Size of the search space
  // ---------------------------------------------------------------------------

  /** What the search knows about a column. */
  datatype ColInfo = ColInfo(name: string, isResult: bool, isForcedUncompr: bool, hasRndAcc: bool, maxBw: nat)

  /** The number of formats a column contributes: none for result and forced-uncompressed columns. */
  function Contribution(infos: PsInfos, ps: ProcessingStyle, bs: nat, c: ColInfo): nat
  {
    if c.isResult || c.isForcedUncompr then 0
    else |GetFmtChoice(infos, ps, bs, c.hasRndAcc, c.maxBw)|
  }

  /** The summed contributions of `cols`. */
  function ChoiceCount(infos: PsInfos, ps: ProcessingStyle, bs: nat, cols: seq<ColInfo>): nat
  {
    if cols == [] then 0
    else ChoiceCount(infos, ps, bs, cols[..|cols| - 1]) + Contribution(infos, ps, bs, cols[|cols| - 1])
  }

  /**
   * The number of format combinations: one for leaving everything
   * uncompressed, plus the length of the choice list of every column that
   * is neither a result nor forced to stay uncompressed.
   */
  method CountFmtCombs(infos: PsInfos, ps: ProcessingStyle, bs: nat, cols: seq<ColInfo>) returns (count: nat)
    ensures count == 1 + ChoiceCount(infos, ps, bs, cols)
  {
    count := 1;
    var i := 0;
    while i < |cols|
      invariant 0 <= i <= |cols|
      invariant count == 1 + ChoiceCount(infos, ps, bs, cols[..i])
    {
      assert cols[..i + 1][..i] == cols[..i];
      var c := cols[i];
      assert ChoiceCount(infos, ps, bs, cols[..i + 1]) == ChoiceCount(infos, ps, bs, cols[..i]) + Contribution(infos, ps, bs, c);
      if c.isResult || c.isForcedUncompr {
        i := i + 1;
        continue;
      }
      count := count + |GetFmtChoice(infos, ps, bs, c.hasRndAcc, c.maxBw)|;
      i := i + 1;
    }
    assert cols[..i] == cols;
  }

  /**
   * The count is at least one, is exactly one when every column is a result
   * or forced uncompressed, and grows by at most seven per column.
   */
  lemma {:induction false} ChoiceCountBounds(infos: PsInfos, ps: ProcessingStyle, bs: nat, cols: seq<ColInfo>)
    ensures ChoiceCount(infos, ps, bs, cols) <= 7 * |cols|
    ensures (forall c <- cols :: c.isResult || c.isForcedUncompr) ==> ChoiceCount(infos, ps, bs, cols) == 0
  {
    if cols != [] {
      var front, last := cols[..|cols| - 1], cols[|cols| - 1];
      ChoiceCountBounds(infos, ps, bs, front);
      GetFmtChoiceAtMostSeven(infos, ps, bs, last.hasRndAcc, last.maxBw);
      assert Contribution(infos, ps, bs, last) <= 7;
      assert ChoiceCount(infos, ps, bs, cols) == ChoiceCount(infos, ps, bs, front) + Contribution(infos, ps, bs, last);
      assert 7 * |cols| == 7 * |front| + 7;
      assert forall c <- front :: c in cols;
    }
  }
}
