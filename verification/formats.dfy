/**
 * The catalogue of column formats the greedy format search chooses from.
 * A format is an immutable value: stand-alone formats (uncompressed,
 * static and dynamic vertical bit packing, k-wise null suppression, and
 * the logical delta and frame-of-reference formats) and cascades that put
 * a logical format in front of a physical one. Every format carries a
 * mode of the cost model, None by default.
 */
module Formats {
  import opened Wrappers
  import opened ProcessingStyles
  import Strings

  /** The cost model's mode of a format; an opaque name here. */
  type Mode = Option<string>

  /**
   * One constructor per format class, holding that class's fields. The
   * derived fields (steps, block and page sizes) are copied from the
   * processing style's vector parameters when the format is built.
   */
  datatype Format =
    | Uncompr(mode: Mode)
    | StaticVBP(ps: ProcessingStyle, bw: Option<nat>, step: nat, mode: Mode)
    | DynamicVBP(ps: ProcessingStyle, blockSizeLog: nat, pageSizeBlocks: nat, step: nat, mode: Mode)
    | KWiseNS(ps: ProcessingStyle, blockSizeLog: nat, mode: Mode)
    | Delta(ps: ProcessingStyle, step: nat, mode: Mode)
    | For(ps: ProcessingStyle, pageSizeBlocks: nat, mode: Mode)
    | DeltaCasc(bs: nat, ps: ProcessingStyle, log: Format, phy: Format, mode: Mode)
    | ForCasc(bs: nat, ps: ProcessingStyle, log: Format, phy: Format, mode: Mode)

  predicate IsCascade(f: Format) { f.DeltaCasc? || f.ForCasc? }

  /** The name a stand-alone format passes to its base class: its stem followed by "_f". */
  function StandAloneName(f: Format): (n: string)
    requires !IsCascade(f)
    ensures |n| >= 2
  {
    Stem(f) + "_f"
  }

  function Stem(f: Format): string
    requires !IsCascade(f)
  {
    match f
    case Uncompr(_) => "uncompr"
    case StaticVBP(_, _, _, _) => "static_vbp"
    case DynamicVBP(_, _, _, _, _) => "dynamic_vbp"
    case KWiseNS(_, _, _) => "k_wise_ns"
    case Delta(_, _, _) => "delta"
    case For(_, _, _) => "for"
  }

  /** The base class of stand-alone formats accepts only names ending in "_f". */
  predicate AcceptedStandAloneName(name: string) { Strings.EndsWith(name, "_f") }

  // ---------------------------------------------------------------------------
  // Construction
  // ---------------------------------------------------------------------------

  function NewStaticVBP(infos: PsInfos, ps: ProcessingStyle, bw: Option<nat>, mode: Mode): (f: Format)
    ensures f.StaticVBP? && f.ps == ps && f.bw == bw && f.mode == mode
    ensures f.step == infos(ps).vectorElementCount
  {
    StaticVBP(ps, bw, infos(ps).vectorElementCount, mode)
  }

  function NewDynamicVBP(infos: PsInfos, ps: ProcessingStyle, mode: Mode): (f: Format)
    ensures f.DynamicVBP? && f.ps == ps && f.mode == mode
    ensures f.blockSizeLog == infos(ps).vectorSizeBit && f.pageSizeBlocks == infos(ps).vectorSizeByte
    ensures f.step == infos(ps).vectorElementCount
  {
    DynamicVBP(ps, infos(ps).vectorSizeBit, infos(ps).vectorSizeByte, infos(ps).vectorElementCount, mode)
  }

  /** k-wise null suppression exists only for the 128-bit SSE style; any other style is an error. */
  function NewKWiseNS(infos: PsInfos, ps: ProcessingStyle, mode: Mode): (r: Result<Format, string>)
    ensures r.Ok? <==> ps == Vec128
    ensures r.Ok? ==> (r.value.KWiseNS? && r.value.mode == mode
                       && r.value.blockSizeLog == infos(ps).vectorElementCount)
  {
    if ps != Vec128 then
      Err("the format 'k_wise_ns_f' is only available for the processing style 'sse<v128<uint64_t>>'")
    else
      Ok(KWiseNS(ps, infos(ps).vectorElementCount, mode))
  }

  function NewDelta(infos: PsInfos, ps: ProcessingStyle, mode: Mode): (f: Format)
    ensures f.Delta? && f.ps == ps && f.mode == mode && f.step == infos(ps).vectorElementCount
  {
    Delta(ps, infos(ps).vectorElementCount, mode)
  }

  function NewFor(infos: PsInfos, ps: ProcessingStyle, mode: Mode): (f: Format)
    ensures f.For? && f.ps == ps && f.mode == mode && f.pageSizeBlocks == infos(ps).vectorElementCount
  {
    For(ps, infos(ps).vectorElementCount, mode)
  }

  /** A delta cascade builds its own logical delta format, with the cascade's mode. */
  function NewDeltaCasc(infos: PsInfos, bs: nat, ps: ProcessingStyle, phy: Format, mode: Mode): (f: Format)
    ensures f.DeltaCasc? && f.log == NewDelta(infos, ps, mode) && f.phy == phy && f.bs == bs && f.mode == mode
  {
    DeltaCasc(bs, ps, NewDelta(infos, ps, mode), phy, mode)
  }

  /** A frame-of-reference cascade builds its own logical for format, with the cascade's mode. */
  function NewForCasc(infos: PsInfos, bs: nat, ps: ProcessingStyle, phy: Format, mode: Mode): (f: Format)
    ensures f.ForCasc? && f.log == NewFor(infos, ps, mode) && f.phy == phy && f.bs == bs && f.mode == mode
  {
    ForCasc(bs, ps, NewFor(infos, ps, mode), phy, mode)
  }

  /**
   * The format is one the constructors can produce with the table `infos`:
   * its derived fields agree with the table, k-wise null suppression is for
   * the SSE style only, and a cascade's logical part is its own.
   */
  predicate Built(infos: PsInfos, f: Format)
  {
    match f
    case Uncompr(_) => true
    case StaticVBP(ps, _, step, _) => step == infos(ps).vectorElementCount
    case DynamicVBP(ps, bsl, psb, step, _) =>
      bsl == infos(ps).vectorSizeBit && psb == infos(ps).vectorSizeByte
      && step == infos(ps).vectorElementCount
    case KWiseNS(ps, bsl, _) => ps == Vec128 && bsl == infos(ps).vectorElementCount
    case Delta(ps, step, _) => step == infos(ps).vectorElementCount
    case For(ps, psb, _) => psb == infos(ps).vectorElementCount
    case DeltaCasc(_, ps, log, phy, mode) => log == NewDelta(infos, ps, mode) && Built(infos, phy)
    case ForCasc(_, ps, log, phy, mode) => log == NewFor(infos, ps, mode) && Built(infos, phy)
  }

  /** A cascade's logical part has the class its cascade names, throughout the format. */
  predicate WellFormed(f: Format)
  {
    match f
    case DeltaCasc(_, _, log, phy, _) => log.Delta? && WellFormed(phy)
    case ForCasc(_, _, log, phy, _) => log.For? && WellFormed(phy)
    case _ => true
  }

  lemma {:induction false} BuiltIsWellFormed(infos: PsInfos, f: Format)
    requires Built(infos, f)
    ensures WellFormed(f)
  {
    match f
    case DeltaCasc(_, _, _, phy, _) => BuiltIsWellFormed(infos, phy);
    case ForCasc(_, _, _, phy, _) => BuiltIsWellFormed(infos, phy);
    case _ =>
  }

  // ---------------------------------------------------------------------------
  // Equality, names
  // ---------------------------------------------------------------------------

  /**
   * Format equality: formats of different classes are unequal; within a
   * class the mode and that class's own fields are compared (the step, bit
   * width, block and page sizes), never the processing style itself; a
   * cascade compares its block size and both parts.
   */
  predicate Eq(a: Format, b: Format)
  {
    match a
    case Uncompr(m) => b.Uncompr? && b.mode == m
    case StaticVBP(_, bw, step, m) => b.StaticVBP? && b.step == step && b.bw == bw && b.mode == m
    case DynamicVBP(_, bsl, psb, step, m) =>
      b.DynamicVBP? && b.blockSizeLog == bsl && b.pageSizeBlocks == psb && b.step == step && b.mode == m
    case KWiseNS(_, bsl, m) => b.KWiseNS? && b.blockSizeLog == bsl && b.mode == m
    case Delta(_, step, m) => b.Delta? && b.step == step && b.mode == m
    case For(_, psb, m) => b.For? && b.pageSizeBlocks == psb && b.mode == m
    case DeltaCasc(bs, _, log, phy, m) =>
      b.DeltaCasc? && b.bs == bs && Eq(log, b.log) && Eq(phy, b.phy) && b.mode == m
    case ForCasc(bs, _, log, phy, m) =>
      b.ForCasc? && b.bs == bs && Eq(log, b.log) && Eq(phy, b.phy) && b.mode == m
  }

  /** Every format has the same hash. */
  function Hash(f: Format): int { 0 }

  /** The short name of a format: "uncompr", "static_vbp", "delta+dynamic_vbp", … */
  function SimpleName(f: Format): string
  {
    match f
    case DeltaCasc(_, _, log, phy, _) => SimpleName(log) + "+" + SimpleName(phy)
    case ForCasc(_, _, log, phy, _) => SimpleName(log) + "+" + SimpleName(phy)
    case Uncompr(_) => StandAloneSimpleName(f)
    case StaticVBP(_, _, _, _) => StandAloneSimpleName(f)
    case DynamicVBP(_, _, _, _, _) => StandAloneSimpleName(f)
    case KWiseNS(_, _, _) => StandAloneSimpleName(f)
    case Delta(_, _, _) => StandAloneSimpleName(f)
    case For(_, _, _) => StandAloneSimpleName(f)
  }

  /** A stand-alone format's name without its last two characters. */
  function StandAloneSimpleName(f: Format): string
    requires !IsCascade(f)
  {
    var n := StandAloneName(f);
    n[..|n| - 2]
  }

  /** The C++ type of a format, e.g. "static_vbp_f<vbp_l<7, 2> >". */
  function InternalName(f: Format): string
    requires WellFormed(f)
  {
    match f
    case Uncompr(_) => "uncompr_f"
    case StaticVBP(_, bw, step, _) =>
      "static_vbp_f<vbp_l<" + (if bw.None? then "bw" else Strings.NatToString(bw.value))
        + ", " + Strings.NatToString(step) + "> >"
    case DynamicVBP(_, bsl, psb, step, _) =>
      "dynamic_vbp_f<" + Strings.NatToString(bsl) + ", " + Strings.NatToString(psb)
        + ", " + Strings.NatToString(step) + ">"
    case KWiseNS(_, bsl, _) => "k_wise_ns_f<" + Strings.NatToString(bsl) + ">"
    case Delta(_, step, _) => "delta_f<" + Strings.NatToString(step) + ">"
    case For(_, psb, _) => "for_f<" + Strings.NatToString(psb) + ">"
    case DeltaCasc(bs, _, log, phy, _) =>
      StandAloneName(log) + "<" + Strings.NatToString(bs) + ", " + Strings.NatToString(log.step)
        + ", " + InternalName(phy) + " >"
    case ForCasc(bs, _, log, phy, _) =>
      StandAloneName(log) + "<" + Strings.NatToString(bs) + ", " + Strings.NatToString(log.pageSizeBlocks)
        + ", " + InternalName(phy) + " >"
  }

  /**
   * Every stand-alone class passes the base class's name check, and its
   * simple name is its name without the "_f" suffix.
   */
  lemma StandAloneNames(f: Format)
    requires !IsCascade(f)
    ensures AcceptedStandAloneName(StandAloneName(f))
    ensures SimpleName(f) == Stem(f) && SimpleName(f) + "_f" == StandAloneName(f)
  {
    var n := StandAloneName(f);
    assert n[|n| - 2..] == "_f";
    assert n[..|n| - 2] == Stem(f);
  }

  lemma {:induction false} EqReflexive(f: Format)
    ensures Eq(f, f)
  {
    match f
    case DeltaCasc(_, _, log, phy, _) => EqReflexive(log); EqReflexive(phy);
    case ForCasc(_, _, log, phy, _) => EqReflexive(log); EqReflexive(phy);
    case _ =>
  }

  lemma {:induction false} EqSymmetric(a: Format, b: Format)
    requires Eq(a, b)
    ensures Eq(b, a)
  {
    match a
    case DeltaCasc(_, _, log, phy, _) => EqSymmetric(log, b.log); EqSymmetric(phy, b.phy);
    case ForCasc(_, _, log, phy, _) => EqSymmetric(log, b.log); EqSymmetric(phy, b.phy);
    case _ =>
  }

  lemma {:induction false} EqTransitive(a: Format, b: Format, c: Format)
    requires Eq(a, b) && Eq(b, c)
    ensures Eq(a, c)
  {
    match a
    case DeltaCasc(_, _, log, phy, _) => EqTransitive(log, b.log, c.log); EqTransitive(phy, b.phy, c.phy);
    case ForCasc(_, _, log, phy, _) => EqTransitive(log, b.log, c.log); EqTransitive(phy, b.phy, c.phy);
    case _ =>
  }

  /**
   * Equal formats are of one class, have one simple name, one C++ type and
   * one hash: equality compares exactly what the generated code depends on,
   * plus the mode.
   */
  lemma {:induction false} EqSameNames(a: Format, b: Format)
    requires Eq(a, b) && WellFormed(a) && WellFormed(b)
    ensures IsCascade(a) <==> IsCascade(b)
    ensures SimpleName(a) == SimpleName(b)
    ensures InternalName(a) == InternalName(b)
    ensures Hash(a) == Hash(b)
  {
    match a
    case DeltaCasc(_, _, log, phy, _) => EqSameNames(log, b.log); EqSameNames(phy, b.phy);
    case ForCasc(_, _, log, phy, _) => EqSameNames(log, b.log); EqSameNames(phy, b.phy);
    case _ =>
  }

  /** While the bit width is unset, the static format's C++ type carries the literal "bw". */
  lemma StaticVBPNameUnsetBw(infos: PsInfos, ps: ProcessingStyle, mode: Mode)
    ensures InternalName(NewStaticVBP(infos, ps, None, mode))
      == "static_vbp_f<vbp_l<bw, " + Strings.NatToString(infos(ps).vectorElementCount) + "> >"
  {
  }

  // ---------------------------------------------------------------------------
  // Changing mode and bit width
  // ---------------------------------------------------------------------------

  /** The same format with mode `mode`, rebuilt through its constructor; a cascade also changes its physical part. */
  function ChangeMode(infos: PsInfos, f: Format, mode: Mode): Format
  {
    match f
    case Uncompr(_) => Uncompr(mode)
    case StaticVBP(ps, bw, _, _) => NewStaticVBP(infos, ps, bw, mode)
    case DynamicVBP(ps, _, _, _, _) => NewDynamicVBP(infos, ps, mode)
      // A built k-wise format has the SSE style, for which construction succeeds.
    case KWiseNS(ps, _, _) => KWiseNS(ps, infos(ps).vectorElementCount, mode)
    case Delta(ps, _, _) => NewDelta(infos, ps, mode)
    case For(ps, _, _) => NewFor(infos, ps, mode)
    case DeltaCasc(bs, ps, _, phy, _) => NewDeltaCasc(infos, bs, ps, ChangeMode(infos, phy, mode), mode)
    case ForCasc(bs, ps, _, phy, _) => NewForCasc(infos, bs, ps, ChangeMode(infos, phy, mode), mode)
  }

  /** The same static format with bit width `bw`. */
  function ChangeBw(infos: PsInfos, f: Format, bw: Option<nat>): Format
    requires f.StaticVBP?
  {
    NewStaticVBP(infos, f.ps, bw, f.mode)
  }

  /** The format with every mode in it (a cascade's parts included) set to `mode`. */
  function WithMode(f: Format, mode: Mode): Format
  {
    match f
    case DeltaCasc(bs, ps, log, phy, _) => DeltaCasc(bs, ps, log.(mode := mode), WithMode(phy, mode), mode)
    case ForCasc(bs, ps, log, phy, _) => ForCasc(bs, ps, log.(mode := mode), WithMode(phy, mode), mode)
    case Uncompr(_) => Uncompr(mode)
    case StaticVBP(ps, bw, step, _) => StaticVBP(ps, bw, step, mode)
    case DynamicVBP(ps, bsl, psb, step, _) => DynamicVBP(ps, bsl, psb, step, mode)
    case KWiseNS(ps, bsl, _) => KWiseNS(ps, bsl, mode)
    case Delta(ps, step, _) => Delta(ps, step, mode)
    case For(ps, psb, _) => For(ps, psb, mode)
  }

  /**
   * Changing the mode of a built format changes every mode in it and
   * nothing else, and yields a built format again.
   */
  lemma {:induction false} ChangeModeOnlyMode(infos: PsInfos, f: Format, mode: Mode)
    requires Built(infos, f)
    ensures ChangeMode(infos, f, mode) == WithMode(f, mode)
    ensures Built(infos, ChangeMode(infos, f, mode))
  {
    match f
    case DeltaCasc(_, _, _, phy, _) => ChangeModeOnlyMode(infos, phy, mode);
    case ForCasc(_, _, _, phy, _) => ChangeModeOnlyMode(infos, phy, mode);
    case _ =>
  }

  /** Changing the mode twice is changing it once to the second mode. */
  lemma ChangeModeTwice(infos: PsInfos, f: Format, m1: Mode, m2: Mode)
    requires Built(infos, f)
    ensures ChangeMode(infos, ChangeMode(infos, f, m1), m2) == ChangeMode(infos, f, m2)
  {
    ChangeModeOnlyMode(infos, f, m1);
    ChangeModeOnlyMode(infos, ChangeMode(infos, f, m1), m2);
    ChangeModeOnlyMode(infos, f, m2);
    WithModeTwice(f, m1, m2);
  }

  lemma {:induction false} WithModeTwice(f: Format, m1: Mode, m2: Mode)
    ensures WithMode(WithMode(f, m1), m2) == WithMode(f, m2)
  {
    match f
    case DeltaCasc(_, _, _, phy, _) => WithModeTwice(phy, m1, m2);
    case ForCasc(_, _, _, phy, _) => WithModeTwice(phy, m1, m2);
    case _ =>
  }

  /** Changing the bit width of a built static format changes the bit width and nothing else. */
  lemma ChangeBwOnlyBw(infos: PsInfos, f: Format, bw: Option<nat>)
    requires f.StaticVBP? && Built(infos, f)
    ensures ChangeBw(infos, f, bw) == f.(bw := bw)
    ensures ChangeBw(infos, ChangeBw(infos, f, bw), f.bw) == f
  {
  }

  // ---------------------------------------------------------------------------
  // The catalogue
  // ---------------------------------------------------------------------------

  /** The physical formats cascades are built over: dynamic_vbp, and k_wise_ns for SSE. */
  function DynamicNSFormats(infos: PsInfos, ps: ProcessingStyle): seq<Format>
  {
    [NewDynamicVBP(infos, ps, None)] + (if ps == Vec128 then [KWiseNS(ps, infos(ps).vectorElementCount, None)] else [])
  }

  /** A delta cascade and a for cascade over each of `phys`, in order. */
  function Cascades(infos: PsInfos, bs: nat, ps: ProcessingStyle, phys: seq<Format>): (r: seq<Format>)
    ensures |r| == 2 * |phys|
  {
    if phys == [] then []
    else
      [NewDeltaCasc(infos, bs, ps, phys[0], None), NewForCasc(infos, bs, ps, phys[0], None)]
      + Cascades(infos, bs, ps, phys[1..])
  }

  /** Every format available for processing style `ps`, with cascade block size `bs`. */
  function AllFormats(infos: PsInfos, ps: ProcessingStyle, bs: nat): seq<Format>
  {
    var dyn := DynamicNSFormats(infos, ps);
    [Uncompr(None), NewStaticVBP(infos, ps, None, None)] + dyn + Cascades(infos, bs, ps, dyn)
  }

  function SimpleNames(fs: seq<Format>): (r: seq<string>)
    ensures |r| == |fs| && forall i :: 0 <= i < |fs| ==> r[i] == SimpleName(fs[i])
  {
    if fs == [] then [] else [SimpleName(fs[0])] + SimpleNames(fs[1..])
  }

  /** The simple names of every format, as listed for the SSE style. */
  function AllSimpleNames(infos: PsInfos, bs: nat): seq<string>
  {
    SimpleNames(AllFormats(infos, Vec128, bs))
  }

  const NAMES_SSE: seq<string> := ["uncompr", "static_vbp", "dynamic_vbp", "k_wise_ns",
    "delta+dynamic_vbp", "for+dynamic_vbp", "delta+k_wise_ns", "for+k_wise_ns"]
  const NAMES_OTHER: seq<string> := ["uncompr", "static_vbp", "dynamic_vbp",
    "delta+dynamic_vbp", "for+dynamic_vbp"]

  /**
   * The catalogue of a style, by simple name and in order: uncompressed,
   * static, the dynamic formats (k-wise null suppression only for SSE),
   * then a delta and a for cascade over each dynamic format.
   */
  lemma AllFormatsCatalogue(infos: PsInfos, ps: ProcessingStyle, bs: nat)
    ensures SimpleNames(AllFormats(infos, ps, bs)) == if ps == Vec128 then NAMES_SSE else NAMES_OTHER
  {
    var all := AllFormats(infos, ps, bs);
    var d := NewDynamicVBP(infos, ps, None);
    ConstructorNames(infos, ps, bs, d);
    CascadeNameLiterals();
    if ps == Vec128 {
      ConstructorNames(infos, ps, bs, KWiseNS(ps, infos(ps).vectorElementCount, None));
      CatalogueSse(infos, bs);
      CatalogueNames(all, NAMES_SSE);
    } else {
      CatalogueOther(infos, ps, bs);
      CatalogueNames(all, NAMES_OTHER);
    }
  }

  lemma CascadeNameLiterals()
    ensures "delta+" + "dynamic_vbp" == "delta+dynamic_vbp" && "for+" + "dynamic_vbp" == "for+dynamic_vbp"
    ensures "delta+" + "k_wise_ns" == "delta+k_wise_ns" && "for+" + "k_wise_ns" == "for+k_wise_ns"
  {
  }

  /** Every entry of the catalogue is built from the table, and every cascade in it has block size `bs`. */
  lemma AllFormatsBuilt(infos: PsInfos, ps: ProcessingStyle, bs: nat)
    ensures forall f <- AllFormats(infos, ps, bs) :: Built(infos, f) && (IsCascade(f) ==> f.bs == bs)
  {
    if ps == Vec128 { CatalogueSse(infos, bs); } else { CatalogueOther(infos, ps, bs); }
  }

  /** The SSE catalogue, entry by entry. */
  lemma CatalogueSse(infos: PsInfos, bs: nat)
    ensures
      var ps := Vec128;
      var d := NewDynamicVBP(infos, ps, None);
      var k := KWiseNS(ps, infos(ps).vectorElementCount, None);
      AllFormats(infos, ps, bs) == [Uncompr(None), NewStaticVBP(infos, ps, None, None), d, k,
        NewDeltaCasc(infos, bs, ps, d, None), NewForCasc(infos, bs, ps, d, None),
        NewDeltaCasc(infos, bs, ps, k, None), NewForCasc(infos, bs, ps, k, None)]
  {
    var ps := Vec128;
    var d := NewDynamicVBP(infos, ps, None);
    var k := KWiseNS(ps, infos(ps).vectorElementCount, None);
    assert DynamicNSFormats(infos, ps) == [d, k];
    CascadesTwo(infos, bs, ps, d, k);
  }

  /** The catalogue of any other style, entry by entry. */
  lemma CatalogueOther(infos: PsInfos, ps: ProcessingStyle, bs: nat)
    requires ps != Vec128
    ensures
      var d := NewDynamicVBP(infos, ps, None);
      AllFormats(infos, ps, bs) == [Uncompr(None), NewStaticVBP(infos, ps, None, None), d,
        NewDeltaCasc(infos, bs, ps, d, None), NewForCasc(infos, bs, ps, d, None)]
  {
    var d := NewDynamicVBP(infos, ps, None);
    assert DynamicNSFormats(infos, ps) == [d];
    assert Cascades(infos, bs, ps, [d]) == [NewDeltaCasc(infos, bs, ps, d, None), NewForCasc(infos, bs, ps, d, None)]
      + Cascades(infos, bs, ps, []);
  }

  lemma CascadesTwo(infos: PsInfos, bs: nat, ps: ProcessingStyle, d: Format, k: Format)
    ensures Cascades(infos, bs, ps, [d, k]) == [NewDeltaCasc(infos, bs, ps, d, None), NewForCasc(infos, bs, ps, d, None),
      NewDeltaCasc(infos, bs, ps, k, None), NewForCasc(infos, bs, ps, k, None)]
  {
    assert [d, k][1..] == [k];
    assert Cascades(infos, bs, ps, [k]) == [NewDeltaCasc(infos, bs, ps, k, None), NewForCasc(infos, bs, ps, k, None)]
      + Cascades(infos, bs, ps, []);
  }

  /** Names computed element by element make up the expected list. */
  lemma CatalogueNames(all: seq<Format>, expected: seq<string>)
    requires |all| == |expected| && forall i :: 0 <= i < |all| ==> SimpleName(all[i]) == expected[i]
    ensures SimpleNames(all) == expected
  {
  }

  /** The simple names of the catalogue's entries. */
  lemma ConstructorNames(infos: PsInfos, ps: ProcessingStyle, bs: nat, phy: Format)
    ensures SimpleName(Uncompr(None)) == "uncompr"
    ensures SimpleName(NewStaticVBP(infos, ps, None, None)) == "static_vbp"
    ensures SimpleName(NewDynamicVBP(infos, ps, None)) == "dynamic_vbp"
    ensures SimpleName(KWiseNS(ps, infos(ps).vectorElementCount, None)) == "k_wise_ns"
    ensures SimpleName(NewDeltaCasc(infos, bs, ps, phy, None)) == "delta+" + SimpleName(phy)
    ensures SimpleName(NewForCasc(infos, bs, ps, phy, None)) == "for+" + SimpleName(phy)
  {
    StandAloneNames(Uncompr(None));
    StandAloneNames(NewStaticVBP(infos, ps, None, None));
    StandAloneNames(NewDynamicVBP(infos, ps, None));
    StandAloneNames(KWiseNS(ps, infos(ps).vectorElementCount, None));
    CascadeNames(infos, bs, ps, phy);
  }

  lemma CascadeNames(infos: PsInfos, bs: nat, ps: ProcessingStyle, phy: Format)
    ensures SimpleName(NewDeltaCasc(infos, bs, ps, phy, None)) == "delta+" + SimpleName(phy)
    ensures SimpleName(NewForCasc(infos, bs, ps, phy, None)) == "for+" + SimpleName(phy)
  {
    StandAloneNames(NewDelta(infos, ps, None));
    StandAloneNames(NewFor(infos, ps, None));
    assert "delta" + "+" == "delta+" && "for" + "+" == "for+";
  }

  lemma NamesDistinct()
    ensures forall i, j :: 0 <= i < j < |NAMES_SSE| ==> NAMES_SSE[i] != NAMES_SSE[j]
    ensures forall i, j :: 0 <= i < j < |NAMES_OTHER| ==> NAMES_OTHER[i] != NAMES_OTHER[j]
  {
  }

  /** The first format in `fs` with simple name `name`. */
  function FirstByName(fs: seq<Format>, name: string): (r: Result<Format, string>)
    ensures r.Ok? ==> exists i :: (0 <= i < |fs| && fs[i] == r.value && SimpleName(r.value) == name
                                   && forall j :: 0 <= j < i ==> SimpleName(fs[j]) != name)
    ensures r.Err? <==> name !in SimpleNames(fs)
  {
    if fs == [] then Err("unknown format: '" + name + "'")
    else if SimpleName(fs[0]) == name then Ok(fs[0])
    else
      var r := FirstByName(fs[1..], name);
      if r.Ok? then
        var i :| 0 <= i < |fs| - 1 && fs[1..][i] == r.value && SimpleName(r.value) == name
          && forall j :: 0 <= j < i ==> SimpleName(fs[1..][j]) != name;
        assert fs[i + 1] == r.value;
        r
      else r
  }

  /** The format of processing style `ps` with simple name `name`, or an error when there is none. */
  function ByName(infos: PsInfos, name: string, ps: ProcessingStyle, bs: nat): Result<Format, string>
  {
    FirstByName(AllFormats(infos, ps, bs), name)
  }

  /**
   * Looking a name up fails exactly for names outside the style's catalogue,
   * and every listed format is found again by its simple name.
   */
  lemma ByNameRoundTrip(infos: PsInfos, ps: ProcessingStyle, bs: nat)
    ensures forall name :: ByName(infos, name, ps, bs).Err? <==> name !in (if ps == Vec128 then NAMES_SSE else NAMES_OTHER)
    ensures forall f <- AllFormats(infos, ps, bs) :: ByName(infos, SimpleName(f), ps, bs) == Ok(f)
  {
    var all := AllFormats(infos, ps, bs);
    AllFormatsCatalogue(infos, ps, bs);
    NamesDistinct();
    forall f <- all
      ensures ByName(infos, SimpleName(f), ps, bs) == Ok(f)
    {
      var r := FirstByName(all, SimpleName(f));
      var k :| 0 <= k < |all| && all[k] == f;
      var i :| 0 <= i < |all| && all[i] == r.value && SimpleName(r.value) == SimpleName(f)
        && forall j :: 0 <= j < i ==> SimpleName(all[j]) != SimpleName(f);
      assert SimpleNames(all)[i] == SimpleNames(all)[k];
    }
  }

  /** Every style's simple names are among the names listed for SSE. */
  lemma AllSimpleNamesCoverEveryStyle(infos: PsInfos, ps: ProcessingStyle, bs: nat)
    ensures AllSimpleNames(infos, bs) == NAMES_SSE
    ensures forall n <- SimpleNames(AllFormats(infos, ps, bs)) :: n in AllSimpleNames(infos, bs)
  {
    AllFormatsCatalogue(infos, Vec128, bs);
    AllFormatsCatalogue(infos, ps, bs);
  }
}
