/**
 * The C++ format identifiers the compression configurations write into
 * format slots, and the short names the morph rewrite appends to column
 * variables ("u", "d", "s<bw>"). The short-name table is filled by a loop
 * over the processing styles and the bit widths 1 to 64; `ShortNames` is
 * the table that loop builds and `ShortNamesSpec` says what it holds.
 */
module ComprNames {
  import opened ProcessingStyles
  import Strings

  // Names of the compression configurations, as given on the command line.
  const CC_ALLUNCOMPR := "alluncompr"
  const CC_ALLSTATICVBP := "allstaticvbp"
  const CC_ALLDYNAMICVBP := "alldynamicvbp"
  const CC_ALLDYNAMICVBP_PROJSTATICVBP := "alldynamicvbp_projectstatic"

  const COMPR_CONFIGS: seq<string> := [CC_ALLUNCOMPR, CC_ALLSTATICVBP, CC_ALLDYNAMICVBP, CC_ALLDYNAMICVBP_PROJSTATICVBP]

  const FORMAT_UNCOMPR := "uncompr_f"

  /** The step of static_vbp_f: the number of 64-bit elements per vector of the style. */
  function StaticStep(ps: ProcessingStyle): nat
  {
    match ps
    case Scalar => 1
    case Vec128 => 2
    case Vec128Neon => 2
    case Vec256 => 4
    case Vec512 => 8
  }

  /** "static_vbp_f<BW, STEP>". */
  function MakeStaticVBP(bw: nat, ps: ProcessingStyle): string
  {
    "static_vbp_f<" + (Strings.NatToString(bw) + (", " + (Strings.NatToString(StaticStep(ps)) + ">")))
  }

  /** Block size in bits, page size in blocks and step of dynamic_vbp_f for a style. */
  function DynamicParams(ps: ProcessingStyle): (nat, nat, nat)
  {
    match ps
    case Scalar => (64, 8, 1)
    case Vec128 => (128, 16, 2)
    case Vec128Neon => (128, 16, 2)
    case Vec256 => (256, 32, 4)
    case Vec512 => (512, 32, 8)
  }

  /** "dynamic_vbp_f<" followed by three numbers, as makeDynamicVBP spells them. */
  function DynamicName(a1: nat, a2: nat, a3: nat): string
  {
    "dynamic_vbp_f<" + (Strings.NatToString(a1) + (", " + (Strings.NatToString(a2) + (", " + (Strings.NatToString(a3) + ">")))))
  }

  /** "dynamic_vbp_f<BLOCKSIZELOG, PAGESIZEBLOCKS, STEP>". */
  function MakeDynamicVBP(ps: ProcessingStyle): string
  {
    var (bsl, psb, step) := DynamicParams(ps);
    DynamicName(bsl, psb, step)
  }

  /** The short name of static_vbp_f at a bit width: "s<bw>". */
  function ShortStatic(bw: nat): string
  {
    "s" + Strings.NatToString(bw)
  }

  // ---------------------------------------------------------------------------
  // Properties of the identifiers
  // ---------------------------------------------------------------------------

  /**
   * A static identifier determines its bit width and its step: two are equal
   * exactly when both agree (so sse and neon, whose steps agree, share them).
   */
  lemma StaticVBPNames(a: nat, p: ProcessingStyle, b: nat, q: ProcessingStyle)
    ensures MakeStaticVBP(a, p) == MakeStaticVBP(b, q) <==> a == b && StaticStep(p) == StaticStep(q)
  {
    if MakeStaticVBP(a, p) == MakeStaticVBP(b, q) {
      var prefix := "static_vbp_f<";
      var x := Strings.NatToString(a) + (", " + (Strings.NatToString(StaticStep(p)) + ">"));
      var y := Strings.NatToString(b) + (", " + (Strings.NatToString(StaticStep(q)) + ">"));
      assert x == MakeStaticVBP(a, p)[|prefix|..];
      assert y == MakeStaticVBP(b, q)[|prefix|..];
      Strings.DigitsPrefixUnique(Strings.NatToString(a), ", " + (Strings.NatToString(StaticStep(p)) + ">"),
        Strings.NatToString(b), ", " + (Strings.NatToString(StaticStep(q)) + ">"));
      Strings.NatToStringInjective(a, b);
      DropTwo(Strings.NatToString(StaticStep(p)) + ">", Strings.NatToString(StaticStep(q)) + ">");
      Strings.DigitsPrefixUnique(Strings.NatToString(StaticStep(p)), ">", Strings.NatToString(StaticStep(q)), ">");
      Strings.NatToStringInjective(StaticStep(p), StaticStep(q));
    }
  }

  lemma DropTwo(x: string, y: string)
    requires ", " + x == ", " + y
    ensures x == y
  {
    assert x == (", " + x)[2..];
    assert y == (", " + y)[2..];
  }

  /** The spelled-out name determines all three numbers. */
  lemma DynamicNameInjective(a1: nat, a2: nat, a3: nat, b1: nat, b2: nat, b3: nat)
    ensures DynamicName(a1, a2, a3) == DynamicName(b1, b2, b3) <==> (a1, a2, a3) == (b1, b2, b3)
  {
    if DynamicName(a1, a2, a3) == DynamicName(b1, b2, b3) {
      var prefix := "dynamic_vbp_f<";
      var x := Strings.NatToString(a1) + (", " + (Strings.NatToString(a2) + (", " + (Strings.NatToString(a3) + ">"))));
      var y := Strings.NatToString(b1) + (", " + (Strings.NatToString(b2) + (", " + (Strings.NatToString(b3) + ">"))));
      assert x == DynamicName(a1, a2, a3)[|prefix|..];
      assert y == DynamicName(b1, b2, b3)[|prefix|..];
      Strings.DigitsPrefixUnique(Strings.NatToString(a1), ", " + (Strings.NatToString(a2) + (", " + (Strings.NatToString(a3) + ">"))),
        Strings.NatToString(b1), ", " + (Strings.NatToString(b2) + (", " + (Strings.NatToString(b3) + ">"))));
      Strings.NatToStringInjective(a1, b1);
      DropTwo(Strings.NatToString(a2) + (", " + (Strings.NatToString(a3) + ">")), Strings.NatToString(b2) + (", " + (Strings.NatToString(b3) + ">")));
      Strings.DigitsPrefixUnique(Strings.NatToString(a2), ", " + (Strings.NatToString(a3) + ">"),
        Strings.NatToString(b2), ", " + (Strings.NatToString(b3) + ">"));
      Strings.NatToStringInjective(a2, b2);
      DropTwo(Strings.NatToString(a3) + ">", Strings.NatToString(b3) + ">");
      Strings.DigitsPrefixUnique(Strings.NatToString(a3), ">", Strings.NatToString(b3), ">");
      Strings.NatToStringInjective(a3, b3);
    }
  }

  /** Two styles have the same dynamic parameters exactly when they are equal or are sse and neon. */
  lemma DynamicParamsShared(p: ProcessingStyle, q: ProcessingStyle)
    ensures DynamicParams(p) == DynamicParams(q) <==> p == q || {p, q} == {Vec128, Vec128Neon}
  {
    if {p, q} == {Vec128, Vec128Neon} {
      assert p in {Vec128, Vec128Neon} && q in {Vec128, Vec128Neon};
    }
  }

  /**
   * A dynamic identifier determines the style's parameters: two are equal
   * exactly when the styles are equal or are sse and neon.
   */
  lemma DynamicVBPNames(p: ProcessingStyle, q: ProcessingStyle)
    ensures MakeDynamicVBP(p) == MakeDynamicVBP(q) <==> DynamicParams(p) == DynamicParams(q)
    ensures DynamicParams(p) == DynamicParams(q) <==> p == q || {p, q} == {Vec128, Vec128Neon}
  {
    var (a1, a2, a3) := DynamicParams(p);
    var (b1, b2, b3) := DynamicParams(q);
    DynamicNameInjective(a1, a2, a3, b1, b2, b3);
    DynamicParamsShared(p, q);
  }

  /** The three kinds of identifier never coincide: they start with 'u', 'd' and 's'. */
  lemma IdentifierKindsDistinct(bw: nat, p: ProcessingStyle, q: ProcessingStyle)
    ensures FORMAT_UNCOMPR != MakeDynamicVBP(p)
    ensures FORMAT_UNCOMPR != MakeStaticVBP(bw, q)
    ensures MakeDynamicVBP(p) != MakeStaticVBP(bw, q)
  {
    assert MakeDynamicVBP(p)[0] == 'd';
    assert MakeStaticVBP(bw, q)[0] == 's';
  }

  /** Short names of distinct widths are distinct. */
  lemma ShortStaticInjective(a: nat, b: nat)
    ensures ShortStatic(a) == ShortStatic(b) <==> a == b
  {
    if ShortStatic(a) == ShortStatic(b) {
      assert Strings.NatToString(a) == ShortStatic(a)[1..];
      assert Strings.NatToString(b) == ShortStatic(b)[1..];
      Strings.NatToStringInjective(a, b);
    }
  }

  // ---------------------------------------------------------------------------
  // The short-name table
  // ---------------------------------------------------------------------------

  /** The table after adding the static entries of `ps` for the widths `bw` to 64, in order. */
  function StaticEntries(m: map<string, string>, ps: ProcessingStyle, bw: nat): map<string, string>
    decreases 65 - bw
  {
    if bw > 64 then m
    else StaticEntries(m[MakeStaticVBP(bw, ps) := ShortStatic(bw)], ps, bw + 1)
  }

  /** The table after adding the dynamic entry of `ps` and then its static entries. */
  function StyleEntries(m: map<string, string>, ps: ProcessingStyle): map<string, string>
  {
    StaticEntries(m[MakeDynamicVBP(ps) := "d"], ps, 1)
  }

  /** The table after adding the entries of each style of `styles`, in order. */
  function EntriesFor(m: map<string, string>, styles: seq<ProcessingStyle>): map<string, string>
    decreases |styles|
  {
    if styles == [] then m else EntriesFor(StyleEntries(m, styles[0]), styles[1..])
  }

  /** The module's table `shortNames`: uncompr_f first, then the entries of every style. */
  function ShortNames(): map<string, string>
  {
    EntriesFor(map[FORMAT_UNCOMPR := "u"], ALL_STYLES)
  }

  /** Every style is listed in `ALL_STYLES`, so `ShortNamesSpec(ALL_STYLES)` describes `ShortNames()`. */
  lemma AllStylesListed()
    ensures forall ps :: ps in ALL_STYLES
  {
    forall ps
      ensures ps in ALL_STYLES
    {
      match ps
      case Scalar => assert ALL_STYLES[0] == ps;
      case Vec128 => assert ALL_STYLES[1] == ps;
      case Vec128Neon => assert ALL_STYLES[2] == ps;
      case Vec256 => assert ALL_STYLES[3] == ps;
      case Vec512 => assert ALL_STYLES[4] == ps;
    }
  }

  /** The module-level loop that fills the table. */
  method BuildShortNames() returns (m: map<string, string>)
    ensures m == ShortNames()
  {
    m := map[FORMAT_UNCOMPR := "u"];
    var i := 0;
    while i < |ALL_STYLES|
      invariant 0 <= i <= |ALL_STYLES|
      invariant EntriesFor(m, ALL_STYLES[i..]) == ShortNames()
    {
      var ps := ALL_STYLES[i];
      assert ALL_STYLES[i..][1..] == ALL_STYLES[i + 1..];
      m := m[MakeDynamicVBP(ps) := "d"];
      var bw := 1;
      while bw <= 64
        invariant 1 <= bw <= 65
        invariant EntriesFor(StaticEntries(m, ps, bw), ALL_STYLES[i + 1..]) == ShortNames()
      {
        m := m[MakeStaticVBP(bw, ps) := ShortStatic(bw)];
        bw := bw + 1;
      }
      i := i + 1;
    }
  }

  /** What a table entry may say: the identifier's kind and, for static_vbp_f, its width. */
  ghost predicate Meaning(f: string, short: string)
  {
    || (f == FORMAT_UNCOMPR && short == "u")
    || ((exists ps :: f == MakeDynamicVBP(ps)) && short == "d")
    || (exists ps, bw :: 1 <= bw <= 64 && f == MakeStaticVBP(bw, ps) && short == ShortStatic(bw))
  }

  ghost predicate Consistent(m: map<string, string>)
  {
    forall f :: f in m ==> Meaning(f, m[f])
  }

  lemma {:induction false} StaticEntriesGrow(m: map<string, string>, ps: ProcessingStyle, bw: nat)
    requires 1 <= bw
    ensures m.Keys <= StaticEntries(m, ps, bw).Keys
    ensures forall b :: bw <= b <= 64 ==> MakeStaticVBP(b, ps) in StaticEntries(m, ps, bw)
    ensures Consistent(m) ==> Consistent(StaticEntries(m, ps, bw))
    decreases 65 - bw
  {
    if bw <= 64 {
      var k := MakeStaticVBP(bw, ps);
      var m' := m[k := ShortStatic(bw)];
      StaticEntriesGrow(m', ps, bw + 1);
      if Consistent(m) {
        assert Meaning(k, ShortStatic(bw));
        assert Consistent(m');
      }
    }
  }

  lemma {:induction false} EntriesForGrow(m: map<string, string>, styles: seq<ProcessingStyle>)
    ensures m.Keys <= EntriesFor(m, styles).Keys
    ensures forall ps :: ps in styles ==> MakeDynamicVBP(ps) in EntriesFor(m, styles)
    ensures forall ps, b :: ps in styles && 1 <= b <= 64 ==> MakeStaticVBP(b, ps) in EntriesFor(m, styles)
    ensures Consistent(m) ==> Consistent(EntriesFor(m, styles))
    decreases |styles|
  {
    if styles != [] {
      var ps := styles[0];
      var k := MakeDynamicVBP(ps);
      var m' := m[k := "d"];
      StaticEntriesGrow(m', ps, 1);
      EntriesForGrow(StyleEntries(m, ps), styles[1..]);
      if Consistent(m) {
        assert Meaning(k, "d");
        assert Consistent(m');
      }
    }
  }

  /**
   * The table has an entry for uncompr_f, for the dynamic identifier of
   * every style and for the static identifier of every style at every width
   * from 1 to 64, and no other entries; each entry's short name is the one
   * its identifier's kind and width call for.
   */
  lemma ShortNamesSpec(styles: seq<ProcessingStyle>)
    requires forall ps :: ps in styles
    ensures var sn := EntriesFor(map[FORMAT_UNCOMPR := "u"], styles);
      && Consistent(sn)
      && FORMAT_UNCOMPR in sn && sn[FORMAT_UNCOMPR] == "u"
      && (forall ps :: MakeDynamicVBP(ps) in sn && sn[MakeDynamicVBP(ps)] == "d")
      && (forall ps, bw :: 1 <= bw <= 64 ==> MakeStaticVBP(bw, ps) in sn && sn[MakeStaticVBP(bw, ps)] == ShortStatic(bw))
  {
    var m0 := map[FORMAT_UNCOMPR := "u"];
    assert Consistent(m0);
    EntriesForGrow(m0, styles);
    var sn := EntriesFor(m0, styles);
    forall ps
      ensures sn[MakeDynamicVBP(ps)] == "d"
    {
      DynamicEntry(sn, ps);
    }
    forall ps, bw | 1 <= bw <= 64
      ensures sn[MakeStaticVBP(bw, ps)] == ShortStatic(bw)
    {
      StaticEntry(sn, ps, bw);
    }
    UncomprEntry(sn);
  }

  lemma UncomprEntry(m: map<string, string>)
    requires Consistent(m) && FORMAT_UNCOMPR in m
    ensures m[FORMAT_UNCOMPR] == "u"
  {
  }

  lemma DynamicEntry(m: map<string, string>, p: ProcessingStyle)
    requires Consistent(m) && MakeDynamicVBP(p) in m
    ensures m[MakeDynamicVBP(p)] == "d"
  {
    IdentifierKindsDistinct(0, p, p);
    if exists ps, bw :: 1 <= bw <= 64 && MakeDynamicVBP(p) == MakeStaticVBP(bw, ps) {
      var ps, bw :| 1 <= bw <= 64 && MakeDynamicVBP(p) == MakeStaticVBP(bw, ps);
      IdentifierKindsDistinct(bw, p, ps);
    }
  }

  lemma StaticEntry(m: map<string, string>, p: ProcessingStyle, b: nat)
    requires Consistent(m) && MakeStaticVBP(b, p) in m
    ensures m[MakeStaticVBP(b, p)] == ShortStatic(b)
  {
    var k := MakeStaticVBP(b, p);
    IdentifierKindsDistinct(b, p, p);
    if exists ps :: k == MakeDynamicVBP(ps) {
      var ps :| k == MakeDynamicVBP(ps);
      IdentifierKindsDistinct(b, ps, p);
    }
    if exists ps, bw :: 1 <= bw <= 64 && k == MakeStaticVBP(bw, ps) && m[k] == ShortStatic(bw) {
      var ps, bw :| 1 <= bw <= 64 && k == MakeStaticVBP(bw, ps) && m[k] == ShortStatic(bw);
      StaticVBPNames(b, p, bw, ps);
    }
  }
}
