/**
 * The compression steps in the order the translator runs them: a
 * configuration fills every format slot, and the Morph insertion that
 * follows can then rename every input column, provided the short-name
 * table knows every format the configuration chose.
 */
module ComprPipeline {
  import opened Wrappers
  import opened ProcessingStyles
  import opened Operators
  import opened ComprNames
  import opened ComprConfigs
  import opened ComprDynamic
  import opened ComprCheck
  import opened Morphs

  /** The table has a short name for every format a configuration for style ps can choose. */
  predicate Covers(table: map<string, string>, ps: ProcessingStyle)
  {
    && FORMAT_UNCOMPR in table
    && MakeDynamicVBP(ps) in table
    && forall bw :: 1 <= bw <= 64 ==> MakeStaticVBP(bw, ps) in table
  }

  /** Every bit width is one a static_vbp_f format exists for. */
  predicate WidthsInRange(maxBw: map<string, nat>)
  {
    forall c <- maxBw :: 1 <= maxBw[c] <= 64
  }

  /** The program has no Morph yet: the configuration runs before any is inserted. */
  predicate NoMorphs(p: seq<Element>)
  {
    forall e <- p :: e.OpEl? ==> !e.node.Morph?
  }

  /** A chosen format has a short name. */
  predicate Listed(f: Format, table: map<string, string>)
  {
    f.Some? ==> f.value in table
  }

  /**
   * Every input column the rewrite renames has a format slot of the same
   * direction and role; the one input column without one, the extents of
   * SumGrBased, is exactly the one the rewrite skips.
   */
  lemma InputsFormatted(o: Op)
    requires !o.Morph?
    ensures forall c <- ColumnSlots(o) :: Rewritten(o, c) ==> FindSlot(FormatSlots(o), c.dir, c.role).Some?
  {
    match o
    case Project(_, _, _, _, _, _) => ProjectInputsFormatted(o);
    case Select(_, _, _, _, _, _) => SelectInputsFormatted(o);
    case Intersect(_, _, _, _, _, _) => IntersectInputsFormatted(o);
    case Merge(_, _, _, _, _, _) => MergeInputsFormatted(o);
    case Join(_, _, _, _, _, _, _, _) => JoinInputsFormatted(o);
    case Nto1Join(_, _, _, _, _, _, _, _) => Nto1JoinInputsFormatted(o);
    case LeftSemiNto1Join(_, _, _, _, _, _) => LeftSemiNto1JoinInputsFormatted(o);
    case CalcBinary(_, _, _, _, _, _, _) => CalcBinaryInputsFormatted(o);
    case SumWholeCol(_, _, _) => SumWholeColInputsFormatted(o);
    case SumGrBased(_, _, _, _, _, _, _) => SumGrBasedInputsFormatted(o);
    case GroupUnary(_, _, _, _, _, _) => GroupUnaryInputsFormatted(o);
    case GroupBinary(_, _, _, _, _, _, _, _) => GroupBinaryInputsFormatted(o);
  }

  lemma ProjectInputsFormatted(o: Op)
    requires o.Project?
    ensures forall c <- ColumnSlots(o) :: Rewritten(o, c) ==> FindSlot(FormatSlots(o), c.dir, c.role).Some?
  {
  }

  lemma SelectInputsFormatted(o: Op)
    requires o.Select?
    ensures forall c <- ColumnSlots(o) :: Rewritten(o, c) ==> FindSlot(FormatSlots(o), c.dir, c.role).Some?
  {
  }

  lemma IntersectInputsFormatted(o: Op)
    requires o.Intersect?
    ensures forall c <- ColumnSlots(o) :: Rewritten(o, c) ==> FindSlot(FormatSlots(o), c.dir, c.role).Some?
  {
  }

  lemma MergeInputsFormatted(o: Op)
    requires o.Merge?
    ensures forall c <- ColumnSlots(o) :: Rewritten(o, c) ==> FindSlot(FormatSlots(o), c.dir, c.role).Some?
  {
  }

  lemma JoinInputsFormatted(o: Op)
    requires o.Join?
    ensures forall c <- ColumnSlots(o) :: Rewritten(o, c) ==> FindSlot(FormatSlots(o), c.dir, c.role).Some?
  {
  }

  lemma Nto1JoinInputsFormatted(o: Op)
    requires o.Nto1Join?
    ensures forall c <- ColumnSlots(o) :: Rewritten(o, c) ==> FindSlot(FormatSlots(o), c.dir, c.role).Some?
  {
  }

  lemma LeftSemiNto1JoinInputsFormatted(o: Op)
    requires o.LeftSemiNto1Join?
    ensures forall c <- ColumnSlots(o) :: Rewritten(o, c) ==> FindSlot(FormatSlots(o), c.dir, c.role).Some?
  {
  }

  lemma CalcBinaryInputsFormatted(o: Op)
    requires o.CalcBinary?
    ensures forall c <- ColumnSlots(o) :: Rewritten(o, c) ==> FindSlot(FormatSlots(o), c.dir, c.role).Some?
  {
  }

  lemma SumWholeColInputsFormatted(o: Op)
    requires o.SumWholeCol?
    ensures forall c <- ColumnSlots(o) :: Rewritten(o, c) ==> FindSlot(FormatSlots(o), c.dir, c.role).Some?
  {
  }

  lemma SumGrBasedInputsFormatted(o: Op)
    requires o.SumGrBased?
    ensures forall c <- ColumnSlots(o) :: Rewritten(o, c) ==> FindSlot(FormatSlots(o), c.dir, c.role).Some?
  {
  }

  lemma GroupUnaryInputsFormatted(o: Op)
    requires o.GroupUnary?
    ensures forall c <- ColumnSlots(o) :: Rewritten(o, c) ==> FindSlot(FormatSlots(o), c.dir, c.role).Some?
  {
  }

  lemma GroupBinaryInputsFormatted(o: Op)
    requires o.GroupBinary?
    ensures forall c <- ColumnSlots(o) :: Rewritten(o, c) ==> FindSlot(FormatSlots(o), c.dir, c.role).Some?
  {
  }

  /**
   * A node refilled with formats that all have short names can be rewritten:
   * the refill keeps the columns and the direction and role of each format slot.
   */
  lemma RefilledRenamable(e: Element, e2: Element, target: (Op, Slot) -> Format, table: map<string, string>)
    requires Refilled(e, e2, target)
    requires e.OpEl? ==> !e.node.Morph?
    requires e.OpEl? ==> forall j :: 0 <= j < |FormatSlots(e.node)| ==> Listed(target(e.node, FormatSlots(e.node)[j]), table)
    requires e2.OpEl? ==> FormatsSet(e2.node)
    ensures ElementOk(e2, table)
  {
    if e.OpEl? {
      var o, o2 := e.node, e2.node;
      var fs, fs2 := FormatSlots(o), FormatSlots(o2);
      InputsFormatted(o);
      SameClassSameKind(o, o2);
      forall c <- ColumnSlots(o2)
        ensures Renamable(o2, c, table)
      {
        if Rewritten(o2, c) {
          var j :| 0 <= j < |fs| && fs[j] == FindSlot(fs, c.dir, c.role).value;
          assert fs2[j].dir == c.dir && fs2[j].role == c.role;
          var s2 := FindSlot(fs2, c.dir, c.role).value;
          var j2 :| 0 <= j2 < |fs2| && fs2[j2] == s2;
          assert s2.format == target(o, fs[j2]);
        }
      }
    }
  }

  /** Every format AllStaticVBP can choose has a short name. */
  lemma StaticTargetListed(maxBw: map<string, nat>, ps: ProcessingStyle, o: Op, f: Slot, table: map<string, string>)
    requires Covers(table, ps) && WidthsInRange(maxBw)
    ensures Listed(StaticConfigTarget(maxBw, ps, o, f), table)
  {
    var n := ColumnName(ColumnSlots(o), f);
    if StaticKind(o) && n.Some? && n.value in maxBw {
      assert 1 <= maxBw[n.value] <= 64;
    }
  }

  /** Every format the project-static configuration can choose has a short name. */
  lemma ProjectTargetListed(maxBw: map<string, nat>, ps: ProcessingStyle, used: (bool, bool), o: Op, f: Slot, table: map<string, string>)
    requires Covers(table, ps) && WidthsInRange(maxBw)
    ensures Listed(ProjectStaticTarget(maxBw, ps, used, o, f), table)
  {
    if o.Project? && o.outDataCol in maxBw {
      assert 1 <= maxBw[o.outDataCol] <= 64;
    }
    if o.Project? && o.inDataCol in maxBw {
      assert 1 <= maxBw[o.inDataCol] <= 64;
    }
  }

  lemma UncomprListed(q: Program, k: nat, table: map<string, string>)
    requires k < |q.prog| && FORMAT_UNCOMPR in table && NoMorphs(q.prog)
    ensures ElementOk(AllUncompr(q).prog[k], table)
  {
    var t := (o: Op, f: Slot) => Some(FORMAT_UNCOMPR);
    assert Refilled(q.prog[k], AllUncompr(q).prog[k], t);
    AllUncomprSpec(q);
    assert q.prog[k] in q.prog;
    RefilledRenamable(q.prog[k], AllUncompr(q).prog[k], t, table);
  }

  lemma StaticListed(q: Program, k: nat, maxBw: map<string, nat>, ps: ProcessingStyle, table: map<string, string>)
    requires AllStaticVBP(q, maxBw, ps).Ok? && k < |q.prog|
    requires Covers(table, ps) && WidthsInRange(maxBw) && NoMorphs(q.prog)
    ensures k < |AllStaticVBP(q, maxBw, ps).value.prog| && ElementOk(AllStaticVBP(q, maxBw, ps).value.prog[k], table)
  {
    AllStaticVBPSpec(q, maxBw, ps);
    StaticSet(q, k, maxBw, ps);
    var t := (o, f) => StaticConfigTarget(maxBw, ps, o, f);
    assert q.prog[k] in q.prog;
    if q.prog[k].OpEl? {
      var o := q.prog[k].node;
      forall j | 0 <= j < |FormatSlots(o)|
        ensures Listed(t(o, FormatSlots(o)[j]), table)
      {
        StaticTargetListed(maxBw, ps, o, FormatSlots(o)[j], table);
      }
    }
    RefilledRenamable(q.prog[k], AllStaticVBP(q, maxBw, ps).value.prog[k], t, table);
  }

  lemma DynamicListed(q: Program, k: nat, ps: ProcessingStyle, table: map<string, string>)
    requires k < |q.prog| && Covers(table, ps) && NoMorphs(q.prog)
    ensures k < |AllDynamicVBP(q, ps).prog| && ElementOk(AllDynamicVBP(q, ps).prog[k], table)
  {
    AllDynamicVBPSpec(q, ps);
    DynamicSet(q, k, ps);
    assert q.prog[k] in q.prog;
    RefilledRenamable(q.prog[k], AllDynamicVBP(q, ps).prog[k], (o, f) => DynamicTarget(ps, o, f), table);
  }

  lemma ProjectStaticListed(q: Program, w: Watch, k: nat, maxBw: map<string, nat>, ps: ProcessingStyle, table: map<string, string>)
    requires ProjectStaticWith(q, w, maxBw, ps).Ok? && k < |q.prog|
    requires Covers(table, ps) && WidthsInRange(maxBw) && NoMorphs(q.prog)
    ensures var r := ProjectStaticWith(q, w, maxBw, ps).value;
      k < |r.prog| && ElementOk(r.prog[k], table)
  {
    ProjectStaticWithSpec(q, w, maxBw, ps);
    ProjectStaticSet(q, w, k, maxBw, ps);
    var used := UsedAfter(q.prog, k, w);
    var t := (o, f) => ProjectStaticTarget(maxBw, ps, used, o, f);
    assert q.prog[k] in q.prog;
    if q.prog[k].OpEl? {
      var o := q.prog[k].node;
      forall j | 0 <= j < |FormatSlots(o)|
        ensures Listed(t(o, FormatSlots(o)[j]), table)
      {
        ProjectTargetListed(maxBw, ps, used, o, FormatSlots(o)[j], table);
      }
    }
    RefilledRenamable(q.prog[k], ProjectStaticWith(q, w, maxBw, ps).value.prog[k], t, table);
  }

  /**
   * The corrected project-static configuration feeds the Morph insertion
   * just as the one as written does: on a program without Morphs, with
   * bit widths in 1..64 and a table covering the style, the insertion
   * succeeds on its result.
   */
  lemma IntendedRewrites(q: Program, maxBw: map<string, nat>, ps: ProcessingStyle, table: map<string, string>)
    requires AllDynamicVBPProjectStaticVBPIntended(q, maxBw, ps).Ok?
    requires Covers(table, ps) && WidthsInRange(maxBw) && NoMorphs(q.prog)
    ensures InsertMorphs(AllDynamicVBPProjectStaticVBPIntended(q, maxBw, ps).value, table).Ok?
  {
    var r := AllDynamicVBPProjectStaticVBPIntended(q, maxBw, ps).value;
    forall k | 0 <= k < |r.prog|
      ensures ElementOk(r.prog[k], table)
    {
      ProjectStaticWithSpec(q, OutDataCol, maxBw, ps);
      ProjectStaticListed(q, OutDataCol, k, maxBw, ps, table);
    }
    InsertMorphsOk(r, table);
  }

  /**
   * After any configuration that succeeds on a program without Morphs, the
   * Morph insertion succeeds, provided the table names every format the
   * configuration can choose and every bit width is in 1..64.
   */
  lemma ConfiguredRewrites(q: Program, name: string, maxBw: map<string, nat>, ps: ProcessingStyle, table: map<string, string>)
    requires ConfigCompr(q, name, maxBw, ps).Ok?
    requires Covers(table, ps) && WidthsInRange(maxBw) && NoMorphs(q.prog)
    ensures InsertMorphs(ConfigCompr(q, name, maxBw, ps).value, table).Ok?
  {
    var r := ConfigCompr(q, name, maxBw, ps).value;
    forall k | 0 <= k < |r.prog|
      ensures ElementOk(r.prog[k], table)
    {
      if name == CC_ALLUNCOMPR {
        UncomprListed(q, k, table);
      } else if name == CC_ALLSTATICVBP {
        AllStaticVBPSpec(q, maxBw, ps);
        StaticListed(q, k, maxBw, ps, table);
      } else if name == CC_ALLDYNAMICVBP {
        AllDynamicVBPSpec(q, ps);
        DynamicListed(q, k, ps, table);
      } else {
        ProjectStaticWithSpec(q, OutDataF, maxBw, ps);
        ProjectStaticListed(q, OutDataF, k, maxBw, ps, table);
      }
    }
    InsertMorphsOk(r, table);
  }

  /** The translator's own short-name table names every format a configuration can choose. */
  lemma ShortNamesCover(ps: ProcessingStyle)
    ensures Covers(ShortNames(), ps)
  {
    AllStylesListed();
    ShortNamesSpec(ALL_STYLES);
  }

  /**
   * The translator's configure-then-rewrite sequence: with bit widths in
   * 1..64, a configuration that succeeds is followed by a Morph insertion
   * that succeeds, and its result passes the check that every format is set.
   */
  lemma PipelineSucceeds(q: Program, name: string, maxBw: map<string, nat>, ps: ProcessingStyle, groupOpName: string)
    requires ConfigCompr(q, name, maxBw, ps).Ok?
    requires WidthsInRange(maxBw) && NoMorphs(q.prog)
    ensures CheckAllFormatsSet(ConfigCompr(q, name, maxBw, ps).value.prog, groupOpName).None?
    ensures InsertMorphs(ConfigCompr(q, name, maxBw, ps).value, ShortNames()).Ok?
  {
    ConfigComprSetsAllFormats(q, name, maxBw, ps, groupOpName);
    ShortNamesCover(ps);
    ConfiguredRewrites(q, name, maxBw, ps, ShortNames());
  }
}
