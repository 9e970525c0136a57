/**
 * Facts about the node catalog: how format slots pair with column slots,
 * the slot layouts of the kinds that differ from the common pattern, and
 * what a node's C++ text shows of its slots.
 */
module OperatorFacts {
  import opened Wrappers
  import opened Operators
  import Strings

  /** Every format slot describes a column slot of its node: "inDataF" describes "inDataCol". */
  lemma FormatsDescribeColumns(o: Op)
    ensures forall f <- FormatSlots(o) :: ColumnOf(o, f).Some?
  {
    match o
    case Project(_, _, _, _, _, _) => ProjectFormatsDescribeColumns(o);
    case Select(_, _, _, _, _, _) => SelectFormatsDescribeColumns(o);
    case Intersect(_, _, _, _, _, _) => IntersectFormatsDescribeColumns(o);
    case Merge(_, _, _, _, _, _) => MergeFormatsDescribeColumns(o);
    case Join(_, _, _, _, _, _, _, _) => JoinFormatsDescribeColumns(o);
    case Nto1Join(_, _, _, _, _, _, _, _) => Nto1JoinFormatsDescribeColumns(o);
    case LeftSemiNto1Join(_, _, _, _, _, _) => LeftSemiNto1JoinFormatsDescribeColumns(o);
    case CalcBinary(_, _, _, _, _, _, _) => CalcBinaryFormatsDescribeColumns(o);
    case SumWholeCol(_, _, _) => SumWholeColFormatsDescribeColumns(o);
    case SumGrBased(_, _, _, _, _, _, _) => SumGrBasedFormatsDescribeColumns(o);
    case GroupUnary(_, _, _, _, _, _) => GroupUnaryFormatsDescribeColumns(o);
    case GroupBinary(_, _, _, _, _, _, _, _) => GroupBinaryFormatsDescribeColumns(o);
    case Morph(_, _, _) => MorphFormatsDescribeColumns(o);
  }

  lemma ProjectFormatsDescribeColumns(o: Op)
    requires o.Project?
    ensures forall f <- FormatSlots(o) :: ColumnOf(o, f).Some?
  {
  }

  lemma SelectFormatsDescribeColumns(o: Op)
    requires o.Select?
    ensures forall f <- FormatSlots(o) :: ColumnOf(o, f).Some?
  {
  }

  lemma IntersectFormatsDescribeColumns(o: Op)
    requires o.Intersect?
    ensures forall f <- FormatSlots(o) :: ColumnOf(o, f).Some?
  {
  }

  lemma MergeFormatsDescribeColumns(o: Op)
    requires o.Merge?
    ensures forall f <- FormatSlots(o) :: ColumnOf(o, f).Some?
  {
  }

  lemma JoinFormatsDescribeColumns(o: Op)
    requires o.Join?
    ensures forall f <- FormatSlots(o) :: ColumnOf(o, f).Some?
  {
  }

  lemma Nto1JoinFormatsDescribeColumns(o: Op)
    requires o.Nto1Join?
    ensures forall f <- FormatSlots(o) :: ColumnOf(o, f).Some?
  {
  }

  lemma LeftSemiNto1JoinFormatsDescribeColumns(o: Op)
    requires o.LeftSemiNto1Join?
    ensures forall f <- FormatSlots(o) :: ColumnOf(o, f).Some?
  {
  }

  lemma CalcBinaryFormatsDescribeColumns(o: Op)
    requires o.CalcBinary?
    ensures forall f <- FormatSlots(o) :: ColumnOf(o, f).Some?
  {
  }

  lemma SumWholeColFormatsDescribeColumns(o: Op)
    requires o.SumWholeCol?
    ensures forall f <- FormatSlots(o) :: ColumnOf(o, f).Some?
  {
  }

  lemma SumGrBasedFormatsDescribeColumns(o: Op)
    requires o.SumGrBased?
    ensures forall f <- FormatSlots(o) :: ColumnOf(o, f).Some?
  {
  }

  lemma GroupUnaryFormatsDescribeColumns(o: Op)
    requires o.GroupUnary?
    ensures forall f <- FormatSlots(o) :: ColumnOf(o, f).Some?
  {
  }

  lemma GroupBinaryFormatsDescribeColumns(o: Op)
    requires o.GroupBinary?
    ensures forall f <- FormatSlots(o) :: ColumnOf(o, f).Some?
  {
  }

  lemma MorphFormatsDescribeColumns(o: Op)
    requires o.Morph?
    ensures forall f <- FormatSlots(o) :: ColumnOf(o, f).Some?
  {
  }

  /** SumWholeCol has an inDataF slot but no output format slot: its only format slot is an input's. */
  lemma SumWholeColSlots(oc: string, ic: string, f: Format)
    ensures FindSlot(ColumnSlots(SumWholeCol(oc, ic, f)), Out, Data) == Some(ColSlot(Out, Data, oc))
    ensures FindSlot(FormatSlots(SumWholeCol(oc, ic, f)), In, Data) == Some(FmtSlot(In, Data, f))
    ensures forall s <- FormatSlots(SumWholeCol(oc, ic, f)) :: s.dir == In
  {
  }

  /** SumGrBased reads an extents column but has no format slot for it: it reads only its count. */
  lemma SumGrBasedSlots(oc: string, gc: string, ic: string, ec: string, of: Format, gf: Format, iF: Format)
    ensures FindSlot(ColumnSlots(SumGrBased(oc, gc, ic, ec, of, gf, iF)), In, Ext) == Some(ColSlot(In, Ext, ec))
    ensures FindSlot(FormatSlots(SumGrBased(oc, gc, ic, ec, of, gf, iF)), In, Ext) == None
    ensures |FormatSlots(SumGrBased(oc, gc, ic, ec, of, gf, iF))| == |ColumnSlots(SumGrBased(oc, gc, ic, ec, of, gf, iF))| - 1
  {
  }

  /** An N:1 join has exactly the slots of a general join with the same fields. */
  lemma Nto1JoinSlotsAreJoinSlots(olc: string, orc: string, ilc: string, irc: string,
                                  olf: Format, orf: Format, ilf: Format, irf: Format)
    ensures Slots(Nto1Join(olc, orc, ilc, irc, olf, orf, ilf, irf)) == Slots(Join(olc, orc, ilc, irc, olf, orf, ilf, irf))
  {
  }

  /** A left semi N:1 join outputs only the right positions, with a format slot for them. */
  lemma LeftSemiNto1JoinSlots(orc: string, ilc: string, irc: string, orf: Format, ilf: Format, irf: Format)
    ensures forall s <- Slots(LeftSemiNto1Join(orc, ilc, irc, orf, ilf, irf)) :: s.dir == Out ==> s.role == PosR
    ensures FindSlot(ColumnSlots(LeftSemiNto1Join(orc, ilc, irc, orf, ilf, irf)), Out, PosR) == Some(ColSlot(Out, PosR, orc))
    ensures FindSlot(FormatSlots(LeftSemiNto1Join(orc, ilc, irc, orf, ilf, irf)), Out, PosR) == Some(FmtSlot(Out, PosR, orf))
  {
    var o := LeftSemiNto1Join(orc, ilc, irc, orf, ilf, irf);
    assert Slots(o) == [ColSlot(Out, PosR, orc), ColSlot(In, DataL, ilc), ColSlot(In, DataR, irc),
                        FmtSlot(Out, PosR, orf), FmtSlot(In, DataL, ilf), FmtSlot(In, DataR, irf)];
  }

  /** What the C++ text shows of a slot: the column's variable name, or the format's text. */
  function SlotText(s: Slot): string
  {
    match s
    case ColSlot(_, _, n) => n
    case FmtSlot(_, _, f) => FormatText(f)
  }

  /**
   * A node's C++ statement names every column it reads or writes and spells
   * out every format it was configured with.
   */
  lemma RenderShowsSlots(o: Op, groupOpName: string)
    requires !o.Morph?
    ensures forall s <- Slots(o) :: Strings.Contains(Render(o, groupOpName), SlotText(s))
  {
    Strings.ConcatContainsPieces(RenderPieces(o, groupOpName));
    match o
    case Project(_, _, _, _, _, _) => ProjectSlotsArePieces(o, groupOpName);
    case Select(_, _, _, _, _, _) => SelectSlotsArePieces(o, groupOpName);
    case Intersect(_, _, _, _, _, _) => IntersectSlotsArePieces(o, groupOpName);
    case Merge(_, _, _, _, _, _) => MergeSlotsArePieces(o, groupOpName);
    case Join(_, _, _, _, _, _, _, _) => JoinSlotsArePieces(o, groupOpName);
    case Nto1Join(_, _, _, _, _, _, _, _) => Nto1JoinSlotsArePieces(o, groupOpName);
    case LeftSemiNto1Join(_, _, _, _, _, _) => LeftSemiNto1JoinSlotsArePieces(o, groupOpName);
    case CalcBinary(_, _, _, _, _, _, _) => CalcBinarySlotsArePieces(o, groupOpName);
    case SumWholeCol(_, _, _) => SumWholeColSlotsArePieces(o, groupOpName);
    case SumGrBased(_, _, _, _, _, _, _) => SumGrBasedSlotsArePieces(o, groupOpName);
    case GroupUnary(_, _, _, _, _, _) => GroupUnarySlotsArePieces(o, groupOpName);
    case GroupBinary(_, _, _, _, _, _, _, _) => GroupBinarySlotsArePieces(o, groupOpName);
  }

  /**
   * The statement calls the operator its class names in `opName`, so the
   * two sums call the same `agg_sum`, an N:1 join calls `join` and a
   * general join `nested_loop_join`, and the group kinds call whatever name
   * they carry.
   */
  lemma RenderCallsOpName(o: Op, groupOpName: string)
    requires !o.Morph?
    ensures Strings.Contains(Render(o, groupOpName), OpName(o, groupOpName))
    ensures o.GroupUnary? || o.GroupBinary? ==> OpName(o, groupOpName) == groupOpName
    ensures o.Nto1Join? ==> OpName(o, groupOpName) == "join"
    ensures o.SumWholeCol? || o.SumGrBased? ==> OpName(o, groupOpName) == "agg_sum"
  {
    Strings.ConcatContainsPieces(RenderPieces(o, groupOpName));
    assert OpName(o, groupOpName) in RenderPieces(o, groupOpName);
  }

  lemma ProjectSlotsArePieces(o: Op, groupOpName: string)
    requires o.Project?
    ensures forall s <- Slots(o) :: SlotText(s) in RenderPieces(o, groupOpName)
  {
  }

  lemma SelectSlotsArePieces(o: Op, groupOpName: string)
    requires o.Select?
    ensures forall s <- Slots(o) :: SlotText(s) in RenderPieces(o, groupOpName)
  {
  }

  lemma IntersectSlotsArePieces(o: Op, groupOpName: string)
    requires o.Intersect?
    ensures forall s <- Slots(o) :: SlotText(s) in RenderPieces(o, groupOpName)
  {
  }

  lemma MergeSlotsArePieces(o: Op, groupOpName: string)
    requires o.Merge?
    ensures forall s <- Slots(o) :: SlotText(s) in RenderPieces(o, groupOpName)
  {
  }

  lemma JoinSlotsArePieces(o: Op, groupOpName: string)
    requires o.Join?
    ensures forall s <- Slots(o) :: SlotText(s) in RenderPieces(o, groupOpName)
  {
  }

  lemma Nto1JoinSlotsArePieces(o: Op, groupOpName: string)
    requires o.Nto1Join?
    ensures forall s <- Slots(o) :: SlotText(s) in RenderPieces(o, groupOpName)
  {
    Nto1JoinColumnsArePieces(o, groupOpName);
    Nto1JoinFormatsArePieces(o, groupOpName);
  }

  lemma Nto1JoinColumnsArePieces(o: Op, groupOpName: string)
    requires o.Nto1Join?
    ensures forall s <- ColumnSlots(o) :: SlotText(s) in RenderPieces(o, groupOpName)
  {
  }

  lemma Nto1JoinFormatsArePieces(o: Op, groupOpName: string)
    requires o.Nto1Join?
    ensures forall s <- FormatSlots(o) :: SlotText(s) in RenderPieces(o, groupOpName)
  {
  }

  lemma LeftSemiNto1JoinSlotsArePieces(o: Op, groupOpName: string)
    requires o.LeftSemiNto1Join?
    ensures forall s <- Slots(o) :: SlotText(s) in RenderPieces(o, groupOpName)
  {
  }

  lemma CalcBinarySlotsArePieces(o: Op, groupOpName: string)
    requires o.CalcBinary?
    ensures forall s <- Slots(o) :: SlotText(s) in RenderPieces(o, groupOpName)
  {
  }

  lemma SumWholeColSlotsArePieces(o: Op, groupOpName: string)
    requires o.SumWholeCol?
    ensures forall s <- Slots(o) :: SlotText(s) in RenderPieces(o, groupOpName)
  {
  }

  lemma SumGrBasedSlotsArePieces(o: Op, groupOpName: string)
    requires o.SumGrBased?
    ensures forall s <- Slots(o) :: SlotText(s) in RenderPieces(o, groupOpName)
  {
  }

  lemma GroupUnarySlotsArePieces(o: Op, groupOpName: string)
    requires o.GroupUnary?
    ensures forall s <- Slots(o) :: SlotText(s) in RenderPieces(o, groupOpName)
  {
  }

  lemma GroupBinarySlotsArePieces(o: Op, groupOpName: string)
    requires o.GroupBinary?
    ensures forall s <- Slots(o) :: SlotText(s) in RenderPieces(o, groupOpName)
  {
  }
}
