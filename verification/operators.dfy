/**
 * The node kinds of a translated MorphStore query program (the format-aware
 * catalog). Each node records the C++ variable names of its input and output
 * columns in slots whose keys start with "in"/"out" and end with "Col", and
 * one parallel format slot per column whose key ends with "F" instead; format
 * slots are unset (None) until a compression configuration fills them.
 * `Slots` lists a node's slots in the order the catalog declares them,
 * which is the order every reflective scan over a node follows.
 */
module Operators {
  import opened Wrappers
  import Strings

  /** The C++ identifier of a column format, or None while unset. */
  type Format = Option<string>

  datatype Op =
    | Project(outDataCol: string, inDataCol: string, inPosCol: string,
              outDataF: Format, inDataF: Format, inPosF: Format)
    | Select(outPosCol: string, op: string, inDataCol: string, val: string,
             outPosF: Format, inDataF: Format)
    | Intersect(outPosCol: string, inPosLCol: string, inPosRCol: string,
                outPosF: Format, inPosLF: Format, inPosRF: Format)
    | Merge(outPosCol: string, inPosLCol: string, inPosRCol: string,
            outPosF: Format, inPosLF: Format, inPosRF: Format)
    | Join(outPosLCol: string, outPosRCol: string, inDataLCol: string, inDataRCol: string,
           outPosLF: Format, outPosRF: Format, inDataLF: Format, inDataRF: Format)
    | Nto1Join(outPosLCol: string, outPosRCol: string, inDataLCol: string, inDataRCol: string,
               outPosLF: Format, outPosRF: Format, inDataLF: Format, inDataRF: Format)
    | LeftSemiNto1Join(outPosRCol: string, inDataLCol: string, inDataRCol: string,
                       outPosRF: Format, inDataLF: Format, inDataRF: Format)
    | CalcBinary(outDataCol: string, op: string, inDataLCol: string, inDataRCol: string,
                 outDataF: Format, inDataLF: Format, inDataRF: Format)
    | SumWholeCol(outDataCol: string, inDataCol: string, inDataF: Format)
    | SumGrBased(outDataCol: string, inGrCol: string, inDataCol: string, inExtCol: string,
                 outDataF: Format, inGrF: Format, inDataF: Format)
    | GroupUnary(outGrCol: string, outExtCol: string, inDataCol: string,
                 outGrF: Format, outExtF: Format, inDataF: Format)
    | GroupBinary(outGrCol: string, outExtCol: string, inGrCol: string, inDataCol: string,
                  outGrF: Format, outExtF: Format, inGrF: Format, inDataF: Format)
      /** A format conversion of one column, inserted by the morph rewrite. */
    | Morph(outDataCol: string, inDataCol: string, outDataF: Format)

  /** An element of a translated program: a node, or a line of text (blank separators, comments). */
  datatype Element = OpEl(node: Op) | Line(text: string)

  datatype Dir = In | Out

  /** What a column holds: data, positions, group ids or group extents; L and R for the two join sides. */
  datatype Role = Data | DataL | DataR | Pos | PosL | PosR | Gr | Ext

  function RoleText(r: Role): string
  {
    match r
    case Data => "Data"
    case DataL => "DataL"
    case DataR => "DataR"
    case Pos => "Pos"
    case PosL => "PosL"
    case PosR => "PosR"
    case Gr => "Gr"
    case Ext => "Ext"
  }

  /**
   * A column or format slot. Its attribute name is "in"/"out", then the
   * role ("Data", "PosL", …), then "Col" for a column or "F" for a format.
   */
  datatype Slot =
    | ColSlot(dir: Dir, role: Role, name: string)
    | FmtSlot(dir: Dir, role: Role, format: Format)

  function DirText(d: Dir): string { if d == In then "in" else "out" }

  /** The attribute name of a slot, e.g. "inDataCol" or "outPosF". */
  function Key(s: Slot): string
  {
    match s
    case ColSlot(d, role, _) => DirText(d) + RoleText(role) + "Col"
    case FmtSlot(d, role, _) => DirText(d) + RoleText(role) + "F"
  }

  /** What reading the slot's attribute yields: a column name, or a format that may be None. */
  function ValueOf(s: Slot): Option<string>
  {
    match s
    case ColSlot(_, _, n) => Some(n)
    case FmtSlot(_, _, f) => f
  }

  /** The column slots of a node, in declaration order. */
  function ColumnSlots(o: Op): (r: seq<Slot>)
    ensures forall c <- r :: c.ColSlot?
  {
    match o
    case Project(oc, ic, pc, _, _, _) =>
      [ColSlot(Out, Data, oc), ColSlot(In, Data, ic), ColSlot(In, Pos, pc)]
    case Select(oc, _, ic, _, _, _) =>
      [ColSlot(Out, Pos, oc), ColSlot(In, Data, ic)]
    case Intersect(oc, lc, rc, _, _, _) =>
      [ColSlot(Out, Pos, oc), ColSlot(In, PosL, lc), ColSlot(In, PosR, rc)]
    case Merge(oc, lc, rc, _, _, _) =>
      [ColSlot(Out, Pos, oc), ColSlot(In, PosL, lc), ColSlot(In, PosR, rc)]
    case Join(olc, orc, ilc, irc, _, _, _, _) =>
      [ColSlot(Out, PosL, olc), ColSlot(Out, PosR, orc), ColSlot(In, DataL, ilc), ColSlot(In, DataR, irc)]
    case Nto1Join(olc, orc, ilc, irc, _, _, _, _) =>
      [ColSlot(Out, PosL, olc), ColSlot(Out, PosR, orc), ColSlot(In, DataL, ilc), ColSlot(In, DataR, irc)]
    case LeftSemiNto1Join(orc, ilc, irc, _, _, _) =>
      [ColSlot(Out, PosR, orc), ColSlot(In, DataL, ilc), ColSlot(In, DataR, irc)]
    case CalcBinary(oc, _, lc, rc, _, _, _) =>
      [ColSlot(Out, Data, oc), ColSlot(In, DataL, lc), ColSlot(In, DataR, rc)]
    case SumWholeCol(oc, ic, _) =>
      [ColSlot(Out, Data, oc), ColSlot(In, Data, ic)]
    case SumGrBased(oc, gc, ic, ec, _, _, _) =>
      [ColSlot(Out, Data, oc), ColSlot(In, Gr, gc), ColSlot(In, Data, ic), ColSlot(In, Ext, ec)]
    case GroupUnary(gc, ec, ic, _, _, _) =>
      [ColSlot(Out, Gr, gc), ColSlot(Out, Ext, ec), ColSlot(In, Data, ic)]
    case GroupBinary(gc, ec, igc, ic, _, _, _, _) =>
      [ColSlot(Out, Gr, gc), ColSlot(Out, Ext, ec), ColSlot(In, Gr, igc), ColSlot(In, Data, ic)]
    case Morph(oc, ic, _) =>
      [ColSlot(Out, Data, oc), ColSlot(In, Data, ic)]
  }

  /** The format slots of a node, in declaration order. */
  function FormatSlots(o: Op): (r: seq<Slot>)
    ensures forall f <- r :: f.FmtSlot?
  {
    match o
    case Project(_, _, _, of, iF, pf) =>
      [FmtSlot(Out, Data, of), FmtSlot(In, Data, iF), FmtSlot(In, Pos, pf)]
    case Select(_, _, _, _, of, iF) =>
      [FmtSlot(Out, Pos, of), FmtSlot(In, Data, iF)]
    case Intersect(_, _, _, of, lf, rf) =>
      [FmtSlot(Out, Pos, of), FmtSlot(In, PosL, lf), FmtSlot(In, PosR, rf)]
    case Merge(_, _, _, of, lf, rf) =>
      [FmtSlot(Out, Pos, of), FmtSlot(In, PosL, lf), FmtSlot(In, PosR, rf)]
    case Join(_, _, _, _, olf, orf, ilf, irf) =>
      [FmtSlot(Out, PosL, olf), FmtSlot(Out, PosR, orf), FmtSlot(In, DataL, ilf), FmtSlot(In, DataR, irf)]
    case Nto1Join(_, _, _, _, olf, orf, ilf, irf) =>
      [FmtSlot(Out, PosL, olf), FmtSlot(Out, PosR, orf), FmtSlot(In, DataL, ilf), FmtSlot(In, DataR, irf)]
    case LeftSemiNto1Join(_, _, _, orf, ilf, irf) =>
      [FmtSlot(Out, PosR, orf), FmtSlot(In, DataL, ilf), FmtSlot(In, DataR, irf)]
    case CalcBinary(_, _, _, _, of, lf, rf) =>
      [FmtSlot(Out, Data, of), FmtSlot(In, DataL, lf), FmtSlot(In, DataR, rf)]
    case SumWholeCol(_, _, iF) =>
      [FmtSlot(In, Data, iF)]
    case SumGrBased(_, _, _, _, of, gf, iF) =>
      [FmtSlot(Out, Data, of), FmtSlot(In, Gr, gf), FmtSlot(In, Data, iF)]
    case GroupUnary(_, _, _, gf, ef, iF) =>
      [FmtSlot(Out, Gr, gf), FmtSlot(Out, Ext, ef), FmtSlot(In, Data, iF)]
    case GroupBinary(_, _, _, _, gf, ef, igf, iF) =>
      [FmtSlot(Out, Gr, gf), FmtSlot(Out, Ext, ef), FmtSlot(In, Gr, igf), FmtSlot(In, Data, iF)]
    case Morph(_, _, of) =>
      [FmtSlot(Out, Data, of)]
  }

  /**
   * The slots in the order a scan over the node's attributes meets them:
   * every kind declares its column slots first and its format slots after
   * them. The `op` and `val` parameters of Select and CalcBinary are not
   * slots; their names start with neither "in" nor "out".
   */
  function Slots(o: Op): seq<Slot>
  {
    ColumnSlots(o) + FormatSlots(o)
  }

  /** The Python class name of a node, used in error messages. */
  function ClassName(o: Op): string
  {
    match o
    case Project(_, _, _, _, _, _) => "Project"
    case Select(_, _, _, _, _, _) => "Select"
    case Intersect(_, _, _, _, _, _) => "Intersect"
    case Merge(_, _, _, _, _, _) => "Merge"
    case Join(_, _, _, _, _, _, _, _) => "Join"
    case Nto1Join(_, _, _, _, _, _, _, _) => "Nto1Join"
    case LeftSemiNto1Join(_, _, _, _, _, _) => "LeftSemiNto1Join"
    case CalcBinary(_, _, _, _, _, _, _) => "CalcBinary"
    case SumWholeCol(_, _, _) => "SumWholeCol"
    case SumGrBased(_, _, _, _, _, _, _) => "SumGrBased"
    case GroupUnary(_, _, _, _, _, _) => "GroupUnary"
    case GroupBinary(_, _, _, _, _, _, _, _) => "GroupBinary"
    case Morph(_, _, _) => "Morph"
  }

  /**
   * The class attribute `opName`: the C++ operator a node calls, which the
   * rendering and the format check's error message both use. `groupOpName`
   * is what the two group kinds carry ("group", or "group_vec" once the
   * driver has switched them to the vector library). The Morph class is not
   * part of this catalog; its operator is MorphStore's `morph`.
   */
  function OpName(o: Op, groupOpName: string): string
  {
    match o
    case Project(_, _, _, _, _, _) => "project"
    case Select(_, _, _, _, _, _) => "select"
    case Intersect(_, _, _, _, _, _) => "intersect_sorted"
    case Merge(_, _, _, _, _, _) => "merge_sorted"
    case Join(_, _, _, _, _, _, _, _) => "nested_loop_join"
    case Nto1Join(_, _, _, _, _, _, _, _) => "join"
    case LeftSemiNto1Join(_, _, _, _, _, _) => "semi_join"
    case CalcBinary(_, _, _, _, _, _, _) => "calc_binary"
    case SumWholeCol(_, _, _) => "agg_sum"
    case SumGrBased(_, _, _, _, _, _, _) => "agg_sum"
    case GroupUnary(_, _, _, _, _, _) => groupOpName
    case GroupBinary(_, _, _, _, _, _, _, _) => groupOpName
    case Morph(_, _, _) => "morph"
  }

  predicate IsOutKey(key: string) { Strings.StartsWith(key, "out") }
  predicate IsInKey(key: string) { Strings.StartsWith(key, "in") }

  /**
   * The attribute-name convention the reflective scans rely on: a slot's
   * name starts with "out" exactly for outputs and with "in" exactly for
   * inputs, and ends with "Col" for columns and "F" for formats.
   */
  lemma SlotKeyConvention(s: Slot)
    ensures IsOutKey(Key(s)) <==> s.dir == Out
    ensures IsInKey(Key(s)) <==> s.dir == In
    ensures Strings.EndsWith(Key(s), "Col") <==> s.ColSlot?
    ensures Strings.EndsWith(Key(s), "F") <==> s.FmtSlot?
  {
    var k := Key(s);
    var head := DirText(s.dir);
    var tail := if s.ColSlot? then "Col" else "F";
    assert k == head + RoleText(s.role) + tail;
    assert k[..|head|] == head;
    assert k[0] == head[0];
    assert k[|k| - |tail|..] == tail;
    assert k[|k| - 1] == tail[|tail| - 1];
  }

  /** The parameters that are not slots never look like one to a scan. */
  lemma ParamsAreNotSlots()
    ensures !IsInKey("op") && !IsOutKey("op") && !IsInKey("val") && !IsOutKey("val")
  {
    assert "op"[1] != "out"[1];
  }

  /** The column slot a format slot describes: "inDataF" describes "inDataCol". */
  function ColumnOf(o: Op, f: Slot): (r: Option<Slot>)
    ensures r.Some? ==> r.value in ColumnSlots(o) && r.value.dir == f.dir && r.value.role == f.role
  {
    FindSlot(ColumnSlots(o), f.dir, f.role)
  }

  function FindSlot(slots: seq<Slot>, d: Dir, role: Role): (r: Option<Slot>)
    ensures r.Some? ==> r.value in slots && r.value.dir == d && r.value.role == role
    ensures r.None? ==> forall s <- slots :: !(s.dir == d && s.role == role)
  {
    FindSlotFrom(slots, d, role, 0)
  }

  /** The first slot at or after index `i` with the given direction and role. */
  function FindSlotFrom(slots: seq<Slot>, d: Dir, role: Role, i: nat): (r: Option<Slot>)
    requires i <= |slots|
    ensures r.Some? ==> r.value in slots && r.value.dir == d && r.value.role == role
    ensures r.None? ==> forall k :: i <= k < |slots| ==> !(slots[k].dir == d && slots[k].role == role)
    decreases |slots| - i
  {
    if i == |slots| then None
    else if slots[i].dir == d && slots[i].role == role then Some(slots[i])
    else FindSlotFrom(slots, d, role, i + 1)
  }

  /** The node with its format slots, in declaration order, set to `fs`. */
  function WithFormats(o: Op, fs: seq<Format>): (r: Op)
    requires |fs| == |FormatSlots(o)|
    ensures ColumnSlots(r) == ColumnSlots(o) && ClassName(r) == ClassName(o)
    ensures |FormatSlots(r)| == |fs|
    ensures forall j :: 0 <= j < |fs| ==> FormatSlots(r)[j] == FormatSlots(o)[j].(format := fs[j])
    ensures (o.Select? || o.CalcBinary?) ==> r.op == o.op
    ensures o.Select? ==> r.val == o.val
  {
    if o.Project? || o.Select? || o.Intersect? || o.Merge? || o.Join? || o.Nto1Join?
    then WithFormatsOfSelection(o, fs)
    else WithFormatsOfAggregate(o, fs)
  }

  function WithFormatsOfSelection(o: Op, fs: seq<Format>): (r: Op)
    requires |fs| == |FormatSlots(o)|
    requires o.Project? || o.Select? || o.Intersect? || o.Merge? || o.Join? || o.Nto1Join?
    ensures ColumnSlots(r) == ColumnSlots(o) && ClassName(r) == ClassName(o)
    ensures |FormatSlots(r)| == |fs|
    ensures forall j :: 0 <= j < |fs| ==> FormatSlots(r)[j] == FormatSlots(o)[j].(format := fs[j])
    ensures o.Select? ==> r.op == o.op && r.val == o.val
  {
    match o
    case Project(oc, ic, pc, _, _, _) => Project(oc, ic, pc, fs[0], fs[1], fs[2])
    case Select(oc, op, ic, v, _, _) => Select(oc, op, ic, v, fs[0], fs[1])
    case Intersect(oc, lc, rc, _, _, _) => Intersect(oc, lc, rc, fs[0], fs[1], fs[2])
    case Merge(oc, lc, rc, _, _, _) => Merge(oc, lc, rc, fs[0], fs[1], fs[2])
    case Join(olc, orc, ilc, irc, _, _, _, _) => Join(olc, orc, ilc, irc, fs[0], fs[1], fs[2], fs[3])
    case Nto1Join(olc, orc, ilc, irc, _, _, _, _) => Nto1Join(olc, orc, ilc, irc, fs[0], fs[1], fs[2], fs[3])
  }

  function WithFormatsOfAggregate(o: Op, fs: seq<Format>): (r: Op)
    requires |fs| == |FormatSlots(o)|
    requires !(o.Project? || o.Select? || o.Intersect? || o.Merge? || o.Join? || o.Nto1Join?)
    ensures ColumnSlots(r) == ColumnSlots(o) && ClassName(r) == ClassName(o)
    ensures |FormatSlots(r)| == |fs|
    ensures forall j :: 0 <= j < |fs| ==> FormatSlots(r)[j] == FormatSlots(o)[j].(format := fs[j])
    ensures o.CalcBinary? ==> r.op == o.op
  {
    match o
    case LeftSemiNto1Join(orc, ilc, irc, _, _, _) => LeftSemiNto1Join(orc, ilc, irc, fs[0], fs[1], fs[2])
    case CalcBinary(oc, op, lc, rc, _, _, _) => CalcBinary(oc, op, lc, rc, fs[0], fs[1], fs[2])
    case SumWholeCol(oc, ic, _) => SumWholeCol(oc, ic, fs[0])
    case SumGrBased(oc, gc, ic, ec, _, _, _) => SumGrBased(oc, gc, ic, ec, fs[0], fs[1], fs[2])
    case GroupUnary(gc, ec, ic, _, _, _) => GroupUnary(gc, ec, ic, fs[0], fs[1], fs[2])
    case GroupBinary(gc, ec, igc, ic, _, _, _, _) => GroupBinary(gc, ec, igc, ic, fs[0], fs[1], fs[2], fs[3])
    case Morph(oc, ic, _) => Morph(oc, ic, fs[0])
  }

  /** The node with its column slots, in declaration order, renamed to `names`. */
  function WithColumns(o: Op, names: seq<string>): (r: Op)
    requires |names| == |ColumnSlots(o)|
    ensures FormatSlots(r) == FormatSlots(o) && ClassName(r) == ClassName(o)
    ensures |ColumnSlots(r)| == |names|
    ensures forall j :: 0 <= j < |names| ==> ColumnSlots(r)[j] == ColumnSlots(o)[j].(name := names[j])
    ensures (o.Select? || o.CalcBinary?) ==> r.op == o.op
    ensures o.Select? ==> r.val == o.val
  {
    if o.Project? || o.Select? || o.Intersect? || o.Merge? || o.Join? || o.Nto1Join?
    then WithColumnsOfSelection(o, names)
    else WithColumnsOfAggregate(o, names)
  }

  function WithColumnsOfSelection(o: Op, names: seq<string>): (r: Op)
    requires |names| == |ColumnSlots(o)|
    requires o.Project? || o.Select? || o.Intersect? || o.Merge? || o.Join? || o.Nto1Join?
    ensures FormatSlots(r) == FormatSlots(o) && ClassName(r) == ClassName(o)
    ensures |ColumnSlots(r)| == |names|
    ensures forall j :: 0 <= j < |names| ==> ColumnSlots(r)[j] == ColumnSlots(o)[j].(name := names[j])
    ensures o.Select? ==> r.op == o.op && r.val == o.val
  {
    var n := names;
    match o
    case Project(_, _, _, of, iF, pf) => Project(n[0], n[1], n[2], of, iF, pf)
    case Select(_, op, _, v, of, iF) => Select(n[0], op, n[1], v, of, iF)
    case Intersect(_, _, _, of, lf, rf) => Intersect(n[0], n[1], n[2], of, lf, rf)
    case Merge(_, _, _, of, lf, rf) => Merge(n[0], n[1], n[2], of, lf, rf)
    case Join(_, _, _, _, olf, orf, ilf, irf) => Join(n[0], n[1], n[2], n[3], olf, orf, ilf, irf)
    case Nto1Join(_, _, _, _, olf, orf, ilf, irf) => Nto1Join(n[0], n[1], n[2], n[3], olf, orf, ilf, irf)
  }

  function WithColumnsOfAggregate(o: Op, names: seq<string>): (r: Op)
    requires |names| == |ColumnSlots(o)|
    requires !(o.Project? || o.Select? || o.Intersect? || o.Merge? || o.Join? || o.Nto1Join?)
    ensures FormatSlots(r) == FormatSlots(o) && ClassName(r) == ClassName(o)
    ensures |ColumnSlots(r)| == |names|
    ensures forall j :: 0 <= j < |names| ==> ColumnSlots(r)[j] == ColumnSlots(o)[j].(name := names[j])
    ensures o.CalcBinary? ==> r.op == o.op
  {
    var n := names;
    match o
    case LeftSemiNto1Join(_, _, _, orf, ilf, irf) => LeftSemiNto1Join(n[0], n[1], n[2], orf, ilf, irf)
    case CalcBinary(_, op, _, _, of, lf, rf) => CalcBinary(n[0], op, n[1], n[2], of, lf, rf)
    case SumWholeCol(_, _, iF) => SumWholeCol(n[0], n[1], iF)
    case SumGrBased(_, _, _, _, of, gf, iF) => SumGrBased(n[0], n[1], n[2], n[3], of, gf, iF)
    case GroupUnary(_, _, _, gf, ef, iF) => GroupUnary(n[0], n[1], n[2], gf, ef, iF)
    case GroupBinary(_, _, _, _, gf, ef, igf, iF) => GroupBinary(n[0], n[1], n[2], n[3], gf, ef, igf, iF)
    case Morph(_, _, of) => Morph(n[0], n[1], of)
  }

  // Constructors as the translator calls them: the column arguments fill the
  // column slots in order, and every format slot starts unset.

  function NewProject(outDataCol: string, inDataCol: string, inPosCol: string): (r: Op)
    ensures Names(ColumnSlots(r)) == [outDataCol, inDataCol, inPosCol] && AllFormatsUnset(r)
  { Project(outDataCol, inDataCol, inPosCol, None, None, None) }

  function NewSelect(outPosCol: string, op: string, inDataCol: string, val: string): (r: Op)
    ensures Names(ColumnSlots(r)) == [outPosCol, inDataCol] && AllFormatsUnset(r)
  { Select(outPosCol, op, inDataCol, val, None, None) }

  function NewIntersect(outPosCol: string, inPosLCol: string, inPosRCol: string): (r: Op)
    ensures Names(ColumnSlots(r)) == [outPosCol, inPosLCol, inPosRCol] && AllFormatsUnset(r)
  { Intersect(outPosCol, inPosLCol, inPosRCol, None, None, None) }

  function NewMerge(outPosCol: string, inPosLCol: string, inPosRCol: string): (r: Op)
    ensures Names(ColumnSlots(r)) == [outPosCol, inPosLCol, inPosRCol] && AllFormatsUnset(r)
  { Merge(outPosCol, inPosLCol, inPosRCol, None, None, None) }

  function NewJoin(outPosLCol: string, outPosRCol: string, inDataLCol: string, inDataRCol: string): (r: Op)
    ensures Names(ColumnSlots(r)) == [outPosLCol, outPosRCol, inDataLCol, inDataRCol] && AllFormatsUnset(r)
  { Join(outPosLCol, outPosRCol, inDataLCol, inDataRCol, None, None, None, None) }

  function NewNto1Join(outPosLCol: string, outPosRCol: string, inDataLCol: string, inDataRCol: string): (r: Op)
    ensures Names(ColumnSlots(r)) == [outPosLCol, outPosRCol, inDataLCol, inDataRCol] && AllFormatsUnset(r)
  { Nto1Join(outPosLCol, outPosRCol, inDataLCol, inDataRCol, None, None, None, None) }

  function NewLeftSemiNto1Join(outPosRCol: string, inDataLCol: string, inDataRCol: string): (r: Op)
    ensures Names(ColumnSlots(r)) == [outPosRCol, inDataLCol, inDataRCol] && AllFormatsUnset(r)
  { LeftSemiNto1Join(outPosRCol, inDataLCol, inDataRCol, None, None, None) }

  function NewCalcBinary(outDataCol: string, op: string, inDataLCol: string, inDataRCol: string): (r: Op)
    ensures Names(ColumnSlots(r)) == [outDataCol, inDataLCol, inDataRCol] && AllFormatsUnset(r)
  { CalcBinary(outDataCol, op, inDataLCol, inDataRCol, None, None, None) }

  function NewSumWholeCol(outDataCol: string, inDataCol: string): (r: Op)
    ensures Names(ColumnSlots(r)) == [outDataCol, inDataCol] && AllFormatsUnset(r)
  { SumWholeCol(outDataCol, inDataCol, None) }

  function NewSumGrBased(outDataCol: string, inGrCol: string, inDataCol: string, inExtCol: string): (r: Op)
    ensures Names(ColumnSlots(r)) == [outDataCol, inGrCol, inDataCol, inExtCol] && AllFormatsUnset(r)
  { SumGrBased(outDataCol, inGrCol, inDataCol, inExtCol, None, None, None) }

  function NewGroupUnary(outGrCol: string, outExtCol: string, inDataCol: string): (r: Op)
    ensures Names(ColumnSlots(r)) == [outGrCol, outExtCol, inDataCol] && AllFormatsUnset(r)
  { GroupUnary(outGrCol, outExtCol, inDataCol, None, None, None) }

  function NewGroupBinary(outGrCol: string, outExtCol: string, inGrCol: string, inDataCol: string): (r: Op)
    ensures Names(ColumnSlots(r)) == [outGrCol, outExtCol, inGrCol, inDataCol] && AllFormatsUnset(r)
  { GroupBinary(outGrCol, outExtCol, inGrCol, inDataCol, None, None, None, None) }

  predicate AllFormatsUnset(o: Op) { forall f <- FormatSlots(o) :: f.format.None? }

  function Names(slots: seq<Slot>): (r: seq<string>)
    requires forall s <- slots :: s.ColSlot?
    ensures |r| == |slots| && forall j :: 0 <= j < |slots| ==> r[j] == slots[j].name
  {
    seq(|slots|, j requires 0 <= j < |slots| => slots[j].name)
  }

  function Keys(slots: seq<Slot>): (r: seq<string>)
    ensures |r| == |slots| && forall j :: 0 <= j < |slots| ==> r[j] == Key(slots[j])
  {
    seq(|slots|, j requires 0 <= j < |slots| => Key(slots[j]))
  }

  // Rendering as C++ source text.

  /** How Python's `str.format` prints a format slot: its text, or "None" while unset. */
  function FormatText(f: Format): string
  {
    match f
    case Some(s) => s
    case None => "None"
  }

  /** The note printed above a grouped sum, whose processing style is fixed to scalar. */
  const SUM_GR_NOTE := "// @todo Currently, the scalar processing style is hardcoded\n"
    + "// in the query translation, because MorphStore still lacks a\n"
    + "// vectorized implementation. As soon as such an\n"
    + "// implementation exists, we should use it here.\n"

  /** The processing-style placeholder the generated program declares. */
  const PS_VAR := "ps"

  /**
   * The pieces of a node's C++ call. `groupOpName` is the name the group
   * operators are emitted under ("group", or "group_vec" for the vector
   * library). Morph nodes are printed by code outside this catalog.
   */
  function RenderPieces(o: Op, groupOpName: string): seq<string>
    requires !o.Morph?
  {
    var F := FormatText;
    var N := OpName(o, groupOpName);
    match o
    case Project(oc, ic, pc, of, iF, pf) =>
      ["auto ", oc, " = ", N, "<", PS_VAR, ", ", F(of), ", ", F(iF), ", ", F(pf), ">(", ic, ", ", pc, ");"]
    case Select(oc, op, ic, v, of, iF) =>
      ["auto ", oc, " = morphstore::", N, "<", op, ", ", PS_VAR, ", ", F(of), ", ", F(iF), ">(", ic, ", ", v, ");"]
    case Intersect(oc, lc, rc, of, lf, rf) =>
      ["auto ", oc, " = ", N, "<", PS_VAR, ", ", F(of), ", ", F(lf), ", ", F(rf), ">(", lc, ", ", rc, ");"]
    case Merge(oc, lc, rc, of, lf, rf) =>
      ["auto ", oc, " = ", N, "<", PS_VAR, ", ", F(of), ", ", F(lf), ", ", F(rf), ">(", lc, ", ", rc, ");"]
    case Join(olc, orc, ilc, irc, olf, orf, ilf, irf) =>
      ["const column<", F(olf), "> * ", olc, ";\nconst column<", F(orf), "> * ", orc,
       ";\nstd::tie(", olc, ", ", orc, ") = ", N, "<", PS_VAR, ", ", F(olf), ", ", F(orf), ", ", F(ilf), ", ", F(irf),
       ">(\n    ", ilc, ",\n    ", irc, ",\n    std::max(", ilc, "->get_count_values(), ", irc, "->get_count_values())\n);"]
    case Nto1Join(olc, orc, ilc, irc, olf, orf, ilf, irf) =>
      ["const column<", F(olf), "> * ", olc, ";\nconst column<", F(orf), "> * ", orc,
       ";\nstd::tie(", olc, ", ", orc, ") = ", N, "<\n    ", PS_VAR, ",\n    ", F(olf), ",\n    ", F(orf),
       ",\n    ", F(ilf), ",\n    ", F(irf), "\n    >(\n    ", ilc, ",\n    ", irc, ",\n    ", irc, "->get_count_values()\n);\n"]
    case LeftSemiNto1Join(orc, ilc, irc, orf, ilf, irf) =>
      ["auto ", orc, " = ", N, "<\n    ", PS_VAR, ",\n    ", F(orf), ",\n    ", F(ilf), ",\n    ", F(irf),
       "\n    >\n(", ilc, ", ", irc, ");"]
    case CalcBinary(oc, op, lc, rc, of, lf, rf) =>
      ["auto ", oc, " = morphstore::", N, "<", op, ", ", PS_VAR, ", ", F(of), ", ", F(lf), ", ", F(rf), ">(", lc, ", ", rc, ");"]
    case SumWholeCol(oc, ic, iF) =>
      ["auto ", oc, " = ", N, "<", PS_VAR, ", ", F(iF), ">(", ic, ");"]
    case SumGrBased(oc, gc, ic, ec, of, gf, iF) =>
      [SUM_GR_NOTE,
       "auto ", oc, " = ", N, "<scalar<v64<uint64_t>>, ", F(of), ", ", F(gf), ", ", F(iF), ">(", gc, ", ", ic, ", ", ec, "->get_count_values());"]
    case GroupUnary(gc, ec, ic, gf, ef, iF) =>
      ["const column<", F(gf), "> * ", gc, ";\n",
       "const column<", F(ef), "> * ", ec, ";\n",
       "std::tie(", gc, ", ", ec, ") = ", N, "<", PS_VAR, ", ", F(gf), ", ", F(ef), ", ", F(iF), ">(", ic, ");"]
    case GroupBinary(gc, ec, igc, ic, gf, ef, igf, iF) =>
      ["const column<", F(gf), "> * ", gc, ";\n",
       "const column<", F(ef), "> * ", ec, ";\n",
       "std::tie(", gc, ", ", ec, ") = ", N, "<", PS_VAR, ", ", F(gf), ", ", F(ef), ", ", F(igf), ", ", F(iF), ">(", igc, ", ", ic, ");"]
  }

  /** The node's `__str__`: the C++ statement calling the operator. */
  function Render(o: Op, groupOpName: string): string
    requires !o.Morph?
  {
    Strings.Concat(RenderPieces(o, groupOpName))
  }
}
