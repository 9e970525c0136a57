/**
 * The older, format-less node catalog of mal2morphstore. Every node carries
 * the C++ headers it needs as a per-instance list, stored before its column
 * fields, and renders a call that uses the scalar processing style and the
 * uncompressed format throughout.
 */
module LegacyOperators {
  import opened Strings

  datatype Op =
    | Project(outDataCol: string, inDataCol: string, inPosCol: string)
    | Select(outPosCol: string, op: string, inDataCol: string, val: string)
    | Intersect(outPosCol: string, inPosLCol: string, inPosRCol: string)
    | Merge(outPosCol: string, inPosLCol: string, inPosRCol: string)
    | Join(outPosLCol: string, outPosRCol: string, inDataLCol: string, inDataRCol: string)
    | CalcBinary(outDataCol: string, op: string, inDataLCol: string, inDataRCol: string)
    | SumWholeCol(outDataCol: string, inDataCol: string)
    | SumGrBased(outDataCol: string, inGrCol: string, inDataCol: string, inExtCol: string)
    | GroupUnary(outGrCol: string, outExtCol: string, inDataCol: string)
    | GroupBinary(outGrCol: string, outExtCol: string, inGrCol: string, inDataCol: string)

  /** A program element: a node, or a line of C++ text emitted as it is. */
  datatype Element = OpEl(node: Op) | Line(text: string)

  /** An attribute of a node: its header list, a column name, or an operator parameter. */
  datatype Attr =
    | Headers(files: seq<string>)
    | Column(key: string, name: string)
    | Param(key: string, text: string)

  function KeyOf(a: Attr): string
  {
    match a
    case Headers(_) => "headers"
    case Column(k, _) => k
    case Param(k, _) => k
  }

  /** The headers of the scalar, uncompressed operator implementations. */
  const PROJECT_H := "core/operators/scalar/project_uncompr.h"
  const SELECT_H := "core/operators/scalar/select_uncompr.h"
  const INTERSECT_H := "core/operators/scalar/intersect_uncompr.h"
  const MERGE_H := "core/operators/scalar/merge_uncompr.h"
  const JOIN_H := "core/operators/scalar/join_uncompr.h"
  const CALC_H := "core/operators/scalar/calc_uncompr.h"
  const AGG_SUM_H := "core/operators/scalar/agg_sum_uncompr.h"
  const GROUP_H := "core/operators/scalar/group_uncompr.h"

  /** The headers each constructor stores. */
  function HeaderFiles(o: Op): (r: seq<string>)
    ensures "tuple" in r <==> o.Join? || o.GroupUnary? || o.GroupBinary?
  {
    match o
    case Project(_, _, _) => [PROJECT_H]
    case Select(_, _, _, _) => [SELECT_H]
    case Intersect(_, _, _) => [INTERSECT_H]
    case Merge(_, _, _) => [MERGE_H]
    case Join(_, _, _, _) => [JOIN_H, "tuple"]
    case CalcBinary(_, _, _, _) => [CALC_H]
    case SumWholeCol(_, _) => [AGG_SUM_H]
    case SumGrBased(_, _, _, _) => [AGG_SUM_H]
    case GroupUnary(_, _, _) => [GROUP_H, "tuple"]
    case GroupBinary(_, _, _, _) => [GROUP_H, "tuple"]
  }

  /** The attributes in the order the constructors set them: headers first. */
  function Attrs(o: Op): (r: seq<Attr>)
    ensures |r| > 0 && r[0] == Headers(HeaderFiles(o))
  {
    var h := Headers(HeaderFiles(o));
    match o
    case Project(oc, ic, pc) =>
      [h, Column("outDataCol", oc), Column("inDataCol", ic), Column("inPosCol", pc)]
    case Select(oc, op, ic, v) =>
      [h, Column("outPosCol", oc), Param("op", op), Column("inDataCol", ic), Param("val", v)]
    case Intersect(oc, lc, rc) =>
      [h, Column("outPosCol", oc), Column("inPosLCol", lc), Column("inPosRCol", rc)]
    case Merge(oc, lc, rc) =>
      [h, Column("outPosCol", oc), Column("inPosLCol", lc), Column("inPosRCol", rc)]
    case Join(olc, orc, ilc, irc) =>
      [h, Column("outPosLCol", olc), Column("outPosRCol", orc), Column("inDataLCol", ilc), Column("inDataRCol", irc)]
    case CalcBinary(oc, op, lc, rc) =>
      [h, Column("outDataCol", oc), Param("op", op), Column("inDataLCol", lc), Column("inDataRCol", rc)]
    case SumWholeCol(oc, ic) =>
      [h, Column("outDataCol", oc), Column("inDataCol", ic)]
    case SumGrBased(oc, gc, ic, ec) =>
      [h, Column("outDataCol", oc), Column("inGrCol", gc), Column("inDataCol", ic), Column("inExtCol", ec)]
    case GroupUnary(gc, ec, ic) =>
      [h, Column("outGrCol", gc), Column("outExtCol", ec), Column("inDataCol", ic)]
    case GroupBinary(gc, ec, igc, ic) =>
      [h, Column("outGrCol", gc), Column("outExtCol", ec), Column("inGrCol", igc), Column("inDataCol", ic)]
  }

  predicate IsOutKey(key: string) { StartsWith(key, "out") }
  predicate IsInKey(key: string) { StartsWith(key, "in") }

  /** The keys of the column fields, and of the other attributes. */
  const OUT_KEYS := ["outDataCol", "outPosCol", "outPosLCol", "outPosRCol", "outGrCol", "outExtCol"]
  const IN_KEYS := ["inDataCol", "inPosCol", "inPosLCol", "inPosRCol", "inDataLCol", "inDataRCol", "inGrCol", "inExtCol"]
  const OTHER_KEYS := ["headers", "op", "val"]

  lemma AttrKeys(o: Op)
    ensures forall a <- Attrs(o) :: if a.Column? then a.key in OUT_KEYS || a.key in IN_KEYS else KeyOf(a) in OTHER_KEYS
  {
  }

  lemma KeyPrefixes()
    ensures forall k <- OUT_KEYS :: IsOutKey(k)
    ensures forall k <- IN_KEYS :: IsInKey(k)
    ensures forall k <- OTHER_KEYS :: !IsOutKey(k) && !IsInKey(k)
  {
    assert "headers"[0] == 'h';
    assert "op"[1] == 'p' && "val"[0] == 'v';
  }

  /**
   * The naming convention the analysis relies on: exactly the column fields
   * have names starting with "in" or "out"; the header list and the `op` and
   * `val` parameters do not.
   */
  lemma OnlyColumnsLookLikeColumns(o: Op)
    ensures forall a <- Attrs(o) :: (IsOutKey(KeyOf(a)) || IsInKey(KeyOf(a))) <==> a.Column?
  {
    KeyPrefixes();
    AttrKeys(o);
  }

  /** The common identifiers the renderings insert. */
  const Scalar := "scalar"
  const Uncompr := "uncompr_f"

  function RenderPieces(o: Op): seq<string>
  {
    var S, F := Scalar, Uncompr;
    match o
    case Project(oc, ic, pc) =>
      ["auto ", oc, " = project<", S, ", ", F, ">(", ic, ", ", pc, ");"]
    case Select(oc, op, ic, v) =>
      ["auto ", oc, " = morphstore::select<", op, ", ", S, ", ", F, ", ", F, ">::apply(", ic, ", ", v, ");"]
    case Intersect(oc, lc, rc) =>
      ["auto ", oc, " = intersect_sorted<", S, ", ", F, ">(", lc, ", ", rc, ");"]
    case Merge(oc, lc, rc) =>
      ["auto ", oc, " = merge_sorted<", S, ", ", F, ">(", lc, ", ", rc, ");"]
    case Join(olc, orc, ilc, irc) =>
      ["const column<", F, "> * ", olc, ";\nconst column<", F, "> * ", orc,
       ";\nstd::tie(", olc, ", ", orc, ") = nested_loop_join<", S, ", ", F, ", ", F,
       ">(\n    ", ilc, ",\n    ", irc, ",\n    ", MaxCount(ilc, irc), "\n);"]
    case CalcBinary(oc, op, lc, rc) =>
      ["auto ", oc, " = morphstore::calc_binary<", op, ", ", S, ", ", F, ", ", F, ", ", F, ">::apply(", lc, ", ", rc, ");"]
    case SumWholeCol(oc, ic) =>
      ["auto ", oc, " = agg_sum<", S, ">(", ic, ");"]
    case SumGrBased(oc, gc, ic, ec) =>
      ["auto ", oc, " = agg_sum<", S, ", ", F, ">(", gc, ", ", ic, ", ", ec, "->get_count_values());"]
    case GroupUnary(gc, ec, ic) =>
      ["const column<", F, "> * ", gc, ";\nconst column<", F, "> * ", ec,
       ";\nstd::tie(", gc, ", ", ec, ") = group<", S, ", ", F, ", ", F, ">(", ic, ");"]
    case GroupBinary(gc, ec, igc, ic) =>
      ["const column<", F, "> * ", gc, ";\nconst column<", F, "> * ", ec,
       ";\nstd::tie(", gc, ", ", ec, ") = group<", S, ", ", F, ", ", F, ">(", igc, ", ", ic, ");"]
  }

  /** The join's cardinality estimate: the larger of both inputs' value counts. */
  function MaxCount(l: string, r: string): string
  {
    "std::max(" + l + "->get_count_values(), " + r + "->get_count_values())"
  }

  /** What the rendering shows of an attribute: a column's name or a parameter's text. */
  function AttrText(a: Attr): string
  {
    match a
    case Column(_, n) => n
    case Param(_, t) => t
    case Headers(_) => ""
  }

  lemma AttrsArePieces(o: Op)
    ensures forall a <- Attrs(o) :: !a.Headers? ==> AttrText(a) in RenderPieces(o)
  {
    if o.Project? || o.Select? || o.Intersect? || o.Merge? || o.Join? {
      SelectionAttrsArePieces(o);
    } else {
      AggregateAttrsArePieces(o);
    }
  }

  lemma SelectionAttrsArePieces(o: Op)
    requires o.Project? || o.Select? || o.Intersect? || o.Merge? || o.Join?
    ensures forall a <- Attrs(o) :: !a.Headers? ==> AttrText(a) in RenderPieces(o)
  {
  }

  lemma AggregateAttrsArePieces(o: Op)
    requires !(o.Project? || o.Select? || o.Intersect? || o.Merge? || o.Join?)
    ensures forall a <- Attrs(o) :: !a.Headers? ==> AttrText(a) in RenderPieces(o)
  {
  }

  lemma StyleArePieces(o: Op)
    ensures Scalar in RenderPieces(o)
    ensures !o.SumWholeCol? ==> Uncompr in RenderPieces(o)
    ensures o.Join? ==> MaxCount(o.inDataLCol, o.inDataRCol) in RenderPieces(o)
  {
    if o.Project? || o.Select? || o.Intersect? || o.Merge? || o.Join? {
      SelectionStyleArePieces(o);
    } else {
      AggregateStyleArePieces(o);
    }
  }

  lemma SelectionStyleArePieces(o: Op)
    requires o.Project? || o.Select? || o.Intersect? || o.Merge? || o.Join?
    ensures Scalar in RenderPieces(o) && Uncompr in RenderPieces(o)
    ensures o.Join? ==> MaxCount(o.inDataLCol, o.inDataRCol) in RenderPieces(o)
  {
  }

  lemma AggregateStyleArePieces(o: Op)
    requires !(o.Project? || o.Select? || o.Intersect? || o.Merge? || o.Join?)
    ensures Scalar in RenderPieces(o)
    ensures !o.SumWholeCol? ==> Uncompr in RenderPieces(o)
  {
  }

  /**
   * The node's `__str__`: a C++ call naming every column and parameter, run
   * in the scalar style, with the uncompressed format for every format
   * parameter (SumWholeCol takes none); a join passes the larger input count
   * as its cardinality estimate.
   */
  function Render(o: Op): (r: string)
    ensures forall a <- Attrs(o) :: !a.Headers? ==> Contains(r, AttrText(a))
    ensures Contains(r, Scalar)
    ensures !o.SumWholeCol? ==> Contains(r, Uncompr)
    ensures o.Join? ==> Contains(r, MaxCount(o.inDataLCol, o.inDataRCol))
  {
    var pieces := RenderPieces(o);
    ConcatContainsPieces(pieces);
    AttrsArePieces(o);
    StyleArePieces(o);
    Concat(pieces)
  }
}
