/**
 * The compression configurations of mal2x: rule-based strategies that fill
 * every format slot of a translated program, and the completeness check run
 * after them. Each configuration is stated here as a function from the
 * program before to the program after (or to the exception it raises); the
 * in-place versions are the methods of `Compr.Query`.
 *
 * The maximum bit width of each column, which the source obtains from an
 * analysis run with `analyzeCardsAndBws=True`, is the parameter `maxBw`; a
 * column missing from it is the KeyError the lookup raises.
 */
module ComprConfigs {
  import opened Wrappers
  import opened ProcessingStyles
  import opened Operators
  import opened ComprNames
  import OperatorFacts

  /** The exceptions the configurations, the check and the morph rewrite raise. */
  datatype ComprError =
    | MissingBitWidth(column: string)                      // KeyError on the bit-width table
    | UnsupportedConfig(name: string)                      // "Unsupported compression configuration: '…'"
    | FormatNotSet(key: string, opName: string, opIdx: nat)     // "The format '…' of operator '…' (number …) has not been set"
    | UnknownFormat(format: Format)                        // KeyError on the short-name table
    | MissingAttribute(className: string, key: string)     // AttributeError: the node has no such slot

  const FORMAT_H := "core/morphing/format.h"
  const UNCOMPR_H := "core/morphing/uncompr.h"
  const STATIC_VBP_H := "core/morphing/static_vbp.h"
  const DYNAMIC_VBP_H := "core/morphing/dynamic_vbp.h"

  /** The parts of a translation result the configurations read and write. */
  datatype Program = Program(headers: set<string>, prog: seq<Element>, resultCols: seq<string>)

  // ---------------------------------------------------------------------------
  // Collecting per-element results
  // ---------------------------------------------------------------------------

  /** All values when every result is Ok; otherwise the first error, as a loop that raises would give. */
  function Collect<T, E>(rs: seq<Result<T, E>>): (r: Result<seq<T>, E>)
    ensures r.Ok? <==> forall k :: 0 <= k < |rs| ==> rs[k].Ok?
    ensures r.Ok? ==> |r.value| == |rs| && forall k :: 0 <= k < |rs| ==> r.value[k] == rs[k].value
    ensures r.Err? ==> exists k :: 0 <= k < |rs| && rs[k] == Err(r.error) && forall j :: 0 <= j < k ==> rs[j].Ok?
  {
    if rs == [] then Ok([])
    else
      match rs[0]
      case Err(e) => Err(e)
      case Ok(x) =>
        match Collect(rs[1..])
        case Err(e) => Err(e)
        case Ok(xs) => Ok([x] + xs)
  }

  /** The error `Collect` reports is the one of the first result that is not Ok. */
  lemma CollectFirstError<T, E>(rs: seq<Result<T, E>>, i: nat)
    requires i < |rs| && rs[i].Err? && forall j :: 0 <= j < i ==> rs[j].Ok?
    ensures Collect(rs) == Err(rs[i].error)
  {
    var r := Collect(rs);
    var k :| 0 <= k < |rs| && rs[k] == Err(r.error) && forall j :: 0 <= j < k ==> rs[j].Ok?;
    assert !(k < i) && !(i < k);
  }

  // ---------------------------------------------------------------------------
  // Filling format slots
  // ---------------------------------------------------------------------------

  /** The node with every format slot set to `f`. */
  function Fill(o: Op, f: Format): (r: Op)
    ensures ColumnSlots(r) == ColumnSlots(o) && ClassName(r) == ClassName(o)
    ensures |FormatSlots(r)| == |FormatSlots(o)|
    ensures forall j :: 0 <= j < |FormatSlots(o)| ==> FormatSlots(r)[j] == FormatSlots(o)[j].(format := f)
  {
    WithFormats(o, seq(|FormatSlots(o)|, _ => f))
  }

  /** The `_configCompr_AllUncompr` step of one element: nodes get uncompr_f everywhere, lines stay. */
  function UncomprElement(e: Element): Element
  {
    match e
    case OpEl(o) => OpEl(Fill(o, Some(FORMAT_UNCOMPR)))
    case Line(_) => e
  }

  /** `_configCompr_AllUncompr`. */
  function AllUncompr(q: Program): Program
  {
    q.(headers := q.headers + {FORMAT_H, UNCOMPR_H},
       prog := seq(|q.prog|, k requires 0 <= k < |q.prog| => UncomprElement(q.prog[k])))
  }

  /**
   * After AllUncompr every format slot of every node is uncompr_f; columns,
   * node kinds, lines and result columns are as before, and the two headers
   * are added.
   */
  lemma AllUncomprSpec(q: Program)
    ensures var r := AllUncompr(q);
      && r.headers == q.headers + {FORMAT_H, UNCOMPR_H}
      && r.resultCols == q.resultCols
      && |r.prog| == |q.prog|
      && (forall k :: 0 <= k < |q.prog| && q.prog[k].Line? ==> r.prog[k] == q.prog[k])
      && (forall k :: 0 <= k < |q.prog| && q.prog[k].OpEl? ==>
            && r.prog[k].OpEl?
            && ColumnSlots(r.prog[k].node) == ColumnSlots(q.prog[k].node)
            && ClassName(r.prog[k].node) == ClassName(q.prog[k].node)
            && (forall s <- FormatSlots(r.prog[k].node) :: s.format == Some(FORMAT_UNCOMPR)))
  {
    var r := AllUncompr(q);
    forall k | 0 <= k < |q.prog| && q.prog[k].OpEl?
      ensures forall s <- FormatSlots(r.prog[k].node) :: s.format == Some(FORMAT_UNCOMPR)
    {
      var o := q.prog[k].node;
      var fs := FormatSlots(r.prog[k].node);
      forall s <- fs
        ensures s.format == Some(FORMAT_UNCOMPR)
      {
        var j :| 0 <= j < |fs| && fs[j] == s;
      }
    }
  }

  /** Running AllUncompr twice leaves the program as running it once. */
  lemma AllUncomprIdempotent(q: Program)
    ensures AllUncompr(AllUncompr(q)) == AllUncompr(q)
  {
    var once := AllUncompr(q);
    var twice := AllUncompr(once);
    forall k | 0 <= k < |q.prog|
      ensures twice.prog[k] == once.prog[k]
    {
      if q.prog[k].OpEl? {
        FillTwice(q.prog[k].node, Some(FORMAT_UNCOMPR));
      }
    }
    assert twice.headers == once.headers;
  }

  lemma FillTwice(o: Op, f: Format)
    ensures Fill(Fill(o, f), f) == Fill(o, f)
  {
    var a := Fill(o, f);
    var b := Fill(a, f);
    assert FormatSlots(b) == FormatSlots(a);
    SlotsDetermineNode(a, b);
  }

  /** A node is determined by its kind, its column slots and its format slots. */
  lemma SlotsDetermineNode(a: Op, b: Op)
    requires ClassName(a) == ClassName(b) && ColumnSlots(a) == ColumnSlots(b) && FormatSlots(a) == FormatSlots(b)
    requires (a.Select? && b.Select?) ==> a.op == b.op && a.val == b.val
    requires (a.CalcBinary? && b.CalcBinary?) ==> a.op == b.op
    ensures a == b
  {
    match a
    case Project(_, _, _, _, _, _) => assert ColumnSlots(a)[0] == ColumnSlots(b)[0];
    case Select(_, _, _, _, _, _) => assert ColumnSlots(a)[0] == ColumnSlots(b)[0];
    case Intersect(_, _, _, _, _, _) => assert ColumnSlots(a)[0] == ColumnSlots(b)[0];
    case Merge(_, _, _, _, _, _) => assert ColumnSlots(a)[0] == ColumnSlots(b)[0];
    case Join(_, _, _, _, _, _, _, _) => assert ColumnSlots(a)[0] == ColumnSlots(b)[0];
    case Nto1Join(_, _, _, _, _, _, _, _) => assert ColumnSlots(a)[0] == ColumnSlots(b)[0];
    case LeftSemiNto1Join(_, _, _, _, _, _) => assert ColumnSlots(a)[0] == ColumnSlots(b)[0];
    case CalcBinary(_, _, _, _, _, _, _) => assert ColumnSlots(a)[0] == ColumnSlots(b)[0];
    case SumWholeCol(_, _, _) => assert ColumnSlots(a)[0] == ColumnSlots(b)[0];
    case SumGrBased(_, _, _, _, _, _, _) => assert ColumnSlots(a)[0] == ColumnSlots(b)[0];
    case GroupUnary(_, _, _, _, _, _) => assert ColumnSlots(a)[0] == ColumnSlots(b)[0];
    case GroupBinary(_, _, _, _, _, _, _, _) => assert ColumnSlots(a)[0] == ColumnSlots(b)[0];
    case Morph(_, _, _) => assert ColumnSlots(a)[0] == ColumnSlots(b)[0];
  }

  // ---------------------------------------------------------------------------
  // The shape of a refill
  // ---------------------------------------------------------------------------

  /**
   * `e2` is `e` with the format of each slot `f` of a node `o` replaced by
   * `target(o, f)`: the kind, the column slots and the lines are unchanged.
   */
  ghost predicate Refilled(e: Element, e2: Element, target: (Op, Slot) -> Format)
  {
    match e
    case Line(_) => e2 == e
    case OpEl(o) =>
      && e2.OpEl?
      && ClassName(e2.node) == ClassName(o)
      && ColumnSlots(e2.node) == ColumnSlots(o)
      && |FormatSlots(e2.node)| == |FormatSlots(o)|
      && forall j :: 0 <= j < |FormatSlots(o)| ==>
           FormatSlots(e2.node)[j] == FormatSlots(o)[j].(format := target(o, FormatSlots(o)[j]))
  }

  /** The node is a Project; its class name says so. */
  lemma ProjectByName(o: Op)
    ensures o.Project? <==> ClassName(o) == "Project"
  {
  }

  /** Filling keeps which format slot describes which column. */
  lemma ColumnOfFill(o: Op, f: Format, j: nat)
    requires j < |FormatSlots(o)|
    ensures ColumnOf(Fill(o, f), FormatSlots(Fill(o, f))[j]) == ColumnOf(o, FormatSlots(o)[j])
  {
  }

  // ---------------------------------------------------------------------------
  // static_vbp_f
  // ---------------------------------------------------------------------------

  /** The classes whose every format slot AllStaticVBP sets to static_vbp_f. */
  const STATIC_KINDS: set<string> := {"GroupUnary", "LeftSemiNto1Join", "Nto1Join", "Project", "Select", "SumWholeCol"}

  predicate StaticKind(o: Op) { ClassName(o) in STATIC_KINDS }

  /**
   * The name of the column slot (among `cs`) a format slot describes:
   * "inDataF" describes "inDataCol". A node without that column slot raises
   * the AttributeError the lookup would.
   */
  function DescribedColumn(cls: string, cs: seq<Slot>, f: Slot): Result<string, ComprError>
  {
    match ColumnName(cs, f)
    case Some(n) => Ok(n)
    case None => Err(MissingAttribute(cls, Key(ColSlot(f.dir, f.role, ""))))
  }

  /** The name in the column slot of `cs` that format slot `f` describes, if there is one. */
  function ColumnName(cs: seq<Slot>, f: Slot): Option<string>
  {
    match FindSlot(cs, f.dir, f.role)
    case Some(ColSlot(_, _, n)) => Some(n)
    case _ => None
  }

  /** static_vbp_f at the maximum bit width of the column the slot describes. */
  function StaticFormat(cls: string, cs: seq<Slot>, f: Slot, maxBw: map<string, nat>, ps: ProcessingStyle): Result<Format, ComprError>
  {
    var col :- DescribedColumn(cls, cs, f);
    if col in maxBw then Ok(Some(MakeStaticVBP(maxBw[col], ps))) else Err(MissingBitWidth(col))
  }

  /** The static formats of the format slots `fs`, in slot order; the first failure raises. */
  function StaticFormatsOf(cls: string, cs: seq<Slot>, fs: seq<Slot>, maxBw: map<string, nat>, ps: ProcessingStyle): Result<seq<Format>, ComprError>
  {
    Collect(seq(|fs|, j requires 0 <= j < |fs| => StaticFormat(cls, cs, fs[j], maxBw, ps)))
  }

  /** The inner loop of `_configCompr_AllStaticVBP` over the format slots of one node. */
  function StaticFormats(o: Op, maxBw: map<string, nat>, ps: ProcessingStyle): Result<seq<Format>, ComprError>
  {
    StaticFormatsOf(ClassName(o), ColumnSlots(o), FormatSlots(o), maxBw, ps)
  }

  /** The AllStaticVBP step of one element of the uncompressed program. */
  function StaticElement(e: Element, maxBw: map<string, nat>, ps: ProcessingStyle): Result<Element, ComprError>
  {
    match e
    case OpEl(o) =>
      if StaticKind(o) then
        var fs :- StaticFormats(o, maxBw, ps);
        Ok(OpEl(WithFormats(o, fs)))
      else Ok(e)
    case Line(_) => Ok(e)
  }

  /** `_configCompr_AllStaticVBP`: AllUncompr, then static_vbp_f for the kinds that support it. */
  function AllStaticVBP(q: Program, maxBw: map<string, nat>, ps: ProcessingStyle): Result<Program, ComprError>
  {
    var u := AllUncompr(q);
    var prog :- Collect(seq(|u.prog|, k requires 0 <= k < |u.prog| => StaticElement(u.prog[k], maxBw, ps)));
    Ok(u.(headers := u.headers + {STATIC_VBP_H}, prog := prog))
  }

  /** Every format slot in `fs` describes a column of `cs` whose bit width is known. */
  ghost predicate WidthsKnown(cs: seq<Slot>, fs: seq<Slot>, maxBw: map<string, nat>)
  {
    forall f <- fs :: ColumnName(cs, f).Some? && ColumnName(cs, f).value in maxBw
  }

  /** A static-kind node has bit widths for every column its formats describe. */
  ghost predicate StaticReady(o: Op, maxBw: map<string, nat>)
  {
    StaticKind(o) ==> WidthsKnown(ColumnSlots(o), FormatSlots(o), maxBw)
  }

  /** static_vbp_f at the bit width of the column slot `f` describes (None without one). */
  function StaticTarget(maxBw: map<string, nat>, ps: ProcessingStyle, cs: seq<Slot>, f: Slot): Format
  {
    match ColumnName(cs, f)
    case Some(n) => if n in maxBw then Some(MakeStaticVBP(maxBw[n], ps)) else None
    case None => None
  }

  /** The format AllStaticVBP gives slot `f` of node `o` when it succeeds. */
  function StaticConfigTarget(maxBw: map<string, nat>, ps: ProcessingStyle, o: Op, f: Slot): Format
  {
    if StaticKind(o) then StaticTarget(maxBw, ps, ColumnSlots(o), f) else Some(FORMAT_UNCOMPR)
  }

  /**
   * The static formats of slots that all describe a column fail exactly when
   * one of those columns has no bit width, and then name such a column;
   * otherwise slot j gets static_vbp_f at the bit width of its column.
   */
  lemma StaticFormatsOfSpec(cls: string, cs: seq<Slot>, fs: seq<Slot>, maxBw: map<string, nat>, ps: ProcessingStyle)
    requires forall f <- fs :: ColumnName(cs, f).Some?
    ensures var r := StaticFormatsOf(cls, cs, fs, maxBw, ps);
      && (r.Ok? <==> WidthsKnown(cs, fs, maxBw))
      && (r.Err? ==> r.error.MissingBitWidth? && r.error.column !in maxBw)
      && (r.Ok? ==> |r.value| == |fs| && forall j :: 0 <= j < |fs| ==> r.value[j] == StaticTarget(maxBw, ps, cs, fs[j]))
  {
    var rs := seq(|fs|, j requires 0 <= j < |fs| => StaticFormat(cls, cs, fs[j], maxBw, ps));
    forall j | 0 <= j < |fs|
      ensures var c := ColumnName(cs, fs[j]).value;
        rs[j] == if c in maxBw then Ok(StaticTarget(maxBw, ps, cs, fs[j])) else Err(MissingBitWidth(c))
    {
      assert fs[j] in fs;
    }
    if !WidthsKnown(cs, fs, maxBw) {
      var f :| f in fs && ColumnName(cs, f).value !in maxBw;
      var j :| 0 <= j < |fs| && fs[j] == f;
      assert rs[j].Err?;
    }
  }

  /** Every format slot of a node names the column it describes. */
  lemma ColumnsNamed(o: Op)
    ensures forall f <- FormatSlots(o) :: ColumnName(ColumnSlots(o), f).Some?
  {
    OperatorFacts.FormatsDescribeColumns(o);
  }

  /** Only the direction and role of the format slots matter to their static formats. */
  lemma StaticFormatsOfShape(cls: string, cs: seq<Slot>, fs: seq<Slot>, gs: seq<Slot>, maxBw: map<string, nat>, ps: ProcessingStyle)
    requires |fs| == |gs| && forall j :: 0 <= j < |fs| ==> fs[j].dir == gs[j].dir && fs[j].role == gs[j].role
    ensures StaticFormatsOf(cls, cs, fs, maxBw, ps) == StaticFormatsOf(cls, cs, gs, maxBw, ps)
  {
    assert seq(|fs|, j requires 0 <= j < |fs| => StaticFormat(cls, cs, fs[j], maxBw, ps))
        == seq(|gs|, j requires 0 <= j < |gs| => StaticFormat(cls, cs, gs[j], maxBw, ps));
  }

  /** One element of the input program under AllUncompr and then the static step. */
  lemma StaticElementSpec(e: Element, maxBw: map<string, nat>, ps: ProcessingStyle)
    ensures var r := StaticElement(UncomprElement(e), maxBw, ps);
      && (r.Ok? <==> (e.OpEl? ==> StaticReady(e.node, maxBw)))
      && (r.Err? ==> r.error.MissingBitWidth? && r.error.column !in maxBw)
      && (r.Ok? ==> Refilled(e, r.value, (o, f) => StaticConfigTarget(maxBw, ps, o, f)))
  {
    if e.OpEl? {
      if StaticKind(e.node) {
        StaticNodeSpec(e.node, maxBw, ps);
      } else {
        assert !StaticKind(Fill(e.node, Some(FORMAT_UNCOMPR)));
      }
    }
  }

  /** A static-kind node under AllUncompr and then the static step. */
  lemma StaticNodeSpec(o: Op, maxBw: map<string, nat>, ps: ProcessingStyle)
    requires StaticKind(o)
    ensures var u := Fill(o, Some(FORMAT_UNCOMPR));
      var r := StaticFormats(u, maxBw, ps);
      && (r.Ok? <==> WidthsKnown(ColumnSlots(o), FormatSlots(o), maxBw))
      && (r.Err? ==> r.error.MissingBitWidth? && r.error.column !in maxBw)
      && (r.Ok? ==> |r.value| == |FormatSlots(o)| && forall j :: 0 <= j < |FormatSlots(o)| ==>
            FormatSlots(WithFormats(u, r.value))[j] == FormatSlots(o)[j].(format := StaticConfigTarget(maxBw, ps, o, FormatSlots(o)[j])))
  {
    var u := Fill(o, Some(FORMAT_UNCOMPR));
    var cls, cs, fs := ClassName(o), ColumnSlots(o), FormatSlots(o);
    ColumnsNamed(o);
    StaticFormatsOfShape(cls, cs, FormatSlots(u), fs, maxBw, ps);
    StaticFormatsOfSpec(cls, cs, fs, maxBw, ps);
  }

  /**
   * `_configCompr_AllStaticVBP` succeeds exactly when every static-kind node
   * has bit widths for the columns its formats describe, and otherwise
   * raises on a column without one; on success it adds the three headers and
   * gives static-kind nodes static_vbp_f at each described column's bit
   * width and every other node uncompr_f.
   */
  lemma AllStaticVBPSpec(q: Program, maxBw: map<string, nat>, ps: ProcessingStyle)
    ensures var r := AllStaticVBP(q, maxBw, ps);
      && (r.Ok? <==> forall k :: 0 <= k < |q.prog| && q.prog[k].OpEl? ==> StaticReady(q.prog[k].node, maxBw))
      && (r.Err? ==> r.error.MissingBitWidth? && r.error.column !in maxBw)
      && (r.Ok? ==>
            && r.value.headers == q.headers + {FORMAT_H, UNCOMPR_H, STATIC_VBP_H}
            && r.value.resultCols == q.resultCols
            && |r.value.prog| == |q.prog|
            && forall k :: 0 <= k < |q.prog| ==>
                 Refilled(q.prog[k], r.value.prog[k], (o, f) => StaticConfigTarget(maxBw, ps, o, f)))
  {
    var u := AllUncompr(q);
    var rs := seq(|u.prog|, k requires 0 <= k < |u.prog| => StaticElement(u.prog[k], maxBw, ps));
    forall k | 0 <= k < |q.prog|
      ensures rs[k].Ok? <==> (q.prog[k].OpEl? ==> StaticReady(q.prog[k].node, maxBw))
      ensures rs[k].Err? ==> rs[k].error.MissingBitWidth? && rs[k].error.column !in maxBw
      ensures rs[k].Ok? ==> Refilled(q.prog[k], rs[k].value, (o, f) => StaticConfigTarget(maxBw, ps, o, f))
    {
      StaticElementSpec(q.prog[k], maxBw, ps);
    }
  }
}
