/**
 * The morph rewrite run after a compression configuration: before each node,
 * a Morph converts every input column into the format the node expects,
 * under a new name built from the column's name and the format's short
 * name; a Morph is emitted only the first time its name occurs. After the
 * program, every result column is converted to uncompr_f.
 */
module Morphs {
  import opened Wrappers
  import opened Operators
  import opened ComprNames
  import opened ComprConfigs
  import Strings

  const DECOMPRESS_COMMENT := "// Decompress the output columns, if necessary."

  // ---------------------------------------------------------------------------
  // New column names
  // ---------------------------------------------------------------------------

  /**
   * Whether the rewrite renames column slot c: every input column is
   * renamed, except the extents column of the group-based sum (`sumGr`),
   * whose data that operator never reads (it needs only its length).
   */
  predicate SlotRewritten(sumGr: bool, c: Slot)
  {
    c.dir == In && !(sumGr && c.role == Ext)
  }

  predicate Rewritten(o: Op, c: Slot) { SlotRewritten(o.SumGrBased?, c) }

  /** The name of a column in format f: dots become underscores, then "__" and f's short name. */
  function NewName(name: string, f: string, table: map<string, string>): string
    requires f in table
  {
    Strings.ReplaceChar(name, '.', '_') + "__" + table[f]
  }

  /** `makeNewVarName`: the short-name lookup fails for an unset format or one the table lacks. */
  function NewVarName(name: string, format: Format, table: map<string, string>): (r: Result<string, ComprError>)
    ensures r.Ok? <==> format.Some? && format.value in table
    ensures r.Err? ==> r.error == UnknownFormat(format)
    ensures r.Ok? ==> r.value == NewName(name, format.value, table)
  {
    match format
    case Some(f) => if f in table then Ok(NewName(name, f, table)) else Err(UnknownFormat(format))
    case None => Err(UnknownFormat(format))
  }

  /**
   * One column gets the same new name in two formats exactly when their
   * short names agree, so a column is converted once per short name.
   */
  lemma NewNameSameColumn(name: string, f: string, g: string, table: map<string, string>)
    requires f in table && g in table
    ensures NewName(name, f, table) == NewName(name, g, table) <==> table[f] == table[g]
  {
    var stem := Strings.ReplaceChar(name, '.', '_') + "__";
    if NewName(name, f, table) == NewName(name, g, table) {
      assert table[f] == NewName(name, f, table)[|stem|..];
      assert table[g] == NewName(name, g, table)[|stem|..];
    }
  }

  /** A new name has no dot when the short name has none: it is usable as a C++ identifier piece. */
  lemma NewNameHasNoDot(name: string, f: string, table: map<string, string>)
    requires f in table && '.' !in table[f]
    ensures '.' !in NewName(name, f, table)
  {
    var r := NewName(name, f, table);
    var stem := Strings.ReplaceChar(name, '.', '_');
    forall i | 0 <= i < |r|
      ensures r[i] != '.'
    {
      if i >= |stem| + 2 {
        assert r[i] == table[f][i - |stem| - 2];
      }
    }
  }

  /** The format the rewrite reads for column slot c (`inDataF` for `inDataCol`); None when fs has no such slot. */
  function FormatFor(fs: seq<Slot>, c: Slot): Format
  {
    match FindSlot(fs, c.dir, c.role)
    case Some(FmtSlot(_, _, f)) => f
    case _ => None
  }

  /** The rewrite can rename slot c: its format slot exists, is set and has a short name. */
  predicate CanRename(sumGr: bool, fs: seq<Slot>, c: Slot, table: map<string, string>)
  {
    SlotRewritten(sumGr, c) ==> FormatFor(fs, c).Some? && FormatFor(fs, c).value in table
  }

  /** The name slot c carries after the rewrite. */
  function NewSlotName(sumGr: bool, fs: seq<Slot>, c: Slot, table: map<string, string>): string
    requires c.ColSlot? && CanRename(sumGr, fs, c, table)
  {
    if SlotRewritten(sumGr, c) then NewName(c.name, FormatFor(fs, c).value, table) else c.name
  }

  predicate Renamable(o: Op, c: Slot, table: map<string, string>)
  {
    CanRename(o.SumGrBased?, FormatSlots(o), c, table)
  }

  function RenameSlot(o: Op, c: Slot, table: map<string, string>): string
    requires c.ColSlot? && Renamable(o, c, table)
  {
    NewSlotName(o.SumGrBased?, FormatSlots(o), c, table)
  }

  predicate NodeRenamable(o: Op, table: map<string, string>)
  {
    forall c <- ColumnSlots(o) :: Renamable(o, c, table)
  }

  // ---------------------------------------------------------------------------
  // The rewrite
  // ---------------------------------------------------------------------------

  /** The rewrite's running state: the new program so far, and the names its Morphs introduced, in order. */
  datatype Acc = Acc(prog: seq<Element>, seen: seq<string>)

  predicate IsMorph(e: Element) { e.OpEl? && e.node.Morph? }

  /** Emits Morph(nv, src, fmt) unless a Morph already introduced nv. */
  function Emit(acc: Acc, nv: string, src: string, fmt: Format): Acc
  {
    if nv in acc.seen then acc
    else Acc(acc.prog + [OpEl(Morph(nv, src, fmt))], acc.seen + [nv])
  }

  /** The column slots and format slots of one node, as the slot loop sees them. */
  predicate SlotsShape(cs: seq<Slot>, fs: seq<Slot>)
  {
    (forall c <- cs :: c.ColSlot?) && (forall f <- fs :: f.FmtSlot?)
  }

  /**
   * The slot loop over the column slots cs of a node of class `cls`, from
   * index j on: for each renamed slot it looks up the format slot among fs,
   * builds the new name, and emits a Morph unless the name was seen.
   */
  function EmitSlots(sumGr: bool, cls: string, cs: seq<Slot>, fs: seq<Slot>, j: nat,
                     table: map<string, string>, acc: Acc): Result<Acc, ComprError>
    requires j <= |cs| && SlotsShape(cs, fs)
    decreases |cs| - j
  {
    if j == |cs| then Ok(acc)
    else
      var c := cs[j];
      if !SlotRewritten(sumGr, c) then EmitSlots(sumGr, cls, cs, fs, j + 1, table, acc)
      else
        match FindSlot(fs, c.dir, c.role)
        case None => Err(MissingAttribute(cls, Key(FmtSlot(c.dir, c.role, None))))
        case Some(f) =>
          match NewVarName(c.name, f.format, table)
          case Err(e) => Err(e)
          case Ok(nv) => EmitSlots(sumGr, cls, cs, fs, j + 1, table, Emit(acc, nv, c.name, f.format))
  }

  /** The slot loop over all column slots of node o. */
  function EmitNode(o: Op, table: map<string, string>, acc: Acc): Result<Acc, ComprError>
  {
    EmitSlots(o.SumGrBased?, ClassName(o), ColumnSlots(o), FormatSlots(o), 0, table, acc)
  }

  /** The column names of node o after the rewrite; a slot that cannot be renamed keeps its name. */
  function NewNames(o: Op, table: map<string, string>): (r: seq<string>)
    ensures |r| == |ColumnSlots(o)|
  {
    var cs := ColumnSlots(o);
    seq(|cs|, i requires 0 <= i < |cs| => if Renamable(o, cs[i], table) then RenameSlot(o, cs[i], table) else cs[i].name)
  }

  /** One element of the body: a line is copied; a node gets its Morphs and then its renamed self. */
  function MorphElement(e: Element, table: map<string, string>, acc: Acc): Result<Acc, ComprError>
  {
    match e
    case Line(_) => Ok(Acc(acc.prog + [e], acc.seen))
    case OpEl(o) =>
      match EmitNode(o, table, acc)
      case Err(err) => Err(err)
      case Ok(a) => Ok(Acc(a.prog + [Renamed(e, table)], a.seen))
  }

  /** Element e as it appears in the rewritten program: a node with its new column names. */
  function Renamed(e: Element, table: map<string, string>): Element
  {
    match e
    case Line(_) => e
    case OpEl(o) => OpEl(WithColumns(o, NewNames(o, table)))
  }

  /** The first k elements of p, renamed. */
  function RenamedPrefix(p: seq<Element>, k: nat, table: map<string, string>): (r: seq<Element>)
    requires k <= |p|
    ensures |r| == k && forall i :: 0 <= i < k ==> r[i] == Renamed(p[i], table)
  {
    if k == 0 then [] else RenamedPrefix(p, k - 1, table) + [Renamed(p[k - 1], table)]
  }

  /** The rewrite of the first k elements, or the first error it meets. */
  function MorphPrefix(p: seq<Element>, k: nat, table: map<string, string>): Result<Acc, ComprError>
    requires k <= |p|
  {
    if k == 0 then Ok(Acc([], []))
    else
      match MorphPrefix(p, k - 1, table)
      case Err(e) => Err(e)
      case Ok(acc) => MorphElement(p[k - 1], table, acc)
  }

  /** The Morph that converts result column `col` to uncompr_f. */
  function ResultMorph(col: string, table: map<string, string>): Element
    requires FORMAT_UNCOMPR in table
  {
    OpEl(Morph(NewName(col, FORMAT_UNCOMPR, table), col, Some(FORMAT_UNCOMPR)))
  }

  /** The Morphs of the result columns, one per column, and the new result column names. */
  function ResultMorphs(cols: seq<string>, table: map<string, string>): Result<(seq<Element>, seq<string>), ComprError>
  {
    if cols == [] then Ok(([], []))
    else if FORMAT_UNCOMPR !in table then Err(UnknownFormat(Some(FORMAT_UNCOMPR)))
    else
      Ok((seq(|cols|, i requires 0 <= i < |cols| => ResultMorph(cols[i], table)),
          seq(|cols|, i requires 0 <= i < |cols| => NewName(cols[i], FORMAT_UNCOMPR, table))))
  }

  /** `insertMorphs`, with `table` the short-name table. */
  function InsertMorphs(q: Program, table: map<string, string>): Result<Program, ComprError>
  {
    match MorphPrefix(q.prog, |q.prog|, table)
    case Err(e) => Err(e)
    case Ok(body) =>
      match ResultMorphs(q.resultCols, table)
      case Err(e) => Err(e)
      case Ok(tail) => Ok(q.(prog := body.prog + [Line(DECOMPRESS_COMMENT)] + tail.0, resultCols := tail.1))
  }

  // ---------------------------------------------------------------------------
  // Vocabulary of the properties
  // ---------------------------------------------------------------------------

  /** The output names of the Morphs of p, in order. */
  function Outputs(p: seq<Element>): seq<string>
  {
    if p == [] then []
    else Outputs(p[..|p| - 1]) + (if IsMorph(p[|p| - 1]) then [p[|p| - 1].node.outDataCol] else [])
  }

  /** p without its Morphs. */
  function Skeleton(p: seq<Element>): seq<Element>
  {
    if p == [] then []
    else Skeleton(p[..|p| - 1]) + (if IsMorph(p[|p| - 1]) then [] else [p[|p| - 1]])
  }

  lemma Snoc(p: seq<Element>, e: Element)
    ensures Outputs(p + [e]) == Outputs(p) + (if IsMorph(e) then [e.node.outDataCol] else [])
    ensures Skeleton(p + [e]) == Skeleton(p) + (if IsMorph(e) then [] else [e])
  {
    assert (p + [e])[..|p|] == p;
  }

  predicate NoDups(s: seq<string>)
  {
    forall i, j :: 0 <= i < j < |s| ==> s[i] != s[j]
  }

  /** A Morph's output is the new name of its input in its format. */
  predicate MorphNamed(e: Element, table: map<string, string>)
  {
    IsMorph(e) ==> NewVarName(e.node.inDataCol, e.node.outDataF, table) == Ok(e.node.outDataCol)
  }

  /** Some Morph among the first k elements of p outputs `name`. */
  ghost predicate MorphBefore(p: seq<Element>, k: nat, name: string)
    requires k <= |p|
  {
    exists i :: 0 <= i < k && IsMorph(p[i]) && p[i].node.outDataCol == name
  }

  /** Every renamed input column of element k of p is the output of a Morph before it. */
  ghost predicate FedAt(p: seq<Element>, k: nat)
    requires k < |p|
  {
    p[k].OpEl? && !p[k].node.Morph? ==>
      forall j :: 0 <= j < |ColumnSlots(p[k].node)| && Rewritten(p[k].node, ColumnSlots(p[k].node)[j]) ==>
        MorphBefore(p, k, ColumnSlots(p[k].node)[j].name)
  }

  /** The invariant the rewrite keeps on its running state. */
  ghost predicate WellFed(acc: Acc, table: map<string, string>)
  {
    && acc.seen == Outputs(acc.prog)
    && NoDups(acc.seen)
    && (forall i :: 0 <= i < |acc.prog| ==> MorphNamed(acc.prog[i], table))
    && (forall k :: 0 <= k < |acc.prog| ==> FedAt(acc.prog, k))
  }

  /**
   * Element e2 is e with each renamed input column given its new name:
   * lines are equal; a node keeps its class, format slots, parameters and
   * every other column name.
   */
  ghost predicate RenamedFrom(e2: Element, e: Element, table: map<string, string>)
  {
    && (e.Line? ==> e2 == e)
    && (e.OpEl? ==>
         && e2.OpEl? && ClassName(e2.node) == ClassName(e.node) && FormatSlots(e2.node) == FormatSlots(e.node)
         && ((e.node.Select? || e.node.CalcBinary?) ==> e2.node.op == e.node.op)
         && (e.node.Select? ==> e2.node.val == e.node.val)
         && NodeRenamable(e.node, table)
         && |ColumnSlots(e2.node)| == |ColumnSlots(e.node)|
         && forall j :: 0 <= j < |ColumnSlots(e.node)| ==>
              ColumnSlots(e2.node)[j] == ColumnSlots(e.node)[j].(name := RenameSlot(e.node, ColumnSlots(e.node)[j], table)))
  }

  // ---------------------------------------------------------------------------
  // Facts about one node
  // ---------------------------------------------------------------------------

  lemma SameClassSameKind(a: Op, b: Op)
    requires ClassName(a) == ClassName(b)
    ensures a.SumGrBased? == b.SumGrBased? && a.Morph? == b.Morph?
  {
  }

  /** A Morph cannot be rewritten: it has no `inDataF` for its `inDataCol`. */
  lemma MorphNotRenamable(o: Op, table: map<string, string>)
    requires o.Morph?
    ensures !Renamable(o, ColumnSlots(o)[1], table)
  {
  }

  /** Every other node has an input column the rewrite renames. */
  lemma HasRenamedInput(o: Op)
    requires !o.Morph?
    ensures exists j :: 0 <= j < |ColumnSlots(o)| && Rewritten(o, ColumnSlots(o)[j])
  {
    var cs := ColumnSlots(o);
    if o.SumGrBased? {
      assert Rewritten(o, cs[1]);
    } else {
      assert Rewritten(o, cs[|cs| - 1]);
    }
  }

  /** The slot loop succeeds exactly when every slot from j on can be renamed. */
  lemma {:induction false} EmitSlotsOk(sumGr: bool, cls: string, cs: seq<Slot>, fs: seq<Slot>, j: nat,
                                       table: map<string, string>, acc: Acc)
    requires j <= |cs| && SlotsShape(cs, fs)
    ensures var r := EmitSlots(sumGr, cls, cs, fs, j, table, acc);
      && (r.Ok? <==> forall i :: j <= i < |cs| ==> CanRename(sumGr, fs, cs[i], table))
      && (r.Err? ==> r.error.UnknownFormat? || r.error.MissingAttribute?)
    decreases |cs| - j
  {
    if j < |cs| {
      var c := cs[j];
      if !SlotRewritten(sumGr, c) {
        EmitSlotsOk(sumGr, cls, cs, fs, j + 1, table, acc);
      } else {
        match FindSlot(fs, c.dir, c.role)
        case None =>
        case Some(f) =>
          match NewVarName(c.name, f.format, table)
          case Err(e) =>
          case Ok(nv) =>
            EmitSlotsOk(sumGr, cls, cs, fs, j + 1, table, Emit(acc, nv, c.name, f.format));
      }
    }
  }

  /** The running state's names are its Morphs' outputs, without repetition. */
  ghost predicate WellSeen(acc: Acc)
  {
    acc.seen == Outputs(acc.prog) && NoDups(acc.seen)
  }

  /**
   * a2 continues a: it adds only Morphs, each named after its input and
   * format, adds to the seen names, and keeps them the Morphs' outputs.
   */
  ghost predicate Extends(a: Acc, a2: Acc, table: map<string, string>)
  {
    && a.seen <= a2.seen
    && |a.prog| <= |a2.prog| && a2.prog[..|a.prog|] == a.prog
    && (forall i :: |a.prog| <= i < |a2.prog| ==> IsMorph(a2.prog[i]) && MorphNamed(a2.prog[i], table))
    && Skeleton(a2.prog) == Skeleton(a.prog)
    && (WellSeen(a) ==> WellSeen(a2))
  }

  lemma ExtendsTrans(a: Acc, b: Acc, c: Acc, table: map<string, string>)
    requires Extends(a, b, table) && Extends(b, c, table)
    ensures Extends(a, c, table)
  {
    assert c.prog[..|a.prog|] == c.prog[..|b.prog|][..|a.prog|];
    forall i | |a.prog| <= i < |b.prog|
      ensures c.prog[i] == b.prog[i]
    {
      assert c.prog[..|b.prog|][i] == c.prog[i];
    }
  }

  lemma EmitExtends(acc: Acc, nv: string, src: string, fmt: Format, table: map<string, string>)
    requires NewVarName(src, fmt, table) == Ok(nv)
    ensures Extends(acc, Emit(acc, nv, src, fmt), table)
    ensures nv in Emit(acc, nv, src, fmt).seen
  {
    if nv !in acc.seen {
      var e := OpEl(Morph(nv, src, fmt));
      Snoc(acc.prog, e);
      assert (acc.prog + [e])[..|acc.prog|] == acc.prog;
      if WellSeen(acc) {
        assert Outputs(acc.prog + [e]) == acc.seen + [nv];
      }
    } else {
      assert acc.prog[..|acc.prog|] == acc.prog;
    }
  }

  /** What the slot loop adds to the running state: only Morphs named after their inputs and formats. */
  lemma {:induction false} EmitSlotsExtends(sumGr: bool, cls: string, cs: seq<Slot>, fs: seq<Slot>, j: nat,
                                            table: map<string, string>, acc: Acc)
    requires j <= |cs| && SlotsShape(cs, fs)
    requires EmitSlots(sumGr, cls, cs, fs, j, table, acc).Ok?
    ensures Extends(acc, EmitSlots(sumGr, cls, cs, fs, j, table, acc).value, table)
    decreases |cs| - j
  {
    if j == |cs| {
      assert acc.prog[..|acc.prog|] == acc.prog;
    } else {
      var c := cs[j];
      if !SlotRewritten(sumGr, c) {
        EmitSlotsExtends(sumGr, cls, cs, fs, j + 1, table, acc);
      } else {
        match FindSlot(fs, c.dir, c.role)
        case Some(f) =>
          var nv := NewVarName(c.name, f.format, table).value;
          var acc1 := Emit(acc, nv, c.name, f.format);
          EmitExtends(acc, nv, c.name, f.format, table);
          EmitSlotsExtends(sumGr, cls, cs, fs, j + 1, table, acc1);
          ExtendsTrans(acc, acc1, EmitSlots(sumGr, cls, cs, fs, j, table, acc).value, table);
      }
    }
  }

  /** After the slot loop, every slot from j on that it renames has its new name among the seen names. */
  lemma {:induction false} EmitSlotsSeen(sumGr: bool, cls: string, cs: seq<Slot>, fs: seq<Slot>, j: nat,
                                         table: map<string, string>, acc: Acc)
    requires j <= |cs| && SlotsShape(cs, fs)
    requires EmitSlots(sumGr, cls, cs, fs, j, table, acc).Ok?
    ensures forall i :: j <= i < |cs| ==> CanRename(sumGr, fs, cs[i], table)
    ensures forall i :: j <= i < |cs| && SlotRewritten(sumGr, cs[i]) ==>
      NewSlotName(sumGr, fs, cs[i], table) in EmitSlots(sumGr, cls, cs, fs, j, table, acc).value.seen
    decreases |cs| - j
  {
    EmitSlotsOk(sumGr, cls, cs, fs, j, table, acc);
    if j < |cs| {
      var c := cs[j];
      if !SlotRewritten(sumGr, c) {
        EmitSlotsSeen(sumGr, cls, cs, fs, j + 1, table, acc);
      } else {
        match FindSlot(fs, c.dir, c.role)
        case Some(f) =>
          var nv := NewVarName(c.name, f.format, table).value;
          var acc1 := Emit(acc, nv, c.name, f.format);
          EmitExtends(acc, nv, c.name, f.format, table);
          EmitSlotsSeen(sumGr, cls, cs, fs, j + 1, table, acc1);
          EmitSlotsExtends(sumGr, cls, cs, fs, j + 1, table, acc1);
          assert nv == NewSlotName(sumGr, fs, c, table);
      }
    }
  }

  // ---------------------------------------------------------------------------
  // Facts about one element and about the body
  // ---------------------------------------------------------------------------

  lemma {:induction false} InOutputs(p: seq<Element>, name: string)
    requires name in Outputs(p)
    ensures MorphBefore(p, |p|, name)
    decreases |p|
  {
    var q := p[..|p| - 1];
    if name in Outputs(q) {
      InOutputs(q, name);
      var i :| 0 <= i < |q| && IsMorph(q[i]) && q[i].node.outDataCol == name;
      assert p[i] == q[i];
    } else {
      assert IsMorph(p[|p| - 1]) && p[|p| - 1].node.outDataCol == name;
    }
  }

  /** Facts about an element that a longer program keeps. */
  lemma FedAtPrefix(p: seq<Element>, p2: seq<Element>, k: nat, table: map<string, string>)
    requires |p| <= |p2| && p2[..|p|] == p && k < |p|
    ensures FedAt(p2, k) <==> FedAt(p, k)
    ensures MorphNamed(p2[k], table) <==> MorphNamed(p[k], table)
  {
    assert p2[k] == p[k];
    forall name
      ensures MorphBefore(p2, k, name) <==> MorphBefore(p, k, name)
    {
      if MorphBefore(p, k, name) {
        var i :| 0 <= i < k && IsMorph(p[i]) && p[i].node.outDataCol == name;
        assert p2[i] == p[i];
      }
      if MorphBefore(p2, k, name) {
        var i :| 0 <= i < k && IsMorph(p2[i]) && p2[i].node.outDataCol == name;
        assert p2[i] == p[i];
      }
    }
  }

  /** A renamed node keeps its kind, and the rewrite judges its slots as it judged the original's. */
  lemma RenamedNode(o: Op, table: map<string, string>)
    requires NodeRenamable(o, table)
    ensures var n := WithColumns(o, NewNames(o, table));
      && !n.Morph? == !o.Morph?
      && RenamedFrom(OpEl(n), OpEl(o), table)
      && forall j :: 0 <= j < |ColumnSlots(n)| ==>
           Rewritten(n, ColumnSlots(n)[j]) == Rewritten(o, ColumnSlots(o)[j])
  {
    var n := WithColumns(o, NewNames(o, table));
    SameClassSameKind(n, o);
    var cs := ColumnSlots(o);
    forall j | 0 <= j < |cs|
      ensures Renamable(o, cs[j], table)
    {
      assert cs[j] in cs;
    }
  }

  /** A node the rewrite passes is renamable and is not a Morph. */
  lemma EmitNodeOk(o: Op, table: map<string, string>, acc: Acc)
    ensures EmitNode(o, table, acc).Ok? <==> NodeRenamable(o, table)
    ensures EmitNode(o, table, acc).Ok? ==> !o.Morph?
    ensures EmitNode(o, table, acc).Err? ==> EmitNode(o, table, acc).error.UnknownFormat? || EmitNode(o, table, acc).error.MissingAttribute?
  {
    var cs := ColumnSlots(o);
    EmitSlotsOk(o.SumGrBased?, ClassName(o), cs, FormatSlots(o), 0, table, acc);
    if NodeRenamable(o, table) {
      forall i | 0 <= i < |cs|
        ensures Renamable(o, cs[i], table)
      {
        assert cs[i] in cs;
      }
    }
    if o.Morph? {
      MorphNotRenamable(o, table);
    }
  }

  /** A node appended after Morphs that output all its renamed inputs is fed. */
  lemma FedByOutputs(p: seq<Element>, n: Op)
    requires forall j :: 0 <= j < |ColumnSlots(n)| && Rewritten(n, ColumnSlots(n)[j]) ==> ColumnSlots(n)[j].name in Outputs(p)
    ensures FedAt(p + [OpEl(n)], |p|)
  {
    var p2 := p + [OpEl(n)];
    forall j | 0 <= j < |ColumnSlots(n)| && Rewritten(n, ColumnSlots(n)[j])
      ensures MorphBefore(p2, |p|, ColumnSlots(n)[j].name)
    {
      var name := ColumnSlots(n)[j].name;
      InOutputs(p, name);
      var i :| 0 <= i < |p| && IsMorph(p[i]) && p[i].node.outDataCol == name;
      assert p2[i] == p[i];
    }
  }

  /** The renamed node is fed: each of its renamed inputs is the output of a Morph before it. */
  lemma NewNodeFed(o: Op, table: map<string, string>, acc: Acc)
    requires WellSeen(acc) && EmitNode(o, table, acc).Ok?
    ensures var a := EmitNode(o, table, acc).value;
      FedAt(a.prog + [OpEl(WithColumns(o, NewNames(o, table)))], |a.prog|)
  {
    var cs := ColumnSlots(o);
    var a := EmitNode(o, table, acc).value;
    EmitNodeOk(o, table, acc);
    EmitSlotsSeen(o.SumGrBased?, ClassName(o), cs, FormatSlots(o), 0, table, acc);
    EmitSlotsExtends(o.SumGrBased?, ClassName(o), cs, FormatSlots(o), 0, table, acc);
    var n := WithColumns(o, NewNames(o, table));
    RenamedNode(o, table);
    forall j | 0 <= j < |ColumnSlots(n)| && Rewritten(n, ColumnSlots(n)[j])
      ensures ColumnSlots(n)[j].name in Outputs(a.prog)
    {
      assert ColumnSlots(n)[j].name == RenameSlot(o, cs[j], table);
    }
    FedByOutputs(a.prog, n);
  }

  /** What the rewrite of a node adds: Morphs, then the renamed node. */
  lemma NodeAppends(o: Op, table: map<string, string>, acc: Acc)
    requires MorphElement(OpEl(o), table, acc).Ok?
    ensures var a := EmitNode(o, table, acc).value;
      var a2 := MorphElement(OpEl(o), table, acc).value;
      && Extends(acc, a, table)
      && a2 == Acc(a.prog + [OpEl(WithColumns(o, NewNames(o, table)))], a.seen)
      && !WithColumns(o, NewNames(o, table)).Morph?
      && RenamedFrom(OpEl(WithColumns(o, NewNames(o, table))), OpEl(o), table)
  {
    EmitNodeOk(o, table, acc);
    EmitSlotsExtends(o.SumGrBased?, ClassName(o), ColumnSlots(o), FormatSlots(o), 0, table, acc);
    RenamedNode(o, table);
  }

  /** The rewrite of a node extends the program by Morphs and the renamed node. */
  lemma NodeSkeleton(o: Op, table: map<string, string>, acc: Acc)
    requires MorphElement(OpEl(o), table, acc).Ok?
    ensures var a2 := MorphElement(OpEl(o), table, acc).value;
      && |acc.prog| < |a2.prog| && a2.prog[..|acc.prog|] == acc.prog
      && Skeleton(a2.prog) == Skeleton(acc.prog) + [Renamed(OpEl(o), table)]
  {
    var a := EmitNode(o, table, acc).value;
    NodeAppends(o, table, acc);
    var e := OpEl(WithColumns(o, NewNames(o, table)));
    var p2 := a.prog + [e];
    Snoc(a.prog, e);
    assert p2[..|acc.prog|] == acc.prog by {
      assert p2[..|a.prog|] == a.prog;
      assert p2[..|acc.prog|] == p2[..|a.prog|][..|acc.prog|];
    }
  }

  /** Extending by named Morphs keeps the invariant. */
  lemma ExtendsWellFed(acc: Acc, a: Acc, table: map<string, string>)
    requires WellFed(acc, table) && Extends(acc, a, table)
    ensures WellFed(a, table)
  {
    forall k | 0 <= k < |acc.prog|
      ensures FedAt(a.prog, k) && MorphNamed(a.prog[k], table)
    {
      FedAtPrefix(acc.prog, a.prog, k, table);
    }
  }

  /** Appending a fed element that is not a Morph keeps the invariant. */
  lemma SnocWellFed(a: Acc, e: Element, table: map<string, string>)
    requires WellFed(a, table) && !IsMorph(e) && FedAt(a.prog + [e], |a.prog|)
    ensures WellFed(Acc(a.prog + [e], a.seen), table)
  {
    var p2 := a.prog + [e];
    Snoc(a.prog, e);
    assert p2[..|a.prog|] == a.prog;
    forall k | 0 <= k < |a.prog|
      ensures FedAt(p2, k) && MorphNamed(p2[k], table)
    {
      FedAtPrefix(a.prog, p2, k, table);
    }
  }

  /** The rewrite of a node keeps the running state's invariant. */
  lemma NodeWellFed(o: Op, table: map<string, string>, acc: Acc)
    requires WellFed(acc, table) && MorphElement(OpEl(o), table, acc).Ok?
    ensures WellFed(MorphElement(OpEl(o), table, acc).value, table)
  {
    var a := EmitNode(o, table, acc).value;
    NodeAppends(o, table, acc);
    NewNodeFed(o, table, acc);
    ExtendsWellFed(acc, a, table);
    SnocWellFed(a, OpEl(WithColumns(o, NewNames(o, table))), table);
  }

  /** A copied line keeps the invariant and joins the skeleton unchanged. */
  lemma LineFacts(e: Element, table: map<string, string>, acc: Acc)
    requires e.Line?
    ensures var a2 := MorphElement(e, table, acc).value;
      && (WellFed(acc, table) ==> WellFed(a2, table))
      && Skeleton(a2.prog) == Skeleton(acc.prog) + [e]
  {
    Snoc(acc.prog, e);
    if WellFed(acc, table) {
      SnocWellFed(acc, e, table);
    }
  }

  /** The rewrite passes element e: it is a line or a renamable node. */
  predicate ElementOk(e: Element, table: map<string, string>)
  {
    e.OpEl? ==> NodeRenamable(e.node, table)
  }

  lemma ElementStep(e: Element, table: map<string, string>, acc: Acc)
    ensures MorphElement(e, table, acc).Ok? <==> ElementOk(e, table)
    ensures MorphElement(e, table, acc).Err? ==> ErrorOfRewrite(MorphElement(e, table, acc).error)
  {
    if e.OpEl? {
      EmitNodeOk(e.node, table, acc);
    }
  }

  /** The errors the rewrite raises: a short-name lookup that fails, or a node lacking a format slot. */
  predicate ErrorOfRewrite(err: ComprError)
  {
    err.UnknownFormat? || err.MissingAttribute?
  }

  /** Every element among the first k of p passes. */
  predicate PrefixOk(p: seq<Element>, k: nat, table: map<string, string>)
    requires k <= |p|
  {
    forall i :: 0 <= i < k ==> ElementOk(p[i], table)
  }

  lemma PrefixOkStep(p: seq<Element>, k: nat, table: map<string, string>)
    requires 0 < k <= |p|
    ensures PrefixOk(p, k, table) <==> PrefixOk(p, k - 1, table) && ElementOk(p[k - 1], table)
  {
  }

  /** One more element of the body is rewritten from the state the first i left. */
  lemma MorphPrefixNext(p: seq<Element>, i: nat, table: map<string, string>, acc: Acc)
    requires i < |p| && MorphPrefix(p, i, table) == Ok(acc)
    ensures MorphPrefix(p, i + 1, table) == MorphElement(p[i], table, acc)
  {
  }

  /** The body rewrite of the first k elements succeeds exactly when each node among them is renamable. */
  lemma {:induction false} MorphPrefixOk(p: seq<Element>, k: nat, table: map<string, string>)
    requires k <= |p|
    ensures MorphPrefix(p, k, table).Ok? <==> PrefixOk(p, k, table)
  {
    if k > 0 {
      MorphPrefixOk(p, k - 1, table);
      PrefixOkStep(p, k, table);
      var r := MorphPrefix(p, k - 1, table);
      if r.Ok? {
        ElementStep(p[k - 1], table, r.value);
        assert MorphPrefix(p, k, table) == MorphElement(p[k - 1], table, r.value);
      } else {
        assert MorphPrefix(p, k, table) == Err(r.error);
        assert !PrefixOk(p, k - 1, table);
      }
    }
  }

  /** The body rewrite raises only the errors of the rewrite. */
  lemma {:induction false} MorphPrefixErr(p: seq<Element>, k: nat, table: map<string, string>)
    requires k <= |p| && MorphPrefix(p, k, table).Err?
    ensures ErrorOfRewrite(MorphPrefix(p, k, table).error)
  {
    if MorphPrefix(p, k - 1, table).Err? {
      MorphPrefixErr(p, k - 1, table);
    } else {
      ElementStep(p[k - 1], table, MorphPrefix(p, k - 1, table).value);
    }
  }

  /** The body rewrite of the first k elements keeps the running state's invariant. */
  lemma {:induction false} MorphPrefixWellFed(p: seq<Element>, k: nat, table: map<string, string>)
    requires k <= |p| && MorphPrefix(p, k, table).Ok?
    ensures WellFed(MorphPrefix(p, k, table).value, table)
  {
    if k > 0 {
      MorphPrefixWellFed(p, k - 1, table);
      var acc := MorphPrefix(p, k - 1, table).value;
      var e := p[k - 1];
      if e.Line? {
        LineFacts(e, table, acc);
      } else {
        NodeWellFed(e.node, table, acc);
      }
    }
  }

  /** Without its Morphs, the body rewrite of the first k elements is those k elements, renamed. */
  lemma {:induction false} MorphPrefixSkeleton(p: seq<Element>, k: nat, table: map<string, string>)
    requires k <= |p| && MorphPrefix(p, k, table).Ok?
    ensures Skeleton(MorphPrefix(p, k, table).value.prog) == RenamedPrefix(p, k, table)
  {
    if k > 0 {
      MorphPrefixSkeleton(p, k - 1, table);
      var acc := MorphPrefix(p, k - 1, table).value;
      var e := p[k - 1];
      if e.Line? {
        LineFacts(e, table, acc);
      } else {
        NodeSkeleton(e.node, table, acc);
      }
    }
  }

  // ---------------------------------------------------------------------------
  // Properties of insertMorphs
  // ---------------------------------------------------------------------------

  /**
   * insertMorphs succeeds exactly when every renamed input of every node
   * has a set format slot whose format has a short name, and uncompr_f has
   * one when there are result columns; it raises nothing else.
   */
  lemma InsertMorphsOk(q: Program, table: map<string, string>)
    ensures InsertMorphs(q, table).Ok? <==>
      PrefixOk(q.prog, |q.prog|, table) && (q.resultCols != [] ==> FORMAT_UNCOMPR in table)
    ensures InsertMorphs(q, table).Err? ==> ErrorOfRewrite(InsertMorphs(q, table).error)
  {
    MorphPrefixOk(q.prog, |q.prog|, table);
    if MorphPrefix(q.prog, |q.prog|, table).Err? {
      MorphPrefixErr(q.prog, |q.prog|, table);
    }
  }

  /** The length of the body the rewrite emits before the comment line. */
  function BodyLength(q: Program, r: Program): int
  {
    |r.prog| - 1 - |q.resultCols|
  }

  /**
   * On success, the program is the body, the comment line, then the
   * result Morphs; the body without its Morphs is the old program with
   * every renamed input column given its new name.
   */
  lemma InsertMorphsBody(q: Program, table: map<string, string>)
    requires InsertMorphs(q, table).Ok?
    ensures var r := InsertMorphs(q, table).value;
      var n := BodyLength(q, r);
      && 0 <= n && r.prog[n] == Line(DECOMPRESS_COMMENT)
      && r.headers == q.headers
      && Skeleton(r.prog[..n]) == RenamedPrefix(q.prog, |q.prog|, table)
  {
    InsertMorphsParts(q, table);
    ResultMorphsSpec(q.resultCols, table);
    var body := MorphPrefix(q.prog, |q.prog|, table).value.prog;
    MorphPrefixSkeleton(q.prog, |q.prog|, table);
    var r := InsertMorphs(q, table).value;
    assert r.prog[..|body|] == body;
  }

  /** On success, the Morphs of the body are each named after their input and format, with no output name twice. */
  lemma InsertMorphsDistinct(q: Program, table: map<string, string>)
    requires InsertMorphs(q, table).Ok?
    ensures var r := InsertMorphs(q, table).value;
      var n := BodyLength(q, r);
      && 0 <= n
      && NoDups(Outputs(r.prog[..n]))
      && (forall i :: 0 <= i < n ==> MorphNamed(r.prog[i], table))
  {
    InsertMorphsParts(q, table);
    ResultMorphsSpec(q.resultCols, table);
    var body := MorphPrefix(q.prog, |q.prog|, table).value.prog;
    MorphPrefixWellFed(q.prog, |q.prog|, table);
    var r := InsertMorphs(q, table).value;
    assert r.prog[..|body|] == body;
  }

  /** On success, every renamed input column of every node of the body is the output of a Morph before it. */
  lemma InsertMorphsFed(q: Program, table: map<string, string>)
    requires InsertMorphs(q, table).Ok?
    ensures var r := InsertMorphs(q, table).value;
      forall k :: 0 <= k < BodyLength(q, r) ==> FedAt(r.prog, k)
  {
    InsertMorphsParts(q, table);
    ResultMorphsSpec(q.resultCols, table);
    var body := MorphPrefix(q.prog, |q.prog|, table).value;
    MorphPrefixWellFed(q.prog, |q.prog|, table);
    var r := InsertMorphs(q, table).value;
    assert r.prog[..|body.prog|] == body.prog;
    forall k | 0 <= k < |body.prog|
      ensures FedAt(r.prog, k)
    {
      FedAtPrefix(body.prog, r.prog, k, table);
    }
  }

  /** The result Morphs: one per result column, in order, each converting it to uncompr_f under its new name. */
  lemma ResultMorphsSpec(cols: seq<string>, table: map<string, string>)
    requires ResultMorphs(cols, table).Ok?
    ensures var (ms, names) := ResultMorphs(cols, table).value;
      && |ms| == |names| == |cols|
      && forall i :: 0 <= i < |cols| ==>
           && FORMAT_UNCOMPR in table
           && names[i] == NewName(cols[i], FORMAT_UNCOMPR, table)
           && ms[i] == OpEl(Morph(names[i], cols[i], Some(FORMAT_UNCOMPR)))
  {
  }

  /** A successful insertMorphs is the body, the comment line and the result Morphs. */
  lemma InsertMorphsParts(q: Program, table: map<string, string>)
    requires InsertMorphs(q, table).Ok?
    ensures MorphPrefix(q.prog, |q.prog|, table).Ok? && ResultMorphs(q.resultCols, table).Ok?
    ensures var r := InsertMorphs(q, table).value;
      var tail := ResultMorphs(q.resultCols, table).value;
      && r.prog == MorphPrefix(q.prog, |q.prog|, table).value.prog + [Line(DECOMPRESS_COMMENT)] + tail.0
      && r.resultCols == tail.1 && r.headers == q.headers
  {
  }

  /**
   * On success, the program ends with one Morph to uncompr_f per result
   * column, in order and without deduplication, and the result columns are
   * replaced by those Morphs' outputs.
   */
  lemma InsertMorphsResults(q: Program, table: map<string, string>)
    requires InsertMorphs(q, table).Ok?
    ensures var r := InsertMorphs(q, table).value;
      && |r.resultCols| == |q.resultCols| <= |r.prog|
      && forall i :: 0 <= i < |q.resultCols| ==>
           && FORMAT_UNCOMPR in table
           && r.resultCols[i] == NewName(q.resultCols[i], FORMAT_UNCOMPR, table)
           && r.prog[|r.prog| - |q.resultCols| + i] == OpEl(Morph(r.resultCols[i], q.resultCols[i], Some(FORMAT_UNCOMPR)))
  {
    InsertMorphsParts(q, table);
    ResultMorphsSpec(q.resultCols, table);
    var r := InsertMorphs(q, table).value;
    var tail := ResultMorphs(q.resultCols, table).value.0;
    var head := MorphPrefix(q.prog, |q.prog|, table).value.prog + [Line(DECOMPRESS_COMMENT)];
    assert r.prog == head + tail;
    forall i | 0 <= i < |q.resultCols|
      ensures r.prog[|r.prog| - |q.resultCols| + i] == tail[i]
    {
      assert (head + tail)[|head| + i] == tail[i];
    }
  }

  lemma {:induction false} SkeletonShorter(p: seq<Element>)
    ensures |Skeleton(p)| <= |p|
  {
    if p != [] {
      SkeletonShorter(p[..|p| - 1]);
    }
  }

  /** A successful rewrite adds at least the comment line and one Morph per result column. */
  lemma InsertMorphsGrows(q: Program, table: map<string, string>)
    requires InsertMorphs(q, table).Ok?
    ensures |InsertMorphs(q, table).value.prog| >= |q.prog| + 1 + |q.resultCols|
  {
    InsertMorphsParts(q, table);
    ResultMorphsSpec(q.resultCols, table);
    var body := MorphPrefix(q.prog, |q.prog|, table).value;
    MorphPrefixSkeleton(q.prog, |q.prog|, table);
    SkeletonShorter(body.prog);
  }

  /** The index of the first node of p at or after i, or |p| when there is none. */
  function FirstNode(p: seq<Element>, i: nat): (r: nat)
    requires i <= |p|
    ensures i <= r <= |p| && (forall j :: i <= j < r ==> p[j].Line?) && (r < |p| ==> p[r].OpEl?)
    decreases |p| - i
  {
    if i == |p| || p[i].OpEl? then i else FirstNode(p, i + 1)
  }

  /** Once the body rewrite fails, it keeps that error. */
  lemma {:induction false} ErrorSticks(p: seq<Element>, k: nat, m: nat, table: map<string, string>)
    requires k <= m <= |p| && MorphPrefix(p, k, table).Err?
    ensures MorphPrefix(p, m, table) == MorphPrefix(p, k, table)
    decreases m - k
  {
    if k < m {
      ErrorSticks(p, k, m - 1, table);
    }
  }

  /** A Morph cannot be rewritten again: it has no `inDataF`. */
  lemma MorphFails(o: Op, table: map<string, string>, acc: Acc)
    requires o.Morph?
    ensures EmitNode(o, table, acc) == Err(MissingAttribute("Morph", "inDataF"))
  {
    var cs := ColumnSlots(o);
    var fs := FormatSlots(o);
    assert EmitSlots(false, "Morph", cs, fs, 0, table, acc) == EmitSlots(false, "Morph", cs, fs, 1, table, acc);
    assert FindSlot(fs, In, Data).None?;
    assert Key(FmtSlot(In, Data, None)) == "inDataF";
  }

  /** A program whose first node is a Morph fails the rewrite. */
  lemma FirstMorphFails(p: seq<Element>, table: map<string, string>)
    requires FirstNode(p, 0) < |p| && IsMorph(p[FirstNode(p, 0)])
    ensures MorphPrefix(p, |p|, table) == Err(MissingAttribute("Morph", "inDataF"))
  {
    var k := FirstNode(p, 0);
    MorphPrefixOk(p, k, table);
    MorphFails(p[k].node, table, MorphPrefix(p, k, table).value);
    ErrorSticks(p, k + 1, |p|, table);
  }

  /** In body + [comment] + tail, with the body fed and the tail all Morphs, a Morph comes at or before every node. */
  lemma MorphLeadsIn(body: seq<Element>, tail: seq<Element>, k: nat)
    requires forall i :: 0 <= i < |body| ==> FedAt(body, i)
    requires forall i :: 0 <= i < |tail| ==> IsMorph(tail[i])
    requires k < |body + [Line(DECOMPRESS_COMMENT)] + tail| && (body + [Line(DECOMPRESS_COMMENT)] + tail)[k].OpEl?
    ensures exists i :: 0 <= i <= k && IsMorph((body + [Line(DECOMPRESS_COMMENT)] + tail)[i])
  {
    var p := body + [Line(DECOMPRESS_COMMENT)] + tail;
    if k < |body| {
      assert p[k] == body[k];
      if !body[k].node.Morph? {
        var o := body[k].node;
        HasRenamedInput(o);
        var j :| 0 <= j < |ColumnSlots(o)| && Rewritten(o, ColumnSlots(o)[j]);
        assert FedAt(body, k);
        var i :| 0 <= i < k && IsMorph(body[i]) && body[i].node.outDataCol == ColumnSlots(o)[j].name;
        assert p[i] == body[i];
      } else {
        assert IsMorph(p[k]);
      }
    } else {
      assert k > |body|;
      assert p[k] == tail[k - |body| - 1];
    }
  }

  /** The first node of a successful rewrite's output is a Morph. */
  lemma FirstNodeIsMorph(q: Program, table: map<string, string>)
    requires InsertMorphs(q, table).Ok?
    requires FirstNode(InsertMorphs(q, table).value.prog, 0) < |InsertMorphs(q, table).value.prog|
    ensures IsMorph(InsertMorphs(q, table).value.prog[FirstNode(InsertMorphs(q, table).value.prog, 0)])
  {
    var r := InsertMorphs(q, table).value;
    InsertMorphsParts(q, table);
    var body := MorphPrefix(q.prog, |q.prog|, table).value.prog;
    var tail := ResultMorphs(q.resultCols, table).value.0;
    assert r.prog == body + [Line(DECOMPRESS_COMMENT)] + tail;
    MorphPrefixWellFed(q.prog, |q.prog|, table);
    assert forall i :: 0 <= i < |body| ==> FedAt(body, i);
    TailMorphs(q.resultCols, table);
    var k0 := FirstNode(r.prog, 0);
    MorphLeadsIn(body, tail, k0);
    var i :| 0 <= i <= k0 && IsMorph(r.prog[i]);
    assert !(i < k0);
  }

  /** The tail of a successful rewrite is all Morphs. */
  lemma TailMorphs(cols: seq<string>, table: map<string, string>)
    requires ResultMorphs(cols, table).Ok?
    ensures forall i :: 0 <= i < |ResultMorphs(cols, table).value.0| ==> IsMorph(ResultMorphs(cols, table).value.0[i])
  {
    ResultMorphsSpec(cols, table);
  }

  /** When the body rewrite fails, insertMorphs raises its error. */
  lemma BodyError(q: Program, table: map<string, string>)
    requires MorphPrefix(q.prog, |q.prog|, table).Err?
    ensures InsertMorphs(q, table) == Err(MorphPrefix(q.prog, |q.prog|, table).error)
  {
  }

  /**
   * insertMorphs is not idempotent: a second run never returns its input,
   * and once the first run's output holds a node it fails, since the
   * first node of that output is a Morph, which has no `inDataF`.
   */
  lemma SecondRunFails(q: Program, table: map<string, string>)
    requires InsertMorphs(q, table).Ok?
    ensures var r := InsertMorphs(q, table).value;
      && InsertMorphs(r, table) != Ok(r)
      && ((exists k :: 0 <= k < |r.prog| && r.prog[k].OpEl?) ==>
            InsertMorphs(r, table) == Err(MissingAttribute("Morph", "inDataF")))
  {
    var r := InsertMorphs(q, table).value;
    if InsertMorphs(r, table).Ok? {
      InsertMorphsGrows(r, table);
    }
    if exists k :: 0 <= k < |r.prog| && r.prog[k].OpEl? {
      FirstNodeIsMorph(q, table);
      FirstMorphFails(r.prog, table);
      BodyError(r, table);
    }
  }
}
