/**
 * The compression steps of mal2x as the translator runs them: in place, on
 * the translation result. Each method is proved to leave exactly the state
 * the matching function of ComprConfigs, ComprDynamic, ComprCheck or Morphs
 * describes, or to raise the error that function gives.
 *
 * Nodes are values here; the loops over a node's attributes build the
 * node's new value and store it back into the program.
 */
module Compr {
  import opened Wrappers
  import opened ProcessingStyles
  import opened Operators
  import opened ComprNames
  import ComprConfigs
  import ComprDynamic
  import ComprCheck
  import Morphs

  type Program = ComprConfigs.Program
  type ComprError = ComprConfigs.ComprError

  /** What a step that may raise leaves: its value, or the error it raised. */
  function Outcome<T>(v: T, err: Option<ComprError>): Result<T, ComprError>
  {
    if err.None? then Ok(v) else Err(err.value)
  }

  // ---------------------------------------------------------------------------
  // Loops over the attributes of one node
  // ---------------------------------------------------------------------------

  /** The loop over a node's format attributes that sets each of them to f. */
  method FillNode(o: Op, f: Format) returns (r: Op)
    ensures r == ComprConfigs.Fill(o, f)
  {
    var fs := FormatSlots(o);
    var formats: seq<Format> := [];
    var j := 0;
    while j < |fs|
      invariant 0 <= j <= |fs| && |formats| == j
      invariant forall l :: 0 <= l < j ==> formats[l] == f
    {
      formats := formats + [f];
      j := j + 1;
    }
    r := WithFormats(o, formats);
    assert formats == seq(|fs|, _ => f);
  }

  /**
   * The loop of `_configCompr_AllStaticVBP` over a node's format attributes:
   * each gets static_vbp_f at the bit width of the column it describes; a
   * missing column or bit width raises.
   */
  method StaticFormatsLoop(cls: string, cs: seq<Slot>, fs: seq<Slot>, maxBw: map<string, nat>, ps: ProcessingStyle)
      returns (r: Result<seq<Format>, ComprError>)
    ensures r == ComprConfigs.StaticFormatsOf(cls, cs, fs, maxBw, ps)
  {
    ghost var rs := seq(|fs|, j requires 0 <= j < |fs| => ComprConfigs.StaticFormat(cls, cs, fs[j], maxBw, ps));
    var formats: seq<Format> := [];
    var j := 0;
    while j < |fs|
      invariant 0 <= j <= |fs| && |formats| == j
      invariant forall l :: 0 <= l < j ==> rs[l] == Ok(formats[l])
    {
      var col := ComprConfigs.ColumnName(cs, fs[j]);
      if col.None? {
        ComprConfigs.CollectFirstError(rs, j);
        return Err(ComprConfigs.MissingAttribute(cls, Key(ColSlot(fs[j].dir, fs[j].role, ""))));
      }
      if col.value !in maxBw {
        ComprConfigs.CollectFirstError(rs, j);
        return Err(ComprConfigs.MissingBitWidth(col.value));
      }
      var f := Some(MakeStaticVBP(maxBw[col.value], ps));
      assert rs[j] == Ok(f);
      formats := formats + [f];
      j := j + 1;
    }
    r := Ok(formats);
    assert ComprConfigs.Collect(rs).value == formats;
  }

  /** Whether the node has an input column whose name equals `watched`. */
  method ReadsColumn(o: Op, watched: Option<string>) returns (b: bool)
    ensures b == ComprDynamic.Reads(o, watched)
  {
    var cs := ColumnSlots(o);
    b := false;
    var j := 0;
    while j < |cs|
      invariant 0 <= j <= |cs|
      invariant b <==> exists l :: 0 <= l < j && cs[l].dir == In && Some(cs[l].name) == watched
    {
      if cs[j].dir == In && Some(cs[j].name) == watched {
        b := true;
      }
      j := j + 1;
    }
  }

  // ---------------------------------------------------------------------------
  // The steps for one element of the program
  // ---------------------------------------------------------------------------

  /** The `_configCompr_AllUncompr` step: a node gets uncompr_f in every format slot. */
  method UncomprStep(e: Element) returns (r: Element)
    ensures r == ComprConfigs.UncomprElement(e)
  {
    r := e;
    if e.OpEl? {
      var o := FillNode(e.node, Some(FORMAT_UNCOMPR));
      r := OpEl(o);
    }
  }

  /** The `_configCompr_AllStaticVBP` step on an element of the uncompressed program. */
  method StaticVBPStep(e: Element, maxBw: map<string, nat>, ps: ProcessingStyle) returns (r: Result<Element, ComprError>)
    ensures r == ComprConfigs.StaticElement(e, maxBw, ps)
  {
    r := Ok(e);
    if e.OpEl? && ComprConfigs.StaticKind(e.node) {
      var fs := StaticFormatsLoop(ClassName(e.node), ColumnSlots(e.node), FormatSlots(e.node), maxBw, ps);
      if fs.Err? {
        return Err(fs.error);
      }
      r := Ok(OpEl(WithFormats(e.node, fs.value)));
    }
  }

  /** The `_configCompr_AllDynamicVBP` step on an element of the uncompressed program. */
  method DynamicVBPStep(e: Element, ps: ProcessingStyle) returns (r: Element)
    ensures r == ComprDynamic.DynamicElement(e, ps)
  {
    var formatName := Some(MakeDynamicVBP(ps));
    r := e;
    if e.OpEl? && ComprDynamic.DynamicKind(e.node) {
      var o := FillNode(e.node, formatName);
      r := OpEl(o);
    } else if e.OpEl? && e.node.Project? {
      r := OpEl(e.node.(outDataF := formatName, inPosF := formatName));
    }
  }

  /** Some element of p[k..i] is a node of the given side reading a column equal to `watched`. */
  ghost predicate ReadBetween(p: seq<Element>, k: nat, i: nat, byProject: bool, watched: Option<string>)
    requires k <= i <= |p|
  {
    exists l :: k <= l < i && ComprDynamic.ReadBy(p[l], byProject, watched)
  }

  lemma ReadBetweenStep(p: seq<Element>, k: nat, i: nat, byProject: bool, watched: Option<string>)
    requires k <= i < |p|
    ensures ReadBetween(p, k, i + 1, byProject, watched) <==>
            ReadBetween(p, k, i, byProject, watched) || ComprDynamic.ReadBy(p[i], byProject, watched)
  {
  }

  /** The scan over all of p[k..] finds what `UseFlags` of that slice says. */
  lemma ReadBetweenFlags(p: seq<Element>, k: nat, watched: Option<string>)
    requires k <= |p|
    ensures ComprDynamic.UseFlags(p[k..], watched) ==
            (ReadBetween(p, k, |p|, true, watched), ReadBetween(p, k, |p|, false, watched))
  {
    var t := p[k..];
    forall b: bool
      ensures ReadBetween(p, k, |p|, b, watched) <==> exists l :: 0 <= l < |t| && ComprDynamic.ReadBy(t[l], b, watched)
    {
      if ReadBetween(p, k, |p|, b, watched) {
        var l :| k <= l < |p| && ComprDynamic.ReadBy(p[l], b, watched);
        assert t[l - k] == p[l];
      }
    }
  }

  /**
   * The consumer scan of `_configCompr_AllDynamicVBP_ProjectStaticVBP` over
   * p[k..]: whether some Project, and whether some other node, reads a
   * column equal to `watched`.
   */
  method ScanConsumers(p: seq<Element>, k: nat, watched: Option<string>) returns (forProject: bool, forOther: bool)
    requires k <= |p|
    ensures (forProject, forOther) == ComprDynamic.UseFlags(p[k..], watched)
  {
    forProject, forOther := false, false;
    var i := k;
    while i < |p|
      invariant k <= i <= |p|
      invariant forProject == ReadBetween(p, k, i, true, watched)
      invariant forOther == ReadBetween(p, k, i, false, watched)
    {
      ReadBetweenStep(p, k, i, true, watched);
      ReadBetweenStep(p, k, i, false, watched);
      if p[i].OpEl? {
        var hit := ReadsColumn(p[i].node, watched);
        if hit {
          if p[i].node.Project? {
            forProject := true;
          } else {
            forOther := true;
          }
        }
      }
      i := i + 1;
    }
    ReadBetweenFlags(p, k, watched);
  }

  /**
   * The `_configCompr_AllDynamicVBP_ProjectStaticVBP` step on element k of
   * the uncompressed program p, as written: the scan over p[k..] compares
   * input columns with the Project's outDataF.
   */
  method ProjectStaticStep(p: seq<Element>, k: nat, maxBw: map<string, nat>, ps: ProcessingStyle) returns (r: Result<Element, ComprError>)
    requires k < |p|
    ensures r == ComprDynamic.ProjectStaticElement(p, k, ComprDynamic.OutDataF, maxBw, ps)
  {
    var formatNameDyn := Some(MakeDynamicVBP(ps));
    var e := p[k];
    r := Ok(e);
    if e.OpEl? && ComprDynamic.DynamicKind(e.node) {
      var o := FillNode(e.node, formatNameDyn);
      r := Ok(OpEl(o));
    } else if e.OpEl? && e.node.Project? {
      var forProject, forOther := ScanConsumers(p, k, e.node.outDataF);
      var o := ProjectNodeStep(e.node, forProject, forOther, maxBw, ps);
      if o.Err? {
        return Err(o.error);
      }
      r := Ok(OpEl(o.value));
    }
  }

  /** The formats of one Project node, once the consumer scan has given its flags. */
  method ProjectNodeStep(o: Op, forProject: bool, forOther: bool, maxBw: map<string, nat>, ps: ProcessingStyle) returns (r: Result<Op, ComprError>)
    requires o.Project?
    ensures r == ComprDynamic.ProjectStaticNode(o, (forProject, forOther), maxBw, ps)
  {
    ghost var chosen := ComprDynamic.ProjectOutFormat((forProject, forOther), o.outDataCol, maxBw, ps);
    var formatNameDyn := Some(MakeDynamicVBP(ps));
    var outF: Format;
    if forProject && !forOther {
      if o.outDataCol !in maxBw {
        return Err(ComprConfigs.MissingBitWidth(o.outDataCol));
      }
      outF := Some(MakeStaticVBP(maxBw[o.outDataCol], ps));
    } else if !forProject && forOther {
      outF := formatNameDyn;
    } else {
      outF := Some(FORMAT_UNCOMPR);
    }
    assert chosen == Ok(outF);
    if o.inDataCol !in maxBw {
      return Err(ComprConfigs.MissingBitWidth(o.inDataCol));
    }
    r := Ok(o.(outDataF := outF, inPosF := formatNameDyn, inDataF := Some(MakeStaticVBP(maxBw[o.inDataCol], ps))));
  }

  /**
   * The loop of `insertMorphs` over the column attributes of one node:
   * each input column (but the extents of SumGrBased) gets the name of its
   * value in the format the node requires, and a Morph producing that name
   * is emitted unless one already was. Returns the new program and names so
   * far and the node's new column names, or the error the loop raised.
   */
  method RenameSlots(sumGr: bool, cls: string, cs: seq<Slot>, fs: seq<Slot>, table: map<string, string>,
                     prog0: seq<Element>, seen0: seq<string>)
      returns (newProg: seq<Element>, newVarNames: seq<string>, names: seq<string>, err: Option<ComprError>)
    requires Morphs.SlotsShape(cs, fs)
    ensures Morphs.EmitSlots(sumGr, cls, cs, fs, 0, table, Morphs.Acc(prog0, seen0)) == Outcome(Morphs.Acc(newProg, newVarNames), err)
    ensures err.None? ==> RenamedSlots(sumGr, cs, fs, table, names)
  {
    ghost var r0 := Morphs.EmitSlots(sumGr, cls, cs, fs, 0, table, Morphs.Acc(prog0, seen0));
    newProg, newVarNames, names := prog0, seen0, [];
    var j := 0;
    while j < |cs|
      invariant 0 <= j <= |cs| && |names| == j
      invariant r0 == Morphs.EmitSlots(sumGr, cls, cs, fs, j, table, Morphs.Acc(newProg, newVarNames))
      invariant RenamedSlots(sumGr, cs[..j], fs, table, names)
    {
      var c := cs[j];
      assert c in cs;
      assert cs[..j + 1] == cs[..j] + [c];
      if !Morphs.SlotRewritten(sumGr, c) {
        RenamedSlotsStep(sumGr, cs[..j], fs, table, names, c, c.name);
        names := names + [c.name];
      } else {
        var f := FindSlot(fs, c.dir, c.role);
        if f.None? {
          return newProg, newVarNames, names, Some(ComprConfigs.MissingAttribute(cls, Key(FmtSlot(c.dir, c.role, None))));
        }
        var nv := Morphs.NewVarName(c.name, f.value.format, table);
        if nv.Err? {
          return newProg, newVarNames, names, Some(nv.error);
        }
        assert Morphs.FormatFor(fs, c) == f.value.format;
        RenamedSlotsStep(sumGr, cs[..j], fs, table, names, c, nv.value);
        if nv.value !in newVarNames {
          newProg := newProg + [OpEl(Morph(nv.value, c.name, f.value.format))];
          newVarNames := newVarNames + [nv.value];
        }
        names := names + [nv.value];
      }
      j := j + 1;
    }
    err := None;
    assert cs[..j] == cs;
  }

  /** `names` are the new names of the column slots cs, one by one. */
  ghost predicate RenamedSlots(sumGr: bool, cs: seq<Slot>, fs: seq<Slot>, table: map<string, string>, names: seq<string>)
  {
    && |names| == |cs|
    && forall l :: 0 <= l < |cs| ==>
         cs[l].ColSlot? && Morphs.CanRename(sumGr, fs, cs[l], table) && names[l] == Morphs.NewSlotName(sumGr, fs, cs[l], table)
  }

  lemma RenamedSlotsStep(sumGr: bool, cs: seq<Slot>, fs: seq<Slot>, table: map<string, string>, names: seq<string>, c: Slot, n: string)
    requires RenamedSlots(sumGr, cs, fs, table, names)
    requires c.ColSlot? && Morphs.CanRename(sumGr, fs, c, table) && n == Morphs.NewSlotName(sumGr, fs, c, table)
    ensures RenamedSlots(sumGr, cs + [c], fs, table, names + [n])
  {
  }

  /** The new names of all column slots of a node are `NewNames` of it. */
  lemma RenamedNode(o: Op, table: map<string, string>, names: seq<string>)
    requires RenamedSlots(o.SumGrBased?, ColumnSlots(o), FormatSlots(o), table, names)
    ensures names == Morphs.NewNames(o, table)
  {
  }

  /**
   * The body of the first loop of `insertMorphs` for one element: a node is
   * preceded by the Morphs of its input columns and renamed; a line is copied.
   */
  method RewriteElement(e: Element, table: map<string, string>, prog0: seq<Element>, seen0: seq<string>)
      returns (newProg: seq<Element>, newVarNames: seq<string>, err: Option<ComprError>)
    ensures Morphs.MorphElement(e, table, Morphs.Acc(prog0, seen0)) == Outcome(Morphs.Acc(newProg, newVarNames), err)
  {
    if e.OpEl? {
      var o := e.node;
      var names;
      newProg, newVarNames, names, err :=
        RenameSlots(o.SumGrBased?, ClassName(o), ColumnSlots(o), FormatSlots(o), table, prog0, seen0);
      if err.None? {
        RenamedNode(o, table, names);
        newProg := newProg + [OpEl(WithColumns(o, names))];
      }
    } else {
      newProg, newVarNames, err := prog0 + [e], seen0, None;
    }
  }

  /**
   * The first loop of `insertMorphs` over the program p. Returns the new
   * program and the names the Morphs introduced, or the error the loop raised.
   */
  method RewriteBody(p: seq<Element>, table: map<string, string>)
      returns (newProg: seq<Element>, newVarNames: seq<string>, err: Option<ComprError>)
    ensures Morphs.MorphPrefix(p, |p|, table) == Outcome(Morphs.Acc(newProg, newVarNames), err)
  {
    newProg, newVarNames := [], [];
    var i := 0;
    while i < |p|
      invariant 0 <= i <= |p|
      invariant Morphs.MorphPrefix(p, i, table) == Ok(Morphs.Acc(newProg, newVarNames))
    {
      Morphs.MorphPrefixNext(p, i, table, Morphs.Acc(newProg, newVarNames));
      newProg, newVarNames, err := RewriteElement(p[i], table, newProg, newVarNames);
      if err.Some? {
        Morphs.ErrorSticks(p, i + 1, |p|, table);
        return;
      }
      i := i + 1;
    }
    err := None;
  }

  /**
   * The second loop of `insertMorphs`: a Morph to uncompr_f for each result
   * column, and the new result column names.
   */
  method ResultMorphsLoop(cols: seq<string>, table: map<string, string>)
      returns (morphs: seq<Element>, names: seq<string>, err: Option<ComprError>)
    ensures Morphs.ResultMorphs(cols, table) == Outcome((morphs, names), err)
  {
    morphs, names := [], [];
    var k := 0;
    while k < |cols|
      invariant 0 <= k <= |cols| && |morphs| == |names| == k
      invariant k > 0 ==> FORMAT_UNCOMPR in table
      invariant forall l :: 0 <= l < k ==>
                  && FORMAT_UNCOMPR in table
                  && names[l] == Morphs.NewName(cols[l], FORMAT_UNCOMPR, table)
                  && morphs[l] == Morphs.ResultMorph(cols[l], table)
    {
      var nv := Morphs.NewVarName(cols[k], Some(FORMAT_UNCOMPR), table);
      if nv.Err? {
        return morphs, names, Some(nv.error);
      }
      morphs := morphs + [OpEl(Morph(nv.value, cols[k], Some(FORMAT_UNCOMPR)))];
      names := names + [nv.value];
      k := k + 1;
    }
    err := None;
    if cols != [] {
      assert morphs == seq(|cols|, i requires 0 <= i < |cols| => Morphs.ResultMorph(cols[i], table));
      assert names == seq(|cols|, i requires 0 <= i < |cols| => Morphs.NewName(cols[i], FORMAT_UNCOMPR, table));
    }
  }

  /** The inner scan of `checkAllFormatsSet`: the first slot of a node whose format is unset. */
  method FirstUnsetLoop(fs: seq<Slot>) returns (r: Option<Slot>)
    ensures r == ComprCheck.FirstUnsetFrom(fs, 0)
  {
    var j := 0;
    while j < |fs|
      invariant 0 <= j <= |fs|
      invariant ComprCheck.FirstUnsetFrom(fs, j) == ComprCheck.FirstUnsetFrom(fs, 0)
    {
      if fs[j].FmtSlot? && fs[j].format.None? {
        return Some(fs[j]);
      }
      j := j + 1;
    }
    r := None;
  }

  // ---------------------------------------------------------------------------
  // The translation result
  // ---------------------------------------------------------------------------

  /** The translation result as the compression steps see it. */
  class Query {
    var headers: set<string>
    var prog: seq<Element>
    var resultCols: seq<string>

    function Snapshot(): Program
      reads this
    {
      ComprConfigs.Program(headers, prog, resultCols)
    }

    constructor (q: Program)
      ensures Snapshot() == q
    {
      headers := q.headers;
      prog := q.prog;
      resultCols := q.resultCols;
    }

    /** `_configCompr_AllUncompr`. */
    method ConfigAllUncompr()
      modifies this
      ensures Snapshot() == ComprConfigs.AllUncompr(old(Snapshot()))
    {
      headers := headers + {ComprConfigs.FORMAT_H, ComprConfigs.UNCOMPR_H};
      var i := 0;
      while i < |prog|
        invariant 0 <= i <= |prog| == |old(prog)|
        invariant forall k :: 0 <= k < i ==> prog[k] == ComprConfigs.UncomprElement(old(prog)[k])
        invariant forall k :: i <= k < |prog| ==> prog[k] == old(prog)[k]
        invariant headers == old(headers) + {ComprConfigs.FORMAT_H, ComprConfigs.UNCOMPR_H}
        invariant resultCols == old(resultCols)
      {
        var e := UncomprStep(prog[i]);
        prog := prog[i := e];
        i := i + 1;
      }
    }

    /** `_configCompr_AllStaticVBP`; the bit widths of the analysis are `maxBw`. */
    method ConfigAllStaticVBP(maxBw: map<string, nat>, ps: ProcessingStyle) returns (err: Option<ComprError>)
      modifies this
      ensures ComprConfigs.AllStaticVBP(old(Snapshot()), maxBw, ps) == Outcome(Snapshot(), err)
    {
      ConfigAllUncompr();
      ghost var u := Snapshot();
      headers := headers + {ComprConfigs.STATIC_VBP_H};
      ghost var rs := seq(|u.prog|, k requires 0 <= k < |u.prog| => ComprConfigs.StaticElement(u.prog[k], maxBw, ps));
      var i := 0;
      while i < |prog|
        invariant 0 <= i <= |prog| == |u.prog|
        invariant forall k :: 0 <= k < i ==> rs[k] == Ok(prog[k])
        invariant forall k :: i <= k < |prog| ==> prog[k] == u.prog[k]
        invariant headers == u.headers + {ComprConfigs.STATIC_VBP_H} && resultCols == u.resultCols
      {
        var r := StaticVBPStep(prog[i], maxBw, ps);
        if r.Err? {
          ComprConfigs.CollectFirstError(rs, i);
          return Some(r.error);
        }
        prog := prog[i := r.value];
        i := i + 1;
      }
      err := None;
      assert ComprConfigs.Collect(rs).value == prog;
    }

    /** `_configCompr_AllDynamicVBP`. */
    method ConfigAllDynamicVBP(ps: ProcessingStyle)
      modifies this
      ensures Snapshot() == ComprDynamic.AllDynamicVBP(old(Snapshot()), ps)
    {
      ConfigAllUncompr();
      ghost var u := Snapshot();
      headers := headers + {ComprConfigs.DYNAMIC_VBP_H};
      var i := 0;
      while i < |prog|
        invariant 0 <= i <= |prog| == |u.prog|
        invariant forall k :: 0 <= k < i ==> prog[k] == ComprDynamic.DynamicElement(u.prog[k], ps)
        invariant forall k :: i <= k < |prog| ==> prog[k] == u.prog[k]
        invariant headers == u.headers + {ComprConfigs.DYNAMIC_VBP_H} && resultCols == u.resultCols
      {
        var e := DynamicVBPStep(prog[i], ps);
        prog := prog[i := e];
        i := i + 1;
      }
    }

    /**
     * `_configCompr_AllDynamicVBP_ProjectStaticVBP`, as written: the scan
     * compares input columns with outDataF. The scan of element i reads the
     * program from i on, which the loop has not changed yet.
     */
    method ConfigAllDynamicVBPProjectStaticVBP(maxBw: map<string, nat>, ps: ProcessingStyle) returns (err: Option<ComprError>)
      modifies this
      ensures ComprDynamic.AllDynamicVBPProjectStaticVBP(old(Snapshot()), maxBw, ps) == Outcome(Snapshot(), err)
    {
      ConfigAllUncompr();
      ghost var u := Snapshot();
      headers := headers + {ComprConfigs.DYNAMIC_VBP_H, ComprConfigs.STATIC_VBP_H};
      ghost var rs := seq(|u.prog|, k requires 0 <= k < |u.prog| =>
                            ComprDynamic.ProjectStaticElement(u.prog, k, ComprDynamic.OutDataF, maxBw, ps));
      var i := 0;
      while i < |prog|
        invariant 0 <= i <= |prog| == |u.prog|
        invariant forall k :: 0 <= k < i ==> rs[k] == Ok(prog[k])
        invariant forall k :: i <= k < |prog| ==> prog[k] == u.prog[k]
        invariant headers == u.headers + {ComprConfigs.DYNAMIC_VBP_H, ComprConfigs.STATIC_VBP_H}
        invariant resultCols == u.resultCols
      {
        SameFromOn(prog, u.prog, i, maxBw, ps);
        var r := ProjectStaticStep(prog, i, maxBw, ps);
        if r.Err? {
          ComprConfigs.CollectFirstError(rs, i);
          return Some(r.error);
        }
        prog := prog[i := r.value];
        i := i + 1;
      }
      err := None;
      assert ComprConfigs.Collect(rs).value == prog;
    }

    /** `configCompr`: the configuration of the given name, or the error for an unknown name. */
    method ConfigCompr(name: string, maxBw: map<string, nat>, ps: ProcessingStyle) returns (err: Option<ComprError>)
      modifies this
      ensures ComprCheck.ConfigCompr(old(Snapshot()), name, maxBw, ps) == Outcome(Snapshot(), err)
    {
      if name == CC_ALLUNCOMPR {
        ConfigAllUncompr();
        err := None;
      } else if name == CC_ALLSTATICVBP {
        err := ConfigAllStaticVBP(maxBw, ps);
      } else if name == CC_ALLDYNAMICVBP {
        ConfigAllDynamicVBP(ps);
        err := None;
      } else if name == CC_ALLDYNAMICVBP_PROJSTATICVBP {
        err := ConfigAllDynamicVBPProjectStaticVBP(maxBw, ps);
      } else {
        err := Some(ComprConfigs.UnsupportedConfig(name));
      }
    }

    /**
     * `checkAllFormatsSet`: None, or the error naming the first unset format;
     * `groupOpName` is the operator name the group kinds carry.
     */
    method CheckAllFormatsSet(groupOpName: string) returns (err: Option<ComprError>)
      ensures err == ComprCheck.CheckAllFormatsSet(prog, groupOpName)
    {
      var opIdx := 0;
      var i := 0;
      while i < |prog|
        invariant 0 <= i <= |prog|
        invariant ComprCheck.CheckFrom(prog, i, opIdx, groupOpName) == ComprCheck.CheckAllFormatsSet(prog, groupOpName)
      {
        if prog[i].OpEl? {
          var o := prog[i].node;
          var unset := FirstUnsetLoop(FormatSlots(o));
          if unset.Some? {
            return Some(ComprConfigs.FormatNotSet(Key(unset.value), OpName(o, groupOpName), opIdx));
          }
          opIdx := opIdx + 1;
        }
        i := i + 1;
      }
      err := None;
    }

    /** `insertMorphs`, with `table` the short-name table. */
    method InsertMorphs(table: map<string, string>) returns (err: Option<ComprError>)
      modifies this
      ensures Morphs.InsertMorphs(old(Snapshot()), table) == Outcome(Snapshot(), err)
    {
      var newProg, newVarNames, err1 := RewriteBody(prog, table);
      if err1.Some? {
        return err1;
      }
      var morphs, newResultCols, err2 := ResultMorphsLoop(resultCols, table);
      if err2.Some? {
        return err2;
      }
      prog, resultCols := newProg + [Line(Morphs.DECOMPRESS_COMMENT)] + morphs, newResultCols;
      err := None;
    }
  }

  /** The project-static step of element i only reads the program from i on. */
  lemma SameFromOn(p: seq<Element>, u: seq<Element>, i: nat, maxBw: map<string, nat>, ps: ProcessingStyle)
    requires i < |p| == |u| && forall k :: i <= k < |p| ==> p[k] == u[k]
    ensures ComprDynamic.ProjectStaticElement(p, i, ComprDynamic.OutDataF, maxBw, ps) ==
            ComprDynamic.ProjectStaticElement(u, i, ComprDynamic.OutDataF, maxBw, ps)
  {
    assert p[i..] == u[i..];
  }
}
