/**
 * The two configurations built on dynamic_vbp_f: every supporting node gets
 * dynamic_vbp_f, and in the second one each Project chooses the format of
 * its output by the kinds of node that consume it, with static_vbp_f for
 * its input data.
 */
module ComprDynamic {
  import opened Wrappers
  import opened ProcessingStyles
  import opened Operators
  import opened ComprNames
  import opened ComprConfigs

  /** The classes whose every format slot gets dynamic_vbp_f. */
  const DYNAMIC_KINDS: set<string> := {"GroupUnary", "LeftSemiNto1Join", "Nto1Join", "Select", "SumWholeCol"}

  predicate DynamicKind(o: Op) { ClassName(o) in DYNAMIC_KINDS }

  // ---------------------------------------------------------------------------
  // dynamic_vbp_f
  // ---------------------------------------------------------------------------

  /** The AllDynamicVBP step of one element of the uncompressed program. */
  function DynamicElement(e: Element, ps: ProcessingStyle): Element
  {
    var d := Some(MakeDynamicVBP(ps));
    match e
    case OpEl(o) =>
      if DynamicKind(o) then OpEl(Fill(o, d))
      else if o.Project? then OpEl(o.(outDataF := d, inPosF := d))
      else e
    case Line(_) => e
  }

  /** `_configCompr_AllDynamicVBP`: AllUncompr, then dynamic_vbp_f where it is supported. */
  function AllDynamicVBP(q: Program, ps: ProcessingStyle): Program
  {
    var u := AllUncompr(q);
    u.(headers := u.headers + {DYNAMIC_VBP_H},
       prog := seq(|u.prog|, k requires 0 <= k < |u.prog| => DynamicElement(u.prog[k], ps)))
  }

  /** A Project's input data slot: the one slot of a Project that dynamic_vbp_f does not reach. */
  predicate IsInData(f: Slot) { f.dir == In && f.role == Data }

  /** The format AllDynamicVBP gives slot `f` of node `o`. */
  function DynamicTarget(ps: ProcessingStyle, o: Op, f: Slot): Format
  {
    if DynamicKind(o) || (o.Project? && !IsInData(f)) then Some(MakeDynamicVBP(ps))
    else Some(FORMAT_UNCOMPR)
  }

  /** One element under AllUncompr and then the dynamic step. */
  lemma DynamicElementSpec(e: Element, ps: ProcessingStyle)
    ensures Refilled(e, DynamicElement(UncomprElement(e), ps), (o, f) => DynamicTarget(ps, o, f))
  {
    if e.OpEl? && !DynamicKind(e.node) && e.node.Project? {
      DynamicProjectSpec(e.node, ps);
    } else if e.OpEl? && !DynamicKind(e.node) {
      ProjectByName(e.node);
      ProjectByName(Fill(e.node, Some(FORMAT_UNCOMPR)));
    }
  }

  lemma DynamicProjectSpec(o: Op, ps: ProcessingStyle)
    requires o.Project?
    ensures Refilled(OpEl(o), DynamicElement(UncomprElement(OpEl(o)), ps), (o, f) => DynamicTarget(ps, o, f))
  {
    var u := Fill(o, Some(FORMAT_UNCOMPR));
    ProjectByName(u);
    assert FormatSlots(o) == [FmtSlot(Out, Data, o.outDataF), FmtSlot(In, Data, o.inDataF), FmtSlot(In, Pos, o.inPosF)];
  }

  /**
   * `_configCompr_AllDynamicVBP` adds the three headers and gives every slot
   * of the supporting kinds, and the outDataF and inPosF slots of a Project,
   * dynamic_vbp_f; every other slot is uncompr_f.
   */
  lemma AllDynamicVBPSpec(q: Program, ps: ProcessingStyle)
    ensures var r := AllDynamicVBP(q, ps);
      && r.headers == q.headers + {FORMAT_H, UNCOMPR_H, DYNAMIC_VBP_H}
      && r.resultCols == q.resultCols
      && |r.prog| == |q.prog|
      && forall k :: 0 <= k < |q.prog| ==> Refilled(q.prog[k], r.prog[k], (o, f) => DynamicTarget(ps, o, f))
  {
    var r := AllDynamicVBP(q, ps);
    forall k | 0 <= k < |q.prog|
      ensures Refilled(q.prog[k], r.prog[k], (o, f) => DynamicTarget(ps, o, f))
    {
      DynamicElementSpec(q.prog[k], ps);
    }
  }

  // ---------------------------------------------------------------------------
  // dynamic_vbp_f with static_vbp_f around Project
  // ---------------------------------------------------------------------------

  /** The node reads a column whose name equals `watched`. */
  predicate Reads(o: Op, watched: Option<string>)
  {
    exists s <- ColumnSlots(o) :: s.dir == In && Some(s.name) == watched
  }

  /** The element is a node of the given side (a Project or not) that reads `watched`. */
  predicate ReadBy(e: Element, byProject: bool, watched: Option<string>)
  {
    e.OpEl? && e.node.Project? == byProject && Reads(e.node, watched)
  }

  /**
   * The consumer scan: whether some Project, and whether some other node,
   * among `elems` reads a column equal to `watched`.
   */
  function UseFlags(elems: seq<Element>, watched: Option<string>): (r: (bool, bool))
    ensures r.0 <==> exists k :: 0 <= k < |elems| && ReadBy(elems[k], true, watched)
    ensures r.1 <==> exists k :: 0 <= k < |elems| && ReadBy(elems[k], false, watched)
  {
    if elems == [] then (false, false)
    else
      var rest := UseFlags(elems[1..], watched);
      assert forall k :: 1 <= k < |elems| ==> elems[k] == elems[1..][k - 1];
      match elems[0]
      case OpEl(o) =>
        if !Reads(o, watched) then rest
        else if o.Project? then (true, rest.1)
        else (rest.0, true)
      case Line(_) => rest
  }

  /**
   * The format of a Project's output: static_vbp_f when only Projects
   * consume it, dynamic_vbp_f when only other nodes do, uncompr_f otherwise.
   */
  function ProjectOutFormat(used: (bool, bool), outDataCol: string, maxBw: map<string, nat>, ps: ProcessingStyle): Result<Format, ComprError>
  {
    if used.0 && !used.1 then
      if outDataCol in maxBw then Ok(Some(MakeStaticVBP(maxBw[outDataCol], ps))) else Err(MissingBitWidth(outDataCol))
    else if !used.0 && used.1 then Ok(Some(MakeDynamicVBP(ps)))
    else Ok(Some(FORMAT_UNCOMPR))
  }

  /** The Project branch: its output by consumers, inPosF dynamic, inDataF static. */
  function ProjectStaticNode(o: Op, used: (bool, bool), maxBw: map<string, nat>, ps: ProcessingStyle): Result<Op, ComprError>
    requires o.Project?
  {
    var outF :- ProjectOutFormat(used, o.outDataCol, maxBw, ps);
    if o.inDataCol !in maxBw then Err(MissingBitWidth(o.inDataCol))
    else Ok(o.(outDataF := outF, inPosF := Some(MakeDynamicVBP(ps)), inDataF := Some(MakeStaticVBP(maxBw[o.inDataCol], ps))))
  }

  /**
   * What the consumer scan compares input columns with: the source compares
   * them with the Project's `outDataF` (a format name, uncompr_f at that
   * point); its evident intent is the Project's `outDataCol`.
   */
  datatype Watch = OutDataF | OutDataCol

  function Watched(o: Op, w: Watch): Option<string>
    requires o.Project?
  {
    if w == OutDataF then o.outDataF else Some(o.outDataCol)
  }

  /** The step for element k of the uncompressed program `p`; the scan covers p[k..], the element included. */
  function ProjectStaticElement(p: seq<Element>, k: nat, w: Watch, maxBw: map<string, nat>, ps: ProcessingStyle): Result<Element, ComprError>
    requires k < |p|
  {
    match p[k]
    case OpEl(o) =>
      if DynamicKind(o) then Ok(OpEl(Fill(o, Some(MakeDynamicVBP(ps)))))
      else if o.Project? then
        var o2 :- ProjectStaticNode(o, UseFlags(p[k..], Watched(o, w)), maxBw, ps);
        Ok(OpEl(o2))
      else Ok(p[k])
    case Line(_) => Ok(p[k])
  }

  function ProjectStaticWith(q: Program, w: Watch, maxBw: map<string, nat>, ps: ProcessingStyle): Result<Program, ComprError>
  {
    var u := AllUncompr(q);
    var prog :- Collect(seq(|u.prog|, k requires 0 <= k < |u.prog| => ProjectStaticElement(u.prog, k, w, maxBw, ps)));
    Ok(u.(headers := u.headers + {DYNAMIC_VBP_H, STATIC_VBP_H}, prog := prog))
  }

  /** `_configCompr_AllDynamicVBP_ProjectStaticVBP`, as written: the scan watches outDataF. */
  function AllDynamicVBPProjectStaticVBP(q: Program, maxBw: map<string, nat>, ps: ProcessingStyle): Result<Program, ComprError>
  {
    ProjectStaticWith(q, OutDataF, maxBw, ps)
  }

  /** The same configuration with the scan watching the Project's output column. */
  function AllDynamicVBPProjectStaticVBPIntended(q: Program, maxBw: map<string, nat>, ps: ProcessingStyle): Result<Program, ComprError>
  {
    ProjectStaticWith(q, OutDataCol, maxBw, ps)
  }

  // ---------------------------------------------------------------------------
  // What the project-static configuration does
  // ---------------------------------------------------------------------------

  /** Some element of p[k..] is a node of the given side reading a column equal to `watched`. */
  ghost predicate ConsumedBy(p: seq<Element>, k: nat, byProject: bool, watched: Option<string>)
  {
    exists i :: k <= i < |p| && ReadBy(p[i], byProject, watched)
  }

  /** What the scan watches, as a value of the node before the configuration runs. */
  function WatchedBefore(o: Op, w: Watch): Option<string>
    requires o.Project?
  {
    if w == OutDataF then Some(FORMAT_UNCOMPR) else Some(o.outDataCol)
  }

  /** The consumer flags for element k of the input program (both false for a non-Project). */
  ghost function UsedAfter(p: seq<Element>, k: nat, w: Watch): (bool, bool)
    requires k < |p|
  {
    if p[k].OpEl? && p[k].node.Project? then
      var x := WatchedBefore(p[k].node, w);
      (ConsumedBy(p, k, true, x), ConsumedBy(p, k, false, x))
    else (false, false)
  }

  /** A Project has every bit width its branch looks up. */
  ghost predicate ProjectReady(o: Op, used: (bool, bool), maxBw: map<string, nat>)
    requires o.Project?
  {
    o.inDataCol in maxBw && (used.0 && !used.1 ==> o.outDataCol in maxBw)
  }

  /** The format the project-static configuration gives slot `f` of `o` when it succeeds. */
  function ProjectStaticTarget(maxBw: map<string, nat>, ps: ProcessingStyle, used: (bool, bool), o: Op, f: Slot): Format
  {
    if DynamicKind(o) then Some(MakeDynamicVBP(ps))
    else if o.Project? then
      if f.dir == Out then
        if used.0 && !used.1 then
          if o.outDataCol in maxBw then Some(MakeStaticVBP(maxBw[o.outDataCol], ps)) else None
        else if !used.0 && used.1 then Some(MakeDynamicVBP(ps))
        else Some(FORMAT_UNCOMPR)
      else if f.role == Pos then Some(MakeDynamicVBP(ps))
      else if o.inDataCol in maxBw then Some(MakeStaticVBP(maxBw[o.inDataCol], ps))
      else None
    else Some(FORMAT_UNCOMPR)
  }

  /** AllUncompr changes no column and no kind, so the scan sees what it would have seen before. */
  lemma UseFlagsUncompr(q: Program, k: nat, x: Option<string>)
    requires k < |q.prog|
    ensures UseFlags(AllUncompr(q).prog[k..], x) == (ConsumedBy(q.prog, k, true, x), ConsumedBy(q.prog, k, false, x))
  {
    var u := AllUncompr(q).prog;
    forall i, b | k <= i < |q.prog|
      ensures ReadBy(u[i], b, x) == ReadBy(q.prog[i], b, x)
    {
      if q.prog[i].OpEl? {
        ProjectByName(q.prog[i].node);
        ProjectByName(u[i].node);
      }
    }
    var t := u[k..];
    forall b
      ensures (exists j :: 0 <= j < |t| && ReadBy(t[j], b, x)) == ConsumedBy(q.prog, k, b, x)
    {
      if ConsumedBy(q.prog, k, b, x) {
        var i :| k <= i < |q.prog| && ReadBy(q.prog[i], b, x);
        assert t[i - k] == u[i];
      }
    }
  }

  /** A Project of the input program under AllUncompr and then the project-static step. */
  lemma ProjectStaticProjectSpec(q: Program, k: nat, w: Watch, maxBw: map<string, nat>, ps: ProcessingStyle)
    requires k < |q.prog| && q.prog[k].OpEl? && q.prog[k].node.Project?
    ensures var r := ProjectStaticElement(AllUncompr(q).prog, k, w, maxBw, ps);
      var used := UsedAfter(q.prog, k, w);
      && (r.Ok? <==> ProjectReady(q.prog[k].node, used, maxBw))
      && (r.Err? ==> r.error.MissingBitWidth? && r.error.column !in maxBw)
      && (r.Ok? ==> Refilled(q.prog[k], r.value, (o, f) => ProjectStaticTarget(maxBw, ps, used, o, f)))
  {
    var o := q.prog[k].node;
    var u := AllUncompr(q).prog;
    var uo := Fill(o, Some(FORMAT_UNCOMPR));
    assert u[k] == OpEl(uo);
    ProjectNodeSpec(o, UsedAfter(q.prog, k, w), maxBw, ps);
    assert !DynamicKind(uo);
    assert FormatSlots(uo)[0] == FmtSlot(Out, Data, uo.outDataF);
    UseFlagsUncompr(q, k, WatchedBefore(o, w));
    assert UseFlags(u[k..], Watched(uo, w)) == UsedAfter(q.prog, k, w);
  }

  /** The Project branch on the uncompressed node, given the consumer flags. */
  lemma ProjectNodeSpec(o: Op, used: (bool, bool), maxBw: map<string, nat>, ps: ProcessingStyle)
    requires o.Project?
    ensures var u := Fill(o, Some(FORMAT_UNCOMPR));
      u.Project? &&
      var r := ProjectStaticNode(u, used, maxBw, ps);
      && (r.Ok? <==> ProjectReady(o, used, maxBw))
      && (r.Err? ==> r.error.MissingBitWidth? && r.error.column !in maxBw)
      && (r.Ok? ==> Refilled(OpEl(o), OpEl(r.value), (o, f) => ProjectStaticTarget(maxBw, ps, used, o, f)))
  {
    ProjectByName(o);
    ProjectByName(Fill(o, Some(FORMAT_UNCOMPR)));
    assert FormatSlots(o) == [FmtSlot(Out, Data, o.outDataF), FmtSlot(In, Data, o.inDataF), FmtSlot(In, Pos, o.inPosF)];
  }

  /** Any other element of the input program under AllUncompr and then the project-static step. */
  lemma ProjectStaticOtherSpec(q: Program, k: nat, w: Watch, maxBw: map<string, nat>, ps: ProcessingStyle)
    requires k < |q.prog| && !(q.prog[k].OpEl? && q.prog[k].node.Project?)
    ensures var r := ProjectStaticElement(AllUncompr(q).prog, k, w, maxBw, ps);
      && r.Ok?
      && Refilled(q.prog[k], r.value, (o, f) => ProjectStaticTarget(maxBw, ps, UsedAfter(q.prog, k, w), o, f))
  {
    if q.prog[k].OpEl? {
      ProjectByName(q.prog[k].node);
      ProjectByName(AllUncompr(q).prog[k].node);
    }
  }

  /**
   * The project-static configuration (with either watch) succeeds exactly
   * when every Project has the bit widths its branch looks up, and otherwise
   * raises on a column without one. On success it adds the four headers;
   * the supporting kinds get dynamic_vbp_f everywhere; a Project gets
   * dynamic_vbp_f for inPosF, static_vbp_f at the input's bit width for
   * inDataF, and for outDataF static_vbp_f when only Projects at or after it
   * read the watched value, dynamic_vbp_f when only other nodes do, and
   * uncompr_f otherwise; every other slot is uncompr_f.
   */
  lemma ProjectStaticWithSpec(q: Program, w: Watch, maxBw: map<string, nat>, ps: ProcessingStyle)
    ensures var r := ProjectStaticWith(q, w, maxBw, ps);
      && (r.Ok? <==> forall k :: 0 <= k < |q.prog| && q.prog[k].OpEl? && q.prog[k].node.Project? ==>
            ProjectReady(q.prog[k].node, UsedAfter(q.prog, k, w), maxBw))
      && (r.Err? ==> r.error.MissingBitWidth? && r.error.column !in maxBw)
      && (r.Ok? ==>
            && r.value.headers == q.headers + {FORMAT_H, UNCOMPR_H, DYNAMIC_VBP_H, STATIC_VBP_H}
            && r.value.resultCols == q.resultCols
            && |r.value.prog| == |q.prog|
            && forall k :: 0 <= k < |q.prog| ==>
                 Refilled(q.prog[k], r.value.prog[k], (o, f) => ProjectStaticTarget(maxBw, ps, UsedAfter(q.prog, k, w), o, f)))
  {
    var u := AllUncompr(q);
    var rs := seq(|u.prog|, k requires 0 <= k < |u.prog| => ProjectStaticElement(u.prog, k, w, maxBw, ps));
    forall k | 0 <= k < |q.prog|
      ensures rs[k].Ok? <==> (q.prog[k].OpEl? && q.prog[k].node.Project? ==> ProjectReady(q.prog[k].node, UsedAfter(q.prog, k, w), maxBw))
      ensures rs[k].Err? ==> rs[k].error.MissingBitWidth? && rs[k].error.column !in maxBw
      ensures rs[k].Ok? ==> Refilled(q.prog[k], rs[k].value, (o, f) => ProjectStaticTarget(maxBw, ps, UsedAfter(q.prog, k, w), o, f))
    {
      if q.prog[k].OpEl? && q.prog[k].node.Project? {
        ProjectStaticProjectSpec(q, k, w, maxBw, ps);
      } else {
        ProjectStaticOtherSpec(q, k, w, maxBw, ps);
      }
    }
  }

  /** The Project at k as the configuration leaves it. */
  lemma ProjectOutcome(q: Program, k: nat, w: Watch, maxBw: map<string, nat>, ps: ProcessingStyle)
    requires k < |q.prog| && q.prog[k].OpEl? && q.prog[k].node.Project?
    requires ProjectStaticWith(q, w, maxBw, ps).Ok?
    ensures var o := q.prog[k].node;
      var e := ProjectStaticWith(q, w, maxBw, ps).value.prog[k];
      var used := UsedAfter(q.prog, k, w);
      && e.OpEl? && e.node.Project?
      && (used.0 && !used.1 ==> o.outDataCol in maxBw && e.node.outDataF == Some(MakeStaticVBP(maxBw[o.outDataCol], ps)))
      && (!used.0 && used.1 ==> e.node.outDataF == Some(MakeDynamicVBP(ps)))
      && (used.0 == used.1 ==> e.node.outDataF == Some(FORMAT_UNCOMPR))
      && e.node.inPosF == Some(MakeDynamicVBP(ps))
      && o.inDataCol in maxBw
      && e.node.inDataF == Some(MakeStaticVBP(maxBw[o.inDataCol], ps))
  {
    var o := q.prog[k].node;
    var u := AllUncompr(q).prog;
    var uo := Fill(o, Some(FORMAT_UNCOMPR));
    assert u[k] == OpEl(uo);
    ProjectByName(o);
    ProjectByName(uo);
    assert !DynamicKind(uo);
    assert FormatSlots(uo)[0] == FmtSlot(Out, Data, uo.outDataF);
    assert uo.inDataCol == o.inDataCol && uo.outDataCol == o.outDataCol by {
      assert ColumnSlots(uo)[0] == ColumnSlots(o)[0] && ColumnSlots(uo)[1] == ColumnSlots(o)[1];
    }
    UseFlagsUncompr(q, k, WatchedBefore(o, w));
    var rs := seq(|u|, i requires 0 <= i < |u| => ProjectStaticElement(u, i, w, maxBw, ps));
    assert rs[k] == ProjectStaticElement(u, k, w, maxBw, ps);
  }

  /**
   * As written, the scan looks for input columns named "uncompr_f": unless
   * some node at or after a Project reads a column of that name, the
   * Project's outDataF stays uncompr_f whoever consumes its output.
   */
  lemma AsWrittenProjectOutputUncompressed(q: Program, k: nat, maxBw: map<string, nat>, ps: ProcessingStyle)
    requires k < |q.prog| && q.prog[k].OpEl? && q.prog[k].node.Project?
    requires forall i :: k <= i < |q.prog| && q.prog[i].OpEl? ==> !Reads(q.prog[i].node, Some(FORMAT_UNCOMPR))
    requires AllDynamicVBPProjectStaticVBP(q, maxBw, ps).Ok?
    ensures var e := AllDynamicVBPProjectStaticVBP(q, maxBw, ps).value.prog[k];
      e.OpEl? && e.node.Project? && e.node.outDataF == Some(FORMAT_UNCOMPR)
  {
    ProjectOutcome(q, k, OutDataF, maxBw, ps);
    assert !ConsumedBy(q.prog, k, true, Some(FORMAT_UNCOMPR)) && !ConsumedBy(q.prog, k, false, Some(FORMAT_UNCOMPR));
  }

  /**
   * With the scan watching the output column, a Project's output is
   * static_vbp_f when only Projects at or after it read that column,
   * dynamic_vbp_f when only other nodes do, and uncompr_f otherwise.
   */
  lemma IntendedProjectOutput(q: Program, k: nat, maxBw: map<string, nat>, ps: ProcessingStyle)
    requires k < |q.prog| && q.prog[k].OpEl? && q.prog[k].node.Project?
    requires AllDynamicVBPProjectStaticVBPIntended(q, maxBw, ps).Ok?
    ensures var col := q.prog[k].node.outDataCol;
      var byProject := ConsumedBy(q.prog, k, true, Some(col));
      var byOther := ConsumedBy(q.prog, k, false, Some(col));
      var e := AllDynamicVBPProjectStaticVBPIntended(q, maxBw, ps).value.prog[k];
      && e.OpEl? && e.node.Project?
      && (byProject && !byOther ==> col in maxBw && e.node.outDataF == Some(MakeStaticVBP(maxBw[col], ps)))
      && (!byProject && byOther ==> e.node.outDataF == Some(MakeDynamicVBP(ps)))
      && (byProject == byOther ==> e.node.outDataF == Some(FORMAT_UNCOMPR))
  {
    ProjectOutcome(q, k, OutDataCol, maxBw, ps);
  }

  /**
   * The input that shows the difference: a Project whose output only a
   * later Project reads. As written its output stays uncompr_f; with the
   * scan watching the output column it becomes static_vbp_f.
   */
  lemma ProjectScanFinding(x: string, a: string, b: string, y: string, c: string, maxBw: map<string, nat>, ps: ProcessingStyle)
    requires a != x && b != x && y != x && y != c
    requires FORMAT_UNCOMPR !in [x, a, b, c]
    requires x in maxBw && a in maxBw
    ensures var q := FindingProgram(x, a, b, y, c);
      var asWritten := AllDynamicVBPProjectStaticVBP(q, maxBw, ps);
      var intended := AllDynamicVBPProjectStaticVBPIntended(q, maxBw, ps);
      && asWritten.Ok? && intended.Ok? && |asWritten.value.prog| == |intended.value.prog| == 2
      && asWritten.value.prog[0] != intended.value.prog[0]
      && asWritten.value.prog[0].OpEl? && asWritten.value.prog[0].node.outDataF == Some(FORMAT_UNCOMPR)
      && intended.value.prog[0].OpEl? && intended.value.prog[0].node.outDataF == Some(MakeStaticVBP(maxBw[x], ps))
  {
    var q := FindingProgram(x, a, b, y, c);
    FindingReady(x, a, b, y, c, maxBw, ps);
    FindingConsumers(x, a, b, y, c);
    ProjectOutcome(q, 0, OutDataF, maxBw, ps);
    ProjectOutcome(q, 0, OutDataCol, maxBw, ps);
    var s := MakeStaticVBP(maxBw[x], ps);
    assert s[0] != FORMAT_UNCOMPR[0];
  }

  /** Two Projects: the second reads the output x of the first. */
  function FindingProgram(x: string, a: string, b: string, y: string, c: string): Program
  {
    Program({}, [OpEl(Project(x, a, b, None, None, None)), OpEl(Project(y, x, c, None, None, None))], [])
  }

  /** Who reads what in that program. */
  lemma FindingConsumers(x: string, a: string, b: string, y: string, c: string)
    requires a != x && b != x && y != x && y != c
    requires FORMAT_UNCOMPR !in [x, a, b, c]
    ensures var p := FindingProgram(x, a, b, y, c).prog;
      && UsedAfter(p, 0, OutDataF) == (false, false)
      && UsedAfter(p, 0, OutDataCol) == (true, false)
      && UsedAfter(p, 1, OutDataF) == (false, false)
      && UsedAfter(p, 1, OutDataCol) == (false, false)
  {
    var p := FindingProgram(x, a, b, y, c).prog;
    FindingReaders(x, a, b, y, c);
    assert ReadBy(p[1], true, Some(x));
  }

  lemma FindingReaders(x: string, a: string, b: string, y: string, c: string)
    ensures var p := FindingProgram(x, a, b, y, c).prog;
      forall i, v :: 0 <= i < 2 ==> (Reads(p[i].node, v) <==> v == Some(ColumnSlots(p[i].node)[1].name) || v == Some(ColumnSlots(p[i].node)[2].name))
  {
  }

  /** Both watches succeed on that program when x and a have bit widths. */
  lemma FindingReady(x: string, a: string, b: string, y: string, c: string, maxBw: map<string, nat>, ps: ProcessingStyle)
    requires a != x && b != x && y != x && y != c
    requires FORMAT_UNCOMPR !in [x, a, b, c]
    requires x in maxBw && a in maxBw
    ensures ProjectStaticWith(FindingProgram(x, a, b, y, c), OutDataF, maxBw, ps).Ok?
    ensures ProjectStaticWith(FindingProgram(x, a, b, y, c), OutDataCol, maxBw, ps).Ok?
  {
    var q := FindingProgram(x, a, b, y, c);
    FindingConsumers(x, a, b, y, c);
    ProjectStaticWithOk(q, OutDataF, maxBw, ps);
    ProjectStaticWithOk(q, OutDataCol, maxBw, ps);
  }

  /** The success condition of ProjectStaticWithSpec on its own. */
  lemma ProjectStaticWithOk(q: Program, w: Watch, maxBw: map<string, nat>, ps: ProcessingStyle)
    ensures ProjectStaticWith(q, w, maxBw, ps).Ok? <==>
      forall k :: 0 <= k < |q.prog| && q.prog[k].OpEl? && q.prog[k].node.Project? ==>
        ProjectReady(q.prog[k].node, UsedAfter(q.prog, k, w), maxBw)
  {
    ProjectStaticWithSpec(q, w, maxBw, ps);
  }
}
