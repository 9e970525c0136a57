/**
 * The plan analysis of mal2x: one forward pass over the translated program
 * that tracks how column variables are assigned and used, and which columns
 * are known to hold unique values. Reading a format slot yields a format
 * name or None, so the tracked names are `Option<string>`.
 */
module Analysis {
  import opened Wrappers
  import opened Operators
  import opened Usage

  type Name = Option<string>

  datatype AnalysisResult = AnalysisResult(
    varsUsedBeforeAssigned: seq<Name>,
    varsNeverUsed: seq<Name>,
    varsUnique: seq<string>)

  /** The RuntimeErrors the pass raises. */
  datatype AnalysisError =
    | NonUnique(param: string, className: string)  // "input column '…' of operator '…' must be unique"
    | Untracked(className: string)                 // the kind has no uniqueness rule

  /** The base columns known to be unique: the primary keys of the SSB dimension tables. */
  const SsbKeys: seq<string> := ["customer.c_custkey", "date.d_datekey", "part.p_partkey", "supplier.s_suppkey"]

  datatype State = State(usage: Lists<Name>, unique: seq<string>)

  function Initial(baseCols: seq<string>): State
  {
    State(Usage.Initial(Somes(baseCols)), SsbKeys)
  }

  function Somes(names: seq<string>): (r: seq<Name>)
    ensures |r| == |names| && forall k :: 0 <= k < |names| ==> r[k] == Some(names[k])
  {
    seq(|names|, k requires 0 <= k < |names| => Some(names[k]))
  }

  /** The usage tracking of one node: slots in declaration order, outputs assigned, inputs used. */
  function Track(u: Lists<Name>, slots: seq<Slot>): Lists<Name>
    decreases |slots|
  {
    if slots == [] then u
    else
      var v := ValueOf(slots[0]);
      Track(if slots[0].dir == Out then Assign(u, v) else FoundUsage(u, v), slots[1..])
  }

  /** The uniqueness rule of one node: the names it makes unique, appended in order. */
  function UniqueStep(unique: seq<string>, o: Op): Result<seq<string>, AnalysisError>
  {
    match o
    case Project(oc, ic, pc, _, _, _) =>
      Ok(if ic in unique && pc in unique then unique + [oc] else unique)
    case Select(oc, _, _, _, _, _) =>
      Ok(unique + [oc])
    case Intersect(oc, lc, rc, _, _, _) =>
      if lc !in unique then Err(NonUnique("inPosLCol", "Intersect"))
      else if rc !in unique then Err(NonUnique("inPosRCol", "Intersect"))
      else Ok(unique + [oc])
    case Merge(oc, lc, rc, _, _, _) =>
      if lc !in unique then Err(NonUnique("inPosLCol", "Merge"))
      else if rc !in unique then Err(NonUnique("inPosRCol", "Merge"))
      else Ok(unique + [oc])
    case Join(olc, orc, ilc, irc, _, _, _, _) =>
      var u := if ilc in unique then unique + [orc] else unique;
      Ok(if irc in u then u + [olc] else u)
    case Nto1Join(olc, orc, ilc, irc, _, _, _, _) =>
      if ilc !in unique then Err(NonUnique("inDataLCol", "Nto1Join"))
      else
        var u := unique + [orc];
        Ok(if irc in u then u + [olc] else u)
    case LeftSemiNto1Join(orc, ilc, _, _, _, _) =>
      if ilc !in unique then Err(NonUnique("inDataLCol", "LeftSemiNto1Join"))
      else Ok(unique + [orc])
    case CalcBinary(_, _, _, _, _, _, _) => Ok(unique)
    case SumWholeCol(oc, _, _) => Ok(unique + [oc])
    case SumGrBased(_, _, _, _, _, _, _) => Ok(unique)
    case GroupUnary(gc, ec, ic, _, _, _) =>
      Ok((if ic in unique then unique + [gc] else unique) + [ec])
    case GroupBinary(gc, ec, igc, ic, _, _, _, _) =>
      Ok((if ic in unique && igc in unique then unique + [gc] else unique) + [ec])
    case Morph(_, _, _) => Err(Untracked("Morph"))
  }

  /** One program element: text lines are skipped. */
  function Step(st: State, el: Element): Result<State, AnalysisError>
  {
    match el
    case Line(_) => Ok(st)
    case OpEl(o) =>
      var usage := Track(st.usage, Slots(o));
      var unique :- UniqueStep(st.unique, o);
      Ok(State(usage, unique))
  }

  function Run(st: State, prog: seq<Element>): Result<State, AnalysisError>
    decreases |prog|
  {
    if prog == [] then Ok(st)
    else
      match Step(st, prog[0])
      case Err(e) => Err(e)
      case Ok(next) => Run(next, prog[1..])
  }

  /** `analyze`: the pass over the program, then the result columns counted as uses. */
  function Analysis(tables: seq<(string, seq<string>)>, prog: seq<Element>, resultCols: seq<string>): Result<AnalysisResult, AnalysisError>
  {
    var st :- Run(Initial(BaseColumns(tables)), prog);
    var u := UseAll(st.usage, Somes(resultCols));
    Ok(AnalysisResult(u.usedBeforeAssigned, u.neverUsed, st.unique))
  }

  // Properties of the pass.

  /**
   * When a node kind raises: Intersect and Merge unless both position inputs
   * are already unique, the N:1 joins unless their left data input is, and
   * any kind without a uniqueness rule (Morph). Otherwise the unique list only
   * grows, and only by output columns of the node.
   */
  lemma UniqueStepRules(unique: seq<string>, o: Op)
    ensures UniqueStep(unique, o).Err? <==>
      || ((o.Intersect? || o.Merge?) && (o.inPosLCol !in unique || o.inPosRCol !in unique))
      || ((o.Nto1Join? || o.LeftSemiNto1Join?) && o.inDataLCol !in unique)
      || o.Morph?
  {
  }

  lemma UniqueStepGrowsByOutputs(unique: seq<string>, o: Op)
    ensures UniqueStep(unique, o).Ok? ==>
      var next := UniqueStep(unique, o).value;
      && unique <= next
      && forall x <- next[|unique|..] :: exists c <- ColumnSlots(o) :: c.dir == Out && c.name == x
  {
    if o.Project? || o.Select? || o.Intersect? || o.Merge? || o.Join? || o.Nto1Join? {
      SelectionJoinGrowsByOutputs(unique, o);
    } else {
      AggregateGrowsByOutputs(unique, o);
    }
  }

  lemma SelectionJoinGrowsByOutputs(unique: seq<string>, o: Op)
    requires o.Project? || o.Select? || o.Intersect? || o.Merge? || o.Join? || o.Nto1Join?
    ensures UniqueStep(unique, o).Ok? ==>
      var next := UniqueStep(unique, o).value;
      && unique <= next
      && forall x <- next[|unique|..] :: exists c <- ColumnSlots(o) :: c.dir == Out && c.name == x
  {
    if UniqueStep(unique, o).Ok? {
      var next := UniqueStep(unique, o).value;
      var added := next[|unique|..];
      var cs := ColumnSlots(o);
      match o
      case Project(oc, _, _, _, _, _) =>
        assert added == [] || added == [oc];
        assert cs[0] == ColSlot(Out, Data, oc);
      case Select(oc, _, _, _, _, _) =>
        assert added == [oc];
        assert cs[0] == ColSlot(Out, Pos, oc);
      case Intersect(oc, _, _, _, _, _) =>
        assert added == [oc];
        assert cs[0] == ColSlot(Out, Pos, oc);
      case Merge(oc, _, _, _, _, _) =>
        assert added == [oc];
        assert cs[0] == ColSlot(Out, Pos, oc);
      case Join(olc, orc, _, _, _, _, _, _) =>
        assert added == [] || added == [orc] || added == [olc] || added == [orc, olc];
        assert cs[0] == ColSlot(Out, PosL, olc) && cs[1] == ColSlot(Out, PosR, orc);
      case Nto1Join(olc, orc, _, _, _, _, _, _) =>
        assert added == [orc] || added == [orc, olc];
        assert cs[0] == ColSlot(Out, PosL, olc) && cs[1] == ColSlot(Out, PosR, orc);
    }
  }

  lemma AggregateGrowsByOutputs(unique: seq<string>, o: Op)
    requires o.LeftSemiNto1Join? || o.CalcBinary? || o.SumWholeCol? || o.SumGrBased? || o.GroupUnary? || o.GroupBinary? || o.Morph?
    ensures UniqueStep(unique, o).Ok? ==>
      var next := UniqueStep(unique, o).value;
      && unique <= next
      && forall x <- next[|unique|..] :: exists c <- ColumnSlots(o) :: c.dir == Out && c.name == x
  {
    if UniqueStep(unique, o).Ok? {
      var next := UniqueStep(unique, o).value;
      var added := next[|unique|..];
      var cs := ColumnSlots(o);
      match o
      case LeftSemiNto1Join(orc, _, _, _, _, _) =>
        assert added == [orc];
        assert cs[0] == ColSlot(Out, PosR, orc);
      case CalcBinary(_, _, _, _, _, _, _) =>
        assert added == [];
      case SumWholeCol(oc, _, _) =>
        assert added == [oc];
        assert cs[0] == ColSlot(Out, Data, oc);
      case SumGrBased(_, _, _, _, _, _, _) =>
        assert added == [];
      case GroupUnary(gc, ec, _, _, _, _) =>
        assert added == [ec] || added == [gc, ec];
        assert cs[0] == ColSlot(Out, Gr, gc) && cs[1] == ColSlot(Out, Ext, ec);
      case GroupBinary(gc, ec, _, _, _, _, _, _) =>
        assert added == [ec] || added == [gc, ec];
        assert cs[0] == ColSlot(Out, Gr, gc) && cs[1] == ColSlot(Out, Ext, ec);
    }
  }

  /** The output rules: which outputs a node makes unique, by kind. */
  lemma UniqueOutputs(unique: seq<string>, o: Op)
    requires UniqueStep(unique, o).Ok?
    ensures var next := UniqueStep(unique, o).value;
      && ((o.Select? || o.Intersect? || o.Merge?) ==> o.outPosCol in next)
      && (o.SumWholeCol? ==> o.outDataCol in next)
      && ((o.GroupUnary? || o.GroupBinary?) ==> o.outExtCol in next)
      && (o.GroupUnary? ==> (o.outGrCol in next <== o.inDataCol in unique))
      && (o.GroupBinary? ==> (o.outGrCol in next <== o.inDataCol in unique && o.inGrCol in unique))
      && (o.Project? ==> (o.outDataCol in next <== o.inDataCol in unique && o.inPosCol in unique))
      && ((o.Join? || o.Nto1Join? || o.LeftSemiNto1Join?) && o.inDataLCol in unique ==> o.outPosRCol in next)
      && ((o.Join? || o.Nto1Join?) && o.inDataRCol in unique ==> o.outPosLCol in next)
      && ((o.CalcBinary? || o.SumGrBased?) ==> next == unique)
  {
  }

  /**
   * Format slots take part in the tracking because only the attribute name's
   * prefix is tested: in a fresh Project the unset output format (None) is
   * assigned, the unset input format uses it up, and the second unset input
   * format counts as a use of an assigned name that is no longer pending.
   */
  lemma FormatSlotsAreTracked(oc: string, ic: string, pc: string)
    requires oc != ic && oc != pc && ic != pc
    ensures Track(Lists([], [], []), Slots(NewProject(oc, ic, pc)))
      == Lists([Some(oc), None], [Some(oc)], [Some(ic), Some(pc)])
  {
    var cols := [ColSlot(Out, Data, oc), ColSlot(In, Data, ic), ColSlot(In, Pos, pc)];
    var fmts := [FmtSlot(Out, Data, None), FmtSlot(In, Data, None), FmtSlot(In, Pos, None)];
    assert Slots(NewProject(oc, ic, pc)) == cols + fmts;
    TrackAppend(Lists([], [], []), cols, fmts);
    TrackProjectColumns(oc, ic, pc);
    TrackUnsetFormats(oc, ic, pc);
  }

  lemma TrackProjectColumns(oc: string, ic: string, pc: string)
    requires oc != ic && oc != pc && ic != pc
    ensures Track(Lists([], [], []), [ColSlot(Out, Data, oc), ColSlot(In, Data, ic), ColSlot(In, Pos, pc)])
      == Lists([Some(oc)], [Some(oc)], [Some(ic), Some(pc)])
  {
    var c0, c1, c2 := ColSlot(Out, Data, oc), ColSlot(In, Data, ic), ColSlot(In, Pos, pc);
    var u0: Lists<Name> := Lists([], [], []);
    var u1 := Lists([Some(oc)], [Some(oc)], []);
    var u2 := Lists([Some(oc)], [Some(oc)], [Some(ic)]);
    var u3 := Lists([Some(oc)], [Some(oc)], [Some(ic), Some(pc)]);
    assert [c0, c1, c2] == [c0] + [c1] + [c2];
    TrackAppend(u0, [c0] + [c1], [c2]);
    TrackAppend(u0, [c0], [c1]);
    TrackOne(u0, c0);
    assert Assign(u0, Some(oc)) == u1;
    TrackOne(u1, c1);
    assert FoundUsage(u1, Some(ic)) == u2;
    TrackOne(u2, c2);
    assert FoundUsage(u2, Some(pc)) == u3;
  }

  lemma TrackUnsetFormats(oc: string, ic: string, pc: string)
    ensures Track(Lists([Some(oc)], [Some(oc)], [Some(ic), Some(pc)]), [FmtSlot(Out, Data, None), FmtSlot(In, Data, None), FmtSlot(In, Pos, None)])
      == Lists([Some(oc), None], [Some(oc)], [Some(ic), Some(pc)])
  {
    var f0, f1, f2 := FmtSlot(Out, Data, None), FmtSlot(In, Data, None), FmtSlot(In, Pos, None);
    var u3 := Lists([Some(oc)], [Some(oc)], [Some(ic), Some(pc)]);
    var u4 := Lists([Some(oc), None], [Some(oc), None], [Some(ic), Some(pc)]);
    var u5 := Lists([Some(oc), None], [Some(oc)], [Some(ic), Some(pc)]);
    assert [f0, f1, f2] == [f0] + [f1] + [f2];
    TrackAppend(u3, [f0] + [f1], [f2]);
    TrackAppend(u3, [f0], [f1]);
    TrackOne(u3, f0);
    assert Assign(u3, None) == u4;
    TrackOne(u4, f1);
    UseOfUnsetFormat(oc, u4);
    TrackOne(u5, f2);
    assert FoundUsage(u5, None) == u5;
  }

  /** Tracking a single slot: an output slot assigns its value, an input slot uses it. */
  lemma TrackOne(u: Lists<Name>, s: Slot)
    ensures Track(u, [s]) == if s.dir == Out then Assign(u, ValueOf(s)) else FoundUsage(u, ValueOf(s))
  {
    assert [s][1..] == [];
  }

  /** The first use of the unset format removes the pending None that the output format slot added. */
  lemma UseOfUnsetFormat(oc: string, u: Lists<Name>)
    requires u == Lists([Some(oc), None], [Some(oc), None], u.usedBeforeAssigned)
    ensures FoundUsage(u, None) == u.(neverUsed := [Some(oc)])
  {
    assert IndexOf(u.neverUsed, None) == 1;
    assert RemoveFirst(u.neverUsed, None) == [Some(oc)];
  }

  lemma {:induction false} TrackAppend(u: Lists<Name>, a: seq<Slot>, b: seq<Slot>)
    ensures Track(u, a + b) == Track(Track(u, a), b)
    decreases |a|
  {
    if a != [] {
      assert (a + b)[1..] == a[1..] + b;
      var v := ValueOf(a[0]);
      TrackAppend(if a[0].dir == Out then Assign(u, v) else FoundUsage(u, v), a[1..], b);
    } else {
      assert a + b == b;
    }
  }

  /** The values the output slots of the program's nodes yield, format slots included. */
  ghost function OutputValues(prog: seq<Element>): set<Name>
  {
    set k, s | 0 <= k < |prog| && prog[k].OpEl? && s in Slots(prog[k].node) && s.dir == Out :: ValueOf(s)
  }

  /** The names of the program's output columns. */
  ghost function OutputColumns(prog: seq<Element>): set<string>
  {
    set k, c | 0 <= k < |prog| && prog[k].OpEl? && c in ColumnSlots(prog[k].node) && c.dir == Out :: c.name
  }

  ghost predicate Keeps(st: State, base: seq<Name>, outs: set<Name>, cols: set<string>)
  {
    && Consistent(st.usage, base)
    && (forall v <- st.usage.neverUsed :: v in outs)
    && SsbKeys <= st.unique
    && (forall x <- st.unique :: x in SsbKeys || x in cols)
  }

  lemma {:induction false} TrackKeeps(u: Lists<Name>, base: seq<Name>, slots: seq<Slot>, outs: set<Name>)
    requires Consistent(u, base) && forall v <- u.neverUsed :: v in outs
    requires forall s <- slots :: s.dir == Out ==> ValueOf(s) in outs
    ensures Consistent(Track(u, slots), base) && forall v <- Track(u, slots).neverUsed :: v in outs
    decreases |slots|
  {
    if slots != [] {
      var v := ValueOf(slots[0]);
      var next := if slots[0].dir == Out then Assign(u, v) else FoundUsage(u, v);
      if slots[0].dir == Out {
        AssignKeepsConsistent(u, base, v);
      } else {
        FoundUsageKeepsConsistent(u, base, v);
        if v in u.neverUsed {
          forall w <- next.neverUsed ensures w in outs {
            assert multiset(next.neverUsed)[w] > 0;
          }
        }
      }
      TrackKeeps(next, base, slots[1..], outs);
    }
  }

  lemma {:induction false} RunKeeps(st: State, base: seq<Name>, prog: seq<Element>, outs: set<Name>, cols: set<string>)
    requires Keeps(st, base, outs, cols)
    requires OutputValues(prog) <= outs && OutputColumns(prog) <= cols
    requires Run(st, prog).Ok?
    ensures Keeps(Run(st, prog).value, base, outs, cols)
    decreases |prog|
  {
    if prog != [] {
      var rest := prog[1..];
      assert OutputValues(rest) <= OutputValues(prog) by {
        forall v <- OutputValues(rest) ensures v in OutputValues(prog) {
          var k, s :| 0 <= k < |rest| && rest[k].OpEl? && s in Slots(rest[k].node) && s.dir == Out && ValueOf(s) == v;
          assert prog[k + 1] == rest[k];
        }
      }
      assert OutputColumns(rest) <= OutputColumns(prog) by {
        forall x <- OutputColumns(rest) ensures x in OutputColumns(prog) {
          var k, c :| 0 <= k < |rest| && rest[k].OpEl? && c in ColumnSlots(rest[k].node) && c.dir == Out && c.name == x;
          assert prog[k + 1] == rest[k];
        }
      }
      var next := Step(st, prog[0]).value;
      if prog[0].OpEl? {
        var o := prog[0].node;
        forall s <- Slots(o) | s.dir == Out ensures ValueOf(s) in outs {
          assert ValueOf(s) in OutputValues(prog);
        }
        TrackKeeps(st.usage, base, Slots(o), outs);
        UniqueStepGrowsByOutputs(st.unique, o);
        forall x <- next.unique ensures x in SsbKeys || x in cols {
          if x !in st.unique {
            var k :| |st.unique| <= k < |next.unique| && next.unique[k] == x;
            assert x in next.unique[|st.unique|..];
            var c :| c in ColumnSlots(o) && c.dir == Out && c.name == x;
            assert x in OutputColumns(prog);
          }
        }
      }
      RunKeeps(next, base, rest, outs, cols);
    }
  }

  /**
   * What a successful analysis guarantees: no name is reported twice as used
   * before assigned and no base column is reported at all; every pending
   * never-used name is the value of an output slot; the SSB keys head the
   * unique list, and every other unique name is an output column.
   */
  lemma AnalysisGuarantees(tables: seq<(string, seq<string>)>, prog: seq<Element>, resultCols: seq<string>)
    requires Analysis(tables, prog, resultCols).Ok?
    ensures var r := Analysis(tables, prog, resultCols).value;
      && NoDuplicates(r.varsUsedBeforeAssigned)
      && (forall b <- BaseColumns(tables) :: Some(b) !in r.varsUsedBeforeAssigned)
      && (forall v <- r.varsNeverUsed :: v in OutputValues(prog))
      && SsbKeys <= r.varsUnique
      && (forall x <- r.varsUnique :: x in SsbKeys || x in OutputColumns(prog))
  {
    var baseCols := BaseColumns(tables);
    var base := Somes(baseCols);
    RunKeeps(Initial(baseCols), base, prog, OutputValues(prog), OutputColumns(prog));
    var st := Run(Initial(baseCols), prog).value;
    UseAllKeepsConsistent(st.usage, base, Somes(resultCols));
    var u := UseAll(st.usage, Somes(resultCols));
    UseAllOnlyRemoves(st.usage, Somes(resultCols));
    forall b <- baseCols ensures Some(b) !in u.usedBeforeAssigned {
      assert Some(b) in base;
    }
    forall v <- u.neverUsed ensures v in OutputValues(prog) {
      assert multiset(u.neverUsed)[v] > 0;
      assert v in st.usage.neverUsed;
    }
  }

  /** The usage tracking of one node's slots, as the inner loop over its attributes runs it. */
  method TrackSlots(u: Lists<Name>, slots: seq<Slot>) returns (r: Lists<Name>)
    ensures r == Track(u, slots)
  {
    var varsAssigned, varsNeverUsed, varsUsedBeforeAssigned := u.assignedNames, u.neverUsed, u.usedBeforeAssigned;
    var j := 0;
    while j < |slots|
      invariant j <= |slots|
      invariant Track(Lists(varsAssigned, varsNeverUsed, varsUsedBeforeAssigned), slots[j..]) == Track(u, slots)
    {
      assert slots[j..][1..] == slots[j + 1..];
      var varName := ValueOf(slots[j]);
      if slots[j].dir == Out {
        varsAssigned := varsAssigned + [varName];
        varsNeverUsed := varsNeverUsed + [varName];
      } else {
        if varName !in varsAssigned && varName !in varsUsedBeforeAssigned {
          varsUsedBeforeAssigned := varsUsedBeforeAssigned + [varName];
        } else if varName in varsNeverUsed {
          varsNeverUsed := RemoveFirst(varsNeverUsed, varName);
        }
      }
      j := j + 1;
    }
    assert slots[j..] == [];
    return Lists(varsAssigned, varsNeverUsed, varsUsedBeforeAssigned);
  }

  /** The uniqueness tracking of one node, as the source's if-chain over the kinds runs it. */
  method TrackUnique(varsUnique: seq<string>, o: Op) returns (r: Result<seq<string>, AnalysisError>)
    ensures r == UniqueStep(varsUnique, o)
  {
    var unique := varsUnique;
    match o {
      case Project(oc, ic, pc, _, _, _) =>
        if ic in unique && pc in unique {
          unique := unique + [oc];
        }
      case Select(oc, _, _, _, _, _) =>
        unique := unique + [oc];
      case Intersect(oc, lc, rc, _, _, _) =>
        if lc !in unique {
          return Err(NonUnique("inPosLCol", ClassName(o)));
        }
        if rc !in unique {
          return Err(NonUnique("inPosRCol", ClassName(o)));
        }
        unique := unique + [oc];
      case Merge(oc, lc, rc, _, _, _) =>
        if lc !in unique {
          return Err(NonUnique("inPosLCol", ClassName(o)));
        }
        if rc !in unique {
          return Err(NonUnique("inPosRCol", ClassName(o)));
        }
        unique := unique + [oc];
      case Join(olc, orc, ilc, irc, _, _, _, _) =>
        if ilc in unique {
          unique := unique + [orc];
        }
        if irc in unique {
          unique := unique + [olc];
        }
      case Nto1Join(olc, orc, ilc, irc, _, _, _, _) =>
        if ilc !in unique {
          return Err(NonUnique("inDataLCol", ClassName(o)));
        }
        unique := unique + [orc];
        if irc in unique {
          unique := unique + [olc];
        }
      case LeftSemiNto1Join(orc, ilc, _, _, _, _) =>
        if ilc !in unique {
          return Err(NonUnique("inDataLCol", ClassName(o)));
        }
        unique := unique + [orc];
      case CalcBinary(_, _, _, _, _, _, _) =>
      case SumWholeCol(oc, _, _) =>
        unique := unique + [oc];
      case SumGrBased(_, _, _, _, _, _, _) =>
      case GroupUnary(gc, ec, ic, _, _, _) =>
        if ic in unique {
          unique := unique + [gc];
        }
        unique := unique + [ec];
      case GroupBinary(gc, ec, igc, ic, _, _, _, _) =>
        if ic in unique && igc in unique {
          unique := unique + [gc];
        }
        unique := unique + [ec];
      case Morph(_, _, _) =>
        return Err(Untracked(ClassName(o)));
    }
    return Ok(unique);
  }

  /** `analyze`: the loop over the program elements, then the result columns. */
  method Analyze(tables: seq<(string, seq<string>)>, prog: seq<Element>, resultCols: seq<string>)
    returns (r: Result<AnalysisResult, AnalysisError>)
    ensures r == Analysis(tables, prog, resultCols)
  {
    var baseCols := BaseColumns(tables);
    var usage := Usage.Initial(Somes(baseCols));
    var varsUnique := SsbKeys;
    var i := 0;
    while i < |prog|
      invariant i <= |prog|
      invariant Run(State(usage, varsUnique), prog[i..]) == Run(Initial(baseCols), prog)
    {
      assert prog[i..][1..] == prog[i + 1..];
      if prog[i].OpEl? {
        var o := prog[i].node;
        usage := TrackSlots(usage, Slots(o));
        var unique := TrackUnique(varsUnique, o);
        if unique.Err? {
          return Err(unique.error);
        }
        varsUnique := unique.value;
      }
      i := i + 1;
    }
    assert prog[i..] == [];
    var u := UseResults(usage, Somes(resultCols));
    return Ok(AnalysisResult(u.usedBeforeAssigned, u.neverUsed, varsUnique));
  }
}
