/**
 * Properties of the MAL-to-MorphStore translation: what each translator may
 * change, the shape of the generated program, the line machine's steps, the
 * name map and the table dictionary derived from it, the projection chain,
 * the selection dataflow, the operator maps and the join rewrite.
 */
module TranslationProps {
  import opened Wrappers
  import opened Strings
  import opened MalPatterns
  import opened Operators
  import opened Translation
  import Usage
  import Analysis

  // What the translators change.

  /** `b` extends `a` by operator nodes only. */
  predicate AppendsNodes(a: seq<Element>, b: seq<Element>)
  {
    a <= b && forall k :: |a| <= k < |b| ==> b[k].OpEl?
  }

  /**
   * A translator keeps the step, the line and the result columns, only
   * appends nodes, and keeps the name map a dictionary.
   */
  predicate Steady(s: TState, r: Result<TState, TranslateError>)
  {
    r.Ok? ==>
      && r.value.step == s.step && r.value.line == s.line && r.value.resultCols == s.resultCols
      && AppendsNodes(s.prog, r.value.prog)
      && (ValidNames(s) ==> ValidNames(r.value))
  }

  /** Appending nodes, whatever the headers become, is steady. */
  lemma EmitSteady(s: TState, headers: set<string>, nodes: seq<Op>)
    ensures Steady(s, Ok(Emit(s.(headers := headers), nodes)))
  {
  }

  lemma AggrSubsumSteady(s: TState, resStr: string, parStr: string)
    ensures Steady(s, AggrSubsum(s, resStr, parStr))
  {
    if AggrSubsum(s, resStr, parStr).Ok? {
      var out, p := MatchRes1(resStr).value, MatchAggrSubsum(parStr).value;
      EmitSteady(s, s.headers, [NewSumGrBased(out, MapNameIf(s, p.1), MapNameIf(s, p.0), MapNameIf(s, p.2))]);
    }
  }

  lemma AggrSumSteady(s: TState, resStr: string, parStr: string)
    ensures Steady(s, AggrSum(s, resStr, parStr))
  {
  }

  lemma AlgebraJoinSteady(s: TState, resStr: string, parStr: string)
    ensures Steady(s, AlgebraJoin(s, resStr, parStr))
  {
    if AlgebraJoin(s, resStr, parStr).Ok? {
      var r, p := MatchRes2(resStr).value, MatchAlgebraJoin(parStr).value;
      EmitSteady(s, s.headers, [NewJoin(r.0, r.1, MapNameIf(s, p.0), MapNameIf(s, p.1))]);
    }
  }

  lemma BatMergecandSteady(s: TState, resStr: string, parStr: string)
    ensures Steady(s, BatMergecand(s, resStr, parStr))
  {
    if BatMergecand(s, resStr, parStr).Ok? {
      var out, p := MatchRes1(resStr).value, MatchMerge(parStr).value;
      EmitSteady(s, s.headers, [NewMerge(out, MapNameIf(s, p.0), MapNameIf(s, p.1))]);
    }
  }

  lemma GroupGroupSteady(s: TState, resStr: string, parStr: string)
    ensures Steady(s, GroupGroup(s, resStr, parStr))
  {
    if GroupGroup(s, resStr, parStr).Ok? {
      var r, p := MatchRes3(resStr).value, MatchOneBat(parStr).value;
      EmitSteady(s, s.headers, [NewGroupUnary(r.0, r.1, MapNameIf(s, p))]);
    }
  }

  lemma GroupSubgroupSteady(s: TState, resStr: string, parStr: string)
    ensures Steady(s, GroupSubgroup(s, resStr, parStr))
  {
    if GroupSubgroup(s, resStr, parStr).Ok? {
      var r, p := MatchRes3(resStr).value, MatchGroupSubgroup(parStr).value;
      EmitSteady(s, s.headers, [NewGroupBinary(r.0, r.1, MapNameIf(s, p.1), MapNameIf(s, p.0))]);
    }
  }

  lemma AlgebraSortSteady(s: TState, resStr: string)
    ensures Steady(s, AlgebraSort(s, resStr))
  {
  }

  lemma SqlTidSteady(s: TState, resStr: string)
    ensures Steady(s, SqlTid(s, resStr))
  {
  }

  lemma SqlBindSteady(s: TState, resStr: string, parStr: string)
    ensures Steady(s, SqlBind(s, resStr, parStr))
  {
  }

  lemma SelectSteady(s: TState, resStr: string, parStr: string, vectorSelect: int)
    ensures Steady(s, AlgebraSelect(s, resStr, parStr, vectorSelect))
  {
    if AlgebraSelect(s, resStr, parStr, vectorSelect).Ok? {
      var out, p := MatchRes1(resStr).value, MatchAlgebraSelect(parStr).value;
      EmitSteady(s, s.headers + {"functional"}, RangeSelectNodes(out, MapNameIf(s, p.0), p.1, p.2, p.3, vectorSelect, s.fullOidBats));
    }
  }

  lemma ThetaselectSteady(s: TState, resStr: string, parStr: string, vectorSelect: int)
    ensures Steady(s, AlgebraThetaselect(s, resStr, parStr, vectorSelect))
  {
    if AlgebraThetaselect(s, resStr, parStr, vectorSelect).Ok? {
      var out, p := MatchRes1(resStr).value, MatchThetaselect(parStr).value;
      var op := CmpOp(p.3, vectorSelect).value;
      var cand := if p.1.Some? then Some(MapNameIf(s, p.1.value)) else None;
      EmitSteady(s, s.headers + {"functional"}, ThetaselectNodes(out, MapNameIf(s, p.0), cand, p.2, op, s.fullOidBats));
    }
  }

  lemma ProjectionpathSteady(s: TState, resStr: string, parStr: string)
    ensures Steady(s, AlgebraProjectionpath(s, resStr, parStr))
  {
    if AlgebraProjectionpath(s, resStr, parStr).Ok? {
      var out, p := MatchRes1(resStr).value, MatchProjectionpath(parStr).value;
      var inData := MapNameIf(s, p.1);
      var pos := KeptPositions(s, PositionLists(p.0));
      if |pos| == 0 {
      } else if |pos| == 1 {
        EmitSteady(s, s.headers, [NewProject(out, inData, pos[0])]);
      } else {
        EmitSteady(s, s.headers, ProjectChain(out, inData, Reverse(pos)));
      }
    }
  }

  lemma BatcalcSteady(s: TState, resStr: string, funStr: string, parStr: string, vectorSelect: int)
    ensures Steady(s, Batcalc(s, resStr, funStr, parStr, vectorSelect))
  {
    if Batcalc(s, resStr, funStr, parStr, vectorSelect).Ok? {
      var out := MatchRes1(resStr).value;
      if funStr !in MAL_INT_TYPES {
        var p := MatchBatCalcBinary(parStr).value;
        var op := ArithOp(funStr, vectorSelect).value;
        EmitSteady(s, s.headers + {"functional"}, [NewCalcBinary(out, op, MapNameIf(s, p.0), MapNameIf(s, p.1))]);
      }
    }
  }

  lemma DispatchSteady(s: TState, resStr: string, modStr: string, funStr: string, parStr: string, vectorSelect: int)
    ensures Steady(s, Dispatch(s, resStr, modStr, funStr, parStr, vectorSelect))
  {
    match FamilyOf(modStr, funStr) {
      case AggrSubsumF => AggrSubsumSteady(s, resStr, parStr);
      case AggrSumF => AggrSumSteady(s, resStr, parStr);
      case AlgebraJoinF => AlgebraJoinSteady(s, resStr, parStr);
      case AlgebraProjectionpathF => ProjectionpathSteady(s, resStr, parStr);
      case AlgebraSelectF => SelectSteady(s, resStr, parStr, vectorSelect);
      case AlgebraSortF => AlgebraSortSteady(s, resStr);
      case AlgebraThetaselectF => ThetaselectSteady(s, resStr, parStr, vectorSelect);
      case BatMergecandF => BatMergecandSteady(s, resStr, parStr);
      case BatcalcF => BatcalcSteady(s, resStr, funStr, parStr, vectorSelect);
      case GroupGroupF => GroupGroupSteady(s, resStr, parStr);
      case GroupSubgroupF => GroupSubgroupSteady(s, resStr, parStr);
      case SqlBindF => SqlBindSteady(s, resStr, parStr);
      case SqlTidF => SqlTidSteady(s, resStr);
      case NoActionF =>
      case UnknownF =>
    }
  }

  // The shape of the generated program.

  /**
   * The program is a series of blocks: each assignment's nodes followed by
   * one blank line. Every line element is blank and follows a node, and a
   * non-empty program ends with a blank line.
   */
  predicate Blocks(prog: seq<Element>)
  {
    && (prog != [] ==> prog[|prog| - 1] == Line(""))
    && forall k :: 0 <= k < |prog| && prog[k].Line? ==> prog[k] == Line("") && k > 0 && prog[k - 1].OpEl?
  }

  /**
   * The blank line after an assignment: the program is left alone or
   * extended by a block, and the rest of a steady translator's promises hold.
   */
  lemma SeparateAppendsBlock(s: TState, r: Result<TState, TranslateError>)
    requires Steady(s, r)
    ensures Separate(s, r).Ok? ==>
      var t := Separate(s, r).value;
      && t.step == s.step && t.line == s.line && t.resultCols == s.resultCols
      && (ValidNames(s) ==> ValidNames(t))
      && (t.prog == s.prog || (|t.prog| >= |s.prog| + 2 && AppendsNodes(s.prog, t.prog[..|t.prog| - 1]) && t.prog[|t.prog| - 1] == Line("")))
      && (Blocks(s.prog) ==> Blocks(t.prog))
  {
    if r.Ok? && |r.value.prog| > |s.prog| {
      var t := Separate(s, r).value;
      assert t.prog == r.value.prog + [Line("")];
      assert t.prog[..|t.prog| - 1] == r.value.prog;
      if Blocks(s.prog) {
        forall k | 0 <= k < |t.prog| && t.prog[k].Line?
          ensures t.prog[k] == Line("") && k > 0 && t.prog[k - 1].OpEl?
        {
          if k < |s.prog| {
            assert t.prog[k] == s.prog[k];
            assert t.prog[k - 1] == s.prog[k - 1];
          } else if k == |t.prog| - 1 {
            assert t.prog[k - 1] == r.value.prog[|r.value.prog| - 1];
          } else {
            assert false;
          }
        }
      }
    }
  }

  // The line machine.

  /** The steps the machine is in between lines: 2 and 4 are left on the line that enters them. */
  predicate Resting(step: nat)
  {
    step == STEP_SKIP_PROLOGUE_COMMENTS || step == STEP_PROCESS_ASSIGNMENTS
    || step == STEP_SKIP_QUERY_FUNCTION_END || step == STEP_SKIP_EPILOGUE_COMMENTS
  }

  /** What holds between lines. */
  predicate Invariant(s: TState)
  {
    Resting(s.step) && ValidNames(s) && Blocks(s.prog)
  }

  lemma InitialInvariant()
    ensures Invariant(Initial())
  {
  }

  /**
   * One line keeps the invariant, never moves the machine back, and only
   * extends the program.
   */
  lemma LineStepKeepsInvariant(s: TState, raw: string, vectorSelect: int)
    requires Invariant(s)
    ensures LineStep(s, raw, vectorSelect).Ok? ==>
      var t := LineStep(s, raw, vectorSelect).value;
      Invariant(t) && s.step <= t.step && t.line == Strip(raw) && s.prog <= t.prog
  {
    var line := Strip(raw);
    var s1 := s.(line := line);
    if s1.step >= STEP_PROCESS_ASSIGNMENTS {
      assert LineStep(s, raw, vectorSelect) == FromAssignments(s1, line, vectorSelect);
      FromAssignmentsKeepsInvariant(s1, line, vectorSelect);
    }
  }

  lemma FromAssignmentsKeepsInvariant(s: TState, line: string, vectorSelect: int)
    requires Invariant(s) && s.step >= STEP_PROCESS_ASSIGNMENTS
    ensures FromAssignments(s, line, vectorSelect).Ok? ==>
      var t := FromAssignments(s, line, vectorSelect).value;
      Invariant(t) && s.step <= t.step && t.line == s.line && s.prog <= t.prog
  {
    if s.step == STEP_PROCESS_ASSIGNMENTS {
      AssignmentLineKeepsInvariant(s, line, vectorSelect);
      var r := AssignmentLine(s, line, vectorSelect);
      if r.Ok? {
        assert FromAssignments(s, line, vectorSelect) == AfterAssignments(r.value, line);
        AfterAssignmentsKeepsInvariant(r.value, line);
      } else {
        assert FromAssignments(s, line, vectorSelect).Err?;
      }
    } else {
      assert FromAssignments(s, line, vectorSelect) == AfterAssignments(s, line);
      AfterAssignmentsKeepsInvariant(s, line);
    }
  }

  /** The assignment step stays, or moves on to the result set; the invariant holds but for that. */
  lemma AssignmentLineKeepsInvariant(s: TState, line: string, vectorSelect: int)
    requires Invariant(s) && s.step == STEP_PROCESS_ASSIGNMENTS
    ensures AssignmentLine(s, line, vectorSelect).Ok? ==>
      var t := AssignmentLine(s, line, vectorSelect).value;
      && ValidNames(t) && Blocks(t.prog) && t.line == s.line && s.prog <= t.prog
      && (t.step == STEP_PROCESS_ASSIGNMENTS || t.step == STEP_PROCESS_OUTPUT)
  {
    match MatchAssignment(line) {
      case None =>
      case Some(parts) =>
        AssignmentKeepsInvariant(s, parts, vectorSelect);
    }
  }

  /** The steps after the assignments end in a resting step and keep the program. */
  lemma AfterAssignmentsKeepsInvariant(s: TState, line: string)
    requires ValidNames(s) && Blocks(s.prog) && (Resting(s.step) || s.step == STEP_PROCESS_OUTPUT)
    requires s.step >= STEP_PROCESS_ASSIGNMENTS
    ensures AfterAssignments(s, line).Ok? ==>
      var t := AfterAssignments(s, line).value;
      Invariant(t) && s.step <= t.step && t.line == s.line && s.prog == t.prog
  {
  }

  /** An assignment line keeps the invariant: its nodes, if any, are appended as one block. */
  lemma AssignmentKeepsInvariant(s: TState, parts: (string, string, string, string), vectorSelect: int)
    requires Invariant(s) && s.step == STEP_PROCESS_ASSIGNMENTS
    ensures Assignment(s, parts, vectorSelect).Ok? ==>
      var t := Assignment(s, parts, vectorSelect).value;
      Invariant(t) && t.step == s.step && t.line == s.line && s.prog <= t.prog
  {
    DispatchSteady(s, parts.0, parts.1, parts.2, parts.3, vectorSelect);
    SeparateAppendsBlock(s, Dispatch(s, parts.0, parts.1, parts.2, parts.3, vectorSelect));
  }

  lemma {:induction false} LinesKeepInvariant(s: TState, lines: seq<string>, vectorSelect: int)
    requires Invariant(s)
    ensures Lines(s, lines, vectorSelect).Ok? ==>
      var t := Lines(s, lines, vectorSelect).value;
      Invariant(t) && s.step <= t.step && s.prog <= t.prog
    decreases |lines|
  {
    if lines != [] {
      LineStepKeepsInvariant(s, lines[0], vectorSelect);
      var r := LineStep(s, lines[0], vectorSelect);
      if r.Ok? {
        LinesKeepInvariant(r.value, lines[1..], vectorSelect);
      }
    }
  }

  /**
   * Every line is stripped before it is looked at: whitespace around a line
   * changes nothing, so an indented assignment translates as the same
   * assignment unindented.
   */
  lemma PaddedLine(s: TState, a: string, line: string, b: string, vectorSelect: int)
    requires line == [] || (!IsSpace(line[0]) && !IsSpace(line[|line| - 1]))
    requires forall k :: 0 <= k < |a| ==> IsSpace(a[k])
    requires forall k :: 0 <= k < |b| ==> IsSpace(b[k])
    ensures LineStep(s, a + line + b, vectorSelect) == LineStep(s, line, vectorSelect)
  {
    StripPadded(a, line, b);
    StripUnpadded(line);
  }

  /** A blank line, or one of whitespace only, in the prologue raises the IndexError of `line[0]`. */
  lemma BlankPrologueLine(s: TState, raw: string, vectorSelect: int)
    requires s.step == STEP_SKIP_PROLOGUE_COMMENTS
    requires forall k :: 0 <= k < |raw| ==> IsSpace(raw[k])
    ensures LineStep(s, raw, vectorSelect) == Err(IndexError(""))
  {
    StripPadded(raw, "", "");
    assert raw + "" + "" == raw;
  }

  /** A '%' comment line of the prologue is skipped. */
  lemma PrologueComment(s: TState, raw: string, vectorSelect: int)
    requires s.step == STEP_SKIP_PROLOGUE_COMMENTS && |Strip(raw)| > 0 && Strip(raw)[0] == '%'
    ensures LineStep(s, raw, vectorSelect) == Ok(s.(line := Strip(raw)))
  {
  }

  /** The first other line must open the query function; the machine then processes assignments. */
  lemma QueryFunctionStart(s: TState, raw: string, vectorSelect: int)
    requires s.step == STEP_SKIP_PROLOGUE_COMMENTS && |Strip(raw)| > 0 && Strip(raw)[0] != '%'
    ensures LineStep(s, raw, vectorSelect).Ok? <==> StartsWith(Strip(raw), "function user.")
    ensures LineStep(s, raw, vectorSelect).Ok? ==>
      LineStep(s, raw, vectorSelect).value == s.(line := Strip(raw), step := STEP_PROCESS_ASSIGNMENTS)
  {
  }

  /** A line that is not an assignment ends the assignments: it must be the result set. */
  lemma OutputLine(s: TState, raw: string, vectorSelect: int)
    requires s.step == STEP_PROCESS_ASSIGNMENTS && MatchAssignment(Strip(raw)).None?
    ensures LineStep(s, raw, vectorSelect).Ok? <==> MatchResultSet(Strip(raw)).Some?
  {
    var line := Strip(raw);
    assert LineStep(s, raw, vectorSelect) == FromAssignments(s.(line := line), line, vectorSelect);
  }

  /**
   * The result set line ends the assignments: the machine moves on to the
   * end of the query function, having recorded the result set's columns.
   */
  lemma ResultSetLine(s: TState, raw: string, cols: string, vectorSelect: int)
    requires s.step == STEP_PROCESS_ASSIGNMENTS && MatchAssignment(Strip(raw)).None? && MatchResultSet(Strip(raw)) == Some(cols)
    ensures LineStep(s, raw, vectorSelect)
      == Ok(ResultSet(s.(line := Strip(raw), step := STEP_PROCESS_OUTPUT), cols).(step := STEP_SKIP_QUERY_FUNCTION_END))
  {
    var line := Strip(raw);
    assert LineStep(s, raw, vectorSelect) == FromAssignments(s.(line := line), line, vectorSelect);
  }

  /** The result set's column names, mapped, are appended to the result columns; the program is kept. */
  lemma ResultSetAppends(s: TState, cols: string)
    ensures
      var t := ResultSet(s, cols);
      var names := ResultColumnNames(cols);
      && t.prog == s.prog
      && |t.resultCols| == |s.resultCols| + |names|
      && t.resultCols[..|s.resultCols|] == s.resultCols
      && forall k :: 0 <= k < |names| ==> t.resultCols[|s.resultCols| + k] == MapNameIf(s, names[k])
  {
  }

  /** After the result set only the end of the query function may follow. */
  lemma QueryFunctionEnd(s: TState, raw: string, vectorSelect: int)
    requires s.step == STEP_SKIP_QUERY_FUNCTION_END
    ensures LineStep(s, raw, vectorSelect).Ok? <==> StartsWith(Strip(raw), "end user.")
    ensures LineStep(s, raw, vectorSelect).Ok? ==>
      LineStep(s, raw, vectorSelect).value == s.(line := Strip(raw), step := STEP_SKIP_EPILOGUE_COMMENTS)
  {
  }

  /** In the epilogue every line must be a '#' comment, and it changes nothing but the current line. */
  lemma EpilogueComment(s: TState, raw: string, vectorSelect: int)
    requires s.step == STEP_SKIP_EPILOGUE_COMMENTS
    ensures LineStep(s, raw, vectorSelect).Ok? <==> |Strip(raw)| > 0 && Strip(raw)[0] == '#'
    ensures LineStep(s, raw, vectorSelect).Ok? ==> LineStep(s, raw, vectorSelect).value == s.(line := Strip(raw))
  {
  }

  /** Translating lines one after another is translating their concatenation. */
  lemma {:induction false} LinesAppend(s: TState, a: seq<string>, b: seq<string>, vectorSelect: int)
    ensures Lines(s, a + b, vectorSelect) ==
      (match Lines(s, a, vectorSelect)
       case Ok(t) => Lines(t, b, vectorSelect)
       case Err(e) => Err(e))
    decreases |a|
  {
    if a == [] {
      assert a + b == b;
    } else {
      assert (a + b)[0] == a[0] && (a + b)[1..] == a[1..] + b;
      match LineStep(s, a[0], vectorSelect) {
        case Ok(t) => LinesAppend(t, a[1..], b, vectorSelect);
        case Err(_) =>
      }
    }
  }
}
