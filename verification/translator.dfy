/**
 * The translator in its imperative form: `_TranslationState` is an object
 * whose fields every translation function updates in place, and `translate`
 * is the loop over the lines followed by the analysis and the join post-pass,
 * which replaces program elements in place. Every method is proved to
 * compute the function of the same name in the `Translation` module, on the
 * state the object held when the method was called; the properties of those
 * functions are proved in `TranslationRules` and `TranslationProps`.
 */
module Translator {
  import opened Wrappers
  import opened Regex
  import opened MalPatterns
  import opened Operators
  import Strings
  import opened Translation
  import Analysis
  import TranslationRules

  class TranslationState {
    var step: nat
    var line: string
    var headers: set<string>
    var nameMap: map<string, Target>
    var nameOrder: seq<string>
    var fullOidBats: seq<string>
    var sortResults: seq<string>
    var prog: seq<Element>
    var resultCols: seq<string>

    /** The object's fields as a value of the translation state. */
    function Snapshot(): TState
      reads this
    {
      TState(step, line, headers, nameMap, nameOrder, fullOidBats, sortResults, prog, resultCols)
    }

    /**
     * The object ended as the translation function's result `r` says: with
     * the new state, and no error, when it succeeds; with its error otherwise.
     */
    ghost predicate Ends(r: Result<TState, TranslateError>, err: Option<TranslateError>)
      reads this
    {
      match r
      case Ok(t) => err.None? && Snapshot() == t
      case Err(e) => err == Some(e)
    }

    constructor()
      ensures Snapshot() == Initial()
    {
      step := STEP_SKIP_PROLOGUE_COMMENTS;
      line := "";
      headers := {};
      nameMap := map[];
      nameOrder := [];
      fullOidBats := [];
      sortResults := [];
      prog := [];
      resultCols := [];
    }

    /** `mapNameIf`: a base column reads as "table.column", an alias as its target. */
    method MapNameIf(name: string) returns (r: string)
      ensures r == Translation.MapNameIf(Snapshot(), name)
    {
      if name in nameMap {
        match nameMap[name] {
          case BaseCol(t, c) => r := t + "." + c;
          case Alias(a) => r := a;
        }
      } else {
        r := name;
      }
    }

    /** `ts.nameMap[key] = target`. */
    method SetName(key: string, target: Target)
      modifies this
      ensures Snapshot() == Translation.SetName(old(Snapshot()), key, target)
    {
      if key !in nameMap {
        nameOrder := nameOrder + [key];
      }
      nameMap := nameMap[key := target];
    }

    /** `ts.headers.add(h)`. */
    method AddHeader(h: string)
      modifies this
      ensures Snapshot() == old(Snapshot()).(headers := old(headers) + {h})
    {
      headers := headers + {h};
    }

    /** `ts.prog.append(node)` for operator nodes, one after another. */
    method Append(nodes: seq<Op>)
      modifies this
      ensures Snapshot() == Emit(old(Snapshot()), nodes)
    {
      prog := prog + OpEls(nodes);
    }

    method TranslateAggrSubsum(resStr: string, parStr: string) returns (err: Option<TranslateError>)
      modifies this
      ensures Ends(AggrSubsum(old(Snapshot()), resStr, parStr), err)
    {
      AggrSubsumCases(Snapshot(), resStr, parStr);
      var mRes := MatchRes1(resStr);
      if mRes.None? { return Some(ParseError("result", resStr, line)); }
      var mPar := MatchAggrSubsum(parStr);
      if mPar.None? { return Some(ParseError("parameter", parStr, line)); }
      var inGrCol := MapNameIf(mPar.value.1);
      var inDataCol := MapNameIf(mPar.value.0);
      var inExtCol := MapNameIf(mPar.value.2);
      Append([NewSumGrBased(mRes.value, inGrCol, inDataCol, inExtCol)]);
      return None;
    }

    method TranslateAggrSum(resStr: string, parStr: string) returns (err: Option<TranslateError>)
      modifies this
      ensures Ends(AggrSum(old(Snapshot()), resStr, parStr), err)
    {
      AggrSumCases(Snapshot(), resStr, parStr);
      var mRes := MatchResScalar(resStr);
      if mRes.None? { return Some(ParseError("result", resStr, line)); }
      var mPar := MatchOneBat(parStr);
      if mPar.None? { return Some(ParseError("parameter", parStr, line)); }
      var inDataCol := MapNameIf(mPar.value);
      Append([NewSumWholeCol(mRes.value, inDataCol)]);
      return None;
    }

    method TranslateAlgebraJoin(resStr: string, parStr: string) returns (err: Option<TranslateError>)
      modifies this
      ensures Ends(AlgebraJoin(old(Snapshot()), resStr, parStr), err)
    {
      AlgebraJoinCases(Snapshot(), resStr, parStr);
      var mRes := MatchRes2(resStr);
      if mRes.None? { return Some(ParseError("result", resStr, line)); }
      var mPar := MatchAlgebraJoin(parStr);
      if mPar.None? { return Some(ParseError("parameter", parStr, line)); }
      var inDataLCol := MapNameIf(mPar.value.0);
      var inDataRCol := MapNameIf(mPar.value.1);
      Append([NewJoin(mRes.value.0, mRes.value.1, inDataLCol, inDataRCol)]);
      return None;
    }

    /**
     * The loop that consumes the position lists of a projection from the
     * front, keeping those that are neither full-OID BATs nor sort results.
     */
    method KeptPositions(posStr: string) returns (kept: seq<string>)
      ensures kept == Translation.KeptPositions(Snapshot(), PositionLists(posStr))
    {
      kept := [];
      var rest := posStr;
      var mInner := PrefixMatch(PParProjectionpathInner, rest);
      while mInner.Some?
        invariant mInner == PrefixMatch(PParProjectionpathInner, rest)
        invariant Translation.KeptPositions(Snapshot(), PositionLists(posStr))
               == kept + Translation.KeptPositions(Snapshot(), PositionLists(rest))
        decreases |rest|
      {
        PositionListsNext(rest);
        var inPosCol := mInner.value.caps[1];
        ghost var later := Translation.KeptPositions(Snapshot(), PositionLists(rest[mInner.value.end..]));
        KeptPositionsCons(Snapshot(), inPosCol, PositionLists(rest[mInner.value.end..]));
        if inPosCol !in fullOidBats && inPosCol !in sortResults {
          var mapped := MapNameIf(inPosCol);
          Associative(kept, [mapped], later);
          kept := kept + [mapped];
        } else {
          Associative(kept, [], later);
        }
        rest := rest[mInner.value.end..];
        mInner := PrefixMatch(PParProjectionpathInner, rest);
      }
    }

    method TranslateAlgebraProjectionpath(resStr: string, parStr: string) returns (err: Option<TranslateError>)
      modifies this
      ensures Ends(AlgebraProjectionpath(old(Snapshot()), resStr, parStr), err)
    {
      AlgebraProjectionpathCases(Snapshot(), resStr, parStr);
      var mRes := MatchRes1(resStr);
      if mRes.None? { return Some(ParseError("result", resStr, line)); }
      var mPar := MatchProjectionpath(parStr);
      if mPar.None? { return Some(ParseError("parameter", parStr, line)); }
      var outDataCol := mRes.value;
      var inDataCol := MapNameIf(mPar.value.1);
      var inPosCols := KeptPositions(mPar.value.0);
      var pathLen := |inPosCols|;
      if pathLen == 0 {
        SetName(outDataCol, Alias(inDataCol));
      } else if pathLen == 1 {
        Append([NewProject(outDataCol, inDataCol, inPosCols[0])]);
      } else {
        ProjectChain(outDataCol, inDataCol, Reverse(inPosCols));
      }
      return None;
    }

    /** The projects of a multi-step projection, appended one per position list. */
    method ProjectChain(outDataCol: string, inDataCol: string, rev: seq<string>)
      modifies this
      ensures Snapshot() == Emit(old(Snapshot()), Translation.ProjectChain(outDataCol, inDataCol, rev))
    {
      ghost var s := Snapshot();
      ghost var chain := Translation.ProjectChain(outDataCol, inDataCol, rev);
      var pathLen := |rev|;
      var idx := 0;
      while idx < pathLen
        invariant idx <= pathLen
        invariant Snapshot() == Emit(s, chain[..idx])
      {
        var outCol := if idx < pathLen - 1 then Interm(outDataCol, idx) else outDataCol;
        var inCol := if idx > 0 then Interm(outDataCol, idx - 1) else inDataCol;
        var node := NewProject(outCol, inCol, rev[idx]);
        ProjectChainNext(outDataCol, inDataCol, rev, idx);
        Append([node]);
        EmitTwice(s, chain[..idx], [node]);
        idx := idx + 1;
      }
      assert chain[..idx] == chain;
    }

    method TranslateAlgebraSelect(resStr: string, parStr: string, vectorSelect: int) returns (err: Option<TranslateError>)
      modifies this
      ensures Ends(AlgebraSelect(old(Snapshot()), resStr, parStr, vectorSelect), err)
    {
      AlgebraSelectCases(Snapshot(), resStr, parStr, vectorSelect);
      var mRes := MatchRes1(resStr);
      if mRes.None? { return Some(ParseError("result", resStr, line)); }
      var mPar := MatchAlgebraSelect(parStr);
      if mPar.None? { return Some(ParseError("parameter", parStr, line)); }
      var outPosCol := mRes.value;
      var inDataCol := MapNameIf(mPar.value.0);
      var inCandCol, valLo, valHi := mPar.value.1, mPar.value.2, mPar.value.3;
      AddHeader("functional");
      AppendRangeSelect(outPosCol, inDataCol, inCandCol, valLo, valHi, vectorSelect);
      return None;
    }

    /**
     * The selects for the lower and the upper bound, their intersection, and
     * the intersection with the candidate list when it is useful.
     */
    method AppendRangeSelect(outPosCol: string, inDataCol: string, inCandCol: Option<string>,
                             valLo: string, valHi: string, vectorSelect: int)
      modifies this
      ensures Snapshot() == Emit(old(Snapshot()), RangeSelectNodes(outPosCol, inDataCol, inCandCol, valLo, valHi, vectorSelect, old(fullOidBats)))
    {
      ghost var s := Snapshot();
      ghost var nodes := RangeSelectNodes(outPosCol, inDataCol, inCandCol, valLo, valHi, vectorSelect, fullOidBats);
      var hasUsefulCands := inCandCol.Some? && inCandCol.value !in fullOidBats;
      var outPosColLo := outPosCol + "_lo";
      var lo := NewSelect(outPosColLo, if vectorSelect == 1 then "std::greater_equal" else "greaterequal", inDataCol, valLo);
      Append([lo]);
      var outPosColHi := outPosCol + "_hi";
      var hi := NewSelect(outPosColHi, if vectorSelect == 1 then "std::less_equal" else "lessequal", inDataCol, valHi);
      Append([hi]);
      EmitTwice(s, [lo], [hi]);
      assert [lo] + [hi] == [lo, hi];
      var outPosColInterm := outPosCol + "_0";
      var both := NewIntersect(if hasUsefulCands then outPosColInterm else outPosCol, outPosColLo, outPosColHi);
      Append([both]);
      EmitTwice(s, [lo, hi], [both]);
      assert [lo, hi] + [both] == [lo, hi, both];
      if hasUsefulCands {
        var cands := NewIntersect(outPosCol, outPosColInterm, inCandCol.value);
        Append([cands]);
        EmitTwice(s, [lo, hi, both], [cands]);
        assert [lo, hi, both] + [cands] == nodes;
      } else {
        assert [lo, hi, both] == nodes;
      }
    }

    method TranslateAlgebraSort(resStr: string) returns (err: Option<TranslateError>)
      modifies this
      ensures Ends(AlgebraSort(old(Snapshot()), resStr), err)
    {
      AlgebraSortCases(Snapshot(), resStr);
      var m3Res := MatchRes3(resStr);
      if m3Res.None? { return Some(ParseError("result", resStr, line)); }
      sortResults := sortResults + [m3Res.value.0];
      sortResults := sortResults + [m3Res.value.1];
      sortResults := sortResults + [m3Res.value.2];
      return None;
    }

    method TranslateAlgebraThetaselect(resStr: string, parStr: string, vectorSelect: int) returns (err: Option<TranslateError>)
      modifies this
      ensures Ends(AlgebraThetaselect(old(Snapshot()), resStr, parStr, vectorSelect), err)
    {
      AlgebraThetaselectCases(Snapshot(), resStr, parStr, vectorSelect);
      var mRes := MatchRes1(resStr);
      if mRes.None? { return Some(ParseError("result", resStr, line)); }
      var mPar := MatchThetaselect(parStr);
      if mPar.None? { return Some(ParseError("parameter", parStr, line)); }
      var outPosCol := mRes.value;
      var inCandCol: Option<string> := None;
      if mPar.value.1.Some? {
        var mapped := MapNameIf(mPar.value.1.value);
        inCandCol := Some(mapped);
      }
      var op := CmpOp(mPar.value.3, vectorSelect);
      if op.Err? { return Some(op.error); }
      var inDataCol := MapNameIf(mPar.value.0);
      AddHeader("functional");
      AppendThetaselect(outPosCol, inDataCol, inCandCol, mPar.value.2, op.value);
      return None;
    }

    /** The select, and the intersection with the candidate list when it is useful. */
    method AppendThetaselect(outPosCol: string, inDataCol: string, inCandCol: Option<string>, val: string, op: string)
      modifies this
      ensures Snapshot() == Emit(old(Snapshot()), ThetaselectNodes(outPosCol, inDataCol, inCandCol, val, op, old(fullOidBats)))
    {
      ghost var s := Snapshot();
      var hasUsefulCands := inCandCol.Some? && inCandCol.value !in fullOidBats;
      var outPosColInterm := outPosCol + "_0";
      var sel := NewSelect(if hasUsefulCands then outPosColInterm else outPosCol, op, inDataCol, val);
      Append([sel]);
      if hasUsefulCands {
        var cands := NewIntersect(outPosCol, outPosColInterm, inCandCol.value);
        Append([cands]);
        EmitTwice(s, [sel], [cands]);
        assert [sel] + [cands] == ThetaselectNodes(outPosCol, inDataCol, inCandCol, val, op, s.fullOidBats);
      } else {
        assert [sel] == ThetaselectNodes(outPosCol, inDataCol, inCandCol, val, op, s.fullOidBats);
      }
    }

    method TranslateBatMergecand(resStr: string, parStr: string) returns (err: Option<TranslateError>)
      modifies this
      ensures Ends(BatMergecand(old(Snapshot()), resStr, parStr), err)
    {
      BatMergecandCases(Snapshot(), resStr, parStr);
      var mRes := MatchRes1(resStr);
      if mRes.None? { return Some(ParseError("result", resStr, line)); }
      var mPar := MatchMerge(parStr);
      if mPar.None? { return Some(ParseError("parameter", parStr, line)); }
      var inPosLCol := MapNameIf(mPar.value.0);
      var inPosRCol := MapNameIf(mPar.value.1);
      Append([NewMerge(mRes.value, inPosLCol, inPosRCol)]);
      return None;
    }

    method TranslateBatcalc(resStr: string, funStr: string, parStr: string, vectorSelect: int) returns (err: Option<TranslateError>)
      modifies this
      ensures Ends(Batcalc(old(Snapshot()), resStr, funStr, parStr, vectorSelect), err)
    {
      BatcalcCases(Snapshot(), resStr, funStr, parStr, vectorSelect);
      var mRes := MatchRes1(resStr);
      if mRes.None? { return Some(ParseError("result", resStr, line)); }
      if funStr in MAL_INT_TYPES {
        var mPar := MatchOneBat(parStr);
        if mPar.None? { return Some(ParseError("parameter", parStr, line)); }
        var inCol := MapNameIf(mPar.value);
        SetName(mRes.value, Alias(inCol));
      } else {
        var mPar := MatchBatCalcBinary(parStr);
        if mPar.None? { return Some(ParseError("parameter", parStr, line)); }
        var op := ArithOp(funStr, vectorSelect);
        if op.Err? { return Some(op.error); }
        var inDataLCol := MapNameIf(mPar.value.0);
        var inDataRCol := MapNameIf(mPar.value.1);
        AddHeader("functional");
        Append([NewCalcBinary(mRes.value, op.value, inDataLCol, inDataRCol)]);
      }
      return None;
    }

    method TranslateGroupGroup(resStr: string, parStr: string) returns (err: Option<TranslateError>)
      modifies this
      ensures Ends(GroupGroup(old(Snapshot()), resStr, parStr), err)
    {
      GroupGroupCases(Snapshot(), resStr, parStr);
      var mRes := MatchRes3(resStr);
      if mRes.None? { return Some(ParseError("result", resStr, line)); }
      var mPar := MatchOneBat(parStr);
      if mPar.None? { return Some(ParseError("parameter", parStr, line)); }
      var inDataCol := MapNameIf(mPar.value);
      Append([NewGroupUnary(mRes.value.0, mRes.value.1, inDataCol)]);
      return None;
    }

    method TranslateGroupSubgroup(resStr: string, parStr: string) returns (err: Option<TranslateError>)
      modifies this
      ensures Ends(GroupSubgroup(old(Snapshot()), resStr, parStr), err)
    {
      GroupSubgroupCases(Snapshot(), resStr, parStr);
      var mRes := MatchRes3(resStr);
      if mRes.None? { return Some(ParseError("result", resStr, line)); }
      var mPar := MatchGroupSubgroup(parStr);
      if mPar.None? { return Some(ParseError("parameter", parStr, line)); }
      var inGrCol := MapNameIf(mPar.value.1);
      var inDataCol := MapNameIf(mPar.value.0);
      Append([NewGroupBinary(mRes.value.0, mRes.value.1, inGrCol, inDataCol)]);
      return None;
    }

    method TranslateSqlBind(resStr: string, parStr: string) returns (err: Option<TranslateError>)
      modifies this
      ensures Ends(SqlBind(old(Snapshot()), resStr, parStr), err)
    {
      SqlBindCases(Snapshot(), resStr, parStr);
      var mRes := MatchRes1(resStr);
      if mRes.None? { return Some(ParseError("result", resStr, line)); }
      var mPar := MatchSqlBind(parStr);
      if mPar.None? { return Some(ParseError("parameter", parStr, line)); }
      SetName(mRes.value, BaseCol(mPar.value.0, mPar.value.1));
      return None;
    }

    method TranslateSqlTid(resStr: string) returns (err: Option<TranslateError>)
      modifies this
      ensures Ends(SqlTid(old(Snapshot()), resStr), err)
    {
      SqlTidCases(Snapshot(), resStr);
      var mRes := MatchRes1(resStr);
      if mRes.None? { return Some(ParseError("result", resStr, line)); }
      fullOidBats := fullOidBats + [mRes.value];
      return None;
    }

    /** The dispatch of one assignment on its (module, function) pair. */
    method Dispatch(resStr: string, modStr: string, funStr: string, parStr: string, vectorSelect: int)
      returns (err: Option<TranslateError>)
      modifies this
      ensures Ends(Translation.Dispatch(old(Snapshot()), resStr, modStr, funStr, parStr, vectorSelect), err)
    {
      match FamilyOf(modStr, funStr) {
        case AggrSubsumF => err := TranslateAggrSubsum(resStr, parStr);
        case AggrSumF => err := TranslateAggrSum(resStr, parStr);
        case AlgebraJoinF => err := TranslateAlgebraJoin(resStr, parStr);
        case AlgebraProjectionpathF => err := TranslateAlgebraProjectionpath(resStr, parStr);
        case AlgebraSelectF => err := TranslateAlgebraSelect(resStr, parStr, vectorSelect);
        case AlgebraSortF => err := TranslateAlgebraSort(resStr);
        case AlgebraThetaselectF => err := TranslateAlgebraThetaselect(resStr, parStr, vectorSelect);
        case BatMergecandF => err := TranslateBatMergecand(resStr, parStr);
        case BatcalcF => err := TranslateBatcalc(resStr, funStr, parStr, vectorSelect);
        case GroupGroupF => err := TranslateGroupGroup(resStr, parStr);
        case GroupSubgroupF => err := TranslateGroupSubgroup(resStr, parStr);
        case SqlBindF => err := TranslateSqlBind(resStr, parStr);
        case SqlTidF => err := TranslateSqlTid(resStr);
        case NoActionF => err := None;
        case UnknownF => err := Some(UnknownFunction(modStr, funStr, line));
      }
    }

    /** One assignment, followed by a blank line when it appended nodes. */
    method TranslateAssignment(parts: (string, string, string, string), vectorSelect: int) returns (err: Option<TranslateError>)
      modifies this
      ensures Ends(Assignment(old(Snapshot()), parts, vectorSelect), err)
    {
      var progLenBefore := |prog|;
      err := Dispatch(parts.0, parts.1, parts.2, parts.3, vectorSelect);
      if err.None? && |prog| > progLenBefore {
        prog := prog + [Line("")];
      }
    }

    /** The loop over the result columns of the result set, each appended name-mapped. */
    method ResultColumns(colsStr: string)
      modifies this
      ensures Snapshot() == ResultSet(old(Snapshot()), colsStr)
    {
      var rest := colsStr;
      var mInner := PrefixMatch(PResultSetInner, rest);
      ghost var s := Snapshot();
      ghost var names := ResultColumnNames(colsStr);
      ghost var done := 0;
      while mInner.Some?
        invariant mInner == PrefixMatch(PResultSetInner, rest)
        invariant done <= |names| && names[done..] == ResultColumnNames(rest)
        invariant Snapshot() == s.(resultCols := s.resultCols + MapNames(s, names[..done]))
        decreases |rest|
      {
        ResultColumnNamesNext(rest);
        var inDataCol := mInner.value.caps[1];
        DropNext(names, done);
        var mapped := MapNameIf(inDataCol);
        AppendResultColumn(s, names, done, mapped);
        rest := rest[mInner.value.end..];
        mInner := PrefixMatch(PResultSetInner, rest);
        done := done + 1;
      }
      assert names[..done] == names;
    }

    /** `ts.resultCols.append(mapped)`, the name-mapped `names[done]`. */
    method AppendResultColumn(ghost s: TState, ghost names: seq<string>, ghost done: nat, mapped: string)
      requires done < |names|
      requires Snapshot() == s.(resultCols := s.resultCols + MapNames(s, names[..done]))
      requires mapped == Translation.MapNameIf(Snapshot(), names[done])
      modifies this
      ensures Snapshot() == s.(resultCols := s.resultCols + MapNames(s, names[..done + 1]))
    {
      assert MapNames(s, names[..done + 1]) == MapNames(s, names[..done]) + [mapped];
      resultCols := resultCols + [mapped];
    }

    /** The part of one iteration of the line loop that starts in the assignment step. */
    method FromAssignments(l: string, vectorSelect: int) returns (err: Option<TranslateError>)
      requires step >= STEP_PROCESS_ASSIGNMENTS
      modifies this
      ensures Ends(Translation.FromAssignments(old(Snapshot()), l, vectorSelect), err)
    {
      if step == STEP_PROCESS_ASSIGNMENTS {
        err := AssignmentLine(l, vectorSelect);
        if err.Some? { return; }
      }
      err := AfterAssignments(l);
    }

    /** In the assignment step: the assignment is translated, or the assignments end. */
    method AssignmentLine(l: string, vectorSelect: int) returns (err: Option<TranslateError>)
      modifies this
      ensures Ends(Translation.AssignmentLine(old(Snapshot()), l, vectorSelect), err)
    {
      var mAssignment := MatchAssignment(l);
      if mAssignment.None? {
        step := STEP_PROCESS_OUTPUT;
        err := None;
      } else {
        err := TranslateAssignment(mAssignment.value, vectorSelect);
      }
    }

    /** The result set line, the end of the query function, and the epilogue comments. */
    method AfterAssignments(l: string) returns (err: Option<TranslateError>)
      modifies this
      ensures Ends(Translation.AfterAssignments(old(Snapshot()), l), err)
    {
      if step == STEP_PROCESS_OUTPUT {
        var mResultSet := MatchResultSet(l);
        if mResultSet.None? { return Some(NameError); }
        ResultColumns(mResultSet.value);
        step := STEP_SKIP_QUERY_FUNCTION_END;
        return None;
      }
      if step == STEP_SKIP_QUERY_FUNCTION_END {
        if !Strings.StartsWith(l, "end user.") { return Some(NameError); }
        step := STEP_SKIP_EPILOGUE_COMMENTS;
        return None;
      }
      if step == STEP_SKIP_EPILOGUE_COMMENTS {
        if |l| == 0 { return Some(IndexError(l)); }
        if l[0] != '#' { return Some(NameError); }
      }
      return None;
    }

    /** One iteration of the line loop of `translate`. */
    method Step(raw: string, vectorSelect: int) returns (err: Option<TranslateError>)
      modifies this
      ensures Ends(LineStep(old(Snapshot()), raw, vectorSelect), err)
    {
      var l := Strings.Strip(raw);
      line := l;
      if step == STEP_SKIP_PROLOGUE_COMMENTS {
        if |l| == 0 { return Some(IndexError(l)); }
        if l[0] != '%' {
          step := STEP_SKIP_QUERY_FUNCTION_START;
        }
      }
      if step == STEP_SKIP_QUERY_FUNCTION_START {
        if !Strings.StartsWith(l, "function user.") { return Some(NameError); }
        step := STEP_PROCESS_ASSIGNMENTS;
        return None;
      }
      if step < STEP_PROCESS_ASSIGNMENTS {
        return None;
      }
      err := FromAssignments(l, vectorSelect);
    }

    /** `TranslationResult.colNamesByTblName`, built over the name map's keys in order. */
    method ColNamesByTblName() returns (tables: seq<(string, seq<string>)>)
      ensures tables == Translation.ColNamesByTblName(Snapshot())
    {
      tables := [];
      var i := 0;
      while i < |nameOrder|
        invariant i <= |nameOrder|
        invariant GroupBaseColumns(tables, nameMap, nameOrder[i..]) == Translation.ColNamesByTblName(Snapshot())
      {
        var key := nameOrder[i];
        if key in nameMap && nameMap[key].BaseCol? {
          tables := AddColumn(tables, nameMap[key].table, nameMap[key].column);
        }
        assert nameOrder[i..][1..] == nameOrder[i + 1..];
        i := i + 1;
      }
    }

    /**
     * The join post-pass: each generic join is replaced, in its place, by an
     * N:1 join built on its unique input; a join with no unique input stops
     * the pass.
     */
    method RewriteJoins(unique: seq<string>) returns (err: Option<TranslateError>)
      modifies this
      ensures JoinPass(old(prog), unique).Ok? ==> err.None? && prog == JoinPass(old(prog), unique).value
      ensures JoinPass(old(prog), unique).Err? ==> err == Some(JoinPass(old(prog), unique).error)
      ensures err.None? ==> Snapshot() == old(Snapshot()).(prog := prog)
    {
      TranslationRules.JoinPassSpec(prog, unique);
      ghost var s := Snapshot();
      var idx := 0;
      while idx < |prog|
        invariant idx <= |prog| == |s.prog|
        invariant prog[idx..] == s.prog[idx..]
        invariant forall k :: 0 <= k < idx ==> TranslationRules.JoinHasUniqueInput(s.prog[k], unique)
        invariant forall k :: 0 <= k < idx ==> prog[k] == RewriteJoin(s.prog[k], unique).value
        invariant Snapshot() == s.(prog := prog)
      {
        assert prog[idx] == s.prog[idx];
        var ok := RewriteAt(idx, unique);
        if !ok { return Some(MNJoin); }
        idx := idx + 1;
      }
      return None;
    }

    /** The post-pass on the element at `idx`: false when it is a join with no unique input. */
    method RewriteAt(idx: nat, unique: seq<string>) returns (ok: bool)
      requires idx < |prog|
      modifies this
      ensures ok == TranslationRules.JoinHasUniqueInput(old(prog)[idx], unique)
      ensures ok ==> Snapshot() == old(Snapshot()).(prog := old(prog)[idx := RewriteJoin(old(prog)[idx], unique).value])
    {
      var el := prog[idx];
      TranslationRules.RewriteJoinSpec(el, unique);
      ok := true;
      if el.OpEl? && el.node.Join? {
        var o := el.node;
        if o.inDataLCol in unique {
          prog := prog[idx := OpEl(NewNto1Join(o.outPosLCol, o.outPosRCol, o.inDataLCol, o.inDataRCol))];
        } else if o.inDataRCol in unique {
          prog := prog[idx := OpEl(NewNto1Join(o.outPosRCol, o.outPosLCol, o.inDataRCol, o.inDataLCol))];
        } else {
          ok := false;
        }
      }
    }
  }

  /** `translate` over the lines of a MAL file as iteration over the file yields them. */
  method Translate(lines: seq<string>, vectorSelect: int) returns (r: Result<TranslationResult, TranslateError>)
    ensures r == Translation.Translate(lines, vectorSelect)
  {
    var ts := new TranslationState();
    var i := 0;
    while i < |lines|
      invariant i <= |lines|
      invariant Lines(Initial(), lines, vectorSelect) == Lines(ts.Snapshot(), lines[i..], vectorSelect)
    {
      assert lines[i..][1..] == lines[i + 1..];
      var err := ts.Step(lines[i], vectorSelect);
      if err.Some? { return Err(err.value); }
      i := i + 1;
    }
    var tables := ts.ColNamesByTblName();
    var ar := Analysis.Analyze(tables, ts.prog, ts.resultCols);
    if ar.Err? { return Err(AnalysisFailed(ar.error)); }
    var err := ts.RewriteJoins(ar.value.varsUnique);
    if err.Some? { return Err(err.value); }
    return Ok(TranslationResult(ts.headers, ts.prog, ts.resultCols, tables));
  }

  // The translation functions of the `Translation` module, case by case as
  // the methods above take them.

  lemma AggrSubsumCases(s: TState, resStr: string, parStr: string)
    ensures AggrSubsum(s, resStr, parStr) ==
      if MatchRes1(resStr).None? then Err(ParseError("result", resStr, s.line))
      else if MatchAggrSubsum(parStr).None? then Err(ParseError("parameter", parStr, s.line))
      else
        var p := MatchAggrSubsum(parStr).value;
        Ok(Emit(s, [NewSumGrBased(MatchRes1(resStr).value, MapNameIf(s, p.1), MapNameIf(s, p.0), MapNameIf(s, p.2))]))
  {
  }

  lemma AggrSumCases(s: TState, resStr: string, parStr: string)
    ensures AggrSum(s, resStr, parStr) ==
      if MatchResScalar(resStr).None? then Err(ParseError("result", resStr, s.line))
      else if MatchOneBat(parStr).None? then Err(ParseError("parameter", parStr, s.line))
      else Ok(Emit(s, [NewSumWholeCol(MatchResScalar(resStr).value, MapNameIf(s, MatchOneBat(parStr).value))]))
  {
  }

  lemma AlgebraJoinCases(s: TState, resStr: string, parStr: string)
    ensures AlgebraJoin(s, resStr, parStr) ==
      if MatchRes2(resStr).None? then Err(ParseError("result", resStr, s.line))
      else if MatchAlgebraJoin(parStr).None? then Err(ParseError("parameter", parStr, s.line))
      else
        var r, p := MatchRes2(resStr).value, MatchAlgebraJoin(parStr).value;
        Ok(Emit(s, [NewJoin(r.0, r.1, MapNameIf(s, p.0), MapNameIf(s, p.1))]))
  {
  }

  lemma AlgebraProjectionpathCases(s: TState, resStr: string, parStr: string)
    ensures AlgebraProjectionpath(s, resStr, parStr) ==
      if MatchRes1(resStr).None? then Err(ParseError("result", resStr, s.line))
      else if MatchProjectionpath(parStr).None? then Err(ParseError("parameter", parStr, s.line))
      else
        var p := MatchProjectionpath(parStr).value;
        Ok(Projection(s, MatchRes1(resStr).value, MapNameIf(s, p.1), Translation.KeptPositions(s, PositionLists(p.0))))
  {
  }

  lemma AlgebraSelectCases(s: TState, resStr: string, parStr: string, vectorSelect: int)
    ensures AlgebraSelect(s, resStr, parStr, vectorSelect) ==
      if MatchRes1(resStr).None? then Err(ParseError("result", resStr, s.line))
      else if MatchAlgebraSelect(parStr).None? then Err(ParseError("parameter", parStr, s.line))
      else
        var p := MatchAlgebraSelect(parStr).value;
        Ok(Emit(s.(headers := s.headers + {"functional"}),
                RangeSelectNodes(MatchRes1(resStr).value, MapNameIf(s, p.0), p.1, p.2, p.3, vectorSelect, s.fullOidBats)))
  {
  }

  lemma AlgebraSortCases(s: TState, resStr: string)
    ensures AlgebraSort(s, resStr) ==
      if MatchRes3(resStr).None? then Err(ParseError("result", resStr, s.line))
      else
        var r := MatchRes3(resStr).value;
        Ok(s.(sortResults := s.sortResults + [r.0, r.1, r.2]))
  {
  }

  lemma AlgebraThetaselectCases(s: TState, resStr: string, parStr: string, vectorSelect: int)
    ensures AlgebraThetaselect(s, resStr, parStr, vectorSelect) ==
      if MatchRes1(resStr).None? then Err(ParseError("result", resStr, s.line))
      else if MatchThetaselect(parStr).None? then Err(ParseError("parameter", parStr, s.line))
      else
        var p := MatchThetaselect(parStr).value;
        var cand := if p.1.Some? then Some(MapNameIf(s, p.1.value)) else None;
        if CmpOp(p.3, vectorSelect).Err? then Err(CmpOp(p.3, vectorSelect).error)
        else
          Ok(Emit(s.(headers := s.headers + {"functional"}),
                  ThetaselectNodes(MatchRes1(resStr).value, MapNameIf(s, p.0), cand, p.2, CmpOp(p.3, vectorSelect).value, s.fullOidBats)))
  {
  }

  lemma BatMergecandCases(s: TState, resStr: string, parStr: string)
    ensures BatMergecand(s, resStr, parStr) ==
      if MatchRes1(resStr).None? then Err(ParseError("result", resStr, s.line))
      else if MatchMerge(parStr).None? then Err(ParseError("parameter", parStr, s.line))
      else
        var p := MatchMerge(parStr).value;
        Ok(Emit(s, [NewMerge(MatchRes1(resStr).value, MapNameIf(s, p.0), MapNameIf(s, p.1))]))
  {
  }

  lemma BatcalcCases(s: TState, resStr: string, funStr: string, parStr: string, vectorSelect: int)
    ensures Batcalc(s, resStr, funStr, parStr, vectorSelect) ==
      if MatchRes1(resStr).None? then Err(ParseError("result", resStr, s.line))
      else if funStr in MAL_INT_TYPES then
        if MatchOneBat(parStr).None? then Err(ParseError("parameter", parStr, s.line))
        else Ok(Translation.SetName(s, MatchRes1(resStr).value, Alias(MapNameIf(s, MatchOneBat(parStr).value))))
      else if MatchBatCalcBinary(parStr).None? then Err(ParseError("parameter", parStr, s.line))
      else if ArithOp(funStr, vectorSelect).Err? then Err(ArithOp(funStr, vectorSelect).error)
      else
        var p := MatchBatCalcBinary(parStr).value;
        Ok(Emit(s.(headers := s.headers + {"functional"}),
                [NewCalcBinary(MatchRes1(resStr).value, ArithOp(funStr, vectorSelect).value, MapNameIf(s, p.0), MapNameIf(s, p.1))]))
  {
  }

  lemma GroupGroupCases(s: TState, resStr: string, parStr: string)
    ensures GroupGroup(s, resStr, parStr) ==
      if MatchRes3(resStr).None? then Err(ParseError("result", resStr, s.line))
      else if MatchOneBat(parStr).None? then Err(ParseError("parameter", parStr, s.line))
      else
        var r := MatchRes3(resStr).value;
        Ok(Emit(s, [NewGroupUnary(r.0, r.1, MapNameIf(s, MatchOneBat(parStr).value))]))
  {
  }

  lemma GroupSubgroupCases(s: TState, resStr: string, parStr: string)
    ensures GroupSubgroup(s, resStr, parStr) ==
      if MatchRes3(resStr).None? then Err(ParseError("result", resStr, s.line))
      else if MatchGroupSubgroup(parStr).None? then Err(ParseError("parameter", parStr, s.line))
      else
        var r, p := MatchRes3(resStr).value, MatchGroupSubgroup(parStr).value;
        Ok(Emit(s, [NewGroupBinary(r.0, r.1, MapNameIf(s, p.1), MapNameIf(s, p.0))]))
  {
  }

  lemma SqlBindCases(s: TState, resStr: string, parStr: string)
    ensures SqlBind(s, resStr, parStr) ==
      if MatchRes1(resStr).None? then Err(ParseError("result", resStr, s.line))
      else if MatchSqlBind(parStr).None? then Err(ParseError("parameter", parStr, s.line))
      else
        var p := MatchSqlBind(parStr).value;
        Ok(Translation.SetName(s, MatchRes1(resStr).value, BaseCol(p.0, p.1)))
  {
  }

  lemma SqlTidCases(s: TState, resStr: string)
    ensures SqlTid(s, resStr) ==
      if MatchRes1(resStr).None? then Err(ParseError("result", resStr, s.line))
      else Ok(s.(fullOidBats := s.fullOidBats + [MatchRes1(resStr).value]))
  {
  }

  /** The chain up to step `idx` inclusive: the chain before it and the project of that step. */
  lemma ProjectChainNext(out: string, inData: string, rev: seq<string>, idx: nat)
    requires idx < |rev|
    ensures
      var chain := Translation.ProjectChain(out, inData, rev);
      chain[..idx + 1] == chain[..idx] + [NewProject(if idx < |rev| - 1 then Interm(out, idx) else out,
                                                     if idx > 0 then Interm(out, idx - 1) else inData, rev[idx])]
  {
    var chain := Translation.ProjectChain(out, inData, rev);
    SliceNext(chain, idx);
  }

  lemma Associative<T>(a: seq<T>, b: seq<T>, c: seq<T>)
    ensures a + (b + c) == (a + b) + c
  {
  }

  lemma DropNext<T>(s: seq<T>, i: nat)
    requires i < |s|
    ensures s[i] == s[i..][0] && s[i + 1..] == s[i..][1..]
  {
  }

  lemma SliceNext<T>(s: seq<T>, i: nat)
    requires i < |s|
    ensures s[..i + 1] == s[..i] + [s[i]]
  {
  }

  /** The kept position lists of a list, from its first element. */
  lemma KeptPositionsCons(s: TState, x: string, t: seq<string>)
    ensures Translation.KeptPositions(s, [x] + t)
         == (if x !in s.fullOidBats && x !in s.sortResults then [MapNameIf(s, x)] else []) + Translation.KeptPositions(s, t)
  {
    assert ([x] + t)[1..] == t;
  }

  /** Appending nodes in two goes appends them all. */
  lemma EmitTwice(s: TState, a: seq<Op>, b: seq<Op>)
    ensures Emit(Emit(s, a), b) == Emit(s, a + b)
  {
    assert OpEls(a) + OpEls(b) == OpEls(a + b);
  }
}
