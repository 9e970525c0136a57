/**
 * The MAL-to-MorphStore translation of mal2morphstore, as functions on a
 * value of the translation state. MonetDB's MAL program is read line by line
 * (each line stripped of surrounding white space first) by a machine of six
 * steps; each assignment `res := mod.fun(params);` is dispatched on its
 * module and function and may append operator nodes to the program, record
 * a name mapping, a full-OID BAT or sort results. After the last line, the
 * plan analysis runs on the program and each generic join becomes an N:1
 * join built on its unique input.
 *
 * The imperative form of these operations is the `Translator` module; its
 * methods are proved to compute these functions.
 */
module Translation {
  import opened Wrappers
  import opened Strings
  import opened MalPatterns
  import opened Operators
  import Usage
  import Analysis

  // The steps of the line machine.
  const STEP_SKIP_PROLOGUE_COMMENTS: nat := 1
  const STEP_SKIP_QUERY_FUNCTION_START: nat := 2
  const STEP_PROCESS_ASSIGNMENTS: nat := 3
  const STEP_PROCESS_OUTPUT: nat := 4
  const STEP_SKIP_QUERY_FUNCTION_END: nat := 5
  const STEP_SKIP_EPILOGUE_COMMENTS: nat := 6

  /** The batcalc functions that are integer casts. */
  const MAL_INT_TYPES: seq<string> := ["bit", "byte", "sht", "int", "lng", "hge"]

  /** What a MAL variable name maps to: a base column (table, column) or another name. */
  datatype Target = BaseCol(table: string, column: string) | Alias(name: string)

  /** The errors translation raises. */
  datatype TranslateError =
    | ParseError(role: string, text: string, line: string)        // a result or parameter pattern does not match
    | UnknownFunction(modName: string, funName: string, line: string)
    | KeyError(key: string)                                       // an operator missing from an operator map
    | NameError                                                   // the abort path calls an undefined `_error`
    | IndexError(line: string)                                    // `line[0]` of an empty line
    | MNJoin                                                      // "the query contains an M:N-join"
    | AnalysisFailed(error: Analysis.AnalysisError)

  /**
   * `_TranslationState`. The name map is a Python dict: `nameOrder` keeps its
   * keys in insertion order, which the result's table dictionary follows.
   */
  datatype TState = TState(
    step: nat,
    line: string,
    headers: set<string>,
    nameMap: map<string, Target>,
    nameOrder: seq<string>,
    fullOidBats: seq<string>,
    sortResults: seq<string>,
    prog: seq<Element>,
    resultCols: seq<string>)

  function Initial(): TState
  {
    TState(STEP_SKIP_PROLOGUE_COMMENTS, "", {}, map[], [], [], [], [], [])
  }

  /** The name map is a dictionary: its order lists each key once, and only its keys. */
  predicate ValidNames(s: TState)
  {
    && Usage.NoDuplicates(s.nameOrder)
    && s.nameMap.Keys == set k <- s.nameOrder
  }

  /** `mapNameIf`: the name a MAL variable has in the translated program. */
  function MapNameIf(s: TState, name: string): string
  {
    if name in s.nameMap then
      match s.nameMap[name]
      case BaseCol(t, c) => t + "." + c
      case Alias(a) => a
    else name
  }

  /** `ts.nameMap[key] = target`: a new key is appended to the order, an old one keeps its place. */
  function SetName(s: TState, key: string, target: Target): (r: TState)
    ensures ValidNames(s) ==> ValidNames(r)
  {
    s.(nameMap := s.nameMap[key := target],
       nameOrder := if key in s.nameMap then s.nameOrder else s.nameOrder + [key])
  }

  function OpEls(nodes: seq<Op>): (r: seq<Element>)
    ensures |r| == |nodes| && forall k :: 0 <= k < |nodes| ==> r[k] == OpEl(nodes[k])
  {
    seq(|nodes|, k requires 0 <= k < |nodes| => OpEl(nodes[k]))
  }

  /** Appends operator nodes to the program. */
  function Emit(s: TState, nodes: seq<Op>): TState
  {
    s.(prog := s.prog + OpEls(nodes))
  }

  /** `fullmatchRes` / `fullmatchPar`: the groups, or the parse error naming the role. */
  function Need<T>(m: Option<T>, role: string, text: string, line: string): Result<T, TranslateError>
  {
    match m
    case Some(v) => Ok(v)
    case None => Err(ParseError(role, text, line))
  }

  // One function per (family of) MAL operator(s).

  /** aggr.subsum: a grouped sum. */
  function AggrSubsum(s: TState, resStr: string, parStr: string): Result<TState, TranslateError>
  {
    var out :- Need(MatchRes1(resStr), "result", resStr, s.line);
    var p :- Need(MatchAggrSubsum(parStr), "parameter", parStr, s.line);
    Ok(Emit(s, [NewSumGrBased(out, MapNameIf(s, p.1), MapNameIf(s, p.0), MapNameIf(s, p.2))]))
  }

  /** aggr.sum: a whole-column sum. */
  function AggrSum(s: TState, resStr: string, parStr: string): Result<TState, TranslateError>
  {
    var out :- Need(MatchResScalar(resStr), "result", resStr, s.line);
    var p :- Need(MatchOneBat(parStr), "parameter", parStr, s.line);
    Ok(Emit(s, [NewSumWholeCol(out, MapNameIf(s, p))]))
  }

  /** algebra.join: a generic join, rewritten after the pass. */
  function AlgebraJoin(s: TState, resStr: string, parStr: string): Result<TState, TranslateError>
  {
    var r :- Need(MatchRes2(resStr), "result", resStr, s.line);
    var p :- Need(MatchAlgebraJoin(parStr), "parameter", parStr, s.line);
    Ok(Emit(s, [NewJoin(r.0, r.1, MapNameIf(s, p.0), MapNameIf(s, p.1))]))
  }

  /** The position lists a projection applies: full-OID BATs and sort results dropped, the rest mapped. */
  function KeptPositions(s: TState, names: seq<string>): (r: seq<string>)
    ensures |r| <= |names|
  {
    if names == [] then []
    else
      var rest := KeptPositions(s, names[1..]);
      if names[0] !in s.fullOidBats && names[0] !in s.sortResults then [MapNameIf(s, names[0])] + rest else rest
  }

  /** The name of the `idx`-th intermediate result of a multi-step projection. */
  function Interm(out: string, idx: nat): string
  {
    out + "_" + NatToString(idx)
  }

  /**
   * The projects applying the position lists `rev` (already in application
   * order) one after another: step `idx` reads the previous step's output
   * (the data column first) and writes intermediate `idx`, the last step `out`.
   */
  function ProjectChain(out: string, inData: string, rev: seq<string>): seq<Op>
  {
    var n := |rev|;
    seq(n, idx requires 0 <= idx < n =>
      NewProject(if idx < n - 1 then Interm(out, idx) else out,
                 if idx > 0 then Interm(out, idx - 1) else inData,
                 rev[idx]))
  }

  function Reverse<T>(s: seq<T>): (r: seq<T>)
    ensures |r| == |s| && forall k :: 0 <= k < |s| ==> r[k] == s[|s| - 1 - k]
  {
    seq(|s|, k requires 0 <= k < |s| => s[|s| - 1 - k])
  }

  /** algebra.projection and algebra.projectionpath. */
  function AlgebraProjectionpath(s: TState, resStr: string, parStr: string): Result<TState, TranslateError>
  {
    var out :- Need(MatchRes1(resStr), "result", resStr, s.line);
    var p :- Need(MatchProjectionpath(parStr), "parameter", parStr, s.line);
    Ok(Projection(s, out, MapNameIf(s, p.1), KeptPositions(s, PositionLists(p.0))))
  }

  /** A projection of `inData` through the kept position lists `pos`, written to `out`. */
  function Projection(s: TState, out: string, inData: string, pos: seq<string>): TState
  {
    if |pos| == 0 then SetName(s, out, Alias(inData))
    else if |pos| == 1 then Emit(s, [NewProject(out, inData, pos[0])])
    else Emit(s, ProjectChain(out, inData, Reverse(pos)))
  }

  /**
   * The nodes of a range selection: one select per bound, their
   * intersection, and an intersection with the candidate list when it is
   * given and is not a full-OID BAT. The last node writes `out`.
   */
  function RangeSelectNodes(out: string, inData: string, cand: Option<string>, lo: string, hi: string,
                            vectorSelect: int, fullOidBats: seq<string>): seq<Op>
  {
    var useful := cand.Some? && cand.value !in fullOidBats;
    var outLo, outHi, interm := out + "_lo", out + "_hi", out + "_0";
    [NewSelect(outLo, if vectorSelect == 1 then "std::greater_equal" else "greaterequal", inData, lo),
     NewSelect(outHi, if vectorSelect == 1 then "std::less_equal" else "lessequal", inData, hi),
     NewIntersect(if useful then interm else out, outLo, outHi)]
    + (if useful then [NewIntersect(out, interm, cand.value)] else [])
  }

  /** algebra.select: BETWEEN. The candidate list is not name-mapped here. */
  function AlgebraSelect(s: TState, resStr: string, parStr: string, vectorSelect: int): Result<TState, TranslateError>
  {
    var out :- Need(MatchRes1(resStr), "result", resStr, s.line);
    var p :- Need(MatchAlgebraSelect(parStr), "parameter", parStr, s.line);
    var nodes := RangeSelectNodes(out, MapNameIf(s, p.0), p.1, p.2, p.3, vectorSelect, s.fullOidBats);
    Ok(Emit(s.(headers := s.headers + {"functional"}), nodes))
  }

  /** algebra.sort: no node; its three results are remembered. */
  function AlgebraSort(s: TState, resStr: string): Result<TState, TranslateError>
  {
    var r :- Need(MatchRes3(resStr), "result", resStr, s.line);
    Ok(s.(sortResults := s.sortResults + [r.0, r.1, r.2]))
  }

  /** `_cmpOpMap` (vectorSelect 1) and `_cmpOpMapVec`, as written: ">" maps to equality. */
  function CmpOp(op: string, vectorSelect: int): Result<string, TranslateError>
  {
    if vectorSelect == 1 then
      if op == "<" then Ok("std::less")
      else if op == "<=" then Ok("std::less_equal")
      else if op == "==" then Ok("std::equal_to")
      else if op == ">=" then Ok("std::greater_equal")
      else if op == ">" then Ok("std::equal")
      else Err(KeyError(op))
    else
      if op == "<" then Ok("less")
      else if op == "<=" then Ok("lessequal")
      else if op == "==" then Ok("equal")
      else if op == ">=" then Ok("greaterequal")
      else if op == ">" then Ok("equal")
      else Err(KeyError(op))
  }

  /** The nodes of a comparison selection, with the candidate intersection when useful. */
  function ThetaselectNodes(out: string, inData: string, cand: Option<string>, val: string, op: string,
                            fullOidBats: seq<string>): seq<Op>
  {
    var useful := cand.Some? && cand.value !in fullOidBats;
    var interm := out + "_0";
    [NewSelect(if useful then interm else out, op, inData, val)]
    + (if useful then [NewIntersect(out, interm, cand.value)] else [])
  }

  /** algebra.thetaselect. The candidate list is name-mapped before the full-OID test. */
  function AlgebraThetaselect(s: TState, resStr: string, parStr: string, vectorSelect: int): Result<TState, TranslateError>
  {
    var out :- Need(MatchRes1(resStr), "result", resStr, s.line);
    var p :- Need(MatchThetaselect(parStr), "parameter", parStr, s.line);
    var cand := if p.1.Some? then Some(MapNameIf(s, p.1.value)) else None;
    var op :- CmpOp(p.3, vectorSelect);
    var nodes := ThetaselectNodes(out, MapNameIf(s, p.0), cand, p.2, op, s.fullOidBats);
    Ok(Emit(s.(headers := s.headers + {"functional"}), nodes))
  }

  /** bat.mergecand: the union of two candidate lists. */
  function BatMergecand(s: TState, resStr: string, parStr: string): Result<TState, TranslateError>
  {
    var out :- Need(MatchRes1(resStr), "result", resStr, s.line);
    var p :- Need(MatchMerge(parStr), "parameter", parStr, s.line);
    Ok(Emit(s, [NewMerge(out, MapNameIf(s, p.0), MapNameIf(s, p.1))]))
  }

  /** `_arithmOpMap` (vectorSelect 1) and `_arithmOpMapVec`. */
  function ArithOp(fun: string, vectorSelect: int): Result<string, TranslateError>
  {
    if vectorSelect == 1 then
      if fun == "+" then Ok("std::plus")
      else if fun == "-" then Ok("std::minus")
      else if fun == "*" then Ok("std::multiplies")
      else Err(KeyError(fun))
    else
      if fun == "+" then Ok("add")
      else if fun == "-" then Ok("sub")
      else if fun == "*" then Ok("mul")
      else Err(KeyError(fun))
  }

  /** batcalc: an integer cast becomes an alias, anything else an arithmetic node. */
  function Batcalc(s: TState, resStr: string, funStr: string, parStr: string, vectorSelect: int): Result<TState, TranslateError>
  {
    var out :- Need(MatchRes1(resStr), "result", resStr, s.line);
    if funStr in MAL_INT_TYPES then
      var p :- Need(MatchOneBat(parStr), "parameter", parStr, s.line);
      Ok(SetName(s, out, Alias(MapNameIf(s, p))))
    else
      var p :- Need(MatchBatCalcBinary(parStr), "parameter", parStr, s.line);
      var op :- ArithOp(funStr, vectorSelect);
      Ok(Emit(s.(headers := s.headers + {"functional"}), [NewCalcBinary(out, op, MapNameIf(s, p.0), MapNameIf(s, p.1))]))
  }

  /** group.group: unary grouping. */
  function GroupGroup(s: TState, resStr: string, parStr: string): Result<TState, TranslateError>
  {
    var r :- Need(MatchRes3(resStr), "result", resStr, s.line);
    var p :- Need(MatchOneBat(parStr), "parameter", parStr, s.line);
    Ok(Emit(s, [NewGroupUnary(r.0, r.1, MapNameIf(s, p))]))
  }

  /** group.subgroup and group.subgroupdone: binary grouping. */
  function GroupSubgroup(s: TState, resStr: string, parStr: string): Result<TState, TranslateError>
  {
    var r :- Need(MatchRes3(resStr), "result", resStr, s.line);
    var p :- Need(MatchGroupSubgroup(parStr), "parameter", parStr, s.line);
    Ok(Emit(s, [NewGroupBinary(r.0, r.1, MapNameIf(s, p.1), MapNameIf(s, p.0))]))
  }

  /** sql.bind: no node; the result names a base column. */
  function SqlBind(s: TState, resStr: string, parStr: string): Result<TState, TranslateError>
  {
    var out :- Need(MatchRes1(resStr), "result", resStr, s.line);
    var p :- Need(MatchSqlBind(parStr), "parameter", parStr, s.line);
    Ok(SetName(s, out, BaseCol(p.0, p.1)))
  }

  /** sql.tid: no node; the result holds all OIDs of a table. */
  function SqlTid(s: TState, resStr: string): Result<TState, TranslateError>
  {
    var out :- Need(MatchRes1(resStr), "result", resStr, s.line);
    Ok(s.(fullOidBats := s.fullOidBats + [out]))
  }

  /** The translation function families, and the pairs that need no action or are unknown. */
  datatype Family =
    | AggrSubsumF | AggrSumF | AlgebraJoinF | AlgebraProjectionpathF | AlgebraSelectF | AlgebraSortF
    | AlgebraThetaselectF | BatMergecandF | BatcalcF | GroupGroupF | GroupSubgroupF | SqlBindF | SqlTidF
    | NoActionF | UnknownF

  /** The dispatch on (module, function). */
  function FamilyOf(modStr: string, funStr: string): Family
  {
    if modStr == "aggr" && funStr == "subsum" then AggrSubsumF
    else if modStr == "aggr" && funStr == "sum" then AggrSumF
    else if modStr == "algebra" && funStr == "join" then AlgebraJoinF
    else if modStr == "algebra" && funStr in ["projection", "projectionpath"] then AlgebraProjectionpathF
    else if modStr == "algebra" && funStr == "select" then AlgebraSelectF
    else if modStr == "algebra" && funStr == "sort" then AlgebraSortF
    else if modStr == "algebra" && funStr == "thetaselect" then AlgebraThetaselectF
    else if modStr == "bat" && funStr == "append" then NoActionF
    else if modStr == "bat" && funStr == "mergecand" then BatMergecandF
    else if modStr == "bat" && funStr == "new" then NoActionF
    else if modStr == "batcalc" then BatcalcF
    else if modStr == "group" && funStr == "group" then GroupGroupF
    else if modStr == "group" && funStr in ["subgroup", "subgroupdone"] then GroupSubgroupF
    else if modStr == "querylog" && funStr == "define" then NoActionF
    else if modStr == "sql" && funStr == "bind" then SqlBindF
    else if modStr == "sql" && funStr == "mvc" then NoActionF
    else if modStr == "sql" && funStr == "tid" then SqlTidF
    else UnknownF
  }

  /** `_translateAssignment` without the separator: the family's translation function. */
  function Dispatch(s: TState, resStr: string, modStr: string, funStr: string, parStr: string, vectorSelect: int): Result<TState, TranslateError>
  {
    match FamilyOf(modStr, funStr)
    case AggrSubsumF => AggrSubsum(s, resStr, parStr)
    case AggrSumF => AggrSum(s, resStr, parStr)
    case AlgebraJoinF => AlgebraJoin(s, resStr, parStr)
    case AlgebraProjectionpathF => AlgebraProjectionpath(s, resStr, parStr)
    case AlgebraSelectF => AlgebraSelect(s, resStr, parStr, vectorSelect)
    case AlgebraSortF => AlgebraSort(s, resStr)
    case AlgebraThetaselectF => AlgebraThetaselect(s, resStr, parStr, vectorSelect)
    case BatMergecandF => BatMergecand(s, resStr, parStr)
    case BatcalcF => Batcalc(s, resStr, funStr, parStr, vectorSelect)
    case GroupGroupF => GroupGroup(s, resStr, parStr)
    case GroupSubgroupF => GroupSubgroup(s, resStr, parStr)
    case SqlBindF => SqlBind(s, resStr, parStr)
    case SqlTidF => SqlTid(s, resStr)
    case NoActionF => Ok(s)
    case UnknownF => Err(UnknownFunction(modStr, funStr, s.line))
  }

  /** One assignment: dispatched, then a blank line after it if it produced nodes. */
  function Assignment(s: TState, parts: (string, string, string, string), vectorSelect: int): Result<TState, TranslateError>
  {
    Separate(s, Dispatch(s, parts.0, parts.1, parts.2, parts.3, vectorSelect))
  }

  /** The blank line that follows the nodes of an assignment. */
  function Separate(s: TState, r: Result<TState, TranslateError>): Result<TState, TranslateError>
  {
    var t :- r;
    Ok(if |t.prog| > |s.prog| then t.(prog := t.prog + [Line("")]) else t)
  }

  /** The result set: the mapped names of its columns, appended in order. */
  function ResultSet(s: TState, colsStr: string): TState
  {
    s.(resultCols := s.resultCols + MapNames(s, ResultColumnNames(colsStr)))
  }

  /** The names in the translated program of the MAL variables `names`, in order. */
  function MapNames(s: TState, names: seq<string>): seq<string>
  {
    seq(|names|, k requires 0 <= k < |names| => MapNameIf(s, names[k]))
  }

  /** The part of a line's processing that starts in the assignment step. */
  function FromAssignments(s: TState, line: string, vectorSelect: int): Result<TState, TranslateError>
    requires s.step >= STEP_PROCESS_ASSIGNMENTS
  {
    var s :- if s.step == STEP_PROCESS_ASSIGNMENTS then AssignmentLine(s, line, vectorSelect) else Ok(s);
    AfterAssignments(s, line)
  }

  /** In the assignment step: an assignment is translated, any other line ends the assignments. */
  function AssignmentLine(s: TState, line: string, vectorSelect: int): Result<TState, TranslateError>
  {
    match MatchAssignment(line)
    case None => Ok(s.(step := STEP_PROCESS_OUTPUT))
    case Some(parts) => Assignment(s, parts, vectorSelect)
  }

  /** The steps after the assignments: the result set, the end of the query function, the epilogue. */
  function AfterAssignments(s: TState, line: string): Result<TState, TranslateError>
  {
    if s.step == STEP_PROCESS_OUTPUT then
      match MatchResultSet(line)
      case Some(cols) => Ok(ResultSet(s, cols).(step := STEP_SKIP_QUERY_FUNCTION_END))
      case None => Err(NameError)
    else if s.step == STEP_SKIP_QUERY_FUNCTION_END then
      if StartsWith(line, "end user.") then Ok(s.(step := STEP_SKIP_EPILOGUE_COMMENTS)) else Err(NameError)
    else if s.step == STEP_SKIP_EPILOGUE_COMMENTS then
      if |line| == 0 then Err(IndexError(line))
      else if line[0] != '#' then Err(NameError)
      else Ok(s)
    else Ok(s)
  }

  /** One iteration of the line loop, on the line as read from the file; it is stripped first. */
  function LineStep(s: TState, raw: string, vectorSelect: int): Result<TState, TranslateError>
  {
    var line := Strip(raw);
    var s := s.(line := line);
    if s.step == STEP_SKIP_PROLOGUE_COMMENTS && |line| == 0 then Err(IndexError(line))
    else
      var s := if s.step == STEP_SKIP_PROLOGUE_COMMENTS && line[0] != '%' then s.(step := STEP_SKIP_QUERY_FUNCTION_START) else s;
      if s.step == STEP_SKIP_QUERY_FUNCTION_START then
        if StartsWith(line, "function user.") then Ok(s.(step := STEP_PROCESS_ASSIGNMENTS)) else Err(NameError)
      else if s.step < STEP_PROCESS_ASSIGNMENTS then Ok(s)
      else FromAssignments(s, line, vectorSelect)
  }

  /** The line loop. */
  function Lines(s: TState, lines: seq<string>, vectorSelect: int): Result<TState, TranslateError>
    decreases |lines|
  {
    if lines == [] then Ok(s)
    else
      var t :- LineStep(s, lines[0], vectorSelect);
      Lines(t, lines[1..], vectorSelect)
  }

  // The translation result.

  /** Adds a column to its table's entry, appending the table when it is new. */
  function AddColumn(tables: seq<(string, seq<string>)>, t: string, c: string): (r: seq<(string, seq<string>)>)
    decreases |tables|
  {
    if tables == [] then [(t, [c])]
    else if tables[0].0 == t then [(t, if c in tables[0].1 then tables[0].1 else tables[0].1 + [c])] + tables[1..]
    else [tables[0]] + AddColumn(tables[1..], t, c)
  }

  /** Groups the base-column entries among the values of `keys`, in order. */
  function GroupBaseColumns(tables: seq<(string, seq<string>)>, nameMap: map<string, Target>, keys: seq<string>): seq<(string, seq<string>)>
    decreases |keys|
  {
    if keys == [] then tables
    else
      var tables := if keys[0] in nameMap && nameMap[keys[0]].BaseCol? then AddColumn(tables, nameMap[keys[0]].table, nameMap[keys[0]].column) else tables;
      GroupBaseColumns(tables, nameMap, keys[1..])
  }

  /**
   * `TranslationResult.colNamesByTblName`: the tables of the name map's base
   * columns in order of first appearance, each with its columns. (The source
   * keeps each table's columns in a set; here they are listed in order of
   * first appearance.)
   */
  function ColNamesByTblName(s: TState): seq<(string, seq<string>)>
  {
    GroupBaseColumns([], s.nameMap, s.nameOrder)
  }

  datatype TranslationResult = TranslationResult(
    headers: set<string>,
    prog: seq<Element>,
    resultCols: seq<string>,
    colNamesByTblName: seq<(string, seq<string>)>)

  /** One element of the join post-pass. */
  function RewriteJoin(el: Element, unique: seq<string>): Result<Element, TranslateError>
  {
    match el
    case OpEl(o) =>
      if o.Join? then
        if o.inDataLCol in unique then Ok(OpEl(NewNto1Join(o.outPosLCol, o.outPosRCol, o.inDataLCol, o.inDataRCol)))
        else if o.inDataRCol in unique then Ok(OpEl(NewNto1Join(o.outPosRCol, o.outPosLCol, o.inDataRCol, o.inDataLCol)))
        else Err(MNJoin)
      else Ok(el)
    case Line(_) => Ok(el)
  }

  /** The join post-pass over the whole program. */
  function JoinPass(prog: seq<Element>, unique: seq<string>): Result<seq<Element>, TranslateError>
    decreases |prog|
  {
    if prog == [] then Ok([])
    else
      var e :- RewriteJoin(prog[0], unique);
      var rest :- JoinPass(prog[1..], unique);
      Ok([e] + rest)
  }

  /** `translate`: the line loop, the analysis, then the join post-pass. */
  function Translate(lines: seq<string>, vectorSelect: int): Result<TranslationResult, TranslateError>
  {
    var s :- Lines(Initial(), lines, vectorSelect);
    var tables := ColNamesByTblName(s);
    match Analysis.Analysis(tables, s.prog, s.resultCols)
    case Err(e) => Err(AnalysisFailed(e))
    case Ok(ar) =>
      var prog :- JoinPass(s.prog, ar.varsUnique);
      Ok(TranslationResult(s.headers, prog, s.resultCols, tables))
  }
}
