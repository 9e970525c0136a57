/**
 * The rules of individual MAL operators' translation and of the translation
 * result: name mapping, the table dictionary, projection paths, range and
 * comparison selections, the operator maps, the operations that emit no
 * node, and the join rewrite.
 */
module TranslationRules {
  import opened Wrappers
  import opened Strings
  import opened MalPatterns
  import opened Operators
  import opened Translation
  import opened TranslationProps
  import Usage
  import Analysis

  // Name mapping and the table dictionary.

  /** `mapNameIf` on each kind of entry, and on a name the map lacks. */
  lemma MapNameIfCases(s: TState, name: string)
    ensures name !in s.nameMap ==> MapNameIf(s, name) == name
    ensures name in s.nameMap && s.nameMap[name].Alias? ==> MapNameIf(s, name) == s.nameMap[name].name
    ensures name in s.nameMap && s.nameMap[name].BaseCol? ==>
      MapNameIf(s, name) == s.nameMap[name].table + "." + s.nameMap[name].column
  {
  }

  /** A new entry changes the mapping of its own key only. */
  lemma SetNameMapsKey(s: TState, key: string, target: Target, name: string)
    ensures MapNameIf(SetName(s, key, target), name) ==
      if name == key then (match target case BaseCol(t, c) => t + "." + c case Alias(a) => a)
      else MapNameIf(s, name)
  {
  }

  function TableNames(tables: seq<(string, seq<string>)>): (r: seq<string>)
    ensures |r| == |tables| && forall i :: 0 <= i < |tables| ==> r[i] == tables[i].0
  {
    seq(|tables|, i requires 0 <= i < |tables| => tables[i].0)
  }

  /** The columns a table dictionary lists for table `t` (none if it lacks `t`). */
  function ColumnsOf(tables: seq<(string, seq<string>)>, t: string): seq<string>
    decreases |tables|
  {
    if tables == [] then []
    else if tables[0].0 == t then tables[0].1
    else ColumnsOf(tables[1..], t)
  }

  /** A dictionary from table names to sets of column names. */
  predicate TableDict(tables: seq<(string, seq<string>)>)
  {
    && Usage.NoDuplicates(TableNames(tables))
    && forall i :: 0 <= i < |tables| ==> Usage.NoDuplicates(tables[i].1)
  }

  lemma {:induction false} ColumnsOfIsEntry(tables: seq<(string, seq<string>)>, t: string)
    ensures ColumnsOf(tables, t) != [] ==> exists i :: 0 <= i < |tables| && tables[i] == (t, ColumnsOf(tables, t))
    decreases |tables|
  {
    if tables != [] && tables[0].0 != t {
      ColumnsOfIsEntry(tables[1..], t);
      if ColumnsOf(tables, t) != [] {
        var i :| 0 <= i < |tables[1..]| && tables[1..][i] == (t, ColumnsOf(tables, t));
        assert tables[i + 1] == (t, ColumnsOf(tables, t));
      }
    }
  }

  /** Adding a column changes the entry of its table only. */
  lemma {:induction false} AddColumnColumns(tables: seq<(string, seq<string>)>, t: string, c: string)
    ensures
      var r := AddColumn(tables, t, c);
      && ColumnsOf(r, t) == (if c in ColumnsOf(tables, t) then ColumnsOf(tables, t) else ColumnsOf(tables, t) + [c])
      && (forall u :: u != t ==> ColumnsOf(r, u) == ColumnsOf(tables, u))
    decreases |tables|
  {
    if tables != [] && tables[0].0 != t {
      AddColumnColumns(tables[1..], t, c);
    }
  }

  /** Adding a column adds its table when it is new, at the end. */
  lemma {:induction false} AddColumnTables(tables: seq<(string, seq<string>)>, t: string, c: string)
    ensures TableNames(AddColumn(tables, t, c)) == (if t in TableNames(tables) then TableNames(tables) else TableNames(tables) + [t])
    decreases |tables|
  {
    var r := AddColumn(tables, t, c);
    if tables == [] {
    } else if tables[0].0 == t {
      assert TableNames(r) == TableNames(tables);
      assert TableNames(tables)[0] == t;
    } else {
      var rest := AddColumn(tables[1..], t, c);
      AddColumnTables(tables[1..], t, c);
      assert r == [tables[0]] + rest;
      assert TableNames(tables) == [tables[0].0] + TableNames(tables[1..]);
      assert TableNames(r) == [tables[0].0] + TableNames(rest);
    }
  }

  /** Adding a column keeps a dictionary of sets one. */
  lemma {:induction false} AddColumnKeepsDict(tables: seq<(string, seq<string>)>, t: string, c: string)
    requires TableDict(tables)
    ensures TableDict(AddColumn(tables, t, c))
    decreases |tables|
  {
    var r := AddColumn(tables, t, c);
    AddColumnTables(tables, t, c);
    if tables == [] {
    } else if tables[0].0 == t {
      forall i | 0 <= i < |r| ensures Usage.NoDuplicates(r[i].1) {
        if i > 0 { assert r[i] == tables[i]; }
      }
    } else {
      var rest := AddColumn(tables[1..], t, c);
      assert r == [tables[0]] + rest;
      assert TableDict(tables[1..]) by {
        forall i | 0 <= i < |tables[1..]| ensures Usage.NoDuplicates(tables[1..][i].1) {
          assert tables[1..][i] == tables[i + 1];
        }
        assert TableNames(tables[1..]) == TableNames(tables)[1..];
      }
      AddColumnKeepsDict(tables[1..], t, c);
      forall i | 0 <= i < |r| ensures Usage.NoDuplicates(r[i].1) {
        if i > 0 { assert r[i] == rest[i - 1]; }
      }
    }
  }

  /** Some key among `keys` maps to the base column (t, c). */
  ghost predicate Binds(nameMap: map<string, Target>, keys: seq<string>, t: string, c: string)
  {
    exists k <- keys :: k in nameMap && nameMap[k] == BaseCol(t, c)
  }

  /** Some key among `keys` maps to a base column of table t. */
  ghost predicate BindsTable(nameMap: map<string, Target>, keys: seq<string>, t: string)
  {
    exists k <- keys :: k in nameMap && nameMap[k].BaseCol? && nameMap[k].table == t
  }

  lemma {:induction false} GroupBaseColumnsSpec(tables: seq<(string, seq<string>)>, nameMap: map<string, Target>, keys: seq<string>)
    requires TableDict(tables)
    ensures
      var r := GroupBaseColumns(tables, nameMap, keys);
      && TableDict(r)
      && (forall t :: t in TableNames(r) <==> t in TableNames(tables) || BindsTable(nameMap, keys, t))
      && (forall t, c :: c in ColumnsOf(r, t) <==> c in ColumnsOf(tables, t) || Binds(nameMap, keys, t, c))
    decreases |keys|
  {
    if keys != [] {
      var k := keys[0];
      var next := if k in nameMap && nameMap[k].BaseCol? then AddColumn(tables, nameMap[k].table, nameMap[k].column) else tables;
      if k in nameMap && nameMap[k].BaseCol? {
        AddColumnColumns(tables, nameMap[k].table, nameMap[k].column);
        AddColumnTables(tables, nameMap[k].table, nameMap[k].column);
        AddColumnKeepsDict(tables, nameMap[k].table, nameMap[k].column);
      }
      GroupBaseColumnsSpec(next, nameMap, keys[1..]);
      forall t ensures BindsTable(nameMap, keys, t) <==> BindsTable(nameMap, keys[1..], t) || (k in nameMap && nameMap[k].BaseCol? && nameMap[k].table == t) {
        if BindsTable(nameMap, keys, t) {
          var k' :| k' in keys && k' in nameMap && nameMap[k'].BaseCol? && nameMap[k'].table == t;
          if k' != k { assert k' in keys[1..]; }
        }
      }
      forall t, c ensures Binds(nameMap, keys, t, c) <==> Binds(nameMap, keys[1..], t, c) || (k in nameMap && nameMap[k] == BaseCol(t, c)) {
        if Binds(nameMap, keys, t, c) {
          var k' :| k' in keys && k' in nameMap && nameMap[k'] == BaseCol(t, c);
          if k' != k { assert k' in keys[1..]; }
        }
      }
    }
  }

  /**
   * `TranslationResult.colNamesByTblName` is a dictionary of sets: it lists
   * exactly the tables of the name map's base-column entries, and for each
   * exactly the columns those entries name.
   */
  lemma ColNamesByTblNameSpec(s: TState)
    requires ValidNames(s)
    ensures TableDict(ColNamesByTblName(s))
    ensures forall t :: t in TableNames(ColNamesByTblName(s)) <==>
      exists k :: k in s.nameMap && s.nameMap[k].BaseCol? && s.nameMap[k].table == t
    ensures forall t, c :: c in ColumnsOf(ColNamesByTblName(s), t) <==>
      exists k :: k in s.nameMap && s.nameMap[k] == BaseCol(t, c)
  {
    GroupBaseColumnsSpec([], s.nameMap, s.nameOrder);
    forall t ensures BindsTable(s.nameMap, s.nameOrder, t) <==> exists k :: k in s.nameMap && s.nameMap[k].BaseCol? && s.nameMap[k].table == t {
      if exists k :: k in s.nameMap && s.nameMap[k].BaseCol? && s.nameMap[k].table == t {
        var k :| k in s.nameMap && s.nameMap[k].BaseCol? && s.nameMap[k].table == t;
        assert k in s.nameOrder;
      }
    }
    forall t, c ensures Binds(s.nameMap, s.nameOrder, t, c) <==> exists k :: k in s.nameMap && s.nameMap[k] == BaseCol(t, c) {
      if exists k :: k in s.nameMap && s.nameMap[k] == BaseCol(t, c) {
        var k :| k in s.nameMap && s.nameMap[k] == BaseCol(t, c);
        assert k in s.nameOrder;
      }
    }
  }

  /**
   * A variable bound to a base column reads, in the translated program, as
   * one of the base columns the analysis starts from.
   */
  lemma MappedBaseColumnsAreBase(s: TState, name: string)
    requires ValidNames(s) && name in s.nameMap && s.nameMap[name].BaseCol?
    ensures MapNameIf(s, name) in Usage.BaseColumns(ColNamesByTblName(s))
  {
    var tables := ColNamesByTblName(s);
    var t, c := s.nameMap[name].table, s.nameMap[name].column;
    ColNamesByTblNameSpec(s);
    assert c in ColumnsOf(tables, t);
    ColumnsOfIsEntry(tables, t);
    var i :| 0 <= i < |tables| && tables[i] == (t, ColumnsOf(tables, t));
    assert tables[i] in tables && c in tables[i].1 && MapNameIf(s, name) == tables[i].0 + "." + c;
  }

  // Projection paths.

  /** The kept position lists: those that are neither full-OID BATs nor sort results, name-mapped, in order. */
  lemma {:induction false} KeptPositionsSpec(s: TState, names: seq<string>)
    ensures forall n <- names :: n !in s.fullOidBats && n !in s.sortResults ==> MapNameIf(s, n) in KeptPositions(s, names)
    ensures forall x <- KeptPositions(s, names) ::
      exists n <- names :: n !in s.fullOidBats && n !in s.sortResults && x == MapNameIf(s, n)
    ensures (forall n <- names :: n in s.fullOidBats || n in s.sortResults) <==> KeptPositions(s, names) == []
    decreases |names|
  {
    if names != [] {
      KeptPositionsSpec(s, names[1..]);
      var r := KeptPositions(s, names);
      assert forall n <- names :: n == names[0] || n in names[1..];
      forall x <- r ensures exists n <- names :: n !in s.fullOidBats && n !in s.sortResults && x == MapNameIf(s, n) {
        if x !in KeptPositions(s, names[1..]) {
          assert x == MapNameIf(s, names[0]);
        } else {
          var n :| n in names[1..] && n !in s.fullOidBats && n !in s.sortResults && x == MapNameIf(s, n);
          assert n in names;
        }
      }
      if names[0] !in s.fullOidBats && names[0] !in s.sortResults {
        assert r[0] == MapNameIf(s, names[0]);
      }
    }
  }

  /**
   * A chain of projects applies the position lists in order: the first
   * reads the data column, each later one reads its predecessor's output,
   * the last writes the result, and all outputs are distinct names.
   */
  lemma ProjectChainShape(out: string, inData: string, rev: seq<string>)
    requires |rev| > 0
    ensures
      var c := ProjectChain(out, inData, rev);
      && |c| == |rev|
      && (forall i :: 0 <= i < |c| ==> c[i].Project? && c[i].inPosCol == rev[i] && AllFormatsUnset(c[i]))
      && c[0].inDataCol == inData
      && c[|c| - 1].outDataCol == out
      && (forall i :: 0 <= i < |c| - 1 ==> c[i + 1].inDataCol == c[i].outDataCol)
  {
    ProjectChainSteps(out, inData, rev);
    ProjectChainLinked(out, inData, rev);
    ProjectChainLink(out, inData, rev, 0);
    ProjectChainLink(out, inData, rev, |rev| - 1);
  }

  lemma ProjectChainSteps(out: string, inData: string, rev: seq<string>)
    ensures
      var c := ProjectChain(out, inData, rev);
      forall i :: 0 <= i < |c| ==> c[i].Project? && c[i].inPosCol == rev[i] && AllFormatsUnset(c[i])
  {
    var c := ProjectChain(out, inData, rev);
    forall i | 0 <= i < |c| ensures c[i].Project? && c[i].inPosCol == rev[i] && AllFormatsUnset(c[i]) {
      ProjectChainLink(out, inData, rev, i);
    }
  }

  lemma ProjectChainLinked(out: string, inData: string, rev: seq<string>)
    ensures
      var c := ProjectChain(out, inData, rev);
      forall i :: 0 <= i < |c| - 1 ==> c[i + 1].inDataCol == c[i].outDataCol
  {
    var c := ProjectChain(out, inData, rev);
    forall i | 0 <= i < |c| - 1 ensures c[i + 1].inDataCol == c[i].outDataCol {
      ProjectChainLink(out, inData, rev, i);
      ProjectChainLink(out, inData, rev, i + 1);
    }
  }

  /** The fields of step `idx` of a chain, one by one. */
  lemma ProjectChainLink(out: string, inData: string, rev: seq<string>, idx: nat)
    requires idx < |rev|
    ensures
      var c := ProjectChain(out, inData, rev);
      && |c| == |rev|
      && c[idx].Project? && c[idx].inPosCol == rev[idx] && AllFormatsUnset(c[idx])
      && c[idx].inDataCol == (if idx > 0 then Interm(out, idx - 1) else inData)
      && c[idx].outDataCol == (if idx < |rev| - 1 then Interm(out, idx) else out)
  {
    ProjectChainStep(out, inData, rev, idx);
  }

  /** Step `idx` of a chain: a fresh project from the previous intermediate (or the data) to the next (or the result). */
  lemma ProjectChainStep(out: string, inData: string, rev: seq<string>, idx: nat)
    requires idx < |rev|
    ensures |ProjectChain(out, inData, rev)| == |rev|
    ensures ProjectChain(out, inData, rev)[idx]
      == Project(if idx < |rev| - 1 then Interm(out, idx) else out, if idx > 0 then Interm(out, idx - 1) else inData, rev[idx], None, None, None)
  {
  }

  lemma ProjectChainDistinct(out: string, inData: string, rev: seq<string>)
    ensures
      var c := ProjectChain(out, inData, rev);
      forall i, j :: 0 <= i < j < |c| ==> Writes(c[i]) !! Writes(c[j])
  {
    var c := ProjectChain(out, inData, rev);
    forall i, j | 0 <= i < j < |c| ensures Writes(c[i]) !! Writes(c[j]) {
      ProjectChainStep(out, inData, rev, i);
      ProjectChainStep(out, inData, rev, j);
      var oi := Interm(out, i);
      var oj := if j < |rev| - 1 then Interm(out, j) else out;
      assert Writes(c[i]) == {oi} && Writes(c[j]) == {oj};
      if j == |c| - 1 {
        assert |oi| > |out|;
      } else {
        IntermInjective(out, i, j);
      }
    }
  }

  /** Distinct indices give distinct intermediate names. */
  lemma IntermInjective(out: string, i: nat, j: nat)
    requires i != j
    ensures Interm(out, i) != Interm(out, j)
  {
    if Interm(out, i) == Interm(out, j) {
      assert NatToString(i) == Interm(out, i)[|out| + 1..];
      assert NatToString(j) == Interm(out, j)[|out| + 1..];
      NatToStringInjective(i, j);
    }
  }

  /** A single kept position list gives the one-element chain. */
  lemma SingleProjectIsChain(out: string, inData: string, pos: string)
    ensures ProjectChain(out, inData, [pos]) == [NewProject(out, inData, pos)]
  {
  }

  /** algebra.projection(path) parses the result and the parameters, then projects through the kept lists. */
  lemma ProjectionpathCases(s: TState, resStr: string, parStr: string, out: string, path: string, data: string)
    requires MatchRes1(resStr) == Some(out) && MatchProjectionpath(parStr) == Some((path, data))
    ensures AlgebraProjectionpath(s, resStr, parStr) == Ok(Projection(s, out, MapNameIf(s, data), KeptPositions(s, PositionLists(path))))
  {
  }

  /**
   * algebra.projection(path): with no kept position list the result is an
   * alias of the data column, with one a single project, with several a
   * chain of projects in reverse list order.
   */
  lemma ProjectionCases(s: TState, out: string, inData: string, pos: seq<string>)
    ensures |pos| == 0 ==> Projection(s, out, inData, pos) == SetName(s, out, Alias(inData))
    ensures |pos| > 0 ==> Projection(s, out, inData, pos) == Emit(s, ProjectChain(out, inData, Reverse(pos)))
  {
    if |pos| == 1 {
      SingleProjectIsChain(out, inData, pos[0]);
      assert Reverse(pos) == [pos[0]];
    }
  }

  // Selections.

  /** The column names a node writes. */
  function Writes(o: Op): set<string>
  {
    match o
    case Project(oc, _, _, _, _, _) => {oc}
    case Select(oc, _, _, _, _, _) => {oc}
    case Intersect(oc, _, _, _, _, _) => {oc}
    case Merge(oc, _, _, _, _, _) => {oc}
    case Join(olc, orc, _, _, _, _, _, _) => {olc, orc}
    case Nto1Join(olc, orc, _, _, _, _, _, _) => {olc, orc}
    case LeftSemiNto1Join(orc, _, _, _, _, _) => {orc}
    case CalcBinary(oc, _, _, _, _, _, _) => {oc}
    case SumWholeCol(oc, _, _) => {oc}
    case SumGrBased(oc, _, _, _, _, _, _) => {oc}
    case GroupUnary(gc, ec, _, _, _, _) => {gc, ec}
    case GroupBinary(gc, ec, _, _, _, _, _, _) => {gc, ec}
    case Morph(oc, _, _) => {oc}
  }

  /** The column names a node reads. */
  function Reads(o: Op): set<string>
  {
    match o
    case Project(_, ic, pc, _, _, _) => {ic, pc}
    case Select(_, _, ic, _, _, _) => {ic}
    case Intersect(_, lc, rc, _, _, _) => {lc, rc}
    case Merge(_, lc, rc, _, _, _) => {lc, rc}
    case Join(_, _, ilc, irc, _, _, _, _) => {ilc, irc}
    case Nto1Join(_, _, ilc, irc, _, _, _, _) => {ilc, irc}
    case LeftSemiNto1Join(_, ilc, irc, _, _, _) => {ilc, irc}
    case CalcBinary(_, _, lc, rc, _, _, _) => {lc, rc}
    case SumWholeCol(_, ic, _) => {ic}
    case SumGrBased(_, gc, ic, ec, _, _, _) => {gc, ic, ec}
    case GroupUnary(_, _, ic, _, _, _) => {ic}
    case GroupBinary(_, _, igc, ic, _, _, _, _) => {igc, ic}
    case Morph(_, ic, _) => {ic}
  }

  /** The writes are the names in the node's output column slots. */
  lemma WritesAreOutSlots(o: Op)
    ensures forall k :: 0 <= k < |ColumnSlots(o)| && ColumnSlots(o)[k].dir == Out ==> ColumnSlots(o)[k].name in Writes(o)
    ensures forall x <- Writes(o) :: exists k :: 0 <= k < |ColumnSlots(o)| && ColumnSlots(o)[k].dir == Out && ColumnSlots(o)[k].name == x
  {
    if o.Project? || o.Select? || o.Intersect? || o.Merge? || o.Join? || o.Nto1Join? {
      WritesAreOutSlotsOfSelection(o);
    } else {
      WritesAreOutSlotsOfAggregate(o);
    }
  }

  lemma WritesAreOutSlotsOfSelection(o: Op)
    requires o.Project? || o.Select? || o.Intersect? || o.Merge? || o.Join? || o.Nto1Join?
    ensures forall k :: 0 <= k < |ColumnSlots(o)| && ColumnSlots(o)[k].dir == Out ==> ColumnSlots(o)[k].name in Writes(o)
    ensures forall x <- Writes(o) :: exists k :: 0 <= k < |ColumnSlots(o)| && ColumnSlots(o)[k].dir == Out && ColumnSlots(o)[k].name == x
  {
    var cs := ColumnSlots(o);
    match o {
      case Project(_, _, _, _, _, _) =>
        assert forall x <- Writes(o) :: x == cs[0].name;
      case Select(_, _, _, _, _, _) =>
        assert forall x <- Writes(o) :: x == cs[0].name;
      case Intersect(_, _, _, _, _, _) =>
        assert forall x <- Writes(o) :: x == cs[0].name;
      case Merge(_, _, _, _, _, _) =>
        assert forall x <- Writes(o) :: x == cs[0].name;
      case Join(_, _, _, _, _, _, _, _) =>
        assert forall x <- Writes(o) :: x == cs[0].name || x == cs[1].name;
      case Nto1Join(_, _, _, _, _, _, _, _) =>
        assert forall x <- Writes(o) :: x == cs[0].name || x == cs[1].name;
    }
  }

  lemma WritesAreOutSlotsOfAggregate(o: Op)
    requires !(o.Project? || o.Select? || o.Intersect? || o.Merge? || o.Join? || o.Nto1Join?)
    ensures forall k :: 0 <= k < |ColumnSlots(o)| && ColumnSlots(o)[k].dir == Out ==> ColumnSlots(o)[k].name in Writes(o)
    ensures forall x <- Writes(o) :: exists k :: 0 <= k < |ColumnSlots(o)| && ColumnSlots(o)[k].dir == Out && ColumnSlots(o)[k].name == x
  {
    var cs := ColumnSlots(o);
    match o {
      case LeftSemiNto1Join(_, _, _, _, _, _) =>
        assert forall x <- Writes(o) :: x == cs[0].name;
      case CalcBinary(_, _, _, _, _, _, _) =>
        assert forall x <- Writes(o) :: x == cs[0].name;
      case SumWholeCol(_, _, _) =>
        assert forall x <- Writes(o) :: x == cs[0].name;
      case SumGrBased(_, _, _, _, _, _, _) =>
        assert forall x <- Writes(o) :: x == cs[0].name;
      case GroupUnary(_, _, _, _, _, _) =>
        assert forall x <- Writes(o) :: x == cs[0].name || x == cs[1].name;
      case GroupBinary(_, _, _, _, _, _, _, _) =>
        assert forall x <- Writes(o) :: x == cs[0].name || x == cs[1].name;
      case Morph(_, _, _) =>
        assert forall x <- Writes(o) :: x == cs[0].name;
    }
  }

  /** The reads are the names in the node's input column slots. */
  lemma ReadsAreInSlots(o: Op)
    ensures forall k :: 0 <= k < |ColumnSlots(o)| && ColumnSlots(o)[k].dir == In ==> ColumnSlots(o)[k].name in Reads(o)
    ensures forall x <- Reads(o) :: exists k :: 0 <= k < |ColumnSlots(o)| && ColumnSlots(o)[k].dir == In && ColumnSlots(o)[k].name == x
  {
    if o.Project? || o.Select? || o.Intersect? || o.Merge? || o.Join? || o.Nto1Join? {
      ReadsAreInSlotsOfSelection(o);
    } else {
      ReadsAreInSlotsOfAggregate(o);
    }
  }

  lemma ReadsAreInSlotsOfSelection(o: Op)
    requires o.Project? || o.Select? || o.Intersect? || o.Merge? || o.Join? || o.Nto1Join?
    ensures forall k :: 0 <= k < |ColumnSlots(o)| && ColumnSlots(o)[k].dir == In ==> ColumnSlots(o)[k].name in Reads(o)
    ensures forall x <- Reads(o) :: exists k :: 0 <= k < |ColumnSlots(o)| && ColumnSlots(o)[k].dir == In && ColumnSlots(o)[k].name == x
  {
    var cs := ColumnSlots(o);
    match o {
      case Project(_, _, _, _, _, _) =>
        assert forall x <- Reads(o) :: x == cs[1].name || x == cs[2].name;
      case Select(_, _, _, _, _, _) =>
        assert forall x <- Reads(o) :: x == cs[1].name;
      case Intersect(_, _, _, _, _, _) =>
        assert forall x <- Reads(o) :: x == cs[1].name || x == cs[2].name;
      case Merge(_, _, _, _, _, _) =>
        assert forall x <- Reads(o) :: x == cs[1].name || x == cs[2].name;
      case Join(_, _, _, _, _, _, _, _) =>
        assert forall x <- Reads(o) :: x == cs[2].name || x == cs[3].name;
      case Nto1Join(_, _, _, _, _, _, _, _) =>
        assert forall x <- Reads(o) :: x == cs[2].name || x == cs[3].name;
    }
  }

  lemma ReadsAreInSlotsOfAggregate(o: Op)
    requires !(o.Project? || o.Select? || o.Intersect? || o.Merge? || o.Join? || o.Nto1Join?)
    ensures forall k :: 0 <= k < |ColumnSlots(o)| && ColumnSlots(o)[k].dir == In ==> ColumnSlots(o)[k].name in Reads(o)
    ensures forall x <- Reads(o) :: exists k :: 0 <= k < |ColumnSlots(o)| && ColumnSlots(o)[k].dir == In && ColumnSlots(o)[k].name == x
  {
    var cs := ColumnSlots(o);
    match o {
      case LeftSemiNto1Join(_, _, _, _, _, _) =>
        assert forall x <- Reads(o) :: x == cs[1].name || x == cs[2].name;
      case CalcBinary(_, _, _, _, _, _, _) =>
        assert forall x <- Reads(o) :: x == cs[1].name || x == cs[2].name;
      case SumWholeCol(_, _, _) =>
        assert forall x <- Reads(o) :: x == cs[1].name;
      case SumGrBased(_, _, _, _, _, _, _) =>
        assert forall x <- Reads(o) :: x == cs[1].name || x == cs[2].name || x == cs[3].name;
      case GroupUnary(_, _, _, _, _, _) =>
        assert forall x <- Reads(o) :: x == cs[2].name;
      case GroupBinary(_, _, _, _, _, _, _, _) =>
        assert forall x <- Reads(o) :: x == cs[2].name || x == cs[3].name;
      case Morph(_, _, _) =>
        assert forall x <- Reads(o) :: x == cs[1].name;
    }
  }

  /** Every node reads only `sources` or a column an earlier node writes. */
  ghost predicate FedBy(nodes: seq<Op>, sources: seq<string>)
  {
    forall i :: 0 <= i < |nodes| ==>
      forall x <- Reads(nodes[i]) :: x in sources || exists j :: 0 <= j < i && x in Writes(nodes[j])
  }

  lemma SelectFlow(o: string, op: string, i: string, v: string)
    ensures Writes(NewSelect(o, op, i, v)) == {o} && Reads(NewSelect(o, op, i, v)) == {i}
  {
  }

  lemma IntersectFlow(o: string, l: string, r: string)
    ensures Writes(NewIntersect(o, l, r)) == {o} && Reads(NewIntersect(o, l, r)) == {l, r}
  {
  }

  /**
   * BETWEEN: a greater-equal select for the lower bound and a less-equal
   * select for the upper bound (the operators the comparison map gives
   * ">=" and "<="), their intersection, and an intersection with the
   * candidate list only when it is given and is not a full-OID BAT. Only
   * the last node writes the result.
   */
  lemma BetweenOperators(vectorSelect: int)
    ensures CmpOp(">=", vectorSelect) == Ok(if vectorSelect == 1 then "std::greater_equal" else "greaterequal")
    ensures CmpOp("<=", vectorSelect) == Ok(if vectorSelect == 1 then "std::less_equal" else "lessequal")
  {
  }

  lemma RangeSelectShape(out: string, inData: string, cand: Option<string>, lo: string, hi: string,
                         vectorSelect: int, fullOidBats: seq<string>)
    ensures
      var nodes := RangeSelectNodes(out, inData, cand, lo, hi, vectorSelect, fullOidBats);
      var useful := cand.Some? && cand.value !in fullOidBats;
      && |nodes| == (if useful then 4 else 3)
      && nodes[0].Select? && nodes[0].op == CmpOp(">=", vectorSelect).value && nodes[0].inDataCol == inData && nodes[0].val == lo
      && nodes[1].Select? && nodes[1].op == CmpOp("<=", vectorSelect).value && nodes[1].inDataCol == inData && nodes[1].val == hi
      && (forall i :: 2 <= i < |nodes| ==> nodes[i].Intersect?)
  {
    BetweenOperators(vectorSelect);
  }

  /** The nodes of BETWEEN spelled out, with the data flow of each. */
  lemma RangeSelectNodeFlow(out: string, inData: string, cand: Option<string>, lo: string, hi: string,
                            vectorSelect: int, fullOidBats: seq<string>)
    ensures
      var nodes := RangeSelectNodes(out, inData, cand, lo, hi, vectorSelect, fullOidBats);
      var useful := cand.Some? && cand.value !in fullOidBats;
      && Writes(nodes[0]) == {out + "_lo"} && Reads(nodes[0]) == {inData}
      && Writes(nodes[1]) == {out + "_hi"} && Reads(nodes[1]) == {inData}
      && Writes(nodes[2]) == {if useful then out + "_0" else out} && Reads(nodes[2]) == {out + "_lo", out + "_hi"}
      && (useful ==> Writes(nodes[3]) == {out} && Reads(nodes[3]) == {out + "_0", cand.value})
  {
    var nodes := RangeSelectNodes(out, inData, cand, lo, hi, vectorSelect, fullOidBats);
    var useful := cand.Some? && cand.value !in fullOidBats;
    var geq := if vectorSelect == 1 then "std::greater_equal" else "greaterequal";
    var leq := if vectorSelect == 1 then "std::less_equal" else "lessequal";
    var n0, n1 := NewSelect(out + "_lo", geq, inData, lo), NewSelect(out + "_hi", leq, inData, hi);
    var n2 := NewIntersect(if useful then out + "_0" else out, out + "_lo", out + "_hi");
    SelectFlow(out + "_lo", geq, inData, lo);
    SelectFlow(out + "_hi", leq, inData, hi);
    IntersectFlow(if useful then out + "_0" else out, out + "_lo", out + "_hi");
    if useful {
      IntersectFlow(out, out + "_0", cand.value);
      assert nodes == [n0, n1, n2, NewIntersect(out, out + "_0", cand.value)];
    } else {
      assert nodes == [n0, n1, n2];
    }
  }

  /** BETWEEN writes its result in the last node only; a useful candidate list is read by that node. */
  lemma RangeSelectResult(out: string, inData: string, cand: Option<string>, lo: string, hi: string,
                          vectorSelect: int, fullOidBats: seq<string>)
    ensures
      var nodes := RangeSelectNodes(out, inData, cand, lo, hi, vectorSelect, fullOidBats);
      var useful := cand.Some? && cand.value !in fullOidBats;
      && Writes(nodes[|nodes| - 1]) == {out}
      && (forall i :: 0 <= i < |nodes| - 1 ==> out !in Writes(nodes[i]))
      && (useful ==> cand.value in Reads(nodes[3]))
  {
    RangeSelectNodeFlow(out, inData, cand, lo, hi, vectorSelect, fullOidBats);
    assert |out + "_lo"| > |out| && |out + "_hi"| > |out| && |out + "_0"| > |out|;
  }

  /** Every node of BETWEEN reads the data column, the useful candidate list, or an earlier node's output. */
  lemma RangeSelectFedBy(out: string, inData: string, cand: Option<string>, lo: string, hi: string,
                         vectorSelect: int, fullOidBats: seq<string>)
    ensures
      var nodes := RangeSelectNodes(out, inData, cand, lo, hi, vectorSelect, fullOidBats);
      var useful := cand.Some? && cand.value !in fullOidBats;
      FedBy(nodes, [inData] + (if useful then [cand.value] else []))
  {
    var nodes := RangeSelectNodes(out, inData, cand, lo, hi, vectorSelect, fullOidBats);
    var useful := cand.Some? && cand.value !in fullOidBats;
    var sources := [inData] + (if useful then [cand.value] else []);
    RangeSelectNodeFlow(out, inData, cand, lo, hi, vectorSelect, fullOidBats);
    forall i, x | 0 <= i < |nodes| && x in Reads(nodes[i])
      ensures x in sources || exists j :: 0 <= j < i && x in Writes(nodes[j])
    {
      if i == 2 {
        if x == out + "_lo" {
          assert x in Writes(nodes[0]);
        } else {
          assert x in Writes(nodes[1]);
        }
      } else if i == 3 {
        if x == out + "_0" {
          assert x in Writes(nodes[2]);
        }
      }
    }
  }

  /** A candidate list that is a full-OID BAT is elided: the nodes are those without a candidate list. */
  lemma FullOidCandidateElided(out: string, inData: string, c: string, lo: string, hi: string, val: string, op: string,
                               vectorSelect: int, fullOidBats: seq<string>)
    requires c in fullOidBats
    ensures RangeSelectNodes(out, inData, Some(c), lo, hi, vectorSelect, fullOidBats)
         == RangeSelectNodes(out, inData, None, lo, hi, vectorSelect, fullOidBats)
    ensures ThetaselectNodes(out, inData, Some(c), val, op, fullOidBats)
         == ThetaselectNodes(out, inData, None, val, op, fullOidBats)
  {
  }

  /** A comparison selection, intersected with a useful candidate list; only the last node writes the result. */
  lemma ThetaselectShape(out: string, inData: string, cand: Option<string>, val: string, op: string,
                         fullOidBats: seq<string>)
    ensures
      var nodes := ThetaselectNodes(out, inData, cand, val, op, fullOidBats);
      var useful := cand.Some? && cand.value !in fullOidBats;
      && |nodes| == (if useful then 2 else 1)
      && nodes[0].Select? && nodes[0].op == op && nodes[0].inDataCol == inData && nodes[0].val == val
      && Writes(nodes[|nodes| - 1]) == {out}
      && (useful ==> nodes[1].Intersect? && out !in Writes(nodes[0]) && cand.value in Reads(nodes[1]))
      && FedBy(nodes, [inData] + (if useful then [cand.value] else []))
  {
    var nodes := ThetaselectNodes(out, inData, cand, val, op, fullOidBats);
    if cand.Some? && cand.value !in fullOidBats {
      assert |out + "_0"| > |out|;
      assert Writes(nodes[0]) == {out + "_0"};
      assert Reads(nodes[1]) == {out + "_0", cand.value};
    }
  }

  /**
   * The two selections test the candidate list differently: the range
   * select tests its MAL name against the full-OID BATs, the comparison
   * select its mapped name. A candidate that is an alias of a full-OID BAT
   * is therefore elided by the comparison select, which emits one Select
   * writing the result, but intersected by the range select, which emits
   * four nodes, the last reading the candidate under its MAL name.
   */
  lemma CandidateTestsDiffer(s: TState, resStr: string, selPar: string, thetaPar: string, vectorSelect: int,
                             out: string, c: string, p: (string, Option<string>, string, string),
                             q: (string, Option<string>, string, string), op: string)
    requires MatchRes1(resStr) == Some(out)
    requires MatchAlgebraSelect(selPar) == Some(p) && p.1 == Some(c)
    requires MatchThetaselect(thetaPar) == Some(q) && q.1 == Some(c) && CmpOp(q.3, vectorSelect) == Ok(op)
    requires c !in s.fullOidBats && MapNameIf(s, c) in s.fullOidBats
    ensures var r := AlgebraSelect(s, resStr, selPar, vectorSelect);
      && r.Ok? && |r.value.prog| == |s.prog| + 4
      && r.value.prog[|s.prog| + 3] == OpEl(NewIntersect(out, out + "_0", c))
    ensures var t := AlgebraThetaselect(s, resStr, thetaPar, vectorSelect);
      && t.Ok? && |t.value.prog| == |s.prog| + 1
      && t.value.prog[|s.prog|] == OpEl(NewSelect(out, op, MapNameIf(s, q.0), q.2))
  {
    SelectEmits(s, resStr, selPar, vectorSelect, out, p);
    ThetaselectEmits(s, resStr, thetaPar, vectorSelect, out, q, op);
    EmitRangeSelect(s.(headers := s.headers + {"functional"}), out, MapNameIf(s, p.0), c, p.2, p.3, vectorSelect);
    EmitThetaselect(s.(headers := s.headers + {"functional"}), out, MapNameIf(s, q.0), MapNameIf(s, c), q.2, op);
  }

  lemma EmitRangeSelect(s: TState, out: string, inData: string, c: string, lo: string, hi: string, vectorSelect: int)
    requires c !in s.fullOidBats
    ensures var t := Emit(s, RangeSelectNodes(out, inData, Some(c), lo, hi, vectorSelect, s.fullOidBats));
      |t.prog| == |s.prog| + 4 && t.prog[|s.prog| + 3] == OpEl(NewIntersect(out, out + "_0", c))
  {
    var nodes := RangeSelectNodes(out, inData, Some(c), lo, hi, vectorSelect, s.fullOidBats);
    assert |nodes| == 4 && nodes[3] == NewIntersect(out, out + "_0", c);
  }

  lemma EmitThetaselect(s: TState, out: string, inData: string, c: string, val: string, op: string)
    requires c in s.fullOidBats
    ensures Emit(s, ThetaselectNodes(out, inData, Some(c), val, op, s.fullOidBats)).prog
         == s.prog + [OpEl(NewSelect(out, op, inData, val))]
  {
    assert ThetaselectNodes(out, inData, Some(c), val, op, s.fullOidBats) == [NewSelect(out, op, inData, val)];
  }

  lemma SelectEmits(s: TState, resStr: string, parStr: string, vectorSelect: int,
                    out: string, p: (string, Option<string>, string, string))
    requires MatchRes1(resStr) == Some(out) && MatchAlgebraSelect(parStr) == Some(p)
    ensures AlgebraSelect(s, resStr, parStr, vectorSelect) ==
      Ok(Emit(s.(headers := s.headers + {"functional"}),
              RangeSelectNodes(out, MapNameIf(s, p.0), p.1, p.2, p.3, vectorSelect, s.fullOidBats)))
  {
  }

  lemma ThetaselectEmits(s: TState, resStr: string, parStr: string, vectorSelect: int,
                         out: string, p: (string, Option<string>, string, string), op: string)
    requires MatchRes1(resStr) == Some(out) && MatchThetaselect(parStr) == Some(p) && CmpOp(p.3, vectorSelect) == Ok(op)
    ensures AlgebraThetaselect(s, resStr, parStr, vectorSelect) ==
      Ok(Emit(s.(headers := s.headers + {"functional"}),
              ThetaselectNodes(out, MapNameIf(s, p.0), if p.1.Some? then Some(MapNameIf(s, p.1.value)) else None,
                               p.2, op, s.fullOidBats)))
  {
  }

  // The operator maps.

  /**
   * The comparison map knows five operators. "<", "<=", "==" and ">=" get
   * distinct names; ">" gets an equality, which in the vectorised map is
   * the very name of "==".
   */
  lemma ComparisonMap(vectorSelect: int)
    ensures forall op :: CmpOp(op, vectorSelect).Ok? <==> op in ["<", "<=", "==", ">=", ">"]
    ensures forall op :: CmpOp(op, vectorSelect).Err? ==> CmpOp(op, vectorSelect) == Err(KeyError(op))
    ensures forall a <- ["<", "<=", "==", ">="], b <- ["<", "<=", "==", ">="] ::
      a != b ==> CmpOp(a, vectorSelect).value != CmpOp(b, vectorSelect).value
    ensures CmpOp(">", vectorSelect).value != CmpOp(">=", vectorSelect).value
    ensures CmpOp(">", vectorSelect).value != CmpOp("<", vectorSelect).value
    ensures vectorSelect != 1 ==> CmpOp(">", vectorSelect) == CmpOp("==", vectorSelect)
  {
  }

  /** The arithmetic map knows "+", "-" and "*", with distinct names. */
  lemma ArithmeticMap(vectorSelect: int)
    ensures forall f :: ArithOp(f, vectorSelect).Ok? <==> f in ["+", "-", "*"]
    ensures forall f :: ArithOp(f, vectorSelect).Err? ==> ArithOp(f, vectorSelect) == Err(KeyError(f))
    ensures forall a <- ["+", "-", "*"], b <- ["+", "-", "*"] ::
      a != b ==> ArithOp(a, vectorSelect).value != ArithOp(b, vectorSelect).value
  {
  }

  // The dispatch.

  lemma NoNodeFamilies()
    ensures FamilyOf("sql", "bind") == SqlBindF
    ensures FamilyOf("sql", "tid") == SqlTidF
    ensures FamilyOf("algebra", "sort") == AlgebraSortF
  {
  }

  lemma BatcalcFamily(funStr: string)
    ensures FamilyOf("batcalc", funStr) == BatcalcF
  {
  }

  lemma IgnoredFamily(modStr: string, funStr: string)
    requires (modStr, funStr) in [("bat", "append"), ("bat", "new"), ("querylog", "define"), ("sql", "mvc")]
    ensures FamilyOf(modStr, funStr) == NoActionF
  {
  }

  // The operations that emit no node.

  /** sql.bind records a base column: the result then reads as "table.column". */
  lemma SqlBindRecordsBaseColumn(s: TState, resStr: string, parStr: string, vectorSelect: int,
                                 out: string, tbl: string, col: string)
    requires MatchRes1(resStr) == Some(out) && MatchSqlBind(parStr) == Some((tbl, col))
    ensures Dispatch(s, resStr, "sql", "bind", parStr, vectorSelect) == Ok(SetName(s, out, BaseCol(tbl, col)))
    ensures
      var t := SetName(s, out, BaseCol(tbl, col));
      t.prog == s.prog && MapNameIf(t, out) == tbl + "." + col
  {
    DispatchSqlBind(s, resStr, parStr, vectorSelect);
    SqlBindSets(s, resStr, parStr, out, tbl, col);
    SetNameMapsKey(s, out, BaseCol(tbl, col), out);
  }

  lemma DispatchSqlBind(s: TState, resStr: string, parStr: string, vectorSelect: int)
    ensures Dispatch(s, resStr, "sql", "bind", parStr, vectorSelect) == SqlBind(s, resStr, parStr)
  {
    NoNodeFamilies();
  }

  lemma SqlBindSets(s: TState, resStr: string, parStr: string, out: string, tbl: string, col: string)
    requires MatchRes1(resStr) == Some(out) && MatchSqlBind(parStr) == Some((tbl, col))
    ensures SqlBind(s, resStr, parStr) == Ok(SetName(s, out, BaseCol(tbl, col)))
  {
  }

  /** sql.tid records a full-OID BAT. */
  lemma SqlTidRecordsFullOidBat(s: TState, resStr: string, vectorSelect: int, out: string)
    requires MatchRes1(resStr) == Some(out)
    ensures Dispatch(s, resStr, "sql", "tid", "", vectorSelect) == Ok(s.(fullOidBats := s.fullOidBats + [out]))
  {
    NoNodeFamilies();
  }

  /** algebra.sort records its three results as sort results. */
  lemma SortRecordsResults(s: TState, resStr: string, parStr: string, vectorSelect: int, r: (string, string, string))
    requires MatchRes3(resStr) == Some(r)
    ensures Dispatch(s, resStr, "algebra", "sort", parStr, vectorSelect) == Ok(s.(sortResults := s.sortResults + [r.0, r.1, r.2]))
  {
    DispatchAlgebraSort(s, resStr, parStr, vectorSelect);
  }

  lemma DispatchAlgebraSort(s: TState, resStr: string, parStr: string, vectorSelect: int)
    ensures Dispatch(s, resStr, "algebra", "sort", parStr, vectorSelect) == AlgebraSort(s, resStr)
  {
    NoNodeFamilies();
  }

  /** An integer cast records an alias: the result reads as its input, every other name as before. */
  lemma CastIsAlias(s: TState, resStr: string, funStr: string, parStr: string, vectorSelect: int, out: string, x: string)
    requires funStr in MAL_INT_TYPES && MatchRes1(resStr) == Some(out) && MatchOneBat(parStr) == Some(x)
    ensures Dispatch(s, resStr, "batcalc", funStr, parStr, vectorSelect) == Ok(SetName(s, out, Alias(MapNameIf(s, x))))
    ensures
      var t := SetName(s, out, Alias(MapNameIf(s, x)));
      && t.prog == s.prog
      && MapNameIf(t, out) == MapNameIf(s, x)
      && forall n :: n != out ==> MapNameIf(t, n) == MapNameIf(s, n)
  {
    DispatchBatcalc(s, resStr, funStr, parStr, vectorSelect);
    AliasRenames(s, out, MapNameIf(s, x));
  }

  /** An alias entry makes its key read as the aliased name and leaves every other name alone. */
  lemma AliasRenames(s: TState, out: string, v: string)
    ensures SetName(s, out, Alias(v)).prog == s.prog
    ensures MapNameIf(SetName(s, out, Alias(v)), out) == v
    ensures forall n :: n != out ==> MapNameIf(SetName(s, out, Alias(v)), n) == MapNameIf(s, n)
  {
    forall n ensures MapNameIf(SetName(s, out, Alias(v)), n) == if n == out then v else MapNameIf(s, n) {
      SetNameMapsKey(s, out, Alias(v), n);
    }
  }

  lemma DispatchBatcalc(s: TState, resStr: string, funStr: string, parStr: string, vectorSelect: int)
    ensures Dispatch(s, resStr, "batcalc", funStr, parStr, vectorSelect) == Batcalc(s, resStr, funStr, parStr, vectorSelect)
  {
    BatcalcFamily(funStr);
  }

  /** bat.append, bat.new, querylog.define and sql.mvc change nothing. */
  lemma IgnoredFunctions(s: TState, resStr: string, modStr: string, funStr: string, parStr: string, vectorSelect: int)
    requires (modStr, funStr) in [("bat", "append"), ("bat", "new"), ("querylog", "define"), ("sql", "mvc")]
    ensures Dispatch(s, resStr, modStr, funStr, parStr, vectorSelect) == Ok(s)
  {
    IgnoredFamily(modStr, funStr);
  }

  /** The (module, function) pairs the translator knows; batcalc takes any function. */
  predicate Known(modStr: string, funStr: string)
  {
    modStr == "batcalc" ||
    (modStr, funStr) in [("aggr", "subsum"), ("aggr", "sum"), ("algebra", "join"), ("algebra", "projection"),
                         ("algebra", "projectionpath"), ("algebra", "select"), ("algebra", "sort"),
                         ("algebra", "thetaselect"), ("bat", "append"), ("bat", "mergecand"), ("bat", "new"),
                         ("group", "group"), ("group", "subgroup"), ("group", "subgroupdone"),
                         ("querylog", "define"), ("sql", "bind"), ("sql", "mvc"), ("sql", "tid")]
  }

  /** Any other pair is an error naming it. */
  lemma UnknownFunctionRaises(s: TState, resStr: string, modStr: string, funStr: string, parStr: string, vectorSelect: int)
    requires !Known(modStr, funStr)
    ensures Dispatch(s, resStr, modStr, funStr, parStr, vectorSelect) == Err(UnknownFunction(modStr, funStr, s.line))
  {
    assert FamilyOf(modStr, funStr) == UnknownF;
  }

  // The join rewrite.

  /** A join has a unique input on at least one side. */
  predicate JoinHasUniqueInput(el: Element, unique: seq<string>)
  {
    el.OpEl? && el.node.Join? ==> el.node.inDataLCol in unique || el.node.inDataRCol in unique
  }

  /**
   * A join becomes an N:1 join whose left input is unique, preferring the
   * join's own left side; its inputs and outputs stay paired. Any other
   * element is kept.
   */
  lemma RewriteJoinSpec(el: Element, unique: seq<string>)
    ensures RewriteJoin(el, unique).Ok? <==> JoinHasUniqueInput(el, unique)
    ensures RewriteJoin(el, unique).Err? ==> RewriteJoin(el, unique) == Err(MNJoin)
    ensures RewriteJoin(el, unique).Ok? ==>
      var e := RewriteJoin(el, unique).value;
      if el.OpEl? && el.node.Join? then
        var o := el.node;
        && e.OpEl? && e.node.Nto1Join? && e.node.inDataLCol in unique && AllFormatsUnset(e.node)
        && (if o.inDataLCol in unique
            then (e.node.outPosLCol, e.node.inDataLCol, e.node.outPosRCol, e.node.inDataRCol) == (o.outPosLCol, o.inDataLCol, o.outPosRCol, o.inDataRCol)
            else (e.node.outPosLCol, e.node.inDataLCol, e.node.outPosRCol, e.node.inDataRCol) == (o.outPosRCol, o.inDataRCol, o.outPosLCol, o.inDataLCol))
      else e == el
  {
  }

  /**
   * The post-pass succeeds exactly when every join has a unique input; it
   * then rewrites each element in its place.
   */
  lemma {:induction false} JoinPassSpec(prog: seq<Element>, unique: seq<string>)
    ensures JoinPass(prog, unique).Ok? <==> forall k :: 0 <= k < |prog| ==> JoinHasUniqueInput(prog[k], unique)
    ensures JoinPass(prog, unique).Err? ==> JoinPass(prog, unique) == Err(MNJoin)
    ensures JoinPass(prog, unique).Ok? ==>
      var r := JoinPass(prog, unique).value;
      |r| == |prog| && forall k :: 0 <= k < |prog| ==> r[k] == RewriteJoin(prog[k], unique).value
    decreases |prog|
  {
    if prog != [] {
      RewriteJoinSpec(prog[0], unique);
      JoinPassSpec(prog[1..], unique);
      if JoinPass(prog, unique).Ok? {
        var r := JoinPass(prog, unique).value;
        forall k | 0 <= k < |prog| ensures r[k] == RewriteJoin(prog[k], unique).value {
          if k > 0 { assert prog[1..][k - 1] == prog[k]; }
        }
      }
      if forall k :: 0 <= k < |prog| ==> JoinHasUniqueInput(prog[k], unique) {
        assert forall k :: 0 <= k < |prog[1..]| ==> JoinHasUniqueInput(prog[1..][k], unique) by {
          forall k | 0 <= k < |prog[1..]| ensures JoinHasUniqueInput(prog[1..][k], unique) {
            assert prog[1..][k] == prog[k + 1];
          }
        }
      }
    }
  }
}
