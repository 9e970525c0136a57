/**
 * The literal rewriting of the query dictionary tool: a comparison of a
 * dictionary-coded column with a string literal gets the literal's
 * dictionary code, followed by a comment naming the column and the literal.
 * The dictionaries are given as the lines of their files; the regular
 * expression search that finds the comparisons hands each replacement
 * function the groups it captured.
 */
module QDict {
  import opened Wrappers
  import Strings

  datatype QDictError =
    | Ambiguous(colName: string, firstTable: string, otherTable: string)  // "column name … is ambiguous"
    | NoTable(colName: string)                 // "found no table having a dictionary-coded column named …"
    | EmptyLine                                // `line[-1]` on an empty line: IndexError
    | NotInDictionary(valStr: string, tblName: string, colName: string)  // "could not find value …"
    | MissingDictionary(tblName: string, colName: string)               // opening "<tbl>.<col>.dict" fails
    | LikeUnsupported                          // "comparisons using LIKE are not supported"

  /**
   * The tables that have dictionary-coded columns, in the order the
   * directory listing met their files, each with its coded columns.
   */
  type Catalog = seq<(string, seq<string>)>

  /** The dictionaries the tool reads: the catalog, and the lines of each "<tbl>.<col>.dict" file. */
  datatype Dictionaries = Dictionaries(colNamesByTblNames: Catalog, files: map<(string, string), seq<string>>)

  // ---------------------------------------------------------------------------
  // _findTblName
  // ---------------------------------------------------------------------------

  /** The scan of `_findTblName` from entry i, `found` being the table met so far. */
  function FindTblFrom(cat: Catalog, colName: string, i: nat, found: Option<string>): (r: Result<string, QDictError>)
    requires i <= |cat|
    ensures r.Err? ==> r.error == NoTable(colName) || r.error.Ambiguous?
    decreases |cat| - i
  {
    if i == |cat| then
      (if found.None? then Err(NoTable(colName)) else Ok(found.value))
    else if colName in cat[i].1 then
      (if found.None? then FindTblFrom(cat, colName, i + 1, Some(cat[i].0))
       else Err(Ambiguous(colName, found.value, cat[i].0)))
    else FindTblFrom(cat, colName, i + 1, found)
  }

  /** `_findTblName`: the table that has a dictionary-coded column of that name. */
  function FindTblName(cat: Catalog, colName: string): Result<string, QDictError>
  {
    FindTblFrom(cat, colName, 0, None)
  }

  /** The number of entries from i on that list the column. */
  function ListingFrom(cat: Catalog, colName: string, i: nat): nat
    requires i <= |cat|
    decreases |cat| - i
  {
    if i == |cat| then 0 else (if colName in cat[i].1 then 1 else 0) + ListingFrom(cat, colName, i + 1)
  }

  /** The first entry from i on that lists the column. */
  function FirstListing(cat: Catalog, colName: string, i: nat): (k: nat)
    requires i <= |cat| && ListingFrom(cat, colName, i) > 0
    ensures i <= k < |cat| && colName in cat[k].1 && ListingFrom(cat, colName, k + 1) == ListingFrom(cat, colName, i) - 1
    ensures forall j :: i <= j < k ==> colName !in cat[j].1
    decreases |cat| - i
  {
    if colName in cat[i].1 then i else FirstListing(cat, colName, i + 1)
  }

  lemma {:induction false} FindTblFromSpec(cat: Catalog, colName: string, i: nat, found: Option<string>)
    requires i <= |cat|
    ensures var r := FindTblFrom(cat, colName, i, found);
      var n := ListingFrom(cat, colName, i);
      && (found.None? ==> (r.Ok? <==> n == 1) && (r == Err(NoTable(colName)) <==> n == 0))
      && (found.None? && n == 1 ==> r == Ok(cat[FirstListing(cat, colName, i)].0))
      && (found.None? && n >= 2 ==>
            var k1 := FirstListing(cat, colName, i);
            r == Err(Ambiguous(colName, cat[k1].0, cat[FirstListing(cat, colName, k1 + 1)].0)))
      && (found.Some? ==> (r == Ok(found.value) <==> n == 0))
      && (found.Some? && n >= 1 ==> r == Err(Ambiguous(colName, found.value, cat[FirstListing(cat, colName, i)].0)))
    decreases |cat| - i
  {
    if i < |cat| {
      if colName in cat[i].1 {
        if found.None? {
          FindTblFromSpec(cat, colName, i + 1, Some(cat[i].0));
        }
      } else {
        FindTblFromSpec(cat, colName, i + 1, found);
      }
    }
  }

  /**
   * `_findTblName` returns the table when exactly one entry lists the
   * column; it reports no table when none does, and when several do it
   * reports the column as ambiguous, naming the first two tables that list it.
   */
  lemma FindTblNameSpec(cat: Catalog, colName: string)
    ensures var r := FindTblName(cat, colName);
      var n := ListingFrom(cat, colName, 0);
      && (r.Ok? <==> n == 1)
      && (r.Ok? ==> var k := FirstListing(cat, colName, 0); r.value == cat[k].0 && colName in cat[k].1)
      && (r == Err(NoTable(colName)) <==> n == 0)
      && (n >= 2 ==> var k1 := FirstListing(cat, colName, 0);
            r == Err(Ambiguous(colName, cat[k1].0, cat[FirstListing(cat, colName, k1 + 1)].0)))
  {
    FindTblFromSpec(cat, colName, 0, None);
  }

  /** `_findTblName` as the loop over the catalog runs it. */
  method FindTblNameLoop(cat: Catalog, colName: string) returns (r: Result<string, QDictError>)
    ensures r == FindTblName(cat, colName)
  {
    var resTblName: Option<string> := None;
    var i := 0;
    while i < |cat|
      invariant i <= |cat|
      invariant FindTblFrom(cat, colName, i, resTblName) == FindTblName(cat, colName)
    {
      var (tblName, colNames) := cat[i];
      if colName in colNames {
        if resTblName.None? {
          resTblName := Some(tblName);
        } else {
          return Err(Ambiguous(colName, resTblName.value, tblName));
        }
      }
      i := i + 1;
    }
    if resTblName.None? {
      return Err(NoTable(colName));
    }
    return Ok(resTblName.value);
  }

  // ---------------------------------------------------------------------------
  // _findValCode
  // ---------------------------------------------------------------------------

  /** A dictionary line without its one trailing newline. */
  function StripNewline(line: string): string
  {
    if line != [] && line[|line| - 1] == '\n' then line[..|line| - 1] else line
  }

  /** The search of `_findValCode` over the lines of one dictionary file, from line i. */
  function FindValFrom(lines: seq<string>, valStr: string, i: nat): (r: Result<nat, QDictError>)
    requires i <= |lines|
    ensures r.Err? ==> r.error == NotInDictionary(valStr, "", "") || r.error == EmptyLine
    decreases |lines| - i
  {
    if i == |lines| then Err(NotInDictionary(valStr, "", ""))
    else if lines[i] == [] then Err(EmptyLine)
    else if StripNewline(lines[i]) == valStr then Ok(i)
    else FindValFrom(lines, valStr, i + 1)
  }

  /** The line of the value, counted from 0, where each line is compared without its trailing newline. */
  function FindValIn(lines: seq<string>, valStr: string): Result<nat, QDictError>
  {
    FindValFrom(lines, valStr, 0)
  }

  lemma {:induction false} FindValFromSpec(lines: seq<string>, valStr: string, i: nat)
    requires i <= |lines|
    ensures var r := FindValFrom(lines, valStr, i);
      && (r.Ok? ==> i <= r.value < |lines| && lines[r.value] != [] && StripNewline(lines[r.value]) == valStr)
      && (r.Ok? ==> forall j :: i <= j < r.value ==> lines[j] != [] && StripNewline(lines[j]) != valStr)
      && (r.Err? && r.error.NotInDictionary? <==>
            forall j :: i <= j < |lines| ==> lines[j] != [] && StripNewline(lines[j]) != valStr)
    decreases |lines| - i
  {
    if i < |lines| && lines[i] != [] && StripNewline(lines[i]) != valStr {
      FindValFromSpec(lines, valStr, i + 1);
    }
  }

  /**
   * The code of a value is the index of the first line equal to it once one
   * trailing newline is dropped; the value is missing exactly when no line
   * matches (and no empty line stops the search first).
   */
  lemma FindValInSpec(lines: seq<string>, valStr: string)
    ensures var r := FindValIn(lines, valStr);
      && (r.Ok? ==> r.value < |lines| && StripNewline(lines[r.value]) == valStr)
      && (r.Ok? ==> forall j :: 0 <= j < r.value ==> StripNewline(lines[j]) != valStr)
      && (r.Err? && r.error.NotInDictionary? <==> forall j :: 0 <= j < |lines| ==> lines[j] != [] && StripNewline(lines[j]) != valStr)
  {
    FindValFromSpec(lines, valStr, 0);
  }

  /** `_findValCode`: the code of a value in the dictionary of table.column. */
  function FindValCode(dicts: Dictionaries, tblName: string, colName: string, valStr: string): Result<nat, QDictError>
  {
    if (tblName, colName) !in dicts.files then Err(MissingDictionary(tblName, colName))
    else
      match FindValIn(dicts.files[(tblName, colName)], valStr)
      case Ok(k) => Ok(k)
      case Err(NotInDictionary(_, _, _)) => Err(NotInDictionary(valStr, tblName, colName))
      case Err(e) => Err(e)
  }

  /** The search over one dictionary file as the loop with its `break` runs it. */
  method FindValLoop(lines: seq<string>, valStr: string) returns (r: Result<nat, QDictError>)
    ensures r == FindValIn(lines, valStr)
  {
    var valCode: Option<nat> := None;
    var idx := 0;
    while idx < |lines|
      invariant idx <= |lines|
      invariant FindValFrom(lines, valStr, idx) == FindValIn(lines, valStr)
    {
      var line := lines[idx];
      if line == [] {
        return Err(EmptyLine);
      }
      if line[|line| - 1] == '\n' {
        line := line[..|line| - 1];
      }
      if line == valStr {
        valCode := Some(idx);
        break;
      }
      idx := idx + 1;
    }
    if valCode.None? {
      return Err(NotInDictionary(valStr, "", ""));
    }
    return Ok(valCode.value);
  }

  // ---------------------------------------------------------------------------
  // The replacement functions
  // ---------------------------------------------------------------------------

  /** `_checkNotLike`: LIKE, in any letter case, is refused. */
  function CheckNotLike(op: string): Result<(), QDictError>
  {
    if Strings.UpperAscii(op) == "LIKE" then Err(LikeUnsupported) else Ok(())
  }

  /** `op` spells LIKE in some mix of upper- and lower-case letters. */
  predicate SpellsLike(op: string)
  {
    |op| == 4 && (op[0] == 'L' || op[0] == 'l') && (op[1] == 'I' || op[1] == 'i')
    && (op[2] == 'K' || op[2] == 'k') && (op[3] == 'E' || op[3] == 'e')
  }

  /** The check refuses exactly the spellings of LIKE; every other operator passes. */
  lemma CheckNotLikeSpec(op: string)
    ensures CheckNotLike(op).Err? <==> SpellsLike(op)
  {
    var u := Strings.UpperAscii(op);
    if SpellsLike(op) {
      assert u == "LIKE";
    }
    if u == "LIKE" {
      assert |op| == 4 && u[0] == 'L' && u[1] == 'I' && u[2] == 'K' && u[3] == 'E';
    }
  }

  /** `_getTblAndColName`: the captured table, or the one found for the column when none was written. */
  function TblAndColName(dicts: Dictionaries, tblName: Option<string>, colName: string): Result<(string, string), QDictError>
  {
    if tblName.None? then
      var t :- FindTblName(dicts.colNamesByTblNames, colName);
      Ok((t, colName))
    else Ok((tblName.value, colName))
  }

  /** The diagnostic comment after a code: " /*tbl.col 'val'*/". */
  function Comment(tblName: string, colName: string, valStr: string): string
  {
    " /*" + tblName + "." + colName + " '" + valStr + "'*/"
  }

  /** The groups of a match of "[tbl.]col op 'val'"; `prefix` spans the column, the operator and the blanks. */
  datatype ColCmpLitMatch = ColCmpLitMatch(prefix: string, tblName: Option<string>, colName: string, op: string, valStr: string)

  /** The groups of a match of "'val' op [tbl.]col"; `suffix` spans the operator, the column and the blanks. */
  datatype LitCmpColMatch = LitCmpColMatch(valStr: string, op: string, tblName: Option<string>, colName: string, suffix: string)

  /** The groups of a match of "[tbl.]col BETWEEN 'v0' AND 'v1'"; `infix` spans the AND and its blanks. */
  datatype ColBetweenMatch = ColBetweenMatch(prefix: string, tblName: Option<string>, colName: string,
                                             valStr0: string, infix: string, valStr1: string)

  /** `_replaceColCmpLit`: the prefix, then the code and the comment in place of the literal. */
  function ReplaceColCmpLit(dicts: Dictionaries, m: ColCmpLitMatch): Result<string, QDictError>
  {
    var _ :- CheckNotLike(m.op);
    var names :- TblAndColName(dicts, m.tblName, m.colName);
    var valCode :- FindValCode(dicts, names.0, names.1, m.valStr);
    Ok(m.prefix + Strings.NatToString(valCode) + Comment(names.0, names.1, m.valStr))
  }

  /** `_replaceLitCmpCol`: the code and the comment in place of the literal, then the suffix. */
  function ReplaceLitCmpCol(dicts: Dictionaries, m: LitCmpColMatch): Result<string, QDictError>
  {
    var _ :- CheckNotLike(m.op);
    var names :- TblAndColName(dicts, m.tblName, m.colName);
    var valCode :- FindValCode(dicts, names.0, names.1, m.valStr);
    Ok(Strings.NatToString(valCode) + Comment(names.0, names.1, m.valStr) + m.suffix)
  }

  /** `_replaceColBetween`: both literals replaced in order, the prefix and the infix kept; no LIKE check. */
  function ReplaceColBetween(dicts: Dictionaries, m: ColBetweenMatch): Result<string, QDictError>
  {
    var names :- TblAndColName(dicts, m.tblName, m.colName);
    var valCode0 :- FindValCode(dicts, names.0, names.1, m.valStr0);
    var valCode1 :- FindValCode(dicts, names.0, names.1, m.valStr1);
    Ok(m.prefix + Strings.NatToString(valCode0) + Comment(names.0, names.1, m.valStr0)
       + " " + m.infix + Strings.NatToString(valCode1) + Comment(names.0, names.1, m.valStr1))
  }

  /** The table a comparison is looked up in: the one written, or the one found for the column. */
  function TableOf(dicts: Dictionaries, tblName: Option<string>, colName: string): Option<string>
  {
    match TblAndColName(dicts, tblName, colName)
    case Ok(names) => Some(names.0)
    case Err(_) => None
  }

  /** The value is at line k of the dictionary of table.column, and at no earlier line. */
  ghost predicate CodedAt(dicts: Dictionaries, tblName: string, colName: string, valStr: string, k: nat)
  {
    && (tblName, colName) in dicts.files
    && var lines := dicts.files[(tblName, colName)];
    && k < |lines| && StripNewline(lines[k]) == valStr
    && forall j :: 0 <= j < k ==> StripNewline(lines[j]) != valStr
  }

  lemma FindValCodeSpec(dicts: Dictionaries, tblName: string, colName: string, valStr: string)
    ensures var r := FindValCode(dicts, tblName, colName, valStr);
      r.Ok? ==> CodedAt(dicts, tblName, colName, valStr, r.value)
  {
    if (tblName, colName) in dicts.files {
      FindValInSpec(dicts.files[(tblName, colName)], valStr);
    }
  }

  /**
   * A LIKE comparison is refused before any lookup. Otherwise a successful
   * replacement keeps the prefix and writes the literal's dictionary code,
   * the line of the literal in the dictionary of the column's table, and
   * the comment naming them.
   */
  lemma ReplaceColCmpLitSpec(dicts: Dictionaries, m: ColCmpLitMatch)
    ensures SpellsLike(m.op) ==> ReplaceColCmpLit(dicts, m) == Err(LikeUnsupported)
    ensures var r := ReplaceColCmpLit(dicts, m);
      r.Ok? ==> (!SpellsLike(m.op) && TableOf(dicts, m.tblName, m.colName).Some? &&
        var t := TableOf(dicts, m.tblName, m.colName).value;
        exists k :: CodedAt(dicts, t, m.colName, m.valStr, k) &&
          r.value == m.prefix + Strings.NatToString(k) + Comment(t, m.colName, m.valStr))
  {
    CheckNotLikeSpec(m.op);
    var r := ReplaceColCmpLit(dicts, m);
    if r.Ok? {
      var names := TblAndColName(dicts, m.tblName, m.colName).value;
      FindValCodeSpec(dicts, names.0, names.1, m.valStr);
    }
  }

  /** As for "col op 'val'", with the code and the comment written before the suffix. */
  lemma ReplaceLitCmpColSpec(dicts: Dictionaries, m: LitCmpColMatch)
    ensures SpellsLike(m.op) ==> ReplaceLitCmpCol(dicts, m) == Err(LikeUnsupported)
    ensures var r := ReplaceLitCmpCol(dicts, m);
      r.Ok? ==> (!SpellsLike(m.op) && TableOf(dicts, m.tblName, m.colName).Some? &&
        var t := TableOf(dicts, m.tblName, m.colName).value;
        exists k :: CodedAt(dicts, t, m.colName, m.valStr, k) &&
          r.value == Strings.NatToString(k) + Comment(t, m.colName, m.valStr) + m.suffix)
  {
    CheckNotLikeSpec(m.op);
    var r := ReplaceLitCmpCol(dicts, m);
    if r.Ok? {
      var names := TblAndColName(dicts, m.tblName, m.colName).value;
      FindValCodeSpec(dicts, names.0, names.1, m.valStr);
    }
  }

  /**
   * The BETWEEN replacement never raises the LIKE error; on success both
   * literals are replaced, in order, by their codes in the same dictionary.
   */
  lemma ReplaceColBetweenSpec(dicts: Dictionaries, m: ColBetweenMatch)
    ensures ReplaceColBetween(dicts, m) != Err(LikeUnsupported)
    ensures var r := ReplaceColBetween(dicts, m);
      r.Ok? ==> (TableOf(dicts, m.tblName, m.colName).Some? &&
        var t := TableOf(dicts, m.tblName, m.colName).value;
        exists k0, k1 :: CodedAt(dicts, t, m.colName, m.valStr0, k0) && CodedAt(dicts, t, m.colName, m.valStr1, k1) &&
          r.value == m.prefix + Strings.NatToString(k0) + Comment(t, m.colName, m.valStr0)
                     + " " + m.infix + Strings.NatToString(k1) + Comment(t, m.colName, m.valStr1))
  {
    var r := ReplaceColBetween(dicts, m);
    var names := TblAndColName(dicts, m.tblName, m.colName);
    if names.Ok? {
      FindValCodeSpec(dicts, names.value.0, names.value.1, m.valStr0);
      FindValCodeSpec(dicts, names.value.0, names.value.1, m.valStr1);
    } else {
      FindTblNameSpec(dicts.colNamesByTblNames, m.colName);
    }
  }
}
