/**
 * Order-preserving dictionary coding of a table file (`_encodeTable`).
 *
 * The table is given as the lines Python yields when iterating over the
 * file, each with its trailing newline. Fields are separated by "|" and
 * every row carries a trailing separator. A column whose value in the first
 * row is not an unsigned integer is dictionary coded: its distinct values
 * are sorted, and each value is replaced by its position in that list. The
 * encoding produces the rewritten table lines, one dictionary per coded
 * column, and for every column the 64-bit values of its binary column file.
 */
module DbDict {
  import opened Wrappers
  import opened Strings
  import opened SortedStrings
  import QDict

  const COLSEP: char := '|'

  /** The values `struct.pack("<Q", v)` accepts are 0 .. U64_LIMIT - 1. */
  const U64_LIMIT: int := 0x1_0000_0000_0000_0000

  /** `_isInt`: every character is an ASCII digit, so the empty string counts as an integer. */
  predicate IsInt(val: string)
  {
    forall i :: 0 <= i < |val| ==> '0' <= val[i] <= '9'
  }

  /**
   * A nonempty `_isInt` string is read by `int` as the number its digits
   * spell; the empty string passes `_isInt` although `int` rejects it.
   */
  lemma IsIntMeaning(val: string)
    ensures IsInt("") && PyInt("") == None
    ensures IsInt(val) && val != "" ==> PyInt(val) == Some(DigitsValue(val) as int)
  {
    if IsInt(val) && val != "" {
      StripUnpadded(val);
      assert AllDigits(val);
    }
  }

  datatype EncodeError =
    | ColumnCountMismatch(found: nat, expected: nat)  // the first row and the schema disagree
    | IndexError                                       // a row has too few fields
    | KeyError(key: string)                            // the second pass meets a value without a code
    | ValueError(field: string)                        // `int` of a field that is no integer
    | PackError(value: int)                            // a value outside the range of "<Q"

  /** The fields of the first line, trailing whitespace stripped and the piece after the last separator dropped. */
  function FirstLineEntries(lines: seq<string>): (r: seq<string>)
    ensures forall e <- r :: COLSEP !in e
  {
    var firstLine := if lines == [] then "" else RStrip(lines[0]);
    var parts := Split(firstLine, COLSEP);
    parts[..|parts| - 1]
  }

  /** The columns requiring dictionary coding: those whose first-row value is not `_isInt`, in column order. */
  function NonIntColumns(entries: seq<string>): (r: seq<nat>)
    ensures forall k: nat :: k in r <==> k < |entries| && !IsInt(entries[k])
    ensures forall i, j :: 0 <= i < j < |r| ==> r[i] < r[j]
    decreases |entries|
  {
    if entries == [] then []
    else
      var n := |entries| - 1;
      var init := NonIntColumns(entries[..n]);
      assert forall k: nat :: k in init <==> k < n && !IsInt(entries[k]) by {
        forall k: nat | k < n ensures entries[k] == entries[..n][k] {}
      }
      assert forall i :: 0 <= i < |init| ==> init[i] < n by {
        forall i | 0 <= i < |init| ensures init[i] < n {
          assert init[i] in init;
        }
      }
      init + (if IsInt(entries[n]) then [] else [n])
  }

  /** The enumeration loop over the first line's entries. */
  method NonIntColumnsLoop(entries: seq<string>) returns (nonInt: seq<nat>)
    ensures nonInt == NonIntColumns(entries)
  {
    nonInt := [];
    var idx := 0;
    while idx < |entries|
      invariant idx <= |entries|
      invariant nonInt == NonIntColumns(entries[..idx])
    {
      assert entries[..idx + 1][..idx] == entries[..idx];
      if !IsInt(entries[idx]) {
        nonInt := nonInt + [idx];
      }
      idx := idx + 1;
    }
    assert entries[..idx] == entries;
  }

  /** The fields of a line as the first pass sees them: trailing whitespace stripped, then split. */
  function Fields(line: string): seq<string>
  {
    Split(RStrip(line), COLSEP)
  }

  /** Every coded column has a field in this row. */
  predicate RowFits(fields: seq<string>, nonInt: seq<nat>)
  {
    forall idx <- nonInt :: idx < |fields|
  }

  /** Every one of the first n lines has a field for each coded column. */
  predicate AllFit(lines: seq<string>, n: nat, nonInt: seq<nat>)
    requires n <= |lines|
  {
    forall j :: 0 <= j < n ==> RowFits(Fields(lines[j]), nonInt)
  }

  /** The distinct values of column idx over the first n lines. */
  function ColumnValues(lines: seq<string>, n: nat, idx: nat): set<string>
    requires n <= |lines| && forall j :: 0 <= j < n ==> idx < |Fields(lines[j])|
  {
    set j | 0 <= j < n :: Fields(lines[j])[idx]
  }

  /** `distValsByColIdx` after the first n lines. */
  function DistinctValues(lines: seq<string>, n: nat, nonInt: seq<nat>): map<nat, set<string>>
    requires n <= |lines| && AllFit(lines, n, nonInt)
  {
    map idx | idx in nonInt :: ColumnValues(lines, n, idx)
  }

  /**
   * The first pass: the set of distinct values of every coded column, or the
   * IndexError of a row too short for one of them. Without coded columns no
   * line is read.
   */
  function FirstPass(lines: seq<string>, nonInt: seq<nat>): Result<map<nat, set<string>>, EncodeError>
  {
    if nonInt == [] then Ok(map[])
    else if !AllFit(lines, |lines|, nonInt) then Err(IndexError)
    else Ok(DistinctValues(lines, |lines|, nonInt))
  }

  /** One row's coded fields added to their columns' sets. */
  function AddRow(dist: map<nat, set<string>>, fields: seq<string>, nonInt: seq<nat>): map<nat, set<string>>
    requires RowFits(fields, nonInt)
  {
    map idx | idx in dist :: if idx in nonInt then dist[idx] + {fields[idx]} else dist[idx]
  }

  /** Before the first line every coded column's set is empty. */
  lemma DistinctValuesStart(lines: seq<string>, nonInt: seq<nat>)
    ensures DistinctValues(lines, 0, nonInt) == map idx | idx in nonInt :: {}
  {
    assert forall idx <- nonInt :: ColumnValues(lines, 0, idx) == {};
  }

  /** One more line adds its field to each coded column's values. */
  lemma DistinctValuesNext(lines: seq<string>, i: nat, nonInt: seq<nat>)
    requires i < |lines| && AllFit(lines, i, nonInt) && RowFits(Fields(lines[i]), nonInt)
    ensures AllFit(lines, i + 1, nonInt)
    ensures AddRow(DistinctValues(lines, i, nonInt), Fields(lines[i]), nonInt) == DistinctValues(lines, i + 1, nonInt)
  {
    var dist := DistinctValues(lines, i, nonInt);
    var next := AddRow(dist, Fields(lines[i]), nonInt);
    forall idx <- nonInt ensures next[idx] == ColumnValues(lines, i + 1, idx) {
      assert idx in dist.Keys;
    }
  }

  /** A row too short for a coded column fails the whole first pass. */
  lemma ShortRowFails(lines: seq<string>, i: nat, nonInt: seq<nat>)
    requires i < |lines| && !RowFits(Fields(lines[i]), nonInt)
    ensures !AllFit(lines, |lines|, nonInt)
  {
  }

  /** The inner loop of the first pass: one row's coded fields added to their columns' sets. */
  method AddRowValues(dist: map<nat, set<string>>, fields: seq<string>, nonInt: seq<nat>)
      returns (r: Result<map<nat, set<string>>, EncodeError>)
    requires forall idx <- nonInt :: idx in dist
    ensures r.Ok? <==> RowFits(fields, nonInt)
    ensures r.Err? ==> r.error == IndexError
    ensures r.Ok? ==> r.value == AddRow(dist, fields, nonInt)
  {
    var acc := dist;
    var t := 0;
    while t < |nonInt|
      invariant t <= |nonInt|
      invariant forall k :: 0 <= k < t ==> nonInt[k] < |fields|
      invariant acc.Keys == dist.Keys
      invariant forall idx <- dist.Keys :: acc[idx] == if idx in nonInt[..t] then dist[idx] + {fields[idx]} else dist[idx]
    {
      var idx := nonInt[t];
      if idx >= |fields| {
        assert idx in nonInt;
        return Err(IndexError);
      }
      assert nonInt[..t + 1] == nonInt[..t] + [idx];
      acc := acc[idx := acc[idx] + {fields[idx]}];
      t := t + 1;
    }
    assert nonInt[..t] == nonInt;
    return Ok(acc);
  }

  /** The first pass over the table lines. */
  method FirstPassLoop(lines: seq<string>, nonInt: seq<nat>) returns (r: Result<map<nat, set<string>>, EncodeError>)
    ensures r == FirstPass(lines, nonInt)
  {
    if nonInt == [] {
      return Ok(map[]);
    }
    var dist: map<nat, set<string>> := map idx | idx in nonInt :: {};
    var i := 0;
    DistinctValuesStart(lines, nonInt);
    while i < |lines|
      invariant i <= |lines| && AllFit(lines, i, nonInt)
      invariant dist == DistinctValues(lines, i, nonInt)
    {
      var next := AddRowValues(dist, Fields(lines[i]), nonInt);
      if next.Err? {
        ShortRowFails(lines, i, nonInt);
        return Err(IndexError);
      }
      DistinctValuesNext(lines, i, nonInt);
      dist := next.value;
      i := i + 1;
    }
    return Ok(dist);
  }

  /** The dictionary of each coded column: its distinct values, sorted. */
  ghost function SortedDictionaries(dist: map<nat, set<string>>, nonInt: seq<nat>): map<nat, seq<string>>
  {
    map idx | idx in nonInt && idx in dist :: Sorted(dist[idx])
  }

  /** The sorting loop over the coded columns. */
  method BuildDictionaries(dist: map<nat, set<string>>, nonInt: seq<nat>) returns (dicts: map<nat, seq<string>>)
    ensures dicts == SortedDictionaries(dist, nonInt)
  {
    dicts := map[];
    var t := 0;
    while t < |nonInt|
      invariant t <= |nonInt|
      invariant dicts == SortedDictionaries(dist, nonInt[..t])
    {
      var idx := nonInt[t];
      assert nonInt[..t + 1] == nonInt[..t] + [idx];
      if idx in dist {
        var sorted := SortSet(dist[idx]);
        dicts := dicts[idx := sorted];
      }
      t := t + 1;
    }
    assert nonInt[..t] == nonInt;
  }

  /** The encoding dictionary of one column: each value mapped to the decimal form of its position. */
  function CodeDict(dict: seq<string>): map<string, string>
  {
    map v | v in dict :: NatToString(IndexOf(dict, v))
  }

  /** The encoding dictionary of every coded column. */
  function Codes(dicts: map<nat, seq<string>>): map<nat, map<string, string>>
  {
    map idx | idx in dicts :: CodeDict(dicts[idx])
  }

  /** A row's fields with the coded ones replaced, in the order of the coded columns. */
  function ReplaceCoded(fields: seq<string>, nonInt: seq<nat>, codes: map<nat, map<string, string>>): (r: Result<seq<string>, EncodeError>)
    ensures r.Ok? ==> |r.value| == |fields|
    decreases |nonInt|
  {
    if nonInt == [] then Ok(fields)
    else
      var idx := nonInt[0];
      if idx >= |fields| then Err(IndexError)
      else if idx !in codes || fields[idx] !in codes[idx] then Err(KeyError(fields[idx]))
      else ReplaceCoded(fields[idx := codes[idx][fields[idx]]], nonInt[1..], codes)
  }

  /** `int` of one field, which "<Q" then has to accept. */
  function FieldValue(fields: seq<string>, idx: nat): Result<nat, EncodeError>
  {
    if idx >= |fields| then Err(IndexError)
    else
      match PyInt(fields[idx])
      case None => Err(ValueError(fields[idx]))
      case Some(v) => if 0 <= v < U64_LIMIT then Ok(v as nat) else Err(PackError(v))
  }

  /** The values a row writes to the column files: those of its first countCols fields, the first failure stopping the row. */
  function RowValues(fields: seq<string>, countCols: nat): (r: Result<seq<nat>, EncodeError>)
    ensures r.Ok? ==> |r.value| == countCols
    decreases countCols
  {
    if countCols == 0 then Ok([])
    else
      match RowValues(fields, countCols - 1)
      case Err(e) => Err(e)
      case Ok(vs) =>
        match FieldValue(fields, countCols - 1)
        case Err(e) => Err(e)
        case Ok(v) => Ok(vs + [v])
  }

  /** The first failing column decides the error: later columns are not looked at. */
  lemma {:induction false} RowValuesErrorStays(fields: seq<string>, n: nat, m: nat)
    requires n <= m && RowValues(fields, n).Err?
    ensures RowValues(fields, m) == RowValues(fields, n)
    decreases m
  {
    if n < m {
      RowValuesErrorStays(fields, n, m - 1);
    }
  }

  /** One row of the second pass: the rewritten line and the values it writes to the column files. */
  function EncodeLine(line: string, nonInt: seq<nat>, codes: map<nat, map<string, string>>, countCols: nat)
    : (r: Result<(string, seq<nat>), EncodeError>)
    ensures r.Ok? ==> |r.value.1| == countCols
  {
    match ReplaceCoded(Split(line, COLSEP), nonInt, codes)
    case Err(e) => Err(e)
    case Ok(fields) =>
      match RowValues(fields, countCols)
      case Err(e) => Err(e)
      case Ok(vs) => Ok((Join(fields, COLSEP), vs))
  }

  /** The second pass over the first n lines: the rewritten lines and the values of every row. */
  function SecondPass(lines: seq<string>, n: nat, nonInt: seq<nat>, codes: map<nat, map<string, string>>, countCols: nat)
    : (r: Result<(seq<string>, seq<seq<nat>>), EncodeError>)
    requires n <= |lines|
    ensures r.Ok? ==> |r.value.0| == n && |r.value.1| == n
    decreases n
  {
    if n == 0 then Ok(([], []))
    else
      match SecondPass(lines, n - 1, nonInt, codes, countCols)
      case Err(e) => Err(e)
      case Ok((outLines, rows)) =>
        match EncodeLine(lines[n - 1], nonInt, codes, countCols)
        case Err(e) => Err(e)
        case Ok((outLine, vs)) => Ok((outLines + [outLine], rows + [vs]))
  }

  /** Every row has one value per column. */
  predicate Rectangular(rows: seq<seq<nat>>, countCols: nat)
  {
    forall vs <- rows :: |vs| == countCols
  }

  /** Each row of the second pass holds a value for every column. */
  lemma {:induction false} SecondPassRectangular(lines: seq<string>, n: nat, nonInt: seq<nat>,
                                                 codes: map<nat, map<string, string>>, countCols: nat)
    requires n <= |lines|
    ensures var r := SecondPass(lines, n, nonInt, codes, countCols);
      r.Ok? ==> Rectangular(r.value.1, countCols)
    decreases n
  {
    if n > 0 {
      SecondPassRectangular(lines, n - 1, nonInt, codes, countCols);
    }
  }

  /** A row that fails stops the second pass with its error. */
  lemma {:induction false} SecondPassErrorStays(lines: seq<string>, n: nat, m: nat, nonInt: seq<nat>,
                                                codes: map<nat, map<string, string>>, countCols: nat, e: EncodeError)
    requires n <= m <= |lines| && SecondPass(lines, n, nonInt, codes, countCols) == Err(e)
    ensures SecondPass(lines, m, nonInt, codes, countCols) == Err(e)
    decreases m
  {
    if n < m {
      SecondPassErrorStays(lines, n, m - 1, nonInt, codes, countCols, e);
      assert SecondPass(lines, m, nonInt, codes, countCols) == Err(e);
    }
  }

  function Max(a: nat, b: nat): nat { if b > a then b else a }

  /** maxVals[idx] after the given rows: starts at 0 and grows to each larger value. */
  function MaxCol(rows: seq<seq<nat>>, idx: nat): nat
    requires forall vs <- rows :: idx < |vs|
    decreases |rows|
  {
    if rows == [] then 0 else Max(MaxCol(rows[..|rows| - 1], idx), rows[|rows| - 1][idx])
  }

  function MaxVals(rows: seq<seq<nat>>, countCols: nat): (r: seq<nat>)
    requires Rectangular(rows, countCols)
    ensures |r| == countCols
  {
    seq(countCols, idx requires 0 <= idx < countCols => MaxCol(rows, idx))
  }

  /** The size check of the header words: none for a table without columns. */
  function HeaderCheck(countCols: nat, countRows: nat): Option<EncodeError>
  {
    if countCols == 0 then None
    else if countRows >= U64_LIMIT then Some(PackError(countRows))
    else if countRows * 8 >= U64_LIMIT then Some(PackError(countRows * 8))
    else None
  }

  /** What `_encodeTable` produces for a table. */
  datatype Encoded = Encoded(
    dictionaries: map<nat, seq<string>>,  // each coded column's dictionary, line by line
    outLines: seq<string>,                // the rewritten table lines
    header: (nat, nat),                   // the two words at the start of every column file
    rows: seq<seq<nat>>,                  // the values of each row written to the column files
    maxVals: seq<nat>,                    // the largest value of each column, at least 0
    cardinality: nat)                     // the number of rows of the second pass

  /** The code dictionaries, the header words and the second pass, once the dictionaries are known. */
  function FinishEncoding(lines: seq<string>, nonInt: seq<nat>, dicts: map<nat, seq<string>>, countCols: nat)
    : Result<Encoded, EncodeError>
  {
    var codes := Codes(dicts);
    var countRows := if nonInt == [] then 0 else |lines|;
    match HeaderCheck(countCols, countRows)
    case Some(e) => Err(e)
    case None =>
      match SecondPass(lines, |lines|, nonInt, codes, countCols)
      case Err(e) => Err(e)
      case Ok((outLines, rows)) =>
        SecondPassRectangular(lines, |lines|, nonInt, codes, countCols);
        Ok(Encoded(dicts, outLines, (countRows, countRows * 8), rows, MaxVals(rows, countCols), |rows|))
  }

  /** `_encodeTable` over the lines of a table file and the schema's column names. */
  ghost function EncodeTableSpec(colNames: seq<string>, lines: seq<string>): Result<Encoded, EncodeError>
  {
    var entries := FirstLineEntries(lines);
    var countCols := |entries|;
    if countCols != |colNames| then Err(ColumnCountMismatch(countCols, |colNames|))
    else
      var nonInt := NonIntColumns(entries);
      match FirstPass(lines, nonInt)
      case Err(e) => Err(e)
      case Ok(dist) => FinishEncoding(lines, nonInt, SortedDictionaries(dist, nonInt), countCols)
  }

  /** The replacement loop of one row: each coded field overwritten in place with its code. */
  method ReplaceCodedLoop(fields: seq<string>, nonInt: seq<nat>, codes: map<nat, map<string, string>>)
      returns (r: Result<seq<string>, EncodeError>)
    ensures r == ReplaceCoded(fields, nonInt, codes)
  {
    var lineEntries := fields;
    var t := 0;
    while t < |nonInt|
      invariant t <= |nonInt|
      invariant ReplaceCoded(lineEntries, nonInt[t..], codes) == ReplaceCoded(fields, nonInt, codes)
    {
      var idx := nonInt[t];
      assert nonInt[t..][1..] == nonInt[t + 1..];
      if idx >= |lineEntries| {
        return Err(IndexError);
      }
      if idx !in codes || lineEntries[idx] !in codes[idx] {
        return Err(KeyError(lineEntries[idx]));
      }
      lineEntries := lineEntries[idx := codes[idx][lineEntries[idx]]];
      t := t + 1;
    }
    assert nonInt[t..] == [];
    return Ok(lineEntries);
  }

  /**
   * The column loop of one row: each value parsed, checked against the range
   * of "<Q" and compared with that column's maximum, which it replaces when larger.
   */
  method RowValuesLoop(fields: seq<string>, maxVals: array<nat>) returns (r: Result<seq<nat>, EncodeError>)
    modifies maxVals
    ensures r == RowValues(fields, maxVals.Length)
    ensures r.Ok? ==> forall idx :: 0 <= idx < maxVals.Length ==> maxVals[idx] == Max(old(maxVals[idx]), r.value[idx])
  {
    var vs: seq<nat> := [];
    var idx := 0;
    while idx < maxVals.Length
      invariant idx <= maxVals.Length
      invariant RowValues(fields, idx) == Ok(vs)
      invariant forall k :: 0 <= k < idx ==> maxVals[k] == Max(old(maxVals[k]), vs[k])
      invariant forall k :: idx <= k < maxVals.Length ==> maxVals[k] == old(maxVals[k])
    {
      var v := FieldValue(fields, idx);
      if v.Err? {
        RowValuesErrorStays(fields, idx + 1, maxVals.Length);
        return Err(v.error);
      }
      if v.value > maxVals[idx] {
        maxVals[idx] := v.value;
      }
      vs := vs + [v.value];
      idx := idx + 1;
    }
    return Ok(vs);
  }

  /** One row of the second pass: the coded fields replaced, the line joined again, the values written. */
  method EncodeRow(line: string, nonInt: seq<nat>, codes: map<nat, map<string, string>>, maxVals: array<nat>)
      returns (r: Result<(string, seq<nat>), EncodeError>)
    modifies maxVals
    ensures r == EncodeLine(line, nonInt, codes, maxVals.Length)
    ensures r.Ok? ==> forall idx :: 0 <= idx < maxVals.Length ==> maxVals[idx] == Max(old(maxVals[idx]), r.value.1[idx])
  {
    var replaced := ReplaceCodedLoop(Split(line, COLSEP), nonInt, codes);
    if replaced.Err? {
      return Err(replaced.error);
    }
    var outLine := Join(replaced.value, COLSEP);
    var vs := RowValuesLoop(replaced.value, maxVals);
    if vs.Err? {
      return Err(vs.error);
    }
    return Ok((outLine, vs.value));
  }

  /** The maxima after one more row: each column's maximum so far compared with the row's value. */
  lemma MaxValsNext(rows: seq<seq<nat>>, vs: seq<nat>, countCols: nat, before: seq<nat>, after: seq<nat>)
    requires Rectangular(rows, countCols) && |vs| == countCols
    requires before == MaxVals(rows, countCols) && |after| == countCols
    requires forall idx :: 0 <= idx < countCols ==> after[idx] == Max(before[idx], vs[idx])
    ensures Rectangular(rows + [vs], countCols) && after == MaxVals(rows + [vs], countCols)
  {
    assert (rows + [vs])[..|rows|] == rows;
  }

  /** One more row of the second pass. */
  lemma SecondPassNext(lines: seq<string>, i: nat, nonInt: seq<nat>, codes: map<nat, map<string, string>>, countCols: nat,
                       outLines: seq<string>, rows: seq<seq<nat>>)
    requires i < |lines| && SecondPass(lines, i, nonInt, codes, countCols) == Ok((outLines, rows))
    ensures var row := EncodeLine(lines[i], nonInt, codes, countCols);
      && (row.Err? ==> SecondPass(lines, |lines|, nonInt, codes, countCols) == Err(row.error))
      && (row.Ok? ==> SecondPass(lines, i + 1, nonInt, codes, countCols) == Ok((outLines + [row.value.0], rows + [row.value.1])))
  {
    var row := EncodeLine(lines[i], nonInt, codes, countCols);
    if row.Err? {
      SecondPassErrorStays(lines, i + 1, |lines|, nonInt, codes, countCols, row.error);
    }
  }

  /** The body of the second pass: one row encoded and its values folded into maxVals. */
  method SecondPassStep(lines: seq<string>, i: nat, nonInt: seq<nat>, codes: map<nat, map<string, string>>,
                        outLines: seq<string>, rows: seq<seq<nat>>, maxVals: array<nat>)
      returns (r: Result<(seq<string>, seq<seq<nat>>), EncodeError>)
    requires i < |lines| && SecondPass(lines, i, nonInt, codes, maxVals.Length) == Ok((outLines, rows))
    requires Rectangular(rows, maxVals.Length) && maxVals[..] == MaxVals(rows, maxVals.Length)
    modifies maxVals
    ensures r.Err? ==> SecondPass(lines, |lines|, nonInt, codes, maxVals.Length) == r
    ensures r.Ok? ==> SecondPass(lines, i + 1, nonInt, codes, maxVals.Length) == r
    ensures r.Ok? ==> Rectangular(r.value.1, maxVals.Length) && maxVals[..] == MaxVals(r.value.1, maxVals.Length)
  {
    ghost var before := maxVals[..];
    var row := EncodeRow(lines[i], nonInt, codes, maxVals);
    SecondPassNext(lines, i, nonInt, codes, maxVals.Length, outLines, rows);
    if row.Err? {
      return Err(row.error);
    }
    MaxValsNext(rows, row.value.1, maxVals.Length, before, maxVals[..]);
    return Ok((outLines + [row.value.0], rows + [row.value.1]));
  }

  /** The second pass over the table lines, with maxVals kept in an array. */
  method SecondPassLoop(lines: seq<string>, nonInt: seq<nat>, codes: map<nat, map<string, string>>, countCols: nat)
      returns (r: Result<(seq<string>, seq<seq<nat>>), EncodeError>, maxVals: seq<nat>)
    ensures r == SecondPass(lines, |lines|, nonInt, codes, countCols)
    ensures r.Ok? ==> Rectangular(r.value.1, countCols) && maxVals == MaxVals(r.value.1, countCols)
  {
    var maxArr := new nat[countCols](_ => 0);
    var outLines: seq<string>, rows: seq<seq<nat>> := [], [];
    var i := 0;
    while i < |lines|
      invariant i <= |lines| && maxArr.Length == countCols
      invariant SecondPass(lines, i, nonInt, codes, countCols) == Ok((outLines, rows))
      invariant Rectangular(rows, countCols) && maxArr[..] == MaxVals(rows, countCols)
    {
      var step := SecondPassStep(lines, i, nonInt, codes, outLines, rows, maxArr);
      if step.Err? {
        return step, [];
      }
      outLines, rows := step.value.0, step.value.1;
      i := i + 1;
    }
    return Ok((outLines, rows)), maxArr[..];
  }

  /** The steps after the dictionaries are built: the header check and the second pass. */
  method FinishEncodingLoop(lines: seq<string>, nonInt: seq<nat>, dicts: map<nat, seq<string>>, countCols: nat)
      returns (r: Result<Encoded, EncodeError>)
    ensures r == FinishEncoding(lines, nonInt, dicts, countCols)
  {
    var codes := Codes(dicts);
    var countRows := if nonInt == [] then 0 else |lines|;
    var headerError := HeaderCheck(countCols, countRows);
    if headerError.Some? {
      return Err(headerError.value);
    }
    var secondPass, maxVals := SecondPassLoop(lines, nonInt, codes, countCols);
    if secondPass.Err? {
      return Err(secondPass.error);
    }
    var (outLines, rows) := secondPass.value;
    return Ok(Encoded(dicts, outLines, (countRows, countRows * 8), rows, maxVals, |rows|));
  }

  /** `_encodeTable`: the column check, both passes and the dictionaries. */
  method EncodeTable(colNames: seq<string>, lines: seq<string>) returns (r: Result<Encoded, EncodeError>)
    ensures r == EncodeTableSpec(colNames, lines)
  {
    var entries := FirstLineEntries(lines);
    var countCols := |entries|;
    if countCols != |colNames| {
      return Err(ColumnCountMismatch(countCols, |colNames|));
    }
    var nonInt := NonIntColumnsLoop(entries);
    var firstPass := FirstPassLoop(lines, nonInt);
    if firstPass.Err? {
      return Err(firstPass.error);
    }
    var dicts := BuildDictionaries(firstPass.value, nonInt);
    r := FinishEncodingLoop(lines, nonInt, dicts, countCols);
  }

  // ---------------------------------------------------------------------------
  // Properties of the encoding
  // ---------------------------------------------------------------------------

  /**
   * The schema check: a table whose first line has a different number of
   * fields than the schema has columns is rejected before anything else.
   */
  lemma ColumnCountChecked(colNames: seq<string>, lines: seq<string>)
    ensures var r := EncodeTableSpec(colNames, lines);
      && (|FirstLineEntries(lines)| != |colNames| ==> r == Err(ColumnCountMismatch(|FirstLineEntries(lines)|, |colNames|)))
      && (r.Ok? ==> |FirstLineEntries(lines)| == |colNames| && |r.value.maxVals| == |colNames|)
  {
  }

  /** Exactly the columns whose first-row value is not `_isInt` get a dictionary. */
  lemma CodedColumns(colNames: seq<string>, lines: seq<string>)
    ensures var r := EncodeTableSpec(colNames, lines);
      var entries := FirstLineEntries(lines);
      r.Ok? ==> forall k: nat :: k in r.value.dictionaries <==> k < |entries| && !IsInt(entries[k])
  {
    var entries := FirstLineEntries(lines);
    var nonInt := NonIntColumns(entries);
    var r := EncodeTableSpec(colNames, lines);
    if r.Ok? {
      var dist := FirstPass(lines, nonInt).value;
      assert forall k: nat :: k in nonInt ==> k in dist;
    }
  }

  /** The codes of a column are 0 .. n - 1 for its n distinct values: every value gets one below n, and every such number is used. */
  lemma CodesDense(values: set<string>)
    ensures var d := Sorted(values);
      && |d| == |values|
      && (forall v <- values :: v in d && IndexOf(d, v) < |values|)
      && (forall k :: 0 <= k < |values| ==> d[k] in values && IndexOf(d, d[k]) == k)
  {
    var d := Sorted(values);
    SortedMembers(values);
    SortedAscending(values);
    forall k | 0 <= k < |values| ensures d[k] in values && IndexOf(d, d[k]) == k {
      IndexOfAt(d, k);
    }
  }

  /** The coding preserves order: a < b exactly when code(a) < code(b), and distinct values get distinct codes. */
  lemma CodesOrderPreserving(values: set<string>, a: string, b: string)
    requires a in values && b in values
    ensures var d := Sorted(values);
      a in d && b in d
      && (Less(a, b) <==> IndexOf(d, a) < IndexOf(d, b))
      && (a == b <==> IndexOf(d, a) == IndexOf(d, b))
  {
    SortedMembers(values);
    SortedAscending(values);
    IndexOfOrder(Sorted(values), a, b);
  }

  /** The encoding dictionary built by enumerating the sorted values maps the value at position pos to str(pos). */
  lemma CodeDictEnumerates(values: set<string>)
    ensures var d := Sorted(values);
      forall pos :: 0 <= pos < |d| ==> d[pos] in CodeDict(d) && CodeDict(d)[d[pos]] == NatToString(pos)
  {
    var d := Sorted(values);
    SortedAscending(values);
    forall pos | 0 <= pos < |d| ensures CodeDict(d)[d[pos]] == NatToString(pos) {
      IndexOfAt(d, pos);
    }
  }

  /** Strictly increasing column indices. */
  predicate Increasing(nonInt: seq<nat>)
  {
    forall i, j :: 0 <= i < j < |nonInt| ==> nonInt[i] < nonInt[j]
  }

  /** The field a coded column ends up with. */
  function Replaced(fields: seq<string>, nonInt: seq<nat>, codes: map<nat, map<string, string>>, k: nat): string
    requires k < |fields|
  {
    if k in nonInt && k in codes && fields[k] in codes[k] then codes[k][fields[k]] else fields[k]
  }

  /**
   * The replacement loop rewrites exactly the coded fields, each with its
   * code, and fails when a coded field is missing or has no code.
   */
  lemma ReplaceCodedSpec(fields: seq<string>, nonInt: seq<nat>, codes: map<nat, map<string, string>>)
    requires Increasing(nonInt)
    ensures var r := ReplaceCoded(fields, nonInt, codes);
      && (r.Ok? <==> forall idx <- nonInt :: idx < |fields| && idx in codes && fields[idx] in codes[idx])
      && (r.Ok? ==> forall k :: 0 <= k < |fields| ==> r.value[k] == Replaced(fields, nonInt, codes, k))
  {
    ReplaceCodedOk(fields, nonInt, codes);
    ReplaceCodedFields(fields, nonInt, codes);
  }

  lemma {:induction false} ReplaceCodedOk(fields: seq<string>, nonInt: seq<nat>, codes: map<nat, map<string, string>>)
    requires Increasing(nonInt)
    ensures ReplaceCoded(fields, nonInt, codes).Ok? <==> forall idx <- nonInt :: idx < |fields| && idx in codes && fields[idx] in codes[idx]
    decreases |nonInt|
  {
    if nonInt != [] {
      var idx := nonInt[0];
      if idx < |fields| && idx in codes && fields[idx] in codes[idx] {
        var next := fields[idx := codes[idx][fields[idx]]];
        var tail := nonInt[1..];
        assert Increasing(tail);
        ReplaceCodedOk(next, tail, codes);
        forall k <- tail ensures k != idx && (k < |next| ==> next[k] == fields[k]) {
          assert k > idx;
        }
      }
    }
  }

  lemma {:induction false} ReplaceCodedFields(fields: seq<string>, nonInt: seq<nat>, codes: map<nat, map<string, string>>)
    requires Increasing(nonInt)
    ensures var r := ReplaceCoded(fields, nonInt, codes);
      r.Ok? ==> forall k :: 0 <= k < |fields| ==> r.value[k] == Replaced(fields, nonInt, codes, k)
    decreases |nonInt|
  {
    if nonInt != [] {
      var idx := nonInt[0];
      if idx < |fields| && idx in codes && fields[idx] in codes[idx] {
        var next := fields[idx := codes[idx][fields[idx]]];
        var tail := nonInt[1..];
        assert Increasing(tail);
        ReplaceCodedFields(next, tail, codes);
        forall k | 0 <= k < |fields|
          ensures Replaced(next, tail, codes, k) == Replaced(fields, nonInt, codes, k)
        {
          if k == idx {
            assert k !in tail;
          } else {
            assert next[k] == fields[k];
            assert k in tail <==> k in nonInt;
          }
        }
      }
    }
  }

  /** In a row that `RowValues` accepts, each column's value is that of its field. */
  lemma {:induction false} RowValuesAt(fields: seq<string>, n: nat)
    ensures var r := RowValues(fields, n);
      r.Ok? ==> forall k :: 0 <= k < n ==> FieldValue(fields, k) == Ok(r.value[k])
    decreases n
  {
    if n > 0 {
      RowValuesAt(fields, n - 1);
    }
  }

  /** Each row of the second pass is the encoding of the line at the same position. */
  lemma {:induction false} SecondPassRow(lines: seq<string>, n: nat, nonInt: seq<nat>, codes: map<nat, map<string, string>>,
                                         countCols: nat, i: nat, outLines: seq<string>, rows: seq<seq<nat>>)
    requires i < n <= |lines|
    requires SecondPass(lines, n, nonInt, codes, countCols) == Ok((outLines, rows))
    ensures EncodeLine(lines[i], nonInt, codes, countCols) == Ok((outLines[i], rows[i]))
    decreases n
  {
    var prev := SecondPass(lines, n - 1, nonInt, codes, countCols);
    var (o, r) := prev.value;
    if i < n - 1 {
      SecondPassRow(lines, n - 1, nonInt, codes, countCols, i, o, r);
      assert outLines[i] == o[i] && rows[i] == r[i];
    }
  }

  /** The code strings hold digits only, so none of them contains the separator. */
  predicate SeparatorFree(codes: map<nat, map<string, string>>)
  {
    forall idx <- codes :: forall v <- codes[idx] :: COLSEP !in codes[idx][v]
  }

  lemma CodesSeparatorFree(dicts: map<nat, seq<string>>)
    ensures SeparatorFree(Codes(dicts))
  {
    var codes := Codes(dicts);
    forall idx <- codes, v <- codes[idx] ensures COLSEP !in codes[idx][v] {
      var s := codes[idx][v];
      assert AllDigits(s);
      assert forall i :: 0 <= i < |s| ==> s[i] != COLSEP;
    }
  }

  /**
   * A rewritten line splits into the fields of the original line with the
   * coded ones replaced by their codes; integer fields pass through unchanged.
   */
  lemma EncodedLineFields(line: string, nonInt: seq<nat>, codes: map<nat, map<string, string>>, countCols: nat)
    requires Increasing(nonInt) && SeparatorFree(codes)
    ensures var r := EncodeLine(line, nonInt, codes, countCols);
      var raw := Split(line, COLSEP);
      r.Ok? ==>
        && |Split(r.value.0, COLSEP)| == |raw|
        && forall k :: 0 <= k < |raw| ==> Split(r.value.0, COLSEP)[k] == Replaced(raw, nonInt, codes, k)
  {
    var raw := Split(line, COLSEP);
    var replaced := ReplaceCoded(raw, nonInt, codes);
    ReplaceCodedSpec(raw, nonInt, codes);
    if replaced.Ok? {
      var f := replaced.value;
      assert forall p <- f :: COLSEP !in p by {
        forall k | 0 <= k < |f| ensures COLSEP !in f[k] {
          assert raw[k] in raw;
        }
      }
      SplitJoin(f, COLSEP);
    }
  }

  /** The largest value of a column, or 0: no row exceeds it, and unless it is 0 some row has it. */
  lemma {:induction false} MaxColSpec(rows: seq<seq<nat>>, idx: nat)
    requires forall vs <- rows :: idx < |vs|
    ensures forall r :: 0 <= r < |rows| ==> rows[r][idx] <= MaxCol(rows, idx)
    ensures MaxCol(rows, idx) == 0 || exists r :: 0 <= r < |rows| && rows[r][idx] == MaxCol(rows, idx)
    decreases |rows|
  {
    if rows != [] {
      var init := rows[..|rows| - 1];
      MaxColSpec(init, idx);
      assert forall r :: 0 <= r < |init| ==> init[r] == rows[r];
    }
  }

  /**
   * The header words of every column file: the first-pass row count and
   * eight times that. The first pass reads the table only when some column is
   * coded, so for a table of integers only the count is 0 whatever the number
   * of rows, while the second pass counts every row.
   */
  lemma HeaderWords(colNames: seq<string>, lines: seq<string>)
    ensures var r := EncodeTableSpec(colNames, lines);
      var coded := NonIntColumns(FirstLineEntries(lines)) != [];
      r.Ok? ==>
        && r.value.header == (if coded then |lines| else 0, if coded then |lines| * 8 else 0)
        && r.value.cardinality == |lines| && |r.value.rows| == |lines| && |r.value.outLines| == |lines|
  {
  }

  /** A byte of a binary column file. */
  newtype byte = x: int | 0 <= x < 256

  /** The bytes of a value in "<Q" layout: width bytes, least significant first. */
  function LittleEndian(v: nat, width: nat): (r: seq<byte>)
    ensures |r| == width
  {
    if width == 0 then [] else [(v % 256) as byte] + LittleEndian(v / 256, width - 1)
  }

  /** The number little-endian bytes stand for. */
  function FromLittleEndian(b: seq<byte>): nat
  {
    if b == [] then 0 else b[0] as nat + 256 * FromLittleEndian(b[1..])
  }

  function Pow256(n: nat): nat
  {
    if n == 0 then 1 else 256 * Pow256(n - 1)
  }

  /** Reading back the bytes of a value that fits gives the value. */
  lemma {:induction false} LittleEndianRoundTrip(v: nat, width: nat)
    requires v < Pow256(width)
    ensures FromLittleEndian(LittleEndian(v, width)) == v
    decreases width
  {
    if width > 0 {
      var lo, hi := v % 256, v / 256;
      assert hi < Pow256(width - 1) by {
        DivBelow(v, Pow256(width - 1));
      }
      LittleEndianRoundTrip(hi, width - 1);
      var b := LittleEndian(v, width);
      assert b[0] as nat == lo && b[1..] == LittleEndian(hi, width - 1);
    }
  }

  lemma DivBelow(v: nat, p: nat)
    requires v < 256 * p
    ensures v / 256 < p
  {
  }

  /** `struct.pack("<Q", v)`. */
  function PackQ(v: nat): seq<byte>
  {
    LittleEndian(v, 8)
  }

  /** Every value "<Q" accepts is read back unchanged. */
  lemma PackQRoundTrip(v: nat)
    requires v < U64_LIMIT
    ensures |PackQ(v)| == 8 && FromLittleEndian(PackQ(v)) == v
  {
    assert Pow256(8) == U64_LIMIT;
    LittleEndianRoundTrip(v, 8);
  }

  /** The bytes of a column's binary file: the two header words, then the column's value of each row. */
  function ColumnFile(e: Encoded, idx: nat): seq<byte>
    requires forall vs <- e.rows :: idx < |vs|
  {
    PackQ(e.header.0) + PackQ(e.header.1) + ColumnBytes(e.rows, idx)
  }

  function ColumnBytes(rows: seq<seq<nat>>, idx: nat): seq<byte>
    requires forall vs <- rows :: idx < |vs|
  {
    if rows == [] then [] else PackQ(rows[0][idx]) + ColumnBytes(rows[1..], idx)
  }

  /** The parts an accepted table's encoding is made of. */
  lemma EncodeTableParts(colNames: seq<string>, lines: seq<string>)
    requires EncodeTableSpec(colNames, lines).Ok?
    ensures var e := EncodeTableSpec(colNames, lines).value;
      var entries := FirstLineEntries(lines);
      var nonInt := NonIntColumns(entries);
      var codes := Codes(e.dictionaries);
      && |entries| == |colNames|
      && FirstPass(lines, nonInt).Ok?
      && e.dictionaries == SortedDictionaries(FirstPass(lines, nonInt).value, nonInt)
      && HeaderCheck(|entries|, e.header.0) == None
      && e.header.1 == e.header.0 * 8
      && SecondPass(lines, |lines|, nonInt, codes, |entries|) == Ok((e.outLines, e.rows))
  {
  }

  /** A column file starts with the row count and the byte size as little-endian 64-bit words. */
  lemma ColumnFileHeader(colNames: seq<string>, lines: seq<string>, idx: nat)
    requires EncodeTableSpec(colNames, lines).Ok? && idx < |colNames|
    ensures var e := EncodeTableSpec(colNames, lines).value;
      forall vs <- e.rows :: idx < |vs|
    ensures var e := EncodeTableSpec(colNames, lines).value;
      var file := ColumnFile(e, idx);
      |file| >= 16 && FromLittleEndian(file[..8]) == e.header.0 && FromLittleEndian(file[8..16]) == e.header.1
  {
    var e := EncodeTableSpec(colNames, lines).value;
    EncodeTableParts(colNames, lines);
    var nonInt := NonIntColumns(FirstLineEntries(lines));
    var codes := Codes(e.dictionaries);
    SecondPassRectangular(lines, |lines|, nonInt, codes, |colNames|);
    HeaderBounded(|colNames|, e.header.0);
    PackQRoundTrip(e.header.0);
    PackQRoundTrip(e.header.1);
    var file := ColumnFile(e, idx);
    assert file[..8] == PackQ(e.header.0);
    assert file[8..16] == PackQ(e.header.1);
  }

  /** Once the header check passes for a table with columns, both header words fit "<Q". */
  lemma HeaderBounded(countCols: nat, countRows: nat)
    requires countCols > 0 && HeaderCheck(countCols, countRows) == None
    ensures countRows < U64_LIMIT && countRows * 8 < U64_LIMIT
  {
  }

  /** The lines of a dictionary file: the i-th holds the value with code i, each followed by a newline. */
  function DictFileLines(d: seq<string>): (r: seq<string>)
    ensures |r| == |d|
  {
    seq(|d|, i requires 0 <= i < |d| => d[i] + "\n")
  }

  /** A dictionary file read line by line gives back its lines, as long as no value holds a newline. */
  lemma {:induction false} DictFileReadBack(d: seq<string>)
    requires forall v <- d :: '\n' !in v
    ensures TextLines(Concat(DictFileLines(d))) == DictFileLines(d)
    decreases |d|
  {
    if d != [] {
      var ls := DictFileLines(d);
      assert ls[1..] == DictFileLines(d[1..]);
      DictFileReadBack(d[1..]);
      var text := Concat(ls);
      assert text == ls[0] + Concat(ls[1..]);
      assert text[..|d[0]| + 1] == ls[0];
      assert d[0] in d;
      FirstIndexOfCharAt(text, '\n', |d[0]|);
      assert text[|d[0]| + 1..] == Concat(ls[1..]);
    }
  }

  /** The query-side lookup finds each value of a dictionary file at its code. */
  lemma {:induction false} DictFileLookup(d: seq<string>, v: string, i: nat)
    requires v in d && i <= IndexOf(d, v)
    ensures QDict.FindValFrom(DictFileLines(d), v, i) == Ok(IndexOf(d, v))
    decreases IndexOf(d, v) - i
  {
    var ls := DictFileLines(d);
    var k := IndexOf(d, v);
    StripNewlineAppended(d[i]);
    assert ls[i] == d[i] + "\n";
    if i < k {
      assert d[..k][i] == d[i];
      assert d[i] != v;
      DictFileLookup(d, v, i + 1);
    }
  }

  lemma StripNewlineAppended(x: string)
    ensures x + "\n" != [] && QDict.StripNewline(x + "\n") == x
  {
    assert (x + "\n")[..|x|] == x;
  }


  /**
   * One line's round trip: the coded fields become the codes the query side
   * finds for them in the dictionary files, the others are copied.
   */
  lemma LineRoundTrip(line: string, nonInt: seq<nat>, dicts: map<nat, seq<string>>, countCols: nat, out: string, vs: seq<nat>)
    requires Increasing(nonInt) && (forall k: nat :: k in dicts <==> k in nonInt) && (forall k <- nonInt :: k < countCols)
    requires EncodeLine(line, nonInt, Codes(dicts), countCols) == Ok((out, vs))
    ensures var raw := Split(line, COLSEP);
      var o := Split(out, COLSEP);
      && |o| == |raw|
      && (forall k :: 0 <= k < |raw| && k !in dicts ==> o[k] == raw[k])
      && (forall idx <- dicts ::
            && idx < |raw| && idx < |vs| && raw[idx] in dicts[idx]
            && vs[idx] == IndexOf(dicts[idx], raw[idx]) && o[idx] == NatToString(vs[idx])
            && QDict.FindValIn(DictFileLines(dicts[idx]), raw[idx]) == Ok(vs[idx]))
  {
    var codes := Codes(dicts);
    var raw := Split(line, COLSEP);
    ReplaceCodedSpec(raw, nonInt, codes);
    var f := ReplaceCoded(raw, nonInt, codes).value;
    CodesSeparatorFree(dicts);
    EncodedLineFields(line, nonInt, codes, countCols);
    RowValuesAt(f, countCols);
    forall idx <- dicts
      ensures idx < |raw| && raw[idx] in dicts[idx]
      ensures vs[idx] == IndexOf(dicts[idx], raw[idx])
      ensures QDict.FindValIn(DictFileLines(dicts[idx]), raw[idx]) == Ok(vs[idx])
    {
      var d := dicts[idx];
      assert idx in nonInt;
      var k := IndexOf(d, raw[idx]);
      assert f[idx] == NatToString(k);
      PyIntNatToString(k);
      assert FieldValue(f, idx) == Ok(k);
      DictFileLookup(d, raw[idx], 0);
    }
  }

  /**
   * The round trip of the encoding: every coded field of every row becomes
   * the code that the query side finds for the original value in that
   * column's dictionary file, and every other field is copied unchanged into
   * the rewritten line.
   */
  lemma EncodingRoundTrip(colNames: seq<string>, lines: seq<string>, i: nat)
    requires EncodeTableSpec(colNames, lines).Ok? && i < |lines|
    ensures var e := EncodeTableSpec(colNames, lines).value;
      var raw := Split(lines[i], COLSEP);
      && i < |e.outLines| && i < |e.rows|
      && var out := Split(e.outLines[i], COLSEP);
      && |out| == |raw|
      && (forall k :: 0 <= k < |raw| && k !in e.dictionaries ==> out[k] == raw[k])
      && (forall idx <- e.dictionaries ::
            && idx < |raw| && idx < |e.rows[i]| && raw[idx] in e.dictionaries[idx]
            && out[idx] == NatToString(e.rows[i][idx])
            && QDict.FindValIn(DictFileLines(e.dictionaries[idx]), raw[idx]) == Ok(e.rows[i][idx]))
  {
    var e := EncodeTableSpec(colNames, lines).value;
    EncodeTableParts(colNames, lines);
    var entries := FirstLineEntries(lines);
    var nonInt := NonIntColumns(entries);
    CodedColumns(colNames, lines);
    SecondPassRow(lines, |lines|, nonInt, Codes(e.dictionaries), |entries|, i, e.outLines, e.rows);
    LineRoundTrip(lines[i], nonInt, e.dictionaries, |entries|, e.outLines[i], e.rows[i]);
  }

  /** The key under which the stats file records the row count, spelled as the program spells it. */
  const CARDINALITY_KEY: string := "_candinality"

  /** The column entries of the stats file for the first n columns; a later column of the same name replaces an earlier one. */
  function StatsFrom(colNames: seq<string>, maxVals: seq<nat>, n: nat): map<string, nat>
    requires n <= |colNames| && n <= |maxVals|
  {
    if n == 0 then map[] else StatsFrom(colNames, maxVals, n - 1)[colNames[n - 1] := maxVals[n - 1]]
  }

  /** The contents of the stats file: each column name with its largest value, and the row count. */
  function Stats(colNames: seq<string>, e: Encoded): map<string, nat>
    requires |e.maxVals| == |colNames|
  {
    StatsFrom(colNames, e.maxVals, |colNames|)[CARDINALITY_KEY := e.cardinality]
  }

  /** A column's entry holds the value of the last column of that name. */
  lemma {:induction false} StatsFromSpec(colNames: seq<string>, maxVals: seq<nat>, n: nat, k: nat)
    requires k < n <= |colNames| && n <= |maxVals|
    requires forall j :: k < j < n ==> colNames[j] != colNames[k]
    ensures colNames[k] in StatsFrom(colNames, maxVals, n)
    ensures StatsFrom(colNames, maxVals, n)[colNames[k]] == maxVals[k]
    decreases n
  {
    if k < n - 1 {
      StatsFromSpec(colNames, maxVals, n - 1, k);
    }
  }

  /** The stats file has exactly the column names and the cardinality key. */
  lemma {:induction false} StatsFromKeys(colNames: seq<string>, maxVals: seq<nat>, n: nat)
    requires n <= |colNames| && n <= |maxVals|
    ensures StatsFrom(colNames, maxVals, n).Keys == set j | 0 <= j < n :: colNames[j]
    decreases n
  {
    if n > 0 {
      StatsFromKeys(colNames, maxVals, n - 1);
    }
  }

  /**
   * The stats file of an accepted table: the cardinality is the number of
   * rows, and every column name that is not the cardinality key and is not
   * repeated later in the schema maps to the largest value of its column.
   */
  lemma StatsOfTable(colNames: seq<string>, lines: seq<string>, k: nat)
    requires EncodeTableSpec(colNames, lines).Ok? && k < |colNames|
    requires colNames[k] != CARDINALITY_KEY && forall j :: k < j < |colNames| ==> colNames[j] != colNames[k]
    ensures var e := EncodeTableSpec(colNames, lines).value;
      && |e.maxVals| == |colNames|
      && Stats(colNames, e).Keys == (set c <- colNames) + {CARDINALITY_KEY}
      && Stats(colNames, e)[CARDINALITY_KEY] == |lines|
      && (forall vs <- e.rows :: k < |vs|)
      && Stats(colNames, e)[colNames[k]] == MaxCol(e.rows, k)
  {
    var e := EncodeTableSpec(colNames, lines).value;
    EncodeTableParts(colNames, lines);
    var nonInt := NonIntColumns(FirstLineEntries(lines));
    SecondPassRectangular(lines, |lines|, nonInt, Codes(e.dictionaries), |colNames|);
    StatsFromSpec(colNames, e.maxVals, |colNames|, k);
    StatsFromKeys(colNames, e.maxVals, |colNames|);
    assert (set j | 0 <= j < |colNames| :: colNames[j]) == (set c <- colNames);
  }
}
