/**
 * The converter from the monitoring CSV files of MorphStore's benchmark
 * runs to the JSON the web interface reads.
 *
 * A file is read through a `csv.DictReader` with tab-separated fields and a
 * fixed list of field names: a row's k-th field is the value of the k-th
 * name, a name past the end of a short row gets None, and lines without any
 * field are skipped. The first four rows are skipped, and a row whose first
 * field is "[RES]" ends the conversion. Operator files give the runtime of
 * every operator, data files the characteristics of every column.
 */
module Csv2Json {
  import opened Wrappers
  import opened Strings

  /** The fields of one CSV line; a line without any field is []. */
  type Row = seq<string>

  datatype ConvertError =
    | StopIteration        // fewer than four rows to skip
    | TypeError            // `int(None)` or `None[0]`: a field past the end of a short row
    | ValueError(s: string) // `int` of a field that is no integer
    | IndexError           // an empty column name, or a format number outside the list

  /** A row `csv.DictReader` yields: one with at least a first field. */
  type Record = row: Row | row != [] witness [""]

  /** The rows `csv.DictReader` yields: the lines that have at least one field. */
  function Records(rows: seq<Row>): seq<Record>
  {
    if rows == [] then []
    else if rows[0] == [] then Records(rows[1..])
    else var row: Record := rows[0]; [row] + Records(rows[1..])
  }

  /** The value of the k-th named field: None when the row is shorter, DictReader's `restval`. */
  function Field(row: Row, k: nat): Option<string>
  {
    if k < |row| then Some(row[k]) else None
  }

  /** `int(row[name])`: `int(None)` is a TypeError, a field that is no integer a ValueError. */
  function IntOf(f: Option<string>): (r: Result<int, ConvertError>)
    ensures r.Ok? <==> f.Some? && PyInt(f.value).Some?
    ensures r.Ok? ==> r.value == PyInt(f.value).value
  {
    match f
    case None => Err(TypeError)
    case Some(s) =>
      match PyInt(s)
      case None => Err(ValueError(s))
      case Some(v) => Ok(v)
  }

  /** The position of the first "[RES]" row, where both converters stop, or the number of rows. */
  function Stop(recs: seq<Record>): (k: nat)
    ensures k <= |recs|
  {
    if recs == [] || recs[0][0] == "[RES]" then 0 else 1 + Stop(recs[1..])
  }

  /** No row before the stop is "[RES]", and the row at the stop, if any, is. */
  lemma {:induction false} StopSpec(recs: seq<Record>)
    ensures forall j :: 0 <= j < Stop(recs) ==> recs[j][0] != "[RES]"
    ensures Stop(recs) < |recs| ==> recs[Stop(recs)][0] == "[RES]"
    decreases |recs|
  {
    if recs != [] && recs[0][0] != "[RES]" {
      StopSpec(recs[1..]);
    }
  }

  // ---------------------------------------------------------------------------
  // The reader
  // ---------------------------------------------------------------------------

  /** A `csv.DictReader` over the lines of a file, and how far it has read. */
  class RowReader {
    const rows: seq<Row>
    var pos: nat

    ghost predicate Valid()
      reads this
    {
      pos <= |rows|
    }

    /** The rows still to come. */
    function Remaining(): seq<Record>
      reads this
      requires Valid()
    {
      Records(rows[pos..])
    }

    constructor (lines: seq<Row>)
      ensures Valid() && rows == lines && pos == 0
      ensures Remaining() == Records(lines)
    {
      rows := lines;
      pos := 0;
    }

    /** `next(reader)`: the next row with a field, or None where Python raises StopIteration. */
    method Next() returns (r: Option<Record>)
      requires Valid()
      modifies this
      ensures Valid()
      ensures r.None? ==> old(Remaining()) == [] && pos == |rows|
      ensures r.Some? ==> old(Remaining()) == [r.value] + Remaining() && old(pos) < pos
    {
      while pos < |rows| && rows[pos] == []
        invariant pos <= |rows|
        invariant Records(rows[pos..]) == old(Remaining())
      {
        assert Records(rows[pos..]) == Records(rows[pos + 1..]) by {
          assert rows[pos..][1..] == rows[pos + 1..];
        }
        pos := pos + 1;
      }
      if pos == |rows| {
        return None;
      }
      var row: Record := rows[pos];
      r := Some(row);
      assert rows[pos..][1..] == rows[pos + 1..];
      pos := pos + 1;
    }
  }

  /** `for i in range(4): next(reader)`: false where the reader runs out first. */
  method SkipHeader(reader: RowReader) returns (ok: bool)
    requires reader.Valid()
    modifies reader
    ensures reader.Valid()
    ensures ok <==> |old(reader.Remaining())| >= 4
    ensures ok ==> reader.Remaining() == old(reader.Remaining())[4..]
  {
    for i := 0 to 4
      invariant reader.Valid()
      invariant |old(reader.Remaining())| >= i && reader.Remaining() == old(reader.Remaining())[i..]
    {
      var r := reader.Next();
      if r.None? {
        return false;
      }
    }
    return true;
  }

  // ---------------------------------------------------------------------------
  // Operator files
  // ---------------------------------------------------------------------------

  // The fields of an operator row.
  const OPNAME: nat := 0
  const RUNTIME: nat := 2

  /** The names the web interface uses for some operators. */
  const OP_NAME_MAP: map<string, string> := map["my_project_wit_t" := "project", "group_vec" := "group", "join" := "equi_join"]

  function MappedName(opName: string): string
  {
    if opName in OP_NAME_MAP then OP_NAME_MAP[opName] else opName
  }

  /** The key of an operator: its (mapped) name and its position among the operators. */
  function OpKey(opName: string, opIdx: nat): string
  {
    MappedName(opName) + "_" + NatToString(opIdx)
  }

  /** An operator row gets an index, a "query" row its own key, "morph" and "[RES]" rows neither. */
  predicate Counted(row: Record)
  {
    row[OPNAME] != "[RES]" && row[OPNAME] != "morph" && row[OPNAME] != "query"
  }

  /** The operator entries for the rows after the header, the next index being opIdx. */
  function OpsFrom(recs: seq<Record>, opIdx: nat, res: map<string, int>): Result<map<string, int>, ConvertError>
    decreases |recs|
  {
    if recs == [] then Ok(res)
    else
      var row := recs[0];
      var opName := row[OPNAME];
      if opName == "[RES]" then Ok(res)
      else if opName == "morph" then OpsFrom(recs[1..], opIdx, res)
      else
        var key := if opName == "query" then opName else OpKey(opName, opIdx);
        var next := if opName == "query" then opIdx else opIdx + 1;
        match IntOf(Field(row, RUNTIME))
        case Err(e) => Err(e)
        case Ok(runtime) => OpsFrom(recs[1..], next, res[key := runtime])
  }

  /** `convertOperatorFile`: the runtime of every operator and of the whole query. */
  function ConvertOperators(recs: seq<Record>): Result<map<string, int>, ConvertError>
  {
    if |recs| < 4 then Err(StopIteration) else OpsFrom(recs[4..], 0, map[])
  }

  /** The body of the loop of `convertOperatorFile` for one row that is neither "[RES]" nor "morph". */
  method OpStep(row: Record, opIdx: nat, res: map<string, int>) returns (r: Result<(nat, map<string, int>), ConvertError>)
    requires row[OPNAME] != "[RES]" && row[OPNAME] != "morph"
    ensures OpsFrom([row], opIdx, res) == (if r.Ok? then Ok(r.value.1) else Err(r.error))
    ensures r.Ok? ==> r.value.0 == if row[OPNAME] == "query" then opIdx else opIdx + 1
  {
    var opName := row[OPNAME];
    var key, next := opName, opIdx;
    if opName != "query" {
      key := OpKey(opName, opIdx);
      next := opIdx + 1;
    }
    var runtime := IntOf(Field(row, RUNTIME));
    if runtime.Err? {
      return Err(runtime.error);
    }
    r := Ok((next, res[key := runtime.value]));
    assert [row][1..] == [];
  }

  /** One row of the loop: the rest of the conversion from this row on is the rest after it. */
  lemma OpsFromStep(recs: seq<Record>, opIdx: nat, res: map<string, int>, next: nat, res': map<string, int>)
    requires recs != [] && recs[0][OPNAME] != "[RES]" && recs[0][OPNAME] != "morph"
    requires OpsFrom([recs[0]], opIdx, res) == Ok(res')
    requires next == if recs[0][OPNAME] == "query" then opIdx else opIdx + 1
    ensures OpsFrom(recs, opIdx, res) == OpsFrom(recs[1..], next, res')
  {
  }

  /** `convertOperatorFile`, reading the rows from the reader. */
  method ConvertOperatorFile(reader: RowReader) returns (r: Result<map<string, int>, ConvertError>)
    requires reader.Valid()
    modifies reader
    ensures r == ConvertOperators(old(reader.Remaining()))
  {
    var ok := SkipHeader(reader);
    if !ok {
      return Err(StopIteration);
    }
    var res: map<string, int> := map[];
    var opIdx := 0;
    while true
      invariant reader.Valid()
      invariant OpsFrom(reader.Remaining(), opIdx, res) == ConvertOperators(old(reader.Remaining()))
      decreases |reader.rows| - reader.pos
    {
      ghost var before := reader.Remaining();
      var row := reader.Next();
      if row.None? {
        break;
      }
      var opName := row.value[OPNAME];
      if opName == "[RES]" {
        break;
      }
      if opName == "morph" {
        continue;
      }
      var step := OpStep(row.value, opIdx, res);
      if step.Err? {
        return Err(step.error);
      }
      OpsFromStep(before, opIdx, res, step.value.0, step.value.1);
      opIdx, res := step.value.0, step.value.1;
    }
    r := Ok(res);
  }

  /** The number of operator rows among the first k rows. */
  function CountedBefore(recs: seq<Record>, k: nat): nat
    requires k <= |recs|
  {
    if k == 0 then 0 else CountedBefore(recs, k - 1) + (if Counted(recs[k - 1]) then 1 else 0)
  }

  /** In a name followed by "_" and digits, that "_" is the last one and the digits end the string. */
  lemma LastUnderscore(x: string, digits: string)
    requires |digits| > 0 && AllDigits(digits)
    ensures var w := x + "_" + digits;
      && w[|x|] == '_' && w[|x| + 1..] == digits && IsDigit(w[|w| - 1])
      && forall k :: |x| < k < |w| ==> w[k] != '_'
  {
    var w := x + "_" + digits;
    assert w[|x| + 1..] == digits;
    forall k | |x| < k < |w| ensures w[k] != '_' {
      assert w[k] == digits[k - |x| - 1];
    }
  }

  /** Two operator keys are the same only for the same index, and none of them is "query". */
  lemma OpKeyDistinct(a: string, i: nat, b: string, j: nat)
    ensures OpKey(a, i) == OpKey(b, j) ==> i == j
    ensures OpKey(a, i) != "query"
  {
    LastUnderscore(MappedName(a), NatToString(i));
    LastUnderscore(MappedName(b), NatToString(j));
    NatToStringOneToOne(i, j);
  }

  lemma NatToStringOneToOne(a: nat, b: nat)
    ensures NatToString(a) == NatToString(b) ==> a == b
  {
    ParseNatToString(a);
    ParseNatToString(b);
  }

  /** Rows added later have other keys than an operator key with a smaller index. */
  lemma {:induction false} OpsFromKeeps(recs: seq<Record>, opIdx: nat, res: map<string, int>, key: string, name: string, idx: nat)
    requires idx < opIdx && key == OpKey(name, idx)
    requires OpsFrom(recs, opIdx, res).Ok?
    ensures key in res ==> key in OpsFrom(recs, opIdx, res).value && OpsFrom(recs, opIdx, res).value[key] == res[key]
    decreases |recs|
  {
    if recs != [] && recs[0][OPNAME] != "[RES]" {
      var opName := recs[0][OPNAME];
      if opName == "morph" {
        OpsFromKeeps(recs[1..], opIdx, res, key, name, idx);
      } else {
        var added := if opName == "query" then opName else OpKey(opName, opIdx);
        var next := if opName == "query" then opIdx else opIdx + 1;
        OpKeyDistinct(name, idx, opName, opIdx);
        var runtime := IntOf(Field(recs[0], RUNTIME)).value;
        OpsFromKeeps(recs[1..], next, res[added := runtime], key, name, idx);
      }
    }
  }

  /**
   * Every operator row before "[RES]" keeps its runtime under the key made
   * of its mapped name and its index, the index counting only operator rows:
   * "morph" and "query" rows consume none, and no later row overwrites it.
   */
  lemma {:induction false} OpsRuntimeKept(recs: seq<Record>, opIdx: nat, res: map<string, int>, k: nat)
    requires k < Stop(recs) && Counted(recs[k])
    requires OpsFrom(recs, opIdx, res).Ok?
    ensures var key := OpKey(recs[k][OPNAME], opIdx + CountedBefore(recs, k));
      && IntOf(Field(recs[k], RUNTIME)).Ok?
      && key in OpsFrom(recs, opIdx, res).value
      && OpsFrom(recs, opIdx, res).value[key] == IntOf(Field(recs[k], RUNTIME)).value
    decreases |recs|
  {
    var opName := recs[0][OPNAME];
    var next := if opName == "query" || opName == "morph" then opIdx else opIdx + 1;
    var res' := if opName == "morph" then res
                else res[(if opName == "query" then opName else OpKey(opName, opIdx)) := IntOf(Field(recs[0], RUNTIME)).value];
    assert OpsFrom(recs, opIdx, res) == OpsFrom(recs[1..], next, res');
    if k == 0 {
      OpsFromKeeps(recs[1..], next, res', OpKey(opName, opIdx), opName, opIdx);
    } else {
      OpsRuntimeKept(recs[1..], next, res', k - 1);
      CountedBeforeTail(recs, k);
    }
  }

  lemma {:induction false} CountedBeforeTail(recs: seq<Record>, k: nat)
    requires 0 < k <= |recs|
    ensures CountedBefore(recs, k) == (if Counted(recs[0]) then 1 else 0) + CountedBefore(recs[1..], k - 1)
    decreases k
  {
    if k > 1 {
      CountedBeforeTail(recs, k - 1);
    }
  }

  /** The "query" entry holds the runtime of the last "query" row before "[RES]". */
  lemma {:induction false} OpsQueryRuntime(recs: seq<Record>, opIdx: nat, res: map<string, int>, k: nat)
    requires k < Stop(recs) && recs[k][OPNAME] == "query"
    requires forall j :: k < j < Stop(recs) ==> recs[j][OPNAME] != "query"
    requires OpsFrom(recs, opIdx, res).Ok?
    ensures IntOf(Field(recs[k], RUNTIME)).Ok?
    ensures "query" in OpsFrom(recs, opIdx, res).value
    ensures OpsFrom(recs, opIdx, res).value["query"] == IntOf(Field(recs[k], RUNTIME)).value
    decreases |recs|
  {
    var opName := recs[0][OPNAME];
    var next := if opName == "query" || opName == "morph" then opIdx else opIdx + 1;
    var res' := if opName == "morph" then res
                else res[(if opName == "query" then opName else OpKey(opName, opIdx)) := IntOf(Field(recs[0], RUNTIME)).value];
    assert OpsFrom(recs, opIdx, res) == OpsFrom(recs[1..], next, res');
    if k == 0 {
      QueryKept(recs[1..], next, res');
    } else {
      OpsQueryRuntime(recs[1..], next, res', k - 1);
    }
  }

  /** Without another "query" row before "[RES]", the "query" entry stays as it is. */
  lemma {:induction false} QueryKept(recs: seq<Record>, opIdx: nat, res: map<string, int>)
    requires forall j :: 0 <= j < Stop(recs) ==> recs[j][OPNAME] != "query"
    requires OpsFrom(recs, opIdx, res).Ok? && "query" in res
    ensures "query" in OpsFrom(recs, opIdx, res).value && OpsFrom(recs, opIdx, res).value["query"] == res["query"]
    decreases |recs|
  {
    if recs != [] && recs[0][OPNAME] != "[RES]" {
      var opName := recs[0][OPNAME];
      assert Stop(recs) == 1 + Stop(recs[1..]);
      assert forall j :: 0 <= j < Stop(recs[1..]) ==> recs[1..][j] == recs[j + 1];
      if opName == "morph" {
        QueryKept(recs[1..], opIdx, res);
      } else {
        OpKeyDistinct(opName, opIdx, opName, opIdx);
        QueryKept(recs[1..], opIdx + 1, res[OpKey(opName, opIdx) := IntOf(Field(recs[0], RUNTIME)).value]);
      }
    }
  }

  /**
   * The conversion fails with StopIteration exactly when there are fewer
   * than four rows to skip; after them only TypeError and ValueError of the
   * runtime field can occur. The rows after "[RES]" are never looked at.
   */
  lemma {:induction false} OpsErrors(recs: seq<Record>, opIdx: nat, res: map<string, int>)
    ensures var r := OpsFrom(recs, opIdx, res);
      r.Err? ==> r.error.TypeError? || r.error.ValueError?
    ensures OpsFrom(recs, opIdx, res) == OpsFrom(recs[..Stop(recs)], opIdx, res)
    decreases |recs|
  {
    if recs != [] && recs[0][OPNAME] != "[RES]" {
      var opName := recs[0][OPNAME];
      var next := if opName == "query" || opName == "morph" then opIdx else opIdx + 1;
      var runtime := IntOf(Field(recs[0], RUNTIME));
      assert recs[..Stop(recs)][1..] == recs[1..][..Stop(recs[1..])];
      if opName == "morph" {
        OpsErrors(recs[1..], opIdx, res);
      } else if runtime.Ok? {
        OpsErrors(recs[1..], next, res[(if opName == "query" then opName else OpKey(opName, opIdx)) := runtime.value]);
      }
    }
  }

  /** A file with fewer than four rows is a StopIteration; the four rows skipped do not matter. */
  lemma ConvertOperatorsHeader(recs: seq<Record>, other: seq<Record>)
    requires |recs| >= 4 && |other| >= 4 && recs[4..] == other[4..]
    ensures ConvertOperators(recs) == ConvertOperators(other)
    ensures forall short: seq<Record> :: |short| < 4 ==> ConvertOperators(short) == Err(StopIteration)
    ensures ConvertOperators(recs) != Err(StopIteration)
  {
    OpsErrors(recs[4..], 0, map[]);
  }

  // ---------------------------------------------------------------------------
  // Data characteristics files
  // ---------------------------------------------------------------------------

  // The fields of a data row: opName, opIdx, colRole, colName, bwHist_1 .. bwHist_64,
  // valueCount, isResult, UsedBytes, Sorted, Unique, format.
  const COLNAME: nat := 3
  const VALUECOUNT: nat := 68
  const PHYSIZE: nat := 70
  const SORT: nat := 71
  const UNI: nat := 72
  const FORM: nat := 73

  /** The field of `bwHist_bw`, for bw in 1 .. 64. */
  function BwHistField(bw: nat): nat { COLNAME + bw }

  const FORMATS: seq<string> := ["uncompr", "static_vbp", "dynamic_vbp", "rle", "other"]

  /** The JSON object of a column. */
  datatype DataEntry = DataEntry(valueCount: int, sizeUsedByte: int, formatName: string,
                                 sorted: bool, unique: bool, bwHist: seq<int>)

  /** `formats[i]` with Python's indexing: -5 .. -1 count from the end, anything else outside 0 .. 4 is an IndexError. */
  function PyIndex(xs: seq<string>, i: int): (r: Result<string, ConvertError>)
    ensures r.Ok? <==> -|xs| <= i < |xs|
    ensures 0 <= i < |xs| ==> r == Ok(xs[i])
    ensures -|xs| <= i < 0 ==> r == Ok(xs[|xs| + i])
  {
    if 0 <= i < |xs| then Ok(xs[i])
    else if -|xs| <= i < 0 then Ok(xs[|xs| + i])
    else Err(IndexError)
  }

  /** The format name: "uncompr" for a missing field, else the named format of its number. */
  function FormatName(f: Option<string>): Result<string, ConvertError>
  {
    match f
    case None => Ok("uncompr")
    case Some(_) =>
      match IntOf(f)
      case Err(e) => Err(e)
      case Ok(i) => PyIndex(FORMATS, i)
  }

  /** What a field value is to Python's `==`: a string, None, or (on the other side) an int. */
  datatype PyValue = PyStr(s: string) | PyNone | PyIntValue(i: int)

  function ValueOf(f: Option<string>): PyValue
  {
    match f
    case None => PyNone
    case Some(s) => PyStr(s)
  }

  /** `True if row[name] == 1 else False`: a field value, string or None, compared with the int 1. */
  function IsOne(f: Option<string>): bool
  {
    ValueOf(f) == PyIntValue(1)
  }

  /** The sorted and unique flags are never set: no field value equals the int 1. */
  lemma FlagsNeverSet(row: Row)
    ensures !IsOne(Field(row, SORT)) && !IsOne(Field(row, UNI))
  {
  }

  /** The bit width histogram `bwHist_1` .. `bwHist_n` of a row, read in order, or the error of the first bad count. */
  function BwHist(row: Row, n: nat): (r: Result<seq<int>, ConvertError>)
    ensures r.Ok? ==> |r.value| == n
    decreases n
  {
    if n == 0 then Ok([])
    else
      match BwHist(row, n - 1)
      case Err(e) => Err(e)
      case Ok(h) =>
        match IntOf(Field(row, BwHistField(n)))
        case Err(e) => Err(e)
        case Ok(v) => Ok(h + [v])
  }

  /** The histogram succeeds exactly when each of its counts is an integer, and then holds them in order. */
  lemma {:induction false} BwHistSpec(row: Row, n: nat)
    ensures BwHist(row, n).Ok? <==> forall bw :: 1 <= bw <= n ==> IntOf(Field(row, BwHistField(bw))).Ok?
    ensures BwHist(row, n).Ok? ==> forall bw :: 1 <= bw <= n ==> BwHist(row, n).value[bw - 1] == IntOf(Field(row, BwHistField(bw))).value
    decreases n
  {
    if n > 0 {
      BwHistSpec(row, n - 1);
    }
  }

  /** The first bad count decides the error. */
  lemma {:induction false} BwHistErrorStays(row: Row, n: nat, m: nat, e: ConvertError)
    requires n <= m && BwHist(row, n) == Err(e)
    ensures BwHist(row, m) == Err(e)
    decreases m - n
  {
    if n < m {
      BwHistErrorStays(row, n, m - 1, e);
    }
  }

  /** The loop over bw in 1 .. 64 that copies the histogram counts. */
  method BwHistLoop(row: Row) returns (r: Result<seq<int>, ConvertError>)
    ensures r == BwHist(row, 64)
  {
    var h: seq<int> := [];
    for bw := 1 to 65
      invariant BwHist(row, bw - 1) == Ok(h)
    {
      var v := IntOf(Field(row, BwHistField(bw)));
      if v.Err? {
        BwHistErrorStays(row, bw, 64, v.error);
        return Err(v.error);
      }
      h := h + [v.value];
    }
    r := Ok(h);
  }

  /** The JSON object of a row: its counts, in the order Python evaluates them, and the two flags. */
  function EntryOf(row: Row): (r: Result<DataEntry, ConvertError>)
    ensures r.Ok? ==> VALUECOUNT < |row|
  {
    match IntOf(Field(row, VALUECOUNT))
    case Err(e) => Err(e)
    case Ok(valueCount) =>
      match IntOf(Field(row, PHYSIZE))
      case Err(e) => Err(e)
      case Ok(size) =>
        match FormatName(Field(row, FORM))
        case Err(e) => Err(e)
        case Ok(formatName) =>
          match BwHist(row, 64)
          case Err(e) => Err(e)
          case Ok(h) => Ok(DataEntry(valueCount, size, formatName, IsOne(Field(row, SORT)), IsOne(Field(row, UNI)), h))
  }

  /**
   * The key of a "morph" row: None when the row is skipped (its column name
   * starts with "X" or "C", or has no "__"), else the text before the first
   * "__" with its first "_" turned into ".".
   */
  function MorphKey(colName: Option<string>): Result<Option<string>, ConvertError>
  {
    match colName
    case None => Err(TypeError)
    case Some(c) =>
      if c == [] then Err(IndexError)
      else if c[0] != 'X' && c[0] != 'C' && Find(c, "__").Some? then
        Ok(Some(ReplaceFirstChar(c[..Find(c, "__").value], '_', '.')))
      else Ok(None)
  }

  /** What one row before "[RES]" adds: a key and its object, nothing, or an error. */
  function RowOutcome(row: Record): Result<Option<(string, DataEntry)>, ConvertError>
  {
    if row[OPNAME] == "morph" then
      match MorphKey(Field(row, COLNAME))
      case Err(e) => Err(e)
      case Ok(None) => Ok(None)
      case Ok(Some(key)) =>
        match EntryOf(row)
        case Err(e) => Err(e)
        case Ok(entry) => Ok(Some((key, entry)))
    else
      match EntryOf(row)
      case Err(e) => Err(e)
      case Ok(entry) => Ok(Some((row[COLNAME], entry)))
  }

  /** The column objects for the rows after the header. */
  function DataFrom(recs: seq<Record>, res: map<string, DataEntry>): Result<map<string, DataEntry>, ConvertError>
    decreases |recs|
  {
    if recs == [] || recs[0][OPNAME] == "[RES]" then Ok(res)
    else
      match RowOutcome(recs[0])
      case Err(e) => Err(e)
      case Ok(None) => DataFrom(recs[1..], res)
      case Ok(Some((key, entry))) => DataFrom(recs[1..], res[key := entry])
  }

  /** `convertDataChFile`: the characteristics of every column. */
  function ConvertData(recs: seq<Record>): Result<map<string, DataEntry>, ConvertError>
  {
    if |recs| < 4 then Err(StopIteration) else DataFrom(recs[4..], map[])
  }

  /** The body of the loop of `convertDataChFile` for a row before "[RES]". */
  method DataStep(row: Record, res: map<string, DataEntry>) returns (r: Result<map<string, DataEntry>, ConvertError>)
    requires row[OPNAME] != "[RES]"
    ensures r == DataFrom([row], res)
  {
    var opName := row[OPNAME];
    var colName := Field(row, COLNAME);
    var key := "";
    if opName == "morph" {
      var k := MorphKey(colName);
      if k.Err? {
        return Err(k.error);
      }
      if k.value.None? {
        return Ok(res);
      }
      key := k.value.value;
    }
    var valueCount := IntOf(Field(row, VALUECOUNT));
    if valueCount.Err? {
      return Err(valueCount.error);
    }
    if opName != "morph" {
      key := row[COLNAME];
    }
    var size := IntOf(Field(row, PHYSIZE));
    if size.Err? {
      return Err(size.error);
    }
    var formatName := FormatName(Field(row, FORM));
    if formatName.Err? {
      return Err(formatName.error);
    }
    var h := BwHistLoop(row);
    if h.Err? {
      return Err(h.error);
    }
    var entry := DataEntry(valueCount.value, size.value, formatName.value, IsOne(Field(row, SORT)), IsOne(Field(row, UNI)), h.value);
    r := Ok(res[key := entry]);
    assert [row][1..] == [];
  }

  lemma DataFromStep(recs: seq<Record>, res: map<string, DataEntry>)
    requires recs != [] && recs[0][OPNAME] != "[RES]"
    ensures DataFrom([recs[0]], res).Err? ==> DataFrom(recs, res) == DataFrom([recs[0]], res)
    ensures DataFrom([recs[0]], res).Ok? ==> DataFrom(recs, res) == DataFrom(recs[1..], DataFrom([recs[0]], res).value)
  {
    assert [recs[0]][1..] == [];
  }

  /** `convertDataChFile`, reading the rows from the reader. */
  method ConvertDataChFile(reader: RowReader) returns (r: Result<map<string, DataEntry>, ConvertError>)
    requires reader.Valid()
    modifies reader
    ensures r == ConvertData(old(reader.Remaining()))
  {
    var ok := SkipHeader(reader);
    if !ok {
      return Err(StopIteration);
    }
    var res: map<string, DataEntry> := map[];
    while true
      invariant reader.Valid()
      invariant DataFrom(reader.Remaining(), res) == ConvertData(old(reader.Remaining()))
      decreases |reader.rows| - reader.pos
    {
      ghost var before := reader.Remaining();
      var row := reader.Next();
      if row.None? {
        break;
      }
      if row.value[OPNAME] == "[RES]" {
        break;
      }
      var step := DataStep(row.value, res);
      DataFromStep(before, res);
      if step.Err? {
        return step;
      }
      res := step.value;
    }
    r := Ok(res);
  }

  /** The objects after one more row that is not "[RES]" and converts. */
  function AddOutcome(res: map<string, DataEntry>, o: Option<(string, DataEntry)>): map<string, DataEntry>
  {
    match o
    case None => res
    case Some((key, entry)) => res[key := entry]
  }

  /** The objects after a run of converted rows, each overwriting the key it adds. */
  function FoldAdds(res: map<string, DataEntry>, adds: seq<Option<(string, DataEntry)>>): map<string, DataEntry>
    decreases |adds|
  {
    if adds == [] then res else FoldAdds(AddOutcome(res, adds[0]), adds[1..])
  }

  /** What the rows before "[RES]" add, up to the first row that does not convert. */
  function AddsOf(recs: seq<Record>): (r: seq<Option<(string, DataEntry)>>)
    ensures |r| <= |recs|
    decreases |recs|
  {
    if recs == [] || recs[0][OPNAME] == "[RES]" then []
    else
      match RowOutcome(recs[0])
      case Err(_) => []
      case Ok(o) => [o] + AddsOf(recs[1..])
  }

  /** A successful conversion is the fold of what every row before "[RES]" adds. */
  lemma {:induction false} DataFromFold(recs: seq<Record>, res: map<string, DataEntry>)
    requires DataFrom(recs, res).Ok?
    ensures |AddsOf(recs)| == Stop(recs)
    ensures DataFrom(recs, res).value == FoldAdds(res, AddsOf(recs))
    decreases |recs|
  {
    if recs != [] && recs[0][OPNAME] != "[RES]" {
      var o := RowOutcome(recs[0]);
      assert o.Ok?;
      DataFromFold(recs[1..], AddOutcome(res, o.value));
    }
  }

  /** The k-th entry of the fold is what the k-th row adds. */
  lemma {:induction false} AddsOfAt(recs: seq<Record>, k: nat)
    requires k < |AddsOf(recs)|
    ensures RowOutcome(recs[k]) == Ok(AddsOf(recs)[k])
    decreases k
  {
    var o := RowOutcome(recs[0]);
    assert o.Ok? && AddsOf(recs) == [o.value] + AddsOf(recs[1..]);
    if k > 0 {
      AddsOfAt(recs[1..], k - 1);
      assert recs[1..][k - 1] == recs[k];
    }
  }

  /** In a fold, the last addition of a key decides its object. */
  lemma {:induction false} FoldLastWins(res: map<string, DataEntry>, adds: seq<Option<(string, DataEntry)>>, k: nat, key: string, entry: DataEntry)
    requires k < |adds| && adds[k] == Some((key, entry))
    requires forall j :: k < j < |adds| ==> adds[j].None? || adds[j].value.0 != key
    ensures key in FoldAdds(res, adds) && FoldAdds(res, adds)[key] == entry
    decreases |adds|
  {
    if k == 0 {
      FoldKeeps(res[key := entry], adds[1..], key);
    } else {
      FoldLastWins(AddOutcome(res, adds[0]), adds[1..], k - 1, key, entry);
    }
  }

  lemma {:induction false} FoldKeeps(res: map<string, DataEntry>, adds: seq<Option<(string, DataEntry)>>, key: string)
    requires key in res && forall j :: 0 <= j < |adds| ==> adds[j].None? || adds[j].value.0 != key
    ensures key in FoldAdds(res, adds) && FoldAdds(res, adds)[key] == res[key]
    decreases |adds|
  {
    if adds != [] {
      FoldKeeps(AddOutcome(res, adds[0]), adds[1..], key);
    }
  }

  /** The row adds an object under `key`. */
  predicate Adds(row: Record, key: string)
  {
    var o := RowOutcome(row);
    o.Ok? && o.value.Some? && o.value.value.0 == key
  }

  /**
   * Each kept row before "[RES]" has its object under its key unless a later
   * row before "[RES]" has the same key: the last row of a key wins.
   */
  lemma DataLastWins(recs: seq<Record>, res: map<string, DataEntry>, k: nat, key: string, entry: DataEntry)
    requires k < Stop(recs) && DataFrom(recs, res).Ok?
    requires RowOutcome(recs[k]) == Ok(Some((key, entry)))
    requires forall j :: k < j < Stop(recs) ==> !Adds(recs[j], key)
    ensures key in DataFrom(recs, res).value && DataFrom(recs, res).value[key] == entry
  {
    DataFromFold(recs, res);
    var adds := AddsOf(recs);
    AddsOfAt(recs, k);
    forall j | k < j < |adds| ensures adds[j].None? || adds[j].value.0 != key {
      AddsOfAt(recs, j);
    }
    FoldLastWins(res, adds, k, key, entry);
  }

  /** The format name is "uncompr" for a missing field and the list entry, counted from the end when negative, for a number in -5 .. 4. */
  lemma FormatNameSpec(f: Option<string>)
    ensures f.None? ==> FormatName(f) == Ok("uncompr")
    ensures f.Some? && IntOf(f).Ok? ==> var i := IntOf(f).value;
      && (FormatName(f).Ok? <==> -5 <= i < 5)
      && (FormatName(f).Ok? ==> FormatName(f).value == FORMATS[if i < 0 then i + 5 else i])
    ensures f.Some? && IntOf(f).Err? ==> FormatName(f) == Err(IntOf(f).error)
  {
  }

  /** A nonempty string with no "__" and no "_" at either end. */
  predicate SingleUnderscores(col: string)
  {
    && |col| > 0 && col[0] != '_' && col[|col| - 1] != '_'
    && forall i :: 0 <= i < |col| - 1 ==> !(col[i] == '_' && col[i + 1] == '_')
  }

  lemma FindAt(s: string, sub: string, p: nat)
    requires OccursAt(s, sub, p) && forall j :: 0 <= j < p ==> !OccursAt(s, sub, j)
    ensures Find(s, sub) == Some(p)
  {
    FindSpec(s, sub);
  }

  /**
   * The output column of a morph of a base column, named
   * table_column__suffix, is keyed table.column: the name of the base column.
   */
  lemma MorphKeyOfBaseColumn(table: string, col: string, suffix: string)
    requires |table| > 0 && table[0] != 'X' && table[0] != 'C' && '_' !in table
    requires SingleUnderscores(col)
    ensures MorphKey(Some(table + "_" + col + "__" + suffix)) == Ok(Some(table + "." + col))
  {
    var c := table + "_" + col + "__" + suffix;
    var p := |table| + 1 + |col|;
    forall j | 0 <= j < p ensures !OccursAt(c, "__", j) {
      if j < |table| {
        assert c[j] == table[j];
      } else if j == |table| {
        assert c[j + 1] == col[0];
      } else {
        assert c[j] == col[j - |table| - 1];
        if j + 1 < p {
          assert c[j + 1] == col[j - |table|];
        } else {
          assert c[j] == col[|col| - 1];
        }
      }
    }
    assert c[p..p + 2] == "__";
    FindAt(c, "__", p);
    var before := c[..p];
    assert before == table + "_" + col;
    assert before[..|table|] == table;
    FirstIndexOfCharAt(before, '_', |table|);
    ReplaceFirstCharSpec(before, '_', '.');
    assert ReplaceFirstChar(before, '_', '.') == table + "." + col;
  }

  /** Names starting with "X" or "C" (no base column) and names without "__" are skipped. */
  lemma MorphKeySkips(c: string)
    requires c != []
    ensures (c[0] == 'X' || c[0] == 'C' || Find(c, "__").None?) <==> MorphKey(Some(c)) == Ok(None)
    ensures MorphKey(None) == Err(TypeError) && MorphKey(Some("")) == Err(IndexError)
  {
  }
}
