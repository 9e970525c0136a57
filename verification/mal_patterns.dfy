/**
 * The regular expressions the MAL translator parses lines with, written as
 * item sequences of the `Regex` module, and one recogniser per pattern that
 * returns the captured groups. A group every match sets is returned as a
 * string; an optional group (the candidate list) as an `Option`, as Python's
 * `match.group` yields None for a group that did not take part.
 */
module MalPatterns {
  import opened Wrappers
  import opened Regex

  // Left-hand sides of assignments.

  /** `(X_\d+):(?:.+?)` */
  const PResScalar: seq<Item> := [Cap(1, [Lit("X_"), Digits]), Lit(":"), Lazy(1)]

  /** `([XC]_\d+):bat\[:(?:.+?)\]`, its group numbered `k` where it is repeated. */
  function ResBat(k: nat): seq<Item>
  {
    [Cap(k, [OneOf("XC"), Lit("_"), Digits]), Lit(":bat[:"), Lazy(1), Lit("]")]
  }

  lemma ResBatGroups(k: nat)
    ensures TopGroups(ResBat(k)) == {k}
  {
    var b := [OneOf("XC"), Lit("_"), Digits];
    assert TopGroups(b) == {} by {
      assert b[1..][1..][1..] == [];
    }
    var r := ResBat(k);
    assert GroupsOf(r[0]) == {k};
    var t := [Lit(":bat[:"), Lazy(1), Lit("]")];
    assert r == [r[0]] + t;
    assert TopGroups(t) == {} by {
      assert t[1..][1..][1..] == [];
    }
    assert r[1..] == t;
  }

  const PRes1: seq<Item> := ResBat(1)

  /** The result tuples capture one group per BAT, numbered from the left. */
  lemma ResTupleGroups()
    ensures {1, 2} <= TopGroups(PRes2)
    ensures {1, 2, 3} <= TopGroups(PRes3)
  {
    var open, sep, close := [Lit("(")], [Lit(", ")], [Lit(")")];
    assert TopGroups(open) == {} && TopGroups(sep) == {} && TopGroups(close) == {};
    ResBatGroups(1);
    ResBatGroups(2);
    ResBatGroups(3);
    var two := open + ResBat(1) + sep + ResBat(2);
    TopGroupsConcat(open, ResBat(1));
    TopGroupsConcat(open + ResBat(1), sep);
    TopGroupsConcat(open + ResBat(1) + sep, ResBat(2));
    TopGroupsConcat(two, close);
    TopGroupsConcat(two, sep);
    TopGroupsConcat(two + sep, ResBat(3));
    TopGroupsConcat(two + sep + ResBat(3), close);
  }

  /** `\(R, R\)` with R the single-BAT result pattern. */
  const PRes2: seq<Item> := [Lit("(")] + ResBat(1) + [Lit(", ")] + ResBat(2) + [Lit(")")]

  /** `\(R, R, R\)` */
  const PRes3: seq<Item> := [Lit("(")] + ResBat(1) + [Lit(", ")] + ResBat(2) + [Lit(", ")] + ResBat(3) + [Lit(")")]

  // Parameter lists.

  /** `(X_\d+):bat\[:(?:.+?)\], (X_\d+):bat\[:oid\], (C_\d+):bat\[:oid\], true:bit, true:bit` */
  const PParAggrSubsum: seq<Item> := [
    Cap(1, [Lit("X_"), Digits]), Lit(":bat[:"), Lazy(1), Lit("], "),
    Cap(2, [Lit("X_"), Digits]), Lit(":bat[:oid], "),
    Cap(3, [Lit("C_"), Digits]), Lit(":bat[:oid], true:bit, true:bit")]

  /**
   * `(X_\d+):bat\[:(?:.+?)\]`: the single-BAT parameter list of aggr.sum, of
   * the batcalc casts and of group.group (three equal patterns in the source).
   */
  const PParOneBat: seq<Item> := [Cap(1, [Lit("X_"), Digits]), Lit(":bat[:"), Lazy(1), Lit("]")]

  /** `(X_\d+):bat\[:(?:.+?)\], (X_\d+):bat\[:(?:.+?)\], nil:BAT, nil:BAT, false:bit, nil:lng` */
  const PParAlgebraJoin: seq<Item> := [
    Cap(1, [Lit("X_"), Digits]), Lit(":bat[:"), Lazy(1), Lit("], "),
    Cap(2, [Lit("X_"), Digits]), Lit(":bat[:"), Lazy(1), Lit("], nil:BAT, nil:BAT, false:bit, nil:lng")]

  /** `((?:[XC]_\d+:bat\[:oid\], )+)(X_\d+):bat\[:(?:.+?)\]` */
  const PParProjectionpath: seq<Item> := [
    Cap(1, [Plus([OneOf("XC"), Lit("_"), Digits, Lit(":bat[:oid], ")])]),
    Cap(2, [Lit("X_"), Digits]), Lit(":bat[:"), Lazy(1), Lit("]")]

  /** `([XC]_\d+):bat\[:oid\], `: one position list, consumed from the front. */
  const PParProjectionpathInner: seq<Item> := [Cap(1, [OneOf("XC"), Lit("_"), Digits]), Lit(":bat[:oid], ")]

  /**
   * `([XC]_\d+):bat\[:(?:.+?)\], (?:(C_\d+):bat\[:oid\], )?(\d+):(?:.+?), (\d+):(?:.+?), true:bit, true:bit, false:bit`
   */
  const PParAlgebraSelect: seq<Item> := [
    Cap(1, [OneOf("XC"), Lit("_"), Digits]), Lit(":bat[:"), Lazy(1), Lit("], "),
    Opt([Cap(2, [Lit("C_"), Digits]), Lit(":bat[:oid], ")]),
    Cap(3, [Digits]), Lit(":"), Lazy(1), Lit(", "),
    Cap(4, [Digits]), Lit(":"), Lazy(1), Lit(", true:bit, true:bit, false:bit")]

  /**
   * `(X_\d+):bat\[:(?:.+?)\], (?:(C_\d+):bat\[:oid\], )?(\d+):(?:.+?), "(<|<=|==|>=|>)":str`.
   * The alternatives are the keys of the comparison map; both maps list the
   * same keys in the same order, so both variants are this pattern.
   */
  const PParThetaselect: seq<Item> := [
    Cap(1, [Lit("X_"), Digits]), Lit(":bat[:"), Lazy(1), Lit("], "),
    Opt([Cap(2, [Lit("C_"), Digits]), Lit(":bat[:oid], ")]),
    Cap(3, [Digits]), Lit(":"), Lazy(1), Lit(", \""),
    Cap(4, [Alt([Lit("<"), Lit("<="), Lit("=="), Lit(">="), Lit(">")])]),
    Lit("\":str")]

  /** `(C_\d+):bat\[:oid\], (C_\d+):bat\[:oid\]` */
  const PParMerge: seq<Item> := [
    Cap(1, [Lit("C_"), Digits]), Lit(":bat[:oid], "),
    Cap(2, [Lit("C_"), Digits]), Lit(":bat[:oid]")]

  /** `(X_\d+):bat\[:(?:.+?)\], (X_\d+):bat\[:(?:.+?)\]` */
  const PParBatCalcBinary: seq<Item> := [
    Cap(1, [Lit("X_"), Digits]), Lit(":bat[:"), Lazy(1), Lit("], "),
    Cap(2, [Lit("X_"), Digits]), Lit(":bat[:"), Lazy(1), Lit("]")]

  /** `(X_\d+):bat\[:(?:.+?), (X_\d+):bat\[:(?:.+?)\]` (the first BAT type has no closing bracket). */
  const PParGroupSubgroup: seq<Item> := [
    Cap(1, [Lit("X_"), Digits]), Lit(":bat[:"), Lazy(1), Lit(", "),
    Cap(2, [Lit("X_"), Digits]), Lit(":bat[:"), Lazy(1), Lit("]")]

  /** `X_\d+:int, ".+?":str, "(.+?)":str, "(.+?)":str, 0:int` */
  const PParSqlBind: seq<Item> := [
    Lit("X_"), Digits, Lit(":int, \""), Lazy(1), Lit("\":str, \""),
    Cap(1, [Lazy(1)]), Lit("\":str, \""),
    Cap(2, [Lazy(1)]), Lit("\":str, 0:int")]

  // Whole lines.

  /** `(.+?) := (.+?)\.(.+?)\((.*?)\);` */
  const PAssignment: seq<Item> := [
    Cap(1, [Lazy(1)]), Lit(" := "), Cap(2, [Lazy(1)]), Lit("."), Cap(3, [Lazy(1)]),
    Lit("("), Cap(4, [Lazy(0)]), Lit(");")]

  /**
   * `sql.resultSet\(.+?:.+?, .+?:.+?, .+?:.+?, .+?:.+?, .+?:.+?(?:, \d+:int)?((?:, X_\d+:.+?)+)\);`
   * (the dot after `sql` is unescaped and matches any character).
   */
  const PResultSet: seq<Item> := PResultSetFront + PResultSetColumns

  /** The part of the result-set pattern before its column list; it captures nothing. */
  const PResultSetFront: seq<Item> := [
    Lit("sql"), AnyChar, Lit("resultSet("),
    Lazy(1), Lit(":"), Lazy(1), Lit(", "),
    Lazy(1), Lit(":"), Lazy(1), Lit(", "),
    Lazy(1), Lit(":"), Lazy(1), Lit(", "),
    Lazy(1), Lit(":"), Lazy(1), Lit(", "),
    Lazy(1), Lit(":"), Lazy(1),
    Opt([Lit(", "), Digits, Lit(":int")])]

  const PResultSetColumns: seq<Item> := [
    Cap(1, [Plus([Lit(", X_"), Digits, Lit(":"), Lazy(1)])]),
    Lit(");")]

  /** `, (X_\d+):(?:bit|byte|sht|int|lng|hge|bat\[.+?\])`: one result column, consumed from the front. */
  const PResultSetInner: seq<Item> := [
    Lit(", "), Cap(1, [Lit("X_"), Digits]), Lit(":"),
    Alt([Lit("bit"), Lit("byte"), Lit("sht"), Lit("int"), Lit("lng"), Lit("hge"),
         Seq([Lit("bat["), Lazy(1), Lit("]")])])]

  // Recognisers.

  function Match1(p: seq<Item>, s: string): Option<string>
    requires 1 in TopGroups(p)
  {
    match FullMatch(p, s)
    case None => None
    case Some(c) => Some(c[1])
  }

  function Match2(p: seq<Item>, s: string): Option<(string, string)>
    requires {1, 2} <= TopGroups(p)
  {
    match FullMatch(p, s)
    case None => None
    case Some(c) => Some((c[1], c[2]))
  }

  function Match3(p: seq<Item>, s: string): Option<(string, string, string)>
    requires {1, 2, 3} <= TopGroups(p)
  {
    match FullMatch(p, s)
    case None => None
    case Some(c) => Some((c[1], c[2], c[3]))
  }

  /** The select parameters: data column, optional candidate list, and groups 3 and 4. */
  function MatchSelect(p: seq<Item>, s: string): Option<(string, Option<string>, string, string)>
    requires {1, 3, 4} <= TopGroups(p)
  {
    match FullMatch(p, s)
    case None => None
    case Some(c) => Some((c[1], if 2 in c then Some(c[2]) else None, c[3], c[4]))
  }

  /** The assignment's four parts: results, module, function, parameters. */
  function MatchAssignment(s: string): Option<(string, string, string, string)>
  {
    match FullMatch(PAssignment, s)
    case None => None
    case Some(c) => Some((c[1], c[2], c[3], c[4]))
  }

  /**
   * Python's loop of `pattern.match` calls that consumes a text from the
   * front: the first group of each match, until the pattern no longer matches.
   */
  function PrefixGroups(p: seq<Item>, s: string): (r: seq<string>)
    requires 1 in TopGroups(p) && WidthSeq(p) > 0
    decreases |s|
  {
    match PrefixMatch(p, s)
    case None => []
    case Some(h) => [h.caps[1]] + PrefixGroups(p, s[h.end..])
  }

  function MatchResScalar(s: string): Option<string> { Match1(PResScalar, s) }
  function MatchRes1(s: string): Option<string>
  {
    ResBatGroups(1);
    Match1(PRes1, s)
  }

  function MatchRes2(s: string): Option<(string, string)>
  {
    ResTupleGroups();
    Match2(PRes2, s)
  }

  function MatchRes3(s: string): Option<(string, string, string)>
  {
    ResTupleGroups();
    Match3(PRes3, s)
  }
  function MatchAggrSubsum(s: string): Option<(string, string, string)> { Match3(PParAggrSubsum, s) }
  function MatchOneBat(s: string): Option<string> { Match1(PParOneBat, s) }
  function MatchAlgebraJoin(s: string): Option<(string, string)> { Match2(PParAlgebraJoin, s) }
  function MatchProjectionpath(s: string): Option<(string, string)> { Match2(PParProjectionpath, s) }
  function MatchAlgebraSelect(s: string): Option<(string, Option<string>, string, string)> { MatchSelect(PParAlgebraSelect, s) }
  function MatchThetaselect(s: string): Option<(string, Option<string>, string, string)> { MatchSelect(PParThetaselect, s) }
  function MatchMerge(s: string): Option<(string, string)> { Match2(PParMerge, s) }
  function MatchBatCalcBinary(s: string): Option<(string, string)> { Match2(PParBatCalcBinary, s) }
  function MatchGroupSubgroup(s: string): Option<(string, string)> { Match2(PParGroupSubgroup, s) }
  function MatchSqlBind(s: string): Option<(string, string)> { Match2(PParSqlBind, s) }
  function MatchResultSet(s: string): Option<string>
  {
    TopGroupsConcat(PResultSetFront, PResultSetColumns);
    Match1(PResultSet, s)
  }

  /** The position lists at the front of a projection's parameter text. */
  function PositionLists(s: string): seq<string> { PrefixGroups(PParProjectionpathInner, s) }

  /** The result columns at the front of a result set's column text. */
  function ResultColumnNames(s: string): seq<string> { PrefixGroups(PResultSetInner, s) }

  /**
   * One turn of the loop over the position lists: the first match holds
   * group 1 and is not empty, and its group is the first position list.
   */
  lemma PositionListsNext(s: string)
    requires PrefixMatch(PParProjectionpathInner, s).Some?
    ensures var h := PrefixMatch(PParProjectionpathInner, s).value;
      && 1 in h.caps && 0 < h.end <= |s|
      && PositionLists(s) == [h.caps[1]] + PositionLists(s[h.end..])
  {
  }

  /** One turn of the loop over the result columns, as for the position lists. */
  lemma ResultColumnNamesNext(s: string)
    requires PrefixMatch(PResultSetInner, s).Some?
    ensures var h := PrefixMatch(PResultSetInner, s).value;
      && 1 in h.caps && 0 < h.end <= |s|
      && ResultColumnNames(s) == [h.caps[1]] + ResultColumnNames(s[h.end..])
  {
  }
}
