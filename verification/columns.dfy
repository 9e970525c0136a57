/**
 * The column nodes of the plan graph: how a column is classified when it is
 * drawn (base column, intermediate used later or not, query result), its
 * identifier, and the colour and line style each class gets.
 */
module Columns {
  import opened Wrappers
  import Strings

  /**
   * A value read from a node attribute whose name starts with "in" or
   * "out": a column name, or None for an unset format slot.
   */
  type Name = Option<string>

  /** The node classes: BaseColumnNode, IntermediateColumnNode (used or not), ResultColumnNode. */
  datatype ColumnKind = Base | Intermediate(isUsed: bool) | ResultColumn

  datatype ColumnNode = ColumnNode(columnName: string, kind: ColumnKind, labelText: Option<string>)

  const BASE_COLOR: string := "#7b8596"
  const INTERMEDIATE_COLOR: string := "#f9f25c"
  const RESULT_COLOR: string := "#1a91f2"

  /** The `label` property: the label given at construction, or "" when there was none. */
  function Label(n: ColumnNode): string
  {
    match n.labelText
    case None => ""
    case Some(l) => l
  }

  lemma UnsetLabelIsEmpty(name: string, kind: ColumnKind)
    ensures Label(ColumnNode(name, kind, None)) == ""
  {
  }

  /** `get_name_str`: the column name with every "." replaced by "_", usable as a graph identifier. */
  function NameStr(n: ColumnNode): (r: string)
    ensures |r| == |n.columnName| && '.' !in r
    ensures forall i :: 0 <= i < |r| && n.columnName[i] != '.' ==> r[i] == n.columnName[i]
  {
    Strings.ReplaceChar(n.columnName, '.', '_')
  }

  /**
   * What an equality test can meet on either side: a string, or the bound
   * method object that naming a method without calling it yields.
   */
  datatype Value = Str(s: string) | BoundMethod(self: ColumnNode, methodName: string)

  /**
   * `__eq__`: the node's column name compared with `other.get_name_str`,
   * the method itself rather than its result.
   */
  function Equal(n: ColumnNode, other: ColumnNode): bool
  {
    Str(n.columnName) == BoundMethod(other, "get_name_str")
  }

  /** `__ne__`: the negation of `__eq__`. */
  function NotEqual(n: ColumnNode, other: ColumnNode): bool
  {
    !Equal(n, other)
  }

  /** No two nodes compare equal, not even a node with itself; `!=` always holds. */
  lemma NeverEqual(n: ColumnNode, other: ColumnNode)
    ensures !Equal(n, other) && !Equal(n, n)
    ensures NotEqual(n, other) && NotEqual(n, n)
  {
  }

  /** `get_color` of each class; an intermediate node's colour ends in a transparency suffix. */
  function Color(n: ColumnNode): string
  {
    match n.kind
    case Base => BASE_COLOR
    case Intermediate(used) => INTERMEDIATE_COLOR + (if used then "ff" else "80")
    case ResultColumn => RESULT_COLOR
  }

  /** `get_additional_style` of each class. */
  function AdditionalStyle(n: ColumnNode): string
  {
    if n.kind == Intermediate(false) then "dashed" else ""
  }

  /**
   * An intermediate column is drawn opaque ("ff") exactly when it is used
   * and half transparent ("80") otherwise; base and result columns carry no
   * transparency suffix. Only an unused intermediate column is dashed.
   */
  lemma ColorAndStyleMarkUse(n: ColumnNode)
    ensures n.kind.Intermediate? ==> Strings.StartsWith(Color(n), INTERMEDIATE_COLOR)
    ensures n.kind.Intermediate? ==> (Strings.EndsWith(Color(n), "ff") <==> n.kind.isUsed)
    ensures n.kind.Intermediate? ==> (Strings.EndsWith(Color(n), "80") <==> !n.kind.isUsed)
    ensures |Color(n)| == if n.kind.Intermediate? then 9 else 7
    ensures AdditionalStyle(n) == "dashed" <==> n.kind == Intermediate(false)
  {
    var c := Color(n);
    if n.kind.Intermediate? {
      assert c[..7] == INTERMEDIATE_COLOR;
      assert c[7..] == if n.kind.isUsed then "ff" else "80";
    }
  }

  datatype FactoryError = ColumnsNotFound  // "Columns could not be found"

  /**
   * `columnFactory`: the node class for a column, tried in the order base,
   * used intermediate, unused intermediate, result.
   */
  function ColumnFactory(columnName: string, columnsBase: set<Name>, columnsUsedOut: set<Name>,
                         columnsUnusedOut: set<Name>, columnsResult: seq<string>, nodeLabel: Option<string>): (r: Result<ColumnNode, FactoryError>)
    ensures r.Ok? ==> r.value.columnName == columnName && r.value.labelText == nodeLabel
  {
    if Some(columnName) in columnsBase then Ok(ColumnNode(columnName, Base, nodeLabel))
    else if Some(columnName) in columnsUsedOut then Ok(ColumnNode(columnName, Intermediate(true), nodeLabel))
    else if Some(columnName) in columnsUnusedOut then Ok(ColumnNode(columnName, Intermediate(false), nodeLabel))
    else if columnName in columnsResult then Ok(ColumnNode(columnName, ResultColumn, nodeLabel))
    else Err(ColumnsNotFound)
  }

  /**
   * The factory raises exactly for a column in none of the four groups, and
   * a column in several groups gets the class of the first group that has it.
   */
  lemma ColumnFactorySpec(columnName: string, columnsBase: set<Name>, columnsUsedOut: set<Name>,
                          columnsUnusedOut: set<Name>, columnsResult: seq<string>, nodeLabel: Option<string>)
    ensures var r := ColumnFactory(columnName, columnsBase, columnsUsedOut, columnsUnusedOut, columnsResult, nodeLabel);
      var c := Some(columnName);
      && (r.Err? <==> c !in columnsBase && c !in columnsUsedOut && c !in columnsUnusedOut && columnName !in columnsResult)
      && (r.Ok? && r.value.kind == Base <==> c in columnsBase)
      && (r.Ok? && r.value.kind == Intermediate(true) <==> c !in columnsBase && c in columnsUsedOut)
      && (r.Ok? && r.value.kind == Intermediate(false) <==> c !in columnsBase && c !in columnsUsedOut && c in columnsUnusedOut)
      && (r.Ok? && r.value.kind == ResultColumn <==>
            c !in columnsBase && c !in columnsUsedOut && c !in columnsUnusedOut && columnName in columnsResult)
  {
  }
}
