/**
 * `dotAnalyze` of the plan-graph tool: the column groups a translated
 * program is drawn with, and the order its nodes are added to the graph.
 * Every attribute whose name starts with "out" or "in" is collected, so
 * format slots contribute their value (None while unset) too.
 */
module Visualize {
  import opened Wrappers
  import opened Operators
  import opened Columns

  /** The values of the slots among `slots` whose attribute name starts with "in" (d == In) or "out" (d == Out). */
  function SlotValues(slots: seq<Slot>, d: Dir): set<Name>
  {
    set s | s in slots && s.dir == d :: ValueOf(s)
  }

  /** The values one element contributes: a node's slots in that direction; a line of text none. */
  function ElementValues(e: Element, d: Dir): set<Name>
  {
    if e.OpEl? then SlotValues(Slots(e.node), d) else {}
  }

  /** The union of a sequence of sets, built from the front as a loop adds them. */
  function UnionOf(sets: seq<set<Name>>): set<Name>
    decreases |sets|
  {
    if sets == [] then {} else UnionOf(sets[..|sets| - 1]) + sets[|sets| - 1]
  }

  /** A value is in the union exactly when it is in one of the sets. */
  lemma {:induction false} UnionOfMembers(sets: seq<set<Name>>, v: Name)
    ensures v in UnionOf(sets) <==> exists k :: 0 <= k < |sets| && v in sets[k]
    decreases |sets|
  {
    if sets != [] {
      var n := |sets| - 1;
      var init := sets[..n];
      UnionOfMembers(init, v);
      if v in UnionOf(init) {
        var k :| 0 <= k < |init| && v in init[k];
        assert sets[k] == init[k];
      } else if v !in sets[n] {
        forall k | 0 <= k < |sets|
          ensures v !in sets[k]
        {
          if k < n {
            assert sets[k] == init[k];
          }
        }
      }
    }
  }

  /** What each element of `prog` contributes, in program order. */
  function ValuesOf(prog: seq<Element>, d: Dir): (r: seq<set<Name>>)
    ensures |r| == |prog|
  {
    seq(|prog|, k requires 0 <= k < |prog| => ElementValues(prog[k], d))
  }

  /** The values the scan collects from the nodes of `prog`, for one direction. */
  function Collected(prog: seq<Element>, d: Dir): set<Name>
  {
    UnionOf(ValuesOf(prog, d))
  }

  /** One more element adds its values. */
  lemma CollectedNext(prog: seq<Element>, i: nat, d: Dir)
    requires i < |prog|
    ensures Collected(prog[..i + 1], d) == Collected(prog[..i], d) + ElementValues(prog[i], d)
  {
    assert ValuesOf(prog[..i + 1], d)[..i] == ValuesOf(prog[..i], d);
  }

  /** The nodes of the program in program order, lines of text skipped: the order they join the graph. */
  function NodesOf(prog: seq<Element>): seq<Op>
    decreases |prog|
  {
    if prog == [] then []
    else
      var last := prog[|prog| - 1];
      NodesOf(prog[..|prog| - 1]) + (if last.OpEl? then [last.node] else [])
  }

  /** Program order is kept across concatenation: the nodes of a + b are those of a, then those of b. */
  lemma {:induction false} NodesOfAppend(a: seq<Element>, b: seq<Element>)
    ensures NodesOf(a + b) == NodesOf(a) + NodesOf(b)
    decreases |b|
  {
    if b != [] {
      var b0 := b[..|b| - 1];
      assert (a + b)[..|a + b| - 1] == a + b0;
      NodesOfAppend(a, b0);
    } else {
      assert a + b == a;
    }
  }

  /** Exactly the nodes are added, none twice and none left out: there is one per node element. */
  lemma {:induction false} NodesOfCount(prog: seq<Element>)
    ensures |NodesOf(prog)| == |set k | 0 <= k < |prog| && prog[k].OpEl?|
    decreases |prog|
  {
    if prog != [] {
      var init := prog[..|prog| - 1];
      NodesOfCount(init);
      var a := set k | 0 <= k < |init| && init[k].OpEl?;
      var b := set k | 0 <= k < |prog| && prog[k].OpEl?;
      assert b == a + (if prog[|prog| - 1].OpEl? then {|prog| - 1} else {});
    }
  }

  /** The four column groups the graph is built with. */
  datatype ColumnGroups = ColumnGroups(columnsBase: set<Name>, columnsUsedOut: set<Name>,
                                       columnsUnusedOut: set<Name>, columnsResult: seq<string>)

  /** The result columns as attribute values. */
  function ResultNames(columnsResult: seq<string>): set<Name>
  {
    set c <- columnsResult :: Some(c)
  }

  /**
   * The classification of `dotAnalyze`: used intermediates are outputs that
   * are also inputs, base columns are inputs no node outputs, and unused
   * intermediates are outputs that are neither inputs nor results.
   */
  function Classify(columnsIn: set<Name>, columnsOut: set<Name>, columnsResult: seq<string>): (r: ColumnGroups)
    ensures r.columnsBase !! r.columnsUsedOut && r.columnsBase !! r.columnsUnusedOut && r.columnsUsedOut !! r.columnsUnusedOut
    ensures r.columnsBase + r.columnsUsedOut == columnsIn
    ensures r.columnsUsedOut + r.columnsUnusedOut <= columnsOut && r.columnsBase !! columnsOut
    ensures r.columnsUnusedOut !! ResultNames(columnsResult)
    ensures columnsOut - columnsIn - ResultNames(columnsResult) == r.columnsUnusedOut
  {
    var r := ColumnGroups(columnsIn - columnsOut, columnsOut * columnsIn, (columnsOut - columnsIn) - ResultNames(columnsResult), columnsResult);
    r
  }

  /** The column groups of a translated program. */
  function GroupsOf(prog: seq<Element>, resultCols: seq<string>): ColumnGroups
  {
    Classify(Collected(prog, In), Collected(prog, Out), resultCols)
  }

  /** One more slot adds its value to the direction it belongs to. */
  lemma SlotValuesNext(slots: seq<Slot>, j: nat, d: Dir)
    requires j < |slots|
    ensures SlotValues(slots[..j + 1], d) == SlotValues(slots[..j], d) + (if slots[j].dir == d then {ValueOf(slots[j])} else {})
  {
    assert slots[..j + 1] == slots[..j] + [slots[j]];
  }

  /** The values of one node's "in"/"out" attributes, added to the sets as the inner loop over its attributes does. */
  method CollectSlots(slots: seq<Slot>, columnsIn0: set<Name>, columnsOut0: set<Name>) returns (columnsIn: set<Name>, columnsOut: set<Name>)
    ensures columnsIn == columnsIn0 + SlotValues(slots, In)
    ensures columnsOut == columnsOut0 + SlotValues(slots, Out)
  {
    columnsIn, columnsOut := columnsIn0, columnsOut0;
    var j := 0;
    while j < |slots|
      invariant j <= |slots|
      invariant columnsIn == columnsIn0 + SlotValues(slots[..j], In)
      invariant columnsOut == columnsOut0 + SlotValues(slots[..j], Out)
    {
      var key := Key(slots[j]);
      SlotKeyConvention(slots[j]);
      SlotValuesNext(slots, j, In);
      SlotValuesNext(slots, j, Out);
      if IsOutKey(key) {
        columnsOut := columnsOut + {ValueOf(slots[j])};
      } else if IsInKey(key) {
        columnsIn := columnsIn + {ValueOf(slots[j])};
      }
      j := j + 1;
    }
    assert slots[..j] == slots;
  }

  /** The first loop of `dotAnalyze`: the input and output values of every node. */
  method CollectColumns(prog: seq<Element>) returns (columnsIn: set<Name>, columnsOut: set<Name>)
    ensures columnsIn == Collected(prog, In) && columnsOut == Collected(prog, Out)
  {
    columnsIn, columnsOut := {}, {};
    var i := 0;
    while i < |prog|
      invariant i <= |prog|
      invariant columnsIn == Collected(prog[..i], In) && columnsOut == Collected(prog[..i], Out)
    {
      CollectedNext(prog, i, In);
      CollectedNext(prog, i, Out);
      if prog[i].OpEl? {
        columnsIn, columnsOut := CollectSlots(Slots(prog[i].node), columnsIn, columnsOut);
      }
      i := i + 1;
    }
    assert prog[..i] == prog;
  }

  /** The second loop of `dotAnalyze`: the nodes handed to the graph, in program order. */
  method AddOperators(prog: seq<Element>) returns (added: seq<Op>)
    ensures added == NodesOf(prog)
  {
    added := [];
    var i := 0;
    while i < |prog|
      invariant i <= |prog|
      invariant added == NodesOf(prog[..i])
    {
      assert prog[..i + 1][..i] == prog[..i];
      if prog[i].OpEl? {
        added := added + [prog[i].node];
      }
      i := i + 1;
    }
    assert prog[..i] == prog;
  }

  /**
   * `dotAnalyze`: the input and output values of every node, their
   * classification, and the nodes added to the graph in program order.
   */
  method DotAnalyze(prog: seq<Element>, resultCols: seq<string>) returns (groups: ColumnGroups, added: seq<Op>)
    ensures groups == GroupsOf(prog, resultCols)
    ensures added == NodesOf(prog)
  {
    var columnsIn, columnsOut := CollectColumns(prog);
    groups := ColumnGroups(columnsIn - columnsOut, columnsOut * columnsIn,
                           (columnsOut - columnsIn) - ResultNames(resultCols), resultCols);
    added := AddOperators(prog);
  }

  /**
   * Every column of every node finds its class when the graph adds the
   * node, so the factory never raises there. An input column is drawn as a
   * base column exactly when no node outputs it, and as a used intermediate
   * otherwise; an output column is a used intermediate when some node reads
   * it, else a result when it is one, else an unused intermediate.
   */
  lemma GraphColumnsClassified(prog: seq<Element>, resultCols: seq<string>, k: nat, c: Slot, nodeLabel: Option<string>)
    requires k < |prog| && prog[k].OpEl? && c in ColumnSlots(prog[k].node)
    ensures var g := GroupsOf(prog, resultCols);
      var r := ColumnFactory(c.name, g.columnsBase, g.columnsUsedOut, g.columnsUnusedOut, g.columnsResult, nodeLabel);
      var read := Some(c.name) in Collected(prog, In);
      var written := Some(c.name) in Collected(prog, Out);
      && r.Ok?
      && (c.dir == In ==> (r.value.kind == Base <==> !written) && (r.value.kind == Intermediate(true) <==> written))
      && (c.dir == Out ==> (r.value.kind == Intermediate(true) <==> read))
      && (c.dir == Out ==> (r.value.kind == ResultColumn <==> !read && c.name in resultCols))
      && (c.dir == Out ==> (r.value.kind == Intermediate(false) <==> !read && c.name !in resultCols))
  {
    var g := GroupsOf(prog, resultCols);
    var vs := ValuesOf(prog, c.dir);
    assert Some(c.name) in vs[k];
    UnionOfMembers(vs, Some(c.name));
    ColumnFactorySpec(c.name, g.columnsBase, g.columnsUsedOut, g.columnsUnusedOut, g.columnsResult, nodeLabel);
    assert Some(c.name) in ResultNames(resultCols) <==> c.name in resultCols;
  }
}
