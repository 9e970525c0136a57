/**
 * The plan analysis of mal2morphstore: the usage tracking alone, over the
 * format-less catalog. A node's attributes are visited in the order the
 * constructor set them; a key starting with "out" assigns the column it
 * names, a key starting with "in" uses it, and the header list and operator
 * parameters match neither prefix.
 */
module LegacyAnalysis {
  import opened Usage
  import opened LegacyOperators

  datatype AnalysisResult = AnalysisResult(varsUsedBeforeAssigned: seq<string>, varsNeverUsed: seq<string>)

  /** One attribute of a node. */
  function TrackAttr(u: Lists<string>, a: Attr): Lists<string>
  {
    match a
    case Column(key, name) =>
      if IsOutKey(key) then Assign(u, name)
      else if IsInKey(key) then FoundUsage(u, name)
      else u
    case _ => u
  }

  /** The attributes of one node, in order. */
  function TrackAttrs(u: Lists<string>, attrs: seq<Attr>): Lists<string>
    decreases |attrs|
  {
    if attrs == [] then u else TrackAttrs(TrackAttr(u, attrs[0]), attrs[1..])
  }

  /** The pass over the program; text lines are skipped. */
  function Run(u: Lists<string>, prog: seq<Element>): Lists<string>
    decreases |prog|
  {
    if prog == [] then u
    else Run(if prog[0].OpEl? then TrackAttrs(u, Attrs(prog[0].node)) else u, prog[1..])
  }

  /** `analyze`: the pass, then the result columns counted as uses. */
  function Analysis(tables: seq<(string, seq<string>)>, prog: seq<Element>, resultCols: seq<string>): AnalysisResult
  {
    var u := UseAll(Run(Initial(BaseColumns(tables)), prog), resultCols);
    AnalysisResult(u.usedBeforeAssigned, u.neverUsed)
  }

  predicate IsOutput(a: Attr) { a.Column? && IsOutKey(a.key) }
  predicate IsInput(a: Attr) { a.Column? && !IsOutKey(a.key) && IsInKey(a.key) }

  /** The columns the program's nodes assign. */
  ghost function OutputNames(prog: seq<Element>): set<string>
  {
    set k, a | 0 <= k < |prog| && prog[k].OpEl? && a in Attrs(prog[k].node) && IsOutput(a) :: a.name
  }

  /** The columns the program's nodes read. */
  ghost function InputNames(prog: seq<Element>): set<string>
  {
    set k, a | 0 <= k < |prog| && prog[k].OpEl? && a in Attrs(prog[k].node) && IsInput(a) :: a.name
  }

  ghost predicate Keeps(u: Lists<string>, base: seq<string>, outs: set<string>, ins: set<string>)
  {
    && Consistent(u, base)
    && (forall v <- u.neverUsed :: v in outs)
    && (forall v <- u.usedBeforeAssigned :: v in ins)
  }

  lemma {:induction false} TrackAttrsKeeps(u: Lists<string>, base: seq<string>, attrs: seq<Attr>, outs: set<string>, ins: set<string>)
    requires Keeps(u, base, outs, ins)
    requires forall a <- attrs :: IsOutput(a) ==> a.name in outs
    requires forall a <- attrs :: IsInput(a) ==> a.name in ins
    ensures Keeps(TrackAttrs(u, attrs), base, outs, ins)
    decreases |attrs|
  {
    if attrs != [] {
      TrackAttrKeeps(u, base, attrs[0], outs, ins);
      TrackAttrsKeeps(TrackAttr(u, attrs[0]), base, attrs[1..], outs, ins);
    }
  }

  lemma TrackAttrKeeps(u: Lists<string>, base: seq<string>, a: Attr, outs: set<string>, ins: set<string>)
    requires Keeps(u, base, outs, ins)
    requires IsOutput(a) ==> a.name in outs
    requires IsInput(a) ==> a.name in ins
    ensures Keeps(TrackAttr(u, a), base, outs, ins)
  {
    if IsOutput(a) {
      AssignKeepsConsistent(u, base, a.name);
    } else if IsInput(a) {
      FoundUsageKeepsConsistent(u, base, a.name);
      FoundUsageStaysWithin(u, a.name, outs, ins);
    }
  }

  lemma {:induction false} RunKeeps(u: Lists<string>, base: seq<string>, prog: seq<Element>, outs: set<string>, ins: set<string>)
    requires Keeps(u, base, outs, ins)
    requires OutputNames(prog) <= outs && InputNames(prog) <= ins
    ensures Keeps(Run(u, prog), base, outs, ins)
    decreases |prog|
  {
    if prog != [] {
      var rest := prog[1..];
      assert OutputNames(rest) <= OutputNames(prog) by {
        forall v <- OutputNames(rest) ensures v in OutputNames(prog) {
          var k, a :| 0 <= k < |rest| && rest[k].OpEl? && a in Attrs(rest[k].node) && IsOutput(a) && v == a.name;
          assert prog[k + 1] == rest[k];
        }
      }
      assert InputNames(rest) <= InputNames(prog) by {
        forall v <- InputNames(rest) ensures v in InputNames(prog) {
          var k, a :| 0 <= k < |rest| && rest[k].OpEl? && a in Attrs(rest[k].node) && IsInput(a) && v == a.name;
          assert prog[k + 1] == rest[k];
        }
      }
      if prog[0].OpEl? {
        var attrs := Attrs(prog[0].node);
        assert forall a <- attrs :: IsOutput(a) ==> a.name in OutputNames(prog);
        assert forall a <- attrs :: IsInput(a) ==> a.name in InputNames(prog);
        TrackAttrsKeeps(u, base, attrs, outs, ins);
        RunKeeps(TrackAttrs(u, attrs), base, rest, outs, ins);
      } else {
        RunKeeps(u, base, rest, outs, ins);
      }
    }
  }

  /**
   * What the pass guarantees: no column is reported twice as used before
   * assigned, base columns never are, every reported column is read by some
   * node or listed as a result column, and every column reported as never
   * used is assigned by some node.
   */
  lemma AnalysisGuarantees(tables: seq<(string, seq<string>)>, prog: seq<Element>, resultCols: seq<string>)
    ensures var r := Analysis(tables, prog, resultCols);
      && NoDuplicates(r.varsUsedBeforeAssigned)
      && (forall b <- BaseColumns(tables) :: b !in r.varsUsedBeforeAssigned)
      && (forall v <- r.varsUsedBeforeAssigned :: v in InputNames(prog) || v in resultCols)
      && (forall v <- r.varsNeverUsed :: v in OutputNames(prog))
  {
    var base := BaseColumns(tables);
    RunKeeps(Initial(base), base, prog, OutputNames(prog), InputNames(prog));
    var st := Run(Initial(base), prog);
    UseAllKeepsConsistent(st, base, resultCols);
    UseAllOnlyRemoves(st, resultCols);
    UseAllReportsOnlyUses(st, resultCols);
    var u := UseAll(st, resultCols);
    forall v <- u.neverUsed ensures v in OutputNames(prog) {
      assert multiset(u.neverUsed)[v] > 0;
      assert v in st.neverUsed;
    }
  }

  // A program that defines every column before reading it is reported clean.

  /** The tracking of a node only appends to the assigned list, and appends each of its outputs. */
  lemma {:induction false} TrackAttrsAssigns(u: Lists<string>, attrs: seq<Attr>)
    ensures u.assignedNames <= TrackAttrs(u, attrs).assignedNames
    ensures forall a <- attrs :: IsOutput(a) ==> a.name in TrackAttrs(u, attrs).assignedNames
    decreases |attrs|
  {
    if attrs != [] {
      var next := TrackAttr(u, attrs[0]);
      TrackAttrsAssigns(next, attrs[1..]);
      var last := TrackAttrs(u, attrs);
      if IsOutput(attrs[0]) {
        assert next.assignedNames[|u.assignedNames|] == attrs[0].name;
        assert last.assignedNames[|u.assignedNames|] == attrs[0].name;
      }
    }
  }

  /** A node whose inputs are all assigned already reports nothing. */
  lemma {:induction false} TrackAttrsClean(u: Lists<string>, attrs: seq<Attr>)
    requires forall a <- attrs :: IsInput(a) ==> a.name in u.assignedNames
    ensures TrackAttrs(u, attrs).usedBeforeAssigned == u.usedBeforeAssigned
    decreases |attrs|
  {
    if attrs != [] {
      var next := TrackAttr(u, attrs[0]);
      assert u.assignedNames <= next.assignedNames;
      TrackAttrsClean(next, attrs[1..]);
    }
  }

  lemma {:induction false} RunAssigns(u: Lists<string>, prog: seq<Element>)
    ensures u.assignedNames <= Run(u, prog).assignedNames
    ensures forall v <- OutputNames(prog) :: v in Run(u, prog).assignedNames
    decreases |prog|
  {
    if prog != [] {
      var next := if prog[0].OpEl? then TrackAttrs(u, Attrs(prog[0].node)) else u;
      if prog[0].OpEl? {
        TrackAttrsAssigns(u, Attrs(prog[0].node));
      }
      RunAssigns(next, prog[1..]);
      forall v <- OutputNames(prog) ensures v in Run(u, prog).assignedNames {
        var k, a :| 0 <= k < |prog| && prog[k].OpEl? && a in Attrs(prog[k].node) && IsOutput(a) && v == a.name;
        if k == 0 {
          assert v in next.assignedNames;
        } else {
          assert prog[1..][k - 1] == prog[k];
          assert v in OutputNames(prog[1..]);
        }
      }
    }
  }

  /** Every input of node `k` is already assigned or assigned by an earlier node. */
  ghost predicate DefinedBeforeUse(known: seq<string>, prog: seq<Element>)
  {
    forall k, a :: 0 <= k < |prog| && prog[k].OpEl? && a in Attrs(prog[k].node) && IsInput(a) ==>
      a.name in known || a.name in OutputNames(prog[..k])
  }

  lemma {:induction false} RunClean(u: Lists<string>, prog: seq<Element>)
    requires DefinedBeforeUse(u.assignedNames, prog)
    ensures Run(u, prog).usedBeforeAssigned == u.usedBeforeAssigned
    decreases |prog|
  {
    if prog != [] {
      var next := if prog[0].OpEl? then TrackAttrs(u, Attrs(prog[0].node)) else u;
      if prog[0].OpEl? {
        var attrs := Attrs(prog[0].node);
        assert prog[..0] == [];
        TrackAttrsClean(u, attrs);
        TrackAttrsAssigns(u, attrs);
      }
      DefinedBeforeUseRest(u.assignedNames, next.assignedNames, prog);
      var rest := prog[1..];
      RunClean(next, rest);
    }
  }

  /** After the first element, the program's remainder still defines before use, given what the first assigned. */
  lemma DefinedBeforeUseRest(known: seq<string>, next: seq<string>, prog: seq<Element>)
    requires prog != [] && DefinedBeforeUse(known, prog)
    requires forall v <- known :: v in next
    requires prog[0].OpEl? ==> forall a <- Attrs(prog[0].node) :: IsOutput(a) ==> a.name in next
    ensures DefinedBeforeUse(next, prog[1..])
  {
    var rest := prog[1..];
    forall k, a | 0 <= k < |rest| && rest[k].OpEl? && a in Attrs(rest[k].node) && IsInput(a)
      ensures a.name in next || a.name in OutputNames(rest[..k])
    {
      assert prog[k + 1] == rest[k];
      if a.name !in known {
        OutputOfPrefix(prog, k, a.name);
      }
    }
  }

  /** A name some node up to `k` outputs comes from the first node or from the rest up to `k`. */
  lemma OutputOfPrefix(prog: seq<Element>, k: nat, v: string)
    requires k < |prog| && v in OutputNames(prog[..k + 1])
    ensures v in OutputNames(prog[1..][..k]) || (prog[0].OpEl? && exists a <- Attrs(prog[0].node) :: IsOutput(a) && a.name == v)
  {
    var j, b :| 0 <= j < k + 1 && prog[..k + 1][j].OpEl? && b in Attrs(prog[..k + 1][j].node) && IsOutput(b) && v == b.name;
    if j > 0 {
      assert prog[1..][..k][j - 1] == prog[..k + 1][j];
    } else {
      assert prog[..k + 1][0] == prog[0];
    }
  }

  /**
   * The completeness of the report: when every node reads only base columns
   * or columns of earlier nodes, and every result column is a base column or
   * assigned by some node, no column is reported as used before assigned.
   */
  lemma CleanProgramReportsNothing(tables: seq<(string, seq<string>)>, prog: seq<Element>, resultCols: seq<string>)
    requires DefinedBeforeUse(BaseColumns(tables), prog)
    requires forall v <- resultCols :: v in BaseColumns(tables) || v in OutputNames(prog)
    ensures Analysis(tables, prog, resultCols).varsUsedBeforeAssigned == []
  {
    var u := Initial(BaseColumns(tables));
    RunClean(u, prog);
    RunAssigns(u, prog);
    UsesOfAssignedReportNothing(Run(u, prog), resultCols);
  }

  // The imperative pass.

  /** The inner loop over one node's attributes. */
  method TrackNode(u: Lists<string>, attrs: seq<Attr>) returns (r: Lists<string>)
    ensures r == TrackAttrs(u, attrs)
  {
    var varsAssigned, varsNeverUsed, varsUsedBeforeAssigned := u.assignedNames, u.neverUsed, u.usedBeforeAssigned;
    var j := 0;
    while j < |attrs|
      invariant j <= |attrs|
      invariant TrackAttrs(Lists(varsAssigned, varsNeverUsed, varsUsedBeforeAssigned), attrs[j..]) == TrackAttrs(u, attrs)
    {
      assert attrs[j..][1..] == attrs[j + 1..];
      var a := attrs[j];
      if a.Column? {
        var varName := a.name;
        if IsOutKey(a.key) {
          varsAssigned := varsAssigned + [varName];
          varsNeverUsed := varsNeverUsed + [varName];
        } else if IsInKey(a.key) {
          if varName !in varsAssigned && varName !in varsUsedBeforeAssigned {
            varsUsedBeforeAssigned := varsUsedBeforeAssigned + [varName];
          } else if varName in varsNeverUsed {
            varsNeverUsed := RemoveFirst(varsNeverUsed, varName);
          }
        }
      }
      j := j + 1;
    }
    assert attrs[j..] == [];
    return Lists(varsAssigned, varsNeverUsed, varsUsedBeforeAssigned);
  }

  /** `analyze`: the loop over the program elements, then the result columns. */
  method Analyze(tables: seq<(string, seq<string>)>, prog: seq<Element>, resultCols: seq<string>) returns (r: AnalysisResult)
    ensures r == Analysis(tables, prog, resultCols)
  {
    var usage := Initial(BaseColumns(tables));
    var i := 0;
    while i < |prog|
      invariant i <= |prog|
      invariant Run(usage, prog[i..]) == Run(Initial(BaseColumns(tables)), prog)
    {
      assert prog[i..][1..] == prog[i + 1..];
      if prog[i].OpEl? {
        usage := TrackNode(usage, Attrs(prog[i].node));
      }
      i := i + 1;
    }
    assert prog[i..] == [];
    var u := UseResults(usage, resultCols);
    return AnalysisResult(u.usedBeforeAssigned, u.neverUsed);
  }
}
