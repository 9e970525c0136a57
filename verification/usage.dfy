/**
 * The usage tracking both plan analyses perform: a forward pass keeps the
 * names assigned so far, the names assigned but not yet used, and the names
 * used before any assignment. The functions here are the specification of
 * one step; the analyses run them in loops over the program.
 */
module Usage {

  /** The three lists of the tracking, in the order the names were met. */
  datatype Lists<T> = Lists(assignedNames: seq<T>, neverUsed: seq<T>, usedBeforeAssigned: seq<T>)

  /** Python's `list.index(x)`: the first position holding `x`. */
  function IndexOf<T(==)>(s: seq<T>, x: T): (k: nat)
    requires x in s
    ensures k < |s| && s[k] == x && x !in s[..k]
  {
    if s[0] == x then 0
    else
      var k := IndexOf(s[1..], x);
      assert s[..k + 1] == [s[0]] + s[1..][..k];
      k + 1
  }

  /** Python's `list.remove(x)` when `x` is present: drops its first occurrence. */
  function RemoveFirst<T(==)>(s: seq<T>, x: T): (r: seq<T>)
    requires x in s
    ensures |r| == |s| - 1
    ensures multiset(r) == multiset(s) - multiset{x}
  {
    var k := IndexOf(s, x);
    assert s == s[..k] + [x] + s[k + 1..];
    s[..k] + s[k + 1..]
  }

  /** The columns of one table, each qualified by the table name. */
  function Qualified(table: string, cols: seq<string>): (r: seq<string>)
    ensures |r| == |cols| && forall k :: 0 <= k < |cols| ==> r[k] == table + "." + cols[k]
  {
    seq(|cols|, k requires 0 <= k < |cols| => table + "." + cols[k])
  }

  /**
   * The base columns of a translation result, `table.column`, table by table
   * in the order of the table dictionary.
   */
  function BaseColumns(tables: seq<(string, seq<string>)>): (r: seq<string>)
    ensures forall x :: x in r <==> exists t, c :: t in tables && c in t.1 && x == t.0 + "." + c
    decreases |tables|
  {
    if tables == [] then []
    else
      var t := tables[0];
      var rest := BaseColumns(tables[1..]);
      var r := Qualified(t.0, t.1) + rest;
      assert forall x :: x in r <==> exists u, c :: u in tables && c in u.1 && x == u.0 + "." + c by {
        forall x | x in r ensures exists u, c :: u in tables && c in u.1 && x == u.0 + "." + c {
          if x in Qualified(t.0, t.1) {
            var k :| 0 <= k < |t.1| && Qualified(t.0, t.1)[k] == x;
            assert t in tables && t.1[k] in t.1;
          } else {
            var u, c :| u in tables[1..] && c in u.1 && x == u.0 + "." + c;
            assert u in tables;
          }
        }
        forall x | exists u, c :: u in tables && c in u.1 && x == u.0 + "." + c ensures x in r {
          var u, c :| u in tables && c in u.1 && x == u.0 + "." + c;
          if u == t {
            var k :| 0 <= k < |t.1| && t.1[k] == c;
            assert Qualified(t.0, t.1)[k] == x;
          } else {
            var i :| 0 <= i < |tables| && tables[i] == u;
            assert tables[1..][i - 1] == u;
          }
        }
      }
      r
  }

  /** At the start only the base columns count as assigned. */
  function Initial<T>(base: seq<T>): Lists<T>
  {
    Lists(base, [], [])
  }

  /** An output slot: its value is assigned and, for now, never used. */
  function Assign<T>(u: Lists<T>, v: T): Lists<T>
  {
    u.(assignedNames := u.assignedNames + [v], neverUsed := u.neverUsed + [v])
  }

  /**
   * `foundUsage`: a name neither assigned nor already reported is reported
   * once as used before assigned; otherwise one pending occurrence of it in
   * the never-used list is removed.
   */
  function FoundUsage<T(==)>(u: Lists<T>, v: T): Lists<T>
  {
    if v !in u.assignedNames && v !in u.usedBeforeAssigned then
      u.(usedBeforeAssigned := u.usedBeforeAssigned + [v])
    else if v in u.neverUsed then
      u.(neverUsed := RemoveFirst(u.neverUsed, v))
    else u
  }

  /** Each name uses in order, as the pass does for the result columns. */
  function UseAll<T(==)>(u: Lists<T>, vs: seq<T>): Lists<T>
    decreases |vs|
  {
    if vs == [] then u else UseAll(FoundUsage(u, vs[0]), vs[1..])
  }

  predicate NoDuplicates<T(==)>(s: seq<T>)
  {
    forall i, j :: 0 <= i < j < |s| ==> s[i] != s[j]
  }

  /**
   * What the tracking keeps true from the start: the base columns stay
   * assigned and are never reported as used before assigned, no name is
   * reported twice, and every pending never-used occurrence stems from an
   * assignment made during the pass.
   */
  predicate Consistent<T(==)>(u: Lists<T>, base: seq<T>)
  {
    && base <= u.assignedNames
    && NoDuplicates(u.usedBeforeAssigned)
    && (forall v <- u.usedBeforeAssigned :: v !in base)
    && multiset(u.neverUsed) <= multiset(u.assignedNames[|base|..])
  }

  lemma InitialConsistent<T>(base: seq<T>)
    ensures Consistent(Initial(base), base)
  {
  }

  lemma AssignKeepsConsistent<T>(u: Lists<T>, base: seq<T>, v: T)
    requires Consistent(u, base)
    ensures Consistent(Assign(u, v), base)
  {
    var r := Assign(u, v);
    assert r.assignedNames[|base|..] == u.assignedNames[|base|..] + [v];
  }

  lemma FoundUsageKeepsConsistent<T>(u: Lists<T>, base: seq<T>, v: T)
    requires Consistent(u, base)
    ensures Consistent(FoundUsage(u, v), base)
  {
  }

  /** A use only removes from the never-used list and reports only the name it uses. */
  lemma FoundUsageStaysWithin<T>(u: Lists<T>, v: T, outs: set<T>, ins: set<T>)
    requires forall w <- u.neverUsed :: w in outs
    requires forall w <- u.usedBeforeAssigned :: w in ins
    requires v in ins
    ensures forall w <- FoundUsage(u, v).neverUsed :: w in outs
    ensures forall w <- FoundUsage(u, v).usedBeforeAssigned :: w in ins
  {
    var next := FoundUsage(u, v);
    if v in u.neverUsed && (v in u.assignedNames || v in u.usedBeforeAssigned) {
      forall w <- next.neverUsed ensures w in outs {
        assert multiset(next.neverUsed)[w] > 0;
      }
    }
  }

  lemma {:induction false} UseAllKeepsConsistent<T>(u: Lists<T>, base: seq<T>, vs: seq<T>)
    requires Consistent(u, base)
    ensures Consistent(UseAll(u, vs), base)
    decreases |vs|
  {
    if vs != [] {
      FoundUsageKeepsConsistent(u, base, vs[0]);
      UseAllKeepsConsistent(FoundUsage(u, vs[0]), base, vs[1..]);
    }
  }

  /**
   * The counting rule: every assignment adds one pending occurrence and every
   * use of an assigned name removes one, so a name assigned twice needs two
   * uses before it leaves the never-used list.
   */
  lemma AssignedTwiceNeedsTwoUses<T>(u: Lists<T>, v: T)
    ensures var twice := Assign(Assign(u, v), v);
      && multiset(twice.neverUsed)[v] == multiset(u.neverUsed)[v] + 2
      && multiset(FoundUsage(twice, v).neverUsed)[v] == multiset(u.neverUsed)[v] + 1
      && multiset(FoundUsage(FoundUsage(twice, v), v).neverUsed)[v] == multiset(u.neverUsed)[v]
  {
    var twice := Assign(Assign(u, v), v);
    assert v in twice.assignedNames && v in twice.neverUsed;
    var once := FoundUsage(twice, v);
    assert multiset(once.neverUsed)[v] == multiset(u.neverUsed)[v] + 1;
    assert v in once.neverUsed;
  }

  /** A use never changes the assigned list and reports a name at most once. */
  lemma FoundUsageReportsOnce<T>(u: Lists<T>, base: seq<T>, v: T)
    requires Consistent(u, base)
    ensures FoundUsage(u, v).assignedNames == u.assignedNames
    ensures v in FoundUsage(u, v).usedBeforeAssigned <==> v in u.usedBeforeAssigned || v !in u.assignedNames
    ensures multiset(FoundUsage(u, v).neverUsed) ==
      if v in u.assignedNames then multiset(u.neverUsed) - multiset{v} else multiset(u.neverUsed)
  {
    if v !in u.assignedNames {
      assert v !in u.assignedNames[|base|..];
      assert multiset(u.neverUsed)[v] == 0;
    }
  }

  lemma {:induction false} UseAllOnlyRemoves<T>(u: Lists<T>, vs: seq<T>)
    ensures multiset(UseAll(u, vs).neverUsed) <= multiset(u.neverUsed)
    decreases |vs|
  {
    if vs != [] {
      var next := FoundUsage(u, vs[0]);
      UseAllOnlyRemoves(next, vs[1..]);
    }
  }

  /** Uses report only names that were already reported or are among the uses. */
  lemma {:induction false} UseAllReportsOnlyUses<T>(u: Lists<T>, vs: seq<T>)
    ensures forall v <- UseAll(u, vs).usedBeforeAssigned :: v in u.usedBeforeAssigned || v in vs
    ensures UseAll(u, vs).assignedNames == u.assignedNames
    decreases |vs|
  {
    if vs != [] {
      UseAllReportsOnlyUses(FoundUsage(u, vs[0]), vs[1..]);
    }
  }

  /** Uses of names that are all assigned report nothing new. */
  lemma {:induction false} UsesOfAssignedReportNothing<T>(u: Lists<T>, vs: seq<T>)
    requires forall v <- vs :: v in u.assignedNames
    ensures UseAll(u, vs).usedBeforeAssigned == u.usedBeforeAssigned
    decreases |vs|
  {
    if vs != [] {
      UsesOfAssignedReportNothing(FoundUsage(u, vs[0]), vs[1..]);
    }
  }

  /** The loop that counts the result columns as uses after the pass. */
  method UseResults<T(==)>(u: Lists<T>, names: seq<T>) returns (r: Lists<T>)
    ensures r == UseAll(u, names)
  {
    var varsAssigned, varsNeverUsed, varsUsedBeforeAssigned := u.assignedNames, u.neverUsed, u.usedBeforeAssigned;
    var k := 0;
    while k < |names|
      invariant k <= |names|
      invariant UseAll(Lists(varsAssigned, varsNeverUsed, varsUsedBeforeAssigned), names[k..]) == UseAll(u, names)
    {
      assert names[k..][1..] == names[k + 1..];
      var varName := names[k];
      if varName !in varsAssigned && varName !in varsUsedBeforeAssigned {
        varsUsedBeforeAssigned := varsUsedBeforeAssigned + [varName];
      } else if varName in varsNeverUsed {
        varsNeverUsed := RemoveFirst(varsNeverUsed, varName);
      }
      k := k + 1;
    }
    assert names[k..] == [];
    return Lists(varsAssigned, varsNeverUsed, varsUsedBeforeAssigned);
  }
}
