/**
 * Python's ordering of strings (code point by code point, a proper prefix
 * first) and `sorted` applied to a set of strings: the strictly ascending
 * list of its members.
 */
module SortedStrings {

  /** `a < b` on Python strings. */
  predicate Less(a: string, b: string)
    decreases |a|
  {
    |b| > 0 && (|a| == 0 || a[0] < b[0] || (a[0] == b[0] && Less(a[1..], b[1..])))
  }

  lemma {:induction false} LessIrreflexive(a: string)
    ensures !Less(a, a)
    decreases |a|
  {
    if |a| > 0 {
      LessIrreflexive(a[1..]);
    }
  }

  lemma {:induction false} LessTransitive(a: string, b: string, c: string)
    requires Less(a, b) && Less(b, c)
    ensures Less(a, c)
    decreases |a|
  {
    if |a| > 0 && a[0] == b[0] && b[0] == c[0] {
      LessTransitive(a[1..], b[1..], c[1..]);
    }
  }

  lemma {:induction false} LessTotal(a: string, b: string)
    ensures a == b || Less(a, b) || Less(b, a)
    decreases |a|
  {
    if |a| > 0 && |b| > 0 && a[0] == b[0] {
      LessTotal(a[1..], b[1..]);
      if a[1..] == b[1..] {
        assert a == [a[0]] + a[1..] && b == [b[0]] + b[1..];
      }
    }
  }

  /** Each member is smaller than the next. */
  predicate StrictlyAscending(s: seq<string>)
  {
    forall i, j :: 0 <= i < j < |s| ==> Less(s[i], s[j])
  }

  ghost predicate IsLeast(m: string, s: set<string>)
  {
    m in s && forall x <- s :: !Less(x, m)
  }

  lemma {:induction false} LeastExists(s: set<string>)
    requires s != {}
    ensures exists m :: IsLeast(m, s)
    decreases |s|
  {
    var y :| y in s;
    var rest := s - {y};
    if rest == {} {
      assert s == {y};
      LessIrreflexive(y);
      assert IsLeast(y, s);
    } else {
      LeastExists(rest);
      var m :| IsLeast(m, rest);
      LessTotal(m, y);
      if Less(y, m) {
        forall x <- s ensures !Less(x, y) {
          if x == y {
            LessIrreflexive(y);
          } else if Less(x, y) {
            LessTransitive(x, y, m);
          }
        }
        assert IsLeast(y, s);
      } else {
        LessIrreflexive(m);
        assert IsLeast(m, s);
      }
    }
  }

  /** The least member of a nonempty set of strings. */
  ghost function Least(s: set<string>): (m: string)
    requires s != {}
    ensures IsLeast(m, s)
  {
    LeastExists(s);
    var m :| IsLeast(m, s); m
  }

  /** Two least members are the same string. */
  lemma LeastUnique(m1: string, m2: string, s: set<string>)
    requires IsLeast(m1, s) && IsLeast(m2, s)
    ensures m1 == m2
  {
    LessTotal(m1, m2);
  }

  /** `list(sorted(s))` for a set of strings: the least member first, then the rest sorted. */
  ghost function Sorted(s: set<string>): seq<string>
    decreases |s|
  {
    if s == {} then [] else [Least(s)] + Sorted(s - {Least(s)})
  }

  /** The sorted list holds each member of the set once. */
  lemma {:induction false} SortedMembers(s: set<string>)
    ensures |Sorted(s)| == |s|
    ensures forall x :: x in Sorted(s) <==> x in s
    decreases |s|
  {
    if s != {} {
      var m := Least(s);
      SortedMembers(s - {m});
      assert Sorted(s) == [m] + Sorted(s - {m});
    }
  }

  /** The sorted list is strictly ascending. */
  lemma {:induction false} SortedAscending(s: set<string>)
    ensures StrictlyAscending(Sorted(s))
    decreases |s|
  {
    if s != {} {
      var m := Least(s);
      var rest := Sorted(s - {m});
      SortedAscending(s - {m});
      SortedMembers(s - {m});
      LeastBelowRest(m, s, rest);
      AscendingCons(m, rest);
    }
  }

  lemma AscendingCons(m: string, rest: seq<string>)
    requires StrictlyAscending(rest)
    requires forall j :: 0 <= j < |rest| ==> Less(m, rest[j])
    ensures StrictlyAscending([m] + rest)
  {
    var r := [m] + rest;
    forall i, j | 0 <= i < j < |r| ensures Less(r[i], r[j]) {
      assert r[j] == rest[j - 1];
      if i > 0 {
        assert r[i] == rest[i - 1];
      }
    }
  }

  lemma LeastBelowRest(m: string, s: set<string>, rest: seq<string>)
    requires IsLeast(m, s) && forall x <- rest :: x in s - {m}
    ensures forall j :: 0 <= j < |rest| ==> Less(m, rest[j])
  {
    forall j | 0 <= j < |rest| ensures Less(m, rest[j]) {
      assert rest[j] in s - {m};
      LessTotal(m, rest[j]);
    }
  }

  /** The position of a member of a sequence. */
  function IndexOf(s: seq<string>, x: string): (k: nat)
    requires x in s
    ensures k < |s| && s[k] == x && x !in s[..k]
  {
    if s[0] == x then 0 else 1 + IndexOf(s[1..], x)
  }

  /**
   * In a strictly ascending list the positions order the members as the
   * strings are ordered, and each position holds exactly one member.
   */
  lemma IndexOfOrder(s: seq<string>, a: string, b: string)
    requires StrictlyAscending(s) && a in s && b in s
    ensures Less(a, b) <==> IndexOf(s, a) < IndexOf(s, b)
    ensures a == b <==> IndexOf(s, a) == IndexOf(s, b)
  {
    var i, j := IndexOf(s, a), IndexOf(s, b);
    LessIrreflexive(a);
    if j < i && Less(a, b) {
      LessTransitive(a, b, a);
    }
  }

  /** A strictly ascending list holds each member once, so the position of its i-th member is i. */
  lemma IndexOfAt(s: seq<string>, i: nat)
    requires StrictlyAscending(s) && i < |s|
    ensures IndexOf(s, s[i]) == i
  {
    var k := IndexOf(s, s[i]);
    if k < i {
      AscendingDistinct(s, k, i);
    }
  }

  lemma AscendingDistinct(s: seq<string>, i: nat, j: nat)
    requires StrictlyAscending(s) && i < j < |s|
    ensures s[i] != s[j]
  {
    LessIrreflexive(s[i]);
  }

  /** Picks the least member of a nonempty set by comparing each member with the best so far. */
  method LeastOf(s: set<string>) returns (m: string)
    requires s != {}
    ensures m == Least(s)
  {
    m :| m in s;
    var rest := s - {m};
    ghost var seen := {m};
    LessIrreflexive(m);
    while rest != {}
      invariant rest + seen == s && rest !! seen
      invariant IsLeast(m, seen)
      decreases |rest|
    {
      var x :| x in rest;
      LessTotal(x, m);
      if Less(x, m) {
        forall y <- seen ensures !Less(y, x) {
          if Less(y, x) {
            LessTransitive(y, x, m);
          }
        }
        LessIrreflexive(x);
        m := x;
      }
      rest, seen := rest - {x}, seen + {x};
    }
    LeastUnique(m, Least(s), s);
  }

  /** `list(sorted(s))`: the members of s, smallest first, by repeated selection of the least. */
  method SortSet(s: set<string>) returns (r: seq<string>)
    ensures r == Sorted(s)
  {
    r := [];
    var rest := s;
    while rest != {}
      invariant rest <= s
      invariant r + Sorted(rest) == Sorted(s)
      decreases |rest|
    {
      var m := LeastOf(rest);
      assert r + Sorted(rest) == (r + [m]) + Sorted(rest - {m});
      r, rest := r + [m], rest - {m};
    }
  }
}
