/**
 * The fragment of Python's `re` module that the MAL translator uses, as a
 * backtracking matcher. A match attempt yields the list of all ways an item
 * sequence can match from a position, in the order Python's engine tries
 * them: greedy constructs (`\d+`, `?`, `+`) longest first, lazy ones (`.+?`,
 * `.*?`) shortest first, alternatives left to right. `fullmatch` takes the
 * first way that ends at the end of the text; `match` takes the first way.
 */
module Regex {
  import opened Wrappers

  datatype Item =
    | Lit(text: string)              // literal text (escaped characters included)
    | AnyChar                        // `.` : one character other than a newline
    | OneOf(chars: string)           // `[XC]` : one of the listed characters
    | Digits                         // `\d+` : greedy run of ASCII digits
    | Lazy(min: nat)                 // `.+?` (min 1) or `.*?` (min 0)
    | Cap(group: nat, body: seq<Item>)  // `( … )` : numbered capturing group
    | Opt(body: seq<Item>)           // `(?: … )?` : greedy optional
    | Alt(options: seq<Item>)        // `(?:a|b|…)` : alternatives in order
    | Seq(body: seq<Item>)           // `(?: … )` : a non-capturing group
    | Plus(body: seq<Item>)          // `(?: … )+` : greedy repetition

  /** The captured groups; a group that did not take part is absent (Python's None). */
  type Caps = map<nat, string>

  /** One way of matching: where it ends and what it captured. */
  datatype Hit = Hit(end: nat, caps: Caps)

  function Size(it: Item): nat
    decreases it
  {
    match it
    case Cap(_, body) => SizeSeq(body) + 1
    case Opt(body) => SizeSeq(body) + 1
    case Alt(options) => SizeSeq(options) + 1
    case Seq(body) => SizeSeq(body) + 1
    case Plus(body) => SizeSeq(body) + 2
    case _ => 1
  }

  function SizeSeq(items: seq<Item>): nat
    decreases items
  {
    if items == [] then 0 else Size(items[0]) + SizeSeq(items[1..]) + 1
  }

  /** The groups an item always sets when it matches. */
  function GroupsOf(it: Item): set<nat>
    decreases it
  {
    match it
    case Cap(k, body) => {k} + TopGroups(body)
    case Seq(body) => TopGroups(body)
    case _ => {}
  }

  /** The groups a sequence always sets: those not under `?`, `|` or `+`. */
  function TopGroups(items: seq<Item>): set<nat>
    decreases items
  {
    if items == [] then {} else GroupsOf(items[0]) + TopGroups(items[1..])
  }

  /** The fewest characters any match of the item consumes. */
  function Width(it: Item): nat
    decreases it
  {
    match it
    case Lit(t) => |t|
    case AnyChar => 1
    case OneOf(_) => 1
    case Digits => 1
    case Lazy(m) => m
    case Cap(_, body) => WidthSeq(body)
    case Seq(body) => WidthSeq(body)
    case Plus(body) => WidthSeq(body)
    case _ => 0
  }

  function WidthSeq(items: seq<Item>): nat
    decreases items
  {
    if items == [] then 0 else Width(items[0]) + WidthSeq(items[1..])
  }

  lemma {:induction false} TopGroupsConcat(a: seq<Item>, b: seq<Item>)
    ensures TopGroups(a + b) == TopGroups(a) + TopGroups(b)
    decreases |a|
  {
    if a != [] {
      assert (a + b)[1..] == a[1..] + b;
      assert (a + b)[0] == a[0];
      TopGroupsConcat(a[1..], b);
      assert TopGroups(a + b) == GroupsOf(a[0]) + TopGroups(a[1..] + b);
    } else {
      assert a + b == b;
    }
  }

  function DigitRun(s: string, i: nat): (n: nat)
    requires i <= |s|
    ensures i + n <= |s|
    ensures forall j :: i <= j < i + n ==> '0' <= s[j] <= '9'
    ensures i + n < |s| ==> !('0' <= s[i + n] <= '9')
    decreases |s| - i
  {
    if i < |s| && '0' <= s[i] <= '9' then 1 + DigitRun(s, i + 1) else 0
  }

  function LineRun(s: string, i: nat): (n: nat)
    requires i <= |s|
    ensures i + n <= |s|
    ensures forall j :: i <= j < i + n ==> s[j] != '\n'
    ensures i + n < |s| ==> s[i + n] == '\n'
    decreases |s| - i
  {
    if i < |s| && s[i] != '\n' then 1 + LineRun(s, i + 1) else 0
  }

  /** Ends i+hi, i+hi-1, …, i+lo: the order a greedy construct tries them. */
  function Descending(i: nat, lo: nat, hi: nat, c: Caps): (r: seq<Hit>)
    ensures forall h <- r :: i + lo <= h.end <= i + hi && h.caps == c
    decreases hi - lo
  {
    if hi < lo then [] else [Hit(i + hi, c)] + (if hi == lo then [] else Descending(i, lo, hi - 1, c))
  }

  /** Ends i+lo, i+lo+1, …, i+hi: the order a lazy construct tries them. */
  function Ascending(i: nat, lo: nat, hi: nat, c: Caps): (r: seq<Hit>)
    ensures forall h <- r :: i + lo <= h.end <= i + hi && h.caps == c
    decreases hi - lo
  {
    if hi < lo then [] else [Hit(i + lo, c)] + (if hi == lo then [] else Ascending(i, lo + 1, hi, c))
  }

  /** All ways the single item `it` matches `s` from position `i`, in trial order. */
  function One(it: Item, s: string, i: nat, c: Caps): (r: seq<Hit>)
    requires i <= |s|
    ensures forall h <- r :: i + Width(it) <= h.end <= |s| && c.Keys + GroupsOf(it) <= h.caps.Keys
    decreases |s| - i, Size(it), 0
  {
    match it
    case Lit(t) =>
      if t <= s[i..] then [Hit(i + |t|, c)] else []
    case AnyChar =>
      if i < |s| && s[i] != '\n' then [Hit(i + 1, c)] else []
    case OneOf(cs) =>
      if i < |s| && s[i] in cs then [Hit(i + 1, c)] else []
    case Digits =>
      Descending(i, 1, DigitRun(s, i), c)
    case Lazy(lo) =>
      Ascending(i, lo, LineRun(s, i), c)
    case Cap(k, body) =>
      var inner := All(body, s, i, c);
      Capture(inner, k, s, i, c.Keys + TopGroups(body), WidthSeq(body))
    case Opt(body) =>
      All(body, s, i, c) + [Hit(i, c)]
    case Alt(options) =>
      AllAlts(options, s, i, c)
    case Seq(body) =>
      All(body, s, i, c)
    case Plus(body) =>
      PlusMore(All(body, s, i, c), body, s, i, c.Keys, WidthSeq(body))
  }

  /** All ways the item sequence `items` matches `s` from position `i`, in trial order. */
  function All(items: seq<Item>, s: string, i: nat, c: Caps): (r: seq<Hit>)
    requires i <= |s|
    ensures forall h <- r :: i + WidthSeq(items) <= h.end <= |s| && c.Keys + TopGroups(items) <= h.caps.Keys
    decreases |s| - i, SizeSeq(items), 0
  {
    if items == [] then [Hit(i, c)]
    else Bind(One(items[0], s, i, c), items[1..], s, i, c.Keys + GroupsOf(items[0]), Width(items[0]))
  }

  /** Continues each way in `hits` with the rest of the sequence. */
  function Bind(hits: seq<Hit>, rest: seq<Item>, s: string, i: nat, ghost keys: set<nat>, ghost w: nat): (r: seq<Hit>)
    requires forall h <- hits :: i + w <= h.end <= |s| && keys <= h.caps.Keys
    ensures forall h <- r :: i + w + WidthSeq(rest) <= h.end <= |s| && keys + TopGroups(rest) <= h.caps.Keys
    decreases |s| - i, SizeSeq(rest) + 1, |hits|
  {
    if hits == [] then []
    else All(rest, s, hits[0].end, hits[0].caps) + Bind(hits[1..], rest, s, i, keys, w)
  }

  /** Records the text from `i` to each way's end as group `k`. */
  function Capture(hits: seq<Hit>, k: nat, s: string, i: nat, ghost keys: set<nat>, ghost w: nat): (r: seq<Hit>)
    requires forall h <- hits :: i + w <= h.end <= |s| && keys <= h.caps.Keys
    ensures forall h <- r :: i + w <= h.end <= |s| && keys + {k} <= h.caps.Keys
    ensures |r| == |hits|
    ensures forall j :: 0 <= j < |hits| ==> r[j] == Hit(hits[j].end, hits[j].caps[k := s[i..hits[j].end]])
  {
    if hits == [] then []
    else [Hit(hits[0].end, hits[0].caps[k := s[i..hits[0].end]])] + Capture(hits[1..], k, s, i, keys, w)
  }

  function AllAlts(options: seq<Item>, s: string, i: nat, c: Caps): (r: seq<Hit>)
    requires i <= |s|
    ensures forall h <- r :: i <= h.end <= |s| && c.Keys <= h.caps.Keys
    decreases |s| - i, SizeSeq(options), 0
  {
    if options == [] then []
    else One(options[0], s, i, c) + AllAlts(options[1..], s, i, c)
  }

  /**
   * Greedy repetition: after each way the body matched, first try further
   * repetitions, then stop there. A body match that consumed nothing ends the
   * repetition, as in Python.
   */
  function PlusMore(hits: seq<Hit>, body: seq<Item>, s: string, i: nat, ghost keys: set<nat>, ghost w: nat): (r: seq<Hit>)
    requires forall h <- hits :: i + w <= h.end <= |s| && keys <= h.caps.Keys
    ensures forall h <- r :: i + w <= h.end <= |s| && keys <= h.caps.Keys
    decreases |s| - i, SizeSeq(body) + 1, |hits|
  {
    if hits == [] then []
    else
      var h := hits[0];
      var more := if h.end > i then One(Plus(body), s, h.end, h.caps) else [];
      more + [h] + PlusMore(hits[1..], body, s, i, keys, w)
  }

  /** The first way that ends at `n`. */
  function FirstEndingAt(hits: seq<Hit>, n: nat): (r: Option<Caps>)
    ensures r.Some? ==> exists h <- hits :: h.end == n && h.caps == r.value
    ensures r.None? ==> forall h <- hits :: h.end != n
  {
    if hits == [] then None
    else if hits[0].end == n then Some(hits[0].caps)
    else FirstEndingAt(hits[1..], n)
  }

  /** Python's `pattern.fullmatch(s)`: the groups of the first way that consumes all of `s`. */
  function FullMatch(pattern: seq<Item>, s: string): (r: Option<Caps>)
    ensures r.Some? ==> TopGroups(pattern) <= r.value.Keys
  {
    FirstEndingAt(All(pattern, s, 0, map[]), |s|)
  }

  /** Python's `pattern.match(s)`: the first way of matching a prefix of `s`. */
  function PrefixMatch(pattern: seq<Item>, s: string): (r: Option<Hit>)
    ensures r.Some? ==> WidthSeq(pattern) <= r.value.end <= |s| && TopGroups(pattern) <= r.value.caps.Keys
  {
    var hits := All(pattern, s, 0, map[]);
    if hits == [] then None else Some(hits[0])
  }

  /** A literal pattern matches exactly its own text. */
  lemma FullMatchLiteral(t: string, s: string)
    ensures FullMatch([Lit(t)], s).Some? <==> s == t
  {
    var hits := All([Lit(t)], s, 0, map[]);
    assert [Lit(t)][1..] == [];
    assert s[0..] == s;
    var first := One(Lit(t), s, 0, map[]);
    var none: Caps := map[];
    assert hits == Bind(first, [], s, 0, none.Keys + GroupsOf(Lit(t)), |t|);
    if t <= s {
      assert first == [Hit(|t|, map[])];
      assert hits == [Hit(|t|, map[])];
      assert t == s ==> hits[0].end == |s|;
      assert hits[0].end == |s| ==> s == t;
    } else {
      assert first == [];
      assert hits == [];
    }
  }
}
