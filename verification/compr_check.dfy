/**
 * Selecting a compression configuration by name, and the check run after
 * it that every format slot of every node has been set.
 */
module ComprCheck {
  import opened Wrappers
  import opened ProcessingStyles
  import opened Operators
  import opened ComprNames
  import opened ComprConfigs
  import opened ComprDynamic

  // ---------------------------------------------------------------------------
  // checkAllFormatsSet
  // ---------------------------------------------------------------------------

  predicate Unset(s: Slot) { s.FmtSlot? && s.format.None? }

  /** The first slot from index i on whose format is still None. */
  function FirstUnsetFrom(slots: seq<Slot>, i: nat): (r: Option<Slot>)
    requires i <= |slots|
    ensures r.None? <==> forall j :: i <= j < |slots| ==> !Unset(slots[j])
    ensures r.Some? ==> exists j :: i <= j < |slots| && slots[j] == r.value && Unset(r.value) &&
                          forall l :: i <= l < j ==> !Unset(slots[l])
    decreases |slots| - i
  {
    if i == |slots| then None
    else if Unset(slots[i]) then Some(slots[i])
    else FirstUnsetFrom(slots, i + 1)
  }

  /** The number of nodes among the first k elements; lines are not counted. */
  function OpsBefore(p: seq<Element>, k: nat): nat
    requires k <= |p|
  {
    if k == 0 then 0 else OpsBefore(p, k - 1) + (if p[k - 1].OpEl? then 1 else 0)
  }

  /** The scan from element i, with `opIdx` counting the nodes passed so far. */
  function CheckFrom(p: seq<Element>, i: nat, opIdx: nat, groupOpName: string): Option<ComprError>
    requires i <= |p|
    decreases |p| - i
  {
    if i == |p| then None
    else
      match p[i]
      case Line(_) => CheckFrom(p, i + 1, opIdx, groupOpName)
      case OpEl(o) =>
        match FirstUnsetFrom(FormatSlots(o), 0)
        case Some(s) => Some(FormatNotSet(Key(s), OpName(o, groupOpName), opIdx))
        case None => CheckFrom(p, i + 1, opIdx + 1, groupOpName)
  }

  /**
   * `checkAllFormatsSet`: None, or the error it raises. `groupOpName` is
   * the operator name the group kinds carry at the time of the check.
   */
  function CheckAllFormatsSet(p: seq<Element>, groupOpName: string): Option<ComprError>
  {
    CheckFrom(p, 0, 0, groupOpName)
  }

  ghost predicate FormatsSet(o: Op) { forall s <- FormatSlots(o) :: s.format.Some? }

  /** Every node among p[i..k] has all its formats set. */
  ghost predicate SetBetween(p: seq<Element>, i: nat, k: nat)
    requires i <= k <= |p|
  {
    forall l :: i <= l < k && p[l].OpEl? ==> FormatsSet(p[l].node)
  }

  ghost predicate ProgramFormatsSet(p: seq<Element>) { SetBetween(p, 0, |p|) }

  /**
   * The error names the first unset slot of node k (the first one from i
   * on with an unset slot), the operator name of its class, and its
   * position counted over nodes.
   */
  ghost predicate ReportsAt(p: seq<Element>, i: nat, k: nat, err: ComprError, groupOpName: string)
  {
    && i <= k < |p| && p[k].OpEl? && SetBetween(p, i, k)
    && FirstUnsetFrom(FormatSlots(p[k].node), 0).Some?
    && err == FormatNotSet(Key(FirstUnsetFrom(FormatSlots(p[k].node), 0).value), OpName(p[k].node, groupOpName), OpsBefore(p, k))
  }

  lemma FormatsSetIff(o: Op)
    ensures FirstUnsetFrom(FormatSlots(o), 0).None? <==> FormatsSet(o)
  {
    var fs := FormatSlots(o);
    assert forall s <- fs :: exists j :: 0 <= j < |fs| && fs[j] == s;
  }

  /** Whether element e, as the scan meets it, has an unset format. */
  predicate HasUnset(e: Element)
  {
    e.OpEl? && FirstUnsetFrom(FormatSlots(e.node), 0).Some?
  }

  lemma SetBetweenStep(p: seq<Element>, i: nat, k: nat)
    requires i < k <= |p|
    ensures SetBetween(p, i, k) <==> !HasUnset(p[i]) && SetBetween(p, i + 1, k)
  {
    if p[i].OpEl? {
      FormatsSetIff(p[i].node);
    }
  }

  /** The scan from i passes exactly when every node from i on has all its formats set. */
  lemma {:induction false} CheckFromNone(p: seq<Element>, i: nat, n: nat, groupOpName: string)
    requires i <= |p|
    ensures CheckFrom(p, i, n, groupOpName).None? <==> SetBetween(p, i, |p|)
    decreases |p| - i
  {
    if i < |p| {
      SetBetweenStep(p, i, |p|);
      if !HasUnset(p[i]) {
        CheckFromNone(p, i + 1, if p[i].OpEl? then n + 1 else n, groupOpName);
      }
    }
  }

  /** When the scan from i raises, it reports the first node from i on with an unset format. */
  lemma {:induction false} CheckFromSome(p: seq<Element>, i: nat, groupOpName: string)
    requires i <= |p|
    ensures var r := CheckFrom(p, i, OpsBefore(p, i), groupOpName);
      r.Some? ==> exists k :: ReportsAt(p, i, k, r.value, groupOpName)
    decreases |p| - i
  {
    if i < |p| {
      var n := OpsBefore(p, i);
      assert OpsBefore(p, i + 1) == n + (if p[i].OpEl? then 1 else 0);
      if HasUnset(p[i]) {
        assert ReportsAt(p, i, i, CheckFrom(p, i, n, groupOpName).value, groupOpName);
      } else {
        CheckFromSome(p, i + 1, groupOpName);
        var r := CheckFrom(p, i + 1, OpsBefore(p, i + 1), groupOpName);
        if r.Some? {
          var k :| ReportsAt(p, i + 1, k, r.value, groupOpName);
          SetBetweenStep(p, i, k);
          assert ReportsAt(p, i, k, r.value, groupOpName);
        }
      }
    }
  }

  /**
   * `checkAllFormatsSet` raises exactly when some node has an unset format;
   * it then names the first unset slot of the first such node, the
   * operator name of that node's class, and its position counted over
   * nodes only.
   */
  lemma CheckAllFormatsSetSpec(p: seq<Element>, groupOpName: string)
    ensures CheckAllFormatsSet(p, groupOpName).None? <==> ProgramFormatsSet(p)
    ensures CheckAllFormatsSet(p, groupOpName).Some? ==>
      exists k :: ReportsAt(p, 0, k, CheckAllFormatsSet(p, groupOpName).value, groupOpName)
  {
    CheckFromNone(p, 0, 0, groupOpName);
    CheckFromSome(p, 0, groupOpName);
  }

  // ---------------------------------------------------------------------------
  // configCompr
  // ---------------------------------------------------------------------------

  /** `configCompr`: the configuration of the given name, or the error for an unknown name. */
  function ConfigCompr(q: Program, name: string, maxBw: map<string, nat>, ps: ProcessingStyle): Result<Program, ComprError>
  {
    if name == CC_ALLUNCOMPR then Ok(AllUncompr(q))
    else if name == CC_ALLSTATICVBP then AllStaticVBP(q, maxBw, ps)
    else if name == CC_ALLDYNAMICVBP then Ok(AllDynamicVBP(q, ps))
    else if name == CC_ALLDYNAMICVBP_PROJSTATICVBP then AllDynamicVBPProjectStaticVBP(q, maxBw, ps)
    else Err(UnsupportedConfig(name))
  }

  /**
   * configCompr raises the unsupported-configuration error exactly for the
   * names outside COMPR_CONFIGS; any other error is a missing bit width.
   */
  lemma ConfigComprSpec(q: Program, name: string, maxBw: map<string, nat>, ps: ProcessingStyle)
    ensures var r := ConfigCompr(q, name, maxBw, ps);
      && (r == Err(UnsupportedConfig(name)) <==> name !in COMPR_CONFIGS)
      && (r.Err? && !r.error.UnsupportedConfig? ==> r.error.MissingBitWidth? && r.error.column !in maxBw)
  {
    if name == CC_ALLSTATICVBP {
      AllStaticVBPSpec(q, maxBw, ps);
    } else if name == CC_ALLDYNAMICVBP_PROJSTATICVBP {
      ProjectStaticWithSpec(q, OutDataF, maxBw, ps);
    }
  }

  /** A refill whose every target is a format leaves no slot of the node unset. */
  lemma RefilledSet(e: Element, e2: Element, target: (Op, Slot) -> Format)
    requires Refilled(e, e2, target)
    requires e.OpEl? ==> forall j :: 0 <= j < |FormatSlots(e.node)| ==> target(e.node, FormatSlots(e.node)[j]).Some?
    ensures e2.OpEl? ==> FormatsSet(e2.node)
  {
    if e.OpEl? {
      var fs := FormatSlots(e2.node);
      forall s <- fs
        ensures s.format.Some?
      {
        var j :| 0 <= j < |fs| && fs[j] == s;
      }
    }
  }

  /**
   * Every configuration that succeeds leaves every format slot set, so
   * checkAllFormatsSet passes on its result.
   */
  lemma ConfigComprSetsAllFormats(q: Program, name: string, maxBw: map<string, nat>, ps: ProcessingStyle, groupOpName: string)
    requires ConfigCompr(q, name, maxBw, ps).Ok?
    ensures CheckAllFormatsSet(ConfigCompr(q, name, maxBw, ps).value.prog, groupOpName).None?
  {
    var r := ConfigCompr(q, name, maxBw, ps).value;
    forall k | 0 <= k < |r.prog| && r.prog[k].OpEl?
      ensures FormatsSet(r.prog[k].node)
    {
      if name == CC_ALLUNCOMPR {
        AllUncomprSpec(q);
      } else if name == CC_ALLSTATICVBP {
        StaticSet(q, k, maxBw, ps);
      } else if name == CC_ALLDYNAMICVBP {
        DynamicSet(q, k, ps);
      } else {
        ProjectStaticSet(q, OutDataF, k, maxBw, ps);
      }
    }
    CheckAllFormatsSetSpec(r.prog, groupOpName);
  }

  lemma DynamicSet(q: Program, k: nat, ps: ProcessingStyle)
    requires k < |q.prog|
    ensures var r := AllDynamicVBP(q, ps);
      k < |r.prog| && (r.prog[k].OpEl? ==> FormatsSet(r.prog[k].node))
  {
    AllDynamicVBPSpec(q, ps);
    RefilledSet(q.prog[k], AllDynamicVBP(q, ps).prog[k], (o, f) => DynamicTarget(ps, o, f));
  }

  lemma StaticSet(q: Program, k: nat, maxBw: map<string, nat>, ps: ProcessingStyle)
    requires AllStaticVBP(q, maxBw, ps).Ok? && k < |q.prog|
    ensures var r := AllStaticVBP(q, maxBw, ps).value;
      k < |r.prog| && (r.prog[k].OpEl? ==> FormatsSet(r.prog[k].node))
  {
    AllStaticVBPSpec(q, maxBw, ps);
    var r := AllStaticVBP(q, maxBw, ps).value;
    var t := (o, f) => StaticConfigTarget(maxBw, ps, o, f);
    if q.prog[k].OpEl? && StaticKind(q.prog[k].node) {
      var o := q.prog[k].node;
      forall j | 0 <= j < |FormatSlots(o)|
        ensures t(o, FormatSlots(o)[j]).Some?
      {
        assert FormatSlots(o)[j] in FormatSlots(o);
      }
    }
    RefilledSet(q.prog[k], r.prog[k], t);
  }

  lemma ProjectStaticSet(q: Program, w: Watch, k: nat, maxBw: map<string, nat>, ps: ProcessingStyle)
    requires ProjectStaticWith(q, w, maxBw, ps).Ok? && k < |q.prog|
    ensures var r := ProjectStaticWith(q, w, maxBw, ps).value;
      k < |r.prog| && (r.prog[k].OpEl? ==> FormatsSet(r.prog[k].node))
  {
    ProjectStaticWithSpec(q, w, maxBw, ps);
    var r := ProjectStaticWith(q, w, maxBw, ps).value;
    var t := (o, f) => ProjectStaticTarget(maxBw, ps, UsedAfter(q.prog, k, w), o, f);
    RefilledSet(q.prog[k], r.prog[k], t);
  }

  /**
   * The corrected project-static configuration, too, leaves every format
   * slot set when it succeeds, so checkAllFormatsSet passes on its result.
   */
  lemma IntendedSetsAllFormats(q: Program, maxBw: map<string, nat>, ps: ProcessingStyle, groupOpName: string)
    requires AllDynamicVBPProjectStaticVBPIntended(q, maxBw, ps).Ok?
    ensures CheckAllFormatsSet(AllDynamicVBPProjectStaticVBPIntended(q, maxBw, ps).value.prog, groupOpName).None?
  {
    var r := AllDynamicVBPProjectStaticVBPIntended(q, maxBw, ps).value;
    forall k | 0 <= k < |r.prog| && r.prog[k].OpEl?
      ensures FormatsSet(r.prog[k].node)
    {
      ProjectStaticWithSpec(q, OutDataCol, maxBw, ps);
      ProjectStaticSet(q, OutDataCol, k, maxBw, ps);
    }
    CheckAllFormatsSetSpec(r.prog, groupOpName);
  }
}
