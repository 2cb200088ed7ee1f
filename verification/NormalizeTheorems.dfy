/** Parameter numbers over a whole walk, and the normalised query as a whole. */
module NormalizeTheorems {
  import opened NormalizeText
  import opened NormalizeSplice
  import opened NormalizeWalk

  // ---------- New ids are 1, 2, ..., highest - 1 ----------

  predicate NoSelect(t: Tree) {
    match t
    case Branch(children) => forall i | 0 <= i < |children| :: NoSelect(children[i])
    case Select(_, _, _, _, _, _) => false
    case _ => true
  }

  /** No GROUP BY item has a sub-select. */
  predicate GroupsPlain(t: Tree)
    decreases t, 1
  {
    match t
    case Branch(children) => AllGroupsPlain(children)
    case Select(before, targets, middle, groups, sorts, after) =>
      && AllGroupsPlain(before) && ItemsGroupsPlain(targets) && AllGroupsPlain(middle)
      && (forall i | 0 <= i < |groups| :: NoSelect(groups[i].node))
      && ItemsGroupsPlain(sorts) && AllGroupsPlain(after)
    case _ => true
  }

  predicate AllGroupsPlain(ts: seq<Tree>)
    decreases ts, 0
  {
    ts == [] || (GroupsPlain(ts[0]) && AllGroupsPlain(ts[1..]))
  }

  predicate ItemsGroupsPlain(items: seq<Item>)
    decreases items, 0
  {
    items == [] || (ItemGroupsPlain(items[0]) && ItemsGroupsPlain(items[1..]))
  }

  predicate ItemGroupsPlain(item: Item)
    decreases item, 2
  {
    GroupsPlain(item.node)
  }

  /** An id that has been given out, or a number that occurs in the query. */
  predicate IdOk(id: int, highestNormalize: int, highestExtern: nat) {
    if id < 0 then -id < highestNormalize else id <= highestExtern
  }

  predicate InUse(locs: seq<LocationLen>, n: int) {
    exists i :: 0 <= i < |locs| && locs[i].paramId == -n
  }

  predicate RefsOk(refs: seq<int>, highestNormalize: int, highestExtern: nat) {
    forall i | 0 <= i < |refs| :: IdOk(refs[i], highestNormalize, highestExtern)
  }

  /** The new ids in use are exactly 1 up to highest - 1, and all others are numbers from the query. */
  ghost predicate IdsOk(locs: seq<LocationLen>, highestNormalize: int, highestExtern: nat) {
    && highestNormalize >= 1 && Fresh(locs)
    && (forall i | 0 <= i < |locs| :: IdOk(locs[i].paramId, highestNormalize, highestExtern))
    && (forall n | 1 <= n < highestNormalize :: InUse(locs, n))
  }

  ghost predicate Numbered(s: Recorder) {
    IdsOk(s.clocations, s.highestNormalize, s.highestExtern) && RefsOk(RefsOf(s), s.highestNormalize, s.highestExtern)
  }

  /** Nothing that was recorded before is changed, and there are no more new ids than new records. */
  predicate Later(s: Recorder, s': Recorder) {
    && s.clocations <= s'.clocations && s.highestExtern <= s'.highestExtern
    && 0 <= s'.highestNormalize - s.highestNormalize <= |s'.clocations| - |s.clocations|
  }

  ghost predicate Keeps(s: Recorder, s': Recorder) {
    Numbered(s') && Later(s, s')
  }

  lemma KeepsTwice(s: Recorder, s1: Recorder, s2: Recorder)
    requires Keeps(s, s1) && Keeps(s1, s2)
    ensures Keeps(s, s2)
  {
    hide Numbered;
  }

  ghost predicate TargetsOk(refs: seq<FpAndParamRefs>, s: Recorder) {
    forall k | 0 <= k < |refs| :: RefsOk(refs[k].paramRefs, s.highestNormalize, s.highestExtern)
  }

  lemma TargetsLater(refs: seq<FpAndParamRefs>, s: Recorder, s': Recorder)
    requires TargetsOk(refs, s) && Later(s, s')
    ensures TargetsOk(refs, s')
  {
    forall k | 0 <= k < |refs| ensures RefsOk(refs[k].paramRefs, s'.highestNormalize, s'.highestExtern) {
      assert RefsOk(refs[k].paramRefs, s.highestNormalize, s.highestExtern);
    }
  }

  lemma RecordKeeps(s: Recorder, location: int)
    requires Numbered(s)
    ensures Keeps(s, Record(s, location))
  {
    if location >= 0 {
      var s' := Record(s, location);
      forall n | 1 <= n < s'.highestNormalize ensures InUse(s'.clocations, n) {
        if n < s.highestNormalize {
          assert InUse(s.clocations, n);
          var i :| 0 <= i < |s.clocations| && s.clocations[i].paramId == -n;
          assert s'.clocations[i].paramId == -n;
        } else {
          assert s'.clocations[|s.clocations|].paramId == -n;
        }
      }
    }
  }

  lemma SeeParamKeeps(s: Recorder, number: nat)
    requires Numbered(s)
    ensures Keeps(s, SeeParam(s, number))
  {
    hide InUse;
  }

  lemma {:induction false} TreeKeeps(t: Tree, s: Recorder)
    requires GroupsPlain(t) && Numbered(s)
    ensures Keeps(s, WalkTree(t, s))
    decreases t, 1
  {
    hide Numbered, Record, SeeParam, Later;
    match t
    case Const(location) => RecordKeeps(s, location);
    case Param(number) => SeeParamKeeps(s, number);
    case Branch(children) => AllKeeps(children, s);
    case Select(before, targets, middle, groups, sorts, after) =>
      var s0 := WalkAll(before, s);
      AllKeeps(before, s);
      var (s1, refs) := WalkTargets(targets, s0, []);
      TargetsKeep(targets, s0, []);
      KeepsTwice(s, s0, s1);
      var s2 := WalkAll(middle, s1);
      AllKeeps(middle, s1);
      KeepsTwice(s, s1, s2);
      TargetsLater(refs, s1, s2);
      TargetsStopRecording(targets, s0, []);
      if s1.paramRefs.None? { AllNotRecording(middle, s1); }
      var s3 := WalkGroups(groups, s2, refs);
      GroupsKeep(groups, s2, refs);
      KeepsTwice(s, s2, s3);
      var s4 := WalkSorts(sorts, s3);
      SortsKeep(sorts, s3);
      KeepsTwice(s, s3, s4);
      AllKeeps(after, s4);
      KeepsTwice(s, s4, WalkAll(after, s4));
  }

  lemma KeepsNothing(s: Recorder)
    requires Numbered(s)
    ensures Keeps(s, s)
  {
  }

  lemma {:induction false} AllKeeps(ts: seq<Tree>, s: Recorder)
    requires AllGroupsPlain(ts) && Numbered(s)
    ensures Keeps(s, WalkAll(ts, s))
    decreases ts, 0
  {
    hide Numbered, Later, GroupsPlain, WalkTree;
    KeepsNothing(s);
    if ts != [] {
      var s1 := WalkTree(ts[0], s);
      TreeKeeps(ts[0], s);
      AllKeeps(ts[1..], s1);
      KeepsTwice(s, s1, WalkAll(ts[1..], s1));
    }
  }

  lemma {:induction false} TargetKeeps(item: Item, s: Recorder)
    requires ItemGroupsPlain(item) && Numbered(s)
    ensures Keeps(s, WalkTarget(item, s).(paramRefs := None))
    ensures RefsOk(RefsOf(WalkTarget(item, s)), WalkTarget(item, s).highestNormalize, WalkTarget(item, s).highestExtern)
    decreases item, 2
  {
    hide IdsOk, WalkTree;
    TreeKeeps(item.node, s.(paramRefs := Some([])));
  }

  lemma {:induction false} TargetsKeep(items: seq<Item>, s: Recorder, refs: seq<FpAndParamRefs>)
    requires ItemsGroupsPlain(items) && Numbered(s) && TargetsOk(refs, s)
    ensures Keeps(s, WalkTargets(items, s, refs).0) && TargetsOk(WalkTargets(items, s, refs).1, WalkTargets(items, s, refs).0)
    decreases items, 0
  {
    hide Numbered, Later, WalkTarget, ItemGroupsPlain, RefsOk;
    KeepsNothing(s);
    if items != [] {
      var s1 := WalkTarget(items[0], s);
      TargetKeeps(items[0], s);
      var s2 := s1.(paramRefs := None);
      TargetsLater(refs, s, s2);
      var refs2 := refs + [FpAndParamRefs(items[0].fp, RefsOf(s1))];
      TargetsKeep(items[1..], s2, refs2);
      KeepsTwice(s, s2, WalkTargets(items[1..], s2, refs2).0);
    }
  }

  lemma {:induction false} SortsKeep(items: seq<Item>, s: Recorder)
    requires ItemsGroupsPlain(items) && Numbered(s)
    ensures Keeps(s, WalkSorts(items, s))
    decreases items, 0
  {
    hide Numbered, Later, WalkSort, ItemGroupsPlain;
    KeepsNothing(s);
    if items != [] {
      var s1 := WalkSort(items[0], s);
      SortKeeps(items[0], s);
      SortsKeep(items[1..], s1);
      KeepsTwice(s, s1, WalkSorts(items[1..], s1));
    }
  }

  lemma {:induction false} SortKeeps(item: Item, s: Recorder)
    requires ItemGroupsPlain(item) && Numbered(s)
    ensures Keeps(s, WalkSort(item, s))
    decreases item, 2
  {
    hide Numbered, Later, WalkTree;
    KeepsNothing(s);
    if !item.isInteger {
      TreeKeeps(item.node, s);
    }
  }

  // ---------- A tree without sub-selects takes consecutive ids ----------

  predicate Consecutive(s: Recorder, s': Recorder) {
    && s.clocations <= s'.clocations
    && s'.highestNormalize == s.highestNormalize + |s'.clocations| - |s.clocations|
    && (forall i | |s.clocations| <= i < |s'.clocations| :: s'.clocations[i].paramId == -(s.highestNormalize + i - |s.clocations|))
  }

  lemma ConsecutiveTwice(s: Recorder, s1: Recorder, s2: Recorder)
    requires Consecutive(s, s1) && Consecutive(s1, s2)
    ensures Consecutive(s, s2)
  {
    forall i | |s.clocations| <= i < |s1.clocations| ensures s2.clocations[i].paramId == -(s.highestNormalize + i - |s.clocations|) {
      assert s2.clocations[i] == s1.clocations[i];
    }
  }

  lemma {:induction false} PlainTree(t: Tree, s: Recorder)
    requires NoSelect(t)
    ensures Consecutive(s, WalkTree(t, s))
    decreases t, 1
  {
    if t.Branch? {
      PlainAll(t.children, s);
    }
  }

  lemma {:induction false} PlainAll(ts: seq<Tree>, s: Recorder)
    requires forall i | 0 <= i < |ts| :: NoSelect(ts[i])
    ensures Consecutive(s, WalkAll(ts, s))
    decreases ts, 0
  {
    hide WalkTree, NoSelect;
    if ts != [] {
      var s1 := WalkTree(ts[0], s);
      PlainTree(ts[0], s);
      PlainAll(ts[1..], s1);
      ConsecutiveTwice(s, s1, WalkAll(ts[1..], s1));
    }
  }

  lemma {:induction false} NoSelectGroupsPlain(t: Tree)
    requires NoSelect(t)
    ensures GroupsPlain(t)
  {
    if t.Branch? { AllNoSelect(t.children); }
  }

  lemma {:induction false} AllNoSelect(ts: seq<Tree>)
    requires forall i | 0 <= i < |ts| :: NoSelect(ts[i])
    ensures AllGroupsPlain(ts)
    decreases ts, 0
  {
    if ts != [] {
      NoSelectGroupsPlain(ts[0]);
      AllNoSelect(ts[1..]);
    }
  }

  // ---------- GROUP BY ----------

  lemma InUseLater(a: seq<LocationLen>, b: seq<LocationLen>, n: int)
    requires InUse(a, n) && |a| <= |b| && b[..|a|] == a
    ensures InUse(b, n)
  {
    var i :| 0 <= i < |a| && a[i].paramId == -n;
    assert b[i] == b[..|a|][i];
  }

  /** Giving the records of an item other ids releases the ones that they took. */
  lemma ReuseKeeps(s: Recorder, s1: Recorder, ids: seq<int>)
    requires Numbered(s) && Numbered(s1) && Later(s, s1) && Consecutive(s, s1) && RefsOk(ids, s.highestNormalize, s.highestExtern)
    requires |s1.clocations| == |s.clocations| + |ids| && RefsOk(RefsOf(s1), s.highestNormalize, s1.highestExtern)
    ensures Keeps(s, s1.(clocations := WithIds(s1.clocations, |s.clocations|, ids), highestNormalize := s1.highestNormalize - |ids|))
  {
    var from := |s.clocations|;
    var locs := WithIds(s1.clocations, from, ids);
    assert locs[..from] == s1.clocations[..from] == s.clocations;
    forall i | 0 <= i < |locs| ensures IdOk(locs[i].paramId, s.highestNormalize, s1.highestExtern) && locs[i].location >= 0 && locs[i].length == -1 {
      if i < from {
        assert locs[i] == locs[..from][i] == s.clocations[i];
      } else {
        assert locs[i] == s1.clocations[i].(paramId := ids[i - from]);
      }
    }
    forall n | 1 <= n < s.highestNormalize ensures InUse(locs, n) {
      assert InUse(s.clocations, n);
      InUseLater(s.clocations, locs, n);
    }
  }

  lemma {:induction false} GroupKeeps(item: Item, s: Recorder, refs: seq<FpAndParamRefs>)
    requires NoSelect(item.node) && Numbered(s) && TargetsOk(refs, s) && (s.paramRefs.None? || refs == [])
    ensures Keeps(s, WalkGroup(item, s, refs)) && (s.paramRefs.None? ==> WalkGroup(item, s, refs).paramRefs.None?)
  {
    hide Numbered, Later, WalkTree, IdOk;
    KeepsNothing(s);
    if !item.isInteger {
      NoSelectGroupsPlain(item.node);
      TreeKeeps(item.node, s);
      PlainTree(item.node, s);
      if s.paramRefs.None? { NotRecording(item.node, s); }
      var s1, k := WalkTree(item.node, s), Find(refs, item.fp);
      if k < |refs| && |refs[k].paramRefs| == |s1.clocations| - |s.clocations| {
        hide Consecutive;
        ReuseKeeps(s, s1, refs[k].paramRefs);
      }
    }
  }

  // ---------- Params are recorded inside one target list element at a time ----------

  lemma {:induction false} NotRecording(t: Tree, s: Recorder)
    requires s.paramRefs.None?
    ensures WalkTree(t, s).paramRefs.None?
    decreases t, 1
  {
    match t
    case Branch(children) => AllNotRecording(children, s);
    case Select(before, targets, middle, groups, sorts, after) =>
      AllNotRecording(before, s);
      TargetsStopRecording(targets, WalkAll(before, s), []);
      var (s1, refs) := WalkTargets(targets, WalkAll(before, s), []);
      AllNotRecording(middle, s1);
      GroupsNotRecording(groups, WalkAll(middle, s1), refs);
      var s2 := WalkGroups(groups, WalkAll(middle, s1), refs);
      SortsNotRecording(sorts, s2);
      AllNotRecording(after, WalkSorts(sorts, s2));
    case _ =>
  }

  lemma {:induction false} AllNotRecording(ts: seq<Tree>, s: Recorder)
    requires s.paramRefs.None?
    ensures WalkAll(ts, s).paramRefs.None?
    decreases ts, 0
  {
    if ts != [] {
      NotRecording(ts[0], s);
      AllNotRecording(ts[1..], WalkTree(ts[0], s));
    }
  }

  /** Once a target list has been walked, nothing is recorded, unless it was empty. */
  lemma {:induction false} TargetsStopRecording(items: seq<Item>, s: Recorder, refs: seq<FpAndParamRefs>)
    ensures items != [] || s.paramRefs.None? ==> WalkTargets(items, s, refs).0.paramRefs.None?
    ensures |WalkTargets(items, s, refs).1| == |refs| + |items|
    decreases items, 0
  {
    if items != [] {
      var s1 := WalkTarget(items[0], s);
      TargetsStopRecording(items[1..], s1.(paramRefs := None), refs + [FpAndParamRefs(items[0].fp, RefsOf(s1))]);
    }
  }

  lemma {:induction false} GroupsNotRecording(items: seq<Item>, s: Recorder, refs: seq<FpAndParamRefs>)
    requires s.paramRefs.None?
    ensures WalkGroups(items, s, refs).paramRefs.None?
    decreases items, 0
  {
    if items != [] {
      GroupNotRecording(items[0], s, refs);
      GroupsNotRecording(items[1..], WalkGroup(items[0], s, refs), if items[0].isInteger then refs else Without(refs, Find(refs, items[0].fp)));
    }
  }

  lemma {:induction false} GroupNotRecording(item: Item, s: Recorder, refs: seq<FpAndParamRefs>)
    requires s.paramRefs.None?
    ensures WalkGroup(item, s, refs).paramRefs.None?
    decreases item, 2
  {
    hide WalkTree;
    NotRecording(item.node, s);
  }

  lemma {:induction false} SortsNotRecording(items: seq<Item>, s: Recorder)
    requires s.paramRefs.None?
    ensures WalkSorts(items, s).paramRefs.None?
    decreases items, 0
  {
    if items != [] {
      SortNotRecording(items[0], s);
      SortsNotRecording(items[1..], WalkSort(items[0], s));
    }
  }

  lemma {:induction false} SortNotRecording(item: Item, s: Recorder)
    requires s.paramRefs.None?
    ensures WalkSort(item, s).paramRefs.None?
    decreases item, 2
  {
    NotRecording(item.node, s);
  }

  lemma {:induction false} GroupsKeep(items: seq<Item>, s: Recorder, refs: seq<FpAndParamRefs>)
    requires (forall i | 0 <= i < |items| :: NoSelect(items[i].node)) && Numbered(s) && TargetsOk(refs, s)
    requires s.paramRefs.None? || refs == []
    ensures Keeps(s, WalkGroups(items, s, refs))
    decreases items, 0
  {
    hide Numbered, Later, WalkGroup, NoSelect, RefsOk;
    KeepsNothing(s);
    if items != [] {
      var s1 := WalkGroup(items[0], s, refs);
      GroupKeeps(items[0], s, refs);
      TargetsLater(refs, s, s1);
      var refs1 := if items[0].isInteger then refs else Without(refs, Find(refs, items[0].fp));
      GroupsKeep(items[1..], s1, refs1);
      KeepsTwice(s, s1, WalkGroups(items[1..], s1, refs1));
    }
  }

  /** After any walk the ids of new parameters are exactly 1 up to highest - 1. */
  lemma NewIdsAreContiguous(t: Tree)
    requires GroupsPlain(t)
    ensures var s := WalkTree(t, INITIAL); IdsOk(s.clocations, s.highestNormalize, s.highestExtern)
  {
    TreeKeeps(t, INITIAL);
  }

  /** An item that is not matched with a target list element takes new ids; an item that is takes the
      params of that element, in order, and no new id. */
  lemma GroupItemIds(item: Item, s: Recorder, refs: seq<FpAndParamRefs>)
    requires NoSelect(item.node) && !item.isInteger
    ensures var k, s1, s' := Find(refs, item.fp), WalkTree(item.node, s), WalkGroup(item, s, refs);
            var added := |s1.clocations| - |s.clocations|;
            && added >= 0 && |s'.clocations| == |s1.clocations|
            && (if k < |refs| && |refs[k].paramRefs| == added
                then s'.highestNormalize == s.highestNormalize && Ids(s'.clocations[|s.clocations|..]) == refs[k].paramRefs
                else s'.highestNormalize == s.highestNormalize + added &&
                     forall i | |s.clocations| <= i < |s'.clocations| ::
                       s'.clocations[i].paramId == -(s.highestNormalize + i - |s.clocations|))
  {
    PlainTree(item.node, s);
    hide WalkTree;
  }

  /** The targets with a fingerprint, in order. */
  function Same(refs: seq<FpAndParamRefs>, fp: nat): seq<FpAndParamRefs> {
    if refs == [] then [] else (if refs[0].fp == fp then [refs[0]] else []) + Same(refs[1..], fp)
  }

  /** How many of these items, plain integers aside, have the fingerprint. */
  function Uses(items: seq<Item>, fp: nat): nat {
    if items == [] then 0 else (if !items[0].isInteger && items[0].fp == fp then 1 else 0) + Uses(items[1..], fp)
  }

  /** The targets that are left after some items. */
  function Unclaimed(items: seq<Item>, refs: seq<FpAndParamRefs>): seq<FpAndParamRefs> {
    if items == [] then refs
    else Unclaimed(items[1..], if items[0].isInteger then refs else Without(refs, Find(refs, items[0].fp)))
  }

  lemma {:induction false} FindIsFirst(refs: seq<FpAndParamRefs>, fp: nat)
    ensures var k := Find(refs, fp);
            if k < |refs| then Same(refs, fp) != [] && Same(refs, fp)[0] == refs[k] else Same(refs, fp) == []
  {
    if refs != [] && refs[0].fp != fp {
      FindIsFirst(refs[1..], fp);
    }
  }

  lemma {:induction false} SameAppend(a: seq<FpAndParamRefs>, b: seq<FpAndParamRefs>, fp: nat)
    ensures Same(a + b, fp) == Same(a, fp) + Same(b, fp)
  {
    if a == [] {
      assert a + b == b;
    } else {
      assert (a + b)[1..] == a[1..] + b && (a + b)[0] == a[0];
      SameAppend(a[1..], b, fp);
      var head := if a[0].fp == fp then [a[0]] else [];
      calc {
        Same(a + b, fp);
        head + Same(a[1..] + b, fp);
        head + (Same(a[1..], fp) + Same(b, fp));
        (head + Same(a[1..], fp)) + Same(b, fp);
      }
    }
  }

  lemma {:induction false} NoneSame(refs: seq<FpAndParamRefs>, fp: nat)
    requires forall j | 0 <= j < |refs| :: refs[j].fp != fp
    ensures Same(refs, fp) == []
  {
    if refs != [] {
      NoneSame(refs[1..], fp);
    }
  }

  /** A claim takes the first target of its fingerprint away, and no other. */
  lemma ClaimTakesFirst(refs: seq<FpAndParamRefs>, claimed: nat, fp: nat)
    ensures var rest := Without(refs, Find(refs, claimed));
            Same(rest, fp) == if claimed == fp && Same(refs, fp) != [] then Same(refs, fp)[1..] else Same(refs, fp)
  {
    hide Same;
    var k := Find(refs, claimed);
    FindIsFirst(refs, claimed);
    if k < |refs| {
      var a, t, b := refs[..k], refs[k], refs[k+1..];
      assert refs == a + ([t] + b);
      SameAppend(a, [t] + b, fp);
      SameAppend([t], b, fp);
      SameAppend(a, b, fp);
      SameOne(t, fp);
      if claimed == fp { NoneSame(a, fp); }
    }
  }

  lemma SameOne(t: FpAndParamRefs, fp: nat)
    ensures Same([t], fp) == if t.fp == fp then [t] else []
  {
    assert [t][1..] == [];
  }

  lemma {:induction false} UnclaimedSame(items: seq<Item>, refs: seq<FpAndParamRefs>, fp: nat)
    ensures var all, n := Same(refs, fp), Uses(items, fp);
            Same(Unclaimed(items, refs), fp) == if n <= |all| then all[n..] else []
  {
    if items != [] {
      var rest := if items[0].isInteger then refs else Without(refs, Find(refs, items[0].fp));
      if !items[0].isInteger { ClaimTakesFirst(refs, items[0].fp, fp); }
      UnclaimedSame(items[1..], rest, fp);
    }
  }

  lemma {:induction false} GroupsInTurn(items: seq<Item>, s: Recorder, refs: seq<FpAndParamRefs>, j: nat)
    requires j < |items|
    ensures WalkGroups(items[..j+1], s, refs) ==
            if items[j].isInteger then WalkGroups(items[..j], s, refs)
            else WalkGroup(items[j], WalkGroups(items[..j], s, refs), Unclaimed(items[..j], refs))
    decreases j
  {
    hide WalkGroup;
    if j == 0 {
      assert items[..1][1..] == [] && items[..0] == [];
      IntegerGroup(items[0], s, refs);
    } else {
      var rest := if items[0].isInteger then refs else Without(refs, Find(refs, items[0].fp));
      var s1 := WalkGroup(items[0], s, refs);
      GroupsInTurn(items[1..], s1, rest, j - 1);
      assert items[..j+1][1..] == items[1..][..j] && items[..j][1..] == items[1..][..j-1];
    }
  }

  lemma IntegerGroup(item: Item, s: Recorder, refs: seq<FpAndParamRefs>)
    ensures item.isInteger ==> WalkGroup(item, s, refs) == s
  {
  }

  /** The first GROUP BY item with a fingerprint takes the first target with it, the second one the second,
      and so on, so that no target is claimed twice; items beyond the last target claim none. */
  lemma NthItemNthTarget(items: seq<Item>, s: Recorder, refs: seq<FpAndParamRefs>, j: nat)
    requires j < |items| && !items[j].isInteger
    ensures var left, all, n := Unclaimed(items[..j], refs), Same(refs, items[j].fp), Uses(items[..j], items[j].fp);
            && WalkGroups(items[..j+1], s, refs) == WalkGroup(items[j], WalkGroups(items[..j], s, refs), left)
            && var k := Find(left, items[j].fp);
               if n < |all| then k < |left| && left[k] == all[n] else k == |left|
  {
    GroupsInTurn(items, s, refs, j);
    UnclaimedSame(items[..j], refs, items[j].fp);
    FindIsFirst(Unclaimed(items[..j], refs), items[j].fp);
  }

  predicate NoParam(t: Tree) {
    match t
    case Branch(children) => forall i | 0 <= i < |children| :: NoParam(children[i])
    case Param(_) => false
    case _ => true
  }

  function Ids(locs: seq<LocationLen>): (ids: seq<int>)
    ensures |ids| == |locs| && forall i | 0 <= i < |locs| :: ids[i] == locs[i].paramId
  {
    seq(|locs|, i requires 0 <= i < |locs| => locs[i].paramId)
  }

  /** The params of a target list element are the ids of its constants, unless it mentions numbers. */
  lemma {:induction false} RefsAreIds(t: Tree, s: Recorder)
    requires NoSelect(t) && NoParam(t) && s.paramRefs.Some?
    ensures var s' := WalkTree(t, s);
            s.clocations <= s'.clocations && s'.paramRefs == Some(s.paramRefs.value + Ids(s'.clocations[|s.clocations|..]))
    decreases t, 1
  {
    match t
    case Const(location) =>
      var s' := WalkTree(t, s);
      var added := s'.clocations[|s.clocations|..];
      if location >= 0 {
        assert added == [LocationLen(location, -1, -s.highestNormalize)];
        assert Ids(added) == [-s.highestNormalize];
      } else {
        assert Ids(added) == [] && s.paramRefs.value + [] == s.paramRefs.value;
      }
    case Branch(children) => AllRefsAreIds(children, s);
    case _ =>
  }

  lemma {:induction false} AllRefsAreIds(ts: seq<Tree>, s: Recorder)
    requires (forall i | 0 <= i < |ts| :: NoSelect(ts[i]) && NoParam(ts[i])) && s.paramRefs.Some?
    ensures var s' := WalkAll(ts, s);
            s.clocations <= s'.clocations && s'.paramRefs == Some(s.paramRefs.value + Ids(s'.clocations[|s.clocations|..]))
    decreases ts, 0
  {
    hide WalkTree, NoSelect, NoParam;
    if ts == [] {
      assert Ids(s.clocations[|s.clocations|..]) == [] && s.paramRefs.value + [] == s.paramRefs.value;
    } else {
      var s1 := WalkTree(ts[0], s);
      RefsAreIds(ts[0], s);
      AllRefsAreIds(ts[1..], s1);
      var s2 := WalkAll(ts[1..], s1);
      assert s2.clocations[|s.clocations|..] == s1.clocations[|s.clocations|..] + s2.clocations[|s1.clocations|..];
      assert s2.paramRefs.value == s.paramRefs.value + (Ids(s1.clocations[|s.clocations|..]) + Ids(s2.clocations[|s1.clocations|..]));
      assert Ids(s2.clocations[|s.clocations|..]) == Ids(s1.clocations[|s.clocations|..]) + Ids(s2.clocations[|s1.clocations|..]);
    }
  }

  // ---------- What is recorded ----------

  function Max(a: nat, b: nat): nat {
    if a < b then b else a
  }

  /** Where constants are, in the order of the walk, and the highest number that occurs. */
  datatype Found = Found(locations: seq<int>, highest: nat)

  const NOTHING := Found([], 0)

  function Join(a: Found, b: Found): Found {
    Found(a.locations + b.locations, Max(a.highest, b.highest))
  }

  function Contents(t: Tree): Found
    decreases t, 1
  {
    match t
    case Const(location) => if location < 0 then NOTHING else Found([location], 0)
    case Param(number) => Found([], number)
    case Branch(children) => AllContents(children)
    case Select(before, targets, middle, groups, sorts, after) =>
      Join(Join(Join(Join(Join(AllContents(before), ItemContents(targets, false)), AllContents(middle)),
                     ItemContents(groups, true)), ItemContents(sorts, true)), AllContents(after))
  }

  function AllContents(ts: seq<Tree>): Found
    decreases ts, 0
  {
    if ts == [] then NOTHING else Join(Contents(ts[0]), AllContents(ts[1..]))
  }

  /** GROUP BY 1 and ORDER BY 1 keep their numbers. */
  function ItemContents(items: seq<Item>, keepIntegers: bool): Found
    decreases items, 0
  {
    if items == [] then NOTHING else Join(OneContents(items[0], keepIntegers), ItemContents(items[1..], keepIntegers))
  }

  function OneContents(item: Item, keepIntegers: bool): Found
    decreases item, 2
  {
    if keepIntegers && item.isInteger then NOTHING else Contents(item.node)
  }

  function LocationsOf(locs: seq<LocationLen>): (r: seq<int>)
    ensures |r| == |locs| && forall i | 0 <= i < |locs| :: r[i] == locs[i].location
  {
    seq(|locs|, i requires 0 <= i < |locs| => locs[i].location)
  }

  predicate Adds(s: Recorder, s': Recorder, found: Found) {
    && LocationsOf(s'.clocations) == LocationsOf(s.clocations) + found.locations
    && s'.highestExtern == Max(s.highestExtern, found.highest)
  }

  lemma AddsTwice(s: Recorder, s1: Recorder, s2: Recorder, a: Found, b: Found)
    requires Adds(s, s1, a) && Adds(s1, s2, b)
    ensures Adds(s, s2, Join(a, b))
  {
  }

  lemma AddsNothing(s: Recorder, s': Recorder)
    requires s.clocations == s'.clocations && s.highestExtern == s'.highestExtern
    ensures Adds(s, s', NOTHING)
  {
  }

  lemma {:induction false} EverythingRecorded(t: Tree, s: Recorder)
    ensures Adds(s, WalkTree(t, s), Contents(t))
    decreases t, 1
  {
    match t
    case Const(location) =>
      assert LocationsOf(Record(s, location).clocations) == LocationsOf(s.clocations) + Contents(t).locations;
    case Param(number) => assert LocationsOf(s.clocations) + [] == LocationsOf(s.clocations);
    case Branch(children) => AllRecorded(children, s);
    case Select(before, targets, middle, groups, sorts, after) =>
      hide Adds, Join;
      var s0 := WalkAll(before, s);
      AllRecorded(before, s);
      var (s1, refs) := WalkTargets(targets, s0, []);
      TargetsRecorded(targets, s0, []);
      var f1 := Join(AllContents(before), ItemContents(targets, false));
      AddsTwice(s, s0, s1, AllContents(before), ItemContents(targets, false));
      var s2 := WalkAll(middle, s1);
      AllRecorded(middle, s1);
      AddsTwice(s, s1, s2, f1, AllContents(middle));
      var f2 := Join(f1, AllContents(middle));
      var s3 := WalkGroups(groups, s2, refs);
      GroupsRecorded(groups, s2, refs);
      AddsTwice(s, s2, s3, f2, ItemContents(groups, true));
      var f3 := Join(f2, ItemContents(groups, true));
      var s4 := WalkSorts(sorts, s3);
      SortsRecorded(sorts, s3);
      AddsTwice(s, s3, s4, f3, ItemContents(sorts, true));
      AllRecorded(after, s4);
      AddsTwice(s, s4, WalkAll(after, s4), Join(f3, ItemContents(sorts, true)), AllContents(after));
  }

  lemma {:induction false} AllRecorded(ts: seq<Tree>, s: Recorder)
    ensures Adds(s, WalkAll(ts, s), AllContents(ts))
    decreases ts, 0
  {
    hide Adds, WalkTree;
    AddsNothing(s, s);
    if ts != [] {
      EverythingRecorded(ts[0], s);
      AllRecorded(ts[1..], WalkTree(ts[0], s));
      AddsTwice(s, WalkTree(ts[0], s), WalkAll(ts, s), Contents(ts[0]), AllContents(ts[1..]));
    }
  }

  lemma {:induction false} TargetsRecorded(items: seq<Item>, s: Recorder, refs: seq<FpAndParamRefs>)
    ensures Adds(s, WalkTargets(items, s, refs).0, ItemContents(items, false))
    decreases items, 0
  {
    hide Adds, WalkTarget, OneContents;
    AddsNothing(s, s);
    if items != [] {
      var s1 := WalkTarget(items[0], s);
      TargetRecorded(items[0], s);
      var refs1 := refs + [FpAndParamRefs(items[0].fp, RefsOf(s1))];
      TargetsRecorded(items[1..], s1.(paramRefs := None), refs1);
      AddsTwice(s, s1.(paramRefs := None), WalkTargets(items[1..], s1.(paramRefs := None), refs1).0,
                OneContents(items[0], false), ItemContents(items[1..], false));
    }
  }

  lemma {:induction false} TargetRecorded(item: Item, s: Recorder)
    ensures Adds(s, WalkTarget(item, s).(paramRefs := None), OneContents(item, false))
    decreases item, 2
  {
    EverythingRecorded(item.node, s.(paramRefs := Some([])));
  }

  lemma {:induction false} GroupsRecorded(items: seq<Item>, s: Recorder, refs: seq<FpAndParamRefs>)
    ensures Adds(s, WalkGroups(items, s, refs), ItemContents(items, true))
    decreases items, 0
  {
    hide Adds, WalkGroup, OneContents;
    AddsNothing(s, s);
    if items != [] {
      var s1 := WalkGroup(items[0], s, refs);
      GroupRecorded(items[0], s, refs);
      var refs1 := if items[0].isInteger then refs else Without(refs, Find(refs, items[0].fp));
      GroupsRecorded(items[1..], s1, refs1);
      AddsTwice(s, s1, WalkGroups(items[1..], s1, refs1), OneContents(items[0], true), ItemContents(items[1..], true));
    }
  }

  lemma {:induction false} GroupRecorded(item: Item, s: Recorder, refs: seq<FpAndParamRefs>)
    ensures Adds(s, WalkGroup(item, s, refs), OneContents(item, true))
    decreases item, 2
  {
    hide WalkTree;
    if !item.isInteger {
      EverythingRecorded(item.node, s);
      var s1, s' := WalkTree(item.node, s), WalkGroup(item, s, refs);
      SameLocations(s1.clocations, s'.clocations, |s.clocations|);
    }
  }

  lemma SameLocations(a: seq<LocationLen>, b: seq<LocationLen>, from: nat)
    requires |a| == |b| && from <= |a| && a[..from] == b[..from]
    requires forall i | from <= i < |a| :: b[i].location == a[i].location
    ensures LocationsOf(a) == LocationsOf(b)
  {
    forall i | 0 <= i < |a| ensures a[i].location == b[i].location {
      assert i < from ==> a[i] == a[..from][i] && b[i] == b[..from][i];
    }
  }

  lemma {:induction false} SortsRecorded(items: seq<Item>, s: Recorder)
    ensures Adds(s, WalkSorts(items, s), ItemContents(items, true))
    decreases items, 0
  {
    hide Adds, WalkSort, OneContents;
    AddsNothing(s, s);
    if items != [] {
      SortRecorded(items[0], s);
      SortsRecorded(items[1..], WalkSort(items[0], s));
      AddsTwice(s, WalkSort(items[0], s), WalkSorts(items, s), OneContents(items[0], true), ItemContents(items[1..], true));
    }
  }

  lemma {:induction false} SortRecorded(item: Item, s: Recorder)
    ensures Adds(s, WalkSort(item, s), OneContents(item, true))
    decreases item, 2
  {
    AddsNothing(s, s);
    EverythingRecorded(item.node, s);
  }

  // ---------- The normalised query ----------

  /** Does some constant become $n? */
  predicate Taken(s: Recorder, n: int) {
    exists i :: 0 <= i < |s.clocations| && Number(s.clocations[i].paramId, s.highestExtern) == n
  }

  /** Parameters for constants never clash with numbers that are in the query, and two constants share
      one only if they were given the same id.  The numbers in use follow the highest one without gaps. */
  lemma NumbersApart(t: Tree)
    requires GroupsPlain(t)
    ensures var s := WalkTree(t, INITIAL);
            && s.highestExtern == Contents(t).highest
            && (forall i | 0 <= i < |s.clocations| && s.clocations[i].paramId < 0 ::
                  s.highestExtern < Number(s.clocations[i].paramId, s.highestExtern) < s.highestExtern + s.highestNormalize)
            && (forall i, j | 0 <= i < |s.clocations| && 0 <= j < |s.clocations| &&
                  Number(s.clocations[i].paramId, s.highestExtern) == Number(s.clocations[j].paramId, s.highestExtern) ::
                  s.clocations[i].paramId == s.clocations[j].paramId)
            && (forall n | s.highestExtern < n < s.highestExtern + s.highestNormalize :: Taken(s, n))
  {
    var s := WalkTree(t, INITIAL);
    NewIdsAreContiguous(t);
    EverythingRecorded(t, INITIAL);
    hide WalkTree, Contents;
    forall n | s.highestExtern < n < s.highestExtern + s.highestNormalize ensures Taken(s, n) {
      assert InUse(s.clocations, n - s.highestExtern);
      var i :| 0 <= i < |s.clocations| && s.clocations[i].paramId == -(n - s.highestExtern);
      assert Number(s.clocations[i].paramId, s.highestExtern) == n;
    }
  }

  /** The ids fit into a C int if there are not too many constants. */
  lemma IdsFit(t: Tree)
    requires GroupsPlain(t) && |Contents(t).locations| < INT_MAX && Contents(t).highest <= INT_MAX
    ensures var s := WalkTree(t, INITIAL);
            ParamIdsOk(s.clocations) && s.highestExtern <= INT_MAX && |s.clocations| == |Contents(t).locations|
  {
    EverythingRecorded(t, INITIAL);
    TreeKeeps(t, INITIAL);
    hide WalkTree, Contents;
    var s := WalkTree(t, INITIAL);
    assert |LocationsOf(s.clocations)| == |s.clocations|;
    assert forall i | 0 <= i < |s.clocations| :: IdOk(s.clocations[i].paramId, s.highestNormalize, s.highestExtern);
  }

  lemma PermutedIds(recorded: seq<LocationLen>, locs: seq<LocationLen>)
    requires multiset(Blank(locs)) == multiset(recorded) && ParamIdsOk(recorded) && Fresh(recorded)
    ensures ParamIdsOk(locs) && |locs| == |recorded| && forall i | 0 <= i < |locs| :: locs[i].location >= 0
  {
    assert |multiset(Blank(locs))| == |locs| && |multiset(recorded)| == |recorded|;
    forall i | 0 <= i < |locs| ensures -INT_MAX <= locs[i].paramId <= INT_MAX && locs[i].location >= 0 {
      assert Blank(locs)[i] in multiset(Blank(locs));
      assert Blank(locs)[i] in recorded;
    }
  }

  /** pg_query_normalize_ext, after parsing.  The result is the query with a parameter in each hole; the
      rest of the query is kept.  Where the recorded locations are well placed, the first record of each
      location is a hole of exactly its constant. */
  method Normalize(t: Tree, query: string, tokens: seq<Token>) returns (norm: string, locs: seq<LocationLen>, holes: seq<Hole>)
    requires TokensOk(query, tokens) && GroupsPlain(t)
    requires |Contents(t).locations| < INT_MAX && Contents(t).highest <= INT_MAX
    ensures multiset(Blank(locs)) == multiset(WalkTree(t, INITIAL).clocations) && SortedByLocation(locs)
    ensures HolesOk(query, holes, 0) && norm == Splice(query, holes, Symbols(holes), 0)
    ensures Splice(query, holes, Constants(query, holes, 0), 0) == query
    ensures |norm| <= |query| + 10 * |Contents(t).locations|
    ensures forall i | 0 <= i < |holes| :: InPlace(norm, holes, Symbols(holes), i) && Spells(Symbols(holes)[i], holes[i].number)
    ensures forall i, j | 0 <= i < |holes| && 0 <= j < |holes| :: Symbols(holes)[i] == Symbols(holes)[j] <==> holes[i].number == holes[j].number
    ensures WellPlaced(query, tokens, locs) ==>
              forall i | 0 <= i < |locs| && FirstRecord(locs, i) && locs[i].location >= 0 ::
                && locs[i].length == ConstantLength(query, tokens, locs[i].location) && locs[i].length >= 1
                && HoleOf(locs, Contents(t).highest, i) in holes
  {
    hide TokensOk, WalkTree, Contents, GroupsPlain, WellPlaced, HolesOk, Splice, Holes, Constants, ConstantLength, Numbered, LengthsOk, InPlace, Spells, Symbol;
    var jstate := new ConstLocations();
    jstate.Walk(t);
    NewIdsAreContiguous(t);
    IdsFit(t);
    NumbersApart(t);
    locs := FillInConstantLengths(query, tokens, jstate.clocations);
    PermutedIds(jstate.clocations, locs);
    norm := GenerateNormalizedQuery(query, locs, jstate.highestExternParamId);
    holes := Holes(locs, jstate.highestExternParamId, |query|, 0, 0);
    ConstantsBack(query, holes, 0);
    assert query[0..] == query;
    forall i | 0 <= i < |holes|
      ensures InPlace(norm, holes, Symbols(holes), i) && Spells(Symbols(holes)[i], holes[i].number)
      ensures forall j | 0 <= j < |holes| :: Symbols(holes)[i] == Symbols(holes)[j] <==> holes[i].number == holes[j].number
    {
      SplicedInPlace(query, holes, Symbols(holes), i);
      SymbolsSpell(holes[i].number, holes[i].number);
      forall j | 0 <= j < |holes| ensures Symbols(holes)[i] == Symbols(holes)[j] <==> holes[i].number == holes[j].number {
        SymbolsSpell(holes[i].number, holes[j].number);
      }
    }
    if WellPlaced(query, tokens, locs) {
      HolesComplete(query, tokens, locs, jstate.highestExternParamId, 0, 0);
    }
  }
}
