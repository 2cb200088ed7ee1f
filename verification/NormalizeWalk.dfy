/** Recording the constants of a parse tree, and numbering their parameters. */
module NormalizeWalk {
  import opened NormalizeText

  datatype Option<+T> = None | Some(value: T)

  /** A parse tree, as far as the walk sees it. */
  datatype Tree =
    | Const(location: int)             // A_Const, or the place of an option's, payload's or connection's string
    | Param(number: nat)               // ParamRef
    | Branch(children: seq<Tree>)      // what raw_expression_tree_walker visits; nothing for a TypeName
    | Select(before: seq<Tree>, targets: seq<Item>, middle: seq<Tree>, groups: seq<Item>, sorts: seq<Item>, after: seq<Tree>)

  /** An element of a target list, GROUP BY or ORDER BY with the fingerprint of its expression. */
  datatype Item = Item(node: Tree, fp: nat, isInteger: bool)

  /** The params of a target list element. */
  datatype FpAndParamRefs = FpAndParamRefs(fp: nat, paramRefs: seq<int>)

  datatype Recorder = Recorder(clocations: seq<LocationLen>, highestNormalize: int, highestExtern: nat, paramRefs: Option<seq<int>>)

  const INITIAL := Recorder([], 1, 0, None)

  // ---------- The walk on values ----------

  function WithRef(s: Recorder, id: int): Recorder {
    if s.paramRefs.Some? then s.(paramRefs := Some(s.paramRefs.value + [id])) else s
  }

  function Record(s: Recorder, location: int): Recorder {
    if location < 0 then s
    else
      var id := -s.highestNormalize;
      WithRef(s, id).(clocations := s.clocations + [LocationLen(location, -1, id)], highestNormalize := s.highestNormalize + 1)
  }

  function SeeParam(s: Recorder, number: nat): Recorder {
    WithRef(s, number).(highestExtern := if number > s.highestExtern then number else s.highestExtern)
  }

  function WalkTree(t: Tree, s: Recorder): Recorder
    decreases t, 1
  {
    match t
    case Const(location) => Record(s, location)
    case Param(number) => SeeParam(s, number)
    case Branch(children) => WalkAll(children, s)
    case Select(before, targets, middle, groups, sorts, after) =>
      var (s1, refs) := WalkTargets(targets, WalkAll(before, s), []);
      var s2 := WalkGroups(groups, WalkAll(middle, s1), refs);
      WalkAll(after, WalkSorts(sorts, s2))
  }

  function WalkAll(ts: seq<Tree>, s: Recorder): Recorder
    decreases ts, 0
  {
    if ts == [] then s else WalkAll(ts[1..], WalkTree(ts[0], s))
  }

  /** The params that a target list element took or mentions. */
  function RefsOf(s: Recorder): seq<int> {
    if s.paramRefs.Some? then s.paramRefs.value else []
  }

  /** A target list element, with its params recorded. */
  function WalkTarget(item: Item, s: Recorder): Recorder
    decreases item, 2
  {
    WalkTree(item.node, s.(paramRefs := Some([])))
  }

  function WalkTargets(items: seq<Item>, s: Recorder, refs: seq<FpAndParamRefs>): (Recorder, seq<FpAndParamRefs>)
    decreases items, 0
  {
    if items == [] then (s, refs) else
    var s1 := WalkTarget(items[0], s);
    WalkTargets(items[1..], s1.(paramRefs := None), refs + [FpAndParamRefs(items[0].fp, RefsOf(s1))])
  }

  /** The first target list element with this fingerprint that no other item has claimed. */
  function Find(refs: seq<FpAndParamRefs>, fp: nat): (k: nat)
    ensures k <= |refs| && (k < |refs| ==> refs[k].fp == fp)
    ensures forall j | 0 <= j < k :: refs[j].fp != fp
  {
    if refs == [] || refs[0].fp == fp then 0 else 1 + Find(refs[1..], fp)
  }

  function Without(refs: seq<FpAndParamRefs>, k: nat): seq<FpAndParamRefs> {
    if k < |refs| then refs[..k] + refs[k+1..] else refs
  }

  /** The records from `from` on with the given ids. */
  function WithIds(locs: seq<LocationLen>, from: nat, ids: seq<int>): (r: seq<LocationLen>)
    requires |locs| == from + |ids|
    ensures |r| == |locs| && r[..from] == locs[..from]
    ensures forall i | from <= i < |locs| :: r[i] == locs[i].(paramId := ids[i - from])
  {
    locs[..from] + seq(|ids|, i requires 0 <= i < |ids| => locs[from + i].(paramId := ids[i]))
  }

  function WalkGroup(item: Item, s: Recorder, refs: seq<FpAndParamRefs>): Recorder
    decreases item, 2
  {
    if item.isInteger then s else
    var k := Find(refs, item.fp);
    var s1 := WalkTree(item.node, s);
    if k < |refs| && |refs[k].paramRefs| == |s1.clocations| - |s.clocations| then
      s1.(clocations := WithIds(s1.clocations, |s.clocations|, refs[k].paramRefs), highestNormalize := s1.highestNormalize - |refs[k].paramRefs|)
    else s1
  }

  function WalkGroups(items: seq<Item>, s: Recorder, refs: seq<FpAndParamRefs>): Recorder
    decreases items, 0
  {
    if items == [] then s else
    WalkGroups(items[1..], WalkGroup(items[0], s, refs), if items[0].isInteger then refs else Without(refs, Find(refs, items[0].fp)))
  }

  function WalkSorts(items: seq<Item>, s: Recorder): Recorder
    decreases items, 0
  {
    if items == [] then s else WalkSorts(items[1..], WalkSort(items[0], s))
  }

  function WalkSort(item: Item, s: Recorder): Recorder
    decreases item, 2
  {
    if item.isInteger then s else WalkTree(item.node, s)
  }

  // ---------- The walk in place ----------

  class ConstLocations {
    var clocations: seq<LocationLen>
    var highestNormalizeParamId: int
    var highestExternParamId: nat
    var paramRefs: Option<seq<int>>

    function State(): Recorder
      reads this
    {
      Recorder(clocations, highestNormalizeParamId, highestExternParamId, paramRefs)
    }

    constructor ()
      ensures State() == INITIAL
    {
      clocations, highestNormalizeParamId, highestExternParamId, paramRefs := [], 1, 0, None;
    }

    method RecordParamRef(id: int)
      modifies this`paramRefs
      ensures State() == WithRef(old(State()), id)
    {
      if paramRefs.Some? {
        paramRefs := Some(paramRefs.value + [id]);
      }
    }

    method RecordConstLocation(location: int)
      modifies this
      ensures State() == Record(old(State()), location)
    {
      // -1 indicates an unknown or undefined location
      if location >= 0 {
        var id := -highestNormalizeParamId;
        clocations := clocations + [LocationLen(location, -1, id)];
        highestNormalizeParamId := highestNormalizeParamId + 1;
        RecordParamRef(id);
      }
    }

    /** const_record_walker */
    method Walk(t: Tree)
      modifies this
      ensures State() == WalkTree(t, old(State()))
      decreases t, 1
    {
      match t
      case Const(location) => RecordConstLocation(location);
      case Param(number) =>
        if number > highestExternParamId {
          highestExternParamId := number;
        }
        RecordParamRef(number);
      case Branch(children) => WalkList(children);
      case Select(before, targets, middle, groups, sorts, after) =>
        WalkList(before);
        var refs := WalkTargetList(targets);
        WalkList(middle);
        WalkGroupClause(groups, refs);
        WalkSortClause(sorts);
        WalkList(after);
    }

    method WalkList(ts: seq<Tree>)
      modifies this
      ensures State() == WalkAll(ts, old(State()))
      decreases ts, 0
    {
      hide WalkTree;
      for i := 0 to |ts|
        invariant WalkAll(ts[i..], State()) == WalkAll(ts, old(State()))
      {
        assert ts[i..][0] == ts[i] && ts[i..][1..] == ts[i+1..];
        Walk(ts[i]);
      }
    }

    method WalkTargetList(targets: seq<Item>) returns (refs: seq<FpAndParamRefs>)
      modifies this
      ensures (State(), refs) == WalkTargets(targets, old(State()), [])
      decreases targets, 0
    {
      hide WalkTree;
      refs := [];
      for i := 0 to |targets|
        invariant WalkTargets(targets[i..], State(), refs) == WalkTargets(targets, old(State()), [])
      {
        assert targets[i..][0] == targets[i] && targets[i..][1..] == targets[i+1..];
        WalkTargetElement(targets[i]);
        refs := refs + [FpAndParamRefs(targets[i].fp, if paramRefs.Some? then paramRefs.value else [])];
        paramRefs := None;
      }
    }

    method WalkTargetElement(item: Item)
      modifies this
      ensures State() == WalkTarget(item, old(State()))
      decreases item, 2
    {
      // Save all param refs we encounter or assign
      paramRefs := Some([]);
      Walk(item.node);
    }

    method WalkGroupClause(groups: seq<Item>, targetRefs: seq<FpAndParamRefs>)
      modifies this
      ensures State() == WalkGroups(groups, old(State()), targetRefs)
      decreases groups, 0
    {
      hide WalkTree;
      var refs := targetRefs;
      for i := 0 to |groups|
        invariant WalkGroups(groups[i..], State(), refs) == WalkGroups(groups, old(State()), targetRefs)
      {
        assert groups[i..][0] == groups[i] && groups[i..][1..] == groups[i+1..];
        if groups[i].isInteger {
          continue;
        }
        refs := WalkGroupItem(groups[i], refs);
      }
    }

    method WalkGroupItem(item: Item, refs: seq<FpAndParamRefs>) returns (unclaimed: seq<FpAndParamRefs>)
      requires !item.isInteger
      modifies this
      ensures State() == WalkGroup(item, old(State()), refs) && unclaimed == Without(refs, Find(refs, item.fp))
      decreases item, 2
    {
      hide WalkTree;
      unclaimed := refs;
      var fppr := None;
      var k := 0;
      while k < |refs|
        invariant 0 <= k <= Find(refs, item.fp) && unclaimed == refs && fppr == None
      {
        if refs[k].fp == item.fp {
          fppr := Some(refs[k]);
          unclaimed := refs[..k] + refs[k+1..];
          break;
        }
        k := k + 1;
      }
      assert k == Find(refs, item.fp);
      var prevClocCount := |clocations|;
      Walk(item.node);
      if fppr.Some? && |fppr.value.paramRefs| == |clocations| - prevClocCount {
        ghost var s1 := State();
        var ids := fppr.value.paramRefs;
        for i := prevClocCount to |clocations|
          invariant |clocations| == |s1.clocations| && prevClocCount <= i
          invariant State() == s1.(clocations := clocations)
          invariant forall j | 0 <= j < |clocations| ::
                      clocations[j] == if prevClocCount <= j < i then s1.clocations[j].(paramId := ids[j - prevClocCount]) else s1.clocations[j]
        {
          clocations := clocations[i := clocations[i].(paramId := ids[i - prevClocCount])];
        }
        highestNormalizeParamId := highestNormalizeParamId - |ids|;
        assert clocations == WithIds(s1.clocations, prevClocCount, ids);
      }
    }

    method WalkSortClause(sorts: seq<Item>)
      modifies this
      ensures State() == WalkSorts(sorts, old(State()))
      decreases sorts, 0
    {
      hide WalkTree;
      for i := 0 to |sorts|
        invariant WalkSorts(sorts[i..], State()) == WalkSorts(sorts, old(State()))
      {
        assert sorts[i..][0] == sorts[i] && sorts[i..][1..] == sorts[i+1..];
        WalkSortItem(sorts[i]);
      }
    }

    method WalkSortItem(item: Item)
      modifies this
      ensures State() == WalkSort(item, old(State()))
      decreases item, 2
    {
      if !item.isInteger {
        Walk(item.node);
      }
    }
  }
}
