/** What a truncation does to the text, and which truncations there are. */
module TruncateTheorems {
  import opened TruncateText
  import opened Truncate

  datatype Option<+T> = None | Some(value: T)

  /** A place in a tree: what is there, under how many nodes, and the text before and behind it. */
  datatype Spot = Spot(tree: Tree, depth: nat, before: string, behind: string)

  /** The place that a path of positions leads to. */
  function SpotAt(ts: seq<Tree>, path: seq<nat>): Option<Spot>
    decreases |path|
  {
    if path == [] || path[0] >= |ts| then None
    else
      var t, before, behind := ts[path[0]], Deparse(ts[..path[0]]), Deparse(ts[path[0]+1..]);
      if |path| == 1 then Some(Spot(t, 0, before, behind))
      else if t.Text? then None
      else
        match SpotAt(t.body, path[1..])
        case None => None
        case Some(s) => Some(Spot(s.tree, s.depth + if t.Node? then 1 else 0, before + s.before, s.behind + behind))
  }

  /** How many parts have this id. */
  function Count(ts: seq<Tree>, id: nat): nat
    decreases ts, 0
  {
    if ts == [] then 0 else CountOne(ts[0], id) + Count(ts[1..], id)
  }

  function CountOne(t: Tree, id: nat): nat
    decreases t, 1
  {
    match t
    case Text(_) => 0
    case Part(id2, _, body) => (if id2 == id then 1 else 0) + Count(body, id)
    case Node(body) => Count(body, id)
  }

  lemma {:induction false} DeparseAppend(a: seq<Tree>, b: seq<Tree>)
    ensures Deparse(a + b) == Deparse(a) + Deparse(b)
  {
    hide DeparseOne;
    if a == [] {
      assert a + b == b;
    } else {
      DeparseAppend(a[1..], b);
      assert (a + b)[1..] == a[1..] + b && (a + b)[0] == a[0];
      assert DeparseOne(a[0]) + (Deparse(a[1..]) + Deparse(b)) == Deparse(a) + Deparse(b);
    }
  }

  lemma {:induction false} CountAppend(a: seq<Tree>, b: seq<Tree>, id: nat)
    ensures Count(a + b, id) == Count(a, id) + Count(b, id)
  {
    if a == [] {
      assert a + b == b;
    } else {
      CountAppend(a[1..], b, id);
      assert (a + b)[1..] == a[1..] + b;
    }
  }

  lemma {:induction false} CutAppend(a: seq<Tree>, b: seq<Tree>, id: nat)
    ensures Cut(a + b, id) == Cut(a, id) + Cut(b, id)
  {
    hide CutOne;
    if a == [] {
      assert a + b == b;
    } else {
      CutAppend(a[1..], b, id);
      assert (a + b)[1..] == a[1..] + b && (a + b)[0] == a[0];
      assert [CutOne(a[0], id)] + (Cut(a[1..], id) + Cut(b, id)) == Cut(a, id) + Cut(b, id);
    }
  }

  /** Around position i. */
  lemma Around(ts: seq<Tree>, i: nat, id: nat)
    requires i < |ts|
    ensures Deparse(ts) == Deparse(ts[..i]) + DeparseOne(ts[i]) + Deparse(ts[i+1..])
    ensures Count(ts, id) == Count(ts[..i], id) + CountOne(ts[i], id) + Count(ts[i+1..], id)
    ensures Cut(ts, id) == Cut(ts[..i], id) + ([CutOne(ts[i], id)] + Cut(ts[i+1..], id))
  {
    assert ts == ts[..i] + ts[i..] && ts[i..][0] == ts[i] && ts[i..][1..] == ts[i+1..];
    DeparseAppend(ts[..i], ts[i..]);
    CountAppend(ts[..i], ts[i..], id);
    CutAppend(ts[..i], ts[i..], id);
  }

  lemma {:induction false} NothingCut(ts: seq<Tree>, id: nat)
    requires Count(ts, id) == 0
    ensures Cut(ts, id) == ts
    decreases ts, 0
  {
    if ts != [] {
      NothingCutOne(ts[0], id);
      NothingCut(ts[1..], id);
    }
  }

  lemma {:induction false} NothingCutOne(t: Tree, id: nat)
    requires CountOne(t, id) == 0
    ensures CutOne(t, id) == t
    decreases t, 1
  {
    match t
    case Text(_) =>
    case Part(_, _, body) => NothingCut(body, id);
    case Node(body) => NothingCut(body, id);
  }

  lemma {:induction false} Counted(ts: seq<Tree>, path: seq<nat>)
    requires SpotAt(ts, path).Some? && SpotAt(ts, path).value.tree.Part?
    ensures Count(ts, SpotAt(ts, path).value.tree.id) >= 1
    decreases |path|
  {
    var i, id := path[0], SpotAt(ts, path).value.tree.id;
    Around(ts, i, id);
    if |path| > 1 {
      Counted(ts[i].body, path[1..]);
    }
  }

  lemma DeparseList(a: seq<Tree>, t: Tree, b: seq<Tree>)
    ensures Deparse(a + ([t] + b)) == Deparse(a) + DeparseOne(t) + Deparse(b)
  {
    DeparseAppend(a, [t] + b);
    assert ([t] + b)[1..] == b;
  }

  lemma CutAround(ts: seq<Tree>, i: nat, id: nat)
    requires i < |ts| && Count(ts[..i], id) == 0 && Count(ts[i+1..], id) == 0
    ensures Deparse(Cut(ts, id)) == Deparse(ts[..i]) + DeparseOne(CutOne(ts[i], id)) + Deparse(ts[i+1..])
  {
    hide Deparse, Cut, CutOne, Count;
    Around(ts, i, id);
    NothingCut(ts[..i], id);
    NothingCut(ts[i+1..], id);
    DeparseList(ts[..i], CutOne(ts[i], id), ts[i+1..]);
  }

  lemma MarkAlone(mark: string)
    ensures Deparse([Text(mark)]) == mark
  {
    assert [Text(mark)][1..] == [] && mark + "" == mark;
  }

  /** A cut puts the mark in place of the text of its part, and leaves the rest as it is. */
  lemma {:induction false} CutAt(ts: seq<Tree>, path: seq<nat>)
    requires SpotAt(ts, path).Some? && SpotAt(ts, path).value.tree.Part?
    requires Count(ts, SpotAt(ts, path).value.tree.id) == 1
    ensures var s := SpotAt(ts, path).value;
            && Deparse(ts) == s.before + Deparse(s.tree.body) + s.behind
            && Deparse(Cut(ts, s.tree.id)) == s.before + s.tree.mark + s.behind
    decreases |path|
  {
    hide Deparse, Cut, Count;
    var i, s := path[0], SpotAt(ts, path).value;
    var t := ts[i];
    Around(ts, i, s.tree.id);
    if |path| == 1 {
      MarkAlone(t.mark);
    } else {
      Counted(t.body, path[1..]);
      CutAt(t.body, path[1..]);
    }
    CutAround(ts, i, s.tree.id);
    if |path| > 1 {
      var s' := SpotAt(t.body, path[1..]).value;
      hide *;
      Regroup(Deparse(ts[..i]), s'.before, Deparse(s.tree.body), s'.behind, Deparse(ts[i+1..]));
      Regroup(Deparse(ts[..i]), s'.before, s.tree.mark, s'.behind, Deparse(ts[i+1..]));
    }
  }

  lemma Regroup(a: string, b: string, c: string, d: string, e: string)
    ensures a + (b + c + d) + e == (a + b) + c + (d + e)
  {
  }

  lemma {:induction false} PossibleAppend(a: seq<Tree>, b: seq<Tree>, depth: nat)
    ensures Possible(a + b, depth) == Possible(a, depth) + Possible(b, depth)
  {
    hide PossibleOne;
    if a == [] {
      assert a + b == b;
    } else {
      PossibleAppend(a[1..], b, depth);
      assert (a + b)[1..] == a[1..] + b && (a + b)[0] == a[0];
      assert PossibleOne(a[0], depth) + (Possible(a[1..], depth) + Possible(b, depth)) == Possible(a, depth) + Possible(b, depth);
    }
  }

  /** The truncation is one of a part at the path, below `depth` nodes. */
  predicate IsAt(ts: seq<Tree>, path: seq<nat>, depth: nat, cut: PossibleTruncation) {
    && SpotAt(ts, path).Some?
    && var s := SpotAt(ts, path).value;
    && s.tree.Part? && |Deparse(s.tree.body)| > 3
    && cut == PossibleTruncation(s.tree.id, depth + s.depth, |Deparse(s.tree.body)|)
  }

  /** The possible truncations are those of the parts longer than "...", with the number of nodes around
      the part and the length of its text. */
  lemma PossibleExactly(ts: seq<Tree>, cut: PossibleTruncation)
    ensures cut in Possible(ts, 0) <==> exists path :: IsAt(ts, path, 0, cut)
  {
    if cut in Possible(ts, 0) {
      var path := PossiblePath(ts, 0, cut);
    }
    forall path | IsAt(ts, path, 0, cut) ensures cut in Possible(ts, 0) {
      PathPossible(ts, path, 0, cut);
    }
  }

  lemma {:induction false} PathPossible(ts: seq<Tree>, path: seq<nat>, depth: nat, cut: PossibleTruncation)
    requires IsAt(ts, path, depth, cut)
    ensures cut in Possible(ts, depth)
    decreases |path|
  {
    var i := path[0];
    assert ts == ts[..i] + ts[i..];
    PossibleAppend(ts[..i], ts[i..], depth);
    assert cut in PossibleOne(ts[i], depth) by {
      if |path| > 1 {
        PathPossible(ts[i].body, path[1..], if ts[i].Node? then depth + 1 else depth, cut);
      }
    }
  }

  lemma {:induction false} PossiblePath(ts: seq<Tree>, depth: nat, cut: PossibleTruncation) returns (path: seq<nat>)
    requires cut in Possible(ts, depth)
    ensures IsAt(ts, path, depth, cut)
    decreases ts, 0
  {
    if cut in PossibleOne(ts[0], depth) {
      path := PossiblePathOne(ts, depth, cut);
    } else {
      var rest := PossiblePath(ts[1..], depth, cut);
      path := [rest[0] + 1] + rest[1..];
      assert ts[path[0]] == ts[1..][rest[0]];
      assert path[1..] == rest[1..];
    }
  }

  lemma {:induction false} PossiblePathOne(ts: seq<Tree>, depth: nat, cut: PossibleTruncation) returns (path: seq<nat>)
    requires ts != [] && cut in PossibleOne(ts[0], depth)
    ensures IsAt(ts, path, depth, cut)
    decreases ts[0], 1
  {
    var t := ts[0];
    if t.Part? && cut !in Possible(t.body, depth) {
      path := [0];
    } else {
      var inner := PossiblePath(t.body, if t.Node? then depth + 1 else depth, cut);
      path := [0] + inner;
      assert path[1..] == inner && inner != [];
    }
  }

  // ---------- Marks ----------

  lemma NotReplaced(text: string, pattern: string, replacement: string)
    requires |text| < |pattern|
    ensures ReplaceAll(text, pattern, replacement) == text
  {
  }

  /** Text that has not even the first character of the pattern, and the pattern. */
  lemma ReplacedBehind(front: string, pattern: string, replacement: string)
    requires pattern != "" && pattern[0] !in front
    ensures ReplaceAll(front + pattern, pattern, replacement) == front + replacement
  {
    IndexBehind(front, pattern);
    var text := front + pattern;
    assert text[..|front|] == front && text[|front| + |pattern|..] == "";
    assert ReplaceAll("", pattern, replacement) == "" by { assert IndexOf("", pattern) == 0; }
    assert front + replacement + "" == front + replacement;
  }

  lemma FirstDiffers(text: string, pattern: string)
    requires text != "" && pattern != "" && text[0] != pattern[0]
    ensures !OccursAt(text, pattern, 0)
  {
    assert |pattern| <= |text| ==> text[0..|pattern|][0] == text[0];
  }

  lemma {:induction false} IndexBehind(front: string, pattern: string)
    requires pattern != "" && pattern[0] !in front
    ensures IndexOf(front + pattern, pattern) == |front|
  {
    var text := front + pattern;
    if front == "" {
      assert text == pattern && text[0..|pattern|] == pattern;
    } else {
      assert text[0] == front[0] && text[1..] == front[1..] + pattern;
      FirstDiffers(text, pattern);
      IndexBehind(front[1..], pattern);
    }
  }

  /** The marks that cutting leaves in a statement, and what becomes of them. */
  lemma MarksBecomeDots()
    ensures Output(MARK) == "..." && Output(SELECT_MARK_AS) == "SELECT ..." && Output(SELECT_WHERE_MARK) == "..."
  {
    hide ReplaceAll;
    assert "" + MARK == MARK && "" + SELECT_MARK_AS == SELECT_MARK_AS && "" + SELECT_WHERE_MARK == SELECT_WHERE_MARK;
    NotReplaced(MARK, SELECT_MARK_AS, SELECT_MARK);
    NotReplaced(MARK, SELECT_WHERE_MARK, MARK);
    ReplacedBehind("", MARK, DOTS);
    ReplacedBehind("", SELECT_MARK_AS, SELECT_MARK);
    NotReplaced(SELECT_MARK, SELECT_WHERE_MARK, MARK);
    ReplacedBehind("SELECT ", MARK, DOTS);
    NotReplaced(SELECT_WHERE_MARK, SELECT_MARK_AS, SELECT_MARK);
    ReplacedBehind("", SELECT_WHERE_MARK, MARK);
    assert "" + SELECT_MARK == SELECT_MARK && "" + MARK == MARK && "" + DOTS == DOTS;
    assert "SELECT " + DOTS == "SELECT ...";
  }
}
