/** Shortening a query for display: parts of the tree are replaced by "...", deepest and longest first,
    until the text fits. */
module Truncate {
  import opened TruncateText
  import opened Sorting

  /** What a parse tree prints: texts, nodes, and parts of nodes (target lists, conditions, value lists,
      column lists, WITH queries) that can be replaced by a mark. */
  datatype Tree = Text(text: string) | Part(id: nat, mark: string, body: seq<Tree>) | Node(body: seq<Tree>)

  /** id: of the part; depth: of its node; length: of its text. */
  datatype PossibleTruncation = PossibleTruncation(id: nat, depth: nat, length: nat)

  function Deparse(ts: seq<Tree>): string
    decreases ts, 0
  {
    if ts == [] then "" else DeparseOne(ts[0]) + Deparse(ts[1..])
  }

  function DeparseOne(t: Tree): string
    decreases t, 1
  {
    match t
    case Text(text) => text
    case Part(_, _, body) => Deparse(body)
    case Node(body) => Deparse(body)
  }

  /** All parts longer than "...", each with the depth of the node that it belongs to. */
  function Possible(ts: seq<Tree>, depth: nat): seq<PossibleTruncation>
    decreases ts, 0
  {
    if ts == [] then [] else PossibleOne(ts[0], depth) + Possible(ts[1..], depth)
  }

  function PossibleOne(t: Tree, depth: nat): seq<PossibleTruncation>
    decreases t, 1
  {
    match t
    case Text(_) => []
    case Part(id, _, body) =>
      (if |Deparse(body)| > 3 then [PossibleTruncation(id, depth, |Deparse(body)|)] else []) + Possible(body, depth)
    case Node(body) => Possible(body, depth + 1)
  }

  /** The tree with the mark in place of one part. */
  function Cut(ts: seq<Tree>, id: nat): seq<Tree>
    decreases ts, 0
  {
    if ts == [] then [] else [CutOne(ts[0], id)] + Cut(ts[1..], id)
  }

  function CutOne(t: Tree, id: nat): Tree
    decreases t, 1
  {
    match t
    case Text(_) => t
    case Part(id2, mark, body) => Part(id2, mark, if id2 == id then [Text(mark)] else Cut(body, id))
    case Node(body) => Node(Cut(body, id))
  }

  function CutAll(ts: seq<Tree>, cuts: seq<PossibleTruncation>): seq<Tree> {
    if cuts == [] then ts else Cut(CutAll(ts, cuts[..|cuts|-1]), cuts[|cuts|-1].id)
  }

  // ---------- Marks become "..." ----------

  /** "…" in quotes, in UTF-8 */
  const MARK := "\"\U{E2}\U{80}\U{A6}\""
  const SELECT_MARK_AS := "SELECT " + MARK + " AS " + MARK
  const SELECT_MARK := "SELECT " + MARK
  const SELECT_WHERE_MARK := "SELECT WHERE " + MARK

  function Output(text: string): string {
    ReplaceAll(ReplaceAll(ReplaceAll(text, SELECT_MARK_AS, SELECT_MARK), SELECT_WHERE_MARK, MARK), MARK, DOTS)
  }

  /** The three calls of global_replace on one buffer. */
  method ReplaceMarks(text: string) returns (r: string)
    ensures r == Output(text)
  {
    hide ReplaceAll, IndexOf;
    var str := new char[|text|](i requires 0 <= i < |text| => text[i]);
    assert str[..] == text == str[..|text|];
    var len := |text|;
    len := GlobalReplace(str, len, SELECT_MARK_AS, SELECT_MARK);
    len := GlobalReplace(str, len, SELECT_WHERE_MARK, MARK);
    len := GlobalReplace(str, len, MARK, DOTS);
    r := str[..len];
  }

  // ---------- Order of truncations ----------

  /** cmp_possible_truncations: deeper ones first, and longer ones among those. */
  predicate NotAfter(a: PossibleTruncation, b: PossibleTruncation) {
    a.depth > b.depth || (a.depth == b.depth && a.length >= b.length)
  }

  function Key(t: PossibleTruncation): int {
    -(t.depth * TWO_31 + t.length)
  }

  predicate InOrder(cuts: seq<PossibleTruncation>) {
    forall i, j | 0 <= i < j < |cuts| :: NotAfter(cuts[i], cuts[j])
  }

  lemma KeyOrders(a: PossibleTruncation, b: PossibleTruncation)
    requires a.length < TWO_31 && b.length < TWO_31 && Key(a) <= Key(b)
    ensures NotAfter(a, b)
  {
    assert a.depth < b.depth ==> (a.depth + 1) * TWO_31 <= b.depth * TWO_31;
    assert a.depth == b.depth ==> a.depth * TWO_31 == b.depth * TWO_31;
  }

  /** list_sort; lengths are C ints. */
  method ListSort(cuts: seq<PossibleTruncation>) returns (sorted: seq<PossibleTruncation>)
    requires forall t | t in cuts :: t.length < TWO_31
    ensures multiset(sorted) == multiset(cuts) && InOrder(sorted)
  {
    sorted := Qsort(cuts, Key);
    forall i, j | 0 <= i < j < |sorted| ensures NotAfter(sorted[i], sorted[j]) {
      assert sorted[i] in multiset(sorted) && sorted[j] in multiset(sorted);
      assert sorted[i] in cuts && sorted[j] in cuts;
      KeyOrders(sorted[i], sorted[j]);
    }
  }

  // ---------- Collecting truncations ----------

  class TruncationState {
    var truncations: seq<PossibleTruncation>
    var depth: nat

    constructor ()
      ensures truncations == [] && depth == 0
    {
      truncations, depth := [], 0;
    }

    method AddTruncation(id: nat, length: nat)
      modifies this`truncations
      ensures truncations == old(truncations) + if length > 3 then [PossibleTruncation(id, depth, length)] else []
    {
      // Don't bother truncating if it won't become shorter
      if length > 3 {
        truncations := truncations + [PossibleTruncation(id, depth, length)];
      }
    }

    /** generate_possible_truncations; the depth is restored for siblings. */
    method Generate(ts: seq<Tree>)
      modifies this
      ensures depth == old(depth) && truncations == old(truncations) + Possible(ts, depth)
      decreases ts, 0
    {
      hide PossibleOne;
      for i := 0 to |ts|
        invariant depth == old(depth) && truncations + Possible(ts[i..], depth) == old(truncations) + Possible(ts, depth)
      {
        assert ts[i..][0] == ts[i] && ts[i..][1..] == ts[i+1..];
        GenerateOne(ts[i]);
      }
    }

    method GenerateOne(t: Tree)
      modifies this
      ensures depth == old(depth) && truncations == old(truncations) + PossibleOne(t, depth)
      decreases t, 1
    {
      match t
      case Text(_) =>
      case Part(id, _, body) =>
        AddTruncation(id, |Deparse(body)|);
        Generate(body);
      case Node(body) =>
        var oldDepth := depth;
        depth := depth + 1;
        Generate(body);
        depth := oldDepth;
    }
  }

  // ---------- Applying truncations ----------

  /** The text after the first k truncations. */
  function Truncated(ts: seq<Tree>, cuts: seq<PossibleTruncation>, k: nat): string
    requires k <= |cuts|
  {
    if k == 0 then Deparse(ts) else Output(Deparse(CutAll(ts, cuts[..k])))
  }

  /** The length of the full text is an int, and that of a shorter one a size_t. */
  predicate TooLong(ts: seq<Tree>, cuts: seq<PossibleTruncation>, k: nat, limit: int)
    requires k <= |cuts| && IsLimit(limit)
  {
    |Truncated(ts, cuts, k)| > if k == 0 then limit else AsSize(limit)
  }

  /** The first k truncations are the fewest that make the text fit. */
  ghost predicate FewestThatFit(ts: seq<Tree>, cuts: seq<PossibleTruncation>, k: nat, limit: int)
    requires k <= |cuts| && IsLimit(limit)
  {
    !TooLong(ts, cuts, k, limit) && forall j | 0 <= j < k :: TooLong(ts, cuts, j, limit)
  }

  ghost predicate NoneFits(ts: seq<Tree>, cuts: seq<PossibleTruncation>, limit: int)
    requires IsLimit(limit)
  {
    forall j | 0 <= j <= |cuts| :: TooLong(ts, cuts, j, limit)
  }

  /** Texts and marks are UTF-8. */
  predicate ValidTree(ts: seq<Tree>)
    decreases ts, 0
  {
    ts == [] || (ValidOne(ts[0]) && ValidTree(ts[1..]))
  }

  predicate ValidOne(t: Tree)
    decreases t, 1
  {
    match t
    case Text(text) => Complete(text)
    case Part(_, mark, body) => Complete(mark) && ValidTree(body)
    case Node(body) => ValidTree(body)
  }

  lemma {:induction false} DeparseComplete(ts: seq<Tree>)
    requires ValidTree(ts)
    ensures Complete(Deparse(ts))
    decreases ts, 0
  {
    hide ValidOne, DeparseOne;
    if ts != [] {
      OneComplete(ts[0]);
      DeparseComplete(ts[1..]);
      CompleteAppend(DeparseOne(ts[0]), Deparse(ts[1..]));
    }
  }

  lemma {:induction false} OneComplete(t: Tree)
    requires ValidOne(t)
    ensures Complete(DeparseOne(t))
    decreases t, 1
  {
    match t
    case Text(_) =>
    case Part(_, _, body) => DeparseComplete(body);
    case Node(body) => DeparseComplete(body);
  }

  lemma {:induction false} CutValid(ts: seq<Tree>, id: nat)
    requires ValidTree(ts)
    ensures ValidTree(Cut(ts, id))
    decreases ts, 0
  {
    hide ValidOne, CutOne;
    if ts != [] {
      CutOneValid(ts[0], id);
      CutValid(ts[1..], id);
      assert Cut(ts, id)[1..] == Cut(ts[1..], id);
    }
  }

  lemma {:induction false} CutOneValid(t: Tree, id: nat)
    requires ValidOne(t)
    ensures ValidOne(CutOne(t, id))
    decreases t, 1
  {
    match t
    case Text(_) =>
    case Part(id2, mark, body) =>
      if id2 != id { CutValid(body, id); } else { MarkValid(mark); }
    case Node(body) => CutValid(body, id);
  }

  lemma MarkValid(mark: string)
    requires Complete(mark)
    ensures ValidTree([Text(mark)])
  {
    assert [Text(mark)][1..] == [] && ValidTree([]) && ValidOne(Text(mark));
    assert [Text(mark)][0] == Text(mark);
  }

  lemma MarksComplete()
    ensures Complete(MARK) && Complete(SELECT_MARK) && Complete(SELECT_MARK_AS) && Complete(SELECT_WHERE_MARK)
  {
    AsciiCharacter('"');
    EllipsisComplete();
    CompleteAppend("\"", "\U{E2}\U{80}\U{A6}");
    CompleteAppend("\"" + "\U{E2}\U{80}\U{A6}", "\"");
    assert MARK == "\"" + "\U{E2}\U{80}\U{A6}" + "\"";
    AsciiComplete("SELECT ");
    AsciiComplete(" AS ");
    AsciiComplete("SELECT WHERE ");
    hide Complete;
    CompleteAppend("SELECT ", MARK);
    CompleteAppend("SELECT " + MARK, " AS ");
    CompleteAppend("SELECT " + MARK + " AS ", MARK);
    CompleteAppend("SELECT WHERE ", MARK);
  }

  lemma EllipsisComplete()
    ensures Complete("\U{E2}\U{80}\U{A6}")
  {
    var e := "\U{E2}\U{80}\U{A6}";
    assert MbLen(e[0]) == 3 && e[3..] == "";
  }

  lemma {:induction false} AsciiComplete(s: string)
    requires forall i | 0 <= i < |s| :: s[i] as int < 0x80
    ensures Complete(s)
  {
    if s != "" {
      AsciiComplete(s[1..]);
    }
  }

  lemma OutputComplete(text: string)
    requires Complete(text)
    ensures Complete(Output(text))
  {
    hide Complete, ReplaceAll;
    MarksComplete();
    DotsCharacters();
    ReplacedComplete(text, SELECT_MARK_AS, SELECT_MARK);
    var t1 := ReplaceAll(text, SELECT_MARK_AS, SELECT_MARK);
    ReplacedComplete(t1, SELECT_WHERE_MARK, MARK);
    ReplacedComplete(ReplaceAll(t1, SELECT_WHERE_MARK, MARK), MARK, DOTS);
  }

  /** apply_truncations, for a text that does not fit */
  method ApplyTruncations(ts: seq<Tree>, cuts: seq<PossibleTruncation>, limit: int) returns (out: string, ghost k: nat)
    requires ValidTree(ts) && IsLimit(limit) && TooLong(ts, cuts, 0, limit)
    ensures k <= |cuts| && (FewestThatFit(ts, cuts, k, limit) ==> out == Truncated(ts, cuts, k))
    ensures !FewestThatFit(ts, cuts, k, limit) ==>
              k == |cuts| && NoneFits(ts, cuts, limit) && Complete(Truncated(ts, cuts, k)) && out == Clip(Truncated(ts, cuts, k), AsSize(limit))
    ensures Complete(out)
  {
    hide Deparse, Output, Complete, Cut, ValidTree;
    var tree := ts;
    out, k := Deparse(tree), 0;
    DeparseComplete(ts);
    for i := 0 to |cuts|
      invariant k == i && tree == CutAll(ts, cuts[..i]) && ValidTree(tree) && out == Truncated(ts, cuts, i) && Complete(out)
      invariant forall j | 0 <= j <= i :: TooLong(ts, cuts, j, limit)
    {
      assert cuts[..i+1][..i] == cuts[..i];
      CutValid(tree, cuts[i].id);
      tree := Cut(tree, cuts[i].id);
      DeparseComplete(tree);
      OutputComplete(Deparse(tree));
      out := ReplaceMarks(Deparse(tree));
      k := i + 1;
      if |out| <= AsSize(limit) {
        return;
      }
    }
    assert cuts[..|cuts|] == cuts;
    out := TruncateMbstr(out, AsSize(limit));
    ClipFits(Truncated(ts, cuts, |cuts|), limit);
  }

  /** pg_query_summary_truncate: the full text, or the text after the fewest truncations that make it fit,
      or a clip of the text after all of them.  It has no more than `limit` characters if "..." fits. */
  method SummaryTruncate(ts: seq<Tree>, limit: int) returns (out: string, ghost cuts: seq<PossibleTruncation>, ghost k: nat)
    requires ValidTree(ts) && IsLimit(limit) && forall t | t in Possible(ts, 0) :: t.length < TWO_31
    ensures multiset(cuts) == multiset(Possible(ts, 0)) && InOrder(cuts) && k <= |cuts|
    ensures !NoneFits(ts, cuts, limit) ==> FewestThatFit(ts, cuts, k, limit) && out == Truncated(ts, cuts, k)
    ensures NoneFits(ts, cuts, limit) ==>
              k == |cuts| && Complete(Truncated(ts, cuts, k)) && out == Clip(Truncated(ts, cuts, k), AsSize(limit))
    ensures Complete(out) && (limit >= 3 ==> Characters(out) <= limit)
  {
    hide Deparse, Output, Complete, Characters, CutAll, ValidTree, Possible;
    var state := new TruncationState();
    state.Generate(ts);
    assert [] + Possible(ts, 0) == Possible(ts, 0);
    var sorted := ListSort(state.truncations);
    cuts, k := sorted, 0;
    out := Deparse(ts);
    DeparseComplete(ts);
    if |out| <= limit {
      assert !TooLong(ts, cuts, 0, limit);
      CharactersAtMostBytes(out);
      return;
    }
    out, k := ApplyTruncations(ts, sorted, limit);
    if FewestThatFit(ts, cuts, k, limit) {
      CharactersAtMostBytes(out);
    } else {
      ClipFits(Truncated(ts, cuts, k), limit);
    }
  }
}
