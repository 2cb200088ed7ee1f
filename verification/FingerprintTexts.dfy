/** What a fingerprint does depend on: every text of the tree that is hashed. */
module FingerprintTexts {
  import opened Decimals
  import opened FingerprintStream

  // ---------- The tokens of a tree ----------

  function Concat(blocks: seq<seq<string>>): seq<string> {
    if blocks == [] then [] else blocks[0] + Concat(blocks[1..])
  }

  /** The streams of the items, each the concatenation of its tokens. */
  function Streams(blocks: seq<seq<string>>): (ss: seq<string>)
    ensures |ss| == |blocks| && forall i | 0 <= i < |blocks| :: ss[i] == Flat(blocks[i])
  {
    seq(|blocks|, i requires 0 <= i < |blocks| => Flat(blocks[i]))
  }

  function InsertBlock(env: Env, x: seq<string>, sorted: seq<seq<string>>): seq<seq<string>> {
    if sorted == [] then [x]
    else if env.digest(Flat(x)) < env.digest(Flat(sorted[0])) then [x] + sorted
    else if env.digest(Flat(x)) == env.digest(Flat(sorted[0])) then sorted
    else [sorted[0]] + InsertBlock(env, x, sorted[1..])
  }

  function SortBlocks(env: Env, blocks: seq<seq<string>>): seq<seq<string>> {
    if blocks == [] then [] else InsertBlock(env, blocks[0], SortBlocks(env, blocks[1..]))
  }

  /** The stream of a node before its strings are concatenated. */
  function NodeTokens(env: Env, n: Node, parent: string, field: string, depth: nat): seq<string>
    decreases n, 1
  {
    if depth >= MAX_DEPTH then [] else
    match n
    case Null => []
    case Ignored(_) => []
    case Val(v) => ValueStrings(v)
    case List(_, items) =>
      var blocks := ItemTokens(env, items, parent, field, depth + 1);
      Concat(if OrderInsensitive(field) then SortBlocks(env, blocks) else blocks)
    case RangeVar(_, _, _, _, _, _) => ["RangeVar"] + RangeVarStrings(env, n, parent, field)
    case Struct(tag, fields) =>
      if CastOfConstant(tag, fields) then [] else [tag] + FieldsTokens(env, fields, tag, parent, field, depth)
  }

  function ItemTokens(env: Env, items: seq<Node>, parent: string, field: string, depth: nat): (blocks: seq<seq<string>>)
    ensures |blocks| == |items|
    ensures forall i | 0 <= i < |items| :: blocks[i] == NodeTokens(env, items[i], parent, field, depth)
    decreases items, 0
  {
    if items == [] then [] else
    [NodeTokens(env, items[0], parent, field, depth)] + ItemTokens(env, items[1..], parent, field, depth)
  }

  function FieldsTokens(env: Env, fields: seq<Field>, self: string, parent: string, field: string, depth: nat): seq<string>
    decreases fields, 2
  {
    if fields == [] then [] else
    FieldTokens(env, fields[0], self, parent, field, depth) + FieldsTokens(env, fields[1..], self, parent, field, depth)
  }

  function BodyTokens(env: Env, n: Node, parent: string, field: string, depth: nat): seq<string>
    decreases n, 0
  {
    match n
    case Struct(tag, fields) => FieldsTokens(env, fields, tag, parent, field, depth)
    case RangeVar(_, _, _, _, _, _) => RangeVarStrings(env, n, parent, field)
    case _ => []
  }

  function NamedTokens(name: string, content: seq<string>): seq<string> {
    if Flat(content) == "" then [] else [name] + content
  }

  function FieldTokens(env: Env, f: Field, self: string, parent: string, field: string, depth: nat): seq<string>
    decreases f, 1
  {
    match f
    case TextField(name, text) => Labelled(name, text)
    case TargetName(text) => if parent == "SelectStmt" && field == "targetList" then [] else Labelled("name", text)
    case BitmapField(name, members) => [name] + members
    case NodeField(name, node) => NamedTokens(name, NodeTokens(env, node, self, name, depth + 1))
    case ListField(name, node) =>
      if !node.List? || node.items == [] then []
      else if KeepsName(node) then [name] + NodeTokens(env, node, self, name, depth + 1)
      else NamedTokens(name, NodeTokens(env, node, self, name, depth + 1))
    case SpecificField(name, node) =>
      if depth + 1 < MAX_DEPTH then NamedTokens(name, BodyTokens(env, node, self, name, depth + 1)) else []
    case EmbeddedField(name, node) => [name] + BodyTokens(env, node, self, name, depth)
  }

  // ---------- Concatenated, the tokens are the stream ----------

  lemma {:induction false} FlatConcat(blocks: seq<seq<string>>)
    ensures Flat(Concat(blocks)) == Flat(Streams(blocks))
  {
    if blocks != [] {
      FlatConcat(blocks[1..]);
      FlatAppend(blocks[0], Concat(blocks[1..]));
      assert Streams(blocks)[1..] == Streams(blocks[1..]);
    }
  }

  lemma {:induction false} InsertStreams(env: Env, x: seq<string>, sorted: seq<seq<string>>)
    ensures Streams(InsertBlock(env, x, sorted)) == Insert(env, Flat(x), Streams(sorted))
  {
    if sorted != [] {
      InsertStreams(env, x, sorted[1..]);
      assert Streams(sorted)[1..] == Streams(sorted[1..]);
      assert Streams([x] + sorted) == [Flat(x)] + Streams(sorted);
      assert Streams([sorted[0]] + InsertBlock(env, x, sorted[1..])) == [Flat(sorted[0])] + Streams(InsertBlock(env, x, sorted[1..]));
    } else {
      assert Streams([x]) == [Flat(x)];
    }
  }

  lemma {:induction false} SortStreams(env: Env, blocks: seq<seq<string>>)
    ensures Streams(SortBlocks(env, blocks)) == SortDistinct(env, Streams(blocks))
  {
    if blocks != [] {
      SortStreams(env, blocks[1..]);
      InsertStreams(env, blocks[0], SortBlocks(env, blocks[1..]));
      assert Streams(blocks)[1..] == Streams(blocks[1..]);
    } else {
      assert Streams([]) == [];
    }
  }

  lemma {:induction false} TokensAreStream(env: Env, n: Node, parent: string, field: string, depth: nat)
    ensures Flat(NodeTokens(env, n, parent, field, depth)) == NodeStream(env, n, parent, field, depth)
    decreases n, 1
  {
    hide ValueStrings, RangeVarStrings, OrderInsensitive, CastOfConstant, FieldsTokens, FieldsStream, ItemTokens, ItemStreams;
    match n
    case List(_, items) =>
      ItemsAreStreams(env, items, parent, field, depth + 1);
      var blocks := ItemTokens(env, items, parent, field, depth + 1);
      SortStreams(env, blocks);
      FlatConcat(blocks);
      FlatConcat(SortBlocks(env, blocks));
      assert Streams(blocks) == ItemStreams(env, items, parent, field, depth + 1);
    case RangeVar(_, _, _, _, _, _) => FlatCons("RangeVar", RangeVarStrings(env, n, parent, field));
    case Struct(tag, fields) =>
      FieldsAreStreams(env, fields, tag, parent, field, depth);
      FlatCons(tag, FieldsTokens(env, fields, tag, parent, field, depth));
    case _ =>
  }

  lemma FlatCons(s: string, ss: seq<string>)
    ensures Flat([s] + ss) == s + Flat(ss)
  {
    assert ([s] + ss)[1..] == ss;
  }

  lemma {:induction false} ItemsAreStreams(env: Env, items: seq<Node>, parent: string, field: string, depth: nat)
    ensures forall i | 0 <= i < |items| ::
              Flat(NodeTokens(env, items[i], parent, field, depth)) == NodeStream(env, items[i], parent, field, depth)
    decreases items, 0
  {
    hide NodeTokens, NodeStream;
    forall i | 0 <= i < |items| ensures Flat(NodeTokens(env, items[i], parent, field, depth)) == NodeStream(env, items[i], parent, field, depth) {
      TokensAreStream(env, items[i], parent, field, depth);
    }
  }

  lemma {:induction false} FieldsAreStreams(env: Env, fields: seq<Field>, self: string, parent: string, field: string, depth: nat)
    ensures Flat(FieldsTokens(env, fields, self, parent, field, depth)) == FieldsStream(env, fields, self, parent, field, depth)
    decreases fields, 2
  {
    hide FieldTokens, FieldStream;
    if fields != [] {
      FieldIsStream(env, fields[0], self, parent, field, depth);
      FieldsAreStreams(env, fields[1..], self, parent, field, depth);
      FlatAppend(FieldTokens(env, fields[0], self, parent, field, depth), FieldsTokens(env, fields[1..], self, parent, field, depth));
    }
  }

  lemma {:induction false} FieldIsStream(env: Env, f: Field, self: string, parent: string, field: string, depth: nat)
    ensures Flat(FieldTokens(env, f, self, parent, field, depth)) == FieldStream(env, f, self, parent, field, depth)
    decreases f, 1
  {
    hide NodeTokens, NodeStream, BodyTokens, BodyStream, Labelled, Flat;
    FlatNothing();
    match f
    case NodeField(name, node) =>
      TokensAreStream(env, node, self, name, depth + 1);
      FlatCons(name, NodeTokens(env, node, self, name, depth + 1));
    case ListField(name, node) =>
      TokensAreStream(env, node, self, name, depth + 1);
      FlatCons(name, NodeTokens(env, node, self, name, depth + 1));
    case SpecificField(name, node) =>
      BodyIsStream(env, node, self, name, depth + 1);
      FlatCons(name, BodyTokens(env, node, self, name, depth + 1));
    case EmbeddedField(name, node) =>
      BodyIsStream(env, node, self, name, depth);
      FlatCons(name, BodyTokens(env, node, self, name, depth));
    case _ =>
  }

  lemma FlatNothing()
    ensures Flat([]) == ""
  {
  }

  lemma {:induction false} BodyIsStream(env: Env, n: Node, parent: string, field: string, depth: nat)
    ensures Flat(BodyTokens(env, n, parent, field, depth)) == BodyStream(env, n, parent, field, depth)
    decreases n, 0
  {
    hide FieldsTokens, FieldsStream;
    match n
    case Struct(tag, fields) => FieldsAreStreams(env, fields, tag, parent, field, depth);
    case _ =>
  }
}
