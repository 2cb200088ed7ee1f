/** Trees that differ in one text have different tokens, and those tokens differ in that text. */
module FingerprintDiffer {
  import opened Decimals
  import opened FingerprintStream
  import opened FingerprintTexts

  /** One text becomes another.  front: the string in front of it, or "" for a tag. */
  datatype Change = Change(front: string, before: string, after: string)

  // ---------- Trees that differ in one text ----------

  predicate OneValue(v: Value, w: Value, c: Change) {
    match (v, w)
    case (Integer(i), Integer(j)) => i != 0 && j != 0 && c == Change("ival", SignedDecimal(i), SignedDecimal(j))
    case (Float(s), Float(t)) => s.Some? && t.Some? && c == Change("str", s.value, t.value)
    case (Boolean(s), Boolean(t)) => c == Change("boolval", if s then "true" else "false", if t then "true" else "false")
    case (Str(s), Str(t)) => c == Change("str", s, t)
    case (BitString(s), BitString(t)) => s.Some? && t.Some? && c == Change("str", s.value, t.value)
    case _ => false
  }

  /** The text of a field that is set in both. */
  predicate OneText(front: string, s: Option<string>, t: Option<string>, c: Change) {
    s.Some? && t.Some? && c == Change(front, s.value, t.value)
  }

  function HashedName(env: Env, relname: string): string {
    if env.fullRelname then relname else WithoutDigitRuns(relname, |relname|)
  }

  /** One of the texts of a relation, where it is hashed. */
  predicate OneRangeVarText(env: Env, a: Node, b: Node, parent: string, field: string, c: Change)
    requires a.RangeVar? && b.RangeVar?
  {
    var dml := IsDmlContext(parent, field);
    || (b == a.(alias := b.alias) && !env.ignoreAliases && a.alias.Some? && b.alias.Some? && OneText("aliasname", a.alias.value, b.alias.value, c))
    || (b == a.(catalogname := b.catalogname) && OneText("catalogname", a.catalogname, b.catalogname, c))
    || (b == a.(relname := b.relname) && a.relname.Some? && b.relname.Some? && a.relpersistence != "t"
        && !(dml && !env.ignoreAliases && a.alias.Some?)
        && c == Change("relname", HashedName(env, a.relname.value), HashedName(env, b.relname.value)))
    || (b == a.(relpersistence := b.relpersistence) && a.relpersistence !in {"", "t"} && b.relpersistence !in {"", "t"}
        && c == Change("relpersistence", a.relpersistence, b.relpersistence))
    || (b == a.(schemaname := b.schemaname) && (!dml || env.includeSchema) && OneText("schemaname", a.schemaname, b.schemaname, c))
  }

  /** b is a with one text changed that is hashed; in order, if no order-insensitive list is around it. */
  ghost predicate OneApart(env: Env, a: Node, b: Node, parent: string, field: string, depth: nat, c: Change, inOrder: bool)
    decreases a, 1
  {
    depth < MAX_DEPTH &&
    match a
    case Val(v) => b.Val? && OneValue(v, b.value, c)
    case List(_, items) =>
      b.List? && exists i: nat :: ItemApart(env, items, b.items, i, parent, field, depth, c, inOrder)
    case RangeVar(_, _, _, _, _, _) => b.RangeVar? && OneRangeVarText(env, a, b, parent, field, c)
    case Struct(tag, fields) =>
      && b.Struct? && !CastOfConstant(tag, fields) && !CastOfConstant(b.tag, b.fields)
      && (if b.tag == tag then exists i: nat :: FieldApartAt(env, fields, b.fields, i, tag, parent, field, depth, c, inOrder)
          else OneTag(env, a, b, parent, field, depth, c))
    case _ => false
  }

  /** Another tag, where no field looks at it. */
  predicate OneTag(env: Env, a: Node, b: Node, parent: string, field: string, depth: nat, c: Change)
    requires a.Struct? && b.Struct?
  {
    && c == Change("", a.tag, b.tag) && b.fields == a.fields
    && FieldsTokens(env, a.fields, a.tag, parent, field, depth) == FieldsTokens(env, a.fields, b.tag, parent, field, depth)
  }

  /** Item i; in an order-insensitive list no other item has the stream that it has, or had. */
  ghost predicate ItemApart(env: Env, a: seq<Node>, b: seq<Node>, i: nat, parent: string, field: string, depth: nat, c: Change, inOrder: bool)
    decreases a, 0
  {
    && i < |a| == |b| && b == a[i := b[i]] && OneApart(env, a[i], b[i], parent, field, depth + 1, c, inOrder)
    && (OrderInsensitive(field) ==>
          !inOrder && Unlike(env, a, i, a[i], parent, field, depth + 1) && Unlike(env, a, i, b[i], parent, field, depth + 1))
  }

  /** No item but the i-th is hashed like this one. */
  ghost predicate Unlike(env: Env, a: seq<Node>, i: nat, n: Node, parent: string, field: string, depth: nat) {
    forall j | 0 <= j < |a| && j != i ::
      env.digest(NodeStream(env, a[j], parent, field, depth)) != env.digest(NodeStream(env, n, parent, field, depth))
  }

  ghost predicate FieldApartAt(env: Env, a: seq<Field>, b: seq<Field>, i: nat, self: string, parent: string, field: string, depth: nat, c: Change, inOrder: bool)
    decreases a, 2
  {
    i < |a| == |b| && b == a[i := b[i]] && FieldApart(env, a[i], b[i], self, parent, field, depth, c, inOrder)
  }

  ghost predicate FieldApart(env: Env, f: Field, g: Field, self: string, parent: string, field: string, depth: nat, c: Change, inOrder: bool)
    decreases f, 1
  {
    match f
    case TextField(name, text) => g.TextField? && g.name == name && OneText(name, text, g.text, c)
    case TargetName(text) => g.TargetName? && !(parent == "SelectStmt" && field == "targetList") && OneText("name", text, g.text, c)
    case BitmapField(name, members) => g.BitmapField? && g.name == name && exists i: nat :: OneMember(name, members, g.members, i, c)
    case NodeField(name, node) => g.NodeField? && g.name == name && OneApart(env, node, g.node, self, name, depth + 1, c, inOrder)
    case ListField(name, node) =>
      g.ListField? && g.name == name && node.List? && OneApart(env, node, g.node, self, name, depth + 1, c, inOrder)
    case SpecificField(name, node) =>
      g.SpecificField? && g.name == name && depth + 1 < MAX_DEPTH && OneInBody(env, node, g.node, self, name, depth + 1, c, inOrder)
    case EmbeddedField(name, node) => g.EmbeddedField? && g.name == name && OneInBody(env, node, g.node, self, name, depth, c, inOrder)
  }

  predicate OneMember(name: string, a: seq<string>, b: seq<string>, i: nat, c: Change) {
    i < |a| == |b| && b == a[i := b[i]] && c == Change(if i == 0 then name else a[i-1], a[i], b[i])
  }

  ghost predicate OneInBody(env: Env, a: Node, b: Node, parent: string, field: string, depth: nat, c: Change, inOrder: bool)
    decreases a, 0
  {
    match a
    case Struct(tag, fields) =>
      b.Struct? && b.tag == tag && exists i: nat :: FieldApartAt(env, fields, b.fields, i, tag, parent, field, depth, c, inOrder)
    case RangeVar(_, _, _, _, _, _) => b.RangeVar? && OneRangeVarText(env, a, b, parent, field, c)
    case _ => false
  }

  // ---------- Tokens that differ in one text ----------

  /** s is token i, behind the string in front of it. */
  predicate StandsAt(x: seq<string>, i: nat, front: string, s: string) {
    i < |x| && x[i] == s && (front != "" ==> i > 0 && x[i-1] == front)
  }

  ghost predicate Stands(x: seq<string>, front: string, s: string) {
    exists i: nat :: StandsAt(x, i, front, s)
  }

  predicate ReplacedAt(x: seq<string>, y: seq<string>, i: nat, c: Change) {
    StandsAt(x, i, c.front, c.before) && y == x[i := c.after]
  }

  function Bag(x: seq<string>): multiset<string> {
    multiset(x)
  }

  /** y has the tokens of x with the text after the change in place of the one before, each behind the string
      in front of it; in order, if nothing in between is sorted. */
  ghost predicate Replaced(x: seq<string>, y: seq<string>, c: Change, inOrder: bool) {
    && Bag(y) + multiset{c.before} == Bag(x) + multiset{c.after}
    && Stands(x, c.front, c.before) && Stands(y, c.front, c.after)
    && (inOrder ==> exists i: nat :: ReplacedAt(x, y, i, c))
    && Flat(x) != "" && Flat(y) != ""
  }

  lemma BagAround(p: seq<string>, x: seq<string>, q: seq<string>)
    ensures Bag(p + x + q) == Bag(p) + Bag(x) + Bag(q)
  {
  }

  lemma BagSum(p: multiset<string>, x: multiset<string>, y: multiset<string>, q: multiset<string>, s: multiset<string>, t: multiset<string>)
    requires y + s == x + t
    ensures (p + y + q) + s == (p + x + q) + t
  {
    assert (p + y + q) + s == (p + q) + (y + s);
    assert (p + x + q) + t == (p + q) + (x + t);
  }

  lemma StandsAround(p: seq<string>, x: seq<string>, q: seq<string>, front: string, s: string)
    requires Stands(x, front, s)
    ensures Stands(p + x + q, front, s)
  {
    var i: nat :| StandsAt(x, i, front, s);
    assert (p + x + q)[|p| + i] == x[i] && (i > 0 ==> (p + x + q)[|p| + i - 1] == x[i-1]);
    assert StandsAt(p + x + q, |p| + i, front, s);
  }

  lemma FlatAround(p: seq<string>, x: seq<string>, q: seq<string>)
    requires Flat(x) != ""
    ensures Flat(p + x + q) != ""
  {
    FlatAppend(p, x);
    FlatAppend(p + x, q);
    assert |Flat(p + x + q)| == |Flat(p)| + |Flat(x)| + |Flat(q)|;
  }

  lemma ReplacedAtAround(p: seq<string>, x: seq<string>, y: seq<string>, q: seq<string>, i: nat, c: Change)
    requires ReplacedAt(x, y, i, c)
    ensures ReplacedAt(p + x + q, p + y + q, |p| + i, c)
  {
    var all := p + x + q;
    assert all[|p| + i] == x[i] && (i > 0 ==> all[|p| + i - 1] == x[i-1]);
    assert p + y + q == all[|p| + i := c.after];
  }

  lemma ReplacedAround(p: seq<string>, x: seq<string>, y: seq<string>, q: seq<string>, c: Change, inOrder: bool)
    requires Replaced(x, y, c, inOrder)
    ensures Replaced(p + x + q, p + y + q, c, inOrder)
  {
    hide Flat, Stands, Bag, ReplacedAt;
    StandsAround(p, x, q, c.front, c.before);
    StandsAround(p, y, q, c.front, c.after);
    FlatAround(p, x, q);
    FlatAround(p, y, q);
    if inOrder {
      var i: nat :| ReplacedAt(x, y, i, c);
      ReplacedAtAround(p, x, y, q, i, c);
    }
    BagAround(p, x, q);
    BagAround(p, y, q);
    BagSum(Bag(p), Bag(x), Bag(y), Bag(q), multiset{c.before}, multiset{c.after});
  }

  /** One token becomes another. */
  lemma OneReplaced(x: seq<string>, i: nat, c: Change, inOrder: bool)
    requires StandsAt(x, i, c.front, c.before)
    requires x[0] != "" && (i == 0 ==> c.after != "")
    ensures Replaced(x, x[i := c.after], c, inOrder)
  {
    var y := x[i := c.after];
    BagReplaced(x, i, c.after);
    assert Flat(x) == x[0] + Flat(x[1..]) && Flat(y) == y[0] + Flat(y[1..]);
    hide Flat, Bag;
    assert StandsAt(y, i, c.front, c.after);
    assert ReplacedAt(x, y, i, c);
  }

  lemma BagReplaced(x: seq<string>, i: nat, s: string)
    requires i < |x|
    ensures Bag(x[i := s]) + multiset{x[i]} == Bag(x) + multiset{s}
  {
    var p, q := x[..i], x[i+1..];
    assert x == p + [x[i]] + q && x[i := s] == p + [s] + q;
    BagAround(p, [x[i]], q);
    BagAround(p, [s], q);
    assert Bag([x[i]]) == multiset{x[i]} && Bag([s]) == multiset{s};
    hide Bag;
    assert Bag([s]) + multiset{x[i]} == Bag([x[i]]) + multiset{s};
    BagSum(Bag(p), Bag([x[i]]), Bag([s]), Bag(q), multiset{x[i]}, multiset{s});
  }

  /** A different token list, if the texts differ; and in order a different stream. */
  lemma ReplacedDiffers(x: seq<string>, y: seq<string>, c: Change, inOrder: bool)
    requires Replaced(x, y, c, inOrder) && c.before != c.after
    ensures x != y && (inOrder ==> Flat(x) != Flat(y))
  {
    assert x != y by {
      hide Bag, Flat;
      var s := c.before;
      assert (Bag(y) + multiset{s})[s] == Bag(y)[s] + 1 && (Bag(x) + multiset{c.after})[s] == Bag(x)[s];
    }
    if inOrder {
      var i: nat :| ReplacedAt(x, y, i, c);
      FlatAt(x, i);
      FlatAt(y, i);
      hide Flat;
      assert x[..i] == y[..i] && x[i+1..] == y[i+1..];
      Cancel(Flat(x[..i]), c.before, c.after, Flat(x[i+1..]));
    }
  }

  lemma FlatAt(x: seq<string>, i: nat)
    requires i < |x|
    ensures Flat(x) == Flat(x[..i]) + x[i] + Flat(x[i+1..])
  {
    assert x == x[..i] + x[i..];
    FlatAppend(x[..i], x[i..]);
  }

  lemma Cancel(p: string, s: string, t: string, q: string)
    requires s != t
    ensures p + s + q != p + t + q
  {
    assert (p + s + q)[|p|..|p| + |s|] == s && (p + t + q)[|p|..|p| + |t|] == t;
    assert |p + s + q| == |p| + |s| + |q| && |p + t + q| == |p| + |t| + |q|;
  }

  // ---------- Blocks ----------

  lemma {:induction false} ConcatAppend(a: seq<seq<string>>, b: seq<seq<string>>)
    ensures Concat(a + b) == Concat(a) + Concat(b)
  {
    if a == [] {
      assert a + b == b;
    } else {
      ConcatAppend(a[1..], b);
      assert (a + b)[1..] == a[1..] + b && (a + b)[0] == a[0];
      assert a[0] + (Concat(a[1..]) + Concat(b)) == Concat(a) + Concat(b);
    }
  }

  lemma ConcatAround(a: seq<seq<string>>, x: seq<string>, b: seq<seq<string>>)
    ensures Concat(a + [x] + b) == Concat(a) + x + Concat(b)
  {
    ConcatAppend(a + [x], b);
    ConcatAppend(a, [x]);
    assert [x][1..] == [] && Concat([x]) == x;
  }

  lemma BlockReplaced(blocks: seq<seq<string>>, i: nat, y: seq<string>, c: Change, inOrder: bool)
    requires i < |blocks| && Replaced(blocks[i], y, c, inOrder)
    ensures Replaced(Concat(blocks), Concat(blocks[i := y]), c, inOrder)
  {
    hide Replaced, Concat;
    var a, b := blocks[..i], blocks[i+1..];
    assert blocks == a + [blocks[i]] + b && blocks[i := y] == a + [y] + b;
    ConcatAround(a, blocks[i], b);
    ConcatAround(a, y, b);
    ReplacedAround(Concat(a), blocks[i], y, Concat(b), c, inOrder);
  }

  // ---------- Sorting blocks ----------

  function Digest(env: Env, x: seq<string>): nat {
    env.digest(Flat(x))
  }

  predicate SortedBlocks(env: Env, blocks: seq<seq<string>>) {
    forall i, j | 0 <= i < j < |blocks| :: Digest(env, blocks[i]) < Digest(env, blocks[j])
  }

  lemma {:induction false} InsertSorted(env: Env, x: seq<string>, sorted: seq<seq<string>>)
    requires SortedBlocks(env, sorted)
    ensures SortedBlocks(env, InsertBlock(env, x, sorted))
    ensures forall b | b in InsertBlock(env, x, sorted) :: b == x || b in sorted
  {
    hide Flat;
    if sorted != [] && Digest(env, x) > Digest(env, sorted[0]) {
      var tail := sorted[1..];
      InsertSorted(env, x, tail);
      var t := InsertBlock(env, x, tail);
      forall j | 0 <= j < |t| ensures Digest(env, sorted[0]) < Digest(env, t[j]) {
        assert t[j] in t;
      }
    }
  }

  lemma {:induction false} SortsBlocks(env: Env, blocks: seq<seq<string>>)
    ensures SortedBlocks(env, SortBlocks(env, blocks))
    ensures forall b | b in SortBlocks(env, blocks) :: b in blocks
  {
    hide InsertBlock, SortedBlocks;
    if blocks == [] {
      NothingSorted(env);
    } else {
      SortsBlocks(env, blocks[1..]);
      InsertSorted(env, blocks[0], SortBlocks(env, blocks[1..]));
    }
  }

  lemma NothingSorted(env: Env)
    ensures SortedBlocks(env, [])
  {
  }

  /** all is rest with x at position k. */
  predicate With(all: seq<seq<string>>, rest: seq<seq<string>>, x: seq<string>, k: nat) {
    k <= |rest| && all == rest[..k] + [x] + rest[k..]
  }

  /** Inserting another block keeps x where it belongs. */
  lemma {:induction false} InsertWith(env: Env, z: seq<string>, all: seq<seq<string>>, rest: seq<seq<string>>, x: seq<string>, k: nat) returns (m: nat)
    requires SortedBlocks(env, all) && With(all, rest, x, k) && Digest(env, z) != Digest(env, x)
    ensures With(InsertBlock(env, z, all), InsertBlock(env, z, rest), x, m)
    decreases k
  {
    hide Flat;
    if k == 0 {
      assert all[1..] == rest;
      if Digest(env, z) < Digest(env, x) {
        assert rest != [] ==> all[1] == rest[0];
        m := 1;
        assert InsertBlock(env, z, rest) == [z] + rest;
      } else {
        m := 0;
      }
    } else {
      assert all[0] == rest[0] && all[1..] == rest[1..][..k-1] + [x] + rest[1..][k-1..];
      if Digest(env, z) < Digest(env, rest[0]) {
        m := k + 1;
        assert [z] + rest == InsertBlock(env, z, rest);
      } else if Digest(env, z) == Digest(env, rest[0]) {
        m := k;
      } else {
        var m' := InsertWith(env, z, all[1..], rest[1..], x, k - 1);
        m := m' + 1;
        var r := InsertBlock(env, z, rest[1..]);
        assert ([rest[0]] + r)[..m] == [rest[0]] + r[..m'] && ([rest[0]] + r)[m..] == r[m'..];
      }
    }
  }

  predicate Alone(env: Env, blocks: seq<seq<string>>, i: nat, x: seq<string>) {
    forall j | 0 <= j < |blocks| && j != i :: Digest(env, blocks[j]) != Digest(env, x)
  }

  /** A block whose digest no other one has is there once. */
  lemma {:induction false} SortedOnce(env: Env, blocks: seq<seq<string>>, i: nat) returns (k: nat)
    requires i < |blocks| && Alone(env, blocks, i, blocks[i])
    ensures With(SortBlocks(env, blocks), SortBlocks(env, blocks[..i] + blocks[i+1..]), blocks[i], k)
  {
    hide Digest;
    var x, tail := blocks[i], blocks[1..];
    SortsBlocks(env, tail);
    if i == 0 {
      assert blocks[..0] + blocks[1..] == tail;
      forall b | b in SortBlocks(env, tail) ensures Digest(env, b) != Digest(env, x) {
        var j :| 0 <= j < |tail| && tail[j] == b;
        assert blocks[j+1] == b;
      }
      k := InsertNew(env, x, SortBlocks(env, tail));
    } else {
      hide InsertBlock, With, SortedBlocks;
      var rest := blocks[..i] + blocks[i+1..];
      assert rest[0] == blocks[0] && rest[1..] == tail[..i-1] + tail[i..];
      forall j | 0 <= j < |tail| && j != i - 1 ensures Digest(env, tail[j]) != Digest(env, x) {
        assert tail[j] == blocks[j+1];
      }
      var m := SortedOnce(env, tail, i - 1);
      k := InsertWith(env, blocks[0], SortBlocks(env, tail), SortBlocks(env, rest[1..]), x, m);
    }
  }

  lemma {:induction false} InsertNew(env: Env, x: seq<string>, sorted: seq<seq<string>>) returns (k: nat)
    requires forall b | b in sorted :: Digest(env, b) != Digest(env, x)
    ensures With(InsertBlock(env, x, sorted), sorted, x, k)
  {
    hide Flat;
    if sorted == [] || Digest(env, x) < Digest(env, sorted[0]) {
      k := 0;
    } else {
      assert sorted[0] in sorted;
      var m := InsertNew(env, x, sorted[1..]);
      k := m + 1;
      assert sorted[..k] == [sorted[0]] + sorted[1..][..m] && sorted[k..] == sorted[1..][m..];
    }
  }

  lemma StandsWith(all: seq<seq<string>>, rest: seq<seq<string>>, x: seq<string>, k: nat, front: string, s: string)
    requires With(all, rest, x, k) && Stands(x, front, s) && Flat(x) != ""
    ensures Stands(Concat(all), front, s) && Flat(Concat(all)) != ""
    ensures Bag(Concat(all)) == Bag(Concat(rest)) + Bag(x)
  {
    hide Stands, Flat, Concat, Bag;
    var a, b := rest[..k], rest[k..];
    ConcatAround(a, x, b);
    StandsAround(Concat(a), x, Concat(b), front, s);
    FlatAround(Concat(a), x, Concat(b));
    BagAround(Concat(a), x, Concat(b));
    ConcatAppend(a, b);
    assert rest == a + b;
    BagAround(Concat(a), Concat(b), []);
    assert Concat(a) + Concat(b) + [] == Concat(a) + Concat(b);
    NoTokens();
  }

  lemma NoTokens()
    ensures Bag([]) == multiset{}
  {
  }

  /** In a sorted list of blocks another block takes the place of one, if no other block is like either. */
  lemma SortedReplaced(env: Env, blocks: seq<seq<string>>, i: nat, y: seq<string>, c: Change)
    requires i < |blocks| && Replaced(blocks[i], y, c, false)
    requires Alone(env, blocks, i, blocks[i]) && Alone(env, blocks, i, y)
    ensures Replaced(Concat(SortBlocks(env, blocks)), Concat(SortBlocks(env, blocks[i := y])), c, false)
  {
    hide SortBlocks, Flat, Stands, Bag, Digest, Concat, With;
    var x, after, rest := blocks[i], blocks[i := y], blocks[..i] + blocks[i+1..];
    assert after[..i] + after[i+1..] == rest && after[i] == y;
    assert Alone(env, after, i, y);
    var k := SortedOnce(env, blocks, i);
    var m := SortedOnce(env, after, i);
    var a, b, r := SortBlocks(env, blocks), SortBlocks(env, after), SortBlocks(env, rest);
    StandsWith(a, r, x, k, c.front, c.before);
    StandsWith(b, r, y, m, c.front, c.after);
    BagSum(Bag(Concat(r)), Bag(x), Bag(y), multiset{}, multiset{c.before}, multiset{c.after});
    assert Bag(Concat(b)) == Bag(Concat(r)) + Bag(y) + multiset{} && Bag(Concat(a)) == Bag(Concat(r)) + Bag(x) + multiset{};
  }

  // ---------- One text in a tree, one text in the tokens ----------

  lemma ValueReplaced(v: Value, w: Value, c: Change)
    requires OneValue(v, w, c)
    ensures Replaced(ValueStrings(v), ValueStrings(w), c, true)
  {
    var x := ValueStrings(v);
    assert ValueStrings(w) == x[2 := c.after];
    OneReplaced(x, 2, c, true);
  }

  lemma LabelledReplaced(name: Name, s: Option<string>, t: Option<string>, c: Change)
    requires OneText(name, s, t, c)
    ensures Replaced(Labelled(name, s), Labelled(name, t), c, true)
  {
    var x := Labelled(name, s);
    assert Labelled(name, t) == x[1 := c.after];
    OneReplaced(x, 1, c, true);
  }

  lemma MemberReplaced(name: Name, a: seq<string>, b: seq<string>, i: nat, c: Change)
    requires OneMember(name, a, b, i, c)
    ensures Replaced([name] + a, [name] + b, c, true)
  {
    var x := [name] + a;
    assert [name] + b == x[i + 1 := c.after];
    OneReplaced(x, i + 1, c, true);
  }

  /** The strings of a relation, part by part. */
  function RangeVarPart(env: Env, n: Node, parent: string, field: string, k: nat): seq<string>
    requires n.RangeVar?
  {
    var dml := IsDmlContext(parent, field);
    match k
    case 0 => if !env.ignoreAliases && n.alias.Some? then Labelled("aliasname", n.alias.value) else []
    case 1 => Labelled("catalogname", n.catalogname)
    case 2 => if n.inh then ["inh", "true"] else []
    case 3 => if n.relname.Some? && n.relpersistence != "t" && !(dml && !env.ignoreAliases && n.alias.Some?)
              then RelnameStrings(env, n.relname.value) else []
    case 4 => if n.relpersistence != "" then ["relpersistence", n.relpersistence] else []
    case _ => if !dml || env.includeSchema then Labelled("schemaname", n.schemaname) else []
  }

  function RangeVarParts(env: Env, n: Node, parent: string, field: string): seq<seq<string>>
    requires n.RangeVar?
  {
    seq(6, k requires 0 <= k < 6 => RangeVarPart(env, n, parent, field, k))
  }

  lemma ThreeBlocks(a: seq<string>, b: seq<string>, c: seq<string>)
    ensures Concat([a, b, c]) == a + b + c
  {
    ConcatAround([a], b, [c]);
    assert [a] + [b] + [c] == [a, b, c] && [a][1..] == [] && [c][1..] == [];
    assert Concat([a]) == a && Concat([c]) == c;
  }

  lemma SixBlocks(a: seq<string>, b: seq<string>, c: seq<string>, d: seq<string>, e: seq<string>, f: seq<string>)
    ensures Concat([a, b, c, d, e, f]) == a + b + c + d + e + f
  {
    ThreeBlocks(a, b, c);
    ThreeBlocks(d, e, f);
    hide Concat;
    ConcatAppend([a, b, c], [d, e, f]);
    assert [a, b, c] + [d, e, f] == [a, b, c, d, e, f];
    assert (a + b + c) + (d + e + f) == a + b + c + d + e + f;
  }

  lemma PartsAreStrings(env: Env, n: Node, parent: string, field: string)
    requires n.RangeVar?
    ensures Concat(RangeVarParts(env, n, parent, field)) == RangeVarStrings(env, n, parent, field)
  {
    hide Labelled, RelnameStrings, IsDmlContext, Concat;
    var ps := RangeVarParts(env, n, parent, field);
    assert ps == [ps[0], ps[1], ps[2], ps[3], ps[4], ps[5]];
    SixBlocks(ps[0], ps[1], ps[2], ps[3], ps[4], ps[5]);
  }

  lemma RangeVarReplaced(env: Env, a: Node, b: Node, parent: string, field: string, c: Change)
    requires a.RangeVar? && b.RangeVar? && OneRangeVarText(env, a, b, parent, field, c)
    ensures Replaced(RangeVarStrings(env, a, parent, field), RangeVarStrings(env, b, parent, field), c, true)
  {
    hide Replaced, Concat, HashedName;
    PartsAreStrings(env, a, parent, field);
    PartsAreStrings(env, b, parent, field);
    var x, y := RangeVarParts(env, a, parent, field), RangeVarParts(env, b, parent, field);
    var k := OnePart(env, a, b, parent, field, c);
    assert y == x[k := y[k]];
    BlockReplaced(x, k, y[k], c, true);
  }

  lemma NameReplaced(env: Env, s: string, t: string, c: Change)
    requires c == Change("relname", HashedName(env, s), HashedName(env, t))
    ensures Replaced(RelnameStrings(env, s), RelnameStrings(env, t), c, true)
  {
    hide Replaced;
    LabelledReplaced("relname", Some(HashedName(env, s)), Some(HashedName(env, t)), c);
  }

  lemma PersistenceReplaced(s: string, t: string, c: Change)
    requires c == Change("relpersistence", s, t)
    ensures Replaced(["relpersistence", s], ["relpersistence", t], c, true)
  {
    hide Replaced;
    LabelledReplaced("relpersistence", Some(s), Some(t), c);
  }

  lemma OnePart(env: Env, a: Node, b: Node, parent: string, field: string, c: Change) returns (k: nat)
    requires a.RangeVar? && b.RangeVar? && OneRangeVarText(env, a, b, parent, field, c)
    ensures k < 6 && Replaced(RangeVarPart(env, a, parent, field, k), RangeVarPart(env, b, parent, field, k), c, true)
    ensures forall j: nat | j < 6 && j != k :: RangeVarPart(env, b, parent, field, j) == RangeVarPart(env, a, parent, field, j)
  {
    hide Replaced, IsDmlContext, RelnameStrings, HashedName, Labelled;
    var dml := IsDmlContext(parent, field);
    if b == a.(alias := b.alias) && !env.ignoreAliases && a.alias.Some? && b.alias.Some? && OneText("aliasname", a.alias.value, b.alias.value, c) {
      LabelledReplaced("aliasname", a.alias.value, b.alias.value, c);
      k := 0;
    } else if b == a.(catalogname := b.catalogname) && OneText("catalogname", a.catalogname, b.catalogname, c) {
      LabelledReplaced("catalogname", a.catalogname, b.catalogname, c);
      k := 1;
    } else if b == a.(relpersistence := b.relpersistence) && c == Change("relpersistence", a.relpersistence, b.relpersistence)
              && a.relpersistence !in {"", "t"} && b.relpersistence !in {"", "t"} {
      PersistenceReplaced(a.relpersistence, b.relpersistence, c);
      k := 4;
    } else if b == a.(schemaname := b.schemaname) && (!dml || env.includeSchema) && OneText("schemaname", a.schemaname, b.schemaname, c) {
      LabelledReplaced("schemaname", a.schemaname, b.schemaname, c);
      k := 5;
    } else {
      NameReplaced(env, a.relname.value, b.relname.value, c);
      k := 3;
    }
  }

  lemma NotInOrder(x: seq<string>, y: seq<string>, c: Change, inOrder: bool)
    requires Replaced(x, y, c, true)
    ensures Replaced(x, y, c, inOrder)
  {
  }

  /** A name or tag in front. */
  lemma ReplacedBehind(name: Name, x: seq<string>, y: seq<string>, c: Change, inOrder: bool)
    requires Replaced(x, y, c, inOrder)
    ensures Replaced([name] + x, [name] + y, c, inOrder)
    ensures NamedTokens(name, x) == [name] + x && NamedTokens(name, y) == [name] + y
  {
    ReplacedAround([name], x, y, [], c, inOrder);
    hide Replaced;
    assert [name] + x + [] == [name] + x && [name] + y + [] == [name] + y;
  }

  lemma {:induction false} NodeReplaced(env: Env, a: Node, b: Node, parent: string, field: string, depth: nat, c: Change, inOrder: bool)
    requires OneApart(env, a, b, parent, field, depth, c, inOrder)
    ensures Replaced(NodeTokens(env, a, parent, field, depth), NodeTokens(env, b, parent, field, depth), c, inOrder)
    decreases a, 1
  {
    hide Replaced, ItemApart, FieldApartAt, OneValue, OneRangeVarText, FieldsTokens, RangeVarStrings, ValueStrings, CastOfConstant, ItemTokens, Concat, SortBlocks;
    match a
    case Val(v) =>
      ValueReplaced(v, b.value, c);
      NotInOrder(ValueStrings(v), ValueStrings(b.value), c, inOrder);
    case List(_, items) =>
      var i: nat :| ItemApart(env, items, b.items, i, parent, field, depth, c, inOrder);
      ListReplaced(env, items, b.items, i, parent, field, depth, c, inOrder);
    case RangeVar(_, _, _, _, _, _) =>
      RangeVarReplaced(env, a, b, parent, field, c);
      NotInOrder(RangeVarStrings(env, a, parent, field), RangeVarStrings(env, b, parent, field), c, inOrder);
      ReplacedBehind("RangeVar", RangeVarStrings(env, a, parent, field), RangeVarStrings(env, b, parent, field), c, inOrder);
    case Struct(tag, fields) =>
      var x := FieldsTokens(env, fields, tag, parent, field, depth);
      if b.tag == tag {
        var i: nat :| FieldApartAt(env, fields, b.fields, i, tag, parent, field, depth, c, inOrder);
        FieldsReplaced(env, fields, b.fields, i, tag, parent, field, depth, c, inOrder);
        ReplacedBehind(tag, x, FieldsTokens(env, b.fields, tag, parent, field, depth), c, inOrder);
      } else {
        TagReplaced(tag, b.tag, x, c, inOrder);
      }
    case _ =>
  }

  lemma TagReplaced(s: Name, t: Name, x: seq<string>, c: Change, inOrder: bool)
    requires c == Change("", s, t)
    ensures Replaced([s] + x, [t] + x, c, inOrder)
  {
    assert [t] + x == ([s] + x)[0 := t];
    OneReplaced([s] + x, 0, c, inOrder);
  }

  lemma {:induction false} ListReplaced(env: Env, a: seq<Node>, b: seq<Node>, i: nat, parent: string, field: string, depth: nat, c: Change, inOrder: bool)
    requires ItemApart(env, a, b, i, parent, field, depth, c, inOrder)
    ensures var x, y := ItemTokens(env, a, parent, field, depth + 1), ItemTokens(env, b, parent, field, depth + 1);
            Replaced(Concat(if OrderInsensitive(field) then SortBlocks(env, x) else x),
                     Concat(if OrderInsensitive(field) then SortBlocks(env, y) else y), c, inOrder)
    decreases a, 0
  {
    hide Replaced, OneApart, NodeTokens, NodeStream, Concat, SortBlocks, OrderInsensitive;
    NodeReplaced(env, a[i], b[i], parent, field, depth + 1, c, inOrder);
    var x, y := ItemTokens(env, a, parent, field, depth + 1), ItemTokens(env, b, parent, field, depth + 1);
    assert y == x[i := y[i]];
    if OrderInsensitive(field) {
      UnlikeAlone(env, a, i, a[i], parent, field, depth + 1);
      UnlikeAlone(env, a, i, b[i], parent, field, depth + 1);
      SortedReplaced(env, x, i, y[i], c);
    } else {
      BlockReplaced(x, i, y[i], c, inOrder);
    }
  }

  lemma UnlikeAlone(env: Env, a: seq<Node>, i: nat, n: Node, parent: string, field: string, depth: nat)
    requires Unlike(env, a, i, n, parent, field, depth)
    ensures Alone(env, ItemTokens(env, a, parent, field, depth), i, NodeTokens(env, n, parent, field, depth))
  {
    hide NodeTokens, NodeStream, Flat, ItemTokens;
    TokensAreStream(env, n, parent, field, depth);
    forall j | 0 <= j < |a| && j != i
      ensures Digest(env, ItemTokens(env, a, parent, field, depth)[j]) != Digest(env, NodeTokens(env, n, parent, field, depth))
    {
      TokensAreStream(env, a[j], parent, field, depth);
    }
  }

  lemma {:induction false} FieldsAt(env: Env, fields: seq<Field>, i: nat, self: string, parent: string, field: string, depth: nat)
    requires i < |fields|
    ensures FieldsTokens(env, fields, self, parent, field, depth) ==
            FieldsTokens(env, fields[..i], self, parent, field, depth) + FieldTokens(env, fields[i], self, parent, field, depth)
            + FieldsTokens(env, fields[i+1..], self, parent, field, depth)
    decreases i
  {
    hide FieldTokens;
    if i == 0 {
      assert fields[..0] == [];
    } else {
      FieldsAt(env, fields[1..], i - 1, self, parent, field, depth);
      assert fields[1..][..i-1] == fields[..i][1..] && fields[1..][i..] == fields[i+1..];
      var f := FieldTokens(env, fields[0], self, parent, field, depth);
      var x := FieldsTokens(env, fields[..i][1..], self, parent, field, depth);
      assert FieldsTokens(env, fields[..i], self, parent, field, depth) == f + x;
    }
  }

  lemma {:induction false} FieldsReplaced(env: Env, a: seq<Field>, b: seq<Field>, i: nat, self: string, parent: string, field: string, depth: nat, c: Change, inOrder: bool)
    requires FieldApartAt(env, a, b, i, self, parent, field, depth, c, inOrder)
    ensures Replaced(FieldsTokens(env, a, self, parent, field, depth), FieldsTokens(env, b, self, parent, field, depth), c, inOrder)
    decreases a, 2
  {
    hide Replaced, FieldApart, FieldTokens, FieldsTokens;
    FieldReplaced(env, a[i], b[i], self, parent, field, depth, c, inOrder);
    FieldsAt(env, a, i, self, parent, field, depth);
    FieldsAt(env, b, i, self, parent, field, depth);
    assert b[..i] == a[..i] && b[i+1..] == a[i+1..];
    ReplacedAround(FieldsTokens(env, a[..i], self, parent, field, depth), FieldTokens(env, a[i], self, parent, field, depth),
                   FieldTokens(env, b[i], self, parent, field, depth), FieldsTokens(env, a[i+1..], self, parent, field, depth), c, inOrder);
  }

  lemma {:induction false} FieldReplaced(env: Env, f: Field, g: Field, self: string, parent: string, field: string, depth: nat, c: Change, inOrder: bool)
    requires FieldApart(env, f, g, self, parent, field, depth, c, inOrder)
    ensures Replaced(FieldTokens(env, f, self, parent, field, depth), FieldTokens(env, g, self, parent, field, depth), c, inOrder)
    decreases f, 1
  {
    hide Replaced, OneApart, NodeTokens, BodyTokens, OneInBody, Labelled, OneText, OneMember, NamedTokens;
    match f
    case TextField(name, text) =>
      LabelledReplaced(name, text, g.text, c);
      NotInOrder(Labelled(name, text), Labelled(name, g.text), c, inOrder);
    case TargetName(text) =>
      LabelledReplaced("name", text, g.text, c);
      NotInOrder(Labelled("name", text), Labelled("name", g.text), c, inOrder);
    case BitmapField(name, members) =>
      var i: nat :| OneMember(name, members, g.members, i, c);
      MemberReplaced(name, members, g.members, i, c);
      NotInOrder([name] + members, [name] + g.members, c, inOrder);
    case NodeField(name, node) =>
      NodeReplaced(env, node, g.node, self, name, depth + 1, c, inOrder);
      ReplacedBehind(name, NodeTokens(env, node, self, name, depth + 1), NodeTokens(env, g.node, self, name, depth + 1), c, inOrder);
    case ListField(name, node) =>
      NodeReplaced(env, node, g.node, self, name, depth + 1, c, inOrder);
      ReplacedBehind(name, NodeTokens(env, node, self, name, depth + 1), NodeTokens(env, g.node, self, name, depth + 1), c, inOrder);
      ListsNotEmpty(env, node, g.node, self, name, depth + 1, c, inOrder);
    case SpecificField(name, node) =>
      BodyReplaced(env, node, g.node, self, name, depth + 1, c, inOrder);
      ReplacedBehind(name, BodyTokens(env, node, self, name, depth + 1), BodyTokens(env, g.node, self, name, depth + 1), c, inOrder);
    case EmbeddedField(name, node) =>
      BodyReplaced(env, node, g.node, self, name, depth, c, inOrder);
      ReplacedBehind(name, BodyTokens(env, node, self, name, depth), BodyTokens(env, g.node, self, name, depth), c, inOrder);
  }

  lemma ListsNotEmpty(env: Env, a: Node, b: Node, parent: string, field: string, depth: nat, c: Change, inOrder: bool)
    requires a.List? && OneApart(env, a, b, parent, field, depth, c, inOrder)
    ensures b.List? && a.items != [] && b.items != []
  {
  }

  lemma {:induction false} BodyReplaced(env: Env, a: Node, b: Node, parent: string, field: string, depth: nat, c: Change, inOrder: bool)
    requires OneInBody(env, a, b, parent, field, depth, c, inOrder)
    ensures Replaced(BodyTokens(env, a, parent, field, depth), BodyTokens(env, b, parent, field, depth), c, inOrder)
    decreases a, 0
  {
    hide Replaced, FieldApartAt, OneRangeVarText, FieldsTokens, RangeVarStrings;
    match a
    case Struct(tag, fields) =>
      var i: nat :| FieldApartAt(env, fields, b.fields, i, tag, parent, field, depth, c, inOrder);
      FieldsReplaced(env, fields, b.fields, i, tag, parent, field, depth, c, inOrder);
    case RangeVar(_, _, _, _, _, _) =>
      RangeVarReplaced(env, a, b, parent, field, c);
      NotInOrder(RangeVarStrings(env, a, parent, field), RangeVarStrings(env, b, parent, field), c, inOrder);
    case _ =>
  }

  /** Two trees that differ in one text that is hashed have different tokens: the same ones but for that text,
      which stands behind the string in front of it in both.  If no order-insensitive list is around the text,
      the streams are different too. */
  lemma TextsDecide(env: Env, a: Node, b: Node, parent: string, field: string, depth: nat, c: Change, inOrder: bool)
    requires OneApart(env, a, b, parent, field, depth, c, inOrder) && c.before != c.after
    ensures var x, y := NodeTokens(env, a, parent, field, depth), NodeTokens(env, b, parent, field, depth);
            && x != y && Stands(x, c.front, c.before) && Stands(y, c.front, c.after)
            && multiset(y) + multiset{c.before} == multiset(x) + multiset{c.after}
            && Flat(x) == NodeStream(env, a, parent, field, depth) && Flat(y) == NodeStream(env, b, parent, field, depth)
    ensures inOrder ==> NodeStream(env, a, parent, field, depth) != NodeStream(env, b, parent, field, depth)
  {
    NodeReplaced(env, a, b, parent, field, depth, c, inOrder);
    TokensAreStream(env, a, parent, field, depth);
    TokensAreStream(env, b, parent, field, depth);
    hide OneApart, NodeTokens, NodeStream, Flat, Stands;
    ReplacedDiffers(NodeTokens(env, a, parent, field, depth), NodeTokens(env, b, parent, field, depth), c, inOrder);
  }

  // ---------- Reading values and relations back ----------

  function ReadValue(x: seq<string>): Option<Value> {
    if |x| != 3 then None
    else
      match x[0]
      case "Integer" => Some(Integer(ReadSigned(x[2])))
      case "Float" => Some(Float(Some(x[2])))
      case "Boolean" => Some(Boolean(x[2] == "true"))
      case "String" => Some(Str(x[2]))
      case "BitString" => Some(BitString(Some(x[2])))
      case _ => None
  }

  /** A value can be read off its strings, except for zero and for what is not there. */
  lemma ValueReads(v: Value)
    ensures if v in {Integer(0), Float(None), BitString(None)} then ValueStrings(v) == []
            else |ValueStrings(v)| == 3 && ValueStrings(v)[1] in {"ival", "str", "boolval"} && ReadValue(ValueStrings(v)) == Some(v)
  {
    if v.Integer? { SignedReads(v.ival); }
  }

  /** The string behind a name, in a list of pairs. */
  function Lookup(x: seq<string>, name: string): Option<string> {
    if |x| < 2 then None else if x[0] == name then Some(x[1]) else Lookup(x[2..], name)
  }

  lemma {:induction false} LookupBehind(a: seq<string>, b: seq<string>, name: string)
    requires |a| % 2 == 0
    ensures Lookup(a + b, name) == if Lookup(a, name).Some? then Lookup(a, name) else Lookup(b, name)
  {
    if a == [] {
      assert a + b == b;
    } else {
      assert (a + b)[2..] == a[2..] + b;
      LookupBehind(a[2..], b, name);
    }
  }

  lemma {:induction false} LookupInBlocks(blocks: seq<seq<string>>, k: nat, name: string)
    requires k < |blocks| && forall j | 0 <= j < |blocks| :: |blocks[j]| % 2 == 0
    requires forall j | 0 <= j < |blocks| && j != k :: Lookup(blocks[j], name) == None
    ensures Lookup(Concat(blocks), name) == Lookup(blocks[k], name)
  {
    LookupBehind(blocks[0], Concat(blocks[1..]), name);
    if k == 0 {
      NothingFound(blocks[1..], name);
    } else {
      LookupInBlocks(blocks[1..], k - 1, name);
    }
  }

  lemma {:induction false} NothingFound(blocks: seq<seq<string>>, name: string)
    requires forall j | 0 <= j < |blocks| :: |blocks[j]| % 2 == 0 && Lookup(blocks[j], name) == None
    ensures Lookup(Concat(blocks), name) == None
  {
    if blocks != [] {
      LookupBehind(blocks[0], Concat(blocks[1..]), name);
      NothingFound(blocks[1..], name);
    }
  }

  function PartName(k: nat): string {
    match k
    case 0 => "aliasname"
    case 1 => "catalogname"
    case 2 => "inh"
    case 3 => "relname"
    case 4 => "relpersistence"
    case _ => "schemaname"
  }

  lemma LookupPart(env: Env, n: Node, parent: string, field: string, k: nat, name: string)
    requires n.RangeVar? && k < 6
    ensures |RangeVarPart(env, n, parent, field, k)| % 2 == 0
    ensures name != PartName(k) ==> Lookup(RangeVarPart(env, n, parent, field, k), name) == None
    ensures var x := RangeVarPart(env, n, parent, field, k); Lookup(x, PartName(k)) == if x == [] then None else Some(x[1])
  {
    hide IsDmlContext, WithoutDigitRuns;
    var x := RangeVarPart(env, n, parent, field, k);
    assert x == [] || (|x| == 2 && x[0] == PartName(k));
    hide RangeVarPart, PartName;
    assert |x| == 2 ==> x[2..] == [];
  }

  lemma FoundInPart(env: Env, n: Node, parent: string, field: string, k: nat)
    requires n.RangeVar? && k < 6
    ensures Lookup(RangeVarStrings(env, n, parent, field), PartName(k)) == Lookup(RangeVarPart(env, n, parent, field, k), PartName(k))
  {
    var ps := RangeVarParts(env, n, parent, field);
    PartsAreStrings(env, n, parent, field);
    forall j: nat | j < 6 ensures |ps[j]| % 2 == 0 && (j != k ==> Lookup(ps[j], PartName(k)) == None) {
      LookupPart(env, n, parent, field, j, PartName(k));
      assert j != k ==> PartName(j) != PartName(k);
    }
    hide RangeVarStrings, Lookup, RangeVarPart, PartName;
    LookupInBlocks(ps, k, PartName(k));
  }

  /** Each part of a relation can be read off its strings, under its name, where it is hashed. */
  lemma RangeVarReads(env: Env, n: Node, parent: string, field: string)
    requires n.RangeVar?
    ensures var x, dml, alias := RangeVarStrings(env, n, parent, field), IsDmlContext(parent, field), !env.ignoreAliases && n.alias.Some?;
            && Lookup(x, "aliasname") == (if alias then n.alias.value else None)
            && Lookup(x, "catalogname") == n.catalogname
            && Lookup(x, "inh") == (if n.inh then Some("true") else None)
            && Lookup(x, "relname") == (if n.relname.None? || n.relpersistence == "t" || (dml && alias) then None
                                        else Some(HashedName(env, n.relname.value)))
            && Lookup(x, "relpersistence") == (if n.relpersistence == "" then None else Some(n.relpersistence))
            && Lookup(x, "schemaname") == (if dml && !env.includeSchema then None else n.schemaname)
  {
    hide IsDmlContext, RangeVarStrings, Lookup, WithoutDigitRuns;
    forall k: nat | k < 6
      ensures var x := RangeVarPart(env, n, parent, field, k);
              Lookup(RangeVarStrings(env, n, parent, field), PartName(k)) == if x == [] then None else Some(x[1])
    {
      LookupPart(env, n, parent, field, k, "");
      FoundInPart(env, n, parent, field, k);
    }
    assert PartName(0) == "aliasname" && PartName(1) == "catalogname" && PartName(2) == "inh";
    assert PartName(3) == "relname" && PartName(4) == "relpersistence" && PartName(5) == "schemaname";
  }
}
