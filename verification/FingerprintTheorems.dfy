/** What a fingerprint depends on: not on constants, not on how many constants a list holds, and not on
    the order of order-insensitive lists, anywhere in the tree. */
module FingerprintTheorems {
  import opened Decimals
  import opened FingerprintStream
  import opened FingerprintCache
  import opened FingerprintOrder
  import opened FingerprintRun

  // ---------- Trees with the same fingerprint ----------

  /** Constants, parameters, casts of those, nothing, and lists of nothing else. */
  predicate Silent(n: Node) {
    match n
    case Null => true
    case Ignored(_) => true
    case List(_, items) => forall i | 0 <= i < |items| :: Silent(items[i])
    case Struct(tag, fields) => CastOfConstant(tag, fields)
    case _ => false
  }

  /** b is a with silent nodes replaced by silent nodes, silent items added to or dropped from lists,
      order-insensitive lists reordered with items repeated or not, and digit runs in relation names
      changed, at any number of places. */
  ghost predicate Alike(env: Env, a: Node, b: Node, field: string)
    decreases a, 1
  {
    || (Silent(a) && Silent(b))
    || (a.List? && b.List? &&
        if OrderInsensitive(field) then AlikeSets(env, a.items, b.items, field) else AlikeSeqs(env, a.items, b.items, field))
    || (a.Struct? && b.Struct? && a.tag == b.tag && !CastOfConstant(a.tag, a.fields) && !CastOfConstant(b.tag, b.fields) &&
        AlikeFields(env, a.fields, b.fields))
    || (a.RangeVar? && b.RangeVar? && AlikeRangeVars(env, a, b))
    || (a.Val? && a == b)
  }

  ghost predicate AlikeSets(env: Env, a: seq<Node>, b: seq<Node>, field: string)
    decreases a, 0
  {
    && (forall i | 0 <= i < |a| && !Silent(a[i]) :: exists j :: 0 <= j < |b| && Alike(env, a[i], b[j], field))
    && (forall j | 0 <= j < |b| && !Silent(b[j]) :: exists i :: 0 <= i < |a| && Alike(env, a[i], b[j], field))
  }

  ghost predicate AlikeSeqs(env: Env, a: seq<Node>, b: seq<Node>, field: string)
    decreases a, |b|
  {
    if a == [] then forall j | 0 <= j < |b| :: Silent(b[j])
    else if Silent(a[0]) then AlikeSeqs(env, a[1..], b, field)
    else if b == [] then false
    else if Silent(b[0]) then AlikeSeqs(env, a, b[1..], field)
    else Alike(env, a[0], b[0], field) && AlikeSeqs(env, a[1..], b[1..], field)
  }

  ghost predicate AlikeFields(env: Env, a: seq<Field>, b: seq<Field>)
    decreases a, 2
  {
    |a| == |b| && (a != [] ==> AlikeField(env, a[0], b[0]) && AlikeFields(env, a[1..], b[1..]))
  }

  ghost predicate AlikeField(env: Env, f: Field, g: Field)
    decreases f, 1
  {
    match f
    case NodeField(name, node) => g.NodeField? && g.name == name && Alike(env, node, g.node, name)
    case ListField(name, node) =>
      g.ListField? && g.name == name && Alike(env, node, g.node, name) && KeepsName(node) == KeepsName(g.node)
    case SpecificField(name, node) => g.SpecificField? && g.name == name && AlikeBodies(env, node, g.node)
    case EmbeddedField(name, node) => g.EmbeddedField? && g.name == name && AlikeBodies(env, node, g.node)
    case _ => f == g
  }

  ghost predicate AlikeBodies(env: Env, a: Node, b: Node)
    decreases a, 0
  {
    if a.Struct? && b.Struct? then a.tag == b.tag && AlikeFields(env, a.fields, b.fields)
    else if a.RangeVar? && b.RangeVar? then AlikeRangeVars(env, a, b)
    else a == b
  }

  ghost predicate AlikeRangeVars(env: Env, a: Node, b: Node)
    requires a.RangeVar? && b.RangeVar?
  {
    && b == a.(relname := b.relname)
    && a.relname.Some? == b.relname.Some?
    && (a.relname.Some? ==> AlikeNames(env, a.relname.value, b.relname.value))
  }

  ghost predicate AlikeNames(env: Env, a: string, b: string) {
    a == b || (!env.fullRelname && OtherDigits(a, b))
  }

  predicate AllDigits(s: string) {
    forall i | 0 <= i < |s| :: IsDigit(s[i])
  }

  /** a[i..j] and b[i..k] are two or more digits each, and a and b are the same around them. */
  predicate DigitsDiffer(a: string, b: string, i: nat, j: nat, k: nat) {
    && i + 2 <= j <= |a| && i + 2 <= k <= |b|
    && AllDigits(a[i..j]) && AllDigits(b[i..k])
    && a[..i] == b[..i] && a[j..] == b[k..]
  }

  /** b is a with one stretch of two or more digits replaced by another. */
  ghost predicate OtherDigits(a: string, b: string) {
    exists i: nat, j: nat, k: nat :: DigitsDiffer(a, b, i, j, k)
  }

  // ---------- Relation names ----------

  lemma {:induction false} PrefixWithoutRuns(a: string, b: string, i: nat, j: nat, k: nat, n: nat)
    requires DigitsDiffer(a, b, i, j, k) && n <= i
    ensures WithoutDigitRuns(a, n) == WithoutDigitRuns(b, n)
  {
    if n > 0 {
      PrefixWithoutRuns(a, b, i, j, k, n - 1);
      var x := n - 1;
      assert a[x] == a[..i][x] == b[..i][x] == b[x];
      assert x > 0 ==> a[x-1] == a[..i][x-1] == b[..i][x-1] == b[x-1];
      assert x + 1 < i ==> a[x+1] == a[..i][x+1] == b[..i][x+1] == b[x+1];
      assert IsDigit(a[i..j][0]) && IsDigit(b[i..k][0]);
    }
  }

  lemma {:induction false} RunDropped(s: string, i: nat, j: nat, m: nat)
    requires i + 2 <= j <= |s| && AllDigits(s[i..j]) && i <= m <= j
    ensures WithoutDigitRuns(s, m) == WithoutDigitRuns(s, i)
    decreases m
  {
    if i < m {
      RunDropped(s, i, j, m - 1);
      assert s[m-1] == s[i..j][m-1-i];
      assert if m < j then s[m] == s[i..j][m-i] else s[m-2] == s[i..j][m-2-i];
    }
  }

  lemma {:induction false} FrontKept(a: string, rest: string, n: nat)
    requires n <= |a| && (a != "" ==> !IsDigit(a[|a|-1]))
    ensures WithoutDigitRuns(a + rest, n) == WithoutDigitRuns(a, n)
  {
    if n > 0 {
      FrontKept(a, rest, n - 1);
      var s := a + rest;
      assert s[n-1] == a[n-1] && (n < |a| ==> s[n] == a[n]) && (n > 1 ==> s[n-2] == a[n-2]);
      assert n == |a| ==> !IsDigit(a[n-1]);
    }
  }

  lemma {:induction false} BackKept(front: string, b: string, n: nat)
    requires n <= |b| && (b != "" ==> !IsDigit(b[0]))
    ensures WithoutDigitRuns(front + b, |front| + n) == WithoutDigitRuns(front + b, |front|) + WithoutDigitRuns(b, n)
  {
    var s := front + b;
    if n == 0 {
      assert WithoutDigitRuns(s, |front|) + "" == WithoutDigitRuns(s, |front|);
    } else {
      BackKept(front, b, n - 1);
      var k := |front| + n - 1;
      assert s[k] == b[n-1] && (n < |b| ==> s[k+1] == b[n]) && (n > 1 ==> s[k-1] == b[n-2]);
      assert n == 1 ==> !IsDigit(b[n-1]);
    }
  }

  /** Two or more digits between other characters are taken out of a relation name ... */
  lemma RunTakenOut(a: string, digits: string, b: string)
    requires |digits| >= 2 && AllDigits(digits)
    requires (a != "" ==> !IsDigit(a[|a|-1])) && (b != "" ==> !IsDigit(b[0]))
    ensures WithoutDigitRuns(a + digits + b, |a + digits + b|) == WithoutDigitRuns(a, |a|) + WithoutDigitRuns(b, |b|)
  {
    hide WithoutDigitRuns, AllDigits;
    Middle(a, digits, b);
    FrontKept(a, digits + b, |a|);
    RunDropped(a + digits + b, |a|, |a| + |digits|, |a| + |digits|);
    BackKept(a + digits, b, |b|);
  }

  lemma Middle(a: string, b: string, c: string)
    ensures a + b + c == a + (b + c) && (a + b + c)[|a|..|a| + |b|] == b
  {
  }

  /** ... and nothing else is. */
  lemma {:induction false} NoRunKept(s: string, n: nat)
    requires n <= |s| && forall i | 0 < i < |s| :: !(IsDigit(s[i-1]) && IsDigit(s[i]))
    ensures WithoutDigitRuns(s, n) == s[..n]
  {
    if n > 0 {
      NoRunKept(s, n - 1);
      assert s[..n] == s[..n-1] + [s[n-1]];
      assert !InDigitRun(s, n - 1);
    }
  }

  lemma SuffixRunsAgree(a: string, b: string, i: nat, j: nat, k: nat, x: nat)
    requires DigitsDiffer(a, b, i, j, k) && j + x < |a|
    ensures k + x < |b| && a[j + x] == b[k + x] && InDigitRun(a, j + x) == InDigitRun(b, k + x)
  {
    assert |a[j..]| == |b[k..]| && a[j..] == b[k..] && IsDigit(a[j-1]) && IsDigit(b[k-1]) by {
      assert IsDigit(a[i..j][j-1-i]) && IsDigit(b[i..k][k-1-i]);
    }
    assert a[j + x] == a[j..][x] == b[k..][x] == b[k + x];
    assert x > 0 ==> a[j + x - 1] == a[j..][x-1] == b[k..][x-1] == b[k + x - 1];
    assert j + x + 1 < |a| ==> a[j + x + 1] == a[j..][x+1] == b[k..][x+1] == b[k + x + 1];
  }

  lemma {:induction false} SuffixWithoutRuns(a: string, b: string, i: nat, j: nat, k: nat, n: nat)
    requires DigitsDiffer(a, b, i, j, k) && j + n <= |a| && k + n <= |b|
    requires WithoutDigitRuns(a, j) == WithoutDigitRuns(b, k)
    ensures WithoutDigitRuns(a, j + n) == WithoutDigitRuns(b, k + n)
  {
    hide DigitsDiffer, InDigitRun;
    if n > 0 {
      SuffixWithoutRuns(a, b, i, j, k, n - 1);
      SuffixRunsAgree(a, b, i, j, k, n - 1);
    }
  }

  /** Other digits in a run of digits leave the name that is hashed as it is. */
  lemma OtherDigitsIgnored(a: string, b: string)
    requires OtherDigits(a, b)
    ensures WithoutDigitRuns(a, |a|) == WithoutDigitRuns(b, |b|)
  {
    hide WithoutDigitRuns;
    var i: nat, j: nat, k: nat :| DigitsDiffer(a, b, i, j, k);
    PrefixWithoutRuns(a, b, i, j, k, i);
    RunDropped(a, i, j, j);
    RunDropped(b, i, k, k);
    assert |a[j..]| == |b[k..]|;
    SuffixWithoutRuns(a, b, i, j, k, |a| - j);
  }

  lemma AlikeRangeVarStrings(env: Env, a: Node, b: Node, parent: string, field: string)
    requires a.RangeVar? && b.RangeVar? && AlikeRangeVars(env, a, b)
    ensures RangeVarStrings(env, a, parent, field) == RangeVarStrings(env, b, parent, field)
  {
    hide WithoutDigitRuns;
    if a.relname.Some? && a.relname.value != b.relname.value {
      OtherDigitsIgnored(a.relname.value, b.relname.value);
    }
  }

  // ---------- Streams that contribute nothing ----------

  function WithoutEmpty(ss: seq<string>): seq<string> {
    if ss == [] then [] else (if ss[0] == "" then [] else [ss[0]]) + WithoutEmpty(ss[1..])
  }

  lemma {:induction false} WithoutEmptyProperties(ss: seq<string>)
    ensures Flat(WithoutEmpty(ss)) == Flat(ss)
    ensures forall x :: x in WithoutEmpty(ss) <==> x in ss && x != ""
  {
    if ss != [] {
      var t := WithoutEmpty(ss[1..]);
      WithoutEmptyProperties(ss[1..]);
      assert ss == [ss[0]] + ss[1..];
      if ss[0] == "" {
        assert WithoutEmpty(ss) == t;
      } else {
        assert WithoutEmpty(ss) == [ss[0]] + t && WithoutEmpty(ss)[1..] == t;
      }
    }
  }

  lemma {:induction false} WithoutEmptySorted(env: Env, ss: seq<string>)
    requires StrictlySorted(env, ss)
    ensures StrictlySorted(env, WithoutEmpty(ss))
  {
    if ss != [] {
      var t := WithoutEmpty(ss[1..]);
      WithoutEmptyProperties(ss[1..]);
      WithoutEmptySorted(env, ss[1..]);
      forall j | 0 <= j < |t| ensures env.digest(ss[0]) < env.digest(t[j]) {
        assert t[j] in t && t[j] in ss[1..];
      }
    }
  }

  /** Item streams that agree as sets, empty ones aside, contribute the same. */
  lemma EmptyStreamsIgnored(env: Env, a: seq<string>, b: seq<string>)
    requires InjectiveOn(env, a) && InjectiveOn(env, b)
    requires forall x | x in a && x != "" :: x in b
    requires forall x | x in b && x != "" :: x in a
    ensures Flat(SortDistinct(env, a)) == Flat(SortDistinct(env, b))
  {
    SortDistinctProperties(env, a);
    SortDistinctProperties(env, b);
    WithoutEmptyProperties(SortDistinct(env, a));
    WithoutEmptyProperties(SortDistinct(env, b));
    WithoutEmptySorted(env, SortDistinct(env, a));
    WithoutEmptySorted(env, SortDistinct(env, b));
    StrictlySortedUnique(env, WithoutEmpty(SortDistinct(env, a)), WithoutEmpty(SortDistinct(env, b)));
  }

  lemma {:induction false} SilentStream(env: Env, n: Node, parent: string, field: string, depth: nat)
    requires Silent(n)
    ensures NodeStream(env, n, parent, field, depth) == ""
    decreases n
  {
    hide ItemStreams, SortDistinct, Flat, OrderInsensitive, FieldsStream, ValueStrings, RangeVarStrings, CastOfConstant, StrictlySorted;
    if depth < MAX_DEPTH && n.List? {
      var ss := ItemStreams(env, n.items, parent, field, depth + 1);
      forall i | 0 <= i < |n.items| ensures ss[i] == "" {
        SilentStream(env, n.items[i], parent, field, depth + 1);
      }
      SortDistinctProperties(env, ss);
      FlatOfEmpty(ss);
      FlatOfEmpty(SortDistinct(env, ss));
    }
  }

  lemma {:induction false} FlatOfEmpty(ss: seq<string>)
    requires forall x | x in ss :: x == ""
    ensures Flat(ss) == ""
  {
    if ss != [] {
      assert ss[0] in ss;
      assert forall x | x in ss[1..] :: x in ss;
      FlatOfEmpty(ss[1..]);
    }
  }

  // ---------- Digests assumed apart, in whatever state ----------

  ghost predicate Free(env: Env, n: Node, parent: string, field: string, depth: nat) {
    exists state :: CollisionFree(env, n, parent, field, depth, state)
  }

  ghost predicate FieldsFree(env: Env, fields: seq<Field>, self: string, parent: string, field: string, depth: nat) {
    exists state :: FieldsCollisionFree(env, fields, self, parent, field, depth, state)
  }

  lemma FreeItems(env: Env, n: Node, parent: string, field: string, depth: nat)
    requires n.List? && depth < MAX_DEPTH && Free(env, n, parent, field, depth)
    ensures forall i | 0 <= i < |n.items| :: Free(env, n.items[i], parent, field, depth + 1)
    ensures OrderInsensitive(field) ==> InjectiveOn(env, ItemStreams(env, n.items, parent, field, depth + 1))
  {
    hide ItemStreams, SortDistinct, InjectiveOn, Flat;
    var state :| CollisionFree(env, n, parent, field, depth, state);
    var ss := ItemStreams(env, n.items, parent, field, depth + 1);
    forall i | 0 <= i < |n.items| ensures Free(env, n.items[i], parent, field, depth + 1) {
      if OrderInsensitive(field) {
        assert CollisionFree(env, n.items[i], parent, field, depth + 1, "");
      } else {
        assert CollisionFree(env, n.items[i], parent, field, depth + 1, state + Flat(ss[..i]));
      }
    }
  }

  // ---------- Alike trees have the same stream ----------

  /** Constants, the size of lists of constants, the order of order-insensitive lists and repetitions in
      them, and digit runs in relation names never change the fingerprint. */
  lemma {:induction false} AlikeTreesSameStream(env: Env, a: Node, b: Node, parent: string, field: string, depth: nat)
    requires Alike(env, a, b, field)
    requires Free(env, a, parent, field, depth) && Free(env, b, parent, field, depth)
    ensures NodeStream(env, a, parent, field, depth) == NodeStream(env, b, parent, field, depth)
    decreases a, 1
  {
    hide ItemStreams, FieldsStream, SortDistinct, AlikeSets, AlikeSeqs, AlikeFields, AlikeRangeVars, RangeVarStrings, InjectiveOn;
    hide FieldsCollisionFree, Flat;
    if Silent(a) && Silent(b) {
      SilentStream(env, a, parent, field, depth);
      SilentStream(env, b, parent, field, depth);
    } else if depth < MAX_DEPTH {
      match a
      case List(_, _) => AlikeListsSameStream(env, a, b, parent, field, depth);
      case Struct(tag, fields) =>
        var sa :| CollisionFree(env, a, parent, field, depth, sa);
        var sb :| CollisionFree(env, b, parent, field, depth, sb);
        assert FieldsCollisionFree(env, fields, tag, parent, field, depth, sa + tag);
        assert FieldsCollisionFree(env, b.fields, tag, parent, field, depth, sb + tag);
        AlikeFieldsSameStream(env, fields, b.fields, tag, parent, field, depth);
      case RangeVar(_, _, _, _, _, _) => AlikeRangeVarStrings(env, a, b, parent, field);
      case _ =>
    }
  }

  lemma {:induction false} AlikeListsSameStream(env: Env, a: Node, b: Node, parent: string, field: string, depth: nat)
    requires a.List? && b.List? && depth < MAX_DEPTH
    requires if OrderInsensitive(field) then AlikeSets(env, a.items, b.items, field) else AlikeSeqs(env, a.items, b.items, field)
    requires Free(env, a, parent, field, depth) && Free(env, b, parent, field, depth)
    ensures NodeStream(env, a, parent, field, depth) == NodeStream(env, b, parent, field, depth)
    decreases a, 0
  {
    hide ItemStreams, SortDistinct, AlikeSets, AlikeSeqs, InjectiveOn, Free, Flat;
    FreeItems(env, a, parent, field, depth);
    FreeItems(env, b, parent, field, depth);
    if OrderInsensitive(field) {
      AlikeSetsSameStreams(env, a.items, b.items, parent, field, depth + 1);
      EmptyStreamsIgnored(env, ItemStreams(env, a.items, parent, field, depth + 1), ItemStreams(env, b.items, parent, field, depth + 1));
    } else {
      AlikeSeqsSameStream(env, a.items, b.items, parent, field, depth + 1);
    }
  }

  lemma {:induction false} AlikeSetsSameStreams(env: Env, a: seq<Node>, b: seq<Node>, parent: string, field: string, depth: nat)
    requires AlikeSets(env, a, b, field)
    requires forall i | 0 <= i < |a| :: Free(env, a[i], parent, field, depth)
    requires forall i | 0 <= i < |b| :: Free(env, b[i], parent, field, depth)
    ensures var sa, sb := ItemStreams(env, a, parent, field, depth), ItemStreams(env, b, parent, field, depth);
            && (forall x | x in sa && x != "" :: x in sb)
            && (forall x | x in sb && x != "" :: x in sa)
    decreases a, 0
  {
    hide ItemStreams, NodeStream, Alike, Free, Silent;
    var sa, sb := ItemStreams(env, a, parent, field, depth), ItemStreams(env, b, parent, field, depth);
    forall x | x in sa && x != "" ensures x in sb {
      var i :| 0 <= i < |sa| && sa[i] == x;
      if Silent(a[i]) { SilentStream(env, a[i], parent, field, depth); }
      var j :| 0 <= j < |b| && Alike(env, a[i], b[j], field);
      AlikeTreesSameStream(env, a[i], b[j], parent, field, depth);
      assert sb[j] == x;
    }
    forall x | x in sb && x != "" ensures x in sa {
      var j :| 0 <= j < |sb| && sb[j] == x;
      if Silent(b[j]) { SilentStream(env, b[j], parent, field, depth); }
      var i :| 0 <= i < |a| && Alike(env, a[i], b[j], field);
      AlikeTreesSameStream(env, a[i], b[j], parent, field, depth);
      assert sa[i] == x;
    }
  }

  lemma {:induction false} AlikeSeqsSameStream(env: Env, a: seq<Node>, b: seq<Node>, parent: string, field: string, depth: nat)
    requires AlikeSeqs(env, a, b, field)
    requires forall i | 0 <= i < |a| :: Free(env, a[i], parent, field, depth)
    requires forall i | 0 <= i < |b| :: Free(env, b[i], parent, field, depth)
    ensures Flat(ItemStreams(env, a, parent, field, depth)) == Flat(ItemStreams(env, b, parent, field, depth))
    decreases a, |b|
  {
    hide NodeStream, Alike, Free, Silent;
    if a == [] {
      var sb := ItemStreams(env, b, parent, field, depth);
      forall j | 0 <= j < |b| ensures sb[j] == "" { SilentStream(env, b[j], parent, field, depth); }
      FlatOfEmpty(sb);
    } else if Silent(a[0]) {
      SilentStream(env, a[0], parent, field, depth);
      AlikeSeqsSameStream(env, a[1..], b, parent, field, depth);
      FirstItemStream(env, a, parent, field, depth);
    } else if Silent(b[0]) {
      SilentStream(env, b[0], parent, field, depth);
      AlikeSeqsSameStream(env, a, b[1..], parent, field, depth);
      FirstItemStream(env, b, parent, field, depth);
    } else {
      AlikeTreesSameStream(env, a[0], b[0], parent, field, depth);
      AlikeSeqsSameStream(env, a[1..], b[1..], parent, field, depth);
      FirstItemStream(env, a, parent, field, depth);
      FirstItemStream(env, b, parent, field, depth);
    }
  }

  lemma FirstItemStream(env: Env, items: seq<Node>, parent: string, field: string, depth: nat)
    requires items != []
    ensures Flat(ItemStreams(env, items, parent, field, depth)) ==
            NodeStream(env, items[0], parent, field, depth) + Flat(ItemStreams(env, items[1..], parent, field, depth))
  {
    hide NodeStream;
    assert ItemStreams(env, items, parent, field, depth)[1..] == ItemStreams(env, items[1..], parent, field, depth);
  }

  lemma {:induction false} AlikeFieldsSameStream(env: Env, a: seq<Field>, b: seq<Field>, self: string, parent: string, field: string, depth: nat)
    requires AlikeFields(env, a, b) && depth < MAX_DEPTH
    requires FieldsFree(env, a, self, parent, field, depth) && FieldsFree(env, b, self, parent, field, depth)
    ensures FieldsStream(env, a, self, parent, field, depth) == FieldsStream(env, b, self, parent, field, depth)
    decreases a, 2
  {
    hide FieldStream, FieldCollisionFree, AlikeField;
    if a != [] {
      var sa :| FieldsCollisionFree(env, a, self, parent, field, depth, sa);
      var sb :| FieldsCollisionFree(env, b, self, parent, field, depth, sb);
      assert FieldsCollisionFree(env, a[1..], self, parent, field, depth, sa + FieldStream(env, a[0], self, parent, field, depth));
      assert FieldsCollisionFree(env, b[1..], self, parent, field, depth, sb + FieldStream(env, b[0], self, parent, field, depth));
      AlikeFieldSameStream(env, a[0], b[0], self, parent, field, depth, sa, sb);
      AlikeFieldsSameStream(env, a[1..], b[1..], self, parent, field, depth);
    }
  }

  lemma {:induction false} AlikeFieldSameStream(env: Env, f: Field, g: Field, self: string, parent: string, field: string, depth: nat,
                                                sf: string, sg: string)
    requires AlikeField(env, f, g) && depth < MAX_DEPTH
    requires FieldCollisionFree(env, f, self, depth, sf) && FieldCollisionFree(env, g, self, depth, sg)
    ensures FieldStream(env, f, self, parent, field, depth) == FieldStream(env, g, self, parent, field, depth)
    decreases f, 1
  {
    hide NodeStream, BodyStream, CollisionFree, BodyCollisionFree, Alike, AlikeBodies, Notices, Silent;
    match f
    case NodeField(name, node) => AlikeContentSame(env, f, g, self, depth, sf, sg);
    case ListField(name, node) => AlikeContentSame(env, f, g, self, depth, sf, sg);
    case SpecificField(name, node) =>
      if depth + 1 < MAX_DEPTH {
        AlikeBodiesSameStream(env, node, g.node, self, name, depth + 1, sf + name, sg + name);
      }
    case EmbeddedField(name, node) => AlikeBodiesSameStream(env, node, g.node, self, name, depth, sf + name, sg + name);
    case _ =>
  }

  /** Fields that call _fingerprintNode, or leave out an empty list or nothing. */
  lemma {:induction false} AlikeContentSame(env: Env, f: Field, g: Field, self: string, depth: nat, sf: string, sg: string)
    requires (f.NodeField? && g.NodeField?) || (f.ListField? && g.ListField? && KeepsName(f.node) == KeepsName(g.node))
    requires f.name == g.name && Alike(env, f.node, g.node, f.name)
    requires FieldCollisionFree(env, f, self, depth, sf) && FieldCollisionFree(env, g, self, depth, sg)
    ensures forall parent, field :: FieldStream(env, f, self, parent, field, depth) == FieldStream(env, g, self, parent, field, depth)
    decreases f, 0
  {
    hide NodeStream, CollisionFree, Notices;
    var a, b, name := f.node, g.node, f.name;
    if f.NodeField? || (a.List? && b.List?) {
      if Calls(f) && Calls(g) {
        AlikeTreesSameStream(env, a, b, self, name, depth + 1);
      } else if Calls(f) {
        QuietPartner(env, b, a, self, name, depth + 1);
      } else if Calls(g) {
        QuietPartner(env, a, b, self, name, depth + 1);
      } else {
        QuietStreams(env, self, name, depth + 1);
      }
    } else if Silent(a) && Silent(b) {
      SilentStream(env, a, self, name, depth + 1);
      SilentStream(env, b, self, name, depth + 1);
    }
  }

  lemma QuietStreams(env: Env, parent: string, field: string, depth: nat)
    ensures NodeStream(env, Null, parent, field, depth) == ""
    ensures forall n: Node :: n.List? && n.items == [] ==> NodeStream(env, n, parent, field, depth) == ""
  {
    forall n: Node | n.List? && n.items == [] ensures NodeStream(env, n, parent, field, depth) == "" {
      SilentStream(env, n, parent, field, depth);
    }
  }

  /** What is alike to nothing contributes nothing. */
  lemma {:induction false} QuietPartner(env: Env, quiet: Node, n: Node, parent: string, field: string, depth: nat)
    requires quiet.Null? || (quiet.List? && quiet.items == [])
    requires Alike(env, quiet, n, field) || Alike(env, n, quiet, field)
    ensures NodeStream(env, n, parent, field, depth) == "" && NodeStream(env, quiet, parent, field, depth) == ""
  {
    hide NodeStream, Silent;
    EmptyListSilent(quiet);
    assert Silent(n) by {
      if !Silent(n) {
        assert n.List? && quiet.List?;
        AlikeToEmpty(env, n.items, field);
        ListOfSilent(n);
      }
    }
    SilentStream(env, n, parent, field, depth);
    SilentStream(env, quiet, parent, field, depth);
  }

  lemma EmptyListSilent(n: Node)
    ensures n.Null? || (n.List? && n.items == []) ==> Silent(n)
  {
  }

  lemma ListOfSilent(n: Node)
    requires n.List?
    ensures (forall i | 0 <= i < |n.items| :: Silent(n.items[i])) ==> Silent(n)
  {
  }

  lemma {:induction false} AlikeToEmpty(env: Env, items: seq<Node>, field: string)
    ensures AlikeSeqs(env, items, [], field) ==> forall i | 0 <= i < |items| :: Silent(items[i])
    ensures AlikeSeqs(env, [], items, field) ==> forall i | 0 <= i < |items| :: Silent(items[i])
    ensures AlikeSets(env, items, [], field) ==> forall i | 0 <= i < |items| :: Silent(items[i])
    ensures AlikeSets(env, [], items, field) ==> forall i | 0 <= i < |items| :: Silent(items[i])
  {
    hide Silent, Alike;
    if items != [] {
      AlikeToEmpty(env, items[1..], field);
      if AlikeSeqs(env, items, [], field) {
        forall i | 0 <= i < |items| ensures Silent(items[i]) {
          assert i > 0 ==> items[i] == items[1..][i-1];
        }
      }
    }
  }

  lemma {:induction false} AlikeBodiesSameStream(env: Env, a: Node, b: Node, parent: string, field: string, depth: nat, sa: string, sb: string)
    requires AlikeBodies(env, a, b) && depth < MAX_DEPTH
    requires BodyCollisionFree(env, a, parent, field, depth, sa) && BodyCollisionFree(env, b, parent, field, depth, sb)
    ensures BodyStream(env, a, parent, field, depth) == BodyStream(env, b, parent, field, depth)
    decreases a, 0
  {
    hide FieldsStream, AlikeFields, FieldsCollisionFree, RangeVarStrings, AlikeRangeVars;
    if a.Struct? && b.Struct? {
      AlikeFieldsSameStream(env, a.fields, b.fields, a.tag, parent, field, depth);
    } else if a.RangeVar? && b.RangeVar? {
      AlikeRangeVarStrings(env, a, b, parent, field);
    }
  }

  /** Two lists with the same items in any order and number. */
  lemma OrderAndRepetitionIgnored(env: Env, a: Node, b: Node, parent: string, field: string, depth: nat)
    requires a.List? && b.List? && OrderInsensitive(field) && Free(env, a, parent, field, depth)
    requires forall x :: x in a.items <==> x in b.items
    ensures NodeStream(env, a, parent, field, depth) == NodeStream(env, b, parent, field, depth)
  {
    hide NodeStream;
    if depth < MAX_DEPTH {
      var sa, sb := ItemStreams(env, a.items, parent, field, depth + 1), ItemStreams(env, b.items, parent, field, depth + 1);
      FreeItems(env, a, parent, field, depth);
      forall i | 0 <= i < |sa| ensures sa[i] in sb {
        assert a.items[i] in a.items;
        var j :| 0 <= j < |b.items| && b.items[j] == a.items[i];
        assert sb[j] == sa[i];
      }
      forall j | 0 <= j < |sb| ensures sb[j] in sa {
        assert b.items[j] in b.items;
        var i :| 0 <= i < |a.items| && a.items[i] == b.items[j];
        assert sa[i] == sb[j];
      }
      SetOfStreamsDecides(env, sa, sb);
    }
    ListStreamIs(env, a, parent, field, depth);
    ListStreamIs(env, b, parent, field, depth);
  }

  lemma ListStreamIs(env: Env, n: Node, parent: string, field: string, depth: nat)
    requires n.List? && OrderInsensitive(field)
    ensures NodeStream(env, n, parent, field, depth) ==
            if depth >= MAX_DEPTH then "" else Flat(SortDistinct(env, ItemStreams(env, n.items, parent, field, depth + 1)))
  {
    hide ItemStreams, SortDistinct;
  }

  // ---------- Whole runs ----------

  /** All nodes of a tree, NULL items of lists included. */
  ghost function NodeCount(n: Node): nat
    decreases n, 1
  {
    match n
    case List(_, items) => 1 + ItemCount(items)
    case Struct(_, fields) => 1 + FieldCount(fields)
    case _ => 1
  }

  ghost function ItemCount(items: seq<Node>): nat
    decreases items, 0
  {
    if items == [] then 0 else NodeCount(items[0]) + ItemCount(items[1..])
  }

  ghost function FieldCount(fields: seq<Field>): nat
    decreases fields, 0
  {
    if fields == [] then 0 else
    (if (Calls(fields[0]) || CallsBody(fields[0], 0)) && !fields[0].node.Null? then NodeCount(fields[0].node) else 0) + FieldCount(fields[1..])
  }

  lemma {:induction false} OnePassVisitsEachNodeOnce(n: Node, depth: nat)
    ensures NodeVisits(n, depth) <= NodeCount(n)
    decreases n, 1
  {
    if n.List? {
      ItemVisitsBounded(n.items, depth + 1);
    } else if n.Struct? {
      FieldsVisitsBounded(n.fields, depth);
    }
  }

  lemma {:induction false} ItemVisitsBounded(items: seq<Node>, depth: nat)
    ensures ItemVisits(items, depth) <= ItemCount(items)
    decreases items, 0
  {
    if items != [] {
      OnePassVisitsEachNodeOnce(items[0], depth);
      ItemVisitsBounded(items[1..], depth);
    }
  }

  lemma {:induction false} FieldsVisitsBounded(fields: seq<Field>, depth: nat)
    ensures FieldsVisits(fields, depth) <= FieldCount(fields)
    decreases fields, 0
  {
    if fields != [] {
      FieldVisitsBounded(fields[0], depth);
      FieldsVisitsBounded(fields[1..], depth);
      hide FieldVisits, NodeCount;
    }
  }

  lemma {:induction false} FieldVisitsBounded(f: Field, depth: nat)
    ensures FieldVisits(f, depth) <= if (Calls(f) || CallsBody(f, 0)) && !f.node.Null? then NodeCount(f.node) else 0
    decreases f, 2
  {
    if Calls(f) {
      OnePassVisitsEachNodeOnce(f.node, depth + 1);
    } else if CallsBody(f, depth) && f.node.Struct? {
      FieldsVisitsBounded(f.node.fields, BodyDepth(f, depth));
    }
  }

  lemma RunBounded(v: nat, count: nat, k: nat, visits: nat)
    requires v <= count && visits <= v * (1 + k)
    ensures visits <= count * (1 + k)
  {
    assert count * (1 + k) == v * (1 + k) + (count - v) * (1 + k);
  }

  /** pg_query_fingerprint_node: a root context with an empty cache.  The result is the digest of the
      stream that the cache-free definition gives, in at most n * (1 + k) calls for n nodes and a nesting
      of k order-insensitive lists. */
  method Fingerprint(env: Env, n: Node, writeTokens: bool, ghost places: map<nat, Place>)
      returns (hash: nat, tokens: seq<string>, ghost visits: nat)
    requires Located(NodeSites(n, "", "", 0), places) && CollisionFree(env, n, "", "", 0, "")
    ensures hash == env.digest(NodeStream(env, n, "", "", 0))
    ensures Flat(tokens) == if writeTokens then NodeStream(env, n, "", "", 0) else ""
    ensures visits <= NodeCount(n) * (1 + NodeNest(n, "", 0)) && NodeNest(n, "", 0) <= MAX_DEPTH
  {
    hide NodeStream, NodeSites, CollisionFree, NodeVisits, NodeNest, NodeCount, Located, Warm;
    var cache := new ListsortCache(env, places);
    var ctx := new Context(cache, writeTokens);
    ctx.FingerprintNode(n, "", "", 0);
    hash, tokens, visits := env.digest(ctx.state), ctx.tokens, cache.visits;
    assert "" + NodeStream(env, n, "", "", 0) == NodeStream(env, n, "", "", 0);
    assert writeTokens ==> tokens[0..] == tokens;
    OnePassVisitsEachNodeOnce(n, 0);
    RunBounded(NodeVisits(n, 0), NodeCount(n), NodeNest(n, "", 0), visits);
    NestBounded(n, "", 0);
  }

  /** Queries that differ in constants only have one fingerprint. */
  lemma SameFingerprint(env: Env, a: Node, b: Node)
    requires Alike(env, a, b, "")
    requires CollisionFree(env, a, "", "", 0, "") && CollisionFree(env, b, "", "", 0, "")
    ensures env.digest(NodeStream(env, a, "", "", 0)) == env.digest(NodeStream(env, b, "", "", 0))
  {
    hide NodeStream, CollisionFree, Alike;
    AlikeTreesSameStream(env, a, b, "", "", 0);
  }
}
