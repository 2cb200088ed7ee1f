/** What the shared list cache may hold, what a run may cost, and which digests a run relies on. */
module FingerprintCache {
  import opened FingerprintStream

  /** Where a list sits: everything that its item hashes depend on. */
  datatype Place = Place(items: seq<Node>, parent: string, field: string, depth: nat)

  datatype Site = Site(id: nat, place: Place)

  datatype ListsortItem = ListsortItem(hash: nat, pos: nat)

  // ---------- The lists that a run over a node visits ----------

  /** Does this field hand its node to _fingerprintNode? */
  predicate Calls(f: Field) {
    (f.NodeField? && !f.node.Null?) || (f.ListField? && f.node.List? && f.node.items != [])
  }

  /** Does this field run over the fields of its node directly? */
  predicate CallsBody(f: Field, depth: nat) {
    (f.SpecificField? && depth + 1 < MAX_DEPTH) || f.EmbeddedField?
  }

  function BodyDepth(f: Field, depth: nat): nat {
    if f.EmbeddedField? then depth else depth + 1
  }

  ghost function NodeSites(n: Node, parent: string, field: string, depth: nat): set<Site>
    decreases n, 1
  {
    if depth >= MAX_DEPTH then {} else
    match n
    case List(id, items) => {Site(id, Place(items, parent, field, depth))} + ItemSites(items, parent, field, depth + 1)
    case Struct(tag, fields) => if CastOfConstant(tag, fields) then {} else FieldsSites(fields, tag, depth)
    case _ => {}
  }

  ghost function ItemSites(items: seq<Node>, parent: string, field: string, depth: nat): set<Site>
    decreases items, 0
  {
    if items == [] then {} else NodeSites(items[0], parent, field, depth) + ItemSites(items[1..], parent, field, depth)
  }

  ghost function FieldsSites(fields: seq<Field>, self: string, depth: nat): set<Site>
    decreases fields, 2
  {
    if fields == [] then {} else FieldSites(fields[0], self, depth) + FieldsSites(fields[1..], self, depth)
  }

  ghost function FieldSites(f: Field, self: string, depth: nat): set<Site>
    decreases f, 1
  {
    if Calls(f) then NodeSites(f.node, self, f.name, depth + 1)
    else if CallsBody(f, depth) then BodySites(f.node, BodyDepth(f, depth))
    else {}
  }

  ghost function BodySites(n: Node, depth: nat): set<Site>
    decreases n, 0
  {
    if n.Struct? then FieldsSites(n.fields, n.tag, depth) else {}
  }

  // ---------- Cost ----------

  /** Calls of _fingerprintNode in one pass without hashing list items first. */
  ghost function NodeVisits(n: Node, depth: nat): (v: nat)
    decreases n, 1
  {
    if depth >= MAX_DEPTH then 1 else
    match n
    case List(_, items) => 1 + ItemVisits(items, depth + 1)
    case Struct(_, fields) => 1 + FieldsVisits(fields, depth)
    case _ => 1
  }

  ghost function ItemVisits(items: seq<Node>, depth: nat): nat
    decreases items, 0
  {
    if items == [] then 0 else NodeVisits(items[0], depth) + ItemVisits(items[1..], depth)
  }

  ghost function FieldsVisits(fields: seq<Field>, depth: nat): nat
    decreases fields, 2
  {
    if fields == [] then 0 else FieldVisits(fields[0], depth) + FieldsVisits(fields[1..], depth)
  }

  ghost function FieldVisits(f: Field, depth: nat): nat
    decreases f, 1
  {
    if Calls(f) then NodeVisits(f.node, depth + 1)
    else if CallsBody(f, depth) then BodyVisits(f.node, BodyDepth(f, depth))
    else 0
  }

  ghost function BodyVisits(n: Node, depth: nat): nat
    decreases n, 0
  {
    if n.Struct? then FieldsVisits(n.fields, depth) else 0
  }

  function Max(a: nat, b: nat): nat {
    if a < b then b else a
  }

  /** The deepest nesting of order-insensitive lists. */
  ghost function NodeNest(n: Node, field: string, depth: nat): nat
    decreases n, 1
  {
    if depth >= MAX_DEPTH then 0 else
    match n
    case List(_, items) => ItemNest(items, field, depth + 1) + (if OrderInsensitive(field) then 1 else 0)
    case Struct(_, fields) => FieldsNest(fields, depth)
    case _ => 0
  }

  ghost function ItemNest(items: seq<Node>, field: string, depth: nat): nat
    decreases items, 0
  {
    if items == [] then 0 else Max(NodeNest(items[0], field, depth), ItemNest(items[1..], field, depth))
  }

  ghost function FieldsNest(fields: seq<Field>, depth: nat): nat
    decreases fields, 2
  {
    if fields == [] then 0 else Max(FieldNest(fields[0], depth), FieldsNest(fields[1..], depth))
  }

  ghost function FieldNest(f: Field, depth: nat): nat
    decreases f, 1
  {
    if Calls(f) then NodeNest(f.node, f.name, depth + 1)
    else if CallsBody(f, depth) then BodyNest(f.node, BodyDepth(f, depth))
    else 0
  }

  ghost function BodyNest(n: Node, depth: nat): nat
    decreases n, 0
  {
    if n.Struct? then FieldsNest(n.fields, depth) else 0
  }

  /** The depth cutoff bounds the nesting, and so the cost, of every tree. */
  lemma {:induction false} NestBounded(n: Node, field: string, depth: nat)
    ensures NodeNest(n, field, depth) <= if depth < MAX_DEPTH then MAX_DEPTH - depth else 0
    decreases n, 1
  {
    if depth < MAX_DEPTH {
      match n
      case List(_, items) => ItemNestBounded(items, field, depth + 1);
      case Struct(_, fields) => FieldsNestBounded(fields, depth);
      case _ =>
    }
  }

  lemma {:induction false} ItemNestBounded(items: seq<Node>, field: string, depth: nat)
    ensures ItemNest(items, field, depth) <= if depth < MAX_DEPTH then MAX_DEPTH - depth else 0
    decreases items, 0
  {
    if items != [] {
      NestBounded(items[0], field, depth);
      ItemNestBounded(items[1..], field, depth);
    }
  }

  lemma {:induction false} FieldsNestBounded(fields: seq<Field>, depth: nat)
    requires depth < MAX_DEPTH
    ensures FieldsNest(fields, depth) <= MAX_DEPTH - depth
    decreases fields, 2
  {
    if fields != [] {
      FieldNestBounded(fields[0], depth);
      FieldsNestBounded(fields[1..], depth);
    }
  }

  lemma {:induction false} FieldNestBounded(f: Field, depth: nat)
    requires depth < MAX_DEPTH
    ensures FieldNest(f, depth) <= MAX_DEPTH - depth
    decreases f, 1
  {
    if Calls(f) {
      NestBounded(f.node, f.name, depth + 1);
    } else if CallsBody(f, depth) && f.node.Struct? {
      FieldsNestBounded(f.node.fields, BodyDepth(f, depth));
    }
  }

  // ---------- The digests a run relies on ----------

  /** In a run over n that starts in hash state `state`, no two states that get compared have the
      same digest by accident: not the state before and after the content of a field, and not the
      streams of two items of an order-insensitive list. */
  ghost predicate CollisionFree(env: Env, n: Node, parent: string, field: string, depth: nat, state: string)
    decreases n, 1
  {
    depth < MAX_DEPTH ==>
      match n
      case List(_, items) =>
        var ss := ItemStreams(env, items, parent, field, depth + 1);
        if OrderInsensitive(field) then
          var sorted := SortDistinct(env, ss);
          && InjectiveOn(env, ss)
          && (forall i | 0 <= i < |items| :: CollisionFree(env, items[i], parent, field, depth + 1, ""))
          && (forall i, p | 0 <= i < |items| && 0 <= p < |sorted| && sorted[p] == ss[i] ::
                CollisionFree(env, items[i], parent, field, depth + 1, state + Flat(sorted[..p])))
        else
          forall i | 0 <= i < |items| :: CollisionFree(env, items[i], parent, field, depth + 1, state + Flat(ss[..i]))
      case Struct(tag, fields) =>
        !CastOfConstant(tag, fields) ==> FieldsCollisionFree(env, fields, tag, parent, field, depth, state + tag)
      case _ => true
  }

  ghost predicate FieldsCollisionFree(env: Env, fields: seq<Field>, self: string, parent: string, field: string, depth: nat, state: string)
    decreases fields, 2
  {
    fields != [] ==>
      && FieldCollisionFree(env, fields[0], self, depth, state)
      && FieldsCollisionFree(env, fields[1..], self, parent, field, depth,
                             state + FieldStream(env, fields[0], self, parent, field, depth))
  }

  /** The digest tells apart the state before and after the content of a field. */
  predicate Notices(env: Env, state: string, content: string) {
    content != "" ==> env.digest(state) != env.digest(state + content)
  }

  ghost predicate FieldCollisionFree(env: Env, f: Field, self: string, depth: nat, state: string)
    decreases f, 1
  {
    if Calls(f) then
      && CollisionFree(env, f.node, self, f.name, depth + 1, state + f.name)
      && Notices(env, state + f.name, NodeStream(env, f.node, self, f.name, depth + 1))
    else if CallsBody(f, depth) then
      && BodyCollisionFree(env, f.node, self, f.name, BodyDepth(f, depth), state + f.name)
      && (f.SpecificField? ==> Notices(env, state + f.name, BodyStream(env, f.node, self, f.name, depth + 1)))
    else true
  }

  ghost predicate BodyCollisionFree(env: Env, n: Node, parent: string, field: string, depth: nat, state: string)
    decreases n, 0
  {
    n.Struct? ==> FieldsCollisionFree(env, n.fields, n.tag, parent, field, depth, state)
  }

  // ---------- Sorted item lists ----------

  predicate SortedByHash(a: seq<ListsortItem>) {
    forall i, j | 0 <= i < j < |a| :: a[i].hash <= a[j].hash
  }

  /** The hashes of all items, in list order. */
  function ItemHashes(env: Env, ss: seq<string>): (a: seq<ListsortItem>)
    ensures |a| == |ss|
    ensures forall i | 0 <= i < |ss| :: a[i] == ListsortItem(env.digest(ss[i]), i)
  {
    seq(|ss|, i requires 0 <= i < |ss| => ListsortItem(env.digest(ss[i]), i))
  }

  /** An entry for a list is its item hashes, computed from scratch, in some order by hash. */
  ghost predicate EntryOk(env: Env, entry: seq<ListsortItem>, place: Place) {
    var hashes := ItemHashes(env, ItemStreams(env, place.items, place.parent, place.field, place.depth + 1));
    multiset(entry) == multiset(hashes) && SortedByHash(entry)
  }

  /** Every order-insensitive list among the sites is in the cache. */
  ghost predicate Warm(sites: set<Site>, cached: set<nat>) {
    forall s | s in sites && OrderInsensitive(s.place.field) :: s.id in cached
  }

  /** The lists of a tree sit where `places` says they do, so that a list is one key and one place. */
  ghost predicate Located(sites: set<Site>, places: map<nat, Place>) {
    forall s | s in sites :: s.id in places && places[s.id] == s.place
  }

  lemma EntryElements(env: Env, entry: seq<ListsortItem>, place: Place)
    requires EntryOk(env, entry, place)
    ensures var ss := ItemStreams(env, place.items, place.parent, place.field, place.depth + 1);
            && |entry| == |ss|
            && (forall k | 0 <= k < |entry| :: entry[k].pos < |ss| && entry[k].hash == env.digest(ss[entry[k].pos]))
            && (forall i | 0 <= i < |ss| :: ListsortItem(env.digest(ss[i]), i) in entry)
  {
    var ss := ItemStreams(env, place.items, place.parent, place.field, place.depth + 1);
    var hashes := ItemHashes(env, ss);
    assert |multiset(entry)| == |entry| && |multiset(hashes)| == |hashes|;
    forall k | 0 <= k < |entry| ensures entry[k] in hashes {
      assert entry[k] in multiset(entry);
    }
    forall i | 0 <= i < |ss| ensures ListsortItem(env.digest(ss[i]), i) in entry {
      assert hashes[i] in multiset(hashes);
    }
  }

  /** The streams that the first n places of an entry emit: one for each run of equal hashes. */
  function Emitted(entry: seq<ListsortItem>, ss: seq<string>, n: nat): seq<string>
    requires n <= |entry| && forall k | 0 <= k < |entry| :: entry[k].pos < |ss|
  {
    if n == 0 then []
    else if n > 1 && entry[n-2].hash == entry[n-1].hash then Emitted(entry, ss, n - 1)
    else Emitted(entry, ss, n - 1) + [ss[entry[n-1].pos]]
  }

  // ---------- Lists of items ----------

  lemma {:induction false} ItemOf(items: seq<Node>, parent: string, field: string, depth: nat, i: nat)
    requires i < |items|
    ensures NodeSites(items[i], parent, field, depth) <= ItemSites(items, parent, field, depth)
    ensures NodeNest(items[i], field, depth) <= ItemNest(items, field, depth)
  {
    if i > 0 {
      ItemOf(items[1..], parent, field, depth, i - 1);
    }
  }

  lemma {:induction false} ItemsWarm(items: seq<Node>, parent: string, field: string, depth: nat, cached: set<nat>)
    requires forall i | 0 <= i < |items| :: Warm(NodeSites(items[i], parent, field, depth), cached)
    ensures Warm(ItemSites(items, parent, field, depth), cached)
  {
    if items != [] {
      assert forall i | 0 <= i < |items[1..]| :: items[1..][i] == items[i + 1];
      ItemsWarm(items[1..], parent, field, depth, cached);
    }
  }

  /** Calls made between two counts: at most v for each level of list nesting and one more, and at
      most v altogether if everything was in the cache before. */
  predicate Paid(before: nat, after: nat, warm: bool, v: nat, k: nat) {
    after <= before + v * (1 + k) && (warm ==> after <= before + v)
  }

  lemma PaidTwice(c0: nat, c1: nat, c2: nat, warm: bool, v1: nat, k1: nat, v2: nat, k2: nat, k: nat)
    requires Paid(c0, c1, warm, v1, k1) && Paid(c1, c2, warm, v2, k2) && k1 <= k && k2 <= k
    ensures Paid(c0, c2, warm, v1 + v2, k)
  {
    Dearer(v1, k1, k);
    Dearer(v2, k2, k);
    assert (v1 + v2) * (1 + k) == v1 * (1 + k) + v2 * (1 + k);
  }

  lemma ItemVisitsStep(items: seq<Node>, depth: nat, i: nat)
    requires i < |items|
    ensures ItemVisits(items[i..], depth) == NodeVisits(items[i], depth) + ItemVisits(items[i+1..], depth)
  {
    assert items[i..][0] == items[i] && items[i..][1..] == items[i+1..];
  }

  /** From count `start` on, at count `now`, with items of cost `rest` out of `total` still to come. */
  predicate Owes(start: nat, now: nat, rest: nat, total: nat, k: nat, warm: bool) {
    now + rest * (1 + k) <= start + total * (1 + k) && (warm ==> now + rest <= start + total)
  }

  lemma OwesStep(items: seq<Node>, field: string, depth: nat, i: nat, start: nat, c1: nat, c2: nat, total: nat, k: nat, w: bool, warm: bool)
    requires i < |items| && NodeNest(items[i], field, depth) <= k && (warm ==> w)
    requires Owes(start, c1, ItemVisits(items[i..], depth), total, k, warm)
    requires Paid(c1, c2, w, NodeVisits(items[i], depth), NodeNest(items[i], field, depth))
    ensures Owes(start, c2, ItemVisits(items[i+1..], depth), total, k, warm)
  {
    hide ItemVisits, NodeVisits, NodeNest;
    ItemVisitsStep(items, depth, i);
    var v, rest, kk := NodeVisits(items[i], depth), ItemVisits(items[i+1..], depth), NodeNest(items[i], field, depth);
    Dearer(v, kk, k);
    assert (v + rest) * (1 + k) == v * (1 + k) + rest * (1 + k);
  }

  lemma Dearer(v: nat, k1: nat, k2: nat)
    requires k1 <= k2
    ensures v * (1 + k1) <= v * (1 + k2)
  {
    assert v * (1 + k2) == v * (1 + k1) + v * (k2 - k1);
  }

  // ---------- Adding up the cost of the items of an entry ----------

  ghost predicate PositionsIn(entry: seq<ListsortItem>, items: seq<Node>) {
    forall e | e in entry :: e.pos < |items|
  }

  ghost function EntryVisits(entry: seq<ListsortItem>, items: seq<Node>, depth: nat): nat
    requires PositionsIn(entry, items)
  {
    if entry == [] then 0 else NodeVisits(items[entry[0].pos], depth) + EntryVisits(entry[1..], items, depth)
  }

  lemma {:induction false} EntryVisitsSplit(a: seq<ListsortItem>, j: nat, items: seq<Node>, depth: nat)
    requires j < |a| && PositionsIn(a, items)
    ensures PositionsIn(a[..j] + a[j+1..], items)
    ensures EntryVisits(a, items, depth) == NodeVisits(items[a[j].pos], depth) + EntryVisits(a[..j] + a[j+1..], items, depth)
  {
    var rest := a[..j] + a[j+1..];
    if j == 0 {
      assert rest == a[1..];
    } else {
      EntryVisitsSplit(a[1..], j - 1, items, depth);
      assert rest[0] == a[0] && rest[1..] == a[1..][..j-1] + a[1..][j..];
    }
  }

  lemma WithoutElement(a: seq<ListsortItem>, j: nat)
    requires j < |a|
    ensures multiset(a[..j] + a[j+1..]) == multiset(a) - multiset{a[j]}
  {
    assert a == a[..j] + [a[j]] + a[j+1..];
  }

  lemma {:induction false} EntryVisitsPermuted(a: seq<ListsortItem>, b: seq<ListsortItem>, items: seq<Node>, depth: nat)
    requires multiset(a) == multiset(b) && PositionsIn(a, items) && PositionsIn(b, items)
    ensures EntryVisits(a, items, depth) == EntryVisits(b, items, depth)
    decreases |a|
  {
    assert |multiset(a)| == |a| && |multiset(b)| == |b|;
    if a != [] {
      assert a[0] in multiset(b);
      var j :| 0 <= j < |b| && b[j] == a[0];
      var rest := b[..j] + b[j+1..];
      EntryVisitsSplit(b, j, items, depth);
      WithoutElement(a, 0);
      assert a[..0] + a[1..] == a[1..];
      WithoutElement(b, j);
      EntryVisitsPermuted(a[1..], rest, items, depth);
    }
  }

  lemma {:induction false} HashesVisits(a: seq<ListsortItem>, items: seq<Node>, depth: nat, i: nat)
    requires i <= |items| && |a| == |items| - i && PositionsIn(a, items)
    requires forall k | 0 <= k < |a| :: a[k].pos == i + k
    ensures EntryVisits(a, items, depth) == ItemVisits(items[i..], depth)
    decreases |a|
  {
    if a != [] {
      ItemVisitsStep(items, depth, i);
      HashesVisits(a[1..], items, depth, i + 1);
    }
  }

  lemma EntryVisitsAll(env: Env, entry: seq<ListsortItem>, place: Place)
    requires EntryOk(env, entry, place)
    ensures PositionsIn(entry, place.items)
    ensures EntryVisits(entry, place.items, place.depth + 1) == ItemVisits(place.items, place.depth + 1)
  {
    var ss := ItemStreams(env, place.items, place.parent, place.field, place.depth + 1);
    var hashes := ItemHashes(env, ss);
    EntryElements(env, entry, place);
    EntryVisitsPermuted(entry, hashes, place.items, place.depth + 1);
    HashesVisits(hashes, place.items, place.depth + 1, 0);
    assert place.items[0..] == place.items;
  }
}
