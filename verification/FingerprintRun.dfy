/** The fingerprinter at work: contexts that feed a hash state, save and restore it around fields, and
    share a cache of sorted item hashes. */
module FingerprintRun {
  import opened FingerprintStream
  import opened FingerprintCache
  import opened FingerprintOrder
  import opened Sorting

  /** The cache that a root context and all its children share. */
  class ListsortCache {
    const env: Env
    ghost const places: map<nat, Place>
    var entries: map<nat, seq<ListsortItem>>
    /** Calls of _fingerprintNode so far, in all contexts. */
    ghost var visits: nat

    constructor (env: Env, ghost places: map<nat, Place>)
      ensures this.env == env && this.places == places && entries == map[] && visits == 0
      ensures Valid()
    {
      this.env, this.places, entries, visits := env, places, map[], 0;
    }

    /** Every entry is what sorting from scratch would give, and whatever lists its items contain have
        entries as well. */
    ghost predicate Valid()
      reads this`entries
    {
      EntriesOk(env, places, entries)
    }
  }

  ghost predicate EntriesOk(env: Env, places: map<nat, Place>, entries: map<nat, seq<ListsortItem>>) {
    forall id | id in entries ::
      && id in places
      && EntryOk(env, entries[id], places[id])
      && Warm(ItemSites(places[id].items, places[id].parent, places[id].field, places[id].depth + 1), entries.Keys)
  }

  /** A cache only gains entries, and only for lists at the given depth or deeper. */
  ghost predicate Grows(before: map<nat, seq<ListsortItem>>, after: map<nat, seq<ListsortItem>>, places: map<nat, Place>, depth: nat) {
    && (forall id | id in before :: id in after && after[id] == before[id])
    && (forall id | id in after && id !in before :: id in places && places[id].depth >= depth)
  }

  lemma GrowsDeeper(before: map<nat, seq<ListsortItem>>, after: map<nat, seq<ListsortItem>>, places: map<nat, Place>, d1: nat, d2: nat)
    requires Grows(before, after, places, d1) && d2 <= d1
    ensures Grows(before, after, places, d2)
  {
  }

  lemma WarmGrows(sites: set<Site>, before: map<nat, seq<ListsortItem>>, after: map<nat, seq<ListsortItem>>, places: map<nat, Place>, depth: nat)
    requires Warm(sites, before.Keys) && Grows(before, after, places, depth)
    ensures Warm(sites, after.Keys)
  {
  }

  /** Tokens were added whose text is `added`, and none if that is empty. */
  predicate TokensAdded(write: bool, before: seq<string>, after: seq<string>, added: string) {
    if !write then after == before else
    && before <= after
    && Flat(after[|before|..]) == added
    && (added == "" ==> after == before)
  }

  lemma TokensAddedTwice(write: bool, t0: seq<string>, t1: seq<string>, t2: seq<string>, a: string, b: string)
    requires TokensAdded(write, t0, t1, a) && TokensAdded(write, t1, t2, b)
    ensures TokensAdded(write, t0, t2, a + b)
  {
    if write {
      FlatAppend(t1[|t0|..], t2[|t1|..]);
      assert t2[|t0|..] == t1[|t0|..] + t2[|t1|..];
    }
  }

  lemma TokenAdded(write: bool, before: seq<string>, s: string)
    requires s != ""
    ensures TokensAdded(write, before, if write then before + [s] else before, s)
  {
    assert (before + [s])[|before|..] == [s];
    assert [s][1..] == [];
  }

  lemma ItemsStartEmpty(env: Env, n: Node, parent: string, field: string, depth: nat, state: string)
    requires n.List? && depth < MAX_DEPTH && OrderInsensitive(field) && CollisionFree(env, n, parent, field, depth, state)
    ensures forall i | 0 <= i < |n.items| :: CollisionFree(env, n.items[i], parent, field, depth + 1, "")
  {
  }

  lemma NullStream(env: Env, parent: string, field: string, depth: nat)
    ensures NodeStream(env, Null, parent, field, depth) == ""
  {
  }

  lemma WarmUnion(a: set<Site>, b: set<Site>, cached: set<nat>)
    ensures Warm(a + b, cached) <==> Warm(a, cached) && Warm(b, cached)
  {
  }

  lemma LocatedUnion(a: set<Site>, b: set<Site>, places: map<nat, Place>)
    ensures Located(a + b, places) <==> Located(a, places) && Located(b, places)
  {
  }

  lemma GrowsTwice(a: map<nat, seq<ListsortItem>>, b: map<nat, seq<ListsortItem>>, c: map<nat, seq<ListsortItem>>,
                   places: map<nat, Place>, depth: nat)
    requires Grows(a, b, places, depth) && Grows(b, c, places, depth)
    ensures Grows(a, c, places, depth)
  {
  }

  /** The name's token is the last one again when its content added none. */
  lemma NameIsLast(write: bool, t0: seq<string>, t1: seq<string>, t2: seq<string>, name: string)
    requires t1 == (if write then t0 + [name] else t0) && TokensAdded(write, t1, t2, "")
    ensures t2 == t1 && (write ==> |t2| > 0 && t2[..|t2| - 1] == t0)
  {
  }

  /** The list being hashed cannot have got an entry from its own items. */
  lemma NotDeeper(before: map<nat, seq<ListsortItem>>, after: map<nat, seq<ListsortItem>>, places: map<nat, Place>, depth: nat, id: nat)
    requires Grows(before, after, places, depth + 1)
    requires id !in before && id in places && places[id].depth == depth
    ensures id !in after
  {
  }

  // ---------- Bookkeeping of the loops over list items ----------

  lemma ListIsSite(n: Node, parent: string, field: string, depth: nat, places: map<nat, Place>)
    requires n.List? && depth < MAX_DEPTH && Located(NodeSites(n, parent, field, depth), places)
    ensures n.id in places && places[n.id] == Place(n.items, parent, field, depth)
    ensures Located(ItemSites(n.items, parent, field, depth + 1), places)
  {
    hide ItemSites;
    assert Site(n.id, Place(n.items, parent, field, depth)) in NodeSites(n, parent, field, depth);
  }

  lemma LocatedPart(part: set<Site>, sites: set<Site>, places: map<nat, Place>)
    requires part <= sites && Located(sites, places)
    ensures Located(part, places)
  {
  }

  lemma WarmPart(part: set<Site>, sites: set<Site>, before: map<nat, seq<ListsortItem>>, after: map<nat, seq<ListsortItem>>,
                 places: map<nat, Place>, d: nat)
    requires part <= sites && Warm(sites, before.Keys) && Grows(before, after, places, d)
    ensures Warm(part, after.Keys)
  {
  }

  /** The list itself and all lists in its items are in the cache. */
  lemma ListWarm(n: Node, parent: string, field: string, depth: nat, before: map<nat, seq<ListsortItem>>, after: map<nat, seq<ListsortItem>>,
                 places: map<nat, Place>)
    requires n.List? && n.id in before && Grows(before, after, places, depth)
    requires Warm(ItemSites(n.items, parent, field, depth + 1), before.Keys)
    ensures Warm(NodeSites(n, parent, field, depth), after.Keys)
  {
    hide ItemSites;
  }

  ghost predicate ItemsDoneWarm(items: seq<Node>, i: nat, parent: string, field: string, depth: nat, cached: set<nat>)
    requires i <= |items|
  {
    forall j | 0 <= j < i :: Warm(NodeSites(items[j], parent, field, depth), cached)
  }

  lemma ItemsDoneStep(items: seq<Node>, i: nat, parent: string, field: string, depth: nat,
                      before: map<nat, seq<ListsortItem>>, after: map<nat, seq<ListsortItem>>, places: map<nat, Place>)
    requires i < |items| && ItemsDoneWarm(items, i, parent, field, depth, before.Keys) && Grows(before, after, places, depth)
    requires Warm(NodeSites(items[i], parent, field, depth), after.Keys)
    ensures ItemsDoneWarm(items, i + 1, parent, field, depth, after.Keys)
  {
    hide NodeSites;
    forall j | 0 <= j < i ensures Warm(NodeSites(items[j], parent, field, depth), after.Keys) {
      WarmGrows(NodeSites(items[j], parent, field, depth), before, after, places, depth);
    }
  }

  lemma ItemsDoneAll(items: seq<Node>, parent: string, field: string, depth: nat, cached: set<nat>)
    requires ItemsDoneWarm(items, |items|, parent, field, depth, cached)
    ensures Warm(ItemSites(items, parent, field, depth), cached)
  {
    ItemsWarm(items, parent, field, depth, cached);
  }

  lemma NothingOwed(items: seq<Node>, depth: nat, start: nat, now: nat, total: nat, k: nat, warm: bool)
    requires Owes(start, now, ItemVisits(items[|items|..], depth), total, k, warm)
    ensures Paid(start, now, warm, total, k)
  {
    assert items[|items|..] == [];
  }

  lemma WarmPaid(now: nat, v: nat, k: nat)
    ensures forall before: nat :: Paid(before, now, true, v, k) ==> now <= before + v
  {
  }

  /** What a list contributes, and what its items may rely on. */
  lemma ListStream(env: Env, n: Node, parent: string, field: string, depth: nat, state: string)
    requires n.List? && depth < MAX_DEPTH && CollisionFree(env, n, parent, field, depth, state)
    ensures var ss := ItemStreams(env, n.items, parent, field, depth + 1);
            && NodeStream(env, n, parent, field, depth) == Flat(if OrderInsensitive(field) then SortDistinct(env, ss) else ss)
            && (OrderInsensitive(field) ==> InjectiveOn(env, ss))
            && (!OrderInsensitive(field) ==> forall i | 0 <= i < |n.items| ::
                  CollisionFree(env, n.items[i], parent, field, depth + 1, state + Flat(ss[..i])))
  {
    hide ItemStreams, SortDistinct;
  }

  lemma FlatStep(ss: seq<string>, i: nat)
    requires i < |ss|
    ensures Flat(ss[..i+1]) == Flat(ss[..i]) + ss[i]
  {
    assert ss[..i+1] == ss[..i] + [ss[i]];
    FlatAppend(ss[..i], [ss[i]]);
    assert [ss[i]][1..] == [];
  }

  lemma EntryStep(entry: seq<ListsortItem>, i: nat, items: seq<Node>, depth: nat)
    requires i < |entry| && PositionsIn(entry[i..], items)
    ensures entry[i].pos < |items| && PositionsIn(entry[i+1..], items)
    ensures EntryVisits(entry[i..], items, depth) == NodeVisits(items[entry[i].pos], depth) + EntryVisits(entry[i+1..], items, depth)
  {
    hide NodeVisits;
    assert entry[i..][0] == entry[i] && entry[i..][1..] == entry[i+1..];
    assert entry[i] in entry[i..];
    assert forall e | e in entry[i+1..] :: e in entry[i..];
  }

  lemma EmittedStep(entry: seq<ListsortItem>, ss: seq<string>, i: nat)
    requires i < |entry| && forall k | 0 <= k < |entry| :: entry[k].pos < |ss|
    ensures i > 0 && entry[i-1].hash == entry[i].hash ==> Emitted(entry, ss, i + 1) == Emitted(entry, ss, i)
    ensures !(i > 0 && entry[i-1].hash == entry[i].hash) ==>
              Emitted(entry, ss, i + 1) == Emitted(entry, ss, i) + [ss[entry[i].pos]] &&
              Flat(Emitted(entry, ss, i + 1)) == Flat(Emitted(entry, ss, i)) + ss[entry[i].pos]
  {
    var s := ss[entry[i].pos];
    FlatAppend(Emitted(entry, ss, i), [s]);
    assert [s][1..] == [];
  }

  ghost predicate SortedFree(env: Env, n: Node, parent: string, field: string, depth: nat, state: string)
    requires n.List?
  {
    var ss := ItemStreams(env, n.items, parent, field, depth + 1);
    var sorted := SortDistinct(env, ss);
    forall i, p | 0 <= i < |n.items| && 0 <= p < |sorted| && sorted[p] == ss[i] ::
      CollisionFree(env, n.items[i], parent, field, depth + 1, state + Flat(sorted[..p]))
  }

  lemma ListFree(env: Env, n: Node, parent: string, field: string, depth: nat, state: string)
    requires n.List? && depth < MAX_DEPTH && OrderInsensitive(field) && CollisionFree(env, n, parent, field, depth, state)
    ensures SortedFree(env, n, parent, field, depth, state)
    ensures InjectiveOn(env, ItemStreams(env, n.items, parent, field, depth + 1))
  {
    hide ItemStreams, SortDistinct, InjectiveOn;
  }

  lemma PrefixElement(sorted: seq<string>, em: seq<string>, s: string)
    requires em + [s] <= sorted
    ensures |em| < |sorted| && sorted[|em|] == s && sorted[..|em|] == em
  {
    assert (em + [s])[|em|] == s;
  }

  /** An item that is emitted comes next in the sorted order. */
  lemma EmittedNext(env: Env, entry: seq<ListsortItem>, place: Place, i: nat)
    requires EntryOk(env, entry, place) && i < |entry|
    requires InjectiveOn(env, ItemStreams(env, place.items, place.parent, place.field, place.depth + 1))
    requires !(i > 0 && entry[i-1].hash == entry[i].hash)
    ensures forall k | 0 <= k < |entry| :: entry[k].pos < |place.items|
    ensures var ss := ItemStreams(env, place.items, place.parent, place.field, place.depth + 1);
            Emitted(entry, ss, i) + [ss[entry[i].pos]] <= SortDistinct(env, ss)
  {
    hide SortDistinct, InjectiveOn, EntryOk, ItemStreams;
    var ss := ItemStreams(env, place.items, place.parent, place.field, place.depth + 1);
    EmittedIsSortDistinct(env, entry, place);
    EmittedStep(entry, ss, i);
    EmittedPrefix(entry, ss, i + 1, |entry|);
  }

  /** An item is emitted in a state that its run may rely on. */
  lemma EntryItemFree(env: Env, n: Node, parent: string, field: string, depth: nat, state: string, entry: seq<ListsortItem>, i: nat)
    requires n.List? && depth < MAX_DEPTH && OrderInsensitive(field) && CollisionFree(env, n, parent, field, depth, state)
    requires EntryOk(env, entry, Place(n.items, parent, field, depth)) && i < |entry|
    requires !(i > 0 && entry[i-1].hash == entry[i].hash)
    ensures forall k | 0 <= k < |entry| :: entry[k].pos < |n.items|
    ensures var ss := ItemStreams(env, n.items, parent, field, depth + 1);
            CollisionFree(env, n.items[entry[i].pos], parent, field, depth + 1, state + Flat(Emitted(entry, ss, i)))
  {
    hide CollisionFree, ItemStreams, SortDistinct, Emitted, InjectiveOn, EntryOk, Flat;
    var ss := ItemStreams(env, n.items, parent, field, depth + 1);
    ListFree(env, n, parent, field, depth, state);
    EmittedNext(env, entry, Place(n.items, parent, field, depth), i);
    PrefixElement(SortDistinct(env, ss), Emitted(entry, ss, i), ss[entry[i].pos]);
  }

  lemma NothingAdded(write: bool, tokens: seq<string>)
    ensures TokensAdded(write, tokens, tokens, "")
  {
  }

  lemma PaidNothing(c: nat)
    ensures Paid(c, c, true, 0, 0)
  {
  }

  lemma NoSites(entries: map<nat, seq<ListsortItem>>)
    ensures Warm({}, entries.Keys) && forall places, depth :: Grows(entries, entries, places, depth)
  {
  }

  lemma FieldsPaid(fields: seq<Field>, depth: nat, c0: nat, c1: nat, c2: nat, w1: bool, w2: bool, w: bool)
    requires fields != [] && (w ==> w1 && w2)
    requires Paid(c0, c1, w1, FieldVisits(fields[0], depth), FieldNest(fields[0], depth))
    requires Paid(c1, c2, w2, FieldsVisits(fields[1..], depth), FieldsNest(fields[1..], depth))
    ensures Paid(c0, c2, w, FieldsVisits(fields, depth), FieldsNest(fields, depth))
  {
    PaidTwice(c0, c1, c2, w, FieldVisits(fields[0], depth), FieldNest(fields[0], depth),
              FieldsVisits(fields[1..], depth), FieldsNest(fields[1..], depth), FieldsNest(fields, depth));
  }

  lemma Assoc(a: string, b: string, c: string)
    ensures (a + b) + c == a + (b + c)
  {
  }

  class Context {
    const cache: ListsortCache
    const writeTokens: bool
    var state: string
    var tokens: seq<string>

    /** A fresh hash state on a shared cache. */
    constructor (cache: ListsortCache, writeTokens: bool)
      ensures this.cache == cache && this.writeTokens == writeTokens && state == "" && tokens == []
    {
      this.cache, this.writeTokens, state, tokens := cache, writeTokens, "", [];
    }

    /** _fingerprintString */
    method FingerprintString(s: string)
      modifies this
      ensures state == old(state) + s
      ensures tokens == if writeTokens then old(tokens) + [s] else old(tokens)
    {
      state := state + s;
      if writeTokens {
        tokens := tokens + [s];
      }
    }

    method FingerprintStrings(ss: seq<string>)
      requires ss != [] ==> ss[0] != ""
      modifies this
      ensures state == old(state) + Flat(ss)
      ensures TokensAdded(writeTokens, old(tokens), tokens, Flat(ss))
    {
      for i := 0 to |ss|
        invariant state == old(state) + Flat(ss[..i])
        invariant tokens == if writeTokens then old(tokens) + ss[..i] else old(tokens)
      {
        assert ss[..i+1] == ss[..i] + [ss[i]];
        FlatAppend(ss[..i], [ss[i]]);
        assert Flat([ss[i]]) == ss[i] by { assert [ss[i]][1..] == []; }
        FingerprintString(ss[i]);
      }
      assert ss[..|ss|] == ss;
    }

    /** What a run over n needs. */
    ghost predicate Ready(n: Node, parent: string, field: string, depth: nat)
      reads this, cache
    {
      && cache.Valid()
      && Located(NodeSites(n, parent, field, depth), cache.places)
      && CollisionFree(cache.env, n, parent, field, depth, state)
    }

    /** _fingerprintNode */
    method FingerprintNode(n: Node, parent: string, field: string, depth: nat)
      requires Ready(n, parent, field, depth)
      modifies this, cache
      ensures state == old(state) + NodeStream(cache.env, n, parent, field, depth)
      ensures TokensAdded(writeTokens, old(tokens), tokens, NodeStream(cache.env, n, parent, field, depth))
      ensures cache.Valid() && Grows(old(cache.entries), cache.entries, cache.places, depth)
      ensures Warm(NodeSites(n, parent, field, depth), cache.entries.Keys)
      ensures Paid(old(cache.visits), cache.visits, old(Warm(NodeSites(n, parent, field, depth), cache.entries.Keys)),
                   NodeVisits(n, depth), NodeNest(n, field, depth))
      decreases n, 1
    {
      hide FieldsSites, FieldsStream, ItemSites, ItemStreams, ItemNest, ItemVisits, FieldsNest, FieldsVisits;
      hide Warm, Located, Grows, ListsortCache.Valid, TokensAdded;
      NothingAdded(writeTokens, tokens);
      NoSites(cache.entries);
      cache.visits := cache.visits + 1;
      if depth >= MAX_DEPTH {
        return;
      }
      match n
      case Null =>
      case Ignored(_) =>
      case Val(v) => FingerprintStrings(ValueStrings(v));
      case RangeVar(_, _, _, _, _, _) => FingerprintRangeVar(n, parent, field);
      case List(_, _) =>
        FingerprintList(n, parent, field, depth);
      case Struct(tag, fields) =>
        if !CastOfConstant(tag, fields) {
          FingerprintStruct(n, parent, field, depth);
        }
    }

    /** The tag of a node, then its fields. */
    method FingerprintStruct(n: Node, parent: string, field: string, depth: nat)
      requires n.Struct? && depth < MAX_DEPTH && !CastOfConstant(n.tag, n.fields) && cache.Valid()
      requires Located(FieldsSites(n.fields, n.tag, depth), cache.places)
      requires CollisionFree(cache.env, n, parent, field, depth, state)
      modifies this, cache
      ensures state == old(state) + NodeStream(cache.env, n, parent, field, depth)
      ensures TokensAdded(writeTokens, old(tokens), tokens, NodeStream(cache.env, n, parent, field, depth))
      ensures cache.Valid() && Grows(old(cache.entries), cache.entries, cache.places, depth)
      ensures Warm(FieldsSites(n.fields, n.tag, depth), cache.entries.Keys)
      ensures Paid(old(cache.visits), cache.visits, old(Warm(FieldsSites(n.fields, n.tag, depth), cache.entries.Keys)),
                   FieldsVisits(n.fields, depth), FieldsNest(n.fields, depth))
      decreases n, 0
    {
      hide FieldsSites, FieldsStream, FieldsCollisionFree, FieldsNest, FieldsVisits, TokensAdded, Warm, Paid, Grows, Located;
      FingerprintString(n.tag);
      ghost var t1 := tokens;
      TokenAdded(writeTokens, old(tokens), n.tag);
      FingerprintFields(n.fields, n.tag, parent, field, depth);
      TokensAddedTwice(writeTokens, old(tokens), t1, tokens, n.tag, FieldsStream(cache.env, n.fields, n.tag, parent, field, depth));
    }

    /** _fingerprintRangeVar, after its tag */
    method FingerprintRangeVar(n: Node, parent: string, field: string)
      requires n.RangeVar?
      modifies this
      ensures state == old(state) + ("RangeVar" + Flat(RangeVarStrings(cache.env, n, parent, field)))
      ensures TokensAdded(writeTokens, old(tokens), tokens, "RangeVar" + Flat(RangeVarStrings(cache.env, n, parent, field)))
    {
      FingerprintStrings(["RangeVar"] + RangeVarStrings(cache.env, n, parent, field));
    }

    /** The function of one node type: its fields in order. */
    method FingerprintFields(fields: seq<Field>, self: string, parent: string, field: string, depth: nat)
      requires depth < MAX_DEPTH && cache.Valid() && Located(FieldsSites(fields, self, depth), cache.places)
      requires FieldsCollisionFree(cache.env, fields, self, parent, field, depth, state)
      modifies this, cache
      ensures state == old(state) + FieldsStream(cache.env, fields, self, parent, field, depth)
      ensures TokensAdded(writeTokens, old(tokens), tokens, FieldsStream(cache.env, fields, self, parent, field, depth))
      ensures cache.Valid() && Grows(old(cache.entries), cache.entries, cache.places, depth)
      ensures Warm(FieldsSites(fields, self, depth), cache.entries.Keys)
      ensures Paid(old(cache.visits), cache.visits, old(Warm(FieldsSites(fields, self, depth), cache.entries.Keys)),
                   FieldsVisits(fields, depth), FieldsNest(fields, depth))
      decreases fields, 2
    {
      hide FieldStream, FieldSites, FieldCollisionFree, FieldVisits, FieldNest;
      hide Paid, TokensAdded, Warm, Located, Grows, ListsortCache.Valid;
      if fields == [] {
        PaidNothing(cache.visits);
        NothingAdded(writeTokens, tokens);
        NoSites(cache.entries);
        return;
      }
      ghost var first, rest := FieldSites(fields[0], self, depth), FieldsSites(fields[1..], self, depth);
      ghost var s0, s1 := FieldStream(cache.env, fields[0], self, parent, field, depth),
                          FieldsStream(cache.env, fields[1..], self, parent, field, depth);
      LocatedUnion(first, rest, cache.places);
      WarmUnion(first, rest, cache.entries.Keys);
      FingerprintField(fields[0], self, parent, field, depth);
      ghost var t1, v1, e1 := tokens, cache.visits, cache.entries;
      if old(Warm(first + rest, cache.entries.Keys)) {
        WarmGrows(rest, old(cache.entries), e1, cache.places, depth);
      }
      FingerprintFields(fields[1..], self, parent, field, depth);
      TokensAddedTwice(writeTokens, old(tokens), t1, tokens, s0, s1);
      Assoc(old(state), s0, s1);
      GrowsTwice(old(cache.entries), e1, cache.entries, cache.places, depth);
      WarmGrows(first, e1, cache.entries, cache.places, depth);
      WarmUnion(first, rest, cache.entries.Keys);
      FieldsPaid(fields, depth, old(cache.visits), v1, cache.visits, old(Warm(first, cache.entries.Keys)),
                 Warm(rest, e1.Keys), old(Warm(first + rest, cache.entries.Keys)));
    }

    /** One field.  The name goes in first, and both the state and the name's token are taken back if
        the content leaves the digest as it was. */
    method FingerprintField(f: Field, self: string, parent: string, field: string, depth: nat)
      requires depth < MAX_DEPTH && cache.Valid() && Located(FieldSites(f, self, depth), cache.places)
      requires FieldCollisionFree(cache.env, f, self, depth, state)
      modifies this, cache
      ensures state == old(state) + FieldStream(cache.env, f, self, parent, field, depth)
      ensures TokensAdded(writeTokens, old(tokens), tokens, FieldStream(cache.env, f, self, parent, field, depth))
      ensures cache.Valid() && Grows(old(cache.entries), cache.entries, cache.places, depth)
      ensures Warm(FieldSites(f, self, depth), cache.entries.Keys)
      ensures Paid(old(cache.visits), cache.visits, old(Warm(FieldSites(f, self, depth), cache.entries.Keys)),
                   FieldVisits(f, depth), FieldNest(f, depth))
      decreases f, 1
    {
      hide NodeStream, NodeSites, CollisionFree, NodeVisits, NodeNest, BodyStream, BodySites, BodyCollisionFree, BodyVisits, BodyNest;
      match f
      case TextField(name, text) => FingerprintStrings(Labelled(name, text));
      case TargetName(text) =>
        if !(parent == "SelectStmt" && field == "targetList") {
          FingerprintStrings(Labelled("name", text));
        }
      case BitmapField(name, members) => FingerprintStrings([name] + members);
      case NodeField(name, node) =>
        if !node.Null? {
          FingerprintNamedNode(name, node, self, depth, false);
        } else {
          assert NodeStream(cache.env, Null, self, name, depth + 1) == "" by { NullStream(cache.env, self, name, depth + 1); }
        }
      case ListField(name, node) =>
        if node.List? && node.items != [] {
          FingerprintNamedNode(name, node, self, depth, KeepsName(node));
        }
      case SpecificField(name, node) =>
        if depth + 1 < MAX_DEPTH {
          FingerprintNamedBody(name, node, self, depth);
        }
      case EmbeddedField(name, node) =>
        FingerprintString(name);
        TokenAdded(writeTokens, old(tokens), name);
        ghost var t1 := tokens;
        FingerprintBody(node, self, name, depth);
        TokensAddedTwice(writeTokens, old(tokens), t1, tokens, name, BodyStream(cache.env, node, self, name, depth));
    }

    /** The field template for pointers to one node type. */
    method FingerprintNamedBody(name: Name, node: Node, self: string, depth: nat)
      requires depth + 1 < MAX_DEPTH && cache.Valid() && Located(BodySites(node, depth + 1), cache.places)
      requires BodyCollisionFree(cache.env, node, self, name, depth + 1, state + name)
      requires Notices(cache.env, state + name, BodyStream(cache.env, node, self, name, depth + 1))
      modifies this, cache
      ensures var added := Named(name, BodyStream(cache.env, node, self, name, depth + 1));
              state == old(state) + added && TokensAdded(writeTokens, old(tokens), tokens, added)
      ensures cache.Valid() && Grows(old(cache.entries), cache.entries, cache.places, depth)
      ensures Warm(BodySites(node, depth + 1), cache.entries.Keys)
      ensures Paid(old(cache.visits), cache.visits, old(Warm(BodySites(node, depth + 1), cache.entries.Keys)),
                   BodyVisits(node, depth + 1), BodyNest(node, depth + 1))
      decreases node, 2
    {
      hide BodyStream, BodySites, BodyCollisionFree, BodyVisits, BodyNest, TokensAdded, Paid, Warm, Located, ListsortCache.Valid;
      var prev := state;
      FingerprintString(name);
      ghost var t1 := tokens;
      TokenAdded(writeTokens, old(tokens), name);
      var hash := cache.env.digest(state);
      FingerprintBody(node, self, name, depth + 1);
      GrowsDeeper(old(cache.entries), cache.entries, cache.places, depth + 1, depth);
      TokensAddedTwice(writeTokens, old(tokens), t1, tokens, name, BodyStream(cache.env, node, self, name, depth + 1));
      Assoc(old(state), name, BodyStream(cache.env, node, self, name, depth + 1));
      assert old(state) + name + "" == old(state) + name && old(state) + "" == old(state);
      if hash == cache.env.digest(state) {
        NameIsLast(writeTokens, old(tokens), t1, tokens, name);
        NothingAdded(writeTokens, old(tokens));
        state := prev;
        if writeTokens {
          tokens := tokens[..|tokens| - 1];
        }
      }
    }

    /** The field templates that call _fingerprintNode. */
    method FingerprintNamedNode(name: Name, node: Node, self: string, depth: nat, keep: bool)
      requires depth < MAX_DEPTH && cache.Valid() && Located(NodeSites(node, self, name, depth + 1), cache.places)
      requires CollisionFree(cache.env, node, self, name, depth + 1, state + name)
      requires Notices(cache.env, state + name, NodeStream(cache.env, node, self, name, depth + 1))
      modifies this, cache
      ensures var content := NodeStream(cache.env, node, self, name, depth + 1);
              var added := if keep then name + content else Named(name, content);
              state == old(state) + added && TokensAdded(writeTokens, old(tokens), tokens, added)
      ensures cache.Valid() && Grows(old(cache.entries), cache.entries, cache.places, depth)
      ensures Warm(NodeSites(node, self, name, depth + 1), cache.entries.Keys)
      ensures Paid(old(cache.visits), cache.visits, old(Warm(NodeSites(node, self, name, depth + 1), cache.entries.Keys)),
                   NodeVisits(node, depth + 1), NodeNest(node, name, depth + 1))
      decreases node, 2
    {
      hide NodeStream, NodeSites, CollisionFree, NodeVisits, NodeNest, TokensAdded, Paid, Warm, Located, ListsortCache.Valid;
      var prev := state;
      FingerprintString(name);
      ghost var t1 := tokens;
      TokenAdded(writeTokens, old(tokens), name);
      var hash := cache.env.digest(state);
      FingerprintNode(node, self, name, depth + 1);
      GrowsDeeper(old(cache.entries), cache.entries, cache.places, depth + 1, depth);
      TokensAddedTwice(writeTokens, old(tokens), t1, tokens, name, NodeStream(cache.env, node, self, name, depth + 1));
      Assoc(old(state), name, NodeStream(cache.env, node, self, name, depth + 1));
      assert old(state) + name + "" == old(state) + name && old(state) + "" == old(state);
      if hash == cache.env.digest(state) && !keep {
        NameIsLast(writeTokens, old(tokens), t1, tokens, name);
        NothingAdded(writeTokens, old(tokens));
        state := prev;
        if writeTokens {
          tokens := tokens[..|tokens| - 1];
        }
      }
    }

    /** A node type's function called directly, without its tag. */
    method FingerprintBody(n: Node, parent: string, field: string, depth: nat)
      requires depth < MAX_DEPTH && cache.Valid() && Located(BodySites(n, depth), cache.places)
      requires BodyCollisionFree(cache.env, n, parent, field, depth, state)
      modifies this, cache
      ensures state == old(state) + BodyStream(cache.env, n, parent, field, depth)
      ensures TokensAdded(writeTokens, old(tokens), tokens, BodyStream(cache.env, n, parent, field, depth))
      ensures cache.Valid() && Grows(old(cache.entries), cache.entries, cache.places, depth)
      ensures Warm(BodySites(n, depth), cache.entries.Keys)
      ensures Paid(old(cache.visits), cache.visits, old(Warm(BodySites(n, depth), cache.entries.Keys)),
                   BodyVisits(n, depth), BodyNest(n, depth))
      decreases n, 0
    {
      if n.Struct? {
        FingerprintFields(n.fields, n.tag, parent, field, depth);
      } else if n.RangeVar? {
        FingerprintStrings(RangeVarStrings(cache.env, n, parent, field));
      }
    }

    /** _fingerprintList */
    method FingerprintList(n: Node, parent: string, field: string, depth: nat)
      requires n.List? && depth < MAX_DEPTH && Ready(n, parent, field, depth)
      modifies this, cache
      ensures state == old(state) + NodeStream(cache.env, n, parent, field, depth)
      ensures TokensAdded(writeTokens, old(tokens), tokens, NodeStream(cache.env, n, parent, field, depth))
      ensures cache.Valid() && Grows(old(cache.entries), cache.entries, cache.places, depth)
      ensures Warm(NodeSites(n, parent, field, depth), cache.entries.Keys)
      ensures Paid(old(cache.visits), cache.visits, old(Warm(NodeSites(n, parent, field, depth), cache.entries.Keys)),
                   ItemVisits(n.items, depth + 1), NodeNest(n, field, depth))
      decreases n, 0, 3
    {
      hide ItemSites, ItemStreams, ItemVisits, ItemNest, SortDistinct, NodeStream, TokensAdded, CollisionFree, Located, ListsortCache.Valid;
      ghost var v, k := ItemVisits(n.items, depth + 1), ItemNest(n.items, field, depth + 1);
      assert Site(n.id, Place(n.items, parent, field, depth)) in NodeSites(n, parent, field, depth);
      hide NodeSites;
      if OrderInsensitive(field) {
        if n.id !in cache.entries {
          ItemsStartEmpty(cache.env, n, parent, field, depth, state);
          HashItems(n, parent, field, depth);
          assert v * (1 + k) + v == v * (1 + (k + 1));
        }
        EmitEntry(n, parent, field, depth);
      } else {
        EmitItems(n, parent, field, depth);
      }
    }

    /** Fingerprint every item on its own, in a fresh context, and remember the sorted digests. */
    method HashItems(n: Node, parent: string, field: string, depth: nat)
      requires n.List? && depth < MAX_DEPTH && cache.Valid() && n.id !in cache.entries
      requires Located(NodeSites(n, parent, field, depth), cache.places)
      requires forall i | 0 <= i < |n.items| :: CollisionFree(cache.env, n.items[i], parent, field, depth + 1, "")
      modifies cache
      ensures cache.Valid() && Grows(old(cache.entries), cache.entries, cache.places, depth) && n.id in cache.entries
      ensures cache.visits <= old(cache.visits) + ItemVisits(n.items, depth + 1) * (1 + ItemNest(n.items, field, depth + 1))
      decreases n, 0, 0
    {
      hide NodeStream, CollisionFree, NodeVisits, NodeNest, ItemVisits, ItemNest, Paid, TokensAdded, Warm, EntriesOk;
      hide ItemStreams, ItemSites, Grows, EntryOk;
      NoSites(cache.entries);
      var items := n.items;
      var listsortItems: seq<ListsortItem> := [];
      ghost var ss := ItemStreams(cache.env, items, parent, field, depth + 1);
      ghost var k, total := ItemNest(items, field, depth + 1), ItemVisits(items, depth + 1);
      ListIsSite(n, parent, field, depth, cache.places);
      hide NodeSites, Located;
      assert items[0..] == items;
      for i := 0 to |items|
        invariant |listsortItems| == i
        invariant forall j | 0 <= j < i :: listsortItems[j] == ListsortItem(cache.env.digest(ss[j]), j)
        invariant cache.Valid() && Grows(old(cache.entries), cache.entries, cache.places, depth + 1)
        invariant ItemsDoneWarm(items, i, parent, field, depth + 1, cache.entries.Keys)
        invariant Owes(old(cache.visits), cache.visits, ItemVisits(items[i..], depth + 1), total, k, false)
      {
        ghost var e0, v0 := cache.entries, cache.visits;
        ghost var w := Warm(NodeSites(items[i], parent, field, depth + 1), e0.Keys);
        ItemOf(items, parent, field, depth + 1, i);
        LocatedPart(NodeSites(items[i], parent, field, depth + 1), ItemSites(items, parent, field, depth + 1), cache.places);
        var fctx := new Context(cache, false);
        fctx.FingerprintNode(items[i], parent, field, depth + 1);
        assert "" + ss[i] == ss[i];
        listsortItems := listsortItems + [ListsortItem(cache.env.digest(fctx.state), i)];
        GrowsTwice(old(cache.entries), e0, cache.entries, cache.places, depth + 1);
        ItemsDoneStep(items, i, parent, field, depth + 1, e0, cache.entries, cache.places);
        OwesStep(items, field, depth + 1, i, old(cache.visits), v0, cache.visits, total, k, w, false);
      }
      assert listsortItems == ItemHashes(cache.env, ss);
      NothingOwed(items, depth + 1, old(cache.visits), cache.visits, total, k, false);
      var sorted := Qsort(listsortItems, (x: ListsortItem) => x.hash);
      HashesOk(cache.env, items, parent, field, depth, sorted);
      ItemsDoneAll(items, parent, field, depth + 1, cache.entries.Keys);
      NotDeeper(old(cache.entries), cache.entries, cache.places, depth, n.id);
      EntryAdded(n, parent, field, depth, sorted);
      ghost var e1 := cache.entries;
      GrowsDeeper(old(cache.entries), e1, cache.places, depth + 1, depth);
      cache.entries := cache.entries[n.id := sorted];
      GrowsTwice(old(cache.entries), e1, cache.entries, cache.places, depth);
    }

    lemma HashesOk(env: Env, items: seq<Node>, parent: string, field: string, depth: nat, sorted: seq<ListsortItem>)
      requires SortedBy(sorted, (x: ListsortItem) => x.hash)
      requires multiset(sorted) == multiset(ItemHashes(env, ItemStreams(env, items, parent, field, depth + 1)))
      ensures EntryOk(env, sorted, Place(items, parent, field, depth))
    {
    }

    lemma EntryAdded(n: Node, parent: string, field: string, depth: nat, sorted: seq<ListsortItem>)
      requires n.List? && cache.Valid() && n.id !in cache.entries
      requires n.id in cache.places && cache.places[n.id] == Place(n.items, parent, field, depth)
      requires EntryOk(cache.env, sorted, Place(n.items, parent, field, depth))
      requires Warm(ItemSites(n.items, parent, field, depth + 1), cache.entries.Keys)
      ensures EntriesOk(cache.env, cache.places, cache.entries[n.id := sorted])
      ensures Grows(cache.entries, cache.entries[n.id := sorted], cache.places, depth)
    {
      hide EntryOk, ItemSites;
    }

    /** Where the loop over an entry stands after i of its items. */
    ghost predicate EntryDone(n: Node, parent: string, field: string, depth: nat, entry: seq<ListsortItem>, i: nat,
                              state0: string, tokens0: seq<string>, entries0: map<nat, seq<ListsortItem>>, visits0: nat)
      requires n.List? && i <= |entry| && PositionsIn(entry, n.items)
      reads this, cache
    {
      var emitted := Flat(Emitted(entry, ItemStreams(cache.env, n.items, parent, field, depth + 1), i));
      && state == state0 + emitted
      && TokensAdded(writeTokens, tokens0, tokens, emitted)
      && cache.Valid() && Grows(entries0, cache.entries, cache.places, depth + 1)
      && PositionsIn(entry[i..], n.items)
      && cache.visits + EntryVisits(entry[i..], n.items, depth + 1) <= visits0 + EntryVisits(entry, n.items, depth + 1)
    }

    /** Emit one item, unless its digest was just emitted. */
    method EmitItem(n: Node, parent: string, field: string, depth: nat, entry: seq<ListsortItem>, i: nat,
                    ghost state0: string, ghost tokens0: seq<string>, ghost entries0: map<nat, seq<ListsortItem>>, ghost visits0: nat)
      requires n.List? && depth < MAX_DEPTH && OrderInsensitive(field) && i < |entry|
      requires EntryOk(cache.env, entry, Place(n.items, parent, field, depth)) && PositionsIn(entry, n.items)
      requires CollisionFree(cache.env, n, parent, field, depth, state0)
      requires Located(ItemSites(n.items, parent, field, depth + 1), cache.places)
      requires Warm(ItemSites(n.items, parent, field, depth + 1), entries0.Keys)
      requires EntryDone(n, parent, field, depth, entry, i, state0, tokens0, entries0, visits0)
      modifies this, cache
      ensures EntryDone(n, parent, field, depth, entry, i + 1, state0, tokens0, entries0, visits0)
      decreases n, 0, 0
    {
      hide NodeStream, NodeSites, ItemSites, ItemStreams, CollisionFree, NodeVisits, NodeNest, ItemVisits, EntryOk, ItemNest;
      hide Paid, TokensAdded, Warm, Located, EntriesOk, Grows, Emitted, EntryVisits, Flat;
      var pos := entry[i].pos;
      assert entry[i] in entry;
      ghost var ss := ItemStreams(cache.env, n.items, parent, field, depth + 1);
      assert forall k | 0 <= k < |entry| :: entry[k].pos < |ss| by {
        assert forall k | 0 <= k < |entry| :: entry[k] in entry;
      }
      EntryStep(entry, i, n.items, depth + 1);
      EmittedStep(entry, ss, i);
      if i > 0 && entry[i-1].hash == entry[i].hash {
        return;
      }
      ghost var e0, t0, v0, done := cache.entries, tokens, cache.visits, Flat(Emitted(entry, ss, i));
      ItemOf(n.items, parent, field, depth + 1, pos);
      ghost var part, sites := NodeSites(n.items[pos], parent, field, depth + 1), ItemSites(n.items, parent, field, depth + 1);
      LocatedPart(part, sites, cache.places);
      WarmPart(part, sites, entries0, e0, cache.places, depth + 1);
      EntryItemFree(cache.env, n, parent, field, depth, state0, entry, i);
      FingerprintNode(n.items[pos], parent, field, depth + 1);
      GrowsTwice(entries0, e0, cache.entries, cache.places, depth + 1);
      TokensAddedTwice(writeTokens, tokens0, t0, tokens, done, ss[pos]);
      Assoc(state0, done, ss[pos]);
      WarmPaid(cache.visits, NodeVisits(n.items[pos], depth + 1), NodeNest(n.items[pos], field, depth + 1));
    }

    lemma EntryStarts(n: Node, parent: string, field: string, depth: nat, entry: seq<ListsortItem>)
      requires n.List? && PositionsIn(entry, n.items) && cache.Valid()
      ensures EntryDone(n, parent, field, depth, entry, 0, state, tokens, cache.entries, cache.visits)
    {
      hide ItemStreams, TokensAdded, EntryVisits, EntriesOk, Grows;
      NothingAdded(writeTokens, tokens);
      NoSites(cache.entries);
      assert entry[0..] == entry;
      assert state + "" == state;
      assert Emitted(entry, ItemStreams(cache.env, n.items, parent, field, depth + 1), 0) == [] by {
        assert forall k | 0 <= k < |entry| :: entry[k] in entry;
      }
    }

    /** The loop over an entry. */
    method EmitAll(n: Node, parent: string, field: string, depth: nat, entry: seq<ListsortItem>)
      requires n.List? && depth < MAX_DEPTH && OrderInsensitive(field) && cache.Valid()
      requires EntryOk(cache.env, entry, Place(n.items, parent, field, depth)) && PositionsIn(entry, n.items)
      requires CollisionFree(cache.env, n, parent, field, depth, state)
      requires Located(ItemSites(n.items, parent, field, depth + 1), cache.places)
      requires Warm(ItemSites(n.items, parent, field, depth + 1), cache.entries.Keys)
      modifies this, cache
      ensures EntryDone(n, parent, field, depth, entry, |entry|, old(state), old(tokens), old(cache.entries), old(cache.visits))
      decreases n, 0, 1
    {
      hide *;
      EntryStarts(n, parent, field, depth, entry);
      for i := 0 to |entry|
        invariant EntryDone(n, parent, field, depth, entry, i, old(state), old(tokens), old(cache.entries), old(cache.visits))
      {
        EmitItem(n, parent, field, depth, entry, i, old(state), old(tokens), old(cache.entries), old(cache.visits));
      }
    }

    /** Emit the items by hash, one for each digest. */
    method EmitEntry(n: Node, parent: string, field: string, depth: nat)
      requires n.List? && depth < MAX_DEPTH && OrderInsensitive(field) && Ready(n, parent, field, depth)
      requires n.id in cache.entries
      modifies this, cache
      ensures state == old(state) + NodeStream(cache.env, n, parent, field, depth)
      ensures TokensAdded(writeTokens, old(tokens), tokens, NodeStream(cache.env, n, parent, field, depth))
      ensures cache.Valid() && Grows(old(cache.entries), cache.entries, cache.places, depth)
      ensures Warm(NodeSites(n, parent, field, depth), cache.entries.Keys)
      ensures cache.visits <= old(cache.visits) + ItemVisits(n.items, depth + 1)
      decreases n, 0, 2
    {
      hide NodeStream, NodeSites, ItemSites, ItemStreams, CollisionFree, ItemVisits, EntryOk, TokensAdded, Warm, Located;
      hide SortDistinct, InjectiveOn, Grows, PositionsIn, OrderInsensitive;
      var entry := cache.entries[n.id];
      ghost var place := Place(n.items, parent, field, depth);
      ListIsSite(n, parent, field, depth, cache.places);
      assert EntryOk(cache.env, entry, place) && Warm(ItemSites(n.items, parent, field, depth + 1), cache.entries.Keys);
      ListStream(cache.env, n, parent, field, depth, state);
      hide EntriesOk;
      EmittedIsSortDistinct(cache.env, entry, place);
      EntryVisitsAll(cache.env, entry, place);
      EmitAll(n, parent, field, depth, entry);
      hide Emitted, EntryVisits, Flat;
      GrowsDeeper(old(cache.entries), cache.entries, cache.places, depth + 1, depth);
      ListWarm(n, parent, field, depth, old(cache.entries), cache.entries, cache.places);
    }

    /** Emit the items in list order. */
    method EmitItems(n: Node, parent: string, field: string, depth: nat)
      requires n.List? && depth < MAX_DEPTH && !OrderInsensitive(field) && Ready(n, parent, field, depth)
      modifies this, cache
      ensures state == old(state) + NodeStream(cache.env, n, parent, field, depth)
      ensures TokensAdded(writeTokens, old(tokens), tokens, NodeStream(cache.env, n, parent, field, depth))
      ensures cache.Valid() && Grows(old(cache.entries), cache.entries, cache.places, depth)
      ensures Warm(NodeSites(n, parent, field, depth), cache.entries.Keys)
      ensures Paid(old(cache.visits), cache.visits, old(Warm(NodeSites(n, parent, field, depth), cache.entries.Keys)),
                   ItemVisits(n.items, depth + 1), ItemNest(n.items, field, depth + 1))
      decreases n, 0, 0
    {
      var items := n.items;
      ghost var ss := ItemStreams(cache.env, items, parent, field, depth + 1);
      ghost var sites := ItemSites(items, parent, field, depth + 1);
      ghost var k, total := ItemNest(items, field, depth + 1), ItemVisits(items, depth + 1);
      ghost var warm := Warm(sites, cache.entries.Keys);
      ListIsSite(n, parent, field, depth, cache.places);
      ListStream(cache.env, n, parent, field, depth, state);
      OrderedListWarm(n, parent, field, depth);
      hide NodeStream, NodeSites, ItemSites, CollisionFree, NodeVisits, NodeNest, ItemVisits, ItemNest;
      hide Paid, TokensAdded, Warm, Located, ListsortCache.Valid;
      NothingAdded(writeTokens, tokens);
      NoSites(cache.entries);
      assert items[0..] == items && ss[..|ss|] == ss;
      for i := 0 to |items|
        invariant state == old(state) + Flat(ss[..i])
        invariant TokensAdded(writeTokens, old(tokens), tokens, Flat(ss[..i]))
        invariant cache.Valid() && Grows(old(cache.entries), cache.entries, cache.places, depth + 1)
        invariant ItemsDoneWarm(items, i, parent, field, depth + 1, cache.entries.Keys)
        invariant Owes(old(cache.visits), cache.visits, ItemVisits(items[i..], depth + 1), total, k, warm)
      {
        ghost var e0, v0, t0 := cache.entries, cache.visits, tokens;
        ItemOf(items, parent, field, depth + 1, i);
        ghost var part := NodeSites(items[i], parent, field, depth + 1);
        ghost var w := Warm(part, e0.Keys);
        LocatedPart(part, sites, cache.places);
        if warm {
          WarmPart(part, sites, old(cache.entries), e0, cache.places, depth + 1);
        }
        FingerprintNode(items[i], parent, field, depth + 1);
        GrowsTwice(old(cache.entries), e0, cache.entries, cache.places, depth + 1);
        ItemsDoneStep(items, i, parent, field, depth + 1, e0, cache.entries, cache.places);
        OwesStep(items, field, depth + 1, i, old(cache.visits), v0, cache.visits, total, k, w, warm);
        FlatStep(ss, i);
        TokensAddedTwice(writeTokens, old(tokens), t0, tokens, Flat(ss[..i]), ss[i]);
        Assoc(old(state), Flat(ss[..i]), ss[i]);
      }
      NothingOwed(items, depth + 1, old(cache.visits), cache.visits, total, k, warm);
      ItemsDoneAll(items, parent, field, depth + 1, cache.entries.Keys);
      GrowsDeeper(old(cache.entries), cache.entries, cache.places, depth + 1, depth);
      OrderedListWarm(n, parent, field, depth);
    }

    /** Visiting an ordered list warms the cache exactly as visiting its items does. */
    lemma OrderedListWarm(n: Node, parent: string, field: string, depth: nat)
      requires n.List? && depth < MAX_DEPTH && !OrderInsensitive(field)
      ensures forall cached :: Warm(NodeSites(n, parent, field, depth), cached) <==> Warm(ItemSites(n.items, parent, field, depth + 1), cached)
    {
      hide ItemSites;
    }
  }
}
