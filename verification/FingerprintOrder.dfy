/** Sorting the items of an order-insensitive list by digest: the result depends on nothing but the
    set of their streams. */
module FingerprintOrder {
  import opened FingerprintStream
  import opened FingerprintCache

  lemma {:induction false} InsertProperties(env: Env, s: string, sorted: seq<string>)
    requires StrictlySorted(env, sorted)
    ensures StrictlySorted(env, Insert(env, s, sorted))
    ensures forall x | x in Insert(env, s, sorted) :: x == s || x in sorted
    ensures forall x | x in sorted :: x in Insert(env, s, sorted)
    ensures exists x :: x in Insert(env, s, sorted) && env.digest(x) == env.digest(s)
  {
    var r := Insert(env, s, sorted);
    if sorted == [] || env.digest(s) < env.digest(sorted[0]) {
      assert r[0] == s;
    } else if env.digest(s) == env.digest(sorted[0]) {
      assert sorted[0] in r;
    } else {
      var tail := sorted[1..];
      InsertProperties(env, s, tail);
      var t := Insert(env, s, tail);
      assert r == [sorted[0]] + t;
      forall x | x in sorted ensures x in r {
        if x != sorted[0] { assert x in tail; }
      }
      forall j | 0 <= j < |t| ensures env.digest(sorted[0]) < env.digest(t[j]) {
        assert t[j] in t;
      }
      var x :| x in t && env.digest(x) == env.digest(s);
      assert x in r;
    }
  }

  lemma {:induction false} SortDistinctProperties(env: Env, ss: seq<string>)
    ensures StrictlySorted(env, SortDistinct(env, ss))
    ensures forall x | x in SortDistinct(env, ss) :: x in ss
    ensures InjectiveOn(env, ss) ==> forall x | x in ss :: x in SortDistinct(env, ss)
  {
    if ss != [] {
      var rest := SortDistinct(env, ss[1..]);
      SortDistinctProperties(env, ss[1..]);
      InsertProperties(env, ss[0], rest);
      if InjectiveOn(env, ss) {
        var r := SortDistinct(env, ss);
        var y :| y in r && env.digest(y) == env.digest(ss[0]);
        assert y in ss;
        assert y == ss[0];
        forall x | x in ss ensures x in r {
          if x != ss[0] { assert x in ss[1..]; }
        }
      }
    }
  }

  predicate SameElements(a: seq<string>, b: seq<string>) {
    (forall x | x in a :: x in b) && (forall x | x in b :: x in a)
  }

  lemma SameElementsEmpty(a: seq<string>, b: seq<string>)
    requires SameElements(a, b)
    ensures a == [] <==> b == []
  {
    if a != [] { assert a[0] in a; }
    if b != [] { assert b[0] in b; }
  }

  /** There is only one way to list a set in strictly increasing digest order. */
  lemma {:induction false} StrictlySortedUnique(env: Env, a: seq<string>, b: seq<string>)
    requires StrictlySorted(env, a) && StrictlySorted(env, b) && SameElements(a, b)
    ensures a == b
  {
    SameElementsEmpty(a, b);
    if a != [] {
      assert a[0] in a && a[0] in b;
      assert b[0] in b && b[0] in a;
      assert a[0] == b[0];
      forall x | x in a[1..] ensures x in b[1..] {
        TailElement(env, a, x);
        assert x in b && x != b[0];
      }
      forall x | x in b[1..] ensures x in a[1..] {
        TailElement(env, b, x);
        assert x in a && x != a[0];
      }
      StrictlySortedUnique(env, a[1..], b[1..]);
    }
  }

  lemma TailElement(env: Env, a: seq<string>, x: string)
    requires StrictlySorted(env, a) && a != [] && x in a[1..]
    ensures x in a && x != a[0]
  {
    var i :| 0 <= i < |a[1..]| && a[1..][i] == x;
    assert env.digest(a[0]) < env.digest(a[i + 1]);
  }

  /** The stream of an order-insensitive list depends only on the set of its items' streams: permuting
      the items and repeating them changes nothing. */
  lemma SetOfStreamsDecides(env: Env, a: seq<string>, b: seq<string>)
    requires SameElements(a, b) && InjectiveOn(env, a)
    ensures SortDistinct(env, a) == SortDistinct(env, b)
  {
    forall i, j | 0 <= i < |b| && 0 <= j < |b| && env.digest(b[i]) == env.digest(b[j]) ensures b[i] == b[j] {
      assert b[i] in b && b[j] in b;
      assert b[i] in a && b[j] in a;
    }
    SortDistinctProperties(env, a);
    SortDistinctProperties(env, b);
    StrictlySortedUnique(env, SortDistinct(env, a), SortDistinct(env, b));
  }

  // ---------- What is emitted from an entry ----------

  lemma {:induction false} EmittedProperties(env: Env, entry: seq<ListsortItem>, ss: seq<string>, n: nat)
    requires n <= |entry| && SortedByHash(entry) && InjectiveOn(env, ss)
    requires forall k | 0 <= k < |entry| :: entry[k].pos < |ss| && entry[k].hash == env.digest(ss[entry[k].pos])
    ensures var em := Emitted(entry, ss, n);
            && StrictlySorted(env, em)
            && (n > 0 ==> em != [] && env.digest(em[|em|-1]) == entry[n-1].hash)
            && (forall x | x in em :: x in ss)
            && (forall k | 0 <= k < n :: ss[entry[k].pos] in em)
    decreases n
  {
    if n > 0 {
      EmittedProperties(env, entry, ss, n - 1);
      var before, em := Emitted(entry, ss, n - 1), Emitted(entry, ss, n);
      var s := ss[entry[n-1].pos];
      if n > 1 && entry[n-2].hash == entry[n-1].hash {
        assert before[|before|-1] in ss;
        assert s == before[|before|-1];
      } else {
        assert em == before + [s];
        if before != [] {
          assert entry[n-2].hash < entry[n-1].hash;
        }
        forall k | 0 <= k < n ensures ss[entry[k].pos] in em {
          if k < n - 1 { assert ss[entry[k].pos] in before; }
        }
      }
    }
  }

  /** Whatever order the sort leaves equal hashes in, the same streams are emitted. */
  lemma EmittedIsSortDistinct(env: Env, entry: seq<ListsortItem>, place: Place)
    requires EntryOk(env, entry, place)
    requires InjectiveOn(env, ItemStreams(env, place.items, place.parent, place.field, place.depth + 1))
    ensures forall k | 0 <= k < |entry| :: entry[k].pos < |place.items|
    ensures var ss := ItemStreams(env, place.items, place.parent, place.field, place.depth + 1);
            Emitted(entry, ss, |entry|) == SortDistinct(env, ss)
  {
    var ss := ItemStreams(env, place.items, place.parent, place.field, place.depth + 1);
    EntryElements(env, entry, place);
    EmittedProperties(env, entry, ss, |entry|);
    SortDistinctProperties(env, ss);
    var em := Emitted(entry, ss, |entry|);
    forall x | x in ss ensures x in em {
      var i :| 0 <= i < |ss| && ss[i] == x;
      assert ListsortItem(env.digest(ss[i]), i) in entry;
      var k :| 0 <= k < |entry| && entry[k] == ListsortItem(env.digest(ss[i]), i);
      assert ss[entry[k].pos] in em;
    }
    StrictlySortedUnique(env, em, SortDistinct(env, ss));
  }

  lemma {:induction false} EmittedPrefix(entry: seq<ListsortItem>, ss: seq<string>, m: nat, n: nat)
    requires m <= n <= |entry| && forall k | 0 <= k < |entry| :: entry[k].pos < |ss|
    ensures Emitted(entry, ss, m) <= Emitted(entry, ss, n)
    decreases n
  {
    if m < n {
      EmittedPrefix(entry, ss, m, n - 1);
    }
  }
}
