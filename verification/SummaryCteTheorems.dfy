/** The summary's walk finds the relations that the scoping rules give, if names of WITH queries are
    distinct, exactly when they are used only where they are visible. */
module SummaryCteTheorems {
  import opened SummaryCte

  predicate Distinct(names: seq<string>) {
    forall i, j | 0 <= i < j < |names| :: names[i] != names[j]
  }

  predicate UniqueIds(refs: seq<Ref>) {
    forall i, j | 0 <= i < j < |refs| :: refs[i].id != refs[j].id
  }

  // ---------- The walk, name by name ----------

  /** References inside the definitions of queries of their name, if no name was known before. */
  function FreshSelfRefs(recursive: bool, ctes: seq<Cte>): seq<nat> {
    if ctes == [] then []
    else (if !recursive then Named(AllRefs(ctes[0].query), ctes[0].name) else []) + FreshSelfRefs(recursive, ctes[1..])
  }

  function OwnSelf(q: Query): seq<nat>
    decreases q, 1
  {
    FreshSelfRefs(q.recursive, q.ctes) + SubSelf(q.subs) + CteSelf(q.ctes)
  }

  function SubSelf(subs: seq<Query>): seq<nat>
    decreases subs, 0
  {
    if subs == [] then [] else OwnSelf(subs[0]) + SubSelf(subs[1..])
  }

  function CteSelf(ctes: seq<Cte>): seq<nat>
    decreases ctes, 0
  {
    if ctes == [] then [] else OneCteSelf(ctes[0]) + CteSelf(ctes[1..])
  }

  function OneCteSelf(c: Cte): seq<nat>
    decreases c, 1
  {
    OwnSelf(c.query)
  }

  lemma DistinctParts(a: seq<string>, b: seq<string>)
    requires Distinct(a + b)
    ensures Distinct(a) && Distinct(b) && forall x | x in b :: x !in a
  {
    forall i, j | 0 <= i < j < |a| ensures a[i] != a[j] {
      assert (a + b)[i] == a[i] && (a + b)[j] == a[j];
    }
    forall i, j | 0 <= i < j < |b| ensures b[i] != b[j] {
      assert (a + b)[|a| + i] == b[i] && (a + b)[|a| + j] == b[j];
    }
    forall i, j | 0 <= i < |a| && 0 <= j < |b| ensures a[i] != b[j] {
      assert (a + b)[i] == a[i] && (a + b)[|a| + j] == b[j];
    }
  }

  lemma {:induction false} SelfRefsFresh(recursive: bool, ctes: seq<Cte>, names: seq<string>)
    requires Distinct(names + OwnNames(ctes))
    ensures SelfRefs(recursive, ctes, names) == FreshSelfRefs(recursive, ctes)
  {
    hide AllRefs, Named;
    if ctes != [] {
      DistinctParts(names, OwnNames(ctes));
      assert OwnNames(ctes)[0] in OwnNames(ctes);
      assert names + [ctes[0].name] + OwnNames(ctes[1..]) == names + OwnNames(ctes);
      SelfRefsFresh(recursive, ctes[1..], names + [ctes[0].name]);
    }
  }

  predicate Adds(s: State, s': State, names: seq<string>, selfRefs: seq<nat>, refs: seq<Ref>) {
    s' == State(s.names + names, s.selfRefs + selfRefs, s.rangeVars + refs)
  }

  lemma AddsTwice(s: State, s1: State, s2: State, n1: seq<string>, f1: seq<nat>, r1: seq<Ref>, n2: seq<string>, f2: seq<nat>, r2: seq<Ref>)
    requires Adds(s, s1, n1, f1, r1) && Adds(s1, s2, n2, f2, r2)
    ensures Adds(s, s2, n1 + n2, f1 + f2, r1 + r2)
  {
  }

  lemma AddsNothing(s: State)
    ensures Adds(s, s, [], [], [])
  {
  }

  lemma {:induction false} WalkAdds(q: Query, s: State)
    requires Distinct(s.names + AllNames(q))
    ensures Adds(s, Walk(q, s), AllNames(q), OwnSelf(q), AllRefs(q))
    decreases q, 1
  {
    var own, subs, ctes := OwnNames(q.ctes), SubNames(q.subs), CteNames(q.ctes);
    var s1 := State(s.names + own, s.selfRefs + SelfRefs(q.recursive, q.ctes, s.names), s.rangeVars + q.refs);
    var s2 := WalkSubs(q.subs, s1);
    assert s.names + AllNames(q) == (s.names + own) + (subs + ctes) == (s.names + own + subs) + ctes;
    DistinctParts(s.names + own, subs + ctes);
    DistinctParts(s.names + own + subs, ctes);
    SelfRefsFresh(q.recursive, q.ctes, s.names);
    WalkSubsAdds(q.subs, s1);
    WalkCtesAdds(q.ctes, s2);
    hide WalkSubs, WalkCtes, SelfRefs, FreshSelfRefs, SubSelf, CteSelf, SubRefs, CteRefs, SubNames, CteNames, OwnNames, Distinct;
    assert Adds(s, s1, own, FreshSelfRefs(q.recursive, q.ctes), q.refs);
    AddsTwice(s, s1, s2, own, FreshSelfRefs(q.recursive, q.ctes), q.refs, subs, SubSelf(q.subs), SubRefs(q.subs));
    AddsTwice(s, s2, WalkCtes(q.ctes, s2), own + subs, FreshSelfRefs(q.recursive, q.ctes) + SubSelf(q.subs), q.refs + SubRefs(q.subs),
              ctes, CteSelf(q.ctes), CteRefs(q.ctes));
  }

  lemma {:induction false} WalkSubsAdds(subs: seq<Query>, s: State)
    requires Distinct(s.names + SubNames(subs))
    ensures Adds(s, WalkSubs(subs, s), SubNames(subs), SubSelf(subs), SubRefs(subs))
    decreases subs, 0
  {
    hide Walk, AllNames, OwnSelf, AllRefs;
    AddsNothing(s);
    if subs != [] {
      var first, rest := AllNames(subs[0]), SubNames(subs[1..]);
      assert s.names + SubNames(subs) == (s.names + first) + rest;
      DistinctParts(s.names + first, rest);
      WalkAdds(subs[0], s);
      WalkSubsAdds(subs[1..], Walk(subs[0], s));
      AddsTwice(s, Walk(subs[0], s), WalkSubs(subs, s), first, OwnSelf(subs[0]), AllRefs(subs[0]), rest, SubSelf(subs[1..]), SubRefs(subs[1..]));
    }
  }

  lemma {:induction false} WalkCtesAdds(ctes: seq<Cte>, s: State)
    requires Distinct(s.names + CteNames(ctes))
    ensures Adds(s, WalkCtes(ctes, s), CteNames(ctes), CteSelf(ctes), CteRefs(ctes))
    decreases ctes, 0
  {
    hide WalkCte, OneCteNames, OneCteSelf, OneCteRefs;
    AddsNothing(s);
    if ctes != [] {
      var first, rest := OneCteNames(ctes[0]), CteNames(ctes[1..]);
      assert s.names + CteNames(ctes) == (s.names + first) + rest;
      DistinctParts(s.names + first, rest);
      WalkCteAdds(ctes[0], s);
      WalkCtesAdds(ctes[1..], WalkCte(ctes[0], s));
      AddsTwice(s, WalkCte(ctes[0], s), WalkCtes(ctes, s), first, OneCteSelf(ctes[0]), OneCteRefs(ctes[0]), rest, CteSelf(ctes[1..]), CteRefs(ctes[1..]));
    }
  }

  lemma {:induction false} WalkCteAdds(c: Cte, s: State)
    requires Distinct(s.names + OneCteNames(c))
    ensures Adds(s, WalkCte(c, s), OneCteNames(c), OneCteSelf(c), OneCteRefs(c))
    decreases c, 1
  {
    hide Walk, AllNames, OwnSelf, AllRefs;
    WalkAdds(c.query, s);
  }

  // ---------- Sightings are the references in order ----------

  predicate SameRefs(ss: seq<Sighting>, refs: seq<Ref>) {
    |ss| == |refs| && forall i | 0 <= i < |ss| :: ss[i].ref == refs[i]
  }

  lemma SameRefsAppend(a: seq<Sighting>, b: seq<Sighting>, ra: seq<Ref>, rb: seq<Ref>)
    requires SameRefs(a, ra) && SameRefs(b, rb)
    ensures SameRefs(a + b, ra + rb)
  {
  }

  lemma {:induction false} SightingRefs(q: Query, scope: set<string>, inside: set<string>)
    ensures SameRefs(Sightings(q, scope, inside), AllRefs(q))
    decreases q, 1
  {
    var all := scope + Set(OwnNames(q.ctes));
    var inner := if q.recursive then all else scope;
    SubSightingRefs(q.subs, all, inside);
    CteSightingRefs(q.recursive, q.ctes, inner, inside);
    hide SubSightings, CteSightings, SubRefs, CteRefs;
    SameRefsAppend(See(q.refs, all, inside), SubSightings(q.subs, all, inside), q.refs, SubRefs(q.subs));
    SameRefsAppend(See(q.refs, all, inside) + SubSightings(q.subs, all, inside), CteSightings(q.recursive, q.ctes, inner, inside),
                   q.refs + SubRefs(q.subs), CteRefs(q.ctes));
  }

  lemma {:induction false} SubSightingRefs(subs: seq<Query>, scope: set<string>, inside: set<string>)
    ensures SameRefs(SubSightings(subs, scope, inside), SubRefs(subs))
    decreases subs, 0
  {
    hide Sightings, AllRefs;
    if subs != [] {
      SightingRefs(subs[0], scope, inside);
      SubSightingRefs(subs[1..], scope, inside);
      SameRefsAppend(Sightings(subs[0], scope, inside), SubSightings(subs[1..], scope, inside), AllRefs(subs[0]), SubRefs(subs[1..]));
    }
  }

  lemma {:induction false} CteSightingRefs(recursive: bool, ctes: seq<Cte>, scope: set<string>, inside: set<string>)
    ensures SameRefs(CteSightings(recursive, ctes, scope, inside), CteRefs(ctes))
    decreases ctes, 0
  {
    hide OneCteSightings, OneCteRefs;
    if ctes != [] {
      var within := if recursive then inside else inside + {ctes[0].name};
      OneCteSightingRefs(ctes[0], scope, within);
      CteSightingRefs(recursive, ctes[1..], scope + {ctes[0].name}, inside);
      SameRefsAppend(OneCteSightings(ctes[0], scope, within), CteSightings(recursive, ctes[1..], scope + {ctes[0].name}, inside),
                     OneCteRefs(ctes[0]), CteRefs(ctes[1..]));
    }
  }

  lemma {:induction false} OneCteSightingRefs(c: Cte, scope: set<string>, inside: set<string>)
    ensures SameRefs(OneCteSightings(c, scope, inside), OneCteRefs(c))
    decreases c, 1
  {
    SightingRefs(c.query, scope, inside);
  }

  lemma SeenRef(ss: seq<Sighting>, refs: seq<Ref>, x: Sighting)
    requires SameRefs(ss, refs) && x in ss
    ensures x.ref in refs
  {
    var i :| 0 <= i < |ss| && ss[i] == x;
    assert refs[i] == x.ref;
  }

  // ---------- References inside their own definition ----------

  /** Do some of these references have this id? */
  predicate HasId(refs: seq<Ref>, id: nat) {
    exists r :: r in refs && r.id == id
  }

  lemma UniqueParts(a: seq<Ref>, b: seq<Ref>)
    requires UniqueIds(a + b)
    ensures UniqueIds(a) && UniqueIds(b) && forall id | HasId(a, id) :: !HasId(b, id)
  {
    forall i, j | 0 <= i < j < |a| ensures a[i].id != a[j].id {
      assert (a + b)[i] == a[i] && (a + b)[j] == a[j];
    }
    forall i, j | 0 <= i < j < |b| ensures b[i].id != b[j].id {
      assert (a + b)[|a| + i] == b[i] && (a + b)[|a| + j] == b[j];
    }
    forall i, j | 0 <= i < |a| && 0 <= j < |b| ensures a[i].id != b[j].id {
      assert (a + b)[i] == a[i] && (a + b)[|a| + j] == b[j];
    }
  }

  lemma {:induction false} NamedIds(refs: seq<Ref>, name: string)
    ensures forall id :: id in Named(refs, name) <==> exists r :: r in refs && r.id == id && IsPlain(r, name)
  {
    if refs != [] {
      NamedIds(refs[1..], name);
      assert refs == [refs[0]] + refs[1..];
    }
  }

  lemma NamedByUnique(refs: seq<Ref>, name: string, r: Ref)
    requires UniqueIds(refs) && r in refs
    ensures r.id in Named(refs, name) <==> IsPlain(r, name)
  {
    NamedIds(refs, name);
    var i :| 0 <= i < |refs| && refs[i] == r;
    forall r' | r' in refs && r'.id == r.id ensures r' == r {
      var j :| 0 <= j < |refs| && refs[j] == r';
    }
  }

  lemma {:induction false} SelfInside(q: Query)
    ensures forall id | id in OwnSelf(q) :: HasId(SubRefs(q.subs), id) || HasId(CteRefs(q.ctes), id)
    ensures forall id | id in OwnSelf(q) :: HasId(AllRefs(q), id)
    decreases q, 1
  {
    SubSelfInside(q.subs);
    CteSelfInside(q.ctes);
    FreshInside(q.recursive, q.ctes);
    hide FreshSelfRefs, SubSelf, CteSelf, SubRefs, CteRefs;
  }

  lemma {:induction false} SubSelfInside(subs: seq<Query>)
    ensures forall id | id in SubSelf(subs) :: HasId(SubRefs(subs), id)
    decreases subs, 0
  {
    hide OwnSelf, AllRefs;
    if subs != [] {
      SelfInside(subs[0]);
      SubSelfInside(subs[1..]);
    }
  }

  lemma {:induction false} CteSelfInside(ctes: seq<Cte>)
    ensures forall id | id in CteSelf(ctes) :: HasId(CteRefs(ctes), id)
    decreases ctes, 0
  {
    hide OneCteSelf, OneCteRefs;
    if ctes != [] {
      OneCteSelfInside(ctes[0]);
      CteSelfInside(ctes[1..]);
    }
  }

  lemma {:induction false} OneCteSelfInside(c: Cte)
    ensures forall id | id in OneCteSelf(c) :: HasId(OneCteRefs(c), id)
    decreases c, 1
  {
    hide OwnSelf, AllRefs;
    SelfInside(c.query);
  }

  lemma {:induction false} FreshInside(recursive: bool, ctes: seq<Cte>)
    ensures forall id | id in FreshSelfRefs(recursive, ctes) :: HasId(CteRefs(ctes), id)
    decreases ctes, 0
  {
    hide AllRefs, Named;
    if ctes != [] {
      NamedIds(AllRefs(ctes[0].query), ctes[0].name);
      FreshInside(recursive, ctes[1..]);
      assert OneCteRefs(ctes[0]) == AllRefs(ctes[0].query);
    }
  }

  /** A reference is recorded exactly when it stands inside a definition of its name. */
  lemma {:induction false} OwnIffRecorded(q: Query, scope: set<string>, inside: set<string>, x: Sighting)
    requires UniqueIds(AllRefs(q)) && x in Sightings(q, scope, inside)
    ensures x.own <==> x.ref.schema.None? && (x.ref.name in inside || x.ref.id in OwnSelf(q))
    ensures HasId(AllRefs(q), x.ref.id)
    decreases q, 2
  {
    var all := scope + Set(OwnNames(q.ctes));
    var inner := if q.recursive then all else scope;
    var subRefs, cteRefs := SubRefs(q.subs), CteRefs(q.ctes);
    assert AllRefs(q) == q.refs + subRefs + cteRefs == q.refs + (subRefs + cteRefs);
    UniqueParts(q.refs + subRefs, cteRefs);
    UniqueParts(q.refs, subRefs + cteRefs);
    UniqueParts(q.refs, subRefs);
    SubSelfInside(q.subs);
    CteSelfInside(q.ctes);
    FreshInside(q.recursive, q.ctes);
    hide SubSightings, CteSightings, SubRefs, CteRefs, FreshSelfRefs, SubSelf, CteSelf, UniqueIds;
    HasIdAppend(q.refs, subRefs, x.ref.id);
    HasIdAppend(q.refs + subRefs, cteRefs, x.ref.id);
    if x in See(q.refs, all, inside) {
      var i :| 0 <= i < |q.refs| && See(q.refs, all, inside)[i] == x;
      assert HasId(q.refs, x.ref.id) by { assert q.refs[i] in q.refs; }
      HasIdAppend(subRefs, cteRefs, x.ref.id);
    } else if x in SubSightings(q.subs, all, inside) {
      SubOwnIffRecorded(q.subs, all, inside, x);
    } else {
      assert x in CteSightings(q.recursive, q.ctes, inner, inside);
      CteOwnIffRecorded(q.recursive, q.ctes, inner, inside, x);
    }
  }

  lemma HasIdAppend(a: seq<Ref>, b: seq<Ref>, id: nat)
    ensures HasId(a + b, id) <==> HasId(a, id) || HasId(b, id)
  {
  }

  lemma {:induction false} SubOwnIffRecorded(subs: seq<Query>, scope: set<string>, inside: set<string>, x: Sighting)
    requires UniqueIds(SubRefs(subs)) && x in SubSightings(subs, scope, inside)
    ensures x.own <==> x.ref.schema.None? && (x.ref.name in inside || x.ref.id in SubSelf(subs))
    ensures HasId(SubRefs(subs), x.ref.id)
    decreases subs, 0
  {
    hide Sightings, AllRefs, OwnSelf;
    var first, rest := AllRefs(subs[0]), SubRefs(subs[1..]);
    UniqueParts(first, rest);
    SelfInside(subs[0]);
    SubSelfInside(subs[1..]);
    HasIdAppend(first, rest, x.ref.id);
    hide UniqueIds;
    if x in Sightings(subs[0], scope, inside) {
      OwnIffRecorded(subs[0], scope, inside, x);
    } else {
      SubOwnIffRecorded(subs[1..], scope, inside, x);
    }
  }

  lemma {:induction false} CteOwnIffRecorded(recursive: bool, ctes: seq<Cte>, scope: set<string>, inside: set<string>, x: Sighting)
    requires UniqueIds(CteRefs(ctes)) && x in CteSightings(recursive, ctes, scope, inside)
    ensures x.own <==> x.ref.schema.None? && (x.ref.name in inside || x.ref.id in FreshSelfRefs(recursive, ctes) || x.ref.id in CteSelf(ctes))
    ensures HasId(CteRefs(ctes), x.ref.id)
    decreases ctes, 0
  {
    hide OneCteSightings, OneCteRefs, OneCteSelf, AllRefs, Named;
    var first, rest := OneCteRefs(ctes[0]), CteRefs(ctes[1..]);
    var within := if recursive then inside else inside + {ctes[0].name};
    UniqueParts(first, rest);
    OneCteSelfInside(ctes[0]);
    CteSelfInside(ctes[1..]);
    FreshInside(recursive, ctes[1..]);
    HasIdAppend(first, rest, x.ref.id);
    OneCteRefsAre(ctes[0]);
    NamedIds(first, ctes[0].name);
    if x in OneCteSightings(ctes[0], scope, within) {
      OneCteOwnIffRecorded(ctes[0], scope, within, x);
      OneCteSightingRefs(ctes[0], scope, within);
      SeenRef(OneCteSightings(ctes[0], scope, within), first, x);
      NamedByUnique(first, ctes[0].name, x.ref);
    } else {
      CteOwnIffRecorded(recursive, ctes[1..], scope + {ctes[0].name}, inside, x);
      assert !HasId(first, x.ref.id);
    }
  }

  lemma OneCteRefsAre(c: Cte)
    ensures OneCteRefs(c) == AllRefs(c.query)
  {
  }

  lemma {:induction false} OneCteOwnIffRecorded(c: Cte, scope: set<string>, inside: set<string>, x: Sighting)
    requires UniqueIds(OneCteRefs(c)) && x in OneCteSightings(c, scope, inside)
    ensures x.own <==> x.ref.schema.None? && (x.ref.name in inside || x.ref.id in OneCteSelf(c))
    decreases c, 3
  {
    OwnIffRecorded(c.query, scope, inside, x);
  }

  // ---------- With distinct names nothing is visible inside its own definition ----------

  lemma {:induction false} OwnIsNotVisible(q: Query, scope: set<string>, inside: set<string>, x: Sighting)
    requires Distinct(AllNames(q)) && x in Sightings(q, scope, inside)
    requires scope !! inside && scope !! Set(AllNames(q)) && inside !! Set(AllNames(q))
    ensures !(x.own && x.visible) && (x.visible ==> x.ref.name in scope + Set(AllNames(q)))
    decreases q, 2
  {
    var own, subs, ctes := OwnNames(q.ctes), SubNames(q.subs), CteNames(q.ctes);
    var all := scope + Set(own);
    var inner := if q.recursive then all else scope;
    assert AllNames(q) == own + subs + ctes == own + (subs + ctes);
    DistinctParts(own + subs, ctes);
    DistinctParts(own, subs + ctes);
    DistinctParts(own, subs);
    assert Set(AllNames(q)) == Set(own) + Set(subs) + Set(ctes);
    hide SubSightings, CteSightings, SubNames, CteNames, Distinct;
    if x in See(q.refs, all, inside) {
    } else if x in SubSightings(q.subs, all, inside) {
      SubOwnIsNotVisible(q.subs, all, inside, x);
    } else {
      assert x in CteSightings(q.recursive, q.ctes, inner, inside);
      CteOwnIsNotVisible(q.recursive, q.ctes, inner, inside, x);
    }
  }

  lemma {:induction false} SubOwnIsNotVisible(subs: seq<Query>, scope: set<string>, inside: set<string>, x: Sighting)
    requires Distinct(SubNames(subs)) && x in SubSightings(subs, scope, inside)
    requires scope !! inside && scope !! Set(SubNames(subs)) && inside !! Set(SubNames(subs))
    ensures !(x.own && x.visible) && (x.visible ==> x.ref.name in scope + Set(SubNames(subs)))
    decreases subs, 0
  {
    hide Sightings, AllNames;
    var first, rest := AllNames(subs[0]), SubNames(subs[1..]);
    DistinctParts(first, rest);
    assert Set(SubNames(subs)) == Set(first) + Set(rest);
    hide Distinct;
    if x in Sightings(subs[0], scope, inside) {
      OwnIsNotVisible(subs[0], scope, inside, x);
    } else {
      SubOwnIsNotVisible(subs[1..], scope, inside, x);
    }
  }

  /** Where a WITH query stands among the others: before those that are not in scope. */
  lemma {:induction false} CteOwnIsNotVisible(recursive: bool, ctes: seq<Cte>, scope: set<string>, inside: set<string>, x: Sighting)
    requires Distinct(CteNames(ctes)) && Distinct(OwnNames(ctes)) && x in CteSightings(recursive, ctes, scope, inside)
    requires Set(OwnNames(ctes)) !! Set(CteNames(ctes)) && inside !! Set(OwnNames(ctes))
    requires if recursive then Set(OwnNames(ctes)) <= scope else scope !! Set(OwnNames(ctes))
    requires scope !! inside && scope !! Set(CteNames(ctes)) && inside !! Set(CteNames(ctes))
    ensures !(x.own && x.visible) && (x.visible ==> x.ref.name in scope + Set(OwnNames(ctes)) + Set(CteNames(ctes)))
    decreases ctes, 0
  {
    hide OneCteSightings, OneCteNames;
    var name := ctes[0].name;
    var first, rest := OneCteNames(ctes[0]), CteNames(ctes[1..]);
    var within := if recursive then inside else inside + {name};
    DistinctParts(first, rest);
    assert OwnNames(ctes) == [name] + OwnNames(ctes[1..]);
    DistinctParts([name], OwnNames(ctes[1..]));
    assert Set(CteNames(ctes)) == Set(first) + Set(rest);
    assert Set(OwnNames(ctes)) == {name} + Set(OwnNames(ctes[1..]));
    hide Distinct;
    if x in OneCteSightings(ctes[0], scope, within) {
      OneCteOwnIsNotVisible(ctes[0], scope, within, x);
    } else {
      CteOwnIsNotVisible(recursive, ctes[1..], scope + {name}, inside, x);
    }
  }

  lemma {:induction false} OneCteOwnIsNotVisible(c: Cte, scope: set<string>, inside: set<string>, x: Sighting)
    requires Distinct(OneCteNames(c)) && x in OneCteSightings(c, scope, inside)
    requires scope !! inside && scope !! Set(OneCteNames(c)) && inside !! Set(OneCteNames(c))
    ensures !(x.own && x.visible) && (x.visible ==> x.ref.name in scope + Set(OneCteNames(c)))
    decreases c, 3
  {
    OwnIsNotVisible(c.query, scope, inside, x);
  }

  // ---------- Main result ----------

  lemma {:induction false} TablesAre(s: State, refs: seq<Ref>, ss: seq<Sighting>)
    requires SameRefs(ss, refs) && forall x | x in ss :: IsCteReference(s, x.ref) == ResolvesToCte(x)
    ensures Tables(s, refs) == Relations(ss)
  {
    if refs != [] {
      assert ss[0] in ss;
      assert forall x | x in ss[1..] :: x in ss;
      TablesAre(s, refs[1..], ss[1..]);
    }
  }

  lemma {:induction false} NotInTables(s: State, refs: seq<Ref>, r: Ref)
    requires IsCteReference(s, r)
    ensures r !in Tables(s, refs)
  {
    if refs != [] {
      NotInTables(s, refs[1..], r);
    }
  }

  lemma {:induction false} InRelations(ss: seq<Sighting>, x: Sighting)
    requires x in ss && !ResolvesToCte(x)
    ensures x.ref in Relations(ss)
  {
    if x != ss[0] {
      assert x in ss[1..];
      InRelations(ss[1..], x);
    }
  }

  /** With distinct names, the walk and the scoping rules take a reference for a WITH query under the
      same condition, unless it is a misplaced name. */
  lemma SameResolution(q: Query, x: Sighting)
    requires Distinct(AllNames(q)) && UniqueIds(AllRefs(q)) && x in Sightings(q, {}, {})
    ensures var s := Walk(q, State([], [], []));
            IsCteReference(s, x.ref) == ResolvesToCte(x) <==>
            (x.ref.context == InSelect && x.ref.schema.None? && x.ref.name in AllNames(q) ==> x.visible || x.own)
  {
    hide Walk, Sightings, AllNames, AllRefs, OwnSelf, Distinct, UniqueIds;
    assert [] + AllNames(q) == AllNames(q);
    WalkAdds(q, State([], [], []));
    OwnIffRecorded(q, {}, {}, x);
    OwnIsNotVisible(q, {}, {}, x);
  }

  /** The relations that the summary reports are those that the scoping rules give if and only if names
      of WITH queries are used only where they are visible, definitions that are not recursive aside. */
  lemma SummaryIsResolution(q: Query)
    requires Distinct(AllNames(q)) && UniqueIds(AllRefs(q))
    ensures var s := Walk(q, State([], [], [])); Tables(s, s.rangeVars) == Resolve(q) <==> UsedWhereVisible(q)
  {
    hide Walk, Sightings, AllNames, AllRefs, OwnSelf, Distinct, UniqueIds;
    var s, ss := Walk(q, State([], [], [])), Sightings(q, {}, {});
    assert [] + AllNames(q) == AllNames(q);
    WalkAdds(q, State([], [], []));
    assert s.rangeVars == AllRefs(q);
    SightingRefs(q, {}, {});
    forall x | x in ss
      ensures IsCteReference(s, x.ref) == ResolvesToCte(x) <==>
              (x.ref.context == InSelect && x.ref.schema.None? && x.ref.name in AllNames(q) ==> x.visible || x.own)
    {
      SameResolution(q, x);
    }
    if UsedWhereVisible(q) {
      TablesAre(s, s.rangeVars, ss);
    } else {
      var x :| x in ss && x.ref.context == InSelect && x.ref.schema.None? && x.ref.name in AllNames(q) && !x.visible && !x.own;
      NotInTables(s, s.rangeVars, x.ref);
      InRelations(ss, x);
    }
  }

  /** SELECT FROM a, (WITH a AS (SELECT) SELECT): a is a relation, and the summary, which has collected the
      name by the time it looks at a, reports none. */
  lemma NameCollectedElsewhere() returns (q: Query)
    ensures Distinct(AllNames(q)) && UniqueIds(AllRefs(q)) && !UsedWhereVisible(q)
    ensures Resolve(q) == [Ref(0, None, "a", InSelect)]
    ensures var s := Walk(q, State([], [], [])); Tables(s, s.rangeVars) == []
  {
    var r := Ref(0, None, "a", InSelect);
    var empty := Query(false, [], [], []);
    var ctes := [Cte("a", empty)];
    var sub := Query(false, ctes, [], []);
    q := Query(false, [], [r], [sub]);
    InnerParts(empty, ctes, sub);
    assert q.subs[1..] == [];
    assert SubRefs(q.subs) == [] && SubNames(q.subs) == ["a"];
    assert AllRefs(q) == [r] && AllNames(q) == ["a"];
    assert {} + Set([]) == {};
    assert Sightings(empty, {}, {"a"}) == [] by { assert See([], {}, {"a"}) == []; }
    assert CteSightings(false, ctes, {}, {}) == [];
    assert Sightings(sub, {}, {}) == [] by {
      assert See([], {} + Set(OwnNames(ctes)), {}) == [];
      assert SubSightings([], {} + Set(OwnNames(ctes)), {}) == [];
    }
    var x := Sighting(r, false, false);
    assert See(q.refs, {}, {}) == [x];
    assert Sightings(q, {}, {}) == [x] by { assert SubSightings(q.subs, {}, {}) == []; assert CteSightings(false, [], {}, {}) == []; }
    assert [x][1..] == [] && Relations([]) == [];
    assert Relations([x]) == [r];
    SummaryIsResolution(q);
    WalkAdds(q, State([], [], []));
    hide Walk, Sightings, AllNames, AllRefs, OwnSelf;
    assert [] + ["a"] == ["a"];
  }

  lemma InnerParts(empty: Query, ctes: seq<Cte>, sub: Query)
    requires empty == Query(false, [], [], []) && ctes == [Cte("a", empty)] && sub == Query(false, ctes, [], [])
    ensures ctes[1..] == [] && OwnNames([]) == [] && OwnNames(ctes) == ["a"]
    ensures AllRefs(sub) == [] && AllNames(sub) == ["a"]
  {
    assert OwnNames([]) == [] && OwnNames(ctes) == ["a"] && ctes[1..] == [];
    assert AllRefs(empty) == [] && AllNames(empty) == [];
    assert OneCteRefs(ctes[0]) == [] && OneCteNames(ctes[0]) == [];
    assert CteRefs([]) == [] && CteNames([]) == [];
    assert CteRefs(ctes) == [] && CteNames(ctes) == [];
  }
}
