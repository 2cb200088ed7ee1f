/** Which names in a query are relations and which are references to a WITH query: the summary's walk,
    which collects all names first, against the scoping rules of SQL. */
module SummaryCte {

  datatype Option<+T> = None | Some(value: T)

  datatype Context = InSelect | InDml | InDdl

  /** A RangeVar, with its identity. */
  datatype Ref = Ref(id: nat, schema: Option<string>, name: string, context: Context)

  /** A statement: its WITH clause, the relations it names itself, and its other sub-statements. */
  datatype Query = Query(recursive: bool, ctes: seq<Cte>, refs: seq<Ref>, subs: seq<Query>)

  datatype Cte = Cte(name: string, query: Query)

  // ---------- Everything in a query, in the order of the walk ----------

  function AllRefs(q: Query): seq<Ref>
    decreases q, 1
  {
    q.refs + SubRefs(q.subs) + CteRefs(q.ctes)
  }

  function SubRefs(subs: seq<Query>): seq<Ref>
    decreases subs, 0
  {
    if subs == [] then [] else AllRefs(subs[0]) + SubRefs(subs[1..])
  }

  function CteRefs(ctes: seq<Cte>): seq<Ref>
    decreases ctes, 0
  {
    if ctes == [] then [] else OneCteRefs(ctes[0]) + CteRefs(ctes[1..])
  }

  function OneCteRefs(c: Cte): seq<Ref>
    decreases c, 1
  {
    AllRefs(c.query)
  }

  function OwnNames(ctes: seq<Cte>): (names: seq<string>)
    ensures |names| == |ctes| && forall i | 0 <= i < |ctes| :: names[i] == ctes[i].name
  {
    seq(|ctes|, i requires 0 <= i < |ctes| => ctes[i].name)
  }

  function AllNames(q: Query): seq<string>
    decreases q, 1
  {
    OwnNames(q.ctes) + SubNames(q.subs) + CteNames(q.ctes)
  }

  function SubNames(subs: seq<Query>): seq<string>
    decreases subs, 0
  {
    if subs == [] then [] else AllNames(subs[0]) + SubNames(subs[1..])
  }

  function CteNames(ctes: seq<Cte>): seq<string>
    decreases ctes, 0
  {
    if ctes == [] then [] else OneCteNames(ctes[0]) + CteNames(ctes[1..])
  }

  function OneCteNames(c: Cte): seq<string>
    decreases c, 1
  {
    AllNames(c.query)
  }

  predicate IsPlain(r: Ref, name: string) {
    r.schema.None? && r.name == name
  }

  // ---------- The walk ----------

  /** Identities of the plain references to `name` among some references. */
  function Named(refs: seq<Ref>, name: string): seq<nat> {
    if refs == [] then [] else (if IsPlain(refs[0], name) then [refs[0].id] else []) + Named(refs[1..], name)
  }

  /** What handling a WITH clause records: references to a query inside its own definition, unless the
      name was known before. */
  function SelfRefs(recursive: bool, ctes: seq<Cte>, names: seq<string>): seq<nat> {
    if ctes == [] then []
    else (if !recursive && ctes[0].name !in names then Named(AllRefs(ctes[0].query), ctes[0].name) else [])
         + SelfRefs(recursive, ctes[1..], names + [ctes[0].name])
  }

  lemma SelfRefsStep(recursive: bool, ctes: seq<Cte>, i: nat, names: seq<string>)
    requires i < |ctes|
    ensures SelfRefs(recursive, ctes[i..], names) ==
            (if !recursive && ctes[i].name !in names then Named(AllRefs(ctes[i].query), ctes[i].name) else [])
            + SelfRefs(recursive, ctes[i+1..], names + [ctes[i].name])
  {
    hide AllRefs, Named;
    assert ctes[i..][0] == ctes[i] && ctes[i..][1..] == ctes[i+1..];
  }

  lemma NoSelfRefs(recursive: bool, names: seq<string>)
    ensures SelfRefs(recursive, [], names) == []
  {
  }

  datatype State = State(names: seq<string>, selfRefs: seq<nat>, rangeVars: seq<Ref>)

  function Walk(q: Query, s: State): State
    decreases q, 1
  {
    var s1 := State(s.names + OwnNames(q.ctes), s.selfRefs + SelfRefs(q.recursive, q.ctes, s.names), s.rangeVars + q.refs);
    WalkCtes(q.ctes, WalkSubs(q.subs, s1))
  }

  function WalkSubs(subs: seq<Query>, s: State): State
    decreases subs, 0
  {
    if subs == [] then s else WalkSubs(subs[1..], Walk(subs[0], s))
  }

  function WalkCtes(ctes: seq<Cte>, s: State): State
    decreases ctes, 0
  {
    if ctes == [] then s else WalkCtes(ctes[1..], WalkCte(ctes[0], s))
  }

  function WalkCte(c: Cte, s: State): State
    decreases c, 1
  {
    Walk(c.query, s)
  }

  /** is_cte_reference */
  predicate IsCteReference(s: State, r: Ref) {
    r.context == InSelect && r.schema.None? && r.name in s.names && r.id !in s.selfRefs
  }

  /** What handle_range_var keeps as tables. */
  function Tables(s: State, rangeVars: seq<Ref>): seq<Ref> {
    if rangeVars == [] then []
    else (if IsCteReference(s, rangeVars[0]) then [] else [rangeVars[0]]) + Tables(s, rangeVars[1..])
  }

  class WalkState {
    var cteNames: seq<string>
    var cteSelfReferenceRangeVars: seq<nat>
    var rangeVars: seq<Ref>
    var tables: seq<Ref>

    function Value(): State
      reads this
    {
      State(cteNames, cteSelfReferenceRangeVars, rangeVars)
    }

    constructor ()
      ensures Value() == State([], [], []) && tables == []
    {
      cteNames, cteSelfReferenceRangeVars, rangeVars, tables := [], [], [], [];
    }

    /** cte_self_reference_walker, over all range vars inside a definition */
    method CteSelfReferenceWalker(q: Query, name: string)
      modifies this`cteSelfReferenceRangeVars
      ensures cteSelfReferenceRangeVars == old(cteSelfReferenceRangeVars) + Named(AllRefs(q), name)
    {
      var refs := AllRefs(q);
      for i := 0 to |refs|
        invariant cteSelfReferenceRangeVars + Named(refs[i..], name) == old(cteSelfReferenceRangeVars) + Named(refs, name)
      {
        assert refs[i..][0] == refs[i] && refs[i..][1..] == refs[i+1..];
        if refs[i].schema.None? && refs[i].name == name {
          cteSelfReferenceRangeVars := cteSelfReferenceRangeVars + [refs[i].id];
        }
      }
    }

    method CteNamesInclude(name: string) returns (found: bool)
      ensures found <==> name in cteNames
    {
      for i := 0 to |cteNames|
        invariant name !in cteNames[..i]
      {
        if cteNames[i] == name {
          return true;
        }
      }
      return false;
    }

    /** handle_with_clause */
    method HandleWithClause(recursive: bool, ctes: seq<Cte>)
      modifies this`cteNames, this`cteSelfReferenceRangeVars
      ensures cteNames == old(cteNames) + OwnNames(ctes)
      ensures cteSelfReferenceRangeVars == old(cteSelfReferenceRangeVars) + SelfRefs(recursive, ctes, old(cteNames))
    {
      hide AllRefs, Named, SelfRefs;
      for i := 0 to |ctes|
        invariant cteNames == old(cteNames) + OwnNames(ctes)[..i]
        invariant cteSelfReferenceRangeVars + SelfRefs(recursive, ctes[i..], cteNames) ==
                  old(cteSelfReferenceRangeVars) + SelfRefs(recursive, ctes, old(cteNames))
      {
        SelfRefsStep(recursive, ctes, i, cteNames);
        var known := CteNamesInclude(ctes[i].name);
        if !recursive && !known {
          CteSelfReferenceWalker(ctes[i].query, ctes[i].name);
        }
        cteNames := cteNames + [ctes[i].name];
      }
      NoSelfRefs(recursive, cteNames);
      assert ctes[|ctes|..] == [];
    }

    /** pg_query_summary_walk_impl: the WITH clause of a statement first, its queries last. */
    method WalkImpl(q: Query)
      modifies this`cteNames, this`cteSelfReferenceRangeVars, this`rangeVars
      ensures Value() == Walk(q, old(Value()))
      decreases q, 1
    {
      hide SelfRefs;
      HandleWithClause(q.recursive, q.ctes);
      rangeVars := rangeVars + q.refs;
      ghost var s1 := Value();
      for i := 0 to |q.subs|
        invariant WalkSubs(q.subs[i..], Value()) == WalkSubs(q.subs, s1)
      {
        assert q.subs[i..][0] == q.subs[i] && q.subs[i..][1..] == q.subs[i+1..];
        WalkImpl(q.subs[i]);
      }
      WalkWithQueries(q.ctes);
    }

    method WalkWithQueries(ctes: seq<Cte>)
      modifies this`cteNames, this`cteSelfReferenceRangeVars, this`rangeVars
      ensures Value() == WalkCtes(ctes, old(Value()))
      decreases ctes, 0
    {
      hide Walk;
      for i := 0 to |ctes|
        invariant WalkCtes(ctes[i..], Value()) == WalkCtes(ctes, old(Value()))
      {
        assert ctes[i..][0] == ctes[i] && ctes[i..][1..] == ctes[i+1..];
        WalkWithQuery(ctes[i]);
      }
    }

    method WalkWithQuery(c: Cte)
      modifies this`cteNames, this`cteSelfReferenceRangeVars, this`rangeVars
      ensures Value() == WalkCte(c, old(Value()))
      decreases c, 1
    {
      WalkImpl(c.query);
    }

    /** pg_query_summary_walk: the range vars are looked at after the walk. */
    method SummaryWalk(q: Query)
      requires Value() == State([], [], []) && tables == []
      modifies this
      ensures tables == Tables(Walk(q, State([], [], [])), Walk(q, State([], [], [])).rangeVars)
    {
      WalkImpl(q);
      HandleRangeVars();
    }

    /** handle_range_var, for each range var */
    method HandleRangeVars()
      requires tables == []
      modifies this`tables
      ensures tables == Tables(Value(), rangeVars)
    {
      ghost var s := Value();
      for i := 0 to |rangeVars|
        invariant Value() == s && tables + Tables(s, rangeVars[i..]) == Tables(s, rangeVars)
      {
        assert rangeVars[i..][0] == rangeVars[i] && rangeVars[i..][1..] == rangeVars[i+1..];
        var r := rangeVars[i];
        if !(r.context == InSelect && r.schema.None? && r.name in cteNames && r.id !in cteSelfReferenceRangeVars) {
          tables := tables + [r];
        }
      }
    }
  }

  // ---------- The scoping rules ----------

  /** A reference, whether a WITH query of its name is visible where it stands, and whether it stands
      inside the definition of a query of its name that is not recursive. */
  datatype Sighting = Sighting(ref: Ref, visible: bool, own: bool)

  /** scope: the WITH queries that are visible; inside: the definitions that we are in. */
  function Sightings(q: Query, scope: set<string>, inside: set<string>): seq<Sighting>
    decreases q, 1
  {
    var all := scope + Set(OwnNames(q.ctes));
    See(q.refs, all, inside) + SubSightings(q.subs, all, inside) + CteSightings(q.recursive, q.ctes, if q.recursive then all else scope, inside)
  }

  function Set(names: seq<string>): set<string> {
    set n | n in names
  }

  function See(refs: seq<Ref>, scope: set<string>, inside: set<string>): (ss: seq<Sighting>)
    ensures |ss| == |refs|
    ensures forall i | 0 <= i < |refs| :: ss[i] == Sighting(refs[i], refs[i].name in scope, refs[i].schema.None? && refs[i].name in inside)
  {
    seq(|refs|, i requires 0 <= i < |refs| => Sighting(refs[i], refs[i].name in scope, refs[i].schema.None? && refs[i].name in inside))
  }

  function SubSightings(subs: seq<Query>, scope: set<string>, inside: set<string>): seq<Sighting>
    decreases subs, 0
  {
    if subs == [] then [] else Sightings(subs[0], scope, inside) + SubSightings(subs[1..], scope, inside)
  }

  /** Without RECURSIVE, a WITH query sees those before it; with RECURSIVE it sees them all. */
  function CteSightings(recursive: bool, ctes: seq<Cte>, scope: set<string>, inside: set<string>): seq<Sighting>
    decreases ctes, 0
  {
    if ctes == [] then []
    else OneCteSightings(ctes[0], scope, if recursive then inside else inside + {ctes[0].name})
         + CteSightings(recursive, ctes[1..], scope + {ctes[0].name}, inside)
  }

  function OneCteSightings(c: Cte, scope: set<string>, inside: set<string>): seq<Sighting>
    decreases c, 1
  {
    Sightings(c.query, scope, inside)
  }

  /** Does a plain reference of a SELECT stand for a WITH query? */
  predicate ResolvesToCte(x: Sighting) {
    x.ref.context == InSelect && x.ref.schema.None? && x.visible
  }

  function Relations(ss: seq<Sighting>): seq<Ref> {
    if ss == [] then [] else (if ResolvesToCte(ss[0]) then [] else [ss[0].ref]) + Relations(ss[1..])
  }

  /** The relations that a query reads or writes. */
  function Resolve(q: Query): seq<Ref> {
    Relations(Sightings(q, {}, {}))
  }

  /** Plain references to a WITH query stand where it is visible or inside its own definition. */
  predicate UsedWhereVisible(q: Query) {
    forall x | x in Sightings(q, {}, {}) && x.ref.context == InSelect && x.ref.schema.None? && x.ref.name in AllNames(q) ::
      x.visible || x.own
  }
}
