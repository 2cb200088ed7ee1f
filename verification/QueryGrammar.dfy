/** The rules of gram.y for SELECT statements and table references, as a parser. */
module QueryGrammar {
  import opened QuerySyntax

  datatype Parsed<+T> = Parsed(tree: T, rest: seq<Token>)

  datatype Options = Options(sort: Option<nat>, limit: Option<Limit>, offset: Option<nat>, locking: seq<nat>)

  predicate StartsWith(ts: seq<Token>, t: Token) {
    ts != [] && ts[0] == t
  }

  /** UNION and EXCEPT bind less than INTERSECT. */
  function Level(op: SetOperator): nat {
    if op == Intersect then 2 else 1
  }

  /** insertSelectOptions: a clause that is already there cannot be given again. */
  function Attach(s: Select, with: Option<With>, o: Options): Option<Select> {
    if (s.with.Some? && with.Some?) || (s.sort.Some? && o.sort.Some?) || (s.limit.Some? && o.limit.Some?) || (s.offset.Some? && o.offset.Some?)
    then None
    else Some(Select(if with.Some? then with else s.with, s.body, if o.sort.Some? then o.sort else s.sort,
                     if o.limit.Some? then o.limit else s.limit, if o.offset.Some? then o.offset else s.offset,
                     s.locking + o.locking))
  }

  /** select_no_parens */
  function ParseSelect(ts: seq<Token>): (r: Option<Parsed<Select>>)
    ensures r.Some? ==> |r.value.rest| < |ts|
    decreases |ts|, 5
  {
    if StartsWith(ts, TWith) then
      match ParseWith(ts[1..])
      case None => None
      case Some(w) => ParseUnderWith(Some(w.tree), w.rest)
    else ParseUnderWith(None, ts)
  }

  function ParseUnderWith(with: Option<With>, ts: seq<Token>): (r: Option<Parsed<Select>>)
    ensures r.Some? ==> |r.value.rest| < |ts|
    decreases |ts|, 4
  {
    match ParseSetOps(1, ts)
    case None => None
    case Some(p) =>
      match ParseOptions(p.rest)
      case None => None
      case Some(o) =>
        match Attach(p.tree, with, o.tree)
        case None => None
        case Some(s) => Some(Parsed(s, o.rest))
  }

  function ParseWith(ts: seq<Token>): (r: Option<Parsed<With>>)
    ensures r.Some? ==> |r.value.rest| < |ts|
    decreases |ts|, 2
  {
    var recursive := StartsWith(ts, TRecursive);
    match ParseCtes(if recursive then ts[1..] else ts)
    case None => None
    case Some(p) => Some(Parsed(With(recursive, p.tree), p.rest))
  }

  function ParseCtes(ts: seq<Token>): (r: Option<Parsed<seq<Cte>>>)
    ensures r.Some? ==> |r.value.rest| < |ts| && r.value.tree != []
    decreases |ts|, 1
  {
    match ParseCte(ts)
    case None => None
    case Some(c) =>
      if !StartsWith(c.rest, TComma) then Some(Parsed([c.tree], c.rest))
      else
        match ParseCtes(c.rest[1..])
        case None => None
        case Some(p) => Some(Parsed([c.tree] + p.tree, p.rest))
  }

  function ParseCte(ts: seq<Token>): (r: Option<Parsed<Cte>>)
    ensures r.Some? ==> |r.value.rest| < |ts|
    decreases |ts|, 0
  {
    if |ts| < 3 || !ts[0].TCte? || ts[1] != TAs then None else
    var marked := ts[2].TMaterialized? && ts[2].m != Default;
    var at := if marked then ts[3..] else ts[2..];
    if !StartsWith(at, TLParen) then None else
    match ParseSelect(at[1..])
    case None => None
    case Some(p) =>
      if StartsWith(p.rest, TRParen) then Some(Parsed(Cte(ts[0].name, if marked then ts[2].m else Default, p.tree), p.rest[1..]))
      else None
  }

  function MakeSetOp(op: SetOperator, all: bool, left: Select, right: Select): Select {
    Select(None, SetOp(op, all, left, right), None, None, None, [])
  }

  /** select_clause, read while an operator of a lower level may wait. */
  function ParseSetOps(level: nat, ts: seq<Token>): (r: Option<Parsed<Select>>)
    ensures r.Some? ==> |r.value.rest| < |ts|
    decreases |ts|, 3
  {
    match ParsePrimary(ts)
    case None => None
    case Some(p) => SetOpLoop(p.tree, level, p.rest)
  }

  function SetOpLoop(left: Select, level: nat, ts: seq<Token>): (r: Option<Parsed<Select>>)
    ensures r.Some? ==> |r.value.rest| <= |ts|
    decreases |ts|, 2
  {
    if ts == [] || !ts[0].TSetOp? || Level(ts[0].op) < level then Some(Parsed(left, ts))
    else
      var all := StartsWith(ts[1..], TAll);
      match ParseSetOps(Level(ts[0].op) + 1, if all then ts[2..] else ts[1..])
      case None => None
      case Some(p) => SetOpLoop(MakeSetOp(ts[0].op, all, left, p.tree), level, p.rest)
  }

  function MakeCore(b: Body): Select {
    Select(None, b, None, None, None, [])
  }

  /** SELECT ..., VALUES ..., or select_with_parens. */
  function ParsePrimary(ts: seq<Token>): (r: Option<Parsed<Select>>)
    ensures r.Some? ==> |r.value.rest| < |ts|
    decreases |ts|, 2
  {
    if ts == [] then None else
    match ts[0]
    case TValues(rows) => Some(Parsed(MakeCore(Values(rows)), ts[1..]))
    case TLParen =>
      (match ParseSelect(ts[1..])
       case None => None
       case Some(p) => if StartsWith(p.rest, TRParen) then Some(Parsed(p.tree, p.rest[1..])) else None)
    case TSelect => ParseCore(ts[1..])
    case _ => None
  }

  /** What follows SELECT. */
  function ParseCore(ts: seq<Token>): (r: Option<Parsed<Select>>)
    ensures r.Some? ==> |r.value.rest| <= |ts|
    decreases |ts|, 2
  {
    var targets := if ts != [] && ts[0].TTargets? then Some(ts[0].targets) else None;
    var ts1 := if targets.Some? then ts[1..] else ts;
    if StartsWith(ts1, TFrom) then
      match ParseTables(ts1[1..])
      case None => None
      case Some(p) => Some(ParseTail(targets, p.tree, p.rest))
    else Some(ParseTail(targets, [], ts1))
  }

  function ParseTail(targets: Option<nat>, from: seq<Table>, ts: seq<Token>): (r: Parsed<Select>)
    ensures |r.rest| <= |ts|
  {
    if ts != [] && ts[0].TTail? then Parsed(MakeCore(Core(targets, from, Some(ts[0].tail))), ts[1..])
    else Parsed(MakeCore(Core(targets, from, None)), ts)
  }

  // ---------- Clauses after the body ----------

  function ParseOptions(ts: seq<Token>): (r: Option<Parsed<Options>>)
    ensures r.Some? ==> |r.value.rest| <= |ts|
  {
    var sort := if ts != [] && ts[0].TSort? then Some(ts[0].sort) else None;
    var ts1 := if sort.Some? then ts[1..] else ts;
    if ts1 != [] && ts1[0].TLocking? then
      var l := ParseLocking(ts1);
      match ParseLimits(l.rest)
      case None => None
      case Some(p) => Some(Parsed(Options(sort, p.tree.limit, p.tree.offset, l.tree), p.rest))
    else
      match ParseLimits(ts1)
      case None => None
      case Some(p) => var l := ParseLocking(p.rest); Some(Parsed(Options(sort, p.tree.limit, p.tree.offset, l.tree), l.rest))
  }

  function ParseLocking(ts: seq<Token>): (r: Parsed<seq<nat>>)
    ensures |r.rest| <= |ts|
  {
    if ts != [] && ts[0].TLocking? then
      var p := ParseLocking(ts[1..]);
      Parsed([ts[0].locking] + p.tree, p.rest)
    else Parsed([], ts)
  }

  /** LIMIT or FETCH FIRST, and OFFSET, in either order. */
  function ParseLimits(ts: seq<Token>): (r: Option<Parsed<Options>>)
    ensures r.Some? ==> |r.value.rest| <= |ts|
  {
    if StartsWith(ts, TOffset) then
      match ParseOffset(ts)
      case None => None
      case Some(o) =>
        match ParseLimit(o.rest)
        case None => None
        case Some(l) => Some(Parsed(Options(None, l.tree, o.tree, []), l.rest))
    else
      match ParseLimit(ts)
      case None => None
      case Some(l) =>
        match ParseOffset(l.rest)
        case None => None
        case Some(o) => Some(Parsed(Options(None, l.tree, o.tree, []), o.rest))
  }

  function ParseOffset(ts: seq<Token>): (r: Option<Parsed<Option<nat>>>)
    ensures r.Some? ==> |r.value.rest| <= |ts|
  {
    if !StartsWith(ts, TOffset) then Some(Parsed(None, ts))
    else if |ts| > 1 && ts[1].TExpr? then Some(Parsed(Some(ts[1].expr), ts[2..]))
    else None
  }

  function ParseLimit(ts: seq<Token>): (r: Option<Parsed<Option<Limit>>>)
    ensures r.Some? ==> |r.value.rest| <= |ts|
  {
    if StartsWith(ts, TLimit) then
      if |ts| > 1 && ts[1].TExpr? then Some(Parsed(Some(Limit(Rows(ts[1].expr), false)), ts[2..]))
      else if |ts| > 1 && (ts[1] == TAll || ts[1] == TNull) then Some(Parsed(Some(Limit(AllRows, false)), ts[2..]))
      else None
    else if StartsWith(ts, TFetchFirst) then
      // ALL is not allowed here
      if |ts| > 2 && ts[1].TExpr? && ts[2] == TRowsWithTies then Some(Parsed(Some(Limit(Rows(ts[1].expr), true)), ts[3..]))
      else if |ts| > 2 && ts[1] == TNull && ts[2] == TRowsWithTies then Some(Parsed(Some(Limit(AllRows, true)), ts[3..]))
      else None
    else Some(Parsed(None, ts))
  }

  // ---------- Tables ----------

  function ParseTables(ts: seq<Token>): (r: Option<Parsed<seq<Table>>>)
    ensures r.Some? ==> |r.value.rest| < |ts| && r.value.tree != []
    decreases |ts|, 8
  {
    match ParseTable(ts)
    case None => None
    case Some(t) =>
      if !StartsWith(t.rest, TComma) then Some(Parsed([t.tree], t.rest))
      else
        match ParseTables(t.rest[1..])
        case None => None
        case Some(p) => Some(Parsed([t.tree] + p.tree, p.rest))
  }

  /** table_ref */
  function ParseTable(ts: seq<Token>): (r: Option<Parsed<Table>>)
    ensures r.Some? ==> |r.value.rest| < |ts|
    decreases |ts|, 7
  {
    match ParseTablePrimary(ts)
    case None => None
    case Some(p) => JoinLoop(p.tree, p.rest)
  }

  function ParseAlias(ts: seq<Token>): (r: Parsed<Option<nat>>)
    ensures |r.rest| <= |ts|
  {
    if ts != [] && ts[0].TAlias? then Parsed(Some(ts[0].alias), ts[1..]) else Parsed(None, ts)
  }

  /** A relation, a sub-select, or a join in parentheses. */
  function ParseTablePrimary(ts: seq<Token>): (r: Option<Parsed<Table>>)
    ensures r.Some? ==> |r.value.rest| < |ts|
    decreases |ts|, 6
  {
    if ts == [] then None else
    match ts[0]
    case TRelation(name) =>
      var a := ParseAlias(ts[1..]);
      Some(Parsed(Relation(name, a.tree), a.rest))
    case TLateral => if StartsWith(ts[1..], TLParen) then ParseSubselect(true, ts[2..]) else None
    case TLParen =>
      var q := ParseSubselect(false, ts[1..]);
      if q.Some? then q else ParseParenthesizedJoin(ts[1..])
    case _ => None
  }

  /** What follows the opening parenthesis of a sub-select. */
  function ParseSubselect(lateral: bool, ts: seq<Token>): (r: Option<Parsed<Table>>)
    ensures r.Some? ==> |r.value.rest| < |ts|
    decreases |ts|, 6
  {
    match ParseSelect(ts)
    case None => None
    case Some(p) =>
      if !StartsWith(p.rest, TRParen) then None else
      var a := ParseAlias(p.rest[1..]);
      Some(Parsed(Subselect(lateral, p.tree, a.tree), a.rest))
  }

  function WithAlias(t: Table, alias: Option<nat>): Table
    requires t.Join?
  {
    Join(t.kind, t.natural, t.larg, t.rarg, t.quals, t.using, alias)
  }

  /** What follows the opening parenthesis of a join; the alias outside belongs to the join. */
  function ParseParenthesizedJoin(ts: seq<Token>): (r: Option<Parsed<Table>>)
    ensures r.Some? ==> |r.value.rest| < |ts|
    decreases |ts|, 8
  {
    match ParseTable(ts)
    case None => None
    case Some(p) =>
      if !p.tree.Join? || p.tree.alias.Some? || !StartsWith(p.rest, TRParen) then None else
      var a := ParseAlias(p.rest[1..]);
      Some(Parsed(WithAlias(p.tree, a.tree), a.rest))
  }

  /** Joins are left-associative. */
  function JoinLoop(left: Table, ts: seq<Token>): (r: Option<Parsed<Table>>)
    ensures r.Some? ==> |r.value.rest| <= |ts|
    decreases |ts|, 5
  {
    if ts == [] then Some(Parsed(left, ts)) else
    var next := ts[1..];
    match ts[0]
    case TCross => if StartsWith(next, TJoin) then ParseUnconditional(left, Inner, false, next[1..]) else None
    case TNatural =>
      if StartsWith(next, TJoin) then ParseUnconditional(left, Inner, true, next[1..])
      else if next != [] && next[0].TJoinKind? && StartsWith(next[1..], TJoin) then ParseUnconditional(left, next[0].kind, true, next[1..][1..])
      else None
    case TJoinKind(kind) => if StartsWith(next, TJoin) then ParseConditional(left, kind, next[1..]) else None
    case TJoin => ParseConditional(left, Inner, next)
    case _ => Some(Parsed(left, ts))
  }

  function ParseUnconditional(left: Table, kind: JoinKind, natural: bool, ts: seq<Token>): (r: Option<Parsed<Table>>)
    ensures r.Some? ==> |r.value.rest| < |ts|
    decreases |ts|, 7
  {
    match ParseTablePrimary(ts)
    case None => None
    case Some(p) => JoinLoop(Join(kind, natural, left, p.tree, None, None, None), p.rest)
  }

  /** A join with a condition: until that is reached, further joins belong to the right operand. */
  function ParseConditional(left: Table, kind: JoinKind, ts: seq<Token>): (r: Option<Parsed<Table>>)
    ensures r.Some? ==> |r.value.rest| < |ts|
    decreases |ts|, 8
  {
    match ParseTable(ts)
    case None => None
    case Some(p) =>
      var right := p.tree;
      if |p.rest| > 1 && p.rest[0] == TOn && p.rest[1].TExpr? then
        JoinLoop(Join(kind, false, left, right, Some(p.rest[1].expr), None, None), p.rest[2..])
      else if p.rest != [] && p.rest[0].TUsing? then
        match ParseUsingAlias(p.rest[1..])
        case None => None
        case Some(a) => JoinLoop(Join(kind, false, left, right, None, Some(Using(p.rest[0].names, a.tree)), None), a.rest)
      else None
  }

  /** A name in quotes is read as it is, and one without quotes in lower case if it can be read at all. */
  function ParseUsingAlias(ts: seq<Token>): (r: Option<Parsed<Option<string>>>)
    ensures r.Some? ==> |r.value.rest| <= |ts| && (r.value.tree.Some? ==> r.value.tree.value != "")
  {
    if !StartsWith(ts, TAs) then Some(Parsed(None, ts))
    else if |ts| > 1 && ts[1].TName? && ts[1].quoted != "" then Some(Parsed(Some(ts[1].quoted), ts[2..]))
    else if |ts| > 1 && ts[1].TRawName? && ReadName(ts[1].raw).Some? then Some(Parsed(ReadName(ts[1].raw), ts[2..]))
    else None
  }

  /** A whole text. */
  function ParseText(ts: seq<Token>): Option<Select> {
    match ParseSelect(ts)
    case Some(p) => if p.rest == [] then Some(p.tree) else None
    case None => None
  }
}
