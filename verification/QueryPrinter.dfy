/** deparseSelectStmt, deparseTableRef and deparseJoinExpr: what they print in front of a text k. */
module QueryPrinter {
  import opened QuerySyntax

  /** Does an operand of a set operation go in parentheses? */
  predicate NeedsParens(s: Select) {
    s.sort.Some? || s.offset.Some? || s.limit.Some? || s.locking != [] || s.with.Some? || s.body.SetOp?
  }

  function OptionalToken(present: bool, t: Token, k: seq<Token>): seq<Token> {
    if present then [t] + k else k
  }

  function AliasOn(alias: Option<nat>, k: seq<Token>): seq<Token> {
    if alias.Some? then [TAlias(alias.value)] + k else k
  }

  /** A SELECT that is no operand of a set operation. */
  function SelectOn(s: Select, k: seq<Token>): seq<Token>
    decreases s, 1
  {
    WithOn(s.with, BodyOn(s.body, OptionsOn(s, k)))
  }

  function OperandOn(s: Select, k: seq<Token>): seq<Token>
    decreases s, 2
  {
    if NeedsParens(s) then [TLParen] + SelectOn(s, [TRParen] + k) else SelectOn(s, k)
  }

  function WithOn(with: Option<With>, k: seq<Token>): seq<Token>
    decreases with, 1
  {
    if with.None? then k
    else [TWith] + OptionalToken(with.value.recursive, TRecursive, CtesOn(with.value.ctes, k))
  }

  function CtesOn(ctes: seq<Cte>, k: seq<Token>): seq<Token>
    decreases ctes, 0
  {
    if ctes == [] then k
    else CteOn(ctes[0], if |ctes| == 1 then k else [TComma] + CtesOn(ctes[1..], k))
  }

  function CteOn(c: Cte, k: seq<Token>): seq<Token>
    decreases c, 1
  {
    [TCte(c.name)] + ([TAs] + OptionalToken(c.materialized != Default, TMaterialized(c.materialized),
                                            [TLParen] + SelectOn(c.query, [TRParen] + k)))
  }

  function BodyOn(b: Body, k: seq<Token>): seq<Token>
    decreases b, 1
  {
    match b
    case Core(targets, from, tail) => [TSelect] + TargetsOn(targets, FromOn(from, TailOn(tail, k)))
    case Values(rows) => [TValues(rows)] + k
    case SetOp(op, all, larg, rarg) => OperandOn(larg, [TSetOp(op)] + OptionalToken(all, TAll, OperandOn(rarg, k)))
  }

  function TargetsOn(targets: Option<nat>, k: seq<Token>): seq<Token> {
    if targets.Some? then [TTargets(targets.value)] + k else k
  }

  function TailOn(tail: Option<nat>, k: seq<Token>): seq<Token> {
    if tail.Some? then [TTail(tail.value)] + k else k
  }

  function FromOn(from: seq<Table>, k: seq<Token>): seq<Token>
    decreases from, 1
  {
    if from == [] then k else [TFrom] + TablesOn(from, k)
  }

  function TablesOn(from: seq<Table>, k: seq<Token>): seq<Token>
    decreases from, 0
  {
    if from == [] then k
    else TableOn(from[0], if |from| == 1 then k else [TComma] + TablesOn(from[1..], k))
  }

  function OptionsOn(s: Select, k: seq<Token>): seq<Token> {
    SortOn(s.sort, LimitOn(s.limit, OffsetOn(s.offset, LockingOn(s.locking, k))))
  }

  function SortOn(sort: Option<nat>, k: seq<Token>): seq<Token> {
    if sort.Some? then [TSort(sort.value)] + k else k
  }

  function LimitOn(limit: Option<Limit>, k: seq<Token>): seq<Token> {
    if limit.None? then k else
    var count := if limit.value.count.AllRows? then TAll else TExpr(limit.value.count.expr);
    if limit.value.withTies then [TFetchFirst] + ([count] + ([TRowsWithTies] + k)) else [TLimit] + ([count] + k)
  }

  function OffsetOn(offset: Option<nat>, k: seq<Token>): seq<Token> {
    if offset.Some? then [TOffset] + ([TExpr(offset.value)] + k) else k
  }

  function LockingOn(locking: seq<nat>, k: seq<Token>): seq<Token> {
    if locking == [] then k else [TLocking(locking[0])] + LockingOn(locking[1..], k)
  }

  /** deparseTableRef */
  function TableOn(t: Table, k: seq<Token>): seq<Token>
    decreases t, 1
  {
    match t
    case Relation(name, alias) => [TRelation(name)] + AliasOn(alias, k)
    case Subselect(lateral, query, alias) =>
      OptionalToken(lateral, TLateral, [TLParen] + SelectOn(query, [TRParen] + AliasOn(alias, k)))
    case Join(_, _, _, _, _, _, alias) =>
      if alias.Some? then [TLParen] + JoinOn(t, [TRParen] + ([TAlias(alias.value)] + k)) else JoinOn(t, k)
  }

  /** A join without its alias. */
  function JoinOn(t: Table, k: seq<Token>): seq<Token>
    requires t.Join?
    decreases t, 0
  {
    TableOn(t.larg, JoinWordsOn(t, RightArgOn(t.rarg, ConditionOn(t, k))))
  }

  function RightArgOn(t: Table, k: seq<Token>): seq<Token>
    decreases t, 2
  {
    if t.Join? && t.alias.None? then [TLParen] + TableOn(t, [TRParen] + k) else TableOn(t, k)
  }

  predicate IsCross(t: Table)
    requires t.Join?
  {
    t.kind == Inner && !t.natural && t.quals.None? && t.using.None?
  }

  function JoinWordsOn(t: Table, k: seq<Token>): seq<Token>
    requires t.Join?
  {
    OptionalToken(t.natural, TNatural,
      OptionalToken(IsCross(t), TCross,
        OptionalToken(t.kind != Inner, TJoinKind(t.kind), [TJoin] + k)))
  }

  function ConditionOn(t: Table, k: seq<Token>): seq<Token>
    requires t.Join?
  {
    var using := if t.using.None? then k
                 else [TUsing(t.using.value.names)] +
                      (if t.using.value.alias.Some? then [TAs] + ([TRawName(t.using.value.alias.value)] + k) else k);
    if t.quals.Some? then [TOn] + ([TExpr(t.quals.value)] + using) else using
  }

  function Print(s: Select): seq<Token> {
    SelectOn(s, [])
  }
}
