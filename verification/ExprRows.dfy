/** How operators bind, by the rows of the operator table of the PostgreSQL documentation (section 4.1.6):
    the tree of every text in which an operand stands between two operators. */
module ExprRows {
  import opened ExprSyntax
  import opened ExprGrammar

  /** An operator that waits for the operand to its right, with what is in front of it. */
  datatype Opener =
    | Infix(a: string, op: Token)                                 // a op _
    | Escape(a: string, like: Token, pattern: string)             // a LIKE pattern ESCAPE _
    | Low(a: string, kind: BetweenKind, low: string)              // a BETWEEN low AND _
    | NotOf                                                       // NOT _
    | Sign(plus: bool)                                            // + _ and - _
    | PrefixOp(op: Token)                                         // op _

  /** An operator that takes the operand to its left, with what follows it. */
  datatype Follower =
    | Then(op: Token, c: string)                                  // _ op c
    | Postfix(op: Token)                                          // _ IS NULL
    | OneOf(negated: bool, c: string)                             // _ IN (c)
    | BetweenAnd(kind: BetweenKind, low: string, c: string)       // _ BETWEEN low AND c
    | AnyOf(op: Token, quantifier: Quantifier, c: string)         // _ op ANY (c)

  predicate IsInfix(t: Token) {
    t.TOp? || t.TOperator? || t.TIsDistinct? || t.TConnective? || t.TLike? || t.TSimilar? || t.TAtTimeZone?
  }

  predicate IsPostfix(t: Token) {
    t.TTypecast? || t.TIsTest? || t.TIsDocument? || t.TCollate? || t.TAtLocal?
  }

  /** The rows of the table, from the one that binds tightest. */
  datatype Row =
    | TypecastRow | SignRow | CollateRow | AtRow | PowerRow | ProductRow | SumRow | OtherOperatorRow
    | ContainmentRow | ComparisonRow | IsRow | NotRow | AndRow | OrRow

  function OperatorRow(op: Oper): Row {
    match op
    case Caret => PowerRow
    case Star | Slash | Percent => ProductRow
    case Plus | Minus => SumRow
    case Less | Greater | Equal | LessEq | GreaterEq | NotEq => ComparisonRow
    case Match | NotMatch | IMatch | NotIMatch | OtherOp(_) => OtherOperatorRow
  }

  function TokenRow(t: Token): Row {
    match t
    case TTypecast(_) => TypecastRow
    case TCollate(_) => CollateRow
    case TAtTimeZone | TAtLocal => AtRow
    case TOp(op) => OperatorRow(op)
    case TOperator(_) => OtherOperatorRow
    case TLike(_, _) | TSimilar(_) | TIn(_) | TBetween(_) => ContainmentRow
    case TIsTest(_) | TIsDistinct(_) | TIsDocument(_) => IsRow
    case TConnective(AND) => AndRow
    case TConnective(OR) => OrRow
    case _ => NotRow
  }

  function OpenerRow(o: Opener): Row {
    match o
    case Infix(_, op) => TokenRow(op)
    case Escape(_, _, _) => ContainmentRow
    case Low(_, _, _) => ContainmentRow
    case NotOf => NotRow
    case Sign(_) => SignRow
    case PrefixOp(_) => OtherOperatorRow
  }

  function FollowerRow(f: Follower): Row {
    match f
    case Then(op, _) => TokenRow(op)
    case Postfix(op) => TokenRow(op)
    case OneOf(_, _) => ContainmentRow
    case BetweenAnd(_, _, _) => ContainmentRow
    case AnyOf(op, _, _) => TokenRow(op)
  }

  function Position(r: Row): nat {
    match r
    case TypecastRow => 1
    case SignRow => 2
    case CollateRow => 3
    case AtRow => 4
    case PowerRow => 5
    case ProductRow => 6
    case SumRow => 7
    case OtherOperatorRow => 8
    case ContainmentRow => 9
    case ComparisonRow => 10
    case IsRow => 11
    case NotRow => 12
    case AndRow => 13
    case OrRow => 14
  }

  /** Is the first row above the second? */
  predicate Above(r: Row, s: Row) {
    Position(r) < Position(s)
  }

  /** Rows whose operators cannot stand next to each other without parentheses. */
  predicate NoAssociation(r: Row) {
    r == ContainmentRow || r == ComparisonRow || r == IsRow
  }

  // ---------- Texts and trees ----------

  predicate OpenerOk(o: Opener) {
    match o
    case Infix(_, op) => IsInfix(op)
    case Escape(_, like, _) => like.TLike? || like.TSimilar?
    case PrefixOp(op) => op.TOperator? || (op.TOp? && OperatorRow(op.op) == OtherOperatorRow)
    case _ => true
  }

  predicate FollowerOk(f: Follower) {
    match f
    case Then(op, _) => IsInfix(op)
    case Postfix(op) => IsPostfix(op)
    case AnyOf(op, _, _) => op.TOp? || op.TOperator? || op.TLike?
    case _ => true
  }

  function OpenerText(o: Opener): seq<Token> {
    match o
    case Infix(a, op) => [TAtom(a), op]
    case Escape(a, like, pattern) => [TAtom(a), like, TAtom(pattern), TEscape]
    case Low(a, kind, low) => [TAtom(a), TBetween(kind), TAtom(low), TConnective(AND)]
    case NotOf => [TNot]
    case Sign(plus) => [TOp(if plus then Plus else Minus)]
    case PrefixOp(op) => [op]
  }

  function FollowerText(f: Follower): seq<Token> {
    match f
    case Then(op, c) => [op, TAtom(c)]
    case Postfix(op) => [op]
    case OneOf(negated, c) => [TIn(negated), LParen, TAtom(c), RParen]
    case BetweenAnd(kind, low, c) => [TBetween(kind), TAtom(low), TConnective(AND), TAtom(c)]
    case AnyOf(op, quantifier, c) => [op, TQuantifier(quantifier), LParen, TAtom(c), RParen]
  }

  function OperatorOf(t: Token): OpRef
    requires t.TOp? || t.TOperator? || t.TLike?
  {
    match t
    case TOp(op) => Plain(op)
    case TOperator(opName) => opName
    case TLike(false, false) => Plain(Match)
    case TLike(false, true) => Plain(NotMatch)
    case TLike(true, false) => Plain(IMatch)
    case TLike(true, true) => Plain(NotIMatch)
  }

  /** AND and OR with any number of arguments are one node. */
  function InfixTree(op: Token, left: Expr, right: Expr): Expr
    requires IsInfix(op)
  {
    match op
    case TOp(_) | TOperator(_) => Binary(OperatorOf(op), left, right)
    case TIsDistinct(negated) => Distinct(negated, left, right)
    case TConnective(c) => Bool(c, (if left.Bool? && left.connective == c then left.args else [left]) + [right])
    case TLike(caseless, negated) => Like(caseless, negated, left, right)
    case TSimilar(negated) => Similar(negated, left, right)
    case TAtTimeZone => AtTimeZone(left, right)
  }

  function OpenerTree(o: Opener, operand: Expr): Expr
    requires OpenerOk(o)
  {
    match o
    case Infix(a, op) => InfixTree(op, Atom(a), operand)
    case Escape(a, TLike(caseless, negated), pattern) =>
      Like(caseless, negated, Atom(a), Call("pg_catalog.like_escape", [Atom(pattern), operand]))
    case Escape(a, TSimilar(negated), pattern) => SimilarEscape(negated, Atom(a), Atom(pattern), operand)
    case Low(a, kind, low) => BetweenTest(kind, Atom(a), Atom(low), operand)
    case NotOf => Not(operand)
    case Sign(plus) => Prefix(Plain(if plus then Plus else Minus), operand)
    case PrefixOp(op) => Prefix(OperatorOf(op), operand)
  }

  function FollowerTree(f: Follower, operand: Expr): Expr
    requires FollowerOk(f)
  {
    match f
    case Then(op, c) => InfixTree(op, operand, Atom(c))
    case Postfix(TTypecast(ty)) => Cast(operand, ty)
    case Postfix(TIsTest(test)) => IsTest(test, operand)
    case Postfix(TIsDocument(negated)) => if negated then Not(IsDocument(operand)) else IsDocument(operand)
    case Postfix(TCollate(collation)) => Collate(operand, collation)
    case Postfix(TAtLocal) => AtLocal(operand)
    case OneOf(negated, c) => InList(negated, operand, [Atom(c)])
    case BetweenAnd(kind, low, c) => BetweenTest(kind, operand, Atom(low), Atom(c))
    case AnyOf(op, quantifier, c) => Quantified(OperatorOf(op), quantifier, operand, Atom(c))
  }

  /** What the grammar makes of an operand between two operators. */
  function PairTree(o: Opener, b: string, f: Follower): Option<Expr>
    requires OpenerOk(o) && FollowerOk(f)
  {
    if Above(FollowerRow(f), OpenerRow(o)) then Some(OpenerTree(o, FollowerTree(f, Atom(b))))
    else if FollowerRow(f) == OpenerRow(o) && NoAssociation(OpenerRow(o)) then None
    else Some(FollowerTree(f, OpenerTree(o, Atom(b))))
  }

  // ---------- The parser ----------

  function RuleLevel(o: Opener): int
    requires OpenerOk(o)
  {
    match o
    case Infix(_, TOp(op)) => OperPrecedence(op)
    case Infix(_, TOperator(_)) => OP_PREC
    case Infix(_, TIsDistinct(_)) => IS_PREC
    case Infix(_, TConnective(c)) => ConnectivePrecedence(c)
    case Infix(_, TAtTimeZone) => AT_PREC
    case Infix(_, _) => BETWEEN_PREC
    case Escape(_, _, _) => BETWEEN_PREC
    case Low(_, _, _) => BETWEEN_PREC
    case NotOf => NOT_PREC
    case Sign(_) => UMINUS_PREC
    case PrefixOp(_) => OP_PREC
  }

  lemma AtomReads(context: Context, q: int, b: string, rest: seq<Token>)
    ensures Parse(context, q, [TAtom(b)] + rest) == Loop(context, Atom(b), q, rest)
  {
    var ts := [TAtom(b)] + rest;
    assert ts[1..] == rest;
    assert ParsePrimary(context, ts) == Some(Parsed(Atom(b), rest));
    assert ParseStart(context, ts) == ParsePrimary(context, ts);
    hide Loop;
  }

  lemma NothingFollows(context: Context, e: Expr, q: int)
    ensures Loop(context, e, q, []) == Some(Parsed(e, []))
  {
  }

  /** The tree goes on with what has been read for the operand. */
  function Resume(o: Opener, p: Option<Parsed<Expr>>): Option<Parsed<Expr>>
    requires OpenerOk(o)
  {
    match p
    case None => None
    case Some(r) => Loop(AExpr, OpenerTree(o, r.tree), BOTTOM, r.rest)
  }

  predicate OperandFollows(ts: seq<Token>) {
    ts != [] && ts[0].TAtom?
  }

  lemma InfixReads(o: Opener, ts: seq<Token>)
    requires o.Infix? && OpenerOk(o) && OperandFollows(ts)
    requires var p := Parse(AExpr, RuleLevel(o), ts); p.Some? ==> !StartsWith(p.value.rest, TEscape)
    ensures Parse(AExpr, BOTTOM, OpenerText(o) + ts) == Resume(o, Parse(AExpr, RuleLevel(o), ts))
  {
    var rest := [o.op] + ts;
    assert OpenerText(o) + ts == [TAtom(o.a)] + rest && rest[1..] == ts;
    AtomReads(AExpr, BOTTOM, o.a, rest);
    ShiftReads(Atom(o.a), o.op, ts, RuleLevel(o));
    InfixLevel(o);
    hide Parse, Shift;
  }

  /** The level of an operator token is that of its rule. */
  lemma InfixLevel(o: Opener)
    requires o.Infix? && OpenerOk(o)
    ensures forall ts | ts != [] && ts[0] == o.op :: InfixPrecedence(AExpr, ts) == RuleLevel(o) > BOTTOM
  {
  }

  /** An operator and its right operand. */
  lemma ShiftReads(left: Expr, op: Token, ts: seq<Token>, level: int)
    requires IsInfix(op) && OperandFollows(ts) && level == RuleLevel(Infix("", op))
    requires var p := Parse(AExpr, level, ts); p.Some? ==> !StartsWith(p.value.rest, TEscape)
    ensures Shift(AExpr, left, [op] + ts) ==
            match Parse(AExpr, level, ts) {
              case None => None
              case Some(p) => Some(Parsed(InfixTree(op, left, p.tree), p.rest))
            }
  {
    var rest := [op] + ts;
    assert rest[1..] == ts && rest[0] == op && !ts[0].TQuantifier?;
    hide Parse;
    match op
    case TOp(name) => assert ShiftOperator(AExpr, left, Plain(name), level, rest) == Shift(AExpr, left, rest);
    case TOperator(name) => assert ShiftOperator(AExpr, left, name, level, rest) == Shift(AExpr, left, rest);
    case TConnective(c) =>
      assert forall right :: MakeBool(c, left, right) == InfixTree(op, left, right) by {
        if !(left.Bool? && left.connective == c) {
          assert forall right: Expr :: [left] + [right] == [left, right];
        }
      }
    case _ =>
  }

  lemma EscapeReads(o: Opener, ts: seq<Token>)
    requires o.Escape? && OpenerOk(o)
    ensures Parse(AExpr, BOTTOM, OpenerText(o) + ts) == Resume(o, Parse(AExpr, RuleLevel(o), ts))
  {
    var r1, r2, r3 := [TEscape] + ts, [TAtom(o.pattern)] + ([TEscape] + ts), [o.like] + ([TAtom(o.pattern)] + ([TEscape] + ts));
    assert OpenerText(o) + ts == [TAtom(o.a)] + r3 && r3[1..] == r2 && r1[1..] == ts;
    AtomReads(AExpr, BOTTOM, o.a, r3);
    AtomReads(AExpr, BETWEEN_PREC, o.pattern, r1);
    assert Loop(AExpr, Atom(o.pattern), BETWEEN_PREC, r1) == Some(Parsed(Atom(o.pattern), r1));
    hide Parse;
    var p := Parse(AExpr, BETWEEN_PREC, ts);
    assert Shift(AExpr, Atom(o.a), r3) == if p.None? then None else Some(Parsed(OpenerTree(o, p.value.tree), p.value.rest));
    hide Shift;
  }

  lemma LowReads(o: Opener, ts: seq<Token>)
    requires o.Low?
    ensures Parse(AExpr, BOTTOM, OpenerText(o) + ts) == Resume(o, Parse(AExpr, RuleLevel(o), ts))
  {
    var r1 := [TConnective(AND)] + ts;
    var r2 := [TAtom(o.low)] + r1;
    var r3 := [TBetween(o.kind)] + r2;
    assert OpenerText(o) + ts == [TAtom(o.a)] + r3 && r3[1..] == r2 && r1[1..] == ts;
    AtomReads(AExpr, BOTTOM, o.a, r3);
    AtomReads(BExpr, BOTTOM, o.low, r1);
    assert Loop(BExpr, Atom(o.low), BOTTOM, r1) == Some(Parsed(Atom(o.low), r1));
    hide Parse;
    var p := Parse(AExpr, BETWEEN_PREC, ts);
    assert ShiftBetween(o.kind, Atom(o.a), r2) == if p.None? then None else Some(Parsed(OpenerTree(o, p.value.tree), p.value.rest));
    assert Shift(AExpr, Atom(o.a), r3) == ShiftBetween(o.kind, Atom(o.a), r2);
    hide Shift, ShiftBetween;
  }

  lemma PrefixReads(o: Opener, ts: seq<Token>)
    requires (o.NotOf? || o.Sign? || o.PrefixOp?) && OpenerOk(o)
    requires var p := Parse(AExpr, RuleLevel(o), ts); p.Some? ==> !p.value.tree.Num?
    ensures Parse(AExpr, BOTTOM, OpenerText(o) + ts) == Resume(o, Parse(AExpr, RuleLevel(o), ts))
  {
    var all := OpenerText(o) + ts;
    assert all[1..] == ts && all[0] == OpenerText(o)[0];
    var p := Parse(AExpr, RuleLevel(o), ts);
    assert ParseStart(AExpr, all) == if p.None? then None else Some(Parsed(OpenerTree(o, p.value.tree), p.value.rest)) by {
      hide Parse, Loop;
      if o.PrefixOp? && o.op.TOp? { assert !IsMathOp(o.op.op); }
    }
    hide ParseStart, Loop;
  }

  /** A whole text that starts with the opener. */
  lemma OpenerReads(o: Opener, ts: seq<Token>)
    requires OpenerOk(o) && OperandFollows(ts)
    requires var p := Parse(AExpr, RuleLevel(o), ts); p.Some? ==> !StartsWith(p.value.rest, TEscape) && !p.value.tree.Num?
    ensures Parse(AExpr, BOTTOM, OpenerText(o) + ts) == Resume(o, Parse(AExpr, RuleLevel(o), ts))
  {
    hide Parse, Resume, OpenerText;
    match o
    case Infix(_, _) => InfixReads(o, ts);
    case Escape(_, _, _) => EscapeReads(o, ts);
    case Low(_, _, _) => LowReads(o, ts);
    case _ => PrefixReads(o, ts);
  }

  // ---------- What follows ----------

  lemma OneArgument(c: string, rest: seq<Token>)
    ensures Parse(AExpr, BOTTOM, [TAtom(c)] + ([RParen] + rest)) == Some(Parsed(Atom(c), [RParen] + rest))
    ensures ParseArgs([LParen, TAtom(c), RParen] + rest) == Some(Parsed([Atom(c)], rest))
  {
    AtomReads(AExpr, BOTTOM, c, [RParen] + rest);
    assert Loop(AExpr, Atom(c), BOTTOM, [RParen] + rest) == Some(Parsed(Atom(c), [RParen] + rest));
    hide Parse;
    var ts := [TAtom(c)] + ([RParen] + rest);
    assert ([RParen] + rest)[1..] == rest;
    assert ParseList(ts) == Some(Parsed([Atom(c)], rest));
    hide ParseList;
    assert [LParen, TAtom(c), RParen] + rest == [LParen] + ts && ([LParen] + ts)[1..] == ts;
  }

  lemma LastAtom(level: int, c: string)
    ensures Parse(AExpr, level, [TAtom(c)]) == Some(Parsed(Atom(c), []))
  {
    AtomReads(AExpr, level, c, []);
    NothingFollows(AExpr, Atom(c), level);
    assert [TAtom(c)] + [] == [TAtom(c)];
    hide Parse, Loop;
  }

  lemma ThenReads(left: Expr, f: Follower)
    requires f.Then? && FollowerOk(f)
    ensures Shift(AExpr, left, FollowerText(f)) == Some(Parsed(FollowerTree(f, left), []))
  {
    var level := RuleLevel(Infix("", f.op));
    LastAtom(level, f.c);
    hide Parse, Shift;
    ShiftReads(left, f.op, [TAtom(f.c)], level);
    assert [f.op] + [TAtom(f.c)] == FollowerText(f);
  }

  lemma OneOfReads(left: Expr, f: Follower)
    requires f.OneOf?
    ensures Shift(AExpr, left, FollowerText(f)) == Some(Parsed(FollowerTree(f, left), []))
  {
    OneArgument(f.c, []);
    hide ParseArgs;
    var args := [LParen, TAtom(f.c), RParen];
    assert args + [] == args && FollowerText(f)[1..] == args;
    assert ShiftIn(f.negated, left, args) == Some(Parsed(FollowerTree(f, left), []));
    hide ShiftIn;
  }

  lemma BetweenAndReads(left: Expr, f: Follower)
    requires f.BetweenAnd?
    ensures Shift(AExpr, left, FollowerText(f)) == Some(Parsed(FollowerTree(f, left), []))
  {
    var r1 := [TConnective(AND), TAtom(f.c)];
    AtomReads(BExpr, BOTTOM, f.low, r1);
    assert Loop(BExpr, Atom(f.low), BOTTOM, r1) == Some(Parsed(Atom(f.low), r1));
    LastAtom(BETWEEN_PREC, f.c);
    hide Parse;
    var r2 := [TAtom(f.low)] + r1;
    assert r1[1..] == [TAtom(f.c)] && FollowerText(f)[1..] == r2;
    assert ShiftBetween(f.kind, left, r2) == Some(Parsed(FollowerTree(f, left), []));
    hide ShiftBetween;
  }

  lemma AnyOfReads(left: Expr, f: Follower)
    requires f.AnyOf? && FollowerOk(f)
    ensures Shift(AExpr, left, FollowerText(f)) == Some(Parsed(FollowerTree(f, left), []))
  {
    OneArgument(f.c, []);
    hide Parse;
    var ts := FollowerText(f);
    var us := ts[1..];
    assert us == [TQuantifier(f.quantifier), LParen, TAtom(f.c), RParen];
    assert us[2..] == [TAtom(f.c)] + ([RParen] + []) && us[1..] == [LParen, TAtom(f.c), RParen];
    assert ([RParen] + [])[1..] == [];
    assert ShiftQuantified(left, OperatorOf(f.op), us) == Some(Parsed(FollowerTree(f, left), []));
    hide ShiftQuantified;
    match f.op
    case TOp(op) => assert Shift(AExpr, left, ts) == ShiftOperator(AExpr, left, Plain(op), OperPrecedence(op), ts);
    case TOperator(opName) => assert Shift(AExpr, left, ts) == ShiftOperator(AExpr, left, opName, OP_PREC, ts);
    case TLike(caseless, negated) => assert OperatorOf(f.op) == Plain(LikeOper(caseless, negated));
  }

  lemma PostfixReads(left: Expr, f: Follower)
    requires f.Postfix? && FollowerOk(f)
    ensures Shift(AExpr, left, FollowerText(f)) == Some(Parsed(FollowerTree(f, left), []))
  {
    assert FollowerText(f)[1..] == [];
  }

  /** An operator that binds tighter than the rule that waits is read to the end of the text. */
  lemma FollowerReads(left: Expr, q: int, f: Follower)
    requires FollowerOk(f) && BOTTOM <= q < InfixPrecedence(AExpr, FollowerText(f))
    ensures Loop(AExpr, left, q, FollowerText(f)) == Some(Parsed(FollowerTree(f, left), []))
  {
    assert Shift(AExpr, left, FollowerText(f)) == Some(Parsed(FollowerTree(f, left), [])) by {
      hide Shift, Loop;
      match f
      case Then(_, _) => ThenReads(left, f);
      case Postfix(_) => PostfixReads(left, f);
      case OneOf(_, _) => OneOfReads(left, f);
      case BetweenAnd(_, _, _) => BetweenAndReads(left, f);
      case AnyOf(_, _, _) => AnyOfReads(left, f);
    }
    NothingFollows(AExpr, FollowerTree(f, left), q);
    hide Shift, FollowerTree;
  }

  // ---------- Levels and rows ----------

  /** The level that the grammar declares for a row. */
  function Height(r: Row): int {
    match r
    case TypecastRow => ATOM_PREC
    case SignRow => UMINUS_PREC
    case CollateRow => COLLATE_PREC
    case AtRow => AT_PREC
    case PowerRow => EXP_PREC
    case ProductRow => MUL_PREC
    case SumRow => ADD_PREC
    case OtherOperatorRow => OP_PREC
    case ContainmentRow => BETWEEN_PREC
    case ComparisonRow => COMPARISON_PREC
    case IsRow => IS_PREC
    case NotRow => NOT_PREC
    case AndRow => AND_PREC
    case OrRow => OR_PREC
  }

  lemma RowsAreLevels(o: Opener, f: Follower)
    requires OpenerOk(o) && FollowerOk(f)
    ensures RuleLevel(o) == Height(OpenerRow(o)) && InfixPrecedence(AExpr, FollowerText(f)) == Height(FollowerRow(f)) > BOTTOM
  {
  }

  lemma AboveIsHigher(r: Row, s: Row)
    ensures Above(r, s) <==> Height(r) > Height(s)
    ensures r == s <==> Height(r) == Height(s)
    ensures NoAssociation(r) <==> NonAssociative(Height(r))
  {
  }

  /** The operand is drawn to the operator in the higher row; in the same row to the one on its left, unless
      the row does not associate. */
  lemma PairReads(o: Opener, b: string, f: Follower)
    requires OpenerOk(o) && FollowerOk(f)
    ensures ParseText(OpenerText(o) + ([TAtom(b)] + FollowerText(f))) == PairTree(o, b, f)
  {
    hide Parse, Loop, InfixPrecedence, FollowerTree, OpenerTree, Above, RuleLevel, Height, OpenerRow, FollowerRow, OpenerText;
    var ts, q, p := [TAtom(b)] + FollowerText(f), RuleLevel(o), InfixPrecedence(AExpr, FollowerText(f));
    RowsAreLevels(o, f);
    AboveIsHigher(FollowerRow(f), OpenerRow(o));
    AboveIsHigher(OpenerRow(o), FollowerRow(f));
    OpenerLevel(o);
    AtomReads(AExpr, q, b, FollowerText(f));
    FollowerStarts(f);
    if p > q {
      FollowerReads(Atom(b), q, f);
      TreeKinds(o, b, f);
      OpenerReads(o, ts);
      NothingFollows(AExpr, OpenerTree(o, FollowerTree(f, Atom(b))), BOTTOM);
    } else {
      LoopStops(Atom(b), q, FollowerText(f));
      OpenerReads(o, ts);
      if !(p == q && NonAssociative(p)) {
        FollowerReads(OpenerTree(o, Atom(b)), BOTTOM, f);
      }
    }
  }

  lemma OpenerLevel(o: Opener)
    requires OpenerOk(o)
    ensures RuleLevel(o) >= BOTTOM
  {
  }

  lemma FollowerStarts(f: Follower)
    requires FollowerOk(f)
    ensures FollowerText(f) != [] && !StartsWith(FollowerText(f), TEscape)
  {
  }

  lemma TreeKinds(o: Opener, b: string, f: Follower)
    requires OpenerOk(o) && FollowerOk(f)
    ensures !FollowerTree(f, Atom(b)).Num? && !Atom(b).Num?
  {
  }

  lemma LoopStops(left: Expr, q: int, ts: seq<Token>)
    requires BOTTOM < InfixPrecedence(AExpr, ts) <= q
    ensures Loop(AExpr, left, q, ts) ==
            if InfixPrecedence(AExpr, ts) == q && NonAssociative(q) then None else Some(Parsed(left, ts))
  {
  }

  // ---------- Neighbours in the table ----------

  /** The operand belongs to the operator on its right, whichever it is ... */
  ghost predicate ToTheRight(o: Opener, f: Follower) {
    OpenerOk(o) && FollowerOk(f) &&
    forall b :: ParseText(OpenerText(o) + ([TAtom(b)] + FollowerText(f))) == Some(OpenerTree(o, FollowerTree(f, Atom(b))))
  }

  /** ... or to the one on its left ... */
  ghost predicate ToTheLeft(o: Opener, f: Follower) {
    OpenerOk(o) && FollowerOk(f) &&
    forall b :: ParseText(OpenerText(o) + ([TAtom(b)] + FollowerText(f))) == Some(FollowerTree(f, OpenerTree(o, Atom(b))))
  }

  /** ... or to neither. */
  ghost predicate Ambiguous(o: Opener, f: Follower) {
    OpenerOk(o) && FollowerOk(f) && forall b :: ParseText(OpenerText(o) + ([TAtom(b)] + FollowerText(f))) == None
  }

  lemma Drawn(o: Opener, f: Follower)
    requires OpenerOk(o) && FollowerOk(f)
    ensures Above(FollowerRow(f), OpenerRow(o)) ==> ToTheRight(o, f)
    ensures Above(OpenerRow(o), FollowerRow(f)) || (FollowerRow(f) == OpenerRow(o) && !NoAssociation(OpenerRow(o))) ==> ToTheLeft(o, f)
    ensures FollowerRow(f) == OpenerRow(o) && NoAssociation(OpenerRow(o)) ==> Ambiguous(o, f)
  {
    hide ParseText, FollowerTree, OpenerTree, OpenerText, FollowerText, FollowerRow, OpenerRow, OpenerOk, FollowerOk;
    forall b ensures ParseText(OpenerText(o) + ([TAtom(b)] + FollowerText(f))) == PairTree(o, b, f) {
      PairReads(o, b, f);
    }
  }

  lemma DrawnRight(o: Opener, f: Follower)
    requires OpenerOk(o) && FollowerOk(f) && Position(FollowerRow(f)) < Position(OpenerRow(o))
    ensures ToTheRight(o, f)
  {
    hide ToTheRight, ToTheLeft, Ambiguous, OpenerRow, FollowerRow, Position;
    Drawn(o, f);
  }

  /** Each row against the next one: down to the other operators ... */
  lemma Neighbours(a: string, c: string, name: string)
    ensures ToTheRight(Sign(false), Postfix(TTypecast(name)))
    ensures ToTheLeft(Sign(false), Postfix(TCollate(name)))
    ensures ToTheRight(Infix(a, TAtTimeZone), Postfix(TCollate(name)))
    ensures ToTheRight(Infix(a, TOp(Caret)), Then(TAtTimeZone, c))
    ensures ToTheRight(Infix(a, TOp(Star)), Then(TOp(Caret), c))
    ensures ToTheRight(Infix(a, TOp(Plus)), Then(TOp(Star), c))
    ensures ToTheRight(Infix(a, TOp(OtherOp(name))), Then(TOp(Plus), c))
  {
    hide ToTheRight, ToTheLeft, Ambiguous;
    assert ToTheRight(Sign(false), Postfix(TTypecast(name))) by { DrawnRight(Sign(false), Postfix(TTypecast(name))); }
    assert ToTheLeft(Sign(false), Postfix(TCollate(name))) by { Drawn(Sign(false), Postfix(TCollate(name))); }
    assert ToTheRight(Infix(a, TAtTimeZone), Postfix(TCollate(name))) by { DrawnRight(Infix(a, TAtTimeZone), Postfix(TCollate(name))); }
    assert ToTheRight(Infix(a, TOp(Caret)), Then(TAtTimeZone, c)) by { DrawnRight(Infix(a, TOp(Caret)), Then(TAtTimeZone, c)); }
    assert ToTheRight(Infix(a, TOp(Star)), Then(TOp(Caret), c)) by { DrawnRight(Infix(a, TOp(Star)), Then(TOp(Caret), c)); }
    assert ToTheRight(Infix(a, TOp(Plus)), Then(TOp(Star), c)) by { DrawnRight(Infix(a, TOp(Plus)), Then(TOp(Star), c)); }
    assert ToTheRight(Infix(a, TOp(OtherOp(name))), Then(TOp(Plus), c)) by { DrawnRight(Infix(a, TOp(OtherOp(name))), Then(TOp(Plus), c)); }
  }

  /** ... and from there to OR. */
  lemma LowerNeighbours(a: string, c: string, name: string)
    ensures ToTheRight(Infix(a, TLike(false, false)), Then(TOp(OtherOp(name)), c))
    ensures ToTheRight(Infix(a, TOp(Less)), Then(TLike(false, false), c))
    ensures ToTheRight(Infix(a, TIsDistinct(false)), Then(TOp(Less), c))
    ensures ToTheRight(NotOf, Postfix(TIsTest(name)))
    ensures ToTheLeft(NotOf, Then(TConnective(AND), c))
    ensures ToTheRight(Infix(a, TConnective(OR)), Then(TConnective(AND), c))
  {
    hide ToTheRight, ToTheLeft, Ambiguous;
    assert ToTheRight(Infix(a, TLike(false, false)), Then(TOp(OtherOp(name)), c)) by { DrawnRight(Infix(a, TLike(false, false)), Then(TOp(OtherOp(name)), c)); }
    assert ToTheRight(Infix(a, TOp(Less)), Then(TLike(false, false), c)) by { DrawnRight(Infix(a, TOp(Less)), Then(TLike(false, false), c)); }
    assert ToTheRight(Infix(a, TIsDistinct(false)), Then(TOp(Less), c)) by { DrawnRight(Infix(a, TIsDistinct(false)), Then(TOp(Less), c)); }
    assert ToTheRight(NotOf, Postfix(TIsTest(name))) by { DrawnRight(NotOf, Postfix(TIsTest(name))); }
    assert ToTheLeft(NotOf, Then(TConnective(AND), c)) by { Drawn(NotOf, Then(TConnective(AND), c)); }
    assert ToTheRight(Infix(a, TConnective(OR)), Then(TConnective(AND), c)) by { DrawnRight(Infix(a, TConnective(OR)), Then(TConnective(AND), c)); }
  }

  /** Two operators of one row: arithmetic, other operators, AND and OR go from left to right ... */
  lemma SameRow(a: string, c: string, name: string)
    ensures ToTheLeft(Infix(a, TOp(Minus)), Then(TOp(Plus), c))
    ensures ToTheLeft(Infix(a, TOp(Slash)), Then(TOp(Star), c))
    ensures ToTheLeft(Infix(a, TOp(Caret)), Then(TOp(Caret), c))
    ensures ToTheLeft(Infix(a, TOp(OtherOp(name))), Then(TOp(Match), c))
    ensures ToTheLeft(Infix(a, TConnective(AND)), Then(TConnective(AND), c))
    ensures ToTheLeft(Infix(a, TConnective(OR)), Then(TConnective(OR), c))
  {
    hide ToTheRight, ToTheLeft, Ambiguous;
    assert ToTheLeft(Infix(a, TOp(Minus)), Then(TOp(Plus), c)) by { Drawn(Infix(a, TOp(Minus)), Then(TOp(Plus), c)); }
    assert ToTheLeft(Infix(a, TOp(Slash)), Then(TOp(Star), c)) by { Drawn(Infix(a, TOp(Slash)), Then(TOp(Star), c)); }
    assert ToTheLeft(Infix(a, TOp(Caret)), Then(TOp(Caret), c)) by { Drawn(Infix(a, TOp(Caret)), Then(TOp(Caret), c)); }
    assert ToTheLeft(Infix(a, TOp(OtherOp(name))), Then(TOp(Match), c)) by { Drawn(Infix(a, TOp(OtherOp(name))), Then(TOp(Match), c)); }
    assert ToTheLeft(Infix(a, TConnective(AND)), Then(TConnective(AND), c)) by { Drawn(Infix(a, TConnective(AND)), Then(TConnective(AND), c)); }
    assert ToTheLeft(Infix(a, TConnective(OR)), Then(TConnective(OR), c)) by { Drawn(Infix(a, TConnective(OR)), Then(TConnective(OR), c)); }
  }

  /** ... and the others need parentheses. */
  lemma NeedParentheses(a: string, c: string, name: string)
    ensures Ambiguous(Infix(a, TOp(Less)), Then(TOp(Equal), c))
    ensures Ambiguous(Infix(a, TLike(false, false)), OneOf(false, c))
    ensures Ambiguous(Infix(a, TIsDistinct(false)), Postfix(TIsTest(name)))
  {
    hide ToTheRight, ToTheLeft, Ambiguous;
    assert Ambiguous(Infix(a, TOp(Less)), Then(TOp(Equal), c)) by { Drawn(Infix(a, TOp(Less)), Then(TOp(Equal), c)); }
    assert Ambiguous(Infix(a, TLike(false, false)), OneOf(false, c)) by { Drawn(Infix(a, TLike(false, false)), OneOf(false, c)); }
    assert Ambiguous(Infix(a, TIsDistinct(false)), Postfix(TIsTest(name))) by { Drawn(Infix(a, TIsDistinct(false)), Postfix(TIsTest(name))); }
  }
}
