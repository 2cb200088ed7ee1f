/** Printing an expression and reading it back gives the same tree, exactly for the trees without a
    prefix operator that only OPERATOR(...) can write. */
module ExprRoundTrip {
  import opened ExprSyntax
  import opened ExprPrinter
  import opened ExprGrammar

  /** Can this prefix operator be written without OPERATOR(...)?  A bare "-" in front of a numeric
      constant would become part of the constant, and bare "*", "<" etc. are no prefix operators. */
  predicate BarePrefix(opName: OpRef, arg: Expr) {
    match opName
    case Qualified(_, _) => true
    case Plain(Plus) => true
    case Plain(Minus) => !arg.Num?
    case Plain(op) => !IsMathOp(op)
  }

  /** The trees that the grammar builds; without `anyPrefix`, only those it builds when no operator
      is written as OPERATOR(op) without a schema. */
  predicate Buildable(e: Expr, anyPrefix: bool) {
    match e
    case Atom(_) => true
    case ScalarSub(_) => true
    case Num(_) => true
    case Call(_, args) => forall a | a in args :: Buildable(a, anyPrefix)
    case Row(items) => |items| >= 2 && forall a | a in items :: Buildable(a, anyPrefix)
    case NullIf(l, r) => Buildable(l, anyPrefix) && Buildable(r, anyPrefix)
    case Position(l, r) => Buildable(l, anyPrefix) && Buildable(r, anyPrefix)
    case Cast(arg, _) => Buildable(arg, anyPrefix)
    case Binary(_, l, r) => Buildable(l, anyPrefix) && Buildable(r, anyPrefix)
    case Prefix(opName, r) => Buildable(r, anyPrefix) && (anyPrefix || BarePrefix(opName, r))
    case Quantified(_, _, l, r) => Buildable(l, anyPrefix) && Buildable(r, anyPrefix) && !r.ScalarSub?
    case QuantifiedSub(_, _, l, _) => Buildable(l, anyPrefix)
    case InList(_, l, items) =>
      Buildable(l, anyPrefix) && items != [] && !(|items| == 1 && items[0].ScalarSub?) && forall a | a in items :: Buildable(a, anyPrefix)
    case InSub(l, _) => Buildable(l, anyPrefix)
    case Like(_, _, l, r) => Buildable(l, anyPrefix) && Buildable(r, anyPrefix)
    case Similar(_, l, r) => Buildable(l, anyPrefix) && Buildable(r, anyPrefix)
    case SimilarEscape(_, l, r, s) => Buildable(l, anyPrefix) && Buildable(r, anyPrefix) && Buildable(s, anyPrefix)
    case BetweenTest(_, l, low, high) => Buildable(l, anyPrefix) && Buildable(low, anyPrefix) && Buildable(high, anyPrefix)
    case Distinct(_, l, r) => Buildable(l, anyPrefix) && Buildable(r, anyPrefix)
    case IsTest(_, arg) => Buildable(arg, anyPrefix)
    case IsDocument(arg) => Buildable(arg, anyPrefix)
    case Bool(c, args) =>
      |args| >= 2 && !(args[0].Bool? && args[0].connective == c) && forall a | a in args :: Buildable(a, anyPrefix)
    case Not(arg) => Buildable(arg, anyPrefix)
    case Collate(arg, _) => Buildable(arg, anyPrefix)
    case AtTimeZone(arg, zone) => Buildable(arg, anyPrefix) && Buildable(zone, anyPrefix)
    case AtLocal(arg) => Buildable(arg, anyPrefix)
    case Overlaps(a, b, c, d) =>
      Buildable(a, anyPrefix) && Buildable(b, anyPrefix) && Buildable(c, anyPrefix) && Buildable(d, anyPrefix)
  }

  predicate Grammatical(e: Expr) {
    Buildable(e, true)
  }

  predicate Printable(e: Expr) {
    Buildable(e, false)
  }

  // ---------- What may stand around a printed expression ----------

  /** A sign binds like unary minus. */
  function EdgePrecedence(e: Expr): int {
    if e.Num? && IsNegative(e.number) then UMINUS_PREC else GetExprPrecedence(e)
  }

  /** Every operator on the left edge of e binds tighter than the rule that waits for e. */
  predicate FitsUnder(e: Expr, q: int) {
    q < EdgePrecedence(e) || e.Not? || e.Prefix? || e.Num?
  }

  /** What follows e is not drawn into it. */
  predicate EndsBefore(e: Expr, context: Context, k: seq<Token>) {
    var la := InfixPrecedence(context, k);
    && (la < EdgePrecedence(e) || (la == EdgePrecedence(e) && !NonAssociative(la)) || IsSubqueryComparisonForm(e))
    && !StartsWith(k, TOverlaps)
    && (StartsWith(k, TEscape) ==> GetExprPrecedence(e) > BETWEEN_PREC)
  }

  /** The first token of any expression. */
  predicate IsStart(ts: seq<Token>) {
    ts != [] && (match ts[0]
                 case TAtom(_) | TScalarSub(_) | TNum(_) | LParen | TOp(_) | TOperator(_) | TNot | TCall(_) | TNullIf | TPosition => true
                 case _ => false)
  }

  lemma ParsedStarts(context: Context, q: int, ts: seq<Token>)
    ensures Parse(context, q, ts).Some? ==> IsStart(ts)
  {
    if !IsStart(ts) {
      assert ParsePrimary(context, ts) == None;
      assert ParseStart(context, ts) == None;
    }
  }

  /** The reader stops in front of k when the rule of precedence q waits and its operand is r. */
  lemma LoopStops(context: Context, r: Expr, q: int, k: seq<Token>)
    requires var la := InfixPrecedence(context, k); la == BOTTOM || la < q || (la == q && !NonAssociative(la))
    ensures Loop(context, r, q, k) == Some(Parsed(r, k))
  {
  }

  // ---------- How the grammar reads one construct, whatever its text is ----------

  /** Text ts, which is text of e followed by k, reads as e when the rule of precedence q waits. */
  predicate Reads(parser: Context, q: int, ts: seq<Token>, e: Expr, k: seq<Token>) {
    Parse(parser, q, ts) == Loop(parser, e, q, k)
  }

  lemma StartReads(parser: Context, q: int, ts: seq<Token>, e: Expr, k: seq<Token>)
    requires ParseStart(parser, ts) == Some(Parsed(e, k))
    ensures Reads(parser, q, ts, e, k)
  {
    hide ParseStart, Loop;
  }

  lemma ShiftReads(parser: Context, q: int, ts: seq<Token>, l: Expr, us: seq<Token>, e: Expr, k: seq<Token>)
    requires Reads(parser, q, ts, l, us)
    requires q < InfixPrecedence(parser, us) && InfixPrecedence(parser, us) != BOTTOM
    requires Shift(parser, l, us) == Some(Parsed(e, k))
    ensures Reads(parser, q, ts, e, k)
  {
    hide Parse, Shift;
  }

  /** An operand that ends where the waiting rule is reduced. */
  lemma OperandEnds(parser: Context, q: int, ts: seq<Token>, r: Expr, k: seq<Token>)
    requires Reads(parser, q, ts, r, k)
    requires var la := InfixPrecedence(parser, k); la == BOTTOM || la < q || (la == q && !NonAssociative(la))
    ensures Parse(parser, q, ts) == Some(Parsed(r, k))
    ensures IsStart(ts)
  {
    LoopStops(parser, r, q, k);
    ParsedStarts(parser, q, ts);
  }

  lemma ListEnds(ti: seq<Token>, es: seq<Expr>, k: seq<Token>)
    requires ParseList(ti) == Some(Parsed(es, k))
    ensures IsStart(ti) && ParseArgs([LParen] + ti) == Some(Parsed(es, k))
  {
    hide Parse;
    ParsedStarts(AExpr, BOTTOM, ti);
    assert ([LParen] + ti)[1..] == ti;
  }

  lemma ParenReads(e: Expr, parser: Context, q: int, inner: seq<Token>, k: seq<Token>)
    requires Reads(AExpr, BOTTOM, inner, e, [RParen] + k)
    requires !StartsWith(k, TOverlaps)
    ensures Reads(parser, q, [LParen] + inner, e, k)
  {
    OperandEnds(AExpr, BOTTOM, inner, e, [RParen] + k);
    var ts := [LParen] + inner;
    assert ParseList(inner) == Some(Parsed([e], k));
    ListEnds(inner, [e], k);
    assert ParsePrimary(parser, ts) == Some(Parsed(e, k));
    StartReads(parser, q, ts, e, k);
  }

  lemma PairParses(a: Expr, b: Expr, ta: seq<Token>, tb: seq<Token>, k: seq<Token>)
    requires Reads(AExpr, BOTTOM, ta, a, [Comma] + tb)
    requires Reads(AExpr, BOTTOM, tb, b, [RParen] + k)
    ensures ParseArgs([LParen] + ta) == Some(Parsed([a, b], k))
  {
    OperandEnds(AExpr, BOTTOM, ta, a, [Comma] + tb);
    OperandEnds(AExpr, BOTTOM, tb, b, [RParen] + k);
    hide Parse, Reads;
    assert ParseList(tb) == Some(Parsed([b], k));
    assert ([Comma] + tb)[1..] == tb && [a] + [b] == [a, b];
    ListEnds(ta, [a, b], k);
  }

  lemma NullIfParses(parser: Context, l: Expr, r: Expr, ta: seq<Token>, k: seq<Token>)
    requires ParseArgs([LParen] + ta) == Some(Parsed([l, r], k))
    ensures ParseStart(parser, [TNullIf] + ([LParen] + ta)) == Some(Parsed(NullIf(l, r), k))
  {
    hide ParseArgs;
    var ts := [TNullIf] + ([LParen] + ta);
    assert ts[1..] == [LParen] + ta;
    assert ParsePrimary(parser, ts) == Some(Parsed(NullIf(l, r), k));
  }

  lemma CallParses(parser: Context, fn: string, args: seq<Expr>, ta: seq<Token>, k: seq<Token>)
    requires ParseArgs([LParen] + ta) == Some(Parsed(args, k))
    ensures ParseStart(parser, [TCall(fn)] + ([LParen] + ta)) == Some(Parsed(Call(fn, args), k))
  {
    hide ParseArgs;
    var ts := [TCall(fn)] + ([LParen] + ta);
    assert ts[1..] == [LParen] + ta;
    assert ParsePrimary(parser, ts) == Some(Parsed(Call(fn, args), k));
  }

  lemma RowParses(parser: Context, items: seq<Expr>, ti: seq<Token>, k: seq<Token>)
    requires ParseArgs([LParen] + ti) == Some(Parsed(items, k)) && |items| >= 2 && !StartsWith(k, TOverlaps)
    ensures ParseStart(parser, [LParen] + ti) == Some(Parsed(Row(items), k))
  {
    hide ParseArgs;
    assert ParsePrimary(parser, [LParen] + ti) == Some(Parsed(Row(items), k));
  }

  lemma OverlapsParses(a: Expr, b: Expr, c: Expr, d: Expr, t1: seq<Token>, t2: seq<Token>, k: seq<Token>)
    requires ParseArgs([LParen] + t1) == Some(Parsed([a, b], [TOverlaps] + ([LParen] + t2)))
    requires ParseArgs([LParen] + t2) == Some(Parsed([c, d], k))
    ensures ParseStart(AExpr, [LParen] + t1) == Some(Parsed(Overlaps(a, b, c, d), k))
  {
    hide ParseArgs;
    assert ([TOverlaps] + ([LParen] + t2))[1..] == [LParen] + t2;
    assert ParsePrimary(AExpr, [LParen] + t1) == Some(Parsed(Overlaps(a, b, c, d), k));
  }

  lemma PositionParses(parser: Context, n: Expr, h: Expr, tn: seq<Token>, th: seq<Token>, k: seq<Token>)
    requires Parse(BExpr, BOTTOM, tn) == Some(Parsed(n, [TIn(false)] + th))
    requires Parse(BExpr, BOTTOM, th) == Some(Parsed(h, [RParen] + k))
    ensures ParseStart(parser, [TPosition] + ([LParen] + tn)) == Some(Parsed(Position(n, h), k))
  {
    hide Parse;
    var us := [LParen] + tn;
    var ts := [TPosition] + us;
    assert ts[1..] == us && us[1..] == tn && ([TIn(false)] + th)[1..] == th;
    assert ParsePosition(us) == Some(Parsed(Position(n, h), k));
    assert ParsePrimary(parser, ts) == Some(Parsed(Position(n, h), k));
  }

  lemma SubqueryOpShifts(opName: OpRef, l: Expr, us: seq<Token>)
    requires us != [] && us[0].TQuantifier?
    ensures Shift(AExpr, l, [SubqueryOpToken(opName)] + us) == ShiftQuantified(l, opName, us)
  {
    hide Parse, ShiftQuantified;
    assert ([SubqueryOpToken(opName)] + us)[1..] == us;
  }

  lemma QuantifiedShifts(opName: OpRef, quantifier: Quantifier, l: Expr, r: Expr, tr: seq<Token>, k: seq<Token>)
    requires Parse(AExpr, BOTTOM, tr) == Some(Parsed(r, [RParen] + k)) && IsStart(tr) && !r.ScalarSub?
    ensures Shift(AExpr, l, [SubqueryOpToken(opName)] + ([TQuantifier(quantifier)] + ([LParen] + tr)))
            == Some(Parsed(Quantified(opName, quantifier, l, r), k))
  {
    hide Parse, Shift, SubqueryOpToken;
    var us := [TQuantifier(quantifier)] + ([LParen] + tr);
    assert us[1..] == [LParen] + tr && us[2..] == tr;
    assert ShiftQuantified(l, opName, us) == Some(Parsed(Quantified(opName, quantifier, l, r), k));
    SubqueryOpShifts(opName, l, us);
  }

  lemma QuantifiedSubShifts(opName: OpRef, quantifier: Quantifier, l: Expr, select: string, k: seq<Token>)
    ensures Shift(AExpr, l, [SubqueryOpToken(opName)] + ([TQuantifier(quantifier)] + ([LParen] + ([TSelect(select)] + ([RParen] + k)))))
            == Some(Parsed(QuantifiedSub(opName, quantifier, l, select), k))
  {
    hide Parse, Shift, SubqueryOpToken;
    var us := [TQuantifier(quantifier)] + ([LParen] + ([TSelect(select)] + ([RParen] + k)));
    assert us[4..] == k;
    assert ShiftQuantified(l, opName, us) == Some(Parsed(QuantifiedSub(opName, quantifier, l, select), k));
    SubqueryOpShifts(opName, l, us);
  }

  lemma InListShifts(negated: bool, l: Expr, items: seq<Expr>, ti: seq<Token>, k: seq<Token>)
    requires ParseArgs([LParen] + ti) == Some(Parsed(items, k)) && items != [] && IsStart(ti) && !(|items| == 1 && items[0].ScalarSub?)
    ensures Shift(AExpr, l, [TIn(negated)] + ([LParen] + ti)) == Some(Parsed(InList(negated, l, items), k))
  {
    hide ParseArgs;
    var us := [LParen] + ti;
    assert ([TIn(negated)] + us)[1..] == us;
    assert ShiftIn(negated, l, us) == Some(Parsed(InList(negated, l, items), k));
  }

  lemma InSubShifts(l: Expr, select: string, k: seq<Token>)
    ensures Shift(AExpr, l, [TIn(false)] + ([LParen] + ([TSelect(select)] + ([RParen] + k)))) == Some(Parsed(InSub(l, select), k))
  {
    hide ParseArgs;
    var us := [LParen] + ([TSelect(select)] + ([RParen] + k));
    assert ([TIn(false)] + us)[1..] == us && us[3..] == k;
    assert ShiftIn(false, l, us) == Some(Parsed(InSub(l, select), k));
  }

  lemma BetweenShifts(kind: BetweenKind, l: Expr, low: Expr, high: Expr, tl: seq<Token>, th: seq<Token>, k: seq<Token>)
    requires Parse(BExpr, BOTTOM, tl) == Some(Parsed(low, [TConnective(AND)] + th))
    requires Parse(AExpr, BETWEEN_PREC, th) == Some(Parsed(high, k))
    ensures Shift(AExpr, l, [TBetween(kind)] + tl) == Some(Parsed(BetweenTest(kind, l, low, high), k))
  {
    hide Parse;
    assert ([TBetween(kind)] + tl)[1..] == tl && ([TConnective(AND)] + th)[1..] == th;
    assert ShiftBetween(kind, l, tl) == Some(Parsed(BetweenTest(kind, l, low, high), k));
  }

  lemma SimilarEscapeShifts(negated: bool, l: Expr, r: Expr, escape: Expr, tr: seq<Token>, te: seq<Token>, k: seq<Token>)
    requires Parse(AExpr, BETWEEN_PREC, tr) == Some(Parsed(r, [TEscape] + te))
    requires Parse(AExpr, BETWEEN_PREC, te) == Some(Parsed(escape, k))
    ensures Shift(AExpr, l, [TSimilar(negated)] + tr) == Some(Parsed(SimilarEscape(negated, l, r, escape), k))
  {
    hide Parse;
    assert ([TSimilar(negated)] + tr)[1..] == tr && ([TEscape] + te)[1..] == te;
  }

  /** The operators with one right operand. */
  predicate IsInfix(t: Token) {
    t.TOp? || t.TOperator? || t.TLike? || t.TSimilar? || t.TIsDistinct? || t.TAtTimeZone?
  }

  function InfixTree(t: Token, l: Expr, r: Expr): Expr
    requires IsInfix(t)
  {
    match t
    case TOp(op) => Binary(Plain(op), l, r)
    case TOperator(opName) => Binary(opName, l, r)
    case TLike(caseless, negated) => Like(caseless, negated, l, r)
    case TSimilar(negated) => Similar(negated, l, r)
    case TIsDistinct(negated) => Distinct(negated, l, r)
    case TAtTimeZone => AtTimeZone(l, r)
  }

  lemma InfixShifts(parser: Context, t: Token, l: Expr, r: Expr, tr: seq<Token>, k: seq<Token>)
    requires IsInfix(t) && InfixPrecedence(parser, [t]) != BOTTOM
    requires Parse(parser, InfixPrecedence(parser, [t]), tr) == Some(Parsed(r, k)) && IsStart(tr)
    requires !StartsWith(k, TEscape) || !(t.TLike? || t.TSimilar?)
    ensures Shift(parser, l, [t] + tr) == Some(Parsed(InfixTree(t, l, r), k))
  {
    hide Parse, ShiftQuantified;
    assert ([t] + tr)[1..] == tr;
  }

  // ---------- Every printed expression reads back ----------

  /** The circumstances in which e is printed and read. */
  predicate Fits(e: Expr, context: Context, parser: Context, q: int, k: seq<Token>) {
    && Printable(e) && BOTTOM <= q
    && (parser.BExpr? ==> !NeedsParensAsBExpr(e) && (context.BExpr? || GetExprPrecedence(e) == ATOM_PREC))
    && FitsUnder(e, q) && EndsBefore(e, parser, k)
  }

  lemma {:induction false} RoundTripOn(e: Expr, context: Context, parser: Context, q: int, k: seq<Token>)
    requires Fits(e, context, parser, q, k)
    ensures Reads(parser, q, PrintOn(e, context, k), e, k)
    decreases e, 1
  {
    hide Parse, Loop, PrintOn, Buildable;
    match e
    case Atom(_) => AtomReads(e, context, parser, q, k);
    case ScalarSub(_) => AtomReads(e, context, parser, q, k);
    case Num(_) => NumReads(e, context, parser, q, k);
    case Call(_, _) => CallReads(e, context, parser, q, k);
    case Row(_) => RowReads(e, context, parser, q, k);
    case NullIf(_, _) => NullIfReads(e, context, parser, q, k);
    case Position(_, _) => PositionReads(e, context, parser, q, k);
    case Cast(_, _) => CastReads(e, context, parser, q, k);
    case Binary(_, _, _) => BinaryReads(e, context, parser, q, k);
    case Prefix(_, _) => PrefixReads(e, context, parser, q, k);
    case Quantified(_, _, _, _) => QuantifiedReads(e, context, parser, q, k);
    case QuantifiedSub(_, _, _, _) => QuantifiedSubReads(e, context, parser, q, k);
    case InList(_, _, _) => InListReads(e, context, parser, q, k);
    case InSub(_, _) => InSubReads(e, context, parser, q, k);
    case Like(_, _, _, _) => LikeReads(e, context, parser, q, k);
    case Similar(_, _, _) => SimilarReads(e, context, parser, q, k);
    case SimilarEscape(_, _, _, _) => SimilarEscapeReads(e, context, parser, q, k);
    case BetweenTest(_, _, _, _) => BetweenReads(e, context, parser, q, k);
    case Distinct(_, _, _) => DistinctReads(e, context, parser, q, k);
    case Bool(_, _) => BoolReads(e, context, parser, q, k);
    case Not(_) => NotReads(e, context, parser, q, k);
    case AtTimeZone(_, _) => AtTimeZoneReads(e, context, parser, q, k);
    case Overlaps(_, _, _, _) => OverlapsReads(e, context, parser, q, k);
    case _ => PostfixReads(e, context, parser, q, k);
  }

  lemma AtomReads(e: Expr, context: Context, parser: Context, q: int, k: seq<Token>)
    requires (e.Atom? || e.ScalarSub?) && Fits(e, context, parser, q, k)
    ensures Reads(parser, q, PrintOn(e, context, k), e, k)
  {
    assert ParsePrimary(parser, PrintOn(e, context, k)) == Some(Parsed(e, k));
    StartReads(parser, q, PrintOn(e, context, k), e, k);
  }

  lemma NumReads(e: Expr, context: Context, parser: Context, q: int, k: seq<Token>)
    requires e.Num? && Fits(e, context, parser, q, k)
    ensures Reads(parser, q, PrintOn(e, context, k), e, k)
  {
    var n := e.number;
    var ts := PrintOn(e, context, k);
    if IsNegative(n) {
      var us := [TNum(Negate(n))] + k;
      assert ParsePrimary(parser, us) == Some(Parsed(Num(Negate(n)), k));
      StartReads(parser, UMINUS_PREC, us, Num(Negate(n)), k);
      OperandEnds(parser, UMINUS_PREC, us, Num(Negate(n)), k);
      assert ts[1..] == us;
    } else {
      assert ParsePrimary(parser, ts) == Some(Parsed(Num(n), k));
    }
    assert ParseStart(parser, ts) == Some(Parsed(Num(n), k));
    StartReads(parser, q, ts, e, k);
  }

  lemma LastItem(ta: seq<Token>, e: Expr, k: seq<Token>)
    requires Parse(AExpr, BOTTOM, ta) == Some(Parsed(e, [RParen] + k))
    ensures ParseList(ta) == Some(Parsed([e], k))
  {
    hide Parse;
    assert ([RParen] + k)[1..] == k;
  }

  lemma MoreItems(ta: seq<Token>, e: Expr, rest: seq<Token>, es: seq<Expr>, k: seq<Token>)
    requires Parse(AExpr, BOTTOM, ta) == Some(Parsed(e, [Comma] + rest)) && ParseList(rest) == Some(Parsed(es, k))
    ensures ParseList(ta) == Some(Parsed([e] + es, k))
  {
    hide Parse;
    assert ([Comma] + rest)[1..] == rest;
  }

  lemma {:induction false} ListReads(es: seq<Expr>, k: seq<Token>)
    requires es != [] && forall e | e in es :: Printable(e)
    ensures ParseList(PrintListOn(es, [RParen] + k)) == Some(Parsed(es, k))
    decreases es, 0
  {
    hide Fits, PrintOn, Buildable, Parse, ParseList, Reads;
    if |es| == 1 {
      ParenFits(es[0], k);
      RoundTripOn(es[0], AExpr, AExpr, BOTTOM, [RParen] + k);
      OperandEnds(AExpr, BOTTOM, PrintOn(es[0], AExpr, [RParen] + k), es[0], [RParen] + k);
      LastItem(PrintOn(es[0], AExpr, [RParen] + k), es[0], k);
      assert es == [es[0]];
    } else {
      var rest := PrintListOn(es[1..], [RParen] + k);
      StopFits(es[0], AExpr, AExpr, [Comma] + rest);
      RoundTripOn(es[0], AExpr, AExpr, BOTTOM, [Comma] + rest);
      OperandEnds(AExpr, BOTTOM, PrintOn(es[0], AExpr, [Comma] + rest), es[0], [Comma] + rest);
      ListReads(es[1..], k);
      MoreItems(PrintOn(es[0], AExpr, [Comma] + rest), es[0], rest, es[1..], k);
      assert [es[0]] + es[1..] == es;
    }
  }

  lemma {:induction false} CallReads(e: Expr, context: Context, parser: Context, q: int, k: seq<Token>)
    requires e.Call? && Fits(e, context, parser, q, k)
    ensures Reads(parser, q, PrintOn(e, context, k), e, k)
    decreases e, 0
  {
    var ti := PrintListOn(e.args, [RParen] + k);
    if e.args != [] {
      ListReads(e.args, k);
      ListEnds(ti, e.args, k);
    } else {
      assert ([LParen] + ti)[2..] == k;
    }
    CallParses(parser, e.fn, e.args, ti, k);
    StartReads(parser, q, [TCall(e.fn)] + ([LParen] + ti), e, k);
  }

  lemma {:induction false} RowReads(e: Expr, context: Context, parser: Context, q: int, k: seq<Token>)
    requires e.Row? && Fits(e, context, parser, q, k)
    ensures Reads(parser, q, PrintOn(e, context, k), e, k)
    decreases e, 0
  {
    hide Parse, Loop, ParseStart, ParseList;
    var ti := PrintListOn(e.items, [RParen] + k);
    ListReads(e.items, k);
    ListEnds(ti, e.items, k);
    RowParses(parser, e.items, ti, k);
    StartReads(parser, q, [LParen] + ti, e, k);
  }

  lemma {:induction false} NullIfReads(e: Expr, context: Context, parser: Context, q: int, k: seq<Token>)
    requires e.NullIf? && Fits(e, context, parser, q, k)
    ensures Reads(parser, q, PrintOn(e, context, k), e, k)
    decreases e, 0
  {
    hide Parse, Loop, ParseStart, ParseArgs;
    var tr := PrintOn(e.right, context, [RParen] + k);
    var tl := PrintOn(e.left, context, [Comma] + tr);
    RoundTripOn(e.left, context, AExpr, BOTTOM, [Comma] + tr);
    RoundTripOn(e.right, context, AExpr, BOTTOM, [RParen] + k);
    PairParses(e.left, e.right, tl, tr, k);
    NullIfParses(parser, e.left, e.right, tl, k);
    StartReads(parser, q, [TNullIf] + ([LParen] + tl), e, k);
  }

  lemma {:induction false} PositionReads(e: Expr, context: Context, parser: Context, q: int, k: seq<Token>)
    requires e.Position? && Fits(e, context, parser, q, k)
    ensures Reads(parser, q, PrintOn(e, context, k), e, k)
    decreases e, 0
  {
    hide Parse, Loop, ParseStart;
    var th := BExprOn(e.haystack, [RParen] + k);
    var tn := BExprOn(e.needle, [TIn(false)] + th);
    BExprReads(e.needle, [TIn(false)] + th);
    BExprReads(e.haystack, [RParen] + k);
    OperandEnds(BExpr, BOTTOM, tn, e.needle, [TIn(false)] + th);
    OperandEnds(BExpr, BOTTOM, th, e.haystack, [RParen] + k);
    PositionParses(parser, e.needle, e.haystack, tn, th, k);
    StartReads(parser, q, [TPosition] + ([LParen] + tn), e, k);
  }

  lemma {:induction false} OverlapsReads(e: Expr, context: Context, parser: Context, q: int, k: seq<Token>)
    requires e.Overlaps? && Fits(e, context, parser, q, k)
    ensures Reads(parser, q, PrintOn(e, context, k), e, k)
    decreases e, 0
  {
    hide Parse, Loop, ParseStart, ParseArgs;
    var t4 := PrintOn(e.end2, AExpr, [RParen] + k);
    var t3 := PrintOn(e.start2, AExpr, [Comma] + t4);
    var k2 := [TOverlaps] + ([LParen] + t3);
    var t2 := PrintOn(e.end1, AExpr, [RParen] + k2);
    var t1 := PrintOn(e.start1, AExpr, [Comma] + t2);
    PairReads(e, e.start2, e.end2, k);
    PairReads(e, e.start1, e.end1, k2);
    OverlapsParses(e.start1, e.end1, e.start2, e.end2, t1, t3, k);
    StartReads(parser, q, [LParen] + t1, e, k);
  }

  lemma {:induction false} PairReads(e: Expr, a: Expr, b: Expr, k: seq<Token>)
    requires a < e && b < e && Printable(a) && Printable(b)
    ensures ParseArgs([LParen] + PrintOn(a, AExpr, [Comma] + PrintOn(b, AExpr, [RParen] + k))) == Some(Parsed([a, b], k))
    decreases e, 0, 0
  {
    hide Parse, Loop, ParseArgs, PrintOn, Buildable, Fits;
    var tb := PrintOn(b, AExpr, [RParen] + k);
    StopFits(a, AExpr, AExpr, [Comma] + tb);
    ParenFits(b, k);
    RoundTripOn(a, AExpr, AExpr, BOTTOM, [Comma] + tb);
    RoundTripOn(b, AExpr, AExpr, BOTTOM, [RParen] + k);
    PairParses(a, b, PrintOn(a, AExpr, [Comma] + tb), tb, k);
  }

  lemma {:induction false} CastReads(e: Expr, context: Context, parser: Context, q: int, k: seq<Token>)
    requires e.Cast? && Fits(e, context, parser, q, k)
    ensures Reads(parser, q, PrintOn(e, context, k), e, k)
    decreases e, 0
  {
    var us := [TTypecast(e.typeName)] + k;
    var ts := PrintOn(e, context, k);
    assert us[1..] == k;
    assert Shift(parser, e.arg, us) == Some(Parsed(e, k));
    hide Parse, Loop, Shift;
    if CastNeedsParens(e.arg) {
      RoundTripOn(e.arg, AExpr, AExpr, BOTTOM, [RParen] + us);
      ParenReads(e.arg, parser, q, PrintOn(e.arg, AExpr, [RParen] + us), us);
    } else {
      RoundTripOn(e.arg, AExpr, parser, q, us);
    }
    ShiftReads(parser, q, ts, e.arg, us, e, k);
  }

  lemma {:induction false} PrefixReads(e: Expr, context: Context, parser: Context, q: int, k: seq<Token>)
    requires e.Prefix? && Fits(e, context, parser, q, k)
    ensures Reads(parser, q, PrintOn(e, context, k), e, k)
    decreases e, 0
  {
    var prec := GetExprPrecedence(e);
    var tr := OperandOn(e.right, prec, RightOperand, context, k);
    OperandReads(e.right, prec, RightOperand, context, parser, prec, k);
    OperandEnds(parser, prec, tr, e.right, k);
    var ts := [QualOpToken(e.opName)] + tr;
    assert ts[1..] == tr;
    hide Parse, Loop, OperandOn;
    assert ParseStart(parser, ts) == Some(Parsed(e, k));
    StartReads(parser, q, ts, e, k);
  }

  lemma {:induction false} NotReads(e: Expr, context: Context, parser: Context, q: int, k: seq<Token>)
    requires e.Not? && Fits(e, context, parser, q, k)
    ensures Reads(parser, q, PrintOn(e, context, k), e, k)
    decreases e, 0
  {
    hide Parse, Loop, BoolArgOn, Reads;
    var ta := BoolArgOn(e.arg, k);
    BoolArgReads(e.arg, NOT_PREC, k);
    OperandEnds(AExpr, NOT_PREC, ta, e.arg, k);
    assert ([TNot] + ta)[1..] == ta;
    assert ParseStart(parser, [TNot] + ta) == Some(Parsed(e, k));
    StartReads(parser, q, [TNot] + ta, e, k);
  }

  lemma {:induction false} BinaryReads(e: Expr, context: Context, parser: Context, q: int, k: seq<Token>)
    requires e.Binary? && Fits(e, context, parser, q, k)
    ensures Reads(parser, q, PrintOn(e, context, k), e, k)
    decreases e, 0
  {
    hide Parse, Loop, Shift;
    var ts := PrintOn(e, context, k);
    var tr := OperandOn(e.right, GetOperatorPrecedence(e.opName), RightOperand, context, k);
    OperandReads(e.right, GetOperatorPrecedence(e.opName), RightOperand, context, parser, GetOperatorPrecedence(e.opName), k);
    OperandEnds(parser, GetOperatorPrecedence(e.opName), tr, e.right, k);
    var us := [QualOpToken(e.opName)] + tr;
    InfixShifts(parser, QualOpToken(e.opName), e.left, e.right, tr, k);
    OperandReads(e.left, GetOperatorPrecedence(e.opName), LeftOperand, context, parser, q, us);
    ShiftReads(parser, q, ts, e.left, us, e, k);
  }

  lemma {:induction false} QuantifiedReads(e: Expr, context: Context, parser: Context, q: int, k: seq<Token>)
    requires e.Quantified? && Fits(e, context, parser, q, k)
    ensures Reads(parser, q, PrintOn(e, context, k), e, k)
    decreases e, 0
  {
    hide Parse, Loop, Shift;
    var tr := PrintOn(e.right, AExpr, [RParen] + k);
    RoundTripOn(e.right, AExpr, AExpr, BOTTOM, [RParen] + k);
    OperandEnds(AExpr, BOTTOM, tr, e.right, [RParen] + k);
    var us := [SubqueryOpToken(e.opName)] + ([TQuantifier(e.quantifier)] + ([LParen] + tr));
    QuantifiedShifts(e.opName, e.quantifier, e.left, e.right, tr, k);
    OperandReads(e.left, GetSubqueryOperatorPrecedence(e.opName), LeftOperand, context, parser, q, us);
    ShiftReads(parser, q, PrintOn(e, context, k), e.left, us, e, k);
  }

  lemma {:induction false} QuantifiedSubReads(e: Expr, context: Context, parser: Context, q: int, k: seq<Token>)
    requires e.QuantifiedSub? && Fits(e, context, parser, q, k)
    ensures Reads(parser, q, PrintOn(e, context, k), e, k)
    decreases e, 0
  {
    hide Parse, Loop, Shift;
    var us := [SubqueryOpToken(e.opName)] + ([TQuantifier(e.quantifier)] + ([LParen] + ([TSelect(e.select)] + ([RParen] + k))));
    QuantifiedSubShifts(e.opName, e.quantifier, e.left, e.select, k);
    OperandReads(e.left, GetSubqueryOperatorPrecedence(e.opName), LeftOperand, AExpr, parser, q, us);
    ShiftReads(parser, q, PrintOn(e, context, k), e.left, us, e, k);
  }

  lemma {:induction false} InListReads(e: Expr, context: Context, parser: Context, q: int, k: seq<Token>)
    requires e.InList? && Fits(e, context, parser, q, k)
    ensures Reads(parser, q, PrintOn(e, context, k), e, k)
    decreases e, 0
  {
    hide Parse, Loop, Shift, ParseList, ParseArgs;
    var ti := PrintListOn(e.items, [RParen] + k);
    var us := [TIn(e.negated)] + ([LParen] + ti);
    ListReads(e.items, k);
    ListEnds(ti, e.items, k);
    InListShifts(e.negated, e.left, e.items, ti, k);
    OperandReads(e.left, BETWEEN_PREC, LeftOperand, context, parser, q, us);
    ShiftReads(parser, q, PrintOn(e, context, k), e.left, us, e, k);
  }

  lemma {:induction false} InSubReads(e: Expr, context: Context, parser: Context, q: int, k: seq<Token>)
    requires e.InSub? && Fits(e, context, parser, q, k)
    ensures Reads(parser, q, PrintOn(e, context, k), e, k)
    decreases e, 0
  {
    hide Parse, Loop, Shift;
    var us := [TIn(false)] + ([LParen] + ([TSelect(e.select)] + ([RParen] + k)));
    InSubShifts(e.left, e.select, k);
    OperandReads(e.left, BETWEEN_PREC, LeftOperand, AExpr, parser, q, us);
    ShiftReads(parser, q, PrintOn(e, context, k), e.left, us, e, k);
  }

  lemma {:induction false} LikeReads(e: Expr, context: Context, parser: Context, q: int, k: seq<Token>)
    requires e.Like? && Fits(e, context, parser, q, k)
    ensures Reads(parser, q, PrintOn(e, context, k), e, k)
    decreases e, 0
  {
    hide Parse, Loop, Shift;
    var ts := PrintOn(e, context, k);
    var tr := OperandOn(e.right, BETWEEN_PREC, RightOperand, context, k);
    OperandReads(e.right, BETWEEN_PREC, RightOperand, context, parser, BETWEEN_PREC, k);
    OperandEnds(parser, BETWEEN_PREC, tr, e.right, k);
    var us := [TLike(e.caseless, e.negated)] + tr;
    InfixShifts(parser, TLike(e.caseless, e.negated), e.left, e.right, tr, k);
    OperandReads(e.left, BETWEEN_PREC, LeftOperand, context, parser, q, us);
    ShiftReads(parser, q, ts, e.left, us, e, k);
  }

  lemma {:induction false} SimilarReads(e: Expr, context: Context, parser: Context, q: int, k: seq<Token>)
    requires e.Similar? && Fits(e, context, parser, q, k)
    ensures Reads(parser, q, PrintOn(e, context, k), e, k)
    decreases e, 0
  {
    hide Parse, Loop, Shift;
    var ts := PrintOn(e, context, k);
    var tr := OperandOn(e.pattern, BETWEEN_PREC, RightOperand, context, k);
    OperandReads(e.pattern, BETWEEN_PREC, RightOperand, context, parser, BETWEEN_PREC, k);
    OperandEnds(parser, BETWEEN_PREC, tr, e.pattern, k);
    var us := [TSimilar(e.negated)] + tr;
    InfixShifts(parser, TSimilar(e.negated), e.left, e.pattern, tr, k);
    OperandReads(e.left, BETWEEN_PREC, LeftOperand, context, parser, q, us);
    ShiftReads(parser, q, ts, e.left, us, e, k);
  }

  lemma {:induction false} SimilarEscapeReads(e: Expr, context: Context, parser: Context, q: int, k: seq<Token>)
    requires e.SimilarEscape? && Fits(e, context, parser, q, k)
    ensures Reads(parser, q, PrintOn(e, context, k), e, k)
    decreases e, 0
  {
    hide Parse, Loop, Shift;
    var te := OperandOn(e.escape, BETWEEN_PREC, RightOperand, context, k);
    var ke := [TEscape] + te;
    var tr := OperandOn(e.pattern, BETWEEN_PREC, RightOperand, context, ke);
    OperandReads(e.escape, BETWEEN_PREC, RightOperand, context, AExpr, BETWEEN_PREC, k);
    OperandEnds(AExpr, BETWEEN_PREC, te, e.escape, k);
    OperandReads(e.pattern, BETWEEN_PREC, RightOperand, context, AExpr, BETWEEN_PREC, ke);
    OperandEnds(AExpr, BETWEEN_PREC, tr, e.pattern, ke);
    var us := [TSimilar(e.negated)] + tr;
    SimilarEscapeShifts(e.negated, e.left, e.pattern, e.escape, tr, te, k);
    OperandReads(e.left, BETWEEN_PREC, LeftOperand, context, parser, q, us);
    ShiftReads(parser, q, PrintOn(e, context, k), e.left, us, e, k);
  }

  lemma {:induction false} BetweenReads(e: Expr, context: Context, parser: Context, q: int, k: seq<Token>)
    requires e.BetweenTest? && Fits(e, context, parser, q, k)
    ensures Reads(parser, q, PrintOn(e, context, k), e, k)
    decreases e, 0
  {
    hide Parse, Loop, Shift;
    var th := OperandOn(e.high, BETWEEN_PREC, RightOperand, context, k);
    var ka := [TConnective(AND)] + th;
    var tl := OperandOn(e.low, BETWEEN_PREC, RightOperand, BExpr, ka);
    OperandReads(e.high, BETWEEN_PREC, RightOperand, context, AExpr, BETWEEN_PREC, k);
    OperandEnds(AExpr, BETWEEN_PREC, th, e.high, k);
    OperandReads(e.low, BETWEEN_PREC, RightOperand, BExpr, BExpr, BOTTOM, ka);
    OperandEnds(BExpr, BOTTOM, tl, e.low, ka);
    var us := [TBetween(e.kind)] + tl;
    BetweenShifts(e.kind, e.left, e.low, e.high, tl, th, k);
    OperandReads(e.left, BETWEEN_PREC, LeftOperand, context, parser, q, us);
    ShiftReads(parser, q, PrintOn(e, context, k), e.left, us, e, k);
  }

  lemma {:induction false} DistinctReads(e: Expr, context: Context, parser: Context, q: int, k: seq<Token>)
    requires e.Distinct? && Fits(e, context, parser, q, k)
    ensures Reads(parser, q, PrintOn(e, context, k), e, k)
    decreases e, 0
  {
    hide Parse, Loop, Shift;
    var ts := PrintOn(e, context, k);
    var tr := OperandOn(e.right, IS_PREC, RightOperand, context, k);
    OperandReads(e.right, IS_PREC, RightOperand, context, parser, IS_PREC, k);
    OperandEnds(parser, IS_PREC, tr, e.right, k);
    var us := [TIsDistinct(e.negated)] + tr;
    InfixShifts(parser, TIsDistinct(e.negated), e.left, e.right, tr, k);
    OperandReads(e.left, IS_PREC, LeftOperand, context, parser, q, us);
    ShiftReads(parser, q, ts, e.left, us, e, k);
  }

  lemma {:induction false} AtTimeZoneReads(e: Expr, context: Context, parser: Context, q: int, k: seq<Token>)
    requires e.AtTimeZone? && Fits(e, context, parser, q, k)
    ensures Reads(parser, q, PrintOn(e, context, k), e, k)
    decreases e, 0
  {
    hide Parse, Loop, Shift;
    var ts := PrintOn(e, context, k);
    var tr := OperandOn(e.zone, AT_PREC, RightOperand, AExpr, k);
    OperandReads(e.zone, AT_PREC, RightOperand, AExpr, parser, AT_PREC, k);
    OperandEnds(parser, AT_PREC, tr, e.zone, k);
    var us := [TAtTimeZone] + tr;
    InfixShifts(parser, TAtTimeZone, e.arg, e.zone, tr, k);
    OperandReads(e.arg, AT_PREC, LeftOperand, AExpr, parser, q, us);
    ShiftReads(parser, q, ts, e.arg, us, e, k);
  }

  /** Operators without a right operand. */
  lemma {:induction false} PostfixReads(e: Expr, context: Context, parser: Context, q: int, k: seq<Token>)
    requires e.IsTest? || e.IsDocument? || e.Collate? || e.AtLocal?
    requires Fits(e, context, parser, q, k)
    ensures Reads(parser, q, PrintOn(e, context, k), e, k)
    decreases e, 0
  {
    var prec := GetExprPrecedence(e);
    var token := match e case IsTest(test, _) => TIsTest(test)
                         case IsDocument(_) => TIsDocument(false)
                         case Collate(_, collation) => TCollate(collation)
                         case _ => TAtLocal;
    var us := [token] + k;
    assert us[1..] == k;
    assert Shift(parser, e.arg, us) == Some(Parsed(e, k)) by { hide PrintOn, Parse, Buildable; }
    hide Parse, Loop, Shift;
    OperandReads(e.arg, prec, LeftOperand, if e.IsDocument? then context else AExpr, parser, q, us);
    ShiftReads(parser, q, PrintOn(e, context, k), e.arg, us, e, k);
  }

  /** Where an operand may stand: a left operand in front of the operator itself, a right operand in
      front of anything that does not extend the operation. */
  predicate OperandPlace(parent: int, side: Side, context: Context, parser: Context, q: int, k: seq<Token>) {
    var la := InfixPrecedence(parser, k);
    && BOTTOM <= q <= parent < ATOM_PREC && parent != NOT_PREC
    && (parser.BExpr? ==> context.BExpr?)
    && (side.LeftOperand? ==> q < parent && la == parent && parent != UMINUS_PREC)
    && (side.RightOperand? ==> la < parent || (la == parent && !NonAssociative(parent)))
    && !StartsWith(k, TOverlaps) && (StartsWith(k, TEscape) ==> parent >= BETWEEN_PREC)
  }

  lemma PrecedenceOf(e: Expr)
    ensures 0 <= GetExprPrecedence(e) <= ATOM_PREC
    ensures GetExprPrecedence(e) == UMINUS_PREC ==> e.Prefix?
    ensures e.Num? ==> GetExprPrecedence(e) == ATOM_PREC
  {
  }

  lemma LookaheadOf(parser: Context, k: seq<Token>)
    ensures BOTTOM <= InfixPrecedence(parser, k) && InfixPrecedence(parser, k) !in {NOT_PREC, UMINUS_PREC}
    ensures StartsWith(k, RParen) || StartsWith(k, TEscape) ==> InfixPrecedence(parser, k) == BOTTOM
  {
  }

  lemma BareOperandFits(e: Expr, parent: int, side: Side, context: Context, parser: Context, q: int, k: seq<Token>)
    requires Printable(e) && OperandPlace(parent, side, context, parser, q, k)
    requires !OperandNeedsParens(e, parent, side, context)
    ensures Fits(e, context, parser, q, k)
  {
    hide Buildable, GetExprPrecedence, InfixPrecedence, NeedsParensAsBExpr;
    PrecedenceOf(e);
    LookaheadOf(parser, k);
  }

  /** Nothing waits and no operator follows. */
  lemma StopFits(e: Expr, context: Context, parser: Context, k: seq<Token>)
    requires Printable(e) && InfixPrecedence(parser, k) == BOTTOM
    requires parser.BExpr? ==> !NeedsParensAsBExpr(e) && context.BExpr?
    requires !StartsWith(k, TOverlaps) && !StartsWith(k, TEscape)
    ensures Fits(e, context, parser, BOTTOM, k)
  {
    hide Buildable, GetExprPrecedence, InfixPrecedence, NeedsParensAsBExpr;
    PrecedenceOf(e);
  }

  lemma ParenFits(e: Expr, k: seq<Token>)
    requires Printable(e)
    ensures Fits(e, AExpr, AExpr, BOTTOM, [RParen] + k)
  {
    LookaheadOf(AExpr, [RParen] + k);
    StopFits(e, AExpr, AExpr, [RParen] + k);
  }

  lemma {:induction false} OperandReads(e: Expr, parent: int, side: Side, context: Context, parser: Context, q: int, k: seq<Token>)
    requires Printable(e) && OperandPlace(parent, side, context, parser, q, k)
    ensures Reads(parser, q, OperandOn(e, parent, side, context, k), e, k)
    decreases e, 2
  {
    hide Parse, Loop, PrintOn, Buildable, Fits, NeedsParensForPrecedence, NeedsParensAsBExpr;
    if OperandNeedsParens(e, parent, side, context) {
      ParenFits(e, k);
      RoundTripOn(e, AExpr, AExpr, BOTTOM, [RParen] + k);
      ParenReads(e, parser, q, PrintOn(e, AExpr, [RParen] + k), k);
    } else {
      BareOperandFits(e, parent, side, context, parser, q, k);
      RoundTripOn(e, context, parser, q, k);
    }
  }

  lemma {:induction false} BExprReads(e: Expr, k: seq<Token>)
    requires Printable(e) && InfixPrecedence(BExpr, k) == BOTTOM
    requires !StartsWith(k, TOverlaps) && !StartsWith(k, TEscape)
    ensures Reads(BExpr, BOTTOM, BExprOn(e, k), e, k)
    decreases e, 2
  {
    hide Parse, Loop, PrintOn, Buildable, Fits, NeedsParensAsBExpr;
    if NeedsParensAsBExpr(e) {
      ParenFits(e, k);
      RoundTripOn(e, AExpr, AExpr, BOTTOM, [RParen] + k);
      ParenReads(e, BExpr, BOTTOM, PrintOn(e, AExpr, [RParen] + k), k);
    } else {
      assert Fits(e, BExpr, BExpr, BOTTOM, k) by { StopFits(e, BExpr, BExpr, k); }
      RoundTripOn(e, BExpr, BExpr, BOTTOM, k);
    }
  }

  lemma {:induction false} BoolArgReads(arg: Expr, q: int, k: seq<Token>)
    requires Printable(arg) && BOTTOM <= q <= NOT_PREC
    requires InfixPrecedence(AExpr, k) < NOT_PREC
    requires !StartsWith(k, TOverlaps) && !StartsWith(k, TEscape)
    ensures Reads(AExpr, q, BoolArgOn(arg, k), arg, k)
    decreases arg, 2
  {
    hide Parse, Loop, PrintOn, Buildable;
    if BoolArgNeedsParens(arg) {
      ParenFits(arg, k);
      RoundTripOn(arg, AExpr, AExpr, BOTTOM, [RParen] + k);
      ParenReads(arg, AExpr, q, PrintOn(arg, AExpr, [RParen] + k), k);
    } else {
      RoundTripOn(arg, AExpr, AExpr, q, k);
    }
  }

  lemma {:induction false} BoolReads(e: Expr, context: Context, parser: Context, q: int, k: seq<Token>)
    requires e.Bool? && Fits(e, context, parser, q, k)
    ensures Reads(parser, q, PrintOn(e, context, k), e, k)
    decreases e, 0
  {
    hide Parse, Loop;
    var c, args := e.connective, e.args;
    var more := [TConnective(c)] + BoolArgsOn(c, args[1..], k);
    BoolArgReads(args[0], q, more);
    assert args[..1] == [args[0]];
    BoolArgsRead(c, args[0], args[..1], args[1..], q, k);
    assert args[..1] + args[1..] == args;
  }

  /** Adding an argument to left gives the connective over `done` and that argument. */
  predicate Collects(c: Connective, left: Expr, done: seq<Expr>) {
    if left.Bool? && left.connective == c then left.args == done else done == [left]
  }

  /** The remaining arguments of AND or OR join the ones already read. */
  lemma {:induction false} BoolArgsRead(c: Connective, left: Expr, done: seq<Expr>, todo: seq<Expr>, q: int, k: seq<Token>)
    requires todo != [] && forall a | a in todo :: Printable(a)
    requires Collects(c, left, done)
    requires BOTTOM <= q < ConnectivePrecedence(c)
    requires InfixPrecedence(AExpr, k) <= ConnectivePrecedence(c)
    requires !StartsWith(k, TOverlaps) && !StartsWith(k, TEscape)
    ensures Loop(AExpr, left, q, [TConnective(c)] + BoolArgsOn(c, todo, k)) == Loop(AExpr, Bool(c, done + todo), q, k)
    decreases todo
  {
    hide Parse, Loop, Buildable, BoolArgOn;
    var a := todo[0];
    var k' := if |todo| == 1 then k else [TConnective(c)] + BoolArgsOn(c, todo[1..], k);
    BoolArgShifts(c, left, done, a, q, k');
    if |todo| == 1 {
      assert todo == [a];
    } else {
      BoolArgsRead(c, Bool(c, done + [a]), done + [a], todo[1..], q, k);
      assert done + [a] + todo[1..] == done + todo;
    }
  }

  lemma ConnectiveShifts(c: Connective, left: Expr, done: seq<Expr>, a: Expr, q: int, ta: seq<Token>, k: seq<Token>)
    requires Collects(c, left, done) && q < ConnectivePrecedence(c)
    requires Parse(AExpr, ConnectivePrecedence(c), ta) == Some(Parsed(a, k))
    ensures Loop(AExpr, left, q, [TConnective(c)] + ta) == Loop(AExpr, Bool(c, done + [a]), q, k)
  {
    hide Parse;
    var us := [TConnective(c)] + ta;
    assert us[1..] == ta && [left] + [a] == [left, a];
    assert Shift(AExpr, left, us) == Some(Parsed(MakeBool(c, left, a), k));
  }

  lemma {:induction false} BoolArgShifts(c: Connective, left: Expr, done: seq<Expr>, a: Expr, q: int, k: seq<Token>)
    requires Printable(a) && Collects(c, left, done)
    requires BOTTOM <= q < ConnectivePrecedence(c)
    requires InfixPrecedence(AExpr, k) <= ConnectivePrecedence(c)
    requires !StartsWith(k, TOverlaps) && !StartsWith(k, TEscape)
    ensures Loop(AExpr, left, q, [TConnective(c)] + BoolArgOn(a, k)) == Loop(AExpr, Bool(c, done + [a]), q, k)
    decreases a, 3
  {
    hide Buildable;
    var ta := BoolArgOn(a, k);
    BoolArgReads(a, ConnectivePrecedence(c), k);
    OperandEnds(AExpr, ConnectivePrecedence(c), ta, a, k);
    ConnectiveShifts(c, left, done, a, q, ta, k);
  }
}
