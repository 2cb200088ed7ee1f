/** The printer as it works in the source: it walks the tree and appends to a buffer.

    Each method has a ghost parameter k, the text its caller will append next, and promises that the
    buffer followed by k has grown by what PrintOn puts in front of k. */
module ExprDeparser {
  import opened ExprSyntax
  import opened ExprPrinter

  class Deparser {
    /** The text printed so far. */
    var out: seq<Token>

    constructor ()
      ensures out == []
    {
      out := [];
    }

    /** The text of a whole expression (deparseExpr called by a statement printer). */
    method DeparseWhole(e: Expr)
      modifies this
      ensures out == old(out) + Print(e)
    {
      hide PrintOn;
      DeparseExpr(e, AExpr, []);
      assert out + [] == out;
    }

    method Append(t: Token, ghost k: seq<Token>)
      modifies this
      ensures out == old(out) + [t] && out + k == old(out) + ([t] + k)
    {
      out := out + [t];
    }

    /** deparseExpr */
    method DeparseExpr(e: Expr, context: Context, ghost k: seq<Token>)
      modifies this
      ensures out + k == old(out) + PrintOn(e, context, k)
      decreases e, 1
    {
      hide PrintOn;
      match e
      case Atom(_) => DeparsePrimary(e, context, k);
      case ScalarSub(_) => DeparsePrimary(e, context, k);
      case Num(_) => DeparsePrimary(e, context, k);
      case Call(_, _) => DeparsePrimary(e, context, k);
      case Row(_) => DeparsePrimary(e, context, k);
      case Cast(_, _) => DeparseTypeCast(e, context, k);
      case Bool(_, _) => DeparseBoolExpr(e, context, k);
      case Not(_) => DeparseBoolExpr(e, context, k);
      case QuantifiedSub(_, _, _, _) => DeparseSubLink(e, context, k);
      case InSub(_, _) => DeparseSubLink(e, context, k);
      case Position(_, _) => DeparseFuncCall(e, context, k);
      case AtTimeZone(_, _) => DeparseFuncCall(e, context, k);
      case AtLocal(_) => DeparseFuncCall(e, context, k);
      case Overlaps(_, _, _, _) => DeparseFuncCall(e, context, k);
      case IsTest(_, _) => DeparsePostfix(e, context, k);
      case IsDocument(_) => DeparsePostfix(e, context, k);
      case Collate(_, _) => DeparsePostfix(e, context, k);
      case _ => DeparseAExpr(e, context, k);
    }

    method DeparsePrimary(e: Expr, context: Context, ghost k: seq<Token>)
      requires e.Atom? || e.ScalarSub? || e.Num? || e.Call? || e.Row?
      modifies this
      ensures out + k == old(out) + PrintOn(e, context, k)
      decreases e, 0
    {
      ghost var close := [RParen] + k;
      match e
      case Atom(name) => Append(TAtom(name), k);
      case ScalarSub(select) => Append(TScalarSub(select), k);
      case Num(n) =>
        if IsNegative(n) {
          Append(TOp(Minus), [TNum(Negate(n))] + k);
          Append(TNum(Negate(n)), k);
        } else {
          Append(TNum(n), k);
        }
      case Call(fn, args) =>
        Append(TCall(fn), [LParen] + PrintListOn(args, close));
        Append(LParen, PrintListOn(args, close));
        DeparseExprList(args, close);
        Append(RParen, k);
      case Row(items) =>
        Append(LParen, PrintListOn(items, close));
        DeparseExprList(items, close);
        Append(RParen, k);
    }

    /** deparseExprList */
    method DeparseExprList(es: seq<Expr>, ghost k: seq<Token>)
      modifies this
      ensures out + k == old(out) + PrintListOn(es, k)
      decreases es, 0
    {
      hide PrintOn;
      for i := 0 to |es|
        invariant out + PrintListOn(es[i..], k) == old(out) + PrintListOn(es, k)
      {
        ghost var rest := es[i..];
        assert rest[0] == es[i] && rest[1..] == es[i+1..];
        if i + 1 < |es| {
          DeparseExpr(es[i], AExpr, [Comma] + PrintListOn(es[i+1..], k));
          Append(Comma, PrintListOn(es[i+1..], k));
        } else {
          DeparseExpr(es[i], AExpr, k);
        }
      }
    }

    /** deparseExprOperand */
    method DeparseExprOperand(e: Expr, parent: int, side: Side, context: Context, ghost k: seq<Token>)
      modifies this
      ensures out + k == old(out) + OperandOn(e, parent, side, context, k)
      decreases e, 2
    {
      hide PrintOn;
      var needParens := NeedsParensForPrecedence(e, parent, side) || (context.BExpr? && NeedsParensAsBExpr(e));
      if needParens {
        Append(LParen, PrintOn(e, AExpr, [RParen] + k));
      }
      DeparseExpr(e, if needParens then AExpr else context, if needParens then [RParen] + k else k);
      if needParens {
        Append(RParen, k);
      }
    }

    /** deparseBExpr */
    method DeparseBExpr(e: Expr, ghost k: seq<Token>)
      modifies this
      ensures out + k == old(out) + BExprOn(e, k)
      decreases e, 2
    {
      hide PrintOn;
      if NeedsParensAsBExpr(e) {
        Append(LParen, PrintOn(e, AExpr, [RParen] + k));
        DeparseExpr(e, AExpr, [RParen] + k);
        Append(RParen, k);
      } else {
        DeparseExpr(e, BExpr, k);
      }
    }

    /** The common case of deparseAExpr: an operand, an operator, and another operand. */
    method DeparseInfix(l: Expr, t: Token, r: Expr, prec: int, context: Context, ghost e: Expr, ghost k: seq<Token>)
      requires l < e && r < e
      modifies this
      ensures out + k == old(out) + OperandOn(l, prec, LeftOperand, context, [t] + OperandOn(r, prec, RightOperand, context, k))
      decreases e, 0, 0
    {
      hide OperandOn;
      DeparseExprOperand(l, prec, LeftOperand, context, [t] + OperandOn(r, prec, RightOperand, context, k));
      Append(t, OperandOn(r, prec, RightOperand, context, k));
      DeparseExprOperand(r, prec, RightOperand, context, k);
    }

    /** deparseAExpr */
    method DeparseAExpr(e: Expr, context: Context, ghost k: seq<Token>)
      requires e.Binary? || e.Prefix? || e.Quantified? || e.InList? || e.Like? || e.Similar? || e.SimilarEscape?
            || e.BetweenTest? || e.Distinct? || e.NullIf?
      modifies this
      ensures out + k == old(out) + PrintOn(e, context, k)
      decreases e, 0, 1
    {
      hide OperandOn;
      var prec := GetExprPrecedence(e);
      ghost var close := [RParen] + k;
      match e
      case Binary(opName, l, r) => DeparseInfix(l, QualOpToken(opName), r, prec, context, e, k);
      case Like(caseless, negated, l, r) => DeparseInfix(l, TLike(caseless, negated), r, prec, context, e, k);
      case Similar(negated, l, r) => DeparseInfix(l, TSimilar(negated), r, prec, context, e, k);
      case Distinct(negated, l, r) => DeparseInfix(l, TIsDistinct(negated), r, prec, context, e, k);
      case Prefix(opName, r) =>
        Append(QualOpToken(opName), OperandOn(r, prec, RightOperand, context, k));
        DeparseExprOperand(r, prec, RightOperand, context, k);
      case Quantified(opName, quantifier, l, r) =>
        // The left operand gets compared against the operator token, not the precedence of the rule
        ghost var inner := PrintOn(r, AExpr, close);
        DeparseExprOperand(l, GetSubqueryOperatorPrecedence(opName), LeftOperand, context,
                           [SubqueryOpToken(opName)] + ([TQuantifier(quantifier)] + ([LParen] + inner)));
        Append(SubqueryOpToken(opName), [TQuantifier(quantifier)] + ([LParen] + inner));
        Append(TQuantifier(quantifier), [LParen] + inner);
        Append(LParen, inner);
        DeparseExpr(r, AExpr, close);
        Append(RParen, k);
      case InList(negated, l, items) =>
        ghost var inner := PrintListOn(items, close);
        DeparseExprOperand(l, prec, LeftOperand, context, [TIn(negated)] + ([LParen] + inner));
        Append(TIn(negated), [LParen] + inner);
        Append(LParen, inner);
        DeparseExprList(items, close);
        Append(RParen, k);
      case SimilarEscape(negated, l, pattern, escape) =>
        ghost var tail := [TEscape] + OperandOn(escape, prec, RightOperand, context, k);
        DeparseInfix(l, TSimilar(negated), pattern, prec, context, e, tail);
        Append(TEscape, OperandOn(escape, prec, RightOperand, context, k));
        DeparseExprOperand(escape, prec, RightOperand, context, k);
      case BetweenTest(kind, l, low, high) =>
        ghost var upper := OperandOn(high, prec, RightOperand, context, k);
        ghost var tail := OperandOn(low, prec, RightOperand, BExpr, [TConnective(AND)] + upper);
        DeparseExprOperand(l, prec, LeftOperand, context, [TBetween(kind)] + tail);
        Append(TBetween(kind), tail);
        DeparseBounds(low, high, prec, context, e, k);
      case NullIf(l, r) => DeparseNullIf(l, r, context, e, k);
    }

    /** The bounds of BETWEEN: the lower one is a b_expr in gram.y, the upper one an a_expr. */
    method DeparseBounds(low: Expr, high: Expr, prec: int, context: Context, ghost e: Expr, ghost k: seq<Token>)
      requires low < e && high < e
      modifies this
      ensures out + k == old(out) + OperandOn(low, prec, RightOperand, BExpr, [TConnective(AND)] + OperandOn(high, prec, RightOperand, context, k))
      decreases e, 0, 0
    {
      hide OperandOn;
      ghost var upper := OperandOn(high, prec, RightOperand, context, k);
      DeparseExprOperand(low, prec, RightOperand, BExpr, [TConnective(AND)] + upper);
      Append(TConnective(AND), upper);
      DeparseExprOperand(high, prec, RightOperand, context, k);
    }

    method DeparseNullIf(l: Expr, r: Expr, context: Context, ghost e: Expr, ghost k: seq<Token>)
      requires l < e && r < e
      modifies this
      ensures out + k == old(out) + ([TNullIf] + ([LParen] + PrintOn(l, context, [Comma] + PrintOn(r, context, [RParen] + k))))
      decreases e, 0, 0
    {
      hide PrintOn;
      ghost var close := [RParen] + k;
      ghost var second := PrintOn(r, context, close);
      Append(TNullIf, [LParen] + PrintOn(l, context, [Comma] + second));
      Append(LParen, PrintOn(l, context, [Comma] + second));
      DeparseExpr(l, context, [Comma] + second);
      Append(Comma, second);
      DeparseExpr(r, context, close);
      Append(RParen, k);
    }

    /** deparseSubLink, the cases with a left operand. */
    method DeparseSubLink(e: Expr, context: Context, ghost k: seq<Token>)
      requires e.QuantifiedSub? || e.InSub?
      modifies this
      ensures out + k == old(out) + PrintOn(e, context, k)
      decreases e, 0
    {
      hide OperandOn;
      ghost var sub := [LParen] + ([TSelect(e.select)] + ([RParen] + k));
      if e.QuantifiedSub? {
        DeparseExprOperand(e.left, GetSubqueryOperatorPrecedence(e.opName), LeftOperand, AExpr,
                           [SubqueryOpToken(e.opName)] + ([TQuantifier(e.quantifier)] + sub));
        Append(SubqueryOpToken(e.opName), [TQuantifier(e.quantifier)] + sub);
        Append(TQuantifier(e.quantifier), sub);
      } else {
        DeparseExprOperand(e.left, BETWEEN_PREC, LeftOperand, AExpr, [TIn(false)] + sub);
        Append(TIn(false), sub);
      }
      Append(LParen, [TSelect(e.select)] + ([RParen] + k));
      Append(TSelect(e.select), [RParen] + k);
      Append(RParen, k);
    }

    /** deparseBoolExpr */
    method DeparseBoolExpr(e: Expr, context: Context, ghost k: seq<Token>)
      requires e.Bool? || e.Not?
      modifies this
      ensures out + k == old(out) + PrintOn(e, context, k)
      decreases e, 0
    {
      hide BoolArgOn, BoolArgsOn;
      if e.Not? {
        Append(TNot, BoolArgOn(e.arg, k));
        DeparseBoolArg(e.arg, k);
      } else {
        DeparseBoolArgs(e.connective, e.args, k);
      }
    }

    method DeparseBoolArgs(c: Connective, args: seq<Expr>, ghost k: seq<Token>)
      modifies this
      ensures out + k == old(out) + BoolArgsOn(c, args, k)
      decreases args, 0
    {
      hide BoolArgOn;
      for i := 0 to |args|
        invariant out + BoolArgsOn(c, args[i..], k) == old(out) + BoolArgsOn(c, args, k)
      {
        ghost var rest := args[i..];
        assert rest[0] == args[i] && rest[1..] == args[i+1..];
        if i + 1 < |args| {
          DeparseBoolArg(args[i], [TConnective(c)] + BoolArgsOn(c, args[i+1..], k));
          Append(TConnective(c), BoolArgsOn(c, args[i+1..], k));
        } else {
          DeparseBoolArg(args[i], k);
        }
      }
    }

    /** AND and OR inside another connective get parentheses, whatever their precedence. */
    method DeparseBoolArg(arg: Expr, ghost k: seq<Token>)
      modifies this
      ensures out + k == old(out) + BoolArgOn(arg, k)
      decreases arg, 2
    {
      hide PrintOn;
      if arg.Bool? {
        Append(LParen, PrintOn(arg, AExpr, [RParen] + k));
        DeparseExpr(arg, AExpr, [RParen] + k);
        Append(RParen, k);
      } else {
        DeparseExpr(arg, AExpr, k);
      }
    }

    /** deparseTypeCast, outside of function position and without the typed-literal shorthands. */
    method DeparseTypeCast(e: Expr, context: Context, ghost k: seq<Token>)
      requires e.Cast?
      modifies this
      ensures out + k == old(out) + PrintOn(e, context, k)
      decreases e, 0
    {
      ghost var tail := [TTypecast(e.typeName)] + k;
      var needParens := NeedsParensAsCExpr(e.arg);
      if e.arg.Num? && (e.arg.number.FloatNum? || e.arg.number.value < 0) {
        needParens := true;
      }
      assert needParens == CastNeedsParens(e.arg);
      hide NeedsParensAsCExpr, CastNeedsParens;
      if needParens {
        Append(LParen, PrintOn(e.arg, AExpr, [RParen] + tail));
        DeparseExpr(e.arg, AExpr, [RParen] + tail);
        Append(RParen, tail);
      } else {
        DeparseExpr(e.arg, AExpr, tail);
      }
      Append(TTypecast(e.typeName), k);
    }

    /** deparseFuncCall, the calls with a syntax of their own that matters here. */
    method DeparseFuncCall(e: Expr, context: Context, ghost k: seq<Token>)
      requires e.Position? || e.AtTimeZone? || e.AtLocal? || e.Overlaps?
      modifies this
      ensures out + k == old(out) + PrintOn(e, context, k)
      decreases e, 0, 1
    {
      hide OperandOn, BExprOn;
      ghost var close := [RParen] + k;
      match e
      case Position(needle, haystack) =>
        ghost var tail := BExprOn(haystack, close);
        Append(TPosition, [LParen] + BExprOn(needle, [TIn(false)] + tail));
        Append(LParen, BExprOn(needle, [TIn(false)] + tail));
        DeparseBExpr(needle, [TIn(false)] + tail);
        Append(TIn(false), tail);
        DeparseBExpr(haystack, close);
        Append(RParen, k);
      case AtTimeZone(arg, zone) => DeparseInfix(arg, TAtTimeZone, zone, AT_PREC, AExpr, e, k);
      case AtLocal(arg) =>
        DeparseExprOperand(arg, AT_PREC, LeftOperand, AExpr, [TAtLocal] + k);
        Append(TAtLocal, k);
      case Overlaps(s1, e1, s2, e2) =>
        ghost var second := [TOverlaps] + ([LParen] + PrintOn(s2, AExpr, [Comma] + PrintOn(e2, AExpr, close)));
        DeparsePair(s1, e1, e, second);
        Append(TOverlaps, [LParen] + PrintOn(s2, AExpr, [Comma] + PrintOn(e2, AExpr, close)));
        DeparsePair(s2, e2, e, k);
    }

    method DeparsePair(a: Expr, b: Expr, ghost e: Expr, ghost k: seq<Token>)
      requires a < e && b < e
      modifies this
      ensures out + k == old(out) + ([LParen] + PrintOn(a, AExpr, [Comma] + PrintOn(b, AExpr, [RParen] + k)))
      decreases e, 0, 0
    {
      hide PrintOn;
      ghost var second := PrintOn(b, AExpr, [RParen] + k);
      Append(LParen, PrintOn(a, AExpr, [Comma] + second));
      DeparseExpr(a, AExpr, [Comma] + second);
      Append(Comma, second);
      DeparseExpr(b, AExpr, [RParen] + k);
      Append(RParen, k);
    }

    /** deparseNullTest, deparseBooleanTest, deparseCollateClause and the IS DOCUMENT test. */
    method DeparsePostfix(e: Expr, context: Context, ghost k: seq<Token>)
      requires e.IsTest? || e.IsDocument? || e.Collate?
      modifies this
      ensures out + k == old(out) + PrintOn(e, context, k)
      decreases e, 0
    {
      hide OperandOn;
      match e
      case IsTest(test, arg) =>
        DeparseExprOperand(arg, IS_PREC, LeftOperand, AExpr, [TIsTest(test)] + k);
        Append(TIsTest(test), k);
      case IsDocument(arg) =>
        DeparseExprOperand(arg, IS_PREC, LeftOperand, context, [TIsDocument(false)] + k);
        Append(TIsDocument(false), k);
      case Collate(arg, collation) =>
        DeparseExprOperand(arg, COLLATE_PREC, LeftOperand, AExpr, [TCollate(collation)] + k);
        Append(TCollate(collation), k);
    }
  }
}
