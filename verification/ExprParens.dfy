/** Parentheses are printed around an operand exactly where the grammar would read the text without them as
    something else, or not at all. */
module ExprParens {
  import opened ExprSyntax
  import opened ExprPrinter
  import opened ExprGrammar
  import opened ExprRows
  import opened ExprTheorems

  function Operation(op: Oper, left: Expr, right: Expr): Expr {
    Binary(Plain(op), left, right)
  }

  /** What the grammar reads in a text of two operators. */
  lemma TwoOperators(first: Oper, second: Oper, a: string, b: string, c: string)
    ensures var r, s := OperatorRow(first), OperatorRow(second);
            ParseText([TAtom(a), TOp(first), TAtom(b), TOp(second), TAtom(c)]) ==
            if Above(s, r) then Some(Operation(first, Atom(a), Operation(second, Atom(b), Atom(c))))
            else if r == s && NoAssociation(r) then None
            else Some(Operation(second, Operation(first, Atom(a), Atom(b)), Atom(c)))
  {
    hide ParseText, Above;
    var o, f := Infix(a, TOp(first)), Then(TOp(second), c);
    PairReads(o, b, f);
    assert OpenerText(o) + ([TAtom(b)] + FollowerText(f)) == [TAtom(a), TOp(first), TAtom(b), TOp(second), TAtom(c)];
  }

  /** The rows decide on parentheses as the levels do. */
  lemma RowsDecide(e: Expr, first: Oper, second: Oper)
    requires e.Binary? && e.opName == Plain(first)
    ensures var r, s := OperatorRow(first), OperatorRow(second);
            && (NeedsParensForPrecedence(e, OperPrecedence(second), LeftOperand) <==> Above(s, r) || (r == s && NoAssociation(r)))
            && (NeedsParensForPrecedence(e, OperPrecedence(second), RightOperand) <==> !Above(r, s))
  {
    AboveIsHigher(OperatorRow(first), OperatorRow(second));
    AboveIsHigher(OperatorRow(second), OperatorRow(first));
    assert Height(OperatorRow(first)) == OperPrecedence(first) && Height(OperatorRow(second)) == OperPrecedence(second);
  }

  lemma InParens(e: Expr, parent: int, side: Side, k: seq<Token>)
    ensures OperandOn(e, parent, side, AExpr, k) ==
            if NeedsParensForPrecedence(e, parent, side) then [LParen] + PrintOn(e, AExpr, [RParen] + k) else PrintOn(e, AExpr, k)
  {
  }

  lemma OperationOn(op: Oper, left: Expr, right: Expr)
    ensures Print(Operation(op, left, right)) ==
            OperandOn(left, OperPrecedence(op), LeftOperand, AExpr, [TOp(op)] + OperandOn(right, OperPrecedence(op), RightOperand, AExpr, []))
  {
  }

  /** The operand on the left. */
  lemma LeftParens(first: Oper, second: Oper, a: string, b: string, c: string)
    ensures var e := Operation(second, Operation(first, Atom(a), Atom(b)), Atom(c));
            var bare := [TAtom(a), TOp(first), TAtom(b), TOp(second), TAtom(c)];
            Print(e) == if ParseText(bare) == Some(e) then bare
                        else [LParen, TAtom(a), TOp(first), TAtom(b), RParen, TOp(second), TAtom(c)]
  {
    hide ParseText, Print, OperandOn, PrintOn, Above, NeedsParensForPrecedence;
    var left := Operation(first, Atom(a), Atom(b));
    TwoOperators(first, second, a, b, c);
    RowsDecide(left, first, second);
    OperationOn(second, left, Atom(c));
    AtomOperand(c, OperPrecedence(second), RightOperand, []);
    var k := [TOp(second)] + ([TAtom(c)] + []);
    InParens(left, OperPrecedence(second), LeftOperand, k);
    OfAtoms(first, a, b, k);
    OfAtoms(first, a, b, [RParen] + k);
    assert [TAtom(a), TOp(first), TAtom(b)] + k == [TAtom(a), TOp(first), TAtom(b), TOp(second), TAtom(c)];
    assert [LParen] + ([TAtom(a), TOp(first), TAtom(b)] + ([RParen] + k)) ==
           [LParen, TAtom(a), TOp(first), TAtom(b), RParen, TOp(second), TAtom(c)];
  }

  /** And the one on the right. */
  lemma RightParens(first: Oper, second: Oper, a: string, b: string, c: string)
    ensures var e := Operation(first, Atom(a), Operation(second, Atom(b), Atom(c)));
            var bare := [TAtom(a), TOp(first), TAtom(b), TOp(second), TAtom(c)];
            Print(e) == if ParseText(bare) == Some(e) then bare
                        else [TAtom(a), TOp(first), LParen, TAtom(b), TOp(second), TAtom(c), RParen]
  {
    hide ParseText, Print, OperandOn, PrintOn, Above, NeedsParensForPrecedence;
    var right := Operation(second, Atom(b), Atom(c));
    TwoOperators(first, second, a, b, c);
    RowsDecide(right, second, first);
    OperationOn(first, Atom(a), right);
    InParens(right, OperPrecedence(first), RightOperand, []);
    OfAtoms(second, b, c, []);
    OfAtoms(second, b, c, [RParen] + []);
    var k := [TOp(first)] + OperandOn(right, OperPrecedence(first), RightOperand, AExpr, []);
    AtomOperand(a, OperPrecedence(first), LeftOperand, k);
    assert [TAtom(a)] + ([TOp(first)] + ([TAtom(b), TOp(second), TAtom(c)] + [])) == [TAtom(a), TOp(first), TAtom(b), TOp(second), TAtom(c)];
    assert [TAtom(a)] + ([TOp(first)] + ([LParen] + ([TAtom(b), TOp(second), TAtom(c)] + ([RParen] + [])))) ==
           [TAtom(a), TOp(first), LParen, TAtom(b), TOp(second), TAtom(c), RParen];
  }
}
