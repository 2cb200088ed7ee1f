# libpg_query in Dafny

libpg_query wraps the parser of PostgreSQL.  Around it there is code of its own: a printer for parse trees
(the deparser), a fingerprinter, a normaliser, and several walkers over trees and tokens.  This project
models that code and proves what it is for.

`dafny verify dfyconfig.toml` checks everything.

## What is modelled

- **Expressions** (`Expr*.dfy`).  The printer decides on parentheses from fourteen precedence levels, three
  kinds of positions (a_expr, b_expr, c_expr), and special rules for AND, OR, casts and `op ANY (...)`.  The
  other side is an operator-precedence parser that resolves conflicts as the grammar does, from the same
  levels.  Printing and parsing are inverse on every tree that the grammar builds, with an exact condition on
  prefix operators.  `ExprRows` fixes what the levels must be: it names the operators row by row (PostgreSQL
  documentation, section 4.1.6) and says which tree each text of two operators has.  `ExprParens` says that
  parentheses are printed around an operation exactly where the text without them has another tree or none.
- **Queries** (`Query*.dfy`).  The same for SELECT statements: joins with ON, USING, NATURAL and aliases,
  set operations, WITH, ORDER BY, LIMIT, FETCH FIRST, OFFSET, locking clauses and sub-selects in FROM,
  against the rules of the grammar for select statements and table references.
- **Layout** (`Layout*.dfy`).  The layout engine is a class with a stack of nesting levels, part groups and
  parts; its methods do what the C functions do.  A specification, `LayoutScript`, says which words an
  operation writes without looking at any option.  The engine is proved against it for every run, so layout
  options change blanks only.  `LayoutEngine` and `LayoutEmit` give the exact levels, lines and output as
  functions, to which all methods are equal.  What the options do is proved about the characters of the output:
  where commas and texts stand (`LayoutGaps`, `LayoutCommas`, `LayoutPlaces`, `LayoutOutput`), and how lines are
  indented and filled (`LayoutOutput`, `LayoutIndent`).  One kind of blank has a meaning: the newline that ends
  a line comment.  `LayoutLines` says where the output has newlines, and `LayoutComments` which of them can get
  lost.
- **Comments** (`Comments.dfy`, `CommentSwallowed.dfy`).  Comments are found among the tokens, given to
  statements by location, and emitted by the layout engine.  When a line comment swallows the statement behind
  it is decided exactly.
- **Fingerprints** (`Fingerprint*.dfy`).  The hash state is the string of bytes fed to it.  Contexts save and
  restore it around fields and share a cache of sorted item hashes.  The specification, `NodeStream`, has no
  cache, no hash state and no roll-back.  A run with any valid cache is proved to append exactly that stream,
  within a bound on the number of calls; what the stream depends on is proved about the specification, in both
  directions: `FingerprintTheorems` says which trees have one stream, and `FingerprintDiffer` that trees which
  differ in one hashed text have different tokens (`FingerprintTexts`).
- **Normalisation** (`Normalize*.dfy`).  A recording walk that numbers parameters and reuses them in GROUP BY,
  a merge of sorted locations with the tokens, and the splice into a buffer of fixed size, where each symbol
  is read back from its digits (`Decimals`).
- **Summary** (`SummaryCte*.dfy`).  The walk that collects names of WITH queries and resolves relations
  afterwards, against a resolver that follows the scoping rules.
- **Splitting** (`Splitter.dfy`).  The two passes over the tokens.
- **Truncation** (`Truncate*.dfy`).  Cutting parts of a tree until its text fits, replacing marks in place,
  and clipping UTF-8.  `TruncateTheorems` says what one cut does to the text and which cuts there are.
- **Messages** (`Protobuf*.dfy`).  Writing parse trees to messages and reading them back, driven by one
  schema, and the enum tables.

Code that changes things step by step is written as classes with fields, loops and arrays, each method proved
against a function; the properties are lemmas about those functions.  `Sorting.dfy` is qsort with the order of
equal keys left open.

## What the code does not do

Each of these is proved with an input, or as one half of an equivalence.

- A prefix operator is printed without `OPERATOR(...)`.  `OPERATOR(-) 1` comes back as the constant -1, and
  `OPERATOR(*) a` does not parse (`ExprTheorems.PrefixOperatorsThatFail`).  All other trees come back.
- The alias of `USING (...) AS alias` is printed without the quotes that it may need, such as `a b`, `X` or
  `order` (`QueryTheorems.QuotedAliasIsRead`), and `FETCH FIRST` with a NULL count is printed as
  `FETCH FIRST ALL ROWS WITH TIES`, which is no SQL (`QueryTheorems.FetchNullIsRead`).
- The keyword of a group is put in front of a merged line without another look at max_line_length, so that the
  line can exceed it (`LayoutTheorems.KeywordLineOverflows`).
- With pretty_print and without trailing_newline, a statement that ends in a line comment with one or two
  newlines behind it loses them, and the next statement becomes part of the comment
  (`CommentSwallowed.SecondStatementSwallowed`, and exactly then: `Comments.DeparseProtobufOpts`).
- Bitmapsets are written to messages and never read (`ProtobufRoundTrip.RoundTrip`).
- A keyword belongs to no statement if no semicolon outside parentheses follows it and the parentheses of the
  input do not balance (`Splitter.EveryKeywordCovered`, with the input in `Splitter.KeywordInOpenParens`).
- A text that is too long for a limit below 3 becomes "...", which is longer than the limit
  (`TruncateText.ClipFits`).
- The summary takes a plain name for a WITH query anywhere in the statement, also where the WITH query is not
  visible (`SummaryCteTheorems.NameCollectedElsewhere`; `SummaryIsResolution` gives the exact condition).
- With several statements, a comment with a location outside 0 .. INT_MAX - 1 is given to none
  (`Comments.EveryCommentGivenOnce`, with inputs in `Comments.CommentsOutOfRange`).

## Model

| member | source | states |
|---|---|---|
| `ExprTheorems.RoundTrip` | src/postgres_deparse.c:1438-1592 | For every tree that the grammar can build, parsing the printed tokens gives the same tree if and only if every prefix operator in it can be written without `OPERATOR(...)` |
| `ExprTheorems.ParseGivesGrammatical` | src/postgres_deparse.c:1370-1386 | Whatever token text parses at all gives a tree of the class that `RoundTrip` is about; a text without a bare `OPERATOR(op)` gives one that round-trips |
| `ExprTheorems.DeparsePreservesMeaning` | src/postgres_deparse.c:882-964 | Deparsing what was parsed gives text that parses to the same tree, for every text without a bare `OPERATOR(op)` |
| `ExprTheorems.PrintIsInjective` | src/postgres_deparse.c:882-964 | Two different trees never have the same text, so parentheses are never left out where they decide |
| `ExprTheorems.PrintableIsGrammatical` | src/postgres_deparse.c:4021-4196 | Trees that print and read back are trees of the grammar, so the condition of `RoundTrip` is a true subset |
| `ExprTheorems.PrefixOperatorsThatFail` | src/postgres_deparse.c:1324-1336 | The two families that do not come back, with inputs: `OPERATOR(-) 1` is printed `- 1` and reads as the constant -1; `OPERATOR(*) a` is printed `* a` and does not read |
| `ExprTheorems.PrintIsWritable` | src/postgres_deparse.c:1324-1336 | No tree is ever printed with `OPERATOR(op)` without a schema, which is why those two families fail, and no number is printed with its sign in one token |
| `ExprTheorems.PrintIsBExprText` | src/postgres_deparse.c:3981-4011 | A tree that needs no parentheses as a b_expr prints, outside of parentheses, only tokens of the b_expr rules, in front of any following text |
| `ExprTheorems.OperandIsBExprText` | src/postgres_deparse.c:967-982 | The same for whatever is printed in a b_expr position or as an operand of one, so the AND of BETWEEN and the IN of POSITION are the separators the printer meant |
| `ExprTheorems.CExprIsBExprText` | src/postgres_deparse.c:4014-4018 | A tree that needs no parentheses as a c_expr has no a_expr operator outside of parentheses in any context |
| `ExprTheorems.PrintIsBalanced` | src/postgres_deparse.c:882-964 | Every printed expression closes exactly the parentheses that it opens, in every context |
| `ExprTheorems.ParseBuilds` | src/postgres_deparse.c:1370-1386 | The a_expr/b_expr parser built on the precedence levels only builds trees of the grammar: flattened AND/OR, no minus on constants, and so on |
| `ExprParens.LeftParens` | src/postgres_deparse.c:1555-1579 | For any two binary operators, an operation as the left operand of another has parentheses if and only if the text without them does not read as that tree |
| `ExprParens.RightParens` | src/postgres_deparse.c:1555-1579 | The same for the right operand; so `(a + b) * c` keeps its parentheses and `a * b + c` has none |
| `ExprRows.PairReads` | src/postgres_deparse.c:1370-1386 | Which tree the parser gives for every operand between two operators, by the rows of the operator table (section 4.1.6) and without levels: it goes to the operator in the higher row; in one row to the one on its left, except in the rows of BETWEEN/IN/LIKE, comparisons and IS, where the text does not parse |
| `ExprRows.Drawn` | src/postgres_deparse.c:1370-1386 | The same as three statements: to the right, to the left, or ambiguous |
| `ExprRows.Neighbours` | src/postgres_deparse.c:1376-1386 | Each row against the next one by name, from `::` and COLLATE through AT TIME ZONE, `^`, `* / %`, `+ -` to other operators |
| `ExprRows.LowerNeighbours` | src/postgres_deparse.c:1370-1386 | And from there: other operators, LIKE, comparisons, IS, NOT, AND, OR |
| `ExprRows.SameRow` | src/postgres_deparse.c:1376-1386 | Two operators of one arithmetic row, two other operators, two ANDs and two ORs go from left to right |
| `ExprRows.NeedParentheses` | src/postgres_deparse.c:1370-1386 | Two comparisons, two tests like LIKE and IN, or two IS tests do not parse without parentheses |
| `ExprRoundTrip.RoundTripOn` | src/postgres_deparse.c:882-964 | The induction behind `RoundTrip`: printed in any context, read in any parser context with any rule waiting, and followed by any text that does not extend it, a tree reads back and leaves that text |
| `ExprRoundTrip.OperandReads` | src/postgres_deparse.c:1582-1592 | An operand printed for an operator of any precedence, on either side, with or without parentheses, is read back in that place |
| `ExprRoundTrip.BareOperandFits` | src/postgres_deparse.c:1555-1579 | Where the printer leaves out parentheses, every operator on the left edge of the operand binds tighter than the waiting rule and nothing behind it is drawn in |
| `ExprRoundTrip.BExprReads` | src/postgres_deparse.c:967-982 | A b_expr position reads back up to the separator that follows it |
| `ExprRoundTrip.BoolArgReads` | src/postgres_deparse.c:4198-4253 | An argument of AND, OR or NOT reads back although its parentheses are decided without precedence |
| `ExprRoundTrip.BoolArgsRead` | src/postgres_deparse.c:4198-4253 | The remaining arguments of AND or OR join the ones already read into one flat node |
| `ExprRoundTrip.BoolReads` | src/postgres_deparse.c:4198-4253 | AND and OR with any number of arguments read back |
| `ExprRoundTrip.NotReads` | src/postgres_deparse.c:4242-4251 | NOT reads back in every place |
| `ExprRoundTrip.BinaryReads` | src/postgres_deparse.c:4030-4044 | Binary operators of every level read back, associativity included |
| `ExprRoundTrip.PrefixReads` | src/postgres_deparse.c:4030-4044 | Prefix operators read back when they can be written bare or with a schema |
| `ExprRoundTrip.QuantifiedReads` | src/postgres_deparse.c:4045-4061 | `x op ANY/ALL (array)` reads back, though operator token and rule have different levels |
| `ExprRoundTrip.QuantifiedSubReads` | src/postgres_deparse.c:3919-3978 | `x op ANY/ALL (SELECT ...)` reads back |
| `ExprRoundTrip.InSubReads` | src/postgres_deparse.c:3919-3978 | `x IN (SELECT ...)` reads back |
| `ExprRoundTrip.InListReads` | src/postgres_deparse.c:4091-4111 | `x [NOT] IN (list)` reads back |
| `ExprRoundTrip.LikeReads` | src/postgres_deparse.c:4112-4145 | [NOT] LIKE and ILIKE read back, with an ESCAPE as the function call it is |
| `ExprRoundTrip.SimilarReads` | src/postgres_deparse.c:4146-4174 | [NOT] SIMILAR TO reads back |
| `ExprRoundTrip.SimilarEscapeReads` | src/postgres_deparse.c:4146-4174 | [NOT] SIMILAR TO with ESCAPE reads back |
| `ExprRoundTrip.BetweenReads` | src/postgres_deparse.c:4175-4196 | All four forms of BETWEEN read back: the AND of the test is not taken for a conjunction |
| `ExprRoundTrip.DistinctReads` | src/postgres_deparse.c:4062-4079 | IS [NOT] DISTINCT FROM reads back |
| `ExprRoundTrip.NullIfReads` | src/postgres_deparse.c:4080-4090 | NULLIF reads back |
| `ExprRoundTrip.CastReads` | src/postgres_deparse.c:4672-4759 | Casts read back: the argument is a c_expr or in parentheses, and so are constants with a sign |
| `ExprRoundTrip.PostfixReads` | src/postgres_deparse.c:4980-4995 | Postfix tests (IS NULL, IS TRUE, IS DOCUMENT), COLLATE and AT LOCAL read back |
| `ExprRoundTrip.AtTimeZoneReads` | src/postgres_deparse.c:3633-3663 | AT TIME ZONE reads back, its arguments not swapped |
| `ExprRoundTrip.PositionReads` | src/postgres_deparse.c:3518-3534 | POSITION reads back: its IN is not taken for a list test |
| `ExprRoundTrip.OverlapsReads` | src/postgres_deparse.c:3583-3602 | OVERLAPS reads back |
| `ExprDeparser.Deparser.DeparseWhole` | src/postgres_deparse.c:882-964 | The printer as it appends to its buffer adds exactly the text of the whole tree |
| `ExprDeparser.Deparser.DeparseExpr` | src/postgres_deparse.c:882-964 | deparseExpr appends the text of the tree in front of whatever the caller appends next |
| `ExprDeparser.Deparser.DeparseExprOperand` | src/postgres_deparse.c:1582-1592 | deparseExprOperand appends the operand with the parentheses that its place needs |
| `ExprDeparser.Deparser.DeparseBExpr` | src/postgres_deparse.c:967-982 | deparseBExpr appends the expression, in parentheses if it is not a b_expr |
| `ExprDeparser.Deparser.DeparseAExpr` | src/postgres_deparse.c:4021-4196 | deparseAExpr, every kind of operator expression |
| `ExprDeparser.Deparser.DeparseSubLink` | src/postgres_deparse.c:3919-3978 | deparseSubLink, the forms with a left operand |
| `ExprDeparser.Deparser.DeparseBoolExpr` | src/postgres_deparse.c:4198-4253 | deparseBoolExpr, with its loop over the arguments |
| `ExprDeparser.Deparser.DeparseTypeCast` | src/postgres_deparse.c:4672-4759 | deparseTypeCast, the `::` form and the parentheses of its argument |
| `ExprDeparser.Deparser.DeparseFuncCall` | src/postgres_deparse.c:3518-3663 | deparseFuncCall, the calls that have operator syntax or b_expr arguments |
| `ExprDeparser.Deparser.DeparsePostfix` | src/postgres_deparse.c:4980-4995 | IS tests, IS DOCUMENT and COLLATE |
| `QueryTheorems.RoundTrip` | src/postgres_deparse.c:3116-3317 | For every SELECT tree that the grammar can build (joins, set operations, WITH, ORDER BY, LIMIT, OFFSET, locking, sub-selects), parsing the printed text gives the same tree if and only if every USING alias is a lower-case identifier that is no keyword kept from column names, as its characters say, and no FETCH FIRST has a NULL count |
| `QueryTheorems.ParseGivesGrammatical` | src/postgres_deparse.c:3116-3317 | Whatever text parses gives a tree of the class that `RoundTrip` is about |
| `QueryTheorems.PrintIsInjective` | src/postgres_deparse.c:4393-4473 | Two different statements never have the same text: which node a clause or condition belongs to is never lost |
| `QueryTheorems.SetOperationsBind` | src/postgres_deparse.c:3123-3141 | What the grammar reads in a text of two set operations: INTERSECT binds tighter than UNION and EXCEPT, and apart from that the first comes first |
| `QueryTheorems.PlainOperands` | src/postgres_deparse.c:3123-3141 | Operands without clauses of their own are printed without parentheses |
| `QueryTheorems.FetchNullIsRead` | src/postgres_deparse.c:3272-3290 | A text that the grammar reads and whose tree, printed as FETCH FIRST ALL ROWS WITH TIES, does not come back |
| `QueryTheorems.QuotedAliasIsRead` | src/postgres_deparse.c:4453-4464 | For every name that needs its quotes there is a text with that USING alias that the grammar reads, and whose tree does not come back from what is printed |
| `QueryTheorems.NamesThatNeedQuotes` | src/postgres_deparse.c:4453-4464 | Three such names: `a b`, `X` and `order` |
| `QuerySyntax.ReadsItself` | src/postgres_deparse.c:4453-4464 | A name written without quotes is read as itself if and only if it is a lower-case identifier and no reserved, type or function keyword |
| `QueryRoundTrip.SelectReads` | src/postgres_deparse.c:3116-3317 | A SELECT followed by any text that ends a statement reads back with all its clauses |
| `QueryRoundTrip.OperandReads` | src/postgres_deparse.c:3123-3141 | An operand of a set operation, in parentheses exactly when it has clauses of its own or is a set operation, reads back |
| `QueryRoundTrip.BodyReads` | src/postgres_deparse.c:3235-3267 | Set operation trees of any shape keep their nesting and their ALL |
| `QueryRoundTrip.OptionsRead` | src/postgres_deparse.c:3270-3308 | ORDER BY, LIMIT, OFFSET and locking clauses go back to the SELECT they came from |
| `QueryRoundTrip.LimitReads` | src/postgres_deparse.c:3272-3297 | LIMIT or FETCH FIRST and OFFSET read back in the order in which they are printed |
| `QueryRoundTrip.LockingReads` | src/postgres_deparse.c:3299-3308 | Locking clauses read back, in order |
| `QueryRoundTrip.WithReads` | src/postgres_deparse.c:4375-4390 | A WITH clause reads back |
| `QueryRoundTrip.CteReads` | src/postgres_deparse.c:4519-4553 | A common table expression reads back, with MATERIALIZED or not |
| `QueryRoundTrip.TableReads` | src/postgres_deparse.c:2515-2546 | A table reads back, and joins that follow in the text are added to it and not into it |
| `QueryRoundTrip.JoinReads` | src/postgres_deparse.c:4393-4473 | What a join prints after its left operand gives that join: condition, kind and right operand |
| `QueryRoundTrip.RightArgReads` | src/postgres_deparse.c:4399-4443 | A join as a right operand is in parentheses exactly when it has no alias, and reads back |
| `QueryRoundTrip.ParenthesizedJoinReads` | src/postgres_deparse.c:4399-4470 | The alias outside the parentheses belongs to the join |
| `QueryRoundTrip.ConditionReads` | src/postgres_deparse.c:4446-4464 | ON and USING go to the join that printed them |
| `QueryRoundTrip.UsingAliasReads` | src/postgres_deparse.c:4453-4464 | An alias of USING that can go without quotes is read back in front of any text |
| `QueryRoundTrip.SubselectReads` | src/postgres_deparse.c:4555-4569 | A sub-select in FROM reads back, with LATERAL and its alias |
| `QueryRoundTrip.NotASelect` | src/postgres_deparse.c:4402-4405 | A parenthesised join never reads as a sub-select, however deep its left edge is nested |
| `QueryDeparser.Deparser.DeparseWhole` | src/postgres_deparse.c:3116-3317 | The printer as it appends to its buffer adds exactly the text of the statement |
| `QueryDeparser.Deparser.DeparseSelectStmt` | src/postgres_deparse.c:3116-3317 | deparseSelectStmt, alone or as an operand of a set operation |
| `QueryDeparser.Deparser.DeparseWithClause` | src/postgres_deparse.c:4375-4390 | deparseWithClause |
| `QueryDeparser.Deparser.DeparseCommonTableExpr` | src/postgres_deparse.c:4519-4553 | deparseCommonTableExpr |
| `QueryDeparser.Deparser.DeparseOptions` | src/postgres_deparse.c:3270-3308 | ORDER BY, LIMIT, OFFSET and locking, in the order of the code |
| `QueryDeparser.Deparser.DeparseFromClause` | src/postgres_deparse.c:2549-2572 | deparseFromClause and its list loop |
| `QueryDeparser.Deparser.DeparseTableRef` | src/postgres_deparse.c:2515-2546 | deparseTableRef |
| `QueryDeparser.Deparser.DeparseJoinExpr` | src/postgres_deparse.c:4393-4473 | deparseJoinExpr |
| `LayoutTheorems.StatementKeepsCharacters` | src/postgres_deparse.c:413-757 | For every well-bracketed run of layout operations, the words of the statement have exactly the characters that were appended, the group keywords, commas and comments, in order |
| `LayoutTheorems.TwoLayouts` | src/postgres_deparse.c:3410-3447 | Two runs of one printer under any two option sets with the same comments give the same words and the same characters apart from blanks, and they fail together if no comment is empty |
| `LayoutTheorems.GluedWordsStayApart` | src/postgres_deparse.c:630-648 | About the words, not the text itself: a text glued on comes after a space, unless the words before it end in an opening parenthesis or a comma, or it begins with a closing parenthesis, a comma or a semicolon |
| `LayoutTheorems.SpacesAreBlanks` | src/postgres_deparse.c:630-648 | In any text each space of its words stands for a blank of the text, behind the same words; so two outputs with the same words have blanks in the same places, those next to parentheses, commas and semicolons aside |
| `LayoutTheorems.EveryCommentOnce` | src/postgres_deparse.c:568-610 | Whatever locations the printer asks for and in whatever order, a statement emits each of its comments exactly once, and in source order if they are given in order |
| `LayoutTheorems.NonMergeableAlone` | src/postgres_deparse.c:690-712 | Among the lines that flattening makes of a group, a part marked non-mergeable has one of its own, apart from a keyword in front |
| `LayoutTheorems.MergedLinesFit` | src/postgres_deparse.c:690-728 | Each line that flattening makes of a group keeps indent + length to max_line_length or has a single part; the one with the keyword may be the keyword alone, and exceeds the limit only if the keyword is no shorter than the indentation it replaces |
| `LayoutTheorems.KeywordLineOverflows` | src/postgres_deparse.c:714-728 | For every keyword at least as long as the indentation there is a group that is merged within the limit and then exceeds it, because the keyword is inserted without another look at the limit |
| `LayoutState.FilledContent` | src/postgres_deparse.c:690-712 | Merging parts into lines keeps the words |
| `LayoutState.JoinedContent` | src/postgres_deparse.c:701-703 | Parts joined on one line have the words of the parts one after the other |
| `LayoutText.GlueTwo` | src/postgres_deparse.c:697-703 | Joining a part to a trimmed line with one space, or none after an opening parenthesis, has the same words as a new line |
| `LayoutText.GlueKeyword` | src/postgres_deparse.c:714-728 | Putting a keyword and a space in front of a part has the same words as a line of its own |
| `LayoutText.ScanKeepsCharacters` | src/postgres_deparse.c:612-657 | Words keep every character that is not a blank, in order |
| `LayoutScript.LinkedComma` | src/postgres_deparse.c:537-550 | A comma at the start of a part and one at the end of the part before are the same words |
| `LayoutScript.LinkedNewline` | src/postgres_deparse.c:587-606 | A newline written into a part and a new part are the same words |
| `LayoutLevel.ParentOk` | src/postgres_deparse.c:730-739 | Handing the lines of a closed level to its parent keeps what has been written |
| `LayoutEmit.MergeParts` | src/postgres_deparse.c:691-712 | The greedy loop gives the lines of `Merged`: runs of consecutive parts, a line extended exactly while the next part is mergeable and fits; words and newlines are kept |
| `LayoutEmit.CloseGroup` | src/postgres_deparse.c:686-728 | The lines of a group, with its keyword in front or on a line of its own |
| `LayoutEmit.FlattenLevel` | src/postgres_deparse.c:678-757 | The lines of a level are those of its groups, have the words of the level, and keep the newlines that its parts are sure to have |
| `LayoutEmit.EmitPart` | src/postgres_deparse.c:625-651 | One part of the output, in pretty mode or not, is glued to what is there, with exactly the newlines of the part and of the line end |
| `LayoutEmit.EmitParts` | src/postgres_deparse.c:612-657 | deparseEmit gives the output of `Emit`; it adds the words of all parts and no newline but those of the parts and between lines, and fails exactly if there is none |
| `LayoutOutput.OutputInPlace` | src/postgres_deparse.c:537-657 | For every run of layout operations under any options, in the characters of the output: with commas at the end of lines a comma stands directly behind the text before it; with commas at the start of lines it is set off from what is before it, an opening parenthesis aside, and the text behind it is on its line; and every text has no blank that was not in it |
| `LayoutOutput.OutputInLines` | src/postgres_deparse.c:627-648 | A pretty-printing run writes each part behind exactly as many spaces as it is indented, less one space at its end, on lines of its own with one newline between two of them |
| `LayoutOutput.OneSpaceBetween` | src/postgres_deparse.c:627-648 | Any other run adds one space at most between two parts, and nothing else |
| `LayoutOutput.StatementPlaced` | src/postgres_deparse.c:3423-3441 | The parts of a whole statement, comments around it included, have its commas and texts where the output has them |
| `LayoutOutput.AllPut` | src/postgres_deparse.c:612-657 | The output has the gaps of its parts, one wherever a part begins unless none is needed there, and no others |
| `LayoutCommas.CommaBehindText` | src/postgres_deparse.c:546-549 | With commas at the end of lines, nothing comes between a text that does not end in a blank and the comma |
| `LayoutCommas.CommaPlaced` | src/postgres_deparse.c:537-550 | What the comma of a script does to the level that is written, for both options |
| `LayoutPlaces.OpsPlaced` | src/postgres_deparse.c:413-757 | The induction over scripts: through later operations, comments and nested levels, what has been laid out stays where it is |
| `LayoutPlaces.TextBehindComma` | src/postgres_deparse.c:541-544 | With commas at the start of lines, the text behind a comma goes into the part of the comma |
| `LayoutGaps.LinesLaid` | src/postgres_deparse.c:678-728 | Merging and keywords keep the gaps between parts, but for those behind an opening parenthesis, and make no others |
| `LayoutGaps.LaidOnOneLine` | src/postgres_deparse.c:697-703 | The same for two parts joined on one line |
| `LayoutIndent.OpsIndented` | src/postgres_deparse.c:393-403 | At every point of every run, the parts of a group are indented once more than its keyword if the group asks for it and not otherwise, and parts of nested levels deeper by at least one step |
| `LayoutIndent.NestedLinesDeeper` | src/postgres_deparse.c:659-676 | The lines of a nested level are indented at least once more than the part that it is nested in |
| `LayoutIndent.GroupLinesIndented` | src/postgres_deparse.c:714-728 | The keyword of a group comes first and stands at the indentation of its level |
| `LayoutIndent.NextDidNotFit` | src/postgres_deparse.c:690-712 | Merging goes as far as it can: two lines stay apart only if one is not to be merged, or the next part behind a space would exceed max_line_length |
| `LayoutRun.DeparseState.GetCurrentPartGroup` | src/postgres_deparse.c:434-445 | Starts a group and a part where there is none |
| `LayoutRun.DeparseState.MarkCurrentPartNonMergable` | src/postgres_deparse.c:454-459 | Marks the current part, and changes no text |
| `LayoutRun.DeparseState.AppendString` | src/postgres_deparse.c:468-502 | Text goes into the current part |
| `LayoutRun.DeparseState.RemoveTrailingSpace` | src/postgres_deparse.c:504-509 | One space at the end of the current part is dropped |
| `LayoutRun.DeparseState.RemoveTrailingEmptyPart` | src/postgres_deparse.c:511-522 | An empty last part is dropped, and the level is ready to be closed |
| `LayoutRun.DeparseState.AppendPart` | src/postgres_deparse.c:524-535 | A new part begins, at most one empty part at the end |
| `LayoutRun.DeparseState.AppendCommaAndPart` | src/postgres_deparse.c:537-550 | A comma at the start of the next part or at the end of this one, as the option says; the level is then exactly that of `AddComma`, about which `LayoutCommas.CommaPlaced` is |
| `LayoutRun.DeparseState.AppendPartGroup` | src/postgres_deparse.c:552-566 | A keyword and a break |
| `LayoutRun.DeparseState.AppendComment` | src/postgres_deparse.c:576-608 | A comment with its newlines, in pretty mode and not; a line comment with a newline behind it is ended by one |
| `LayoutRun.DeparseState.AppendCommentText` | src/postgres_deparse.c:576-598 | The comment behind its newlines, one less after a keyword, in a part that is never merged |
| `LayoutRun.DeparseState.NewlinesAfter` | src/postgres_deparse.c:600-606 | The newlines behind a comment, the first of which ends it |
| `LayoutRun.DeparseState.AppendNewline` | src/postgres_deparse.c:587-606 | A newline in the text ends a line comment in front of it |
| `LayoutRun.DeparseState.AppendPartAfterComment` | src/postgres_deparse.c:524-535 | A new part behind a part that is never merged ends a line comment |
| `LayoutRun.DeparseState.AppendCommentsIfNeeded` | src/postgres_deparse.c:568-610 | All comments up to a location that were not emitted before, in order |
| `LayoutRun.DeparseState.IncreaseNestingLevel` | src/postgres_deparse.c:659-676 | A nested level begins, under the current one |
| `LayoutRun.DeparseState.DecreaseNestingLevel` | src/postgres_deparse.c:678-757 | The level is flattened into its parent, or into the result at the top, and everything written so far is still there |
| `LayoutRun.DeparseState.RunOp` | src/postgres_deparse.c:413-757 | One operation of a printer, nested levels included, writes what the specification says, and leaves exactly the level of `WriteOp` |
| `LayoutRun.DeparseState.RunStatement` | src/postgres_deparse.c:3423-3441 | Leading comments, the statement, trailing comments: exactly the parts of `StatementParts` |
| `LayoutRun.DeparseState.RunNested` | src/postgres_deparse.c:659-757 | A nested level is opened, written and closed, and its lines are behind the parts of the level around it |
| `LayoutRun.DeparseRawStmtOpts` | src/postgres_deparse.c:3410-3447 | The output is that of the specification, with all commas and texts in their places and, when pretty-printing, line by line behind the indentation; the words that one statement adds to the output do not depend on any option but the comments; it fails if and only if there is nothing to print, whatever the options; and every line comment with a newline behind it is ended by one, except for a last one in a pretty-printing run without a newline at the end, which is if and only if it has three |
| `LayoutLines.JoinBreaks` | src/postgres_deparse.c:697-703 | Parts joined on one line keep the newlines of both |
| `LayoutLines.FilledLines` | src/postgres_deparse.c:690-712 | Merging parts into lines keeps the newlines of the parts and the line ends behind parts that are never merged |
| `LayoutLines.JoinedKeyword` | src/postgres_deparse.c:714-728 | A keyword in front of the first line keeps them too |
| `LayoutLines.OutLinesKeep` | src/postgres_deparse.c:612-657 | The output has all newlines that its parts are sure to have, but for one behind the last part |
| `LayoutComments.StatementEnds` | src/postgres_deparse.c:3423-3441 | A statement needs a newline behind its words if and only if the last comment behind every location that its printer asks for is a line comment with a newline behind it |
| `LayoutComments.StatementKeepsNewlines` | src/postgres_deparse.c:568-657 | Each line comment of a statement is ended by a newline before any other text if and only if the statement does not lose the newline of its last comment: pretty_print without trailing_newline, and at most two newlines behind that comment |
| `LayoutComments.BodyInside` | src/postgres_deparse.c:3461-3467 | A line comment inside a statement has text of the statement behind it |
| `LayoutComments.SweepEnds` | src/postgres_deparse.c:3435-3441 | What is emitted at the end of a statement ends in the last comment that is left over |
| `Comments.CommentsForQuery` | src/pg_query_deparse.c:126-219 | The two passes over the tokens find every comment and nothing else; its match location is 0 or the end of a token before it that is no comment, and no such token ends later; the newlines in front of it are counted from the token before if that is no comment, those behind it up to the next token |
| `Comments.CommentDescribes` | src/pg_query_deparse.c:147-205 | The same for one comment, from the tokens alone |
| `Comments.CommentsRanked` | src/pg_query_deparse.c:142-214 | Each comment token has its place in the result |
| `Comments.CommentsSorted` | src/pg_query_deparse.c:142-214 | The comments come out in the order of their match locations |
| `Comments.CopyDeparseOptsForStmt` | src/pg_query_deparse.c:92-112 | A statement gets exactly the comments whose location is in its range, and all other options unchanged |
| `Comments.DeparseProtobufOpts` | src/pg_query_deparse.c:26-90 | Several statements, with separators, give the words of each statement with its own comments; it fails if and only if a statement prints nothing; and in the output every line comment with a newline behind it is ended by a newline before any other text if and only if no statement but the last loses the newline of its last comment |
| `Comments.EveryCommentGivenOnce` | src/pg_query_deparse.c:39-59 | Over all statements, with ends in order, each comment is given to a statement exactly once and in source order if and only if there is one statement or all locations are from 0 up to the largest int |
| `Comments.CommentsOutOfRange` | src/pg_query_deparse.c:39-59 | An input that fails: comments at -1 and at INT_MAX are given to neither of two statements |
| `Comments.CommentsFit` | src/pg_query_deparse.c:147-205 | The comments of a query are as the deparser needs them, and one has a newline behind it if and only if the query has one in front of the next token |
| `Comments.GivenInRange` | src/pg_query_deparse.c:102-109 | A comment goes to a statement if and only if it is in the range of that statement |
| `Comments.CommentsOfQueryKept` | src/pg_query_deparse.c:39-59 | From the tokens of a query to its deparsed statements: every comment is emitted exactly once, in source order, in the statement whose range holds it, whatever order the tree walk visits locations |
| `Comments.SameWordsWhateverTheOptions` | src/pg_query_deparse.c:26-90 | Two deparses of several statements under different layout options give the same words or fail together |
| `CommentSwallowed.SecondStatementSwallowed` | src/pg_query_deparse.c:55-60 | `SELECT 1 -- c`, newline, `; SELECT 2`: the words are the same under all options, and the newline that ends the comment is in the output if and only if pretty_print is off or trailing_newline is on |
| `FingerprintTheorems.AlikeTreesSameStream` | scripts/generate_fingerprint_outfuncs.rb:36-116 | Trees that differ in constants, parameters and casts of those, in the number of silent items of a list, in the order and repetition of order-insensitive lists, and in digit runs of relation names contribute the same stream, at any number of places and depths |
| `FingerprintTheorems.SameFingerprint` | src/pg_query_fingerprint.c:449-462 | Such trees have the same digest, which is the hash that a run over each of them returns |
| `FingerprintTheorems.Fingerprint` | src/pg_query_fingerprint.c:449-462 | A run from an empty cache returns the digest of the cache-free stream and its tokens, in at most n * (1 + k) calls of _fingerprintNode for n nodes and a nesting of k <= 100 order-insensitive lists |
| `FingerprintTheorems.OrderAndRepetitionIgnored` | src/pg_query_fingerprint.c:152-216 | Order-insensitive lists with the same items in any order and number contribute the same |
| `FingerprintTheorems.RunTakenOut` | src/pg_query_fingerprint.c:277-309 | A run of two or more digits is taken out of the relation name |
| `FingerprintTheorems.NoRunKept` | src/pg_query_fingerprint.c:277-309 | A name without such a run is hashed as it is |
| `FingerprintTheorems.EmptyStreamsIgnored` | src/pg_query_fingerprint.c:209-215 | Items that contribute nothing do not matter for an order-insensitive list |
| `FingerprintTheorems.OtherDigitsIgnored` | src/pg_query_fingerprint.c:277-309 | Other digits in a run of two or more, also of another length, leave the hashed relation name as it is |
| `FingerprintTheorems.AlikeRangeVarStrings` | src/pg_query_fingerprint.c:337-398 | Relations that differ in such digits only contribute the same strings |
| `FingerprintTheorems.AlikeFieldSameStream` | scripts/generate_fingerprint_outfuncs.rb:36-116 | A field whose content is alike keeps or takes back its name in both trees |
| `FingerprintTheorems.SilentStream` | scripts/generate_fingerprint_outfuncs.rb:218-226 | Constants, parameters, casts of those, and lists of nothing else contribute nothing |
| `FingerprintTheorems.OnePassVisitsEachNodeOnce` | src/pg_query_fingerprint.c:400-447 | Without hashing items first, a node is visited at most once |
| `FingerprintDiffer.TextsDecide` | src/pg_query_fingerprint.c:400-447 | Two trees equal but for one hashed text, anywhere in them (a string, number, tag, text of a field, part of a relation), have different token lists: the same tokens but for that text, behind its name in both; in order-insensitive lists if no other item is like the changed one; and without such a list around the text their streams differ |
| `FingerprintDiffer.ValueReads` | src/pg_query_fingerprint.c:410-434 | Every value that is hashed can be read back from its tokens, so none is left out or swapped |
| `FingerprintDiffer.RangeVarReads` | src/pg_query_fingerprint.c:337-398 | Every part of a relation can be read back under its name, exactly where it is hashed |
| `FingerprintDiffer.SortedReplaced` | src/pg_query_fingerprint.c:178-227 | Sorting items by digest puts the changed item in the place of the other |
| `FingerprintTexts.TokensAreStream` | src/pg_query_fingerprint.c:81-93 | The tokens of a tree, one for each string that is hashed, make up its stream |
| `FingerprintOrder.SetOfStreamsDecides` | src/pg_query_fingerprint.c:152-216 | The stream of an order-insensitive list depends only on the set of its items' streams |
| `FingerprintOrder.StrictlySortedUnique` | src/pg_query_fingerprint.c:141-150 | There is only one way to list a set of streams by strictly increasing digest |
| `FingerprintOrder.EmittedIsSortDistinct` | src/pg_query_fingerprint.c:200-215 | Whatever order the unstable sort leaves equal hashes in, skipping equal neighbours emits the same streams |
| `FingerprintCache.NestBounded` | src/pg_query_fingerprint.c:400-406 | The cutoff at depth 100 bounds the nesting of lists, and so the cost |
| `FingerprintCache.EntryElements` | src/pg_query_fingerprint.c:170-207 | A cache entry has one element for each item, with the hash of its stream computed from scratch |
| `FingerprintCache.EntryVisitsPermuted` | src/pg_query_fingerprint.c:209-215 | The cost of emitting does not depend on the order in the entry |
| `FingerprintRun.ListsortCache.constructor` | src/pg_query_fingerprint.c:246-248 | A root context starts with an empty cache |
| `FingerprintRun.Context.constructor` | src/pg_query_fingerprint.c:232-259 | A child context has a fresh hash state on the cache of its parent |
| `FingerprintRun.Context.FingerprintString` | src/pg_query_fingerprint.c:81-93 | A string goes into the hash state and, if tokens are written, onto the token list |
| `FingerprintRun.Context.FingerprintNode` | src/pg_query_fingerprint.c:400-447 | With any valid cache, warm or cold, a node appends to any context exactly its cache-free stream, the cache stays valid, and the cost is bounded |
| `FingerprintRun.Context.FingerprintRangeVar` | src/pg_query_fingerprint.c:337-398 | _fingerprintRangeVar, with its options |
| `FingerprintRun.Context.FingerprintFields` | scripts/generate_fingerprint_outfuncs.rb:278-363 | The generated function of one node type |
| `FingerprintRun.Context.FingerprintField` | scripts/generate_fingerprint_outfuncs.rb:36-215 | Each field template |
| `FingerprintRun.Context.FingerprintNamedNode` | scripts/generate_fingerprint_outfuncs.rb:36-116 | Save, emit, compare digests, roll back: name and content, or nothing at all, in state and tokens |
| `FingerprintRun.Context.FingerprintNamedBody` | scripts/generate_fingerprint_outfuncs.rb:76-97 | The same for pointers to one node type, with the depth cutoff |
| `FingerprintRun.Context.FingerprintList` | src/pg_query_fingerprint.c:152-228 | _fingerprintList, from the cache or after filling it |
| `FingerprintRun.Context.HashItems` | src/pg_query_fingerprint.c:178-207 | Each item in a fresh child context, sorted by digest, and entered in the cache; entries of nested lists are made on the way |
| `FingerprintRun.Context.EmitEntry` | src/pg_query_fingerprint.c:209-215 | The items by digest, one for each |
| `FingerprintRun.Context.EmitItems` | src/pg_query_fingerprint.c:217-227 | The items in list order |
| `NormalizeTheorems.NewIdsAreContiguous` | src/pg_query_normalize.c:317-348 | After any walk, the ids of new parameters in use are exactly 1 up to highest - 1, and every other id is a number of the query |
| `NormalizeTheorems.TreeKeeps` | src/pg_query_normalize.c:350-628 | Every step of the walk keeps that, changes nothing recorded before, and makes no more new ids than records |
| `NormalizeTheorems.NthItemNthTarget` | src/pg_query_normalize.c:504-530 | The n-th GROUP BY item with a fingerprint takes the n-th target with it, and items beyond the last one take none, so that no target is claimed twice |
| `NormalizeTheorems.ReuseKeeps` | src/pg_query_normalize.c:525-530 | GROUP BY reuse releases exactly the ids that the item took |
| `NormalizeTheorems.GroupItemIds` | src/pg_query_normalize.c:504-530 | A GROUP BY item that matches a target takes the ids of that target in order and no new one; any other takes new ids in order |
| `NormalizeTheorems.RefsAreIds` | src/pg_query_normalize.c:459-483 | The params recorded for a target are the ids of its constants, in order |
| `NormalizeTheorems.EverythingRecorded` | src/pg_query_normalize.c:350-628 | The walk records the location of every constant of the tree outside the places it skips, in order, and the highest number in the query |
| `NormalizeTheorems.NumbersApart` | src/pg_query_normalize.c:289-293 | Every new parameter renders above every $n of the query, two constants share a number only if they were given the same id, and the numbers have no gaps |
| `NormalizeTheorems.IdsFit` | src/pg_query_normalize.c:317-348 | All ids fit into a C int if there are fewer constants than that |
| `NormalizeTheorems.Normalize` | src/pg_query_normalize.c:630-692 | The result is the query with a parameter in each hole; each symbol stands in its place and spells the number of its hole in decimal, so two symbols are the same if and only if their numbers are; with the constants back in place it is the query; it has at most query_len + 10 * count bytes; and where locations are well placed, each location is a hole of exactly its constant |
| `NormalizeSplice.GenerateNormalizedQuery` | src/pg_query_normalize.c:224-315 | For any recorded locations, every write stays inside the buffer of query_len + 10 * count + 1 bytes, and the output is the splice of the query |
| `NormalizeSplice.ConstantsBack` | src/pg_query_normalize.c:224-315 | Every byte outside the constants is kept in order |
| `NormalizeSplice.SplicedInPlace` | src/pg_query_normalize.c:281-293 | The text for each hole is in the result, at the place that the texts and holes in front of it give |
| `NormalizeSplice.SymbolsSpell` | src/pg_query_normalize.c:289-293 | A symbol is a dollar sign and digits that read back as its number; two are the same if and only if their numbers are |
| `NormalizeSplice.SymbolLength` | src/pg_query_normalize.c:289-293 | `$n` has at most 11 characters for the sum of two C ints |
| `NormalizeSplice.HolesComplete` | src/pg_query_normalize.c:256-298 | With well-placed locations, the first record of each location is a hole of its whole constant |
| `NormalizeSplice.HolesAreOk` | src/pg_query_normalize.c:256-298 | Holes are in order, apart, and inside the query, whatever was recorded |
| `NormalizeSplice.ConstantsApart` | src/pg_query_normalize.c:106-209 | Well-placed constants do not overlap and are not empty |
| `NormalizeSplice.WriteChunk` | src/pg_query_normalize.c:281-293 | The text up to a constant and its symbol, within the bound of the buffer |
| `NormalizeText.FillInConstantLengths` | src/pg_query_normalize.c:106-209 | One forward pass over the tokens gives each well-placed location the length of its token, and nothing to duplicates; otherwise the records are the same, sorted |
| `NormalizeText.FindConstant` | src/pg_query_normalize.c:143-199 | The search for one constant ends at its last token, the minus sign included |
| `NormalizeText.TrimmedExactly` | src/pg_query_normalize.c:106-209 | A string with Unicode escapes loses exactly the blanks at its end, and every other constant nothing |
| `NormalizeText.ConstantSpans` | src/pg_query_normalize.c:143-199 | A constant is the token at its location, or a minus sign and the token after it |
| `NormalizeText.TrimmedLength` | src/pg_query_normalize.c:106-209 | Blanks that the lexer takes after a string are not part of the constant, and something is always left |
| `Decimals.DecimalReads` | src/pg_query_normalize.c:289-293 | A number is written in digits, without a zero in front, and reads back |
| `Decimals.DecimalsDiffer` | src/pg_query_normalize.c:289-293 | Different numbers are written differently |
| `NormalizeWalk.ConstLocations.RecordConstLocation` | src/pg_query_normalize.c:317-348 | A new record with the next id, and a param ref if they are recorded |
| `NormalizeWalk.ConstLocations.Walk` | src/pg_query_normalize.c:350-628 | const_record_walker |
| `NormalizeWalk.ConstLocations.WalkTargetList` | src/pg_query_normalize.c:459-483 | The target list, with the params of each element |
| `NormalizeWalk.ConstLocations.WalkGroupItem` | src/pg_query_normalize.c:504-530 | One GROUP BY item, matched with the first target of the same fingerprint that no other item has claimed |
| `NormalizeWalk.ConstLocations.WalkGroupClause` | src/pg_query_normalize.c:493-531 | The GROUP BY clause, plain integers left out |
| `NormalizeWalk.ConstLocations.WalkSortClause` | src/pg_query_normalize.c:532-541 | The ORDER BY clause, plain integers left out |
| `SummaryCteTheorems.SummaryIsResolution` | src/pg_query_summary.c:708-752 | With distinct names of WITH queries, the relations found by collecting all names first and resolving after the walk are those of a resolver that follows the scoping rules if and only if names are used only where they are visible, same-named relations inside a definition that is not recursive aside |
| `SummaryCteTheorems.NameCollectedElsewhere` | src/pg_query_summary.c:708-752 | An input that fails: in `SELECT FROM a, (WITH a AS (SELECT) SELECT)` the relation a is left out, and a resolver finds it |
| `SummaryCteTheorems.SameResolution` | src/pg_query_summary.c:708-722 | The same for one reference: the two agree exactly when it is not such a misplaced name |
| `SummaryCteTheorems.OwnIffRecorded` | src/pg_query_summary.c:113-138 | The walker records a reference exactly when it stands inside the non-recursive definition of its name |
| `SummaryCteTheorems.OwnIsNotVisible` | src/pg_query_summary.c:147-186 | No reference is recorded as a self-reference and visible at once |
| `SummaryCteTheorems.WalkAdds` | src/pg_query_summary.c:209-248 | A walk adds the names, self-references and relations of a query to whatever was collected before |
| `SummaryCte.WalkState.CteSelfReferenceWalker` | src/pg_query_summary.c:113-138 | The relations of that name inside a definition are recorded |
| `SummaryCte.WalkState.HandleWithClause` | src/pg_query_summary.c:147-186 | All names are collected, and self-references for definitions that are not recursive and not seen before |
| `SummaryCte.WalkState.WalkImpl` | src/pg_query_summary.c:209-248 | The walk over a query |
| `SummaryCte.WalkState.HandleRangeVars` | src/pg_query_summary.c:724-752 | References that stand for a WITH query are left out |
| `SummaryCte.WalkState.SummaryWalk` | src/pg_query_summary.c:755-800 | The walk, and then the relations |
| `SummaryCte.WalkState.CteNamesInclude` | src/pg_query_summary.c:666-682 | Whether a name has been collected |
| `Splitter.CountStatements` | src/pg_query_split.c:56-82 | The first pass counts the statements |
| `Splitter.Split` | src/pg_query_split.c:82-120 | The second pass fills every slot that the first one counted, once, and none beyond |
| `Splitter.StatementsWellFormed` | src/pg_query_split.c:84-120 | Each segment has a keyword, is at depth 0 at its end, and has no semicolon at depth 0 |
| `Splitter.SegmentsApart` | src/pg_query_split.c:84-120 | Segments are ordered, inside the input and not empty, with at least a semicolon between two of them |
| `Splitter.DepthCounts` | src/pg_query_split.c:56-80 | The depth is the number of opening parentheses less that of closing ones, modulo the range of size_t |
| `Splitter.SegmentsDelimited` | src/pg_query_split.c:84-120 | A segment begins with the input or right behind a semicolon outside parentheses, and ends at one or with the input |
| `Splitter.EveryKeywordCovered` | src/pg_query_split.c:84-120 | Every keyword is part of a segment if and only if the parentheses of the input balance or no keyword comes after its last semicolon outside parentheses |
| `Splitter.KeywordInOpenParens` | src/pg_query_split.c:84-120 | An input that fails: a keyword and an opening parenthesis give no segment |
| `Splitter.SplitAgain` | src/pg_query_split.c:84-120 | Joining the segments with semicolons and splitting again gives the same segments |
| `Truncate.SummaryTruncate` | src/pg_query_summary_truncate.c:53-72 | The result is the full text, or the text after the fewest truncations in order of depth and length that make it fit, or a clip of the text after all of them; it is cut at character boundaries only, and has at most `limit` characters if limit >= 3 |
| `Truncate.ApplyTruncations` | src/pg_query_summary_truncate.c:305-370 | Truncations one by one until the text fits |
| `Truncate.ListSort` | src/pg_query_summary_truncate.c:270-282 | A permutation, deeper ones first and longer ones among those |
| `Truncate.ReplaceMarks` | src/pg_query_summary_truncate.c:354-356 | The three replacements in one buffer |
| `Truncate.TruncationState.Generate` | src/pg_query_summary_truncate.c:121-268 | All parts that can be cut, with their depth; the depth is restored |
| `Truncate.TruncationState.AddTruncation` | src/pg_query_summary_truncate.c:91-107 | Parts of up to three characters are not worth cutting |
| `Truncate.CutValid` | src/pg_query_summary_truncate.c:312-348 | Cutting a part leaves a tree of UTF-8 texts |
| `Truncate.OutputComplete` | src/pg_query_summary_truncate.c:354-356 | Replacing the marks leaves UTF-8 |
| `TruncateTheorems.CutAt` | src/pg_query_summary_truncate.c:312-348 | A cut puts exactly the mark in place of the text of its part, and leaves everything around it |
| `TruncateTheorems.PossibleExactly` | src/pg_query_summary_truncate.c:121-268 | The possible truncations are exactly the parts longer than three characters, with the number of nodes around each of them as depth and the length of its text |
| `TruncateTheorems.MarksBecomeDots` | src/pg_query_summary_truncate.c:354-356 | The marks that cutting leaves become `...` and `SELECT ...` |
| `TruncateText.GlobalReplace` | src/pg_query_summary_truncate.c:284-303 | Replacing in place gives what leftmost replacement gives, and terminates |
| `TruncateText.ReplacedBetweenPieces` | src/pg_query_summary_truncate.c:284-303 | Nothing but the occurrences is touched |
| `TruncateText.PiecesAreLeftmost` | src/pg_query_summary_truncate.c:293-302 | The occurrences are the leftmost ones that do not overlap |
| `TruncateText.IndexOfIsFirst` | src/pg_query_summary_truncate.c:293 | strstr finds the first occurrence |
| `TruncateText.ReplaceOne` | src/pg_query_summary_truncate.c:295-301 | memcpy and memmove replace one occurrence, and move the rest |
| `TruncateText.ReplacedComplete` | src/pg_query_summary_truncate.c:284-303 | Replacing UTF-8 by UTF-8 never breaks a character |
| `TruncateText.TruncateMbstr` | src/pg_query_summary_truncate.c:74-89 | truncate_mbstr clips the text |
| `TruncateText.ClipFits` | src/pg_query_summary_truncate.c:74-89 | A clip has exactly `limit` characters, or 3 if there is no room for "..."; it stays within the limit if and only if limit >= 3, the text fits, or the limit is negative, which as a size_t is none |
| `TruncateText.ClipAtCharacter` | src/pg_query_summary_truncate.c:84-88 | A clip ends at the end of a character |
| `ProtobufRoundTrip.RoundTrip` | src/pg_query_readfuncs_protobuf.c:41-112 | Every tree written to messages and read again gives its canonical form |
| `ProtobufRoundTrip.SecondTripIsIdentity` | src/pg_query_outfuncs_protobuf.c:75-146 | A second trip changes nothing; a tree survives its first one unchanged if and only if it has no empty string, no bitmapset with members and no NULL constant with a value |
| `ProtobufRoundTrip.CanonicalIffLossless` | src/pg_query_readfuncs_protobuf.c:41-112 | The canonical form is the tree itself if and only if nothing of that kind is in it |
| `ProtobufRoundTrip.CanonicalTwice` | src/pg_query_readfuncs_protobuf.c:63-79 | A canonical tree is its own canonical form and fits the schema |
| `ProtobufRoundTrip.FieldRoundTrip` | src/pg_query_readfuncs_protobuf.c:49-112 | The same for every kind of field: empty strings become NULL, bitmapsets are dropped, NULL items and zero constants are kept |
| `ProtobufTree.EnumCodesInvert` | scripts/generate_protobuf_and_funcs.rb:178-206 | Enum codes and values invert each other, and no value has the code 0 |
| `ProtobufRun.OutNode` | src/pg_query_outfuncs_protobuf.c:249-267 | _outNode |
| `ProtobufRun.OutNodes` | src/pg_query_outfuncs_protobuf.c:109-116 | The list loop of the writer |
| `ProtobufRun.OutFields` | src/pg_query_outfuncs_protobuf.c:87-146 | The generated writer of one node type |
| `ProtobufRun.ReadNode` | src/pg_query_readfuncs_protobuf.c:137-196 | _readNode |
| `ProtobufRun.ReadNodes` | src/pg_query_readfuncs_protobuf.c:125-135 | The list loop of the reader |
| `ProtobufRun.ReadStruct` | src/pg_query_readfuncs_protobuf.c:49-112 | The generated reader of one node type |
| `ProtobufRun.OutAndBack` | src/pg_query_outfuncs_protobuf.c:270-336 | What a caller gets who reads back what was written |

## Left out

Stated weaker than one could wish:

- ExprTheorems.RoundTrip: trees and texts of the operators in `ExprSyntax`; columns, parameters and strings are atoms, a SELECT inside an expression is one token, operators of several words are one token, and CASE, explicit ROW, indirection and the typed-literal shorthands of deparseTypeCast are not part of it.
- QueryTheorems.RoundTrip: select lists, WHERE to WINDOW, expressions, name lists, sort clauses and single locking clauses are one token each; SEARCH and CYCLE, column aliases, TABLESAMPLE, table functions, JSON tables, INTO and the WITH TIES checks of the grammar are not part of it.
- QueryTheorems.QuotedAliasIsRead: names of more than 63 bytes, which the lexer cuts off, count as whole names.
- ExprDeparser.Deparser.DeparseSubLink: EXISTS and ARRAY sub-links are not part of it, and a sub-select as a value is one token.
- ExprDeparser.Deparser.DeparseTypeCast: the typed-literal and CAST() shorthands are not part of it.
- ExprDeparser.Deparser.DeparseFuncCall: POSITION, AT TIME ZONE, AT LOCAL and OVERLAPS, and no other special call form.
- QueryDeparser.Deparser.DeparseSelectStmt: INTO is not part of it, and the select list and WHERE to WINDOW are single tokens.
- QueryDeparser.Deparser.DeparseCommonTableExpr: column aliases, SEARCH and CYCLE are not part of it.
- QueryDeparser.Deparser.DeparseTableRef: tables and sub-selects; functions, samples, XML and JSON tables are not part of it.
- Comments.DeparseProtobufOpts: about comments that have a newline behind them, in statements whose printers end in text as all of them do; a line comment that only a carriage return ends has none (`Comments.CommentsFit`).
- LayoutTheorems.TwoLayouts: texts are sequences of bytes in which blanks inside quoted names and literals count as ordinary characters; what the printers of single statements ask of the engine is a parameter, and so is the byte that the original reads in front of an empty buffer.
- FingerprintTheorems.Fingerprint: the hash is an abstract digest, and digests must not collide on the states and streams that the run itself compares (`CollisionFree`); lists must have identities that are not shared between places of the tree (`Located`).  The tokens are those of the stream up to where one ends and the next begins: of two items with one stream and different tokens, the unstable sort may leave either in front.
- FingerprintTheorems.AlikeTreesSameStream: under the same assumption on digests, for both trees.
- FingerprintDiffer.TextsDecide: about the token lists, since streams put strings end to end; the streams differ where no order-insensitive list is around the text.  In such a list no other item may have the stream of the changed item before or after, as it would be hashed in its place.
- LayoutOutput.OutputInPlace: the first character of a statement is set off by the caller, and blanks are told apart from newlines but not counted; `LayoutOutput.OneSpaceBetween` and `LayoutOutput.OutputInLines` count them.
- NormalizeTheorems.NewIdsAreContiguous: GROUP BY items without sub-selects, since the target list of a sub-select resets the recording buffer.
- NormalizeTheorems.Normalize: the same restriction, and fewer than INT_MAX constants, so that ids fit into a C int.
- NormalizeTheorems.GroupItemIds: fingerprints of targets and GROUP BY items are given with the items.
- SummaryCteTheorems.SummaryIsResolution: names of WITH queries are pairwise distinct over the whole statement, and each relation in the tree is an object of its own.
- SummaryCte.WalkState.WalkImpl: names, self-references and relations; filter columns and statements other than queries are not part of it.
- SummaryCte.WalkState.HandleRangeVars: which references count; aliases and the names of table entries are not part of it.
- SummaryCte.WalkState.SummaryWalk: relations; functions, aliases and filter columns are not part of it.
- Splitter.SplitAgain: at the level of token kinds; lexing the joined text is not modelled.
- Truncate.SummaryTruncate: what a tree prints is given by the tree, and the length of a part is the length of its own text; the original deparses a small statement around the part and subtracts the rest.
- TruncateTheorems.CutAt: for a part whose id no other part has, as ids stand for the nodes of the tree.
- Truncate.TruncationState.Generate: the length of a part is the length of its own text, as above.
- ProtobufRoundTrip.RoundTrip: messages are plain data without the wire encoding and its depth limit, and node fields embedded by value other than structs of one type are not part of it.

Not modelled:

- The lexer and the grammar of PostgreSQL: tokens are given where the code scans text, and the two parsers here cover the rules named above.
- The printers of utility statements, INSERT, UPDATE, DELETE and MERGE: long, but settled by reading one branch each.
- Dollar quoting of function bodies: its round trip needs conditions on the body that the code does not check.
- The precedence of `!=`, which the lexer turns into `<>`, and integer constants outside of 32 bits.
- Integer and OID lists in messages: no grammar action builds one, and the writer takes their items for nodes.
- The field lists of the node types: they are a schema, or fields of the tree, in the fingerprinter and in the messages; the generated switch over node types is the match on the tag.
- Growing arrays by doubling, and freeing: sequences grow by one.
- The buffer length of the normaliser as a C int: it is unbounded here.
- Filter columns, functions, aliases and the statement types of the summary: the WHERE clause is walked twice and a sub-select ends the first walk.
- Memory contexts, errors by longjmp, thread-local state, redirected stderr and stack-depth checks; running out of stack is an error in the original.
- PL/pgSQL, the JSON and C++ backends, and the scripts that extract the sources of PostgreSQL.
