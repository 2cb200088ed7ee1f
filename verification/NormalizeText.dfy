/** Finding the text of the recorded constants in one pass over the tokens, and putting parameters in
    their place. */
module NormalizeText {
  import opened Sorting

  /** location: where a constant starts; length: of its text, or -1 to ignore it; paramId: negative for a
      new parameter, whose number then starts after the highest one in the query. */
  datatype LocationLen = LocationLen(location: int, length: int, paramId: int)

  /** A token of the lexer, as an interval of the query. */
  datatype Token = Token(start: nat, end: nat)

  predicate TokensOk(query: string, tokens: seq<Token>) {
    && (forall k | 0 <= k < |tokens| :: tokens[k].start < tokens[k].end <= |query|)
    && (forall j, k | 0 <= j < k < |tokens| :: tokens[j].end <= tokens[k].start)
  }

  predicate Fresh(locs: seq<LocationLen>) {
    forall i | 0 <= i < |locs| :: locs[i].location >= 0 && locs[i].length == -1
  }

  predicate SortedByLocation(locs: seq<LocationLen>) {
    forall i, j | 0 <= i < j < |locs| :: locs[i].location <= locs[j].location
  }

  predicate IsSpace(c: char) {
    c == ' ' || c == '\t' || c == '\n' || c == '\r' || c == '\U{B}' || c == '\U{C}'
  }

  /** The first n characters at loc without blanks at the end. */
  function WithoutSpaces(query: string, loc: nat, n: nat): (m: nat)
    requires loc + n <= |query|
    ensures m <= n && (n > 0 && !IsSpace(query[loc]) ==> m >= 1)
  {
    if n == 0 || !IsSpace(query[loc + n - 1]) then n else WithoutSpaces(query, loc, n - 1)
  }

  /** The lexer takes blanks after a string with Unicode escapes; they are not part of the constant. */
  function TrimmedLength(query: string, loc: nat, n: nat): (m: nat)
    requires loc + n <= |query|
    ensures m <= n && (n >= 1 ==> m >= 1)
  {
    if n > 4 && (query[loc] == 'u' || query[loc] == 'U') && query[loc+1] == '&' && query[loc+2] == '\''
    then WithoutSpaces(query, loc, n) else n
  }

  /** The text has U&' in front, and something besides. */
  predicate HasUnicodeEscapes(text: string) {
    |text| > 4 && text[0] in "uU" && text[1..3] == "&'"
  }

  lemma {:induction false} OnlySpacesDropped(query: string, loc: nat, n: nat)
    requires loc + n <= |query|
    ensures var m := WithoutSpaces(query, loc, n);
            (forall k | loc + m <= k < loc + n :: IsSpace(query[k])) && (m > 0 ==> !IsSpace(query[loc + m - 1]))
  {
    if n > 0 && IsSpace(query[loc + n - 1]) {
      OnlySpacesDropped(query, loc, n - 1);
    }
  }

  /** No blank is left at the end of a string with Unicode escapes, and nothing else is dropped; every other
      constant is as long as its tokens. */
  lemma TrimmedExactly(query: string, loc: nat, n: nat)
    requires n >= 1 && loc + n <= |query|
    ensures var m := TrimmedLength(query, loc, n);
            if HasUnicodeEscapes(query[loc..loc + n])
            then !IsSpace(query[loc + m - 1]) && forall k | loc + m <= k < loc + n :: IsSpace(query[k])
            else m == n
  {
    OnlySpacesDropped(query, loc, n);
    var text := query[loc..loc + n];
    if |text| > 4 {
      assert text[1..3] == [text[1], text[2]] && "&'" == ['&', '\''];
      assert text[0] == query[loc] && text[1] == query[loc+1] && text[2] == query[loc+2];
      assert text[0] in "uU" <==> text[0] == 'u' || text[0] == 'U';
    }
  }

  /** How many tokens start before loc: the index of the first one that does not. */
  function First(tokens: seq<Token>, loc: int): (k: nat)
    ensures k <= |tokens|
    ensures forall j | 0 <= j < k :: tokens[j].start < loc
    ensures k < |tokens| ==> tokens[k].start >= loc
  {
    if tokens == [] || tokens[0].start >= loc then 0 else 1 + First(tokens[1..], loc)
  }

  /** The last token of a constant: a minus sign takes the token after it along. */
  function LastToken(query: string, tokens: seq<Token>, loc: int): nat {
    var k := First(tokens, loc);
    if 0 <= loc < |query| && query[loc] == '-' then k + 1 else k
  }

  /** The length of the constant at loc. */
  function ConstantLength(query: string, tokens: seq<Token>, loc: nat): (n: int)
    requires TokensOk(query, tokens)
    ensures n == -1 || (n >= 1 && loc + n <= |query|)
  {
    var k := LastToken(query, tokens, loc);
    if k < |tokens| then
      assert tokens[First(tokens, loc)].start >= loc;
      TrimmedLength(query, loc, tokens[k].end - loc)
    else -1
  }

  /** Constants start with a token, and none starts right after the minus sign of another. */
  predicate WellPlaced(query: string, tokens: seq<Token>, locs: seq<LocationLen>) {
    && (forall i | 0 <= i < |locs| :: IsStart(tokens, locs[i].location) && LastToken(query, tokens, locs[i].location) < |tokens|)
    && (forall i, j | 0 <= i < |locs| && 0 <= j < |locs| && locs[i].location < locs[j].location ::
          LastToken(query, tokens, locs[i].location) < First(tokens, locs[j].location))
  }

  predicate IsStart(tokens: seq<Token>, loc: int) {
    var k := First(tokens, loc);
    k < |tokens| && tokens[k].start == loc
  }

  /** A constant is the token that starts where it does, or a minus sign and the token after it. */
  lemma ConstantSpans(query: string, tokens: seq<Token>, k: nat)
    requires TokensOk(query, tokens) && k < |tokens|
    ensures var loc, last := tokens[k].start, if query[tokens[k].start] == '-' then k + 1 else k;
            ConstantLength(query, tokens, loc) ==
            if last == |tokens| then -1 else TrimmedLength(query, loc, tokens[last].end - loc)
  {
    assert forall j | 0 <= j < k :: tokens[j].start < tokens[k].start;
  }

  // ---------- Sorting ----------

  lemma {:induction false} PermutedFresh(a: seq<LocationLen>, b: seq<LocationLen>)
    requires multiset(a) == multiset(b) && Fresh(a)
    ensures Fresh(b)
  {
    forall i | 0 <= i < |b| ensures b[i].location >= 0 && b[i].length == -1 {
      assert b[i] in multiset(b);
      assert b[i] in a;
    }
  }

  // ---------- Lengths ----------

  /** What the lengths say: nothing beyond the query, and nothing for the second record of a location. */
  predicate LengthsOk(query: string, locs: seq<LocationLen>, n: nat) {
    && n <= |locs|
    && (forall i | 0 <= i < n :: locs[i].length == -1 || (locs[i].length >= 1 && locs[i].location + locs[i].length <= |query|))
    && (forall i | 0 < i < n && locs[i].location == locs[i-1].location :: locs[i].length == -1)
  }

  predicate FirstRecord(locs: seq<LocationLen>, i: nat) {
    i < |locs| && (i > 0 ==> locs[i-1].location < locs[i].location)
  }

  /** The first n records have the lengths of their constants, if they are the first of their location. */
  ghost predicate LengthsExact(query: string, tokens: seq<Token>, locs: seq<LocationLen>, n: nat)
    requires TokensOk(query, tokens)
  {
    n <= |locs| && forall i | 0 <= i < n && FirstRecord(locs, i) && locs[i].location >= 0 ::
                     locs[i].length == ConstantLength(query, tokens, locs[i].location)
  }

  /** The records without the lengths that were filled in. */
  function Blank(locs: seq<LocationLen>): (r: seq<LocationLen>)
    ensures |r| == |locs| && forall i | 0 <= i < |locs| :: r[i] == locs[i].(length := -1)
  {
    seq(|locs|, i requires 0 <= i < |locs| => locs[i].(length := -1))
  }

  /** Lex up to the first token that starts at loc or later. */
  method LexTo(tokens: seq<Token>, pos: nat, loc: int) returns (k: nat)
    requires pos <= |tokens| && forall i, j | 0 <= i < j < |tokens| :: tokens[i].start < tokens[j].start
    ensures pos <= k <= |tokens| && (k < |tokens| ==> tokens[k].start >= loc)
    ensures pos <= First(tokens, loc) ==> k == First(tokens, loc)
  {
    k := pos;
    while k < |tokens| && tokens[k].start < loc
      invariant pos <= k <= |tokens|
      invariant pos <= First(tokens, loc) ==> k <= First(tokens, loc)
    {
      k := k + 1;
    }
  }

  /** No token of a constant still to come has been lexed. */
  ghost predicate Ahead(query: string, tokens: seq<Token>, locs: seq<LocationLen>, i: nat, lastLoc: int, pos: nat) {
    forall j | i <= j < |locs| && locs[j].location > lastLoc :: pos <= First(tokens, locs[j].location)
  }

  lemma {:induction false} AheadNext(query: string, tokens: seq<Token>, locs: seq<LocationLen>, i: nat)
    requires WellPlaced(query, tokens, locs) && i < |locs|
    ensures Ahead(query, tokens, locs, i + 1, locs[i].location, LastToken(query, tokens, locs[i].location) + 1)
    ensures LastToken(query, tokens, locs[i].location) < |tokens|
  {
    hide LastToken, First;
  }

  lemma {:induction false} Increasing(query: string, tokens: seq<Token>)
    requires TokensOk(query, tokens)
    ensures forall i, j | 0 <= i < j < |tokens| :: tokens[i].start < tokens[j].start
  {
  }

  lemma {:induction false} TokenBounds(query: string, tokens: seq<Token>, k: nat)
    requires TokensOk(query, tokens) && k < |tokens|
    ensures tokens[k].start < tokens[k].end <= |query|
    ensures k > 0 ==> tokens[k-1].start < tokens[k].start
  {
  }

  /** The first i records, in order of location, are done: lengths are filled in, and tokens lexed. */
  ghost predicate Done(query: string, tokens: seq<Token>, sorted: seq<LocationLen>, locs: seq<LocationLen>, i: nat, lastLoc: int, pos: nat)
    requires TokensOk(query, tokens)
  {
    && Fresh(sorted) && SortedByLocation(sorted) && |locs| == |sorted| && i <= |locs| && pos <= |tokens|
    && (forall j | 0 <= j < |locs| :: locs[j] == sorted[j].(length := locs[j].length))
    && (forall j | i <= j < |locs| :: locs[j].length == -1)
    && lastLoc == (if i == 0 then -1 else sorted[i-1].location)
    && LengthsOk(query, locs, i)
    && (WellPlaced(query, tokens, sorted) ==> Ahead(query, tokens, sorted, i, lastLoc, pos) && LengthsExact(query, tokens, locs, i))
  }

  lemma {:induction false} DuplicateDone(query: string, tokens: seq<Token>, sorted: seq<LocationLen>, locs: seq<LocationLen>, i: nat, lastLoc: int, pos: nat)
    requires TokensOk(query, tokens) && Done(query, tokens, sorted, locs, i, lastLoc, pos) && i < |locs| && locs[i].location <= lastLoc
    ensures Done(query, tokens, sorted, locs, i + 1, lastLoc, pos)
  {
    hide TokensOk, First, LastToken, ConstantLength, WellPlaced;
  }

  /** The search for a constant that is well placed ends at its last token. */
  lemma {:induction false} SearchExact(query: string, tokens: seq<Token>, sorted: seq<LocationLen>, locs: seq<LocationLen>, i: nat, lastLoc: int, pos: nat)
    requires TokensOk(query, tokens) && Done(query, tokens, sorted, locs, i, lastLoc, pos) && i < |locs| && locs[i].location > lastLoc
    requires WellPlaced(query, tokens, sorted)
    ensures var loc := locs[i].location;
            && 0 <= loc < |query| && pos <= First(tokens, loc) && LastToken(query, tokens, loc) < |tokens|
            && First(tokens, loc) < |tokens| && tokens[First(tokens, loc)].start == loc
            && Ahead(query, tokens, sorted, i + 1, loc, LastToken(query, tokens, loc) + 1)
  {
    hide LastToken, ConstantLength, LengthsExact, LengthsOk;
    assert IsStart(tokens, sorted[i].location);
    AheadNext(query, tokens, sorted, i);
  }

  lemma {:induction false} SearchStarts(query: string, tokens: seq<Token>, sorted: seq<LocationLen>, locs: seq<LocationLen>, i: nat, lastLoc: int, pos: nat)
    requires TokensOk(query, tokens) && Done(query, tokens, sorted, locs, i, lastLoc, pos) && i < |locs|
    ensures locs[i].location >= 0 && pos <= |tokens|
    ensures forall i, j | 0 <= i < j < |tokens| :: tokens[i].start < tokens[j].start
  {
    Increasing(query, tokens);
    assert sorted[i].location >= 0;
  }

  lemma {:induction false} SearchEnds(query: string, tokens: seq<Token>, sorted: seq<LocationLen>, locs: seq<LocationLen>, i: nat, lastLoc: int, pos: nat)
    requires TokensOk(query, tokens) && Done(query, tokens, sorted, locs, i, lastLoc, pos) && i < |locs| && locs[i].location > lastLoc
    requires WellPlaced(query, tokens, sorted)
    ensures var loc, k := locs[i].location, LastToken(query, tokens, locs[i].location);
            && 0 <= loc < |query| && pos <= First(tokens, loc)
            && k == First(tokens, loc) + (if query[loc] == '-' then 1 else 0) && k < |tokens|
            && loc <= tokens[k].end <= |query| && ConstantLength(query, tokens, loc) == TrimmedLength(query, loc, tokens[k].end - loc)
  {
    hide Done, First, WellPlaced, TrimmedLength, TokensOk, ConstantLength, Ahead;
    SearchExact(query, tokens, sorted, locs, i, lastLoc, pos);
    LengthIs(query, tokens, locs[i].location);
  }

  lemma {:induction false} ConstantDone(query: string, tokens: seq<Token>, sorted: seq<LocationLen>, locs: seq<LocationLen>, i: nat, lastLoc: int, pos: nat,
                     k: nat, length: int)
    requires TokensOk(query, tokens) && Done(query, tokens, sorted, locs, i, lastLoc, pos) && i < |locs| && locs[i].location > lastLoc
    requires k < |tokens| && length >= 1 && locs[i].location + length <= |query|
    requires WellPlaced(query, tokens, sorted) ==>
               k == LastToken(query, tokens, locs[i].location) && length == ConstantLength(query, tokens, locs[i].location)
    ensures Done(query, tokens, sorted, locs[i := locs[i].(length := length)], i + 1, locs[i].location, k + 1)
  {
    hide TokensOk, First, LastToken, ConstantLength, WellPlaced, Ahead;
    var filled := locs[i := locs[i].(length := length)];
    if WellPlaced(query, tokens, sorted) {
      SearchExact(query, tokens, sorted, locs, i, lastLoc, pos);
      ExactNext(query, tokens, locs, i, length);
    }
  }

  lemma {:induction false} ExactNext(query: string, tokens: seq<Token>, locs: seq<LocationLen>, i: nat, length: int)
    requires TokensOk(query, tokens) && LengthsExact(query, tokens, locs, i) && i < |locs|
    requires locs[i].location >= 0 ==> length == ConstantLength(query, tokens, locs[i].location)
    ensures LengthsExact(query, tokens, locs[i := locs[i].(length := length)], i + 1)
  {
    hide TokensOk, ConstantLength;
  }

  lemma {:induction false} LengthIs(query: string, tokens: seq<Token>, loc: nat)
    requires TokensOk(query, tokens) && LastToken(query, tokens, loc) < |tokens|
    ensures var k := LastToken(query, tokens, loc);
            loc <= tokens[k].end <= |query| && ConstantLength(query, tokens, loc) == TrimmedLength(query, loc, tokens[k].end - loc)
  {
    assert tokens[First(tokens, loc)].start >= loc;
  }

  method FillInConstantLengths(query: string, tokens: seq<Token>, recorded: seq<LocationLen>) returns (locs: seq<LocationLen>)
    requires TokensOk(query, tokens) && Fresh(recorded)
    ensures multiset(Blank(locs)) == multiset(recorded) && SortedByLocation(locs)
    ensures LengthsOk(query, locs, |locs|)
    ensures WellPlaced(query, tokens, locs) ==> LengthsExact(query, tokens, locs, |locs|)
  {
    hide *;
    locs := Qsort(recorded, (l: LocationLen) => l.location);
    NothingDone(query, tokens, recorded, locs);
    ghost var sorted := locs;
    var pos: nat, lastLoc, i: nat := 0, -1, 0;
    while i < |locs|
      invariant 0 <= i <= |locs| && |locs| == |sorted| && pos <= |tokens|
      invariant Done(query, tokens, sorted, locs, i, lastLoc, pos)
    {
      var loc := locs[i].location;
      if loc <= lastLoc {
        DuplicateDone(query, tokens, sorted, locs, i, lastLoc, pos);
        i := i + 1;
        continue;
      }
      var found, k, length := FindConstant(query, tokens, sorted, locs, i, lastLoc, pos);
      if !found {
        break;
      }
      ConstantDone(query, tokens, sorted, locs, i, lastLoc, pos, k, length);
      locs := locs[i := locs[i].(length := length)];
      lastLoc, pos, i := loc, k + 1, i + 1;
    }
    AllDone(query, tokens, sorted, locs, i, lastLoc, pos);
  }

  lemma {:induction false} NothingDone(query: string, tokens: seq<Token>, recorded: seq<LocationLen>, sorted: seq<LocationLen>)
    requires TokensOk(query, tokens) && Fresh(recorded) && multiset(sorted) == multiset(recorded)
    requires forall i, j | 0 <= i < j < |sorted| :: sorted[i].location <= sorted[j].location
    ensures Blank(sorted) == sorted && Done(query, tokens, sorted, sorted, 0, -1, 0)
  {
    hide TokensOk, WellPlaced, First, LastToken, ConstantLength;
    PermutedFresh(recorded, sorted);
  }

  lemma {:induction false} AllDone(query: string, tokens: seq<Token>, sorted: seq<LocationLen>, locs: seq<LocationLen>, i: nat, lastLoc: int, pos: nat)
    requires TokensOk(query, tokens) && Done(query, tokens, sorted, locs, i, lastLoc, pos)
    requires i == |locs| || !WellPlaced(query, tokens, sorted)
    ensures Blank(locs) == sorted && SortedByLocation(locs) && LengthsOk(query, locs, |locs|)
    ensures WellPlaced(query, tokens, locs) ==> LengthsExact(query, tokens, locs, |locs|)
  {
    hide WellPlaced, First, LastToken, ConstantLength, TokensOk, Ahead;
    assert forall j | 0 <= j < |locs| :: locs[j].location == sorted[j].location;
    SameWellPlaced(query, tokens, locs, sorted);
  }

  /** The body of the search loop: the last token of the constant that record i marks, and its length. */
  method FindConstant(query: string, tokens: seq<Token>, ghost sorted: seq<LocationLen>, locs: seq<LocationLen>, i: nat, lastLoc: int, pos: nat)
      returns (found: bool, k: nat, length: int)
    requires TokensOk(query, tokens) && Done(query, tokens, sorted, locs, i, lastLoc, pos) && i < |locs| && locs[i].location > lastLoc
    ensures found ==> k < |tokens| && length >= 1 && 0 <= locs[i].location && locs[i].location + length <= |query|
    ensures found && WellPlaced(query, tokens, sorted) ==>
              k == LastToken(query, tokens, locs[i].location) && length == ConstantLength(query, tokens, locs[i].location)
    ensures !found ==> !WellPlaced(query, tokens, sorted)
  {
    hide Done, First, WellPlaced, TrimmedLength, TokensOk, ConstantLength, LastToken;
    var loc := locs[i].location;
    SearchStarts(query, tokens, sorted, locs, i, lastLoc, pos);
    if WellPlaced(query, tokens, sorted) {
      SearchEnds(query, tokens, sorted, locs, i, lastLoc, pos);
    }
    k := LexTo(tokens, pos, loc);
    found, length := false, -1;
    if k < |tokens| {
      TokenBounds(query, tokens, k);
      if query[loc] == '-' {
        k := k + 1;
      }
      if k < |tokens| {
        TokenBounds(query, tokens, k);
        found, length := true, TrimmedLength(query, loc, tokens[k].end - loc);
      }
    }
  }

  lemma {:induction false} SameWellPlaced(query: string, tokens: seq<Token>, a: seq<LocationLen>, b: seq<LocationLen>)
    requires |a| == |b| && forall j | 0 <= j < |a| :: a[j].location == b[j].location
    ensures WellPlaced(query, tokens, a) <==> WellPlaced(query, tokens, b)
  {
    hide First, LastToken;
  }
}
