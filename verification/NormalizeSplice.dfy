/** Writing the query with parameters in place of its constants, into a buffer of fixed size. */
module NormalizeSplice {
  import opened Decimals
  import opened NormalizeText

  /** A constant query[start..end] and the number of its parameter. */
  datatype Hole = Hole(start: nat, end: nat, number: nat)

  const INT_MAX := 0x7fff_ffff

  function Symbol(number: nat): string {
    "$" + Decimal(number)
  }

  /** The number of a new parameter comes after all numbers in the query. */
  function Number(paramId: int, highestExtern: nat): nat {
    if paramId < 0 then highestExtern - paramId else paramId
  }

  /** The records that are replaced: those with a length, unless they overlap the one before or run past
      the end. */
  function Holes(locs: seq<LocationLen>, highestExtern: nat, queryLen: nat, i: nat, from: nat): seq<Hole>
    requires i <= |locs|
    decreases |locs| - i
  {
    if i == |locs| then []
    else
      var off, len := locs[i].location, locs[i].length;
      if len < 0 || off < from || off > queryLen || len > queryLen - off then Holes(locs, highestExtern, queryLen, i + 1, from)
      else [Hole(off, off + len, Number(locs[i].paramId, highestExtern))] + Holes(locs, highestExtern, queryLen, i + 1, off + len)
  }

  /** Holes in order, apart from each other and inside the query. */
  predicate HolesOk(query: string, holes: seq<Hole>, from: nat) {
    from <= |query| && (holes != [] ==> from <= holes[0].start <= holes[0].end <= |query| && HolesOk(query, holes[1..], holes[0].end))
  }

  /** query[from..] with texts[i] in place of hole i. */
  function Splice(query: string, holes: seq<Hole>, texts: seq<string>, from: nat): string
    requires HolesOk(query, holes, from) && |texts| == |holes|
    decreases |holes|
  {
    if holes == [] then query[from..]
    else query[from..holes[0].start] + texts[0] + Splice(query, holes[1..], texts[1..], holes[0].end)
  }

  function Symbols(holes: seq<Hole>): (texts: seq<string>)
    ensures |texts| == |holes| && forall i | 0 <= i < |holes| :: texts[i] == Symbol(holes[i].number)
  {
    seq(|holes|, i requires 0 <= i < |holes| => Symbol(holes[i].number))
  }

  /** The constants that the holes stand for. */
  function Constants(query: string, holes: seq<Hole>, from: nat): (texts: seq<string>)
    requires HolesOk(query, holes, from)
    ensures |texts| == |holes|
    decreases |holes|
  {
    if holes == [] then [] else
    assert HolesOk(query, holes[1..], holes[0].end);
    [query[holes[0].start..holes[0].end]] + Constants(query, holes[1..], holes[0].end)
  }

  lemma {:induction false} HolesAreOk(query: string, locs: seq<LocationLen>, highestExtern: nat, i: nat, from: nat)
    requires i <= |locs| && from <= |query|
    ensures HolesOk(query, Holes(locs, highestExtern, |query|, i, from), from)
    decreases |locs| - i
  {
    if i < |locs| {
      var off, len := locs[i].location, locs[i].length;
      if len < 0 || off < from || off > |query| || len > |query| - off {
        HolesAreOk(query, locs, highestExtern, i + 1, from);
      } else {
        HolesAreOk(query, locs, highestExtern, i + 1, off + len);
      }
    }
  }

  /** Everything outside the holes is kept in order: with the constants back in place it is the query. */
  lemma {:induction false} ConstantsBack(query: string, holes: seq<Hole>, from: nat)
    requires HolesOk(query, holes, from)
    ensures Splice(query, holes, Constants(query, holes, from), from) == query[from..]
    decreases |holes|
  {
    if holes != [] {
      var h, rest := holes[0], holes[1..];
      ConstantsBack(query, rest, h.end);
      assert Constants(query, holes, from) == [query[h.start..h.end]] + Constants(query, rest, h.end);
      Glue(query, from, h.start, h.end);
      hide Constants, HolesOk;
    }
  }

  lemma Glue(query: string, a: nat, b: nat, c: nat)
    requires a <= b <= c <= |query|
    ensures query[a..] == query[a..b] + query[b..c] + query[c..]
  {
  }

  // ---------- Reading the result ----------

  /** Where the text for hole i is in the result. */
  function Place(holes: seq<Hole>, texts: seq<string>, i: nat): int
    requires i < |holes| == |texts|
  {
    if i == 0 then holes[0].start else Place(holes, texts, i - 1) + |texts[i-1]| + holes[i].start - holes[i-1].end
  }

  predicate InPlace(r: string, holes: seq<Hole>, texts: seq<string>, i: nat)
    requires i < |holes| == |texts|
  {
    var at := Place(holes, texts, i);
    0 <= at <= at + |texts[i]| <= |r| && r[at..at + |texts[i]|] == texts[i]
  }

  /** It is there. */
  lemma SplicedInPlace(query: string, holes: seq<Hole>, texts: seq<string>, i: nat)
    requires HolesOk(query, holes, 0) && i < |holes| == |texts|
    ensures InPlace(Splice(query, holes, texts, 0), holes, texts, i)
  {
    SpliceAt(query, holes, texts, 0, i);
  }

  lemma {:induction false} SpliceAt(query: string, holes: seq<Hole>, texts: seq<string>, from: nat, i: nat)
    requires HolesOk(query, holes, from) && i < |holes| == |texts|
    ensures var r, at := Splice(query, holes, texts, from), Place(holes, texts, i) - from;
            0 <= at <= at + |texts[i]| <= |r| && r[at..at + |texts[i]|] == texts[i]
    decreases |holes|
  {
    var h, rest := holes[0], Splice(query, holes[1..], texts[1..], holes[0].end);
    var front := query[from..h.start] + texts[0];
    assert Splice(query, holes, texts, from) == front + rest;
    if i > 0 {
      SpliceAt(query, holes[1..], texts[1..], h.end, i - 1);
      PlaceNext(holes, texts, i);
      var at := Place(holes[1..], texts[1..], i - 1) - h.end;
      assert (front + rest)[|front| + at..|front| + at + |texts[i]|] == rest[at..at + |texts[i]|];
    }
  }

  lemma {:induction false} PlaceNext(holes: seq<Hole>, texts: seq<string>, i: nat)
    requires 0 < i < |holes| == |texts|
    ensures Place(holes, texts, i) == holes[0].start + |texts[0]| + Place(holes[1..], texts[1..], i - 1) - holes[0].end
  {
    if i > 1 {
      PlaceNext(holes, texts, i - 1);
    }
  }

  /** A `$` and the digits of the number. */
  predicate Spells(symbol: string, number: nat) {
    && |symbol| >= 2 && symbol[0] == '$'
    && (forall k | 1 <= k < |symbol| :: IsDigit(symbol[k])) && ReadDecimal(symbol[1..]) == number
  }

  /** A symbol spells its number, and two are the same if and only if their numbers are. */
  lemma SymbolsSpell(m: nat, n: nat)
    ensures Spells(Symbol(m), m)
    ensures Symbol(m) == Symbol(n) <==> m == n
  {
    assert Symbol(m)[1..] == Decimal(m) && Symbol(n)[1..] == Decimal(n);
    DecimalReads(m);
    DecimalsDiffer(m, n);
    hide Decimal;
    assert forall k | 1 <= k < |Symbol(m)| :: Symbol(m)[k] == Decimal(m)[k-1];
  }

  // ---------- How long a symbol is ----------

  lemma {:induction false} DecimalLength(n: nat, bound: nat, digits: nat)
    requires n < bound && bound == Power10(digits) && digits >= 1
    ensures |Decimal(n)| <= digits
    decreases digits
  {
    if n >= 10 {
      DecimalLength(n / 10, Power10(digits - 1), digits - 1);
    }
  }

  function Power10(k: nat): (r: nat)
    ensures r >= 1
  {
    if k == 0 then 1 else 10 * Power10(k - 1)
  }

  /** A parameter number is a sum of two C ints at most. */
  lemma SymbolLength(number: nat)
    requires number <= 2 * INT_MAX
    ensures |Symbol(number)| <= 11
  {
    assert Power10(2) == 100;
    assert Power10(4) == 100 * Power10(2);
    assert Power10(6) == 100 * Power10(4);
    assert Power10(8) == 100 * Power10(6);
    assert Power10(10) == 100 * Power10(8);
    DecimalLength(number, 10_000_000_000, 10);
  }

  // ---------- The buffer ----------

  /** memcpy and sprintf: s goes into the buffer at `at`, and must fit. */
  method Write(buffer: array<char>, at: nat, s: string)
    requires at + |s| <= buffer.Length
    modifies buffer
    ensures buffer[..at + |s|] == old(buffer[..at]) + s
  {
    for k := 0 to |s|
      invariant buffer[..at] == old(buffer[..at]) && forall j | 0 <= j < k :: buffer[at + j] == s[j]
    {
      buffer[at + k] := s[k];
    }
  }

  lemma SpliceStep(query: string, holes: seq<Hole>, from: nat)
    requires HolesOk(query, holes, from) && holes != []
    ensures HolesOk(query, holes[1..], holes[0].end)
    ensures Splice(query, holes, Symbols(holes), from) ==
            query[from..holes[0].start] + Symbol(holes[0].number) + Splice(query, holes[1..], Symbols(holes[1..]), holes[0].end)
  {
    assert Symbols(holes)[1..] == Symbols(holes[1..]);
  }

  predicate ParamIdsOk(locs: seq<LocationLen>) {
    forall i | 0 <= i < |locs| :: -INT_MAX <= locs[i].paramId <= INT_MAX
  }

  /** The text up to the next constant, and a symbol for the constant. */
  method WriteChunk(buffer: array<char>, at: nat, chunk: string, number: nat) returns (end: nat)
    requires number <= 2 * INT_MAX && at + |chunk| + 11 <= buffer.Length
    modifies buffer
    ensures end == at + |chunk| + |Symbol(number)| <= at + |chunk| + 11
    ensures buffer[..end] == old(buffer[..at]) + chunk + Symbol(number)
  {
    SymbolLength(number);
    Write(buffer, at, chunk);
    Write(buffer, at + |chunk|, Symbol(number));
    end := at + |chunk| + |Symbol(number)|;
  }

  /** The output is what has been written and, still to come, what Splice makes of the rest. */
  predicate Written(query: string, locs: seq<LocationLen>, highestExtern: nat, i: nat, querLoc: nat, written: string) {
    && i <= |locs| && querLoc <= |query|
    && var all, rest := Holes(locs, highestExtern, |query|, 0, 0), Holes(locs, highestExtern, |query|, i, querLoc);
    && HolesOk(query, all, 0) && HolesOk(query, rest, querLoc)
    && Splice(query, all, Symbols(all), 0) == written + Splice(query, rest, Symbols(rest), querLoc)
  }

  lemma NothingWritten(query: string, locs: seq<LocationLen>, highestExtern: nat)
    ensures Written(query, locs, highestExtern, 0, 0, "")
  {
    HolesAreOk(query, locs, highestExtern, 0, 0);
    var all := Holes(locs, highestExtern, |query|, 0, 0);
    assert "" + Splice(query, all, Symbols(all), 0) == Splice(query, all, Symbols(all), 0);
  }

  lemma RecordSkipped(query: string, locs: seq<LocationLen>, highestExtern: nat, i: nat, querLoc: nat, written: string)
    requires Written(query, locs, highestExtern, i, querLoc, written) && i < |locs|
    requires var off, len := locs[i].location, locs[i].length; len < 0 || off < querLoc || off > |query| || len > |query| - off
    ensures Written(query, locs, highestExtern, i + 1, querLoc, written)
  {
    hide Splice, HolesOk;
    HolesStep(locs, highestExtern, |query|, i, querLoc);
  }

  lemma RecordWritten(query: string, locs: seq<LocationLen>, highestExtern: nat, i: nat, querLoc: nat, written: string)
    requires Written(query, locs, highestExtern, i, querLoc, written) && i < |locs|
    requires var off, len := locs[i].location, locs[i].length; len >= 0 && querLoc <= off <= |query| && len <= |query| - off
    ensures var off, len := locs[i].location, locs[i].length;
            Written(query, locs, highestExtern, i + 1, off + len,
                    written + query[querLoc..off] + Symbol(Number(locs[i].paramId, highestExtern)))
  {
    hide Splice, HolesOk, Holes, Symbols, Symbol, Number;
    HolesStep(locs, highestExtern, |query|, i, querLoc);
    var rest := Holes(locs, highestExtern, |query|, i, querLoc);
    SpliceStep(query, rest, querLoc);
    assert rest[1..] == Holes(locs, highestExtern, |query|, i + 1, locs[i].location + locs[i].length);
    Regroup(written, query[querLoc..rest[0].start], Symbol(rest[0].number), Splice(query, rest[1..], Symbols(rest[1..]), rest[0].end));
  }

  lemma AllWritten(query: string, locs: seq<LocationLen>, highestExtern: nat, querLoc: nat, written: string)
    requires Written(query, locs, highestExtern, |locs|, querLoc, written)
    ensures var holes := Holes(locs, highestExtern, |query|, 0, 0);
            HolesOk(query, holes, 0) && Splice(query, holes, Symbols(holes), 0) == written + query[querLoc..]
  {
  }

  /** generate_normalized_query, after the lengths are filled in.  Every write stays inside the buffer of
      |query| + 10 bytes for each record and one for the terminator. */
  method GenerateNormalizedQuery(query: string, locs: seq<LocationLen>, highestExtern: nat) returns (norm: string)
    requires LengthsOk(query, locs, |locs|) && ParamIdsOk(locs) && highestExtern <= INT_MAX
    ensures var holes := Holes(locs, highestExtern, |query|, 0, 0);
            HolesOk(query, holes, 0) && norm == Splice(query, holes, Symbols(holes), 0)
    ensures |norm| <= |query| + 10 * |locs|
  {
    hide Written, Holes, Splice, HolesOk, Symbol, Symbols;
    var buffer := new char[|query| + 10 * |locs| + 1](_ => '\0');
    var querLoc, nQuerLoc, lastOff, lastTokLen := 0, 0, 0, 0;
    ghost var written := "";
    NothingWritten(query, locs, highestExtern);
    for i := 0 to |locs|
      invariant 0 <= querLoc <= |query| && querLoc == lastOff + lastTokLen && 0 <= nQuerLoc <= querLoc + 10 * i
      invariant nQuerLoc == |written| && buffer[..nQuerLoc] == written
      invariant Written(query, locs, highestExtern, i, querLoc, written)
    {
      var off, tokLen := locs[i].location, locs[i].length;
      if tokLen < 0 {
        RecordSkipped(query, locs, highestExtern, i, querLoc, written);
        continue;
      }
      if off < lastOff + lastTokLen || off > |query| || tokLen > |query| - off {
        RecordSkipped(query, locs, highestExtern, i, querLoc, written);
        continue;
      }
      LengthPositive(query, locs, i);
      RecordWritten(query, locs, highestExtern, i, querLoc, written);
      var number := Number(locs[i].paramId, highestExtern);
      var lenToWrt := off - lastOff - lastTokLen;
      nQuerLoc := WriteChunk(buffer, nQuerLoc, query[querLoc..querLoc + lenToWrt], number);
      written := written + query[querLoc..off] + Symbol(number);
      querLoc, lastOff, lastTokLen := off + tokLen, off, tokLen;
    }
    AllWritten(query, locs, highestExtern, querLoc, written);
    Write(buffer, nQuerLoc, query[querLoc..]);
    nQuerLoc := nQuerLoc + |query| - querLoc;
    norm := buffer[..nQuerLoc];
    buffer[nQuerLoc] := '\0';
  }

  lemma Regroup(a: string, b: string, c: string, d: string)
    ensures a + (b + c + d) == (a + b + c) + d
  {
  }

  lemma HolesStep(locs: seq<LocationLen>, highestExtern: nat, queryLen: nat, i: nat, from: nat)
    requires i < |locs|
    ensures var off, len := locs[i].location, locs[i].length;
            Holes(locs, highestExtern, queryLen, i, from) ==
            if len < 0 || off < from || off > queryLen || len > queryLen - off then Holes(locs, highestExtern, queryLen, i + 1, from)
            else [Hole(off, off + len, Number(locs[i].paramId, highestExtern))] + Holes(locs, highestExtern, queryLen, i + 1, off + len)
  {
  }

  lemma LengthPositive(query: string, locs: seq<LocationLen>, i: nat)
    requires LengthsOk(query, locs, |locs|) && i < |locs| && locs[i].length >= 0
    ensures locs[i].length >= 1
  {
  }

  // ---------- Every constant is replaced ----------

  function HoleOf(locs: seq<LocationLen>, highestExtern: nat, i: nat): Hole
    requires i < |locs| && locs[i].location >= 0 && locs[i].length >= 0
  {
    Hole(locs[i].location, locs[i].location + locs[i].length, Number(locs[i].paramId, highestExtern))
  }

  /** Constants that are well placed do not overlap. */
  lemma ConstantsApart(query: string, tokens: seq<Token>, locs: seq<LocationLen>, i: nat, j: nat)
    requires TokensOk(query, tokens) && WellPlaced(query, tokens, locs) && i < |locs| && j < |locs|
    requires 0 <= locs[i].location < locs[j].location
    ensures locs[i].location + ConstantLength(query, tokens, locs[i].location) <= locs[j].location
    ensures ConstantLength(query, tokens, locs[i].location) >= 1
  {
    LengthIs(query, tokens, locs[i].location);
    assert IsStart(tokens, locs[j].location) && IsStart(tokens, locs[i].location);
    hide TrimmedLength, WellPlaced;
  }

  lemma {:induction false} HolesComplete(query: string, tokens: seq<Token>, locs: seq<LocationLen>, highestExtern: nat, i: nat, from: nat)
    requires TokensOk(query, tokens) && WellPlaced(query, tokens, locs) && SortedByLocation(locs) && i <= |locs|
    requires LengthsOk(query, locs, |locs|) && LengthsExact(query, tokens, locs, |locs|)
    requires forall j | 0 <= j < |locs| :: locs[j].location >= 0
    requires forall j | i <= j < |locs| && FirstRecord(locs, j) :: from <= locs[j].location
    ensures forall j | i <= j < |locs| && FirstRecord(locs, j) ::
              locs[j].length >= 1 && HoleOf(locs, highestExtern, j) in Holes(locs, highestExtern, |query|, i, from)
    decreases |locs| - i
  {
    hide *;
    if i < |locs| {
      HolesStep(locs, highestExtern, |query|, i, from);
      var next := from;
      if FirstRecord(locs, i) {
        ExactIsPositive(query, tokens, locs, i);
        next := locs[i].location + locs[i].length;
        forall j | i + 1 <= j < |locs| && FirstRecord(locs, j) ensures next <= locs[j].location {
          LaterFirst(locs, i, j);
          ConstantsApart(query, tokens, locs, i, j);
        }
      } else {
        DuplicateLength(query, locs, i);
      }
      HolesComplete(query, tokens, locs, highestExtern, i + 1, next);
      if FirstRecord(locs, i) {
        HoleIs(locs, highestExtern, i);
      }
    }
  }

  lemma HoleIs(locs: seq<LocationLen>, highestExtern: nat, i: nat)
    requires i < |locs| && locs[i].location >= 0 && locs[i].length >= 0
    ensures HoleOf(locs, highestExtern, i) ==
            Hole(locs[i].location, locs[i].location + locs[i].length, Number(locs[i].paramId, highestExtern))
  {
  }

  lemma LaterFirst(locs: seq<LocationLen>, i: nat, j: nat)
    requires SortedByLocation(locs) && i < j < |locs| && FirstRecord(locs, j)
    ensures locs[i].location < locs[j].location
  {
    assert i < j - 1 ==> locs[i].location <= locs[j-1].location;
  }

  lemma DuplicateLength(query: string, locs: seq<LocationLen>, i: nat)
    requires SortedByLocation(locs) && LengthsOk(query, locs, |locs|) && i < |locs| && !FirstRecord(locs, i)
    ensures locs[i].length == -1
  {
    assert locs[i-1].location == locs[i].location;
  }

  lemma ExactIsPositive(query: string, tokens: seq<Token>, locs: seq<LocationLen>, i: nat)
    requires TokensOk(query, tokens) && WellPlaced(query, tokens, locs) && LengthsExact(query, tokens, locs, |locs|)
    requires FirstRecord(locs, i) && locs[i].location >= 0
    ensures locs[i].length == ConstantLength(query, tokens, locs[i].location)
    ensures locs[i].length >= 1 && locs[i].location + locs[i].length <= |query|
  {
    LengthIs(query, tokens, locs[i].location);
    assert IsStart(tokens, locs[i].location);
    hide TrimmedLength;
  }
}
