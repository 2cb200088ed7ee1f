/** Editing a text of bytes in place: replacing all occurrences of a pattern, and clipping it to a number
    of characters. */
module TruncateText {

  // ---------- Replacing ----------

  predicate OccursAt(text: string, pattern: string, i: nat) {
    i + |pattern| <= |text| && text[i..i + |pattern|] == pattern
  }

  /** No occurrence starts before n. */
  predicate NoneBefore(text: string, pattern: string, n: nat) {
    forall j: nat | j < n :: !OccursAt(text, pattern, j)
  }

  lemma OccursLater(text: string, pattern: string, j: nat)
    requires text != ""
    ensures OccursAt(text, pattern, j + 1) <==> OccursAt(text[1..], pattern, j)
  {
    assert j + 1 + |pattern| <= |text| ==> text[j + 1..j + 1 + |pattern|] == text[1..][j..j + |pattern|];
  }

  /** The first occurrence, or |text| if there is none. */
  function IndexOf(text: string, pattern: string): (i: nat)
    ensures i <= |text| && (i < |text| ==> OccursAt(text, pattern, i))
    decreases |text|
  {
    if text == "" || OccursAt(text, pattern, 0) then 0
    else
      var i := IndexOf(text[1..], pattern);
      OccursLater(text, pattern, i);
      1 + i
  }

  lemma {:induction false} IndexOfIsFirst(text: string, pattern: string)
    requires pattern != ""
    ensures NoneBefore(text, pattern, IndexOf(text, pattern))
    ensures IndexOf(text, pattern) == |text| ==> forall j: nat :: !OccursAt(text, pattern, j)
    decreases |text|
  {
    if text != "" && !OccursAt(text, pattern, 0) {
      IndexOfIsFirst(text[1..], pattern);
      forall j: nat | j < IndexOf(text, pattern) || IndexOf(text, pattern) == |text| ensures !OccursAt(text, pattern, j) {
        if j > 0 { OccursLater(text, pattern, j - 1); }
      }
    }
  }

  /** Replace from left to right; what has been replaced is not looked at again. */
  function ReplaceAll(text: string, pattern: string, replacement: string): string
    requires pattern != ""
    decreases |text|
  {
    var i := IndexOf(text, pattern);
    if i == |text| then text
    else text[..i] + replacement + ReplaceAll(text[i + |pattern|..], pattern, replacement)
  }

  /** The text between the occurrences that are replaced. */
  function Pieces(text: string, pattern: string): (ps: seq<string>)
    requires pattern != ""
    ensures ps != []
    decreases |text|
  {
    var i := IndexOf(text, pattern);
    if i == |text| then [text] else [text[..i]] + Pieces(text[i + |pattern|..], pattern)
  }

  function Join(ps: seq<string>, separator: string): string
    requires ps != []
  {
    if |ps| == 1 then ps[0] else ps[0] + separator + Join(ps[1..], separator)
  }

  lemma SplitAtOccurrence(text: string, pattern: string, i: nat)
    requires OccursAt(text, pattern, i)
    ensures text == text[..i] + pattern + text[i + |pattern|..]
  {
  }

  lemma JoinStep(first: string, ps: seq<string>, separator: string)
    requires ps != []
    ensures Join([first] + ps, separator) == first + separator + Join(ps, separator)
  {
    assert ([first] + ps)[1..] == ps;
  }

  /** Nothing but the occurrences is touched: the pieces with the pattern between them are the text, and
      with the replacement between them they are the result. */
  lemma {:induction false} ReplacedBetweenPieces(text: string, pattern: string, replacement: string)
    requires pattern != ""
    ensures Join(Pieces(text, pattern), pattern) == text
    ensures Join(Pieces(text, pattern), replacement) == ReplaceAll(text, pattern, replacement)
    decreases |text|
  {
    hide Pieces, ReplaceAll, IndexOf;
    PiecesStep(text, pattern);
    ReplaceStep(text, pattern, replacement);
    var i := IndexOf(text, pattern);
    if i < |text| {
      var rest := text[i + |pattern|..];
      ReplacedBetweenPieces(rest, pattern, replacement);
      hide OccursAt;
      SplitAtOccurrence(text, pattern, i);
      JoinStep(text[..i], Pieces(rest, pattern), pattern);
      JoinStep(text[..i], Pieces(rest, pattern), replacement);
      hide Join;
    }
  }

  /** The occurrences are the leftmost ones: no piece has one in it, not even one that goes on into the
      occurrence behind the piece. */
  lemma {:induction false} PiecesAreLeftmost(text: string, pattern: string)
    requires pattern != ""
    ensures var ps := Pieces(text, pattern);
            && (forall k | 0 <= k < |ps| - 1 :: NoneBefore(ps[k] + pattern, pattern, |ps[k]|))
            && NoneBefore(ps[|ps|-1], pattern, |ps[|ps|-1]|)
    decreases |text|
  {
    hide NoneBefore, Pieces, IndexOf;
    var i := IndexOf(text, pattern);
    IndexOfIsFirst(text, pattern);
    PiecesStep(text, pattern);
    if i < |text| {
      PiecesAreLeftmost(text[i + |pattern|..], pattern);
      FirstPiece(text, pattern, i);
      LeftmostAdded(text[..i], Pieces(text[i + |pattern|..], pattern), pattern);
    }
  }

  lemma PiecesStep(text: string, pattern: string)
    requires pattern != ""
    ensures var i := IndexOf(text, pattern);
            && (i < |text| ==> OccursAt(text, pattern, i))
            && Pieces(text, pattern) == if i == |text| then [text] else [text[..i]] + Pieces(text[i + |pattern|..], pattern)
  {
    hide IndexOf;
  }

  lemma LeftmostAdded(first: string, rest: seq<string>, pattern: string)
    requires rest != [] && NoneBefore(first + pattern, pattern, |first|)
    requires forall k | 0 <= k < |rest| - 1 :: NoneBefore(rest[k] + pattern, pattern, |rest[k]|)
    ensures var ps := [first] + rest;
            && (forall k | 0 <= k < |ps| - 1 :: NoneBefore(ps[k] + pattern, pattern, |ps[k]|))
            && ps[|ps|-1] == rest[|rest|-1]
  {
    hide NoneBefore;
    var ps := [first] + rest;
    forall k | 0 <= k < |ps| - 1 ensures NoneBefore(ps[k] + pattern, pattern, |ps[k]|) {
      if k > 0 { assert ps[k] == rest[k-1]; }
    }
  }

  lemma FirstPiece(text: string, pattern: string, i: nat)
    requires OccursAt(text, pattern, i) && NoneBefore(text, pattern, i)
    ensures NoneBefore(text[..i] + pattern, pattern, |text[..i]|)
  {
    assert text[..i] + pattern == text[..i + |pattern|];
    forall j: nat | j < i ensures !OccursAt(text[..i] + pattern, pattern, j) {
      assert !OccursAt(text, pattern, j);
      assert text[..i + |pattern|][j..j + |pattern|] == text[j..j + |pattern|];
    }
  }

  lemma {:induction false} ReplacedIsShorter(text: string, pattern: string, replacement: string)
    requires pattern != "" && |replacement| <= |pattern|
    ensures |ReplaceAll(text, pattern, replacement)| <= |text|
    decreases |text|
  {
    var i := IndexOf(text, pattern);
    if i < |text| {
      ReplacedIsShorter(text[i + |pattern|..], pattern, replacement);
    }
  }

  /** strstr */
  method StrStr(str: array<char>, len: nat, from: nat, pattern: string) returns (pos: nat)
    requires from <= len <= str.Length && pattern != ""
    ensures from <= pos <= len && pos - from == IndexOf(str[..len][from..], pattern)
  {
    hide IndexOf, OccursAt;
    ghost var text := str[..len];
    pos := from;
    while pos < len
      invariant from <= pos <= len
      invariant pos - from + IndexOf(text[pos..], pattern) == IndexOf(text[from..], pattern)
    {
      IndexStep(text, pos, pattern);
      if pos + |pattern| <= len && str[pos..pos + |pattern|] == pattern {
        assert text[pos..pos + |pattern|] == str[pos..pos + |pattern|];
        return;
      }
      assert pos + |pattern| <= len ==> text[pos..pos + |pattern|] == str[pos..pos + |pattern|];
      pos := pos + 1;
    }
    assert IndexOf("", pattern) == 0;
    assert text[len..] == "";
  }

  lemma IndexStep(text: string, pos: nat, pattern: string)
    requires pos < |text|
    ensures IndexOf(text[pos..], pattern) ==
            if pos + |pattern| <= |text| && text[pos..pos + |pattern|] == pattern then 0 else 1 + IndexOf(text[pos + 1..], pattern)
  {
    var tail := text[pos..];
    assert tail[1..] == text[pos + 1..];
    assert pos + |pattern| <= |text| ==> tail[0..|pattern|] == text[pos..pos + |pattern|];
    IndexHere(tail, pattern);
    hide IndexOf;
  }

  lemma IndexHere(text: string, pattern: string)
    requires text != ""
    ensures IndexOf(text, pattern) == if OccursAt(text, pattern, 0) then 0 else 1 + IndexOf(text[1..], pattern)
  {
  }

  /** `from`: a place behind what is written. */
  method Memcpy(str: array<char>, at: nat, s: string, ghost from: nat)
    requires at + |s| <= from <= str.Length
    modifies str
    ensures str[..at + |s|] == old(str[..at]) + s && str[from..] == old(str[from..])
  {
    hide *;
    for k := 0 to |s|
      invariant forall j | 0 <= j < at :: str[j] == old(str[j])
      invariant forall j | at <= j < at + k :: str[j] == s[j - at]
      invariant forall j | at + k <= j < str.Length :: str[j] == old(str[j])
    {
      str[at + k] := s[k];
    }
    assert str[..at] == old(str[..at]) && str[at..at + |s|] == s;
    assert str[..at + |s|] == str[..at] + str[at..at + |s|];
  }

  /** Towards the front, so that what is moved is not overwritten. */
  method Memmove(str: array<char>, to: nat, from: nat, n: nat)
    requires to <= from && from + n <= str.Length
    modifies str
    ensures str[..to + n] == old(str[..to]) + old(str[from..])[..n]
  {
    hide *;
    for k := 0 to n
      invariant forall j | 0 <= j < to :: str[j] == old(str[j])
      invariant forall j | to <= j < to + k :: str[j] == old(str[j - to + from])
      invariant forall j | to + k <= j < str.Length :: str[j] == old(str[j])
    {
      str[to + k] := str[from + k];
    }
    assert str[..to] == old(str[..to]) && str[to..to + n] == old(str[from..])[..n];
    assert str[..to + n] == str[..to] + str[to..to + n];
  }

  /** The replacement goes over the occurrence b, and what follows the occurrence is shifted. */
  method ReplaceOne(str: array<char>, len: nat, at: nat, plen: nat, replacement: string, ghost a: string, ghost b: string, ghost c: string)
      returns (newLen: nat)
    requires at + plen <= len <= str.Length && |replacement| <= plen
    requires str[..len] == a + b + c && |a| == at && |b| == plen
    modifies str
    ensures newLen == len - plen + |replacement| && str[..newLen] == a + replacement + c
  {
    hide *;
    SliceParts(str, len, a, b, c);
    Memcpy(str, at, replacement, at + plen);
    newLen := len - plen + |replacement|;
    if plen > |replacement| {
      Memmove(str, at + |replacement|, at + plen, len - at - plen);
    } else {
      assert str[..newLen] == str[..at + plen] + str[at + plen..][..|c|];
    }
  }

  lemma SliceParts(str: array<char>, len: nat, a: string, b: string, c: string)
    requires len <= str.Length && str[..len] == a + b + c
    ensures str[..|a|] == a && str[|a| + |b|..][..|c|] == c
  {
    assert str[..|a|] == str[..len][..|a|];
    assert str[|a| + |b|..][..|c|] == str[..len][|a| + |b|..];
  }

  /** The text is what is done, and the rest. */
  predicate Parted(text: string, s: nat, done: string, rest: string, pattern: string, replacement: string, result: string)
    requires pattern != ""
  {
    text == done + rest && s == |done| && done + ReplaceAll(rest, pattern, replacement) == result
  }

  /** global_replace */
  method GlobalReplace(str: array<char>, len: nat, pattern: string, replacement: string) returns (newLen: nat)
    requires len <= str.Length && pattern != "" && |replacement| <= |pattern|
    modifies str
    ensures newLen <= len && str[..newLen] == ReplaceAll(old(str[..len]), pattern, replacement)
  {
    newLen := len;
    var s, found := 0, true;
    ghost var done, rest := "", str[..len];
    ghost var result := ReplaceAll(rest, pattern, replacement);
    assert done + rest == rest && done + result == result;
    while found
      invariant 0 <= s <= newLen <= len && Parted(str[..newLen], s, done, rest, pattern, replacement, result)
      invariant !found ==> str[..newLen] == result
      decreases found, newLen - s
    {
      hide *;
      found, s, newLen, done, rest := ReplaceNext(str, s, newLen, pattern, replacement, done, rest, result);
    }
  }

  /** The body of the loop. */
  method ReplaceNext(str: array<char>, s: nat, len: nat, pattern: string, replacement: string,
                     ghost done: string, ghost rest: string, ghost result: string)
      returns (found: bool, s2: nat, len2: nat, ghost done2: string, ghost rest2: string)
    requires s <= len <= str.Length && pattern != "" && |replacement| <= |pattern|
    requires Parted(str[..len], s, done, rest, pattern, replacement, result)
    modifies str
    ensures s2 <= len2 <= len && Parted(str[..len2], s2, done2, rest2, pattern, replacement, result)
    ensures if found then len2 - s2 < len - s else str[..len2] == result && s2 == s && len2 == len
  {
    hide ReplaceAll, IndexOf, OccursAt;
    found, s2, len2, done2, rest2 := false, s, len, done, rest;
    BackToRest(done, rest);
    var pos := StrStr(str, len, s, pattern);
    if pos < len {
      ghost var head, tail := Advance(done, rest, pos - s, pattern, replacement, result);
      found := true;
      len2 := ReplaceOne(str, len, pos, |pattern|, replacement, done + head, pattern, tail);
      done2, rest2 := done + head + replacement, tail;
      s2 := pos + |replacement|;
    } else {
      ReplaceStep(rest, pattern, replacement);
    }
  }

  lemma BackToRest(done: string, rest: string)
    ensures (done + rest)[|done|..] == rest
  {
  }

  /** The first occurrence in the rest, with what is before and after it. */
  lemma Advance(done: string, rest: string, i: nat, pattern: string, replacement: string, result: string) returns (head: string, tail: string)
    requires pattern != "" && i == IndexOf(rest, pattern) && i < |rest| && done + ReplaceAll(rest, pattern, replacement) == result
    ensures |head| == i && done + rest == done + head + pattern + tail
    ensures done + head + replacement + ReplaceAll(tail, pattern, replacement) == result
  {
    hide ReplaceAll, IndexOf;
    ReplaceStep(rest, pattern, replacement);
    OccursFits(rest, pattern, i);
    hide OccursAt;
    SplitAtOccurrence(rest, pattern, i);
    head, tail := rest[..i], rest[i + |pattern|..];
    Regroup(done, head, pattern, tail);
    Regroup(done, head, replacement, ReplaceAll(tail, pattern, replacement));
  }

  lemma ReplaceStep(text: string, pattern: string, replacement: string)
    requires pattern != ""
    ensures var i := IndexOf(text, pattern);
            ReplaceAll(text, pattern, replacement) ==
            if i == |text| then text else text[..i] + replacement + ReplaceAll(text[i + |pattern|..], pattern, replacement)
  {
    hide IndexOf;
  }

  lemma OccursFits(text: string, pattern: string, i: nat)
    requires OccursAt(text, pattern, i)
    ensures i + |pattern| <= |text|
  {
  }

  lemma Regroup(a: string, b: string, c: string, d: string)
    ensures a + (b + c + d) == (a + b + c) + d
  {
  }

  // ---------- Clipping ----------

  /** pg_utf_mblen: how many bytes the character has that starts with c. */
  function MbLen(c: char): (n: nat)
    ensures 1 <= n <= 4
  {
    var b := c as int;
    if b < 0x80 then 1 else if b / 0x20 == 6 then 2 else if b / 0x10 == 14 then 3 else if b / 8 == 30 then 4 else 1
  }

  predicate IsContinuation(c: char) {
    0x80 <= c as int < 0xC0
  }

  /** A first byte with its continuation bytes. */
  predicate CharacterAt(text: string, n: nat) {
    && 0 < n <= |text|
    && !IsContinuation(text[0])
    && forall j | 0 < j < n :: IsContinuation(text[j])
  }

  /** UTF-8: characters one after the other. */
  predicate Complete(text: string)
    decreases |text|
  {
    text == "" || (CharacterAt(text, MbLen(text[0])) && Complete(text[MbLen(text[0])..]))
  }

  /** The number of characters. */
  function Characters(text: string): nat
    requires Complete(text)
    decreases |text|
  {
    if text == "" then 0 else 1 + Characters(text[MbLen(text[0])..])
  }

  /** pg_mbcharcliplen: the length in bytes of the first n characters, none if n is negative. */
  function ClipLength(text: string, n: int): (m: nat)
    requires Complete(text)
    ensures m <= |text|
    decreases |text|
  {
    if n <= 0 || text == "" then 0 else MbLen(text[0]) + ClipLength(text[MbLen(text[0])..], n - 1)
  }

  /** A text that is not empty is a character and a text. */
  lemma CompleteStep(text: string)
    requires Complete(text) && text != ""
    ensures var n := MbLen(text[0]);
            && CharacterAt(text, n) && Complete(text[n..]) && Characters(text) == 1 + Characters(text[n..])
            && forall m: int :: ClipLength(text, m) == if m <= 0 then 0 else n + ClipLength(text[n..], m - 1)
  {
    hide MbLen, CharacterAt;
  }

  lemma CompleteFrom(text: string, pos: nat)
    requires pos < |text| && Complete(text[pos..])
    ensures var n := MbLen(text[pos]);
            && pos + n <= |text| && Complete(text[pos + n..]) && Characters(text[pos..]) == 1 + Characters(text[pos + n..])
            && forall m: int :: ClipLength(text[pos..], m) == if m <= 0 then 0 else n + ClipLength(text[pos + n..], m - 1)
  {
    hide MbLen, Complete, Characters, ClipLength;
    var tail := text[pos..];
    CompleteStep(tail);
    assert tail[MbLen(text[pos])..] == text[pos + MbLen(text[pos])..];
  }

  lemma NoCharacters()
    ensures Complete("") && Characters("") == 0 && forall m: int :: ClipLength("", m) == 0
  {
  }

  method MbStrLen(text: string) returns (n: nat)
    requires Complete(text)
    ensures n == Characters(text)
  {
    hide *;
    n := 0;
    var pos := 0;
    assert text[0..] == text;
    while pos < |text|
      invariant 0 <= pos <= |text| && Complete(text[pos..]) && n + Characters(text[pos..]) == Characters(text)
    {
      CompleteFrom(text, pos);
      n, pos := n + 1, pos + MbLen(text[pos]);
    }
    assert text[pos..] == "";
    NoCharacters();
  }

  method MbCharClipLen(text: string, limit: int) returns (m: nat)
    requires Complete(text)
    ensures m == ClipLength(text, limit)
  {
    hide *;
    m := 0;
    var nch := 0;
    assert text[0..] == text;
    while m < |text|
      invariant 0 <= m <= |text| && Complete(text[m..]) && nch >= 0
      invariant m + ClipLength(text[m..], limit - nch) == ClipLength(text, limit)
    {
      CompleteFrom(text, m);
      nch := nch + 1;
      if nch > limit {
        return;
      }
      m := m + MbLen(text[m]);
    }
    assert text[m..] == "";
    NoCharacters();
  }

  const DOTS := "..."

  const TWO_31 := 0x8000_0000
  const TWO_32 := 0x1_0000_0000
  const TWO_64 := 0x1_0000_0000_0000_0000

  /** The limit is a C int ... */
  predicate IsLimit(limit: int) {
    -TWO_31 <= limit < TWO_31
  }

  /** ... which becomes a size_t where it is compared with one, */
  function AsSize(limit: int): (n: nat)
    requires IsLimit(limit)
    ensures n < TWO_64
  {
    if limit < 0 then limit + TWO_64 else limit
  }

  /** and an int again where one is expected. */
  function AsInt(n: int): (r: int)
    ensures IsLimit(r)
  {
    if n % TWO_32 >= TWO_31 then n % TWO_32 - TWO_32 else n % TWO_32
  }

  /** The text, or as many characters of it as leave room for "...". */
  function Clip(text: string, maxChars: nat): string
    requires Complete(text)
  {
    if Characters(text) <= maxChars then text else text[..ClipLength(text, AsInt(maxChars - 3))] + DOTS
  }

  /** truncate_mbstr */
  method TruncateMbstr(text: string, maxChars: nat) returns (r: string)
    requires Complete(text)
    ensures r == Clip(text, maxChars)
  {
    r := text;
    var nChars := MbStrLen(text);
    if nChars <= maxChars {
      return;
    }
    var nBytes := MbCharClipLen(text, AsInt(maxChars - 3));
    r := text[..nBytes] + DOTS;
  }

  /** A character in front of a text. */
  lemma CompleteCons(c: string, text: string)
    requires c != "" && |c| == MbLen(c[0]) && CharacterAt(c, |c|) && Complete(text)
    ensures Complete(c + text) && Characters(c + text) == 1 + Characters(text)
  {
    hide MbLen;
    var all := c + text;
    assert all[0] == c[0] && all[|c|..] == text;
    assert forall j | 0 < j < |c| :: all[j] == c[j];
  }

  /** The first character of a text, and the rest. */
  lemma FirstCharacter(text: string) returns (c: string, rest: string)
    requires Complete(text) && text != ""
    ensures c != "" && |c| == MbLen(c[0]) && CharacterAt(c, |c|) && Complete(rest) && text == c + rest && text[|c|..] == rest && |rest| < |text|
    ensures Characters(text) == 1 + Characters(rest)
    ensures forall m: int :: ClipLength(text, m) == if m <= 0 then 0 else |c| + ClipLength(rest, m - 1)
  {
    hide MbLen, Complete, Characters, ClipLength;
    CompleteStep(text);
    var n := MbLen(text[0]);
    c, rest := text[..n], text[n..];
    assert forall j | 0 <= j < n :: c[j] == text[j];
  }

  lemma {:induction false} CompleteAppend(a: string, b: string)
    requires Complete(a) && Complete(b)
    ensures Complete(a + b) && Characters(a + b) == Characters(a) + Characters(b)
    decreases |a|
  {
    hide *;
    if a == "" {
      assert a + b == b;
      NoCharacters();
    } else {
      var c, rest := FirstCharacter(a);
      CompleteAppend(rest, b);
      CompleteCons(c, rest + b);
      assert a + b == c + (rest + b);
    }
  }

  /** Where a character starts, a text can be cut. */
  lemma {:induction false} CutAtCharacter(a: string, b: string)
    requires Complete(a + b) && b != "" && !IsContinuation(b[0])
    ensures Complete(a) && Complete(b)
    decreases |a|
  {
    hide Complete, MbLen, Characters, ClipLength;
    if a == "" {
      assert a + b == b;
      NoCharacters();
    } else {
      var c, rest := FirstCharacter(a + b);
      CharacterEnds(a, b, c, rest);
      var tail := a[|c|..];
      assert a == c + tail && rest == tail + b by { SplitTwice(a, b, c, rest); }
      CutAtCharacter(tail, b);
      CompleteCons(c, tail);
    }
  }

  lemma CharacterEnds(a: string, b: string, c: string, rest: string)
    requires a != "" && b != "" && !IsContinuation(b[0]) && CharacterAt(c, |c|) && a + b == c + rest
    ensures |c| <= |a|
  {
    assert (a + b)[|a|] == b[0];
    assert forall j | 0 < j < |c| :: (c + rest)[j] == c[j];
  }

  lemma SplitTwice(a: string, b: string, c: string, rest: string)
    requires a + b == c + rest && |c| <= |a|
    ensures a == c + a[|c|..] && rest == a[|c|..] + b
  {
    assert a == (a + b)[..|a|] && c == (c + rest)[..|c|];
    assert rest == (c + rest)[|c|..] == (a + b)[|c|..];
  }

  /** What is left of a text after a text at its start. */
  lemma {:induction false} CompleteRest(a: string, b: string)
    requires Complete(a) && Complete(a + b)
    ensures Complete(b)
    decreases |a|
  {
    hide Complete, MbLen, Characters, ClipLength;
    if a == "" {
      assert a + b == b;
    } else {
      var c, rest := FirstCharacter(a);
      var c2, rest2 := FirstCharacter(a + b);
      assert c[0] == a[0] == (a + b)[0] == c2[0];
      assert rest2 == rest + b by { assert (a + b)[|c|..] == a[|c|..] + b; }
      CompleteRest(rest, b);
    }
  }

  /** Replacing characters by characters gives characters. */
  lemma {:induction false} ReplacedComplete(text: string, pattern: string, replacement: string)
    requires Complete(text) && Complete(pattern) && Complete(replacement) && pattern != ""
    ensures Complete(ReplaceAll(text, pattern, replacement))
    decreases |text|
  {
    hide Complete, MbLen, Characters, ClipLength, ReplaceAll, IndexOf;
    ReplaceStep(text, pattern, replacement);
    var i := IndexOf(text, pattern);
    if i < |text| {
      OccursFits(text, pattern, i);
      SplitAtOccurrence(text, pattern, i);
      hide OccursAt;
      var head, tail := text[..i], text[i + |pattern|..];
      var c, rest := FirstCharacter(pattern);
      assert pattern[0] == c[0];
      assert text == head + (pattern + tail);
      CutAtCharacter(head, pattern + tail);
      CompleteRest(pattern, tail);
      ReplacedComplete(tail, pattern, replacement);
      CompleteAppend(head, replacement);
      CompleteAppend(head + replacement, ReplaceAll(tail, pattern, replacement));
    }
  }

  /** There are no more characters than bytes. */
  lemma {:induction false} CharactersAtMostBytes(text: string)
    requires Complete(text)
    ensures Characters(text) <= |text|
    decreases |text|
  {
    hide *;
    if text == "" {
      NoCharacters();
    } else {
      var c, rest := FirstCharacter(text);
      CharactersAtMostBytes(rest);
    }
  }

  /** A clip ends at the end of a character. */
  lemma {:induction false} ClipAtCharacter(text: string, n: int)
    requires Complete(text)
    ensures var m := ClipLength(text, n);
            Complete(text[..m]) && Complete(text[m..]) && Characters(text[..m]) == if n <= 0 then 0 else if n <= Characters(text) then n else Characters(text)
    decreases |text|
  {
    hide *;
    NoCharacters();
    if text == "" {
    } else {
      var c, rest := FirstCharacter(text);
      if n > 0 {
        var m := ClipLength(rest, n - 1);
        ClipAtCharacter(rest, n - 1);
        CompleteCons(c, rest[..m]);
        assert text[..|c| + m] == c + rest[..m] && text[|c| + m..] == rest[m..];
      } else {
        assert text[0..] == text;
      }
    }
  }

  lemma AsciiCharacter(c: char)
    requires c as int < 0x80
    ensures Complete([c]) && Characters([c]) == 1
  {
    assert [c][1..] == "";
  }

  lemma DotsCharacters()
    ensures Complete(DOTS) && Characters(DOTS) == 3
  {
    AsciiCharacter('.');
    CompleteAppend(['.'], ['.']);
    CompleteAppend(['.', '.'], ['.']);
    hide Complete, Characters;
    assert DOTS == ['.', '.'] + ['.'] && ['.', '.'] == ['.'] + ['.'];
  }

  /** The result has at most `limit` characters, and exactly that many if it was clipped, provided that
      "..." fits; if it does not, the result is "..." all the same.  A negative limit is no limit for texts
      that a StringInfo can hold. */
  lemma ClipFits(text: string, limit: int)
    requires Complete(text) && IsLimit(limit)
    ensures var clip := Clip(text, AsSize(limit));
            && Complete(clip)
            && (Characters(text) <= AsSize(limit) ==> clip == text)
            && (0 <= limit < Characters(text) ==> Characters(clip) == if limit >= 3 then limit else 3)
            && (Characters(clip) <= AsSize(limit) <==> limit < 0 || limit >= 3 || Characters(text) <= limit)
    ensures limit < 0 && |text| < TWO_31 ==> Clip(text, AsSize(limit)) == text
  {
    hide *;
    CharactersAtMostBytes(text);
    SizeOf(limit);
    ClipCases(text, AsSize(limit));
  }

  lemma SizeOf(limit: int)
    requires IsLimit(limit)
    ensures limit < 0 ==> AsSize(limit) > 2 * TWO_31
    ensures limit >= 0 ==> AsSize(limit) == limit && AsInt(limit - 3) == limit - 3
  {
    if 0 <= limit < 3 {
      assert (limit - 3) % TWO_32 == limit - 3 + TWO_32;
    }
  }

  lemma ClipCases(text: string, maxChars: nat)
    requires Complete(text)
    ensures Complete(Clip(text, maxChars))
    ensures Characters(text) <= maxChars ==> Clip(text, maxChars) == text
    ensures Characters(text) > maxChars ==>
              var n := AsInt(maxChars - 3);
              Characters(Clip(text, maxChars)) == 3 + (if n <= 0 then 0 else if n <= Characters(text) then n else Characters(text)) < 3 + TWO_31
  {
    hide AsInt, Complete, Characters, ClipLength;
    if Characters(text) > maxChars {
      var m := ClipLength(text, AsInt(maxChars - 3));
      ClipAtCharacter(text, AsInt(maxChars - 3));
      DotsCharacters();
      CompleteAppend(text[..m], DOTS);
    }
  }
}
