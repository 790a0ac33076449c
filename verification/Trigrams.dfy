/** Characters and trigrams of the search index. */
module Trigrams {
  import opened Bytes

  const CHARACTER_COUNT: int := 126 - 90 - 1 + 65 - 32 + 1
  const TRIGRAM_COUNT: int := CHARACTER_COUNT * CHARACTER_COUNT * CHARACTER_COUNT
  const UNDEFINED_CHAR: int := -1
  const BINARY_CHAR: int := -2
  const UNDEFINED_TRIGRAM: int := -1

  predicate IsAsciiUpper(c: int) {
    65 <= c <= 90
  }

  /** The index ignores ASCII case and takes a tab for a space. */
  function Fold(b: Byte): Byte {
    if b == 9 then 32 else if IsAsciiUpper(b) then b + 32 else b
  }

  predicate IsBinary(b: Byte) {
    b < 9 || 14 <= b < 32 || b == 127
  }

  // ----- the same in plain bytes -----

  /** Bytes of text: tab to carriage return, printable ASCII, and everything that is not ASCII. */
  predicate IsTextByte(b: Byte) {
    9 <= b <= 13 || 32 <= b <= 126 || 128 <= b
  }

  predicate IsText(text: seq<Byte>) {
    forall i :: 0 <= i < |text| ==> IsTextByte(text[i])
  }

  /** The tab and printable ASCII are what the index knows. */
  predicate IsKnownByte(b: Byte) {
    b == 9 || 32 <= b <= 126
  }

  /** Equal, but for the case of an ASCII letter, or a tab and a space. */
  predicate SameCharacter(a: Byte, b: Byte) {
    || a == b
    || (65 <= a <= 90 && b == a + 32) || (65 <= b <= 90 && a == b + 32)
    || (a == 9 && b == 32) || (a == 32 && b == 9)
  }

  lemma FoldInBytes(a: Byte, b: Byte)
    ensures Fold(a) == Fold(b) <==> SameCharacter(a, b)
  {
  }

  /** Which bytes are binary, and which have a code. */
  lemma CharactersInBytes(b: Byte)
    ensures TrigramChar(b) == BINARY_CHAR <==> !IsTextByte(b)
    ensures TrigramChar(b) >= 0 <==> IsKnownByte(b)
    ensures Code(b) != UNDEFINED_CHAR <==> IsKnownByte(b)
  {
    if b <= 127 {
      RankClosed(Fold(b));
    }
  }

  // ----- the table -----

  /** The characters that have a code: printable ASCII, the capital letters folded away. */
  predicate IsIndexed(c: int) {
    32 <= c <= 126 && !IsAsciiUpper(c)
  }

  /** How many indexed characters come before `c`. */
  function Rank(c: nat): nat {
    if c == 0 then 0 else Rank(c - 1) + if IsIndexed(c - 1) then 1 else 0
  }

  /** The code of a byte: the rank of its folded form among the indexed characters. */
  function TrigramChar(b: Byte): int {
    if b > 127 then UNDEFINED_CHAR
    else if IsBinary(b) then BINARY_CHAR
    else if IsIndexed(Fold(b)) then Rank(Fold(b))
    else UNDEFINED_CHAR
  }

  /** In closed form: letters keep their distance, and the gap of the capitals is closed. */
  lemma {:induction false} RankClosed(c: nat)
    requires c <= 127
    ensures c <= 32 ==> Rank(c) == 0
    ensures 32 <= c <= 65 ==> Rank(c) == c - 32
    ensures 65 <= c <= 91 ==> Rank(c) == 33
    ensures 91 <= c <= 127 ==> Rank(c) == c - 90 - 1 + 65 - 32
  {
    if c != 0 {
      RankClosed(c - 1);
    }
  }

  /** Building the table, and the range check made on every code. */
  method BuildTrigramChars() returns (table: array<int>)
    ensures table.Length == 256 && fresh(table)
    ensures forall b: Byte :: table[b] == TrigramChar(b)
  {
    table := new int[256];
    for i := 0 to 256
      invariant forall b: Byte :: b < i ==> table[b] == TrigramChar(b)
    {
      if i > 127 {
        table[i] := UNDEFINED_CHAR;
        continue;
      }
      var ch := i;
      if ch == 9 {
        ch := 32;
      }
      if IsAsciiUpper(ch) {
        ch := ch - 65 + 97;
      }
      var isBinaryChar := ch < 9 || (ch >= 14 && ch < 32) || ch == 127;
      if isBinaryChar {
        table[i] := BINARY_CHAR;
        continue;
      }
      if ch < 32 {
        table[i] := UNDEFINED_CHAR;
        continue;
      }
      RankClosed(ch);
      if ch >= 90 {
        ch := ch - 90 - 1 + 65;
      }
      ch := ch - 32;
      assert 0 <= ch < CHARACTER_COUNT;
      table[i] := ch;
    }
  }

  /** A code determines the folded character, and every code below 69 is used. */
  lemma CodesAreFoldedCharacters(a: Byte, b: Byte)
    requires TrigramChar(a) >= 0 && TrigramChar(b) >= 0
    ensures TrigramChar(a) < CHARACTER_COUNT
    ensures TrigramChar(a) == TrigramChar(b) <==> SameCharacter(a, b)
  {
    FoldInBytes(a, b);
    RankClosed(Fold(a));
    RankClosed(Fold(b));
  }

  lemma EveryCodeIsUsed(code: nat) returns (b: Byte)
    requires code < CHARACTER_COUNT
    ensures TrigramChar(b) == code && Fold(b) == b
  {
    b := if code < 33 then code + 32 else code + 58;
    RankClosed(b);
  }

  /** The code in a query, where a binary character is only undefined. */
  function Code(b: Byte): int {
    if TrigramChar(b) == BINARY_CHAR then UNDEFINED_CHAR else TrigramChar(b)
  }

  function Codes(text: seq<Byte>): (codes: seq<int>)
    ensures |codes| == |text| && forall i :: 0 <= i < |text| ==> codes[i] == Code(text[i])
  {
    seq(|text|, i requires 0 <= i < |text| => Code(text[i]))
  }

  predicate AreCodes(chars: seq<int>) {
    forall i :: 0 <= i < |chars| ==> UNDEFINED_CHAR <= chars[i] < CHARACTER_COUNT
  }

  lemma CodesAreCodes(text: seq<Byte>)
    ensures AreCodes(Codes(text))
  {
    forall i | 0 <= i < |text| ensures UNDEFINED_CHAR <= Codes(text)[i] < CHARACTER_COUNT {
      if text[i] <= 127 {
        RankClosed(Fold(text[i]));
      }
    }
  }

  function TrigramAtIndex(chars: seq<int>, index: nat): (trigram: int)
    requires index + 2 < |chars| && AreCodes(chars)
    ensures trigram != UNDEFINED_TRIGRAM <==>
              chars[index] != UNDEFINED_CHAR && chars[index + 1] != UNDEFINED_CHAR && chars[index + 2] != UNDEFINED_CHAR
    ensures trigram != UNDEFINED_TRIGRAM ==> 0 <= trigram < TRIGRAM_COUNT
  {
    if chars[index] == UNDEFINED_CHAR || chars[index + 1] == UNDEFINED_CHAR || chars[index + 2] == UNDEFINED_CHAR
    then UNDEFINED_TRIGRAM
    else CHARACTER_COUNT * CHARACTER_COUNT * chars[index] + CHARACTER_COUNT * chars[index + 1] + chars[index + 2]
  }

  /** The trigram of the three bytes from `i` on. */
  function TrigramOf(text: seq<Byte>, i: nat): (trigram: int)
    requires i + 2 < |text|
    ensures trigram == UNDEFINED_TRIGRAM || 0 <= trigram < TRIGRAM_COUNT
  {
    CodesAreCodes(text);
    TrigramAtIndex(Codes(text), i)
  }

  predicate IsDefinedAt(text: seq<Byte>, i: nat)
    requires i + 2 < |text|
  {
    TrigramOf(text, i) != UNDEFINED_TRIGRAM
  }

  /** The defined trigrams of all windows of a text. */
  function TrigramsOf(text: seq<Byte>): set<int> {
    set i | 0 <= i < |text| - 2 && IsDefinedAt(text, i) :: TrigramOf(text, i)
  }

  /** The defined trigrams of the first `n` windows, in their order. */
  function TrigramsBefore(text: seq<Byte>, n: nat): seq<int>
    requires n == 0 || n + 1 < |text|
  {
    if n == 0 then []
    else TrigramsBefore(text, n - 1) + if IsDefinedAt(text, n - 1) then [TrigramOf(text, n - 1)] else []
  }

  function TrigramList(text: seq<Byte>): seq<int> {
    TrigramsBefore(text, if |text| < 3 then 0 else |text| - 2)
  }

  lemma {:induction false} TrigramsBeforeMembers(text: seq<Byte>, n: nat, t: int)
    requires n == 0 || n + 1 < |text|
    ensures t in TrigramsBefore(text, n)
            <==> exists k :: 0 <= k < n && k + 2 < |text| && IsDefinedAt(text, k) && TrigramOf(text, k) == t
  {
    hide TrigramOf, IsDefinedAt;
    if n > 0 {
      TrigramsBeforeMembers(text, n - 1, t);
    }
  }

  lemma TrigramListMembers(text: seq<Byte>, t: int)
    ensures t in TrigramList(text) <==> t in TrigramsOf(text)
  {
    TrigramsBeforeMembers(text, if |text| < 3 then 0 else |text| - 2, t);
  }

  predicate SameWindow(a: seq<Byte>, i: nat, b: seq<Byte>, j: nat)
    requires i + 2 < |a| && j + 2 < |b|
  {
    SameCharacter(a[i], b[j]) && SameCharacter(a[i + 1], b[j + 1]) && SameCharacter(a[i + 2], b[j + 2])
  }

  lemma CharacterDecidesCode(a: Byte, b: Byte)
    ensures SameCharacter(a, b) ==> Code(a) == Code(b)
    ensures Code(a) == Code(b) != UNDEFINED_CHAR ==> SameCharacter(a, b)
  {
    FoldInBytes(a, b);
    if TrigramChar(a) >= 0 && TrigramChar(b) >= 0 {
      CodesAreFoldedCharacters(a, b);
    }
  }

  lemma DigitsDecide(a: int, b: int, c: int, x: int, y: int, z: int)
    requires 0 <= a < CHARACTER_COUNT && 0 <= b < CHARACTER_COUNT && 0 <= c < CHARACTER_COUNT
    requires 0 <= x < CHARACTER_COUNT && 0 <= y < CHARACTER_COUNT && 0 <= z < CHARACTER_COUNT
    ensures CHARACTER_COUNT * CHARACTER_COUNT * a + CHARACTER_COUNT * b + c
         == CHARACTER_COUNT * CHARACTER_COUNT * x + CHARACTER_COUNT * y + z
         <==> a == x && b == y && c == z
  {
  }

  /** Two windows share a trigram exactly when they are equal up to case, tabs and spaces. */
  lemma TrigramsAreFoldedWindows(a: seq<Byte>, i: nat, b: seq<Byte>, j: nat)
    requires i + 2 < |a| && j + 2 < |b| && IsDefinedAt(a, i)
    ensures TrigramOf(a, i) == TrigramOf(b, j) <==> SameWindow(a, i, b, j)
  {
    CodesAreCodes(a);
    CodesAreCodes(b);
    var ca, cb := Codes(a), Codes(b);
    assert TrigramOf(a, i) == TrigramAtIndex(ca, i) && TrigramOf(b, j) == TrigramAtIndex(cb, j);
    CharacterDecidesCode(a[i], b[j]);
    CharacterDecidesCode(a[i + 1], b[j + 1]);
    CharacterDecidesCode(a[i + 2], b[j + 2]);
    hide SameCharacter, Code, TrigramOf;
    if TrigramAtIndex(cb, j) != UNDEFINED_TRIGRAM {
      DigitsDecide(ca[i], ca[i + 1], ca[i + 2], cb[j], cb[j + 1], cb[j + 2]);
    }
  }

  // ----- substring search -----

  predicate OccursAt(query: seq<Byte>, text: seq<Byte>, k: nat)
    requires k + |query| <= |text|
  {
    forall j :: 0 <= j < |query| ==> SameCharacter(query[j], text[k + j])
  }

  /** Plain substring search, up to case, tabs and spaces. */
  predicate Occurs(query: seq<Byte>, text: seq<Byte>) {
    exists k :: 0 <= k <= |text| - |query| && OccursAt(query, text, k)
  }

  /** A text has all the trigrams of what occurs in it. */
  lemma OccurrenceHasTrigrams(query: seq<Byte>, text: seq<Byte>)
    requires Occurs(query, text)
    ensures TrigramsOf(query) <= TrigramsOf(text)
  {
    hide TrigramOf, SameCharacter;
    var k :| 0 <= k <= |text| - |query| && OccursAt(query, text, k);
    forall t | t in TrigramsOf(query) ensures t in TrigramsOf(text) {
      var i :| 0 <= i < |query| - 2 && IsDefinedAt(query, i) && TrigramOf(query, i) == t;
      assert SameCharacter(query[i], text[k + i]);
      assert SameCharacter(query[i + 1], text[k + (i + 1)]);
      assert SameCharacter(query[i + 2], text[k + (i + 2)]);
      TrigramsAreFoldedWindows(query, i, text, k + i);
      assert IsDefinedAt(text, k + i);
    }
  }

  /** For three indexed characters the trigrams decide substring search exactly. */
  lemma ThreeCharactersDecide(query: seq<Byte>, text: seq<Byte>)
    requires |query| == 3 && IsDefinedAt(query, 0)
    ensures TrigramsOf(query) <= TrigramsOf(text) <==> Occurs(query, text)
  {
    if Occurs(query, text) {
      OccurrenceHasTrigrams(query, text);
    }
    if TrigramsOf(query) <= TrigramsOf(text) {
      var i := WindowOf(query, text);
      hide TrigramsOf, TrigramOf, IsDefinedAt;
      TrigramsAreFoldedWindows(query, 0, text, i);
      assert OccursAt(query, text, i);
    }
  }

  lemma WindowOf(query: seq<Byte>, text: seq<Byte>) returns (i: nat)
    requires |query| == 3 && IsDefinedAt(query, 0) && TrigramsOf(query) <= TrigramsOf(text)
    ensures i + 2 < |text| && IsDefinedAt(text, i) && TrigramOf(text, i) == TrigramOf(query, 0)
  {
    hide TrigramOf, IsDefinedAt;
    assert TrigramOf(query, 0) in TrigramsOf(query);
    i :| 0 <= i < |text| - 2 && IsDefinedAt(text, i) && TrigramOf(text, i) == TrigramOf(query, 0);
  }

  // ----- texts with binary characters -----

  predicate HasBinary(text: seq<Byte>) {
    exists i :: 0 <= i < |text| && TrigramChar(text[i]) == BINARY_CHAR
  }

  /** Exactly the files with other bytes than text have binary characters. */
  lemma BinaryInBytes(text: seq<Byte>)
    ensures HasBinary(text) <==> !IsText(text)
  {
    forall i | 0 <= i < |text| ensures TrigramChar(text[i]) == BINARY_CHAR <==> !IsTextByte(text[i]) {
      CharactersInBytes(text[i]);
    }
  }

  /** Exactly three known bytes have a trigram. */
  lemma DefinedInBytes(text: seq<Byte>, i: nat)
    requires i + 2 < |text|
    ensures IsDefinedAt(text, i) <==> IsKnownByte(text[i]) && IsKnownByte(text[i + 1]) && IsKnownByte(text[i + 2])
  {
    CharactersInBytes(text[i]);
    CharactersInBytes(text[i + 1]);
    CharactersInBytes(text[i + 2]);
    CodesAreCodes(text);
    hide Code, TrigramChar;
  }

  /** What a file contributes to the index: nothing if it has a binary character. */
  function FileTrigrams(content: seq<Byte>): set<int> {
    if HasBinary(content) then {} else TrigramsOf(content)
  }

  /** Reading a file in two parts that overlap by two bytes sees every window. */
  lemma OverlappingParts(text: seq<Byte>, a: nat, b: nat)
    requires a + 2 <= b <= |text|
    ensures TrigramsOf(text[..b]) == TrigramsOf(text[..a + 2]) + TrigramsOf(text[a..b])
  {
    hide TrigramOf;
    forall i | 0 <= i < b - 2
      ensures i < a ==> TrigramOf(text[..b], i) == TrigramOf(text[..a + 2], i)
      ensures i >= a ==> TrigramOf(text[..b], i) == TrigramOf(text[a..b], i - a)
    {
      if i < a {
        SameCodes(text[..b], i, text[..a + 2], i);
      } else {
        SameCodes(text[..b], i, text[a..b], i - a);
      }
    }
    forall t | t in TrigramsOf(text[..b])
      ensures t in TrigramsOf(text[..a + 2]) + TrigramsOf(text[a..b])
    {
      var i :| 0 <= i < b - 2 && IsDefinedAt(text[..b], i) && TrigramOf(text[..b], i) == t;
      if i < a {
        assert IsDefinedAt(text[..a + 2], i);
      } else {
        assert IsDefinedAt(text[a..b], i - a);
      }
    }
    forall t | t in TrigramsOf(text[..a + 2]) ensures t in TrigramsOf(text[..b]) {
      var i :| 0 <= i < a && IsDefinedAt(text[..a + 2], i) && TrigramOf(text[..a + 2], i) == t;
      assert IsDefinedAt(text[..b], i);
    }
    forall t | t in TrigramsOf(text[a..b]) ensures t in TrigramsOf(text[..b]) {
      var i :| 0 <= i < b - a - 2 && IsDefinedAt(text[a..b], i) && TrigramOf(text[a..b], i) == t;
      assert IsDefinedAt(text[..b], a + i);
    }
  }

  lemma SameCodes(a: seq<Byte>, i: nat, b: seq<Byte>, j: nat)
    requires i + 2 < |a| && j + 2 < |b|
    requires a[i] == b[j] && a[i + 1] == b[j + 1] && a[i + 2] == b[j + 2]
    ensures TrigramOf(a, i) == TrigramOf(b, j)
  {
  }
}
