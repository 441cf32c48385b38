// The page search: UTF-8 bytes are searched and matches are mapped back to glyphs. The result
// equals a search that compares characters glyph by glyph.

/** UTF-8 as section 3 of RFC 3629 defines it. */
module Utf8 {
  import opened Bytes

  /** Unicode scalar values: no surrogates. */
  type Scalar = c: int | 0 <= c < 0x11_0000 && !(0xD800 <= c < 0xE000)

  function Encode(c: Scalar): (s: seq<Byte>)
    ensures 1 <= |s| <= 4
  {
    if c < 0x80 then [c]
    else if c < 0x800 then [0xC0 + c / 0x40, 0x80 + c % 0x40]
    else if c < 0x1_0000 then [0xE0 + c / 0x1000, 0x80 + c / 0x40 % 0x40, 0x80 + c % 0x40]
    else [0xF0 + c / 0x4_0000, 0x80 + c / 0x1000 % 0x40, 0x80 + c / 0x40 % 0x40, 0x80 + c % 0x40]
  }

  /** One character of each width. */
  lemma EncodedExamples()
    ensures Encode(0x41) == [0x41] && Encode(0xE9) == [0xC3, 0xA9]
    ensures Encode(0x20AC) == [0xE2, 0x82, 0xAC] && Encode(0x1_F600) == [0xF0, 0x9F, 0x98, 0x80]
  {}

  function EncodeAll(s: seq<Scalar>): seq<Byte> {
    if s == [] then [] else Encode(s[0]) + EncodeAll(s[1..])
  }

  /** The byte position of the character with index `k`. */
  function Offset(s: seq<Scalar>, k: nat): nat
    requires k <= |s|
  {
    |EncodeAll(s[..k])|
  }

  predicate Continuation(b: Byte) {
    0x80 <= b < 0xC0
  }

  lemma EncodeShape(c: Scalar)
    ensures !Continuation(Encode(c)[0])
    ensures forall i :: 0 < i < |Encode(c)| ==> Continuation(Encode(c)[i])
  {}

  /** The number of bytes a lead byte announces. */
  function WidthOf(lead: Byte): nat {
    if lead < 0x80 then 1 else if lead < 0xE0 then 2 else if lead < 0xF0 then 3 else 4
  }

  lemma LeadByteGivesWidth(c: Scalar)
    ensures |Encode(c)| == WidthOf(Encode(c)[0])
  {}

  /** The character that an encoded prefix stands for. */
  function Decode(s: seq<Byte>): int
    requires 1 <= |s| <= 4
  {
    if |s| == 1 then s[0]
    else if |s| == 2 then (s[0] as int - 0xC0) * 0x40 + (s[1] as int - 0x80)
    else if |s| == 3 then (s[0] as int - 0xE0) * 0x1000 + (s[1] as int - 0x80) * 0x40 + (s[2] as int - 0x80)
    else
      (s[0] as int - 0xF0) * 0x4_0000 + (s[1] as int - 0x80) * 0x1000
      + (s[2] as int - 0x80) * 0x40 + (s[3] as int - 0x80)
  }

  lemma DecodeEncode(c: Scalar)
    ensures Decode(Encode(c)) == c
  {
    SixBitGroups(c);
  }

  lemma SixBitGroups(c: int)
    requires c >= 0
    ensures c / 0x1000 == c / 0x40 / 0x40 && c / 0x4_0000 == c / 0x1000 / 0x40
    ensures c == c / 0x40 * 0x40 + c % 0x40
    ensures c / 0x40 == c / 0x1000 * 0x40 + c / 0x40 % 0x40
    ensures c / 0x1000 == c / 0x4_0000 * 0x40 + c / 0x1000 % 0x40
  {}

  /** No encoded character is a proper prefix of another. */
  lemma PrefixFree(a: Scalar, b: Scalar, s: seq<Byte>)
    requires Encode(a) <= s && Encode(b) <= s
    ensures a == b
  {
    LeadByteGivesWidth(a);
    LeadByteGivesWidth(b);
    DecodeEncode(a);
    DecodeEncode(b);
    hide Encode, Decode, WidthOf;
    assert Encode(a)[0] == s[0] == Encode(b)[0];
    assert Encode(a) == s[..|Encode(a)|] == Encode(b);
  }

  lemma {:induction false} EncodeAllConcat(a: seq<Scalar>, b: seq<Scalar>)
    ensures EncodeAll(a + b) == EncodeAll(a) + EncodeAll(b)
  {
    hide Encode;
    if a == [] {
      assert a + b == b;
    } else {
      assert (a + b)[1..] == a[1..] + b;
      EncodeAllConcat(a[1..], b);
    }
  }

  lemma SplitAt(s: seq<Scalar>, k: nat)
    requires k <= |s|
    ensures Offset(s, k) <= |EncodeAll(s)|
    ensures EncodeAll(s)[..Offset(s, k)] == EncodeAll(s[..k])
    ensures EncodeAll(s)[Offset(s, k)..] == EncodeAll(s[k..])
  {
    EncodeAllConcat(s[..k], s[k..]);
    assert s == s[..k] + s[k..];
  }

  lemma NextOffset(s: seq<Scalar>, k: nat)
    requires k < |s|
    ensures Offset(s, k + 1) == Offset(s, k) + |Encode(s[k])|
  {
    EncodeAllConcat(s[..k], [s[k]]);
    assert s[..k + 1] == s[..k] + [s[k]];
    assert EncodeAll([s[k]]) == Encode(s[k]) + EncodeAll([s[k]][1..]);
  }

  lemma {:induction false} OffsetsAscend(s: seq<Scalar>, j: nat, k: nat)
    requires j <= k <= |s|
    ensures Offset(s, j) + (k - j) <= Offset(s, k)
  {
    if j < k {
      OffsetsAscend(s, j, k - 1);
      NextOffset(s, k - 1);
    }
  }

  /** A byte that is no continuation byte starts a character. */
  lemma {:induction false} LeadByteIsBoundary(s: seq<Scalar>, i: nat) returns (k: nat)
    requires i < |EncodeAll(s)| && !Continuation(EncodeAll(s)[i])
    ensures k < |s| && i == Offset(s, k)
  {
    var width := |Encode(s[0])|;
    EncodeShape(s[0]);
    hide Encode;
    if i < width {
      assert EncodeAll(s)[i] == Encode(s[0])[i];
      k := 0;
    } else {
      assert EncodeAll(s)[i] == EncodeAll(s[1..])[i - width];
      k := LeadByteIsBoundary(s[1..], i - width);
      assert s[..k + 1][1..] == s[1..][..k];
      k := k + 1;
    }
  }

  /** Encoded text that starts with encoded text starts with it character by character. */
  lemma {:induction false} PrefixOfText(h: seq<Scalar>, n: seq<Scalar>)
    requires EncodeAll(n) <= EncodeAll(h)
    ensures n <= h
  {
    hide Encode;
    if n != [] {
      var s := EncodeAll(h);
      assert Encode(n[0]) <= EncodeAll(n);
      assert |s| > 0;
      assert h != [];
      assert Encode(h[0]) <= s;
      PrefixFree(n[0], h[0], s);
      var w := |Encode(n[0])|;
      assert EncodeAll(n)[w..] == EncodeAll(n[1..]);
      assert s[w..] == EncodeAll(h[1..]);
      PrefixOfText(h[1..], n[1..]);
      assert n == [n[0]] + n[1..] && h == [h[0]] + h[1..];
    }
  }

  predicate BytesAt(hay: seq<Byte>, i: nat, needle: seq<Byte>) {
    i + |needle| <= |hay| && hay[i..i + |needle|] == needle
  }

  predicate TextAt(hay: seq<Scalar>, k: nat, needle: seq<Scalar>) {
    k + |needle| <= |hay| && hay[k..k + |needle|] == needle
  }

  /** Where the bytes of a non-empty text occur, the text occurs: UTF-8 synchronises itself. */
  lemma BytesMatchOnlyText(h: seq<Scalar>, n: seq<Scalar>, i: nat) returns (k: nat)
    requires n != [] && BytesAt(EncodeAll(h), i, EncodeAll(n))
    ensures k < |h| && i == Offset(h, k) && TextAt(h, k, n)
    ensures i + |EncodeAll(n)| == Offset(h, k + |n|)
  {
    hide Encode;
    var s, t := EncodeAll(h), EncodeAll(n);
    EncodeShape(n[0]);
    assert t[0] == Encode(n[0])[0];
    assert s[i] == s[i..i + |t|][0] == t[0];
    k := LeadByteIsBoundary(h, i);
    SplitAt(h, k);
    assert s[i..][..|t|] == s[i..i + |t|];
    PrefixOfText(h[k..], n);
    assert h[k..k + |n|] == h[k..][..|n|] == n;
    MatchEnd(h, n, k);
  }

  lemma MatchEnd(h: seq<Scalar>, n: seq<Scalar>, k: nat)
    requires TextAt(h, k, n)
    ensures Offset(h, k) + |EncodeAll(n)| == Offset(h, k + |n|)
  {
    assert h[..k + |n|] == h[..k] + h[k..k + |n|];
    EncodeAllConcat(h[..k], n);
  }

  /** Where a text occurs, its bytes occur. */
  lemma TextMatchesBytes(h: seq<Scalar>, n: seq<Scalar>, k: nat)
    requires TextAt(h, k, n)
    ensures BytesAt(EncodeAll(h), Offset(h, k), EncodeAll(n))
  {
    MatchEnd(h, n, k);
    SplitAt(h, k);
    var tail := h[k..];
    assert tail[..|n|] == n;
    SplitAt(tail, |n|);
    var s, at, m := EncodeAll(h), Offset(h, k), |EncodeAll(n)|;
    assert s[at..][..m] == EncodeAll(n);
    assert |s| >= at + m;
    assert s[at..at + m] == s[at..][..m];
  }
}

module TextSearch {
  import opened Bytes
  import opened Wrappers
  import opened Utf8

  /** The two Unicode tables the search consults. */
  datatype Tables = Tables(lower: Scalar -> seq<Scalar>, alphanumeric: Scalar -> bool) {
    /** `to_lowercase` yields at least one character. */
    ghost predicate Valid() {
      forall c: Scalar :: |lower(c)| >= 1
    }
  }

  datatype SearchQuery = SearchQuery(text: seq<Scalar>, matchCase: bool, wholeWord: bool)

  /** `SearchQuery::new`: an empty text is no query. */
  function NewQuery(text: seq<Scalar>, matchCase: bool, wholeWord: bool): Option<SearchQuery> {
    if text == [] then None else Some(SearchQuery(text, matchCase, wholeWord))
  }

  const LATIN_CAPITAL_I: Scalar := 0x49
  const LATIN_SMALL_I: Scalar := 0x69
  const CAPITAL_I_WITH_DOT: Scalar := 0x130
  const SMALL_DOTLESS_I: Scalar := 0x131

  /** The lower-case form, with the two Turkish letters fixed. */
  function Lowered(u: Tables, c: Scalar): seq<Scalar> {
    if c == LATIN_CAPITAL_I then [SMALL_DOTLESS_I]
    else if c == CAPITAL_I_WITH_DOT then [LATIN_SMALL_I]
    else u.lower(c)
  }

  function Fold(q: SearchQuery, u: Tables, c: Scalar): seq<Scalar> {
    if q.matchCase then [c] else Lowered(u, c)
  }

  function FoldAll(q: SearchQuery, u: Tables, cs: seq<Scalar>): seq<Scalar> {
    if cs == [] then [] else FoldAll(q, u, cs[..|cs| - 1]) + Fold(q, u, cs[|cs| - 1])
  }

  function Repeat<T>(x: T, n: nat): seq<T> {
    seq(n, _ => x)
  }

  /** For every folded character the index of the glyph it comes from. */
  function Origins(q: SearchQuery, u: Tables, cs: seq<Scalar>): (o: seq<nat>)
    ensures |o| == |FoldAll(q, u, cs)|
  {
    if cs == [] then [] else
      var n := |cs| - 1;
      Origins(q, u, cs[..n]) + Repeat(n, |Fold(q, u, cs[n])|)
  }

  /** For every byte of the folded text the index of the glyph it comes from. */
  function ByteOrigins(q: SearchQuery, u: Tables, cs: seq<Scalar>): seq<nat> {
    if cs == [] then [] else
      var n := |cs| - 1;
      ByteOrigins(q, u, cs[..n]) + Repeat(n, |EncodeAll(Fold(q, u, cs[n]))|)
  }

  // The search as a reader would state it

  /** The glyph a folded position belongs to; past the end it is the number of glyphs. */
  function GlyphAt(q: SearchQuery, u: Tables, glyphs: seq<Scalar>, k: nat): nat
    requires k <= |FoldAll(q, u, glyphs)|
  {
    if k < |FoldAll(q, u, glyphs)| then Origins(q, u, glyphs)[k] else |glyphs|
  }

  predicate StandsAlone(q: SearchQuery, u: Tables, glyphs: seq<Scalar>, start: nat, end: nat) {
    q.wholeWord ==>
      && !(0 < start <= |glyphs| && u.alphanumeric(glyphs[start - 1]))
      && !(end < |glyphs| && u.alphanumeric(glyphs[end]))
  }

  predicate Hit(q: SearchQuery, u: Tables, glyphs: seq<Scalar>, k: nat) {
    var needle := FoldAll(q, u, q.text);
    && TextAt(FoldAll(q, u, glyphs), k, needle)
    && StandsAlone(q, u, glyphs, GlyphAt(q, u, glyphs, k), GlyphAt(q, u, glyphs, k + |needle|))
  }

  function RangeAt(q: SearchQuery, u: Tables, glyphs: seq<Scalar>, k: nat): (nat, nat)
    requires Hit(q, u, glyphs, k)
  {
    (GlyphAt(q, u, glyphs, k), GlyphAt(q, u, glyphs, k + |FoldAll(q, u, q.text)|))
  }

  /** The glyph ranges of all hits below a position, in ascending order. */
  function Ranges(q: SearchQuery, u: Tables, glyphs: seq<Scalar>, below: nat): seq<(nat, nat)> {
    if below == 0 then [] else
      Ranges(q, u, glyphs, below - 1)
      + if Hit(q, u, glyphs, below - 1) then [RangeAt(q, u, glyphs, below - 1)] else []
  }

  /** Every occurrence on the page, overlapping ones included. */
  function AllRanges(q: SearchQuery, u: Tables, glyphs: seq<Scalar>): seq<(nat, nat)> {
    Ranges(q, u, glyphs, |FoldAll(q, u, glyphs)|)
  }

  // The loops

  method PushLowerChar(u: Tables, out: seq<Byte>, c: Scalar) returns (longer: seq<Byte>)
    ensures longer == out + EncodeAll(Lowered(u, c))
  {
    hide Encode;
    if c == LATIN_CAPITAL_I {
      EncodeOne(SMALL_DOTLESS_I);
      longer := out + Encode(SMALL_DOTLESS_I);
    } else if c == CAPITAL_I_WITH_DOT {
      EncodeOne(LATIN_SMALL_I);
      longer := out + Encode(LATIN_SMALL_I);
    } else {
      longer := out;
      var lower := u.lower(c);
      for i := 0 to |lower|
        invariant longer == out + EncodeAll(lower[..i])
      {
        EncodeOne(lower[i]);
        EncodeAllConcat(lower[..i], [lower[i]]);
        assert lower[..i + 1] == lower[..i] + [lower[i]];
        longer := longer + Encode(lower[i]);
      }
      assert lower[..|lower|] == lower;
    }
  }

  lemma EncodeOne(c: Scalar)
    ensures EncodeAll([c]) == Encode(c)
  {
    assert EncodeAll([c][1..]) == [];
  }

  /** The haystack and its byte-to-glyph table. */
  method BuildHaystack(q: SearchQuery, u: Tables, glyphs: seq<Scalar>)
    returns (haystack: seq<Byte>, byteToGlyph: seq<nat>)
    ensures haystack == EncodeAll(FoldAll(q, u, glyphs))
    ensures byteToGlyph == ByteOrigins(q, u, glyphs) + [|glyphs|]
  {
    hide Encode, EncodeAll;
    haystack, byteToGlyph := [], [];
    EncodeNothing();
    for i := 0 to |glyphs|
      invariant haystack == EncodeAll(FoldAll(q, u, glyphs[..i]))
      invariant byteToGlyph == ByteOrigins(q, u, glyphs[..i])
    {
      var ch := glyphs[i];
      assert glyphs[..i + 1][..i] == glyphs[..i];
      EncodeAllConcat(FoldAll(q, u, glyphs[..i]), Fold(q, u, ch));
      if q.matchCase {
        EncodeOne(ch);
        var encoded := Encode(ch);
        byteToGlyph := byteToGlyph + Repeat(i, |encoded|);
        haystack := haystack + encoded;
      } else {
        var startLen := |haystack|;
        haystack := PushLowerChar(u, haystack, ch);
        byteToGlyph := byteToGlyph + Repeat(i, |haystack| - startLen);
      }
    }
    assert glyphs[..|glyphs|] == glyphs;
    byteToGlyph := byteToGlyph + [|glyphs|];
  }

  lemma EncodeNothing()
    ensures EncodeAll([]) == []
  {}

  method BuildNeedle(q: SearchQuery, u: Tables) returns (needle: seq<Byte>)
    ensures needle == EncodeAll(FoldAll(q, u, q.text))
  {
    hide Encode, EncodeAll;
    if q.matchCase {
      ExactFold(q, u, q.text);
      return EncodeAll(q.text);
    }
    needle := [];
    EncodeNothing();
    for i := 0 to |q.text|
      invariant needle == EncodeAll(FoldAll(q, u, q.text[..i]))
    {
      assert q.text[..i + 1][..i] == q.text[..i];
      EncodeAllConcat(FoldAll(q, u, q.text[..i]), Fold(q, u, q.text[i]));
      needle := PushLowerChar(u, needle, q.text[i]);
    }
    assert q.text[..|q.text|] == q.text;
  }

  lemma {:induction false} ExactFold(q: SearchQuery, u: Tables, cs: seq<Scalar>)
    requires q.matchCase
    ensures FoldAll(q, u, cs) == cs
  {
    if cs != [] {
      ExactFold(q, u, cs[..|cs| - 1]);
    }
  }

  /** `str::find` from a position: the first occurrence, if any. */
  method FindFrom(hay: seq<Byte>, start: nat, needle: seq<Byte>) returns (r: Option<nat>)
    requires start <= |hay|
    ensures r.Some? ==> r.value >= start && BytesAt(hay, r.value, needle)
    ensures forall i :: start <= i && (r.Some? ==> i < r.value) ==> !BytesAt(hay, i, needle)
  {
    var i := start;
    while i + |needle| <= |hay|
      invariant start <= i
      invariant forall j :: start <= j < i ==> !BytesAt(hay, j, needle)
    {
      if hay[i..i + |needle|] == needle {
        return Some(i);
      }
      i := i + 1;
    }
    return None;
  }

  /** The glyph table read at a character boundary. */
  lemma {:induction false} TableAtBoundary(q: SearchQuery, u: Tables, cs: seq<Scalar>, k: nat)
    requires k <= |FoldAll(q, u, cs)|
    ensures |ByteOrigins(q, u, cs)| == |EncodeAll(FoldAll(q, u, cs))|
    ensures Offset(FoldAll(q, u, cs), k) <= |ByteOrigins(q, u, cs)|
    ensures (ByteOrigins(q, u, cs) + [|cs|])[Offset(FoldAll(q, u, cs), k)] == GlyphAt(q, u, cs, k)
  {
    hide Encode, EncodeAll, Fold;
    var h := FoldAll(q, u, cs);
    if cs == [] {
      EncodeNothing();
      assert h[..k] == [];
    } else {
      var n := |cs| - 1;
      var before, fold := FoldAll(q, u, cs[..n]), Fold(q, u, cs[n]);
      EncodeAllConcat(before, fold);
      OffsetsAscend(h, k, |h|);
      assert h[..|h|] == h;
      if k < |before| {
        TableAtBoundary(q, u, cs[..n], k);
        assert h[..k] == before[..k];
        OffsetsAscend(before, k, |before|);
        assert before[..|before|] == before;
      } else {
        TableAtBoundary(q, u, cs[..n], |before|);
        assert h[..k] == before + fold[..k - |before|];
        EncodeAllConcat(before, fold[..k - |before|]);
      }
    }
  }

  lemma {:induction false} FoldIsNonEmpty(q: SearchQuery, u: Tables, cs: seq<Scalar>)
    requires u.Valid() && cs != []
    ensures FoldAll(q, u, cs) != []
  {}

  /** `&haystack[start..]` does not panic: the position is a character boundary. */
  ghost predicate IsBoundary(h: seq<Scalar>, start: nat) {
    exists k :: 0 <= k <= |h| && start == Offset(h, k)
  }

  /** Nothing is hit between two neighbouring search positions. */
  lemma {:induction false} NoHitsBetween(q: SearchQuery, u: Tables, glyphs: seq<Scalar>, from: nat, to: nat)
    requires from <= to
    requires forall k :: from <= k < to ==> !TextAt(FoldAll(q, u, glyphs), k, FoldAll(q, u, q.text))
    ensures Ranges(q, u, glyphs, to) == Ranges(q, u, glyphs, from)
  {
    if from < to {
      NoHitsBetween(q, u, glyphs, from, to - 1);
    }
  }

  /** A byte search that skipped to `found` skipped no occurrence of the text. */
  lemma SkippedNothing(h: seq<Scalar>, n: seq<Scalar>, from: nat, found: Option<nat>, to: nat)
    requires from <= |h| && to <= |h| && n != []
    requires forall i :: Offset(h, from) <= i && (found.Some? ==> i < found.value)
               ==> !BytesAt(EncodeAll(h), i, EncodeAll(n))
    requires found.Some? ==> found.value == Offset(h, to)
    ensures forall k :: from <= k < to ==> !TextAt(h, k, n)
  {
    hide Encode, EncodeAll;
    forall k | from <= k < to ensures !TextAt(h, k, n) {
      if TextAt(h, k, n) {
        TextMatchesBytes(h, n, k);
        OffsetsAscend(h, from, k);
        OffsetsAscend(h, k, to);
      }
    }
  }

  /** What one found byte position means for the characters and the glyph table. */
  lemma FoundPosition(q: SearchQuery, u: Tables, glyphs: seq<Scalar>, k: nat, found: nat) returns (at: nat)
    requires FoldAll(q, u, q.text) != [] && k <= |FoldAll(q, u, glyphs)|
    requires Offset(FoldAll(q, u, glyphs), k) <= found
    requires BytesAt(EncodeAll(FoldAll(q, u, glyphs)), found, EncodeAll(FoldAll(q, u, q.text)))
    requires forall i :: Offset(FoldAll(q, u, glyphs), k) <= i < found
               ==> !BytesAt(EncodeAll(FoldAll(q, u, glyphs)), i, EncodeAll(FoldAll(q, u, q.text)))
    ensures var h, n := FoldAll(q, u, glyphs), FoldAll(q, u, q.text);
            var end := found + |EncodeAll(n)|;
            var table := ByteOrigins(q, u, glyphs) + [|glyphs|];
            && k <= at < |h| && found == Offset(h, at) && TextAt(h, at, n)
            && Ranges(q, u, glyphs, at) == Ranges(q, u, glyphs, k)
            && end < |table|
            && table[found] == GlyphAt(q, u, glyphs, at)
            && table[end] == GlyphAt(q, u, glyphs, at + |n|)
            && FirstCharLen(EncodeAll(n)) + found == Offset(h, at + 1)
  {
    var h, n := FoldAll(q, u, glyphs), FoldAll(q, u, q.text);
    hide Encode, EncodeAll, FoldAll, Ranges, ByteOrigins, GlyphAt, Offset, FirstCharLen;
    at := BytesMatchOnlyText(h, n, found);
    if at < k { OffsetsAscend(h, at, k); }
    SkippedNothing(h, n, k, Some(found), at);
    NoHitsBetween(q, u, glyphs, k, at);
    TableAtBoundary(q, u, glyphs, at);
    TableAtBoundary(q, u, glyphs, at + |n|);
    NextOffset(h, at);
    assert h[at] == h[at..at + |n|][0] == n[0];
    FirstCharWidth(n);
  }

  /** The length of the first character of the needle. */
  function FirstCharLen(needle: seq<Byte>): nat {
    if needle == [] then 1 else WidthOf(needle[0])
  }

  lemma FirstCharWidth(n: seq<Scalar>)
    requires n != []
    ensures FirstCharLen(EncodeAll(n)) == |Encode(n[0])|
  {
    LeadByteGivesWidth(n[0]);
    hide Encode;
    assert EncodeAll(n)[0] == Encode(n[0])[0];
  }

  /**
   * The byte search returns exactly the ranges of the character search. Every slice it takes
   * starts on a character boundary and every table index is in range.
   */
  method FindInGeometry(q: SearchQuery, u: Tables, glyphs: seq<Scalar>) returns (matches: seq<(nat, nat)>)
    requires u.Valid() && q.text != []
    ensures matches == AllRanges(q, u, glyphs)
    ensures q.matchCase || SingleLower(u) ==>
              forall start: nat, end: nat :: (start, end) in matches <==> IsMatch(q, u, glyphs, start, end)
  {
    hide Encode, EncodeAll, FoldAll, ByteOrigins, GlyphAt, Offset, FirstCharLen, StandsAlone, SingleLower, IsMatch;
    if q.matchCase || SingleLower(u) { GlyphSearches(q, u, glyphs); }
    matches := [];
    if glyphs == [] {
      NoGlyphs(q, u);
      return;
    }
    var haystack, byteToGlyph := BuildHaystack(q, u, glyphs);
    var needle := BuildNeedle(q, u);
    ghost var h, n := FoldAll(q, u, glyphs), FoldAll(q, u, q.text);
    FoldIsNonEmpty(q, u, q.text);
    TextEnds(h);
    var startIdx := 0;
    ghost var k := 0;
    var found := FindFrom(haystack, startIdx, needle);
    while found.Some?
      invariant k <= |h| && startIdx == Offset(h, k) <= |haystack|
      invariant IsBoundary(h, startIdx)
      invariant matches == Ranges(q, u, glyphs, k)
      invariant found.Some? ==> found.value >= startIdx && BytesAt(haystack, found.value, needle)
      invariant forall i :: startIdx <= i && (found.Some? ==> i < found.value) ==> !BytesAt(haystack, i, needle)
      decreases |h| - k, found.Some?
    {
      var absolute := found.value;
      var endMatch := absolute + |needle|;
      ghost var at := FoundPosition(q, u, glyphs, k, absolute);
      var glyphStart := byteToGlyph[absolute];
      var glyphEnd := byteToGlyph[endMatch];
      GlyphsInRange(q, u, glyphs, at);
      var isWholeWord := IsWholeWord(q, u, glyphs, glyphStart, glyphEnd);
      if isWholeWord {
        matches := matches + [(glyphStart, glyphEnd)];
      }
      startIdx := absolute + FirstCharLen(needle);
      k := at + 1;
      OffsetsAscend(h, k, |h|);
      found := FindFrom(haystack, startIdx, needle);
    }
    SkippedNothing(h, n, k, None, |h|);
    NoHitsBetween(q, u, glyphs, k, |h|);
  }

  lemma GlyphSearches(q: SearchQuery, u: Tables, glyphs: seq<Scalar>)
    requires (q.matchCase || SingleLower(u)) && q.text != []
    ensures forall start: nat, end: nat ::
              (start, end) in AllRanges(q, u, glyphs) <==> IsMatch(q, u, glyphs, start, end)
  {
    hide AllRanges, IsMatch, SingleLower;
    forall start: nat, end: nat
      ensures (start, end) in AllRanges(q, u, glyphs) <==> IsMatch(q, u, glyphs, start, end)
    {
      GlyphSearch(q, u, glyphs, start, end);
    }
  }

  lemma NoGlyphs(q: SearchQuery, u: Tables)
    ensures AllRanges(q, u, []) == []
  {}

  lemma TextEnds(h: seq<Scalar>)
    ensures Offset(h, 0) == 0 && Offset(h, |h|) == |EncodeAll(h)|
    ensures IsBoundary(h, 0)
  {
    assert h[..|h|] == h;
  }

  lemma {:induction false} GlyphsInRange(q: SearchQuery, u: Tables, glyphs: seq<Scalar>, k: nat)
    requires k <= |FoldAll(q, u, glyphs)|
    ensures GlyphAt(q, u, glyphs, k) <= |glyphs|
  {
    hide Fold;
    if k < |FoldAll(q, u, glyphs)| {
      var n := |glyphs| - 1;
      if k < |FoldAll(q, u, glyphs[..n])| {
        GlyphsInRange(q, u, glyphs[..n], k);
      }
    }
  }

  method IsWholeWord(q: SearchQuery, u: Tables, glyphs: seq<Scalar>, glyphStart: nat, glyphEnd: nat) returns (r: bool)
    requires glyphStart <= |glyphs|
    ensures r == StandsAlone(q, u, glyphs, glyphStart, glyphEnd)
  {
    r := true;
    if q.wholeWord {
      var prevCharAlphanumeric := if glyphStart > 0 then u.alphanumeric(glyphs[glyphStart - 1]) else false;
      var nextCharAlphanumeric := if glyphEnd < |glyphs| then u.alphanumeric(glyphs[glyphEnd]) else false;
      if prevCharAlphanumeric || nextCharAlphanumeric {
        r := false;
      }
    }
  }

  // What the ranges are

  /** The ranges are listed by strictly ascending position, and no hit is left out. */
  lemma {:induction false} RangesAreTheHits(q: SearchQuery, u: Tables, glyphs: seq<Scalar>, below: nat,
      range: (nat, nat))
    ensures range in Ranges(q, u, glyphs, below)
       <==> exists k: nat | k < below && Hit(q, u, glyphs, k) :: RangeAt(q, u, glyphs, k) == range
  {
    hide Hit, RangeAt;
    if below > 0 {
      RangesAreTheHits(q, u, glyphs, below - 1, range);
    }
  }

  /** A lower-casing that keeps one character one character. */
  ghost predicate OneToOne(q: SearchQuery, u: Tables) {
    forall c: Scalar :: |Fold(q, u, c)| == 1
  }

  lemma {:induction false} OneToOneFold(q: SearchQuery, u: Tables, cs: seq<Scalar>)
    requires OneToOne(q, u)
    ensures |FoldAll(q, u, cs)| == |cs|
    ensures forall i :: 0 <= i < |cs| ==> FoldAll(q, u, cs)[i] == Fold(q, u, cs[i])[0]
    ensures forall i :: 0 <= i < |cs| ==> Origins(q, u, cs)[i] == i
  {
    hide Fold;
    if cs != [] {
      var n := |cs| - 1;
      OneToOneFold(q, u, cs[..n]);
      assert |Fold(q, u, cs[n])| == 1;
    }
  }

  /** The glyphs from `start` on spell the text, letter case folded as the query says. */
  ghost predicate Spells(q: SearchQuery, u: Tables, glyphs: seq<Scalar>, start: nat) {
    && start + |q.text| <= |glyphs|
    && forall i :: 0 <= i < |q.text| ==> Fold(q, u, glyphs[start + i]) == Fold(q, u, q.text[i])
  }

  lemma SpellsIsTextAt(q: SearchQuery, u: Tables, glyphs: seq<Scalar>, k: nat)
    requires OneToOne(q, u)
    ensures Spells(q, u, glyphs, k) <==> TextAt(FoldAll(q, u, glyphs), k, FoldAll(q, u, q.text))
  {
    hide Fold, FoldAll, OneToOne, Spells, TextAt;
    if Spells(q, u, glyphs, k) { SpelledIsText(q, u, glyphs, k); }
    if TextAt(FoldAll(q, u, glyphs), k, FoldAll(q, u, q.text)) { TextIsSpelled(q, u, glyphs, k); }
  }

  lemma SpelledIsText(q: SearchQuery, u: Tables, glyphs: seq<Scalar>, k: nat)
    requires OneToOne(q, u) && Spells(q, u, glyphs, k)
    ensures TextAt(FoldAll(q, u, glyphs), k, FoldAll(q, u, q.text))
  {
    OneToOneFold(q, u, glyphs);
    OneToOneFold(q, u, q.text);
    hide Fold, FoldAll, OneToOne;
    var h, n := FoldAll(q, u, glyphs), FoldAll(q, u, q.text);
    assert forall i :: 0 <= i < |n| ==> h[k..k + |n|][i] == n[i];
  }

  lemma TextIsSpelled(q: SearchQuery, u: Tables, glyphs: seq<Scalar>, k: nat)
    requires OneToOne(q, u) && TextAt(FoldAll(q, u, glyphs), k, FoldAll(q, u, q.text))
    ensures Spells(q, u, glyphs, k)
  {
    OneToOneFold(q, u, glyphs);
    OneToOneFold(q, u, q.text);
    hide Fold, FoldAll, OneToOne;
    var h, n := FoldAll(q, u, glyphs), FoldAll(q, u, q.text);
    forall i | 0 <= i < |q.text| ensures Fold(q, u, glyphs[k + i]) == Fold(q, u, q.text[i]) {
      assert h[k + i] == h[k..k + |n|][i];
      SingleCharacters(q, u, glyphs[k + i], q.text[i]);
    }
  }

  lemma SingleCharacters(q: SearchQuery, u: Tables, a: Scalar, b: Scalar)
    requires OneToOne(q, u) && Fold(q, u, a)[0] == Fold(q, u, b)[0]
    ensures Fold(q, u, a) == Fold(q, u, b)
  {}

  lemma OneToOneHit(q: SearchQuery, u: Tables, glyphs: seq<Scalar>, k: nat)
    requires OneToOne(q, u)
    ensures Hit(q, u, glyphs, k) <==> Spells(q, u, glyphs, k) && StandsAlone(q, u, glyphs, k, k + |q.text|)
    ensures Hit(q, u, glyphs, k) ==> RangeAt(q, u, glyphs, k) == (k, k + |q.text|)
  {
    SpellsIsTextAt(q, u, glyphs, k);
    OneToOneFold(q, u, glyphs);
    OneToOneFold(q, u, q.text);
    hide Fold, FoldAll, StandsAlone, Spells, OneToOne, GlyphAt;
    if TextAt(FoldAll(q, u, glyphs), k, FoldAll(q, u, q.text)) {
      GlyphAtItself(q, u, glyphs, k);
      GlyphAtItself(q, u, glyphs, k + |q.text|);
    }
  }

  lemma GlyphAtItself(q: SearchQuery, u: Tables, glyphs: seq<Scalar>, k: nat)
    requires OneToOne(q, u) && k <= |glyphs|
    ensures |FoldAll(q, u, glyphs)| == |glyphs| && GlyphAt(q, u, glyphs, k) == k
  {
    OneToOneFold(q, u, glyphs);
    hide Fold, FoldAll, OneToOne;
  }

  lemma FoldedGlyphSearch(q: SearchQuery, u: Tables, glyphs: seq<Scalar>, start: nat, end: nat)
    requires OneToOne(q, u) && q.text != []
    ensures (start, end) in AllRanges(q, u, glyphs)
       <==> end == start + |q.text| && Spells(q, u, glyphs, start) && StandsAlone(q, u, glyphs, start, end)
  {
    var below := |FoldAll(q, u, glyphs)|;
    OneToOneFold(q, u, glyphs);
    RangesAreTheHits(q, u, glyphs, below, (start, end));
    OneToOneHit(q, u, glyphs, start);
    hide Hit, RangeAt, Spells, StandsAlone, Fold, FoldAll;
    if (start, end) in AllRanges(q, u, glyphs) {
      var k: nat :| k < below && Hit(q, u, glyphs, k) && RangeAt(q, u, glyphs, k) == (start, end);
      OneToOneHit(q, u, glyphs, k);
    }
    if Spells(q, u, glyphs, start) && StandsAlone(q, u, glyphs, start, end) && end == start + |q.text| {
      SpellsInside(q, u, glyphs, start);
      assert Hit(q, u, glyphs, start) && RangeAt(q, u, glyphs, start) == (start, end);
    }
  }

  // The letters spelled out

  /** Every letter but the two Turkish ones has one lower-case character. */
  ghost predicate SingleLower(u: Tables) {
    forall c: Scalar :: c != 0x49 && c != 0x130 ==> |u.lower(c)| == 1
  }

  /**
   * The query takes two characters for the same: they are equal, or without regard to case their lower-case
   * forms are, where I counts as the dotless i and I with a dot as i.
   */
  predicate SameLetter(q: SearchQuery, u: Tables, a: Scalar, b: Scalar) {
    if q.matchCase then a == b
    else if a in {0x49, 0x130} && b in {0x49, 0x130} then a == b
    else if a == 0x49 then u.lower(b) == [0x131]
    else if b == 0x49 then u.lower(a) == [0x131]
    else if a == 0x130 then u.lower(b) == [0x69]
    else if b == 0x130 then u.lower(a) == [0x69]
    else u.lower(a) == u.lower(b)
  }

  /** The glyphs of the range are the letters of the text, and a whole word has no letter or digit beside it. */
  ghost predicate IsMatch(q: SearchQuery, u: Tables, glyphs: seq<Scalar>, start: nat, end: nat) {
    && end == start + |q.text| && end <= |glyphs|
    && (forall i :: 0 <= i < |q.text| ==> SameLetter(q, u, glyphs[start + i], q.text[i]))
    && (q.wholeWord ==>
          && (start == 0 || !u.alphanumeric(glyphs[start - 1]))
          && (end == |glyphs| || !u.alphanumeric(glyphs[end])))
  }

  lemma SameLetterIff(q: SearchQuery, u: Tables, a: Scalar, b: Scalar)
    ensures SameLetter(q, u, a, b) <==> Fold(q, u, a) == Fold(q, u, b)
  {}

  lemma SpellsIff(q: SearchQuery, u: Tables, glyphs: seq<Scalar>, start: nat)
    ensures Spells(q, u, glyphs, start)
       <==> (&& start + |q.text| <= |glyphs|
             && forall i :: 0 <= i < |q.text| ==> SameLetter(q, u, glyphs[start + i], q.text[i]))
  {
    hide Fold, SameLetter;
    if start + |q.text| <= |glyphs| {
      forall i | 0 <= i < |q.text|
        ensures SameLetter(q, u, glyphs[start + i], q.text[i]) <==>
                  Fold(q, u, glyphs[start + i]) == Fold(q, u, q.text[i])
      {
        SameLetterIff(q, u, glyphs[start + i], q.text[i]);
      }
    }
  }

  /**
   * The byte search is the search glyph by glyph: a range is reported exactly when its glyphs are the letters
   * of the text and, for a whole word, it has no letter or digit beside it.
   */
  lemma GlyphSearch(q: SearchQuery, u: Tables, glyphs: seq<Scalar>, start: nat, end: nat)
    requires (q.matchCase || SingleLower(u)) && q.text != []
    ensures (start, end) in AllRanges(q, u, glyphs) <==> IsMatch(q, u, glyphs, start, end)
  {
    assert OneToOne(q, u);
    FoldedGlyphSearch(q, u, glyphs, start, end);
    SpellsIff(q, u, glyphs, start);
    hide AllRanges, Fold, SameLetter, Spells, OneToOne, SingleLower;
  }

  lemma SpellsInside(q: SearchQuery, u: Tables, glyphs: seq<Scalar>, start: nat)
    requires q.text != [] && Spells(q, u, glyphs, start)
    ensures start < |glyphs|
  {}

  /** The ranges come in strictly ascending order of their starts, so each is listed once. */
  lemma {:induction false} RangesAscend(q: SearchQuery, u: Tables, glyphs: seq<Scalar>, below: nat)
    requires q.matchCase || SingleLower(u)
    ensures forall i, j :: 0 <= i < j < |Ranges(q, u, glyphs, below)|
              ==> Ranges(q, u, glyphs, below)[i].0 < Ranges(q, u, glyphs, below)[j].0
    ensures forall i :: 0 <= i < |Ranges(q, u, glyphs, below)| ==> Ranges(q, u, glyphs, below)[i].0 < below
  {
    assert OneToOne(q, u);
    hide Hit, RangeAt, OneToOne;
    if below > 0 {
      RangesAscend(q, u, glyphs, below - 1);
      OneToOneHit(q, u, glyphs, below - 1);
    }
  }
}
