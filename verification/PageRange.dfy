// Page ranges such as "1, 3-5": what is accepted, which pages are meant, and how extracting and
// deleting with the same range relate.

/** Trimming and splitting of text. */
module Text {
  type Text = seq<char>

  /** The characters with the Unicode property White_Space. */
  predicate IsSpace(c: char) {
    || '\U{9}' <= c <= '\U{D}' || c == ' ' || c == '\U{85}' || c == '\U{A0}' || c == '\U{1680}'
    || '\U{2000}' <= c <= '\U{200A}' || c == '\U{2028}' || c == '\U{2029}' || c == '\U{202F}' || c == '\U{205F}'
         || c == '\U{3000}'
  }

  predicate Spaces(s: Text) {
    forall i :: 0 <= i < |s| ==> IsSpace(s[i])
  }

  /** Text that neither begins nor ends with white space. */
  predicate Tight(s: Text) {
    s != [] ==> !IsSpace(s[0]) && !IsSpace(s[|s| - 1])
  }

  function TrimStart(s: Text): Text {
    if s != [] && IsSpace(s[0]) then TrimStart(s[1..]) else s
  }

  function TrimEnd(s: Text): Text {
    if s != [] && IsSpace(s[|s| - 1]) then TrimEnd(s[..|s| - 1]) else s
  }

  function Trim(s: Text): Text {
    TrimEnd(TrimStart(s))
  }

  lemma {:induction false} TrimStartParts(s: Text) returns (a: Text)
    ensures s == a + TrimStart(s) && Spaces(a)
    ensures TrimStart(s) != [] ==> !IsSpace(TrimStart(s)[0])
  {
    if s != [] && IsSpace(s[0]) {
      var rest := TrimStartParts(s[1..]);
      a := [s[0]] + rest;
      assert s == [s[0]] + s[1..];
    } else {
      a := [];
    }
  }

  lemma {:induction false} TrimEndParts(s: Text) returns (b: Text)
    ensures s == TrimEnd(s) + b && Spaces(b) && TrimEnd(s) <= s
    ensures TrimEnd(s) != [] ==> !IsSpace(TrimEnd(s)[|TrimEnd(s)| - 1])
  {
    if s != [] && IsSpace(s[|s| - 1]) {
      var rest := TrimEndParts(s[..|s| - 1]);
      b := rest + [s[|s| - 1]];
      assert s == s[..|s| - 1] + [s[|s| - 1]];
    } else {
      b := [];
    }
  }

  /** Trimming takes white space off both ends and leaves none there. */
  lemma TrimParts(s: Text) returns (a: Text, b: Text)
    ensures s == a + Trim(s) + b && Spaces(a) && Spaces(b) && Tight(Trim(s))
  {
    a := TrimStartParts(s);
    b := TrimEndParts(TrimStart(s));
  }

  lemma {:induction false} TrimStartOf(a: Text, m: Text)
    requires Spaces(a) && (m == [] || !IsSpace(m[0]))
    ensures TrimStart(a + m) == m
  {
    if a != [] {
      assert (a + m)[1..] == a[1..] + m;
      TrimStartOf(a[1..], m);
    } else {
      assert a + m == m;
    }
  }

  lemma {:induction false} TrimEndOf(m: Text, b: Text)
    requires Spaces(b) && (m == [] || !IsSpace(m[|m| - 1]))
    ensures TrimEnd(m + b) == m
  {
    if b != [] {
      assert (m + b)[..|m + b| - 1] == m + b[..|b| - 1];
      TrimEndOf(m, b[..|b| - 1]);
    } else {
      assert m + b == m;
    }
  }

  /** And the result is the only text of which this is so. */
  lemma TrimOf(a: Text, m: Text, b: Text)
    requires Spaces(a) && Spaces(b) && m != [] && Tight(m)
    ensures Trim(a + m + b) == m
  {
    assert a + m + b == a + (m + b);
    TrimStartOf(a, m + b);
    TrimEndOf(m, b);
  }

  predicate Lacks(s: Text, c: char) {
    forall i :: 0 <= i < |s| ==> s[i] != c
  }

  /** The position of the first `c`, or the length. */
  function Find(s: Text, c: char): (at: nat)
    ensures at <= |s| && Lacks(s[..at], c)
    ensures at < |s| ==> s[at] == c
  {
    if s == [] then 0
    else if s[0] == c then 0
    else
      var at := 1 + Find(s[1..], c);
      assert forall i :: 1 <= i < at ==> s[i] == s[1..][..at - 1][i - 1];
      at
  }

  /** `split`: the pieces between the occurrences of `c`. */
  function Split(s: Text, c: char): (pieces: seq<Text>)
    ensures pieces != []
    decreases |s|
  {
    var at := Find(s, c);
    if at == |s| then [s] else [s[..at]] + Split(s[at + 1..], c)
  }

  function Join(pieces: seq<Text>, c: char): Text
    requires pieces != []
  {
    if |pieces| == 1 then pieces[0] else pieces[0] + [c] + Join(pieces[1..], c)
  }

  lemma FindOf(a: Text, c: char, rest: Text)
    requires Lacks(a, c)
    ensures Find(a + [c] + rest, c) == |a|
    ensures Find(a, c) == |a|
  {
    var s := a + [c] + rest;
    var at := Find(s, c);
    assert forall i :: 0 <= i < at ==> s[..at][i] == s[i];
    assert s[|a|] == c && forall i :: 0 <= i < |a| ==> s[i] == a[i];
  }

  /** Joining undoes splitting, and no piece holds the separator. */
  lemma {:induction false} JoinOfSplit(s: Text, c: char)
    ensures Join(Split(s, c), c) == s
    ensures forall i :: 0 <= i < |Split(s, c)| ==> Lacks(Split(s, c)[i], c)
    decreases |s|
  {
    hide Lacks, Find;
    var at := Find(s, c);
    if at == |s| {
      assert s[..at] == s;
    } else {
      var (first, rest) := (s[..at], s[at + 1..]);
      JoinOfSplit(rest, c);
      JoinOfMore(first, Split(rest, c), c);
      assert s == first + [c] + rest;
    }
  }

  lemma JoinOfMore(first: Text, rest: seq<Text>, c: char)
    requires rest != []
    ensures Join([first] + rest, c) == first + [c] + Join(rest, c)
  {
    assert ([first] + rest)[1..] == rest;
  }

  /** Splitting undoes joining of pieces that do not hold the separator. */
  lemma {:induction false} SplitOfJoin(pieces: seq<Text>, c: char)
    requires pieces != [] && forall i :: 0 <= i < |pieces| ==> Lacks(pieces[i], c)
    ensures Split(Join(pieces, c), c) == pieces
  {
    if |pieces| == 1 {
      FindOf(pieces[0], c, []);
    } else {
      var (first, rest) := (pieces[0], pieces[1..]);
      SplitOfJoin(rest, c);
      FindOf(first, c, Join(rest, c));
      var s := first + [c] + Join(rest, c);
      assert s[..|first|] == first && s[|first| + 1..] == Join(rest, c);
      assert pieces == [first] + rest;
    }
  }

  lemma JoinPadFirst(a: Text, pieces: seq<Text>, c: char)
    requires pieces != []
    ensures Join(pieces[0 := a + pieces[0]], c) == a + Join(pieces, c)
  {
    var padded := pieces[0 := a + pieces[0]];
    if |pieces| > 1 {
      assert padded[1..] == pieces[1..];
      assert (a + pieces[0]) + [c] + Join(pieces[1..], c) == a + (pieces[0] + [c] + Join(pieces[1..], c));
    }
  }

  lemma {:induction false} JoinPadLast(pieces: seq<Text>, b: Text, c: char)
    requires pieces != []
    ensures Join(pieces[|pieces| - 1 := pieces[|pieces| - 1] + b], c) == Join(pieces, c) + b
  {
    var last := |pieces| - 1;
    var padded := pieces[last := pieces[last] + b];
    if |pieces| > 1 {
      var rest := pieces[1..];
      JoinPadLast(rest, b, c);
      assert padded[1..] == rest[|rest| - 1 := rest[|rest| - 1] + b];
      assert pieces[0] + [c] + (Join(rest, c) + b) == (pieces[0] + [c] + Join(rest, c)) + b;
    }
  }

  lemma {:induction false} JoinEnds(pieces: seq<Text>, c: char)
    requires pieces != []
    ensures pieces[0] != [] ==> Join(pieces, c) != [] && Join(pieces, c)[0] == pieces[0][0]
    ensures var last := pieces[|pieces| - 1];
            last != [] ==> Join(pieces, c) != [] && Join(pieces, c)[|Join(pieces, c)| - 1] == last[|last| - 1]
  {
    if |pieces| > 1 {
      JoinEnds(pieces[1..], c);
    }
  }
}

module PageRange {
  import opened Wrappers
  import opened Text
  import opened Limits

  datatype RangeError =
    | EmptyInput
    | InvalidSyntax(what: Text)
    | ZeroPageNumber
    | PageOutOfRange(requested: nat, maxPages: nat)
    | InvalidRangeOrder(start: nat, end: nat)
    | CannotDeleteAllPages

  /** First and last page, counted from one. */
  type Pages = (nat, nat)

  // Numbers and segments as the parser reads them

  predicate IsDigit(c: char) {
    '0' <= c <= '9'
  }

  predicate Numeral(s: Text) {
    s != [] && forall i :: 0 <= i < |s| ==> IsDigit(s[i])
  }

  function Value(s: Text): nat
    requires Numeral(s)
  {
    var last := (s[|s| - 1] as int - '0' as int) as nat;
    if |s| == 1 then last else 10 * Value(s[..|s| - 1]) + last
  }

  function ParsePageNumber(s: Text, maxPages: nat): Result<nat, RangeError> {
    if !Numeral(s) then Failure(InvalidSyntax(s))
    else if Value(s) > U32_MAX then Failure(PageOutOfRange(U32_MAX, maxPages))
    else if Value(s) == 0 then Failure(ZeroPageNumber)
    else if Value(s) > maxPages then Failure(PageOutOfRange(Value(s), maxPages))
    else Success(Value(s))
  }

  function ParseSegment(segment: Text, maxPages: nat): Result<Pages, RangeError> {
    var seg := Trim(segment);
    if seg == [] then Failure(InvalidSyntax("Empty range segment"))
    else
      var at := Find(seg, '-');
      if at < |seg| then
        var (start, end) := (Trim(seg[..at]), Trim(seg[at + 1..]));
        if !Lacks(seg[at + 1..], '-') || start == [] || end == [] then Failure(InvalidSyntax(seg))
        else
          match ParsePageNumber(start, maxPages)
          case Failure(e) => Failure(e)
          case Success(m) =>
            match ParsePageNumber(end, maxPages)
            case Failure(e) => Failure(e)
            case Success(n) => if m > n then Failure(InvalidRangeOrder(m, n)) else Success((m, n))
      else
        match ParsePageNumber(seg, maxPages)
        case Failure(e) => Failure(e)
        case Success(n) => Success((n, n))
  }

  /** All segments, or the error of the first bad one. */
  function ParseSegments(segments: seq<Text>, maxPages: nat): Result<seq<Pages>, RangeError> {
    if segments == [] then Success([])
    else
      var last := |segments| - 1;
      match ParseSegments(segments[..last], maxPages)
      case Failure(e) => Failure(e)
      case Success(front) =>
        match ParseSegment(segments[last], maxPages)
        case Failure(e) => Failure(e)
        case Success(pages) => Success(front + [pages])
  }

  function ParseInput(input: Text, maxPages: nat): Result<seq<Pages>, RangeError> {
    if Trim(input) == [] then Failure(EmptyInput) else ParseSegments(Split(Trim(input), ','), maxPages)
  }

  // What a page range is

  /** A number between white space. */
  ghost predicate IsNumber(s: Text, n: nat) {
    exists a, d, b :: s == a + d + b && Spaces(a) && Spaces(b) && Numeral(d) && Value(d) == n
  }

  /** A number, or two in ascending order with a dash between them, from one to `maxPages`. */
  ghost predicate Denotes(segment: Text, pages: Pages, maxPages: nat) {
    && 1 <= pages.0 <= pages.1 <= maxPages
    && ((IsNumber(segment, pages.0) && pages.0 == pages.1)
        || exists left, right :: segment == left + ['-'] + right && IsNumber(left, pages.0) && IsNumber(right, pages.1))
  }

  /** Segments between commas. */
  ghost predicate IsPageRange(input: Text, ranges: seq<Pages>, maxPages: nat) {
    exists segments: seq<Text> ::
      && |segments| == |ranges| > 0
      && input == Join(segments, ',')
      && forall i :: 0 <= i < |ranges| ==> Denotes(segments[i], ranges[i], maxPages)
  }

  // The parser accepts exactly the page ranges

  lemma NumeralIsTight(d: Text)
    requires Numeral(d)
    ensures Tight(d) && Lacks(d, '-') && Lacks(d, ',')
  {
    assert IsDigit(d[0]) && IsDigit(d[|d| - 1]);
  }

  lemma SpacesLack(a: Text)
    requires Spaces(a)
    ensures Lacks(a, '-') && Lacks(a, ',')
  {}

  lemma LacksConcat(a: Text, b: Text, c: char)
    ensures Lacks(a + b, c) <==> Lacks(a, c) && Lacks(b, c)
  {
    if Lacks(a + b, c) {
      assert forall i :: 0 <= i < |a| ==> a[i] == (a + b)[i];
      assert forall i :: 0 <= i < |b| ==> b[i] == (a + b)[|a| + i];
    }
  }

  /** A number is what trims to a numeral. */
  lemma NumberTrims(s: Text, n: nat)
    ensures IsNumber(s, n) <==> Numeral(Trim(s)) && Value(Trim(s)) == n
    ensures IsNumber(s, n) ==> Lacks(s, '-') && Lacks(s, ',')
  {
    if Numeral(Trim(s)) {
      var a, b := TrimParts(s);
    }
    if IsNumber(s, n) {
      var a, d, b :| s == a + d + b && Spaces(a) && Spaces(b) && Numeral(d) && Value(d) == n;
      NumeralIsTight(d);
      TrimOf(a, d, b);
      SpacesLack(a);
      SpacesLack(b);
      LacksConcat(a + d, b, '-');
      LacksConcat(a, d, '-');
      LacksConcat(a + d, b, ',');
      LacksConcat(a, d, ',');
    }
  }

  lemma ParsePageNumberIff(s: Text, maxPages: nat, n: nat)
    requires maxPages <= MAX_DOCUMENT_PAGES
    ensures ParsePageNumber(Trim(s), maxPages) == Success(n) <==> IsNumber(s, n) && 1 <= n <= maxPages
  {
    NumberTrims(s, n);
    hide Trim, IsNumber, Numeral, Value;
  }

  lemma NothingIsSpaces()
    ensures Spaces([])
  {}

  lemma SpacesConcat(a: Text, b: Text)
    requires Spaces(a) && Spaces(b)
    ensures Spaces(a + b)
  {}

  lemma NumberPadded(a: Text, s: Text, b: Text, n: nat)
    requires Spaces(a) && Spaces(b) && IsNumber(s, n)
    ensures IsNumber(a + s + b, n)
  {
    hide Numeral, Value, Spaces;
    var c, d, e :| s == c + d + e && Spaces(c) && Spaces(e) && Numeral(d) && Value(d) == n;
    SpacesConcat(a, c);
    SpacesConcat(e, b);
    assert a + s + b == (a + c) + d + (e + b);
  }

  lemma NumberCore(s: Text, n: nat) returns (a: Text, d: Text, b: Text)
    requires IsNumber(s, n)
    ensures s == a + d + b && Spaces(a) && Spaces(b) && d != [] && Tight(d) && IsNumber(d, n) && IsNumber(a + d, n)
    ensures IsNumber(d + b, n)
  {
    a, d, b :| s == a + d + b && Spaces(a) && Spaces(b) && Numeral(d) && Value(d) == n;
    NumeralIsTight(d);
    NothingIsSpaces();
    assert d == [] + d + [] && a + d == a + d + [] && d + b == [] + d + b;
  }

  /** The trimmed core of a pair of numbers with a dash. */
  lemma PairTrims(left: Text, right: Text, m: nat, n: nat)
    requires IsNumber(left, m) && IsNumber(right, n)
    ensures var seg := Trim(left + ['-'] + right);
            var at := Find(seg, '-');
            && at < |seg| && Lacks(seg[at + 1..], '-')
            && IsNumber(seg[..at], m) && IsNumber(seg[at + 1..], n)
  {
    hide IsNumber, Spaces, Trim, Find, Lacks;
    var a, d, b := NumberCore(left, m);
    var c, e, f := NumberCore(right, n);
    var (l, r) := (d + b, c + e);
    var seg := l + ['-'] + r;
    assert left + ['-'] + right == a + seg + f;
    assert seg[0] == d[0] && seg[|seg| - 1] == e[|e| - 1];
    TrimOf(a, seg, f);
    NumberTrims(l, m);
    NumberTrims(r, n);
    FindOf(l, '-', r);
    assert seg[..|l|] == l && seg[|l| + 1..] == r;
  }

  lemma DenotedParses(s: Text, pages: Pages, maxPages: nat)
    requires maxPages <= MAX_DOCUMENT_PAGES && Denotes(s, pages, maxPages)
    ensures ParseSegment(s, maxPages) == Success(pages)
  {
    hide IsNumber, Trim, Find, ParsePageNumber, Value;
    var (m, n) := pages;
    if IsNumber(s, m) && m == n {
      var seg := Trim(s);
      NumberTrims(s, m);
      NumeralIsTight(seg);
      FindOf(seg, '-', []);
      ParsePageNumberIff(s, maxPages, m);
    } else {
      var left, right :| s == left + ['-'] + right && IsNumber(left, m) && IsNumber(right, n);
      PairTrims(left, right, m, n);
      var seg := Trim(s);
      var at := Find(seg, '-');
      var (x, y) := (seg[..at], seg[at + 1..]);
      ParsePageNumberIff(x, maxPages, m);
      ParsePageNumberIff(y, maxPages, n);
      NumberTrims(x, m);
      NumberTrims(y, n);
    }
  }

  lemma ParsedDenotes(s: Text, pages: Pages, maxPages: nat)
    requires maxPages <= MAX_DOCUMENT_PAGES && ParseSegment(s, maxPages) == Success(pages)
    ensures Denotes(s, pages, maxPages)
  {
    hide IsNumber, Trim, Find, ParsePageNumber, Spaces, Tight;
    var (m, n) := pages;
    var seg := Trim(s);
    var at := Find(seg, '-');
    if at < |seg| {
      var (x, y) := (seg[..at], seg[at + 1..]);
      ParsePageNumberIff(x, maxPages, m);
      ParsePageNumberIff(y, maxPages, n);
      var a, b := TrimParts(s);
      NothingIsSpaces();
      NumberPadded(a, x, [], m);
      NumberPadded([], y, b, n);
      assert a + x + [] == a + x && [] + y + b == y + b;
      assert s == (a + x) + ['-'] + (y + b);
    } else {
      ParsePageNumberIff(s, maxPages, m);
    }
  }

  /** A segment is accepted exactly when it denotes pages of the document, and read as what it denotes. */
  lemma SegmentIff(s: Text, pages: Pages, maxPages: nat)
    requires maxPages <= MAX_DOCUMENT_PAGES
    ensures ParseSegment(s, maxPages) == Success(pages) <==> Denotes(s, pages, maxPages)
  {
    if Denotes(s, pages, maxPages) { DenotedParses(s, pages, maxPages); }
    if ParseSegment(s, maxPages) == Success(pages) { ParsedDenotes(s, pages, maxPages); }
  }

  // What is refused, and as what

  /** What becomes of a number: zero is refused, and what is beyond the document, capped at 32 bits. */
  function NumberResult(n: nat, maxPages: nat): Result<nat, RangeError> {
    if n == 0 then Failure(ZeroPageNumber)
    else if n <= maxPages then Success(n)
    else Failure(PageOutOfRange(if n <= 0xFFFF_FFFF then n else 0xFFFF_FFFF, maxPages))
  }

  lemma NumberIsRead(s: Text, n: nat, maxPages: nat)
    requires maxPages <= MAX_DOCUMENT_PAGES && IsNumber(s, n)
    ensures ParsePageNumber(Trim(s), maxPages) == NumberResult(n, maxPages)
  {
    NumberTrims(s, n);
    hide Trim, IsNumber, Numeral, Value;
  }

  /** A segment that is a number is accepted or refused as the number is. */
  lemma NumberSegment(s: Text, n: nat, maxPages: nat)
    requires maxPages <= MAX_DOCUMENT_PAGES && IsNumber(s, n)
    ensures ParseSegment(s, maxPages)
         == match NumberResult(n, maxPages)
            case Success(page) => Success((page, page))
            case Failure(e) => Failure(e)
  {
    NumberIsRead(s, n, maxPages);
    NumberTrims(s, n);
    NumeralIsTight(Trim(s));
    FindOf(Trim(s), '-', []);
    hide IsNumber, Trim, Find, ParsePageNumber, Value;
  }

  /** A segment of two numbers is refused for its first number, for its second, or because they descend. */
  lemma PairSegment(left: Text, right: Text, m: nat, n: nat, maxPages: nat)
    requires maxPages <= MAX_DOCUMENT_PAGES && IsNumber(left, m) && IsNumber(right, n)
    ensures var (first, last) := (NumberResult(m, maxPages), NumberResult(n, maxPages));
            ParseSegment(left + ['-'] + right, maxPages)
            == if first.Failure? then Failure(first.error)
               else if last.Failure? then Failure(last.error)
               else if m > n then Failure(InvalidRangeOrder(m, n))
               else Success((m, n))
  {
    hide IsNumber, Trim, Find, ParsePageNumber, Value;
    PairTrims(left, right, m, n);
    var seg := Trim(left + ['-'] + right);
    var at := Find(seg, '-');
    var (x, y) := (seg[..at], seg[at + 1..]);
    NumberIsRead(x, m, maxPages);
    NumberIsRead(y, n, maxPages);
    NumberTrims(x, m);
    NumberTrims(y, n);
  }

  /** The error of a list of segments is that of the first bad one. */
  lemma {:induction false} FirstBadSegment(segments: seq<Text>, k: nat, maxPages: nat)
    requires k < |segments| && ParseSegment(segments[k], maxPages).Failure?
    requires forall i :: 0 <= i < k ==> ParseSegment(segments[i], maxPages).Success?
    ensures ParseSegments(segments, maxPages) == Failure(ParseSegment(segments[k], maxPages).error)
  {
    hide ParseSegment;
    var last := |segments| - 1;
    if k < last {
      FirstBadSegment(segments[..last], k, maxPages);
    } else {
      AllGoodSegments(segments[..last], maxPages);
    }
  }

  lemma {:induction false} AllGoodSegments(segments: seq<Text>, maxPages: nat)
    requires forall i :: 0 <= i < |segments| ==> ParseSegment(segments[i], maxPages).Success?
    ensures ParseSegments(segments, maxPages).Success?
  {
    hide ParseSegment;
    if segments != [] {
      AllGoodSegments(segments[..|segments| - 1], maxPages);
    }
  }

  lemma {:induction false} SegmentsIff(segments: seq<Text>, ranges: seq<Pages>, maxPages: nat)
    requires maxPages <= MAX_DOCUMENT_PAGES
    ensures ParseSegments(segments, maxPages) == Success(ranges)
       <==> |segments| == |ranges| && forall i :: 0 <= i < |ranges| ==> Denotes(segments[i], ranges[i], maxPages)
  {
    hide Denotes, ParseSegment;
    if segments == [] || ranges == [] {
    } else {
      var (k, l) := (|segments| - 1, |ranges| - 1);
      SegmentsIff(segments[..k], ranges[..l], maxPages);
      SegmentIff(segments[k], ranges[l], maxPages);
      var (front, last) := (ParseSegments(segments[..k], maxPages), ParseSegment(segments[k], maxPages));
      if front.Success? && last.Success? { SameSnoc(front.value, last.value, ranges); }
      hide ParseSegments;
      assert |segments| == |ranges| ==>
        ((forall i :: 0 <= i < |ranges| ==> Denotes(segments[i], ranges[i], maxPages))
         <==> (&& (forall i :: 0 <= i < l ==> Denotes(segments[..k][i], ranges[..l][i], maxPages))
               && Denotes(segments[k], ranges[l], maxPages)));
    }
  }

  lemma SameSnoc(front: seq<Pages>, last: Pages, ranges: seq<Pages>)
    requires ranges != []
    ensures front + [last] == ranges <==> front == ranges[..|ranges| - 1] && last == ranges[|ranges| - 1]
  {
    var l := |ranges| - 1;
    assert ranges == ranges[..l] + [ranges[l]];
    assert (front + [last])[..|front|] == front;
  }

  // White space around the whole input belongs to its first and last segment

  lemma DenotesPadded(a: Text, s: Text, b: Text, pages: Pages, maxPages: nat)
    requires Spaces(a) && Spaces(b) && Denotes(s, pages, maxPages)
    ensures Denotes(a + s + b, pages, maxPages)
  {
    hide IsNumber, Spaces;
    if IsNumber(s, pages.0) && pages.0 == pages.1 {
      NumberPadded(a, s, b, pages.0);
    } else {
      var left, right :| s == left + ['-'] + right && IsNumber(left, pages.0) && IsNumber(right, pages.1);
      NothingIsSpaces();
      NumberPadded(a, left, [], pages.0);
      NumberPadded([], right, b, pages.1);
      assert a + left + [] == a + left && [] + right + b == right + b;
      assert a + s + b == (a + left) + ['-'] + (right + b);
    }
  }

  /** A segment without the white space at its ends denotes the same and has no comma. */
  lemma DenotesCore(s: Text, pages: Pages, maxPages: nat) returns (a: Text, core: Text, b: Text)
    requires Denotes(s, pages, maxPages)
    ensures s == a + core + b && Spaces(a) && Spaces(b) && core != [] && Tight(core)
    ensures Denotes(core, pages, maxPages) && Denotes(a + core, pages, maxPages) && Denotes(core + b, pages, maxPages)
    ensures Lacks(core, ',') && Lacks(a, ',') && Lacks(b, ',')
  {
    hide IsNumber, Spaces, Lacks;
    if IsNumber(s, pages.0) && pages.0 == pages.1 {
      a, core, b := NumberCore(s, pages.0);
      NumberTrims(core, pages.0);
    } else {
      var left, right :| s == left + ['-'] + right && IsNumber(left, pages.0) && IsNumber(right, pages.1);
      var d, l; a, d, l := NumberCore(left, pages.0);
      var r, e; r, e, b := NumberCore(right, pages.1);
      core := (d + l) + ['-'] + (r + e);
      assert s == a + core + b;
      assert core[0] == d[0] && core[|core| - 1] == e[|e| - 1];
      assert a + core == left + ['-'] + (r + e) && core + b == (d + l) + ['-'] + right;
      NumberTrims(d + l, pages.0);
      NumberTrims(r + e, pages.1);
      LacksConcat((d + l) + ['-'], r + e, ',');
      LacksConcat(d + l, ['-'], ',');
      assert Lacks(['-'], ',') by { DashIsNoComma(); }
    }
    SpacesLack(a);
    SpacesLack(b);
  }

  lemma DashIsNoComma()
    ensures Lacks(['-'], ',')
  {}

  lemma DenotesLacksComma(s: Text, pages: Pages, maxPages: nat)
    requires Denotes(s, pages, maxPages)
    ensures Lacks(s, ',')
  {
    var a, core, b := DenotesCore(s, pages, maxPages);
    LacksConcat(a + core, b, ',');
    LacksConcat(a, core, ',');
  }

  /** What is accepted is a page range. */
  lemma AcceptedIsPageRange(input: Text, ranges: seq<Pages>, maxPages: nat)
    requires maxPages <= MAX_DOCUMENT_PAGES && ParseInput(input, maxPages) == Success(ranges)
    ensures IsPageRange(input, ranges, maxPages)
  {
    hide Trim, Split, Join, Denotes, Spaces, ParseSegments, Tight, Lacks;
    var a, b := TrimParts(input);
    var segments := Split(Trim(input), ',');
    SegmentsIff(segments, ranges, maxPages);
    JoinOfSplit(Trim(input), ',');
    NothingIsSpaces();
    var last := |segments| - 1;
    var first := segments[0 := a + segments[0]];
    var whole := first[last := first[last] + b];
    JoinPadFirst(a, segments, ',');
    JoinPadLast(first, b, ',');
    forall i | 0 <= i < |ranges| ensures Denotes(whole[i], ranges[i], maxPages) {
      DenotesPadded(a, segments[i], [], ranges[i], maxPages);
      assert a + segments[i] + [] == a + segments[i];
      DenotesPadded([], first[i], b, ranges[i], maxPages);
      assert [] + first[i] + b == first[i] + b;
    }
  }

  /** A page range is accepted, and read as what it denotes. */
  lemma PageRangeIsAccepted(input: Text, ranges: seq<Pages>, maxPages: nat)
    requires maxPages <= MAX_DOCUMENT_PAGES && IsPageRange(input, ranges, maxPages)
    ensures ParseInput(input, maxPages) == Success(ranges)
  {
    hide Trim, Split, Join, Denotes, Spaces, ParseSegments, Lacks;
    var segments: seq<Text> :|
      && |segments| == |ranges| > 0
      && input == Join(segments, ',')
      && forall i :: 0 <= i < |ranges| ==> Denotes(segments[i], ranges[i], maxPages);
    var last := |segments| - 1;
    var a, core, b := DenotesCore(segments[0], ranges[0], maxPages);
    var first := segments[0 := core + b];
    assert a + (core + b) == segments[0] && first[0 := a + first[0]] == segments;
    JoinPadFirst(a, first, ',');
    var c, end, d := DenotesCore(first[last], ranges[last], maxPages);
    var tight := first[last := c + end];
    assert tight[last := tight[last] + d] == first;
    JoinPadLast(tight, d, ',');
    var t := Join(tight, ',');
    assert input == a + t + d;
    JoinEnds(first, ',');
    JoinEnds(tight, ',');
    assert t[0] == (t + d)[0] == core[0] && t[|t| - 1] == end[|end| - 1];
    TrimOf(a, t, d);
    forall i | 0 <= i < |tight| ensures Denotes(tight[i], ranges[i], maxPages) && Lacks(tight[i], ',') {
      DenotesLacksComma(tight[i], ranges[i], maxPages);
    }
    SplitOfJoin(tight, ',');
    SegmentsIff(tight, ranges, maxPages);
  }

  /**
   * The parser accepts exactly the inputs made of numbers and ascending pairs within the document,
   * between commas and with any white space around each number.
   */
  lemma ParsesExactlyPageRanges(input: Text, ranges: seq<Pages>, maxPages: nat)
    requires maxPages <= MAX_DOCUMENT_PAGES
    ensures ParseInput(input, maxPages) == Success(ranges) <==> IsPageRange(input, ranges, maxPages)
  {
    if IsPageRange(input, ranges, maxPages) { PageRangeIsAccepted(input, ranges, maxPages); }
    if ParseInput(input, maxPages) == Success(ranges) { AcceptedIsPageRange(input, ranges, maxPages); }
  }

  // The pages a range covers

  /** Page `i`, counted from zero, lies in one of the ranges. */
  ghost predicate Covers(ranges: seq<Pages>, i: nat) {
    exists k :: 0 <= k < |ranges| && ranges[k].0 <= i + 1 <= ranges[k].1
  }

  predicate Sorted(s: seq<nat>) {
    forall i, j :: 0 <= i < j < |s| ==> s[i] <= s[j]
  }

  predicate Ascending(s: seq<nat>) {
    forall i, j :: 0 <= i < j < |s| ==> s[i] < s[j]
  }

  lemma {:induction false} ErrorStays(segments: seq<Text>, k: nat, maxPages: nat)
    requires k <= |segments| && ParseSegments(segments[..k], maxPages).Failure?
    ensures ParseSegments(segments, maxPages) == ParseSegments(segments[..k], maxPages)
  {
    if k < |segments| {
      var front := segments[..|segments| - 1];
      assert front[..k] == segments[..k];
      ErrorStays(front, k, maxPages);
    } else {
      assert segments[..k] == segments;
    }
  }

  /** `sort_unstable`. */
  method SortUnstable(s: seq<nat>) returns (r: seq<nat>)
    ensures Sorted(r) && |r| == |s|
    ensures forall x :: x in r <==> x in s
  {
    r := [];
    for i := 0 to |s|
      invariant Sorted(r) && |r| == i
      invariant forall x :: x in r <==> x in s[..i]
    {
      var at := 0;
      while at < |r| && r[at] <= s[i]
        invariant 0 <= at <= |r|
        invariant forall j :: 0 <= j < at ==> r[j] <= s[i]
      {
        at := at + 1;
      }
      ghost var before := r;
      r := r[..at] + [s[i]] + r[at..];
      InsertKeeps(before, at, s[i], r);
      assert s[..i + 1] == s[..i] + [s[i]];
    }
    assert s[..|s|] == s;
  }

  lemma InsertKeeps(s: seq<nat>, at: nat, x: nat, r: seq<nat>)
    requires Sorted(s) && at <= |s| && r == s[..at] + [x] + s[at..]
    requires (forall j :: 0 <= j < at ==> s[j] <= x) && (at < |s| ==> x <= s[at])
    ensures Sorted(r) && forall y :: y in r <==> y in s || y == x
  {
    assert Sorted(r) by {
      assert forall j :: 0 <= j < |r| ==> r[j] == if j < at then s[j] else if j == at then x else s[j - 1];
    }
    hide Sorted;
    assert s == s[..at] + s[at..];
    assert forall y :: y in s <==> y in s[..at] || y in s[at..];
  }

  /** `dedup`: drops every element equal to the one before it. */
  method Dedup(s: seq<nat>) returns (r: seq<nat>)
    requires Sorted(s)
    ensures Ascending(r)
    ensures forall x :: x in r <==> x in s
  {
    r := [];
    for i := 0 to |s|
      invariant Ascending(r)
      invariant forall x :: x in r <==> x in s[..i]
      invariant i > 0 ==> r != [] && r[|r| - 1] == s[i - 1]
    {
      assert s[..i + 1] == s[..i] + [s[i]];
      if r == [] || r[|r| - 1] != s[i] {
        assert forall j :: 0 <= j < |r| ==> r[j] in s[..i];
        r := r + [s[i]];
      }
    }
    assert s[..|s|] == s;
  }

  /** The pages of a range in ascending order, or why the input is no range of the document. */
  method Parse(input: Text, total: nat) returns (r: Result<seq<nat>, RangeError>)
    requires 1 <= total <= MAX_DOCUMENT_PAGES
    ensures match ParseInput(input, total)
            case Failure(e) => r == Failure(e)
            case Success(ranges) =>
              r.Success? && Ascending(r.value) && forall i: nat :: i in r.value <==> Covers(ranges, i)
  {
    hide Trim, Split, ParseSegment, Covers, Sorted, Ascending, Denotes;
    var trimmed := Trim(input);
    if trimmed == [] {
      return Failure(EmptyInput);
    }
    var segments := Split(trimmed, ',');
    var pages: seq<nat> := [];
    NothingCovered();
    ghost var ranges: seq<Pages> := [];
    for k := 0 to |segments|
      invariant ParseSegments(segments[..k], total) == Success(ranges)
      invariant forall i: nat :: i in pages <==> Covers(ranges, i)
    {
      assert segments[..k + 1][..k] == segments[..k];
      match ParseSegment(segments[k], total) {
        case Failure(e) =>
          ErrorStays(segments, k + 1, total);
          return Failure(e);
        case Success((start, end)) =>
          PagesAscend(segments[k], start, end, total);
          pages := Extend(pages, start, end);
          CoversMore(ranges, (start, end));
          ranges := ranges + [(start, end)];
      }
    }
    assert segments[..|segments|] == segments;
    pages := SortUnstable(pages);
    pages := Dedup(pages);
    return Success(pages);
  }

  lemma NothingCovered()
    ensures forall i: nat :: !Covers([], i)
  {}

  lemma PagesAscend(s: Text, start: nat, end: nat, maxPages: nat)
    requires maxPages <= MAX_DOCUMENT_PAGES && ParseSegment(s, maxPages) == Success((start, end))
    ensures 1 <= start <= end
  {
    hide ParseSegment, IsNumber;
    SegmentIff(s, (start, end), maxPages);
  }

  lemma CoversMore(ranges: seq<Pages>, pages: Pages)
    ensures forall i: nat :: Covers(ranges + [pages], i) <==> Covers(ranges, i) || pages.0 <= i + 1 <= pages.1
  {
    var more := ranges + [pages];
    forall i: nat ensures Covers(more, i) <==> Covers(ranges, i) || pages.0 <= i + 1 <= pages.1 {
      if Covers(ranges, i) {
        var k :| 0 <= k < |ranges| && ranges[k].0 <= i + 1 <= ranges[k].1;
        assert more[k] == ranges[k];
      }
      assert more[|ranges|] == pages;
    }
  }

  method Extend(pages: seq<nat>, start: nat, end: nat) returns (r: seq<nat>)
    requires 1 <= start <= end
    ensures forall i :: i in r <==> i in pages || start <= i + 1 <= end
  {
    r := pages;
    for page := start to end + 1
      invariant forall i :: i in r <==> i in pages || start <= i + 1 < page
    {
      r := r + [page - 1];
    }
  }

  /** An ascending list is determined by its members. */
  lemma {:induction false} AscendingIsUnique(s: seq<nat>, t: seq<nat>)
    requires Ascending(s) && Ascending(t) && forall x :: x in s <==> x in t
    ensures s == t
  {
    assert (t != [] ==> t[0] in t) && (s != [] ==> s[0] in s);
    if s == [] || t == [] {
    } else {
      var (i, j) := (|s| - 1, |t| - 1);
      var (a, b) := (s[..i], t[..j]);
      assert s[i] == t[j] by { assert s[i] in t && t[j] in s; }
      assert Ascending(a) && Ascending(b);
      hide Ascending;
      forall x ensures x in a <==> x in b {
        AllButLast(s, x);
        AllButLast(t, x);
      }
      AscendingIsUnique(a, b);
      assert s == a + [s[i]] && t == b + [t[j]];
    }
  }

  lemma AllButLast(s: seq<nat>, x: nat)
    requires Ascending(s) && s != []
    ensures x in s[..|s| - 1] <==> x in s && x != s[|s| - 1]
  {
    assert s == s[..|s| - 1] + [s[|s| - 1]];
  }

  // Deleting pages

  function UpTo(n: nat): (r: set<nat>)
    ensures |r| == n && forall i: nat :: i in r <==> i < n
  {
    if n == 0 then {} else UpTo(n - 1) + {n - 1}
  }

  lemma AllOrSome(gone: set<nat>, total: nat)
    requires forall i :: i in gone ==> i < total
    ensures |gone| <= total && (|gone| == total <==> forall i: nat :: i < total ==> i in gone)
  {
    assert gone <= UpTo(total);
    Subsets(gone, UpTo(total));
  }

  lemma Subsets(a: set<nat>, b: set<nat>)
    requires a <= b
    ensures |a| <= |b| && (|a| == |b| <==> a == b)
  {
    assert b == a + (b - a);
  }

  predicate IsInside(pages: seq<nat>, total: nat) {
    forall k :: 0 <= k < |pages| ==> pages[k] < total
  }

  predicate IsFirstOutside(pages: seq<nat>, total: nat, k: int) {
    0 <= k < |pages| && pages[k] >= total && forall j :: 0 <= j < k ==> pages[j] < total
  }

  lemma FirstOutsideIsUnique(pages: seq<nat>, total: nat, k: nat)
    requires IsFirstOutside(pages, total, k)
    ensures forall i :: IsFirstOutside(pages, total, i) ==> i == k
  {
    forall i | IsFirstOutside(pages, total, i) ensures i == k {}
  }

  /** The positions left unmarked, in ascending order. */
  method Unmarked(marked: array<bool>) returns (r: seq<nat>)
    ensures Ascending(r)
    ensures forall i: nat :: i in r <==> i < marked.Length && !marked[i]
  {
    r := [];
    for i := 0 to marked.Length
      invariant Ascending(r) && forall j: nat :: j in r <==> j < i && !marked[j]
    {
      if !marked[i] {
        assert forall j :: 0 <= j < |r| ==> r[j] in r;
        r := r + [i];
      }
    }
  }

  /** The pages left after a deletion; an index outside the document or nothing left is an error. */
  method RetainedPages(total: nat, remove: seq<nat>) returns (r: Result<seq<nat>, RangeError>)
    requires 1 <= total
    ensures r.Success? ==> IsInside(remove, total) && Ascending(r.value) && r.value != []
    ensures r.Success? ==> forall i: nat :: i in r.value <==> i < total && i !in remove
    ensures r == Failure(CannotDeleteAllPages) <==>
              IsInside(remove, total) && forall i: nat :: i < total ==> i in remove
    ensures r.Failure? && r.error != CannotDeleteAllPages ==> exists k :: IsFirstOutside(remove, total, k)
    ensures forall k :: IsFirstOutside(remove, total, k) ==> r == Failure(PageOutOfRange(remove[k] + 1, total))
  {
    var removed := new bool[total](_ => false);
    var unique := 0;
    ghost var gone: set<nat> := {};
    for k := 0 to |remove|
      invariant forall j :: 0 <= j < k ==> remove[j] < total
      invariant forall i: nat :: i < total ==> (removed[i] <==> i in remove[..k]) && (removed[i] <==> i in gone)
      invariant forall i :: i in gone ==> i < total
      invariant unique == |gone|
    {
      var page := remove[k];
      assert remove[..k + 1] == remove[..k] + [page];
      if page >= total {
        FirstOutsideIsUnique(remove, total, k);
        assert IsFirstOutside(remove, total, k) && !IsInside(remove, total);
        return Failure(PageOutOfRange(page + 1, total));
      }
      if !removed[page] {
        removed[page] := true;
        unique := unique + 1;
        gone := gone + {page};
      }
    }
    assert remove[..|remove|] == remove;
    AllOrSome(gone, total);
    if unique == total {
      return Failure(CannotDeleteAllPages);
    }
    ghost var left: nat :| left < total && left !in gone;
    var retained := Unmarked(removed);
    assert left in retained;
    return Success(retained);
  }

  /** Extracting and deleting with the same input. */
  method ExtractAndDelete(input: Text, total: nat)
    returns (extracted: Result<seq<nat>, RangeError>, retained: Result<seq<nat>, RangeError>)
    requires 1 <= total <= MAX_DOCUMENT_PAGES
    ensures extracted.Failure? ==> retained == extracted && forall ranges :: !IsPageRange(input, ranges, total)
    ensures forall ranges :: IsPageRange(input, ranges, total) ==>
      && extracted.Success? && Ascending(extracted.value)
      && (forall i: nat :: i in extracted.value <==> Covers(ranges, i))
      && (retained.Failure? <==> forall i: nat :: i < total ==> Covers(ranges, i))
    ensures extracted.Success? && retained.Failure? ==> retained.error == CannotDeleteAllPages
    ensures extracted.Success? && retained.Success? ==> IsPartition(extracted.value, retained.value, total)
  {
    extracted := Parse(input, total);
    if extracted.Failure? {
      forall ranges ensures !IsPageRange(input, ranges, total) { ParsesExactlyPageRanges(input, ranges, total); }
      return extracted, Failure(extracted.error);
    }
    ghost var ranges := ParseInput(input, total).value;
    ParsesExactlyPageRanges(input, ranges, total);
    assert forall i: nat :: i in extracted.value ==> i < total by { CoveredIsInside(input, ranges, total); }
    assert forall k :: 0 <= k < |extracted.value| ==> extracted.value[k] in extracted.value;
    retained := RetainedPages(total, extracted.value);
    forall other | IsPageRange(input, other, total) ensures other == ranges {
      ParsesExactlyPageRanges(input, other, total);
    }
  }

  /** Two ascending lists that share no page and together hold every page of the document. */
  ghost predicate IsPartition(a: seq<nat>, b: seq<nat>, total: nat) {
    && Ascending(a) && Ascending(b)
    && (forall i: nat :: i < total <==> (i in a || i in b))
    && (forall i: nat :: !(i in a && i in b))
  }

  lemma CoveredIsInside(input: Text, ranges: seq<Pages>, total: nat)
    requires IsPageRange(input, ranges, total)
    ensures forall i: nat :: Covers(ranges, i) ==> i < total
  {
    hide IsNumber, Join;
  }
}
