/** Where one HTTP request ends: find_header_end, header_has_chunked, chunked_body_complete and
    request_complete of c/src/http.c as functions of the bytes received so far. */
module Framing {
  import opened Ctype
  import opened Decimal
  import opened Wrappers
  import opened Numerals

  const CRLF: string := "\r\n"
  const CONTENT_LENGTH: string := "Content-Length:"
  const TRANSFER_ENCODING: string := "Transfer-Encoding:"
  const CHUNKED: string := "chunked"
  const INT_LIMIT: nat := 0x8000_0000
  const SIZE_LIMIT: nat := 0x1_0000_0000_0000_0000

  /** The blank line after the header starts at i. */
  predicate BlankLineAt(b: string, i: nat) {
    i + 3 < |b| && b[i] == '\r' && b[i + 1] == '\n' && b[i + 2] == '\r' && b[i + 3] == '\n'
  }

  /** The first blank line at or after i. */
  function BlankLineFrom(b: string, i: nat): (e: Option<nat>)
    ensures e.Some? ==> i <= e.value && BlankLineAt(b, e.value) && forall j :: i <= j < e.value ==> !BlankLineAt(b, j)
    ensures e.None? ==> forall j :: i <= j ==> !BlankLineAt(b, j)
    decreases |b| - i
  {
    if i + 3 >= |b| then None else if BlankLineAt(b, i) then Some(i) else BlankLineFrom(b, i + 1)
  }

  function HeaderEnd(b: string): Option<nat> {
    BlankLineFrom(b, 0)
  }

  /** The word stands at p, in any case, and ends before e. */
  predicate WordAt(b: string, e: nat, p: nat, word: string) {
    p + |word| <= e <= |b| && forall j :: 0 <= j < |word| ==> Lower(b[p + j]) == Lower(word[j])
  }

  /** The first place from p on where the word stands. */
  function FindWord(b: string, e: nat, p: nat, word: string): (r: Option<nat>)
    ensures r.Some? ==> p <= r.value < e && WordAt(b, e, r.value, word)
                        && forall q :: p <= q < r.value ==> !WordAt(b, e, q, word)
    ensures r.None? ==> forall q :: p <= q < e ==> !WordAt(b, e, q, word)
    decreases e - p
  {
    if p >= e then None else if WordAt(b, e, p, word) then Some(p) else FindWord(b, e, p + 1, word)
  }

  function SkipSpaces(b: string, v: nat): (r: nat)
    ensures v <= r && (v <= |b| ==> r <= |b|)
    ensures forall j :: v <= j < r ==> j < |b| && b[j] == ' '
    ensures r < |b| ==> b[r] != ' '
    decreases |b| - v
  {
    if v < |b| && b[v] == ' ' then SkipSpaces(b, v + 1) else v
  }

  /** The white space atoi skips. */
  function SkipWhiteAt(b: string, v: nat): (r: nat)
    ensures v <= r && (v <= |b| ==> r <= |b|)
    ensures r < |b| ==> !IsSpace(b[r])
    decreases |b| - v
  {
    if v < |b| && IsSpace(b[v]) then SkipWhiteAt(b, v + 1) else v
  }

  /** Where atoi finds the sign or the digits of the Content-Length, if there is such a header. */
  function LengthField(b: string, e: nat): Option<nat> {
    var p := FindWord(b, e, 0, CONTENT_LENGTH);
    if p.Some? then Some(SkipWhiteAt(b, SkipSpaces(b, p.value + |CONTENT_LENGTH|))) else None
  }

  /** The number atoi reads there: an optional sign and digits, and 0 without digits. */
  function LengthAt(b: string, w: nat): int {
    if w < |b| && b[w] == '-' then -(Value(R10, DigitRun(b, w + 1)) as int)
    else Value(R10, DigitRun(b, if w < |b| && b[w] == '+' then w + 1 else w))
  }

  /** hdr_len + (size_t)content_len: a negative length shortens the header, and wraps around when it is
      more than that. */
  function MessageLength(header: nat, length: int): (n: nat)
    ensures header + length >= 0 ==> n == header + length
  {
    if header + length >= 0 then header + length else (header + length) % SIZE_LIMIT
  }

  /** A "Transfer-Encoding: chunked" stands at p. */
  predicate ChunkedAt(b: string, e: nat, p: nat) {
    && WordAt(b, e, p, TRANSFER_ENCODING)
    && WordAt(b, e, SkipSpaces(b, p + |TRANSFER_ENCODING|), CHUNKED)
  }

  predicate HasChunked(b: string, e: nat) {
    exists p :: 0 <= p < e && ChunkedAt(b, e, p)
  }

  /** "0 CRLF CRLF" stands at i. */
  predicate LastChunkAt(b: string, i: nat) {
    && i + 4 < |b| && b[i] == '0' && b[i + 1] == '\r' && b[i + 2] == '\n'
    && b[i + 3] == '\r' && b[i + 4] == '\n'
  }

  predicate ChunkedBodyDone(b: string, from: nat) {
    exists i :: from <= i < |b| && LastChunkAt(b, i)
  }

  /** The number of a Content-Length starts inside the header and is an int: only then is what atoi
      returns determined by the bytes received. */
  predicate GoodLength(b: string, e: nat) {
    var w := LengthField(b, e);
    w.Some? ==> w.value < e && w.value < |b| && -(INT_LIMIT as int) <= LengthAt(b, w.value) < INT_LIMIT
  }

  predicate GoodHeader(b: string) {
    var e := HeaderEnd(b);
    e.Some? ==> GoodLength(b, e.value)
  }

  /** A good length that is not negative. */
  predicate PlainHeader(b: string) {
    var e := HeaderEnd(b);
    e.Some? ==> GoodLength(b, e.value) && var w := LengthField(b, e.value); w.Some? ==> LengthAt(b, w.value) >= 0
  }

  /** How the end of the first request is found. */
  datatype Extent =
    | Unknown                     // the header is not complete yet
    | Fixed(length: nat)
    | UntilLastChunk(body: nat)   // everything received, once the last chunk is there

  function ExtentOf(b: string): (x: Extent)
    ensures x.Fixed? ==> HeaderEnd(b).Some? && (PlainHeader(b) ==> HeaderEnd(b).value + 4 <= x.length)
    ensures x.UntilLastChunk? ==> HeaderEnd(b).Some? && HeaderEnd(b).value + 4 == x.body
  {
    var h := HeaderEnd(b);
    if h.None? then Unknown
    else
      var v := LengthField(b, h.value);
      if v.Some? then Fixed(MessageLength(h.value + 4, LengthAt(b, v.value)))
      else if HasChunked(b, h.value) then UntilLastChunk(h.value + 4)
      else Fixed(h.value + 4)
  }

  /** The request is framed by the terminating chunk. */
  predicate ByChunks(b: string) {
    ExtentOf(b).UntilLastChunk?
  }

  /** request_complete: the length of the first request, once it is all there. */
  function Complete(b: string): (n: Option<nat>)
    ensures n.Some? ==> n.value <= |b| && HeaderEnd(b).Some? && (PlainHeader(b) ==> 4 <= n.value)
  {
    match ExtentOf(b)
    case Unknown => None
    case Fixed(n) => if n <= |b| then Some(n) else None
    case UntilLastChunk(body) => if ChunkedBodyDone(b, body) then Some(|b|) else None
  }

  // ----- Stability under more bytes -----

  lemma BlankLineStable(b: string, s: string)
    requires b <= s
    ensures HeaderEnd(b).Some? ==> HeaderEnd(s) == HeaderEnd(b)
    ensures HeaderEnd(s).Some? && HeaderEnd(s).value + 4 <= |b| ==> HeaderEnd(b) == HeaderEnd(s)
  {
    assert forall i: nat :: BlankLineAt(b, i) ==> BlankLineAt(s, i);
    assert forall i: nat :: BlankLineAt(s, i) && i + 4 <= |b| ==> BlankLineAt(b, i);
  }

  /** The blank line stops every scan of the header. */
  predicate HeaderIn(b: string, e: nat) {
    e < |b| && b[e] == '\r'
  }

  lemma WordStable(b: string, s: string, e: nat, p: nat, word: string)
    requires b <= s && e <= |b|
    ensures WordAt(b, e, p, word) <==> WordAt(s, e, p, word)
  {
    if p + |word| <= e {
      assert b[p..p + |word|] == s[p..p + |word|];
    }
  }

  lemma {:induction false} FindWordStable(b: string, s: string, e: nat, p: nat, word: string)
    requires b <= s && e <= |b|
    ensures FindWord(b, e, p, word) == FindWord(s, e, p, word)
    decreases e - p
  {
    if p < e {
      WordStable(b, s, e, p, word);
      FindWordStable(b, s, e, p + 1, word);
    }
  }

  lemma {:induction false} SkipSpacesStable(b: string, s: string, e: nat, v: nat)
    requires b <= s && HeaderIn(b, e) && v <= e
    ensures SkipSpaces(b, v) == SkipSpaces(s, v) <= e
    decreases e - v
  {
    if b[v] == ' ' {
      SkipSpacesStable(b, s, e, v + 1);
    }
  }

  lemma {:induction false} DigitRunStable(b: string, s: string, e: nat, v: nat)
    requires b <= s && HeaderIn(b, e) && v <= e
    ensures DigitRun(b, v) == DigitRun(s, v) && v + |DigitRun(b, v)| <= e
    decreases e - v
  {
    if IsDigit(b[v]) {
      DigitRunStable(b, s, e, v + 1);
    }
  }

  lemma {:induction false} SkipWhiteStable(b: string, s: string, e: nat, v: nat)
    requires b <= s && HeaderIn(b, e) && v <= e
    ensures SkipWhiteAt(b, v) < e || SkipWhiteAt(s, v) < e ==> SkipWhiteAt(b, v) == SkipWhiteAt(s, v)
    decreases e - v
  {
    if v < e && IsSpace(b[v]) {
      SkipWhiteStable(b, s, e, v + 1);
    }
  }

  lemma LengthAtStable(b: string, s: string, e: nat, w: nat)
    requires b <= s && HeaderIn(b, e) && w < e
    ensures LengthAt(b, w) == LengthAt(s, w)
  {
    DigitRunStable(b, s, e, if b[w] == '+' || b[w] == '-' then w + 1 else w);
  }

  lemma LengthStable(b: string, s: string, e: nat)
    requires b <= s && HeaderIn(b, e) && (GoodLength(b, e) || GoodLength(s, e))
    ensures GoodLength(b, e) && GoodLength(s, e) && LengthField(b, e) == LengthField(s, e)
    ensures var w := LengthField(b, e); w.Some? ==> LengthAt(b, w.value) == LengthAt(s, w.value)
  {
    FindWordStable(b, s, e, 0, CONTENT_LENGTH);
    var p := FindWord(b, e, 0, CONTENT_LENGTH);
    hide FindWord, LengthAt;
    if p.Some? {
      var v := SkipSpaces(b, p.value + |CONTENT_LENGTH|);
      SkipSpacesStable(b, s, e, p.value + |CONTENT_LENGTH|);
      SkipWhiteStable(b, s, e, v);
      hide SkipSpaces, SkipWhiteAt;
      LengthAtStable(b, s, e, SkipWhiteAt(b, v));
    }
  }

  lemma ChunkedAtStable(b: string, s: string, e: nat, p: nat)
    requires b <= s && HeaderIn(b, e)
    ensures ChunkedAt(b, e, p) <==> ChunkedAt(s, e, p)
  {
    WordStable(b, s, e, p, TRANSFER_ENCODING);
    if p + |TRANSFER_ENCODING| <= e {
      SkipSpacesStable(b, s, e, p + |TRANSFER_ENCODING|);
      WordStable(b, s, e, SkipSpaces(b, p + |TRANSFER_ENCODING|), CHUNKED);
    }
  }

  /** Once the header is there, more bytes change nothing it says. */
  lemma ExtentStable(b: string, s: string)
    requires b <= s && HeaderEnd(b).Some? && (GoodHeader(b) || GoodHeader(s))
    ensures GoodHeader(b) && GoodHeader(s) && ExtentOf(b) == ExtentOf(s)
  {
    hide GoodLength, LengthField, LengthAt, MessageLength, ChunkedAt;
    var e := HeaderEnd(b).value;
    BlankLineStable(b, s);
    LengthStable(b, s, e);
    forall p: nat
      ensures ChunkedAt(b, e, p) <==> ChunkedAt(s, e, p)
    {
      ChunkedAtStable(b, s, e, p);
    }
  }

  /** A request framed by its header is complete as soon as all its bytes are there, and, when its
      length is not negative, not earlier; more bytes do not change where it ends. */
  lemma CompleteStable(b: string, s: string)
    requires b <= s && !ByChunks(s) && GoodHeader(s)
    ensures GoodHeader(b)
    ensures Complete(b).Some? ==> Complete(s) == Complete(b)
    ensures PlainHeader(s) && Complete(s).Some? ==>
              Complete(b) == if Complete(s).value <= |b| then Complete(s) else None
  {
    BlankLineStable(b, s);
    if HeaderEnd(b).Some? {
      ExtentStable(b, s);
    }
  }

  /** A negative length cuts the request inside its header, whose end is then missing, or it is never
      complete. */
  lemma NegativeLength(b: string)
    requires GoodHeader(b) && !PlainHeader(b) && |b| <= SIZE_LIMIT - INT_LIMIT
    ensures var e := HeaderEnd(b).value;
            var k := e + 4 + LengthAt(b, LengthField(b, e).value);
            && k < e + 4 && Complete(b) == (if k >= 0 then Some(k) else None)
            && (k >= 0 ==> HeaderEnd(b[..k]).None?)
  {
    hide LengthAt, LengthField;
    var e := HeaderEnd(b).value;
    var k := e + 4 + LengthAt(b, LengthField(b, e).value);
    if k >= 0 {
      BlankLineStable(b[..k], b);
    } else {
      Wraps(k);
    }
  }

  lemma Wraps(k: int)
    requires -(INT_LIMIT as int) <= k < 0
    ensures k % SIZE_LIMIT == k + SIZE_LIMIT
  {
  }

  /** A request framed by chunks ends where the bytes received so far end, whatever they are: its
      length is the reading pattern, not a property of the stream. */
  lemma ChunkedTakesAll(b: string, t: string)
    requires ByChunks(b) && Complete(b).Some?
    ensures Complete(b + t) == Some(|b| + |t|)
  {
    ExtentStable(b, b + t);
    var i :| ExtentOf(b).body <= i < |b| && LastChunkAt(b, i);
    assert LastChunkAt(b + t, i);
  }

  /** The end of a complete request is a property of the stream exactly when the request is not
      framed by chunks. */
  lemma StableExactlyWithoutChunks(b: string)
    requires Complete(b).Some? && GoodHeader(b)
    ensures !ByChunks(b) <==> forall t: string :: Complete(b + t) == Complete(b)
  {
    if ByChunks(b) {
      ChunkedTakesAll(b, "x");
      assert Complete(b + "x") != Complete(b);
    } else {
      forall t: string
        ensures Complete(b + t) == Complete(b)
      {
        ExtentStable(b, b + t);
      }
    }
  }

  const REQUEST_LINE: string := "PUT / HTTP/1.1\r\n"
  const CHUNKED_REST: string := "Transfer-Encoding:chunked\r\n\r\n0\r\n\r\n"
  const EXAMPLE: string := REQUEST_LINE + CHUNKED_REST

  lemma ExampleParts()
    ensures |REQUEST_LINE| == 16 && |CHUNKED_REST| == 34
    ensures forall i :: 0 <= i < 16 ==> Lower(REQUEST_LINE[i]) != 'c'
    ensures forall i :: 0 <= i < 14 ==> REQUEST_LINE[i] != '\r'
    ensures forall i :: 0 <= i < 25 ==> CHUNKED_REST[i] != '\r'
    ensures forall i :: 0 <= i < 11 ==> Lower(CHUNKED_REST[i]) != 'c'
  {
  }

  lemma ExampleAt(i: nat)
    requires i < 50
    ensures |EXAMPLE| == 50 && EXAMPLE[i] == if i < 16 then REQUEST_LINE[i] else CHUNKED_REST[i - 16]
  {
  }

  lemma ExampleHeader()
    ensures HeaderEnd(EXAMPLE) == Some(41) && LastChunkAt(EXAMPLE, 45)
  {
    ExampleParts();
    assert BlankLineAt(CHUNKED_REST, 25) && LastChunkAt(CHUNKED_REST, 29);
    assert EXAMPLE[16] == CHUNKED_REST[0] == 'T';
    forall i: nat | i < 41
      ensures !BlankLineAt(EXAMPLE, i)
    {
      ExampleAt(i);
      ExampleAt(i + 2);
    }
    assert BlankLineAt(EXAMPLE, 41);
  }

  lemma ExampleIsChunked()
    ensures HasChunked(EXAMPLE, 41)
  {
    assert WordAt(CHUNKED_REST, 25, 0, TRANSFER_ENCODING) && WordAt(CHUNKED_REST, 25, 18, CHUNKED);
    assert CHUNKED_REST[18] == 'c';
    hide WordAt;
    WordShifted(REQUEST_LINE, CHUNKED_REST, 25, 0, TRANSFER_ENCODING);
    WordShifted(REQUEST_LINE, CHUNKED_REST, 25, 18, CHUNKED);
    ExampleAt(34);
    assert SkipSpaces(EXAMPLE, 34) == 34;
    assert ChunkedAt(EXAMPLE, 41, 16);
  }

  lemma WordShifted(a: string, b: string, e: nat, p: nat, word: string)
    requires WordAt(b, e, p, word)
    ensures WordAt(a + b, |a| + e, |a| + p, word)
  {
    assert (a + b)[|a| + p..|a| + p + |word|] == b[p..p + |word|];
  }

  lemma WordStart(b: string, e: nat, p: nat, word: string)
    requires WordAt(b, e, p, word) && word != ""
    ensures Lower(b[p]) == Lower(word[0])
  {
    assert Lower(b[p + 0]) == Lower(word[0]);
  }

  lemma ExampleHasNoLength()
    ensures LengthField(EXAMPLE, 41).None?
  {
    ExampleParts();
    forall p: nat
      ensures !WordAt(EXAMPLE, 41, p, CONTENT_LENGTH)
    {
      if p + 15 <= 41 && WordAt(EXAMPLE, 41, p, CONTENT_LENGTH) {
        WordStart(EXAMPLE, 41, p, CONTENT_LENGTH);
        ExampleAt(p);
      }
    }
  }

  lemma ExampleExtent()
    ensures ExtentOf(EXAMPLE) == UntilLastChunk(45)
  {
    ExampleHeader();
    ExampleIsChunked();
    ExampleHasNoLength();
  }

  /** A request framed by chunks, and what happens when the next one arrives with it. */
  lemma ChunkedExample()
    ensures Complete(EXAMPLE) == Some(50) && Complete(EXAMPLE + "GET") == Some(53)
  {
    hide ExtentOf;
    ExampleExtent();
    ExampleHeader();
    assert ChunkedBodyDone(EXAMPLE, 45);
    ChunkedTakesAll(EXAMPLE, "GET");
  }

  /** Without its last byte it is incomplete. */
  lemma BrokenExample()
    ensures |EXAMPLE| == 50 && var b := EXAMPLE[..49]; ByChunks(b) && GoodHeader(b) && Complete(b).None?
  {
    ExampleAt(0);
    var b := EXAMPLE[..49];
    ExampleHeader();
    assert BlankLineAt(EXAMPLE, 41);
    assert b <= EXAMPLE;
    BlankLineStable(b, EXAMPLE);
    ExampleExtent();
    ExampleHasNoLength();
    ExtentStable(b, EXAMPLE);
    assert !ChunkedBodyDone(b, 45);
  }
}
