/** What request_complete of c/src/http.c says about requests as clients print them: names of header
    fields in any case, white space and a sign before a number. */
module Headers {
  import opened Ctype
  import opened Decimal
  import opened Framing
  import opened Http
  import opened Numerals
  import opened Wrappers

  // ----- Names in any case -----

  /** The same character, or the same letter in the other case. */
  predicate SameLetter(a: char, b: char) {
    || a == b
    || ('A' <= b <= 'Z' && a as int == b as int + 32)
    || ('a' <= b <= 'z' && a as int == b as int - 32)
  }

  predicate InAnyCase(text: string, word: string) {
    |text| == |word| && forall i :: 0 <= i < |word| ==> SameLetter(text[i], word[i])
  }

  lemma LowerIsSameLetter(a: char, b: char)
    ensures Lower(a) == Lower(b) <==> SameLetter(a, b)
  {
  }

  /** The comparison of the C code finds exactly the spellings of the word in any case. */
  lemma WordInAnyCase(b: string, e: nat, p: nat, word: string)
    requires p + |word| <= e <= |b|
    ensures WordAt(b, e, p, word) <==> InAnyCase(b[p..p + |word|], word)
  {
    hide Lower, SameLetter;
    var t := b[p..p + |word|];
    forall i | 0 <= i < |word|
      ensures Lower(b[p + i]) == Lower(word[i]) <==> SameLetter(t[i], word[i])
    {
      LowerIsSameLetter(b[p + i], word[i]);
    }
    if InAnyCase(t, word) {
      assert forall j :: 0 <= j < |word| ==> SameLetter(t[j], word[j]);
    }
    if WordAt(b, e, p, word) {
      assert forall i :: 0 <= i < |word| ==> Lower(b[p + i]) == Lower(word[i]);
    }
  }

  lemma WordStands(a: string, name: string, c: string, word: string)
    requires InAnyCase(name, word)
    ensures WordAt(a + name + c, |a + name + c|, |a|, word)
  {
    var h := a + name + c;
    assert h[|a|..|a| + |word|] == name;
    WordInAnyCase(h, |h|, |a|, word);
  }

  // ----- Headers -----

  /** A request line and headers, without the blank line. */
  predicate HeaderText(h: string) {
    forall i :: 0 <= i < |h| ==> !BlankLineAt(h + "\r\n\r\n", i)
  }

  predicate StandsIn(h: string, p: nat, word: string) {
    p + |word| <= |h| && InAnyCase(h[p..p + |word|], word)
  }

  /** The name of a header field stands in none of the first n places. */
  predicate NoName(h: string, n: nat, word: string) {
    forall p :: 0 <= p < n ==> !StandsIn(h, p, word)
  }

  lemma NoWord(h: string, n: nat, word: string, p: nat)
    requires NoName(h, n, word) && p < n
    ensures !WordAt(h, |h|, p, word)
  {
    hide InAnyCase;
    assert !StandsIn(h, p, word);
    if p + |word| <= |h| {
      WordInAnyCase(h, |h|, p, word);
    }
  }

  lemma HeaderEndsAt(h: string, body: string)
    requires HeaderText(h)
    ensures HeaderEnd(h + "\r\n\r\n" + body) == Some(|h|)
  {
    var b := h + "\r\n\r\n";
    var m := b + body;
    assert BlankLineAt(b, |h|);
    assert forall i: nat :: i < |h| ==> !BlankLineAt(b, i);
    assert HeaderEnd(b) == Some(|h|);
    BlankLineStable(b, m);
  }

  lemma FirstIs(h: string, e: nat, q: nat, word: string)
    requires q < e && WordAt(h, e, q, word) && forall p: nat :: p < q ==> !WordAt(h, e, p, word)
    ensures FindWord(h, e, 0, word) == Some(q)
  {
    hide WordAt;
  }

  lemma NoneIs(h: string, e: nat, word: string)
    requires forall p: nat :: p < e ==> !WordAt(h, e, p, word)
    ensures FindWord(h, e, 0, word) == None
  {
    hide WordAt;
  }

  // ----- A Content-Length -----

  /** A header with a length: text before it that names no other, the name in any case, blanks and tabs,
      a sign or none, a number, and more lines or nothing. */
  datatype LengthHeader =
    LengthHeader(start: string, name: string, white: string, sign: string, number: nat, rest: string)

  predicate GoodLengthHeader(l: LengthHeader) {
    && InAnyCase(l.name, "Content-Length:") && NoName(LengthText(l), |l.start|, "Content-Length:")
    && (forall i :: 0 <= i < |l.white| ==> l.white[i] == ' ' || l.white[i] == '\t')
    && (l.sign == "" || l.sign == "+" || l.sign == "-") && l.number < 0x8000_0000
    && (l.rest == "" || l.rest[0] == '\r')
    && HeaderText(LengthText(l))
  }

  function LengthText(l: LengthHeader): string {
    l.start + l.name + l.white + l.sign + Print(l.number) + l.rest
  }

  /** Where the parts of the header lie in a message. */
  lemma LengthPlaces(l: LengthHeader, m: string)
    requires GoodLengthHeader(l) && LengthText(l) + "\r\n\r\n" <= m
    ensures var digits := Print(l.number);
            var v := |l.start| + 15; var w := v + |l.white|; var d := w + |l.sign|; var q := d + |digits|;
            && q <= |LengthText(l)| < |m| && m[|LengthText(l)|] == '\r' && m[q] == '\r'
            && m[v..w] == l.white && m[w..d] == l.sign && m[d..q] == digits
  {
    hide HeaderText, NoName, Print, SameLetter;
    var h, digits := LengthText(l), Print(l.number);
    var v := |l.start| + 15;
    var w := v + |l.white|;
    var d := w + |l.sign|;
    var q := d + |digits|;
    Parts(l.start + l.name, l.white, l.sign, digits, l.rest);
    assert h + "\r\n\r\n" == (l.start + l.name + l.white + l.sign + digits) + (l.rest + "\r\n\r\n");
    assert (h + "\r\n\r\n")[q] == (l.rest + "\r\n\r\n")[0] == '\r';
    assert m[q] == (h + "\r\n\r\n")[q] && m[|h|] == (h + "\r\n\r\n")[|h|];
    SliceOf(h, m, v, w);
    SliceOf(h, m, w, d);
    SliceOf(h, m, d, q);
  }

  lemma Parts(a: string, b: string, c: string, d: string, e: string)
    ensures var h := a + b + c + d + e; var i := |a| + |b|; var j := i + |c|;
            h[|a|..i] == b && h[i..j] == c && h[j..j + |d|] == d
  {
  }

  lemma SliceOf(h: string, m: string, i: nat, j: nat)
    requires h <= m && i <= j <= |h|
    ensures m[i..j] == h[i..j]
  {
  }

  lemma {:induction false} WhiteSkipped(m: string, v: nat, w: nat)
    requires v <= w < |m| && !IsSpace(m[w]) && forall i :: v <= i < w ==> m[i] == ' ' || m[i] == '\t'
    ensures SkipWhiteAt(m, v) == w
    decreases w - v
  {
    if v < w {
      WhiteSkipped(m, v + 1, w);
    }
  }

  /** Blanks and tabs are skipped whole. */
  lemma AllSkipped(m: string, v: nat, w: nat)
    requires v <= w < |m| && !IsSpace(m[w]) && forall i :: v <= i < w ==> m[i] == ' ' || m[i] == '\t'
    ensures SkipWhiteAt(m, SkipSpaces(m, v)) == w
  {
    assert m[w] != ' ';
    WhiteSkipped(m, SkipSpaces(m, v), w);
  }

  /** The same digits, followed by something else, are the same run. */
  lemma {:induction false} RunCopied(t: string, k: nat, m: string, j: nat)
    requires k <= |t| && j + |t| - k < |m| && m[j..j + |t| - k] == t[k..] && !IsDigit(m[j + |t| - k])
    requires forall i :: k <= i < |t| ==> IsDigit(t[i])
    ensures DigitRun(m, j) == DigitRun(t, k)
    decreases |t| - k
  {
    if k < |t| {
      hide IsDigit;
      assert m[j] == m[j..j + |t| - k][0] == t[k..][0] == t[k];
      assert m[j + 1..j + |t| - k] == m[j..j + |t| - k][1..] == t[k..][1..] == t[k + 1..];
      RunCopied(t, k + 1, m, j + 1);
    }
  }

  function Signed(sign: string, n: nat): int {
    if sign == "-" then -(n as int) else n
  }

  /** What atoi reads. */
  lemma NumberRead(m: string, w: nat, sign: string, n: nat)
    requires sign == "" || sign == "+" || sign == "-"
    requires var d := w + |sign|; var q := d + |Print(n)|;
             q < |m| && m[w..d] == sign && m[d..q] == Print(n) && m[q] == '\r'
    ensures !IsSpace(m[w]) && LengthAt(m, w) == Signed(sign, n)
  {
    hide Print, DigitRun, Value;
    var d := w + |sign|;
    assert m[d] == m[d..d + |Print(n)|][0] == Print(n)[0];
    if sign != "" {
      assert m[w] == m[w..d][0] == sign[0];
    }
    PrintValue(n);
    RunCopied(Print(n), 0, m, d);
  }

  lemma WhiteAt(m: string, v: nat, white: string)
    requires v + |white| <= |m| && m[v..v + |white|] == white
    requires forall i :: 0 <= i < |white| ==> white[i] == ' ' || white[i] == '\t'
    ensures forall i :: v <= i < v + |white| ==> m[i] == ' ' || m[i] == '\t'
  {
    forall i | v <= i < v + |white|
      ensures m[i] == ' ' || m[i] == '\t'
    {
      assert m[i] == m[v..v + |white|][i - v];
    }
  }

  /** The name is found where it stands. */
  lemma NameFound(l: LengthHeader, m: string)
    requires GoodLengthHeader(l) && LengthText(l) <= m
    ensures FindWord(m, |LengthText(l)|, 0, CONTENT_LENGTH) == Some(|l.start|)
  {
    hide WordAt, FindWord, Print, InAnyCase, HeaderText, NoName;
    var h := LengthText(l);
    FindWordStable(h, m, |h|, 0, CONTENT_LENGTH);
    var c := l.white + l.sign + Print(l.number) + l.rest;
    assert h == l.start + l.name + c;
    WordStands(l.start, l.name, c, CONTENT_LENGTH);
    forall p: nat | p < |l.start|
      ensures !WordAt(h, |h|, p, CONTENT_LENGTH)
    {
      NoWord(h, |l.start|, CONTENT_LENGTH, p);
    }
    FirstIs(h, |h|, |l.start|, CONTENT_LENGTH);
  }

  lemma LengthRead(l: LengthHeader, m: string)
    requires GoodLengthHeader(l) && LengthText(l) + "\r\n\r\n" <= m
    ensures var e := |LengthText(l)|; var w := LengthField(m, e);
            w.Some? && w.value < e && LengthAt(m, w.value) == Signed(l.sign, l.number)
  {
    hide FindWord, LengthText, Print, SkipSpaces, SkipWhiteAt, LengthAt, InAnyCase, HeaderText, NoName, Signed;
    var v := |l.start| + 15;
    var w := v + |l.white|;
    LengthPlaces(l, m);
    NameFound(l, m);
    NumberRead(m, w, l.sign, l.number);
    WhiteAt(m, v, l.white);
    AllSkipped(m, v, w);
  }

  /** A message ends as many bytes behind its header as its Content-Length says, however the name is
      spelled and whatever its body contains; a negative length ends it before that. */
  lemma LengthFrames(l: LengthHeader, body: string)
    requires GoodLengthHeader(l) && |LengthText(l)| + |body| < 0x1_0000_0000
    ensures var h := LengthText(l); var m := h + "\r\n\r\n" + body;
            var k := |h| + 4 + if l.sign == "-" then -(l.number as int) else l.number;
            GoodHeader(m) && Complete(m) == if 0 <= k <= |m| then Some(k) else None
  {
    hide LengthText, GoodLengthHeader, LengthField, LengthAt, HasChunked, HeaderEnd;
    var h := LengthText(l);
    var m := h + "\r\n\r\n" + body;
    HeaderOfGood(l);
    HeaderEndsAt(h, body);
    LengthRead(l, m);
    var k := |h| + 4 + Signed(l.sign, l.number);
    if k < 0 {
      Wraps(k);
    }
  }

  lemma HeaderOfGood(l: LengthHeader)
    requires GoodLengthHeader(l)
    ensures HeaderText(LengthText(l)) && l.number < INT_LIMIT && CONTENT_LENGTH == "Content-Length:"
  {
  }

  /** A request with a body is one request, exactly as long as it was printed. */
  lemma PrintedRequest(l: LengthHeader, body: string)
    requires GoodLengthHeader(l) && l.sign != "-" && l.number == |body|
    ensures var m := LengthText(l) + "\r\n\r\n" + body; IsRequest(m) && PlainHeader(m)
  {
    hide LengthText, GoodLengthHeader, LengthField, LengthAt, HasChunked, HeaderEnd;
    var h := LengthText(l);
    var m := h + "\r\n\r\n" + body;
    HeaderOfGood(l);
    HeaderEndsAt(h, body);
    LengthRead(l, m);
    assert ExtentOf(m) == Fixed(|m|);
  }

  // ----- Chunks -----

  /** A Transfer-Encoding: chunked at p, in any case and with any number of blanks. */
  predicate SaysChunked(h: string, p: nat, blanks: nat) {
    var v := p + 18;
    && v + blanks + 7 <= |h| && InAnyCase(h[p..v], "Transfer-Encoding:")
    && (forall i :: v <= i < v + blanks ==> h[i] == ' ') && InAnyCase(h[v + blanks..v + blanks + 7], "chunked")
  }

  ghost predicate NoChunks(h: string) {
    forall p: nat, k: nat :: !SaysChunked(h, p, k)
  }

  lemma {:induction false} BlanksSkipped(m: string, v: nat, w: nat)
    requires v <= w < |m| && m[w] != ' ' && forall i :: v <= i < w ==> m[i] == ' '
    ensures SkipSpaces(m, v) == w
    decreases w - v
  {
    if v < w {
      BlanksSkipped(m, v + 1, w);
    }
  }

  lemma NoBlankFirst(t: string)
    requires InAnyCase(t, "chunked")
    ensures t[0] != ' '
  {
    assert SameLetter(t[0], "chunked"[0]);
  }

  /** That is what header_has_chunked looks for. */
  lemma ChunkedIsSaid(h: string, p: nat)
    ensures ChunkedAt(h, |h|, p) <==> exists k: nat :: SaysChunked(h, p, k)
  {
    hide WordAt, InAnyCase;
    var v := p + 18;
    if ChunkedAt(h, |h|, p) {
      var w := SkipSpaces(h, v);
      WordFits(h, p, TRANSFER_ENCODING);
      WordFits(h, w, CHUNKED);
      WordInAnyCase(h, |h|, p, TRANSFER_ENCODING);
      WordInAnyCase(h, |h|, w, CHUNKED);
      assert SaysChunked(h, p, w - v);
    }
    if k: nat :| SaysChunked(h, p, k) {
      var w := v + k;
      NoBlankFirst(h[w..w + 7]);
      assert h[w] == h[w..w + 7][0];
      BlanksSkipped(h, v, w);
      WordInAnyCase(h, |h|, p, TRANSFER_ENCODING);
      WordInAnyCase(h, |h|, w, CHUNKED);
    }
  }

  lemma WordFits(h: string, p: nat, word: string)
    requires WordAt(h, |h|, p, word)
    ensures p + |word| <= |h|
  {
  }

  lemma NoLength(h: string, m: string)
    requires NoName(h, |h|, "Content-Length:") && h <= m
    ensures LengthField(m, |h|) == None
  {
    hide WordAt, FindWord, NoName;
    FindWordStable(h, m, |h|, 0, CONTENT_LENGTH);
    forall p: nat | p < |h|
      ensures !WordAt(h, |h|, p, CONTENT_LENGTH)
    {
      NoWord(h, |h|, CONTENT_LENGTH, p);
    }
    NoneIs(h, |h|, CONTENT_LENGTH);
  }

  /** The header alone says whether the message is chunked. */
  lemma ChunkedInMessage(h: string, m: string, p: nat)
    requires h + "\r\n\r\n" <= m
    ensures ChunkedAt(m, |h|, p) <==> exists k: nat :: SaysChunked(h, p, k)
  {
    hide SaysChunked;
    var b := h + "\r\n\r\n";
    assert HeaderIn(b, |h|) && h <= b;
    ChunkedIsSaid(h, p);
    ChunkedAtStable(b, m, |h|, p);
    ChunkedUpTo(h, b, p);
  }

  lemma ChunkedUpTo(h: string, b: string, p: nat)
    requires h <= b && HeaderIn(b, |h|)
    ensures ChunkedAt(b, |h|, p) <==> ChunkedAt(h, |h|, p)
  {
    hide WordAt, Lower;
    WordStable(h, b, |h|, p, TRANSFER_ENCODING);
    var v := p + |TRANSFER_ENCODING|;
    if WordAt(h, |h|, p, TRANSFER_ENCODING) {
      WordFits(h, p, TRANSFER_ENCODING);
      SpacesUpTo(h, b, v);
      WordStable(h, b, |h|, SkipSpaces(h, v), CHUNKED);
    }
  }

  lemma {:induction false} SpacesUpTo(h: string, b: string, v: nat)
    requires h <= b && HeaderIn(b, |h|) && v <= |h|
    ensures SkipSpaces(h, v) == SkipSpaces(b, v)
    decreases |h| - v
  {
    if v < |h| && h[v] == ' ' {
      SpacesUpTo(h, b, v + 1);
    }
  }

  predicate MarkAt(body: string, i: nat) {
    i + 5 <= |body| && body[i..i + 5] == "0\r\n\r\n"
  }

  /** A message without a length whose header says chunked takes all that was received, as soon as
      "0 CR LF CR LF" stands in its body. */
  lemma ChunksFrame(h: string, p: nat, blanks: nat, body: string)
    requires HeaderText(h) && NoName(h, |h|, "Content-Length:") && SaysChunked(h, p, blanks)
    ensures var m := h + "\r\n\r\n" + body;
            && ByChunks(m)
            && Complete(m) == if exists i :: 0 <= i < |body| && MarkAt(body, i) then Some(|m|) else None
  {
    hide SaysChunked, NoName, HeaderText, LengthField, ChunkedAt, HeaderEnd;
    var m := h + "\r\n\r\n" + body;
    assert h <= m && h + "\r\n\r\n" <= m;
    HeaderEndsAt(h, body);
    NoLength(h, m);
    SaidInside(h, p, blanks);
    ChunkedInMessage(h, m, p);
    assert HasChunked(m, |h|);
    MarkInBody(h, body);
  }

  lemma SaidInside(h: string, p: nat, blanks: nat)
    requires SaysChunked(h, p, blanks)
    ensures p < |h|
  {
  }

  lemma MarkInBody(h: string, body: string)
    ensures ChunkedBodyDone(h + "\r\n\r\n" + body, |h| + 4)
            <==> exists i :: 0 <= i < |body| && MarkAt(body, i)
  {
    var m, from := h + "\r\n\r\n" + body, |h| + 4;
    assert m[from..] == body;
    if i :| from <= i < |m| && LastChunkAt(m, i) {
      MarkThere(m, from, body, i - from);
    }
    if i :| 0 <= i < |body| && MarkAt(body, i) {
      MarkThere(m, from, body, i);
    }
  }

  lemma MarkThere(m: string, from: nat, body: string, k: nat)
    requires from <= |m| && m[from..] == body
    ensures LastChunkAt(m, from + k) <==> MarkAt(body, k)
  {
    assert forall j :: 0 <= j < |body| ==> m[from + j] == body[j];
    if k + 5 <= |body| {
      var t := body[k..k + 5];
      assert forall j :: 0 <= j < 5 ==> t[j] == body[k + j];
      assert t == "0\r\n\r\n" <==> t[0] == '0' && t[1] == '\r' && t[2] == '\n' && t[3] == '\r' && t[4] == '\n';
    }
  }

  /** A request that names neither ends with its header. */
  lemma PrintedBodiless(h: string)
    requires HeaderText(h) && NoName(h, |h|, "Content-Length:") && NoChunks(h)
    ensures IsRequest(h + "\r\n\r\n") && PlainHeader(h + "\r\n\r\n")
  {
    hide SaysChunked, NoName, HeaderText, LengthField, ChunkedAt, HeaderEnd;
    var m := h + "\r\n\r\n";
    assert m + "" == m && h <= m;
    HeaderEndsAt(h, "");
    NoLength(h, m);
    forall p: nat
      ensures !ChunkedAt(m, |h|, p)
    {
      ChunkedInMessage(h, m, p);
    }
    assert ExtentOf(m) == Fixed(|m|);
  }
}
