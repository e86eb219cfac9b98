/** The request loop of c/src/http.c over its sliding buffer. */
module Http {
  import opened Ctype
  import opened Decimal
  import opened Wrappers
  import opened Numerals
  import opened Framing

  const MAX_BODY: nat := 65536
  const BUFFER: nat := MAX_BODY + 16384
  const MAX_REQUEST: nat := MAX_BODY + 8192

  /** find_header_end */
  method FindHeaderEnd(buf: array<char>, total: nat) returns (r: Option<nat>)
    requires total <= buf.Length
    ensures r == HeaderEnd(buf[..total])
  {
    ghost var b := buf[..total];
    var i: nat := 0;
    while i + 3 < total
      invariant forall j: nat :: j < i ==> !BlankLineAt(b, j)
    {
      if buf[i] == '\r' && buf[i + 1] == '\n' && buf[i + 2] == '\r' && buf[i + 3] == '\n' {
        assert BlankLineAt(b, i);
        return Some(i);
      }
      i := i + 1;
    }
    return None;
  }

  /** strncasecmp against a word, which never looks past the end of the header. */
  method StandsAt(buf: array<char>, total: nat, e: nat, p: nat, word: string) returns (r: bool)
    requires total <= buf.Length && HeaderIn(buf[..total], e) && p <= e
    requires '\r' !in word
    ensures r == WordAt(buf[..total], e, p, word)
  {
    ghost var b := buf[..total];
    var j: nat := 0;
    while j < |word|
      invariant j <= |word| && p + j <= e
      invariant forall k :: 0 <= k < j ==> Lower(b[p + k]) == Lower(word[k])
    {
      assert b[p + j] == buf[p + j];
      if Lower(buf[p + j]) != Lower(word[j]) {
        return false;
      }
      j := j + 1;
    }
    return true;
  }

  /** while (*v == ' ') v++ */
  method SkipBlanks(buf: array<char>, total: nat, e: nat, v0: nat) returns (v: nat)
    requires total <= buf.Length && HeaderIn(buf[..total], e) && v0 <= e
    ensures v == SkipSpaces(buf[..total], v0) && v <= e
  {
    ghost var b := buf[..total];
    v := v0;
    while buf[v] == ' '
      invariant v0 <= v <= e && b[v] == buf[v]
      invariant SkipSpaces(b, v) == SkipSpaces(b, v0)
      decreases e - v
    {
      v := v + 1;
    }
  }

  lemma DigitAt(b: string, v: nat, k: nat)
    requires k < |DigitRun(b, v)|
    ensures v + k < |b| && IsDigit(b[v + k]) && DigitRun(b, v)[k] == DigitValue(b[v + k])
  {
  }

  lemma RunEnds(b: string, v: nat, k: nat)
    requires k <= |DigitRun(b, v)| && v + k < |b|
    ensures IsDigit(b[v + k]) <==> k < |DigitRun(b, v)|
  {
    assert k < |DigitRun(b, v)| ==> IsDigit(b[v + k]);
  }

  lemma Ten(n: nat)
    ensures Shift(R10, n) == 10 * n
  {
  }

  /** The digits atoi reads. */
  method ReadDigits(buf: array<char>, total: nat, e: nat, v: nat) returns (n: nat)
    requires total <= buf.Length && HeaderIn(buf[..total], e) && v <= e
    ensures n == Value(R10, DigitRun(buf[..total], v))
  {
    ghost var b := buf[..total];
    ghost var ds := DigitRun(b, v);
    DigitRunStable(b, b, e, v);
    hide DigitRun, Shift;
    var k: nat := 0;
    n := 0;
    while IsDigit(buf[v + k])
      invariant k <= |ds| && v + k <= e && b[v + k] == buf[v + k]
      invariant n == Value(R10, ds[..k])
      decreases e - (v + k)
    {
      RunEnds(b, v, k);
      assert ds[..k + 1] == ds[..k] + [ds[k]];
      ValueNext(R10, ds[..k], ds[k]);
      DigitAt(b, v, k);
      Ten(n);
      n := 10 * n + DigitValue(buf[v + k]);
      k := k + 1;
    }
    RunEnds(b, v, k);
    assert ds[..k] == ds;
  }

  /** The white space atoi skips, when something else follows inside the header. */
  method SkipWhiteSpace(buf: array<char>, total: nat, e: nat, v0: nat) returns (v: nat)
    requires total <= buf.Length && HeaderIn(buf[..total], e) && SkipWhiteAt(buf[..total], v0) < e
    ensures v == SkipWhiteAt(buf[..total], v0)
  {
    ghost var b := buf[..total];
    v := v0;
    while IsSpace(buf[v])
      invariant v0 <= v <= SkipWhiteAt(b, v0) && SkipWhiteAt(b, v) == SkipWhiteAt(b, v0) && b[v] == buf[v]
      decreases e - v
    {
      v := v + 1;
    }
  }

  /** atoi, behind its white space. */
  method ReadNumber(buf: array<char>, total: nat, e: nat, w: nat) returns (n: int)
    requires total <= buf.Length && HeaderIn(buf[..total], e) && w < e
    ensures n == LengthAt(buf[..total], w)
  {
    hide DigitRun, Value;
    assert buf[..total][w] == buf[w];
    n := ReadDigits(buf, total, e, if buf[w] == '+' || buf[w] == '-' then w + 1 else w);
    if buf[w] == '-' {
      n := -n;
    }
  }

  /** The scan for Content-Length in request_complete, up to the call of atoi. */
  method FindLength(buf: array<char>, total: nat, e: nat) returns (v: Option<nat>)
    requires total <= buf.Length && HeaderIn(buf[..total], e)
    ensures var p := FindWord(buf[..total], e, 0, CONTENT_LENGTH);
            && (v.Some? <==> p.Some?)
            && (v.Some? ==> v.value == SkipSpaces(buf[..total], p.value + |CONTENT_LENGTH|) <= e)
  {
    ghost var b := buf[..total];
    var p: nat := 0;
    while p < e
      invariant p <= e && FindWord(b, e, p, CONTENT_LENGTH) == FindWord(b, e, 0, CONTENT_LENGTH)
    {
      var found := StandsAt(buf, total, e, p, CONTENT_LENGTH);
      if found {
        var w := SkipBlanks(buf, total, e, p + |CONTENT_LENGTH|);
        return Some(w);
      }
      p := p + 1;
    }
    return None;
  }

  /** One turn of the loop of header_has_chunked. */
  method IsChunked(buf: array<char>, total: nat, e: nat, p: nat) returns (r: bool)
    requires total <= buf.Length && HeaderIn(buf[..total], e) && p <= e
    ensures r == ChunkedAt(buf[..total], e, p)
  {
    r := StandsAt(buf, total, e, p, TRANSFER_ENCODING);
    if r {
      var v := SkipBlanks(buf, total, e, p + |TRANSFER_ENCODING|);
      r := StandsAt(buf, total, e, v, CHUNKED);
    }
  }

  /** header_has_chunked */
  method HeaderHasChunked(buf: array<char>, total: nat, e: nat) returns (r: bool)
    requires total <= buf.Length && HeaderIn(buf[..total], e)
    ensures r == HasChunked(buf[..total], e)
  {
    var p: nat := 0;
    while p < e
      invariant p <= e && forall q :: 0 <= q < p ==> !ChunkedAt(buf[..total], e, q)
    {
      r := IsChunked(buf, total, e, p);
      if r {
        return;
      }
      p := p + 1;
    }
    return false;
  }

  /** chunked_body_complete */
  method ChunkedBodyComplete(buf: array<char>, total: nat, hdrLen: nat) returns (r: bool)
    requires hdrLen <= total <= buf.Length
    ensures r == ChunkedBodyDone(buf[..total], hdrLen)
  {
    ghost var b := buf[..total];
    var bodyLen := total - hdrLen;
    if bodyLen < 5 {
      return false;
    }
    var i: nat := 0;
    while i + 4 < bodyLen
      invariant forall j :: hdrLen <= j < hdrLen + i ==> !LastChunkAt(b, j)
    {
      if buf[hdrLen + i] == '0' && buf[hdrLen + i + 1] == '\r' && buf[hdrLen + i + 2] == '\n'
         && buf[hdrLen + i + 3] == '\r' && buf[hdrLen + i + 4] == '\n'
      {
        assert LastChunkAt(b, hdrLen + i);
        return true;
      }
      i := i + 1;
    }
    return false;
  }

  /** The part of request_complete that reads the header. */
  method FindExtent(buf: array<char>, total: nat, e: nat) returns (x: Extent)
    requires total <= buf.Length && HeaderEnd(buf[..total]) == Some(e) && GoodHeader(buf[..total])
    ensures x == ExtentOf(buf[..total])
  {
    hide FindWord, SkipSpaces, SkipWhiteAt, LengthAt, HasChunked, MessageLength;
    var v := FindLength(buf, total, e);
    if v.Some? {
      var w := SkipWhiteSpace(buf, total, e, v.value);
      var n := ReadNumber(buf, total, e, w);
      return Fixed(MessageLength(e + 4, n));
    }
    var chunked := HeaderHasChunked(buf, total, e);
    return if chunked then UntilLastChunk(e + 4) else Fixed(e + 4);
  }

  /** request_complete */
  method RequestComplete(buf: array<char>, total: nat) returns (r: Option<nat>)
    requires total <= buf.Length && GoodHeader(buf[..total])
    ensures r == Complete(buf[..total])
  {
    var h := FindHeaderEnd(buf, total);
    if h.None? {
      return None;
    }
    var x := FindExtent(buf, total, h.value);
    match x {
      case Fixed(n) =>
        return if n <= total then Some(n) else None;
      case UntilLastChunk(body) =>
        var done := ChunkedBodyComplete(buf, total, body);
        return if done then Some(total) else None;
    }
  }

  // ----- What handle_client should extract -----

  /** A request that does not fit req_raw is cut. */
  function CutTo(n: nat): nat {
    if n >= MAX_REQUEST then MAX_REQUEST - 1 else n
  }

  /** The first request of a stream, if the buffer can hold it. */
  function First(s: string): (n: Option<nat>)
    ensures n.Some? ==> n == Complete(s) && CutTo(n.value) <= n.value <= |s|
  {
    var n := Complete(s);
    if n.Some? && n.value < BUFFER then n else None
  }

  /** The connection stays open after a request: it parses, for which its header must end inside it, and
      says so; for requests with a header goOn is arbitrary. */
  predicate KeepsOpen(m: string, goOn: string -> bool): (r: bool)
    ensures r ==> |m| >= 4
  {
    HeaderEnd(m).Some? && goOn(m)
  }

  /** The requests at the front of a stream. */
  function Frames(s: string, goOn: string -> bool): seq<string>
    decreases |s|
  {
    var n := First(s);
    if n.None? then []
    else
      var m := s[..CutTo(n.value)];
      [m] + if KeepsOpen(m, goOn) then Frames(s[|m|..], goOn) else []
  }

  /** What follows those requests. */
  function Rest(s: string, goOn: string -> bool): string
    decreases |s|
  {
    var n := First(s);
    if n.None? then s
    else
      var m := s[..CutTo(n.value)];
      if KeepsOpen(m, goOn) then Rest(s[|m|..], goOn) else s[|m|..]
  }

  /** The header decides where the first request ends. */
  predicate HeaderFramed(s: string) {
    PlainHeader(s) && !ByChunks(s)
  }

  /** The requests are framed by their headers, and their lengths are not negative. */
  predicate WellFramed(s: string, goOn: string -> bool)
    decreases |s|
  {
    var n := First(s);
    && HeaderFramed(s)
    && (n.Some? ==> var m := s[..CutTo(n.value)]; KeepsOpen(m, goOn) ==> WellFramed(s[|m|..], goOn))
  }

  function Concat(msgs: seq<string>): string {
    if msgs == [] then "" else msgs[0] + Concat(msgs[1..])
  }

  /** A request by itself: complete, and not before its last byte. */
  predicate IsRequest(m: string) {
    Complete(m) == Some(|m|) && !ByChunks(m)
  }

  lemma FirstRequest(s: string, n: nat)
    requires Complete(s) == Some(n) && HeaderFramed(s)
    ensures IsRequest(s[..n])
  {
    var m := s[..n];
    assert m <= s;
    CompleteStable(m, s);
    ExtentStable(m, s);
  }

  lemma RequestInFront(m: string, t: string)
    requires IsRequest(m) && PlainHeader(m)
    ensures Complete(m + t) == Some(|m|) && HeaderFramed(m + t)
  {
    assert m <= m + t;
    ExtentStable(m, m + t);
    BlankLineStable(m, m + t);
    LengthStable(m, m + t, HeaderEnd(m).value);
  }

  lemma ConcatFront(m: string, msgs: seq<string>, rest: string)
    ensures Concat([m] + msgs) + rest == m + (Concat(msgs) + rest)
  {
    assert ([m] + msgs)[1..] == msgs;
  }

  lemma FrontFrame(s: string, goOn: string -> bool, n: nat)
    requires First(s) == Some(n)
    ensures var m, t := s[..CutTo(n)], s[CutTo(n)..];
            && Frames(s, goOn) == [m] + (if KeepsOpen(m, goOn) then Frames(t, goOn) else [])
            && Rest(s, goOn) == (if KeepsOpen(m, goOn) then Rest(t, goOn) else t)
  {
  }

  lemma NoFrame(s: string, goOn: string -> bool)
    requires First(s).None?
    ensures Concat(Frames(s, goOn)) == "" && Rest(s, goOn) == s
  {
  }

  lemma Rejoined(s: string, k: nat)
    requires k <= |s|
    ensures s[..k] + s[k..] == s && Concat([s[..k]]) + s[k..] == s
  {
    ConcatFront(s[..k], [], s[k..]);
    assert [s[..k]] + [] == [s[..k]];
  }

  /** The extracted requests and the rest are the stream. */
  lemma {:induction false} FramesCoverStream(s: string, goOn: string -> bool)
    ensures Concat(Frames(s, goOn)) + Rest(s, goOn) == s
    decreases |s|
  {
    hide First, CutTo, Frames, Rest, Concat, KeepsOpen;
    var n := First(s);
    if n.None? {
      NoFrame(s, goOn);
    } else {
      var k := CutTo(n.value);
      var m, t := s[..k], s[k..];
      FrontFrame(s, goOn, n.value);
      Rejoined(s, k);
      if KeepsOpen(m, goOn) {
        FramesCoverStream(t, goOn);
        ConcatFront(m, Frames(t, goOn), Rest(t, goOn));
      } else {
        assert [m] + [] == [m];
      }
    }
  }

  /** Every extracted request is one by itself, or the first 73727 bytes of one, and has at least four
      bytes. */
  lemma {:induction false} FramesAreRequests(s: string, goOn: string -> bool, m: string)
    requires WellFramed(s, goOn) && m in Frames(s, goOn)
    ensures 4 <= |m| <= 73727 && (IsRequest(m) || |m| == 73727)
    decreases |s|
  {
    var n := First(s).value;
    var k := CutTo(n);
    if m == s[..k] {
      if n < MAX_REQUEST {
        FirstRequest(s, n);
      }
    } else {
      FramesAreRequests(s[k..], goOn, m);
    }
  }

  /** A request that handle_client takes whole. */
  predicate GoodRequest(m: string, goOn: string -> bool) {
    IsRequest(m) && PlainHeader(m) && |m| < MAX_REQUEST && goOn(m)
  }

  lemma FirstOfGood(m: string, t: string, goOn: string -> bool)
    requires GoodRequest(m, goOn)
    ensures First(m + t) == Some(|m|) && CutTo(|m|) == |m| && HeaderFramed(m + t) && KeepsOpen(m, goOn)
    ensures (m + t)[..|m|] == m && (m + t)[|m|..] == t
  {
    RequestInFront(m, t);
  }

  /** What clients send is well framed, and comes out as it was sent. */
  lemma {:induction false} SentIsServed(msgs: seq<string>, goOn: string -> bool)
    requires forall m :: m in msgs ==> GoodRequest(m, goOn)
    ensures WellFramed(Concat(msgs), goOn) && Frames(Concat(msgs), goOn) == msgs
  {
    if msgs != [] {
      var m, t := msgs[0], Concat(msgs[1..]);
      SentIsServed(msgs[1..], goOn);
      FirstOfGood(m, t, goOn);
      hide First, HeaderFramed, CutTo, KeepsOpen;
      assert m in msgs;
    }
  }

  // ----- What a connection brings -----

  /** The bytes a client sends, and whether it closes its side after them or stays silent. */
  datatype Peer = Peer(stream: string, closes: bool)

  /** What a call of fill_buffer meets: the server is stopping, nothing comes in time or the read
      fails; or the socket is readable and the network has wish bytes ready. */
  datatype Event = Broken | Readable(wish: nat)

  /** What select and read give it for so much room: None is a time-out or an error, 0 the end of the
      stream. */
  function Incoming(peer: Peer, room: nat, got: nat, event: Event): (n: Option<nat>)
    requires got <= |peer.stream| && room > 0
    ensures n.Some? ==> n.value <= room && got + n.value <= |peer.stream|
    ensures n == Some(0) ==> got == |peer.stream| && peer.closes
  {
    var left := |peer.stream| - got;
    if event.Broken? || (left == 0 && !peer.closes) then None
    else if left == 0 then Some(0)
    else
      var n := if event.wish == 0 then 1 else event.wish;
      Some(if n <= left && n <= room then n else if left <= room then left else room)
  }

  /** How many bytes the call adds; None is its return value -1.  At the end of the stream it
      answers 0 as long as the buffer is not empty. */
  function Arrives(peer: Peer, total: nat, got: nat, event: Event): (n: Option<nat>)
    requires got <= |peer.stream| && total < BUFFER - 1
    ensures n.Some? ==> got + n.value <= |peer.stream| && total + n.value < BUFFER
  {
    var n := Incoming(peer, BUFFER - 1 - total, got, event);
    if n == Some(0) && total == 0 then None else n
  }

  /** How the inner loop of handle_client ends, if the events are enough for it. */
  datatype End = Request(length: nat) | Full | Failed | Unfinished

  datatype Waited = Waited(end: End, got: nat, used: nat)

  predicate Waiting(peer: Peer, done: nat, got: nat, events: seq<Event>, at: nat) {
    done <= got <= |peer.stream| && got - done < BUFFER && at <= |events|
  }

  /** The inner loop, with the stream from done to got in the buffer: what it answers, how far it
      read and which events it used. */
  function Wait(peer: Peer, done: nat, got: nat, events: seq<Event>, at: nat): (w: Waited)
    requires Waiting(peer, done, got, events, at)
    ensures Waiting(peer, done, w.got, events, w.used) && got <= w.got && at <= w.used
    ensures w.end.Request? ==> Complete(peer.stream[done..w.got]) == Some(w.end.length)
    decreases |events| - at
  {
    var c := Complete(peer.stream[done..got]);
    if c.Some? then Waited(Request(c.value), got, at)
    else if got - done == BUFFER - 1 then Waited(Full, got, at)
    else if at == |events| then Waited(Unfinished, got, at)
    else
      var n := Arrives(peer, got - done, got, events[at]);
      if n.None? then Waited(Failed, got, at + 1)
      else Wait(peer, done, got + n.value, events, at + 1)
  }

  predicate AllReadable(events: seq<Event>, at: nat) {
    forall k :: at <= k < |events| ==> events[k].Readable?
  }

  /** The end of the wait for the first request of s, when the socket is always readable. */
  function Ending(s: string, closes: bool): End {
    var n := First(s);
    if n.Some? then Request(n.value)
    else if |s| >= BUFFER - 1 then Full
    else if closes && s != "" then Unfinished
    else Failed
  }

  /** What arrived so far tells where the first request ends as soon as it is there, and when none
      will come. */
  lemma PrefixDecides(s: string, b: string)
    requires HeaderFramed(s) && b <= s && |b| < BUFFER
    ensures Complete(b).Some? ==> Complete(b) == First(s)
    ensures Complete(b).None? && (|b| == BUFFER - 1 || |b| == |s|) ==> First(s).None?
  {
    hide ByChunks, PlainHeader;
    PlainIsGood(s);
    CompleteStable(b, s);
    if |b| == |s| {
      assert b == s;
    }
  }

  lemma PlainIsGood(s: string)
    requires PlainHeader(s)
    ensures GoodHeader(s)
  {
  }

  /** The buffer holds the front of what is to come. */
  lemma HeldPrefix(stream: string, done: nat, got: nat)
    requires done <= got <= |stream|
    ensures stream[done..got] <= stream[done..]
  {
  }

  lemma PieceDecides(stream: string, done: nat, got: nat)
    requires done <= got <= |stream| && got - done < BUFFER && HeaderFramed(stream[done..])
    ensures var c := Complete(stream[done..got]); var n := First(stream[done..]);
            && (c.Some? ==> c == n)
            && (c.None? && (got - done == BUFFER - 1 || got == |stream|) ==> n.None?)
  {
    hide HeaderFramed, First, Complete;
    HeldPrefix(stream, done, got);
    PrefixDecides(stream[done..], stream[done..got]);
  }

  /** Whatever happens on the connection, a request is reported only if it is the first one. */
  lemma {:induction false} WaitSound(peer: Peer, done: nat, got: nat, events: seq<Event>, at: nat)
    requires Waiting(peer, done, got, events, at) && HeaderFramed(peer.stream[done..])
    ensures var w := Wait(peer, done, got, events, at);
            w.end.Request? ==> First(peer.stream[done..]) == Some(w.end.length)
  {
    hide Wait, HeaderFramed, First, Complete;
    var w := Wait(peer, done, got, events, at);
    PieceDecides(peer.stream, done, w.got);
  }

  /** A part of a stream that fits the buffer and holds no request holds none either, in any framing. */
  lemma PartIncomplete(s: string, b: string)
    requires GoodHeader(s) && First(s).None? && |s| < BUFFER && b <= s
    ensures Complete(b).None?
  {
    if Complete(b).Some? {
      assert b + s[|b|..] == s;
      ExtentStable(b, s);
      if ByChunks(b) {
        ChunkedTakesAll(b, s[|b|..]);
      } else {
        CompleteStable(b, s);
      }
    }
  }

  lemma NothingComes(peer: Peer, done: nat, got: nat)
    requires done <= got <= |peer.stream| && GoodHeader(peer.stream[done..])
    requires Ending(peer.stream[done..], peer.closes).Unfinished?
    ensures Complete(peer.stream[done..got]).None? && got - done < BUFFER - 1
  {
    hide GoodHeader, First, Complete;
    HeldPrefix(peer.stream, done, got);
    PartIncomplete(peer.stream[done..], peer.stream[done..got]);
  }

  /** A readable socket brings at least a byte until the stream is at its end. */
  lemma BytesCome(peer: Peer, total: nat, got: nat, event: Event)
    requires got <= |peer.stream| && total < BUFFER - 1 && event.Readable?
    ensures var n := Arrives(peer, total, got, event);
            && (got < |peer.stream| ==> n.Some? && n.value > 0)
            && (got == |peer.stream| ==> n == if peer.closes && total > 0 then Some(0) else None)
  {
  }

  /** What one turn of the loop finds, and where it goes on. */
  lemma WaitUnfolds(peer: Peer, done: nat, got: nat, events: seq<Event>, at: nat)
    requires Waiting(peer, done, got, events, at)
    ensures var w := Wait(peer, done, got, events, at);
            var c := Complete(peer.stream[done..got]);
            if c.Some? then w == Waited(Request(c.value), got, at)
            else if got - done == BUFFER - 1 then w == Waited(Full, got, at)
            else if at == |events| then w == Waited(Unfinished, got, at)
            else
              var n := Arrives(peer, got - done, got, events[at]);
              w == if n.None? then Waited(Failed, got, at + 1) else Wait(peer, done, got + n.value, events, at + 1)
  {
    hide Complete, Arrives;
  }

  /** A client that closes inside a request, however it is framed: the socket stays readable, nothing
      comes, and the loop does not end. */
  lemma {:induction false} WaitHangs(peer: Peer, done: nat, got: nat, events: seq<Event>, at: nat)
    requires Waiting(peer, done, got, events, at) && GoodHeader(peer.stream[done..])
    requires AllReadable(events, at) && Ending(peer.stream[done..], peer.closes).Unfinished?
    ensures Wait(peer, done, got, events, at).end.Unfinished?
    decreases |events| - at
  {
    hide GoodHeader, First, Complete, Arrives, Wait;
    NothingComes(peer, done, got);
    WaitUnfolds(peer, done, got, events, at);
    if at < |events| {
      assert events[at].Readable?;
      BytesCome(peer, got - done, got, events[at]);
      WaitHangs(peer, done, got + Arrives(peer, got - done, got, events[at]).value, events, at + 1);
    }
  }

  /** The client has closed, and a part of a request that the buffer can hold is all there is. */
  predicate Stalled(peer: Peer, done: nat, got: nat) {
    && peer.closes && done < got == |peer.stream| && got - done < BUFFER - 1
    && Complete(peer.stream[done..got]).None?
  }

  /** Such a buffer never changes. */
  lemma {:induction false} StaysStalled(peer: Peer, done: nat, got: nat, events: seq<Event>, at: nat)
    requires Waiting(peer, done, got, events, at) && AllReadable(events, at) && Stalled(peer, done, got)
    ensures var w := Wait(peer, done, got, events, at); w.end.Unfinished? && w.got == got
    decreases |events| - at
  {
    hide Complete, Arrives, Wait;
    WaitUnfolds(peer, done, got, events, at);
    if at < |events| {
      assert events[at].Readable?;
      BytesCome(peer, got - done, got, events[at]);
      StaysStalled(peer, done, got, events, at + 1);
    }
  }

  /** A wait has ended as it must on a readable socket: with a request, a full buffer, a stream at its end
      without a request begun, or not at all. */
  predicate Settled(peer: Peer, done: nat, w: Waited)
    requires done <= w.got <= |peer.stream|
  {
    match w.end
    case Request(n) => Complete(peer.stream[done..w.got]) == Some(n)
    case Full => w.got - done == BUFFER - 1 && Complete(peer.stream[done..w.got]).None?
    case Failed =>
      && w.got == |peer.stream| && w.got - done < BUFFER - 1 && !(peer.closes && done < w.got)
      && Complete(peer.stream[done..w.got]).None?
    case Unfinished => Stalled(peer, done, w.got)
  }

  /** One event per byte and one more are enough for that, in any framing. */
  lemma {:induction false} WaitSettles(peer: Peer, done: nat, got: nat, events: seq<Event>, at: nat)
    requires Waiting(peer, done, got, events, at)
    requires AllReadable(events, at) && |events| - at > |peer.stream| - got
    ensures var w := Wait(peer, done, got, events, at);
            Settled(peer, done, w) && (w.end.Request? ==> w.used - at <= w.got - got)
    decreases |events| - at
  {
    hide Complete, Arrives, Wait;
    WaitUnfolds(peer, done, got, events, at);
    if Complete(peer.stream[done..got]).None? && got - done < BUFFER - 1 {
      assert events[at].Readable?;
      BytesCome(peer, got - done, got, events[at]);
      if got < |peer.stream| {
        WaitSettles(peer, done, got + Arrives(peer, got - done, got, events[at]).value, events, at + 1);
      } else if peer.closes && done < got {
        StaysStalled(peer, done, got, events, at);
      }
    }
  }

  /** When the header frames the request, the wait ends on a readable socket with the first request, with
      a full buffer when the request does not fit it, and with the end of the stream only if no request
      was begun. */
  lemma WaitEnds(peer: Peer, done: nat, got: nat, events: seq<Event>, at: nat)
    requires Waiting(peer, done, got, events, at) && HeaderFramed(peer.stream[done..])
    requires AllReadable(events, at) && |events| - at > |peer.stream| - got
    ensures Wait(peer, done, got, events, at).end == Ending(peer.stream[done..], peer.closes)
  {
    hide HeaderFramed, First, Complete, Wait;
    var w := Wait(peer, done, got, events, at);
    WaitSettles(peer, done, got, events, at);
    PieceDecides(peer.stream, done, w.got);
  }

  /** The wait goes on for ever on a readable socket exactly when the client closes after a part of a
      request that fits the buffer, however the request is framed. */
  lemma HangsExactly(peer: Peer, done: nat, got: nat)
    requires Waiting(peer, done, got, [], 0) && GoodHeader(peer.stream[done..])
    ensures var s := peer.stream[done..];
            (forall events :: AllReadable(events, 0) ==> Wait(peer, done, got, events, 0).end.Unfinished?)
            <==> peer.closes && 0 < |s| < 81919 && First(s).None?
  {
    hide GoodHeader, First, Wait, Complete;
    var s := peer.stream[done..];
    if Ending(s, peer.closes).Unfinished? {
      forall events | AllReadable(events, 0)
        ensures Wait(peer, done, got, events, 0).end.Unfinished?
      {
        WaitHangs(peer, done, got, events, 0);
      }
    } else {
      var events := seq(|peer.stream| - got + 1, _ => Readable(1));
      assert AllReadable(events, 0);
      WaitSettles(peer, done, got, events, 0);
      if Wait(peer, done, got, events, 0).end.Unfinished? {
        StalledIsUnfinished(peer, done);
      }
    }
  }

  lemma StalledIsUnfinished(peer: Peer, done: nat)
    requires Stalled(peer, done, |peer.stream|)
    ensures Ending(peer.stream[done..], peer.closes).Unfinished?
  {
    hide Complete;
    assert peer.stream[done..|peer.stream|] == peer.stream[done..];
  }

  /** An upload in chunks that breaks off before its last byte. */
  lemma HangingUpload(events: seq<Event>)
    requires AllReadable(events, 0)
    ensures var upload := EXAMPLE[..49];
            ByChunks(upload) && Wait(Peer(upload, true), 0, 0, events, 0).end.Unfinished?
  {
    var peer := Peer(EXAMPLE[..49], true);
    BrokenExample();
    assert peer.stream[0..] == peer.stream;
    hide ByChunks, GoodHeader, Complete;
    WaitHangs(peer, 0, 0, events, 0);
  }

  /** Such a client: it sends "GET" and closes. */
  lemma HangingClient(events: seq<Event>)
    requires AllReadable(events, 0)
    ensures Wait(Peer("GET", true), 0, 0, events, 0).end.Unfinished?
  {
    var peer := Peer("GET", true);
    assert peer.stream[0..] == "GET" && HeaderEnd("GET").None?;
    WaitHangs(peer, 0, 0, events, 0);
  }

  // ----- handle_client -----

  /** How the connection ends when the socket is always readable. */
  function Outcome(s: string, goOn: string -> bool, closes: bool): End
    decreases |s|
  {
    var n := First(s);
    if n.Some? && KeepsOpen(s[..CutTo(n.value)], goOn) then Outcome(s[CutTo(n.value)..], goOn, closes)
    else Ending(s, closes)
  }

  /** Wherever a request may start, atoi is determined by the bytes of the stream. */
  predicate GoodEverywhere(s: string) {
    forall k :: 0 <= k <= |s| ==> GoodHeader(s[k..])
  }

  /** The socket stays readable long enough to see all of the stream and its end. */
  predicate Attentive(events: seq<Event>, stream: string) {
    AllReadable(events, 0) && |events| > |stream|
  }

  /** The buffer holds the stream from done to got. */
  predicate Holds(buf: array<char>, total: nat, stream: string, done: nat, got: nat)
    reads buf
  {
    && buf.Length == BUFFER && total < BUFFER
    && done <= got <= |stream| && total == got - done
    && buf[..total] == stream[done..got]
  }

  /** read puts the next n bytes of the stream behind those in the buffer. */
  method Receive(buf: array<char>, total: nat, stream: string, ghost done: nat, got: nat, n: nat)
    requires Holds(buf, total, stream, done, got) && total + n < BUFFER && got + n <= |stream|
    modifies buf
    ensures Holds(buf, total + n, stream, done, got + n)
  {
    var k: nat := 0;
    while k < n
      invariant k <= n && Holds(buf, total + k, stream, done, got + k)
    {
      buf[total + k] := stream[got + k];
      assert buf[..total + k + 1] == stream[done..got + k] + [stream[got + k]];
      k := k + 1;
    }
  }

  /** fill_buffer */
  method Fill(buf: array<char>, total: nat, peer: Peer, ghost done: nat, got: nat, event: Event)
    returns (n: Option<nat>)
    requires Holds(buf, total, peer.stream, done, got) && total < BUFFER - 1
    modifies buf
    ensures n == Arrives(peer, total, got, event)
    ensures n.None? ==> Holds(buf, total, peer.stream, done, got)
    ensures n.Some? ==> Holds(buf, total + n.value, peer.stream, done, got + n.value)
  {
    hide Incoming;
    n := Incoming(peer, BUFFER - 1 - total, got, event);
    if n.None? {
      return;
    }
    if n.value == 0 {
      return if total > 0 then Some(0) else None;
    }
    Receive(buf, total, peer.stream, done, got, n.value);
    buf[total + n.value] := '\0';
  }

  /** The header read so far is as good as the whole one. */
  lemma GoodSoFar(stream: string, done: nat, got: nat)
    requires done <= got <= |stream| && GoodHeader(stream[done..])
    ensures GoodHeader(stream[done..got])
  {
    HeldPrefix(stream, done, got);
    if HeaderEnd(stream[done..got]).Some? {
      ExtentStable(stream[done..got], stream[done..]);
    }
  }

  /** The inner loop: read until a whole request is in the buffer. */
  method Await(buf: array<char>, peer: Peer, ghost done: nat, total0: nat, got0: nat, events: seq<Event>, at: nat)
    returns (w: Waited, total: nat)
    requires Holds(buf, total0, peer.stream, done, got0) && GoodHeader(peer.stream[done..]) && at <= |events|
    modifies buf
    ensures Holds(buf, total, peer.stream, done, w.got)
    ensures w == Wait(peer, done, got0, events, at)
  {
    hide GoodHeader, Complete, Arrives, Wait;
    total := total0;
    var got, used := got0, at;
    while true
      invariant Holds(buf, total, peer.stream, done, got) && at <= used <= |events|
      invariant Wait(peer, done, got, events, used) == Wait(peer, done, got0, events, at)
      decreases |events| - used
    {
      GoodSoFar(peer.stream, done, got);
      WaitUnfolds(peer, done, got, events, used);
      var r := RequestComplete(buf, total);
      if r.Some? {
        return Waited(Request(r.value), got, used), total;
      }
      if total >= BUFFER - 1 {
        return Waited(Full, got, used), total;
      }
      if used == |events| {
        return Waited(Unfinished, got, used), total;
      }
      var n := Fill(buf, total, peer, done, got, events[used]);
      if n.None? {
        return Waited(Failed, got, used + 1), total;
      }
      total, got, used := total + n.value, got + n.value, used + 1;
    }
  }

  /** memmove(buf, buf + n, total - n) */
  method Slide(buf: array<char>, total: nat, n: nat)
    requires n <= total <= buf.Length
    modifies buf
    ensures buf[..total - n] == old(buf[n..total])
  {
    var k: nat := 0;
    while k < total - n
      invariant k <= total - n
      invariant forall j :: 0 <= j < k ==> buf[j] == old(buf[n + j])
      invariant forall j :: k <= j < buf.Length ==> buf[j] == old(buf[j])
    {
      buf[k] := buf[n + k];
      k := k + 1;
    }
  }

  /** Copy the first n bytes out of the buffer and close the gap. */
  method TakeOut(buf: array<char>, total: nat, stream: string, ghost done: nat, ghost got: nat, n: nat)
    returns (m: string)
    requires Holds(buf, total, stream, done, got) && n <= total
    modifies buf
    ensures m == stream[done..done + n] && Holds(buf, total - n, stream, done + n, got)
  {
    m := buf[..n];
    assert m == buf[..total][..n] == stream[done..got][..n] == stream[done..done + n];
    assert buf[n..total] == buf[..total][n..] == stream[done..got][n..] == stream[done + n..got];
    Slide(buf, total, n);
  }

  lemma {:induction false} ConcatLast(msgs: seq<string>, m: string)
    ensures Concat(msgs + [m]) == Concat(msgs) + m
  {
    if msgs == [] {
      assert [] + [m] == [m] && [m][1..] == [];
    } else {
      assert (msgs + [m])[1..] == msgs[1..] + [m];
      ConcatLast(msgs[1..], m);
    }
  }

  /** Extraction is on the way: the requests so far are the bytes before done, and the other ones are
      to come from there. */
  ghost predicate Open(peer: Peer, goOn: string -> bool, msgs: seq<string>, done: nat) {
    && done <= |peer.stream| && Concat(msgs) == peer.stream[..done] && GoodHeader(peer.stream[done..])
    && (WellFramed(peer.stream, goOn) ==>
        && WellFramed(peer.stream[done..], goOn)
        && Frames(peer.stream, goOn) == msgs + Frames(peer.stream[done..], goOn)
        && Outcome(peer.stream, goOn, peer.closes) == Outcome(peer.stream[done..], goOn, peer.closes))
  }

  /** Extraction is over. */
  ghost predicate Over(peer: Peer, goOn: string -> bool, events: seq<Event>, msgs: seq<string>, done: nat, end: End) {
    && done <= |peer.stream| && Concat(msgs) == peer.stream[..done]
    && (WellFramed(peer.stream, goOn) ==> msgs <= Frames(peer.stream, goOn))
    && (WellFramed(peer.stream, goOn) && Attentive(events, peer.stream) ==>
        msgs == Frames(peer.stream, goOn) && end == Outcome(peer.stream, goOn, peer.closes))
  }

  /** The events that are left show the rest of the stream. */
  predicate Watched(peer: Peer, events: seq<Event>, got: nat, at: nat) {
    Attentive(events, peer.stream) ==> |events| - at > |peer.stream| - got
  }

  /** A prefix of the stream is extended by what comes out next. */
  lemma NextPiece(stream: string, msgs: seq<string>, done: nat, k: nat)
    requires done + k <= |stream| && Concat(msgs) == stream[..done]
    ensures stream[done..][..k] == stream[done..done + k] && stream[done..][k..] == stream[done + k..]
    ensures Concat(msgs + [stream[done..done + k]]) == stream[..done + k]
  {
    ConcatLast(msgs, stream[done..done + k]);
  }

  lemma NextFrame(s: string, goOn: string -> bool, closes: bool, n: nat)
    requires WellFramed(s, goOn) && First(s) == Some(n) && KeepsOpen(s[..CutTo(n)], goOn)
    ensures var t := s[CutTo(n)..];
            && Frames(s, goOn) == [s[..CutTo(n)]] + Frames(t, goOn)
            && WellFramed(t, goOn) && GoodHeader(t) && Outcome(s, goOn, closes) == Outcome(t, goOn, closes)
  {
    hide First, ByChunks, CutTo, KeepsOpen, LengthField, LengthAt, GoodLength, HeaderEnd;
  }

  lemma LastFrame(s: string, goOn: string -> bool, closes: bool, n: nat)
    requires First(s) == Some(n) && !KeepsOpen(s[..CutTo(n)], goOn)
    ensures Frames(s, goOn) == [s[..CutTo(n)]] && Outcome(s, goOn, closes) == Request(n)
  {
  }

  lemma NoFrames(s: string, goOn: string -> bool, closes: bool)
    requires First(s).None?
    ensures Frames(s, goOn) == [] && Outcome(s, goOn, closes) == Ending(s, closes)
  {
  }

  lemma OpenMeans(peer: Peer, goOn: string -> bool, msgs: seq<string>, done: nat)
    requires Open(peer, goOn, msgs, done)
    ensures done <= |peer.stream| && Concat(msgs) == peer.stream[..done] && GoodHeader(peer.stream[done..])
    ensures WellFramed(peer.stream, goOn) ==>
              && WellFramed(peer.stream[done..], goOn)
              && Frames(peer.stream, goOn) == msgs + Frames(peer.stream[done..], goOn)
              && Outcome(peer.stream, goOn, peer.closes) == Outcome(peer.stream[done..], goOn, peer.closes)
  {
  }

  lemma NowOver(peer: Peer, goOn: string -> bool, events: seq<Event>, msgs: seq<string>, done: nat, end: End)
    requires done <= |peer.stream| && Concat(msgs) == peer.stream[..done]
    requires WellFramed(peer.stream, goOn) ==>
               msgs == Frames(peer.stream, goOn) && end == Outcome(peer.stream, goOn, peer.closes)
    ensures Over(peer, goOn, events, msgs, done, end)
  {
  }

  lemma Joined(msgs: seq<string>, m: string, rest: seq<string>)
    ensures msgs + ([m] + rest) == (msgs + [m]) + rest
  {
  }

  /** A request was found that keeps the connection. */
  lemma Found(peer: Peer, goOn: string -> bool, msgs: seq<string>, done: nat, n: nat)
    requires Open(peer, goOn, msgs, done) && WellFramed(peer.stream, goOn) && First(peer.stream[done..]) == Some(n)
    requires KeepsOpen(peer.stream[done..][..CutTo(n)], goOn)
    ensures done + CutTo(n) <= |peer.stream|
    ensures Open(peer, goOn, msgs + [peer.stream[done..done + CutTo(n)]], done + CutTo(n))
  {
    hide WellFramed, Frames, Outcome, First, GoodHeader, CutTo, Concat, KeepsOpen;
    var s, k := peer.stream[done..], CutTo(n);
    OpenMeans(peer, goOn, msgs, done);
    NextFrame(s, goOn, peer.closes, n);
    NextPiece(peer.stream, msgs, done, k);
    Joined(msgs, s[..k], Frames(s[k..], goOn));
  }

  /** One that ends it. */
  lemma FoundLast(peer: Peer, goOn: string -> bool, events: seq<Event>, msgs: seq<string>, done: nat, n: nat)
    requires Open(peer, goOn, msgs, done) && WellFramed(peer.stream, goOn) && First(peer.stream[done..]) == Some(n)
    requires !KeepsOpen(peer.stream[done..][..CutTo(n)], goOn)
    ensures done + CutTo(n) <= |peer.stream|
    ensures Over(peer, goOn, events, msgs + [peer.stream[done..done + CutTo(n)]], done + CutTo(n), Request(n))
  {
    hide WellFramed, Frames, Outcome, First, GoodHeader, CutTo, Concat, Attentive, Over, Open, KeepsOpen;
    var k := CutTo(n);
    OpenMeans(peer, goOn, msgs, done);
    LastFrame(peer.stream[done..], goOn, peer.closes, n);
    NextPiece(peer.stream, msgs, done, k);
    NowOver(peer, goOn, events, msgs + [peer.stream[done..done + k]], done + k, Request(n));
  }

  /** One in a stream that is not well framed. */
  lemma FoundAnyway(peer: Peer, goOn: string -> bool, events: seq<Event>, msgs: seq<string>, done: nat, k: nat, n: nat)
    requires Open(peer, goOn, msgs, done) && !WellFramed(peer.stream, goOn) && GoodEverywhere(peer.stream)
    requires done + k <= |peer.stream|
    ensures var m := peer.stream[done..done + k];
            Open(peer, goOn, msgs + [m], done + k) && Over(peer, goOn, events, msgs + [m], done + k, Request(n))
  {
    hide WellFramed, Frames, Outcome, GoodHeader, Concat;
    NextPiece(peer.stream, msgs, done, k);
  }

  /** No request was found. */
  lemma NotFound(peer: Peer, goOn: string -> bool, events: seq<Event>, msgs: seq<string>, done: nat, got: nat, at: nat,
                 w: Waited)
    requires Open(peer, goOn, msgs, done) && Waiting(peer, done, got, events, at) && Watched(peer, events, got, at)
    requires w == Wait(peer, done, got, events, at) && !w.end.Request?
    ensures Over(peer, goOn, events, msgs, done, w.end)
  {
    hide Wait, Frames, HeaderFramed, GoodHeader, Concat, First, Outcome;
    if WellFramed(peer.stream, goOn) && Attentive(events, peer.stream) {
      WaitEnds(peer, done, got, events, at);
      NoFrames(peer.stream[done..], goOn, peer.closes);
    }
  }

  /** What the wait found is the next request. */
  lemma FoundFirst(peer: Peer, goOn: string -> bool, msgs: seq<string>, done: nat, got: nat, events: seq<Event>,
                   at: nat, w: Waited)
    requires Open(peer, goOn, msgs, done) && Waiting(peer, done, got, events, at)
    requires w == Wait(peer, done, got, events, at) && w.end.Request?
    ensures done <= w.got <= |peer.stream| && CutTo(w.end.length) <= w.end.length <= w.got - done
    ensures WellFramed(peer.stream, goOn) ==> First(peer.stream[done..]) == Some(w.end.length)
  {
    hide Wait, HeaderFramed, First, Complete, GoodHeader, WellFramed, Open;
    OpenMeans(peer, goOn, msgs, done);
    if WellFramed(peer.stream, goOn) {
      FramedByHeader(peer.stream[done..], goOn);
      WaitSound(peer, done, got, events, at);
    }
  }

  /** It is taken out. */
  lemma Extract(peer: Peer, goOn: string -> bool, events: seq<Event>, msgs: seq<string>, done: nat, n: nat, k: nat)
    requires Open(peer, goOn, msgs, done) && k == CutTo(n) && done + k <= |peer.stream|
    requires WellFramed(peer.stream, goOn) || GoodEverywhere(peer.stream)
    requires WellFramed(peer.stream, goOn) ==> First(peer.stream[done..]) == Some(n)
    ensures var m := peer.stream[done..done + k];
            if KeepsOpen(m, goOn) then Open(peer, goOn, msgs + [m], done + k)
            else Over(peer, goOn, events, msgs + [m], done + k, Request(n))
  {
    hide First, GoodEverywhere, KeepsOpen, WellFramed, Open, Over, CutTo;
    if !WellFramed(peer.stream, goOn) {
      FoundAnyway(peer, goOn, events, msgs, done, k, n);
    } else {
      Slice(peer.stream, done, k);
      if KeepsOpen(peer.stream[done..done + k], goOn) {
        Found(peer, goOn, msgs, done, n);
      } else {
        FoundLast(peer, goOn, events, msgs, done, n);
      }
    }
  }

  lemma FramedByHeader(s: string, goOn: string -> bool)
    requires WellFramed(s, goOn)
    ensures HeaderFramed(s)
  {
  }

  lemma Slice(stream: string, done: nat, k: nat)
    requires done + k <= |stream|
    ensures stream[done..][..k] == stream[done..done + k]
  {
  }

  /** The events after a wait are enough for the next one, and show how this one ends. */
  lemma KeepsWatching(peer: Peer, events: seq<Event>, done: nat, got: nat, at: nat, w: Waited)
    requires Waiting(peer, done, got, events, at) && Watched(peer, events, got, at)
    requires w == Wait(peer, done, got, events, at)
    ensures w.end.Request? ==> Watched(peer, events, w.got, w.used)
    ensures Attentive(events, peer.stream) ==> Settled(peer, done, w)
  {
    hide Wait, Settled;
    if Attentive(events, peer.stream) {
      WaitSettles(peer, done, got, events, at);
    }
  }

  lemma Held(buf: array<char>, total: nat, stream: string, done: nat, got: nat)
    requires Holds(buf, total, stream, done, got)
    ensures total == got - done
  {
  }

  /** Copy the request that was found out of the buffer, cut to what req_raw holds. */
  method TakeFound(buf: array<char>, total0: nat, peer: Peer, ghost done: nat, ghost got: nat, n: nat,
                   ghost goOn: string -> bool, ghost events: seq<Event>, ghost msgs: seq<string>)
    returns (m: string, total: nat)
    requires Holds(buf, total0, peer.stream, done, got) && Open(peer, goOn, msgs, done)
    requires WellFramed(peer.stream, goOn) || GoodEverywhere(peer.stream)
    requires WellFramed(peer.stream, goOn) ==> First(peer.stream[done..]) == Some(n)
    requires CutTo(n) <= n <= got - done <= |peer.stream| - done
    modifies buf
    ensures Holds(buf, total, peer.stream, done + |m|, got)
    ensures if KeepsOpen(m, goOn) then Open(peer, goOn, msgs + [m], done + |m|)
            else Over(peer, goOn, events, msgs + [m], done + |m|, Request(n))
  {
    hide Open, Over, WellFramed, GoodEverywhere, First, CutTo, KeepsOpen, Holds;
    assert total0 == got - done by { Held(buf, total0, peer.stream, done, got); }
    var msgLen := CutTo(n);
    Extract(peer, goOn, events, msgs, done, n, msgLen);
    m := TakeOut(buf, total0, peer.stream, done, got, msgLen);
    total := total0 - msgLen;
  }

  /** The inner loop during the extraction. */
  method AwaitNext(buf: array<char>, total0: nat, peer: Peer, ghost done: nat, got0: nat, events: seq<Event>, at: nat,
                   ghost goOn: string -> bool, ghost msgs: seq<string>)
    returns (w: Waited, total: nat)
    requires Holds(buf, total0, peer.stream, done, got0) && Open(peer, goOn, msgs, done)
    requires at <= |events| && Watched(peer, events, got0, at)
    modifies buf
    ensures Holds(buf, total, peer.stream, done, w.got) && w.used <= |events|
    ensures Attentive(events, peer.stream) ==> Settled(peer, done, w)
    ensures done <= w.got <= |peer.stream|
    ensures w.end.Request? ==> Watched(peer, events, w.got, w.used)
    ensures w.end.Request? ==> CutTo(w.end.length) <= w.end.length <= w.got - done
    ensures w.end.Request? && WellFramed(peer.stream, goOn) ==> First(peer.stream[done..]) == Some(w.end.length)
    ensures !w.end.Request? ==> Over(peer, goOn, events, msgs, done, w.end)
  {
    hide Open, Over, Watched, WellFramed, GoodHeader, Wait, Complete, Settled, Attentive, First, CutTo;
    OpenMeans(peer, goOn, msgs, done);
    w, total := Await(buf, peer, done, total0, got0, events, at);
    KeepsWatching(peer, events, done, got0, at, w);
    if w.end.Request? {
      FoundFirst(peer, goOn, msgs, done, got0, events, at, w);
    } else {
      NotFound(peer, goOn, events, msgs, done, got0, at, w);
    }
  }

  /** One round of handle_client: no request, or the next one with the rest of the buffer moved up. */
  method Round(buf: array<char>, total0: nat, peer: Peer, ghost done: nat, got0: nat, events: seq<Event>, at: nat,
               goOn: string -> bool, ghost msgs: seq<string>)
    returns (m: Option<string>, more: bool, w: Waited, total: nat)
    requires Holds(buf, total0, peer.stream, done, got0) && Open(peer, goOn, msgs, done)
    requires at <= |events| && Watched(peer, events, got0, at)
    requires WellFramed(peer.stream, goOn) || GoodEverywhere(peer.stream)
    modifies buf
    ensures w.used <= |events| && done <= w.got <= |peer.stream| && (m.Some? <==> w.end.Request?)
    ensures Attentive(events, peer.stream) ==> Settled(peer, done, w)
    ensures m.None? ==> !more && Holds(buf, total, peer.stream, done, w.got)
    ensures m.None? ==> Over(peer, goOn, events, msgs, done, w.end)
    ensures m.Some? ==> Holds(buf, total, peer.stream, done + |m.value|, w.got) && more == KeepsOpen(m.value, goOn)
    ensures m.Some? && more ==> Open(peer, goOn, msgs + [m.value], done + |m.value|)
    ensures m.Some? ==> Watched(peer, events, w.got, w.used)
    ensures m.Some? && !more ==> Over(peer, goOn, events, msgs + [m.value], done + |m.value|, w.end)
  {
    hide Open, Over, Watched, WellFramed, GoodEverywhere, Settled, Attentive, KeepsOpen, First, CutTo, Holds;
    w, total := AwaitNext(buf, total0, peer, done, got0, events, at, goOn, msgs);
    if !w.end.Request? {
      return None, false, w, total;
    }
    var reqRaw;
    reqRaw, total := TakeFound(buf, total, peer, done, w.got, w.end.length, goOn, events, msgs);
    return Some(reqRaw), KeepsOpen(reqRaw, goOn), w, total;
  }

  lemma AtStart(peer: Peer, goOn: string -> bool, events: seq<Event>)
    requires WellFramed(peer.stream, goOn) || GoodEverywhere(peer.stream)
    ensures Open(peer, goOn, [], 0) && Watched(peer, events, 0, 0)
  {
    assert peer.stream[0..] == peer.stream;
    assert [] + Frames(peer.stream, goOn) == Frames(peer.stream, goOn);
  }

  lemma ItIsOver(peer: Peer, goOn: string -> bool, events: seq<Event>, msgs: seq<string>, done: nat, end: End)
    requires Over(peer, goOn, events, msgs, done, end)
    ensures done <= |peer.stream| && Concat(msgs) == peer.stream[..done]
    ensures WellFramed(peer.stream, goOn) ==> msgs <= Frames(peer.stream, goOn)
    ensures WellFramed(peer.stream, goOn) && Attentive(events, peer.stream) ==>
              msgs == Frames(peer.stream, goOn) && end == Outcome(peer.stream, goOn, peer.closes)
  {
  }

  predicate AllKeepOpen(msgs: seq<string>, goOn: string -> bool) {
    forall m :: m in msgs ==> KeepsOpen(m, goOn)
  }

  /** When the connection goes on for ever. */
  ghost predicate EndsUnlessStalled(peer: Peer, goOn: string -> bool, events: seq<Event>, msgs: seq<string>, done: nat,
                                    got: nat, end: End)
  {
    && done <= got <= |peer.stream|
    && (Attentive(events, peer.stream) ==>
        (end.Unfinished? <==> Stalled(peer, done, got) && AllKeepOpen(msgs, goOn)))
  }

  lemma EndsByWait(peer: Peer, goOn: string -> bool, events: seq<Event>, msgs: seq<string>, done: nat, w: Waited)
    requires done <= w.got <= |peer.stream| && !w.end.Request? && AllKeepOpen(msgs, goOn)
    requires Attentive(events, peer.stream) ==> Settled(peer, done, w)
    ensures EndsUnlessStalled(peer, goOn, events, msgs, done, w.got, w.end)
  {
    hide AllKeepOpen, Complete, Attentive;
  }

  lemma EndsByRequest(peer: Peer, goOn: string -> bool, events: seq<Event>, msgs: seq<string>, m: string, done: nat,
                      got: nat, end: End)
    requires done <= got <= |peer.stream| && end.Request? && !KeepsOpen(m, goOn)
    ensures EndsUnlessStalled(peer, goOn, events, msgs + [m], done, got, end)
  {
    hide Stalled, Attentive, KeepsOpen;
    assert m in msgs + [m];
  }

  /** handle_client.  The requests and the bytes left in the buffer are the bytes received, whatever
      happens on the connection.  When the headers frame the requests, these are the first ones of the
      stream however it is cut into reads; and on a socket that stays readable they are all of them,
      and the stream alone tells how the connection ends.  In any framing the loop goes on for ever on a
      socket that stays readable exactly when the client has closed and a part of a request is left. */
  method HandleClient(peer: Peer, events: seq<Event>, goOn: string -> bool)
    returns (msgs: seq<string>, left: string, got: nat, end: End)
    requires WellFramed(peer.stream, goOn) || GoodEverywhere(peer.stream)
    ensures got <= |peer.stream| && Concat(msgs) + left == peer.stream[..got]
    ensures WellFramed(peer.stream, goOn) ==> msgs <= Frames(peer.stream, goOn)
    ensures WellFramed(peer.stream, goOn) && Attentive(events, peer.stream) ==>
              msgs == Frames(peer.stream, goOn) && end == Outcome(peer.stream, goOn, peer.closes)
    ensures Attentive(events, peer.stream) ==>
              (end.Unfinished? <==>
                && peer.closes && got == |peer.stream| && 0 < |left| < BUFFER - 1 && Complete(left).None?
                && AllKeepOpen(msgs, goOn))
  {
    hide Open, Over, WellFramed, GoodEverywhere, Watched, Attentive, Outcome, Frames, Concat;
    hide Settled, KeepsOpen, Complete, EndsUnlessStalled;
    AtStart(peer, goOn, events);
    var buf := new char[BUFFER];
    var total: nat := 0;
    var keepAlive := true;
    ghost var done: nat := 0;
    var used: nat := 0;
    msgs, got, end := [], 0, Unfinished;
    while keepAlive
      invariant Holds(buf, total, peer.stream, done, got)
      invariant keepAlive ==> Open(peer, goOn, msgs, done) && used <= |events| && Watched(peer, events, got, used)
      invariant keepAlive ==> AllKeepOpen(msgs, goOn)
      invariant !keepAlive ==> Over(peer, goOn, events, msgs, done, end)
      invariant !keepAlive ==> EndsUnlessStalled(peer, goOn, events, msgs, done, got, end)
      decreases keepAlive, |peer.stream| - done
    {
      var m, w;
      m, keepAlive, w, total := Round(buf, total, peer, done, got, events, used, goOn, msgs);
      got, used, end := w.got, w.used, w.end;
      if m.Some? {
        if !keepAlive {
          EndsByRequest(peer, goOn, events, msgs, m.value, done + |m.value|, got, end);
        }
        msgs := msgs + [m.value];
        done := done + |m.value|;
      } else {
        EndsByWait(peer, goOn, events, msgs, done, w);
      }
    }
    left := buf[..total];
    ItIsOver(peer, goOn, events, msgs, done, end);
    WhenItStalls(peer, goOn, events, msgs, done, got, end, left);
    assert peer.stream[..done] + peer.stream[done..got] == peer.stream[..got];
  }

  lemma WhenItStalls(peer: Peer, goOn: string -> bool, events: seq<Event>, msgs: seq<string>, done: nat, got: nat,
                     end: End, left: string)
    requires EndsUnlessStalled(peer, goOn, events, msgs, done, got, end) && left == peer.stream[done..got]
    ensures Attentive(events, peer.stream) ==>
              (end.Unfinished? <==>
                && peer.closes && got == |peer.stream| && 0 < |left| < BUFFER - 1 && Complete(left).None?
                && AllKeepOpen(msgs, goOn))
  {
    hide Complete, Attentive, AllKeepOpen;
  }

  /** The loop of a well framed connection never ends exactly when, after requests that all keep it open,
      the client closes with a part of a request sent that the buffer can hold. */
  lemma {:induction false} NeverEnds(s: string, goOn: string -> bool, closes: bool)
    ensures Outcome(s, goOn, closes).Unfinished? <==>
              && closes && 0 < |Rest(s, goOn)| < BUFFER - 1 && First(Rest(s, goOn)).None?
              && AllKeepOpen(Frames(s, goOn), goOn)
    decreases |s|
  {
    hide First, CutTo, KeepsOpen, Frames, Rest, Outcome, AllKeepOpen;
    var n := First(s);
    if n.None? {
      NoFrames(s, goOn, closes);
      NoFrame(s, goOn);
      AllOfNone(goOn);
    } else {
      var k := CutTo(n.value);
      var m, t := s[..k], s[k..];
      FrontFrame(s, goOn, n.value);
      AllOfMore(m, if KeepsOpen(m, goOn) then Frames(t, goOn) else [], goOn);
      if KeepsOpen(m, goOn) {
        NeverEnds(t, goOn, closes);
        GoesOn(s, goOn, closes, n.value);
      } else {
        LastFrame(s, goOn, closes, n.value);
      }
    }
  }

  lemma GoesOn(s: string, goOn: string -> bool, closes: bool, n: nat)
    requires First(s) == Some(n) && KeepsOpen(s[..CutTo(n)], goOn)
    ensures Outcome(s, goOn, closes) == Outcome(s[CutTo(n)..], goOn, closes)
  {
  }

  lemma AllOfNone(goOn: string -> bool)
    ensures AllKeepOpen([], goOn)
  {
  }

  lemma AllOfMore(m: string, msgs: seq<string>, goOn: string -> bool)
    ensures AllKeepOpen([m] + msgs, goOn) <==> KeepsOpen(m, goOn) && AllKeepOpen(msgs, goOn)
  {
    hide KeepsOpen;
    assert forall x :: x in [m] + msgs <==> x == m || x in msgs;
  }
}
