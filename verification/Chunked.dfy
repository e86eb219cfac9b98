/** The chunked-body decoder of c/src/http.c, and that it inverts the chunked coding of section 7.1
    of RFC 9112. */
module Chunked {
  import opened Ctype
  import opened Decimal
  import opened Wrappers
  import opened Numerals
  import opened Framing

  // ----- strtoul with base 16 -----

  function HexOf(c: char): (v: Option<nat>)
    ensures v.Some? ==> v.value < 16
  {
    if '0' <= c <= '9' then Some(c as int - '0' as int)
    else if 'a' <= c <= 'f' then Some(c as int - 'a' as int + 10)
    else if 'A' <= c <= 'F' then Some(c as int - 'A' as int + 10)
    else None
  }

  /** The digits are those everybody writes, small or capital. */
  lemma HexDigits(c: char, v: nat)
    ensures HexOf(c) == Some(v) <==> v < 16 && (c == "0123456789abcdef"[v] || c == "0123456789ABCDEF"[v])
  {
  }

  /** The text after an optional plus sign and an optional 0x. */
  function SkipPrefix(t: string): string {
    var u := if t != "" && t[0] == '+' then t[1..] else t;
    if |u| >= 2 && u[0] == '0' && (u[1] == 'x' || u[1] == 'X') then u[2..] else u
  }

  function HexRun(t: string): seq<nat> {
    if t != "" && HexOf(t[0]).Some? then [HexOf(t[0]).value] + HexRun(t[1..]) else []
  }

  /** A chunk size without a minus sign; strtoul would turn a signed one into a number near the top
      of its range, and sizes like that are not part of this model. */
  predicate Unsigned(t: string) {
    var u := SkipWhite(t);
    u == "" || u[0] != '-'
  }

  /** The chunk size a line states. */
  function SizeOf(t: string): nat {
    Value(R16, HexRun(SkipPrefix(SkipWhite(t))))
  }

  lemma {:induction false} RunStops(digits: string, rest: string)
    requires forall i :: 0 <= i < |digits| ==> HexOf(digits[i]).Some?
    requires rest == "" || HexOf(rest[0]).None?
    ensures HexRun(digits + rest) == HexRun(digits)
  {
    if digits == "" {
      assert digits + rest == rest;
    } else {
      assert (digits + rest)[1..] == digits[1..] + rest;
      RunStops(digits[1..], rest);
    }
  }

  lemma DigitFirst(t: string)
    requires t != "" && HexOf(t[0]).Some?
    ensures SkipWhite(t) == t && Unsigned(t) && t[0] != '+'
  {
  }

  lemma PrefixSkipped(u: string, sign: string, zeroX: string)
    requires (sign == "" || sign == "+") && (zeroX == "0x" || zeroX == "0X")
    ensures SkipPrefix(sign + zeroX + u) == u
  {
    var t := sign + zeroX + u;
    assert t == if sign == "" then zeroX + u else "+" + (zeroX + u);
    assert (zeroX + u)[2..] == u;
    if sign == "+" {
      assert t[1..] == zeroX + u;
    }
  }

  lemma NoPrefix(u: string, sign: string)
    requires (sign == "" || sign == "+") && u != "" && u[0] != '+' && !(|u| > 1 && u[0] == '0' && u[1] in "xX")
    ensures SkipPrefix(sign + u) == u
  {
    assert sign == "+" ==> (sign + u)[1..] == u;
    assert sign == "" ==> sign + u == u;
  }

  lemma SizeAfter(white: string, t: string, digits: string, rest: string)
    requires White(white) && t != "" && !IsSpace(t[0]) && t[0] != '-' && SkipPrefix(t) == digits + rest
    requires forall i :: 0 <= i < |digits| ==> HexOf(digits[i]).Some?
    requires rest == "" || HexOf(rest[0]).None?
    ensures Unsigned(white + t) && SizeOf(white + t) == Value(R16, HexRun(digits))
  {
    hide HexRun, Value, SkipPrefix, SkipWhite;
    WhiteSkipped(white, t);
    RunStops(digits, rest);
  }

  lemma PrefixOf(sign: string, zeroX: string, digits: string, rest: string)
    requires (sign == "" || sign == "+") && (zeroX == "" || zeroX == "0x" || zeroX == "0X")
    requires digits != "" && forall i :: 0 <= i < |digits| ==> HexOf(digits[i]).Some?
    requires rest == "" || rest[0] !in "xX"
    ensures SkipPrefix(sign + zeroX + (digits + rest)) == digits + rest
  {
    hide SkipPrefix;
    var u := digits + rest;
    if zeroX == "" {
      assert sign + zeroX + u == sign + u;
      assert |u| > 1 ==> u[1] == if |digits| > 1 then digits[1] else rest[0];
      DigitFirst(digits);
      NotX(u);
      NoPrefix(u, sign);
    } else {
      PrefixSkipped(u, sign, zeroX);
    }
  }

  lemma FirstOfLine(sign: string, zeroX: string, u: string)
    requires (sign == "" || sign == "+") && (zeroX == "" || zeroX == "0x" || zeroX == "0X")
    requires u != "" && HexOf(u[0]).Some?
    ensures var t := sign + zeroX + u; t != "" && !IsSpace(t[0]) && t[0] != '-'
  {
    var t := sign + zeroX + u;
    assert t[0] == if sign != "" then '+' else if zeroX != "" then '0' else u[0];
    NotWhite(t[0]);
  }

  /** What strtoul makes of a size line: white space, a plus sign and 0x may come first, and whatever
      follows the digits (a chunk extension, say) is not looked at. */
  lemma SizeSpelled(white: string, sign: string, zeroX: string, digits: string, rest: string)
    requires White(white) && (sign == "" || sign == "+") && (zeroX == "" || zeroX == "0x" || zeroX == "0X")
    requires digits != "" && forall i :: 0 <= i < |digits| ==> HexOf(digits[i]).Some?
    requires rest == "" || (HexOf(rest[0]).None? && rest[0] !in "xX")
    ensures var t := white + (sign + zeroX + (digits + rest));
            Unsigned(t) && SizeOf(t) == Value(R16, HexRun(digits))
  {
    hide HexRun, Value, SkipPrefix, SkipWhite, SizeOf, Unsigned, HexOf;
    assert (digits + rest)[0] == digits[0];
    FirstOfLine(sign, zeroX, digits + rest);
    PrefixOf(sign, zeroX, digits, rest);
    SizeAfter(white, sign + zeroX + (digits + rest), digits, rest);
  }

  lemma NotWhite(c: char)
    requires c == '+' || HexOf(c).Some?
    ensures !IsSpace(c) && c != '-'
  {
  }

  lemma NotX(u: string)
    requires |u| > 1 ==> HexOf(u[1]).Some? || u[1] !in "xX"
    ensures !(|u| > 1 && u[0] == '0' && u[1] in "xX")
  {
  }

  // ----- The decoder as a function -----

  predicate BreakAt(raw: string, i: nat) {
    i + 1 < |raw| && raw[i] == '\r' && raw[i + 1] == '\n'
  }

  /** The first line break at or after i. */
  function LineEnd(raw: string, i: nat): (e: Option<nat>)
    ensures e.Some? ==> i <= e.value && BreakAt(raw, e.value) && forall j :: i <= j < e.value ==> !BreakAt(raw, j)
    ensures e.None? ==> forall j :: i <= j ==> !BreakAt(raw, j)
    decreases |raw| - i
  {
    if i + 1 >= |raw| then None else if BreakAt(raw, i) then Some(i) else LineEnd(raw, i + 1)
  }

  /** A chunk at pos: where its data is. */
  datatype Piece = Nothing | Data(from: nat, size: nat)

  /** What stands at pos, if it fits into the room left in the output: Nothing at the last chunk, at
      the end of the bytes, at a line that is no chunk size, or when there is no room. */
  function PieceAt(raw: string, pos: nat, room: nat): (p: Piece)
    ensures p.Data? ==> pos < p.from && p.size > 0 && p.from + p.size <= |raw| && p.size < room
  {
    var e := LineEnd(raw, pos);
    if pos >= |raw| || e.None? then Nothing
    else
      var len := e.value - pos;
      if len == 0 || len >= 16 then Nothing
      else
        var n := SizeOf(raw[pos..e.value]);
        if n == 0 || e.value + 2 + n > |raw| || n >= room then Nothing
        else Data(e.value + 2, n)
  }

  /** The place after a chunk's data, and after the line break that follows it if there is one. */
  function After(raw: string, p: Piece): (q: nat)
    requires p.Data?
  {
    var q := p.from + p.size;
    if BreakAt(raw, q) then q + 2 else q
  }

  function Decoded(raw: string, pos: nat, room: nat): (body: string)
    ensures room > 0 ==> |body| < room
    ensures room == 0 ==> body == ""
    decreases |raw| - pos
  {
    var p := PieceAt(raw, pos, room);
    if p.Nothing? then ""
    else raw[p.from..p.from + p.size] + Decoded(raw, After(raw, p), room - p.size)
  }

  /** No chunk-size line the decoder looks at carries a minus sign. */
  predicate Decodable(raw: string, pos: nat, room: nat)
    decreases |raw| - pos
  {
    var e := LineEnd(raw, pos);
    var p := PieceAt(raw, pos, room);
    && (e.Some? && 0 < e.value - pos < 16 ==> Unsigned(raw[pos..e.value]))
    && (p.Data? ==> Decodable(raw, After(raw, p), room - p.size))
  }

  // ----- The coding -----

  datatype Chunk = Chunk(size: string, data: string)

  /** A non-empty chunk whose size is spelled in at most 15 hexadecimal digits, in any case and with
      any number of leading zeros. */
  predicate GoodChunk(c: Chunk) {
    && 1 <= |c.size| <= 15 && (forall i :: 0 <= i < |c.size| ==> HexOf(c.size[i]).Some?)
    && Value(R16, HexRun(c.size)) == |c.data| > 0
  }

  function Encoded(cs: seq<Chunk>): string {
    if cs == [] then "0\r\n\r\n" else cs[0].size + CRLF + cs[0].data + CRLF + Encoded(cs[1..])
  }

  function Concat(cs: seq<Chunk>): string {
    if cs == [] then "" else cs[0].data + Concat(cs[1..])
  }

  lemma HexIsClean(t: string)
    requires forall i :: 0 <= i < |t| ==> HexOf(t[i]).Some?
    ensures SkipWhite(t) == t && SkipPrefix(t) == t && Unsigned(t)
    ensures forall i :: 0 <= i < |t| ==> t[i] != '\r'
  {
  }

  /** A line at pos that consists of hexadecimal digits ends where they end. */
  lemma {:induction false} LineEndIs(raw: string, pos: nat, i: nat, e: nat)
    requires pos <= i <= e && BreakAt(raw, e) && forall j :: pos <= j < e ==> raw[j] != '\r'
    ensures LineEnd(raw, i) == Some(e)
    decreases e - i
  {
    if i < e {
      LineEndIs(raw, pos, i + 1, e);
    }
  }

  /** The size line and the data of a chunk stand at pos, and rest behind them. */
  predicate Stands(raw: string, pos: nat, c: Chunk, rest: string) {
    pos <= |raw| && raw[pos..] == c.size + CRLF + c.data + rest
  }

  /** Where the parts of an encoded chunk lie. */
  lemma Layout(raw: string, pos: nat, c: Chunk, rest: string)
    requires Stands(raw, pos, c, rest)
    ensures var e := pos + |c.size|; var q := e + 2 + |c.data|;
            && q <= |raw| && raw[pos..e] == c.size && BreakAt(raw, e) && raw[e + 2..q] == c.data && raw[q..] == rest
  {
    var s := raw[pos..];
    var k, m := |c.size|, |c.size| + 2 + |c.data|;
    assert s[..k] == c.size && s[k] == '\r' && s[k + 1] == '\n';
    assert s[k + 2..m] == c.data && s[m..] == rest;
    assert raw[pos..pos + k] == s[..k];
    assert raw[pos + k + 2..pos + m] == s[k + 2..m];
    assert raw[pos + m..] == s[m..];
    assert raw[pos + k] == s[k] && raw[pos + k + 1] == s[k + 1];
  }

  /** A line of at most 15 characters that spells the size of the data. */
  predicate Announces(c: Chunk) {
    1 <= |c.size| <= 15 && '\r' !in c.size && SizeOf(c.size) == |c.data| > 0
  }

  lemma GoodAnnounces(c: Chunk)
    requires GoodChunk(c)
    ensures Announces(c)
  {
    HexIsClean(c.size);
  }

  lemma FindsLine(raw: string, pos: nat, t: string)
    requires '\r' !in t
    requires pos + |t| <= |raw| && raw[pos..pos + |t|] == t && BreakAt(raw, pos + |t|)
    ensures LineEnd(raw, pos) == Some(pos + |t|)
  {
    assert forall j :: pos <= j < pos + |t| ==> raw[j] == t[j - pos];
    LineEndIs(raw, pos, pos, pos + |t|);
  }

  /** The decoder finds a chunk that stands at pos if there is room for it. */
  lemma FindsChunk(raw: string, pos: nat, c: Chunk, rest: string, room: nat)
    requires Announces(c) && Stands(raw, pos, c, rest)
    ensures var e := pos + |c.size|; var q := e + 2 + |c.data|;
            && q <= |raw| && LineEnd(raw, pos) == Some(e) && raw[pos..e] == c.size
            && raw[e + 2..q] == c.data && raw[q..] == rest
            && PieceAt(raw, pos, room) == if |c.data| < room then Data(e + 2, |c.data|) else Nothing
  {
    hide LineEnd, SizeOf, Stands;
    Layout(raw, pos, c, rest);
    FindsLine(raw, pos, c.size);
  }

  /** A line break behind the data is skipped; there need not be one. */
  lemma SkipsBreak(raw: string, p: Piece, brk: string, rest: string)
    requires p.Data? && p.from + p.size <= |raw| && raw[p.from + p.size..] == brk + rest
    requires brk == CRLF || (brk == "" && !(CRLF <= rest))
    ensures After(raw, p) <= |raw| && raw[After(raw, p)..] == rest
  {
    var q := p.from + p.size;
    var s := raw[q..];
    if brk == CRLF {
      assert s[0] == raw[q] == '\r' && s[1] == raw[q + 1] == '\n';
      assert raw[q + 2..] == s[2..] == rest;
    } else {
      assert s == rest;
      assert BreakAt(raw, q) ==> CRLF <= s;
    }
  }

  lemma FindsLast(raw: string, pos: nat, tail: string, room: nat)
    requires pos <= |raw| && raw[pos..] == Encoded([]) + tail
    ensures PieceAt(raw, pos, room) == Nothing && LineEnd(raw, pos) == Some(pos + 1)
    ensures raw[pos..pos + 1] == "0"
  {
    var s := raw[pos..];
    assert raw[pos] == s[0] == '0' && raw[pos + 1] == s[1] == '\r' && raw[pos + 2] == s[2] == '\n';
    LineEndIs(raw, pos, pos, pos + 1);
    assert raw[pos..pos + 1] == "0";
    assert HexRun("0") == [0] + HexRun("0"[1..]);
    assert Value(R16, [0]) == 0;
    assert SizeOf("0") == 0;
  }

  /** The chunks in front that an output of this size can hold with its NUL. */
  function Fitting(cs: seq<Chunk>, room: nat): seq<Chunk> {
    if cs == [] || |cs[0].data| >= room then [] else [cs[0]] + Fitting(cs[1..], room - |cs[0].data|)
  }

  lemma {:induction false} AllFit(cs: seq<Chunk>, room: nat)
    requires |Concat(cs)| < room
    ensures Fitting(cs, room) == cs
  {
    if cs != [] {
      AllFit(cs[1..], room - |cs[0].data|);
    }
  }

  lemma HeadStands(raw: string, pos: nat, cs: seq<Chunk>, tail: string)
    requires cs != [] && pos <= |raw| && raw[pos..] == Encoded(cs) + tail
    ensures Stands(raw, pos, cs[0], CRLF + (Encoded(cs[1..]) + tail)) && Concat(cs) == cs[0].data + Concat(cs[1..])
  {
    var c, rest := cs[0], Encoded(cs[1..]) + tail;
    Reassociated(c.size + CRLF + c.data, CRLF, rest);
    Reassociated(c.size + CRLF + c.data + CRLF, Encoded(cs[1..]), tail);
  }

  /** What the decoder finds of the first chunk. */
  lemma HeadFound(raw: string, pos: nat, cs: seq<Chunk>, tail: string, room: nat)
    requires cs != [] && GoodChunk(cs[0]) && pos <= |raw| && raw[pos..] == Encoded(cs) + tail
    ensures var e, n := pos + |cs[0].size|, |cs[0].data|; var p := Data(e + 2, n);
            && LineEnd(raw, pos) == Some(e) && e + 2 + n <= |raw| && Unsigned(raw[pos..e])
            && PieceAt(raw, pos, room) == (if n < room then p else Nothing)
            && raw[p.from..p.from + n] == cs[0].data
            && After(raw, p) <= |raw| && raw[After(raw, p)..] == Encoded(cs[1..]) + tail
    ensures Concat(cs) == cs[0].data + Concat(cs[1..])
  {
    hide PieceAt, LineEnd, After, Unsigned, GoodChunk, Announces, Stands, Encoded, Concat;
    var c, rest := cs[0], Encoded(cs[1..]) + tail;
    HeadStands(raw, pos, cs, tail);
    SizeIsHex(c);
    MinusFree(c.size);
    GoodAnnounces(c);
    FindsChunk(raw, pos, c, CRLF + rest, room);
    SkipsBreak(raw, Data(pos + |c.size| + 2, |c.data|), CRLF, rest);
  }

  /** decode(encode(chunks)) is the data of the chunks in front that fit, one after the other, whatever
      surrounds the body; when the output is large enough these are all of them. */
  lemma {:induction false} DecodeInverts(raw: string, pos: nat, cs: seq<Chunk>, tail: string, room: nat)
    requires forall i :: 0 <= i < |cs| ==> GoodChunk(cs[i])
    requires pos <= |raw| && raw[pos..] == Encoded(cs) + tail
    ensures Decodable(raw, pos, room) && Decoded(raw, pos, room) == Concat(Fitting(cs, room))
    ensures |Concat(cs)| < room ==> Decoded(raw, pos, room) == Concat(cs)
    decreases |cs|
  {
    hide PieceAt, LineEnd, After, Unsigned, Decoded, Decodable, GoodChunk, Fitting, Concat, Encoded;
    if |Concat(cs)| < room {
      AllFit(cs, room);
    }
    if cs == [] {
      FindsLast(raw, pos, tail, room);
      MinusFree("0");
      DecodeOne(raw, pos, room, pos + 1, Nothing);
      FitsNone(cs, room);
    } else {
      var c := cs[0];
      HeadFound(raw, pos, cs, tail, room);
      if |c.data| >= room {
        DecodeOne(raw, pos, room, pos + |c.size|, Nothing);
        FitsNone(cs, room);
      } else {
        var p := Data(pos + |c.size| + 2, |c.data|);
        DecodeInverts(raw, After(raw, p), cs[1..], tail, room - |c.data|);
        DecodeOne(raw, pos, room, pos + |c.size|, p);
        FitsFirst(cs, room);
      }
    }
  }

  lemma FitsNone(cs: seq<Chunk>, room: nat)
    requires cs == [] || |cs[0].data| >= room
    ensures Concat(Fitting(cs, room)) == ""
  {
  }

  lemma FitsFirst(cs: seq<Chunk>, room: nat)
    requires cs != [] && |cs[0].data| < room
    ensures Concat(Fitting(cs, room)) == cs[0].data + Concat(Fitting(cs[1..], room - |cs[0].data|))
  {
    assert ([cs[0]] + Fitting(cs[1..], room - |cs[0].data|))[1..] == Fitting(cs[1..], room - |cs[0].data|);
  }

  lemma Reassociated(a: string, b: string, c: string)
    ensures a + b + c == a + (b + c)
  {
  }

  lemma SizeIsHex(c: Chunk)
    requires GoodChunk(c)
    ensures forall i :: 0 <= i < |c.size| ==> HexOf(c.size[i]).Some?
  {
  }

  /** One step of the decoder. */
  lemma DecodeOne(raw: string, pos: nat, room: nat, e: nat, p: Piece)
    requires LineEnd(raw, pos) == Some(e) && e <= |raw| && Unsigned(raw[pos..e]) && PieceAt(raw, pos, room) == p
    requires p.Data? ==> Decodable(raw, After(raw, p), room - p.size)
    ensures Decodable(raw, pos, room)
    ensures Decoded(raw, pos, room) ==
            if p.Nothing? then ""
            else raw[p.from..p.from + p.size] + Decoded(raw, After(raw, p), room - p.size)
  {
    hide PieceAt, LineEnd, Unsigned;
  }

  lemma ChunkStands(raw: string, pos: nat, c: Chunk, brk: string, rest: string)
    requires pos <= |raw| && raw[pos..] == c.size + CRLF + c.data + brk + rest
    ensures Stands(raw, pos, c, brk + rest)
  {
    Reassociated(c.size + CRLF + c.data, brk, rest);
  }

  /** The decoder does not insist on the line break behind a chunk, nor on anything behind its data. */
  lemma ChunkIsTaken(raw: string, pos: nat, c: Chunk, brk: string, rest: string, room: nat)
    requires Announces(c) && pos <= |raw| && raw[pos..] == c.size + CRLF + c.data + brk + rest
    requires brk == CRLF || (brk == "" && !(CRLF <= rest))
    ensures Decoded(raw, pos, room) ==
            if |c.data| < room then c.data + Decoded(raw, |raw| - |rest|, room - |c.data|) else ""
  {
    hide PieceAt, LineEnd, After, Announces, Stands;
    ChunkStands(raw, pos, c, brk, rest);
    FindsChunk(raw, pos, c, brk + rest, room);
    if |c.data| < room {
      SkipsBreak(raw, Data(pos + |c.size| + 2, |c.data|), brk, rest);
    }
  }

  /** A chunk that broke off gives nothing, not even the part that is there. */
  lemma BrokenChunkIsDropped(raw: string, pos: nat, c: Chunk, part: string, room: nat)
    requires Announces(c) && pos <= |raw| && raw[pos..] == c.size + CRLF + part && |part| < |c.data|
    ensures Decoded(raw, pos, room) == ""
  {
    hide LineEnd, SizeOf, Stands, PieceAt;
    LineStands(raw, pos, c.size, part);
    Layout(raw, pos, Chunk(c.size, part), "");
    FindsLine(raw, pos, c.size);
    NoRest(raw, pos, pos + |c.size|, room);
  }

  lemma NoRest(raw: string, pos: nat, e: nat, room: nat)
    requires pos <= e <= |raw| && LineEnd(raw, pos) == Some(e) && e + 2 + SizeOf(raw[pos..e]) > |raw|
    ensures PieceAt(raw, pos, room) == Nothing
  {
    hide LineEnd, SizeOf;
  }

  lemma LineStands(raw: string, pos: nat, line: string, rest: string)
    requires pos <= |raw| && raw[pos..] == line + CRLF + rest
    ensures Stands(raw, pos, Chunk(line, rest), "")
  {
  }

  /** A line that is empty, longer than 15 characters or no size ends the body. */
  lemma OtherLineEnds(raw: string, pos: nat, line: string, rest: string, room: nat)
    requires pos <= |raw| && raw[pos..] == line + CRLF + rest && '\r' !in line
    requires line == "" || |line| > 15 || SizeOf(line) == 0
    ensures Decoded(raw, pos, room) == ""
  {
    hide LineEnd, SizeOf, PieceAt, BreakAt, Stands;
    LineStands(raw, pos, line, rest);
    Layout(raw, pos, Chunk(line, rest), "");
    FindsLine(raw, pos, line);
    NoPiece(raw, pos, pos + |line|, room);
  }

  lemma NoPiece(raw: string, pos: nat, e: nat, room: nat)
    requires pos <= e <= |raw| && LineEnd(raw, pos) == Some(e)
    requires e == pos || e - pos > 15 || SizeOf(raw[pos..e]) == 0
    ensures PieceAt(raw, pos, room) == Nothing
  {
    hide LineEnd, SizeOf;
  }

  lemma MinusFree(t: string)
    requires forall i :: 0 <= i < |t| ==> HexOf(t[i]).Some?
    ensures Unsigned(t)
  {
  }

  lemma {:induction false} EncodedEnds(cs: seq<Chunk>)
    ensures |Encoded(cs)| >= 5 && Encoded(cs)[|Encoded(cs)| - 5..] == "0\r\n\r\n"
  {
    if cs != [] {
      EncodedEnds(cs[1..]);
      var front := cs[0].size + CRLF + cs[0].data + CRLF;
      var rest := Encoded(cs[1..]);
      assert Encoded(cs) == front + rest;
      assert (front + rest)[|front + rest| - 5..] == rest[|rest| - 5..];
    }
  }

  /** chunked_body_complete never misses a body that is all there. */
  lemma FullBodyIsDone(head: string, cs: seq<Chunk>, tail: string)
    ensures ChunkedBodyDone(head + Encoded(cs) + tail, |head|)
  {
    EncodedEnds(cs);
    var raw := head + Encoded(cs) + tail;
    var n := |Encoded(cs)| - 5;
    var mark := Encoded(cs)[n..];
    assert forall k :: 0 <= k < 5 ==> raw[|head| + n + k] == mark[k];
    assert LastChunkAt(raw, |head| + n);
  }

  /** One chunk as it is sent. */
  function ChunkText(c: Chunk): string {
    c.size + CRLF + c.data + CRLF
  }

  /** The mark of the last chunk stands somewhere in a text. */
  predicate HasMark(t: string) {
    exists k :: 0 <= k < |t| && LastChunkAt(t, k)
  }

  /** chunked_body_complete says yes before the whole body is there. */
  predicate SeenTooEarly(head: string, cs: seq<Chunk>) {
    exists n :: 0 <= n < |Encoded(cs)| && ChunkedBodyDone(head + Encoded(cs)[..n], |head|)
  }

  lemma EncodedStartsWithHex(cs: seq<Chunk>)
    requires cs == [] || GoodChunk(cs[0])
    ensures Encoded(cs) != "" && HexOf(Encoded(cs)[0]).Some?
  {
    if cs != [] {
      assert Encoded(cs)[0] == cs[0].size[0];
    }
  }

  /** A mark lies on one side of a place where a hexadecimal digit starts the right side. */
  lemma MarkOnOneSide(t: string, r: string, k: nat)
    requires r != "" && HexOf(r[0]).Some? && LastChunkAt(t + r, k)
    ensures if k < |t| then LastChunkAt(t, k) else LastChunkAt(r, k - |t|)
  {
    var s := t + r;
    assert s[|t|] == r[0];
    assert forall j :: k < j <= k + 4 ==> s[j] == '\r' || s[j] == '\n';
  }

  /** A mark that is not the last one lies inside a chunk. */
  lemma {:induction false} EarlyMarkIsInChunk(cs: seq<Chunk>, k: nat) returns (i: nat)
    requires forall j :: 0 <= j < |cs| ==> GoodChunk(cs[j])
    requires LastChunkAt(Encoded(cs), k) && k + 5 < |Encoded(cs)|
    ensures i < |cs| && HasMark(ChunkText(cs[i]))
    decreases |cs|
  {
    hide GoodChunk, LastChunkAt;
    if cs == [] {
      ShortBody(k);
    } else {
      var t, r := ChunkText(cs[0]), Encoded(cs[1..]);
      assert Encoded(cs) == t + r;
      EncodedStartsWithHex(cs[1..]);
      MarkOnOneSide(t, r, k);
      if k < |t| {
        i := 0;
      } else {
        var j := EarlyMarkIsInChunk(cs[1..], k - |t|);
        i := j + 1;
      }
    }
  }

  lemma ShortBody(k: nat)
    ensures !(LastChunkAt("0\r\n\r\n", k) && k + 5 < 5)
  {
  }

  /** A mark inside a chunk is one in the body, before the last. */
  lemma {:induction false} ChunkMarkIsEarly(cs: seq<Chunk>, i: nat) returns (k: nat)
    requires i < |cs| && HasMark(ChunkText(cs[i]))
    ensures LastChunkAt(Encoded(cs), k) && k + 5 < |Encoded(cs)|
    decreases |cs|
  {
    hide LastChunkAt;
    var t, r := ChunkText(cs[0]), Encoded(cs[1..]);
    assert Encoded(cs) == t + r;
    EncodedEnds(cs[1..]);
    if i == 0 {
      k :| 0 <= k < |t| && LastChunkAt(t, k);
      MarkOnTheLeft(t, r, k);
    } else {
      var j := ChunkMarkIsEarly(cs[1..], i - 1);
      MarkOnTheRight(t, r, j);
      k := |t| + j;
    }
  }

  lemma MarkOnTheLeft(t: string, r: string, k: nat)
    requires LastChunkAt(t, k)
    ensures LastChunkAt(t + r, k) && k + 5 <= |t|
  {
  }

  lemma MarkOnTheRight(t: string, r: string, k: nat)
    requires LastChunkAt(r, k)
    ensures LastChunkAt(t + r, |t| + k)
  {
    assert forall j :: 0 <= j < |r| ==> (t + r)[|t| + j] == r[j];
  }

  lemma EarlyMarkIn(head: string, cs: seq<Chunk>) returns (i: nat)
    requires forall j :: 0 <= j < |cs| ==> GoodChunk(cs[j])
    requires SeenTooEarly(head, cs)
    ensures i < |cs| && HasMark(ChunkText(cs[i]))
  {
    hide GoodChunk, HasMark, LastChunkAt, Encoded;
    var e := Encoded(cs);
    var n :| 0 <= n < |e| && ChunkedBodyDone(head + e[..n], |head|);
    var k :| |head| <= k < |head + e[..n]| && LastChunkAt(head + e[..n], k);
    MarkInPrefix(head, e, n, k);
    i := EarlyMarkIsInChunk(cs, k - |head|);
  }

  lemma MarkMakesEarly(head: string, cs: seq<Chunk>, i: nat)
    requires i < |cs| && HasMark(ChunkText(cs[i]))
    ensures SeenTooEarly(head, cs)
  {
    hide HasMark, LastChunkAt, Encoded;
    var e := Encoded(cs);
    var k := ChunkMarkIsEarly(cs, i);
    PrefixHasMark(head, e, k);
    assert ChunkedBodyDone(head + e[..k + 5], |head|);
  }

  /** The body is taken for complete too early if and only if the mark stands in one of its chunks,
      with its size line and line breaks: a sender can look at each chunk by itself. */
  lemma SeenTooEarlyExactly(head: string, cs: seq<Chunk>)
    requires forall j :: 0 <= j < |cs| ==> GoodChunk(cs[j])
    ensures SeenTooEarly(head, cs) <==> exists i :: 0 <= i < |cs| && HasMark(ChunkText(cs[i]))
  {
    hide GoodChunk, HasMark, SeenTooEarly;
    if SeenTooEarly(head, cs) {
      var i := EarlyMarkIn(head, cs);
    }
    if i :| 0 <= i < |cs| && HasMark(ChunkText(cs[i])) {
      MarkMakesEarly(head, cs, i);
    }
  }

  lemma MarkInPrefix(head: string, e: string, n: nat, i: nat)
    requires n < |e| && |head| <= i && LastChunkAt(head + e[..n], i)
    ensures LastChunkAt(e, i - |head|) && i - |head| + 5 < |e|
  {
    var s := head + e[..n];
    assert forall j :: |head| <= j < |s| ==> s[j] == e[j - |head|];
  }

  lemma PrefixHasMark(head: string, e: string, k: nat)
    requires LastChunkAt(e, k)
    ensures k + 5 <= |e| && LastChunkAt(head + e[..k + 5], |head| + k)
  {
    var s := head + e[..k + 5];
    assert forall j :: |head| <= j < |s| ==> s[j] == e[j - |head|];
  }

  /** It happens: here the five data bytes are the mark, and neither the line break after them nor the
      last chunk has arrived. */
  lemma DoneTooEarly()
    ensures var c := Chunk("5", "0\r\n\r\n");
            GoodChunk(c) && ChunkedBodyDone("5\r\n0\r\n\r\n", 0) && "5\r\n0\r\n\r\n" < Encoded([c])
  {
    var c := Chunk("5", "0\r\n\r\n");
    assert HexRun("5") == [5] + HexRun("5"[1..]);
    assert Value(R16, [5]) == 5;
    assert LastChunkAt("5\r\n0\r\n\r\n", 3);
    assert Encoded([c]) == "5\r\n0\r\n\r\n" + "\r\n" + Encoded([]);
  }

  // ----- decode_chunked_body -----

  /** The scan for the line break; line_end stops at the last byte when there is none. */
  method FindLineEnd(raw: string, pos: nat) returns (lineEnd: nat)
    requires pos < |raw|
    ensures LineEnd(raw, pos) == if lineEnd + 1 < |raw| then Some(lineEnd) else None
    ensures pos <= lineEnd
  {
    lineEnd := pos;
    while lineEnd + 1 < |raw| && !(raw[lineEnd] == '\r' && raw[lineEnd + 1] == '\n')
      invariant pos <= lineEnd < |raw| && LineEnd(raw, lineEnd) == LineEnd(raw, pos)
    {
      lineEnd := lineEnd + 1;
    }
  }

  /** strtoul(sizeBuf, NULL, 16) */
  method ParseSize(t: string) returns (n: nat)
    requires Unsigned(t)
    ensures n == SizeOf(t)
  {
    var u := t;
    while u != "" && IsSpace(u[0])
      invariant SkipWhite(u) == SkipWhite(t)
      decreases |u|
    {
      u := u[1..];
    }
    u := SkipPrefix(u);
    ghost var ds := HexRun(u);
    var k: nat := 0;
    n := 0;
    while k < |u| && HexOf(u[k]).Some?
      invariant k <= |u| && k <= |ds| && n == Value(R16, ds[..k]) && ds[k..] == HexRun(u[k..])
    {
      var d := HexOf(u[k]).value;
      assert u[k..][0] == u[k] && u[k..][1..] == u[k + 1..];
      assert ds[k..][0] == ds[k] && ds[k..][1..] == ds[k + 1..];
      assert ds[..k + 1] == ds[..k] + [d];
      ValueNext(R16, ds[..k], d);
      n := 16 * n + d;
      k := k + 1;
    }
    assert HexRun(u[k..]) == [];
    assert ds[..k] == ds;
  }

  /** memcpy(out + to, raw + from, n) */
  method CopyOut(raw: string, from: nat, n: nat, out: array<char>, to: nat)
    requires from + n <= |raw| && to + n <= out.Length
    modifies out
    ensures out[..to + n] == old(out[..to]) + raw[from..from + n]
  {
    var k: nat := 0;
    while k < n
      invariant k <= n && out[..to + k] == old(out[..to]) + raw[from..from + k]
    {
      out[to + k] := raw[from + k];
      assert out[..to + k + 1] == out[..to + k] + [raw[from + k]];
      assert raw[from..from + k + 1] == raw[from..from + k] + [raw[from + k]];
      k := k + 1;
    }
  }

  /** The piece at pos, in the order of the checks of decode_chunked_body. */
  method FindPiece(raw: string, pos: nat, room: nat) returns (p: Piece)
    requires pos < |raw| && Decodable(raw, pos, room)
    ensures p == PieceAt(raw, pos, room)
  {
    var lineEnd := FindLineEnd(raw, pos);
    if lineEnd + 1 >= |raw| {
      return Nothing;
    }
    var sizeLen := lineEnd - pos;
    if sizeLen == 0 || sizeLen >= 16 {
      return Nothing;
    }
    var size := ParseSize(raw[pos..lineEnd]);
    if size == 0 || lineEnd + 2 + size > |raw| || size >= room {
      return Nothing;
    }
    return Data(lineEnd + 2, size);
  }

  lemma DecodedNext(raw: string, pos: nat, room: nat, p: Piece)
    requires PieceAt(raw, pos, room) == p && Decodable(raw, pos, room)
    ensures p.Nothing? ==> Decoded(raw, pos, room) == ""
    ensures p.Data? ==> After(raw, p) > pos && Decodable(raw, After(raw, p), room - p.size)
                        && Decoded(raw, pos, room)
                           == raw[p.from..p.from + p.size] + Decoded(raw, After(raw, p), room - p.size)
  {
  }

  lemma NothingAfter(raw: string, pos: nat, room: nat)
    requires pos >= |raw|
    ensures Decoded(raw, pos, room) == ""
  {
  }

  /** decode_chunked_body: the scan always moves forward, and the output is NUL-terminated. */
  method DecodeChunkedBody(raw: string, bodyOff: nat, out: array<char>) returns (outPos: nat)
    requires Decodable(raw, bodyOff, out.Length)
    modifies out
    ensures outPos == |Decoded(raw, bodyOff, out.Length)| && outPos <= out.Length
    ensures out[..outPos] == Decoded(raw, bodyOff, out.Length)
    ensures out.Length > 0 ==> outPos < out.Length && out[outPos] == '\0'
  {
    hide PieceAt, Decodable, Decoded, After;
    outPos := 0;
    var pos := bodyOff;
    ghost var rest := Decoded(raw, pos, out.Length);
    while pos < |raw|
      invariant outPos <= out.Length && Decodable(raw, pos, out.Length - outPos)
      invariant rest == Decoded(raw, pos, out.Length - outPos)
      invariant out[..outPos] + rest == Decoded(raw, bodyOff, out.Length)
      decreases |raw| - pos
    {
      var p := FindPiece(raw, pos, out.Length - outPos);
      DecodedNext(raw, pos, out.Length - outPos, p);
      if p.Nothing? {
        break;
      }
      CopyOut(raw, p.from, p.size, out, outPos);
      outPos := outPos + p.size;
      pos := After(raw, p);
      rest := Decoded(raw, pos, out.Length - outPos);
    }
    if pos >= |raw| {
      NothingAfter(raw, pos, out.Length - outPos);
    }
    if outPos < out.Length {
      out[outPos] := '\0';
    }
  }
}
