/** The export stream of c/src/handlers.c: one Base64 line per raw chunk. */
module Export {
  import opened Wrappers
  import opened Numerals
  import opened Base64
  import opened CString

  type Chunk = x: seq<nat> | InBase(R256, x)

  function Line(x: Chunk): string {
    Encoded(x) + "\n"
  }

  /** What the stream looks like when every chunk gets through. */
  function Lines(chunks: seq<Chunk>): string {
    if chunks == [] then "" else Lines(chunks[..|chunks| - 1]) + Line(chunks[|chunks| - 1])
  }

  function Concat(chunks: seq<Chunk>): Chunk {
    if chunks == [] then [] else Concat(chunks[..|chunks| - 1]) + chunks[|chunks| - 1]
  }

  function FirstBreak(text: string): (p: nat)
    ensures p <= |text| && '\n' !in text[..p]
    ensures p < |text| ==> text[p] == '\n'
  {
    if text == "" || text[0] == '\n' then 0 else 1 + FirstBreak(text[1..])
  }

  /** The receiver: decode every complete line, and put the results together. */
  function DecodedLines(text: string): seq<nat> {
    var p := FirstBreak(text);
    if p == |text| then [] else Decoded(text[..p]) + DecodedLines(text[p + 1..])
  }

  lemma {:induction false} FirstBreakIs(line: string, rest: string)
    requires '\n' !in line
    ensures FirstBreak(line + "\n" + rest) == |line|
  {
    var text := line + "\n" + rest;
    if line != "" {
      assert text[1..] == line[1..] + "\n" + rest;
      assert text[0] == line[0];
      FirstBreakIs(line[1..], rest);
    }
  }

  lemma LineHasNoBreak(x: Chunk)
    ensures '\n' !in Encoded(x) && '\0' !in Encoded(x)
  {
    EncodedIsClean(x);
  }

  lemma DecodedLine(x: Chunk, rest: string)
    ensures DecodedLines(Line(x) + rest) == x + DecodedLines(rest)
  {
    var text := Line(x) + rest;
    LineHasNoBreak(x);
    FirstBreakIs(Encoded(x), rest);
    assert text == Encoded(x) + "\n" + rest;
    assert text[..|Encoded(x)|] == Encoded(x) && text[|Encoded(x)| + 1..] == rest;
    RoundTrip(x);
  }

  lemma Reassociate<T>(a: seq<T>, b: seq<T>, c: seq<T>)
    ensures a + b + c == a + (b + c)
  {
  }

  lemma {:induction false} DecodedLinesJoin(chunks: seq<Chunk>, rest: string)
    ensures DecodedLines(Lines(chunks) + rest) == Concat(chunks) + DecodedLines(rest)
  {
    if chunks == [] {
      assert "" + rest == rest;
    } else {
      var n := |chunks| - 1;
      var x := chunks[n];
      DecodedLine(x, rest);
      DecodedLinesJoin(chunks[..n], Line(x) + rest);
      Reassociate(Lines(chunks[..n]), Line(x), rest);
      Reassociate(Concat(chunks[..n]), x, DecodedLines(rest));
    }
  }

  /** Splitting the stream at the line breaks, decoding each line and joining the results gives the
      tar back, whatever the chunks are. */
  lemma ExportIsFaithful(chunks: seq<Chunk>)
    ensures DecodedLines(Lines(chunks)) == Concat(chunks)
  {
    DecodedLinesJoin(chunks, "");
    assert Lines(chunks) + "" == Lines(chunks);
    assert DecodedLines("") == [];
  }

  function Breaks(t: string): nat {
    if t == "" then 0 else Breaks(t[..|t| - 1]) + if t[|t| - 1] == '\n' then 1 else 0
  }

  lemma {:induction false} BreaksJoin(a: string, b: string)
    ensures Breaks(a + b) == Breaks(a) + Breaks(b)
  {
    if b == "" {
      assert a + b == a;
    } else {
      var n := |b| - 1;
      assert (a + b)[..|a + b| - 1] == a + b[..n];
      BreaksJoin(a, b[..n]);
    }
  }

  lemma {:induction false} NoBreaks(t: string)
    requires '\n' !in t
    ensures Breaks(t) == 0
  {
    if t != "" {
      NoBreaks(t[..|t| - 1]);
    }
  }

  /** The stream is one line for each chunk, ended by a line break, and has nothing but alphabet characters
      and padding signs in its lines. */
  lemma {:induction false} StreamIsLines(chunks: seq<Chunk>)
    ensures Breaks(Lines(chunks)) == |chunks|
    ensures forall c :: c in Lines(chunks) ==> c == '\n' || c == '=' || SextetOf(c).Some?
    ensures chunks != [] ==> Lines(chunks)[|Lines(chunks)| - 1] == '\n'
  {
    hide Encoded, SextetOf;
    if chunks != [] {
      var n := |chunks| - 1;
      var e := Encoded(chunks[n]);
      StreamIsLines(chunks[..n]);
      LineHasNoBreak(chunks[n]);
      EncodedIsClean(chunks[n]);
      NoBreaks(e);
      BreaksJoin(e, "\n");
      BreaksJoin(Lines(chunks[..n]), Line(chunks[n]));
      assert Breaks("\n") == 1 by { assert "\n"[..0] == ""; }
      assert forall c :: c in Lines(chunks) ==> c in Lines(chunks[..n]) || c in e || c == '\n';
    }
  }

  /** A stream that breaks off inside the line of a chunk yields the chunks before it. */
  lemma TruncatedExport(chunks: seq<Chunk>, k: nat, sent: string)
    requires k < |chunks| && Lines(chunks[..k]) <= sent < Lines(chunks[..k + 1])
    ensures DecodedLines(sent) == Concat(chunks[..k])
  {
    var rest := sent[|Lines(chunks[..k])|..];
    assert sent == Lines(chunks[..k]) + rest;
    assert chunks[..k + 1][..k] == chunks[..k];
    assert rest < Line(chunks[k]);
    LineHasNoBreak(chunks[k]);
    forall c | c in rest
      ensures c != '\n'
    {
      var i :| 0 <= i < |rest| && rest[i] == c;
      assert rest[i] == Line(chunks[k])[i] == Encoded(chunks[k])[i];
    }
    assert FirstBreak(rest) == |rest|;
    DecodedLinesJoin(chunks[..k], rest);
  }

  lemma {:induction false} LinesAreOrdered(tar: seq<Chunk>, k: nat)
    requires k <= |tar|
    ensures Lines(tar[..k]) <= Lines(tar)
    decreases |tar|
  {
    if k == |tar| {
      assert tar[..k] == tar;
    } else {
      var n := |tar| - 1;
      LinesAreOrdered(tar[..n], k);
      assert tar[..n][..k] == tar[..k];
    }
  }

  lemma NoLines(tar: seq<Chunk>)
    ensures Lines(tar[..0]) == ""
  {
  }

  lemma NextLine(tar: seq<Chunk>, i: nat)
    requires i < |tar|
    ensures Lines(tar[..i + 1]) == Lines(tar[..i]) + Line(tar[i])
  {
    assert tar[..i + 1][..i] == tar[..i];
  }

  /** What a receiver makes of a stream that ends somewhere in, or right after, the line of chunk k. */
  lemma WholeChunks(tar: seq<Chunk>, k: nat, sent: string) returns (n: nat)
    requires k < |tar| && Lines(tar[..k]) <= sent <= Lines(tar[..k + 1])
    ensures n <= |tar| && DecodedLines(sent) == Concat(tar[..n]) && sent <= Lines(tar)
  {
    LinesAreOrdered(tar, k + 1);
    if sent == Lines(tar[..k + 1]) {
      ExportIsFaithful(tar[..k + 1]);
      n := k + 1;
    } else {
      TruncatedExport(tar, k, sent);
      n := k;
    }
  }

  /** export_stream_ctx_t, with the socket behind it.  The i-th write fails after so many
      characters if broken(i) is Some, and the i-th allocation succeeds if memory(i). */
  class Stream {
    const broken: nat -> Option<nat>
    const memory: nat -> bool
    var sent: string
    var writes: nat
    var chunks: nat
    var writeRc: int

    constructor (broken: nat -> Option<nat>, memory: nat -> bool)
      ensures sent == "" && writeRc == 0
      ensures this.broken == broken && this.memory == memory
    {
      this.broken, this.memory := broken, memory;
      sent, writes, chunks, writeRc := "", 0, 0, 0;
    }

    /** No write and no allocation fails. */
    ghost predicate Sturdy() {
      forall i: nat :: broken(i).None? && memory(i)
    }

    /** http_write_all: on failure some part of the text may have been sent. */
    method WriteAll(text: string) returns (rc: int)
      modifies this`sent, this`writes
      ensures writes == old(writes) + 1 && (rc == 0 <==> broken(old(writes)).None?)
      ensures rc == 0 ==> sent == old(sent) + text
      ensures rc != 0 ==> old(sent) <= sent <= old(sent) + text
    {
      var fate := broken(writes);
      writes := writes + 1;
      if fate.Some? {
        var n := if fate.value < |text| then fate.value else |text|;
        sent := sent + text[..n];
        return -1;
      }
      sent := sent + text;
      return 0;
    }

    /** export_tar_chunk_cb: nothing at all is sent once a write has failed. */
    method OnChunk(x: Chunk) returns (abort: bool)
      modifies this
      ensures abort <==> writeRc != 0
      ensures old(writeRc) != 0 ==> sent == old(sent) && writeRc == old(writeRc) && writes == old(writes)
      ensures writeRc == 0 ==> old(writeRc) == 0 && sent == old(sent) + Line(x)
      ensures old(sent) <= sent <= old(sent) + Line(x)
      ensures old(writeRc) == 0 && Sturdy() ==> writeRc == 0
    {
      if writeRc != 0 {
        return true;
      }
      var cap := (|x| + 2) / 3 * 4 + 1;
      EncodedLength(x);
      LineHasNoBreak(x);
      chunks := chunks + 1;
      if !memory(chunks - 1) {
        writeRc := -1;
        return true;
      }
      var b64 := new char[cap];
      var rc := Encode(x, b64);
      var n := StrLen(b64);
      Terminator(b64[..], Encoded(x), n);
      rc := WriteAll(b64[..n]);
      if rc == 0 {
        rc := WriteAll("\n");
      }
      if rc != 0 {
        writeRc := -1;
      }
      return writeRc != 0;
    }

    /** worm_export_tar delivering the chunks of a tar to a fresh stream; it need not stop when the
        callback asks it to.  What the receiver decodes is always a whole number of chunks, and
        all of them when nothing failed. */
    method Deliver(tar: seq<Chunk>, stops: bool) returns (ghost k: nat)
      requires sent == "" && writeRc == 0
      modifies this
      ensures k <= |tar| && DecodedLines(sent) == Concat(tar[..k])
      ensures sent <= Lines(tar)
      ensures writeRc == 0 ==> sent == Lines(tar) && k == |tar|
      ensures Sturdy() ==> writeRc == 0
    {
      hide Lines, DecodedLines, Concat, Sturdy;
      var i := 0;
      k := 0;
      NoLines(tar);
      while i < |tar|
        invariant i <= |tar| && k <= i && (Sturdy() ==> writeRc == 0)
        invariant writeRc == 0 ==> k == i && sent == Lines(tar[..k])
        invariant writeRc != 0 ==> k < i && Lines(tar[..k]) <= sent <= Lines(tar[..k + 1])
      {
        NextLine(tar, i);
        var abort := OnChunk(tar[i]);
        if !abort {
          k := k + 1;
        }
        i := i + 1;
        if abort && stops {
          break;
        }
      }
      if writeRc == 0 {
        assert tar[..|tar|] == tar;
        ExportIsFaithful(tar);
      } else {
        k := WholeChunks(tar, k, sent);
      }
    }
  }
}
