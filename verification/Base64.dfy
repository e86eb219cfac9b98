/** The Base64 codec of c/src/util.c against a reference that knows nothing of groups or
    accumulators: the text and the bytes are numerals of the same number, base 64 and base 256
    (section 4 of RFC 4648). */
module Base64 {
  import opened Bytes
  import opened Wrappers
  import opened Numerals

  /** b64_val: None for the characters outside the alphabet. */
  function SextetOf(c: char): (v: Option<nat>)
    ensures v.Some? ==> v.value < 64
  {
    if 'A' <= c <= 'Z' then Some(c as int - 'A' as int)
    else if 'a' <= c <= 'z' then Some(c as int - 'a' as int + 26)
    else if '0' <= c <= '9' then Some(c as int - '0' as int + 52)
    else if c == '+' then Some(62)
    else if c == '/' then Some(63)
    else None
  }

  /** b64_table */
  function CharOf(v: nat): (c: char)
    requires v < 64
    ensures SextetOf(c) == Some(v)
  {
    if v < 26 then 'A' + v as char
    else if v < 52 then 'a' + (v - 26) as char
    else if v < 62 then '0' + (v - 52) as char
    else if v == 62 then '+' else '/'
  }

  const CAPITALS: string := "ABCDEFGHIJKLMNOPQRSTUVWXYZ"
  const LETTERS: string := "abcdefghijklmnopqrstuvwxyz"
  const ALPHABET: string := CAPITALS + LETTERS + "0123456789+/"

  lemma AlphabetPart(v: nat)
    requires v < 26
    ensures |CAPITALS| == 26 && |LETTERS| == 26 && CAPITALS[v] == 'A' + v as char && LETTERS[v] == 'a' + v as char
  {
  }

  lemma AlphabetRest(v: nat)
    requires v < 12
    ensures "0123456789+/"[v] == if v < 10 then '0' + v as char else if v == 10 then '+' else '/'
  {
  }

  lemma CharInAlphabet(v: nat)
    requires v < 64
    ensures |ALPHABET| == 64 && CharOf(v) == ALPHABET[v]
  {
    hide CAPITALS, LETTERS;
    AlphabetPart(if v < 26 then v else if v < 52 then v - 26 else 0);
    AlphabetRest(if v >= 52 then v - 52 else 0);
  }

  lemma SextetHasOneChar(c: char, v: nat)
    requires SextetOf(c) == Some(v)
    ensures v < 64 && CharOf(v) == c
  {
  }

  /** The alphabet is that of table 1 of RFC 4648. */
  lemma AlphabetOfRfc(c: char, v: nat)
    ensures |ALPHABET| == 64 && (SextetOf(c) == Some(v) <==> v < 64 && c == ALPHABET[v])
    ensures v < 64 ==> CharOf(v) == ALPHABET[v]
  {
    hide ALPHABET, SextetOf, CharOf;
    CharInAlphabet(if v < 64 then v else 0);
    if SextetOf(c) == Some(v) {
      SextetHasOneChar(c, v);
    }
  }

  /** The values of the alphabet characters of a text; everything else is skipped. */
  function Sextets(text: string): (vs: seq<nat>)
    ensures InBase(R64, vs)
  {
    if text == [] then []
    else
      var n := |text| - 1;
      var v := SextetOf(text[n]);
      if v.Some? then Sextets(text[..n]) + [v.value] else Sextets(text[..n])
  }

  /** How many bits are left over when k sextets are cut into bytes. */
  function BitsLeft(k: nat): (bits: nat)
    ensures bits == 0 || bits == 2 || bits == 4 || bits == 6
  {
    if k == 0 then 0
    else if BitsLeft(k - 1) == 0 then 6
    else BitsLeft(k - 1) - 2
  }

  /** How many whole bytes k sextets make. */
  function WholeBytes(k: nat): nat {
    if k == 0 then 0
    else WholeBytes(k - 1) + if BitsLeft(k - 1) == 0 then 0 else 1
  }

  /** v with so many zero bits appended. */
  function Widen(v: nat, bits: nat): nat {
    if bits == 0 then v else if bits == 2 then 4 * v else if bits == 4 then 16 * v else 64 * v
  }

  /** v without its last bits. */
  function Narrow(v: nat, bits: nat): nat {
    if bits == 0 then v else if bits == 2 then v / 4 else if bits == 4 then v / 16 else v / 64
  }

  /** The last bits of v. */
  function Low(v: nat, bits: nat): nat {
    if bits == 0 then 0 else if bits == 2 then v % 4 else if bits == 4 then v % 16 else v % 64
  }

  /** What a text stands for: its number without the left-over bits, in base 256. */
  function Decoded(text: string): (x: seq<nat>)
    ensures |x| == WholeBytes(|Sextets(text)|) && InBase(R256, x)
  {
    var vs := Sextets(text);
    Digits(R256, Narrow(Value(R64, vs), BitsLeft(|vs|)), WholeBytes(|vs|))
  }

  function Spell(vs: seq<nat>): (text: string)
    requires InBase(R64, vs)
    ensures |text| == |vs|
  {
    seq(|vs|, i requires 0 <= i < |vs| => CharOf(vs[i]))
  }

  /** How many sextets n bytes need. */
  function SextetCount(n: nat): nat {
    if n == 0 then 0 else if n == 1 then 2 else if n == 2 then 3 else SextetCount(n - 3) + 4
  }

  function Padding(n: nat): string {
    if n == 0 then "" else if n == 1 then "==" else if n == 2 then "=" else Padding(n - 3)
  }

  /** The number of x, widened to whole sextets, in base 64, and the padding. */
  function Encoded(x: seq<nat>): (text: string) {
    var k := SextetCount(|x|);
    Spell(Digits(R64, Widen(Value(R256, x), BitsLeft(k)), k)) + Padding(|x|)
  }

  // ----- Lengths -----

  lemma {:induction false} FourSextets(k: nat)
    ensures BitsLeft(k + 4) == BitsLeft(k) && WholeBytes(k + 4) == WholeBytes(k) + 3
  {
    assert BitsLeft(k + 1) == if BitsLeft(k) == 0 then 6 else BitsLeft(k) - 2;
    assert BitsLeft(k + 2) == if BitsLeft(k + 1) == 0 then 6 else BitsLeft(k + 1) - 2;
    assert BitsLeft(k + 3) == if BitsLeft(k + 2) == 0 then 6 else BitsLeft(k + 2) - 2;
    assert BitsLeft(k + 4) == if BitsLeft(k + 3) == 0 then 6 else BitsLeft(k + 3) - 2;
    assert WholeBytes(k + 2) == WholeBytes(k + 1) + if BitsLeft(k + 1) == 0 then 0 else 1;
    assert WholeBytes(k + 4) == WholeBytes(k + 3) + if BitsLeft(k + 3) == 0 then 0 else 1;
  }

  lemma FewSextets()
    ensures BitsLeft(0) == 0 && BitsLeft(1) == 6 && BitsLeft(2) == 4 && BitsLeft(3) == 2
    ensures WholeBytes(0) == 0 && WholeBytes(1) == 0 && WholeBytes(2) == 1 && WholeBytes(3) == 2
  {
    assert BitsLeft(1) == 6;
    assert BitsLeft(2) == 4;
    assert BitsLeft(3) == 2;
    assert WholeBytes(1) == WholeBytes(0);
    assert WholeBytes(2) == WholeBytes(1) + 1;
    assert WholeBytes(3) == WholeBytes(2) + 1;
  }

  /** A text with k alphabet characters decodes to 3k/4 bytes, rounded down. */
  lemma {:induction false} ByteCount(k: nat)
    ensures WholeBytes(k) == 3 * k / 4
  {
    if k < 4 {
      FewSextets();
    } else {
      ByteCount(k - 4);
      FourSextets(k - 4);
    }
  }

  lemma {:induction false} PaddedCount(n: nat)
    ensures SextetCount(n) + |Padding(n)| == (n + 2) / 3 * 4
  {
    if n >= 3 {
      PaddedCount(n - 3);
      assert (n + 2) / 3 == (n - 1) / 3 + 1;
    }
  }

  /** n bytes encode to 4*ceil(n/3) characters. */
  lemma EncodedLength(x: seq<nat>)
    ensures |Encoded(x)| == (|x| + 2) / 3 * 4
  {
    PaddedCount(|x|);
  }

  lemma {:induction false} Counts(n: nat)
    ensures WholeBytes(SextetCount(n)) == n
  {
    if n < 3 {
      FewSextets();
    } else {
      Counts(n - 3);
      FourSextets(SextetCount(n - 3));
    }
  }

  // ----- The round trip -----

  lemma {:induction false} SextetsJoin(a: string, b: string)
    ensures Sextets(a + b) == Sextets(a) + Sextets(b)
  {
    if b == "" {
      assert a + b == a;
    } else {
      var n := |b| - 1;
      assert (a + b)[..|a| + n] == a + b[..n];
      SextetsJoin(a, b[..n]);
    }
  }

  lemma {:induction false} SextetsOfSpell(vs: seq<nat>)
    requires InBase(R64, vs)
    ensures Sextets(Spell(vs)) == vs
  {
    if vs != [] {
      var n := |vs| - 1;
      SextetsOfSpell(vs[..n]);
      assert Spell(vs)[..n] == Spell(vs[..n]);
      assert vs == vs[..n] + [vs[n]];
    }
  }

  lemma {:induction false} PaddingIsSkipped(n: nat)
    ensures Sextets(Padding(n)) == []
  {
    if n >= 3 {
      PaddingIsSkipped(n - 3);
    } else {
      assert "="[..0] == "" && "=="[..1] == "=";
      assert Sextets("=") == [] && Sextets("==") == [];
    }
  }

  /** Three bytes are four sextets. */
  lemma {:induction false} SameBits(n: nat)
    ensures Widen(Power(R256, n), BitsLeft(SextetCount(n))) == Power(R64, SextetCount(n))
  {
    if n < 3 {
      FewBits();
      FewSextets();
    } else {
      var k := SextetCount(n - 3);
      SameBits(n - 3);
      FourSextets(k);
      ThreeMore(n - 3);
      FourMore(k);
    }
  }

  lemma FewBits()
    ensures Power(R256, 0) == Power(R64, 0) == 1
    ensures Power(R256, 1) == 256 && Power(R256, 2) == 65536
    ensures Power(R64, 2) == 4096 && Power(R64, 3) == 0x4_0000
  {
    assert Power(R256, 1) == 256 * Power(R256, 0);
    assert Power(R64, 1) == 64 * Power(R64, 0);
    assert Power(R64, 2) == 64 * Power(R64, 1);
  }

  lemma ThreeMore(n: nat)
    ensures Power(R256, n + 3) == 0x100_0000 * Power(R256, n)
  {
    assert Power(R256, n + 2) == 256 * Power(R256, n + 1);
    assert Power(R256, n + 1) == 256 * Power(R256, n);
  }

  lemma FourMore(k: nat)
    ensures Power(R64, k + 4) == 0x100_0000 * Power(R64, k)
  {
    assert Power(R64, k + 3) == 64 * Power(R64, k + 2);
    assert Power(R64, k + 2) == 64 * Power(R64, k + 1);
    assert Power(R64, k + 1) == 64 * Power(R64, k);
  }

  lemma SextetsOfEncoded(x: seq<nat>)
    requires InBase(R256, x)
    ensures var k := SextetCount(|x|);
            Sextets(Encoded(x)) == Digits(R64, Widen(Value(R256, x), BitsLeft(k)), k)
    ensures Value(R64, Sextets(Encoded(x))) == Widen(Value(R256, x), BitsLeft(SextetCount(|x|)))
  {
    var n, k := |x|, SextetCount(|x|);
    var vs := Digits(R64, Widen(Value(R256, x), BitsLeft(k)), k);
    SextetsJoin(Spell(vs), Padding(n));
    SextetsOfSpell(vs);
    PaddingIsSkipped(n);
    assert vs + [] == vs;
    ValueIsBounded(R256, x);
    SameBits(n);
    ValueOfDigits(R64, Widen(Value(R256, x), BitsLeft(k)), k);
  }

  lemma NarrowUndoes(v: nat, buf: nat, bits: nat)
    ensures Narrow(Widen(v, bits), bits) == Narrow(Widen(v, bits) + Low(buf, bits), bits) == v
  {
  }

  /** decode(encode(x)) == x */
  lemma RoundTrip(x: seq<nat>)
    requires InBase(R256, x)
    ensures Decoded(Encoded(x)) == x
  {
    SextetsOfEncoded(x);
    Counts(|x|);
    NarrowUndoes(Value(R256, x), 0, BitsLeft(SextetCount(|x|)));
    DigitsOfValue(R256, x);
  }

  /** The characters of the alphabet in a text. */
  function AlphabetOnly(text: string): (r: string)
    ensures forall c :: c in r ==> SextetOf(c).Some?
  {
    if text == "" then ""
    else
      var n := |text| - 1;
      if SextetOf(text[n]).Some? then AlphabetOnly(text[..n]) + [text[n]] else AlphabetOnly(text[..n])
  }

  /** Padding, line breaks and any other noise do not change what is decoded. */
  lemma {:induction false} NoiseIsSkipped(text: string)
    ensures Sextets(AlphabetOnly(text)) == Sextets(text) && |AlphabetOnly(text)| == |Sextets(text)|
    ensures Decoded(AlphabetOnly(text)) == Decoded(text)
  {
    if text != "" {
      var n := |text| - 1;
      NoiseIsSkipped(text[..n]);
      var r := AlphabetOnly(text[..n]);
      assert (r + [text[n]])[..|r|] == r;
    }
  }

  lemma {:induction false} PaddingIsEquals(n: nat)
    ensures forall c :: c in Padding(n) ==> c == '='
  {
    if n >= 3 {
      PaddingIsEquals(n - 3);
    }
  }

  /** Encoding uses the alphabet and the padding sign only. */
  lemma EncodedIsClean(x: seq<nat>)
    ensures forall c :: c in Encoded(x) ==> SextetOf(c).Some? || c == '='
  {
    PaddingIsEquals(|x|);
    var k := SextetCount(|x|);
    var text := Spell(Digits(R64, Widen(Value(R256, x), BitsLeft(k)), k));
    assert forall i :: 0 <= i < |text| ==> SextetOf(text[i]).Some?;
  }

  // ----- The decoder -----

  function ShiftRight(buf: nat, bits: nat): nat {
    if bits == 0 then buf else ShiftRight(buf / 2, bits - 1)
  }

  /** buf = (buf << 6) | v on 32 bits. */
  function Push(buf: nat, v: nat): nat
    requires v < 64
  {
    buf * 64 % 0x1_0000_0000 + v
  }

  lemma ShiftIsDivision(buf: nat)
    ensures ShiftRight(buf, 0) == buf && ShiftRight(buf, 2) == buf / 4 && ShiftRight(buf, 4) == buf / 16
  {
    assert ShiftRight(buf / 2 / 2, 0) == buf / 4;
    assert ShiftRight(buf / 4, 2) == ShiftRight(buf / 8, 1) == ShiftRight(buf / 16, 0);
  }

  /** The bits pushed out at the top do not matter: q is what lies above the low 12 bits. */
  lemma PushLow(buf: nat, v: nat) returns (q: nat)
    requires v < 64
    ensures Push(buf, v) == 4096 * q + 64 * (buf % 64) + v
  {
    var top := buf * 64 / 0x1_0000_0000;
    var d := buf / 64;
    assert buf * 64 == 4096 * d + 64 * (buf % 64);
    assert Push(buf, v) == 4096 * (d - 0x10_0000 * top) + 64 * (buf % 64) + v;
    q := d - 0x10_0000 * top;
  }

  lemma FirstSextet(buf: nat, v: nat)
    requires v < 64
    ensures Low(Push(buf, v), 6) == v
  {
    var q := PushLow(buf, v);
    assert Push(buf, v) == 64 * (64 * q + buf % 64) + v;
  }

  lemma Cut(q: nat, b: nat)
    requires b < 256
    ensures (256 * q + b) % 256 == b
  {
  }

  /** The byte the second sextet of four completes. */
  lemma SecondSextet(buf: nat, v: nat)
    requires v < 64
    ensures 64 * Low(buf, 6) + v == 16 * (ShiftRight(Push(buf, v), 4) % 256) + Low(Push(buf, v), 4)
  {
    var q := PushLow(buf, v);
    ShiftIsDivision(Push(buf, v));
    var w := 64 * (buf % 64) + v;
    var b, r := w / 16, w % 16;
    assert Push(buf, v) == 16 * (256 * q + b) + r;
    Cut(q, b);
  }

  lemma ThirdSextet(buf: nat, v: nat)
    requires v < 64
    ensures 64 * Low(buf, 4) + v == 4 * (ShiftRight(Push(buf, v), 2) % 256) + Low(Push(buf, v), 2)
  {
    var q := PushLow(buf, v);
    ShiftIsDivision(Push(buf, v));
    LowOfLow(buf);
    var c, w := buf % 64 / 16, 64 * (buf % 16) + v;
    TenBits(4 * q + c, w / 4, w % 4);
    assert Push(buf, v) == 1024 * (4 * q + c) + 4 * (w / 4) + w % 4;
    hide Push, ShiftRight;
  }

  lemma TenBits(q: nat, b: nat, r: nat)
    requires b < 256 && r < 4
    ensures var n := 1024 * q + 4 * b + r; n / 4 % 256 == b && n % 4 == r
  {
    var n := 1024 * q + 4 * b + r;
    assert n == 4 * (256 * q + b) + r;
    assert n / 4 == 256 * q + b;
    Cut(q, b);
  }

  lemma FourthSextet(buf: nat, v: nat)
    requires v < 64
    ensures 64 * Low(buf, 2) + v == Push(buf, v) % 256
  {
    var q := PushLow(buf, v);
    LowOfLow(buf);
    var c, w := buf % 64 / 4, 64 * (buf % 4) + v;
    assert Push(buf, v) == 256 * (16 * q + c) + w;
    Cut(16 * q + c, w);
  }

  lemma LowOfLow(buf: nat)
    ensures buf % 64 == 16 * (buf % 64 / 16) + buf % 16
    ensures buf % 64 == 4 * (buf % 64 / 4) + buf % 4
  {
    var d, m := buf / 64, buf % 64;
    assert buf == 16 * (4 * d + m / 16) + m % 16;
    assert buf == 4 * (16 * d + m / 4) + m % 4;
    Remainders(4 * d + m / 16, m % 16, 16 * d + m / 4, m % 4);
  }

  lemma Remainders(q: nat, r: nat, q': nat, r': nat)
    requires r < 16 && r' < 4
    ensures (16 * q + r) % 16 == r && (4 * q' + r') % 4 == r'
  {
  }

  /** The bytes written so far and the pending bits are the number read so far. */
  ghost predicate InStep(vs: seq<nat>, written: seq<nat>, buf: nat, bits: nat)
  {
    && InBase(R256, written) && |written| == WholeBytes(|vs|) && bits == BitsLeft(|vs|)
    && Value(R64, vs) == Widen(Value(R256, written), bits) + Low(buf, bits)
  }

  lemma StepWithoutByte(vs: seq<nat>, written: seq<nat>, buf: nat, v: nat)
    requires InStep(vs, written, buf, 0) && v < 64
    ensures InStep(vs + [v], written, Push(buf, v), 6)
  {
    ValueNext(R64, vs, v);
    FirstSextet(buf, v);
  }

  lemma StepWithByte(vs: seq<nat>, written: seq<nat>, buf: nat, bits: nat, v: nat, b: nat)
    requires InStep(vs, written, buf, bits) && v < 64 && bits > 0
    requires b == ShiftRight(Push(buf, v), bits - 2) % 256
    ensures InStep(vs + [v], written + [b], Push(buf, v), bits - 2)
  {
    ValueNext(R64, vs, v);
    ValueNext(R256, written, b);
    if bits == 6 {
      SecondSextet(buf, v);
    } else if bits == 4 {
      ThirdSextet(buf, v);
    } else {
      FourthSextet(buf, v);
      ShiftIsDivision(Push(buf, v));
    }
  }

  lemma InStepIsDecoded(text: string, written: seq<nat>, buf: nat, bits: nat)
    requires InStep(Sextets(text), written, buf, bits)
    ensures written == Decoded(text)
  {
    NarrowUndoes(Value(R256, written), buf, bits);
    DigitsOfValue(R256, written);
  }

  lemma SextetsNext(text: string, i: nat)
    requires i < |text|
    ensures var v := SextetOf(text[i]);
            Sextets(text[..i + 1]) == if v.Some? then Sextets(text[..i]) + [v.value] else Sextets(text[..i])
  {
    assert text[..i + 1][..i] == text[..i];
  }

  lemma {:induction false} WholeBytesGrow(j: nat, k: nat)
    requires j <= k
    ensures WholeBytes(j) <= WholeBytes(k)
  {
    if j < k {
      WholeBytesGrow(j, k - 1);
    }
  }

  lemma SextetsGrow(text: string, i: nat)
    requires i <= |text|
    ensures |Sextets(text[..i])| <= |Sextets(text)|
  {
    SextetsJoin(text[..i], text[i..]);
    assert text == text[..i] + text[i..];
  }

  lemma NeedsMore(text: string, i: nat)
    requires i < |text| && SextetOf(text[i]).Some? && BitsLeft(|Sextets(text[..i])|) != 0
    ensures WholeBytes(|Sextets(text)|) > WholeBytes(|Sextets(text[..i])|)
  {
    var k := |Sextets(text[..i])|;
    SextetsNext(text, i);
    SextetsGrow(text, i + 1);
    WholeBytesGrow(k + 1, |Sextets(text)|);
  }

  /** The state of the loop of util_base64_decode after i characters. */
  ghost predicate Reading(text: string, i: nat, out: array<Byte>, o: nat, buf: nat, bits: nat)
    requires i <= |text|
    reads out
  {
    && o <= out.Length && (o < out.Length || o == 0)
    && InStep(Sextets(text[..i]), out[..o], buf, bits)
  }

  /** Shift a sextet in and, if there is one, a whole byte out. */
  method Take(buf0: nat, bits0: nat, v: nat, ghost vs: seq<nat>, ghost written: seq<nat>)
    returns (buf: nat, bits: nat, b: Option<Byte>)
    requires InStep(vs, written, buf0, bits0) && v < 64
    ensures InStep(vs + [v], if b.Some? then written + [b.value] else written, buf, bits)
    ensures b.Some? <==> BitsLeft(|vs|) != 0
  {
    buf, bits, b := Push(buf0, v), bits0 + 6, None;
    if bits >= 8 {
      bits := bits - 8;
      b := Some(ShiftRight(buf, bits) % 256);
      StepWithByte(vs, written, buf0, bits0, v, b.value);
    } else {
      StepWithoutByte(vs, written, buf0, v);
    }
  }

  /** The turn of the loop for an alphabet character; full means that the output has no room. */
  method Accept(text: string, i: nat, out: array<Byte>, o0: nat, buf0: nat, bits0: nat)
    returns (full: bool, o: nat, buf: nat, bits: nat)
    requires i < |text| && SextetOf(text[i]).Some? && Reading(text, i, out, o0, buf0, bits0)
    modifies out
    ensures full ==> out.Length <= |Decoded(text)|
    ensures !full ==> Reading(text, i + 1, out, o, buf, bits)
  {
    SextetsNext(text, i);
    var b;
    o := o0;
    buf, bits, b := Take(buf0, bits0, SextetOf(text[i]).value, Sextets(text[..i]), out[..o]);
    if b.Some? {
      if o + 1 >= out.Length {
        NeedsMore(text, i);
        return true, o, buf, bits;
      }
      ghost var written := out[..o];
      out[o] := b.value;
      o := o + 1;
      assert out[..o] == written + [b.value];
    }
    full := false;
  }

  lemma ReadAll(text: string, out: array<Byte>, o: nat, buf: nat, bits: nat)
    requires Reading(text, |text|, out, o, buf, bits)
    ensures out[..o] == Decoded(text)
  {
    assert text[..|text|] == text;
    InStepIsDecoded(text, out[..o], buf, bits);
  }

  lemma SkipOne(text: string, i: nat, out: array<Byte>, o: nat, buf: nat, bits: nat)
    requires i < |text| && SextetOf(text[i]).None? && Reading(text, i, out, o, buf, bits)
    ensures Reading(text, i + 1, out, o, buf, bits)
  {
    SextetsNext(text, i);
  }

  /** util_base64_decode; the C string `text` is given without its NUL. */
  method Decode(text: string, out: array<Byte>) returns (rc: int)
    modifies out
    ensures rc == if |Decoded(text)| < out.Length then |Decoded(text)| else -1
    ensures rc >= 0 ==> out[..rc] == Decoded(text) && out[rc] == 0
  {
    var o: nat, buf: nat, bits: nat := 0, 0, 0;
    for i := 0 to |text|
      invariant Reading(text, i, out, o, buf, bits)
    {
      if text[i] != '=' && text[i] != '\n' && text[i] != '\r' && SextetOf(text[i]).Some? {
        var full;
        full, o, buf, bits := Accept(text, i, out, o, buf, bits);
        if full {
          return -1;
        }
      } else {
        SkipOne(text, i, out, o, buf, bits);
      }
    }
    ReadAll(text, out, o, buf, bits);
    if o >= out.Length {
      return -1;
    }
    out[o] := 0;
    return o;
  }

  // ----- The encoder -----

  /** vs spells the first m bytes of x, widened to whole sextets. */
  ghost predicate Spells(x: seq<nat>, m: nat, vs: seq<nat>)
    requires m <= |x|
  {
    && InBase(R64, vs) && |vs| == SextetCount(m)
    && Value(R64, vs) == Widen(Value(R256, x[..m]), BitsLeft(SextetCount(m)))
  }

  /** i bytes are whole groups. */
  predicate Whole(i: nat) {
    Padding(i) == "" && BitsLeft(SextetCount(i)) == 0
  }

  lemma {:induction false} AfterGroups(i: nat)
    requires Whole(i)
    ensures Padding(i + 1) == "==" && SextetCount(i + 1) == SextetCount(i) + 2 && BitsLeft(SextetCount(i) + 2) == 4
    ensures Padding(i + 2) == "=" && SextetCount(i + 2) == SextetCount(i) + 3 && BitsLeft(SextetCount(i) + 3) == 2
    ensures Whole(i + 3) && SextetCount(i + 3) == SextetCount(i) + 4
  {
    var k := SextetCount(i);
    assert BitsLeft(k + 1) == 6;
    assert BitsLeft(k + 2) == 4;
    assert BitsLeft(k + 3) == 2;
    assert BitsLeft(k + 4) == 0;
    if i >= 3 {
      FourSextets(SextetCount(i - 3));
      AfterGroups(i - 3);
    }
  }

  /** The four sextets of a group of three bytes. */
  function Group(n: nat): (vs: seq<nat>)
    ensures InBase(R64, vs) && |vs| == 4
  {
    [n / 0x4_0000 % 64, n / 0x1000 % 64, n / 0x40 % 64, n % 64]
  }

  lemma GroupOf(a: nat, b: nat, c: nat)
    requires a < 256 && b < 256 && c < 256
    ensures Group(0x1_0000 * a + 0x100 * b + c) == [a / 4, 16 * (a % 4) + b / 16, 4 * (b % 16) + c / 64, c % 64]
  {
    var s0, s1, s2, s3 := a / 4, 16 * (a % 4) + b / 16, 4 * (b % 16) + c / 64, c % 64;
    var n := 0x1_0000 * a + 0x100 * b + c;
    assert n == 64 * (64 * (64 * s0 + s1) + s2) + s3;
    Remainder64(64 * (64 * s0 + s1) + s2, s3);
    Remainder64(64 * s0 + s1, s2);
    Remainder64(s0, s1);
    Remainder64(0, s0);
    assert n == 0x1000 * (64 * s0 + s1) + (64 * s2 + s3);
    assert n == 0x4_0000 * s0 + (0x1000 * s1 + 64 * s2 + s3);
    assert n / 0x40 == 64 * (64 * s0 + s1) + s2;
    assert n / 0x1000 == 64 * s0 + s1;
    assert n / 0x4_0000 == s0;
  }

  lemma Remainder64(q: nat, r: nat)
    requires r < 64
    ensures (64 * q + r) % 64 == r
  {
  }

  /** The value of a text of sextets with two, three or four more. */
  lemma ValueOfMore(vs: seq<nat>, s: seq<nat>)
    requires |s| == 4
    ensures Value(R64, vs + s[..2]) == 4096 * Value(R64, vs) + 64 * s[0] + s[1]
    ensures Value(R64, vs + s[..3]) == 64 * Value(R64, vs + s[..2]) + s[2]
    ensures Value(R64, vs + s) == 64 * Value(R64, vs + s[..3]) + s[3]
  {
    ValueNext(R64, vs, s[0]);
    ValueNext(R64, vs + [s[0]], s[1]);
    assert vs + s[..2] == vs + [s[0]] + [s[1]];
    ValueNext(R64, vs + s[..2], s[2]);
    assert vs + s[..3] == vs + s[..2] + [s[2]];
    ValueNext(R64, vs + s[..3], s[3]);
    assert vs + s == vs + s[..3] + [s[3]];
  }

  lemma PrefixValue(x: seq<nat>, i: nat)
    requires i < |x|
    ensures Value(R256, x[..i + 1]) == 256 * Value(R256, x[..i]) + x[i]
  {
    assert x[..i + 1] == x[..i] + [x[i]];
    ValueNext(R256, x[..i], x[i]);
  }

  lemma ValueOfGroup(vs: seq<nat>, a: nat, b: nat, c: nat)
    requires a < 256 && b < 256 && c < 256
    ensures var n := 0x1_0000 * a + 0x100 * b + c;
            Value(R64, vs + Group(n)) == 0x100_0000 * Value(R64, vs) + n
  {
    GroupOf(a, b, c);
    ValueOfMore(vs, Group(0x1_0000 * a + 0x100 * b + c));
  }

  lemma SpellsGroup(x: seq<nat>, i: nat, vs: seq<nat>)
    requires InBase(R256, x) && i + 3 <= |x| && Whole(i) && Spells(x, i, vs)
    ensures Spells(x, i + 3, vs + Group(0x1_0000 * x[i] + 0x100 * x[i + 1] + x[i + 2]))
  {
    AfterGroups(i);
    PrefixValue(x, i);
    PrefixValue(x, i + 1);
    PrefixValue(x, i + 2);
    ValueOfGroup(vs, x[i], x[i + 1], x[i + 2]);
  }

  lemma SpellsTwo(x: seq<nat>, i: nat, vs: seq<nat>)
    requires InBase(R256, x) && i + 2 == |x| && Whole(i) && Spells(x, i, vs)
    ensures Spells(x, i + 2, vs + Group(0x1_0000 * x[i] + 0x100 * x[i + 1])[..3])
  {
    GroupOf(x[i], x[i + 1], 0);
    AfterGroups(i);
    PrefixValue(x, i);
    PrefixValue(x, i + 1);
    ValueOfMore(vs, Group(0x1_0000 * x[i] + 0x100 * x[i + 1]));
  }

  lemma SpellsOne(x: seq<nat>, i: nat, vs: seq<nat>)
    requires InBase(R256, x) && i + 1 == |x| && Whole(i) && Spells(x, i, vs)
    ensures Spells(x, i + 1, vs + Group(0x1_0000 * x[i])[..2])
  {
    GroupOf(x[i], 0, 0);
    AfterGroups(i);
    PrefixValue(x, i);
    ValueOfMore(vs, Group(0x1_0000 * x[i]));
  }

  lemma SpellsAll(x: seq<nat>, vs: seq<nat>)
    requires Spells(x, |x|, vs)
    ensures Spell(vs) + Padding(|x|) == Encoded(x)
  {
    assert x[..|x|] == x;
    DigitsOfValue(R64, vs);
  }

  lemma SpellJoins(vs: seq<nat>, ws: seq<nat>)
    requires InBase(R64, vs) && InBase(R64, ws)
    ensures InBase(R64, vs + ws) && Spell(vs + ws) == Spell(vs) + Spell(ws)
  {
  }

  /** n << 16 | n << 8 | n of the bytes that are there. */
  function GroupNumber(x: seq<nat>, i: nat): nat
    requires i < |x|
  {
    0x1_0000 * x[i] + (if i + 1 < |x| then 0x100 * x[i + 1] else 0) + (if i + 2 < |x| then x[i + 2] else 0)
  }

  function FourChars(x: seq<nat>, i: nat): (text: string)
    requires i < |x|
    ensures |text| == 4
  {
    var g := Group(GroupNumber(x, i));
    [CharOf(g[0]), CharOf(g[1]),
     if i + 1 < |x| then CharOf(g[2]) else '=', if i + 2 < |x| then CharOf(g[3]) else '=']
  }

  lemma FourAre(x: seq<nat>, i: nat)
    requires i < |x|
    ensures var g := Group(GroupNumber(x, i));
            FourChars(x, i) == if i + 3 <= |x| then Spell(g)
                               else if i + 2 == |x| then Spell(g[..3]) + "=" else Spell(g[..2]) + "=="
  {
    hide Group, GroupNumber;
  }

  lemma SpellsNext(x: seq<nat>, i: nat, vs: seq<nat>) returns (ws: seq<nat>)
    requires InBase(R256, x) && i < |x| && Whole(i) && Spells(x, i, vs)
    ensures var m := if i + 3 <= |x| then i + 3 else |x|;
            Spells(x, m, ws) && Spell(vs) + FourChars(x, i) == Spell(ws) + Padding(m)
    ensures i + 3 <= |x| ==> Whole(i + 3)
  {
    hide FourChars, Group;
    AfterGroups(i);
    FourAre(x, i);
    var g := Group(GroupNumber(x, i));
    if i + 3 <= |x| {
      SpellsGroup(x, i, vs);
      ws := vs + g;
      SpellJoins(vs, g);
    } else if i + 2 == |x| {
      SpellsTwo(x, i, vs);
      ws := vs + g[..3];
      SpellJoins(vs, g[..3]);
    } else {
      SpellsOne(x, i, vs);
      ws := vs + g[..2];
      SpellJoins(vs, g[..2]);
    }
  }

  /** One turn of the loop of util_base64_encode: the four characters of the group at i. */
  method PutGroup(x: seq<nat>, i: nat, out: array<char>, o: nat)
    requires i < |x| && o + 4 <= out.Length
    modifies out
    ensures out[..o + 4] == old(out[..o]) + FourChars(x, i)
  {
    var n := 0x1_0000 * x[i];
    if i + 1 < |x| {
      n := n + 0x100 * x[i + 1];
    }
    if i + 2 < |x| {
      n := n + x[i + 2];
    }
    out[o] := CharOf(n / 0x4_0000 % 64);
    out[o + 1] := CharOf(n / 0x1000 % 64);
    out[o + 2] := if i + 1 < |x| then CharOf(n / 0x40 % 64) else '=';
    out[o + 3] := if i + 2 < |x| then CharOf(n % 64) else '=';
  }

  lemma {:induction false} WholeCount(i: nat) returns (q: nat)
    requires Whole(i)
    ensures i == 3 * q && SextetCount(i) == 4 * q
  {
    if i < 3 {
      q := 0;
    } else {
      FourSextets(SextetCount(i - 3));
      var p := WholeCount(i - 3);
      q := p + 1;
    }
  }

  lemma RoomForGroup(x: seq<nat>, i: nat, vs: seq<nat>)
    requires i < |x| && Whole(i) && Spells(x, i, vs)
    ensures |Spell(vs)| + 4 <= (|x| + 2) / 3 * 4
  {
    var q := WholeCount(i);
    assert (|x| + 2) / 3 >= q + 1;
  }

  lemma SpellsNothing(x: seq<nat>)
    ensures Spells(x, 0, []) && Spell([]) + Padding(0) == "" && Whole(0)
  {
    assert x[..0] == [];
  }

  /** util_base64_encode */
  method Encode(x: seq<nat>, out: array<char>) returns (rc: int)
    requires InBase(R256, x)
    modifies out
    ensures rc == if |Encoded(x)| < out.Length then 0 else -1
    ensures rc == 0 ==> out[..|Encoded(x)|] == Encoded(x) && out[|Encoded(x)|] == '\0'
    ensures rc == -1 ==> out[..] == old(out[..])
  {
    hide Encoded, FourChars, Spell, Padding, Value, Widen, SextetCount, BitsLeft;
    EncodedLength(x);
    SpellsNothing(x);
    var need := (|x| + 2) / 3 * 4 + 1;
    if out.Length < need {
      return -1;
    }
    var o: nat, i: nat := 0, 0;
    ghost var vs: seq<nat> := [];
    while i < |x|
      invariant o < out.Length
      invariant var m := if i <= |x| then i else |x|;
                Spells(x, m, vs) && out[..o] == Spell(vs) + Padding(m)
      invariant i <= |x| ==> Whole(i)
    {
      ghost var ws := SpellsNext(x, i, vs);
      RoomForGroup(x, i, vs);
      PutGroup(x, i, out, o);
      vs := ws;
      o := o + 4;
      i := i + 3;
    }
    SpellsAll(x, vs);
    out[o] := '\0';
    return 0;
  }

  // ----- Test vectors of section 10 of RFC 4648 -----

  lemma ValueOfOne(b: Radix, d: nat)
    ensures Value(b, [d]) == d
  {
    assert [d][..0] == [];
  }

  lemma ValueOfTwo(b: Radix, c: nat, d: nat)
    ensures Value(b, [c, d]) == Shift(b, c) + d
  {
    ValueOfOne(b, c);
    assert [c, d][..1] == [c];
  }

  /** "fo" in bytes is "Zm8=" in the encoding: the first byte comes first, and its high bits. */
  lemma EncodedFo()
    ensures Encoded([102, 111]) == "Zm8="
  {
    ValueOfTwo(R256, 102, 111);
    assert SextetCount(2) == 3 && BitsLeft(1) == 6 && BitsLeft(2) == 4 && BitsLeft(3) == 2 && Padding(2) == "=";
    assert Widen(26223, 2) == 104892;
    assert Head(R64, 104892) == 1638 && LastOf(R64, 104892) == 60;
    assert Head(R64, 1638) == 25 && LastOf(R64, 1638) == 38;
    assert Digits(R64, 25, 1) == Digits(R64, 0, 0) + [25];
    assert Digits(R64, 1638, 2) == Digits(R64, 25, 1) + [38];
    assert Digits(R64, 104892, 3) == Digits(R64, 1638, 2) + [60] == [25, 38, 60];
    assert Spell([25, 38, 60]) == "Zm8";
  }
}
