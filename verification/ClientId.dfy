/** Client ids as the TSE sees them (c/src/tse_worm.c, worm_fnv1a64 and worm_safe_client_id).

    The TSE stores client ids in 31-byte slots, so an id over 30 bytes is replaced by a
    13-byte prefix, a dash and the 16 hexadecimal digits of its 64-bit FNV-1a hash. */
module ClientId {
  import opened Bytes

  type Id = seq<Byte>

  const WORD: int := 0x1_0000_0000_0000_0000
  type Word = x: int | 0 <= x < WORD

  const MAX_LEN: nat := 30
  const FNV_OFFSET: Word := 14695981039346656037
  const FNV_PRIME: int := 1099511628211
  // FNV_PRIME * FNV_INVERSE is 1 modulo 2^64
  const FNV_INVERSE: int := 0xCE965057AFF6957B

  // "default" and "cloudtse-startup" in ASCII
  const DEFAULT: Id := [100, 101, 102, 97, 117, 108, 116]
  const STARTUP: Id := [99, 108, 111, 117, 100, 116, 115, 101, 45, 115, 116, 97, 114, 116, 117, 112]

  function Pow2(n: nat): (p: nat)
    ensures p > 0
  {
    if n == 0 then 1 else 2 * Pow2(n - 1)
  }

  /** Exclusive or of the lowest k bits. */
  function Xor(a: nat, b: nat, k: nat): (r: nat)
    ensures r < Pow2(k)
  {
    if k == 0 then 0
    else (if a % 2 == b % 2 then 0 else 1) + 2 * Xor(a / 2, b / 2, k - 1)
  }

  lemma {:induction false} XorInvolutive(a: nat, b: nat, k: nat)
    requires a < Pow2(k)
    ensures Xor(Xor(a, b, k), b, k) == a
  {
    if k > 0 {
      var bit, r := if a % 2 == b % 2 then 0 else 1, Xor(a / 2, b / 2, k - 1);
      XorInvolutive(a / 2, b / 2, k - 1);
      assert Xor(a, b, k) == bit + 2 * r;
      assert (bit + 2 * r) / 2 == r && (bit + 2 * r) % 2 == bit;
    }
  }

  lemma {:induction false} XorCommutes(a: nat, b: nat, k: nat)
    ensures Xor(a, b, k) == Xor(b, a, k)
  {
    if k > 0 {
      XorCommutes(a / 2, b / 2, k - 1);
    }
  }

  function Xor8(a: Byte, b: Byte): (r: Byte)
  {
    assert Pow2(8) == 256;
    Xor(a, b, 8)
  }

  /** h ^= c touches only the low byte. */
  function XorByte(h: Word, c: Byte): Word {
    h - h % 256 + Xor8(h % 256, c)
  }

  /** One FNV-1a round on an unsigned 64-bit word. */
  function Mix(h: Word, c: Byte): Word {
    XorByte(h, c) * FNV_PRIME % WORD
  }

  /** FNV-1a from a given starting value; the last byte is mixed last. */
  function Fnv(h: Word, s: Id): Word {
    if s == [] then h else Mix(Fnv(h, s[..|s| - 1]), s[|s| - 1])
  }

  function HexDigit(n: int): Byte
    requires 0 <= n < 16
  {
    if n < 10 then 48 + n else 87 + n
  }

  function Pow16(n: nat): (p: nat)
    ensures p > 0
  {
    if n == 0 then 1 else 16 * Pow16(n - 1)
  }

  /** The n low hexadecimal digits of h, most significant first ("%016llx" has n = 16). */
  function Hex(h: nat, n: nat): (r: Id)
    ensures |r| == n
  {
    if n == 0 then [] else Hex(h / 16, n - 1) + [HexDigit(h % 16)]
  }

  /** What worm_safe_client_id leaves in its output buffer. */
  function SafeId(id: Id): (r: Id)
    ensures 0 < |r| <= MAX_LEN
    ensures 0 < |id| <= MAX_LEN ==> r == id
  {
    if |id| == 0 then DEFAULT
    else if |id| <= MAX_LEN then id
    else id[..13] + [45] + Hex(Fnv(FNV_OFFSET, id), 16)
  }

  method Fnv1a64(s: Id) returns (h: Word)
    ensures h == Fnv(FNV_OFFSET, s)
  {
    h := FNV_OFFSET;
    for i := 0 to |s|
      invariant h == Fnv(FNV_OFFSET, s[..i])
    {
      assert s[..i + 1][..i] == s[..i];
      h := XorByte(h, s[i]);
      h := h * FNV_PRIME % WORD;
    }
    assert s[..|s|] == s;
  }

  method SafeClientId(id: Id) returns (r: Id)
    ensures r == SafeId(id)
  {
    if |id| == 0 { return DEFAULT; }
    if |id| <= MAX_LEN { return id; }
    var h := Fnv1a64(id);
    var hashHex := Hex(h, 16);
    var prefixLen := MAX_LEN - 1 - |hashHex|;
    if prefixLen > |id| { prefixLen := |id|; }
    r := id[..prefixLen] + [45] + hashHex;
  }

  lemma SafeIdIdempotent(id: Id)
    ensures SafeId(SafeId(id)) == SafeId(id)
  {
    var r := SafeId(id);
    assert 0 < |r| <= MAX_LEN;
  }

  lemma ModUnique(x: int, k: int, m: int)
    requires 0 <= x < m
    ensures (x + m * k) % m == x
  {
    var q := (x + m * k) / m;
    MultipleOutside(q - k, m);
    assert m * (q - k) == x - (x + m * k) % m;
  }

  lemma MultipleOutside(d: int, m: int)
    requires m > 0
    ensures d != 0 ==> m * d >= m || m * d <= -m
  {
  }

  /** Multiplying by the odd FNV prime is undone by its inverse. */
  lemma PrimeCancels(x: Word)
    ensures (x * FNV_PRIME % WORD) * FNV_INVERSE % WORD == x
  {
    var q, r := x * FNV_PRIME / WORD, x * FNV_PRIME % WORD;
    var k := (FNV_PRIME * FNV_INVERSE - 1) / WORD;
    assert FNV_PRIME * FNV_INVERSE == 1 + WORD * k;
    assert r * FNV_INVERSE == x + WORD * (k * x - q * FNV_INVERSE);
    ModUnique(x, k * x - q * FNV_INVERSE, WORD);
  }

  lemma LowByte(q: int, x: Byte)
    ensures (256 * q + x) % 256 == x
  {
  }

  lemma XorByteCancels(h: Word, c: Byte)
    ensures XorByte(XorByte(h, c), c) == h
  {
    assert Pow2(8) == 256;
    XorInvolutive(h % 256, c, 8);
    LowByte(h / 256, Xor8(h % 256, c));
  }

  /** Each round is injective in the running hash ... */
  lemma MixInjectiveInHash(g: Word, h: Word, c: Byte)
    requires g != h
    ensures Mix(g, c) != Mix(h, c)
  {
    PrimeCancels(XorByte(g, c));
    PrimeCancels(XorByte(h, c));
    XorByteCancels(g, c);
    XorByteCancels(h, c);
  }

  /** ... and in the byte. */
  lemma MixInjectiveInByte(h: Word, c: Byte, d: Byte)
    requires c != d
    ensures Mix(h, c) != Mix(h, d)
  {
    hide Xor;
    PrimeCancels(XorByte(h, c));
    PrimeCancels(XorByte(h, d));
    assert Pow2(8) == 256;
    XorCommutes(h % 256, c, 8);
    XorCommutes(h % 256, d, 8);
    XorInvolutive(c, h % 256, 8);
    XorInvolutive(d, h % 256, 8);
  }

  ghost predicate DifferOnlyAt(s: Id, t: Id, i: nat) {
    && |s| == |t| && i < |s| && s[i] != t[i]
    && forall j :: 0 <= j < |s| && j != i ==> s[j] == t[j]
  }

  /** Changing exactly one byte always changes the 64-bit hash. */
  lemma {:induction false} FnvSeparates(h: Word, s: Id, t: Id, i: nat)
    requires DifferOnlyAt(s, t, i)
    ensures Fnv(h, s) != Fnv(h, t)
  {
    var n := |s| - 1;
    if i == n {
      assert s[..n] == t[..n];
      MixInjectiveInByte(Fnv(h, s[..n]), s[n], t[n]);
    } else {
      FnvSeparates(h, s[..n], t[..n], i);
      MixInjectiveInHash(Fnv(h, s[..n]), Fnv(h, t[..n]), s[n]);
    }
  }

  lemma {:induction false} HexInjective(g: nat, h: nat, n: nat)
    requires g < Pow16(n) && h < Pow16(n)
    requires Hex(g, n) == Hex(h, n)
    ensures g == h
  {
    if n > 0 {
      var a, b := Hex(g, n), Hex(h, n);
      assert a[..n - 1] == Hex(g / 16, n - 1) && b[..n - 1] == Hex(h / 16, n - 1);
      assert a[n - 1] == HexDigit(g % 16) && b[n - 1] == HexDigit(h % 16);
      HexInjective(g / 16, h / 16, n - 1);
    }
  }

  lemma Pow16Word()
    ensures Pow16(16) == WORD
  {
    assert Pow16(4) == 65536;
    assert Pow16(8) == 0x1_0000_0000;
    assert Pow16(12) == 0x1_0000_0000_0000;
  }

  /** Two long ids that differ in exactly one byte never share a TSE slot. */
  lemma LongIdsStayDistinct(s: Id, t: Id, i: nat)
    requires |s| > MAX_LEN && DifferOnlyAt(s, t, i)
    ensures SafeId(s) != SafeId(t)
  {
    var g, h := Fnv(FNV_OFFSET, s), Fnv(FNV_OFFSET, t);
    FnvSeparates(FNV_OFFSET, s, t, i);
    assert SafeId(s)[14..] == Hex(g, 16) && SafeId(t)[14..] == Hex(h, 16);
    Pow16Word();
    if Hex(g, 16) == Hex(h, 16) {
      HexInjective(g, h, 16);
    }
  }

  // ----- The spelling of a shortened id -----

  /** "0123456789abcdef" in ASCII */
  const HEX_DIGITS: Id := [48, 49, 50, 51, 52, 53, 54, 55, 56, 57, 97, 98, 99, 100, 101, 102]

  /** t spells h in hexadecimal, the last digit last. */
  predicate Spells(t: Id, h: nat) {
    if t == [] then h == 0
    else t[|t| - 1] == HEX_DIGITS[h % 16] && Spells(t[..|t| - 1], h / 16)
  }

  lemma DigitSpelled(n: nat)
    requires n < 16
    ensures HexDigit(n) == HEX_DIGITS[n]
  {
  }

  lemma {:induction false} HexSpells(h: nat, n: nat)
    requires h < Pow16(n)
    ensures Spells(Hex(h, n), h)
  {
    if n > 0 {
      var t := Hex(h / 16, n - 1) + [HexDigit(h % 16)];
      assert t[..|t| - 1] == Hex(h / 16, n - 1);
      DigitSpelled(h % 16);
      HexSpells(h / 16, n - 1);
    }
  }

  /** A long id becomes its first 13 bytes, a dash and the 16 hexadecimal digits of its hash. */
  lemma LongIdSpelled(id: Id)
    requires |id| > 30
    ensures var r := SafeId(id);
            |r| == 30 && r[..13] == id[..13] && r[13] == 45 && Spells(r[14..], Fnv(FNV_OFFSET, id))
  {
    hide Fnv, Hex, Spells;
    var h := Fnv(FNV_OFFSET, id);
    Pow16Word();
    HexSpells(h, 16);
    assert SafeId(id)[14..] == Hex(h, 16);
  }

  /** id is the text s in ASCII. */
  predicate Ascii(id: Id, s: string) {
    |id| == |s| && forall i :: 0 <= i < |s| ==> id[i] == s[i] as int
  }

  lemma NamesSpelled()
    ensures Ascii(SafeId([]), "default") && Ascii(STARTUP, "cloudtse-startup")
  {
    var d, t := "default", "cloudtse-startup";
    forall i | 0 <= i < 7 ensures DEFAULT[i] == d[i] as int {
    }
    forall i | 0 <= i < 16 ensures STARTUP[i] == t[i] as int {
    }
  }

  /** The published test vectors of FNV-1a: the empty text and "a". */
  lemma FnvVectors()
    ensures Fnv(FNV_OFFSET, []) == 0xCBF29CE484222325 && Fnv(FNV_OFFSET, [97]) == 0xAF63DC4C8601EC8C
  {
    hide Mix;
    assert [97][..0] == [];
    assert Fnv(FNV_OFFSET, [97]) == Mix(0xCBF29CE484222325, 97);
    MixVector();
  }

  lemma XorStep(a: nat, b: nat, k: nat, r: nat)
    requires Xor(a / 2, b / 2, k) == r
    ensures Xor(a, b, k + 1) == (if a % 2 == b % 2 then 0 else 1) + 2 * r
  {
  }

  lemma XorVector()
    ensures Xor(37, 97, 8) == 68
  {
    hide Xor;
    XorNothing();
    XorStep(0, 0, 0, 0);
    XorStep(0, 1, 1, 0);
    XorStep(1, 3, 2, 1);
    XorStep(2, 6, 3, 2);
    XorStep(4, 12, 4, 4);
    XorStep(9, 24, 5, 8);
    XorStep(18, 48, 6, 17);
    XorStep(37, 97, 7, 34);
  }

  lemma XorNothing()
    ensures Xor(0, 0, 0) == 0
  {
  }

  lemma ProductVector()
    ensures 0xCBF29CE484222344 * 1099511628211 % 0x1_0000_0000_0000_0000 == 0xAF63DC4C8601EC8C
  {
  }

  lemma MixVector()
    ensures Mix(0xCBF29CE484222325, 97) == 0xAF63DC4C8601EC8C
  {
    hide Xor;
    XorVector();
    ProductVector();
    assert 0xCBF29CE484222325 % 256 == 37;
    assert XorByte(0xCBF29CE484222325, 97) == 0xCBF29CE484222344;
  }
}
