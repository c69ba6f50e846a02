/** The Secure Hash Algorithm as FIPS PUB 180-1 defines it, on whole bytes. */
module Sha1Standard {
  /** The circular shift S^n(X) of section 3. */
  function Rotl(x: bv32, n: bv32): bv32
    requires 0 < n < 32
  {
    (x << n) | (x >> (32 - n))
  }

  /** The functions f_t of section 5. */
  function F(t: nat, b: bv32, c: bv32, d: bv32): bv32 {
    if t < 20 then (b & c) | (!b & d)
    else if t < 40 then b ^ c ^ d
    else if t < 60 then (b & c) | (b & d) | (c & d)
    else b ^ c ^ d
  }

  /** The constants K_t of section 6. */
  function K(t: nat): bv32 {
    if t < 20 then 0x5A827999
    else if t < 40 then 0x6ED9EBA1
    else if t < 60 then 0x8F1BBCDC
    else 0xCA62C1D6
  }

  datatype Registers = Registers(a: bv32, b: bv32, c: bv32, d: bv32, e: bv32)

  /** Step (b)'s mixture of four earlier words. */
  function Mixed(p: bv32, q: bv32, r: bv32, s: bv32): bv32 {
    Rotl(p ^ q ^ r ^ s, 1)
  }

  /** The words W_0 to W_79 of section 7, steps (a) and (b). */
  function W(block: seq<bv32>, t: nat): bv32
    requires |block| == 16
  {
    if t < 16 then block[t] else Mixed(W(block, t - 3), W(block, t - 8), W(block, t - 14), W(block, t - 16))
  }

  /** Addition modulo 2^32. */
  function Plus(x: bv32, y: bv32): bv32 {
    x + y
  }

  /** TEMP of step (d). */
  function Temp(r: bv32, f: bv32, e: bv32, w: bv32, k: bv32): bv32 {
    r + f + e + w + k
  }

  /** Step (d) of section 7 for one t. */
  function Round(r: Registers, t: nat, w: bv32): Registers {
    Registers(Temp(Rotl(r.a, 5), F(t, r.b, r.c, r.d), r.e, w, K(t)), r.a, Rotl(r.b, 30), r.c, r.d)
  }

  function Rounds(r: Registers, block: seq<bv32>, n: nat): Registers
    requires |block| == 16
  {
    if n == 0 then r else Round(Rounds(r, block, n - 1), n - 1, W(block, n - 1))
  }

  function Sum(r: Registers, s: Registers): Registers {
    Registers(Plus(r.a, s.a), Plus(r.b, s.b), Plus(r.c, s.c), Plus(r.d, s.d), Plus(r.e, s.e))
  }

  /** Four bytes as a word, the first the most significant. */
  function WordOf(b: seq<bv8>, i: nat): bv32
    requires 4 * i + 3 < |b|
  {
    ((b[4 * i] as bv32) << 24) | ((b[4 * i + 1] as bv32) << 16) | ((b[4 * i + 2] as bv32) << 8) | (b[4 * i + 3] as bv32)
  }

  function WordsOf(b: seq<bv8>): (r: seq<bv32>)
    requires |b| == 64
    ensures |r| == 16
  {
    seq(16, i requires 0 <= i < 16 => WordOf(b, i))
  }

  /** Section 7 for one block: 80 rounds, then step (e). */
  function Compress(h: Registers, b: seq<bv8>): Registers
    requires |b| == 64
  {
    Sum(h, Rounds(h, WordsOf(b), 80))
  }

  /** Section 7 for the first k blocks of m, in order. */
  function HashBlocks(h: Registers, m: seq<bv8>, k: nat): Registers
    requires 64 * k <= |m|
  {
    if k == 0 then h else Compress(HashBlocks(h, m, k - 1), m[64 * (k - 1)..64 * k])
  }

  const H0 := Registers(0x67452301, 0xEFCDAB89, 0x98BADCFE, 0x10325476, 0xC3D2E1F0)

  /** Byte k of a 32-bit word, most significant first. */
  function LengthByte(w: nat, k: nat): bv8
    requires k < 4
  {
    match k
    case 0 => (w / 0x100_0000 % 0x100) as bv8
    case 1 => (w / 0x1_0000 % 0x100) as bv8
    case 2 => (w / 0x100 % 0x100) as bv8
    case 3 => (w % 0x100) as bv8
  }

  function BigEndian(w: nat): (r: seq<bv8>)
    ensures |r| == 4
  {
    [LengthByte(w, 0), LengthByte(w, 1), LengthByte(w, 2), LengthByte(w, 3)]
  }

  /** Section 4's two words for the length in bits, most significant byte first. */
  function LengthBytes(bits: nat): (r: seq<bv8>)
    ensures |r| == 8
  {
    var hi, lo := bits / 0x1_0000_0000 % 0x1_0000_0000, bits % 0x1_0000_0000;
    BigEndian(hi) + BigEndian(lo)
  }

  function Zeros(n: nat): seq<bv8> {
    seq(n, _ => 0)
  }

  /** The fewest zero bytes that, after the byte with the 1 bit, leave 8 bytes of the last block. */
  function ZeroCount(n: nat): nat {
    (119 - n % 64) % 64
  }

  /** The padded message of section 4. */
  function Pad(m: seq<bv8>): seq<bv8> {
    m + [0x80] + Zeros(ZeroCount(|m|)) + LengthBytes(8 * |m|)
  }

  function WordByte(w: bv32, k: nat): bv8
    requires k < 4
  {
    match k
    case 0 => ((w >> 24) & 255) as bv8
    case 1 => ((w >> 16) & 255) as bv8
    case 2 => ((w >> 8) & 255) as bv8
    case 3 => (w & 255) as bv8
  }

  function WordBytes(w: bv32): seq<bv8> {
    [WordByte(w, 0), WordByte(w, 1), WordByte(w, 2), WordByte(w, 3)]
  }

  /** The digest's 20 bytes. */
  function Bytes(h: Registers): seq<bv8> {
    WordBytes(h.a) + WordBytes(h.b) + WordBytes(h.c) + WordBytes(h.d) + WordBytes(h.e)
  }

  function Sha1(m: seq<bv8>): seq<bv8> {
    Bytes(HashBlocks(H0, Pad(m), |Pad(m)| / 64))
  }

  /** n bytes with the 1 bit's byte, k zero bytes and the length are whole blocks. */
  predicate FillsBlocks(n: nat, k: nat) {
    (n + 1 + k + 8) % 64 == 0
  }

  /** The padded message is whole blocks, and no shorter padding is. */
  lemma PaddedLength(n: nat)
    ensures FillsBlocks(n, ZeroCount(n))
    ensures forall k: nat :: k < ZeroCount(n) ==> !FillsBlocks(n, k)
  {
  }

  /** The first k blocks are all that counts. */
  lemma {:induction false} HashPrefix(h: Registers, m: seq<bv8>, m': seq<bv8>, k: nat)
    requires 64 * k <= |m| && 64 * k <= |m'| && m[..64 * k] == m'[..64 * k]
    ensures HashBlocks(h, m, k) == HashBlocks(h, m', k)
  {
    if k > 0 {
      assert m[..64 * (k - 1)] == m[..64 * k][..64 * (k - 1)];
      assert m'[..64 * (k - 1)] == m'[..64 * k][..64 * (k - 1)];
      assert m[64 * (k - 1)..64 * k] == m[..64 * k][64 * (k - 1)..];
      assert m'[64 * (k - 1)..64 * k] == m'[..64 * k][64 * (k - 1)..];
      HashPrefix(h, m, m', k - 1);
    }
  }
}
