/** SHA1Transform, SHA1Init, SHA1Update and SHA1Final of lab8.patch, on a little-endian machine. */
module Sha1 {
  import opened Sha1Standard

  /** l[i] of the union: four bytes as the machine stores a word. */
  function Load(b: seq<bv8>, i: nat): bv32
    requires 4 * i + 3 < |b|
  {
    (b[4 * i] as bv32) | ((b[4 * i + 1] as bv32) << 8) | ((b[4 * i + 2] as bv32) << 16) | ((b[4 * i + 3] as bv32) << 24)
  }

  /** The macro blk0's byte swap. */
  function Swap(x: bv32): bv32 {
    (Rotl(x, 24) & 0xFF00FF00) | (Rotl(x, 8) & 0x00FF00FF)
  }

  lemma SwapBytes(p: bv32, q: bv32, r: bv32, s: bv32)
    requires p < 0x100 && q < 0x100 && r < 0x100 && s < 0x100
    ensures Swap(p | (q << 8) | (r << 16) | (s << 24)) == (p << 24) | (q << 16) | (r << 8) | s
  {
  }

  lemma SwapOfLoad(b: seq<bv8>, i: nat)
    requires 4 * i + 3 < |b|
    ensures Swap(Load(b, i)) == WordOf(b, i)
  {
    SwapBytes(b[4 * i] as bv32, b[4 * i + 1] as bv32, b[4 * i + 2] as bv32, b[4 * i + 3] as bv32);
  }

  /** The first operand of z += in the macros R0 to R4, and their constant. */
  function Mix(t: nat, w: bv32, x: bv32, y: bv32): bv32 {
    if t < 20 then (w & (x ^ y)) ^ y
    else if t < 40 then w ^ x ^ y
    else if t < 60 then ((w | x) & y) | (w & x)
    else w ^ x ^ y
  }

  lemma Choose(w: bv32, x: bv32, y: bv32)
    ensures (w & (x ^ y)) ^ y == (w & x) | (!w & y)
  {
  }

  lemma Majority(w: bv32, x: bv32, y: bv32)
    ensures ((w | x) & y) | (w & x) == (w & x) | (w & y) | (x & y)
  {
  }

  /** The macros' operations are those of the standard. */
  lemma MixIsF(t: nat, w: bv32, x: bv32, y: bv32)
    ensures Mix(t, w, x, y) == F(t, w, x, y)
  {
    Choose(w, x, y);
    Majority(w, x, y);
  }

  // ----- the circular schedule of section 8 -----

  /** blk0(i) and blk(i): the 16 words after the word for round i has been put in its place. */
  function Expand(l: seq<bv32>, i: nat): (r: seq<bv32>)
    requires |l| == 16
    ensures |r| == 16
  {
    if i < 16 then l[i := Swap(l[i])]
    else l[i % 16 := Mixed(l[(i + 13) % 16], l[(i + 8) % 16], l[(i + 2) % 16], l[i % 16])]
  }

  /** The last round before t whose word belongs in place s. */
  function LastRound(t: nat, s: nat): int {
    t - 1 - (t - 1 - s) % 16
  }

  /** Place s before round t: the block's own word as loaded, or the last W computed for the place. */
  ghost predicate Place(l: seq<bv32>, b: seq<bv8>, t: nat, s: nat)
    requires |l| == 16 && |b| == 64 && s < 16
  {
    if t <= s then l[s] == Load(b, s) else LastRound(t, s) >= 0 && l[s] == W(WordsOf(b), LastRound(t, s))
  }

  ghost predicate Window(l: seq<bv32>, b: seq<bv8>, t: nat) {
    |l| == 16 && |b| == 64 && forall s: nat :: s < 16 ==> Place(l, b, t, s)
  }

  lemma LastRounds(t: nat, s: nat)
    requires t > s && s < 16
    ensures LastRound(t, s) >= 0 && LastRound(t, s) % 16 == s && t - 16 <= LastRound(t, s) < t
    ensures LastRound(t + 1, s) == if s == t % 16 then t else LastRound(t, s)
  {
  }

  lemma PlaceOf(t: nat, k: nat)
    requires 1 <= k <= 16 <= t
    ensures (t + 16 - k) % 16 < t && LastRound(t, (t + 16 - k) % 16) == t - k
  {
    assert (t + 16 - k) % 16 == (t - k) % 16;
    assert (t - 1 - (t - k) % 16) % 16 == k - 1;
  }

  /** k rounds back, the word is still in its place. */
  lemma Back(l: seq<bv32>, b: seq<bv8>, t: nat, k: nat)
    requires Window(l, b, t) && t >= 16 && 1 <= k <= 16
    ensures l[(t + 16 - k) % 16] == W(WordsOf(b), t - k)
  {
    assert Place(l, b, t, (t + 16 - k) % 16);
    PlaceOf(t, k);
  }

  lemma MixedIsW(m: seq<bv32>, t: nat, p: bv32, q: bv32, r: bv32, s: bv32)
    requires |m| == 16 && t >= 16
    requires p == W(m, t - 3) && q == W(m, t - 8) && r == W(m, t - 14) && s == W(m, t - 16)
    ensures Mixed(p, q, r, s) == W(m, t)
  {
  }

  lemma LaterWord(l: seq<bv32>, b: seq<bv8>, t: nat)
    requires Window(l, b, t) && t >= 16
    ensures Mixed(l[(t + 13) % 16], l[(t + 8) % 16], l[(t + 2) % 16], l[t % 16]) == W(WordsOf(b), t)
  {
    Back(l, b, t, 3);
    Back(l, b, t, 8);
    Back(l, b, t, 14);
    Back(l, b, t, 16);
    MixedIsW(WordsOf(b), t, l[(t + 13) % 16], l[(t + 8) % 16], l[(t + 2) % 16], l[t % 16]);
  }

  /** The word that the 16-word schedule uses in round t is W_t of the 80-word one. */
  lemma ExpandIsW(l: seq<bv32>, b: seq<bv8>, t: nat)
    requires Window(l, b, t)
    ensures Expand(l, t)[t % 16] == W(WordsOf(b), t)
  {
    if t < 16 {
      assert Place(l, b, t, t);
      SwapOfLoad(b, t);
    } else {
      LaterWord(l, b, t);
    }
  }

  lemma ExpandKeepsWindow(l: seq<bv32>, b: seq<bv8>, t: nat)
    requires Window(l, b, t)
    ensures Window(Expand(l, t), b, t + 1)
  {
    ExpandIsW(l, b, t);
    var l', u := Expand(l, t), t + 1;
    forall s: nat | s < 16 ensures Place(l', b, u, s) {
      assert Place(l, b, t, s);
      if t > s {
        LastRounds(t, s);
      }
    }
  }

  /** z += f + word + k + r in the macros. */
  function MacroSum(z: bv32, f: bv32, word: bv32, k: bv32, r: bv32): bv32 {
    z + (f + word + k + r)
  }

  lemma AnyOrder(z: bv32, f: bv32, word: bv32, k: bv32, r: bv32)
    ensures z + (f + word + k + r) == r + f + z + word + k
  {
  }

  lemma SumOrder(z: bv32, f: bv32, word: bv32, k: bv32, r: bv32)
    ensures MacroSum(z, f, word, k, r) == Temp(r, f, z, word, k)
  {
    AnyOrder(z, f, word, k, r);
  }

  /** Macro R for round i on (v, w, x, y, z) is the standard's round on those registers. */
  lemma MacroIsRound(i: nat, v: bv32, w: bv32, x: bv32, y: bv32, z: bv32, word: bv32)
    ensures Registers(MacroSum(z, Mix(i, w, x, y), word, K(i), Rotl(v, 5)), v, Rotl(w, 30), x, y) ==
            Round(Registers(v, w, x, y, z), i, word)
  {
    MixIsF(i, w, x, y);
    SumOrder(z, F(i, w, x, y), word, K(i), Rotl(v, 5));
  }

  /** The macros R0 to R4. The caller goes on with its registers renamed by one place. */
  method R(i: nat, v: bv32, w: bv32, x: bv32, y: bv32, z: bv32, l: seq<bv32>, ghost h: Registers, ghost b: seq<bv8>)
    returns (w': bv32, z': bv32, l': seq<bv32>)
    requires Window(l, b, i) && Registers(v, w, x, y, z) == Rounds(h, WordsOf(b), i)
    ensures Window(l', b, i + 1) && Registers(z', v, w', x, y) == Rounds(h, WordsOf(b), i + 1)
  {
    ExpandIsW(l, b, i);
    ExpandKeepsWindow(l, b, i);
    l' := Expand(l, i);
    MacroIsRound(i, v, w, x, y, z, l'[i % 16]);
    z' := MacroSum(z, Mix(i, w, x, y), l'[i % 16], K(i), Rotl(v, 5));
    w' := Rotl(w, 30);
  }

  /** The union's 16 words. */
  function LoadAll(b: seq<bv8>): (r: seq<bv32>)
    requires |b| == 64
    ensures |r| == 16
  {
    seq(16, i requires 0 <= i < 16 => Load(b, i))
  }

  /** SHA1Transform: its 80 macro calls are 16 times the same 5. */
  method Transform(state: Registers, b: seq<bv8>) returns (r: Registers)
    requires |b| == 64
    ensures r == Compress(state, b)
  {
    var l := LoadAll(b);
    var a, b', c, d, e := state.a, state.b, state.c, state.d, state.e;
    var i := 0;
    while i < 80
      invariant i <= 80 && i % 5 == 0 && Window(l, b, i)
      invariant Registers(a, b', c, d, e) == Rounds(state, WordsOf(b), i)
    {
      b', e, l := R(i, a, b', c, d, e, l, state, b);
      a, d, l := R(i + 1, e, a, b', c, d, l, state, b);
      e, c, l := R(i + 2, d, e, a, b', c, l, state, b);
      d, b', l := R(i + 3, c, d, e, a, b', l, state, b);
      c, a, l := R(i + 4, b', c, d, e, a, l, state, b);
      i := i + 5;
    }
    assert i == 80;
    r := Sum(state, Registers(a, b', c, d, e));
  }

  /** (buffer's new contents) memcpy of d into b at offset o. */
  function Copied(b: seq<bv8>, o: nat, d: seq<bv8>): seq<bv8>
    requires o + |d| <= |b|
  {
    b[..o] + d + b[o + |d|..]
  }

  const TWO32 := 0x1_0000_0000

  /** The two 32-bit words count 8 bits per byte fed, modulo 2^64. */
  predicate Counts(count0: nat, count1: nat, n: nat) {
    count0 < TWO32 && count1 < TWO32 && count0 + TWO32 * count1 == 8 * n % (TWO32 * TWO32)
  }

  lemma SmallRemainder(x: nat, q: nat)
    requires x < TWO32 * TWO32
    ensures (x + TWO32 * TWO32 * q) % (TWO32 * TWO32) == x
  {
  }

  /** SHA1Update's addition of len << 3 and len >> 29 with its carry. */
  lemma CountsMore(count0: nat, count1: nat, n: nat, len: nat)
    requires Counts(count0, count1, n) && len < TWO32
    ensures var c0 := (count0 + 8 * len % TWO32) % TWO32;
            var c1 := (count1 + (if c0 < count0 then 1 else 0) + len / 0x2000_0000) % TWO32;
            Counts(c0, c1, n + len)
  {
    var low, high := 8 * len % TWO32, len / 0x2000_0000;
    assert low + TWO32 * high == 8 * len;
    var c0 := (count0 + low) % TWO32;
    var carry := if c0 < count0 then 1 else 0;
    assert count0 + low == c0 + TWO32 * carry;
    var sum := count1 + carry + high;
    var c1 := sum % TWO32;
    var q := 8 * n / (TWO32 * TWO32);
    assert 8 * n == count0 + TWO32 * count1 + TWO32 * TWO32 * q;
    assert sum == c1 + TWO32 * (sum / TWO32);
    assert 8 * (n + len) == c0 + TWO32 * c1 + TWO32 * TWO32 * (q + sum / TWO32);
    SmallRemainder(c0 + TWO32 * c1, q + sum / TWO32);
  }

  lemma CarryFirst(c: nat, high: nat)
    requires c < TWO32
    ensures ((c + 1) % TWO32 + high) % TWO32 == (c + 1 + high) % TWO32
  {
  }

  lemma WaitingCount(count0: nat, count1: nat, n: nat)
    requires Counts(count0, count1, n)
    ensures count0 / 8 % 64 == n % 64
  {
    var q := 8 * n / (TWO32 * TWO32);
    var k := count1 + TWO32 * q;
    assert 8 * n == count0 + TWO32 * k;
    assert n == count0 / 8 + 0x2000_0000 * k;
  }

  /** What a context stands for after the bytes of m: the hash of its whole blocks, and the rest. */
  ghost predicate Holds(state: Registers, count0: nat, count1: nat, buffer: seq<bv8>, m: seq<bv8>) {
    && |buffer| == 64 && Counts(count0, count1, |m|)
    && state == HashBlocks(H0, m, |m| / 64)
    && buffer[..|m| % 64] == m[|m| - |m| % 64..]
  }

  /** q blocks of m hashed; the rest of m with the first bytes of d makes one more block. */
  lemma FirstBlock(m: seq<bv8>, d: seq<bv8>, q: nat, b: seq<bv8>)
    requires 64 * q <= |m| < 64 * (q + 1) <= |m| + |d| && |b| == 64 && b == m[64 * q..] + d[..64 * (q + 1) - |m|]
    ensures HashBlocks(H0, m + d, q + 1) == Compress(HashBlocks(H0, m, q), b)
  {
    assert (m + d)[..64 * q] == m[..64 * q];
    HashPrefix(H0, m, m + d, q);
    assert (m + d)[64 * q..64 * (q + 1)] == b;
  }

  /** A block that lies in d. */
  lemma InnerBlock(m: seq<bv8>, d: seq<bv8>, q: nat, i: nat)
    requires |m| + i == 64 * q && i + 64 <= |d|
    ensures HashBlocks(H0, m + d, q + 1) == Compress(HashBlocks(H0, m + d, q), d[i..i + 64])
  {
    assert (m + d)[64 * q..64 * (q + 1)] == d[i..i + 64];
  }

  /** The rest of d fits the buffer behind whole blocks. */
  lemma RestHeld(m: seq<bv8>, d: seq<bv8>, q: nat, i: nat, state: Registers, c0: nat, c1: nat, buffer: seq<bv8>)
    requires |m| + i == 64 * q && i <= |d| < i + 64 && |buffer| == 64 && buffer[..|d| - i] == d[i..]
    requires Counts(c0, c1, |m + d|) && state == HashBlocks(H0, m + d, q)
    ensures Holds(state, c0, c1, buffer, m + d)
  {
    assert |m + d| / 64 == q && |m + d| % 64 == |d| - i;
    assert (m + d)[64 * q..] == d[i..];
  }

  /** d fits behind what waits. */
  lemma AllHeld(m: seq<bv8>, d: seq<bv8>, q: nat, j: nat, state: Registers, c0: nat, c1: nat, buffer: seq<bv8>)
    requires |m| == 64 * q + j && j + |d| < 64 && |buffer| == 64 && buffer[..j + |d|] == m[64 * q..] + d
    requires Counts(c0, c1, |m + d|) && state == HashBlocks(H0, m, q)
    ensures Holds(state, c0, c1, buffer, m + d)
  {
    assert |m + d| / 64 == q && |m + d| % 64 == j + |d|;
    assert (m + d)[..64 * q] == m[..64 * q];
    HashPrefix(H0, m, m + d, q);
    assert (m + d)[64 * q..] == m[64 * q..] + d;
  }

  /** SHA1Update's test in 32-bit arithmetic says whether the j waiting bytes and len more make a block
      exactly when the sum does not wrap. */
  lemma LengthTest(j: nat, len: nat)
    requires j < 64 && len < TWO32
    ensures ((j + len) % TWO32 > 63 <==> j + len > 63) <==> j + len < TWO32
  {
    if j + len >= TWO32 {
      assert (j + len) % TWO32 == j + len - TWO32;
    }
  }

  /** Nor does the loop's i + 63 wrap then. */
  lemma NoWrap(m: nat, len: nat, i: nat, q: nat)
    requires m + i == 64 * q && m % 64 + len < TWO32
    ensures i <= len ==> i + 63 < TWO32
  {
    assert i + m % 64 == 64 * (q - m / 64);
  }

  /** The padding loop's test says whether the zero bytes are as many as the standard wants. */
  lemma EnoughZeros(n: nat, k: nat)
    requires k <= ZeroCount(n)
    ensures (n + 1 + k) % 64 == 56 <==> k == ZeroCount(n)
  {
    PaddedLength(n);
  }

  lemma OneMoreZero(m: seq<bv8>, k: nat)
    ensures m + [0x80] + Zeros(k) + [0] == m + [0x80] + Zeros(k + 1)
  {
  }

  /** finalcount's first k bytes. */
  function CountBytes(count0: nat, count1: nat, k: nat): seq<bv8>
    requires k <= 8
  {
    if k == 0 then []
    else CountBytes(count0, count1, k - 1) + [LengthByte(if k - 1 >= 4 then count0 else count1, (k - 1) % 4)]
  }

  lemma FourAppended(s: seq<bv8>, a: bv8, b: bv8, c: bv8, d: bv8)
    ensures s + [a] + [b] + [c] + [d] == s + [a, b, c, d]
  {
  }

  lemma NextCountByte(count0: nat, count1: nat, k: nat, c: nat, j: nat)
    requires k < 8 && j == k % 4 && c == if k >= 4 then count0 else count1
    ensures CountBytes(count0, count1, k + 1) == CountBytes(count0, count1, k) + [LengthByte(c, j)]
  {
  }

  lemma FourCountBytes(count0: nat, count1: nat, k: nat, c: nat)
    requires (k == 0 && c == count1) || (k == 4 && c == count0)
    ensures CountBytes(count0, count1, k + 4) == CountBytes(count0, count1, k) + BigEndian(c)
  {
    NextCountByte(count0, count1, k, c, 0);
    NextCountByte(count0, count1, k + 1, c, 1);
    NextCountByte(count0, count1, k + 2, c, 2);
    NextCountByte(count0, count1, k + 3, c, 3);
    FourAppended(CountBytes(count0, count1, k), LengthByte(c, 0), LengthByte(c, 1), LengthByte(c, 2), LengthByte(c, 3));
  }

  lemma AllCountBytes(count0: nat, count1: nat)
    ensures CountBytes(count0, count1, 8) == BigEndian(count1) + BigEndian(count0)
  {
    FourCountBytes(count0, count1, 0, count1);
    FourCountBytes(count0, count1, 4, count0);
    assert CountBytes(count0, count1, 0) + BigEndian(count1) == BigEndian(count1);
  }

  lemma WordsOfCount(count0: nat, count1: nat, n: nat)
    requires Counts(count0, count1, n)
    ensures 8 * n / TWO32 % TWO32 == count1 && 8 * n % TWO32 == count0
  {
    var q := 8 * n / (TWO32 * TWO32);
    assert 8 * n == count0 + TWO32 * (count1 + TWO32 * q);
    assert 8 * n / TWO32 == count1 + TWO32 * q;
  }

  lemma CountWords(count0: nat, count1: nat, n: nat)
    requires Counts(count0, count1, n)
    ensures LengthBytes(8 * n) == BigEndian(count1) + BigEndian(count0)
  {
    WordsOfCount(count0, count1, n);
  }

  /** state[i]. */
  function StateWord(h: Registers, i: nat): bv32
    requires i < 5
  {
    match i case 0 => h.a case 1 => h.b case 2 => h.c case 3 => h.d case 4 => h.e
  }

  /** The digest's first k bytes. */
  function StateBytes(h: Registers, k: nat): seq<bv8>
    requires k <= 20
  {
    if k == 0 then [] else StateBytes(h, k - 1) + [WordByte(StateWord(h, (k - 1) / 4), (k - 1) % 4)]
  }

  lemma NextStateByte(h: Registers, k: nat, n: nat, j: nat)
    requires n < 5 && j < 4 && k == 4 * n + j
    ensures StateBytes(h, k + 1) == StateBytes(h, k) + [WordByte(StateWord(h, n), j)]
  {
    assert k / 4 == n && k % 4 == j;
  }

  lemma WordInFour(s0: seq<bv8>, s1: seq<bv8>, s2: seq<bv8>, s3: seq<bv8>, s4: seq<bv8>, w: bv32)
    requires s1 == s0 + [WordByte(w, 0)] && s2 == s1 + [WordByte(w, 1)] && s3 == s2 + [WordByte(w, 2)]
             && s4 == s3 + [WordByte(w, 3)]
    ensures s4 == s0 + WordBytes(w)
  {
    FourAppended(s0, WordByte(w, 0), WordByte(w, 1), WordByte(w, 2), WordByte(w, 3));
  }

  lemma FourStateBytes(h: Registers, k: nat, n: nat)
    requires n < 5 && k == 4 * n
    ensures StateBytes(h, k + 4) == StateBytes(h, k) + WordBytes(StateWord(h, n))
  {
    NextStateByte(h, k, n, 0);
    NextStateByte(h, k + 1, n, 1);
    NextStateByte(h, k + 2, n, 2);
    NextStateByte(h, k + 3, n, 3);
    WordInFour(StateBytes(h, k), StateBytes(h, k + 1), StateBytes(h, k + 2), StateBytes(h, k + 3),
               StateBytes(h, k + 4), StateWord(h, n));
  }

  lemma FiveParts(s1: seq<bv8>, s2: seq<bv8>, s3: seq<bv8>, s4: seq<bv8>, s5: seq<bv8>, a: seq<bv8>, b: seq<bv8>,
                  c: seq<bv8>, d: seq<bv8>, e: seq<bv8>)
    requires s1 == [] + a && s2 == s1 + b && s3 == s2 + c && s4 == s3 + d && s5 == s4 + e
    ensures s5 == a + b + c + d + e
  {
    assert [] + a == a;
  }

  lemma AllStateBytes(h: Registers)
    ensures StateBytes(h, 20) == Bytes(h)
  {
    FourStateBytes(h, 0, 0);
    FourStateBytes(h, 4, 1);
    FourStateBytes(h, 8, 2);
    FourStateBytes(h, 12, 3);
    FourStateBytes(h, 16, 4);
    FiveParts(StateBytes(h, 4), StateBytes(h, 8), StateBytes(h, 12), StateBytes(h, 16), StateBytes(h, 20),
              WordBytes(h.a), WordBytes(h.b), WordBytes(h.c), WordBytes(h.d), WordBytes(h.e));
  }

  /** All the pieces, one after the other. */
  function Joined(pieces: seq<seq<bv8>>): seq<bv8> {
    if pieces == [] then [] else Joined(pieces[..|pieces| - 1]) + pieces[|pieces| - 1]
  }

  lemma OneMorePiece(pieces: seq<seq<bv8>>, i: nat)
    requires i < |pieces|
    ensures Joined(pieces[..i + 1]) == Joined(pieces[..i]) + pieces[i]
  {
    assert pieces[..i + 1][..i] == pieces[..i];
  }

  lemma AllPieces(pieces: seq<seq<bv8>>, n: nat)
    requires n == |pieces|
    ensures Joined(pieces[..n]) == Joined(pieces)
  {
    assert pieces[..n] == pieces;
  }

  /** SHA1_CTX. */
  class Context {
    var state: Registers
    var count0: nat
    var count1: nat
    const buffer: array<bv8>
    /** Every byte fed so far. */
    ghost var message: seq<bv8>

    ghost predicate Valid()
      reads this, buffer
    {
      Holds(state, count0, count1, buffer[..], message)
    }

    /** SHA1Init. */
    constructor ()
      ensures Valid() && message == [] && fresh(buffer)
    {
      state, count0, count1, message := H0, 0, 0, [];
      buffer := new bv8[64];
    }

    /** The number of bytes waiting in the buffer, as SHA1Update reads it from the count. */
    lemma Waiting()
      requires Valid()
      ensures count0 / 8 % 64 == |message| % 64
    {
      WaitingCount(count0, count1, |message|);
    }

    /** memcpy into the buffer at offset o. */
    method Fill(o: nat, d: seq<bv8>)
      requires o + |d| <= buffer.Length
      modifies buffer
      ensures buffer[..] == Copied(old(buffer[..]), o, d)
    {
      forall k | 0 <= k < |d| {
        buffer[o + k] := d[k];
      }
    }

    /** SHA1Update's addition to the bit count. */
    method Count(len: nat)
      requires Counts(count0, count1, |message|) && len < TWO32
      modifies `count0, `count1
      ensures Counts(count0, count1, |message| + len)
    {
      CountsMore(count0, count1, |message|, len);
      CarryFirst(count1, len / 0x2000_0000);
      var j := count0;
      count0 := (count0 + 8 * len % TWO32) % TWO32;
      if count0 < j {
        count1 := (count1 + 1) % TWO32;
      }
      count1 := (count1 + len / 0x2000_0000) % TWO32;
    }

    /** SHA1Update's loop over the blocks that lie in data. */
    method InnerBlocks(data: seq<bv8>, from: nat, ghost start: nat) returns (i: nat, ghost q: nat)
      requires |message| % 64 + |data| < TWO32
      requires |message| + from == 64 * start && from <= |data| && state == HashBlocks(H0, message + data, start)
      modifies `state
      ensures i <= |data| < i + 64 && |message| + i == 64 * q && state == HashBlocks(H0, message + data, q)
    {
      i, q := from, start;
      NoWrap(|message|, |data|, i, q);
      while (i + 63) % TWO32 < |data|
        invariant i <= |data| && |message| + i == 64 * q && state == HashBlocks(H0, message + data, q)
        invariant i + 63 < TWO32
        decreases |data| - i
      {
        NoWrap(|message|, |data|, i + 64, q + 1);
        InnerBlock(message, data, q, i);
        state := Transform(state, data[i..i + 64]);
        i := i + 64;
        q := q + 1;
      }
    }

    /** The block that the buffer and the first bytes of data make. */
    method CompleteBlock(j: nat, data: seq<bv8>, ghost q: nat)
      requires buffer.Length == 64 && |message| == 64 * q + j && j < 64 <= j + |data|
      requires state == HashBlocks(H0, message, q) && buffer[..j] == message[64 * q..]
      modifies `state, buffer
      ensures state == HashBlocks(H0, message + data, q + 1)
    {
      Fill(j, data[..64 - j]);
      FirstBlock(message, data, q, buffer[..]);
      state := Transform(state, buffer[..]);
    }

    /** SHA1Update, when its 32-bit sum j + len does not wrap (LengthTest). */
    method Update(data: seq<bv8>)
      requires Valid() && |message| % 64 + |data| < TWO32
      modifies this, buffer
      ensures Valid() && message == old(message) + data
    {
      Waiting();
      var j := count0 / 8 % 64;
      Count(|data|);
      ghost var m, q := message, |message| / 64;
      LengthTest(j, |data|);
      if (j + |data|) % TWO32 > 63 {
        CompleteBlock(j, data, q);
        var i;
        i, q := InnerBlocks(data, 64 - j, q + 1);
        Fill(0, data[i..]);
        RestHeld(m, data, q, i, state, count0, count1, buffer[..]);
      } else {
        Fill(j, data);
        AllHeld(m, data, q, j, state, count0, count1, buffer[..]);
      }
      message := message + data;
    }

    /** SHA1Final's count bytes, taken before the padding changes the count. */
    method FinalCount() returns (finalcount: seq<bv8>)
      requires Counts(count0, count1, |message|)
      ensures finalcount == LengthBytes(8 * |message|)
    {
      CountWords(count0, count1, |message|);
      finalcount := [];
      var i := 0;
      while i < 8
        invariant i <= 8 && finalcount == CountBytes(count0, count1, i)
      {
        finalcount := finalcount + [LengthByte(if i >= 4 then count0 else count1, i % 4)];
        i := i + 1;
      }
      AllCountBytes(count0, count1);
    }

    /** One zero byte of SHA1Final's padding. */
    method PadZero(ghost m: seq<bv8>, ghost k: nat)
      requires Valid() && message == m + [0x80] + Zeros(k)
      modifies this, buffer
      ensures Valid() && message == m + [0x80] + Zeros(k + 1)
    {
      OneMoreZero(m, k);
      Update([0]);
    }

    /** SHA1Final's padding loop. */
    method PadZeros(ghost m: seq<bv8>)
      requires Valid() && message == m + [0x80]
      modifies this, buffer
      ensures Valid() && message == m + [0x80] + Zeros(ZeroCount(|m|))
    {
      ghost var k: nat := 0;
      Waiting();
      EnoughZeros(|m|, k);
      while count0 / 8 % 64 != 56
        invariant Valid() && k <= ZeroCount(|m|) && message == m + [0x80] + Zeros(k)
        invariant count0 / 8 % 64 == 56 <==> k == ZeroCount(|m|)
        decreases ZeroCount(|m|) - k
      {
        PadZero(m, k);
        k := k + 1;
        Waiting();
        EnoughZeros(|m|, k);
      }
    }

    /** SHA1Final: the digest of all that was fed. */
    method Final() returns (digest: seq<bv8>)
      requires Valid()
      modifies this, buffer
      ensures digest == Sha1(old(message))
    {
      ghost var m := message;
      var finalcount := FinalCount();
      Update([0x80]);
      PadZeros(m);
      Update(finalcount);
      PaddedLength(|m|);
      assert message == Pad(m);
      digest := [];
      var i := 0;
      while i < 20
        invariant i <= 20 && digest == StateBytes(state, i)
      {
        digest := digest + [WordByte(StateWord(state, i / 4), i % 4)];
        i := i + 1;
      }
      AllStateBytes(state);
    }
  }

  /** Streaming: however a message is cut into updates, the digest is the standard's. */
  method DigestOf(pieces: seq<seq<bv8>>) returns (digest: seq<bv8>)
    requires forall k :: 0 <= k < |pieces| ==> |Joined(pieces[..k])| % 64 + |pieces[k]| < TWO32
    ensures digest == Sha1(Joined(pieces))
  {
    var context := new Context();
    var i := 0;
    assert pieces[..0] == [];
    while i < |pieces|
      invariant i <= |pieces| && context.Valid() && fresh(context) && fresh(context.buffer)
      invariant context.message == Joined(pieces[..i])
    {
      OneMorePiece(pieces, i);
      context.Update(pieces[i]);
      i := i + 1;
    }
    AllPieces(pieces, i);
    digest := context.Final();
  }

  lemma OneMoreByte(str: seq<bv8>, i: nat)
    requires i < |str|
    ensures str[..i + 1] == str[..i] + [str[i]]
  {
  }

  lemma AllBytes(str: seq<bv8>, n: nat)
    requires n == |str|
    ensures str[..n] == str
  {
  }

  /** SHA1: the bytes of str one at a time. */
  method HashOf(str: seq<bv8>) returns (hash: seq<bv8>)
    ensures hash == Sha1(str)
  {
    var context := new Context();
    var ii := 0;
    while ii < |str|
      invariant ii <= |str| && context.Valid() && fresh(context) && fresh(context.buffer)
      invariant context.message == str[..ii]
    {
      OneMoreByte(str, ii);
      context.Update([str[ii]]);
      ii := ii + 1;
    }
    AllBytes(str, ii);
    hash := context.Final();
  }
}
