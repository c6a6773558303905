/** SHA-1 as FIPS 180-4 defines it, on messages that are whole bytes. */
module Sha1Standard {

  type Word = bv32
  type Byte = bv8

  // ---------------------------------------------------------------- functions and constants, sections 4.1.1 and 4.2.1

  function Rotl(x: Word, n: Word): Word
    requires 0 < n < 32
  {
    (x << n) | (x >> (32 - n))
  }

  /** Bit i of a word, counted from the lowest. */
  function Bit(x: Word, i: Word): bool
    requires i < 32
  {
    (x >> i) & 1 == 1
  }

  lemma RotlBelow(x: Word, n: Word, j: Word)
    requires 0 < n < 32 && j < 32 && j + n < 32
    ensures Bit(Rotl(x, n), j + n) == Bit(x, j)
  {
  }

  lemma RotlAround(x: Word, n: Word, j: Word)
    requires 0 < n < 32 && j < 32 && j + n >= 32
    ensures Bit(Rotl(x, n), j + n - 32) == Bit(x, j)
  {
  }

  lemma Around(n: Word, j: Word)
    requires n < 32 && j < 32
    ensures (j + n) % 32 == if j + n < 32 then j + n else j + n - 32
  {
  }

  /** A rotation to the left moves every bit by n places, and the highest ones around to the lowest. */
  lemma RotlBits(x: Word, n: Word, j: Word)
    requires 0 < n < 32 && j < 32
    ensures Bit(Rotl(x, n), (j + n) % 32) == Bit(x, j)
  {
    hide Bit, Rotl;
    Around(n, j);
    if j + n < 32 {
      RotlBelow(x, n, j);
    } else {
      RotlAround(x, n, j);
    }
  }

  /** Addition of words is modulo 2 to the 32. */
  function Add(x: Word, y: Word): Word { x + y }

  /** The word of the schedule made from the words 3, 8, 14 and 16 places before it. */
  function Mix(a: Word, b: Word, c: Word, d: Word): Word { Rotl(a ^ b ^ c ^ d, 1) }

  function Ch(x: Word, y: Word, z: Word): Word { (x & y) ^ (!x & z) }

  function Parity(x: Word, y: Word, z: Word): Word { x ^ y ^ z }

  function Maj(x: Word, y: Word, z: Word): Word { (x & y) ^ (x & z) ^ (y & z) }

  function F(t: nat, x: Word, y: Word, z: Word): Word {
    if t < 20 then Ch(x, y, z) else if t < 40 then Parity(x, y, z) else if t < 60 then Maj(x, y, z) else Parity(x, y, z)
  }

  function K(t: nat): Word {
    if t < 20 then 0x5a827999 else if t < 40 then 0x6ed9eba1 else if t < 60 then 0x8f1bbcdc else 0xca62c1d6
  }

  // ---------------------------------------------------------------- padding, section 5.1.1

  function Zeros(n: nat): (r: seq<Byte>)
    ensures |r| == n && forall i :: 0 <= i < n ==> r[i] == 0
  {
    seq(n, _ => 0)
  }

  /** The zero bytes behind the byte 0x80. */
  function ZeroBytes(n: nat): nat { (119 - n % 64) % 64 }

  function Power(i: nat): nat {
    if i == 0 then 1 else 256 * Power(i - 1)
  }

  /** Byte i of a number, counted from the lowest. */
  function ByteOf(n: nat, i: nat): Byte
  {
    PowerPositive(i);
    ((n / Power(i)) % 256) as bv8
  }

  lemma PowerPositive(i: nat)
    ensures Power(i) > 0
  {
  }

  /** A number in eight bytes, highest byte first. */
  function Length64(n: nat): (r: seq<Byte>)
    ensures |r| == 8
  {
    seq(8, i requires 0 <= i < 8 => ByteOf(n, 7 - i))
  }

  function Padded(m: seq<Byte>): seq<Byte> {
    m + [0x80] + Zeros(ZeroBytes(|m|)) + Length64(8 * |m|)
  }

  /** k zero bits behind a one leave exactly the last 64 bits of a block. */
  predicate Fills(bits: nat, k: nat) { (bits + 1 + k) % 512 == 448 }

  lemma NotBefore(q: nat, r: nat, k: nat)
    requires r < 64 && k < (if r <= 55 then 447 - 8 * r else 959 - 8 * r)
    ensures !Fills(8 * (64 * q + r), k)
  {
    var s := 8 * r + 1 + k;
    assert 8 * (64 * q + r) + 1 + k == 512 * q + s;
    if s >= 512 {
      assert 512 * q + s == 512 * (q + 1) + (s - 512);
    }
  }

  /** In bits: the padding is a one, the least number of zeros that leaves 64 bits of the last block, and the length. */
  lemma PaddingIsLeast(n: nat)
    ensures Fills(8 * n, 8 * ZeroBytes(n) + 7)
    ensures forall k: nat :: k < 8 * ZeroBytes(n) + 7 ==> !Fills(8 * n, k)
    ensures (n + 1 + ZeroBytes(n) + 8) % 64 == 0
  {
    var q, r, z := n / 64, n % 64, ZeroBytes(n);
    assert n == 64 * q + r;
    if r <= 55 {
      assert z == 55 - r;
      assert 8 * n + 1 + (8 * z + 7) == 512 * q + 448;
    } else {
      assert z == 119 - r;
      assert 8 * n + 1 + (8 * z + 7) == 512 * (q + 1) + 448;
    }
    forall k: nat | k < 8 * z + 7
      ensures !Fills(8 * n, k)
    {
      NotBefore(q, r, k);
    }
  }

  // ---------------------------------------------------------------- blocks, section 5.2.1

  function WordOf(a: Byte, b: Byte, c: Byte, d: Byte): Word {
    ((a as bv32) << 24) | ((b as bv32) << 16) | ((c as bv32) << 8) | (d as bv32)
  }

  function Words(block: seq<Byte>): (r: seq<Word>)
    requires |block| == 64
    ensures |r| == 16
  {
    seq(16, i requires 0 <= i < 16 => WordOf(block[4 * i], block[4 * i + 1], block[4 * i + 2], block[4 * i + 3]))
  }

  // ---------------------------------------------------------------- hash computation, section 6.1.2

  /** The message schedule of 80 words. */
  function W(m: seq<Word>, t: nat): Word
    requires |m| == 16
  {
    if t < 16 then m[t] else Mix(W(m, t - 3), W(m, t - 8), W(m, t - 14), W(m, t - 16))
  }

  /** The working variables a, b, c, d, e. */
  type State = s: seq<Word> | |s| == 5 witness [0, 0, 0, 0, 0]

  function Turn(s: State, t: nat, w: Word): State {
    [Add(Add(Add(Add(Rotl(s[0], 5), F(t, s[1], s[2], s[3])), s[4]), K(t)), w), s[0], Rotl(s[1], 30), s[2], s[3]]
  }

  function Turns(s: State, m: seq<Word>, t: nat): State
    requires |m| == 16
  {
    if t == 0 then s else Turn(Turns(s, m, t - 1), t - 1, W(m, t - 1))
  }

  function Plus(s: State, r: State): State {
    [Add(s[0], r[0]), Add(s[1], r[1]), Add(s[2], r[2]), Add(s[3], r[3]), Add(s[4], r[4])]
  }

  function Compression(h: State, block: seq<Byte>): State
    requires |block| == 64
  {
    Plus(h, Turns(h, Words(block), 80))
  }

  /** One compression for every block of 64 bytes, in order. */
  function Folded(h: State, bytes: seq<Byte>): State
    requires |bytes| % 64 == 0
    decreases |bytes|
  {
    if |bytes| == 0 then h else Folded(Compression(h, bytes[..64]), bytes[64..])
  }

  /** The initial hash value, section 5.3.1. */
  function Initial(): State { [0x67452301, 0xefcdab89, 0x98badcfe, 0x10325476, 0xc3d2e1f0] }

  lemma PaddedLength(m: seq<Byte>)
    ensures |Padded(m)| % 64 == 0
  {
    PaddingIsLeast(|m|);
  }

  function Digest(m: seq<Byte>): State {
    PaddedLength(m);
    Folded(Initial(), Padded(m))
  }
}
