/**
 * The SHA-1 code behind the ids of the disk engine: sha1_compress with its
 * rotating registers and circular buffer, and sha1_hash.
 */
module Sha1 {
  import opened Sha1Standard

  // ---------------------------------------------------------------- registers

  /** The five registers seen from the one that plays the role of a: the roles rotate from round to round. */
  function Roles(r: seq<Word>, a: nat): State
    requires |r| == 5 && a < 5
  {
    [r[a], r[(a + 1) % 5], r[(a + 2) % 5], r[(a + 3) % 5], r[(a + 4) % 5]]
  }

  /** The register that is a in round i. */
  function First(i: nat): (a: nat)
    ensures a < 5
  {
    (5 - i % 5) % 5
  }

  lemma NextRole(i: nat)
    ensures First(i + 1) == (First(i) + 4) % 5
  {
  }

  // ---------------------------------------------------------------- the choice functions as computed

  lemma ChComputed(b: Word, c: Word, d: Word)
    ensures ((c ^ d) & b) ^ d == Ch(b, c, d)
  {
  }

  lemma MajComputed(b: Word, c: Word, d: Word)
    ensures ((c | d) & b) | (c & d) == Maj(b, c, d)
  {
  }

  /** A word loaded in the processor's byte order, and swapped. */
  function Swapped(a: Byte, b: Byte, c: Byte, d: Byte): Word {
    var loaded: Word := WordOf(d, c, b, a);
    (loaded << 24) | ((loaded & 0xff00) << 8) | ((loaded >> 8) & 0xff00) | (loaded >> 24)
  }

  lemma SwappedIsBigEndian(a: Byte, b: Byte, c: Byte, d: Byte)
    ensures Swapped(a, b, c, d) == WordOf(a, b, c, d)
  {
  }

  // ---------------------------------------------------------------- the macros

  /** What a round does once its word is in e and its choice function is computed. */
  function Tail(s: State, f: Word, k: Word): State {
    [Add(Rotl(s[0], 5), Add(Add(k, s[4]), f)), s[0], Rotl(s[1], 30), s[2], s[3]]
  }

  lemma RolesTail(r: seq<Word>, a: nat, f: Word, k: Word)
    requires |r| == 5 && a < 5
    ensures var b, e := (a + 1) % 5, (a + 4) % 5;
            Roles(r[b := Rotl(r[b], 30)][e := Add(Rotl(r[a], 5), Add(Add(k, r[e]), f))], e) == Tail(Roles(r, a), f, k)
  {
    hide Rotl, Add;
  }

  /** ROUNDTAIL: the new value of a ends up in e's register. */
  method RoundTail(r: array<Word>, a: nat, f: Word, k: Word)
    requires r.Length == 5 && a < 5
    modifies r
    ensures Roles(r[..], (a + 4) % 5) == Tail(old(Roles(r[..], a)), f, k)
  {
    hide Rotl, Add, Tail, Roles;
    var b, e := (a + 1) % 5, (a + 4) % 5;
    RolesTail(r[..], a, f, k);
    r[b] := Rotl(r[b], 30);
    r[e] := Add(Add(k, r[e]), f);
    r[e] := Add(Rotl(r[a], 5), r[e]);
    assert r[..] == old(r[..][b := Rotl(r[b], 30)][e := Add(Rotl(r[a], 5), Add(Add(k, r[e]), f))]);
  }

  /** SCHEDULE: replaces the oldest of the 16 words kept, and adds the new one to e. */
  method Schedule(r: array<Word>, w: array<Word>, i: nat, e: nat)
    requires r.Length == 5 && w.Length == 16 && e < 5 && r != w && i >= 16
    modifies r, w
    ensures var x := Mix(old(w[(i - 3) % 16]), old(w[(i - 8) % 16]), old(w[(i - 14) % 16]), old(w[(i - 16) % 16]));
            w[..] == old(w[..])[i % 16 := x] && r[..] == old(r[..])[e := Add(old(r[e]), x)]
  {
    hide Mix, Add;
    var x := Mix(w[(i - 3) % 16], w[(i - 8) % 16], w[(i - 14) % 16], w[(i - 16) % 16]);
    r[e] := Add(r[e], x);
    w[i % 16] := x;
  }

  // ---------------------------------------------------------------- one round

  /** The circular buffer holds the last 16 words of the schedule. */
  ghost predicate Recent(w: seq<Word>, m: seq<Word>, i: nat)
    requires |w| == 16 && |m| == 16
  {
    forall j :: 0 <= j < i && i <= j + 16 ==> w[j % 16] == W(m, j)
  }

  lemma Scheduled(w: seq<Word>, m: seq<Word>, i: nat)
    requires |w| == 16 && |m| == 16 && i >= 16 && Recent(w, m, i)
    ensures Mix(w[(i - 3) % 16], w[(i - 8) % 16], w[(i - 14) % 16], w[(i - 16) % 16]) == W(m, i)
  {
    hide Mix;
    assert w[(i - 3) % 16] == W(m, i - 3) && w[(i - 8) % 16] == W(m, i - 8);
    assert w[(i - 14) % 16] == W(m, i - 14) && w[(i - 16) % 16] == W(m, i - 16);
  }

  lemma Replaced(w: seq<Word>, m: seq<Word>, i: nat)
    requires |w| == 16 && |m| == 16 && Recent(w, m, i)
    ensures Recent(w[i % 16 := W(m, i)], m, i + 1)
  {
    hide W;
    var v := w[i % 16 := W(m, i)];
    forall j | 0 <= j < i + 1 && i + 1 <= j + 16
      ensures v[j % 16] == W(m, j)
    {
      if j < i {
        assert j % 16 != i % 16;
      }
    }
  }

  /** The order of the additions does not matter. */
  lemma RoundIs(s: State, t: nat, w: Word)
    ensures Tail([s[0], s[1], s[2], s[3], Add(s[4], w)], F(t, s[1], s[2], s[3]), K(t)) == Turn(s, t, w)
  {
    hide F, K, Rotl, Add;
    SumOrder(Rotl(s[0], 5), K(t), s[4], w, F(t, s[1], s[2], s[3]));
  }

  lemma AddSwaps(x: Word, y: Word)
    ensures Add(x, y) == Add(y, x)
  {
  }

  lemma AddIs(x: Word, y: Word)
    ensures Add(x, y) == x + y
  {
  }

  lemma PlusGroups(x: Word, y: Word, z: Word)
    ensures Add(x, y + z) == Add(x + y, z)
  {
    assert x + (y + z) == (x + y) + z;
  }

  lemma AddGroups(x: Word, y: Word, z: Word)
    ensures Add(x, Add(y, z)) == Add(Add(x, y), z)
  {
    hide Add;
    AddIs(y, z);
    AddIs(x, y);
    PlusGroups(x, y, z);
  }

  lemma SumOrder(a: Word, k: Word, e: Word, w: Word, f: Word)
    ensures Add(a, Add(Add(k, Add(e, w)), f)) == Add(Add(Add(Add(a, f), e), k), w)
  {
    hide Add;
    var x := Add(k, Add(e, w));
    AddSwaps(x, f);
    AddGroups(a, f, x);
    AddGroups(k, e, w);
    AddSwaps(k, e);
    AddGroups(Add(a, f), Add(e, k), w);
    AddGroups(Add(a, f), e, k);
  }

  /** The rounds that load a word of the block: ROUND0a. */
  method Round0a(r: array<Word>, w: array<Word>, block: seq<Byte>, i: nat)
    requires r.Length == 5 && w.Length == 16 && r != w && |block| == 64 && i < 16
    requires Recent(w[..], Words(block), i)
    modifies r, w
    ensures Recent(w[..], Words(block), i + 1)
    ensures Roles(r[..], First(i + 1)) == Turn(old(Roles(r[..], First(i))), i, W(Words(block), i))
  {
    hide Turn, Tail, Ch, K, F, Add, Swapped, Recent, Words, W;
    var a := First(i);
    ghost var s := Roles(r[..], a);
    ghost var m := Words(block);
    NextRole(i);
    var x := Swapped(block[4 * i], block[4 * i + 1], block[4 * i + 2], block[4 * i + 3]);
    Loaded(block, i);
    Replaced(w[..], m, i);
    w[i] := x;
    assert w[..] == old(w[..])[i % 16 := x];
    r[(a + 4) % 5] := Add(r[(a + 4) % 5], x);
    assert Roles(r[..], a) == [s[0], s[1], s[2], s[3], Add(s[4], x)];
    var f := Chosen0(r[(a + 1) % 5], r[(a + 2) % 5], r[(a + 3) % 5]);
    RoundTail(r, a, f, 0x5a827999);
    FIs(i, s[1], s[2], s[3]);
    RoundIs(s, i, x);
  }

  lemma Loaded(block: seq<Byte>, i: nat)
    requires |block| == 64 && i < 16
    ensures Swapped(block[4 * i], block[4 * i + 1], block[4 * i + 2], block[4 * i + 3]) == W(Words(block), i)
  {
    hide WordOf, Swapped;
    SwappedIsBigEndian(block[4 * i], block[4 * i + 1], block[4 * i + 2], block[4 * i + 3]);
  }

  // The choice functions, in the instructions of the macros.

  function Chosen0(b: Word, c: Word, d: Word): Word { ((c ^ d) & b) ^ d }

  function Chosen1(b: Word, c: Word, d: Word): Word { b ^ c ^ d }

  function Chosen2(b: Word, c: Word, d: Word): Word { ((c | d) & b) | (c & d) }

  lemma FIs(t: nat, b: Word, c: Word, d: Word)
    ensures F(t, b, c, d) == if t < 20 then Chosen0(b, c, d) else if t < 40 then Chosen1(b, c, d)
                             else if t < 60 then Chosen2(b, c, d) else Chosen1(b, c, d)
    ensures K(t) == if t < 20 then 0x5a827999 else if t < 40 then 0x6ed9eba1
                    else if t < 60 then 0x8f1bbcdc else 0xca62c1d6
  {
    ChComputed(b, c, d);
    MajComputed(b, c, d);
  }

  /** The rounds that take their word from the schedule, with the choice function of their range. */
  method RoundOn(r: array<Word>, w: array<Word>, ghost m: seq<Word>, i: nat)
    requires r.Length == 5 && w.Length == 16 && r != w && |m| == 16 && 16 <= i < 80
    requires Recent(w[..], m, i)
    modifies r, w
    ensures Recent(w[..], m, i + 1)
    ensures Roles(r[..], First(i + 1)) == Turn(old(Roles(r[..], First(i))), i, W(m, i))
  {
    hide Turn, Tail, F, Chosen0, Chosen1, Chosen2, K, Mix, Add, Recent, W;
    var a := First(i);
    ghost var s := Roles(r[..], a);
    NextRole(i);
    Scheduled(w[..], m, i);
    Replaced(w[..], m, i);
    Schedule(r, w, i, (a + 4) % 5);
    assert Roles(r[..], a) == [s[0], s[1], s[2], s[3], Add(s[4], W(m, i))];
    var b, c, d := r[(a + 1) % 5], r[(a + 2) % 5], r[(a + 3) % 5];
    FIs(i, b, c, d);
    RoundIs(s, i, W(m, i));
    if i < 20 {
      RoundTail(r, a, Chosen0(b, c, d), 0x5a827999);
    } else if i < 40 {
      RoundTail(r, a, Chosen1(b, c, d), 0x6ed9eba1);
    } else if i < 60 {
      RoundTail(r, a, Chosen2(b, c, d), 0x8f1bbcdc);
    } else {
      RoundTail(r, a, Chosen1(b, c, d), 0xca62c1d6);
    }
  }

  // ---------------------------------------------------------------- sha1_compress

  lemma TurnsNext(s: State, m: seq<Word>, t: nat)
    requires |m| == 16
    ensures Turns(s, m, t + 1) == Turn(Turns(s, m, t), t, W(m, t))
  {
  }

  /** 80 rounds in five registers and a buffer of 16 words. */
  method Rounds(r: array<Word>, w: array<Word>, block: seq<Byte>)
    requires r.Length == 5 && w.Length == 16 && r != w && |block| == 64
    modifies r, w
    ensures r[..] == Turns(old(r[..]), Words(block), 80)
  {
    hide Turn, Turns, Recent, W, Words;
    ghost var h: State := r[..];
    ghost var m := Words(block);
    NoneRecent(w[..], m);
    TurnsNone(h, m);
    RolesFirst(r[..]);
    for i := 0 to 16
      invariant Recent(w[..], m, i) && Roles(r[..], First(i)) == Turns(h, m, i)
    {
      Round0a(r, w, block, i);
      TurnsNext(h, m, i);
    }
    for i := 16 to 80
      invariant Recent(w[..], m, i) && Roles(r[..], First(i)) == Turns(h, m, i)
    {
      RoundOn(r, w, m, i);
      TurnsNext(h, m, i);
    }
    RolesFirst(r[..]);
  }

  lemma TurnsNone(s: State, m: seq<Word>)
    requires |m| == 16
    ensures Turns(s, m, 0) == s
  {
  }

  lemma RolesFirst(r: seq<Word>)
    requires |r| == 5
    ensures Roles(r, 0) == r
  {
  }

  method Sums(state: array<Word>, r: array<Word>)
    requires state.Length == 5 && r.Length == 5 && state != r
    modifies state
    ensures state[..] == Plus(old(state[..]), r[..])
  {
    hide Add;
    state[0] := Add(state[0], r[0]);
    state[1] := Add(state[1], r[1]);
    state[2] := Add(state[2], r[2]);
    state[3] := Add(state[3], r[3]);
    state[4] := Add(state[4], r[4]);
  }

  /** The rounds, then the sums: the compression of section 6.1.2. */
  method Compress(state: array<Word>, block: seq<Byte>)
    requires state.Length == 5 && |block| == 64
    modifies state
    ensures state[..] == Compression(old(state[..]), block)
  {
    hide Turns, Words, Plus;
    var r, w := new Word[5](_ => 0), new Word[16](_ => 0);
    r[0], r[1], r[2], r[3], r[4] := state[0], state[1], state[2], state[3], state[4];
    assert r[..] == state[..];
    Rounds(r, w, block);
    Sums(state, r);
  }

  lemma NoneRecent(w: seq<Word>, m: seq<Word>)
    requires |w| == 16 && |m| == 16
    ensures Recent(w, m, 0)
  {
  }

  // ---------------------------------------------------------------- sha1_hash

  lemma {:induction false} FoldedConcat(h: State, a: seq<Byte>, b: seq<Byte>)
    requires |a| % 64 == 0 && |b| % 64 == 0
    ensures Folded(h, a + b) == Folded(Folded(h, a), b)
    decreases |a|
  {
    hide Compression;
    if |a| == 0 {
      assert a + b == b;
    } else {
      assert (a + b)[..64] == a[..64] && (a + b)[64..] == a[64..] + b;
      FoldedConcat(Compression(h, a[..64]), a[64..], b);
    }
  }

  lemma FoldedOne(h: State, block: seq<Byte>)
    requires |block| == 64
    ensures Folded(h, block) == Compression(h, block)
  {
    assert block[..64] == block && block[64..] == [];
  }

  lemma FoldedNext(h: State, m: seq<Byte>, i: nat)
    requires i % 64 == 0 && i + 64 <= |m|
    ensures Folded(h, m[..i + 64]) == Compression(Folded(h, m[..i]), m[i..i + 64])
  {
    hide Folded, Compression;
    assert m[..i + 64] == m[..i] + m[i..i + 64];
    FoldedConcat(h, m[..i], m[i..i + 64]);
    FoldedOne(Folded(h, m[..i]), m[i..i + 64]);
  }

  /** What is left of the message behind position i, with its padding. */
  function Rest(m: seq<Byte>, i: nat): seq<Byte>
    requires i <= |m| < i + 64
  {
    var rem := |m| - i;
    m[i..] + [0x80] + Zeros(if rem < 56 then 55 - rem else 119 - rem) + Length64(8 * |m|)
  }

  lemma RestPads(m: seq<Byte>, i: nat)
    requires i % 64 == 0 && i <= |m| < i + 64
    ensures Padded(m) == m[..i] + Rest(m, i) && |Rest(m, i)| % 64 == 0
  {
    hide Length64;
    assert |m| % 64 == |m| - i;
    assert m == m[..i] + m[i..];
  }

  /** One block if the length still fits behind the byte 0x80, or two. */
  lemma RestBlocks(m: seq<Byte>, i: nat, first: seq<Byte>, last: seq<Byte>)
    requires i <= |m| < i + 64
    requires var head := m[i..] + [0x80];
             if |head| <= 56 then first == [] && last == head + Zeros(56 - |head|) + Length64(8 * |m|)
             else first == head + Zeros(64 - |head|) && last == Zeros(56) + Length64(8 * |m|)
    ensures Rest(m, i) == first + last
  {
    hide Length64;
    var n := |m| - i;
    if n < 56 {
      assert first + last == last;
    } else {
      assert Zeros(119 - n) == Zeros(63 - n) + Zeros(56);
    }
  }

  lemma FoldedTwo(h: State, first: seq<Byte>, last: seq<Byte>)
    requires (first == [] || |first| == 64) && |last| == 64
    ensures Folded(h, first + last) == Compression(if first == [] then h else Compression(h, first), last)
  {
    hide Compression, Folded;
    if first == [] {
      assert first + last == last;
      FoldedOne(h, last);
    } else {
      FoldedConcat(h, first, last);
      FoldedOne(h, first);
      FoldedOne(Compression(h, first), last);
    }
  }

  lemma FoldedNone(h: State)
    ensures Folded(h, []) == h
  {
  }

  /** The end of sha1_hash: the rest of the message, the padding and the length, in one block or two. */
  method Finish(message: seq<Byte>, i: nat, hash: array<Word>)
    requires hash.Length == 5 && i <= |message| < i + 64 && i % 64 == 0
    modifies hash
    ensures |Rest(message, i)| % 64 == 0 && hash[..] == Folded(old(hash[..]), Rest(message, i))
  {
    hide Compression, Folded, Length64, Rest;
    RestPads(message, i);
    var block := new Byte[64](_ => 0);
    var rem := |message| - i;
    Copy(block, message[i..]);
    block[rem] := 0x80;
    rem := rem + 1;
    ghost var head := message[i..] + [0x80];
    assert block[..rem] == head;
    ghost var first: seq<Byte> := [];
    if 64 - rem >= 8 {
      Clear(block, rem, 56);
      assert block[..56] == head + Zeros(56 - rem);
    } else {
      Clear(block, rem, 64);
      first := block[..];
      assert first == head + Zeros(64 - rem);
      Compress(hash, block[..]);
      Clear(block, 0, 56);
      assert block[..56] == Zeros(56);
    }
    PutLength(block, 8 * |message|);
    RestBlocks(message, i, first, block[..]);
    FoldedTwo(old(hash[..]), first, block[..]);
    Compress(hash, block[..]);
  }

  /** sha1_hash: the digest of the padded message; a length is 32 bits wide. */
  method Hash(message: seq<Byte>, hash: array<Word>)
    requires hash.Length == 5 && |message| < 0x1_0000_0000
    modifies hash
    ensures hash[..] == Digest(message)
  {
    hide Compression, Folded, Rest, Padded;
    hash[0], hash[1], hash[2], hash[3], hash[4] := 0x67452301, 0xefcdab89, 0x98badcfe, 0x10325476, 0xc3d2e1f0;
    assert hash[..] == Initial();
    var len, i := |message|, 0;
    assert message[..0] == [];
    FoldedNone(Initial());
    while len - i >= 64
      invariant i % 64 == 0 && i <= len
      invariant hash[..] == Folded(Initial(), message[..i])
    {
      FoldedNext(Initial(), message, i);
      Compress(hash, message[i..i + 64]);
      i := i + 64;
    }
    RestPads(message, i);
    FoldedConcat(Initial(), message[..i], Rest(message, i));
    Finish(message, i, hash);
  }

  /** memcpy into the front of the block. */
  method Copy(block: array<Byte>, bytes: seq<Byte>)
    requires |bytes| <= block.Length
    modifies block
    ensures block[..] == bytes + old(block[|bytes|..])
  {
    var j := 0;
    while j < |bytes|
      invariant j <= |bytes|
      invariant block[..j] == bytes[..j] && block[j..] == old(block[j..])
    {
      block[j] := bytes[j];
      j := j + 1;
    }
  }

  /** memset to zero. */
  method Clear(block: array<Byte>, from: nat, to: nat)
    requires from <= to <= block.Length
    modifies block
    ensures block[..] == old(block[..from]) + Zeros(to - from) + old(block[to..])
  {
    var j := from;
    while j < to
      invariant from <= j <= to
      invariant block[..from] == old(block[..from]) && block[from..j] == Zeros(j - from)
      invariant block[j..] == old(block[j..])
    {
      block[j] := 0;
      j := j + 1;
    }
  }

  /** The length in the last eight bytes, lowest byte last. */
  method PutLength(block: array<Byte>, bits: nat)
    requires block.Length == 64
    modifies block
    ensures block[..] == old(block[..56]) + Length64(bits)
  {
    hide ByteOf;
    var i := 0;
    while i < 8
      invariant i <= 8
      invariant block[..64 - i] == old(block[..64 - i])
      invariant forall j :: 0 <= j < i ==> ByteOf(bits, j) == block[63 - j]
    {
      block[64 - 1 - i] := ByteOf(bits, i);
      i := i + 1;
    }
    forall j | 56 <= j < 64
      ensures block[j] == Length64(bits)[j - 56]
    {
      assert block[63 - (63 - j)] == ByteOf(bits, 63 - j);
    }
    assert block[56..] == Length64(bits);
  }
}
