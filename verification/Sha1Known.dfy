/** A known answer: the digest of the empty message, word by word of the schedule and turn by turn. */
module Sha1Known {
  import opened Sha1Standard

  /** The one block of the padded empty message. */
  const Empty: seq<Word> := [0x80000000, 0, 0, 0, 0, 0, 0, 0, 0, 0, 0, 0, 0, 0, 0, 0]

  /** Stated of all indices that are t, so that the verifier does not compute the schedule down to its start. */
  ghost predicate WordIs(t: nat, w: Word) { forall i: nat :: i == t ==> W(Empty, i) == w }

  ghost predicate After(t: nat, s: State) { forall i: nat :: i == t ==> Turns(Initial(), Empty, i) == s }

  lemma NextWord(t: nat, a: Word, b: Word, c: Word, d: Word)
    requires t >= 16 && WordIs(t - 3, a) && WordIs(t - 8, b) && WordIs(t - 14, c) && WordIs(t - 16, d)
    ensures WordIs(t, Mix(a, b, c, d))
  {
    hide Mix;
    assert W(Empty, t - 3) == a && W(Empty, t - 8) == b && W(Empty, t - 14) == c && W(Empty, t - 16) == d;
  }

  lemma FirstWords()
    ensures WordIs(0, 0x80000000) && forall t :: 1 <= t < 16 ==> WordIs(t, 0)
  {
  }

  lemma NextTurn(t: nat, s: State, w: Word)
    requires After(t, s) && WordIs(t, w)
    ensures After(t + 1, Turn(s, t, w))
  {
    hide Turn;
    assert Turns(Initial(), Empty, t) == s && W(Empty, t) == w;
  }

  lemma Words16()
    ensures WordIs(16, 0x00000001)
    ensures WordIs(17, 0x00000000)
    ensures WordIs(18, 0x00000000)
    ensures WordIs(19, 0x00000002)
    ensures WordIs(20, 0x00000000)
    ensures WordIs(21, 0x00000000)
    ensures WordIs(22, 0x00000004)
    ensures WordIs(23, 0x00000000)
  {
    hide WordIs;
    FirstWords();
    NextWord(16, 0x00000000, 0x00000000, 0x00000000, 0x80000000);
    NextWord(17, 0x00000000, 0x00000000, 0x00000000, 0x00000000);
    NextWord(18, 0x00000000, 0x00000000, 0x00000000, 0x00000000);
    NextWord(19, 0x00000001, 0x00000000, 0x00000000, 0x00000000);
    NextWord(20, 0x00000000, 0x00000000, 0x00000000, 0x00000000);
    NextWord(21, 0x00000000, 0x00000000, 0x00000000, 0x00000000);
    NextWord(22, 0x00000002, 0x00000000, 0x00000000, 0x00000000);
    NextWord(23, 0x00000000, 0x00000000, 0x00000000, 0x00000000);
  }

  lemma Words24()
    ensures WordIs(16, 0x00000001)
    ensures WordIs(17, 0x00000000)
    ensures WordIs(18, 0x00000000)
    ensures WordIs(19, 0x00000002)
    ensures WordIs(20, 0x00000000)
    ensures WordIs(21, 0x00000000)
    ensures WordIs(22, 0x00000004)
    ensures WordIs(23, 0x00000000)
    ensures WordIs(24, 0x00000002)
    ensures WordIs(25, 0x00000008)
    ensures WordIs(26, 0x00000000)
    ensures WordIs(27, 0x00000000)
    ensures WordIs(28, 0x00000010)
    ensures WordIs(29, 0x00000000)
    ensures WordIs(30, 0x0000000a)
    ensures WordIs(31, 0x00000020)
  {
    hide WordIs;
    FirstWords();
    Words16();
    NextWord(24, 0x00000000, 0x00000001, 0x00000000, 0x00000000);
    NextWord(25, 0x00000004, 0x00000000, 0x00000000, 0x00000000);
    NextWord(26, 0x00000000, 0x00000000, 0x00000000, 0x00000000);
    NextWord(27, 0x00000002, 0x00000002, 0x00000000, 0x00000000);
    NextWord(28, 0x00000008, 0x00000000, 0x00000000, 0x00000000);
    NextWord(29, 0x00000000, 0x00000000, 0x00000000, 0x00000000);
    NextWord(30, 0x00000000, 0x00000004, 0x00000001, 0x00000000);
    NextWord(31, 0x00000010, 0x00000000, 0x00000000, 0x00000000);
  }

  lemma Words32()
    ensures WordIs(24, 0x00000002)
    ensures WordIs(25, 0x00000008)
    ensures WordIs(26, 0x00000000)
    ensures WordIs(27, 0x00000000)
    ensures WordIs(28, 0x00000010)
    ensures WordIs(29, 0x00000000)
    ensures WordIs(30, 0x0000000a)
    ensures WordIs(31, 0x00000020)
    ensures WordIs(32, 0x00000006)
    ensures WordIs(33, 0x00000000)
    ensures WordIs(34, 0x00000040)
    ensures WordIs(35, 0x00000008)
    ensures WordIs(36, 0x00000028)
    ensures WordIs(37, 0x00000080)
    ensures WordIs(38, 0x00000008)
    ensures WordIs(39, 0x00000000)
  {
    hide WordIs;
    FirstWords();
    Words24();
    Words16();
    NextWord(32, 0x00000000, 0x00000002, 0x00000000, 0x00000001);
    NextWord(33, 0x0000000a, 0x00000008, 0x00000002, 0x00000000);
    NextWord(34, 0x00000020, 0x00000000, 0x00000000, 0x00000000);
    NextWord(35, 0x00000006, 0x00000000, 0x00000000, 0x00000002);
    NextWord(36, 0x00000000, 0x00000010, 0x00000004, 0x00000000);
    NextWord(37, 0x00000040, 0x00000000, 0x00000000, 0x00000000);
    NextWord(38, 0x00000008, 0x0000000a, 0x00000002, 0x00000004);
    NextWord(39, 0x00000028, 0x00000020, 0x00000008, 0x00000000);
  }

  lemma Words40()
    ensures WordIs(32, 0x00000006)
    ensures WordIs(33, 0x00000000)
    ensures WordIs(34, 0x00000040)
    ensures WordIs(35, 0x00000008)
    ensures WordIs(36, 0x00000028)
    ensures WordIs(37, 0x00000080)
    ensures WordIs(38, 0x00000008)
    ensures WordIs(39, 0x00000000)
    ensures WordIs(40, 0x00000108)
    ensures WordIs(41, 0x00000000)
    ensures WordIs(42, 0x000000a0)
    ensures WordIs(43, 0x00000200)
    ensures WordIs(44, 0x00000064)
    ensures WordIs(45, 0x00000000)
    ensures WordIs(46, 0x00000408)
    ensures WordIs(47, 0x00000088)
  {
    hide WordIs;
    FirstWords();
    Words32();
    Words24();
    NextWord(40, 0x00000080, 0x00000006, 0x00000000, 0x00000002);
    NextWord(41, 0x00000008, 0x00000000, 0x00000000, 0x00000008);
    NextWord(42, 0x00000000, 0x00000040, 0x00000010, 0x00000000);
    NextWord(43, 0x00000108, 0x00000008, 0x00000000, 0x00000000);
    NextWord(44, 0x00000000, 0x00000028, 0x0000000a, 0x00000010);
    NextWord(45, 0x000000a0, 0x00000080, 0x00000020, 0x00000000);
    NextWord(46, 0x00000200, 0x00000008, 0x00000006, 0x0000000a);
    NextWord(47, 0x00000064, 0x00000000, 0x00000000, 0x00000020);
  }

  lemma Words48()
    ensures WordIs(40, 0x00000108)
    ensures WordIs(41, 0x00000000)
    ensures WordIs(42, 0x000000a0)
    ensures WordIs(43, 0x00000200)
    ensures WordIs(44, 0x00000064)
    ensures WordIs(45, 0x00000000)
    ensures WordIs(46, 0x00000408)
    ensures WordIs(47, 0x00000088)
    ensures WordIs(48, 0x0000029c)
    ensures WordIs(49, 0x00000800)
    ensures WordIs(50, 0x00000080)
    ensures WordIs(51, 0x00000028)
    ensures WordIs(52, 0x00001088)
    ensures WordIs(53, 0x00000000)
    ensures WordIs(54, 0x00000a40)
    ensures WordIs(55, 0x00002000)
  {
    hide WordIs;
    FirstWords();
    Words40();
    Words32();
    NextWord(48, 0x00000000, 0x00000108, 0x00000040, 0x00000006);
    NextWord(49, 0x00000408, 0x00000000, 0x00000008, 0x00000000);
    NextWord(50, 0x00000088, 0x000000a0, 0x00000028, 0x00000040);
    NextWord(51, 0x0000029c, 0x00000200, 0x00000080, 0x00000008);
    NextWord(52, 0x00000800, 0x00000064, 0x00000008, 0x00000028);
    NextWord(53, 0x00000080, 0x00000000, 0x00000000, 0x00000080);
    NextWord(54, 0x00000028, 0x00000408, 0x00000108, 0x00000008);
    NextWord(55, 0x00001088, 0x00000088, 0x00000000, 0x00000000);
  }

  lemma Words56()
    ensures WordIs(48, 0x0000029c)
    ensures WordIs(49, 0x00000800)
    ensures WordIs(50, 0x00000080)
    ensures WordIs(51, 0x00000028)
    ensures WordIs(52, 0x00001088)
    ensures WordIs(53, 0x00000000)
    ensures WordIs(54, 0x00000a40)
    ensures WordIs(55, 0x00002000)
    ensures WordIs(56, 0x00000668)
    ensures WordIs(57, 0x00000080)
    ensures WordIs(58, 0x00004088)
    ensures WordIs(59, 0x00000880)
    ensures WordIs(60, 0x000028c8)
    ensures WordIs(61, 0x00008000)
    ensures WordIs(62, 0x000008a8)
    ensures WordIs(63, 0x00000080)
  {
    hide WordIs;
    FirstWords();
    Words48();
    Words40();
    NextWord(56, 0x00000000, 0x0000029c, 0x000000a0, 0x00000108);
    NextWord(57, 0x00000a40, 0x00000800, 0x00000200, 0x00000000);
    NextWord(58, 0x00002000, 0x00000080, 0x00000064, 0x000000a0);
    NextWord(59, 0x00000668, 0x00000028, 0x00000000, 0x00000200);
    NextWord(60, 0x00000080, 0x00001088, 0x00000408, 0x00000064);
    NextWord(61, 0x00004088, 0x00000000, 0x00000088, 0x00000000);
    NextWord(62, 0x00000880, 0x00000a40, 0x0000029c, 0x00000408);
    NextWord(63, 0x000028c8, 0x00002000, 0x00000800, 0x00000088);
  }

  lemma Words64()
    ensures WordIs(56, 0x00000668)
    ensures WordIs(57, 0x00000080)
    ensures WordIs(58, 0x00004088)
    ensures WordIs(59, 0x00000880)
    ensures WordIs(60, 0x000028c8)
    ensures WordIs(61, 0x00008000)
    ensures WordIs(62, 0x000008a8)
    ensures WordIs(63, 0x00000080)
    ensures WordIs(64, 0x000108e8)
    ensures WordIs(65, 0x00000000)
    ensures WordIs(66, 0x0000a000)
    ensures WordIs(67, 0x00020080)
    ensures WordIs(68, 0x00006400)
    ensures WordIs(69, 0x00000000)
    ensures WordIs(70, 0x00040800)
    ensures WordIs(71, 0x00008800)
  {
    hide WordIs;
    FirstWords();
    Words56();
    Words48();
    NextWord(64, 0x00008000, 0x00000668, 0x00000080, 0x0000029c);
    NextWord(65, 0x000008a8, 0x00000080, 0x00000028, 0x00000800);
    NextWord(66, 0x00000080, 0x00004088, 0x00001088, 0x00000080);
    NextWord(67, 0x000108e8, 0x00000880, 0x00000000, 0x00000028);
    NextWord(68, 0x00000000, 0x000028c8, 0x00000a40, 0x00001088);
    NextWord(69, 0x0000a000, 0x00008000, 0x00002000, 0x00000000);
    NextWord(70, 0x00020080, 0x000008a8, 0x00000668, 0x00000a40);
    NextWord(71, 0x00006400, 0x00000080, 0x00000080, 0x00002000);
  }

  lemma Words72()
    ensures WordIs(64, 0x000108e8)
    ensures WordIs(65, 0x00000000)
    ensures WordIs(66, 0x0000a000)
    ensures WordIs(67, 0x00020080)
    ensures WordIs(68, 0x00006400)
    ensures WordIs(69, 0x00000000)
    ensures WordIs(70, 0x00040800)
    ensures WordIs(71, 0x00008800)
    ensures WordIs(72, 0x00029c10)
    ensures WordIs(73, 0x00080000)
    ensures WordIs(74, 0x00008080)
    ensures WordIs(75, 0x00002820)
    ensures WordIs(76, 0x001088c0)
    ensures WordIs(77, 0x00000000)
    ensures WordIs(78, 0x000a40c0)
    ensures WordIs(79, 0x00200080)
  {
    hide WordIs;
    FirstWords();
    Words64();
    Words56();
    NextWord(72, 0x00000000, 0x000108e8, 0x00004088, 0x00000668);
    NextWord(73, 0x00040800, 0x00000000, 0x00000880, 0x00000080);
    NextWord(74, 0x00008800, 0x0000a000, 0x000028c8, 0x00004088);
    NextWord(75, 0x00029c10, 0x00020080, 0x00008000, 0x00000880);
    NextWord(76, 0x00080000, 0x00006400, 0x000008a8, 0x000028c8);
    NextWord(77, 0x00008080, 0x00000000, 0x00000080, 0x00008000);
    NextWord(78, 0x00002820, 0x00040800, 0x000108e8, 0x000008a8);
    NextWord(79, 0x001088c0, 0x00008800, 0x00000000, 0x00000080);
  }

  lemma Turns0()
    ensures After(8, [0x87074800, 0xc09d7f27, 0xb912add9, 0x9254d597, 0x737b3ed7])
  {
    hide WordIs, After;
    NoTurns();
    FirstWords();
    NextTurn(0, [0x67452301, 0xefcdab89, 0x98badcfe, 0x10325476, 0xc3d2e1f0], 0x80000000);
    NextTurn(1, [0x1fb498b3, 0x67452301, 0x7bf36ae2, 0x98badcfe, 0x10325476], 0x00000000);
    NextTurn(2, [0x5d43e370, 0x1fb498b3, 0x59d148c0, 0x7bf36ae2, 0x98badcfe], 0x00000000);
    NextTurn(3, [0x158d2f62, 0x5d43e370, 0xc7ed262c, 0x59d148c0, 0x7bf36ae2], 0x00000000);
    NextTurn(4, [0xcdecfb5d, 0x158d2f62, 0x1750f8dc, 0xc7ed262c, 0x59d148c0], 0x00000000);
    NextTurn(5, [0x4953565e, 0xcdecfb5d, 0x85634bd8, 0x1750f8dc, 0xc7ed262c], 0x00000000);
    NextTurn(6, [0xe44ab766, 0x4953565e, 0x737b3ed7, 0x85634bd8, 0x1750f8dc], 0x00000000);
    NextTurn(7, [0xc09d7f27, 0xe44ab766, 0x9254d597, 0x737b3ed7, 0x85634bd8], 0x00000000);
  }

  lemma Turns8()
    ensures After(16, [0xd8fd6547, 0x40182905, 0x4544b22e, 0xa13017ac, 0xab703832])
  {
    hide WordIs, After;
    Turns0();
    FirstWords();
    NextTurn(8, [0x87074800, 0xc09d7f27, 0xb912add9, 0x9254d597, 0x737b3ed7], 0x00000000);
    NextTurn(9, [0x41376611, 0x87074800, 0xf0275fc9, 0xb912add9, 0x9254d597], 0x00000000);
    NextTurn(10, [0xcbdbff31, 0x41376611, 0x21c1d200, 0xf0275fc9, 0xb912add9], 0x00000000);
    NextTurn(11, [0x40166973, 0xcbdbff31, 0x504dd984, 0x21c1d200, 0xf0275fc9], 0x00000000);
    NextTurn(12, [0xadc0e0ca, 0x40166973, 0x72f6ffcc, 0x504dd984, 0x21c1d200], 0x00000000);
    NextTurn(13, [0x84c05eb2, 0xadc0e0ca, 0xd0059a5c, 0x72f6ffcc, 0x504dd984], 0x00000000);
    NextTurn(14, [0x1512c8b9, 0x84c05eb2, 0xab703832, 0xd0059a5c, 0x72f6ffcc], 0x00000000);
    NextTurn(15, [0x40182905, 0x1512c8b9, 0xa13017ac, 0xab703832, 0xd0059a5c], 0x00000000);
  }

  lemma Turns16()
    ensures After(24, [0x1e97b73a, 0x1c64d028, 0x5f6ede1f, 0x243ae614, 0xb9d63a36])
  {
    hide WordIs, After;
    Turns8();
    Words16();
    NextTurn(16, [0xd8fd6547, 0x40182905, 0x4544b22e, 0xa13017ac, 0xab703832], 0x00000001);
    NextTurn(17, [0x06bf9173, 0xd8fd6547, 0x50060a41, 0x4544b22e, 0xa13017ac], 0x00000000);
    NextTurn(18, [0x28a9520e, 0x06bf9173, 0xf63f5951, 0x50060a41, 0x4544b22e], 0x00000000);
    NextTurn(19, [0x0b3088dd, 0x28a9520e, 0xc1afe45c, 0xf63f5951, 0x50060a41], 0x00000002);
    NextTurn(20, [0xe758e8da, 0x0b3088dd, 0x8a2a5483, 0xc1afe45c, 0xf63f5951], 0x00000000);
    NextTurn(21, [0x90eb9850, 0xe758e8da, 0x42cc2237, 0x8a2a5483, 0xc1afe45c], 0x00000000);
    NextTurn(22, [0x7dbb787d, 0x90eb9850, 0xb9d63a36, 0x42cc2237, 0x8a2a5483], 0x00000004);
    NextTurn(23, [0x1c64d028, 0x7dbb787d, 0x243ae614, 0xb9d63a36, 0x42cc2237], 0x00000000);
  }

  lemma Turns24()
    ensures After(32, [0x62ea3d59, 0x6a2e466e, 0xf29155b2, 0xe1d2de1b, 0x71ec478b])
  {
    hide WordIs, After;
    Turns16();
    Words24();
    NextTurn(24, [0x1e97b73a, 0x1c64d028, 0x5f6ede1f, 0x243ae614, 0xb9d63a36], 0x00000002);
    NextTurn(25, [0x62d7f53f, 0x1e97b73a, 0x0719340a, 0x5f6ede1f, 0x243ae614], 0x00000008);
    NextTurn(26, [0x34f3d6d8, 0x62d7f53f, 0x87a5edce, 0x0719340a, 0x5f6ede1f], 0x00000000);
    NextTurn(27, [0x4f2ed1c1, 0x34f3d6d8, 0xd8b5fd4f, 0x87a5edce, 0x0719340a], 0x00000000);
    NextTurn(28, [0xc7b11e2d, 0x4f2ed1c1, 0x0d3cf5b6, 0xd8b5fd4f, 0x87a5edce], 0x00000010);
    NextTurn(29, [0x874b786f, 0xc7b11e2d, 0x53cbb470, 0x0d3cf5b6, 0xd8b5fd4f], 0x00000000);
    NextTurn(30, [0xca4556cb, 0x874b786f, 0x71ec478b, 0x53cbb470, 0x0d3cf5b6], 0x0000000a);
    NextTurn(31, [0x6a2e466e, 0xca4556cb, 0xe1d2de1b, 0x71ec478b, 0x53cbb470], 0x00000020);
  }

  lemma Turns32()
    ensures After(40, [0x9bdbdd71, 0x62273351, 0xec805e22, 0x413c1d9a, 0x2aeeae62])
  {
    hide WordIs, After;
    Turns24();
    Words32();
    NextTurn(32, [0x62ea3d59, 0x6a2e466e, 0xf29155b2, 0xe1d2de1b, 0x71ec478b], 0x00000006);
    NextTurn(33, [0xb77bac25, 0x62ea3d59, 0x9a8b919b, 0xf29155b2, 0xe1d2de1b], 0x00000000);
    NextTurn(34, [0x4b1347e2, 0xb77bac25, 0x58ba8f56, 0x9a8b919b, 0xf29155b2], 0x00000040);
    NextTurn(35, [0x391ef0c4, 0x4b1347e2, 0x6ddeeb09, 0x58ba8f56, 0x9a8b919b], 0x00000008);
    NextTurn(36, [0xabbab988, 0x391ef0c4, 0x92c4d1f8, 0x6ddeeb09, 0x58ba8f56], 0x00000028);
    NextTurn(37, [0x04f07669, 0xabbab988, 0x0e47bc31, 0x92c4d1f8, 0x6ddeeb09], 0x00000080);
    NextTurn(38, [0xb201788b, 0x04f07669, 0x2aeeae62, 0x0e47bc31, 0x92c4d1f8], 0x00000008);
    NextTurn(39, [0x62273351, 0xb201788b, 0x413c1d9a, 0x2aeeae62, 0x0e47bc31], 0x00000000);
  }

  lemma Turns40()
    ensures After(48, [0xe6d39f43, 0xa195ba90, 0xebf9a56a, 0x77878e80, 0xbea542ae])
  {
    hide WordIs, After;
    Turns32();
    Words40();
    NextTurn(40, [0x9bdbdd71, 0x62273351, 0xec805e22, 0x413c1d9a, 0x2aeeae62], 0x00000108);
    NextTurn(41, [0x95aa398b, 0x9bdbdd71, 0x5889ccd4, 0xec805e22, 0x413c1d9a], 0x00000000);
    NextTurn(42, [0x5e28e858, 0x95aa398b, 0x66f6f75c, 0x5889ccd4, 0xec805e22], 0x000000a0);
    NextTurn(43, [0x95642485, 0x5e28e858, 0xe56a8e62, 0x66f6f75c, 0x5889ccd4], 0x00000200);
    NextTurn(44, [0xfa950aba, 0x95642485, 0x178a3a16, 0xe56a8e62, 0x66f6f75c], 0x00000064);
    NextTurn(45, [0xde1e3a01, 0xfa950aba, 0x65590921, 0x178a3a16, 0xe56a8e62], 0x00000000);
    NextTurn(46, [0xafe695ab, 0xde1e3a01, 0xbea542ae, 0x65590921, 0x178a3a16], 0x00000408);
    NextTurn(47, [0xa195ba90, 0xafe695ab, 0x77878e80, 0xbea542ae, 0x65590921], 0x00000088);
  }

  lemma Turns48()
    ensures After(56, [0xbe4a4bea, 0x8590c0e8, 0xab95b950, 0xd5b39cea, 0x38960738])
  {
    hide WordIs, After;
    Turns40();
    Words48();
    NextTurn(48, [0xe6d39f43, 0xa195ba90, 0xebf9a56a, 0x77878e80, 0xbea542ae], 0x0000029c);
    NextTurn(49, [0x0bca9922, 0xe6d39f43, 0x28656ea4, 0xebf9a56a, 0x77878e80], 0x00000800);
    NextTurn(50, [0x6ae826ff, 0x0bca9922, 0xf9b4e7d0, 0x28656ea4, 0xebf9a56a], 0x00000080);
    NextTurn(51, [0x01ff3253, 0x6ae826ff, 0x82f2a648, 0xf9b4e7d0, 0x28656ea4], 0x00000028);
    NextTurn(52, [0xe2581ce0, 0x01ff3253, 0xdaba09bf, 0x82f2a648, 0xf9b4e7d0], 0x00001088);
    NextTurn(53, [0x56ce73ab, 0xe2581ce0, 0xc07fcc94, 0xdaba09bf, 0x82f2a648], 0x00000000);
    NextTurn(54, [0xae56e542, 0x56ce73ab, 0x38960738, 0xc07fcc94, 0xdaba09bf], 0x00000a40);
    NextTurn(55, [0x8590c0e8, 0xae56e542, 0xd5b39cea, 0x38960738, 0xc07fcc94], 0x00002000);
  }

  lemma Turns56()
    ensures After(64, [0xbb0f226f, 0xcd98fbb7, 0xe16e7489, 0xf4df6e4d, 0xe6e74a44])
  {
    hide WordIs, After;
    Turns48();
    Words56();
    NextTurn(56, [0xbe4a4bea, 0x8590c0e8, 0xab95b950, 0xd5b39cea, 0x38960738], 0x00000668);
    NextTurn(57, [0x168ce0bb, 0xbe4a4bea, 0x2164303a, 0xab95b950, 0xd5b39cea], 0x00000080);
    NextTurn(58, [0xe1afab22, 0x168ce0bb, 0xaf9292fa, 0x2164303a, 0xab95b950], 0x00004088);
    NextTurn(59, [0x982bcbca, 0xe1afab22, 0xc5a3382e, 0xaf9292fa, 0x2164303a], 0x00000880);
    NextTurn(60, [0x9b9d2913, 0x982bcbca, 0xb86beac8, 0xc5a3382e, 0xaf9292fa], 0x000028c8);
    NextTurn(61, [0xd37db937, 0x9b9d2913, 0xa60af2f2, 0xb86beac8, 0xc5a3382e], 0x00008000);
    NextTurn(62, [0x85b9d227, 0xd37db937, 0xe6e74a44, 0xa60af2f2, 0xb86beac8], 0x000008a8);
    NextTurn(63, [0xcd98fbb7, 0x85b9d227, 0xf4df6e4d, 0xe6e74a44, 0xa60af2f2], 0x00000080);
  }

  lemma Turns64()
    ensures After(72, [0xb47ddf0e, 0x3cd517f9, 0x140f1eb8, 0xe2e80189, 0x39e6befc])
  {
    hide WordIs, After;
    Turns56();
    Words64();
    NextTurn(64, [0xbb0f226f, 0xcd98fbb7, 0xe16e7489, 0xf4df6e4d, 0xe6e74a44], 0x000108e8);
    NextTurn(65, [0xeb59446c, 0xbb0f226f, 0xf3663eed, 0xe16e7489, 0xf4df6e4d], 0x00000000);
    NextTurn(66, [0xd37225cb, 0xeb59446c, 0xeec3c89b, 0xf3663eed, 0xe16e7489], 0x0000a000);
    NextTurn(67, [0x111341f3, 0xd37225cb, 0x3ad6511b, 0xeec3c89b, 0xf3663eed], 0x00020080);
    NextTurn(68, [0xe79afbf0, 0x111341f3, 0xf4dc8972, 0x3ad6511b, 0xeec3c89b], 0x00006400);
    NextTurn(69, [0x8ba00627, 0xe79afbf0, 0xc444d07c, 0xf4dc8972, 0x3ad6511b], 0x00000000);
    NextTurn(70, [0x503c7ae0, 0x8ba00627, 0x39e6befc, 0xc444d07c, 0xf4dc8972], 0x00040800);
    NextTurn(71, [0x3cd517f9, 0x503c7ae0, 0xe2e80189, 0x39e6befc, 0xc444d07c], 0x00008800);
  }

  lemma Turns72()
    ensures After(80, [0x72f480ed, 0x6e9d9f84, 0x999ae2f1, 0x852dc41a, 0xec052519])
  {
    hide WordIs, After;
    Turns64();
    Words72();
    NextTurn(72, [0xb47ddf0e, 0x3cd517f9, 0x140f1eb8, 0xe2e80189, 0x39e6befc], 0x00029c10);
    NextTurn(73, [0x5e3a0780, 0xb47ddf0e, 0x4f3545fe, 0x140f1eb8, 0xe2e80189], 0x00080000);
    NextTurn(74, [0x63db37b2, 0x5e3a0780, 0xad1f77c3, 0x4f3545fe, 0x140f1eb8], 0x00008080);
    NextTurn(75, [0x15e98d17, 0x63db37b2, 0x178e81e0, 0xad1f77c3, 0x4f3545fe], 0x00002820);
    NextTurn(76, [0xb0149467, 0x15e98d17, 0x98f6cdec, 0x178e81e0, 0xad1f77c3], 0x001088c0);
    NextTurn(77, [0x14b7106a, 0xb0149467, 0xc57a6345, 0x98f6cdec, 0x178e81e0], 0x00000000);
    NextTurn(78, [0x666b8bc6, 0x14b7106a, 0xec052519, 0xc57a6345, 0x98f6cdec], 0x000a40c0);
    NextTurn(79, [0x6e9d9f84, 0x666b8bc6, 0x852dc41a, 0xec052519, 0xc57a6345], 0x00200080);
  }

  lemma NoTurns()
    ensures After(0, [0x67452301, 0xefcdab89, 0x98badcfe, 0x10325476, 0xc3d2e1f0])
  {
  }

  lemma EmptyPadded()
    ensures |Padded([])| == 64 && Words(Padded([])) == Empty
  {
    var p := Padded([]);
    assert p == [0x80] + Zeros(55) + Length64(0);
    NoLength();
    assert p[0] == 0x80 && forall i :: 1 <= i < 64 ==> p[i] == 0;
    assert Words(p)[0] == 0x80000000;
    assert forall i :: 1 <= i < 16 ==> Words(p)[i] == 0;
  }

  lemma NoByte(i: nat)
    ensures ByteOf(0, i) == 0
  {
    hide Power;
    PowerPositive(i);
    assert 0 / Power(i) == 0;
  }

  lemma NoLength()
    ensures Length64(0) == Zeros(8)
  {
    forall i | 0 <= i < 8
      ensures Length64(0)[i] == 0
    {
      NoByte(7 - i);
    }
  }

  /** The digest of the empty message. */
  lemma EmptyDigest()
    ensures Digest([]) == [0xda39a3ee, 0x5e6b4b0d, 0x3255bfef, 0x95601890, 0xafd80709]
  {
    hide Turns, Padded, Words, W;
    EmptyPadded();
    Turns72();
    var p := Padded([]);
    assert p[..64] == p && p[64..] == [];
    assert Compression(Initial(), p) == [0xda39a3ee, 0x5e6b4b0d, 0x3255bfef, 0x95601890, 0xafd80709];
    assert Folded(Initial(), p) == Folded(Compression(Initial(), p), []);
  }
}
