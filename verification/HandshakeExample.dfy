/**
  * The example handshake of section 1.3 of RFC 6455, worked through: every word of the two schedules and every
  * register of the 160 rounds is a literal, checked against the bit operations of section 6.1.2 of FIPS 180-4.
  */
module HandshakeExample {
  import opened Sha1Spec
  import opened HandshakeKey
  import opened Base64Spec

  type block = m: seq<word> | |m| == 16 witness [0, 0, 0, 0, 0, 0, 0, 0, 0, 0, 0, 0, 0, 0, 0, 0]

  // ------------------------------------------------------------------ one round, on its bits

  function Left5(x: word): (r: word) { (x << 5) | (x >> 27) }
  function Left30(x: word): (r: word) { (x << 30) | (x >> 2) }

  lemma Turned(a: word, b: word)
    ensures Rol(a, 5) == Left5(a) && Rol(b, 30) == Left30(b)
  {
  }

  lemma Turn(h: Registers, m: block, t: nat, w: word, a: word, b: word, c: word, d: word, e: word)
    requires Schedule(m, t) == w && Rounds(h, m, t) == Registers(a, b, c, d, e)
    ensures Rounds(h, m, t + 1) == Registers(Total(Left5(a), F(t, b, c, d), e, K(t), w), a, Left30(b), c, d)
  {
    hide Schedule, F, K, Rol, Total, Left5, Left30;
    Turned(a, b);
    assert Rounds(h, m, t + 1) == Round(t, w, Registers(a, b, c, d, e));
  }

  // ------------------------------------------------------------------ sixteen words of a schedule

  /** Words `t` to `t + 15` of the schedule of a block. */
  ghost predicate Words(m: block, t: nat, w: block) {
    && Schedule(m, t) == w[0] && Schedule(m, t + 1) == w[1] && Schedule(m, t + 2) == w[2] && Schedule(m, t + 3) == w[3]
    && Schedule(m, t + 4) == w[4] && Schedule(m, t + 5) == w[5] && Schedule(m, t + 6) == w[6]
    && Schedule(m, t + 7) == w[7] && Schedule(m, t + 8) == w[8] && Schedule(m, t + 9) == w[9]
    && Schedule(m, t + 10) == w[10] && Schedule(m, t + 11) == w[11] && Schedule(m, t + 12) == w[12]
    && Schedule(m, t + 13) == w[13] && Schedule(m, t + 14) == w[14] && Schedule(m, t + 15) == w[15]
  }

  /** The sixteen words that follow sixteen others. */
  function Next(w: block): (r: block) {
    var n0 := Mix(w[13], w[8], w[2], w[0]);
    var n1 := Mix(w[14], w[9], w[3], w[1]);
    var n2 := Mix(w[15], w[10], w[4], w[2]);
    var n3 := Mix(n0, w[11], w[5], w[3]);
    var n4 := Mix(n1, w[12], w[6], w[4]);
    var n5 := Mix(n2, w[13], w[7], w[5]);
    var n6 := Mix(n3, w[14], w[8], w[6]);
    var n7 := Mix(n4, w[15], w[9], w[7]);
    var n8 := Mix(n5, n0, w[10], w[8]);
    var n9 := Mix(n6, n1, w[11], w[9]);
    var n10 := Mix(n7, n2, w[12], w[10]);
    var n11 := Mix(n8, n3, w[13], w[11]);
    var n12 := Mix(n9, n4, w[14], w[12]);
    var n13 := Mix(n10, n5, w[15], w[13]);
    var n14 := Mix(n11, n6, n0, w[14]);
    var n15 := Mix(n12, n7, n1, w[15]);
    [n0, n1, n2, n3, n4, n5, n6, n7, n8, n9, n10, n11, n12, n13, n14, n15]
  }

  lemma Grown(m: block, t: nat, x: word, y: word, z: word, v: word)
    requires Schedule(m, t + 13) == x && Schedule(m, t + 8) == y && Schedule(m, t + 2) == z && Schedule(m, t) == v
    ensures Schedule(m, t + 16) == Mix(x, y, z, v)
  {
    hide Mix, Schedule;
    ScheduleMixes(m, t + 16);
  }

  lemma NextWords(m: block, t: nat, w: block)
    requires Words(m, t, w)
    ensures Words(m, t + 16, Next(w))
  {
    hide Mix, Schedule;
    var n := Next(w);
    Grown(m, t, w[13], w[8], w[2], w[0]);
    Grown(m, t + 1, w[14], w[9], w[3], w[1]);
    Grown(m, t + 2, w[15], w[10], w[4], w[2]);
    Grown(m, t + 3, n[0], w[11], w[5], w[3]);
    Grown(m, t + 4, n[1], w[12], w[6], w[4]);
    Grown(m, t + 5, n[2], w[13], w[7], w[5]);
    Grown(m, t + 6, n[3], w[14], w[8], w[6]);
    Grown(m, t + 7, n[4], w[15], w[9], w[7]);
    Grown(m, t + 8, n[5], n[0], w[10], w[8]);
    Grown(m, t + 9, n[6], n[1], w[11], w[9]);
    Grown(m, t + 10, n[7], n[2], w[12], w[10]);
    Grown(m, t + 11, n[8], n[3], w[13], w[11]);
    Grown(m, t + 12, n[9], n[4], w[14], w[12]);
    Grown(m, t + 13, n[10], n[5], w[15], w[13]);
    Grown(m, t + 14, n[11], n[6], n[0], w[14]);
    Grown(m, t + 15, n[12], n[7], n[1], w[15]);
  }

  lemma Start(h: Registers, m: block)
    ensures Rounds(h, m, 0) == h && Words(m, 0, m)
  {
  }

  // ------------------------------------------------------------------ block 1

  const Key0: block :=
    [0x6447686c, 0x49484e68, 0x62584273, 0x5a534275, 0x6232356a, 0x5a513d3d, 0x32353845, 0x41464135,
     0x2d453931, 0x342d3437, 0x44412d39, 0x3543412d, 0x43354142, 0x30444338, 0x35423131, 0x80000000]
  const Key16: block :=
    [0x363ca02c, 0x24e81236, 0x8856b441, 0x06fb3c92, 0x6fb4bcb6, 0x460b16e3, 0x599219ae, 0x35bf9369,
     0x3267458e, 0xf828fd04, 0x753a96a7, 0x6336f612, 0xc3d66383, 0x06eb86f9, 0x73b4fd42, 0xa503c5b8]
  const Key32: block :=
    [0x15cdae35, 0x531e5dc5, 0x6fb6b7d0, 0x6c16e4ac, 0x4ddd36bd, 0x35d36946, 0xe8ae8b9c, 0x4a933ad0,
     0xce8628b4, 0x415dba9e, 0x2792f049, 0x8e9b79e7, 0x79c425c5, 0x6353b49d, 0x00994218, 0x8a950ed1]
  const Key48: block :=
    [0xaf5d0b99, 0xfd9883de, 0x1ed8ffeb, 0xf007ff28, 0x425e3674, 0x059631c0, 0xad6c3c31, 0x860b71d7,
     0x87bfc548, 0x3e64f92d, 0x8d0ab761, 0x34e1ee35, 0x0acf5108, 0xc2b479da, 0x6c93370a, 0xf7935ba1]
  const Key64: block :=
    [0xe91c91c1, 0xbed165a2, 0x4c3e4abe, 0x50d96238, 0xb6587dde, 0x1a2ee6e6, 0x2d335896, 0xf3495d0b,
     0xf30e0a1d, 0x32ce5459, 0x7165e3b8, 0xab05ff94, 0xc5949f0b, 0xbcd84e4a, 0x07720392, 0xff3ff806]

  lemma KeyWords()
    ensures Next(Key0) == Key16 && Next(Key16) == Key32 && Next(Key32) == Key48 && Next(Key48) == Key64
  {
  }

  lemma KeyRounds0(h: Registers, m: block)
    requires Words(m, 0, Key0)
    requires Rounds(h, m, 0) == Registers(0x67452301, 0xefcdab89, 0x98badcfe, 0x10325476, 0xc3d2e1f0)
    ensures Rounds(h, m, 16) == Registers(0xa004c468, 0xe922cc9d, 0xab86825b, 0xd86f6caf, 0x8d33ae61)
  {
    hide Schedule, Rounds;
    Turn(h, m, 0, 0x6447686c, 0x67452301, 0xefcdab89, 0x98badcfe, 0x10325476, 0xc3d2e1f0);
    Turn(h, m, 1, 0x49484e68, 0x03fc011f, 0x67452301, 0x7bf36ae2, 0x98badcfe, 0x10325476);
    Turn(h, m, 2, 0x62584273, 0x2f793f55, 0x03fc011f, 0x59d148c0, 0x7bf36ae2, 0x98badcfe);
    Turn(h, m, 3, 0x5a534275, 0xbe90ee8f, 0x2f793f55, 0xc0ff0047, 0x59d148c0, 0x7bf36ae2);
    Turn(h, m, 4, 0x6232356a, 0x53e039ac, 0xbe90ee8f, 0x4bde4fd5, 0xc0ff0047, 0x59d148c0);
    Turn(h, m, 5, 0x5a513d3d, 0xdd8c7c12, 0x53e039ac, 0xefa43ba3, 0x4bde4fd5, 0xc0ff0047);
    Turn(h, m, 6, 0x32353845, 0x7320b969, 0xdd8c7c12, 0x14f80e6b, 0xefa43ba3, 0x4bde4fd5);
    Turn(h, m, 7, 0x41464135, 0x73553e84, 0x7320b969, 0xb7631f04, 0x14f80e6b, 0xefa43ba3);
    Turn(h, m, 8, 0x2d453931, 0x2e0ce601, 0x73553e84, 0x5cc82e5a, 0xb7631f04, 0x14f80e6b);
    Turn(h, m, 9, 0x342d3437, 0x32beb05a, 0x2e0ce601, 0x1cd54fa1, 0x5cc82e5a, 0xb7631f04);
    Turn(h, m, 10, 0x44412d39, 0xfaad2675, 0x32beb05a, 0x4b833980, 0x1cd54fa1, 0x5cc82e5a);
    Turn(h, m, 11, 0x3543412d, 0x5ff4238c, 0xfaad2675, 0x8cafac16, 0x4b833980, 0x1cd54fa1);
    Turn(h, m, 12, 0x43354142, 0x34ceb986, 0x5ff4238c, 0x7eab499d, 0x8cafac16, 0x4b833980);
    Turn(h, m, 13, 0x30444338, 0x61bdb2bf, 0x34ceb986, 0x17fd08e3, 0x7eab499d, 0x8cafac16);
    Turn(h, m, 14, 0x35423131, 0xae1a096e, 0x61bdb2bf, 0x8d33ae61, 0x17fd08e3, 0x7eab499d);
    Turn(h, m, 15, 0x80000000, 0xe922cc9d, 0xae1a096e, 0xd86f6caf, 0x8d33ae61, 0x17fd08e3);
  }

  lemma KeyRounds16(h: Registers, m: block)
    requires Words(m, 16, Key16)
    requires Rounds(h, m, 16) == Registers(0xa004c468, 0xe922cc9d, 0xab86825b, 0xd86f6caf, 0x8d33ae61)
    ensures Rounds(h, m, 32) == Registers(0xa6680a1f, 0xb7dabc8b, 0x4206d8f9, 0xc6aec70d, 0x95c7df60)
  {
    hide Schedule, Rounds;
    Turn(h, m, 16, 0x363ca02c, 0xa004c468, 0xe922cc9d, 0xab86825b, 0xd86f6caf, 0x8d33ae61);
    Turn(h, m, 17, 0x24e81236, 0xd7daf575, 0xa004c468, 0x7a48b327, 0xab86825b, 0xd86f6caf);
    Turn(h, m, 18, 0x8856b441, 0x7ebb296b, 0xd7daf575, 0x2801311a, 0x7a48b327, 0xab86825b);
    Turn(h, m, 19, 0x06fb3c92, 0x8dc510b6, 0x7ebb296b, 0x75f6bd5d, 0x2801311a, 0x7a48b327);
    Turn(h, m, 20, 0x6fb4bcb6, 0x091ab97c, 0x8dc510b6, 0xdfaeca5a, 0x75f6bd5d, 0x2801311a);
    Turn(h, m, 21, 0x460b16e3, 0x518470a3, 0x091ab97c, 0xa371442d, 0xdfaeca5a, 0x75f6bd5d);
    Turn(h, m, 22, 0x599219ae, 0xd12f0b56, 0x518470a3, 0x0246ae5f, 0xa371442d, 0xdfaeca5a);
    Turn(h, m, 23, 0x35bf9369, 0xbeafd554, 0xd12f0b56, 0xd4611c28, 0x0246ae5f, 0xa371442d);
    Turn(h, m, 24, 0x3267458e, 0x250e26ef, 0xbeafd554, 0xb44bc2d5, 0xd4611c28, 0x0246ae5f);
    Turn(h, m, 25, 0xf828fd04, 0x23d1c91b, 0x250e26ef, 0x2fabf555, 0xb44bc2d5, 0xd4611c28);
    Turn(h, m, 26, 0x753a96a7, 0x748b39a0, 0x23d1c91b, 0xc94389bb, 0x2fabf555, 0xb44bc2d5);
    Turn(h, m, 27, 0x6336f612, 0xef012f20, 0x748b39a0, 0xc8f47246, 0xc94389bb, 0x2fabf555);
    Turn(h, m, 28, 0xc3d66383, 0x571f7d82, 0xef012f20, 0x1d22ce68, 0xc8f47246, 0xc94389bb);
    Turn(h, m, 29, 0x06eb86f9, 0x1abb1c37, 0x571f7d82, 0x3bc04bc8, 0x1d22ce68, 0xc8f47246);
    Turn(h, m, 30, 0x73b4fd42, 0x081b63e5, 0x1abb1c37, 0x95c7df60, 0x3bc04bc8, 0x1d22ce68);
    Turn(h, m, 31, 0xa503c5b8, 0xb7dabc8b, 0x081b63e5, 0xc6aec70d, 0x95c7df60, 0x3bc04bc8);
  }

  lemma KeyRounds32(h: Registers, m: block)
    requires Words(m, 32, Key32)
    requires Rounds(h, m, 32) == Registers(0xa6680a1f, 0xb7dabc8b, 0x4206d8f9, 0xc6aec70d, 0x95c7df60)
    ensures Rounds(h, m, 48) == Registers(0xabe1748a, 0xdee4b7a8, 0x5cbfccd3, 0x97d7cd14, 0xdb71a8f5)
  {
    hide Schedule, Rounds;
    Turn(h, m, 32, 0x15cdae35, 0xa6680a1f, 0xb7dabc8b, 0x4206d8f9, 0xc6aec70d, 0x95c7df60);
    Turn(h, m, 33, 0x531e5dc5, 0x1ae360a9, 0xa6680a1f, 0xedf6af22, 0x4206d8f9, 0xc6aec70d);
    Turn(h, m, 34, 0x6fb6b7d0, 0xeeaba35a, 0x1ae360a9, 0xe99a0287, 0xedf6af22, 0x4206d8f9);
    Turn(h, m, 35, 0x6c16e4ac, 0x149bb4d3, 0xeeaba35a, 0x46b8d82a, 0xe99a0287, 0xedf6af22);
    Turn(h, m, 36, 0x4ddd36bd, 0x9de793c8, 0x149bb4d3, 0xbbaae8d6, 0x46b8d82a, 0xe99a0287);
    Turn(h, m, 37, 0x35d36946, 0x4ccd2227, 0x9de793c8, 0xc526ed34, 0xbbaae8d6, 0x46b8d82a);
    Turn(h, m, 38, 0xe8ae8b9c, 0x68760824, 0x4ccd2227, 0x2779e4f2, 0xc526ed34, 0xbbaae8d6);
    Turn(h, m, 39, 0x4a933ad0, 0xd0869081, 0x68760824, 0xd3334889, 0x2779e4f2, 0xc526ed34);
    Turn(h, m, 40, 0xce8628b4, 0x2ba2c83e, 0xd0869081, 0x1a1d8209, 0xd3334889, 0x2779e4f2);
    Turn(h, m, 41, 0x415dba9e, 0xcb8c52d0, 0x2ba2c83e, 0x7421a420, 0x1a1d8209, 0xd3334889);
    Turn(h, m, 42, 0x2792f049, 0x4f589a44, 0xcb8c52d0, 0x8ae8b20f, 0x7421a420, 0x1a1d8209);
    Turn(h, m, 43, 0x8e9b79e7, 0x868829b7, 0x4f589a44, 0x32e314b4, 0x8ae8b20f, 0x7421a420);
    Turn(h, m, 44, 0x79c425c5, 0x6dc6a3d7, 0x868829b7, 0x13d62691, 0x32e314b4, 0x8ae8b20f);
    Turn(h, m, 45, 0x6353b49d, 0x5f5f3452, 0x6dc6a3d7, 0xe1a20a6d, 0x13d62691, 0x32e314b4);
    Turn(h, m, 46, 0x00994218, 0x72ff334d, 0x5f5f3452, 0xdb71a8f5, 0xe1a20a6d, 0x13d62691);
    Turn(h, m, 47, 0x8a950ed1, 0xdee4b7a8, 0x72ff334d, 0x97d7cd14, 0xdb71a8f5, 0xe1a20a6d);
  }

  lemma KeyRounds48(h: Registers, m: block)
    requires Words(m, 48, Key48)
    requires Rounds(h, m, 48) == Registers(0xabe1748a, 0xdee4b7a8, 0x5cbfccd3, 0x97d7cd14, 0xdb71a8f5)
    ensures Rounds(h, m, 64) == Registers(0x685e2ff6, 0x840054d3, 0xe43c0363, 0x3350802e, 0x921cb616)
  {
    hide Schedule, Rounds;
    Turn(h, m, 48, 0xaf5d0b99, 0xabe1748a, 0xdee4b7a8, 0x5cbfccd3, 0x97d7cd14, 0xdb71a8f5);
    Turn(h, m, 49, 0xfd9883de, 0x7510d04f, 0xabe1748a, 0x37b92dea, 0x5cbfccd3, 0x97d7cd14);
    Turn(h, m, 50, 0x1ed8ffeb, 0x065f8486, 0x7510d04f, 0xaaf85d22, 0x37b92dea, 0x5cbfccd3);
    Turn(h, m, 51, 0xf007ff28, 0x0e5d77c4, 0x065f8486, 0xdd443413, 0xaaf85d22, 0x37b92dea);
    Turn(h, m, 52, 0x425e3674, 0x10e7f671, 0x0e5d77c4, 0x8197e121, 0xdd443413, 0xaaf85d22);
    Turn(h, m, 53, 0x059631c0, 0x26c69395, 0x10e7f671, 0x03975df1, 0x8197e121, 0xdd443413);
    Turn(h, m, 54, 0xad6c3c31, 0x4c608ac4, 0x26c69395, 0x4439fd9c, 0x03975df1, 0x8197e121);
    Turn(h, m, 55, 0x860b71d7, 0x50c9104c, 0x4c608ac4, 0x49b1a4e5, 0x4439fd9c, 0x03975df1);
    Turn(h, m, 56, 0x87bfc548, 0x7e1242f2, 0x50c9104c, 0x131822b1, 0x49b1a4e5, 0x4439fd9c);
    Turn(h, m, 57, 0x3e64f92d, 0x6ef6fef4, 0x7e1242f2, 0x14324413, 0x131822b1, 0x49b1a4e5);
    Turn(h, m, 58, 0x8d0ab761, 0x0c247c2e, 0x6ef6fef4, 0x9f8490bc, 0x14324413, 0x131822b1);
    Turn(h, m, 59, 0x34e1ee35, 0xd284f163, 0x0c247c2e, 0x1bbdbfbd, 0x9f8490bc, 0x14324413);
    Turn(h, m, 60, 0x0acf5108, 0x4872d85a, 0xd284f163, 0x83091f0b, 0x1bbdbfbd, 0x9f8490bc);
    Turn(h, m, 61, 0xc2b479da, 0xcd4200b8, 0x4872d85a, 0xf4a13c58, 0x83091f0b, 0x1bbdbfbd);
    Turn(h, m, 62, 0x6c93370a, 0x90f00d8f, 0xcd4200b8, 0x921cb616, 0xf4a13c58, 0x83091f0b);
    Turn(h, m, 63, 0xf7935ba1, 0x840054d3, 0x90f00d8f, 0x3350802e, 0x921cb616, 0xf4a13c58);
  }

  lemma KeyRounds64(h: Registers, m: block)
    requires Words(m, 64, Key64)
    requires Rounds(h, m, 64) == Registers(0x685e2ff6, 0x840054d3, 0xe43c0363, 0x3350802e, 0x921cb616)
    ensures Rounds(h, m, 80) == Registers(0xf48a5426, 0x835995e1, 0x25c11efb, 0x4a45c402, 0x9a73c2f2)
  {
    hide Schedule, Rounds;
    Turn(h, m, 64, 0xe91c91c1, 0x685e2ff6, 0x840054d3, 0xe43c0363, 0x3350802e, 0x921cb616);
    Turn(h, m, 65, 0xbed165a2, 0xa4cee018, 0x685e2ff6, 0xe1001534, 0xe43c0363, 0x3350802e);
    Turn(h, m, 66, 0x4c3e4abe, 0xc3c2e45b, 0xa4cee018, 0x9a178bfd, 0xe1001534, 0xe43c0363);
    Turn(h, m, 67, 0x50d96238, 0x53131a40, 0xc3c2e45b, 0x2933b806, 0x9a178bfd, 0xe1001534);
    Turn(h, m, 68, 0xb6587dde, 0xcf8658ec, 0x53131a40, 0xf0f0b916, 0x2933b806, 0x9a178bfd);
    Turn(h, m, 69, 0x1a2ee6e6, 0x966e049a, 0xcf8658ec, 0x14c4c690, 0xf0f0b916, 0x2933b806);
    Turn(h, m, 70, 0x2d335896, 0x07381b7e, 0x966e049a, 0x33e1963b, 0x14c4c690, 0xf0f0b916);
    Turn(h, m, 71, 0xf3495d0b, 0x80d59773, 0x07381b7e, 0xa59b8126, 0x33e1963b, 0x14c4c690);
    Turn(h, m, 72, 0xf30e0a1d, 0x7e65e044, 0x80d59773, 0x81ce06df, 0xa59b8126, 0x33e1963b);
    Turn(h, m, 73, 0x32ce5459, 0x628e7b47, 0x7e65e044, 0xe03565dc, 0x81ce06df, 0xa59b8126);
    Turn(h, m, 74, 0x7165e3b8, 0x143a8388, 0x628e7b47, 0x1f997811, 0xe03565dc, 0x81ce06df);
    Turn(h, m, 75, 0xab05ff94, 0xe20983f9, 0x143a8388, 0xd8a39ed1, 0x1f997811, 0xe03565dc);
    Turn(h, m, 76, 0xc5949f0b, 0x69cf0bca, 0xe20983f9, 0x050ea0e2, 0xd8a39ed1, 0x1f997811);
    Turn(h, m, 77, 0xbcd84e4a, 0x29171009, 0x69cf0bca, 0x788260fe, 0x050ea0e2, 0xd8a39ed1);
    Turn(h, m, 78, 0x07720392, 0x97047bec, 0x29171009, 0x9a73c2f2, 0x788260fe, 0x050ea0e2);
    Turn(h, m, 79, 0xff3ff806, 0x835995e1, 0x97047bec, 0x4a45c402, 0x9a73c2f2, 0x788260fe);
  }

  // ------------------------------------------------------------------ block 2

  const Length0: block :=
    [0x00000000, 0x00000000, 0x00000000, 0x00000000, 0x00000000, 0x00000000, 0x00000000, 0x00000000,
     0x00000000, 0x00000000, 0x00000000, 0x00000000, 0x00000000, 0x00000000, 0x00000000, 0x000001e0]
  const Length16: block :=
    [0x00000000, 0x00000000, 0x000003c0, 0x00000000, 0x00000000, 0x00000780, 0x00000000, 0x000003c0,
     0x00000f00, 0x00000000, 0x00000000, 0x00001e00, 0x00000000, 0x00000cc0, 0x00003c00, 0x00000440]
  const Length32: block :=
    [0x00000000, 0x00007800, 0x00000f00, 0x00003300, 0x0000f000, 0x00000f00, 0x00000000, 0x0001ef00,
     0x00000000, 0x0000cc00, 0x0003c000, 0x00004380, 0x00000000, 0x00078f00, 0x0000ff00, 0x00032680]
  const Length48: block :=
    [0x000f0000, 0x0000f000, 0x00003300, 0x001eff00, 0x00000000, 0x000cb800, 0x003c0000, 0x00040b00,
     0x0000f000, 0x0078ff00, 0x000ff000, 0x00338700, 0x00f00000, 0x000fc300, 0x0000f000, 0x01efbb00]
  const Length64: block :=
    [0x00000000, 0x00cc0000, 0x03c0f000, 0x00438000, 0x00000000, 0x078f0000, 0x00ff0000, 0x03269e00,
     0x0f000000, 0x00f0f000, 0x00333c00, 0x1eff8800, 0x00000000, 0x0cb88800, 0x3c00f000, 0x040a4a00]

  lemma LengthWords()
    ensures Next(Length0) == Length16 && Next(Length16) == Length32
    ensures Next(Length32) == Length48 && Next(Length48) == Length64
  {
  }

  lemma LengthRounds0(h: Registers, m: block)
    requires Words(m, 0, Length0)
    requires Rounds(h, m, 0) == Registers(0x5bcf7727, 0x7327416a, 0xbe7bfbf9, 0x5a781878, 0x5e46a4e2)
    ensures Rounds(h, m, 16) == Registers(0x986df268, 0x990b7be7, 0xab50fce7, 0x195db4b7, 0x4941806b)
  {
    hide Schedule, Rounds;
    Turn(h, m, 0, 0x00000000, 0x5bcf7727, 0x7327416a, 0xbe7bfbf9, 0x5a781878, 0x5e46a4e2);
    Turn(h, m, 1, 0x00000000, 0x6d335cde, 0x5bcf7727, 0x9cc9d05a, 0xbe7bfbf9, 0x5a781878);
    Turn(h, m, 2, 0x00000000, 0x186006b8, 0x6d335cde, 0xd6f3ddc9, 0x9cc9d05a, 0xbe7bfbf9);
    Turn(h, m, 3, 0x00000000, 0xf9fb295d, 0x186006b8, 0x9b4cd737, 0xd6f3ddc9, 0x9cc9d05a);
    Turn(h, m, 4, 0x00000000, 0x15855523, 0xf9fb295d, 0x061801ae, 0x9b4cd737, 0xd6f3ddc9);
    Turn(h, m, 5, 0x00000000, 0xe43dd2f2, 0x15855523, 0x7e7eca57, 0x061801ae, 0x9b4cd737);
    Turn(h, m, 6, 0x00000000, 0x93a5efbb, 0xe43dd2f2, 0xc5615548, 0x7e7eca57, 0x061801ae);
    Turn(h, m, 7, 0x00000000, 0xb3bbcafe, 0x93a5efbb, 0xb90f74bc, 0xc5615548, 0x7e7eca57);
    Turn(h, m, 8, 0x00000000, 0x25c018be, 0xb3bbcafe, 0xe4e97bee, 0xb90f74bc, 0xc5615548);
    Turn(h, m, 9, 0x00000000, 0x80946593, 0x25c018be, 0xaceef2bf, 0xe4e97bee, 0xb90f74bc);
    Turn(h, m, 10, 0x00000000, 0x0b0814c3, 0x80946593, 0x8970062f, 0xaceef2bf, 0xe4e97bee);
    Turn(h, m, 11, 0x00000000, 0x4ce92417, 0x0b0814c3, 0xe0251964, 0x8970062f, 0xaceef2bf);
    Turn(h, m, 12, 0x00000000, 0x250601ad, 0x4ce92417, 0xc2c20530, 0xe0251964, 0x8970062f);
    Turn(h, m, 13, 0x00000000, 0x6576d2dc, 0x250601ad, 0xd33a4905, 0xc2c20530, 0xe0251964);
    Turn(h, m, 14, 0x00000000, 0xad43f39e, 0x6576d2dc, 0x4941806b, 0xd33a4905, 0xc2c20530);
    Turn(h, m, 15, 0x000001e0, 0x990b7be7, 0xad43f39e, 0x195db4b7, 0x4941806b, 0xd33a4905);
  }

  lemma LengthRounds16(h: Registers, m: block)
    requires Words(m, 16, Length16)
    requires Rounds(h, m, 16) == Registers(0x986df268, 0x990b7be7, 0xab50fce7, 0x195db4b7, 0x4941806b)
    ensures Rounds(h, m, 32) == Registers(0x3cf6eb58, 0xf4ddd7b7, 0xc90fb815, 0xbd5f2d4f, 0xe4c9f7db)
  {
    hide Schedule, Rounds;
    Turn(h, m, 16, 0x00000000, 0x986df268, 0x990b7be7, 0xab50fce7, 0x195db4b7, 0x4941806b);
    Turn(h, m, 17, 0x00000000, 0x3ad7440e, 0x986df268, 0xe642def9, 0xab50fce7, 0x195db4b7);
    Turn(h, m, 18, 0x000003c0, 0x72198f06, 0x3ad7440e, 0x261b7c9a, 0xe642def9, 0xab50fce7);
    Turn(h, m, 19, 0x00000000, 0x2f193a09, 0x72198f06, 0x8eb5d103, 0x261b7c9a, 0xe642def9);
    Turn(h, m, 20, 0x00000000, 0x2a008b51, 0x2f193a09, 0x9c8663c1, 0x8eb5d103, 0x261b7c9a);
    Turn(h, m, 21, 0x00000780, 0x12315b2b, 0x2a008b51, 0x4bc64e82, 0x9c8663c1, 0x8eb5d103);
    Turn(h, m, 22, 0x00000000, 0x40fbcf98, 0x12315b2b, 0x4a8022d4, 0x4bc64e82, 0x9c8663c1);
    Turn(h, m, 23, 0x000003c0, 0x3e5179e7, 0x40fbcf98, 0xc48c56ca, 0x4a8022d4, 0x4bc64e82);
    Turn(h, m, 24, 0x00000f00, 0x53c73650, 0x3e5179e7, 0x103ef3e6, 0xc48c56ca, 0x4a8022d4);
    Turn(h, m, 25, 0x00000000, 0x1d24c44a, 0x53c73650, 0xcf945e79, 0x103ef3e6, 0xc48c56ca);
    Turn(h, m, 26, 0x00000000, 0x646c677d, 0x1d24c44a, 0x14f1cd94, 0xcf945e79, 0x103ef3e6);
    Turn(h, m, 27, 0x00001e00, 0xd2e726da, 0x646c677d, 0x87493112, 0x14f1cd94, 0xcf945e79);
    Turn(h, m, 28, 0x00000000, 0x9327df6f, 0xd2e726da, 0x591b19df, 0x87493112, 0x14f1cd94);
    Turn(h, m, 29, 0x00000cc0, 0xf57cb53e, 0x9327df6f, 0xb4b9c9b6, 0x591b19df, 0x87493112);
    Turn(h, m, 30, 0x00003c00, 0x243ee057, 0xf57cb53e, 0xe4c9f7db, 0xb4b9c9b6, 0x591b19df);
    Turn(h, m, 31, 0x00000440, 0xf4ddd7b7, 0x243ee057, 0xbd5f2d4f, 0xe4c9f7db, 0xb4b9c9b6);
  }

  lemma LengthRounds32(h: Registers, m: block)
    requires Words(m, 32, Length32)
    requires Rounds(h, m, 32) == Registers(0x3cf6eb58, 0xf4ddd7b7, 0xc90fb815, 0xbd5f2d4f, 0xe4c9f7db)
    ensures Rounds(h, m, 48) == Registers(0xa3ef857e, 0xc8cda3da, 0xcef6480e, 0xff1ef4d7, 0xc7a4d2b3)
  {
    hide Schedule, Rounds;
    Turn(h, m, 32, 0x00000000, 0x3cf6eb58, 0xf4ddd7b7, 0xc90fb815, 0xbd5f2d4f, 0xe4c9f7db);
    Turn(h, m, 33, 0x00007800, 0x730e9170, 0x3cf6eb58, 0xfd3775ed, 0xc90fb815, 0xbd5f2d4f);
    Turn(h, m, 34, 0x00000f00, 0x96d9e59e, 0x730e9170, 0x0f3dbad6, 0xfd3775ed, 0xc90fb815);
    Turn(h, m, 35, 0x00003300, 0x942ac4d3, 0x96d9e59e, 0x1cc3a45c, 0x0f3dbad6, 0xfd3775ed);
    Turn(h, m, 36, 0x0000f000, 0x76922a14, 0x942ac4d3, 0xa5b67967, 0x1cc3a45c, 0x0f3dbad6);
    Turn(h, m, 37, 0x00000f00, 0x7dbcf2ed, 0x76922a14, 0xe50ab134, 0xa5b67967, 0x1cc3a45c);
    Turn(h, m, 38, 0x00000000, 0x796adef3, 0x7dbcf2ed, 0x1da48a85, 0xe50ab134, 0xa5b67967);
    Turn(h, m, 39, 0x0001ef00, 0xc6ff0cd3, 0x796adef3, 0x5f6f3cbb, 0x1da48a85, 0xe50ab134);
    Turn(h, m, 40, 0x00000000, 0x6f698f1a, 0xc6ff0cd3, 0xde5ab7bc, 0x5f6f3cbb, 0x1da48a85);
    Turn(h, m, 41, 0x0000cc00, 0x78716769, 0x6f698f1a, 0xf1bfc334, 0xde5ab7bc, 0x5f6f3cbb);
    Turn(h, m, 42, 0x0003c000, 0xfc343a02, 0x78716769, 0x9bda63c6, 0xf1bfc334, 0xde5ab7bc);
    Turn(h, m, 43, 0x00004380, 0xedfcd85b, 0xfc343a02, 0x5e1c59da, 0x9bda63c6, 0xf1bfc334);
    Turn(h, m, 44, 0x00000000, 0x1e934acf, 0xedfcd85b, 0xbf0d0e80, 0x5e1c59da, 0x9bda63c6);
    Turn(h, m, 45, 0x00078f00, 0xfc7bd35f, 0x1e934acf, 0xfb7f3616, 0xbf0d0e80, 0x5e1c59da);
    Turn(h, m, 46, 0x0000ff00, 0x3bd9203b, 0xfc7bd35f, 0xc7a4d2b3, 0xfb7f3616, 0xbf0d0e80);
    Turn(h, m, 47, 0x00032680, 0xc8cda3da, 0x3bd9203b, 0xff1ef4d7, 0xc7a4d2b3, 0xfb7f3616);
  }

  lemma LengthRounds48(h: Registers, m: block)
    requires Words(m, 48, Length48)
    requires Rounds(h, m, 48) == Registers(0xa3ef857e, 0xc8cda3da, 0xcef6480e, 0xff1ef4d7, 0xc7a4d2b3)
    ensures Rounds(h, m, 64) == Registers(0xa5937450, 0xd5ef1ed7, 0xc444cbe3, 0xddd22788, 0x558467c6)
  {
    hide Schedule, Rounds;
    Turn(h, m, 48, 0x000f0000, 0xa3ef857e, 0xc8cda3da, 0xcef6480e, 0xff1ef4d7, 0xc7a4d2b3);
    Turn(h, m, 49, 0x0000f000, 0xa39f2041, 0xa3ef857e, 0xb23368f6, 0xcef6480e, 0xff1ef4d7);
    Turn(h, m, 50, 0x00003300, 0xa516f265, 0xa39f2041, 0xa8fbe15f, 0xb23368f6, 0xcef6480e);
    Turn(h, m, 51, 0x001eff00, 0xa3abe4f5, 0xa516f265, 0x68e7c810, 0xa8fbe15f, 0xb23368f6);
    Turn(h, m, 52, 0x00000000, 0x5fe2a3db, 0xa3abe4f5, 0x6945bc99, 0x68e7c810, 0xa8fbe15f);
    Turn(h, m, 53, 0x000cb800, 0x9e540637, 0x5fe2a3db, 0x68eaf93d, 0x6945bc99, 0x68e7c810);
    Turn(h, m, 54, 0x003c0000, 0x2c73bd78, 0x9e540637, 0xd7f8a8f6, 0x68eaf93d, 0x6945bc99);
    Turn(h, m, 55, 0x00040b00, 0x660dd0b1, 0x2c73bd78, 0xe795018d, 0xd7f8a8f6, 0x68eaf93d);
    Turn(h, m, 56, 0x0000f000, 0xa1b68141, 0x660dd0b1, 0x0b1cef5e, 0xe795018d, 0xd7f8a8f6);
    Turn(h, m, 57, 0x0078ff00, 0x05033fa3, 0xa1b68141, 0x5983742c, 0x0b1cef5e, 0xe795018d);
    Turn(h, m, 58, 0x000ff000, 0x21289715, 0x05033fa3, 0x686da050, 0x5983742c, 0x0b1cef5e);
    Turn(h, m, 59, 0x00338700, 0x085eb2fe, 0x21289715, 0xc140cfe8, 0x686da050, 0x5983742c);
    Turn(h, m, 60, 0x00f00000, 0x56119f19, 0x085eb2fe, 0x484a25c5, 0xc140cfe8, 0x686da050);
    Turn(h, m, 61, 0x000fc300, 0x77489e23, 0x56119f19, 0x8217acbf, 0x484a25c5, 0xc140cfe8);
    Turn(h, m, 62, 0x0000f000, 0x11132f8f, 0x77489e23, 0x558467c6, 0x8217acbf, 0x484a25c5);
    Turn(h, m, 63, 0x01efbb00, 0xd5ef1ed7, 0x11132f8f, 0xddd22788, 0x558467c6, 0x8217acbf);
  }

  lemma LengthRounds64(h: Registers, m: block)
    requires Words(m, 64, Length64)
    requires Rounds(h, m, 64) == Registers(0xa5937450, 0xd5ef1ed7, 0xc444cbe3, 0xddd22788, 0x558467c6)
    ensures Rounds(h, m, 80) == Registers(0x57aad805, 0x4d3b0dac, 0xd27a4a0d, 0x74c040cd, 0x54782008)
  {
    hide Schedule, Rounds;
    Turn(h, m, 64, 0x00000000, 0xa5937450, 0xd5ef1ed7, 0xc444cbe3, 0xddd22788, 0x558467c6);
    Turn(h, m, 65, 0x00cc0000, 0x9ecfa66c, 0xa5937450, 0xf57bc7b5, 0xc444cbe3, 0xddd22788);
    Turn(h, m, 66, 0x03c0f000, 0x17a22ef7, 0x9ecfa66c, 0x2964dd14, 0xf57bc7b5, 0xc444cbe3);
    Turn(h, m, 67, 0x00438000, 0xc97f1968, 0x17a22ef7, 0x27b3e99b, 0x2964dd14, 0xf57bc7b5);
    Turn(h, m, 68, 0x00000000, 0x097a511c, 0xc97f1968, 0xc5e88bbd, 0x27b3e99b, 0x2964dd14);
    Turn(h, m, 69, 0x078f0000, 0x4e363db9, 0x097a511c, 0x325fc65a, 0xc5e88bbd, 0x27b3e99b);
    Turn(h, m, 70, 0x00ff0000, 0xbf3a7f95, 0x4e363db9, 0x025e9447, 0x325fc65a, 0xc5e88bbd);
    Turn(h, m, 71, 0x03269e00, 0xf6d1afee, 0xbf3a7f95, 0x538d8f6e, 0x025e9447, 0x325fc65a);
    Turn(h, m, 72, 0x0f000000, 0xc90888ca, 0xf6d1afee, 0x6fce9fe5, 0x538d8f6e, 0x025e9447);
    Turn(h, m, 73, 0x00f0f000, 0xc7652edb, 0xc90888ca, 0xbdb46bfb, 0x6fce9fe5, 0x538d8f6e);
    Turn(h, m, 74, 0x00333c00, 0x26f99990, 0xc7652edb, 0xb2422232, 0xbdb46bfb, 0x6fce9fe5);
    Turn(h, m, 75, 0x1eff8800, 0xe22b36d1, 0x26f99990, 0xf1d94bb6, 0xb2422232, 0xbdb46bfb);
    Turn(h, m, 76, 0x00000000, 0x51e08021, 0xe22b36d1, 0x09be6664, 0xf1d94bb6, 0xb2422232);
    Turn(h, m, 77, 0x0cb88800, 0xd3010335, 0x51e08021, 0x788acdb4, 0x09be6664, 0xf1d94bb6);
    Turn(h, m, 78, 0x3c00f000, 0x49e92837, 0xd3010335, 0x54782008, 0x788acdb4, 0x09be6664);
    Turn(h, m, 79, 0x040a4a00, 0x4d3b0dac, 0x49e92837, 0x74c040cd, 0x54782008, 0x788acdb4);
  }

  lemma KeyCompressed(m: block)
    requires m == Key0
    ensures Compress(Registers(0x67452301, 0xefcdab89, 0x98badcfe, 0x10325476, 0xc3d2e1f0), m)
         == Registers(0x5bcf7727, 0x7327416a, 0xbe7bfbf9, 0x5a781878, 0x5e46a4e2)
  {
    hide Schedule, Rounds, Mix, Next;
    var h := Registers(0x67452301, 0xefcdab89, 0x98badcfe, 0x10325476, 0xc3d2e1f0);
    Start(h, m);
    KeyWords();
    NextWords(m, 0, Key0);
    NextWords(m, 16, Key16);
    NextWords(m, 32, Key32);
    NextWords(m, 48, Key48);
    KeyRounds0(h, m);
    KeyRounds16(h, m);
    KeyRounds32(h, m);
    KeyRounds48(h, m);
    KeyRounds64(h, m);
  }

  lemma LengthCompressed(m: block)
    requires m == Length0
    ensures Compress(Registers(0x5bcf7727, 0x7327416a, 0xbe7bfbf9, 0x5a781878, 0x5e46a4e2), m)
         == Registers(0xb37a4f2c, 0xc0624f16, 0x90f64606, 0xcf385945, 0xb2bec4ea)
  {
    hide Schedule, Rounds, Mix, Next;
    var h := Registers(0x5bcf7727, 0x7327416a, 0xbe7bfbf9, 0x5a781878, 0x5e46a4e2);
    Start(h, m);
    LengthWords();
    NextWords(m, 0, Length0);
    NextWords(m, 16, Length16);
    NextWords(m, 32, Length32);
    NextWords(m, 48, Length48);
    LengthRounds0(h, m);
    LengthRounds16(h, m);
    LengthRounds32(h, m);
    LengthRounds48(h, m);
    LengthRounds64(h, m);
  }

  // ------------------------------------------------------------------ the accept value

  /** The octets of "dGhlIHNhbXBsZSBub25jZQ==". */
  const SampleKey: seq<octet> := [
    0x64, 0x47, 0x68, 0x6c, 0x49, 0x48, 0x4e, 0x68, 0x62, 0x58, 0x42, 0x73,
    0x5a, 0x53, 0x42, 0x75, 0x62, 0x32, 0x35, 0x6a, 0x5a, 0x51, 0x3d, 0x3d]

  lemma SampleWords()
    ensures Word(0x64, 0x47, 0x68, 0x6c) == 0x6447686c
    ensures Word(0x49, 0x48, 0x4e, 0x68) == 0x49484e68
    ensures Word(0x62, 0x58, 0x42, 0x73) == 0x62584273
    ensures Word(0x5a, 0x53, 0x42, 0x75) == 0x5a534275
    ensures Word(0x62, 0x32, 0x35, 0x6a) == 0x6232356a
    ensures Word(0x5a, 0x51, 0x3d, 0x3d) == 0x5a513d3d
  {
  }

  const SampleHead: seq<word> := [0x6447686c, 0x49484e68, 0x62584273, 0x5a534275, 0x6232356a, 0x5a513d3d]

  lemma SampleParts()
    ensures SampleHead + FixedWords == Key0
  {
  }

  lemma SampleBlock()
    ensures FirstBlock(SampleKey) == Key0
  {
    hide Word, FixedWords, Key0;
    SampleWords();
    SampleParts();
    assert FirstBlock(SampleKey)[..6] == SampleHead;
  }

  /** Three octets and the four digits that stand for them. */
  lemma EncodeGroup(a: octet, b: octet, c: octet, tail: seq<octet>, p: bv8, q: bv8, r: bv8, s: bv8)
    requires p < 64 && q < 64 && r < 64 && s < 64
    requires var g := Group(a, b, c); Digit(g, 0) == p && Digit(g, 1) == q && Digit(g, 2) == r && Digit(g, 3) == s
    ensures Encode([a, b, c] + tail) == [Letter(p), Letter(q), Letter(r), Letter(s)] + Encode(tail)
  {
    hide Letter, Digit, Group;
    assert ([a, b, c] + tail)[3..] == tail;
  }

  lemma EncodeLastTwo(a: octet, b: octet, p: bv8, q: bv8, r: bv8)
    requires p < 64 && q < 64 && r < 64
    requires var g := Group(a, b, 0); Digit(g, 0) == p && Digit(g, 1) == q && Digit(g, 2) == r
    ensures Encode([a, b]) == [Letter(p), Letter(q), Letter(r), '=']
  {
    hide Letter, Digit, Group;
  }

  /** The twenty octets of the digest. */
  const Tail6: seq<octet> := [0xc4, 0xea]
  const Tail5: seq<octet> := [0x45, 0xb2, 0xbe] + Tail6
  const Tail4: seq<octet> := [0xcf, 0x38, 0x59] + Tail5
  const Tail3: seq<octet> := [0xf6, 0x46, 0x06] + Tail4
  const Tail2: seq<octet> := [0x4f, 0x16, 0x90] + Tail3
  const Tail1: seq<octet> := [0x2c, 0xc0, 0x62] + Tail2
  const SampleDigest: seq<octet> := [0xb3, 0x7a, 0x4f] + Tail1

  lemma Groups()
    ensures Encode(Tail6) == [Letter(49), Letter(14), Letter(40), '=']
    ensures Encode(SampleDigest) == [Letter(44), Letter(55), Letter(41), Letter(15)] + Encode(Tail1)
    ensures Encode(Tail1) == [Letter(11), Letter(12), Letter(1), Letter(34)] + Encode(Tail2)
    ensures Encode(Tail2) == [Letter(19), Letter(49), Letter(26), Letter(16)] + Encode(Tail3)
    ensures Encode(Tail3) == [Letter(61), Letter(36), Letter(24), Letter(6)] + Encode(Tail4)
    ensures Encode(Tail4) == [Letter(51), Letter(51), Letter(33), Letter(25)] + Encode(Tail5)
    ensures Encode(Tail5) == [Letter(17), Letter(27), Letter(10), Letter(62)] + Encode(Tail6)
  {
    hide Encode, Letter;
    EncodeLastTwo(0xc4, 0xea, 49, 14, 40);
    EncodeGroup(0x45, 0xb2, 0xbe, Tail6, 17, 27, 10, 62);
    EncodeGroup(0xcf, 0x38, 0x59, Tail5, 51, 51, 33, 25);
    EncodeGroup(0xf6, 0x46, 0x06, Tail4, 61, 36, 24, 6);
    EncodeGroup(0x4f, 0x16, 0x90, Tail3, 19, 49, 26, 16);
    EncodeGroup(0x2c, 0xc0, 0x62, Tail2, 11, 12, 1, 34);
    EncodeGroup(0xb3, 0x7a, 0x4f, Tail1, 44, 55, 41, 15);
  }

  lemma FirstLetters()
    ensures Letter(44) == 's' && Letter(55) == '3' && Letter(41) == 'p' && Letter(15) == 'P'
    ensures Letter(11) == 'L' && Letter(12) == 'M' && Letter(1) == 'B' && Letter(34) == 'i'
  {
    LetterByRange(44);
    LetterByRange(55);
    LetterByRange(41);
    LetterByRange(15);
    LetterByRange(11);
    LetterByRange(12);
    LetterByRange(1);
    LetterByRange(34);
  }

  lemma MiddleLetters()
    ensures Letter(19) == 'T' && Letter(49) == 'x' && Letter(26) == 'a' && Letter(16) == 'Q'
    ensures Letter(61) == '9' && Letter(36) == 'k' && Letter(24) == 'Y' && Letter(6) == 'G'
  {
    LetterByRange(19);
    LetterByRange(49);
    LetterByRange(26);
    LetterByRange(16);
    LetterByRange(61);
    LetterByRange(36);
    LetterByRange(24);
    LetterByRange(6);
  }

  lemma LastLetters()
    ensures Letter(51) == 'z' && Letter(33) == 'h' && Letter(25) == 'Z' && Letter(17) == 'R'
    ensures Letter(27) == 'b' && Letter(10) == 'K' && Letter(62) == '+' && Letter(49) == 'x'
    ensures Letter(14) == 'O' && Letter(40) == 'o'
  {
    LetterByRange(51);
    LetterByRange(33);
    LetterByRange(25);
    LetterByRange(17);
    LetterByRange(27);
    LetterByRange(10);
    LetterByRange(62);
    LetterByRange(49);
    LetterByRange(14);
    LetterByRange(40);
  }

  lemma AcceptLetters()
    ensures Encode(SampleDigest) == "s3pPLMBiTxaQ9kYGzzhZRbK+xOo="
  {
    hide Encode, Letter, SampleDigest, Tail1, Tail2, Tail3, Tail4, Tail5, Tail6;
    Groups();
    FirstLetters();
    MiddleLetters();
    LastLetters();
  }

  lemma DigestOctets()
    ensures Digest(Registers(0xb37a4f2c, 0xc0624f16, 0x90f64606, 0xcf385945, 0xb2bec4ea))
         == SampleDigest
  {
  }

  lemma NoNul()
    ensures forall i :: 0 <= i < 24 ==> SampleKey[i] != 0
  {
  }

  lemma SampleKeyRead()
    ensures KeyRead(SampleKey) == SampleKey
  {
    assert |SampleKey| == 24;
    hide SampleKey, KeyRead, CString;
    NoNul();
    KeyKept(SampleKey);
  }

  lemma LengthIsLast()
    ensures LastBlock == Length0
  {
  }

  /** Section 1.3 of RFC 6455: the accept value for the key "dGhlIHNhbXBsZSBub25jZQ==". */
  lemma SampleAccept()
    ensures Sha1(SampleKey + Guid) == SampleDigest
    ensures Encode(Sha1(KeyRead(SampleKey) + Guid)) == "s3pPLMBiTxaQ9kYGzzhZRbK+xOo="
  {
    hide Encode, Compress, Padded, Block, FirstBlock, HashBlocks, Digest, KeyRead, Key0, Length0, SampleDigest;
    SampleKeyRead();
    TwoBlocks(SampleKey);
    HashTwo(Initial, Padded(SampleKey + Guid));
    SampleBlock();
    LengthIsLast();
    KeyCompressed(Key0);
    LengthCompressed(Length0);
    DigestOctets();
    AcceptLetters();
  }
}
