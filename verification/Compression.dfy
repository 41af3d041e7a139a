/** The compression function of the hash, and what one wrong entry of its table of constants does. */
module Compression {
  import opened Bytes
  import opened Sha256

  const TWO_32 := 0x1_0000_0000

  newtype word = n: int | 0 <= n < 0x1_0000_0000

  type Table = k: seq<word> | |k| == 64 witness seq(64, _ => 0)

  // The constants of section 4.2.2 of FIPS 180-4
  const STANDARD: Table := [
    0x428a2f98, 0x71374491, 0xb5c0fbcf, 0xe9b5dba5, 0x3956c25b, 0x59f111f1, 0x923f82a4, 0xab1c5ed5,
    0xd807aa98, 0x12835b01, 0x243185be, 0x550c7dc3, 0x72be5d74, 0x80deb1fe, 0x9bdc06a7, 0xc19bf174,
    0xe49b69c1, 0xefbe4786, 0x0fc19dc6, 0x240ca1cc, 0x2de92c6f, 0x4a7484aa, 0x5cb0a9dc, 0x76f988da,
    0x983e5152, 0xa831c66d, 0xb00327c8, 0xbf597fc7, 0xc6e00bf3, 0xd5a79147, 0x06ca6351, 0x14292967
  ] + [
    0x27b70a85, 0x2e1b2138, 0x4d2c6dfc, 0x53380d13, 0x650a7354, 0x766a0abb, 0x81c2c92e, 0x92722c85,
    0xa2bfe8a1, 0xa81a664b, 0xc24b8b70, 0xc76c51a3, 0xd192e819, 0xd6990624, 0xf40e3585, 0x106aa070,
    0x19a4c116, 0x1e376c08, 0x2748774c, 0x34b0bcb5, 0x391c0cb3, 0x4ed8aa4a, 0x5b9cca4f, 0x682e6ff3,
    0x748f82ee, 0x78a5636f, 0x84c87814, 0x8cc70208, 0x90befffa, 0xa4506ceb, 0xbef9a3f7, 0xc67178f2
  ]

  // sha256_K differs in one of them.
  const SHA256_K: Table := STANDARD[47 := 0x106aa704]

  // The bit operations of the code, on 32 bits
  function Rr(x: bv32, n: nat): bv32
    requires 0 < n < 32
  {
    (x >> n) | (x << (32 - n))
  }

  function Choice(x: bv32, y: bv32, z: bv32): bv32 {
    (x & y) ^ (!x & z)
  }

  function Majority(x: bv32, y: bv32, z: bv32): bv32 {
    (x & y) ^ (x & z) ^ (y & z)
  }

  function Xor(x: bv32, y: bv32, z: bv32): bv32 {
    x ^ y ^ z
  }

  function BigSum0(x: bv32): bv32 {
    Xor(Rr(x, 2), Rr(x, 13), Rr(x, 22))
  }

  function BigSum1(x: bv32): bv32 {
    Xor(Rr(x, 6), Rr(x, 11), Rr(x, 25))
  }

  function Sum0(x: bv32): bv32 {
    Xor(Rr(x, 7), Rr(x, 18), x >> 3)
  }

  function Sum1(x: bv32): bv32 {
    Xor(Rr(x, 17), Rr(x, 19), x >> 10)
  }

  // What section 4.1.2 of FIPS 180-4 makes of them. In whatever bits the mask m has, a choice takes y where x is set
  // and z where it is not.
  lemma ChoiceByMask(x: bv32, y: bv32, z: bv32, m: bv32)
    ensures x & m == m ==> Choice(x, y, z) & m == y & m
    ensures x & m == 0 ==> Choice(x, y, z) & m == z & m
  {
  }

  // There a majority agrees with any two that agree.
  lemma MajorityByMask(x: bv32, y: bv32, z: bv32, m: bv32)
    ensures x & m == y & m ==> Majority(x, y, z) & m == x & m
    ensures x & m == z & m ==> Majority(x, y, z) & m == x & m
    ensures y & m == z & m ==> Majority(x, y, z) & m == y & m
  {
    hide Majority;
    MajorityMasked(x, y, z, m);
    MajorityOfTwo(x & m, z & m);
    MajorityOfTwo(x & m, y & m);
    MajorityOfTwo(y & m, x & m);
  }

  lemma MajorityMasked(x: bv32, y: bv32, z: bv32, m: bv32)
    ensures Majority(x, y, z) & m == Majority(x & m, y & m, z & m)
  {
  }

  lemma MajorityOfTwo(x: bv32, y: bv32)
    ensures Majority(x, x, y) == Majority(x, y, x) == Majority(y, x, x) == x
  {
  }

  // The sums are of rotations, with a shift in those of the schedule.
  lemma SumsOfRotations(x: bv32)
    ensures BigSum0(x) == Xor(x.RotateRight(2), x.RotateRight(13), x.RotateRight(22))
    ensures BigSum1(x) == Xor(x.RotateRight(6), x.RotateRight(11), x.RotateRight(25))
    ensures Sum0(x) == Xor(x.RotateRight(7), x.RotateRight(18), x >> 3)
    ensures Sum1(x) == Xor(x.RotateRight(17), x.RotateRight(19), x >> 10)
  {
    hide Rr, Xor;
    Rotates(x);
  }

  lemma Rotates(x: bv32)
    ensures Rr(x, 2) == x.RotateRight(2) && Rr(x, 13) == x.RotateRight(13) && Rr(x, 22) == x.RotateRight(22)
    ensures Rr(x, 6) == x.RotateRight(6) && Rr(x, 11) == x.RotateRight(11) && Rr(x, 25) == x.RotateRight(25)
    ensures Rr(x, 7) == x.RotateRight(7) && Rr(x, 18) == x.RotateRight(18)
    ensures Rr(x, 17) == x.RotateRight(17) && Rr(x, 19) == x.RotateRight(19)
  {
  }

  // The same on words

  function Ch(x: word, y: word, z: word): word {
    Choice(x as bv32, y as bv32, z as bv32) as word
  }

  function Mj(x: word, y: word, z: word): word {
    Majority(x as bv32, y as bv32, z as bv32) as word
  }

  function BigS0(x: word): word {
    BigSum0(x as bv32) as word
  }

  function BigS1(x: word): word {
    BigSum1(x as bv32) as word
  }

  function S0(x: word): word {
    Sum0(x as bv32) as word
  }

  function S1(x: word): word {
    Sum1(x as bv32) as word
  }

  lemma WordAndBack(x: bv32)
    ensures (x as word) as bv32 == x
  {
  }

  lemma OnWords(x: bv32, y: bv32, z: bv32)
    ensures Ch(x as word, y as word, z as word) == Choice(x, y, z) as word
    ensures Mj(x as word, y as word, z as word) == Majority(x, y, z) as word
    ensures BigS0(x as word) == BigSum0(x) as word && BigS1(x as word) == BigSum1(x) as word
    ensures S0(x as word) == Sum0(x) as word && S1(x as word) == Sum1(x) as word
  {
    hide Choice, Majority, BigSum0, BigSum1, Sum0, Sum1;
    WordAndBack(x);
    WordAndBack(y);
    WordAndBack(z);
  }

  // w is the first 32 bits of the fractional part of the cube root of p, whose integral part is k.
  predicate CubeRootBits(p: nat, k: nat, w: word) {
    var v := k * TWO_32 + w as nat;
    v * v * v <= p * TWO_32 * TWO_32 * TWO_32 < (v + 1) * (v + 1) * (v + 1)
  }

  predicate SquareRootBits(p: nat, k: nat, w: word) {
    var v := k * TWO_32 + w as nat;
    v * v <= p * TWO_32 * TWO_32 < (v + 1) * (v + 1)
  }

  predicate Entry(i: nat, p: nat, k: nat)
    requires i < 64
  {
    CubeRootBits(p, k, STANDARD[i])
  }

  // How section 4.2.2 defines the constants: from the cube roots of the first 64 primes
  lemma Entries0()
    ensures Entry(0, 2, 1) && Entry(1, 3, 1) && Entry(2, 5, 1) && Entry(3, 7, 1)
    ensures Entry(4, 11, 2) && Entry(5, 13, 2) && Entry(6, 17, 2) && Entry(7, 19, 2)
  {
  }

  lemma Entries8()
    ensures Entry(8, 23, 2) && Entry(9, 29, 3) && Entry(10, 31, 3) && Entry(11, 37, 3)
    ensures Entry(12, 41, 3) && Entry(13, 43, 3) && Entry(14, 47, 3) && Entry(15, 53, 3)
  {
  }

  lemma Entries16()
    ensures Entry(16, 59, 3) && Entry(17, 61, 3) && Entry(18, 67, 4) && Entry(19, 71, 4)
    ensures Entry(20, 73, 4) && Entry(21, 79, 4) && Entry(22, 83, 4) && Entry(23, 89, 4)
  {
  }

  lemma Entries24()
    ensures Entry(24, 97, 4) && Entry(25, 101, 4) && Entry(26, 103, 4) && Entry(27, 107, 4)
    ensures Entry(28, 109, 4) && Entry(29, 113, 4) && Entry(30, 127, 5) && Entry(31, 131, 5)
  {
  }

  lemma Entries32()
    ensures Entry(32, 137, 5) && Entry(33, 139, 5) && Entry(34, 149, 5) && Entry(35, 151, 5)
    ensures Entry(36, 157, 5) && Entry(37, 163, 5) && Entry(38, 167, 5) && Entry(39, 173, 5)
  {
  }

  lemma Entries40()
    ensures Entry(40, 179, 5) && Entry(41, 181, 5) && Entry(42, 191, 5) && Entry(43, 193, 5)
    ensures Entry(44, 197, 5) && Entry(45, 199, 5) && Entry(46, 211, 5) && Entry(47, 223, 6)
  {
  }

  lemma Entries48()
    ensures Entry(48, 227, 6) && Entry(49, 229, 6) && Entry(50, 233, 6) && Entry(51, 239, 6)
    ensures Entry(52, 241, 6) && Entry(53, 251, 6) && Entry(54, 257, 6) && Entry(55, 263, 6)
  {
  }

  lemma Entries56()
    ensures Entry(56, 269, 6) && Entry(57, 271, 6) && Entry(58, 277, 6) && Entry(59, 281, 6)
    ensures Entry(60, 283, 6) && Entry(61, 293, 6) && Entry(62, 307, 6) && Entry(63, 311, 6)
  {
  }

  // Addition of 32-bit words wraps around.
  function Add(x: word, y: word): word {
    ((x as int + y as int) % TWO_32) as word
  }

  lemma AddCancels(x: word, y: word, z: word)
    requires Add(x, z) == Add(y, z) || Add(z, x) == Add(z, y)
    ensures x == y
  {
  }

  datatype Hash = Hash(a: word, b: word, c: word, d: word, e: word, f: word, g: word, h: word)

  // The message schedule, section 6.2.2 of FIPS 180-4
  function BlockWord(block: seq<byte>, i: nat): word
    requires |block| == BLOCK && i < 16
  {
    (((block[4 * i] as int * 256 + block[4 * i + 1] as int) * 256 + block[4 * i + 2] as int) * 256
      + block[4 * i + 3] as int) as word
  }

  // The most significant byte of a word comes first.
  lemma WordOfBytes(block: seq<byte>, i: nat)
    requires |block| == BLOCK && i < 16
    ensures BigEndian(BlockWord(block, i) as nat, 4) == block[4 * i..4 * i + 4]
  {
    hide BigEndian;
    var b := block[4 * i..4 * i + 4];
    BigEndianStep(0, 0, b[0]);
    BigEndianStep(b[0] as nat, 1, b[1]);
    BigEndianStep(b[0] as nat * 256 + b[1] as nat, 2, b[2]);
    BigEndianStep((b[0] as nat * 256 + b[1] as nat) * 256 + b[2] as nat, 3, b[3]);
    NoBytes(0);
    assert b == [] + [b[0]] + [b[1]] + [b[2]] + [b[3]];
  }

  lemma NoBytes(n: nat)
    ensures BigEndian(n, 0) == []
  {
  }

  function W(block: seq<byte>, t: nat): word
    requires |block| == BLOCK
  {
    if t < 16 then BlockWord(block, t)
    else Add(Add(Add(S1(W(block, t - 2)), W(block, t - 7)), S0(W(block, t - 15))), W(block, t - 16))
  }

  function T1(s: Hash, k: word, w: word): word {
    Add(Add(Add(Add(s.h, BigS1(s.e)), Ch(s.e, s.f, s.g)), k), w)
  }

  function T2(s: Hash): word {
    Add(BigS0(s.a), Mj(s.a, s.b, s.c))
  }

  function Round(s: Hash, k: word, w: word): Hash {
    Hash(Add(T1(s, k, w), T2(s)), s.a, s.b, s.c, Add(s.d, T1(s, k, w)), s.e, s.f, s.g)
  }

  // The working variables after t rounds
  function Rounds(table: Table, block: seq<byte>, s: Hash, t: nat): Hash
    requires |block| == BLOCK && t <= 64
  {
    if t == 0 then s else Round(Rounds(table, block, s, t - 1), table[t - 1], W(block, t - 1))
  }

  function AddAll(s: Hash, r: Hash): Hash {
    Hash(Add(s.a, r.a), Add(s.b, r.b), Add(s.c, r.c), Add(s.d, r.d), Add(s.e, r.e), Add(s.f, r.f), Add(s.g, r.g),
      Add(s.h, r.h))
  }

  function Compressed(table: Table, s: Hash, block: seq<byte>): Hash {
    if |block| == BLOCK then AddAll(s, Rounds(table, block, s, 64)) else s
  }

  // sha256_compress
  method Compress(table: Table, state: Hash, block: seq<byte>) returns (r: Hash)
    requires |block| == BLOCK
    ensures r == Compressed(table, state, block)
  {
    hide Add, S0, S1, BlockWord, Round;
    var words := new word[64];
    for i := 0 to 16
      invariant forall t :: 0 <= t < i ==> words[t] == W(block, t)
    {
      words[i] := BlockWord(block, i);
    }
    for i := 16 to 64
      invariant forall t :: 0 <= t < i ==> words[t] == W(block, t)
    {
      words[i] := Add(Add(Add(S1(words[i - 2]), words[i - 7]), S0(words[i - 15])), words[i - 16]);
    }
    var s := state;
    for i := 0 to 64
      invariant s == Rounds(table, block, state, i)
    {
      s := Round(s, table[i], words[i]);
    }
    r := AddAll(state, s);
  }

  // A round with the same constant and word loses nothing of the working variables.
  lemma RoundIsInjective(s: Hash, r: Hash, k: word, w: word)
    requires Round(s, k, w) == Round(r, k, w)
    ensures s == r
  {
    hide Add, BigS0, BigS1, Ch, Mj;
    AddCancels(T1(s, k, w), T1(r, k, w), T2(s));
    AddCancels(s.d, r.d, T1(s, k, w));
    var mix := Ch(s.e, s.f, s.g);
    AddCancels(Add(Add(Add(s.h, BigS1(s.e)), mix), k), Add(Add(Add(r.h, BigS1(s.e)), mix), k), w);
    AddCancels(Add(Add(s.h, BigS1(s.e)), mix), Add(Add(r.h, BigS1(s.e)), mix), k);
    AddCancels(Add(s.h, BigS1(s.e)), Add(r.h, BigS1(s.e)), mix);
    AddCancels(s.h, r.h, BigS1(s.e));
  }

  // A round with a different constant, and otherwise the same, has a different outcome.
  lemma ConstantMatters(s: Hash, j: word, k: word, w: word)
    requires j != k
    ensures Round(s, j, w) != Round(s, k, w)
  {
    hide Add, BigS0, BigS1, Ch, Mj;
    if Round(s, j, w) == Round(s, k, w) {
      AddCancels(T1(s, j, w), T1(s, k, w), T2(s));
      var mix := Add(Add(s.h, BigS1(s.e)), Ch(s.e, s.f, s.g));
      AddCancels(Add(mix, j), Add(mix, k), w);
      AddCancels(j, k, mix);
    }
  }

  lemma AddAllIsInjective(s: Hash, q: Hash, r: Hash)
    requires AddAll(s, q) == AddAll(s, r)
    ensures q == r
  {
    hide Add;
    AddCancels(q.a, r.a, s.a);
    AddCancels(q.b, r.b, s.b);
    AddCancels(q.c, r.c, s.c);
    AddCancels(q.d, r.d, s.d);
    AddCancels(q.e, r.e, s.e);
    AddCancels(q.f, r.f, s.f);
    AddCancels(q.g, r.g, s.g);
    AddCancels(q.h, r.h, s.h);
  }

  lemma {:induction false} RoundsDiffer(one: Table, two: Table, n: nat, block: seq<byte>, s: Hash, t: nat)
    requires n < 64 && one[n] != two[n] && (forall i :: 0 <= i < 64 && i != n ==> one[i] == two[i])
    requires |block| == BLOCK && t <= 64
    ensures Rounds(one, block, s, t) == Rounds(two, block, s, t) <==> t <= n
  {
    hide Round, W;
    if t > 0 {
      RoundsDiffer(one, two, n, block, s, t - 1);
      var q, r, w := Rounds(one, block, s, t - 1), Rounds(two, block, s, t - 1), W(block, t - 1);
      if t - 1 == n {
        ConstantMatters(q, one[n], two[n], w);
      } else if t - 1 > n && Round(q, one[t - 1], w) == Round(r, one[t - 1], w) {
        RoundIsInjective(q, r, one[t - 1], w);
      }
    }
  }

  // One wrong constant makes every block compress wrongly, from every state.
  lemma OneEntryMatters(one: Table, two: Table, n: nat, s: Hash, block: seq<byte>)
    requires n < 64 && one[n] != two[n] && (forall i :: 0 <= i < 64 && i != n ==> one[i] == two[i])
    requires |block| == BLOCK
    ensures Compressed(one, s, block) != Compressed(two, s, block)
  {
    hide AddAll, Rounds;
    RoundsDiffer(one, two, n, block, s, 64);
    if Compressed(one, s, block) == Compressed(two, s, block) {
      AddAllIsInjective(s, Rounds(one, block, s, 64), Rounds(two, block, s, 64));
    }
  }

  lemma EveryBlockDiffers(s: Hash, block: seq<byte>)
    requires |block| == BLOCK
    ensures Compressed(SHA256_K, s, block) != Compressed(STANDARD, s, block)
  {
    assert STANDARD[47] == 0x106aa070;
    OneEntryMatters(SHA256_K, STANDARD, 47, s, block);
  }

  // The first words of the schedule for the block of bytes 0 to 63, and the first round for the message abc, whose
  // outcome the examples to FIPS 180-2 (appendix B.1) list
  lemma KnownSchedule(block: seq<byte>)
    requires |block| == BLOCK && forall i :: 0 <= i < BLOCK ==> block[i] as int == i
    ensures W(block, 16) == 0x2d84894c
  {
    hide S0, S1;
    assert W(block, 14) == 0x38393a3b && W(block, 9) == 0x24252627;
    assert W(block, 1) == 0x04050607 && W(block, 0) == 0x00010203;
    KnownSums();
  }

  lemma KnownSums()
    ensures S1(0x38393a3b) == 0xba54f555 && S0(0x04050607) == 0x4f096bcd
  {
  }

  lemma KnownRound()
    ensures Round(INIT, STANDARD[0], 0x61626380) ==
            Hash(0x5d6aebcd, 0x6a09e667, 0xbb67ae85, 0x3c6ef372, 0xfa2a4622, 0x510e527f, 0x9b05688c, 0x1f83d9ab)
  {
    hide Ch, Mj, BigS0, BigS1;
    KnownFunctions();
  }

  lemma KnownFunctions()
    ensures BigS1(0x510e527f) == 0x3587272b && Ch(0x510e527f, 0x9b05688c, 0x1f83d9ab) == 0x1f85c98c
    ensures BigS0(0x6a09e667) == 0xce20b47e && Mj(0x6a09e667, 0xbb67ae85, 0x3c6ef372) == 0x3a6fe667
  {
  }

  // The compressed block is added to the state, word by word.
  lemma AddedWordByWord(s: Hash, r: Hash)
    ensures var q := AddAll(s, r);
            && q.a as nat == (s.a as nat + r.a as nat) % TWO_32 && q.b as nat == (s.b as nat + r.b as nat) % TWO_32
            && q.c as nat == (s.c as nat + r.c as nat) % TWO_32 && q.d as nat == (s.d as nat + r.d as nat) % TWO_32
            && q.e as nat == (s.e as nat + r.e as nat) % TWO_32 && q.f as nat == (s.f as nat + r.f as nat) % TWO_32
            && q.g as nat == (s.g as nat + r.g as nat) % TWO_32 && q.h as nat == (s.h as nat + r.h as nat) % TWO_32
  {
  }

  // How section 5.3.3 defines the initial values: from the square roots of the first 8 primes
  lemma InitIsSquareRoots()
    ensures SquareRootBits(2, 1, INIT.a) && SquareRootBits(3, 1, INIT.b)
    ensures SquareRootBits(5, 2, INIT.c) && SquareRootBits(7, 2, INIT.d)
    ensures SquareRootBits(11, 3, INIT.e) && SquareRootBits(13, 3, INIT.f)
    ensures SquareRootBits(17, 4, INIT.g) && SquareRootBits(19, 4, INIT.h)
  {
  }

  const INIT: Hash := Hash(0x6a09e667, 0xbb67ae85, 0x3c6ef372, 0xa54ff53a, 0x510e527f, 0x9b05688c, 0x1f83d9ab,
    0x5be0cd19)

  // The output of sha256_final, the most significant byte of each word first
  function Output(h: Hash): seq<byte> {
    Two(h.a, h.b) + Two(h.c, h.d) + Two(h.e, h.f) + Two(h.g, h.h)
  }

  function Two(x: word, y: word): (r: seq<byte>)
    ensures |r| == 8
  {
    BigEndian(x as nat, 4) + BigEndian(y as nat, 4)
  }

  // The words of the hash, one after the other
  lemma OutputWords(h: Hash)
    ensures var o, words := Output(h), [h.a, h.b, h.c, h.d, h.e, h.f, h.g, h.h];
            |o| == 32 && forall i :: 0 <= i < 8 ==> FromBigEndian(o[4 * i..4 * i + 4]) == words[i] as nat
  {
    hide BigEndian, FromBigEndian, Pow256;
    var o, words := Output(h), [h.a, h.b, h.c, h.d, h.e, h.f, h.g, h.h];
    FourBytes();
    forall i | 0 <= i < 8 ensures FromBigEndian(o[4 * i..4 * i + 4]) == words[i] as nat {
      BigEndianRoundTrip(words[i] as nat, 4);
      assert o[4 * i..4 * i + 4] == BigEndian(words[i] as nat, 4);
    }
  }

  lemma FourBytes()
    ensures Pow256(4) == TWO_32
  {
    assert Pow256(2) == 0x1_0000;
  }

  lemma TwoIsInjective(x: word, y: word, z: word, w: word)
    requires Two(x, y) == Two(z, w)
    ensures x == z && y == w
  {
    FourBytes();
    BigEndianRoundTrip(x as nat, 4);
    BigEndianRoundTrip(y as nat, 4);
    BigEndianRoundTrip(z as nat, 4);
    BigEndianRoundTrip(w as nat, 4);
    assert Two(x, y)[..4] == BigEndian(x as nat, 4) && Two(x, y)[4..] == BigEndian(y as nat, 4);
    assert Two(z, w)[..4] == BigEndian(z as nat, 4) && Two(z, w)[4..] == BigEndian(w as nat, 4);
  }

  lemma OutputIsInjective(h: Hash, k: Hash)
    requires Output(h) == Output(k)
    ensures h == k
  {
    hide Two;
    var p, q := Output(h), Output(k);
    assert p[..8] == Two(h.a, h.b) && p[8..16] == Two(h.c, h.d) && p[16..24] == Two(h.e, h.f)
      && p[24..] == Two(h.g, h.h);
    assert q[..8] == Two(k.a, k.b) && q[8..16] == Two(k.c, k.d) && q[16..24] == Two(k.e, k.f)
      && q[24..] == Two(k.g, k.h);
    TwoIsInjective(h.a, h.b, k.a, k.b);
    TwoIsInjective(h.c, h.d, k.c, k.d);
    TwoIsInjective(h.e, h.f, k.e, k.f);
    TwoIsInjective(h.g, h.h, k.g, k.h);
  }

  function HashBytes(table: Table, m: seq<byte>): seq<byte> {
    Output(Digest((s, b) => Compressed(table, s, b), INIT, m))
  }

  // So no message of one block hashes to the bytes that the standard gives.
  lemma ShortHashesDiffer(m: seq<byte>)
    requires |m| <= 55
    ensures HashBytes(SHA256_K, m) != HashBytes(STANDARD, m)
  {
    hide Compressed, Padded, Output;
    PadFills(|m|, 0);
    OneBlock(m);
    EveryBlockDiffers(INIT, Padded(m));
    FoldBlock((s, b) => Compressed(SHA256_K, s, b), INIT, [], Padded(m));
    FoldBlock((s, b) => Compressed(STANDARD, s, b), INIT, [], Padded(m));
    assert [] + Padded(m) == Padded(m);
    if HashBytes(SHA256_K, m) == HashBytes(STANDARD, m) {
      OutputIsInjective(Compressed(SHA256_K, INIT, Padded(m)), Compressed(STANDARD, INIT, Padded(m)));
    }
  }

  lemma OneBlock(m: seq<byte>)
    requires |m| <= 55
    ensures |Padded(m)| == BLOCK
  {
    hide BigEndian, Zeros;
  }
}
