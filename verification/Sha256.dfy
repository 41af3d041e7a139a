/** The streaming hash: buffered updates and the final padding, for any compression function. */
module Sha256 {
  import opened Bytes

  const BLOCK := 64
  const TWO_64 := 0x1_0000_0000_0000_0000

  // The most significant byte first
  function BigEndian(n: nat, len: nat): (r: seq<byte>)
    ensures |r| == len
  {
    if len == 0 then [] else BigEndian(n / 256, len - 1) + [(n % 256) as byte]
  }

  function FromBigEndian(s: seq<byte>): nat {
    if s == [] then 0 else 256 * FromBigEndian(s[..|s| - 1]) + s[|s| - 1] as nat
  }

  function Pow256(k: nat): (r: nat)
    ensures r > 0
  {
    if k == 0 then 1 else 256 * Pow256(k - 1)
  }

  lemma {:induction false} BigEndianRoundTrip(n: nat, len: nat)
    requires n < Pow256(len)
    ensures FromBigEndian(BigEndian(n, len)) == n
  {
    if len > 0 {
      BigEndianRoundTrip(n / 256, len - 1);
      var r := BigEndian(n, len);
      assert r[..|r| - 1] == BigEndian(n / 256, len - 1);
    }
  }

  // Byte i stands for that power of 256.
  lemma {:induction false} BigEndianAt(n: nat, len: nat, i: nat)
    requires i < len
    ensures BigEndian(n, len)[i] as nat == n / Pow256(len - 1 - i) % 256
  {
    if i < len - 1 {
      BigEndianAt(n / 256, len - 1, i);
      DivDiv(n, Pow256(len - 2 - i));
    }
  }

  lemma DivDiv(n: nat, m: nat)
    requires m > 0
    ensures n / 256 / m == n / (256 * m)
  {
    var q, r := n / 256 / m, n / 256 % m;
    assert n / 256 == q * m + r && n == 256 * (n / 256) + n % 256;
    assert n == q * (256 * m) + (256 * r + n % 256);
    assert 0 <= 256 * r + n % 256 < 256 * m;
    Quotient(n, 256 * m, q, 256 * r + n % 256);
  }

  lemma Quotient(n: nat, d: nat, q: nat, r: nat)
    requires r < d && n == q * d + r
    ensures n / d == q
  {
    assert (n / d - q) * d == r - n % d;
    OnlyZero(n / d - q, d);
  }

  lemma OnlyZero(a: int, d: int)
    requires -d < a * d < d
    ensures a == 0
  {
  }

  // One more byte at the end
  lemma BigEndianStep(n: nat, len: nat, b: byte)
    ensures BigEndian(256 * n + b as nat, len + 1) == BigEndian(n, len) + [b]
  {
    Quotient(256 * n + b as nat, 256, n, b as nat);
  }

  function Zeros(k: nat): (r: seq<byte>)
    ensures |r| == k
  {
    seq(k, _ => 0)
  }

  lemma ZerosAdd(j: nat, k: nat)
    ensures Zeros(j) + Zeros(k) == Zeros(j + k)
  {
  }

  // Section 5.1.1 of FIPS 180-4: a one bit, k zero bits, and the length in bits as a 64-bit integer.
  function PadZeros(len: nat): nat {
    if len % BLOCK <= 55 then 55 - len % BLOCK else 119 - len % BLOCK
  }

  function Padded(m: seq<byte>): (r: seq<byte>) {
    m + [0x80] + Zeros(PadZeros(|m|)) + BigEndian(8 * |m| % TWO_64, 8)
  }

  // The number of zero bytes is the least that makes the padded message a whole number of blocks.
  lemma PadIsLeast(m: seq<byte>, k: nat)
    ensures |Padded(m)| % BLOCK == 0
    ensures (|m| + 1 + k + 8) % BLOCK == 0 ==> PadZeros(|m|) <= k
  {
    hide BigEndian, Zeros;
    PadFills(|m|, k);
  }

  lemma PadFills(len: nat, k: nat)
    ensures (len + 1 + PadZeros(len) + 8) % BLOCK == 0
    ensures (len + 1 + k + 8) % BLOCK == 0 ==> PadZeros(len) <= k
  {
    var q, r := len / BLOCK, len % BLOCK;
    assert len + 1 + PadZeros(len) + 8 == BLOCK * if r <= 55 then q + 1 else q + 2;
    if (len + 1 + k + 8) % BLOCK == 0 {
      var blocks := (len + 1 + k + 8) / BLOCK;
      assert BLOCK * (blocks - q) == r + 9 + k;
    }
  }

  // Different messages of less than 2^61 bytes have different padded forms.
  lemma PaddedIsInjective(m: seq<byte>, n: seq<byte>)
    requires Padded(m) == Padded(n) && 8 * |m| < TWO_64 && 8 * |n| < TWO_64
    ensures m == n
  {
    hide BigEndian, FromBigEndian, Pow256, Padded;
    PaddedEnds(m);
    PaddedEnds(n);
    LengthRoundTrip(|m|);
    LengthRoundTrip(|n|);
  }

  // The bytes of a padded message: the message, the one bit, the zeros, and the number of bits
  lemma PaddedLayout(m: seq<byte>)
    ensures var p := Padded(m);
            && |p| >= |m| + 9 && p[..|m|] == m && p[|m|] == 0x80
            && (forall i :: |m| < i < |p| - 8 ==> p[i] == 0)
            && p[|p| - 8..] == BigEndian(8 * |m| % TWO_64, 8)
  {
    hide BigEndian, PadZeros;
  }

  lemma PaddedEnds(m: seq<byte>)
    requires 8 * |m| < TWO_64
    ensures |Padded(m)| >= |m| + 8 && Padded(m)[..|m|] == m && Padded(m)[|Padded(m)| - 8..] == BigEndian(8 * |m|, 8)
  {
    hide BigEndian, Zeros, PadZeros;
  }

  lemma LengthRoundTrip(len: nat)
    requires 8 * len < TWO_64
    ensures FromBigEndian(BigEndian(8 * len, 8)) == 8 * len
  {
    assert Pow256(8) == TWO_64 by {
      assert Pow256(2) == 0x1_0000;
      assert Pow256(4) == 0x1_0000_0000;
      assert Pow256(6) == 0x1_0000_0000_0000;
    }
    BigEndianRoundTrip(8 * len, 8);
  }

  // The compression function, folded over the whole blocks of a message
  function Fold<S>(compress: (S, seq<byte>) -> S, s: S, m: seq<byte>): S {
    if |m| < BLOCK then s else Fold(compress, compress(s, m[..BLOCK]), m[BLOCK..])
  }

  lemma {:induction false} FoldAppend<S>(compress: (S, seq<byte>) -> S, s: S, m: seq<byte>, n: seq<byte>)
    requires |m| % BLOCK == 0
    ensures Fold(compress, s, m + n) == Fold(compress, Fold(compress, s, m), n)
  {
    if m == [] {
      assert m + n == n;
    } else {
      FoldAppend(compress, compress(s, m[..BLOCK]), m[BLOCK..], n);
      assert (m + n)[..BLOCK] == m[..BLOCK] && (m + n)[BLOCK..] == m[BLOCK..] + n;
    }
  }

  lemma FoldBlock<S>(compress: (S, seq<byte>) -> S, s: S, m: seq<byte>, block: seq<byte>)
    requires |m| % BLOCK == 0 && |block| == BLOCK
    ensures Fold(compress, s, m + block) == compress(Fold(compress, s, m), block)
  {
    FoldAppend(compress, s, m, block);
    assert block[..BLOCK] == block && block[BLOCK..] == [];
  }

  // What a message hashes to
  function Digest<S>(compress: (S, seq<byte>) -> S, init: S, m: seq<byte>): S {
    Fold(compress, init, Padded(m))
  }

  method CopyBytes(dst: array<byte>, at: nat, src: seq<byte>)
    requires at + |src| <= dst.Length
    modifies dst
    ensures dst[..] == old(dst[..at]) + src + old(dst[at + |src|..])
  {
    for i := 0 to |src|
      invariant dst[..] == old(dst[..at]) + src[..i] + old(dst[at + i..])
    {
      dst[at + i] := src[i];
    }
  }

  // The 64-bit count of bits still tells how many bytes are over after the whole blocks.
  lemma CountGivesIndex(whole: nat, rest: nat)
    requires whole % BLOCK == 0 && rest < BLOCK
    ensures (8 * (whole + rest) % TWO_64) / 8 % BLOCK == rest
  {
    var n := whole + rest;
    var q := 8 * n / TWO_64;
    assert 8 * n % TWO_64 == 8 * (n - q * (TWO_64 / 8));
    assert n - q * (TWO_64 / 8) == BLOCK * (whole / BLOCK - q * (TWO_64 / 8 / BLOCK)) + rest;
  }

  lemma CountAdds(n: nat, len: nat)
    ensures (8 * n % TWO_64 + len * 8) % TWO_64 == 8 * (n + len) % TWO_64
  {
  }

  lemma JoinPad(whole: seq<byte>, used: seq<byte>, m: seq<byte>, j: nat, k: nat, len: seq<byte>)
    requires whole + used == m + Zeros(j)
    ensures whole + (used + Zeros(k) + len) == m + Zeros(j + k) + len
  {
    hide Zeros;
    ZerosAdd(j, k);
    assert whole + (used + Zeros(k) + len) == (whole + used) + Zeros(k) + len;
    assert m + Zeros(j) + Zeros(k) == m + (Zeros(j) + Zeros(k));
  }

  lemma Rejoin(done: seq<byte>, m: seq<byte>, data: seq<byte>, p: nat, q: nat)
    requires p <= q <= |data| && done == m + data[..p]
    ensures done + data[p..q] + data[q..] == m + data
  {
    assert done + data[p..q] == m + data[..q];
    assert data == data[..q] + data[q..];
  }

  lemma PaddedIs(m: seq<byte>, index: nat)
    requires |m| % BLOCK == index
    ensures Padded(m) == m + [0x80] + Zeros(if index <= 55 then 55 - index else 119 - index)
            + BigEndian(8 * |m| % TWO_64, 8)
  {
  }

  lemma RestOfBlocks(whole: nat, index: nat)
    requires whole % BLOCK == 0 && index < BLOCK
    ensures (whole + index) % BLOCK == index
  {
  }

  // sha256_ctx_t
  class Context<S> {
    var state: S
    var count: nat             // in bits, 64 of them
    const buffer: array<byte>
    const compress: (S, seq<byte>) -> S
    ghost const init: S
    ghost var whole: seq<byte> // the blocks hashed so far

    // How much of the buffer is in use
    function Index(): nat
      reads this
    {
      (count / 8) % BLOCK
    }

    ghost predicate Hashed()
      reads this, buffer
    {
      buffer.Length == BLOCK && |whole| % BLOCK == 0 && state == Fold(compress, init, whole)
    }

    ghost predicate Valid()
      reads this, buffer
    {
      Hashed() && count == 8 * (|whole| + Index()) % TWO_64
    }

    // All that has been hashed or buffered
    ghost function Message(): seq<byte>
      requires Valid()
      reads this, buffer
    {
      whole + buffer[..Index()]
    }

    // sha256_init
    constructor (compress: (S, seq<byte>) -> S, init: S)
      ensures Valid() && Message() == [] && this.compress == compress && this.init == init && fresh(buffer)
    {
      state, count, whole := init, 0, [];
      buffer := new byte[BLOCK](_ => 0);
      this.compress, this.init := compress, init;
    }

    method CompressBlock(block: seq<byte>)
      requires Hashed() && |block| == BLOCK
      modifies this`state, this`whole
      ensures Hashed() && whole == old(whole) + block
    {
      FoldBlock(compress, init, whole, block);
      state, whole := compress(state, block), whole + block;
    }

    // sha256_update
    method Update(data: seq<byte>)
      requires Valid()
      modifies this`state, this`count, this`whole, buffer
      ensures Valid() && Message() == old(Message()) + data
    {
      hide Fold;
      var idx := Index();
      ghost var m := Message();
      CountAdds(|m|, |data|);
      count := (count + |data| * 8) % TWO_64;
      if idx + |data| < BLOCK {
        CopyBytes(buffer, idx, data);
        CountGivesIndex(|whole|, idx + |data|);
        assert buffer[..idx + |data|] == old(buffer[..idx]) + data;
      } else {
        UpdateMore(data, idx, m);
      }
    }

    // The part of it that hashes at least one block
    method UpdateMore(data: seq<byte>, idx: nat, ghost m: seq<byte>)
      requires Hashed() && idx < BLOCK <= idx + |data| && m == whole + buffer[..idx]
               && count == 8 * (|m| + |data|) % TWO_64
      modifies this`state, this`whole, buffer
      ensures Valid() && Message() == m + data
    {
      hide Hashed;
      var p := 0;
      if idx != 0 {
        p := TopUp(data, idx, m);
      }
      ghost var done := whole;
      var q := UpdateBlocks(data, p);
      Rejoin(done, m, data, p, q);
      Keep(data[q..]);
    }

    method TopUp(data: seq<byte>, idx: nat, ghost m: seq<byte>) returns (p: nat)
      requires Hashed() && 0 < idx < BLOCK <= idx + |data| && m == whole + buffer[..idx]
      modifies this`state, this`whole, buffer
      ensures Hashed() && p == BLOCK - idx && whole == m + data[..p]
    {
      hide Fold;
      p := BLOCK - idx;
      CopyBytes(buffer, idx, data[..p]);
      CompressBlock(buffer[..]);
    }

    method Keep(rest: seq<byte>)
      requires Hashed() && |rest| < BLOCK && count == 8 * (|whole| + |rest|) % TWO_64
      modifies buffer
      ensures Valid() && Message() == whole + rest
    {
      hide Fold;
      CopyBytes(buffer, 0, rest);
      CountGivesIndex(|whole|, |rest|);
      assert buffer[..|rest|] == rest;
    }

    method UpdateBlocks(data: seq<byte>, from: nat) returns (p: nat)
      requires Hashed() && from <= |data|
      modifies this`state, this`whole
      ensures Hashed() && from <= p <= |data| && |data| - p < BLOCK && whole == old(whole) + data[from..p]
    {
      hide Fold;
      p := from;
      while |data| - p >= BLOCK
        invariant from <= p <= |data| && Hashed() && whole == old(whole) + data[from..p]
      {
        CompressBlock(data[p..p + BLOCK]);
        p := p + BLOCK;
      }
    }

    // sha256_final, up to the byte order of the output
    method Final(wiped: S) returns (digest: S)
      requires Valid()
      modifies this`state, this`count, this`whole, buffer
      ensures digest == Digest(compress, init, old(Message()))
      ensures state == wiped && count == 0 && buffer[..] == Zeros(BLOCK)
    {
      hide Fold, Padded, Zeros;
      ghost var m := Message();
      PadMessage(m);
      CompressBlock(buffer[..]);
      digest := state;
      state, count := wiped, 0;
      CopyBytes(buffer, 0, Zeros(BLOCK));
      assert buffer[..] == Zeros(BLOCK);
    }

    method PadMessage(ghost m: seq<byte>)
      requires Valid() && m == Message()
      modifies this`state, this`whole, buffer
      ensures Hashed() && whole + buffer[..] == Padded(m)
    {
      MessageLength();
      hide Fold, BigEndian, Zeros, Padded, PadZeros, Index;
      PaddedIs(m, Index());
      Pad(Index(), m);
    }

    lemma MessageLength()
      requires Valid()
      ensures Index() < BLOCK && |Message()| % BLOCK == Index() && count == 8 * |Message()| % TWO_64
    {
      hide Fold;
      RestOfBlocks(|whole|, Index());
    }

    // Leaves the last block of the padded message in the buffer.
    method Pad(index: nat, ghost m: seq<byte>)
      requires Hashed() && index < BLOCK && m == whole + buffer[..index]
      modifies this`state, this`whole, buffer
      ensures Hashed()
      ensures whole + buffer[..] == m + [0x80] + Zeros(if index <= 55 then 55 - index else 119 - index)
              + BigEndian(count, 8)
    {
      hide Fold, BigEndian, Zeros;
      var idx := index;
      buffer[idx] := 0x80;
      idx := idx + 1;
      assert whole + buffer[..idx] == m + [0x80];
      ghost var zeros := 0;
      if idx > 56 {
        CopyBytes(buffer, idx, Zeros(BLOCK - idx));
        CompressBlock(buffer[..]);
        zeros, idx := BLOCK - idx, 0;
      }
      assert whole + buffer[..idx] == m + [0x80] + Zeros(zeros);
      CopyBytes(buffer, idx, Zeros(56 - idx));
      CopyBytes(buffer, 56, BigEndian(count, 8));
      JoinPad(whole, buffer[..idx], m + [0x80], zeros, 56 - idx, BigEndian(count, 8));
      assert buffer[..] == buffer[..idx] + Zeros(56 - idx) + BigEndian(count, 8);
    }
  }

  // sha256_calc
  method Calc<S>(compress: (S, seq<byte>) -> S, init: S, wiped: S, data: seq<byte>) returns (digest: S)
    ensures digest == Digest(compress, init, data)
  {
    var ctx := new Context(compress, init);
    ctx.Update(data);
    assert ctx.Message() == data;
    digest := ctx.Final(wiped);
  }

  function Concat(chunks: seq<seq<byte>>): seq<byte> {
    if chunks == [] then [] else Concat(chunks[..|chunks| - 1]) + chunks[|chunks| - 1]
  }

  // Any caller that hashes a message in pieces gets what sha256_calc gives for the whole.
  method CalcInPieces<S>(compress: (S, seq<byte>) -> S, init: S, wiped: S, chunks: seq<seq<byte>>) returns (digest: S)
    ensures digest == Digest(compress, init, Concat(chunks))
  {
    var ctx := new Context(compress, init);
    for i := 0 to |chunks|
      invariant ctx.Valid() && ctx.Message() == Concat(chunks[..i]) && ctx.compress == compress && ctx.init == init
      invariant fresh(ctx) && fresh(ctx.buffer)
    {
      assert chunks[..i + 1][..i] == chunks[..i];
      ctx.Update(chunks[i]);
    }
    assert chunks[..|chunks|] == chunks;
    digest := ctx.Final(wiped);
  }
}
