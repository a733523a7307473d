/** CBC over an abstract block permutation, the padding of both ends, and the laws assumed of the libraries. */
module Cipher {
  import opened ByteStrings

  const BLOCK := 16

  type Block = b: Bytes | |b| == 16 witness Zeros(16)

  /**
   * The library calls of both endpoints. `enc` and `dec` are the block cipher,
   * `wrap` and `unwrap` the RSA calls (`wrap` has no result when the public key
   * cannot be imported; its last argument is the randomness), `crc` the checksum.
   */
  datatype Suite = Suite(
    enc: (Block, Block) -> Block,
    dec: (Block, Block) -> Block,
    publicOf: Bytes -> Bytes,
    wrap: (Bytes, Block, Bytes) -> Option<Bytes>,
    unwrap: (Bytes, Bytes) -> Option<Bytes>,
    crc: Bytes -> u32)

  ghost predicate Permutation(c: Suite) {
    && (forall k: Block, b: Block :: c.dec(k, c.enc(k, b)) == b)
    && (forall k: Block, b: Block :: c.enc(k, c.dec(k, b)) == b)
  }

  const PUBLIC_KEY_SIZE := 160
  const WRAPPED_KEY_SIZE := 128

  ghost predicate KeyTransport(c: Suite) {
    && (forall priv: Bytes :: |c.publicOf(priv)| == PUBLIC_KEY_SIZE)
    && (forall priv: Bytes, k: Block, seed: Bytes ::
          var w := c.wrap(c.publicOf(priv), k, seed);
          w.Some? && |w.value| == WRAPPED_KEY_SIZE && c.unwrap(priv, w.value) == Some(k))
  }

  ghost predicate Lawful(c: Suite) {
    Permutation(c) && KeyTransport(c)
  }

  /** The laws can be met, so nothing below holds for want of a suite. */
  lemma LawfulSuiteExists() returns (c: Suite)
    ensures Lawful(c)
  {
    c := Suite((k: Block, b: Block) => b, (k: Block, b: Block) => b, (priv: Bytes) => Zeros(PUBLIC_KEY_SIZE),
               (pub: Bytes, k: Block, seed: Bytes) => Some(k + Zeros(WRAPPED_KEY_SIZE - BLOCK)),
               (priv: Bytes, w: Bytes) => if |w| >= BLOCK then Some(w[..BLOCK]) else None,
               (data: Bytes) => 0);
  }

  function LowBit(a: nat, b: nat): (x: nat)
    ensures x <= 1
  {
    if a % 2 == b % 2 then 0 else 1
  }

  lemma LowBitTwice(a: nat, b: nat, high: nat)
    ensures (LowBit(a, b) + 2 * high) / 2 == high
    ensures LowBit(LowBit(a, b) + 2 * high, b) == a % 2
  {
  }

  /** Exclusive or of the low `n` bits. */
  function XorBits(n: nat, a: nat, b: nat): (x: nat)
    ensures x < Pow2(n)
  {
    if n == 0 then 0 else LowBit(a, b) + 2 * XorBits(n - 1, a / 2, b / 2)
  }

  function Pow2(n: nat): nat {
    if n == 0 then 1 else 2 * Pow2(n - 1)
  }

  lemma {:induction false} XorBitsTwice(n: nat, a: nat, b: nat)
    requires a < Pow2(n)
    ensures XorBits(n, XorBits(n, a, b), b) == a
  {
    if n > 0 {
      LowBitTwice(a, b, XorBits(n - 1, a / 2, b / 2));
      XorBitsTwice(n - 1, a / 2, b / 2);
    }
  }

  lemma Pow2Of8()
    ensures Pow2(8) == 0x100
  {
    assert Pow2(4) == 16;
  }

  function Xor(a: byte, b: byte): byte {
    Pow2Of8();
    XorBits(8, a as nat, b as nat) as byte
  }

  lemma XorTwice(a: byte, b: byte)
    ensures Xor(Xor(a, b), b) == a
  {
    Pow2Of8();
    XorBitsTwice(8, a as nat, b as nat);
  }

  function XorBlock(a: Block, b: Block): Block {
    seq(16, i requires 0 <= i < 16 => Xor(a[i], b[i]))
  }

  lemma XorBlockTwice(a: Block, b: Block)
    ensures XorBlock(XorBlock(a, b), b) == a
  {
    forall i | 0 <= i < 16 ensures XorBlock(XorBlock(a, b), b)[i] == a[i] {
      XorTwice(a[i], b[i]);
    }
  }

  // ----- Exclusive or, bit by bit -----

  /** Bit `j` of `n`, the lowest being bit 0: halve `j` times and take the remainder. */
  predicate Bit(n: nat, j: nat) {
    if j == 0 then n % 2 == 1 else Bit(n / 2, j - 1)
  }

  predicate ByteBit(b: byte, j: nat) {
    Bit(b as nat, j)
  }

  const POWERS: seq<nat> := [1, 2, 4, 8, 16, 32, 64, 128]

  lemma Halved(n: nat, j: nat)
    requires 0 < j < 8
    ensures n / POWERS[j] == n / 2 / POWERS[j - 1]
  {
  }

  /** In one division: the bit of value 2^j. */
  lemma {:induction false} BitIsQuotient(n: nat, j: nat)
    requires j < 8
    ensures Bit(n, j) <==> n / POWERS[j] % 2 == 1
  {
    if j > 0 {
      Halved(n, j);
      BitIsQuotient(n / 2, j - 1);
    }
  }

  lemma {:induction false} XorBitsAt(n: nat, a: nat, b: nat, j: nat)
    requires j < n
    ensures Bit(XorBits(n, a, b), j) <==> Bit(a, j) != Bit(b, j)
  {
    var high := XorBits(n - 1, a / 2, b / 2);
    var x := LowBit(a, b) + 2 * high;
    LowBitTwice(a, b, high);
    if j > 0 {
      XorBitsAt(n - 1, a / 2, b / 2, j - 1);
    }
  }

  /** Each bit of the exclusive or is set exactly where the two bits differ. */
  lemma XorBlockBits(a: Block, b: Block, i: nat, j: nat)
    requires i < BLOCK && j < 8
    ensures Bit(XorBlock(a, b)[i] as nat, j) <==> Bit(a[i] as nat, j) != Bit(b[i] as nat, j)
  {
    Pow2Of8();
    XorBitsAt(8, a[i] as nat, b[i] as nat, j);
  }

  // ----- The chain -----

  function CbcEncrypt(c: Suite, key: Block, iv: Block, p: Bytes): (x: Bytes)
    requires |p| % BLOCK == 0
    ensures |x| == |p|
    decreases |p|
  {
    if p == [] then [] else
      var x: Block := c.enc(key, XorBlock(p[..BLOCK], iv));
      x + CbcEncrypt(c, key, x, p[BLOCK..])
  }

  function CbcDecrypt(c: Suite, key: Block, iv: Block, x: Bytes): (p: Bytes)
    requires |x| % BLOCK == 0
    ensures |p| == |x|
    decreases |x|
  {
    if x == [] then [] else
      XorBlock(c.dec(key, x[..BLOCK]), iv) + CbcDecrypt(c, key, x[..BLOCK], x[BLOCK..])
  }

  /** Block `k` of a string of whole blocks. */
  function BlockOf(s: Bytes, k: nat): (b: Block)
    requires BLOCK * (k + 1) <= |s|
    ensures b == s[BLOCK * k..BLOCK * (k + 1)]
  {
    s[BLOCK * k..BLOCK * (k + 1)]
  }

  /** Each bit of `d` is set exactly where the bits of `a` and `b` differ. */
  predicate ByteDiffers(d: byte, a: byte, b: byte) {
    forall j: nat :: j < 8 ==> (ByteBit(d, j) <==> ByteBit(a, j) != ByteBit(b, j))
  }

  predicate Differs(d: Block, a: Block, b: Block) {
    forall i :: 0 <= i < BLOCK ==> ByteDiffers(d[i], a[i], b[i])
  }

  function Previous(iv: Block, x: Bytes, k: nat): Block
    requires BLOCK * k <= |x|
  {
    if k == 0 then iv else BlockOf(x, k - 1)
  }

  /** The law of the chain: the block cipher's input at block `k` is the plaintext block against the block before. */
  ghost predicate Chained(c: Suite, key: Block, iv: Block, p: Bytes, x: Bytes) {
    && |x| == |p|
    && forall k: nat :: BLOCK * (k + 1) <= |x| ==>
         Differs(c.dec(key, BlockOf(x, k)), BlockOf(p, k), Previous(iv, x, k))
  }

  lemma XorBlockDiffers(a: Block, b: Block)
    ensures Differs(XorBlock(a, b), a, b)
  {
    forall i | 0 <= i < BLOCK ensures ByteDiffers(XorBlock(a, b)[i], a[i], b[i]) {
      forall j: nat | j < 8 ensures ByteBit(XorBlock(a, b)[i], j) <==> ByteBit(a[i], j) != ByteBit(b[i], j) {
        XorBlockBits(a, b, i, j);
      }
    }
  }

  lemma BlockBehind(first: Block, x: Bytes, k: nat)
    requires BLOCK * (k + 1) <= |first + x|
    ensures k == 0 ==> BlockOf(first + x, k) == first
    ensures k > 0 ==> BlockOf(first + x, k) == BlockOf(x, k - 1)
  {
    var lo := BLOCK * k;
    assert (first + x)[lo..lo + BLOCK] == if k == 0 then first else x[lo - BLOCK..lo];
  }

  lemma PreviousBehind(iv: Block, first: Block, x: Bytes, k: nat)
    requires 0 < k && BLOCK * k <= |first + x|
    ensures Previous(iv, first + x, k) == Previous(first, x, k - 1)
  {
    BlockBehind(first, x, k - 1);
  }

  lemma ChainedBehind(c: Suite, key: Block, iv: Block, head: Block, first: Block, p: Bytes, x: Bytes)
    requires Differs(c.dec(key, first), head, iv) && Chained(c, key, first, p, x)
    ensures Chained(c, key, iv, head + p, first + x)
  {
    forall k: nat | BLOCK * (k + 1) <= |first + x|
      ensures Differs(c.dec(key, BlockOf(first + x, k)), BlockOf(head + p, k), Previous(iv, first + x, k))
    {
      BlockBehind(first, x, k);
      BlockBehind(head, p, k);
      if k > 0 {
        PreviousBehind(iv, first, x, k);
      }
    }
  }

  /** Encryption chains: every ciphertext block goes into the next. */
  lemma {:induction false} CbcChains(c: Suite, key: Block, iv: Block, p: Bytes)
    requires Permutation(c) && |p| % BLOCK == 0
    ensures Chained(c, key, iv, p, CbcEncrypt(c, key, iv, p))
    decreases |p|
  {
    if p != [] {
      var head: Block := p[..BLOCK];
      var first: Block := c.enc(key, XorBlock(head, iv));
      XorBlockDiffers(head, iv);
      CbcChains(c, key, first, p[BLOCK..]);
      ChainedBehind(c, key, iv, head, first, p[BLOCK..], CbcEncrypt(c, key, first, p[BLOCK..]));
      assert p == head + p[BLOCK..];
    }
  }

  lemma {:induction false} CbcDecryptsEncrypted(c: Suite, key: Block, iv: Block, p: Bytes)
    requires Permutation(c) && |p| % BLOCK == 0
    ensures CbcDecrypt(c, key, iv, CbcEncrypt(c, key, iv, p)) == p
    decreases |p|
  {
    if p != [] {
      var head: Block := p[..BLOCK];
      var x: Block := c.enc(key, XorBlock(head, iv));
      var all := CbcEncrypt(c, key, iv, p);
      assert all[..BLOCK] == x && all[BLOCK..] == CbcEncrypt(c, key, x, p[BLOCK..]);
      XorBlockTwice(head, iv);
      CbcDecryptsEncrypted(c, key, x, p[BLOCK..]);
      assert p == head + p[BLOCK..];
    }
  }

  lemma {:induction false} CbcEncryptsDecrypted(c: Suite, key: Block, iv: Block, x: Bytes)
    requires Permutation(c) && |x| % BLOCK == 0
    ensures CbcEncrypt(c, key, iv, CbcDecrypt(c, key, iv, x)) == x
    decreases |x|
  {
    if x != [] {
      var head: Block := x[..BLOCK];
      var all := CbcDecrypt(c, key, iv, x);
      var first := XorBlock(c.dec(key, head), iv);
      assert all[..BLOCK] == first && all[BLOCK..] == CbcDecrypt(c, key, head, x[BLOCK..]);
      XorBlockTwice(c.dec(key, head), iv);
      CbcEncryptsDecrypted(c, key, head, x[BLOCK..]);
      assert x == head + x[BLOCK..];
    }
  }

  /** PKCS#7: between one and sixteen bytes, each holding the number of bytes added. */
  function Padding(n: nat): (pad: Bytes)
    ensures 1 <= |pad| <= BLOCK && (n + |pad|) % BLOCK == 0
    ensures forall i :: 0 <= i < |pad| ==> pad[i] as nat == |pad|
  {
    var k := BLOCK - n % BLOCK;
    seq(k, _ => k as byte)
  }

  function Pad(p: Bytes): Bytes {
    p + Padding(|p|)
  }

  /** The library's checks in its order; `None` stands for the exception it raises. */
  function Unpad(q: Bytes): Option<Bytes> {
    if |q| == 0 || |q| % BLOCK != 0 then None else
      var k := q[|q| - 1] as nat;
      if k < 1 || k > BLOCK || k > |q| then None
      else if q[|q| - k..] != seq(k, _ => k as byte) then None
      else Some(q[..|q| - k])
  }

  lemma UnpadInvertsPad(q: Bytes, p: Bytes)
    ensures Unpad(q) == Some(p) <==> q == Pad(p)
  {
    if q == Pad(p) {
      var k := |Padding(|p|)|;
      assert q[|q| - 1] as nat == k;
      assert q[|q| - k..] == seq(k, _ => k as byte);
      assert q[..|q| - k] == p;
    }
    if Unpad(q) == Some(p) {
      var k := q[|q| - 1] as nat;
      assert |q| == |p| + k;
      assert k == BLOCK - |p| % BLOCK;
      assert q == p + q[|q| - k..];
    }
  }

  function EncryptData(c: Suite, key: Block, p: Bytes): Bytes {
    CbcEncrypt(c, key, Zeros(BLOCK), Pad(p))
  }

  /** The server's decryption; `None` stands for either library exception. */
  function DecryptData(c: Suite, key: Block, x: Bytes): Option<Bytes> {
    if |x| % BLOCK != 0 then None else Unpad(CbcDecrypt(c, key, Zeros(BLOCK), x))
  }

  /** The client's filter: whole blocks are chained as they arrive, the padding is added to what is left. */
  function FilterEncrypt(c: Suite, key: Block, iv: Block, p: Bytes): Bytes
    decreases |p|
  {
    if |p| < BLOCK then c.enc(key, XorBlock(p + Padding(|p|), iv)) else
      var x: Block := c.enc(key, XorBlock(p[..BLOCK], iv));
      x + FilterEncrypt(c, key, x, p[BLOCK..])
  }

  function ClientEncrypt(c: Suite, key: Block, p: Bytes): Bytes {
    FilterEncrypt(c, key, Zeros(BLOCK), p)
  }

  lemma {:induction false} FilterIsPadThenChain(c: Suite, key: Block, iv: Block, p: Bytes)
    ensures FilterEncrypt(c, key, iv, p) == CbcEncrypt(c, key, iv, Pad(p))
    decreases |p|
  {
    var q := Pad(p);
    if |p| < BLOCK {
      assert q[..BLOCK] == q && q[BLOCK..] == [];
      assert CbcEncrypt(c, key, c.enc(key, XorBlock(q[..BLOCK], iv)), []) == [];
    } else {
      assert Padding(|p|) == Padding(|p[BLOCK..]|);
      assert q[..BLOCK] == p[..BLOCK] && q[BLOCK..] == Pad(p[BLOCK..]);
      FilterIsPadThenChain(c, key, c.enc(key, XorBlock(p[..BLOCK], iv)), p[BLOCK..]);
    }
  }

  function CipherLength(n: nat): nat {
    BLOCK * (n / BLOCK + 1)
  }

  /** The two ends invert each other, in both directions, for every byte string and every key. */
  lemma CipherRoundTrip(c: Suite, key: Block, p: Bytes, x: Bytes)
    requires Permutation(c)
    ensures DecryptData(c, key, x) == Some(p) <==> x == ClientEncrypt(c, key, p)
    ensures |ClientEncrypt(c, key, p)| == CipherLength(|p|)
    ensures ClientEncrypt(c, key, p) == EncryptData(c, key, p)
  {
    var iv := Zeros(BLOCK);
    FilterIsPadThenChain(c, key, iv, p);
    CbcDecryptsEncrypted(c, key, iv, Pad(p));
    if |x| % BLOCK == 0 {
      CbcEncryptsDecrypted(c, key, iv, x);
      UnpadInvertsPad(CbcDecrypt(c, key, iv, x), p);
    }
  }

  /** Both ends chain the padded plaintext from a zero initial vector. */
  lemma BothEndsChain(c: Suite, key: Block, p: Bytes)
    requires Permutation(c)
    ensures Chained(c, key, Zeros(BLOCK), Pad(p), ClientEncrypt(c, key, p))
    ensures Chained(c, key, Zeros(BLOCK), Pad(p), EncryptData(c, key, p))
  {
    FilterIsPadThenChain(c, key, Zeros(BLOCK), p);
    CbcChains(c, key, Zeros(BLOCK), Pad(p));
  }

  lemma {:induction false} SameBits(n: nat, a: nat, b: nat)
    requires a < Pow2(n) && b < Pow2(n) && forall j: nat :: j < n ==> (Bit(a, j) <==> Bit(b, j))
    ensures a == b
  {
    if n > 0 {
      forall j: nat | j < n - 1 ensures Bit(a / 2, j) <==> Bit(b / 2, j) {
        assert Bit(a, j + 1) <==> Bit(b, j + 1);
      }
      SameBits(n - 1, a / 2, b / 2);
      assert Bit(a, 0) <==> Bit(b, 0);
    }
  }

  lemma SameDiffers(d: Block, e: Block, a: Block, b: Block)
    requires Differs(d, a, b) && Differs(e, a, b)
    ensures d == e
  {
    forall i | 0 <= i < BLOCK ensures d[i] == e[i] {
      assert ByteDiffers(d[i], a[i], b[i]) && ByteDiffers(e[i], a[i], b[i]);
      Pow2Of8();
      var m, n := d[i] as nat, e[i] as nat;
      forall j: nat | j < 8 ensures Bit(m, j) <==> Bit(n, j) {
        assert ByteBit(d[i], j) <==> ByteBit(e[i], j);
      }
      SameBits(8, m, n);
    }
  }

  lemma {:induction false} SameBlocks(c: Suite, key: Block, iv: Block, p: Bytes, x: Bytes, y: Bytes, k: nat)
    requires Permutation(c) && Chained(c, key, iv, p, x) && Chained(c, key, iv, p, y) && BLOCK * (k + 1) <= |p|
    ensures BlockOf(x, k) == BlockOf(y, k)
  {
    if k > 0 {
      SameBlocks(c, key, iv, p, x, y, k - 1);
    }
    assert Previous(iv, x, k) == Previous(iv, y, k);
    SameDiffers(c.dec(key, BlockOf(x, k)), c.dec(key, BlockOf(y, k)), BlockOf(p, k), Previous(iv, x, k));
    assert c.enc(key, c.dec(key, BlockOf(x, k))) == BlockOf(x, k);
    assert c.enc(key, c.dec(key, BlockOf(y, k))) == BlockOf(y, k);
  }

  lemma InBlock(x: Bytes, i: nat)
    requires |x| % BLOCK == 0 && i < |x|
    ensures var k := i / BLOCK; BLOCK * (k + 1) <= |x| && x[i] == BlockOf(x, k)[i - BLOCK * k]
  {
    assert i / BLOCK < |x| / BLOCK;
  }

  lemma SameByBlocks(x: Bytes, y: Bytes)
    requires |x| == |y| && |x| % BLOCK == 0
    requires forall k: nat :: BLOCK * (k + 1) <= |x| ==> BlockOf(x, k) == BlockOf(y, k)
    ensures x == y
  {
    forall i | 0 <= i < |x| ensures x[i] == y[i] {
      InBlock(x, i);
      InBlock(y, i);
    }
  }

  /** A string is the client's ciphertext of `p` exactly when it satisfies the law. */
  lemma ChainedOnly(c: Suite, key: Block, p: Bytes, x: Bytes)
    requires Permutation(c)
    ensures Chained(c, key, Zeros(BLOCK), Pad(p), x) <==> x == ClientEncrypt(c, key, p)
  {
    BothEndsChain(c, key, p);
    var y := ClientEncrypt(c, key, p);
    if Chained(c, key, Zeros(BLOCK), Pad(p), x) {
      forall k: nat | BLOCK * (k + 1) <= |x| ensures BlockOf(x, k) == BlockOf(y, k) {
        SameBlocks(c, key, Zeros(BLOCK), Pad(p), x, y, k);
      }
      SameByBlocks(x, y);
    }
  }
}
