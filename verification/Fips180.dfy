/** SHA-256 as the Secure Hash Standard (FIPS 180-4) defines it: one shot, over a whole message.
    Nothing here looks at how native/fs-commit computes it; `Sha256` is proved against this module. */
module Fips180 {
  type Word = bv32
  type Byte = b: int | 0 <= b < 256

  // Section 4.2.2: the first 32 bits of the fractional parts of the cube roots of the first 64 primes.
  const K: seq<Word> := [
    0x428a2f98, 0x71374491, 0xb5c0fbcf, 0xe9b5dba5, 0x3956c25b, 0x59f111f1, 0x923f82a4, 0xab1c5ed5,
    0xd807aa98, 0x12835b01, 0x243185be, 0x550c7dc3, 0x72be5d74, 0x80deb1fe, 0x9bdc06a7, 0xc19bf174,
    0xe49b69c1, 0xefbe4786, 0x0fc19dc6, 0x240ca1cc, 0x2de92c6f, 0x4a7484aa, 0x5cb0a9dc, 0x76f988da,
    0x983e5152, 0xa831c66d, 0xb00327c8, 0xbf597fc7, 0xc6e00bf3, 0xd5a79147, 0x06ca6351, 0x14292967,
    0x27b70a85, 0x2e1b2138, 0x4d2c6dfc, 0x53380d13, 0x650a7354, 0x766a0abb, 0x81c2c92e, 0x92722c85,
    0xa2bfe8a1, 0xa81a664b, 0xc24b8b70, 0xc76c51a3, 0xd192e819, 0xd6990624, 0xf40e3585, 0x106aa070,
    0x19a4c116, 0x1e376c08, 0x2748774c, 0x34b0bcb5, 0x391c0cb3, 0x4ed8aa4a, 0x5b9cca4f, 0x682e6ff3,
    0x748f82ee, 0x78a5636f, 0x84c87814, 0x8cc70208, 0x90befffa, 0xa4506ceb, 0xbef9a3f7, 0xc67178f2
  ]

  // Section 5.3.3: the initial hash value.
  const INITIAL_HASH: seq<Word> := [
    0x6a09e667, 0xbb67ae85, 0x3c6ef372, 0xa54ff53a, 0x510e527f, 0x9b05688c, 0x1f83d9ab, 0x5be0cd19
  ]

  const BLOCK_BYTES: nat := 64
  const TWO_POW_61: nat := 0x2000_0000_0000_0000
  const TWO_POW_64: nat := 0x1_0000_0000_0000_0000

  // ---- Section 3.2 and 4.1.2: rotation and the six logical functions

  // ROTR n of x is (x >> n) | (x << 32 - n).

  /** Section 3.2: addition modulo 2^32, which is what `+` on 32-bit words means. */
  function Add(x: Word, y: Word): Word { x + y }
  function Add4(x: Word, y: Word, z: Word, u: Word): Word { x + y + z + u }

  function SmallSigma0(x: Word): Word {
    ((x >> 7) | (x << 25)) ^ ((x >> 18) | (x << 14)) ^ (x >> 3)
  }

  function SmallSigma1(x: Word): Word {
    ((x >> 17) | (x << 15)) ^ ((x >> 19) | (x << 13)) ^ (x >> 10)
  }

  function BigSigma0(x: Word): Word {
    ((x >> 2) | (x << 30)) ^ ((x >> 13) | (x << 19)) ^ ((x >> 22) | (x << 10))
  }

  function BigSigma1(x: Word): Word {
    ((x >> 6) | (x << 26)) ^ ((x >> 11) | (x << 21)) ^ ((x >> 25) | (x << 7))
  }

  function Ch(x: Word, y: Word, z: Word): Word { (x & y) ^ (!x & z) }
  function Maj(x: Word, y: Word, z: Word): Word { (x & y) ^ (x & z) ^ (y & z) }

  // ---- Section 3.1: words and bytes, most significant byte first

  function WordOf(b0: Byte, b1: Byte, b2: Byte, b3: Byte): Word {
    ((b0 as Word) << 24) | ((b1 as Word) << 16) | ((b2 as Word) << 8) | (b3 as Word)
  }

  function ByteOf(w: Word): Byte { ((w & 0xff) as bv8) as int }

  function WordBytes(w: Word): (bytes: seq<Byte>)
    ensures |bytes| == 4
  {
    [ByteOf(w >> 24), ByteOf(w >> 16), ByteOf(w >> 8), ByteOf(w)]
  }

  /** The `k` low-order base-256 digits of `n`, most significant first. */
  function BigEndian(n: nat, k: nat): (bytes: seq<Byte>)
    ensures |bytes| == k
  {
    if k == 0 then [] else BigEndian(n / 256, k - 1) + [n % 256]
  }

  /** A 64-bit length, most significant byte first. */
  function Bytes64(n: nat): (bytes: seq<Byte>)
    ensures |bytes| == 8
  {
    BigEndian(n, 8)
  }

  function DigestBytes(hash: seq<Word>): (bytes: seq<Byte>)
    ensures |bytes| == 4 * |hash|
    ensures forall i, k :: 0 <= i < |hash| && 0 <= k < 4 ==> bytes[4 * i + k] == WordBytes(hash[i])[k]
  {
    if hash == [] then [] else
      var front := DigestBytes(hash[..|hash| - 1]);
      assert forall i :: 0 <= i < |hash| - 1 ==> hash[..|hash| - 1][i] == hash[i];
      front + WordBytes(hash[|hash| - 1])
  }

  // ---- Section 6.2.2: the hash computation

  type Block = b: seq<Byte> | |b| == BLOCK_BYTES witness seq(64, i => 0)
  type Hash = h: seq<Word> | |h| == 8 witness INITIAL_HASH

  /** Step 1: the message schedule W_t. */
  function Schedule(block: Block, t: nat): Word
    requires t < 64
  {
    if t < 16 then
      WordOf(block[4 * t], block[4 * t + 1], block[4 * t + 2], block[4 * t + 3])
    else
      Add4(SmallSigma1(Schedule(block, t - 2)), Schedule(block, t - 7),
           SmallSigma0(Schedule(block, t - 15)), Schedule(block, t - 16))
  }

  /** Step 2: the eight working variables. */
  datatype Working = Working(a: Word, b: Word, c: Word, d: Word, e: Word, f: Word, g: Word, h: Word)

  /** Step 3: one round. */
  function Round(v: Working, kt: Word, wt: Word): Working {
    var t1 := Add(Add(Add(Add(v.h, BigSigma1(v.e)), Ch(v.e, v.f, v.g)), kt), wt);
    var t2 := Add(BigSigma0(v.a), Maj(v.a, v.b, v.c));
    Working(Add(t1, t2), v.a, v.b, v.c, Add(v.d, t1), v.e, v.f, v.g)
  }

  function Rounds(block: Block, v: Working, t: nat): Working
    requires t <= |K|
  {
    if t == 0 then v else Round(Rounds(block, v, t - 1), K[t - 1], Schedule(block, t - 1))
  }

  function Load(hash: Hash): Working {
    Working(hash[0], hash[1], hash[2], hash[3], hash[4], hash[5], hash[6], hash[7])
  }

  /** Step 4: the intermediate hash value. */
  function AddTo(hash: Hash, v: Working): Hash {
    [Add(hash[0], v.a), Add(hash[1], v.b), Add(hash[2], v.c), Add(hash[3], v.d),
     Add(hash[4], v.e), Add(hash[5], v.f), Add(hash[6], v.g), Add(hash[7], v.h)]
  }

  function Compress(hash: Hash, block: Block): Hash {
    AddTo(hash, Rounds(block, Load(hash), |K|))
  }

  /** The hash value after every 64-byte block of `data`, first block first. */
  function HashBlocks(data: seq<Byte>): Hash
    requires |data| % BLOCK_BYTES == 0
  {
    if data == [] then INITIAL_HASH
    else Compress(HashBlocks(data[..|data| - BLOCK_BYTES]), data[|data| - BLOCK_BYTES..])
  }

  // ---- Section 5.1.1: padding

  /** How many zero bytes follow the byte that holds the single 1 bit. */
  function PadZeros(length: nat): (k: nat)
    ensures k < BLOCK_BYTES
    ensures (length + 1 + k) % BLOCK_BYTES == 56
  {
    var q, r := length / BLOCK_BYTES, length % BLOCK_BYTES;
    if r <= 55 then
      assert length + 1 + (55 - r) == BLOCK_BYTES * q + 56;
      55 - r
    else
      assert length + 1 + (119 - r) == BLOCK_BYTES * (q + 1) + 56;
      119 - r
  }

  function Zeros(k: nat): (z: seq<Byte>)
    ensures |z| == k
  {
    seq(k, i => 0)
  }

  function Pad(m: seq<Byte>): (p: seq<Byte>)
    ensures |p| % BLOCK_BYTES == 0
  {
    assert (|m| + 1 + PadZeros(|m|) + 8) % BLOCK_BYTES == 0;
    m + [0x80] + Zeros(PadZeros(|m|)) + Bytes64(8 * |m|)
  }

  function Digest(m: seq<Byte>): (d: seq<Byte>)
    ensures |d| == 32
  {
    DigestBytes(HashBlocks(Pad(m)))
  }

  // ---- The definitions above meet the standard's own wording

  /** Section 5.1.1 asks for the smallest non-negative number of zero BITS that makes
      length + 1 + zeros congruent to 448 modulo 512. The 1 bit is followed by 7 zero bits inside
      its own byte, then by `PadZeros` zero bytes. */
  lemma PaddingIsMinimal(bytes: nat, zeroBits: nat)
    ensures (8 * bytes + 1 + (7 + 8 * PadZeros(bytes))) % 512 == 448
    ensures (8 * bytes + 1 + zeroBits) % 512 == 448 ==> 7 + 8 * PadZeros(bytes) <= zeroBits
  {
    var q, r := bytes / 64, bytes % 64;
    assert bytes == 64 * q + r;
    var k := PadZeros(bytes);
    assert k == if r <= 55 then 55 - r else 119 - r;
    assert 8 * bytes + 1 + (7 + 8 * k) == 512 * (q + (if r <= 55 then 0 else 1)) + 448;
    var j := (8 * bytes + 1 + zeroBits) / 512;
    assert (8 * bytes + 1 + zeroBits) % 512 == 448 ==> 8 * r + 1 + zeroBits == 512 * (j - q) + 448;
  }

  function NatOf(bytes: seq<Byte>): nat {
    if bytes == [] then 0 else NatOf(bytes[..|bytes| - 1]) * 256 + bytes[|bytes| - 1]
  }

  function Pow256(k: nat): nat {
    if k == 0 then 1 else 256 * Pow256(k - 1)
  }

  /** The length field determines the length. */
  lemma {:induction false} BigEndianValue(n: nat, k: nat)
    requires n < Pow256(k)
    ensures NatOf(BigEndian(n, k)) == n
  {
    if k > 0 {
      BigEndianValue(n / 256, k - 1);
      assert BigEndian(n, k)[..k - 1] == BigEndian(n / 256, k - 1);
    }
  }
}
