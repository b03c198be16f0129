/** The streaming hash of native/fs-commit/src/sha256.rs: a 64-byte buffer, a running state and a
    64-bit byte counter, all updated in place. Each method is proved against `Fips180`. */
module Sha256 {
  import opened Fips180

  ghost predicate Expanded(block: Block, w: seq<Word>, n: nat)
    requires |w| == 64 && n <= 64
  {
    forall t :: 0 <= t < n ==> w[t] == Schedule(block, t)
  }

  class Hasher {
    const state: array<Word>
    const buffer: array<Byte>
    var bufferLen: nat
    var totalLen: nat  // a 64-bit counter that wraps

    /** The bytes already compressed into `state`: whole blocks only. */
    ghost var compressed: seq<Byte>

    ghost predicate Shape()
      reads this
    {
      state != (buffer as object) && state.Length == 8 && buffer.Length == BLOCK_BYTES
    }

    ghost predicate Valid()
      reads this, state, buffer
    {
      && Shape()
      && bufferLen < BLOCK_BYTES
      && Folded(compressed)
      && totalLen == |Message()| % TWO_POW_64
    }

    ghost predicate Folded(blocks: seq<Byte>)
      requires Shape()
      reads this, state
    {
      |blocks| % BLOCK_BYTES == 0 && state[..] == HashBlocks(blocks)
    }

    /** Every byte given to `Update` so far. */
    ghost function Message(): seq<Byte>
      requires Shape() && bufferLen <= BLOCK_BYTES
      reads this, buffer
    {
      compressed + buffer[..bufferLen]
    }

    constructor ()
      ensures Valid() && Message() == [] && fresh(state) && fresh(buffer)
    {
      state := new Word[8](i requires 0 <= i < 8 => INITIAL_HASH[i]);
      buffer := new Byte[64](_ => 0);
      bufferLen := 0;
      totalLen := 0;
      compressed := [];
      new;
      assert state[..] == INITIAL_HASH;
    }

    method Update(input: seq<Byte>)
      requires Valid()
      modifies this`bufferLen, this`totalLen, this`compressed, state, buffer
      ensures Valid() && Message() == old(Message()) + input
    {
      Counted(totalLen, Message(), input);
      totalLen := (totalLen + |input|) % TWO_POW_64;
      Absorb(input);
    }

    /** `Update` without the byte counter. */
    method Absorb(input: seq<Byte>)
      requires Shape() && Folded(compressed) && bufferLen < BLOCK_BYTES
      modifies this`bufferLen, this`compressed, state, buffer
      ensures Folded(compressed) && bufferLen < BLOCK_BYTES
      ensures Message() == old(Message()) + input
    {
      var data := TopUp(input);
      while |data| >= 64
        invariant Folded(compressed) && bufferLen < BLOCK_BYTES
        invariant bufferLen > 0 ==> data == []
        invariant Message() + data == old(Message()) + input
        decreases |data|
      {
        AppendSplit(compressed, data, 64);
        assert Message() == compressed;
        CompressBlock(data[..64]);
        data := data[64..];
        assert Message() == compressed;
      }
      if data != [] {
        Stash(data);
      } else {
        AppendNothing(Message());
      }
    }

    /** Keeps the tail of the input in the empty buffer. */
    method Stash(data: seq<Byte>)
      requires Shape() && bufferLen == 0 && |data| < BLOCK_BYTES
      modifies this`bufferLen, buffer
      ensures bufferLen == |data| && Message() == old(Message()) + data
    {
      CopyIn(0, data);
      bufferLen := |data|;
      assert Message() == compressed + data;
      assert old(Message()) == compressed;
    }

    /** Uses the front of `input` to complete a partly filled buffer; returns what is left of it. */
    method TopUp(input: seq<Byte>) returns (data: seq<Byte>)
      requires Shape() && Folded(compressed) && bufferLen < BLOCK_BYTES
      modifies this`bufferLen, this`compressed, state, buffer
      ensures Folded(compressed) && bufferLen < BLOCK_BYTES
      ensures bufferLen > 0 ==> data == []
      ensures Message() + data == old(Message()) + input
    {
      if bufferLen == 0 {
        return input;
      }
      var need := 64 - bufferLen;
      var take := if need <= |input| then need else |input|;
      ghost var joined := Message() + input[..take];
      AppendSplit(Message(), input, take);
      AppendAssociates(compressed, buffer[..bufferLen], input[..take]);
      CopyIn(bufferLen, input[..take]);
      bufferLen := bufferLen + take;
      data := input[take..];
      assert Message() == joined;
      if bufferLen == 64 {
        FlushBuffer();
      }
    }

    /** Folds a full buffer into the state and empties it. */
    method FlushBuffer()
      requires Shape() && Folded(compressed) && bufferLen == BLOCK_BYTES
      modifies this`bufferLen, this`compressed, state
      ensures Folded(compressed) && bufferLen == 0
      ensures Message() == old(Message())
    {
      CompressBlock(buffer[..]);
      bufferLen := 0;
      assert Message() == compressed;
    }

    method CopyIn(at: nat, data: seq<Byte>)
      requires at + |data| <= buffer.Length
      modifies buffer
      ensures buffer[..at + |data|] == old(buffer[..at]) + data
    {
      forall k | 0 <= k < |data| {
        buffer[at + k] := data[k];
      }
    }

    method Finish() returns (out: seq<Byte>)
      requires Valid()
      modifies this`bufferLen, this`totalLen, this`compressed, state, buffer
      ensures |old(Message())| < TWO_POW_61 ==> out == Digest(old(Message()))
    {
      var bitLen := totalLen * 8 % TWO_POW_64;
      ghost var m := Message();
      Pad();
      AppendAssociates(compressed, buffer[..56], Bytes64(bitLen));
      var last := buffer[..56] + Bytes64(bitLen);
      assert |last| == 56 + 8;
      CompressBlock(last);
      if |m| < TWO_POW_61 {
        BitLength(|m|);
      }
      out := DigestBytes(state[..]);
    }

    /** The 0x80 byte, then zeros until the length fits. */
    method Pad()
      requires Valid()
      modifies this`bufferLen, this`totalLen, this`compressed, state, buffer
      ensures Valid() && bufferLen == 56
      ensures Message() == old(Message()) + [0x80] + Zeros(PadZeros(|old(Message())|))
    {
      ghost var m := Message();
      Update([0x80]);
      ghost var zeros: nat := 0;
      while bufferLen != 56
        invariant Valid()
        invariant Message() == m + [0x80] + Zeros(zeros)
        invariant zeros <= PadZeros(|m|)
        decreases PadZeros(|m|) - zeros
      {
        BufferLenIs(compressed, bufferLen, |m|, zeros);
        Update([0]);
        ZerosGrow(m + [0x80], zeros);
        zeros := zeros + 1;
      }
      BufferLenIs(compressed, bufferLen, |m|, zeros);
    }

    /** Folds one block into `state`. */
    method CompressBlock(block: Block)
      requires Shape() && Folded(compressed)
      modifies this`compressed, state
      ensures Folded(compressed) && compressed == old(compressed) + block
    {
      var w := Expand(block);
      var v := RunRounds(block, w[..]);
      BlockAppended(compressed, block, state[..], v);
      AddInto(v);
      compressed := compressed + block;
    }

    method AddInto(v: Working)
      requires Shape()
      modifies state
      ensures state[..] == AddTo(old(state[..]), v)
    {
      var hash := state[..];
      state[0] := Add(hash[0], v.a);
      state[1] := Add(hash[1], v.b);
      state[2] := Add(hash[2], v.c);
      state[3] := Add(hash[3], v.d);
      state[4] := Add(hash[4], v.e);
      state[5] := Add(hash[5], v.f);
      state[6] := Add(hash[6], v.g);
      state[7] := Add(hash[7], v.h);
    }

    method Expand(block: Block) returns (w: array<Word>)
      ensures fresh(w) && w.Length == 64 && Expanded(block, w[..], 64)
    {
      w := new Word[64];
      var i := 0;
      while i < 16
        invariant 0 <= i <= 16
        invariant Expanded(block, w[..], i)
      {
        w[i] := FirstWord(block, i);
        i := i + 1;
      }
      while i < 64
        invariant 16 <= i <= 64
        invariant Expanded(block, w[..], i)
      {
        w[i] := NextWord(block, i, w[i - 16], w[i - 15], w[i - 7], w[i - 2]);
        i := i + 1;
      }
    }

    static method FirstWord(block: Block, i: nat) returns (w: Word)
      requires i < 16
      ensures w == Schedule(block, i)
    {
      w := WordOf(block[i * 4], block[i * 4 + 1], block[i * 4 + 2], block[i * 4 + 3]);
    }

    static method NextWord(ghost block: Block, ghost i: nat, w16: Word, w15: Word, w7: Word, w2: Word)
      returns (w: Word)
      requires 16 <= i < 64
      requires w16 == Schedule(block, i - 16) && w15 == Schedule(block, i - 15)
      requires w7 == Schedule(block, i - 7) && w2 == Schedule(block, i - 2)
      ensures w == Schedule(block, i)
    {
      var s0, s1 := MixW(w15, w2);
      AddReordered(w16, s0, w7, s1);
      w := Add4(w16, s0, w7, s1);
    }

    method RunRounds(block: Block, w: seq<Word>) returns (v: Working)
      requires Shape()
      requires |w| == 64 && Expanded(block, w, 64)
      ensures v == Rounds(block, Load(state[..]), |K|)
    {
      v := Load(state[..]);
      var i := 0;
      while i < 64
        invariant 0 <= i <= 64
        invariant v == Rounds(block, Load(state[..]), i)
      {
        v := OneRound(v.a, v.b, v.c, v.d, v.e, v.f, v.g, v.h, K[i], w[i]);
        i := i + 1;
      }
    }

    static method OneRound(a0: Word, b0: Word, c0: Word, d0: Word, e0: Word, f0: Word, g0: Word, h0: Word,
                           kt: Word, wt: Word)
      returns (v: Working)
      ensures v == Round(Working(a0, b0, c0, d0, e0, f0, g0, h0), kt, wt)
    {
      var a, b, c, d, e, f, g, h := a0, b0, c0, d0, e0, f0, g0, h0;
      var s1, ch := MixE(e, f, g);
      var temp1 := Add(Add(Add(Add(h, s1), ch), kt), wt);
      var s0, maj := MixA(a, b, c);
      var temp2 := Add(s0, maj);
      h := g;
      g := f;
      f := e;
      e := Add(d, temp1);
      d := c;
      c := b;
      b := a;
      a := Add(temp1, temp2);
      v := Working(a, b, c, d, e, f, g, h);
    }

    static method MixE(e: Word, f: Word, g: Word) returns (s1: Word, ch: Word)
      ensures s1 == BigSigma1(e) && ch == Ch(e, f, g)
    {
      s1 := e.RotateRight(6) ^ e.RotateRight(11) ^ e.RotateRight(25);
      ch := (e & f) ^ (!e & g);
    }

    static method MixA(a: Word, b: Word, c: Word) returns (s0: Word, maj: Word)
      ensures s0 == BigSigma0(a) && maj == Maj(a, b, c)
    {
      s0 := a.RotateRight(2) ^ a.RotateRight(13) ^ a.RotateRight(22);
      maj := (a & b) ^ (a & c) ^ (b & c);
    }

    static method MixW(w15: Word, w2: Word) returns (s0: Word, s1: Word)
      ensures s0 == SmallSigma0(w15) && s1 == SmallSigma1(w2)
    {
      s0 := w15.RotateRight(7) ^ w15.RotateRight(18) ^ (w15 >> 3);
      s1 := w2.RotateRight(17) ^ w2.RotateRight(19) ^ (w2 >> 10);
    }
  }

  /** The buffer first holds 56 bytes after exactly `PadZeros` zero bytes: this is why the padding loop stops. */
  lemma BufferLenIs(compressed: seq<Byte>, bufferLen: nat, length: nat, zeros: nat)
    requires |compressed| % BLOCK_BYTES == 0 && bufferLen < BLOCK_BYTES
    requires |compressed| + bufferLen == length + 1 + zeros
    requires zeros <= PadZeros(length)
    ensures bufferLen == 56 <==> zeros == PadZeros(length)
  {
    var short := PadZeros(length) - zeros;
    assert bufferLen == (length + 1 + zeros) % BLOCK_BYTES;
    assert (length + 1 + PadZeros(length)) % BLOCK_BYTES == 56;
    assert length + 1 + PadZeros(length) == |compressed| + bufferLen + short;
  }

  lemma ZerosGrow(m: seq<Byte>, zeros: nat)
    ensures (m + Zeros(zeros)) + [0] == m + Zeros(zeros + 1)
  {
    assert Zeros(zeros + 1) == Zeros(zeros) + [0];
  }

  lemma BitLength(length: nat)
    requires length < TWO_POW_61
    ensures length % TWO_POW_64 * 8 % TWO_POW_64 == 8 * length
  {
  }

  lemma AppendSplit(m: seq<Byte>, s: seq<Byte>, k: nat)
    requires k <= |s|
    ensures (m + s[..k]) + s[k..] == m + s
  {
  }

  lemma AppendNothing(m: seq<Byte>)
    ensures m + [] == m
  {
  }

  lemma AppendAssociates(x: seq<Byte>, y: seq<Byte>, z: seq<Byte>)
    ensures x + (y + z) == (x + y) + z
  {
  }

  lemma WrapAdd(total: nat, more: nat)
    ensures (total % TWO_POW_64 + more) % TWO_POW_64 == (total + more) % TWO_POW_64
  {
  }

  lemma Counted(total: nat, message: seq<Byte>, input: seq<Byte>)
    requires total == |message| % TWO_POW_64
    ensures (total + |input|) % TWO_POW_64 == |message + input| % TWO_POW_64
  {
    WrapAdd(|message|, |input|);
  }

  lemma BlockAppended(data: seq<Byte>, block: Block, hash: Hash, v: Working)
    requires |data| % BLOCK_BYTES == 0 && hash == HashBlocks(data)
    requires v == Rounds(block, Load(hash), |K|)
    ensures |data + block| % BLOCK_BYTES == 0 && HashBlocks(data + block) == AddTo(hash, v)
  {
    var all := data + block;
    assert all[..|all| - BLOCK_BYTES] == data && all[|all| - BLOCK_BYTES..] == block;
  }

  /** The code adds the four schedule terms in the opposite order to the standard. */
  lemma AddReordered(w16: Word, s0: Word, w7: Word, s1: Word)
    ensures Add4(w16, s0, w7, s1) == Add4(s1, w7, s0, w16)
  {
  }

  /** What splitting means: however a message is cut into `Update` calls, the digest is the standard's. */
  method HashChunks(chunks: seq<seq<Byte>>) returns (out: seq<Byte>)
    ensures |Joined(chunks)| < TWO_POW_61 ==> out == Digest(Joined(chunks))
  {
    var hasher := new Hasher();
    var i := 0;
    while i < |chunks|
      invariant 0 <= i <= |chunks|
      invariant hasher.Valid() && fresh(hasher) && fresh(hasher.state) && fresh(hasher.buffer)
      invariant hasher.Message() == Joined(chunks[..i])
    {
      hasher.Update(chunks[i]);
      assert chunks[..i + 1][..i] == chunks[..i];
      i := i + 1;
    }
    assert chunks[..i] == chunks;
    out := hasher.Finish();
  }

  function Joined(chunks: seq<seq<Byte>>): seq<Byte> {
    if chunks == [] then [] else Joined(chunks[..|chunks| - 1]) + chunks[|chunks| - 1]
  }

  // ---- hex

  const HEX_DIGITS: string := "0123456789abcdef"

  /** Two lower-case digits a byte. */
  function HexOf(bytes: seq<Byte>): (s: string)
    ensures |s| == 2 * |bytes|
  {
    if bytes == [] then "" else HexOf(bytes[..|bytes| - 1]) + HexPair(bytes[|bytes| - 1])
  }

  function HexPair(b: Byte): (s: string)
    ensures |s| == 2
  {
    [HEX_DIGITS[b / 16], HEX_DIGITS[b % 16]]
  }

  method Hex(bytes: seq<Byte>) returns (s: string)
    ensures s == HexOf(bytes)
  {
    s := "";
    var i := 0;
    while i < |bytes|
      invariant 0 <= i <= |bytes|
      invariant s == HexOf(bytes[..i])
    {
      assert bytes[..i + 1][..i] == bytes[..i];
      s := s + HexPair(bytes[i]);
      i := i + 1;
    }
    assert bytes[..i] == bytes;
  }

  lemma {:induction false} HexDigitsDistinct(m: nat, n: nat)
    requires m < 16 && n < 16 && HEX_DIGITS[m] == HEX_DIGITS[n]
    ensures m == n
  {
  }

  lemma HexPairInjective(x: Byte, y: Byte)
    requires HexPair(x) == HexPair(y)
    ensures x == y
  {
    assert HexPair(x)[0] == HexPair(y)[0] && HexPair(x)[1] == HexPair(y)[1];
    HexDigitsDistinct(x / 16, y / 16);
    HexDigitsDistinct(x % 16, y % 16);
  }

  /** Comparing digests by their text is comparing the digests. */
  lemma {:induction false} HexIsInjective(x: seq<Byte>, y: seq<Byte>)
    requires HexOf(x) == HexOf(y)
    ensures x == y
  {
    if x != [] {
      var n := |x| - 1;
      assert |y| == |x|;
      SplitEnd(HexOf(x[..n]), HexPair(x[n]), HexOf(y[..n]), HexPair(y[n]));
      HexIsInjective(x[..n], y[..n]);
      HexPairInjective(x[n], y[n]);
      assert x == x[..n] + [x[n]] && y == y[..n] + [y[n]];
    }
  }

  lemma SplitEnd(a: string, b: string, c: string, d: string)
    requires |a| == |c| && a + b == c + d
    ensures a == c && b == d
  {
    assert a == (a + b)[..|a|] && c == (c + d)[..|c|];
    assert b == (a + b)[|a|..] && d == (c + d)[|c|..];
  }
}
