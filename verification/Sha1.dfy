/** The hand-written SHA-1 of the update packer (`packer.cpp`), proved against FIPS 180-4. */
module Sha1 {
  import opened Sha1Spec

  // ----- One block -----

  /** `sha1Shift` */
  function Sha1Shift(v: Word, shift: bv32): (r: Word)
    requires shift <= 32
    ensures r == Rotl(shift, v)
  {
    (v << shift) | (v >> (32 - shift))
  }

  // The arguments `f` of the round macro, and its two assignments.
  function Choice(b: Word, c: Word, d: Word): Word { (b & c) | (!b & d) }
  function Majority(b: Word, c: Word, d: Word): Word { (b & c) | (b & d) | (c & d) }

  function Sum(a: Word, f: Word, e: Word, v: Word, w: Word): Word {
    Plus(Plus(Plus(Plus(Sha1Shift(a, 5), f), e), v), w)
  }

  function Extension(w3: Word, w8: Word, w14: Word, w16: Word): Word {
    Sha1Shift(Xor(Xor(Xor(w3, w8), w14), w16), 1)
  }

  lemma ChoiceByOr(b: Word, c: Word, d: Word)
    ensures (b & c) | (!b & d) == Ch(b, c, d)
  {}

  lemma MajorityByOr(b: Word, c: Word, d: Word)
    ensures (b & c) | (b & d) | (c & d) == Maj(b, c, d)
  {}

  /** The macro's disjunctions are the standard's exclusive ors. */
  lemma DisjunctionsAreExclusive(b: Word, c: Word, d: Word)
    ensures Choice(b, c, d) == Ch(b, c, d)
    ensures Majority(b, c, d) == Maj(b, c, d)
  {
    hide Ch, Maj;
    ChoiceByOr(b, c, d);
    MajorityByOr(b, c, d);
  }

  /** What one expansion of the round macro computes is one round. */
  lemma MacroIsRound(t: nat, x: Five, f: Word, v: Word, w: Word)
    requires f == F(t, x.b, x.c, x.d) && v == K(t)
    ensures Five(Sum(x.a, f, x.e, v, w), x.a, Sha1Shift(x.b, 30), x.c, x.d) == Round(t, x, w)
  {
    hide Plus, Rotl, F, K, Sha1Shift;
  }

  /** The argument `f` that the five loops give to the macro ... */
  function RoundFunction(round: nat, b: Word, c: Word, d: Word): Word {
    if round < 20 then Choice(b, c, d)
    else if round < 40 then Parity(b, c, d)
    else if round < 60 then Majority(b, c, d)
    else Parity(b, c, d)
  }

  /** ... and the argument `v`. */
  function RoundConstant(round: nat): Word {
    if round < 20 then 0x5a827999
    else if round < 40 then 0x6ed9eba1
    else if round < 60 then 0x8f1bbcdc
    else 0xca62c1d6
  }

  lemma FunctionAndConstant(t: nat, b: Word, c: Word, d: Word)
    ensures RoundFunction(t, b, c, d) == F(t, b, c, d) && RoundConstant(t) == K(t)
  {
    hide Ch, Maj, Choice, Majority, Parity;
    DisjunctionsAreExclusive(b, c, d);
  }

  /** The five words of the running hash. */
  ghost function State(sha: array<Word>): Five
    requires sha.Length == 5
    reads sha
  {
    Five(sha[0], sha[1], sha[2], sha[3], sha[4])
  }

  ghost predicate Scheduled(temp: array<Word>, m: Block, round: nat)
    requires round <= 80 == temp.Length
    reads temp
  {
    forall i | 0 <= i < round :: temp[i] == Schedule(m, i)
  }

  lemma Start(h: Five, m: Block)
    ensures Rounds(h, m, 0) == h
    ensures forall t | 0 <= t < 16 :: Schedule(m, t) == m[t]
  {}

  /** The working variables advance by one round in every pass of the five loops. */
  lemma NextRound(h: Five, m: Block, t: nat, x: Five)
    requires x == Rounds(h, m, t)
    ensures Five(Sum(x.a, RoundFunction(t, x.b, x.c, x.d), x.e, RoundConstant(t), Schedule(m, t)),
                 x.a, Sha1Shift(x.b, 30), x.c, x.d) == Rounds(h, m, t + 1)
  {
    hide Sum, RoundFunction, RoundConstant, Sha1Shift, Round, F, K, Schedule;
    FunctionAndConstant(t, x.b, x.c, x.d);
    MacroIsRound(t, x, RoundFunction(t, x.b, x.c, x.d), RoundConstant(t), Schedule(m, t));
  }

  lemma ExtensionIsSchedule(temp: array<Word>, m: Block, round: nat)
    requires temp.Length == 80 && 16 <= round < 80 && Scheduled(temp, m, round)
    ensures Extension(temp[round - 3], temp[round - 8], temp[round - 14], temp[round - 16]) == Schedule(m, round)
  {
    hide Rotl, Xor, Sha1Shift;
  }

  /** The macro `_shiftswap`. */
  method ShiftSwap(temp: array<Word>, round: nat, a: Word, b: Word, c: Word, d: Word, e: Word, f: Word, v: Word,
                   ghost h: Five, ghost m: Block)
    returns (a': Word, b': Word, c': Word, d': Word, e': Word)
    requires round < 80 == temp.Length && temp[round] == Schedule(m, round)
    requires Five(a, b, c, d, e) == Rounds(h, m, round)
    requires f == RoundFunction(round, b, c, d) && v == RoundConstant(round)
    ensures Five(a', b', c', d', e') == Rounds(h, m, round + 1)
  {
    NextRound(h, m, round, Five(a, b, c, d, e));
    hide *;
    var t := Sum(a, f, e, v, temp[round]);
    e' := d;
    d' := c;
    c' := Sha1Shift(b, 30);
    b' := a;
    a' := t;
  }

  /** The macro `_shiftshiftswap`: extends the schedule by the word that the round then uses. */
  method ShiftShiftSwap(temp: array<Word>, round: nat, a: Word, b: Word, c: Word, d: Word, e: Word, f: Word, v: Word,
                        ghost h: Five, ghost m: Block)
    returns (a': Word, b': Word, c': Word, d': Word, e': Word)
    requires 16 <= round < 80 == temp.Length && Scheduled(temp, m, round)
    requires Five(a, b, c, d, e) == Rounds(h, m, round)
    requires f == RoundFunction(round, b, c, d) && v == RoundConstant(round)
    modifies temp
    ensures Five(a', b', c', d', e') == Rounds(h, m, round + 1)
    ensures Scheduled(temp, m, round + 1)
  {
    ExtensionIsSchedule(temp, m, round);
    hide Rounds, Schedule, Extension, RoundFunction, RoundConstant;
    temp[round] := Extension(temp[round - 3], temp[round - 8], temp[round - 14], temp[round - 16]);
    a', b', c', d', e' := ShiftSwap(temp, round, a, b, c, d, e, f, v, h, m);
  }

  /** The last four of its loops. */
  method ExtendedRounds(temp: array<Word>, a0: Word, b0: Word, c0: Word, d0: Word, e0: Word,
                        ghost h: Five, ghost m: Block)
    returns (a: Word, b: Word, c: Word, d: Word, e: Word)
    requires temp.Length == 80 && Scheduled(temp, m, 16)
    requires Five(a0, b0, c0, d0, e0) == Rounds(h, m, 16)
    modifies temp
    ensures Five(a, b, c, d, e) == Rounds(h, m, 80)
  {
    hide Choice, Parity, Majority, Rounds, Schedule;
    a, b, c, d, e := a0, b0, c0, d0, e0;
    var round := 16;

    while round < 20
      invariant 16 <= round <= 20
      invariant Five(a, b, c, d, e) == Rounds(h, m, round)
      invariant Scheduled(temp, m, round)
    {
      a, b, c, d, e := ShiftShiftSwap(temp, round, a, b, c, d, e, Choice(b, c, d), 0x5a827999, h, m);
      round := round + 1;
    }

    while round < 40
      invariant 20 <= round <= 40
      invariant Five(a, b, c, d, e) == Rounds(h, m, round)
      invariant Scheduled(temp, m, round)
    {
      a, b, c, d, e := ShiftShiftSwap(temp, round, a, b, c, d, e, Parity(b, c, d), 0x6ed9eba1, h, m);
      round := round + 1;
    }

    while round < 60
      invariant 40 <= round <= 60
      invariant Five(a, b, c, d, e) == Rounds(h, m, round)
      invariant Scheduled(temp, m, round)
    {
      a, b, c, d, e := ShiftShiftSwap(temp, round, a, b, c, d, e, Majority(b, c, d), 0x8f1bbcdc, h, m);
      round := round + 1;
    }

    while round < 80
      invariant 60 <= round <= 80
      invariant Five(a, b, c, d, e) == Rounds(h, m, round)
      invariant Scheduled(temp, m, round)
    {
      a, b, c, d, e := ShiftShiftSwap(temp, round, a, b, c, d, e, Parity(b, c, d), 0xca62c1d6, h, m);
      round := round + 1;
    }
  }

  /** `sha1PartHash`: 80 rounds in five loops; the schedule is extended one word ahead of its use. */
  method Sha1PartHash(sha: array<Word>, temp: array<Word>)
    requires sha.Length == 5 && temp.Length == 80 && sha != temp
    modifies sha, temp
    ensures State(sha) == Compress(old(State(sha)), old(temp[..16]))
  {
    hide Choice, Parity, Majority, Plus, Rounds, Schedule;
    ghost var h: Five := State(sha);
    ghost var m: Block := temp[..16];
    var a, b, c, d, e := sha[0], sha[1], sha[2], sha[3], sha[4];
    var round := 0;
    Start(h, m);

    while round < 16
      invariant 0 <= round <= 16
      invariant Five(a, b, c, d, e) == Rounds(h, m, round)
      modifies {}
    {
      a, b, c, d, e := ShiftSwap(temp, round, a, b, c, d, e, Choice(b, c, d), 0x5a827999, h, m);
      round := round + 1;
    }

    a, b, c, d, e := ExtendedRounds(temp, a, b, c, d, e, h, m);
    sha[0] := Plus(sha[0], a);
    sha[1] := Plus(sha[1], b);
    sha[2] := Plus(sha[2], c);
    sha[3] := Plus(sha[3], d);
    sha[4] := Plus(sha[4], e);
  }

  // ----- Bytes into the word buffer -----

  lemma WordsOfConcat(x: seq<Byte>, m: nat, y: seq<Byte>, n: nat)
    requires |x| == 4 * m && |y| == 4 * n
    ensures WordsOf(x + y, m + n) == WordsOf(x, m) + WordsOf(y, n)
  {
    hide BigEndian;
    forall i | 0 <= i < m + n
      ensures WordsOf(x + y, m + n)[i] == (WordsOf(x, m) + WordsOf(y, n))[i]
    {
      if i >= m {
        assert WordAt(x + y, i) == WordAt(y, i - m);
      }
    }
  }

  /** The packer joins the four bytes starting from the last. */
  function JoinFromLast(b0: Byte, b1: Byte, b2: Byte, b3: Byte): Word {
    (b3 as bv32) | ((b2 as bv32) << 8) | ((b1 as bv32) << 16) | ((b0 as bv32) << 24)
  }

  lemma JoinIsBigEndian(b0: Byte, b1: Byte, b2: Byte, b3: Byte)
    ensures JoinFromLast(b0, b1, b2, b3) == BigEndian(b0, b1, b2, b3)
  {}

  /** The inner loop over one full block; returns the advanced `block`. */
  method LoadBlock(data: seq<Byte>, start: nat, temp: array<Word>) returns (block: nat)
    requires start + 64 <= |data| && temp.Length == 80
    modifies temp
    ensures block == start + 64
    ensures temp[..16] == WordsOf(data[start..start + 64], 16)
  {
    hide BigEndian, JoinFromLast;
    block := start;
    var end := block + 64;
    var i := 0;
    ghost var chunk := data[start..start + 64];
    while block < end
      invariant 0 <= i <= 16 && block == start + 4 * i
      invariant forall j | 0 <= j < i :: temp[j] == WordAt(chunk, j)
    {
      JoinIsBigEndian(data[block], data[block + 1], data[block + 2], data[block + 3]);
      temp[i] := JoinFromLast(data[block], data[block + 1], data[block + 2], data[block + 3]);
      i := i + 1;
      block := block + 4;
    }
  }

  /** `word |= byte << ((3 - (last & 3)) << 3)` */
  function OrByte(word: Word, byte: Byte, last: nat): Word {
    match last % 4
    case 0 => word | ((byte as bv32) << 24)
    case 1 => word | ((byte as bv32) << 16)
    case 2 => word | ((byte as bv32) << 8)
    case _ => word | (byte as bv32)
  }

  lemma FirstByteBits(b1: Byte, b2: Byte, b3: Byte, byte: Byte)
    ensures BigEndian(0, b1, b2, b3) | ((byte as bv32) << 24) == BigEndian(byte, b1, b2, b3)
  {}

  lemma FirstByte(b1: Byte, b2: Byte, b3: Byte, byte: Byte, last: nat)
    requires last % 4 == 0
    ensures OrByte(BigEndian(0, b1, b2, b3), byte, last) == BigEndian(byte, b1, b2, b3)
  {
    hide BigEndian;
    FirstByteBits(b1, b2, b3, byte);
  }

  lemma SecondByteBits(b0: Byte, b2: Byte, b3: Byte, byte: Byte)
    ensures BigEndian(b0, 0, b2, b3) | ((byte as bv32) << 16) == BigEndian(b0, byte, b2, b3)
  {}

  lemma SecondByte(b0: Byte, b2: Byte, b3: Byte, byte: Byte, last: nat)
    requires last % 4 == 1
    ensures OrByte(BigEndian(b0, 0, b2, b3), byte, last) == BigEndian(b0, byte, b2, b3)
  {
    hide BigEndian;
    SecondByteBits(b0, b2, b3, byte);
  }

  lemma ThirdByteBits(b0: Byte, b1: Byte, b3: Byte, byte: Byte)
    ensures BigEndian(b0, b1, 0, b3) | ((byte as bv32) << 8) == BigEndian(b0, b1, byte, b3)
  {}

  lemma ThirdByte(b0: Byte, b1: Byte, b3: Byte, byte: Byte, last: nat)
    requires last % 4 == 2
    ensures OrByte(BigEndian(b0, b1, 0, b3), byte, last) == BigEndian(b0, b1, byte, b3)
  {
    hide BigEndian;
    ThirdByteBits(b0, b1, b3, byte);
  }

  lemma FourthByteBits(b0: Byte, b1: Byte, b2: Byte, byte: Byte)
    ensures BigEndian(b0, b1, b2, 0) | (byte as bv32) == BigEndian(b0, b1, b2, byte)
  {}

  lemma FourthByte(b0: Byte, b1: Byte, b2: Byte, byte: Byte, last: nat)
    requires last % 4 == 3
    ensures OrByte(BigEndian(b0, b1, b2, 0), byte, last) == BigEndian(b0, b1, b2, byte)
  {
    hide BigEndian;
    FourthByteBits(b0, b1, b2, byte);
  }

  lemma OrByteInWord(bytes: seq<Byte>, last: nat, byte: Byte)
    requires |bytes| == 64 && last < 64 && bytes[last] == 0
    ensures WordAt(bytes[last := byte], last / 4) == OrByte(WordAt(bytes, last / 4), byte, last)
  {
    hide BigEndian, OrByte;
    var w := last / 4;
    var b0, b1, b2, b3 := bytes[4 * w], bytes[4 * w + 1], bytes[4 * w + 2], bytes[4 * w + 3];
    match last % 4
    case 0 => FirstByte(b1, b2, b3, byte, last);
    case 1 => SecondByte(b0, b2, b3, byte, last);
    case 2 => ThirdByte(b0, b1, b3, byte, last);
    case _ => FourthByte(b0, b1, b2, byte, last);
  }

  lemma OtherWords(bytes: seq<Byte>, last: nat, byte: Byte, j: nat)
    requires |bytes| == 64 && last < 64 && j < 16 && j != last / 4
    ensures WordAt(bytes[last := byte], j) == WordAt(bytes, j)
  {
    hide BigEndian;
  }

  /** Oring a byte into its word replaces a zero byte of the buffer. */
  lemma OrByteReplaces(bytes: seq<Byte>, last: nat, byte: Byte)
    requires |bytes| == 64 && last < 64 && bytes[last] == 0
    ensures WordsOf(bytes[last := byte], 16)
            == WordsOf(bytes, 16)[last / 4 := OrByte(WordsOf(bytes, 16)[last / 4], byte, last)]
  {
    hide WordAt, OrByte;
    OrByteInWord(bytes, last, byte);
    forall j | 0 <= j < 16 && j != last / 4
      ensures WordAt(bytes[last := byte], j) == WordAt(bytes, j)
    {
      OtherWords(bytes, last, byte, j);
    }
  }

  /** The buffer's bytes after `last` passes of the loop. */
  function Filled(data: seq<Byte>, block: nat, last: nat): (bytes: seq<Byte>)
    requires block + last <= |data| && last <= 64
    ensures |bytes| == 64
    ensures last < 64 ==> bytes[last] == 0
    ensures last < 64 && block + last < |data| ==> Filled(data, block, last + 1) == bytes[last := data[block + last]]
    decreases 64 - last
  {
    data[block..block + last] + Zeros(64 - last)
  }

  /** The last bytes of the message, the one bit and zeros: 64 bytes. */
  function Tail(data: seq<Byte>, block: nat): (bytes: seq<Byte>)
    requires block <= |data| < block + 64
    ensures |bytes| == 64
    ensures bytes == Filled(data, block, |data| - block)[|data| - block := 0x80]
  {
    data[block..] + [0x80] + Zeros(63 - (|data| - block))
  }

  /** `temp[last >> 2] |= byte << ((3 - (last & 3)) << 3)` */
  method OrInto(temp: array<Word>, last: nat, byte: Byte)
    requires temp.Length == 80 && last < 64
    modifies temp
    ensures temp[..16] == old(temp[..16])[last / 4 := OrByte(old(temp[..16])[last / 4], byte, last)]
  {
    hide OrByte;
    temp[last / 4] := OrByte(temp[last / 4], byte, last);
  }

  /** The `memset`, the loop over `last` and the one bit behind it. */
  method LoadTail(data: seq<Byte>, block: nat, temp: array<Word>)
    requires block <= |data| < block + 64 && temp.Length == 80
    modifies temp
    ensures temp[..16] == WordsOf(Tail(data, block), 16)
  {
    hide WordsOf, OrByte, Filled, Tail;
    var end := |data| - block;
    ClearBuffer(temp);
    var last := 0;
    assert Filled(data, block, 0) == Zeros(64) by { NothingFilled(data, block); }
    while last < end
      invariant last <= end
      invariant temp[..16] == WordsOf(Filled(data, block, last), 16)
    {
      OrByteReplaces(Filled(data, block, last), last, data[last + block]);
      OrInto(temp, last, data[last + block]);
      last := last + 1;
    }
    OrByteReplaces(Filled(data, block, last), last, 0x80);
    OrInto(temp, last, 0x80);
  }

  lemma NothingFilled(data: seq<Byte>, block: nat)
    requires block <= |data|
    ensures Filled(data, block, 0) == Zeros(64)
  {}

  lemma ZeroWord()
    ensures BigEndian(0, 0, 0, 0) == 0
  {}

  /** `memset(temp, 0, sizeof(uint32) * 16)` */
  method ClearBuffer(temp: array<Word>)
    requires temp.Length == 80
    modifies temp
    ensures temp[14] == 0
    ensures temp[..16] == WordsOf(Zeros(64), 16)
    ensures temp[..14] == WordsOf(Zeros(56), 14)
  {
    ZeroWord();
    hide BigEndian;
    forall j | 0 <= j < 16 {
      temp[j] := 0;
    }
  }

  // ----- The whole message -----

  lemma {:induction false} AppendBlock(h: Five, words: seq<Word>, n: nat, last: Block)
    requires |words| == 16 * n
    ensures HashWords(h, words + last, n + 1) == Compress(HashWords(h, words, n), last)
    decreases n
  {
    hide Compress;
    if n == 0 {
      assert words + last == last && last[..16] == last && last[16..] == [];
    } else {
      assert (words + last)[..16] == words[..16] && (words + last)[16..] == words[16..] + last;
      AppendBlock(Compress(h, words[..16]), words[16..], n - 1, last);
    }
  }

  /** `len << 3` in 32 bits. */
  function LengthWord(len: nat): Word { WordOf(8 * len % WORD_RANGE) }

  /** How the bytes behind the last full block continue the extended message. */
  lemma ExtendedTail(data: seq<Byte>, n: nat)
    requires 64 * n <= |data| < 64 * n + 64
    ensures |data| < 64 * n + 56 ==>
              WholeBlocks(|data|) == n && Extend(data) == data[..64 * n] + Tail(data, 64 * n)[..56]
    ensures |data| >= 64 * n + 56 ==>
              WholeBlocks(|data|) == n + 1 && Extend(data) == data[..64 * n] + Tail(data, 64 * n) + Zeros(56)
  {}

  lemma WordsOfPrefix(tail: seq<Byte>)
    requires |tail| == 64
    ensures WordsOf(tail[..56], 14) == WordsOf(tail, 16)[..14]
  {
    assert tail == tail[..56] + tail[56..];
    WordsOfConcat(tail[..56], 14, tail[56..], 2);
  }

  /** How the one or two last blocks continue the padded message. */
  lemma PaddedTail(data: seq<Byte>, n: nat, low: Word)
    requires 64 * n <= |data| < 64 * n + 64
    ensures |data| < 64 * n + 56 ==>
              WholeBlocks(|data|) == n &&
              PadWith(data, 0, low)
              == WordsOf(data[..64 * n], 16 * n) + (WordsOf(Tail(data, 64 * n), 16)[..14] + [0, low])
    ensures |data| >= 64 * n + 56 ==>
              WholeBlocks(|data|) == n + 1 &&
              PadWith(data, 0, low)
              == WordsOf(data[..64 * n], 16 * n) + WordsOf(Tail(data, 64 * n), 16) + (WordsOf(Zeros(56), 14) + [0, low])
  {
    ExtendedTail(data, n);
    hide WordsOf, WholeBlocks, Extend, Tail;
    var full, tail := data[..64 * n], Tail(data, 64 * n);
    if |data| < 64 * n + 56 {
      WordsOfConcat(full, 16 * n, tail[..56], 14);
      WordsOfPrefix(tail);
    } else {
      WordsOfConcat(full + tail, 16 * n + 16, Zeros(56), 14);
      WordsOfConcat(full, 16 * n, tail, 16);
    }
  }

  /** In the one-block case the word before the length is still zero. */
  lemma TailEndsInZeros(data: seq<Byte>, block: nat)
    requires block <= |data| < block + 56
    ensures WordsOf(Tail(data, block), 16)[14] == 0
  {
    ZeroWord();
    hide BigEndian;
    var tail := Tail(data, block);
    assert tail[56] == 0 && tail[57] == 0 && tail[58] == 0 && tail[59] == 0;
  }

  lemma OutputShift(h: Five, i: nat)
    requires i < 20
    ensures Digest(h)[i] == EightBits([h.a, h.b, h.c, h.d, h.e][i / 4], 8 * ((3 - i) % 4))
  {
    hide EightBits;
    assert (3 - i) % 4 == 3 - i % 4;
  }

  /** The output loop, from byte 19 down to byte 0: `(sha[i >> 2] >> (((3 - i) & 0x03) << 3)) & 0xFF`. */
  method StoreDigest(sha: array<Word>, dest: array<Byte>)
    requires sha.Length == 5 && dest.Length >= 20
    modifies dest
    ensures dest[..20] == Digest(State(sha))
    ensures dest[20..] == old(dest[20..])
  {
    hide EightBits, Digest;
    ghost var words, digest := [sha[0], sha[1], sha[2], sha[3], sha[4]], Digest(State(sha));
    var i := 19;
    while i >= 0
      invariant -1 <= i <= 19
      invariant forall j | 0 <= j < 5 :: sha[j] == words[j]
      invariant forall j | i < j < 20 :: dest[j] == digest[j]
      invariant dest[20..] == old(dest[20..])
    {
      OutputShift(State(sha), i);
      dest[i] := EightBits(sha[i / 4], 8 * ((3 - i) % 4));
      i := i - 1;
    }
  }

  /** The running hash after all blocks of the message as the packer pads it. */
  function PackerState(data: seq<Byte>): Five {
    HashWords(INITIAL, PadWith(data, 0, LengthWord(|data|)), WholeBlocks(|data|) + 1)
  }

  /** The loop over the full blocks; `n` counts them. */
  method HashFullBlocks(data: seq<Byte>, sha: array<Word>, temp: array<Word>) returns (block: nat, ghost n: nat)
    requires sha.Length == 5 && temp.Length == 80 && sha != temp && State(sha) == INITIAL
    modifies sha, temp
    ensures block == 64 * n && block <= |data| < block + 64
    ensures State(sha) == HashWords(INITIAL, WordsOf(data[..block], 16 * n), n)
  {
    hide Compress, WordsOf;
    block, n := 0, 0;
    while block + 64 <= |data|
      invariant block == 64 * n && block <= |data|
      invariant State(sha) == HashWords(INITIAL, WordsOf(data[..block], 16 * n), n)
    {
      ghost var chunk := data[block..block + 64];
      WordsOfConcat(data[..block], 16 * n, chunk, 16);
      assert data[..block + 64] == data[..block] + chunk;
      AppendBlock(INITIAL, WordsOf(data[..block], 16 * n), n, WordsOf(chunk, 16));
      block := LoadBlock(data, block, temp);
      n := n + 1;
      Sha1PartHash(sha, temp);
    }
  }

  /** The one or two blocks behind them. */
  method HashTail(data: seq<Byte>, block: nat, sha: array<Word>, temp: array<Word>, ghost n: nat)
    requires sha.Length == 5 && temp.Length == 80 && sha != temp
    requires block == 64 * n && block <= |data| < block + 64
    requires State(sha) == HashWords(INITIAL, WordsOf(data[..block], 16 * n), n)
    modifies sha, temp
    ensures State(sha) == PackerState(data)
  {
    hide Compress, LengthWord, WordsOf, HashWords, Tail, PadWith, WholeBlocks;
    ghost var words, count := WordsOf(data[..block], 16 * n), n;
    PaddedTail(data, n, LengthWord(|data|));
    var end := |data| - block;
    LoadTail(data, block, temp);
    if end >= 56 {
      AppendBlock(INITIAL, words, n, temp[..16]);
      words, count := words + temp[..16], n + 1;
      Sha1PartHash(sha, temp);
      ClearBuffer(temp);
    } else {
      TailEndsInZeros(data, block);
      assert temp[14] == temp[..16][14];
      assert temp[..14] == temp[..16][..14];
    }
    temp[15] := LengthWord(|data|);
    assert temp[..16] == temp[..14] + [0, LengthWord(|data|)];
    AppendBlock(INITIAL, words, count, temp[..16]);
    Sha1PartHash(sha, temp);
  }

  /**
   * `hashSha1`. The packer's `uint32 block + 64` wraps for the last 64 lengths below 2^32, where its
   * block loop would not end; every shorter length is covered.
   */
  method HashSha1(data: seq<Byte>, dest: array<Byte>)
    requires |data| < WORD_RANGE - 64
    requires dest.Length >= 20
    modifies dest
    ensures dest[..20] == Digest(PackerState(data))
    ensures dest[20..] == old(dest[20..])
    ensures |data| < 0x2000_0000 ==> dest[..20] == Sha1(data)
  {
    PackerDigest(data);
    var temp := new Word[80];
    var sha := new Word[5] [0x67452301, 0xefcdab89, 0x98badcfe, 0x10325476, 0xc3d2e1f0];
    hide Digest, HashWords, Sha1, PackerState;
    var block, n := HashFullBlocks(data, sha, temp);
    HashTail(data, block, sha, temp, n);
    StoreDigest(sha, dest);
  }

  lemma ZeroWordOf(n: nat)
    requires n < WORD_RANGE
    ensures WordOf(n) == 0 <==> n == 0
  {}

  /** The packer writes only the low length word, so it pads by the standard exactly below 2^29 bytes. */
  lemma PackerPadding(data: seq<Byte>)
    requires 8 * |data| < WORD_RANGE * WORD_RANGE
    ensures PadWith(data, 0, LengthWord(|data|)) == Pad(data) <==> |data| < 0x2000_0000
  {
    hide WordsOf, WordOf, WholeBlocks, Extend;
    var n := 16 * WholeBlocks(|data|) + 14;
    var high := 8 * |data| / WORD_RANGE;
    ZeroWordOf(high);
    assert PadWith(data, 0, LengthWord(|data|))[n] == 0;
    assert Pad(data)[n] == WordOf(high);
  }

  lemma PackerDigest(data: seq<Byte>)
    requires |data| < WORD_RANGE - 64
    ensures |data| < 0x2000_0000 ==> Digest(PackerState(data)) == Sha1(data)
  {
    hide Digest, HashWords, PadWith, Pad;
    PackerPadding(data);
  }
}
