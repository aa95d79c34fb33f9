/** SHA-1 as FIPS 180-4 states it. */
module Sha1Spec {

  type Word = bv32

  // Section 2.2.2: addition modulo 2^32 and exclusive or.
  function Plus(x: Word, y: Word): Word { x + y }
  function Xor(x: Word, y: Word): Word { x ^ y }

  /** Section 3.2: circular left shift. */
  function Rotl(n: bv32, x: Word): Word
    requires n <= 32
  {
    (x << n) | (x >> (32 - n))
  }

  // Section 4.1.1
  function Ch(x: Word, y: Word, z: Word): Word { (x & y) ^ (!x & z) }
  function Parity(x: Word, y: Word, z: Word): Word { Xor(Xor(x, y), z) }
  function Maj(x: Word, y: Word, z: Word): Word { (x & y) ^ (x & z) ^ (y & z) }

  function F(t: nat, x: Word, y: Word, z: Word): Word {
    if t < 20 then Ch(x, y, z)
    else if t < 40 then Parity(x, y, z)
    else if t < 60 then Maj(x, y, z)
    else Parity(x, y, z)
  }

  // Section 4.2.1
  function K(t: nat): Word {
    if t < 20 then 0x5a827999
    else if t < 40 then 0x6ed9eba1
    else if t < 60 then 0x8f1bbcdc
    else 0xca62c1d6
  }

  /** Section 5.3.1 and the working variables of section 6.1.2. */
  datatype Five = Five(a: Word, b: Word, c: Word, d: Word, e: Word)

  const INITIAL := Five(0x67452301, 0xefcdab89, 0x98badcfe, 0x10325476, 0xc3d2e1f0)

  type Block = b: seq<Word> | |b| == 16 witness seq(16, _ => 0)

  /** Section 6.1.2, step 1: the message schedule. */
  function Schedule(m: Block, t: nat): Word {
    if t < 16 then m[t]
    else
      Rotl(1, Xor(Xor(Xor(Schedule(m, t - 3), Schedule(m, t - 8)), Schedule(m, t - 14)), Schedule(m, t - 16)))
  }

  /** Step 3: one round. */
  function Round(t: nat, v: Five, w: Word): Five {
    var temporary := Plus(Plus(Plus(Plus(Rotl(5, v.a), F(t, v.b, v.c, v.d)), v.e), K(t)), w);
    Five(temporary, v.a, Rotl(30, v.b), v.c, v.d)
  }

  /** The working variables after rounds 0 .. t-1. */
  function Rounds(h: Five, m: Block, t: nat): Five {
    if t == 0 then h else Round(t - 1, Rounds(h, m, t - 1), Schedule(m, t - 1))
  }

  /** Steps 2 to 4: the next intermediate hash value. */
  function Compress(h: Five, m: Block): Five {
    var v := Rounds(h, m, 80);
    Five(Plus(h.a, v.a), Plus(h.b, v.b), Plus(h.c, v.c), Plus(h.d, v.d), Plus(h.e, v.e))
  }

  type Byte = bv8

  /** Section 3.1: four bytes, most significant first, as one word. */
  function BigEndian(b0: Byte, b1: Byte, b2: Byte, b3: Byte): Word {
    ((b0 as bv32) << 24) | ((b1 as bv32) << 16) | ((b2 as bv32) << 8) | (b3 as bv32)
  }

  function WordAt(bytes: seq<Byte>, i: nat): Word
    requires 4 * i + 4 <= |bytes|
  {
    BigEndian(bytes[4 * i], bytes[4 * i + 1], bytes[4 * i + 2], bytes[4 * i + 3])
  }

  /** `n` words read from `4 n` bytes. */
  function WordsOf(bytes: seq<Byte>, n: nat): (words: seq<Word>)
    requires |bytes| == 4 * n
    ensures |words| == n
  {
    seq(n, i requires 0 <= i < n => WordAt(bytes, i))
  }

  function Zeros(n: nat): seq<Byte> { seq(n, _ => 0) }

  /** The number of whole blocks before the block that ends in the length. */
  function WholeBlocks(length: nat): nat { (length + 8) / 64 }

  /** Section 5.1.1: the one bit and the fewest zeros that leave eight bytes of the last block. */
  function Extend(message: seq<Byte>): (bytes: seq<Byte>)
    ensures |bytes| == 64 * WholeBlocks(|message|) + 56
    ensures |bytes| < |message| + 1 + 64
  {
    message + [0x80] + Zeros(64 * WholeBlocks(|message|) + 55 - |message|)
  }

  /** Section 5.1.1: the padded message, given the 64-bit length block as two words. */
  function PadWith(message: seq<Byte>, high: Word, low: Word): (words: seq<Word>)
    ensures |words| == 16 * (WholeBlocks(|message|) + 1)
  {
    WordsOf(Extend(message), 16 * WholeBlocks(|message|) + 14) + [high, low]
  }

  const WORD_RANGE: nat := 0x1_0000_0000

  /** Section 3.1: an integer below 2^32 as a word. */
  function WordOf(n: nat): Word
    requires n < WORD_RANGE
  {
    n as bv32
  }

  /** Section 5.1.1: a message of fewer than 2^64 bits is closed by its length in bits. */
  function Pad(message: seq<Byte>): (words: seq<Word>)
    requires 8 * |message| < WORD_RANGE * WORD_RANGE
    ensures |words| == 16 * (WholeBlocks(|message|) + 1)
  {
    var bits := 8 * |message|;
    PadWith(message, WordOf(bits / WORD_RANGE), WordOf(bits % WORD_RANGE))
  }

  /** Sections 5.2.1 and 6.1.2: the hash value after `n` 512-bit blocks. */
  function HashWords(h: Five, words: seq<Word>, n: nat): Five
    requires |words| == 16 * n
    decreases n
  {
    if n == 0 then h else HashWords(Compress(h, words[..16]), words[16..], n - 1)
  }

  /** The eight bits of a word that start `shift` bits from the right. */
  function EightBits(w: Word, shift: nat): Byte
    requires shift <= 24
  {
    ((w >> shift) & 0xff) as bv8
  }

  function ByteOf(w: Word, k: nat): Byte
    requires k < 4
  {
    EightBits(w, 24 - 8 * k)
  }

  /** Section 6.1.2: the 160-bit digest, the five words one after the other, high bytes first. */
  function Digest(h: Five): (bytes: seq<Byte>)
    ensures |bytes| == 20
  {
    seq(20, i requires 0 <= i < 20 => ByteOf([h.a, h.b, h.c, h.d, h.e][i / 4], i % 4))
  }

  /** SHA-1 of a message. */
  function Sha1(message: seq<Byte>): seq<Byte>
    requires 8 * |message| < WORD_RANGE * WORD_RANGE
  {
    Digest(HashWords(INITIAL, Pad(message), WholeBlocks(|message|) + 1))
  }
}
