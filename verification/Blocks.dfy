/** 32-bit words and 128-bit blocks as big-endian groups of bytes: the first byte
    of a word or block is its most significant one (bits 31:24 or 127:120). */
module Blocks {
  import opened Gf256

  datatype Word = Word(b0: bv8, b1: bv8, b2: bv8, b3: bv8)

  datatype Block = Block(w0: Word, w1: Word, w2: Word, w3: Word)

  const ZERO_WORD := Word(0, 0, 0, 0)
  const ZERO_BLOCK := Block(ZERO_WORD, ZERO_WORD, ZERO_WORD, ZERO_WORD)

  // ----- Exclusive or -----

  function XorWord(a: Word, b: Word): Word {
    Word(Add(a.b0, b.b0), Add(a.b1, b.b1), Add(a.b2, b.b2), Add(a.b3, b.b3))
  }

  function Xor(a: Block, b: Block): Block {
    Block(XorWord(a.w0, b.w0), XorWord(a.w1, b.w1), XorWord(a.w2, b.w2), XorWord(a.w3, b.w3))
  }

  lemma XorWordLaws(a: Word, b: Word)
    ensures XorWord(a, b) == XorWord(b, a)
    ensures XorWord(XorWord(a, b), b) == a
  {
    AddCancels(a.b0, b.b0);
    AddCancels(a.b1, b.b1);
    AddCancels(a.b2, b.b2);
    AddCancels(a.b3, b.b3);
    hide Add;
  }

  lemma AddCancels(a: bv8, b: bv8)
    ensures Add(a, b) == Add(b, a)
    ensures Add(Add(a, b), b) == a
  {
    AddLaws(a, b, b);
    AddLaws(b, b, b);
    hide Add;
  }

  /** Exclusive or is commutative and undoes itself. */
  lemma XorLaws(a: Block, b: Block)
    ensures Xor(a, b) == Xor(b, a)
    ensures Xor(Xor(a, b), b) == a
  {
    XorWordLaws(a.w0, b.w0);
    XorWordLaws(a.w1, b.w1);
    XorWordLaws(a.w2, b.w2);
    XorWordLaws(a.w3, b.w3);
    hide XorWord;
  }

  /** So equal sums with a common term have equal other terms. */
  lemma XorInjective(a: Block, b: Block, c: Block)
    requires Xor(a, c) == Xor(b, c)
    ensures a == b
  {
    hide Xor;
    XorLaws(a, c);
    XorLaws(b, c);
  }

  // ----- Bytes -----

  /** Byte i, in FIPS-197 order: state row i % 4, column i / 4. */
  function ByteAt(s: Block, i: nat): bv8
    requires i < 16
  {
    var w := if i < 4 then s.w0 else if i < 8 then s.w1 else if i < 12 then s.w2 else s.w3;
    if i % 4 == 0 then w.b0 else if i % 4 == 1 then w.b1 else if i % 4 == 2 then w.b2 else w.b3
  }

  lemma BytesOfWords(b: Block)
    ensures ByteAt(b, 0) == b.w0.b0 && ByteAt(b, 1) == b.w0.b1 && ByteAt(b, 2) == b.w0.b2 && ByteAt(b, 3) == b.w0.b3
    ensures ByteAt(b, 4) == b.w1.b0 && ByteAt(b, 5) == b.w1.b1 && ByteAt(b, 6) == b.w1.b2 && ByteAt(b, 7) == b.w1.b3
    ensures ByteAt(b, 8) == b.w2.b0 && ByteAt(b, 9) == b.w2.b1 && ByteAt(b, 10) == b.w2.b2 && ByteAt(b, 11) == b.w2.b3
    ensures ByteAt(b, 12) == b.w3.b0 && ByteAt(b, 13) == b.w3.b1 && ByteAt(b, 14) == b.w3.b2 && ByteAt(b, 15) == b.w3.b3
  {
  }

  lemma XorAddsBytes(a: Block, b: Block, i: nat)
    requires i < 16
    ensures ByteAt(Xor(a, b), i) == Add(ByteAt(a, i), ByteAt(b, i))
  {
    hide ByteAt, Add;
    BytesOfWords(a);
    BytesOfWords(b);
    BytesOfWords(Xor(a, b));
    match i
    case 0 => case 1 => case 2 => case 3 => case 4 => case 5 => case 6 => case 7 =>
    case 8 => case 9 => case 10 => case 11 => case 12 => case 13 => case 14 => case 15 =>
  }

  /** Exclusive or is taken byte by byte. */
  lemma XorBytes(a: Block, b: Block, i: nat)
    requires i < 16
    ensures ByteAt(Xor(a, b), i) == ByteAt(a, i) ^ ByteAt(b, i)
  {
    hide Xor, ByteAt;
    XorAddsBytes(a, b, i);
  }

  function WordAt(s: seq<bv8>, i: nat): Word
    requires i + 4 <= |s|
  {
    Word(s[i], s[i + 1], s[i + 2], s[i + 3])
  }

  /** The block whose bytes are `s`, first byte most significant. */
  function BlockOf(s: seq<bv8>): (b: Block)
    requires |s| == 16
    ensures forall i | 0 <= i < 16 :: ByteAt(b, i) == s[i]
  {
    Block(WordAt(s, 0), WordAt(s, 4), WordAt(s, 8), WordAt(s, 12))
  }

  lemma BlockEquality(a: Block, b: Block)
    requires forall i | 0 <= i < 16 :: ByteAt(a, i) == ByteAt(b, i)
    ensures a == b
  {
    assert forall i | 0 <= i < 16 :: ByteAt(a, i) == ByteAt(b, i);
    assert ByteAt(a, 0) == ByteAt(b, 0) && ByteAt(a, 1) == ByteAt(b, 1) && ByteAt(a, 2) == ByteAt(b, 2) && ByteAt(a, 3) == ByteAt(b, 3);
    assert ByteAt(a, 4) == ByteAt(b, 4) && ByteAt(a, 5) == ByteAt(b, 5) && ByteAt(a, 6) == ByteAt(b, 6) && ByteAt(a, 7) == ByteAt(b, 7);
    assert ByteAt(a, 8) == ByteAt(b, 8) && ByteAt(a, 9) == ByteAt(b, 9) && ByteAt(a, 10) == ByteAt(b, 10) && ByteAt(a, 11) == ByteAt(b, 11);
    assert ByteAt(a, 12) == ByteAt(b, 12) && ByteAt(a, 13) == ByteAt(b, 13) && ByteAt(a, 14) == ByteAt(b, 14) && ByteAt(a, 15) == ByteAt(b, 15);
  }

  // ----- Packing into machine words -----

  function Pack(w: Word): bv32 {
    ((w.b0 as bv32) << 24) | ((w.b1 as bv32) << 16) | ((w.b2 as bv32) << 8) | (w.b3 as bv32)
  }

  function Unpack(x: bv32): Word {
    Word(((x >> 24) & 0xff) as bv8, ((x >> 16) & 0xff) as bv8, ((x >> 8) & 0xff) as bv8, (x & 0xff) as bv8)
  }

  lemma PackUnpack(x: bv32)
    ensures Pack(Unpack(x)) == x
  {
  }

  lemma UnpackPack(w: Word)
    ensures Unpack(Pack(w)) == w
  {
  }

  // ----- The block as a 128-bit number -----

  const TWO_32 := 0x1_0000_0000
  const TWO_128 := 0x1_0000_0000_0000_0000_0000_0000_0000_0000

  function Number(b: bv8): (n: nat)
    ensures n < 256
  {
    b as int
  }

  /** The byte with a given value, from its binary digits. */
  function Byte(n: nat): (b: bv8)
    requires n < 256
    ensures Number(b) == n
  {
    if n == 0 then 0
    else
      DoubleNumber(Byte(n / 2));
      (Byte(n / 2) << 1) | (if n % 2 == 1 then 1 else 0)
  }

  lemma DoubleNumber(b: bv8)
    requires Number(b) < 128
    ensures Number((b << 1) | 0) == 2 * Number(b) && Number((b << 1) | 1) == 2 * Number(b) + 1
  {
    assert b < 0x80;
  }

  function WordValue(w: Word): (n: nat)
    ensures n < TWO_32
  {
    ((Number(w.b0) * 256 + Number(w.b1)) * 256 + Number(w.b2)) * 256 + Number(w.b3)
  }

  function WordOfValue(n: nat): Word
    requires n < TWO_32
  {
    Word(Byte(n / 256 / 256 / 256), Byte(n / 256 / 256 % 256), Byte(n / 256 % 256), Byte(n % 256))
  }

  function Value(b: Block): (n: nat)
    ensures n < TWO_128
  {
    ((WordValue(b.w0) * TWO_32 + WordValue(b.w1)) * TWO_32 + WordValue(b.w2)) * TWO_32 + WordValue(b.w3)
  }

  function OfValue(n: nat): Block
    requires n < TWO_128
  {
    Block(WordOfValue(n / TWO_32 / TWO_32 / TWO_32), WordOfValue(n / TWO_32 / TWO_32 % TWO_32),
          WordOfValue(n / TWO_32 % TWO_32), WordOfValue(n % TWO_32))
  }

  /** A block is the big-endian number of its bytes: byte i counts 256 to the 15 - i. */
  lemma ValueIsPlaceValue(b: Block)
    ensures Value(b) ==
      0x1000000000000000000000000000000 * Number(ByteAt(b, 0)) + 0x10000000000000000000000000000 * Number(ByteAt(b, 1)) +
      0x100000000000000000000000000 * Number(ByteAt(b, 2)) + 0x1000000000000000000000000 * Number(ByteAt(b, 3)) +
      0x10000000000000000000000 * Number(ByteAt(b, 4)) + 0x100000000000000000000 * Number(ByteAt(b, 5)) +
      0x1000000000000000000 * Number(ByteAt(b, 6)) + 0x10000000000000000 * Number(ByteAt(b, 7)) +
      0x100000000000000 * Number(ByteAt(b, 8)) + 0x1000000000000 * Number(ByteAt(b, 9)) +
      0x10000000000 * Number(ByteAt(b, 10)) + 0x100000000 * Number(ByteAt(b, 11)) +
      0x1000000 * Number(ByteAt(b, 12)) + 0x10000 * Number(ByteAt(b, 13)) +
      0x100 * Number(ByteAt(b, 14)) + Number(ByteAt(b, 15))
  {
    hide ByteAt, Number;
    BytesOfWords(b);
  }

  lemma ByteNumber(b: bv8)
    ensures Byte(Number(b)) == b
  {
    NumberInjective(Byte(Number(b)), b);
  }

  lemma NumberInjective(a: bv8, b: bv8)
    requires Number(a) == Number(b)
    ensures a == b
  {
  }

  lemma SplitByte(n: nat, a: nat, b: nat)
    requires n == a * 256 + b && b < 256
    ensures n / 256 == a && n % 256 == b
  {
  }

  lemma SplitWord(n: nat, a: nat, b: nat)
    requires n == a * TWO_32 + b && b < TWO_32
    ensures n / TWO_32 == a && n % TWO_32 == b
  {
  }

  lemma WordValueRoundTrip(w: Word)
    ensures WordOfValue(WordValue(w)) == w
  {
    hide Byte, Number;
    var n0 := Number(w.b0);
    var n1 := n0 * 256 + Number(w.b1);
    var n2 := n1 * 256 + Number(w.b2);
    SplitByte(n1, n0, Number(w.b1));
    SplitByte(n2, n1, Number(w.b2));
    SplitByte(WordValue(w), n2, Number(w.b3));
    ByteNumber(w.b0);
    ByteNumber(w.b1);
    ByteNumber(w.b2);
    ByteNumber(w.b3);
  }

  lemma WordOfValueRoundTrip(n: nat)
    requires n < TWO_32
    ensures WordValue(WordOfValue(n)) == n
  {
    hide Byte, Number;
  }

  lemma ValueRoundTrip(b: Block)
    ensures OfValue(Value(b)) == b
  {
    hide WordValue, WordOfValue;
    var n0 := WordValue(b.w0);
    var n1 := n0 * TWO_32 + WordValue(b.w1);
    var n2 := n1 * TWO_32 + WordValue(b.w2);
    SplitWord(n1, n0, WordValue(b.w1));
    SplitWord(n2, n1, WordValue(b.w2));
    SplitWord(Value(b), n2, WordValue(b.w3));
    WordValueRoundTrip(b.w0);
    WordValueRoundTrip(b.w1);
    WordValueRoundTrip(b.w2);
    WordValueRoundTrip(b.w3);
  }

  lemma OfValueRoundTrip(n: nat)
    requires n < TWO_128
    ensures Value(OfValue(n)) == n
  {
    WordOfValueRoundTrip(n / TWO_32 / TWO_32 / TWO_32);
    WordOfValueRoundTrip(n / TWO_32 / TWO_32 % TWO_32);
    WordOfValueRoundTrip(n / TWO_32 % TWO_32);
    WordOfValueRoundTrip(n % TWO_32);
    hide WordValue, WordOfValue;
  }

  /** Adding n to a 128-bit register, which wraps around. */
  function Advance(b: Block, n: nat): Block {
    OfValue(Wrap(Value(b) + n))
  }

  function Wrap(n: nat): (r: nat)
    ensures r < TWO_128
  {
    n % TWO_128
  }

  lemma WrapSum(m: nat, n: nat)
    ensures Wrap(Wrap(m) + n) == Wrap(m + n)
    ensures m < TWO_128 ==> Wrap(m) == m
  {
  }

  /** The sum modulo 2^128. */
  lemma AdvanceAdds(b: Block, n: nat)
    ensures Value(Advance(b, n)) == (Value(b) + n) % 0x1_0000_0000_0000_0000_0000_0000_0000_0000
    ensures Advance(b, n) == OfValue((Value(b) + n) % 0x1_0000_0000_0000_0000_0000_0000_0000_0000)
  {
    hide Value, OfValue;
    OfValueRoundTrip(Wrap(Value(b) + n));
  }

  lemma AdvanceTwice(b: Block, m: nat, n: nat)
    ensures Advance(Advance(b, m), n) == Advance(b, m + n)
    ensures Advance(b, 0) == b
  {
    hide Value, OfValue, Wrap;
    OfValueRoundTrip(Wrap(Value(b) + m));
    ValueRoundTrip(b);
    WrapSum(Value(b) + m, n);
    WrapSum(Value(b), 0);
  }
}
