/** The round transformations of FIPS-197 sections 5.1 and 5.3 as the core's
    combinational functions, and the fact that each undoes its inverse. */
module Rounds {
  import opened Gf256
  import opened SBox
  import opened Blocks

  // ----- SubBytes -----

  function SubWord(w: Word): Word {
    Word(SboxFwd(w.b0), SboxFwd(w.b1), SboxFwd(w.b2), SboxFwd(w.b3))
  }

  function InvSubWord(w: Word): Word {
    Word(SboxInv(w.b0), SboxInv(w.b1), SboxInv(w.b2), SboxInv(w.b3))
  }

  function SubBytes(s: Block): Block {
    Block(SubWord(s.w0), SubWord(s.w1), SubWord(s.w2), SubWord(s.w3))
  }

  function InvSubBytes(s: Block): Block {
    Block(InvSubWord(s.w0), InvSubWord(s.w1), InvSubWord(s.w2), InvSubWord(s.w3))
  }

  lemma SubWordInverse(w: Word)
    ensures InvSubWord(SubWord(w)) == w && SubWord(InvSubWord(w)) == w
  {
    hide SboxFwd, SboxInv;
    InvOfFwd(w.b0);
    InvOfFwd(w.b1);
    InvOfFwd(w.b2);
    InvOfFwd(w.b3);
    FwdOfInv(w.b0);
    FwdOfInv(w.b1);
    FwdOfInv(w.b2);
    FwdOfInv(w.b3);
  }

  lemma SubBytesInverse(s: Block)
    ensures InvSubBytes(SubBytes(s)) == s && SubBytes(InvSubBytes(s)) == s
  {
    hide SubWord, InvSubWord;
    SubWordInverse(s.w0);
    SubWordInverse(s.w1);
    SubWordInverse(s.w2);
    SubWordInverse(s.w3);
  }

  // ----- ShiftRows -----

  function ShiftRows(s: Block): Block {
    Block(
      Word(ByteAt(s, 0), ByteAt(s, 5), ByteAt(s, 10), ByteAt(s, 15)),
      Word(ByteAt(s, 4), ByteAt(s, 9), ByteAt(s, 14), ByteAt(s, 3)),
      Word(ByteAt(s, 8), ByteAt(s, 13), ByteAt(s, 2), ByteAt(s, 7)),
      Word(ByteAt(s, 12), ByteAt(s, 1), ByteAt(s, 6), ByteAt(s, 11)))
  }

  function InvShiftRows(s: Block): Block {
    Block(
      Word(ByteAt(s, 0), ByteAt(s, 13), ByteAt(s, 10), ByteAt(s, 7)),
      Word(ByteAt(s, 4), ByteAt(s, 1), ByteAt(s, 14), ByteAt(s, 11)),
      Word(ByteAt(s, 8), ByteAt(s, 5), ByteAt(s, 2), ByteAt(s, 15)),
      Word(ByteAt(s, 12), ByteAt(s, 9), ByteAt(s, 6), ByteAt(s, 3)))
  }

  /** The state byte in row r, column c. */
  function Cell(s: Block, r: nat, c: nat): bv8
    requires r < 4 && c < 4
  {
    ByteAt(s, r + 4 * c)
  }

  /** Row r moves r places to the left, cyclically. */
  lemma ShiftRowsMovesRows(s: Block, r: nat, c: nat)
    requires r < 4 && c < 4
    ensures Cell(ShiftRows(s), r, c) == Cell(s, r, (c + r) % 4)
  {
    match r
    case 0 =>
    case 1 =>
    case 2 =>
    case _ =>
  }

  /** And back to the right. */
  lemma InvShiftRowsMovesRows(s: Block, r: nat, c: nat)
    requires r < 4 && c < 4
    ensures Cell(InvShiftRows(s), r, c) == Cell(s, r, (c - r + 4) % 4)
  {
    match r
    case 0 =>
    case 1 =>
    case 2 =>
    case _ =>
  }

  lemma ShiftRowsInverse(s: Block)
    ensures InvShiftRows(ShiftRows(s)) == s && ShiftRows(InvShiftRows(s)) == s
  {
  }

  // ----- MixColumns -----

  function MixColumn(w: Word): Word {
    Word(
      Add(Add(Add(GMul2(w.b0), GMul3(w.b1)), w.b2), w.b3),
      Add(Add(Add(w.b0, GMul2(w.b1)), GMul3(w.b2)), w.b3),
      Add(Add(Add(w.b0, w.b1), GMul2(w.b2)), GMul3(w.b3)),
      Add(Add(Add(GMul3(w.b0), w.b1), w.b2), GMul2(w.b3)))
  }

  function InvMixColumn(w: Word): Word {
    Word(
      Add(Add(Add(GMul14(w.b0), GMul11(w.b1)), GMul13(w.b2)), GMul9(w.b3)),
      Add(Add(Add(GMul9(w.b0), GMul14(w.b1)), GMul11(w.b2)), GMul13(w.b3)),
      Add(Add(Add(GMul13(w.b0), GMul9(w.b1)), GMul14(w.b2)), GMul11(w.b3)),
      Add(Add(Add(GMul11(w.b0), GMul13(w.b1)), GMul9(w.b2)), GMul14(w.b3)))
  }

  function MixColumns(s: Block): Block {
    Block(MixColumn(s.w0), MixColumn(s.w1), MixColumn(s.w2), MixColumn(s.w3))
  }

  function InvMixColumns(s: Block): Block {
    Block(InvMixColumn(s.w0), InvMixColumn(s.w1), InvMixColumn(s.w2), InvMixColumn(s.w3))
  }

  // ----- The matrix form, with a block standing for a matrix of four rows -----

  const MIX := Block(Word(2, 3, 1, 1), Word(1, 2, 3, 1), Word(1, 1, 2, 3), Word(3, 1, 1, 2))
  const INV_MIX := Block(Word(14, 11, 13, 9), Word(9, 14, 11, 13), Word(13, 9, 14, 11), Word(11, 13, 9, 14))
  const IDENTITY := Block(Word(1, 0, 0, 0), Word(0, 1, 0, 0), Word(0, 0, 1, 0), Word(0, 0, 0, 1))

  ghost function Dot(c: Word, x: Word): bv8 {
    Add(Add(Add(GMul(c.b0, x.b0), GMul(c.b1, x.b1)), GMul(c.b2, x.b2)), GMul(c.b3, x.b3))
  }

  ghost function Apply(m: Block, x: Word): Word {
    Word(Dot(m.w0, x), Dot(m.w1, x), Dot(m.w2, x), Dot(m.w3, x))
  }

  ghost function Scale(k: bv8, c: Word): Word {
    Word(GMul(k, c.b0), GMul(k, c.b1), GMul(k, c.b2), GMul(k, c.b3))
  }

  /** The row vector c times the matrix m. */
  ghost function RowTimes(c: Word, m: Block): Word {
    XorWord(XorWord(XorWord(Scale(c.b0, m.w0), Scale(c.b1, m.w1)), Scale(c.b2, m.w2)), Scale(c.b3, m.w3))
  }

  ghost function MatrixTimes(n: Block, m: Block): Block {
    Block(RowTimes(n.w0, m), RowTimes(n.w1, m), RowTimes(n.w2, m), RowTimes(n.w3, m))
  }

  /** The RTL's columns are products by the FIPS-197 matrices. */
  lemma MixColumnIsMatrix(w: Word)
    ensures MixColumn(w) == Apply(MIX, w)
    ensures InvMixColumn(w) == Apply(INV_MIX, w)
  {
    hide Add, GMul, GMul2, GMul3, GMul9, GMul11, GMul13, GMul14;
    ConstantMultipliers(w.b0);
    ConstantMultipliers(w.b1);
    ConstantMultipliers(w.b2);
    ConstantMultipliers(w.b3);
    OneIsUnit(w.b0);
    OneIsUnit(w.b1);
    OneIsUnit(w.b2);
    OneIsUnit(w.b3);
  }

  lemma {:induction false} ScaleDot(k: bv8, c: Word, x: Word)
    ensures GMul(k, Dot(c, x)) == Dot(Scale(k, c), x)
  {
    hide Add, GMul;
    var p0, p1, p2, p3 := GMul(c.b0, x.b0), GMul(c.b1, x.b1), GMul(c.b2, x.b2), GMul(c.b3, x.b3);
    GMulAdd(k, Add(Add(p0, p1), p2), p3);
    GMulAdd(k, Add(p0, p1), p2);
    GMulAdd(k, p0, p1);
    GMulAssociates(k, c.b0, x.b0);
    GMulAssociates(k, c.b1, x.b1);
    GMulAssociates(k, c.b2, x.b2);
    GMulAssociates(k, c.b3, x.b3);
  }

  lemma {:induction false} AddDots(c: Word, d: Word, x: Word)
    ensures Add(Dot(c, x), Dot(d, x)) == Dot(XorWord(c, d), x)
  {
    hide Add, GMul;
    var p0, p1, p2, p3 := GMul(c.b0, x.b0), GMul(c.b1, x.b1), GMul(c.b2, x.b2), GMul(c.b3, x.b3);
    var q0, q1, q2, q3 := GMul(d.b0, x.b0), GMul(d.b1, x.b1), GMul(d.b2, x.b2), GMul(d.b3, x.b3);
    AddSwap(Add(Add(p0, p1), p2), p3, Add(Add(q0, q1), q2), q3);
    AddSwap(Add(p0, p1), p2, Add(q0, q1), q2);
    AddSwap(p0, p1, q0, q1);
    GMulAddLeft(c.b0, d.b0, x.b0);
    GMulAddLeft(c.b1, d.b1, x.b1);
    GMulAddLeft(c.b2, d.b2, x.b2);
    GMulAddLeft(c.b3, d.b3, x.b3);
  }

  lemma {:induction false} DotOfProduct(c: Word, m: Block, x: Word)
    ensures Dot(c, Apply(m, x)) == Dot(RowTimes(c, m), x)
  {
    var r0, r1, r2, r3 := Scale(c.b0, m.w0), Scale(c.b1, m.w1), Scale(c.b2, m.w2), Scale(c.b3, m.w3);
    assert Dot(c, Apply(m, x)) ==
      Add(Add(Add(GMul(c.b0, Dot(m.w0, x)), GMul(c.b1, Dot(m.w1, x))), GMul(c.b2, Dot(m.w2, x))), GMul(c.b3, Dot(m.w3, x)));
    hide Add, GMul, Dot, XorWord, Scale;
    ScaleDot(c.b0, m.w0, x);
    ScaleDot(c.b1, m.w1, x);
    ScaleDot(c.b2, m.w2, x);
    ScaleDot(c.b3, m.w3, x);
    AddDots(r0, r1, x);
    AddDots(XorWord(r0, r1), r2, x);
    AddDots(XorWord(XorWord(r0, r1), r2), r3, x);
  }

  lemma {:induction false} ApplyTwice(n: Block, m: Block, x: Word)
    ensures Apply(n, Apply(m, x)) == Apply(MatrixTimes(n, m), x)
  {
    DotOfProduct(n.w0, m, x);
    DotOfProduct(n.w1, m, x);
    DotOfProduct(n.w2, m, x);
    DotOfProduct(n.w3, m, x);
    hide Dot, RowTimes;
  }

  lemma {:induction false} ApplyIdentity(x: Word)
    ensures Apply(IDENTITY, x) == x
  {
    hide Add, GMul;
    OneIsUnit(x.b0);
    OneIsUnit(x.b1);
    OneIsUnit(x.b2);
    OneIsUnit(x.b3);
    ZeroLeft(x.b0);
    ZeroLeft(x.b1);
    ZeroLeft(x.b2);
    ZeroLeft(x.b3);
    AddLaws(x.b0, 0, 0);
    AddLaws(x.b1, 0, 0);
    AddLaws(x.b2, 0, 0);
    AddLaws(x.b3, 0, 0);
    AddLaws(0, 0, 0);
  }

  // The two matrices are inverse to each other: sixteen entries each way.
  lemma {:induction false} MatricesInvert()
    ensures MatrixTimes(INV_MIX, MIX) == IDENTITY
  {
    SmallMultiples(14);
    SmallMultiples(11);
    SmallMultiples(13);
    SmallMultiples(9);
    hide GMul;
  }

  lemma SmallMultiples(k: bv8)
    ensures GMul(k, 1) == k && GMul(k, 2) == XTime(k) && GMul(k, 3) == Add(XTime(k), k)
  {
    ConstantMultipliers(k);
    OneIsUnit(k);
    GMulCommutes(k, 2);
    GMulCommutes(k, 3);
    hide GMul;
  }

  lemma {:induction false} MatricesInvertBack()
    ensures MatrixTimes(MIX, INV_MIX) == IDENTITY
  {
    ConstantMultipliers(14);
    ConstantMultipliers(11);
    ConstantMultipliers(13);
    ConstantMultipliers(9);
    OneIsUnit(14);
    OneIsUnit(11);
    OneIsUnit(13);
    OneIsUnit(9);
    hide GMul, GMul9, GMul11, GMul13, GMul14;
  }

  lemma {:induction false} MixColumnInverse(w: Word)
    ensures InvMixColumn(MixColumn(w)) == w && MixColumn(InvMixColumn(w)) == w
  {
    MixColumnIsMatrix(w);
    MixColumnIsMatrix(MixColumn(w));
    MixColumnIsMatrix(InvMixColumn(w));
    hide MixColumn, InvMixColumn, Apply, MatrixTimes;
    ApplyTwice(INV_MIX, MIX, w);
    ApplyTwice(MIX, INV_MIX, w);
    MatricesInvert();
    MatricesInvertBack();
    ApplyIdentity(w);
  }

  /** MixColumns and InvMixColumns undo each other on every state. */
  lemma {:induction false} MixColumnsInverse(s: Block)
    ensures InvMixColumns(MixColumns(s)) == s && MixColumns(InvMixColumns(s)) == s
  {
    hide MixColumn, InvMixColumn;
    MixColumnInverse(s.w0);
    MixColumnInverse(s.w1);
    MixColumnInverse(s.w2);
    MixColumnInverse(s.w3);
  }
}
