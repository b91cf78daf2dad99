/** The independent reference model of the differential test: tables computed from
    the field definition, a key schedule on 32-bit words, and round transformations
    that loop over a state array in place. Each method computes what the RTL's
    functions compute. */
module Reference {
  import opened Gf256
  import opened SBox
  import opened Blocks
  import Rounds
  import Cipher

  /** The shift-and-reduce product. */
  method GMulLoop(a0: bv8, b0: bv8) returns (p: bv8)
    ensures p == GMul(a0, b0)
    ensures exists q :: Remainder(PolyMul(Poly(a0), b0), q, p)
  {
    var a, b := a0, b0;
    p := 0;
    ghost var bound: bv8 := 0xff;
    AddLaws(GMul(a0, b0), 0, 0);
    for i := 0 to 8
      invariant Add(p, GMul(a, b)) == GMul(a0, b0)
      invariant b <= bound && bound == LowMask(8 - i)
    {
      hide GMul;
      GMulStep(a, b);
      AddLaws(p, Select(b, a), GMul(XTime(a), Half(b)));
      assert Add(Add(p, Select(b, a)), GMul(XTime(a), Half(b))) == GMul(a0, b0);
      assert b >> 1 <= bound >> 1 && bound >> 1 == LowMask(7 - i);
      if b & 1 != 0 {
        p := Add(p, a);
      } else {
        AddLaws(p, 0, 0);
      }
      var hi := a & 0x80 != 0;
      a := a << 1;
      if hi {
        a := a ^ 0x1b;
      }
      b := b >> 1;
      bound := bound >> 1;
    }
    GMulStep(a, 0);
    AddLaws(p, 0, 0);
    var q := GMulIsPolynomialProduct(a0, b0);
  }

  /** The i lowest bits. */
  function LowMask(i: nat): bv8
    requires i <= 8
  {
    match i
    case 0 => 0x00
    case 1 => 0x01
    case 2 => 0x03
    case 3 => 0x07
    case 4 => 0x0f
    case 5 => 0x1f
    case 6 => 0x3f
    case 7 => 0x7f
    case 8 => 0xff
  }

  // Shifts by a loop counter, one case for each amount.

  function ShiftRight(b: bv8, i: nat): bv8
    requires i < 8
  {
    match i
    case 0 => b
    case 1 => b >> 1
    case 2 => b >> 2
    case 3 => b >> 3
    case 4 => b >> 4
    case 5 => b >> 5
    case 6 => b >> 6
    case 7 => b >> 7
  }

  function ShiftLeft(b: bv8, i: nat): bv8
    requires i < 8
  {
    match i
    case 0 => b
    case 1 => b << 1
    case 2 => b << 2
    case 3 => b << 3
    case 4 => b << 4
    case 5 => b << 5
    case 6 => b << 6
    case 7 => b << 7
  }

  function Bit(b: bv8, i: nat): bv8
    requires i < 8
  {
    ShiftRight(b, i) & 1
  }

  /** Output bit i of the affine map. */
  function AffineBit(b: bv8, i: nat): bv8
    requires i < 8
  {
    Add(Add(Add(Add(Add(Bit(b, i), Bit(b, (i + 4) % 8)), Bit(b, (i + 5) % 8)), Bit(b, (i + 6) % 8)),
            Bit(b, (i + 7) % 8)), Bit(0x63, i))
  }

  lemma BitOfAdd(x: bv8, y: bv8, i: nat)
    requires i < 8
    ensures Bit(Add(x, y), i) == Add(Bit(x, i), Bit(y, i))
  {
    if i == 0 {
    } else if i == 1 {
    } else if i == 2 {
    } else if i == 3 {
    } else if i == 4 {
    } else if i == 5 {
    } else if i == 6 {
    } else {
      assert i == 7;
    }
  }

  lemma BitOfRotate12(b: bv8, i: nat)
    requires i < 8
    ensures Bit(Rotate(b, 1), i) == Bit(b, (i + 7) % 8)
    ensures Bit(Rotate(b, 2), i) == Bit(b, (i + 6) % 8)
  {
    if i == 0 {
    } else if i == 1 {
    } else if i == 2 {
    } else if i == 3 {
    } else if i == 4 {
    } else if i == 5 {
    } else if i == 6 {
    } else {
      assert i == 7;
    }
  }

  lemma BitOfRotate34(b: bv8, i: nat)
    requires i < 8
    ensures Bit(Rotate(b, 3), i) == Bit(b, (i + 5) % 8)
    ensures Bit(Rotate(b, 4), i) == Bit(b, (i + 4) % 8)
  {
    if i == 0 {
    } else if i == 1 {
    } else if i == 2 {
    } else if i == 3 {
    } else if i == 4 {
    } else if i == 5 {
    } else if i == 6 {
    } else {
      assert i == 7;
    }
  }

  /** The bit formula of FIPS-197 equation (5.1) and the rotations agree. */
  lemma AffineBits(b: bv8, i: nat)
    requires i < 8
    ensures AffineBit(b, i) == Bit(Affine(b), i)
  {
    hide Add, Bit, Rotate, ShiftRight;
    var r4, r3, r2, r1 := Rotate(b, 4), Rotate(b, 3), Rotate(b, 2), Rotate(b, 1);
    BitOfRotate12(b, i);
    BitOfRotate34(b, i);
    BitOfAdd(b, r4, i);
    BitOfAdd(Add(b, r4), r3, i);
    BitOfAdd(Add(Add(b, r4), r3), r2, i);
    BitOfAdd(Add(Add(Add(b, r4), r3), r2), r1, i);
    BitOfAdd(Add(Add(Add(Add(b, r4), r3), r2), r1), 0x63, i);
  }

  lemma AddBit(x: bv8, i: nat)
    requires i < 8
    ensures (x & LowMask(i)) | ShiftLeft(Bit(x, i), i) == x & LowMask(i + 1)
  {
    if i == 0 {
    } else if i == 1 {
    } else if i == 2 {
    } else if i == 3 {
    } else if i == 4 {
    } else if i == 5 {
    } else if i == 6 {
    } else {
      assert i == 7;
    }
  }

  method AffineLoop(b: bv8) returns (r: bv8)
    ensures r == Affine(b)
  {
    r := 0;
    ghost var a := Affine(b);
    for i := 0 to 8
      invariant r == a & LowMask(i)
    {
      AffineBits(b, i);
      AddBit(a, i);
      r := r | ShiftLeft(AffineBit(b, i), i);
      hide Affine, AffineBit, Bit, LowMask, ShiftLeft, ShiftRight;
    }
  }

  /** The tables hold the S-boxes and the powers of x. */
  ghost predicate TablesReady(sbox: seq<bv8>, invSbox: seq<bv8>, rcon: seq<bv8>) {
    && |sbox| == |invSbox| == 256 && |rcon| == 11
    && (forall k | 0 <= k < 256 :: sbox[k] == SboxFwd(Byte(k)))
    && (forall k | 0 <= k < 256 :: invSbox[k] == SboxInv(Byte(k)))
    && (forall i | 1 <= i <= 10 :: rcon[i] == Cipher.XPower(i - 1))
  }

  /** v is inv[a], where 0 stands as its own inverse. */
  ghost predicate IsInverse(a: nat, v: bv8)
    requires a < 256
  {
    if a == 0 then v == 0 else GMul(Byte(a), v) == 1
  }

  lemma {:induction false} InverseIsFound(a: nat)
    requires 1 <= a < 256
    ensures 1 <= Number(FieldInverse(Byte(a)))
    ensures GMul(Byte(a), Byte(Number(FieldInverse(Byte(a))))) == 1
  {
    assert Byte(a) != 0 && Number(0) == 0;
    hide GMul, FieldInverse, Byte;
    InverseExists(Byte(a));
    ByteNumber(FieldInverse(Byte(a)));
  }

  /** The search for an inverse stops at one. */
  method FindInverse(a: nat) returns (v: bv8)
    requires 1 <= a < 256
    ensures IsInverse(a, v)
  {
    hide GMul, PolyMul, FieldInverse, Byte, Number;
    InverseIsFound(a);
    v := 0;
    var b := 1;
    while b < 256
      invariant 1 <= b <= 256
      invariant forall k | 1 <= k < b :: GMul(Byte(a), Byte(k)) != 1
    {
      var p := GMulLoop(Byte(a), Byte(b));
      if p == 1 {
        return Byte(b);
      }
      b := b + 1;
    }
    assert false;
  }

  lemma {:induction false} TableEntry(a: nat, v: bv8)
    requires a < 256 && IsInverse(a, v)
    ensures Affine(v) == SboxFwd(Byte(a))
  {
    assert a == 0 <==> Byte(a) == 0;
    hide Affine, SboxFwd, GMul, Byte;
    SboxIsAffineOfInverse(Byte(a), v);
  }

  class Tables {
    const sbox: array<bv8>
    const invSbox: array<bv8>
    const rcon: array<bv8>

    ghost predicate Valid() {
      && sbox.Length == invSbox.Length == 256 && rcon.Length == 11
      && sbox != invSbox && sbox != rcon && invSbox != rcon
    }

    ghost predicate Ready()
      reads sbox, invSbox, rcon
    {
      Valid() && TablesReady(sbox[..], invSbox[..], rcon[..])
    }

    constructor ()
      ensures Valid() && fresh(sbox) && fresh(invSbox) && fresh(rcon)
    {
      sbox := new bv8[256];
      invSbox := new bv8[256];
      rcon := new bv8[11];
    }

    /** Fills the tables from the definition of the field. */
    method InitTables()
      requires Valid()
      modifies sbox, invSbox, rcon
      ensures Ready()
    {
      hide SboxFwd, SboxInv, Byte, Number, Cipher.XPower;
      FillSbox(sbox);
      FillInvSbox(sbox, invSbox);
      FillRcon(rcon);
    }
  }

  method Inverses() returns (inv: array<bv8>)
    ensures fresh(inv) && inv.Length == 256
    ensures forall k | 0 <= k < 256 :: IsInverse(k, inv[k])
  {
    hide IsInverse;
    inv := new bv8[256](_ => 0);
    assert IsInverse(0, inv[0]) by {
      IsInverseZero();
    }
    for a := 1 to 256
      invariant forall k | 0 <= k < a :: IsInverse(k, inv[k])
    {
      inv[a] := FindInverse(a);
    }
  }

  method FillSbox(sbox: array<bv8>)
    requires sbox.Length == 256
    modifies sbox
    ensures forall k | 0 <= k < 256 :: sbox[k] == SboxFwd(Byte(k))
  {
    hide *;
    var inv := Inverses();
    for a := 0 to 256
      invariant forall k | 0 <= k < 256 :: IsInverse(k, inv[k])
      invariant forall k | 0 <= k < a :: sbox[k] == SboxFwd(Byte(k))
    {
      sbox[a] := AffineLoop(inv[a]);
      TableEntry(a, inv[a]);
    }
  }

  lemma IsInverseZero()
    ensures IsInverse(0, 0)
  {
  }

  method FillInvSbox(sbox: array<bv8>, invSbox: array<bv8>)
    requires sbox.Length == invSbox.Length == 256 && sbox != invSbox
    requires forall k | 0 <= k < 256 :: sbox[k] == SboxFwd(Byte(k))
    modifies invSbox
    ensures forall k | 0 <= k < 256 :: invSbox[k] == SboxInv(Byte(k))
  {
    hide SboxFwd, SboxInv, Byte, Number;
    for a := 0 to 256
      invariant forall k | 0 <= k < a :: invSbox[Number(sbox[k])] == Byte(k)
    {
      forall k | 0 <= k < a
        ensures Number(sbox[k]) != Number(sbox[a])
      {
        EntriesDiffer(k, a);
      }
      invSbox[Number(sbox[a])] := Byte(a);
    }
    forall x | 0 <= x < 256
      ensures invSbox[x] == SboxInv(Byte(x))
    {
      var k := Number(SboxInv(Byte(x)));
      ByteNumber(SboxInv(Byte(x)));
      FwdOfInv(Byte(x));
      assert invSbox[Number(sbox[k])] == Byte(k);
    }
  }

  lemma EntriesDiffer(j: nat, k: nat)
    requires j < k < 256
    ensures Number(SboxFwd(Byte(j))) != Number(SboxFwd(Byte(k)))
  {
    hide SboxFwd, SboxInv, Byte, Number;
    InvOfFwd(Byte(j));
    InvOfFwd(Byte(k));
    if Number(SboxFwd(Byte(j))) == Number(SboxFwd(Byte(k))) {
      NumberInjective(SboxFwd(Byte(j)), SboxFwd(Byte(k)));
    }
  }

  method FillRcon(rcon: array<bv8>)
    requires rcon.Length == 11
    modifies rcon
    ensures forall i | 1 <= i <= 10 :: rcon[i] == Cipher.XPower(i - 1)
  {
    hide GMul, PolyMul, XTime;
    rcon[0] := 0x00;
    var r: bv8 := 0x01;
    for i := 1 to 11
      invariant r == Cipher.XPower(i - 1)
      invariant forall k | 1 <= k < i :: rcon[k] == Cipher.XPower(k - 1)
    {
      rcon[i] := r;
      ConstantMultipliers(r);
      GMulCommutes(r, 0x02);
      r := GMulLoop(r, 0x02);
    }
  }

  // ----- Key expansion -----

  lemma Lookup(table: seq<bv8>, x: bv8)
    requires |table| == 256
    requires forall k | 0 <= k < 256 :: table[k] == SboxFwd(Byte(k))
    ensures table[Number(x)] == SboxFwd(x)
  {
    hide SboxFwd, Byte, Number;
    ByteNumber(x);
  }

  lemma LookupInv(table: seq<bv8>, x: bv8)
    requires |table| == 256
    requires forall k | 0 <= k < 256 :: table[k] == SboxInv(Byte(k))
    ensures table[Number(x)] == SboxInv(x)
  {
    hide SboxInv, Byte, Number;
    ByteNumber(x);
  }

  lemma RotateIsRotWord(x: bv32)
    ensures Unpack((x << 8) | (x >> 24)) == Cipher.RotWord(Unpack(x))
  {
  }

  lemma XorIsXorWord(x: bv32, y: bv32)
    ensures Unpack(x ^ y) == XorWord(Unpack(x), Unpack(y))
  {
  }

  lemma ShiftedByte(r: bv8)
    ensures Unpack((r as bv32) << 24) == Word(r, 0, 0, 0)
  {
  }

  lemma FirstWords(key: seq<bv8>, i: nat)
    requires |key| == 16 && i < 4
    ensures Cipher.KeyWord(BlockOf(key), i) == WordAt(key, 4 * i)
  {
  }

  /** Word i of the schedule from words i - 1 and i - 4. */
  method NextWord(t: Tables, temp0: bv32, back: bv32, i: nat, ghost key: Block) returns (word: bv32)
    requires t.Ready() && 4 <= i < 44
    requires Unpack(temp0) == Cipher.KeyWord(key, i - 1) && Unpack(back) == Cipher.KeyWord(key, i - 4)
    ensures Unpack(word) == Cipher.KeyWord(key, i)
  {
    hide SboxFwd, SboxInv, Byte, Number, Pack, Unpack, XorWord, Cipher.XPower, Cipher.RotWord, Rounds.SubWord;
    var temp := temp0;
    if i % 4 == 0 {
      RotateIsRotWord(temp);
      temp := (temp << 8) | (temp >> 24);
      temp := SubWordLookup(t, temp);
      var r := t.rcon[i / 4];
      ShiftedByte(r);
      XorIsXorWord(temp, (r as bv32) << 24);
      temp := temp ^ ((r as bv32) << 24);
    }
    XorIsXorWord(back, temp);
    word := back ^ temp;
  }

  /** The schedule on 32-bit words. */
  method KeyExpansion(t: Tables, key: array<bv8>) returns (w: array<bv32>)
    requires t.Ready() && key.Length == 16
    ensures fresh(w) && w.Length == 44
    ensures forall i | 0 <= i < 44 :: Unpack(w[i]) == Cipher.KeyWord(BlockOf(key[..]), i)
  {
    hide SboxFwd, SboxInv, Byte, Number, Pack, Unpack, XorWord, Cipher.XPower, Cipher.KeyWord, BlockOf;
    ghost var k := BlockOf(key[..]);
    w := new bv32[44];
    for i := 0 to 4
      invariant forall j | 0 <= j < i :: Unpack(w[j]) == Cipher.KeyWord(k, j)
    {
      var word := Word(key[4 * i], key[4 * i + 1], key[4 * i + 2], key[4 * i + 3]);
      FirstWords(key[..], i);
      UnpackPack(word);
      w[i] := Pack(word);
    }
    for i := 4 to 44
      invariant forall j | 0 <= j < i :: Unpack(w[j]) == Cipher.KeyWord(k, j)
    {
      w[i] := NextWord(t, w[i - 1], w[i - 4], i, k);
    }
  }

  method SubWordLookup(t: Tables, x: bv32) returns (y: bv32)
    requires t.Ready()
    ensures Unpack(y) == Rounds.SubWord(Unpack(x))
  {
    hide SboxFwd, Byte, Number, Pack;
    var u := Unpack(x);
    Lookup(t.sbox[..], u.b0);
    Lookup(t.sbox[..], u.b1);
    Lookup(t.sbox[..], u.b2);
    Lookup(t.sbox[..], u.b3);
    var v := Word(t.sbox[Number(u.b0)], t.sbox[Number(u.b1)], t.sbox[Number(u.b2)], t.sbox[Number(u.b3)]);
    y := Pack(v);
    UnpackPack(v);
    hide Unpack;
  }

  // ----- Round transformations, in place -----

  method SubBytes(t: Tables, s: array<bv8>)
    requires t.Ready() && s.Length == 16 && s != t.sbox && s != t.invSbox && s != t.rcon
    modifies s
    ensures BlockOf(s[..]) == Rounds.SubBytes(BlockOf(old(s[..])))
  {
    hide SboxFwd, SboxInv, Byte, Number, TablesReady;
    for i := 0 to 16
      invariant forall k | 0 <= k < i :: s[k] == SboxFwd(old(s[k]))
      invariant forall k | i <= k < 16 :: s[k] == old(s[k])
    {
      TablesLookup(t.sbox[..], t.invSbox[..], t.rcon[..], s[i]);
      s[i] := t.sbox[Number(s[i])];
    }
  }

  method InvSubBytes(t: Tables, s: array<bv8>)
    requires t.Ready() && s.Length == 16 && s != t.sbox && s != t.invSbox && s != t.rcon
    modifies s
    ensures BlockOf(s[..]) == Rounds.InvSubBytes(BlockOf(old(s[..])))
  {
    hide SboxFwd, SboxInv, Byte, Number, TablesReady;
    for i := 0 to 16
      invariant forall k | 0 <= k < i :: s[k] == SboxInv(old(s[k]))
      invariant forall k | i <= k < 16 :: s[k] == old(s[k])
    {
      TablesLookup(t.sbox[..], t.invSbox[..], t.rcon[..], s[i]);
      s[i] := t.invSbox[Number(s[i])];
    }
  }

  lemma TablesLookup(sbox: seq<bv8>, invSbox: seq<bv8>, rcon: seq<bv8>, x: bv8)
    requires TablesReady(sbox, invSbox, rcon)
    ensures |sbox| == |invSbox| == 256
    ensures sbox[Number(x)] == SboxFwd(x) && invSbox[Number(x)] == SboxInv(x)
  {
    hide SboxFwd, SboxInv, Byte, Number;
    Lookup(sbox, x);
    LookupInv(invSbox, x);
  }

  /** The state byte in row r, column c of a byte string. */
  function StateCell(s: seq<bv8>, r: nat, c: nat): bv8
    requires |s| == 16 && r < 4 && c < 4
  {
    s[r + 4 * c]
  }

  /** The column that ShiftRows, or its inverse, moves to column c of row r. */
  function SourceColumn(inverse: bool, r: nat, c: nat): (d: nat)
    requires r < 4 && c < 4
    ensures d < 4
  {
    if inverse then (c - r + 4) % 4 else (c + r) % 4
  }

  /** The cells before row r, column c have taken their values from t. */
  ghost predicate Moved(inverse: bool, s: seq<bv8>, t: seq<bv8>, r: nat, c: nat) {
    && |s| == |t| == 16
    && forall i: nat, k: nat | i < 4 && k < 4 && (i < r || (i == r && k < c)) ::
         StateCell(s, i, k) == StateCell(t, i, SourceColumn(inverse, i, k))
  }

  lemma MoveOne(inverse: bool, s: seq<bv8>, t: seq<bv8>, r: nat, c: nat)
    requires Moved(inverse, s, t, r, c) && r < 4 && c < 4
    ensures Moved(inverse, s[r + 4 * c := StateCell(t, r, SourceColumn(inverse, r, c))], t, r, c + 1)
  {
    hide SourceColumn;
  }

  lemma RowFinished(inverse: bool, s: seq<bv8>, t: seq<bv8>, r: nat)
    requires Moved(inverse, s, t, r, 4) && r < 4
    ensures Moved(inverse, s, t, r + 1, 0)
  {
    hide SourceColumn, StateCell;
  }

  lemma AllMoved(inverse: bool, s: seq<bv8>, t: seq<bv8>)
    requires Moved(inverse, s, t, 4, 0)
    ensures BlockOf(s) == if inverse then Rounds.InvShiftRows(BlockOf(t)) else Rounds.ShiftRows(BlockOf(t))
  {
    hide Rounds.ShiftRows, Rounds.InvShiftRows, ByteAt, BlockOf;
    var b := if inverse then Rounds.InvShiftRows(BlockOf(t)) else Rounds.ShiftRows(BlockOf(t));
    forall i | 0 <= i < 16
      ensures ByteAt(BlockOf(s), i) == ByteAt(b, i)
    {
      assert i == i % 4 + 4 * (i / 4);
      Rounds.ShiftRowsMovesRows(BlockOf(t), i % 4, i / 4);
      Rounds.InvShiftRowsMovesRows(BlockOf(t), i % 4, i / 4);
      assert StateCell(s, i % 4, i / 4) == StateCell(t, i % 4, SourceColumn(inverse, i % 4, i / 4));
    }
    BlockEquality(BlockOf(s), b);
  }

  method ShiftRows(s: array<bv8>)
    requires s.Length == 16
    modifies s
    ensures BlockOf(s[..]) == Rounds.ShiftRows(BlockOf(old(s[..])))
  {
    hide Moved, BlockOf;
    var t := s[..];
    assert Moved(false, s[..], t, 0, 0) by {
      NothingMoved(false, s[..], t);
    }
    for r := 0 to 4
      invariant Moved(false, s[..], t, r, 0)
    {
      for c := 0 to 4
        invariant Moved(false, s[..], t, r, c)
      {
        MoveOne(false, s[..], t, r, c);
        s[r + 4 * c] := t[r + 4 * ((c + r) % 4)];
      }
      RowFinished(false, s[..], t, r);
    }
    AllMoved(false, s[..], t);
  }

  method InvShiftRows(s: array<bv8>)
    requires s.Length == 16
    modifies s
    ensures BlockOf(s[..]) == Rounds.InvShiftRows(BlockOf(old(s[..])))
  {
    hide Moved, BlockOf;
    var t := s[..];
    assert Moved(true, s[..], t, 0, 0) by {
      NothingMoved(true, s[..], t);
    }
    for r := 0 to 4
      invariant Moved(true, s[..], t, r, 0)
    {
      for c := 0 to 4
        invariant Moved(true, s[..], t, r, c)
      {
        MoveOne(true, s[..], t, r, c);
        s[r + 4 * c] := t[r + 4 * ((c - r + 4) % 4)];
      }
      RowFinished(true, s[..], t, r);
    }
    AllMoved(true, s[..], t);
  }

  lemma NothingMoved(inverse: bool, s: seq<bv8>, t: seq<bv8>)
    requires |s| == |t| == 16
    ensures Moved(inverse, s, t, 0, 0)
  {
  }

  function ColumnAt(s: seq<bv8>, c: nat): Word
    requires |s| == 16 && c < 4
  {
    WordAt(s, 4 * c)
  }

  lemma BlockColumns(s: seq<bv8>)
    requires |s| == 16
    ensures BlockOf(s) == Block(ColumnAt(s, 0), ColumnAt(s, 1), ColumnAt(s, 2), ColumnAt(s, 3))
  {
  }

  /** Stores a column of the state. */
  method PutColumn(s: array<bv8>, c: nat, w: Word)
    requires s.Length == 16 && c < 4
    modifies s
    ensures forall k | 0 <= k < 4 :: ColumnAt(s[..], k) == if k == c then w else ColumnAt(old(s[..]), k)
  {
    s[4 * c] := w.b0;
    s[1 + 4 * c] := w.b1;
    s[2 + 4 * c] := w.b2;
    s[3 + 4 * c] := w.b3;
  }

  method MixColumns(s: array<bv8>)
    requires s.Length == 16
    modifies s
    ensures BlockOf(s[..]) == Rounds.MixColumns(BlockOf(old(s[..])))
  {
    hide Add, XTime, ColumnAt, BlockOf;
    ghost var t := s[..];
    BlockColumns(t);
    for c := 0 to 4
      invariant forall k | 0 <= k < c :: ColumnAt(s[..], k) == Rounds.MixColumn(ColumnAt(t, k))
      invariant forall k | c <= k < 4 :: ColumnAt(s[..], k) == ColumnAt(t, k)
    {
      var w := ColumnAt(s[..], c);
      var s0, s1, s2, s3 := w.b0, w.b1, w.b2, w.b3;
      PutColumn(s, c, Word(
        Add(Add(Add(XTime(s0), Add(XTime(s1), s1)), s2), s3),
        Add(Add(Add(s0, XTime(s1)), Add(XTime(s2), s2)), s3),
        Add(Add(Add(s0, s1), XTime(s2)), Add(XTime(s3), s3)),
        Add(Add(Add(Add(XTime(s0), s0), s1), s2), XTime(s3))));
    }
    BlockColumns(s[..]);
  }

  method InvMixColumns(s: array<bv8>)
    requires s.Length == 16
    modifies s
    ensures BlockOf(s[..]) == Rounds.InvMixColumns(BlockOf(old(s[..])))
  {
    hide Add, GMul9, GMul11, GMul13, GMul14, ColumnAt, BlockOf;
    ghost var t := s[..];
    BlockColumns(t);
    for c := 0 to 4
      invariant forall k | 0 <= k < c :: ColumnAt(s[..], k) == Rounds.InvMixColumn(ColumnAt(t, k))
      invariant forall k | c <= k < 4 :: ColumnAt(s[..], k) == ColumnAt(t, k)
    {
      var w := ColumnAt(s[..], c);
      var s0, s1, s2, s3 := w.b0, w.b1, w.b2, w.b3;
      PutColumn(s, c, Word(
        Add(Add(Add(GMul14(s0), GMul11(s1)), GMul13(s2)), GMul9(s3)),
        Add(Add(Add(GMul9(s0), GMul14(s1)), GMul11(s2)), GMul13(s3)),
        Add(Add(Add(GMul13(s0), GMul9(s1)), GMul14(s2)), GMul11(s3)),
        Add(Add(Add(GMul11(s0), GMul13(s1)), GMul9(s2)), GMul14(s3))));
    }
    BlockColumns(s[..]);
  }

  method AddRoundKey(s: array<bv8>, w: array<bv32>, round: nat, ghost key: Block)
    requires s.Length == 16 && w.Length == 44 && round <= 10
    requires forall i | 0 <= i < 44 :: Unpack(w[i]) == Cipher.KeyWord(key, i)
    modifies s
    ensures forall c | 0 <= c < 4 :: KeyAdded(old(s[..]), s[..], w[..], round, c)
    ensures BlockOf(s[..]) == Xor(BlockOf(old(s[..])), Cipher.RoundKey(key, round))
  {
    hide Add, ColumnAt, BlockOf, Cipher.KeyWord, XorWord, KeyAdded;
    ghost var t := s[..];
    BlockColumns(t);
    for c := 0 to 4
      invariant forall k | 0 <= k < c :: ColumnAt(s[..], k) == XorWord(ColumnAt(t, k), Cipher.KeyWord(key, 4 * round + k))
      invariant forall k | c <= k < 4 :: ColumnAt(s[..], k) == ColumnAt(t, k)
    {
      var word := w[4 * round + c];
      XorColumn(s, c, word);
    }
    BlockColumns(s[..]);
    forall c | 0 <= c < 4
      ensures KeyAdded(t, s[..], w[..], round, c)
    {
      assert ColumnAt(s[..], c) == XorWord(ColumnAt(t, c), Unpack(w[4 * round + c]));
      ColumnBytes(t, s[..], w[..], round, c);
    }
  }

  /** Each byte of column c of t is that of s with a byte of word 4 * round + c, the
      highest byte in row 0. */
  predicate KeyAdded(s: seq<bv8>, t: seq<bv8>, w: seq<bv32>, round: nat, c: nat)
    requires |s| == |t| == 16 && |w| == 44 && round <= 10 && c < 4
  {
    var word := w[4 * round + c];
    && t[4 * c] == s[4 * c] ^ (((word >> 24) & 0xff) as bv8)
    && t[4 * c + 1] == s[4 * c + 1] ^ (((word >> 16) & 0xff) as bv8)
    && t[4 * c + 2] == s[4 * c + 2] ^ (((word >> 8) & 0xff) as bv8)
    && t[4 * c + 3] == s[4 * c + 3] ^ ((word & 0xff) as bv8)
  }

  lemma ColumnBytes(s: seq<bv8>, t: seq<bv8>, w: seq<bv32>, round: nat, c: nat)
    requires |s| == |t| == 16 && |w| == 44 && round <= 10 && c < 4
    requires ColumnAt(t, c) == XorWord(ColumnAt(s, c), Unpack(w[4 * round + c]))
    ensures KeyAdded(s, t, w, round, c)
  {
    hide ColumnAt;
    ColumnCells(s, c);
    ColumnCells(t, c);
  }

  lemma ColumnCells(s: seq<bv8>, c: nat)
    requires |s| == 16 && c < 4
    ensures ColumnAt(s, c) == Word(s[4 * c], s[4 * c + 1], s[4 * c + 2], s[4 * c + 3])
  {
  }

  method XorColumn(s: array<bv8>, c: nat, word: bv32)
    requires s.Length == 16 && c < 4
    modifies s
    ensures forall k | 0 <= k < 4 ::
      ColumnAt(s[..], k) == if k == c then XorWord(ColumnAt(old(s[..]), k), Unpack(word)) else ColumnAt(old(s[..]), k)
  {
    hide Add;
    var u := ColumnAt(s[..], c);
    PutColumn(s, c, Word(
      Add(u.b0, ((word >> 24) & 0xff) as bv8), Add(u.b1, ((word >> 16) & 0xff) as bv8),
      Add(u.b2, ((word >> 8) & 0xff) as bv8), Add(u.b3, (word & 0xff) as bv8)));
  }

  // ----- The cipher -----

  method Encrypt(t: Tables, pt: array<bv8>, key: array<bv8>) returns (s: array<bv8>)
    requires t.Ready() && pt.Length == key.Length == 16
    ensures fresh(s) && s.Length == 16
    ensures BlockOf(s[..]) == Cipher.Encrypt(BlockOf(key[..]), BlockOf(pt[..]))
  {
    hide BlockOf, Unpack, Xor, Cipher.KeyWord, Cipher.RoundKey, TablesReady;
    hide Rounds.SubBytes, Rounds.ShiftRows, Rounds.MixColumns;
    ghost var k, p := BlockOf(key[..]), BlockOf(pt[..]);
    var w := KeyExpansion(t, key);
    s := new bv8[16](i requires 0 <= i < 16 reads pt => pt[i]);
    assert s[..] == pt[..];
    AddRoundKey(s, w, 0, k);
    for round := 1 to 10
      invariant t.Ready()
      invariant forall i | 0 <= i < 44 :: Unpack(w[i]) == Cipher.KeyWord(k, i)
      invariant BlockOf(s[..]) == Cipher.EncryptRounds(k, p, round - 1)
    {
      SubBytes(t, s);
      ShiftRows(s);
      MixColumns(s);
      AddRoundKey(s, w, round, k);
    }
    SubBytes(t, s);
    ShiftRows(s);
    AddRoundKey(s, w, 10, k);
  }

  method Decrypt(t: Tables, ct: array<bv8>, key: array<bv8>) returns (s: array<bv8>)
    requires t.Ready() && ct.Length == key.Length == 16
    ensures fresh(s) && s.Length == 16
    ensures BlockOf(s[..]) == Cipher.Decrypt(BlockOf(key[..]), BlockOf(ct[..]))
  {
    hide BlockOf, Unpack, Xor, Cipher.KeyWord, Cipher.RoundKey, TablesReady;
    hide Rounds.InvSubBytes, Rounds.InvShiftRows, Rounds.InvMixColumns;
    ghost var k, c := BlockOf(key[..]), BlockOf(ct[..]);
    var w := KeyExpansion(t, key);
    s := new bv8[16](i requires 0 <= i < 16 reads ct => ct[i]);
    assert s[..] == ct[..];
    AddRoundKey(s, w, 10, k);
    for round := 10 downto 1
      invariant t.Ready()
      invariant forall i | 0 <= i < 44 :: Unpack(w[i]) == Cipher.KeyWord(k, i)
      invariant BlockOf(s[..]) == Cipher.DecryptRounds(k, c, 10 - round)
    {
      InvShiftRows(s);
      InvSubBytes(t, s);
      AddRoundKey(s, w, round, k);
      InvMixColumns(s);
    }
    InvShiftRows(s);
    InvSubBytes(t, s);
    AddRoundKey(s, w, 0, k);
  }
}
