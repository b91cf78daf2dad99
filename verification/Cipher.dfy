/** The key schedule and the cipher of FIPS-197 sections 5.1 to 5.3, and the step
    by which the RTL produces one round key from the previous one. */
module Cipher {
  import opened Gf256
  import opened SBox
  import opened Blocks
  import opened Rounds

  // ----- The RTL's key schedule step -----

  function RconByte(r: nat): bv8 {
    match r
    case 1 => 0x01
    case 2 => 0x02
    case 3 => 0x04
    case 4 => 0x08
    case 5 => 0x10
    case 6 => 0x20
    case 7 => 0x40
    case 8 => 0x80
    case 9 => 0x1b
    case 10 => 0x36
    case _ => 0x00
  }

  function RotWord(w: Word): Word {
    Word(w.b1, w.b2, w.b3, w.b0)
  }

  /** Round key r from round key r - 1. */
  function NextRoundKey(prev: Block, r: nat): Block {
    var w0 := XorWord(XorWord(prev.w0, SubWord(RotWord(prev.w3))), Word(RconByte(r), 0, 0, 0));
    var w1 := XorWord(w0, prev.w1);
    var w2 := XorWord(w1, prev.w2);
    var w3 := XorWord(w2, prev.w3);
    Block(w0, w1, w2, w3)
  }

  // ----- The 44-word recurrence of FIPS-197 section 5.2 -----

  /** x to the power n. */
  function XPower(n: nat): bv8 {
    if n == 0 then 1 else XTime(XPower(n - 1))
  }

  function KeyWord(key: Block, i: nat): Word {
    if i == 0 then key.w0
    else if i == 1 then key.w1
    else if i == 2 then key.w2
    else if i == 3 then key.w3
    else if i % 4 == 0 then
      XorWord(KeyWord(key, i - 4),
              XorWord(SubWord(RotWord(KeyWord(key, i - 1))), Word(XPower(i / 4 - 1), 0, 0, 0)))
    else
      XorWord(KeyWord(key, i - 4), KeyWord(key, i - 1))
  }

  function RoundKey(key: Block, r: nat): Block {
    Block(KeyWord(key, 4 * r), KeyWord(key, 4 * r + 1), KeyWord(key, 4 * r + 2), KeyWord(key, 4 * r + 3))
  }

  /** The tabulated round constants are the powers of x. */
  lemma {:induction false} RconIsPower(r: nat)
    requires 1 <= r <= 10
    ensures RconByte(r) == XPower(r - 1)
  {
    if r == 1 {
    } else {
      RconIsPower(r - 1);
    }
  }

  lemma XorWordLaws3(a: Word, b: Word, c: Word)
    ensures XorWord(XorWord(a, b), c) == XorWord(a, XorWord(b, c))
  {
    AddLaws(a.b0, b.b0, c.b0);
    AddLaws(a.b1, b.b1, c.b1);
    AddLaws(a.b2, b.b2, c.b2);
    AddLaws(a.b3, b.b3, c.b3);
    hide Add;
  }

  /** The recurrence over the words of one round key. */
  lemma RoundKeyWords(key: Block, r: nat)
    requires r >= 1
    ensures var prev, next := RoundKey(key, r - 1), RoundKey(key, r);
            && next.w0 == XorWord(prev.w0, XorWord(SubWord(RotWord(prev.w3)), Word(XPower(r - 1), 0, 0, 0)))
            && next.w1 == XorWord(prev.w1, next.w0)
            && next.w2 == XorWord(prev.w2, next.w1)
            && next.w3 == XorWord(prev.w3, next.w2)
  {
    hide XorWord, SubWord, RotWord, XPower;
    assert (4 * r) / 4 == r && (4 * r) % 4 == 0;
    assert (4 * r + 1) % 4 == 1 && (4 * r + 2) % 4 == 2 && (4 * r + 3) % 4 == 3;
  }

  /** The RTL's step is the recurrence, four words at a time. */
  lemma {:induction false} StepIsRecurrence(key: Block, r: nat)
    requires 1 <= r <= 10
    ensures NextRoundKey(RoundKey(key, r - 1), r) == RoundKey(key, r)
  {
    hide XorWord, SubWord, RotWord, XPower, RconByte, RoundKey;
    var prev, next := RoundKey(key, r - 1), RoundKey(key, r);
    RconIsPower(r);
    RoundKeyWords(key, r);
    XorWordLaws3(prev.w0, SubWord(RotWord(prev.w3)), Word(XPower(r - 1), 0, 0, 0));
    XorWordLaws(prev.w1, next.w0);
    XorWordLaws(prev.w2, next.w1);
    XorWordLaws(prev.w3, next.w2);
  }

  lemma RoundKeyZero(key: Block)
    ensures RoundKey(key, 0) == key
  {
    hide XorWord, SubWord, RotWord, XPower;
  }

  // ----- Encryption and decryption -----

  /** The state after the initial key addition and n middle rounds: FIPS-197
      section 5.1. */
  function EncryptRounds(key: Block, data: Block, n: nat): Block {
    if n == 0 then Xor(data, RoundKey(key, 0))
    else Xor(MixColumns(ShiftRows(SubBytes(EncryptRounds(key, data, n - 1)))), RoundKey(key, n))
  }

  function Encrypt(key: Block, data: Block): Block {
    Xor(ShiftRows(SubBytes(EncryptRounds(key, data, 9))), RoundKey(key, 10))
  }

  /** The same for the inverse cipher, whose round n uses key 10 - n: FIPS-197
      section 5.3. */
  function DecryptRounds(key: Block, data: Block, n: nat): Block
    requires n <= 10
  {
    if n == 0 then Xor(data, RoundKey(key, 10))
    else InvMixColumns(Xor(InvSubBytes(InvShiftRows(DecryptRounds(key, data, n - 1))), RoundKey(key, 10 - n)))
  }

  function Decrypt(key: Block, data: Block): Block {
    Xor(InvSubBytes(InvShiftRows(DecryptRounds(key, data, 9))), RoundKey(key, 0))
  }

  /** Before round k of the decryption of a ciphertext, the state is what the
      encryption had after SubBytes and ShiftRows of its round 10 - k. */
  lemma {:induction false} DecryptTracksEncrypt(key: Block, data: Block, n: nat)
    requires n <= 9
    ensures DecryptRounds(key, Encrypt(key, data), n) == ShiftRows(SubBytes(EncryptRounds(key, data, 9 - n)))
  {
    hide Xor, ShiftRows, SubBytes, MixColumns, InvShiftRows, InvSubBytes, InvMixColumns, RoundKey;
    if n == 0 {
      XorLaws(ShiftRows(SubBytes(EncryptRounds(key, data, 9))), RoundKey(key, 10));
    } else {
      DecryptTracksEncrypt(key, data, n - 1);
      var e := EncryptRounds(key, data, 10 - n);
      ShiftRowsInverse(SubBytes(e));
      SubBytesInverse(e);
      var mixed := ShiftRows(SubBytes(EncryptRounds(key, data, 9 - n)));
      XorLaws(MixColumns(mixed), RoundKey(key, 10 - n));
      MixColumnsInverse(mixed);
    }
  }

  /** Decryption undoes encryption. */
  lemma {:induction false} DecryptEncrypt(key: Block, data: Block)
    ensures Decrypt(key, Encrypt(key, data)) == data
  {
    hide Xor, ShiftRows, SubBytes, MixColumns, InvShiftRows, InvSubBytes, InvMixColumns, RoundKey, Encrypt;
    DecryptTracksEncrypt(key, data, 9);
    var e := EncryptRounds(key, data, 0);
    ShiftRowsInverse(SubBytes(e));
    SubBytesInverse(e);
    XorLaws(data, RoundKey(key, 0));
  }

  lemma {:induction false} EncryptTracksDecrypt(key: Block, data: Block, n: nat)
    requires n <= 9
    ensures EncryptRounds(key, Decrypt(key, data), n) == InvSubBytes(InvShiftRows(DecryptRounds(key, data, 9 - n)))
  {
    hide Xor, ShiftRows, SubBytes, MixColumns, InvShiftRows, InvSubBytes, InvMixColumns, RoundKey;
    if n == 0 {
      XorLaws(InvSubBytes(InvShiftRows(DecryptRounds(key, data, 9))), RoundKey(key, 0));
    } else {
      EncryptTracksDecrypt(key, data, n - 1);
      var d := DecryptRounds(key, data, 10 - n);
      SubBytesInverse(InvShiftRows(d));
      ShiftRowsInverse(d);
      var t := InvSubBytes(InvShiftRows(DecryptRounds(key, data, 9 - n)));
      XorLaws(t, RoundKey(key, n));
      MixColumnsInverse(Xor(t, RoundKey(key, n)));
    }
  }

  /** Encryption undoes decryption: under every key both are permutations. */
  lemma {:induction false} EncryptDecrypt(key: Block, data: Block)
    ensures Encrypt(key, Decrypt(key, data)) == data
  {
    hide Xor, ShiftRows, SubBytes, MixColumns, InvShiftRows, InvSubBytes, InvMixColumns, RoundKey, Decrypt;
    EncryptTracksDecrypt(key, data, 9);
    var d := DecryptRounds(key, data, 0);
    SubBytesInverse(InvShiftRows(d));
    ShiftRowsInverse(d);
    XorLaws(data, RoundKey(key, 10));
  }

  lemma {:induction false} EncryptInjective(key: Block, a: Block, b: Block)
    requires Encrypt(key, a) == Encrypt(key, b)
    ensures a == b
  {
    DecryptEncrypt(key, a);
    DecryptEncrypt(key, b);
  }
}
