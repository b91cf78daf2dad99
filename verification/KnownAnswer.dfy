/** The cipher example of FIPS-197 appendix B, the vector the reference model is checked
    against before it is trusted, derived round by round with the intermediate values that
    the standard prints. */
module KnownAnswer {
  import opened Gf256
  import opened SBox
  import opened Blocks
  import opened Rounds
  import opened Cipher

  const KEY := Block(Word(0x2b, 0x7e, 0x15, 0x16), Word(0x28, 0xae, 0xd2, 0xa6), Word(0xab, 0xf7, 0x15, 0x88), Word(0x09, 0xcf, 0x4f, 0x3c))
  const PLAIN := Block(Word(0x32, 0x43, 0xf6, 0xa8), Word(0x88, 0x5a, 0x30, 0x8d), Word(0x31, 0x31, 0x98, 0xa2), Word(0xe0, 0x37, 0x07, 0x34))
  const CIPHER := Block(Word(0x39, 0x25, 0x84, 0x1d), Word(0x02, 0xdc, 0x09, 0xfb), Word(0xdc, 0x11, 0x85, 0x97), Word(0x19, 0x6a, 0x0b, 0x32))

  // The round keys, as in appendix A.1.
  const KEY_1 := Block(Word(0xa0, 0xfa, 0xfe, 0x17), Word(0x88, 0x54, 0x2c, 0xb1), Word(0x23, 0xa3, 0x39, 0x39), Word(0x2a, 0x6c, 0x76, 0x05))
  const KEY_2 := Block(Word(0xf2, 0xc2, 0x95, 0xf2), Word(0x7a, 0x96, 0xb9, 0x43), Word(0x59, 0x35, 0x80, 0x7a), Word(0x73, 0x59, 0xf6, 0x7f))
  const KEY_3 := Block(Word(0x3d, 0x80, 0x47, 0x7d), Word(0x47, 0x16, 0xfe, 0x3e), Word(0x1e, 0x23, 0x7e, 0x44), Word(0x6d, 0x7a, 0x88, 0x3b))
  const KEY_4 := Block(Word(0xef, 0x44, 0xa5, 0x41), Word(0xa8, 0x52, 0x5b, 0x7f), Word(0xb6, 0x71, 0x25, 0x3b), Word(0xdb, 0x0b, 0xad, 0x00))
  const KEY_5 := Block(Word(0xd4, 0xd1, 0xc6, 0xf8), Word(0x7c, 0x83, 0x9d, 0x87), Word(0xca, 0xf2, 0xb8, 0xbc), Word(0x11, 0xf9, 0x15, 0xbc))
  const KEY_6 := Block(Word(0x6d, 0x88, 0xa3, 0x7a), Word(0x11, 0x0b, 0x3e, 0xfd), Word(0xdb, 0xf9, 0x86, 0x41), Word(0xca, 0x00, 0x93, 0xfd))
  const KEY_7 := Block(Word(0x4e, 0x54, 0xf7, 0x0e), Word(0x5f, 0x5f, 0xc9, 0xf3), Word(0x84, 0xa6, 0x4f, 0xb2), Word(0x4e, 0xa6, 0xdc, 0x4f))
  const KEY_8 := Block(Word(0xea, 0xd2, 0x73, 0x21), Word(0xb5, 0x8d, 0xba, 0xd2), Word(0x31, 0x2b, 0xf5, 0x60), Word(0x7f, 0x8d, 0x29, 0x2f))
  const KEY_9 := Block(Word(0xac, 0x77, 0x66, 0xf3), Word(0x19, 0xfa, 0xdc, 0x21), Word(0x28, 0xd1, 0x29, 0x41), Word(0x57, 0x5c, 0x00, 0x6e))
  const KEY_10 := Block(Word(0xd0, 0x14, 0xf9, 0xa8), Word(0xc9, 0xee, 0x25, 0x89), Word(0xe1, 0x3f, 0x0c, 0xc8), Word(0xb6, 0x63, 0x0c, 0xa6))

  // The state before each round, after the initial key addition.
  const START_0 := Block(Word(0x19, 0x3d, 0xe3, 0xbe), Word(0xa0, 0xf4, 0xe2, 0x2b), Word(0x9a, 0xc6, 0x8d, 0x2a), Word(0xe9, 0xf8, 0x48, 0x08))
  const START_1 := Block(Word(0xa4, 0x9c, 0x7f, 0xf2), Word(0x68, 0x9f, 0x35, 0x2b), Word(0x6b, 0x5b, 0xea, 0x43), Word(0x02, 0x6a, 0x50, 0x49))
  const START_2 := Block(Word(0xaa, 0x8f, 0x5f, 0x03), Word(0x61, 0xdd, 0xe3, 0xef), Word(0x82, 0xd2, 0x4a, 0xd2), Word(0x68, 0x32, 0x46, 0x9a))
  const START_3 := Block(Word(0x48, 0x6c, 0x4e, 0xee), Word(0x67, 0x1d, 0x9d, 0x0d), Word(0x4d, 0xe3, 0xb1, 0x38), Word(0xd6, 0x5f, 0x58, 0xe7))
  const START_4 := Block(Word(0xe0, 0x92, 0x7f, 0xe8), Word(0xc8, 0x63, 0x63, 0xc0), Word(0xd9, 0xb1, 0x35, 0x50), Word(0x85, 0xb8, 0xbe, 0x01))
  const START_5 := Block(Word(0xf1, 0x00, 0x6f, 0x55), Word(0xc1, 0x92, 0x4c, 0xef), Word(0x7c, 0xc8, 0x8b, 0x32), Word(0x5d, 0xb5, 0xd5, 0x0c))
  const START_6 := Block(Word(0x26, 0x0e, 0x2e, 0x17), Word(0x3d, 0x41, 0xb7, 0x7d), Word(0xe8, 0x64, 0x72, 0xa9), Word(0xfd, 0xd2, 0x8b, 0x25))
  const START_7 := Block(Word(0x5a, 0x41, 0x42, 0xb1), Word(0x19, 0x49, 0xdc, 0x1f), Word(0xa3, 0xe0, 0x19, 0x65), Word(0x7a, 0x8c, 0x04, 0x0c))
  const START_8 := Block(Word(0xea, 0x83, 0x5c, 0xf0), Word(0x04, 0x45, 0x33, 0x2d), Word(0x65, 0x5d, 0x98, 0xad), Word(0x85, 0x96, 0xb0, 0xc5))
  const START_9 := Block(Word(0xeb, 0x40, 0xf2, 0x1e), Word(0x59, 0x2e, 0x38, 0x84), Word(0x8b, 0xa1, 0x13, 0xe7), Word(0x1b, 0xc3, 0x42, 0xd2))

  // The same after SubBytes.
  const SUB_0 := Block(Word(0xd4, 0x27, 0x11, 0xae), Word(0xe0, 0xbf, 0x98, 0xf1), Word(0xb8, 0xb4, 0x5d, 0xe5), Word(0x1e, 0x41, 0x52, 0x30))
  const SUB_1 := Block(Word(0x49, 0xde, 0xd2, 0x89), Word(0x45, 0xdb, 0x96, 0xf1), Word(0x7f, 0x39, 0x87, 0x1a), Word(0x77, 0x02, 0x53, 0x3b))
  const SUB_2 := Block(Word(0xac, 0x73, 0xcf, 0x7b), Word(0xef, 0xc1, 0x11, 0xdf), Word(0x13, 0xb5, 0xd6, 0xb5), Word(0x45, 0x23, 0x5a, 0xb8))
  const SUB_3 := Block(Word(0x52, 0x50, 0x2f, 0x28), Word(0x85, 0xa4, 0x5e, 0xd7), Word(0xe3, 0x11, 0xc8, 0x07), Word(0xf6, 0xcf, 0x6a, 0x94))
  const SUB_4 := Block(Word(0xe1, 0x4f, 0xd2, 0x9b), Word(0xe8, 0xfb, 0xfb, 0xba), Word(0x35, 0xc8, 0x96, 0x53), Word(0x97, 0x6c, 0xae, 0x7c))
  const SUB_5 := Block(Word(0xa1, 0x63, 0xa8, 0xfc), Word(0x78, 0x4f, 0x29, 0xdf), Word(0x10, 0xe8, 0x3d, 0x23), Word(0x4c, 0xd5, 0x03, 0xfe))
  const SUB_6 := Block(Word(0xf7, 0xab, 0x31, 0xf0), Word(0x27, 0x83, 0xa9, 0xff), Word(0x9b, 0x43, 0x40, 0xd3), Word(0x54, 0xb5, 0x3d, 0x3f))
  const SUB_7 := Block(Word(0xbe, 0x83, 0x2c, 0xc8), Word(0xd4, 0x3b, 0x86, 0xc0), Word(0x0a, 0xe1, 0xd4, 0x4d), Word(0xda, 0x64, 0xf2, 0xfe))
  const SUB_8 := Block(Word(0x87, 0xec, 0x4a, 0x8c), Word(0xf2, 0x6e, 0xc3, 0xd8), Word(0x4d, 0x4c, 0x46, 0x95), Word(0x97, 0x90, 0xe7, 0xa6))
  const SUB_9 := Block(Word(0xe9, 0x09, 0x89, 0x72), Word(0xcb, 0x31, 0x07, 0x5f), Word(0x3d, 0x32, 0x7d, 0x94), Word(0xaf, 0x2e, 0x2c, 0xb5))

  // One step each; every value follows from the one before.

  lemma Key1()
    ensures NextRoundKey(KEY, 1) == KEY_1
  {
  }

  lemma Key2()
    ensures NextRoundKey(KEY_1, 2) == KEY_2
  {
  }

  lemma Key3()
    ensures NextRoundKey(KEY_2, 3) == KEY_3
  {
  }

  lemma Key4()
    ensures NextRoundKey(KEY_3, 4) == KEY_4
  {
  }

  lemma Key5()
    ensures NextRoundKey(KEY_4, 5) == KEY_5
  {
  }

  lemma Key6()
    ensures NextRoundKey(KEY_5, 6) == KEY_6
  {
  }

  lemma Key7()
    ensures NextRoundKey(KEY_6, 7) == KEY_7
  {
  }

  lemma Key8()
    ensures NextRoundKey(KEY_7, 8) == KEY_8
  {
  }

  lemma Key9()
    ensures NextRoundKey(KEY_8, 9) == KEY_9
  {
  }

  lemma Key10()
    ensures NextRoundKey(KEY_9, 10) == KEY_10
  {
  }

  lemma Sub0()
    ensures SubBytes(START_0) == SUB_0
  {
  }

  lemma Sub1()
    ensures SubBytes(START_1) == SUB_1
  {
  }

  lemma Sub2()
    ensures SubBytes(START_2) == SUB_2
  {
  }

  lemma Sub3()
    ensures SubBytes(START_3) == SUB_3
  {
  }

  lemma Sub4()
    ensures SubBytes(START_4) == SUB_4
  {
  }

  lemma Sub5()
    ensures SubBytes(START_5) == SUB_5
  {
  }

  lemma Sub6()
    ensures SubBytes(START_6) == SUB_6
  {
  }

  lemma Sub7()
    ensures SubBytes(START_7) == SUB_7
  {
  }

  lemma Sub8()
    ensures SubBytes(START_8) == SUB_8
  {
  }

  lemma Sub9()
    ensures SubBytes(START_9) == SUB_9
  {
  }

  lemma Mix0()
    ensures Xor(PLAIN, KEY) == START_0
  {
  }

  lemma Mix1()
    ensures Xor(MixColumns(ShiftRows(SUB_0)), KEY_1) == START_1
  {
  }

  lemma Mix2()
    ensures Xor(MixColumns(ShiftRows(SUB_1)), KEY_2) == START_2
  {
  }

  lemma Mix3()
    ensures Xor(MixColumns(ShiftRows(SUB_2)), KEY_3) == START_3
  {
  }

  lemma Mix4()
    ensures Xor(MixColumns(ShiftRows(SUB_3)), KEY_4) == START_4
  {
  }

  lemma Mix5()
    ensures Xor(MixColumns(ShiftRows(SUB_4)), KEY_5) == START_5
  {
  }

  lemma Mix6()
    ensures Xor(MixColumns(ShiftRows(SUB_5)), KEY_6) == START_6
  {
  }

  lemma Mix7()
    ensures Xor(MixColumns(ShiftRows(SUB_6)), KEY_7) == START_7
  {
  }

  lemma Mix8()
    ensures Xor(MixColumns(ShiftRows(SUB_7)), KEY_8) == START_8
  {
  }

  lemma Mix9()
    ensures Xor(MixColumns(ShiftRows(SUB_8)), KEY_9) == START_9
  {
  }

  lemma Mix10()
    ensures Xor(ShiftRows(SUB_9), KEY_10) == CIPHER
  {
  }

  lemma Schedule()
    ensures RoundKey(KEY, 0) == KEY
    ensures RoundKey(KEY, 1) == KEY_1
    ensures RoundKey(KEY, 2) == KEY_2
    ensures RoundKey(KEY, 3) == KEY_3
    ensures RoundKey(KEY, 4) == KEY_4
    ensures RoundKey(KEY, 5) == KEY_5
    ensures RoundKey(KEY, 6) == KEY_6
    ensures RoundKey(KEY, 7) == KEY_7
    ensures RoundKey(KEY, 8) == KEY_8
    ensures RoundKey(KEY, 9) == KEY_9
    ensures RoundKey(KEY, 10) == KEY_10
  {
    hide RoundKey, NextRoundKey;
    RoundKeyZero(KEY);
    StepIsRecurrence(KEY, 1);
    Key1();
    StepIsRecurrence(KEY, 2);
    Key2();
    StepIsRecurrence(KEY, 3);
    Key3();
    StepIsRecurrence(KEY, 4);
    Key4();
    StepIsRecurrence(KEY, 5);
    Key5();
    StepIsRecurrence(KEY, 6);
    Key6();
    StepIsRecurrence(KEY, 7);
    Key7();
    StepIsRecurrence(KEY, 8);
    Key8();
    StepIsRecurrence(KEY, 9);
    Key9();
    StepIsRecurrence(KEY, 10);
    Key10();
  }

  lemma {:induction false} States(n: nat)
    requires n <= 9
    ensures n == 0 ==> EncryptRounds(KEY, PLAIN, n) == START_0
    ensures n == 1 ==> EncryptRounds(KEY, PLAIN, n) == START_1
    ensures n == 2 ==> EncryptRounds(KEY, PLAIN, n) == START_2
    ensures n == 3 ==> EncryptRounds(KEY, PLAIN, n) == START_3
    ensures n == 4 ==> EncryptRounds(KEY, PLAIN, n) == START_4
    ensures n == 5 ==> EncryptRounds(KEY, PLAIN, n) == START_5
    ensures n == 6 ==> EncryptRounds(KEY, PLAIN, n) == START_6
    ensures n == 7 ==> EncryptRounds(KEY, PLAIN, n) == START_7
    ensures n == 8 ==> EncryptRounds(KEY, PLAIN, n) == START_8
    ensures n == 9 ==> EncryptRounds(KEY, PLAIN, n) == START_9
  {
    hide RoundKey, SubBytes, ShiftRows, MixColumns, Xor;
    Schedule();
    if n == 0 {
      Mix0();
    } else {
      States(n - 1);
      match n
      case 1 => Sub0(); Mix1();
      case 2 => Sub1(); Mix2();
      case 3 => Sub2(); Mix3();
      case 4 => Sub3(); Mix4();
      case 5 => Sub4(); Mix5();
      case 6 => Sub5(); Mix6();
      case 7 => Sub6(); Mix7();
      case 8 => Sub7(); Mix8();
      case _ => Sub8(); Mix9();
    }
  }

  /** The printed ciphertext is the encryption of the printed plaintext, and decrypts to
      it. */
  lemma AppendixB()
    ensures Encrypt(KEY, PLAIN) == CIPHER && Decrypt(KEY, CIPHER) == PLAIN
  {
    hide RoundKey, SubBytes, ShiftRows, MixColumns, Xor, EncryptRounds, Decrypt;
    States(9);
    Schedule();
    Sub9();
    Mix10();
    DecryptEncrypt(KEY, PLAIN);
  }
}
