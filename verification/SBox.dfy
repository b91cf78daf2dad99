/** The S-box and its inverse, as the RTL tabulates them, and the field definition
    they come from: FIPS-197 section 5.1.1. */
module SBox {
  import opened Gf256

  /** Row r holds the sixteen entries of inputs 0xr0 to 0xrf, first entry on top. */
  function FwdRow(r: bv8): bv128 {
    match r
    case 0x0 => 0x637c777b_f26b6fc5_3001672b_fed7ab76
    case 0x1 => 0xca82c97d_fa5947f0_add4a2af_9ca472c0
    case 0x2 => 0xb7fd9326_363ff7cc_34a5e5f1_71d83115
    case 0x3 => 0x04c723c3_1896059a_071280e2_eb27b275
    case 0x4 => 0x09832c1a_1b6e5aa0_523bd6b3_29e32f84
    case 0x5 => 0x53d100ed_20fcb15b_6acbbe39_4a4c58cf
    case 0x6 => 0xd0efaafb_434d3385_45f9027f_503c9fa8
    case 0x7 => 0x51a3408f_929d38f5_bcb6da21_10fff3d2
    case 0x8 => 0xcd0c13ec_5f974417_c4a77e3d_645d1973
    case 0x9 => 0x60814fdc_222a9088_46eeb814_de5e0bdb
    case 0xa => 0xe0323a0a_4906245c_c2d3ac62_9195e479
    case 0xb => 0xe7c8376d_8dd54ea9_6c56f4ea_657aae08
    case 0xc => 0xba78252e_1ca6b4c6_e8dd741f_4bbd8b8a
    case 0xd => 0x703eb566_4803f60e_613557b9_86c11d9e
    case 0xe => 0xe1f89811_69d98e94_9b1e87e9_ce5528df
    case _   => 0x8ca1890d_bfe64268_41992d0f_b054bb16
  }

  function InvRow(r: bv8): bv128 {
    match r
    case 0x0 => 0x52096ad5_3036a538_bf40a39e_81f3d7fb
    case 0x1 => 0x7ce33982_9b2fff87_348e4344_c4dee9cb
    case 0x2 => 0x547b9432_a6c2233d_ee4c950b_42fac34e
    case 0x3 => 0x082ea166_28d924b2_765ba249_6d8bd125
    case 0x4 => 0x72f8f664_86689816_d4a45ccc_5d65b692
    case 0x5 => 0x6c704850_fdedb9da_5e154657_a78d9d84
    case 0x6 => 0x90d8ab00_8cbcd30a_f7e45805_b8b34506
    case 0x7 => 0xd02c1e8f_ca3f0f02_c1afbd03_01138a6b
    case 0x8 => 0x3a911141_4f67dcea_97f2cfce_f0b4e673
    case 0x9 => 0x96ac7422_e7ad3585_e2f937e8_1c75df6e
    case 0xa => 0x47f11a71_1d29c589_6fb7620e_aa18be1b
    case 0xb => 0xfc563e4b_c6d27920_9adbc0fe_78cd5af4
    case 0xc => 0x1fdda833_8807c731_b1121059_2780ec5f
    case 0xd => 0x60517fa9_19b54a0d_2de57a9f_93c99cef
    case 0xe => 0xa0e03b4d_ae2af5b0_c8ebbb3c_83539961
    case _   => 0x172b047e_ba77d626_e1691463_55210c7d
  }

  /** Entry k of a row. */
  function Entry(row: bv128, k: bv8): bv8
    requires k < 16
  {
    ((row >> (8 * (15 - k))) & 0xff) as bv8
  }

  /** SubBytes and SubWord on one byte. */
  function SboxFwd(a: bv8): bv8 {
    Entry(FwdRow(a >> 4), a & 0x0f)
  }

  /** InvSubBytes on one byte. */
  function SboxInv(a: bv8): bv8 {
    Entry(InvRow(a >> 4), a & 0x0f)
  }

  lemma InvOfFwdLow(a: bv8)
    requires a & 0x80 == 0
    ensures SboxInv(SboxFwd(a)) == a
  {
  }

  lemma InvOfFwdHigh(a: bv8)
    requires a & 0x80 != 0
    ensures SboxInv(SboxFwd(a)) == a
  {
  }

  lemma InvOfFwd(a: bv8)
    ensures SboxInv(SboxFwd(a)) == a
  {
    hide SboxFwd, SboxInv;
    if a & 0x80 == 0 {
      InvOfFwdLow(a);
    } else {
      InvOfFwdHigh(a);
    }
  }

  lemma FwdOfInvLow(a: bv8)
    requires a & 0x80 == 0
    ensures SboxFwd(SboxInv(a)) == a
  {
  }

  lemma FwdOfInvHigh(a: bv8)
    requires a & 0x80 != 0
    ensures SboxFwd(SboxInv(a)) == a
  {
  }

  lemma FwdOfInv(a: bv8)
    ensures SboxFwd(SboxInv(a)) == a
  {
    hide SboxFwd, SboxInv;
    if a & 0x80 == 0 {
      FwdOfInvLow(a);
    } else {
      FwdOfInvHigh(a);
    }
  }

  // ----- The field definition -----

  function Rotate(b: bv8, n: bv8): bv8
    requires n < 8
  {
    (b << n) | (b >> (8 - n))
  }

  /** The affine map of FIPS-197 equation (5.1): output bit i is the sum of input
      bits i, i+4, i+5, i+6, i+7 (modulo 8) and bit i of 0x63. */
  function Affine(b: bv8): bv8 {
    Add(Add(Add(Add(Add(b, Rotate(b, 4)), Rotate(b, 3)), Rotate(b, 2)), Rotate(b, 1)), 0x63)
  }

  /** The byte that the affine map sends to `a`'s S-box entry. */
  ghost function FieldInverse(a: bv8): bv8 {
    var s := SboxFwd(a);
    Rotate(s, 1) ^ Rotate(s, 3) ^ Rotate(s, 6) ^ 0x05
  }

  lemma AffineOfFieldInverse(a: bv8)
    ensures Affine(FieldInverse(a)) == SboxFwd(a)
  {
    AffineInverts(SboxFwd(a));
    hide SboxFwd, Affine;
  }

  lemma AffineInverts(s: bv8)
    ensures Affine(Rotate(s, 1) ^ Rotate(s, 3) ^ Rotate(s, 6) ^ 0x05) == s
  {
  }

  /** `GMul` with its recursion written out. */
  ghost function Product(a: bv8, b: bv8): bv8 {
    var a1, b1 := XTime(a), Half(b);
    var a2, b2 := XTime(a1), Half(b1);
    var a3, b3 := XTime(a2), Half(b2);
    var a4, b4 := XTime(a3), Half(b3);
    var a5, b5 := XTime(a4), Half(b4);
    var a6, b6 := XTime(a5), Half(b5);
    var a7, b7 := XTime(a6), Half(b6);
    Add(Select(b, a), Add(Select(b1, a1), Add(Select(b2, a2), Add(Select(b3, a3),
      Add(Select(b4, a4), Add(Select(b5, a5), Add(Select(b6, a6), Add(Select(b7, a7), 0))))))))
  }

  lemma {:induction false} GMulUnrolled(a: bv8, b: bv8)
    ensures GMul(a, b) == Product(a, b)
  {
    var a1, b1 := XTime(a), Half(b);
    var a2, b2 := XTime(a1), Half(b1);
    var a3, b3 := XTime(a2), Half(b2);
    var a4, b4 := XTime(a3), Half(b3);
    var a5, b5 := XTime(a4), Half(b4);
    var a6, b6 := XTime(a5), Half(b5);
    var a7, b7 := XTime(a6), Half(b6);
    assert Half(b7) == 0;
    hide GMul, XTime, Select, Half, Add;
    GMulStep(a, b);
    GMulStep(a1, b1);
    GMulStep(a2, b2);
    GMulStep(a3, b3);
    GMulStep(a4, b4);
    GMulStep(a5, b5);
    GMulStep(a6, b6);
    GMulStep(a7, b7);
    GMulStep(XTime(a7), 0);
  }

  lemma ProductOfInverse(a: bv8)
    requires a != 0
    ensures Product(a, FieldInverse(a)) == 1
  {
    match a >> 4
    case 0x0 =>
    case 0x1 =>
    case 0x2 =>
    case 0x3 =>
    case 0x4 =>
    case 0x5 =>
    case 0x6 =>
    case 0x7 =>
    case 0x8 =>
    case 0x9 =>
    case 0xa =>
    case 0xb =>
    case 0xc =>
    case 0xd =>
    case 0xe =>
    case _ =>
  }

  /** The tabulated S-box is the affine map of the multiplicative inverse, with 0
      standing as its own inverse. */
  lemma {:induction false} SboxIsAffineOfInverse(a: bv8, b: bv8)
    requires if a == 0 then b == 0 else GMul(a, b) == 1
    ensures SboxFwd(a) == Affine(b)
    ensures b == FieldInverse(a)
  {
    AffineOfFieldInverse(a);
    if a == 0 {
      assert FieldInverse(0) == 0;
    } else {
      hide GMul, Product, SboxFwd, Affine, FieldInverse;
      ProductOfInverse(a);
      GMulUnrolled(a, FieldInverse(a));
      InverseUnique(a, b, FieldInverse(a));
    }
  }

  /** Every nonzero byte has an inverse. */
  lemma {:induction false} InverseExists(a: bv8)
    requires a != 0
    ensures GMul(a, FieldInverse(a)) == 1 && FieldInverse(a) != 0
  {
    hide GMul, Product, SboxFwd, FieldInverse;
    ProductOfInverse(a);
    GMulUnrolled(a, FieldInverse(a));
    GMulStep(a, 0);
  }
}
