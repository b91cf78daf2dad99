/** The differential test as a program: the peripheral driven over its registers and
    compared with the reference model. It cannot fail on any list of inputs. */
module DiffTest {
  import opened Blocks
  import opened Core
  import opened Modes
  import opened Chain
  import opened Registers
  import opened Driver
  import Cipher
  import KnownAnswer
  import Reference

  /** One block through the registers: write KEY and DATA, start, poll, read the
      result, clear DONE. */
  method RtlRun(dut: Aes, key: Block, input: Block, decrypt: bool) returns (ok: bool, out: Block)
    requires dut.Valid() && Settled(dut.State()) && !dut.statusDone
    modifies dut.Repr()
    ensures ok && out == if decrypt then Cipher.Decrypt(key, input) else Cipher.Encrypt(key, input)
    ensures Settled(dut.State()) && !dut.statusDone
  {
    hide Settled, Cipher.Encrypt, Cipher.Decrypt, Xor, Counter;
    WriteBlock(dut, 0x10, key);
    WriteBlock(dut, 0x20, input);
    ok, out := RunBlock(dut, if decrypt then 0x3 else 0x1);
  }

  /** The cipher example of FIPS-197 appendix B through the registers, in both
      directions. */
  method AppendixBOnTheBus(dut: Aes) returns (cipher: Block, plain: Block)
    requires dut.Valid() && Settled(dut.State()) && !dut.statusDone
    modifies dut.Repr()
    ensures cipher == KnownAnswer.CIPHER && plain == KnownAnswer.PLAIN
    ensures Settled(dut.State()) && !dut.statusDone
  {
    hide Settled, Cipher.Encrypt, Cipher.Decrypt;
    KnownAnswer.AppendixB();
    var ok;
    ok, cipher := RtlRun(dut, KnownAnswer.KEY, KnownAnswer.PLAIN, false);
    ok, plain := RtlRun(dut, KnownAnswer.KEY, KnownAnswer.CIPHER, true);
  }

  /** The reference model checked against the same example before it is trusted: the
      bytes are those the standard prints, first byte first. */
  method SelfCheck(t: Reference.Tables) returns (passed: bool)
    requires t.Ready()
    ensures passed
  {
    hide *;
    var key := new bv8[16] [0x2b, 0x7e, 0x15, 0x16, 0x28, 0xae, 0xd2, 0xa6, 0xab, 0xf7, 0x15, 0x88, 0x09, 0xcf, 0x4f, 0x3c];
    var pt := new bv8[16] [0x32, 0x43, 0xf6, 0xa8, 0x88, 0x5a, 0x30, 0x8d, 0x31, 0x31, 0x98, 0xa2, 0xe0, 0x37, 0x07, 0x34];
    var expected := new bv8[16] [0x39, 0x25, 0x84, 0x1d, 0x02, 0xdc, 0x09, 0xfb, 0xdc, 0x11, 0x85, 0x97, 0x19, 0x6a, 0x0b, 0x32];
    KnownAnswer.AppendixB();
    ExampleBytes(key[..], pt[..], expected[..]);
    var ct := Reference.Encrypt(t, pt, key);
    SameBytes(ct[..], expected[..]);
    var pt2 := Reference.Decrypt(t, ct, key);
    SameBytes(pt2[..], pt[..]);
    passed := ct[..] == expected[..] && pt2[..] == pt[..];
  }

  lemma ExampleBytes(key: seq<bv8>, pt: seq<bv8>, ct: seq<bv8>)
    requires key == [0x2b, 0x7e, 0x15, 0x16, 0x28, 0xae, 0xd2, 0xa6, 0xab, 0xf7, 0x15, 0x88, 0x09, 0xcf, 0x4f, 0x3c]
    requires pt == [0x32, 0x43, 0xf6, 0xa8, 0x88, 0x5a, 0x30, 0x8d, 0x31, 0x31, 0x98, 0xa2, 0xe0, 0x37, 0x07, 0x34]
    requires ct == [0x39, 0x25, 0x84, 0x1d, 0x02, 0xdc, 0x09, 0xfb, 0xdc, 0x11, 0x85, 0x97, 0x19, 0x6a, 0x0b, 0x32]
    ensures BlockOf(key) == KnownAnswer.KEY && BlockOf(pt) == KnownAnswer.PLAIN && BlockOf(ct) == KnownAnswer.CIPHER
  {
  }

  lemma SameBytes(s: seq<bv8>, t: seq<bv8>)
    requires |s| == |t| == 16 && BlockOf(s) == BlockOf(t)
    ensures s == t
  {
    hide BlockOf, ByteAt;
    forall i | 0 <= i < 16
      ensures s[i] == t[i]
    {
      assert ByteAt(BlockOf(s), i) == ByteAt(BlockOf(t), i);
    }
  }

  datatype TestCase = TestCase(key: Block, plaintext: Block)

  method ToBytes(b: Block) returns (a: array<bv8>)
    ensures fresh(a) && a.Length == 16 && BlockOf(a[..]) == b
  {
    a := new bv8[16](i requires 0 <= i < 16 => ByteAt(b, i));
    BlockEquality(BlockOf(a[..]), b);
  }

  method ReferenceEncrypt(t: Reference.Tables, c: TestCase) returns (cipher: Block)
    requires t.Ready()
    ensures cipher == Cipher.Encrypt(c.key, c.plaintext)
  {
    hide Reference.TablesReady, BlockOf, Cipher.Encrypt;
    var keyBytes := ToBytes(c.key);
    var plainBytes := ToBytes(c.plaintext);
    var cipherBytes := Reference.Encrypt(t, plainBytes, keyBytes);
    cipher := BlockOf(cipherBytes[..]);
  }

  /** What one case produced: the peripheral's ciphertext, the reference model's, and what
      the peripheral made of decrypting the former. */
  datatype Outcome = Outcome(rtl: Block, reference: Block, restored: Block)

  predicate Correct(c: TestCase, o: Outcome) {
    o == Outcome(Cipher.Encrypt(c.key, c.plaintext), Cipher.Encrypt(c.key, c.plaintext), c.plaintext)
  }

  /** One case: encrypt on both sides, then decrypt the peripheral's own ciphertext. A
      timeout is a failure too. */
  method RunCase(dut: Aes, refCipher: Block, c: TestCase) returns (outcome: Outcome, matches: bool, restores: bool)
    requires dut.Valid() && Settled(dut.State()) && !dut.statusDone
    requires refCipher == Cipher.Encrypt(c.key, c.plaintext)
    modifies dut.Repr()
    ensures Correct(c, outcome) && matches && restores
    ensures Settled(dut.State()) && !dut.statusDone
  {
    hide Settled, Cipher.Encrypt, Cipher.Decrypt;
    var ok, cipher := RtlRun(dut, c.key, c.plaintext, false);
    matches := ok && cipher == refCipher;
    var ok2, plain := RtlRun(dut, c.key, cipher, true);
    Cipher.DecryptEncrypt(c.key, c.plaintext);
    restores := ok2 && plain == c.plaintext;
    outcome := Outcome(cipher, refCipher, plain);
  }

  /** The regression: for every case the peripheral's ciphertext equals the
      reference model's, and decrypting that ciphertext restores the plaintext. */
  method DifferentialTest(dut: Aes, t: Reference.Tables, cases: seq<TestCase>)
    returns (outcomes: seq<Outcome>, failCount: nat)
    requires dut.Valid() && Settled(dut.State()) && !dut.statusDone
    requires t.Ready() && {t.sbox, t.invSbox, t.rcon} !! dut.Repr()
    modifies dut.Repr()
    ensures |outcomes| == |cases| && forall i | 0 <= i < |cases| :: Correct(cases[i], outcomes[i])
    ensures failCount == 0
  {
    hide Settled, Correct, Cipher.Encrypt, Reference.TablesReady;
    outcomes, failCount := [], 0;
    for i := 0 to |cases|
      invariant |outcomes| == i && forall k | 0 <= k < i :: Correct(cases[k], outcomes[k])
      invariant failCount == 0
      invariant Settled(dut.State()) && !dut.statusDone
      invariant t.Ready()
    {
      var refCipher := ReferenceEncrypt(t, cases[i]);
      var outcome, matches, restores := RunCase(dut, refCipher, cases[i]);
      outcomes := outcomes + [outcome];
      failCount := failCount + (if matches then 0 else 1) + (if restores then 0 else 1);
    }
  }

  /** The whole program: tables, self-check, power-up and reset, then the regression. */
  method Regression(cases: seq<TestCase>) returns (trusted: bool, outcomes: seq<Outcome>, failCount: nat)
    ensures trusted
    ensures |outcomes| == |cases| && forall i | 0 <= i < |cases| :: Correct(cases[i], outcomes[i])
    ensures failCount == 0
  {
    hide AesStep, Settled, Correct, Reference.TablesReady;
    outcomes, failCount := [], 0;
    var t := new Reference.Tables();
    t.InitTables();
    trusted := SelfCheck(t);
    if !trusted {
      return;
    }
    var dut := PowerUp();
    outcomes, failCount := DifferentialTest(dut, t, cases);
  }

  /** Arbitrary registers, two clocks of reset and one idle clock. */
  method PowerUp() returns (dut: Aes)
    ensures fresh(dut.Repr()) && dut.Valid() && Settled(dut.State()) && !dut.statusDone
    ensures dut.key == ZERO_BLOCK && dut.iv == ZERO_BLOCK && dut.chain.iv == ZERO_BLOCK
  {
    hide AesStep, Settled;
    dut := new Aes();
    var reset, idle := BusInputs(false, false, 0, false, 0, false, 0), BusInputs(true, false, 0, false, 0, false, 0);
    dut.Tick(reset);
    ResetSettles(dut.State(), reset);
    FrontReset(dut.State(), reset);
    dut.Tick(reset);
    SettledStep(dut.State(), idle);
    DoneStep(dut.State(), idle);
    OtherWrites(dut.State(), idle, 0);
    dut.Tick(idle);
  }

  /** One reset edge settles the peripheral, whatever it powered up as. */
  lemma {:induction false} ResetSettles(s: AesState, reset: BusInputs)
    requires !reset.resetn
    ensures Settled(AesStep(s, reset)) && !AesStep(s, reset).regs.statusDone
  {
    hide ChainRefines, ChainStep;
    ChainOfStep(s, reset);
    ChainReset(s.chain, ChainInputsOf(s.regs, reset, PortOf(s.chain).busy));
    hide AesStep;
  }
}
