/** The modes of operation of NIST SP 800-38A as one machine that processes block
    requests against a running IV, and their laws over messages of any length. */
module Modes {
  import opened Blocks
  import opened Cipher

  /** The two-bit mode field. The unused value 3 acts as ECB. */
  type Mode = bv2
  const ECB: Mode := 0
  const CBC: Mode := 1
  const CTR: Mode := 2

  datatype Request = Request(mode: Mode, decrypt: bool, key: Block, data: Block)

  datatype Event = Load(iv: Block) | Process(request: Request)

  /** The output block of one request: SP 800-38A sections 6.1, 6.2 and 6.5. */
  function Output(iv: Block, r: Request): Block {
    if r.mode == CBC then
      if r.decrypt then Xor(Decrypt(r.key, r.data), iv) else Encrypt(r.key, Xor(r.data, iv))
    else if r.mode == CTR then
      Xor(r.data, Encrypt(r.key, iv))
    else
      if r.decrypt then Decrypt(r.key, r.data) else Encrypt(r.key, r.data)
  }

  /** The IV or counter it leaves: for CBC the ciphertext block, whichever side of
      the operation that is on. */
  function NextIv(iv: Block, r: Request): Block {
    if r.mode == CBC then (if r.decrypt then r.data else Output(iv, r))
    else if r.mode == CTR then Advance(iv, 1)
    else iv
  }

  function IvAfterOne(iv: Block, e: Event): Block {
    match e
    case Load(v) => v
    case Process(r) => NextIv(iv, r)
  }

  function OutputOfOne(iv: Block, e: Event): seq<Block> {
    match e
    case Load(_) => []
    case Process(r) => [Output(iv, r)]
  }

  function IvAfter(iv: Block, events: seq<Event>): Block
    decreases |events|
  {
    if events == [] then iv else IvAfter(IvAfterOne(iv, events[0]), events[1..])
  }

  function Outputs(iv: Block, events: seq<Event>): seq<Block>
    decreases |events|
  {
    if events == [] then []
    else OutputOfOne(iv, events[0]) + Outputs(IvAfterOne(iv, events[0]), events[1..])
  }

  /** A message is the same request for each of its blocks. */
  function Message(mode: Mode, decrypt: bool, key: Block, blocks: seq<Block>): (events: seq<Event>)
    ensures |events| == |blocks|
  {
    seq(|blocks|, i requires 0 <= i < |blocks| => Process(Request(mode, decrypt, key, blocks[i])))
  }

  lemma MessageTail(mode: Mode, decrypt: bool, key: Block, blocks: seq<Block>)
    requires blocks != []
    ensures Message(mode, decrypt, key, blocks)[1..] == Message(mode, decrypt, key, blocks[1..])
    ensures Message(mode, decrypt, key, blocks)[0] == Process(Request(mode, decrypt, key, blocks[0]))
  {
  }

  // ----- Splitting -----

  /** A stream of events can be cut anywhere, carrying the IV over. */
  lemma {:induction false} Split(iv: Block, xs: seq<Event>, ys: seq<Event>)
    ensures Outputs(iv, xs + ys) == Outputs(iv, xs) + Outputs(IvAfter(iv, xs), ys)
    ensures IvAfter(iv, xs + ys) == IvAfter(IvAfter(iv, xs), ys)
    decreases |xs|
  {
    hide IvAfterOne, OutputOfOne;
    if xs == [] {
      assert xs + ys == ys;
    } else {
      assert (xs + ys)[1..] == xs[1..] + ys;
      Split(IvAfterOne(iv, xs[0]), xs[1..], ys);
    }
  }

  /** Reloading the IV that is already there, at any point of any stream, changes
      neither an output nor the final IV. */
  lemma {:induction false} SplitIsInvisible(iv: Block, xs: seq<Event>, ys: seq<Event>)
    ensures Outputs(iv, xs + ([Load(IvAfter(iv, xs))] + ys)) == Outputs(iv, xs + ys)
    ensures IvAfter(iv, xs + ([Load(IvAfter(iv, xs))] + ys)) == IvAfter(iv, xs + ys)
  {
    hide Outputs, IvAfter;
    var v := IvAfter(iv, xs);
    Split(iv, xs, [Load(v)] + ys);
    Split(iv, xs, ys);
    LoadFirst(v, v, ys);
  }

  lemma LoadFirst(iv: Block, v: Block, ys: seq<Event>)
    ensures Outputs(iv, [Load(v)] + ys) == Outputs(v, ys)
    ensures IvAfter(iv, [Load(v)] + ys) == IvAfter(v, ys)
  {
    assert ([Load(v)] + ys)[1..] == ys;
    hide Output, NextIv;
  }

  lemma {:induction false} OutputCount(mode: Mode, decrypt: bool, key: Block, iv: Block, blocks: seq<Block>)
    ensures |Outputs(iv, Message(mode, decrypt, key, blocks))| == |blocks|
    decreases |blocks|
  {
    hide Output, NextIv;
    if blocks != [] {
      MessageTail(mode, decrypt, key, blocks);
      OutputCount(mode, decrypt, key, NextIv(iv, Request(mode, decrypt, key, blocks[0])), blocks[1..]);
    }
  }

  /** One request at the head of a message. */
  lemma MessageStep(mode: Mode, decrypt: bool, key: Block, iv: Block, blocks: seq<Block>)
    requires blocks != []
    ensures var r := Request(mode, decrypt, key, blocks[0]);
            && Outputs(iv, Message(mode, decrypt, key, blocks))
               == [Output(iv, r)] + Outputs(NextIv(iv, r), Message(mode, decrypt, key, blocks[1..]))
            && IvAfter(iv, Message(mode, decrypt, key, blocks))
               == IvAfter(NextIv(iv, r), Message(mode, decrypt, key, blocks[1..]))
  {
    hide Output, NextIv;
    MessageTail(mode, decrypt, key, blocks);
  }

  // ----- ECB -----

  /** Every block on its own, and the running IV left alone. The mode value 3 is
      treated as ECB. */
  lemma {:induction false} EcbStream(mode: Mode, decrypt: bool, key: Block, iv: Block, blocks: seq<Block>)
    requires mode == 0 || mode == 3
    ensures var out := Outputs(iv, Message(mode, decrypt, key, blocks));
            && |out| == |blocks|
            && forall i | 0 <= i < |blocks| :: out[i] == if decrypt then Decrypt(key, blocks[i]) else Encrypt(key, blocks[i])
    ensures IvAfter(iv, Message(mode, decrypt, key, blocks)) == iv
    decreases |blocks|
  {
    hide Encrypt, Decrypt, Xor;
    if blocks != [] {
      MessageStep(mode, decrypt, key, iv, blocks);
      EcbStream(mode, decrypt, key, iv, blocks[1..]);
    }
  }

  // ----- CBC -----

  /** After a CBC message the running IV is its last ciphertext block: the last
      output when encrypting, the last input when decrypting. */
  lemma {:induction false} CbcFinalIv(decrypt: bool, key: Block, iv: Block, blocks: seq<Block>)
    ensures var ciphertext := if decrypt then blocks else Outputs(iv, Message(CBC, false, key, blocks));
            && |ciphertext| == |blocks|
            && IvAfter(iv, Message(CBC, decrypt, key, blocks))
               == if blocks == [] then iv else ciphertext[|ciphertext| - 1]
    decreases |blocks|
  {
    hide Encrypt, Decrypt, Xor;
    OutputCount(CBC, false, key, iv, blocks);
    if blocks != [] {
      MessageStep(CBC, decrypt, key, iv, blocks);
      CbcFinalIv(decrypt, key, NextIv(iv, Request(CBC, decrypt, key, blocks[0])), blocks[1..]);
      OutputCount(CBC, false, key, NextIv(iv, Request(CBC, false, key, blocks[0])), blocks[1..]);
    }
  }

  /** Ciphertext block i is the encryption of message block i combined with the
      ciphertext block before it, or with the IV. */
  lemma {:induction false} CbcEncryptChains(key: Block, iv: Block, blocks: seq<Block>)
    ensures var out := Outputs(iv, Message(CBC, false, key, blocks));
            && |out| == |blocks|
            && forall i | 0 <= i < |blocks| :: out[i] == Encrypt(key, Xor(blocks[i], if i == 0 then iv else out[i - 1]))
    decreases |blocks|
  {
    hide Encrypt, Decrypt, Xor;
    if blocks != [] {
      MessageStep(CBC, false, key, iv, blocks);
      CbcEncryptChains(key, Output(iv, Request(CBC, false, key, blocks[0])), blocks[1..]);
    }
  }

  /** CBC decryption of what CBC encryption produced, from the same IV, is the
      message. */
  lemma {:induction false} CbcRoundTrip(key: Block, iv: Block, message: seq<Block>)
    ensures Outputs(iv, Message(CBC, true, key, Outputs(iv, Message(CBC, false, key, message)))) == message
    decreases |message|
  {
    hide Encrypt, Decrypt, Xor;
    if message == [] {
    } else {
      MessageStep(CBC, false, key, iv, message);
      var c := Output(iv, Request(CBC, false, key, message[0]));
      var rest := Outputs(c, Message(CBC, false, key, message[1..]));
      MessageStep(CBC, true, key, iv, [c] + rest);
      assert ([c] + rest)[1..] == rest;
      CbcRoundTrip(key, c, message[1..]);
      DecryptEncrypt(key, Xor(message[0], iv));
      XorLaws(message[0], iv);
    }
  }

  /** And the other way: every block string is the CBC encryption of its
      decryption. */
  lemma {:induction false} CbcRoundTripBack(key: Block, iv: Block, ciphertext: seq<Block>)
    ensures Outputs(iv, Message(CBC, false, key, Outputs(iv, Message(CBC, true, key, ciphertext)))) == ciphertext
    decreases |ciphertext|
  {
    hide Encrypt, Decrypt, Xor;
    if ciphertext == [] {
    } else {
      MessageStep(CBC, true, key, iv, ciphertext);
      var p := Output(iv, Request(CBC, true, key, ciphertext[0]));
      var rest := Outputs(ciphertext[0], Message(CBC, true, key, ciphertext[1..]));
      MessageStep(CBC, false, key, iv, [p] + rest);
      assert ([p] + rest)[1..] == rest;
      XorLaws(Decrypt(key, ciphertext[0]), iv);
      EncryptDecrypt(key, ciphertext[0]);
      CbcRoundTripBack(key, ciphertext[0], ciphertext[1..]);
    }
  }

  /** Plaintext block i depends on ciphertext blocks i and i - 1 alone. */
  lemma {:induction false} CbcDecryptIsLocal(key: Block, iv: Block, ciphertext: seq<Block>, i: nat)
    requires i < |ciphertext|
    ensures |Outputs(iv, Message(CBC, true, key, ciphertext))| == |ciphertext|
    ensures Outputs(iv, Message(CBC, true, key, ciphertext))[i]
         == Xor(Decrypt(key, ciphertext[i]), if i == 0 then iv else ciphertext[i - 1])
    decreases |ciphertext|
  {
    hide Encrypt, Decrypt, Xor;
    OutputCount(CBC, true, key, iv, ciphertext);
    MessageStep(CBC, true, key, iv, ciphertext);
    if i > 0 {
      CbcDecryptIsLocal(key, ciphertext[0], ciphertext[1..], i - 1);
    }
  }

  /** So any suffix of a ciphertext decrypts alone, given the block before it. */
  lemma {:induction false} CbcSuffixDecryptsAlone(key: Block, iv: Block, ciphertext: seq<Block>, k: nat)
    requires 0 < k <= |ciphertext|
    ensures |Outputs(iv, Message(CBC, true, key, ciphertext))| == |ciphertext|
    ensures Outputs(ciphertext[k - 1], Message(CBC, true, key, ciphertext[k..]))
         == Outputs(iv, Message(CBC, true, key, ciphertext))[k..]
    decreases |ciphertext|
  {
    hide Encrypt, Decrypt, Xor;
    OutputCount(CBC, true, key, iv, ciphertext);
    MessageStep(CBC, true, key, iv, ciphertext);
    if k == 1 {
    } else {
      CbcSuffixDecryptsAlone(key, ciphertext[0], ciphertext[1..], k - 1);
      assert ciphertext[1..][k - 1..] == ciphertext[k..];
    }
  }

  // ----- CTR -----

  /** Block i is combined with the encryption of the counter iv + i modulo 2^128,
      in either direction, and n blocks leave the counter at iv + n. */
  lemma {:induction false} CtrAdvances(decrypt: bool, key: Block, iv: Block, blocks: seq<Block>)
    ensures var out := Outputs(iv, Message(CTR, decrypt, key, blocks));
            && |out| == |blocks|
            && forall i | 0 <= i < |blocks| :: out[i] == Xor(blocks[i], Encrypt(key, Advance(iv, i)))
    ensures IvAfter(iv, Message(CTR, decrypt, key, blocks)) == Advance(iv, |blocks|)
    decreases |blocks|
  {
    hide Encrypt, Decrypt, Xor, Advance;
    AdvanceTwice(iv, 0, 0);
    if blocks != [] {
      MessageStep(CTR, decrypt, key, iv, blocks);
      CtrAdvances(decrypt, key, Advance(iv, 1), blocks[1..]);
      AdvanceTwice(iv, 1, |blocks| - 1);
      var out := Outputs(iv, Message(CTR, decrypt, key, blocks));
      forall i | 0 <= i < |blocks|
        ensures out[i] == Xor(blocks[i], Encrypt(key, Advance(iv, i)))
      {
        if i > 0 {
          AdvanceTwice(iv, 1, i - 1);
          assert out[i] == Xor(blocks[1..][i - 1], Encrypt(key, Advance(Advance(iv, 1), i - 1)));
        }
      }
    }
  }

  /** The counter of block i: the number iv + i modulo 2^128. */
  function Counter(iv: Block, i: nat): (c: Block)
    ensures Value(c) == (Value(iv) + i) % 0x1_0000_0000_0000_0000_0000_0000_0000_0000
  {
    var n := (Value(iv) + i) % 0x1_0000_0000_0000_0000_0000_0000_0000_0000;
    OfValueRoundTrip(n);
    OfValue(n)
  }

  /** The same with the counter as a number. A block is determined by its number, so
      each counter is the one of this value. */
  lemma {:induction false} CtrStream(decrypt: bool, key: Block, iv: Block, blocks: seq<Block>)
    ensures var out := Outputs(iv, Message(CTR, decrypt, key, blocks));
            && |out| == |blocks|
            && forall i | 0 <= i < |blocks| :: out[i] == Xor(blocks[i], Encrypt(key, Counter(iv, i)))
    ensures IvAfter(iv, Message(CTR, decrypt, key, blocks)) == Counter(iv, |blocks|)
    ensures Value(IvAfter(iv, Message(CTR, decrypt, key, blocks)))
         == (Value(iv) + |blocks|) % 0x1_0000_0000_0000_0000_0000_0000_0000_0000
  {
    hide Encrypt, Xor, Advance, Value, OfValue, Outputs, IvAfter, Message;
    CtrAdvances(decrypt, key, iv, blocks);
    forall i: nat
      ensures Advance(iv, i) == Counter(iv, i)
    {
      AdvanceAdds(iv, i);
    }
  }

  /** The direction bit has no effect in CTR mode. */
  lemma {:induction false} CtrIgnoresDirection(key: Block, iv: Block, blocks: seq<Block>)
    ensures Outputs(iv, Message(CTR, true, key, blocks)) == Outputs(iv, Message(CTR, false, key, blocks))
  {
    CtrAdvances(true, key, iv, blocks);
    CtrAdvances(false, key, iv, blocks);
    hide Encrypt, Xor, Advance, Output, NextIv;
  }

  /** A second run from the same counter restores the message. */
  lemma {:induction false} CtrRoundTrip(d1: bool, d2: bool, key: Block, iv: Block, message: seq<Block>)
    ensures Outputs(iv, Message(CTR, d2, key, Outputs(iv, Message(CTR, d1, key, message)))) == message
  {
    var out := Outputs(iv, Message(CTR, d1, key, message));
    CtrAdvances(d1, key, iv, message);
    CtrAdvances(d2, key, iv, out);
    hide Encrypt, Xor, Advance, Output, NextIv, Outputs;
    forall i | 0 <= i < |message|
      ensures Outputs(iv, Message(CTR, d2, key, out))[i] == message[i]
    {
      XorLaws(message[i], Encrypt(key, Advance(iv, i)));
    }
  }
}
