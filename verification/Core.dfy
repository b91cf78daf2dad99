/** The AES core: a block operation runs the key expander, then one round of the
    cipher per clock edge. */
module Core {
  import opened Blocks
  import opened Rounds
  import opened Cipher
  import opened KeyExpand

  datatype Phase = Idle | KeyExp | Round | Final

  datatype CoreInputs = CoreInputs(resetn: bool, start: bool, encdec: bool, keyIn: Block, dataIn: Block)

  datatype CoreState = CoreState(
    phase: Phase, encdec: bool, rnum: Nibble, data: Block,
    busy: bool, done: bool, out: Block, ke: KeyState)

  function ExpanderInputs(s: CoreState, input: CoreInputs): KeyInputs {
    KeyInputs(input.resetn, s.phase.Idle? && input.start, input.keyIn)
  }

  // The combinational next values of the data register.

  function EncRoundNext(data: Block, key: Block): Block {
    Xor(MixColumns(ShiftRows(SubBytes(data))), key)
  }

  function EncFinalNext(data: Block, key: Block): Block {
    Xor(ShiftRows(SubBytes(data)), key)
  }

  function DecRoundNext(data: Block, key: Block): Block {
    InvMixColumns(Xor(InvSubBytes(InvShiftRows(data)), key))
  }

  function DecFinalNext(data: Block, key: Block): Block {
    Xor(InvSubBytes(InvShiftRows(data)), key)
  }

  /** One clock edge. */
  function CoreStep(s: CoreState, input: CoreInputs): CoreState {
    var t := s.(ke := KeyStep(s.ke, ExpanderInputs(s, input)), done := false);
    var key := ReadKey(s.ke.rk, s.rnum);
    if !input.resetn then
      t.(phase := Idle, busy := false)
    else
      match s.phase
      case Idle =>
        if input.start then
          t.(encdec := input.encdec, data := input.dataIn, busy := true, phase := KeyExp)
        else
          t.(busy := false)
      case KeyExp =>
        if !s.ke.done then t
        else if s.encdec then t.(data := Xor(s.data, s.ke.rk[10]), rnum := 9, phase := Round)
        else t.(data := Xor(s.data, s.ke.rk[0]), rnum := 1, phase := Round)
      case Round =>
        if !s.encdec then
          var u := t.(data := EncRoundNext(s.data, key));
          if s.rnum == 9 then u.(rnum := 10, phase := Final) else u.(rnum := (s.rnum + 1) % 16)
        else
          var u := t.(data := DecRoundNext(s.data, key));
          if s.rnum == 1 then u.(rnum := 0, phase := Final) else u.(rnum := (s.rnum + 15) % 16)
      case Final =>
        t.(out := if s.encdec then DecFinalNext(s.data, key) else EncFinalNext(s.data, key),
           busy := false, done := true, phase := Idle)
  }

  /** The module's registers and its key expander, updated in place. */
  class AesCore {
    var phase: Phase
    var encdec: bool
    var rnum: Nibble
    var data: Block
    var busy: bool
    var done: bool
    var out: Block
    const ke: KeyExpander

    ghost function Repr(): set<object> {
      {this, ke, ke.rk}
    }

    ghost predicate Valid() {
      ke.Valid()
    }

    ghost function State(): CoreState
      requires Valid()
      reads Repr()
    {
      CoreState(phase, encdec, rnum, data, busy, done, out, ke.State())
    }

    constructor ()
      ensures Valid() && fresh(Repr())
    {
      ke := new KeyExpander();
    }

    method Latch(phase': Phase, encdec': bool, rnum': Nibble, data': Block, busy': bool, done': bool, out': Block)
      modifies this
      ensures phase == phase' && encdec == encdec' && rnum == rnum' && data == data'
      ensures busy == busy' && done == done' && out == out'
    {
      phase, encdec, rnum, data, busy, done, out := phase', encdec', rnum', data', busy', done', out';
    }

    /** Next values are worked out from the registers before the edge, the
        expander's included; then every register takes its next value. */
    method Tick(input: CoreInputs)
      requires Valid()
      modifies Repr()
      ensures State() == CoreStep(old(State()), input)
    {
      hide KeyStep, EncRoundNext, DecRoundNext, EncFinalNext, DecFinalNext, Xor;
      var phase', encdec', rnum', data' := phase, encdec, rnum, data;
      var busy', done', out' := busy, false, out;
      var key := if rnum < 11 then ke.rk[rnum] else ZERO_BLOCK;
      if !input.resetn {
        phase', busy' := Idle, false;
      } else {
        match phase
        case Idle =>
          busy' := false;
          if input.start {
            encdec', data', busy', phase' := input.encdec, input.dataIn, true, KeyExp;
          }
        case KeyExp =>
          if ke.done {
            if encdec {
              data', rnum' := Xor(data, ke.rk[10]), 9;
            } else {
              data', rnum' := Xor(data, ke.rk[0]), 1;
            }
            phase' := Round;
          }
        case Round =>
          if !encdec {
            data' := EncRoundNext(data, key);
            if rnum == 9 {
              rnum', phase' := 10, Final;
            } else {
              rnum' := (rnum + 1) % 16;
            }
          } else {
            data' := DecRoundNext(data, key);
            if rnum == 1 {
              rnum', phase' := 0, Final;
            } else {
              rnum' := (rnum + 15) % 16;
            }
          }
        case Final =>
          out' := if encdec then DecFinalNext(data, key) else EncFinalNext(data, key);
          busy', done', phase' := false, true, Idle;
      }
      ke.Tick(KeyInputs(input.resetn, phase.Idle? && input.start, input.keyIn));
      Latch(phase', encdec', rnum', data', busy', done', out');
    }
  }

  // ----- The core as a countdown -----

  datatype Option<T> = None | Some(value: T)

  datatype CoreJob = CoreJob(decrypt: bool, key: Block, data: Block)

  /** What a block operation computes, in one go. */
  function Crypt(job: CoreJob): Block {
    if job.decrypt then Decrypt(job.key, job.data) else Encrypt(job.key, job.data)
  }

  /** The core with its round and key schedule registers abstracted away: the job
      in progress and the number of edges since the one that accepted it. */
  datatype CoreModel = CoreModel(job: Option<CoreJob>, elapsed: nat, done: bool, out: Block)

  /** Edges from acceptance to `done`. */
  const CORE_LATENCY := 21

  function CoreModelStep(a: CoreModel, input: CoreInputs): CoreModel {
    if !input.resetn then
      a.(job := None, done := false)
    else
      match a.job
      case None =>
        if input.start then
          CoreModel(Some(CoreJob(input.encdec, input.keyIn, input.dataIn)), 0, false, a.out)
        else
          a.(done := false)
      case Some(job) =>
        if a.elapsed + 1 < CORE_LATENCY then a.(elapsed := a.elapsed + 1, done := false)
        else CoreModel(None, 0, true, Crypt(job))
  }

  /** The data register after the initial key addition and n rounds. */
  ghost function RoundState(job: CoreJob, n: nat): Block
    requires n <= 9
  {
    if job.decrypt then DecryptRounds(job.key, job.data, n) else EncryptRounds(job.key, job.data, n)
  }

  /** The registers `elapsed` edges after the one that accepted the job. */
  ghost predicate Working(s: CoreState, job: CoreJob, elapsed: nat) {
    && elapsed < CORE_LATENCY
    && s.encdec == job.decrypt
    && if elapsed <= 10 then
         s.phase.KeyExp? && s.data == job.data && Expanding(s.ke, job.key, elapsed)
       else
         && !s.ke.expanding && !s.ke.done && HasKeys(s.ke.rk, job.key, 11)
         && s.data == RoundState(job, elapsed - 11)
         && s.phase == (if elapsed < 20 then Round else Final)
         && s.rnum == if job.decrypt then 20 - elapsed else elapsed - 10
  }

  ghost predicate Refines(s: CoreState, a: CoreModel) {
    && s.done == a.done && s.out == a.out && s.busy == a.job.Some?
    && match a.job
       case None => s.phase.Idle? && !s.ke.expanding && !s.ke.done
       case Some(job) => !a.done && Working(s, job, a.elapsed)
  }

  /** A reset edge, from whatever the registers held. */
  lemma CoreReset(s: CoreState, input: CoreInputs)
    requires !input.resetn
    ensures Refines(CoreStep(s, input), CoreModel(None, 0, false, s.out))
  {
  }

  lemma {:induction false} FinishExpansion(s: CoreState, input: CoreInputs, job: CoreJob)
    requires Working(s, job, 10) && input.resetn
    ensures Working(CoreStep(s, input), job, 11)
  {
    hide Xor, RoundKey;
  }

  lemma {:induction false} RunRound(s: CoreState, input: CoreInputs, job: CoreJob, elapsed: nat)
    requires Working(s, job, elapsed) && 11 <= elapsed < 20 && input.resetn
    ensures Working(CoreStep(s, input), job, elapsed + 1)
  {
    hide Xor, RoundKey, SubBytes, ShiftRows, MixColumns, InvSubBytes, InvShiftRows, InvMixColumns;
    assert ReadKey(s.ke.rk, s.rnum) == RoundKey(job.key, s.rnum);
  }

  lemma {:induction false} FinishJob(s: CoreState, input: CoreInputs, job: CoreJob)
    requires Working(s, job, 20) && input.resetn
    ensures var t := CoreStep(s, input);
            && t.phase.Idle? && !t.busy && t.done && t.out == Crypt(job)
            && !t.ke.expanding && !t.ke.done
  {
    hide Xor, RoundKey, SubBytes, ShiftRows, MixColumns, InvSubBytes, InvShiftRows, InvMixColumns;
    assert ReadKey(s.ke.rk, s.rnum) == RoundKey(job.key, s.rnum);
  }

  /** Every edge of the core is an edge of the countdown, whatever the inputs. */
  lemma {:induction false} CoreSimulates(s: CoreState, a: CoreModel, input: CoreInputs)
    requires Refines(s, a)
    ensures Refines(CoreStep(s, input), CoreModelStep(a, input))
  {
    hide Crypt, RoundKey, RoundState, EncRoundNext, DecRoundNext, EncFinalNext, DecFinalNext, Xor;
    if !input.resetn {
    } else if a.job.None? {
      if input.start {
        StartExpanding(s.ke, ExpanderInputs(s, input));
      }
    } else if a.elapsed < 10 {
      ExpandOne(s.ke, ExpanderInputs(s, input), a.job.value.key, a.elapsed);
    } else if a.elapsed == 10 {
      FinishExpansion(s, input, a.job.value);
    } else if a.elapsed < 20 {
      RunRound(s, input, a.job.value, a.elapsed);
    } else {
      FinishJob(s, input, a.job.value);
    }
  }

  // ----- Runs -----

  function CoreRun(s: CoreState, inputs: seq<CoreInputs>): CoreState {
    if inputs == [] then s else CoreStep(CoreRun(s, inputs[..|inputs| - 1]), inputs[|inputs| - 1])
  }

  function CoreModelRun(a: CoreModel, inputs: seq<CoreInputs>): CoreModel {
    if inputs == [] then a else CoreModelStep(CoreModelRun(a, inputs[..|inputs| - 1]), inputs[|inputs| - 1])
  }

  lemma {:induction false} CoreRunSimulates(s: CoreState, a: CoreModel, inputs: seq<CoreInputs>)
    requires Refines(s, a)
    ensures Refines(CoreRun(s, inputs), CoreModelRun(a, inputs))
  {
    hide Refines, CoreStep, CoreModelStep;
    if inputs != [] {
      var before := inputs[..|inputs| - 1];
      CoreRunSimulates(s, a, before);
      CoreSimulates(CoreRun(s, before), CoreModelRun(a, before), inputs[|inputs| - 1]);
    }
  }

  /** A busy core, or one not asked to start, does not look at the start, direction,
      key and data inputs, and neither does its expander. */
  lemma BusyIgnoresInputs(s: CoreState, input: CoreInputs, other: CoreInputs)
    requires input.resetn == other.resetn
    requires s.phase.Idle? ==> !input.start && !other.start
    ensures CoreStep(s, input) == CoreStep(s, other)
  {
    hide NextRoundKey, EncRoundNext, DecRoundNext, EncFinalNext, DecFinalNext, Xor, ReadKey;
    assert KeyStep(s.ke, ExpanderInputs(s, input)) == KeyStep(s.ke, ExpanderInputs(s, other));
    hide KeyStep;
  }

  /** In every state reached after a reset, an idle core has an idle expander, so
      no start is lost below; every index used lies in 0..10; and the eleven keys
      read by the rounds all belong to one key. */
  lemma {:induction false} Lockstep(s: CoreState, reset: CoreInputs, inputs: seq<CoreInputs>)
    requires !reset.resetn
    ensures var f := CoreRun(CoreStep(s, reset), inputs);
            && (f.phase.Idle? ==> !f.busy && !f.ke.expanding && !f.ke.done)
            && (f.ke.expanding ==> 1 <= f.ke.roundIdx <= 10)
            && (f.phase.Round? || f.phase.Final? ==>
                  f.rnum <= 10 && !f.ke.expanding && exists key :: HasKeys(f.ke.rk, key, 11))
  {
    CoreReset(s, reset);
    CoreRunSimulates(CoreStep(s, reset), CoreModel(None, 0, false, s.out), inputs);
    var f := CoreRun(CoreStep(s, reset), inputs);
    var a := CoreModelRun(CoreModel(None, 0, false, s.out), inputs);
    hide CoreStep, CoreRun, CoreModelRun, RoundState, RoundKey;
    if f.phase.Round? || f.phase.Final? {
      assert HasKeys(f.ke.rk, a.job.value.key, 11);
    }
  }

  /** Idle after a reset or a finished job. */
  ghost predicate Ready(s: CoreState) {
    s.phase.Idle? && !s.busy && !s.ke.expanding && !s.ke.done
  }

  /** The countdown after an accepted start. */
  lemma {:induction false} Countdown(a: CoreModel, first: CoreInputs, rest: seq<CoreInputs>)
    requires a.job.None? && first.resetn && first.start
    requires |rest| < CORE_LATENCY && forall input | input in rest :: input.resetn
    ensures CoreModelRun(CoreModelStep(a, first), rest)
         == CoreModel(Some(CoreJob(first.encdec, first.keyIn, first.dataIn)), |rest|, false, a.out)
  {
    if rest != [] {
      Countdown(a, first, rest[..|rest| - 1]);
    }
  }

  lemma InRounds(s: CoreState, a: CoreModel)
    requires Refines(s, a) && a.job.Some? && a.elapsed >= 11
    ensures (s.phase.Round? || s.phase.Final?) && HasKeys(s.ke.rk, a.job.value.key, 11)
    ensures a.elapsed < CORE_LATENCY && s.data == RoundState(a.job.value, a.elapsed - 11)
  {
    hide HasKeys, RoundState;
  }

  /** What the outside sees of the core is what the countdown says. */
  lemma Visible(s: CoreState, a: CoreModel)
    requires Refines(s, a)
    ensures s.done == a.done && s.out == a.out && s.busy == a.job.Some? && s.phase.Idle? == a.job.None?
    ensures a.job.None? ==> Ready(s)
  {
    hide Expanding, HasKeys, RoundState;
  }

  lemma CountdownEnd(a: CoreModel, first: CoreInputs, rest: seq<CoreInputs>)
    requires a.job.None? && first.resetn && first.start
    requires |rest| == CORE_LATENCY && forall input | input in rest :: input.resetn
    ensures CoreModelRun(CoreModelStep(a, first), rest)
         == CoreModel(None, 0, true, Crypt(CoreJob(first.encdec, first.keyIn, first.dataIn)))
  {
    hide Crypt;
    Countdown(a, first, rest[..CORE_LATENCY - 1]);
  }

  lemma ReadyRefines(s: CoreState)
    requires Ready(s)
    ensures Refines(s, CoreModel(None, 0, s.done, s.out))
  {
  }

  lemma CryptMeaning(decrypt: bool, key: Block, data: Block)
    ensures Crypt(CoreJob(decrypt, key, data)) == if decrypt then Decrypt(key, data) else Encrypt(key, data)
  {
    hide Decrypt, Encrypt;
  }

  /** Whatever the other inputs do, `done` rises on exactly the 21st edge after the
      one that accepts a start, with the cipher of the key, data and direction seen
      on that edge. */
  lemma {:induction false} BlockOperation(s: CoreState, first: CoreInputs, rest: seq<CoreInputs>)
    requires Ready(s) && first.resetn && first.start
    requires |rest| <= 21 && forall input | input in rest :: input.resetn
    ensures var f := CoreRun(CoreStep(s, first), rest);
            if |rest| < 21 then f.busy && !f.done && !f.phase.Idle? && f.out == s.out
            else f.phase.Idle? && !f.busy && f.done && Ready(f)
                 && f.out == if first.encdec then Decrypt(first.keyIn, first.dataIn) else Encrypt(first.keyIn, first.dataIn)
  {
    hide CoreStep, CoreRun, CoreModelRun, Refines, Ready, Crypt, Encrypt, Decrypt;
    var a := CoreModel(None, 0, s.done, s.out);
    assert Refines(s, a) by {
      ReadyRefines(s);
    }
    CoreSimulates(s, a, first);
    CoreRunSimulates(CoreStep(s, first), CoreModelStep(a, first), rest);
    CryptMeaning(first.encdec, first.keyIn, first.dataIn);
    Visible(CoreRun(CoreStep(s, first), rest), CoreModelRun(CoreModelStep(a, first), rest));
    if |rest| < 21 {
      Countdown(a, first, rest);
    } else {
      CountdownEnd(a, first, rest);
    }
  }

  /** From the 11th edge to the last but one, the core is in its rounds, all 11 round
      keys are those of the accepted key, and the data register has come as far as the
      specified cipher. */
  lemma {:induction false} BlockRounds(s: CoreState, first: CoreInputs, rest: seq<CoreInputs>)
    requires Ready(s) && first.resetn && first.start
    requires 11 <= |rest| < 21 && forall input | input in rest :: input.resetn
    ensures var f := CoreRun(CoreStep(s, first), rest);
            && (f.phase.Round? || f.phase.Final?) && HasKeys(f.ke.rk, first.keyIn, 11)
            && f.data == RoundState(CoreJob(first.encdec, first.keyIn, first.dataIn), |rest| - 11)
  {
    hide CoreStep, CoreRun, Crypt, Working, HasKeys, RoundState, CoreModelRun;
    var a := CoreModel(None, 0, s.done, s.out);
    CoreSimulates(s, a, first);
    CoreRunSimulates(CoreStep(s, first), CoreModelStep(a, first), rest);
    Countdown(a, first, rest);
    InRounds(CoreRun(CoreStep(s, first), rest), CoreModelRun(CoreModelStep(a, first), rest));
  }

  /** `done` lasts one cycle. */
  lemma {:induction false} DonePulse(s: CoreState, a: CoreModel, input: CoreInputs)
    requires Refines(s, a) && s.done
    ensures !CoreStep(s, input).done
  {
    hide Working;
  }

  /** Encrypting a block and then decrypting the result under the same key, each in
      its own run of the clock, restores the block. */
  lemma {:induction false} ClockedRoundTrip(s: CoreState, enc: CoreInputs, encRest: seq<CoreInputs>,
                                            dec: CoreInputs, decRest: seq<CoreInputs>)
    requires Ready(s) && |encRest| == |decRest| == 21
    requires enc.resetn && enc.start && !enc.encdec && forall input | input in encRest :: input.resetn
    requires dec.resetn && dec.start && dec.encdec && forall input | input in decRest :: input.resetn
    requires dec.keyIn == enc.keyIn && dec.dataIn == CoreRun(CoreStep(s, enc), encRest).out
    ensures CoreRun(CoreStep(CoreRun(CoreStep(s, enc), encRest), dec), decRest).out == enc.dataIn
  {
    hide Encrypt, Decrypt, CoreStep, CoreRun;
    BlockOperation(s, enc, encRest);
    BlockOperation(CoreRun(CoreStep(s, enc), encRest), dec, decRest);
    DecryptEncrypt(enc.keyIn, enc.dataIn);
  }
}
