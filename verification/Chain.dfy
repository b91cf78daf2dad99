/** The mode-of-operation wrapper around the core: ECB, CBC and CTR by IV and
    counter bookkeeping. */
module Chain {
  import opened Blocks
  import opened Cipher
  import opened Core
  import opened Modes

  /** The two-bit state register; its two unused codes return to idle. */
  datatype ChainPhase = ChainIdle | ChainCore | Unused2 | Unused3

  datatype ChainInputs = ChainInputs(
    resetn: bool, loadIv: bool, ivIn: Block,
    start: bool, encdec: bool, mode: Mode, keyIn: Block, dataIn: Block)

  datatype ChainState = ChainState(
    phase: ChainPhase, mode: Mode, encdec: bool, dataIn: Block,
    iv: Block, out: Block, done: bool, core: CoreState)

  // What the core is started with. These read the live inputs: the registers for
  // mode and direction are latched on the same edge and still hold the last
  // operation's.

  function CoreDirection(mode: Mode, encdec: bool): bool {
    if mode == CTR then false else encdec
  }

  function CoreData(mode: Mode, encdec: bool, data: Block, iv: Block): Block {
    if mode == CBC && !encdec then Xor(data, iv)
    else if mode == CTR then iv
    else data
  }

  function CoreInputsOf(s: ChainState, input: ChainInputs): CoreInputs {
    CoreInputs(input.resetn, s.phase.ChainIdle? && input.start, CoreDirection(input.mode, input.encdec),
               input.keyIn, CoreData(input.mode, input.encdec, input.dataIn, s.iv))
  }

  /** A block in the chain: the latched registers, and what the core returns for it. */
  datatype ChainJob = ChainJob(mode: Mode, decrypt: bool, data: Block, coreOut: Block)

  // What a finished block leaves in the output and IV registers.

  function FinishOut(job: ChainJob, iv: Block): Block {
    if job.mode == CBC then (if job.decrypt then Xor(job.coreOut, iv) else job.coreOut)
    else if job.mode == CTR then Xor(job.data, job.coreOut)
    else job.coreOut
  }

  /** `loaded` is what the IV register takes if the block leaves it alone. */
  function FinishIv(job: ChainJob, iv: Block, loaded: Block): Block {
    if job.mode == CBC then (if job.decrypt then job.data else job.coreOut)
    else if job.mode == CTR then Advance(iv, 1)
    else loaded
  }

  /** One clock edge. A completion's IV update wins over a load on the same edge. */
  function ChainStep(s: ChainState, input: ChainInputs): ChainState {
    var core := CoreStep(s.core, CoreInputsOf(s, input));
    if !input.resetn then
      s.(core := core, phase := ChainIdle, done := false, iv := ZERO_BLOCK)
    else
      var t := s.(core := core, done := false, iv := if input.loadIv then input.ivIn else s.iv);
      match s.phase
      case ChainIdle =>
        if input.start then
          t.(mode := input.mode, encdec := input.encdec, dataIn := input.dataIn, phase := ChainCore)
        else t
      case ChainCore =>
        if !s.core.done then t
        else
          var job := ChainJob(s.mode, s.encdec, s.dataIn, s.core.out);
          t.(done := true, phase := ChainIdle, out := FinishOut(job, s.iv), iv := FinishIv(job, s.iv, t.iv))
      case _ => t.(phase := ChainIdle)
  }

  /** The module's registers and its core, updated in place. */
  class AesChain {
    var phase: ChainPhase
    var mode: Mode
    var encdec: bool
    var dataIn: Block
    var iv: Block
    var out: Block
    var done: bool
    const core: AesCore

    ghost function Repr(): set<object> {
      {this} + core.Repr()
    }

    ghost predicate Valid() {
      core.Valid()
    }

    ghost function State(): ChainState
      requires Valid()
      reads Repr()
    {
      ChainState(phase, mode, encdec, dataIn, iv, out, done, core.State())
    }

    constructor ()
      ensures Valid() && fresh(Repr())
    {
      core := new AesCore();
    }

    method Latch(phase': ChainPhase, mode': Mode, encdec': bool, dataIn': Block, iv': Block, out': Block, done': bool)
      modifies this
      ensures phase == phase' && mode == mode' && encdec == encdec' && dataIn == dataIn'
      ensures iv == iv' && out == out' && done == done'
    {
      phase, mode, encdec, dataIn, iv, out, done := phase', mode', encdec', dataIn', iv', out', done';
    }

    /** Next values are worked out from the registers before the edge, the core's
        included; then every register takes its next value. */
    method Tick(input: ChainInputs)
      requires Valid()
      modifies Repr()
      ensures State() == ChainStep(old(State()), input)
    {
      hide CoreStep, FinishOut, FinishIv, CoreData, CoreDirection;
      var phase', mode', encdec', dataIn' := phase, mode, encdec, dataIn;
      var iv', out', done' := iv, out, false;
      if !input.resetn {
        phase', iv' := ChainIdle, ZERO_BLOCK;
      } else {
        if input.loadIv {
          iv' := input.ivIn;
        }
        match phase
        case ChainIdle =>
          if input.start {
            mode', encdec', dataIn', phase' := input.mode, input.encdec, input.dataIn, ChainCore;
          }
        case ChainCore =>
          if core.done {
            var job := ChainJob(mode, encdec, dataIn, core.out);
            done', phase', out', iv' := true, ChainIdle, FinishOut(job, iv), FinishIv(job, iv, iv');
          }
        case _ =>
          phase' := ChainIdle;
      }
      core.Tick(CoreInputs(input.resetn, phase.ChainIdle? && input.start, CoreDirection(input.mode, input.encdec),
                           input.keyIn, CoreData(input.mode, input.encdec, input.dataIn, iv)));
      Latch(phase', mode', encdec', dataIn', iv', out', done');
    }
  }

  // ----- The chain as a countdown -----

  datatype ChainModel = ChainModel(iv: Block, job: Option<ChainJob>, elapsed: nat, out: Block, done: bool)

  /** Edges from acceptance to `done`. */
  const CHAIN_LATENCY := 22

  function CoreJobOf(iv: Block, r: Request): CoreJob {
    CoreJob(CoreDirection(r.mode, r.decrypt), r.key, CoreData(r.mode, r.decrypt, r.data, iv))
  }

  function Accept(iv: Block, r: Request): ChainJob {
    ChainJob(r.mode, r.decrypt, r.data, Crypt(CoreJobOf(iv, r)))
  }

  function RequestOf(input: ChainInputs): Request {
    Request(input.mode, input.encdec, input.keyIn, input.dataIn)
  }

  function ChainModelStep(a: ChainModel, input: ChainInputs): ChainModel {
    if !input.resetn then
      a.(iv := ZERO_BLOCK, job := None, done := false)
    else
      var loaded := if input.loadIv then input.ivIn else a.iv;
      match a.job
      case None =>
        if input.start then
          ChainModel(loaded, Some(Accept(a.iv, RequestOf(input))), 0, a.out, false)
        else
          a.(iv := loaded, done := false)
      case Some(job) =>
        if a.elapsed + 1 < CHAIN_LATENCY then
          a.(iv := loaded, elapsed := a.elapsed + 1, done := false)
        else
          ChainModel(FinishIv(job, a.iv, loaded), None, 0, FinishOut(job, a.iv), true)
  }

  ghost predicate Linked(s: ChainState, c: CoreModel, a: ChainModel) {
    && s.done == a.done && s.out == a.out && s.iv == a.iv
    && match a.job
       case None => s.phase.ChainIdle? && c.job.None? && !c.done
       case Some(job) =>
         && !a.done && s.phase.ChainCore?
         && s.mode == job.mode && s.encdec == job.decrypt && s.dataIn == job.data
         && a.elapsed < CHAIN_LATENCY
         && if a.elapsed < CORE_LATENCY then
              c.job.Some? && c.elapsed == a.elapsed && !c.done && Crypt(c.job.value) == job.coreOut
            else
              c.job.None? && c.done && c.out == job.coreOut
  }

  ghost predicate ChainRefines(s: ChainState, a: ChainModel) {
    exists c :: Refines(s.core, c) && Linked(s, c, a)
  }

  lemma ChainReset(s: ChainState, input: ChainInputs)
    requires !input.resetn
    ensures ChainRefines(ChainStep(s, input), ChainModel(ZERO_BLOCK, None, 0, s.out, false))
    ensures BetweenBlocks(ChainStep(s, input))
  {
    hide CoreStep, Refines;
    CoreReset(s.core, CoreInputsOf(s, input));
    assert Linked(ChainStep(s, input), CoreModel(None, 0, false, s.core.out), ChainModel(ZERO_BLOCK, None, 0, s.out, false));
  }

  /** The two unused state codes last one clock. */
  lemma UnusedCodesRecover(s: ChainState, input: ChainInputs)
    requires s.phase.Unused2? || s.phase.Unused3?
    ensures ChainStep(s, input).phase == ChainIdle && !ChainStep(s, input).done
  {
    hide CoreStep;
  }

  lemma {:induction false} LinkStep(s: ChainState, c: CoreModel, a: ChainModel, input: ChainInputs)
    requires s.core.done == c.done && s.core.out == c.out
    requires Linked(s, c, a)
    ensures Linked(ChainStep(s, input), CoreModelStep(c, CoreInputsOf(s, input)), ChainModelStep(a, input))
  {
    hide CoreStep, Crypt, Xor, FinishOut, FinishIv;
  }

  /** Every edge of the chain, with the core and the expander nested in it, is an
      edge of a countdown that computes the block when it is accepted. */
  lemma {:induction false} ChainSimulates(s: ChainState, a: ChainModel, input: ChainInputs)
    requires ChainRefines(s, a)
    ensures ChainRefines(ChainStep(s, input), ChainModelStep(a, input))
  {
    var c :| Refines(s.core, c) && Linked(s, c, a);
    CoreSimulates(s.core, c, CoreInputsOf(s, input));
    LinkStep(s, c, a, input);
    hide Refines, Linked, CoreStep, CoreModelStep, ChainModelStep;
  }

  /** Acceptance and completion with no load in between make one request of the
      mode machine. */
  lemma {:induction false} AcceptThenFinish(iv: Block, r: Request)
    ensures FinishOut(Accept(iv, r), iv) == Output(iv, r)
    ensures FinishIv(Accept(iv, r), iv, iv) == NextIv(iv, r)
  {
    hide Encrypt, Decrypt, Xor, Advance;
  }

  /** A start and a load on one edge give the core the old IV and the completion the
      new one. That is what loading first would give exactly when the mode is ECB,
      or CBC decryption, or the load changes nothing. */
  lemma {:induction false} SimultaneousLoad(iv: Block, loaded: Block, r: Request)
    ensures FinishOut(Accept(iv, r), loaded) == Output(loaded, r)
            && FinishIv(Accept(iv, r), loaded, loaded) == NextIv(loaded, r)
       <==> (r.mode != CBC && r.mode != CTR) || (r.mode == CBC && r.decrypt) || iv == loaded
  {
    hide Encrypt, Decrypt, Xor, Advance;
    if r.mode == CBC && !r.decrypt {
      if Encrypt(r.key, Xor(r.data, iv)) == Encrypt(r.key, Xor(r.data, loaded)) {
        EncryptInjective(r.key, Xor(r.data, iv), Xor(r.data, loaded));
        XorLaws(r.data, iv);
        XorLaws(r.data, loaded);
        XorInjective(iv, loaded, r.data);
      }
    } else if r.mode == CTR {
      if Xor(r.data, Encrypt(r.key, iv)) == Xor(r.data, Encrypt(r.key, loaded)) {
        XorLaws(r.data, Encrypt(r.key, iv));
        XorLaws(r.data, Encrypt(r.key, loaded));
        XorInjective(Encrypt(r.key, iv), Encrypt(r.key, loaded), r.data);
        EncryptInjective(r.key, iv, loaded);
      }
    }
  }

  // ----- Runs -----

  function ChainRun(s: ChainState, inputs: seq<ChainInputs>): ChainState {
    if inputs == [] then s else ChainStep(ChainRun(s, inputs[..|inputs| - 1]), inputs[|inputs| - 1])
  }

  function ChainModelRun(a: ChainModel, inputs: seq<ChainInputs>): ChainModel {
    if inputs == [] then a else ChainModelStep(ChainModelRun(a, inputs[..|inputs| - 1]), inputs[|inputs| - 1])
  }

  lemma {:induction false} ChainRunSimulates(s: ChainState, a: ChainModel, inputs: seq<ChainInputs>)
    requires ChainRefines(s, a)
    ensures ChainRefines(ChainRun(s, inputs), ChainModelRun(a, inputs))
  {
    hide ChainRefines, ChainStep, ChainModelStep;
    if inputs != [] {
      var before := inputs[..|inputs| - 1];
      ChainRunSimulates(s, a, before);
      ChainSimulates(ChainRun(s, before), ChainModelRun(a, before), inputs[|inputs| - 1]);
    }
  }

  /** In every state reached after a reset, an idle chain has an idle core with an
      idle expander, so an accepted start is never dropped below. */
  lemma {:induction false} ChainLockstep(s: ChainState, reset: ChainInputs, inputs: seq<ChainInputs>)
    requires !reset.resetn
    ensures var f := ChainRun(ChainStep(s, reset), inputs);
            && (f.phase.ChainIdle? || f.phase.ChainCore?)
            && (f.phase.ChainIdle? ==> Core.Ready(f.core) && !f.core.done)
  {
    hide ChainStep, ChainRun, ChainModelRun, Working;
    ChainReset(s, reset);
    ChainRunSimulates(ChainStep(s, reset), ChainModel(ZERO_BLOCK, None, 0, s.out, false), inputs);
  }

  /** What an edge does to the stream of mode machine events: a start is taken only
      when the chain is idle. */
  function EdgeEvents(s: ChainState, input: ChainInputs): seq<Event> {
    if s.phase.ChainIdle? && input.start then [Process(RequestOf(input))]
    else if input.loadIv then [Load(input.ivIn)]
    else []
  }

  function EventsOf(s: ChainState, inputs: seq<ChainInputs>): seq<Event> {
    if inputs == [] then []
    else
      var before := inputs[..|inputs| - 1];
      EventsOf(s, before) + EdgeEvents(ChainRun(s, before), inputs[|inputs| - 1])
  }

  /** The blocks on `data_out` in the cycles where `done` is high. */
  function Emitted(s: ChainState, inputs: seq<ChainInputs>): seq<Block> {
    if inputs == [] then []
    else
      var f := ChainRun(s, inputs);
      Emitted(s, inputs[..|inputs| - 1]) + if f.done then [f.out] else []
  }

  /** No reset, and loads only while idle and not with a start. Starts are free. */
  predicate Legal(s: ChainState, inputs: seq<ChainInputs>) {
    inputs == [] ||
    var before := inputs[..|inputs| - 1];
    var last := inputs[|inputs| - 1];
    && Legal(s, before)
    && last.resetn
    && (last.loadIv ==> ChainRun(s, before).phase.ChainIdle? && !last.start)
  }

  /** The events whose blocks are finished: all but a last one in progress. */
  function Finished(a: ChainModel, events: seq<Event>): seq<Event>
    requires a.job.Some? ==> events != []
  {
    if a.job.Some? then events[..|events| - 1] else events
  }

  /** The trace relation between a run and the mode machine. */
  ghost predicate Traced(iv: Block, a: ChainModel, events: seq<Event>, emitted: seq<Block>) {
    && (a.job.Some? ==>
          && events != [] && events[|events| - 1].Process?
          && a.job.value == Accept(a.iv, events[|events| - 1].request))
    && emitted == Outputs(iv, Finished(a, events))
    && a.iv == IvAfter(iv, Finished(a, events))
  }

  /** What the outside sees of the chain is what the countdown says. */
  lemma Observable(s: ChainState, a: ChainModel)
    requires ChainRefines(s, a)
    ensures s.done == a.done && s.out == a.out && s.iv == a.iv
    ensures s.phase.ChainIdle? == a.job.None? && (a.job.Some? ==> s.phase.ChainCore? && !s.done)
    ensures a.elapsed < CHAIN_LATENCY || a.job.None?
  {
    hide Refines;
  }

  lemma {:induction false} TraceEdge(iv: Block, s: ChainState, a: ChainModel, input: ChainInputs,
                                     events: seq<Event>, emitted: seq<Block>)
    requires ChainRefines(s, a) && Traced(iv, a, events, emitted)
    requires input.resetn && (input.loadIv ==> s.phase.ChainIdle? && !input.start)
    ensures var t, b := ChainStep(s, input), ChainModelStep(a, input);
            Traced(iv, b, events + EdgeEvents(s, input), emitted + if t.done then [t.out] else [])
  {
    hide ChainRefines, Traced, ChainStep, ChainModelStep;
    ChainSimulates(s, a, input);
    Observable(s, a);
    Observable(ChainStep(s, input), ChainModelStep(a, input));
    var edge := EdgeEvents(s, input);
    if a.job.None? {
      TraceIdle(iv, a, input, events, emitted, edge);
    } else {
      TraceBusy(iv, a, input, events, emitted);
      assert events + edge == events;
    }
  }

  lemma {:induction false} TraceIdle(iv: Block, a: ChainModel, input: ChainInputs,
                                     events: seq<Event>, emitted: seq<Block>, edge: seq<Event>)
    requires Traced(iv, a, events, emitted) && a.job.None?
    requires input.resetn && (input.loadIv ==> !input.start)
    requires edge == if input.start then [Process(RequestOf(input))]
                     else if input.loadIv then [Load(input.ivIn)] else []
    ensures var b := ChainModelStep(a, input);
            !b.done && Traced(iv, b, events + edge, emitted + [])
  {
    hide Accept, Outputs, IvAfter;
    assert emitted + [] == emitted;
    if input.start {
      assert (events + edge)[..|events|] == events;
    } else if input.loadIv {
      Split(iv, events, edge);
      OneEvent(a.iv, edge[0]);
    } else {
      assert events + edge == events;
    }
  }

  lemma {:induction false} TraceBusy(iv: Block, a: ChainModel, input: ChainInputs,
                                     events: seq<Event>, emitted: seq<Block>)
    requires Traced(iv, a, events, emitted) && a.job.Some?
    requires input.resetn && !input.loadIv
    ensures var b := ChainModelStep(a, input);
            Traced(iv, b, events, emitted + if b.done then [b.out] else [])
  {
    hide Accept, FinishOut, FinishIv, Output, NextIv, Outputs, IvAfter;
    if a.elapsed + 1 < CHAIN_LATENCY {
      assert emitted + [] == emitted;
    } else {
      var done, last := events[..|events| - 1], events[|events| - 1];
      assert events == done + [last];
      Split(iv, done, [last]);
      OneEvent(a.iv, last);
      AcceptThenFinish(a.iv, last.request);
    }
  }

  lemma OneEvent(iv: Block, e: Event)
    ensures Outputs(iv, [e]) == OutputOfOne(iv, e) && IvAfter(iv, [e]) == IvAfterOne(iv, e)
  {
    hide OutputOfOne, IvAfterOne;
    assert [e][1..] == [];
  }

  /** For any stream of inputs, with starts asked for at any time, the outputs of
      the clocked chain are those of the mode machine run over the accepted
      requests and loads, in order; at most the last accepted block is missing. */
  lemma {:induction false} ChainTrace(s: ChainState, a: ChainModel, inputs: seq<ChainInputs>)
    requires ChainRefines(s, a) && a.job.None? && Legal(s, inputs)
    ensures ChainRefines(ChainRun(s, inputs), ChainModelRun(a, inputs))
    ensures Traced(a.iv, ChainModelRun(a, inputs), EventsOf(s, inputs), Emitted(s, inputs))
  {
    ChainRunSimulates(s, a, inputs);
    hide ChainRefines, ChainStep, ChainModelStep;
    if inputs == [] {
    } else {
      var before := inputs[..|inputs| - 1];
      ChainTrace(s, a, before);
      hide Traced;
      TraceEdge(a.iv, ChainRun(s, before), ChainModelRun(a, before), inputs[|inputs| - 1],
                EventsOf(s, before), Emitted(s, before));
    }
  }

  /** A state the clock can reach between two blocks. */
  ghost predicate BetweenBlocks(s: ChainState) {
    exists a :: ChainRefines(s, a) && a.job.None?
  }

  /** When the run also ends between blocks, nothing is missing. */
  lemma {:induction false} CompleteRun(s: ChainState, inputs: seq<ChainInputs>)
    requires BetweenBlocks(s) && Legal(s, inputs) && ChainRun(s, inputs).phase.ChainIdle?
    ensures Emitted(s, inputs) == Outputs(s.iv, EventsOf(s, inputs))
    ensures ChainRun(s, inputs).iv == IvAfter(s.iv, EventsOf(s, inputs))
    ensures BetweenBlocks(ChainRun(s, inputs))
  {
    var a :| ChainRefines(s, a) && a.job.None?;
    hide ChainRefines, ChainStep, ChainModelStep, ChainRun, ChainModelRun, Outputs, IvAfter;
    ChainTrace(s, a, inputs);
    Observable(s, a);
    Observable(ChainRun(s, inputs), ChainModelRun(a, inputs));
  }

  /** CBC on the clock: whenever one run loads an IV and encrypts a message, and a
      second one loads that IV and decrypts the blocks the first run emitted, the
      second run emits the message, and both leave the last ciphertext block as the
      running IV. */
  lemma {:induction false} CbcOnTheClock(s: ChainState, run: seq<ChainInputs>, s': ChainState, run': seq<ChainInputs>,
                                         key: Block, iv: Block, message: seq<Block>)
    requires BetweenBlocks(s) && Legal(s, run) && ChainRun(s, run).phase.ChainIdle?
    requires BetweenBlocks(s') && Legal(s', run') && ChainRun(s', run').phase.ChainIdle?
    requires EventsOf(s, run) == [Load(iv)] + Message(CBC, false, key, message)
    requires EventsOf(s', run') == [Load(iv)] + Message(CBC, true, key, Emitted(s, run))
    ensures Emitted(s', run') == message
    ensures |Emitted(s, run)| == |message|
    ensures message != [] ==>
      ChainRun(s, run).iv == Emitted(s, run)[|message| - 1] == ChainRun(s', run').iv
  {
    hide ChainStep, ChainRun, Outputs, IvAfter, Legal, BetweenBlocks;
    CompleteRun(s, run);
    CompleteRun(s', run');
    LoadFirst(s.iv, iv, Message(CBC, false, key, message));
    LoadFirst(s'.iv, iv, Message(CBC, true, key, Emitted(s, run)));
    CbcRoundTrip(key, iv, message);
    CbcFinalIv(false, key, iv, message);
    CbcFinalIv(true, key, iv, Emitted(s, run));
  }

  /** CTR on the clock: the blocks emitted are the message combined with the
      encrypted counter, and a second run from the same counter, in either
      direction, restores the message. */
  lemma {:induction false} CtrOnTheClock(s: ChainState, run: seq<ChainInputs>, s': ChainState, run': seq<ChainInputs>,
                                         d: bool, d': bool, key: Block, iv: Block, message: seq<Block>)
    requires BetweenBlocks(s) && Legal(s, run) && ChainRun(s, run).phase.ChainIdle?
    requires BetweenBlocks(s') && Legal(s', run') && ChainRun(s', run').phase.ChainIdle?
    requires EventsOf(s, run) == [Load(iv)] + Message(CTR, d, key, message)
    requires EventsOf(s', run') == [Load(iv)] + Message(CTR, d', key, Emitted(s, run))
    ensures |Emitted(s, run)| == |message|
    ensures forall i | 0 <= i < |message| :: Emitted(s, run)[i] == Xor(message[i], Encrypt(key, Counter(iv, i)))
    ensures Value(ChainRun(s, run).iv) == (Value(iv) + |message|) % 0x1_0000_0000_0000_0000_0000_0000_0000_0000
    ensures Emitted(s', run') == message
  {
    hide ChainStep, ChainRun, Outputs, IvAfter, Legal, BetweenBlocks, Encrypt, Xor, Advance, Counter, Value;
    CompleteRun(s, run);
    CompleteRun(s', run');
    LoadFirst(s.iv, iv, Message(CTR, d, key, message));
    LoadFirst(s'.iv, iv, Message(CTR, d', key, Emitted(s, run)));
    CtrStream(d, key, iv, message);
    CtrRoundTrip(d, d', key, iv, message);
  }

  /** Stopping after a message part, reloading the IV the chain shows, and going on
      later emits what one uninterrupted run emits. */
  lemma {:induction false} SplitOnTheClock(s: ChainState, run: seq<ChainInputs>, s1: ChainState, run1: seq<ChainInputs>,
                                           s2: ChainState, run2: seq<ChainInputs>, xs: seq<Event>, ys: seq<Event>)
    requires BetweenBlocks(s) && Legal(s, run) && ChainRun(s, run).phase.ChainIdle?
    requires BetweenBlocks(s1) && Legal(s1, run1) && ChainRun(s1, run1).phase.ChainIdle?
    requires BetweenBlocks(s2) && Legal(s2, run2) && ChainRun(s2, run2).phase.ChainIdle?
    requires s.iv == s1.iv
    requires EventsOf(s, run) == xs + ys && EventsOf(s1, run1) == xs
    requires EventsOf(s2, run2) == [Load(ChainRun(s1, run1).iv)] + ys
    ensures Emitted(s1, run1) + Emitted(s2, run2) == Emitted(s, run)
    ensures ChainRun(s2, run2).iv == ChainRun(s, run).iv
  {
    hide ChainStep, ChainRun, Outputs, IvAfter, Legal, BetweenBlocks;
    CompleteRun(s, run);
    CompleteRun(s1, run1);
    CompleteRun(s2, run2);
    Split(s.iv, xs, ys);
    LoadFirst(s2.iv, ChainRun(s1, run1).iv, ys);
  }

  /** A chain that is not idle takes only resets and loads: a start then, with
      whatever direction, mode, key and data, changes no register of the chain, the core
      or the expander. */
  lemma StartWhileBusy(s: ChainState, input: ChainInputs, other: ChainInputs)
    requires !s.phase.ChainIdle?
    requires input.resetn == other.resetn && input.loadIv == other.loadIv && input.ivIn == other.ivIn
    ensures ChainStep(s, input) == ChainStep(s, other)
  {
    hide CoreStep, FinishOut, FinishIv, CoreData, CoreDirection;
    BusyIgnoresInputs(s.core, CoreInputsOf(s, input), CoreInputsOf(s, other));
  }

  /** The IV register after an accepted start and the edges that follow it, as the loads
      leave it. */
  function LoadedIv(iv: Block, first: ChainInputs, rest: seq<ChainInputs>): Block {
    if rest == [] then (if first.loadIv then first.ivIn else iv)
    else
      var last := rest[|rest| - 1];
      if last.loadIv then last.ivIn else LoadedIv(iv, first, rest[..|rest| - 1])
  }

  lemma {:induction false} ChainCountdown(a: ChainModel, first: ChainInputs, rest: seq<ChainInputs>)
    requires a.job.None? && first.resetn && first.start
    requires |rest| < CHAIN_LATENCY && forall input | input in rest :: input.resetn
    ensures ChainModelRun(ChainModelStep(a, first), rest)
         == ChainModel(LoadedIv(a.iv, first, rest), Some(Accept(a.iv, RequestOf(first))), |rest|, a.out, false)
  {
    hide Accept, FinishOut, FinishIv;
    if rest != [] {
      ChainCountdown(a, first, rest[..|rest| - 1]);
    }
  }

  lemma {:induction false} NoLoads(iv: Block, first: ChainInputs, rest: seq<ChainInputs>)
    requires forall input | input in rest :: !input.loadIv
    ensures LoadedIv(iv, first, rest) == LoadedIv(iv, first, [])
  {
    if rest != [] {
      NoLoads(iv, first, rest[..|rest| - 1]);
    }
  }

  /** The chain does not hold back loads while busy. Whenever they come, the block is
      finished on exactly the 22nd edge after its start, the core having been given the
      IV from before the start and the completion using the one loaded last. */
  lemma {:induction false} LoadsInFlight(s: ChainState, a: ChainModel, first: ChainInputs, rest: seq<ChainInputs>)
    requires ChainRefines(s, a) && s.phase.ChainIdle? && first.resetn && first.start
    requires |rest| <= 22 && forall input | input in rest :: input.resetn
    ensures var f := ChainRun(ChainStep(s, first), rest);
            var job := Accept(s.iv, RequestOf(first));
            if |rest| < 22 then
              f.phase.ChainCore? && !f.done && f.iv == LoadedIv(s.iv, first, rest) && f.out == s.out
            else
              var held := LoadedIv(s.iv, first, rest[..21]);
              f.phase.ChainIdle? && f.done
              && f.out == FinishOut(job, held) && f.iv == FinishIv(job, held, LoadedIv(s.iv, first, rest))
    ensures ChainRefines(ChainRun(ChainStep(s, first), rest), ChainModelRun(ChainModelStep(a, first), rest))
  {
    hide ChainRefines, ChainStep, Accept, FinishOut, FinishIv;
    Observable(s, a);
    ChainSimulates(s, a, first);
    ChainRunSimulates(ChainStep(s, first), ChainModelStep(a, first), rest);
    Observable(ChainRun(ChainStep(s, first), rest), ChainModelRun(ChainModelStep(a, first), rest));
    hide ChainRun;
    if |rest| < 22 {
      ChainCountdown(a, first, rest);
    } else {
      ChainCountdown(a, first, rest[..21]);
    }
  }

  /** A start and a load on one edge, on the clock: the result and the IV left behind are
      those of loading first exactly in ECB, in CBC decryption, or when the load changes
      nothing. */
  lemma {:induction false} StartWithLoad(s: ChainState, a: ChainModel, first: ChainInputs, rest: seq<ChainInputs>)
    requires ChainRefines(s, a) && s.phase.ChainIdle? && first.resetn && first.start && first.loadIv
    requires |rest| == 22 && forall input | input in rest :: input.resetn && !input.loadIv
    ensures var f, r := ChainRun(ChainStep(s, first), rest), RequestOf(first);
            (f.out == Output(first.ivIn, r) && f.iv == NextIv(first.ivIn, r)
             <==> (r.mode != CBC && r.mode != CTR) || (r.mode == CBC && r.decrypt) || s.iv == first.ivIn)
  {
    hide ChainRefines, ChainStep, ChainRun, Accept, FinishOut, FinishIv, Output, NextIv, ChainModelRun;
    LoadsInFlight(s, a, first, rest);
    NoLoads(s.iv, first, rest);
    NoLoads(s.iv, first, rest[..21]);
    SimultaneousLoad(s.iv, first.ivIn, RequestOf(first));
  }

  /** Whatever the other inputs do, `done` rises on exactly the 22nd edge after the
      one that accepts a start, for every key, block, mode and direction; the IV and
      output registers hold still until then. */
  lemma {:induction false} ChainBlock(s: ChainState, a: ChainModel, first: ChainInputs, rest: seq<ChainInputs>)
    requires ChainRefines(s, a) && s.phase.ChainIdle? && first.resetn && first.start && !first.loadIv
    requires |rest| <= 22 && forall input | input in rest :: input.resetn && !input.loadIv
    ensures var f := ChainRun(ChainStep(s, first), rest);
            if |rest| < 22 then f.phase.ChainCore? && !f.done && f.iv == s.iv && f.out == s.out
            else f.phase.ChainIdle? && f.done
                 && f.out == Output(s.iv, RequestOf(first)) && f.iv == NextIv(s.iv, RequestOf(first))
    ensures ChainRefines(ChainRun(ChainStep(s, first), rest), ChainModelRun(ChainModelStep(a, first), rest))
  {
    hide ChainRefines, ChainStep, ChainRun, Accept, FinishOut, FinishIv, Output, NextIv, ChainModelRun;
    LoadsInFlight(s, a, first, rest);
    NoLoads(s.iv, first, rest);
    if |rest| == 22 {
      NoLoads(s.iv, first, rest[..21]);
    }
    AcceptThenFinish(s.iv, RequestOf(first));
  }
}
