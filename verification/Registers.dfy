/** The AXI4-Lite register front end around the chain. */
module Registers {
  import opened Blocks
  import opened Core
  import opened Modes
  import opened Chain

  // Byte offsets of the registers.

  const REG_CTRL: bv7 := 0x00
  const REG_STATUS: bv7 := 0x04
  const REG_KEY: bv7 := 0x10
  const REG_DATA: bv7 := 0x20
  const REG_RESULT: bv7 := 0x30
  const REG_IV: bv7 := 0x40

  /** The bus signals the module reads in one cycle. */
  datatype BusInputs = BusInputs(
    resetn: bool, awvalid: bool, awaddr: bv32, wvalid: bool, wdata: bv32, arvalid: bool, araddr: bv32)

  datatype AesRegs = AesRegs(
    key: Block, data: Block, iv: Block, encdec: bool, mode: Mode, statusDone: bool, irq: bool,
    bvalid: bool, bresp: bv2, rvalid: bool, rdata: bv32, rresp: bv2)

  datatype AesState = AesState(regs: AesRegs, chain: ChainState)

  // ----- Decoding -----

  function Offset(addr: bv32): bv7 {
    (addr & 0x7f) as bv7
  }

  predicate DoWrite(input: BusInputs) {
    input.awvalid && input.wvalid
  }

  predicate WritesCtrl(input: BusInputs) {
    DoWrite(input) && Offset(input.awaddr) == REG_CTRL
  }

  predicate DoStart(input: BusInputs, busy: bool) {
    WritesCtrl(input) && input.wdata & 0x01 != 0 && !busy
  }

  predicate DoLoadIv(input: BusInputs, busy: bool) {
    WritesCtrl(input) && input.wdata & 0x10 != 0 && !busy
  }

  predicate ClearsDone(input: BusInputs) {
    DoWrite(input) && Offset(input.awaddr) == REG_STATUS && input.wdata & 0x02 != 0
  }

  function CtrlDirection(wdata: bv32): bool {
    wdata & 0x02 != 0
  }

  function CtrlMode(wdata: bv32): Mode {
    ((wdata >> 2) & 0x3) as bv2
  }

  /** A block register after the cycle's write, if it is to one of its four words. */
  function WriteSlot(b: Block, base: bv7, input: BusInputs): Block {
    var off := Offset(input.awaddr);
    var w := Unpack(input.wdata);
    if !DoWrite(input) then b
    else if off == base then b.(w0 := w)
    else if off == base + 4 then b.(w1 := w)
    else if off == base + 8 then b.(w2 := w)
    else if off == base + 12 then b.(w3 := w)
    else b
  }

  predicate WritesIv(input: BusInputs) {
    var off := Offset(input.awaddr);
    DoWrite(input) && (off == REG_IV || off == REG_IV + 4 || off == REG_IV + 8 || off == REG_IV + 12)
  }

  // ----- What the bus asks for -----
  // The same in the terms of the register map, as the documentation of the module gives
  // it. Everything promised about runs of the bus is stated with these.

  predicate WritesAt(input: BusInputs, off: bv7) {
    input.awvalid && input.wvalid && (input.awaddr & 0x7f) as bv7 == off
  }

  predicate AcceptsStart(s: AesState, input: BusInputs) {
    s.chain.phase.ChainIdle? && WritesAt(input, 0x00) && input.wdata & 0x01 != 0
  }

  predicate AcceptsLoad(s: AesState, input: BusInputs) {
    s.chain.phase.ChainIdle? && WritesAt(input, 0x00) && input.wdata & 0x10 != 0
  }

  predicate Clears(input: BusInputs) {
    WritesAt(input, 0x04) && input.wdata & 0x02 != 0
  }

  predicate WritesIvWord(input: BusInputs) {
    WritesAt(input, 0x40) || WritesAt(input, 0x44) || WritesAt(input, 0x48) || WritesAt(input, 0x4c)
  }

  /** The request a CTRL write makes: mode in bits 3 to 2, direction in bit 1. */
  function RequestAt(s: AesState, input: BusInputs): Request {
    Request(((input.wdata >> 2) & 0x3) as bv2, input.wdata & 0x02 != 0, s.regs.key, s.regs.data)
  }

  /** The decoded strobes are these. */
  lemma DecodeMeaning(s: AesState, input: BusInputs)
    ensures DoStart(input, PortOf(s.chain).busy) == AcceptsStart(s, input)
    ensures DoLoadIv(input, PortOf(s.chain).busy) == AcceptsLoad(s, input)
    ensures ClearsDone(input) == Clears(input) && WritesIv(input) == WritesIvWord(input)
    ensures WritesCtrl(input) == WritesAt(input, 0x00)
    ensures RequestOf(ChainInputsOf(s.regs, input, PortOf(s.chain).busy)) == RequestAt(s, input)
  {
  }

  // ----- One clock edge -----

  /** What the front end sees of the chain. */
  datatype ChainPort = ChainPort(busy: bool, done: bool, out: Block, iv: Block)

  function PortOf(s: ChainState): ChainPort {
    ChainPort(!s.phase.ChainIdle?, s.done, s.out, s.iv)
  }

  function ChainInputsOf(r: AesRegs, input: BusInputs, busy: bool): ChainInputs {
    ChainInputs(input.resetn, DoLoadIv(input, busy), r.iv, DoStart(input, busy),
                CtrlDirection(input.wdata), CtrlMode(input.wdata), r.key, r.data)
  }

  function ReadWord(b: Block, base: bv7, off: bv7): bv32 {
    if off == base then Pack(b.w0)
    else if off == base + 4 then Pack(b.w1)
    else if off == base + 8 then Pack(b.w2)
    else if off == base + 12 then Pack(b.w3)
    else 0
  }

  /** KEY offsets are not listed, so they read as 0. */
  function ReadData(r: AesRegs, off: bv7, port: ChainPort): bv32 {
    if off == REG_CTRL then ((r.mode as bv32) << 2) | (if r.encdec then 2 else 0)
    else if off == REG_STATUS then (if r.statusDone then 2 else 0) | (if port.busy then 1 else 0)
    else if REG_RESULT <= off <= REG_RESULT + 12 then ReadWord(port.out, REG_RESULT, off)
    else if REG_DATA <= off <= REG_DATA + 12 then ReadWord(r.data, REG_DATA, off)
    else if REG_IV <= off <= REG_IV + 12 then ReadWord(r.iv, REG_IV, off)
    else 0
  }

  /** The registers after an edge, each from the values before it. The handshake
      and read registers are not reset. */
  function FrontStep(r: AesRegs, input: BusInputs, port: ChainPort): AesRegs {
    if !input.resetn then
      r.(key := ZERO_BLOCK, data := ZERO_BLOCK, iv := ZERO_BLOCK, statusDone := false, irq := false,
         encdec := false, mode := 0)
    else
      AesRegs(
        WriteSlot(r.key, REG_KEY, input),
        WriteSlot(r.data, REG_DATA, input),
        WriteSlot(if port.done then port.iv else r.iv, REG_IV, input),
        if DoStart(input, port.busy) then CtrlDirection(input.wdata) else r.encdec,
        if DoStart(input, port.busy) then CtrlMode(input.wdata) else r.mode,
        (r.statusDone || port.done) && !ClearsDone(input),
        port.done,
        DoWrite(input),
        if DoWrite(input) then 0 else r.bresp,
        input.arvalid,
        if input.arvalid then ReadData(r, Offset(input.araddr), port) else r.rdata,
        if input.arvalid then 0 else r.rresp)
  }

  function AesStep(s: AesState, input: BusInputs): AesState {
    var port := PortOf(s.chain);
    AesState(FrontStep(s.regs, input, port), ChainStep(s.chain, ChainInputsOf(s.regs, input, port.busy)))
  }

  /** The peripheral's registers and its chain, updated in place. */
  class Aes {
    var key: Block
    var data: Block
    var iv: Block
    var encdec: bool
    var mode: Mode
    var statusDone: bool
    var irq: bool
    var bvalid: bool
    var bresp: bv2
    var rvalid: bool
    var rdata: bv32
    var rresp: bv2
    const chain: AesChain

    // Every address and data offer is taken at once.
    const awready := true
    const wready := true
    const arready := true

    ghost function Repr(): set<object> {
      {this} + chain.Repr()
    }

    ghost predicate Valid() {
      chain.Valid()
    }

    function Regs(): AesRegs
      reads this
    {
      AesRegs(key, data, iv, encdec, mode, statusDone, irq, bvalid, bresp, rvalid, rdata, rresp)
    }

    ghost function State(): AesState
      requires Valid()
      reads Repr()
    {
      AesState(Regs(), chain.State())
    }

    constructor ()
      ensures Valid() && fresh(Repr())
    {
      chain := new AesChain();
    }

    method Latch(next: AesRegs)
      modifies this
      ensures Regs() == next
    {
      key, data, iv, encdec, mode := next.key, next.data, next.iv, next.encdec, next.mode;
      statusDone, irq := next.statusDone, next.irq;
      bvalid, bresp, rvalid, rdata, rresp := next.bvalid, next.bresp, next.rvalid, next.rdata, next.rresp;
    }

    /** The next values of the registers, assigned in the order of the always
        blocks: a later assignment to the same bits wins. */
    method NextRegs(input: BusInputs, port: ChainPort) returns (next: AesRegs)
      ensures next == FrontStep(Regs(), input, port)
    {
      hide WriteSlot, ReadData, Offset, CtrlMode, CtrlDirection;
      var key', data', iv', encdec', mode' := key, data, iv, encdec, mode;
      var statusDone', irq' := statusDone, irq;
      var bvalid', bresp', rvalid', rdata', rresp' := bvalid, bresp, rvalid, rdata, rresp;
      if !input.resetn {
        key', data', iv', encdec', mode' := ZERO_BLOCK, ZERO_BLOCK, ZERO_BLOCK, false, 0;
        statusDone', irq' := false, false;
      } else {
        irq' := port.done;
        if port.done {
          statusDone' := true;
        }
        if ClearsDone(input) {
          statusDone' := false;
        }
        if port.done {
          iv' := port.iv;
        }
        key' := WriteSlot(key', REG_KEY, input);
        data' := WriteSlot(data', REG_DATA, input);
        iv' := WriteSlot(iv', REG_IV, input);
        bvalid' := DoWrite(input);
        if DoWrite(input) {
          bresp' := 0;
        }
        rvalid' := input.arvalid;
        if input.arvalid {
          rdata', rresp' := ReadData(Regs(), Offset(input.araddr), port), 0;
        }
        if DoStart(input, port.busy) {
          encdec', mode' := CtrlDirection(input.wdata), CtrlMode(input.wdata);
        }
      }
      hide ClearsDone, DoStart, DoWrite;
      next := AesRegs(key', data', iv', encdec', mode', statusDone', irq', bvalid', bresp', rvalid', rdata', rresp');
    }

    method Tick(input: BusInputs)
      requires Valid()
      modifies Repr()
      ensures State() == AesStep(old(State()), input)
    {
      hide FrontStep, ChainStep, DoLoadIv, DoStart, CtrlDirection, CtrlMode;
      var port := ChainPort(!chain.phase.ChainIdle?, chain.done, chain.out, chain.iv);
      var next := NextRegs(input, port);
      chain.Tick(ChainInputs(input.resetn, DoLoadIv(input, port.busy), iv, DoStart(input, port.busy),
                             CtrlDirection(input.wdata), CtrlMode(input.wdata), key, data));
      Latch(next);
    }
  }

  // ----- Runs -----

  function AesRun(s: AesState, inputs: seq<BusInputs>): AesState {
    if inputs == [] then s else AesStep(AesRun(s, inputs[..|inputs| - 1]), inputs[|inputs| - 1])
  }

  /** The inputs the chain receives along a run of the bus. */
  function ChainStream(s: AesState, inputs: seq<BusInputs>): (c: seq<ChainInputs>)
    ensures |c| == |inputs|
  {
    if inputs == [] then []
    else
      var before := inputs[..|inputs| - 1];
      var f := AesRun(s, before);
      ChainStream(s, before) + [ChainInputsOf(f.regs, inputs[|inputs| - 1], PortOf(f.chain).busy)]
  }

  lemma {:induction false} ChainInsideBus(s: AesState, inputs: seq<BusInputs>)
    ensures AesRun(s, inputs).chain == ChainRun(s.chain, ChainStream(s, inputs))
  {
    hide AesStep, ChainStep;
    if inputs != [] {
      var before := inputs[..|inputs| - 1];
      var stream := ChainStream(s, inputs);
      ChainInsideBus(s, before);
      assert stream[..|stream| - 1] == ChainStream(s, before);
      assert AesRun(s, inputs).chain == ChainStep(AesRun(s, before).chain, stream[|stream| - 1]) by {
        hide FrontStep, ChainInputsOf;
        ChainOfStep(AesRun(s, before), inputs[|inputs| - 1]);
      }
    }
  }

  lemma ChainOfStep(s: AesState, input: BusInputs)
    ensures AesStep(s, input).chain == ChainStep(s.chain, ChainInputsOf(s.regs, input, PortOf(s.chain).busy))
    ensures AesStep(s, input).regs == FrontStep(s.regs, input, PortOf(s.chain))
  {
    hide ChainStep, FrontStep, ChainInputsOf;
  }

  // ----- Isolation of an operation in flight -----

  /** While a block is in flight the bus can neither load the IV nor start another. */
  lemma {:induction false} BusyStream(s: AesState, a: ChainModel, first: BusInputs, rest: seq<BusInputs>)
    requires ChainRefines(s.chain, a) && first.resetn
    requires AcceptsStart(s, first) && !AcceptsLoad(s, first)
    requires |rest| <= 22 && forall input | input in rest :: input.resetn
    ensures forall input | input in ChainStream(AesStep(s, first), rest) :: input.resetn && !input.loadIv && !input.start
    decreases |rest|
  {
    hide ChainRefines, FrontStep, ChainStep, Output, NextIv, ChainModelStep, RequestOf, CtrlMode, CtrlDirection;
    DecodeMeaning(s, first);
    if rest != [] {
      var before := rest[..|rest| - 1];
      BusyStream(s, a, first, before);
      ChainOfStep(s, first);
      ChainInsideBus(AesStep(s, first), before);
      ChainBlock(s.chain, a, ChainInputsOf(s.regs, first, PortOf(s.chain).busy), ChainStream(AesStep(s, first), before));
      hide AesStep;
    }
  }

  /** Whatever is written to KEY, DATA, IV and CTRL meanwhile, the block that a
      START accepts is finished on the 22nd edge after it, and the RESULT registers
      then hold the mode's output for the key, data, direction, mode and running IV
      at the START. Until then BUSY reads 1 and RESULT keeps its old value. */
  lemma {:induction false} Isolation(s: AesState, a: ChainModel, first: BusInputs, rest: seq<BusInputs>)
    requires ChainRefines(s.chain, a) && first.resetn
    requires AcceptsStart(s, first) && !AcceptsLoad(s, first)
    requires |rest| <= 22 && forall input | input in rest :: input.resetn
    ensures var port := PortOf(AesRun(AesStep(s, first), rest).chain);
            if |rest| < 22 then port == ChainPort(true, false, s.chain.out, s.chain.iv)
            else port == ChainPort(false, true, Output(s.chain.iv, RequestAt(s, first)), NextIv(s.chain.iv, RequestAt(s, first)))
    ensures var stream := ChainStream(AesStep(s, first), rest);
            ChainRefines(AesRun(AesStep(s, first), rest).chain,
                         ChainModelRun(ChainModelStep(a, ChainInputsOf(s.regs, first, PortOf(s.chain).busy)), stream))
  {
    hide ChainRefines, FrontStep, ChainStep, Output, NextIv, ChainModelStep, CtrlMode, CtrlDirection, RequestAt;
    DecodeMeaning(s, first);
    BusyStream(s, a, first, rest);
    ChainOfStep(s, first);
    ChainInsideBus(AesStep(s, first), rest);
    ChainBlock(s.chain, a, ChainInputsOf(s.regs, first, PortOf(s.chain).busy), ChainStream(AesStep(s, first), rest));
    hide AesStep, AesRun, ChainRun, ChainStream, ChainModelRun;
  }

  /** No write of 1 to bit 1 of STATUS. */
  predicate Uncleared(inputs: seq<BusInputs>) {
    forall input | input in inputs :: !Clears(input)
  }

  /** DONE reads 1 exactly when some completion, or DONE at the outset, has not been
      cleared since. A clear in the done cycle itself counts: it wins over the set. */
  lemma {:induction false} DoneMeaning(s: AesState, inputs: seq<BusInputs>)
    requires forall input | input in inputs :: input.resetn
    ensures AesRun(s, inputs).regs.statusDone <==>
            || (s.regs.statusDone && Uncleared(inputs))
            || exists i :: 0 <= i < |inputs| && AesRun(s, inputs[..i]).chain.done && Uncleared(inputs[i..])
  {
    hide AesStep, Clears;
    if inputs != [] {
      var n := |inputs| - 1;
      var before, last := inputs[..n], inputs[n];
      DoneMeaning(s, before);
      DoneStep(AesRun(s, before), last);
      forall i | 0 <= i <= n
        ensures i < n ==> before[..i] == inputs[..i]
        ensures Uncleared(inputs[i..]) <==> Uncleared(before[i..]) && !Clears(last)
      {
        assert inputs[i..] == before[i..] + [last];
      }
      assert inputs == before + [last];
      assert inputs[..n] == before && before[n..] == [];
    }
  }

  /** One edge: the flag of the register file, and the interrupt pulse that follows each
      completion by one edge. */
  lemma DoneStep(s: AesState, input: BusInputs)
    requires input.resetn
    ensures AesStep(s, input).regs.statusDone == ((s.regs.statusDone || s.chain.done) && !Clears(input))
    ensures AesStep(s, input).regs.irq == s.chain.done
  {
    hide ChainStep, ClearsDone, Clears, WriteSlot, ReadData, DoStart, CtrlMode, CtrlDirection, ChainInputsOf, RequestOf;
    DecodeMeaning(s, input);
  }

  /** A read returns what the register map promises, and zero at every other offset,
      the key's included. No read depends on the key. */
  lemma RegisterMap(r: AesRegs, off: bv7, port: ChainPort)
    ensures off == 0x20 ==> ReadData(r, off, port) == Pack(r.data.w0)
    ensures off == 0x24 ==> ReadData(r, off, port) == Pack(r.data.w1)
    ensures off == 0x28 ==> ReadData(r, off, port) == Pack(r.data.w2)
    ensures off == 0x2c ==> ReadData(r, off, port) == Pack(r.data.w3)
    ensures off == 0x30 ==> ReadData(r, off, port) == Pack(port.out.w0)
    ensures off == 0x34 ==> ReadData(r, off, port) == Pack(port.out.w1)
    ensures off == 0x38 ==> ReadData(r, off, port) == Pack(port.out.w2)
    ensures off == 0x3c ==> ReadData(r, off, port) == Pack(port.out.w3)
    ensures off == 0x40 ==> ReadData(r, off, port) == Pack(r.iv.w0)
    ensures off == 0x44 ==> ReadData(r, off, port) == Pack(r.iv.w1)
    ensures off == 0x48 ==> ReadData(r, off, port) == Pack(r.iv.w2)
    ensures off == 0x4c ==> ReadData(r, off, port) == Pack(r.iv.w3)
    ensures off !in {0x00, 0x04} && !DataOrIv(off) && off !in {0x30, 0x34, 0x38, 0x3c} ==> ReadData(r, off, port) == 0
    ensures forall key: Block :: ReadData(r.(key := key), off, port) == ReadData(r, off, port)
  {
    hide Pack;
  }

  /** The offsets of the DATA and IV words. */
  predicate DataOrIv(off: bv7) {
    off in {0x20, 0x24, 0x28, 0x2c, 0x40, 0x44, 0x48, 0x4c}
  }

  /** STATUS is BUSY in bit 0 and DONE in bit 1. */
  lemma StatusWord(r: AesRegs, s: ChainState)
    ensures ReadData(r, 0x04, PortOf(s)) & 0x1 != 0 <==> !s.phase.ChainIdle?
    ensures ReadData(r, 0x04, PortOf(s)) & 0x2 != 0 <==> r.statusDone
    ensures ReadData(r, 0x04, PortOf(s)) & 0xffff_fffc == 0
  {
  }

  /** Every access is answered with OKAY on the edge that takes it, and a read with the
      register's value before the edge. */
  lemma Handshake(s: AesState, input: BusInputs)
    requires input.resetn
    ensures var r := AesStep(s, input).regs;
            && r.bvalid == (input.awvalid && input.wvalid) && (r.bvalid ==> r.bresp == 0)
            && r.rvalid == input.arvalid && (r.rvalid ==> r.rresp == 0)
            && r.rdata == if input.arvalid then ReadData(s.regs, (input.araddr & 0x7f) as bv7, PortOf(s.chain)) else s.regs.rdata
  {
    hide ChainStep, WriteSlot, ReadData, ClearsDone, DoStart, CtrlMode, CtrlDirection, PortOf;
    ChainOfStep(s, input);
  }

  /** A reset clears the register file and idles what is below it. */
  lemma FrontReset(s: AesState, input: BusInputs)
    requires !input.resetn
    ensures var t := AesStep(s, input);
            && t.regs.key == t.regs.data == t.regs.iv == t.chain.iv == ZERO_BLOCK
            && !t.regs.statusDone && !t.regs.irq && t.regs.mode == 0 && !t.regs.encdec
            && t.chain.phase == ChainIdle && !t.chain.done && t.chain.core.phase == Idle && !t.chain.core.busy && !t.chain.core.done
            && !t.chain.core.ke.expanding && t.chain.core.ke.roundIdx == 0
  {
    hide WriteSlot, ReadData, ClearsDone, DoStart, CtrlMode, CtrlDirection;
  }

  /** On an idle chain a CTRL write starts a block if and only if bit 0 is set, with the
      direction of bit 1, the mode of bits 3 to 2, the DATA registers and the KEY
      registers; nothing else starts one. It loads the IV registers as the running IV if
      and only if bit 4 is set. */
  lemma CtrlWrite(s: AesState, input: BusInputs)
    requires s.chain.phase.ChainIdle? && s.chain.core.phase.Idle? && !s.chain.core.ke.expanding && input.resetn
    ensures var t := AesStep(s, input).chain;
            && (t.phase == ChainCore <==> WritesAt(input, 0x00) && input.wdata & 0x01 != 0)
            && (t.phase == ChainCore || t.phase == ChainIdle)
            && (t.phase == ChainCore ==>
                  && t.mode == ((input.wdata >> 2) & 0x3) as bv2 && t.encdec == (input.wdata & 0x02 != 0)
                  && t.dataIn == s.regs.data && t.core.ke.rk[0] == s.regs.key)
            && t.iv == if WritesAt(input, 0x00) && input.wdata & 0x10 != 0 then s.regs.iv else s.chain.iv
  {
    hide WriteSlot, ReadData, ClearsDone, CoreData, CoreDirection, FrontStep;
  }

  /** While a block is in flight a CTRL write does neither. */
  lemma CtrlWriteWhileBusy(s: AesState, input: BusInputs)
    requires s.chain.phase.ChainCore? && !s.chain.core.done && input.resetn
    ensures var t := AesStep(s, input).chain;
            && t.phase == ChainCore && t.iv == s.chain.iv && t.mode == s.chain.mode && t.encdec == s.chain.encdec
            && t.dataIn == s.chain.dataIn && t.out == s.chain.out
  {
    hide WriteSlot, ReadData, ClearsDone, CoreData, CoreDirection, FrontStep, CoreStep;
  }

  /** A DATA or IV word reads back as it was written, even when the write meets the done
      cycle, and the other words of both blocks are left alone. */
  lemma WriteThenRead(s: AesState, input: BusInputs, off: bv7, other: bv7, port: ChainPort)
    requires input.resetn && WritesAt(input, off) && DataOrIv(off)
    requires DataOrIv(other) && other != off && (other >= 0x40 ==> !s.chain.done)
    ensures ReadData(AesStep(s, input).regs, off, port) == input.wdata
    ensures ReadData(AesStep(s, input).regs, other, port) == ReadData(s.regs, other, port)
  {
    hide ChainStep, Pack, Unpack, DoStart, ClearsDone, CtrlMode, CtrlDirection;
    PackUnpack(input.wdata);
    ChainOfStep(s, input);
    hide AesStep;
  }

  /** A write anywhere else changes neither block, nor the key outside its own offsets;
      the IV registers still follow a completion. */
  lemma OtherWrites(s: AesState, input: BusInputs, off: bv7)
    requires input.resetn && (!(input.awvalid && input.wvalid) || (WritesAt(input, off) && !DataOrIv(off)))
    ensures var t := AesStep(s, input).regs;
            && t.data == s.regs.data && t.iv == (if s.chain.done then s.chain.iv else s.regs.iv)
            && (off !in {0x10, 0x14, 0x18, 0x1c} ==> t.key == s.regs.key)
  {
    hide ChainStep, Pack, Unpack, DoStart, ClearsDone, CtrlMode, CtrlDirection;
    ChainOfStep(s, input);
    hide AesStep;
  }

  /** The key words, first word at the lowest offset. */
  lemma KeyWrite(s: AesState, input: BusInputs)
    requires input.resetn
    ensures AesStep(s, input).regs.key == Block(
      if WritesAt(input, 0x10) then Unpack(input.wdata) else s.regs.key.w0,
      if WritesAt(input, 0x14) then Unpack(input.wdata) else s.regs.key.w1,
      if WritesAt(input, 0x18) then Unpack(input.wdata) else s.regs.key.w2,
      if WritesAt(input, 0x1c) then Unpack(input.wdata) else s.regs.key.w3)
  {
    hide ChainStep, Unpack, DoStart, ClearsDone, CtrlMode, CtrlDirection, ReadData;
    ChainOfStep(s, input);
    hide AesStep;
  }

  /** CTRL reads back direction and mode of the last accepted START: an accepted one
      sets them, and nothing else but a reset changes them. */
  lemma CtrlReadBack(s: AesState, input: BusInputs, port: ChainPort)
    requires input.resetn
    ensures ReadData(AesStep(s, input).regs, 0x00, port)
         == if AcceptsStart(s, input) then input.wdata & 0xe else ReadData(s.regs, 0x00, port)
  {
    hide ChainStep, WriteSlot, ReadData, DoWrite, ClearsDone, DoStart, Offset, CtrlMode, CtrlDirection;
    ChainOfStep(s, input);
    DecodeMeaning(s, input);
    var r := AesStep(s, input).regs;
    hide AesStep, PortOf, AcceptsStart;
    var start := AcceptsStart(s, input);
    assert r.mode == (if start then CtrlMode(input.wdata) else s.regs.mode);
    assert r.encdec == (if start then CtrlDirection(input.wdata) else s.regs.encdec);
    hide FrontStep;
    CtrlWord(input.wdata);
    CtrlRegister(r, port);
    CtrlRegister(s.regs, port);
  }

  lemma CtrlRegister(r: AesRegs, port: ChainPort)
    ensures ReadData(r, 0x00, port) == ((r.mode as bv32) << 2) | (if r.encdec then 2 else 0)
  {
  }

  lemma CtrlWord(w: bv32)
    ensures ((CtrlMode(w) as bv32) << 2) | (if CtrlDirection(w) then 2 else 0) == w & 0xe
  {
    assert (CtrlMode(w) as bv32) << 2 == w & 0xc;
    assert (if CtrlDirection(w) then 2 else 0) == w & 0x2;
    hide CtrlMode, CtrlDirection;
  }

  /** Reading the four RESULT, DATA or IV words gives the block back. */
  lemma ReadBack(r: AesRegs, port: ChainPort)
    ensures Block(Unpack(ReadData(r, 0x20, port)), Unpack(ReadData(r, 0x24, port)),
                  Unpack(ReadData(r, 0x28, port)), Unpack(ReadData(r, 0x2c, port))) == r.data
    ensures Block(Unpack(ReadData(r, 0x30, port)), Unpack(ReadData(r, 0x34, port)),
                  Unpack(ReadData(r, 0x38, port)), Unpack(ReadData(r, 0x3c, port))) == port.out
    ensures Block(Unpack(ReadData(r, 0x40, port)), Unpack(ReadData(r, 0x44, port)),
                  Unpack(ReadData(r, 0x48, port)), Unpack(ReadData(r, 0x4c, port))) == r.iv
  {
    hide Pack, Unpack;
    WordsReadBack(r.data);
    WordsReadBack(port.out);
    WordsReadBack(r.iv);
  }

  lemma WordsReadBack(b: Block)
    ensures Unpack(Pack(b.w0)) == b.w0 && Unpack(Pack(b.w1)) == b.w1
    ensures Unpack(Pack(b.w2)) == b.w2 && Unpack(Pack(b.w3)) == b.w3
  {
    hide Pack, Unpack;
    UnpackPack(b.w0);
    UnpackPack(b.w1);
    UnpackPack(b.w2);
    UnpackPack(b.w3);
  }



  // ----- The IV mirror -----

  /** Whether the IV registers are known to show the running IV after an edge. A
      load counts except in the done cycle, where it takes the register's old value
      while the register takes the chain's. */
  function MirrorAfter(s: AesState, clean: bool, input: BusInputs): bool {
    if !input.resetn then true
    else if WritesIvWord(input) then false
    else if s.chain.done then !AcceptsLoad(s, input)
    else clean || AcceptsLoad(s, input)
  }

  function Mirrored(s: AesState, clean: bool, inputs: seq<BusInputs>): bool {
    if inputs == [] then clean
    else
      var before := inputs[..|inputs| - 1];
      MirrorAfter(AesRun(s, before), Mirrored(s, clean, before), inputs[|inputs| - 1])
  }

  /** In the done cycle the running IV has moved on and the registers have not. */
  predicate Shows(s: AesState) {
    !s.chain.done ==> s.regs.iv == s.chain.iv
  }

  lemma {:induction false} MirrorStep(s: AesState, a: ChainModel, clean: bool, input: BusInputs)
    requires ChainRefines(s.chain, a) && (clean ==> Shows(s))
    ensures MirrorAfter(s, clean, input) ==> Shows(AesStep(s, input))
    ensures ChainRefines(AesStep(s, input).chain, ChainModelStep(a, ChainInputsOf(s.regs, input, PortOf(s.chain).busy)))
  {
    hide ChainRefines, ChainStep, FinishOut, FinishIv, Accept, ReadData;
    var c := ChainInputsOf(s.regs, input, PortOf(s.chain).busy);
    Observable(s.chain, a);
    ChainSimulates(s.chain, a, c);
    Observable(ChainStep(s.chain, c), ChainModelStep(a, c));
    ChainOfStep(s, input);
    DecodeMeaning(s, input);
    hide AesStep, CtrlMode, CtrlDirection, RequestOf, RequestAt;
  }

  /** Over every run of the bus: when no IV write has come since the last accepted
      load or the last completion, the IV registers equal the chain's running IV in
      every cycle except the done cycle. */
  lemma {:induction false} IvMirror(s: AesState, a: ChainModel, clean: bool, inputs: seq<BusInputs>)
    requires ChainRefines(s.chain, a) && (clean ==> Shows(s))
    ensures Mirrored(s, clean, inputs) ==> Shows(AesRun(s, inputs))
  {
    hide ChainRefines, AesStep, ChainModelStep, MirrorAfter, Shows, ChainRun, ChainModelRun, ChainStream;
    if inputs != [] {
      var before := inputs[..|inputs| - 1];
      IvMirror(s, a, clean, before);
      ChainInsideBus(s, before);
      ChainRunSimulates(s.chain, a, ChainStream(s, before));
      MirrorStep(AesRun(s, before), ChainModelRun(a, ChainStream(s, before)), Mirrored(s, clean, before),
                 inputs[|inputs| - 1]);
    }
  }

  /** The same without the bookkeeping: take an edge with an accepted load outside a done
      cycle, or a completion that no load or IV write meets. As long as no IV word is
      written after it and no load hits a done cycle, the registers show the running
      IV in every cycle that is not a done cycle. */
  lemma {:induction false} IvMirrorHolds(s: AesState, a: ChainModel, edge: BusInputs, rest: seq<BusInputs>)
    requires ChainRefines(s.chain, a) && edge.resetn && !WritesIvWord(edge)
    requires if s.chain.done then !AcceptsLoad(s, edge) else AcceptsLoad(s, edge)
    requires forall k | 0 <= k < |rest| :: rest[k].resetn && !WritesIvWord(rest[k])
    requires forall k {:trigger rest[..k]} | 0 <= k < |rest| ::
               var t := AesRun(AesStep(s, edge), rest[..k]);
               t.chain.done ==> !AcceptsLoad(t, rest[k])
    ensures var f := AesRun(AesStep(s, edge), rest);
            !f.chain.done ==> f.regs.iv == f.chain.iv
  {
    hide ChainRefines, AesStep, ChainModelStep, WritesIvWord, AcceptsLoad, AesRun;
    MirrorStep(s, a, false, edge);
    StaysMirrored(AesStep(s, edge), rest);
    IvMirror(AesStep(s, edge), ChainModelStep(a, ChainInputsOf(s.regs, edge, PortOf(s.chain).busy)), true, rest);
  }

  lemma {:induction false} StaysMirrored(s: AesState, inputs: seq<BusInputs>)
    requires forall k | 0 <= k < |inputs| :: inputs[k].resetn && !WritesIvWord(inputs[k])
    requires forall k {:trigger inputs[..k]} | 0 <= k < |inputs| ::
               var t := AesRun(s, inputs[..k]);
               t.chain.done ==> !AcceptsLoad(t, inputs[k])
    ensures Mirrored(s, true, inputs)
  {
    hide AesStep, WritesIvWord, AcceptsLoad, AesRun;
    if inputs != [] {
      var before := inputs[..|inputs| - 1];
      assert forall k {:trigger before[..k]} | 0 <= k < |before| :: before[..k] == inputs[..k];
      StaysMirrored(s, before);
    }
  }

  /** A load in the done cycle exchanges the two: the chain takes the stale register
      and the register takes the chain's value. So it re-establishes the mirror just
      when they were equal already. */
  lemma {:induction false} LoadInDoneCycleExchanges(s: AesState, a: ChainModel, input: BusInputs)
    requires ChainRefines(s.chain, a) && s.chain.done && input.resetn
    requires AcceptsLoad(s, input)
    ensures var t := AesStep(s, input);
            && t.regs.iv == s.chain.iv && t.chain.iv == s.regs.iv
            && !t.chain.done && (t.regs.iv == t.chain.iv <==> s.regs.iv == s.chain.iv)
  {
    hide ChainRefines, ChainStep, FinishOut, FinishIv, Accept, ReadData;
    var c := ChainInputsOf(s.regs, input, PortOf(s.chain).busy);
    Observable(s.chain, a);
    ChainSimulates(s.chain, a, c);
    Observable(ChainStep(s.chain, c), ChainModelStep(a, c));
    ChainOfStep(s, input);
    DecodeMeaning(s, input);
    hide AesStep, CtrlMode, CtrlDirection, RequestOf, RequestAt;
  }

  /** And such a load is accepted: the done cycle is not busy. */
  lemma DoneIsNotBusy(s: AesState, a: ChainModel)
    requires ChainRefines(s.chain, a) && s.chain.done
    ensures !PortOf(s.chain).busy
  {
    Observable(s.chain, a);
  }

  // ----- Whole runs of the peripheral -----

  /** No reset, and no CTRL write asks for START and LOAD_IV at once. */
  predicate Separate(inputs: seq<BusInputs>) {
    forall input | input in inputs ::
      input.resetn && !(WritesAt(input, 0x00) && input.wdata & 0x01 != 0 && input.wdata & 0x10 != 0)
  }

  /** What one edge of the bus asks of the mode machine: the request a START accepts, or
      the IV registers that a LOAD_IV takes. */
  function BusEdge(s: AesState, input: BusInputs): seq<Event> {
    if AcceptsStart(s, input) then [Process(RequestAt(s, input))]
    else if AcceptsLoad(s, input) then [Load(s.regs.iv)]
    else []
  }

  function BusEvents(s: AesState, inputs: seq<BusInputs>): seq<Event> {
    if inputs == [] then []
    else
      var before := inputs[..|inputs| - 1];
      BusEvents(s, before) + BusEdge(AesRun(s, before), inputs[|inputs| - 1])
  }

  /** RESULT in the cycles in which an operation completes. */
  function Results(s: AesState, inputs: seq<BusInputs>): seq<Block> {
    if inputs == [] then []
    else
      var port := PortOf(AesRun(s, inputs).chain);
      Results(s, inputs[..|inputs| - 1]) + if port.done then [port.out] else []
  }

  lemma BusEdgeReachesChain(s: AesState, input: BusInputs)
    ensures EdgeEvents(s.chain, ChainInputsOf(s.regs, input, PortOf(s.chain).busy)) == BusEdge(s, input)
  {
    hide CtrlMode, CtrlDirection, AcceptsLoad, RequestAt, RequestOf, WritesAt, DoLoadIv;
    DecodeMeaning(s, input);
  }

  /** The front end passes exactly the bus's events to the chain, and keeps the input
      rules the chain relies on. */
  lemma {:induction false} BusReachesChain(s: AesState, inputs: seq<BusInputs>)
    requires Separate(inputs)
    ensures Legal(s.chain, ChainStream(s, inputs))
    ensures EventsOf(s.chain, ChainStream(s, inputs)) == BusEvents(s, inputs)
    ensures Emitted(s.chain, ChainStream(s, inputs)) == Results(s, inputs)
  {
    hide AesStep, ChainStep, EdgeEvents, BusEdge, CtrlMode, CtrlDirection, ChainRun, AesRun;
    if inputs != [] {
      var before, last := inputs[..|inputs| - 1], inputs[|inputs| - 1];
      var stream, f := ChainStream(s, inputs), AesRun(s, before);
      assert stream[..|stream| - 1] == ChainStream(s, before);
      assert last in inputs;
      BusReachesChain(s, before);
      ChainInsideBus(s, before);
      ChainInsideBus(s, inputs);
      BusEdgeReachesChain(f, last);
      DecodeMeaning(f, last);
    }
  }

  /** Any interleaving of register accesses, polling and waiting that begins and ends with
      the peripheral not busy leaves, in RESULT at its completions, the blocks the mode
      machine produces for the accepted starts and loads, in order. */
  lemma BusTrace(s: AesState, inputs: seq<BusInputs>)
    requires BetweenBlocks(s.chain) && Separate(inputs) && !PortOf(AesRun(s, inputs).chain).busy
    ensures Results(s, inputs) == Outputs(s.chain.iv, BusEvents(s, inputs))
    ensures AesRun(s, inputs).chain.iv == IvAfter(s.chain.iv, BusEvents(s, inputs))
    ensures BetweenBlocks(AesRun(s, inputs).chain)
  {
    hide BetweenBlocks, AesRun, ChainRun, Legal, ChainStream;
    BusReachesChain(s, inputs);
    ChainInsideBus(s, inputs);
    CompleteRun(s.chain, ChainStream(s, inputs));
  }

  /** CBC from the bus: a run that loads an IV and encrypts a message, and a run that loads
      it and decrypts the results of the first, return the message, whatever else the bus
      does meanwhile. */
  lemma CbcOnTheBus(s: AesState, run: seq<BusInputs>, s': AesState, run': seq<BusInputs>,
                    key: Block, iv: Block, message: seq<Block>)
    requires BetweenBlocks(s.chain) && Separate(run) && !PortOf(AesRun(s, run).chain).busy
    requires BetweenBlocks(s'.chain) && Separate(run') && !PortOf(AesRun(s', run').chain).busy
    requires BusEvents(s, run) == [Load(iv)] + Message(CBC, false, key, message)
    requires BusEvents(s', run') == [Load(iv)] + Message(CBC, true, key, Results(s, run))
    ensures Results(s', run') == message
  {
    hide BetweenBlocks, AesRun, ChainRun, Legal, ChainStream, BusEvents, Results;
    BusReachesChain(s, run);
    BusReachesChain(s', run');
    ChainInsideBus(s, run);
    ChainInsideBus(s', run');
    CbcOnTheClock(s.chain, ChainStream(s, run), s'.chain, ChainStream(s', run'), key, iv, message);
  }
}
