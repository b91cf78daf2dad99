/** The peripheral driven as a program would: the bus transfers of the test benches with
    their handshakes and timeouts, and on top of them single blocks, the START-while-busy
    check, and whole CBC and CTR messages. Addresses and CTRL words are literal. */
module Driver {
  import opened Blocks
  import opened Cipher
  import opened Modes
  import opened Chain
  import opened Registers

  // ----- Bus transfers -----

  function WriteInput(addr: bv32, data: bv32): BusInputs {
    BusInputs(true, true, addr, true, data, false, 0)
  }

  function ReadInput(addr: bv32): BusInputs {
    BusInputs(true, false, 0, false, 0, true, addr)
  }

  /** Holds each valid signal until it is taken and waits for the response. The
      response is left as it was if none comes. */
  method Write(dut: Aes, addr: bv32, data: bv32, lastResp: bv2) returns (ok: bool, resp: bv2)
    requires dut.Valid()
    modifies dut.Repr()
    ensures ok && resp == 0
    ensures dut.State() == AesStep(old(dut.State()), WriteInput(addr, data))
  {
    hide AesStep;
    resp := lastResp;
    var awvalid, wvalid := true, true;
    var awDone, wDone, bDone := false, false, false;
    var i := 0;
    while i < 200 && !(awDone && wDone && bDone)
      invariant i == 0 ==> awvalid && wvalid && !awDone && dut.State() == old(dut.State())
      invariant i > 0 ==> awDone && wDone && bDone && resp == 0
      invariant i > 0 ==> dut.State() == AesStep(old(dut.State()), WriteInput(addr, data))
    {
      Handshake(dut.State(), WriteInput(addr, data));
      dut.Tick(BusInputs(true, awvalid, addr, wvalid, data, false, 0));
      if !awDone && dut.awready {
        awvalid, awDone := false, true;
      }
      if !wDone && dut.wready {
        wvalid, wDone := false, true;
      }
      if dut.bvalid {
        resp, bDone := dut.bresp, true;
      }
      i := i + 1;
    }
    ok := awDone && wDone && bDone;
  }

  /** The same for a read. The data is left as it was if none comes. */
  method Read(dut: Aes, addr: bv32, lastData: bv32) returns (ok: bool, data: bv32)
    requires dut.Valid()
    modifies dut.Repr()
    ensures ok && data == ReadData(old(dut.Regs()), (addr & 0x7f) as bv7, PortOf(old(dut.chain.State())))
    ensures dut.State() == AesStep(old(dut.State()), ReadInput(addr))
  {
    hide AesStep, ReadData;
    data := lastData;
    var arvalid := true;
    var arDone, rDone := false, false;
    var i := 0;
    while i < 200 && !(arDone && rDone)
      invariant i == 0 ==> arvalid && !arDone && dut.State() == old(dut.State())
      invariant i > 0 ==> arDone && rDone && dut.State() == AesStep(old(dut.State()), ReadInput(addr))
      invariant i > 0 ==> data == ReadData(old(dut.Regs()), (addr & 0x7f) as bv7, PortOf(old(dut.chain.State())))
    {
      Handshake(dut.State(), ReadInput(addr));
      dut.Tick(BusInputs(true, false, 0, false, 0, arvalid, addr));
      if !arDone && dut.arready {
        arvalid, arDone := false, true;
      }
      if dut.rvalid {
        data, rDone := dut.rdata, true;
      }
      i := i + 1;
    }
    ok := arDone && rDone;
  }

  // ----- Between blocks -----

  /** No block is in flight and none has just finished. */
  ghost predicate Settled(s: AesState) {
    exists a :: ChainRefines(s.chain, a) && a.job.None? && !a.done
  }

  /** A transfer that is not a CTRL write leaves a settled chain alone. */
  lemma {:induction false} SettledStep(s: AesState, input: BusInputs)
    requires Settled(s) && input.resetn && !WritesAt(input, 0x00)
    ensures var t := AesStep(s, input);
            && Settled(t) && t.chain.out == s.chain.out && t.chain.iv == s.chain.iv && !s.chain.done
            && t.regs == FrontStep(s.regs, input, PortOf(s.chain))
  {
    hide ChainRefines, ChainStep, FrontStep, WritesAt, CtrlMode, CtrlDirection, WritesCtrl, RequestOf, RequestAt;
    var a :| ChainRefines(s.chain, a) && a.job.None? && !a.done;
    var c := ChainInputsOf(s.regs, input, PortOf(s.chain).busy);
    DecodeMeaning(s, input);
    Observable(s.chain, a);
    ChainSimulates(s.chain, a, c);
    Observable(ChainStep(s.chain, c), ChainModelStep(a, c));
    ChainOfStep(s, input);
  }

  function PutWord(b: Block, i: bv32, w: Word): Block {
    if i == 0 then b.(w0 := w) else if i == 4 then b.(w1 := w) else if i == 8 then b.(w2 := w)
    else if i == 12 then b.(w3 := w) else b
  }

  lemma {:induction false} BlockWrite(s: AesState, base: bv32, i: bv32, w: Word)
    requires Settled(s) && base in {0x10, 0x20, 0x40} && i in {0, 4, 8, 12}
    ensures var t := AesStep(s, WriteInput(base + i, Pack(w)));
            && Settled(t) && t.regs.statusDone == s.regs.statusDone
            && t.chain.out == s.chain.out && t.chain.iv == s.chain.iv
            && t.regs.key == (if base == 0x10 then PutWord(s.regs.key, i, w) else s.regs.key)
            && t.regs.data == (if base == 0x20 then PutWord(s.regs.data, i, w) else s.regs.data)
            && t.regs.iv == (if base == 0x40 then PutWord(s.regs.iv, i, w) else s.regs.iv)
  {
    hide AesStep, Settled, Pack, Unpack, ReadData, CtrlMode, CtrlDirection;
    UnpackPack(w);
    SettledStep(s, WriteInput(base + i, Pack(w)));
  }

  /** Writes a KEY (0x10), DATA (0x20) or IV (0x40) block, most significant word first. */
  method WriteBlock(dut: Aes, base: bv32, b: Block)
    requires dut.Valid() && Settled(dut.State())
    requires base in {0x10, 0x20, 0x40}
    modifies dut.Repr()
    ensures Settled(dut.State())
    ensures dut.statusDone == old(dut.statusDone)
    ensures dut.key == if base == 0x10 then b else old(dut.key)
    ensures dut.data == if base == 0x20 then b else old(dut.data)
    ensures dut.iv == if base == 0x40 then b else old(dut.iv)
    ensures dut.chain.iv == old(dut.chain.iv) && dut.chain.out == old(dut.chain.out)
  {
    hide AesStep, Settled, Pack, Unpack;
    ghost var s0 := dut.State();
    var ok, resp := Write(dut, base, Pack(b.w0), 0);
    BlockWrite(s0, base, 0, b.w0);
    ghost var s1 := dut.State();
    ok, resp := Write(dut, base + 4, Pack(b.w1), resp);
    BlockWrite(s1, base, 4, b.w1);
    ghost var s2 := dut.State();
    ok, resp := Write(dut, base + 8, Pack(b.w2), resp);
    BlockWrite(s2, base, 8, b.w2);
    ghost var s3 := dut.State();
    ok, resp := Write(dut, base + 12, Pack(b.w3), resp);
    BlockWrite(s3, base, 12, b.w3);
  }

  lemma {:induction false} LoadStep(s: AesState)
    requires Settled(s)
    ensures var t := AesStep(s, WriteInput(0x00, 0x10));
            && Settled(t) && t.chain.iv == s.regs.iv && t.chain.out == s.chain.out
            && t.regs.statusDone == s.regs.statusDone
            && t.regs.key == s.regs.key && t.regs.data == s.regs.data && t.regs.iv == s.regs.iv
  {
    hide ChainRefines, ChainStep, CtrlMode, CtrlDirection, ReadData, RequestOf, RequestAt;
    var a :| ChainRefines(s.chain, a) && a.job.None? && !a.done;
    var w := WriteInput(0x00, 0x10);
    var c := ChainInputsOf(s.regs, w, PortOf(s.chain).busy);
    DecodeMeaning(s, w);
    Observable(s.chain, a);
    ChainSimulates(s.chain, a, c);
    Observable(ChainStep(s.chain, c), ChainModelStep(a, c));
    ChainOfStep(s, w);
  }

  /** Four words to 0x40, 0x44, 0x48 and 0x4c, then 0x10 to CTRL: the running IV is the
      block of those words. */
  method LoadIv(dut: Aes, iv: Block)
    requires dut.Valid() && Settled(dut.State())
    modifies dut.Repr()
    ensures Settled(dut.State()) && dut.chain.iv == iv
    ensures dut.key == old(dut.key) && dut.data == old(dut.data) && dut.statusDone == old(dut.statusDone)
  {
    hide AesStep, Settled;
    WriteBlock(dut, 0x40, iv);
    LoadStep(dut.State());
    var ok, resp := Write(dut, 0x00, 0x10, 0);
  }

  // ----- One block -----

  /** START with the direction in bit 1 and ECB, CBC or CTR in bits 3 to 2. */
  predicate IsStart(ctrl: bv32) {
    ctrl in {0x1, 0x3, 0x5, 0x7, 0x9, 0xb}
  }

  /** What a block does to RESULT and to the running IV: SP 800-38A sections 6.1, 6.2
      and 6.5. */
  ghost predicate Outcome(ctrl: bv32, key: Block, data: Block, iv: Block, out: Block, next: Block) {
    && (ctrl == 0x1 ==> out == Encrypt(key, data) && next == iv)
    && (ctrl == 0x3 ==> out == Decrypt(key, data) && next == iv)
    && (ctrl == 0x5 ==> out == Encrypt(key, Xor(data, iv)) && next == out)
    && (ctrl == 0x7 ==> out == Xor(Decrypt(key, data), iv) && next == data)
    && (ctrl == 0x9 || ctrl == 0xb ==> out == Xor(data, Encrypt(key, iv)) && next == Counter(iv, 1))
  }

  lemma StartOutcome(s: AesState, ctrl: bv32)
    requires IsStart(ctrl)
    ensures var r := RequestAt(s, WriteInput(0x00, ctrl));
            Outcome(ctrl, s.regs.key, s.regs.data, s.chain.iv, Output(s.chain.iv, r), NextIv(s.chain.iv, r))
    ensures s.chain.phase.ChainIdle? ==> AcceptsStart(s, WriteInput(0x00, ctrl))
    ensures !AcceptsLoad(s, WriteInput(0x00, ctrl)) && !Clears(WriteInput(0x00, ctrl))
  {
    hide Encrypt, Decrypt, Xor, Advance, Counter;
    assert Advance(s.chain.iv, 1) == Counter(s.chain.iv, 1) by {
      OneUp(s.chain.iv);
    }
  }

  lemma OneUp(iv: Block)
    ensures Advance(iv, 1) == Counter(iv, 1)
  {
    hide Advance, OfValue, Value;
    AdvanceAdds(iv, 1);
  }

  /** The state after START and the transfers of `log`. */
  function Flight(s: AesState, ctrl: bv32, log: seq<BusInputs>): AesState {
    AesRun(AesStep(s, WriteInput(0x00, ctrl)), log)
  }

  lemma FlightStep(s: AesState, ctrl: bv32, log: seq<BusInputs>, input: BusInputs)
    ensures Flight(s, ctrl, []) == AesStep(s, WriteInput(0x00, ctrl))
    ensures Flight(s, ctrl, log + [input]) == AesStep(Flight(s, ctrl, log), input)
  {
    hide AesStep;
    assert (log + [input])[..|log|] == log;
  }

  ghost predicate Reachable(s: ChainState, finished: bool) {
    exists b :: ChainRefines(s, b) && (finished ==> b.job.None? && b.done)
  }

  /** Until the 22nd transfer the block is in flight, then it is just done; DONE still
      reads 0. */
  lemma {:induction false} FlightState(s: AesState, ctrl: bv32, log: seq<BusInputs>)
    requires Settled(s) && !s.regs.statusDone && IsStart(ctrl)
    requires |log| <= 22 && forall input | input in log :: input.resetn
    ensures var f := Flight(s, ctrl, log);
            && !f.regs.statusDone && f.chain.done == (|log| == 22) && f.chain.phase.ChainIdle? == (|log| == 22)
            && Reachable(f.chain, |log| == 22)
            && (|log| == 22 ==> Outcome(ctrl, s.regs.key, s.regs.data, s.chain.iv, f.chain.out, f.chain.iv))
  {
    hide ChainRefines, AesStep, AesRun, ChainRun, ChainStream, ChainModelRun, ChainModelStep, ReadData, WriteSlot, FrontStep;
    hide Outcome, Output, NextIv, RequestAt, AcceptsStart, AcceptsLoad, Clears, IsStart;
    var a :| ChainRefines(s.chain, a) && a.job.None? && !a.done;
    Observable(s.chain, a);
    var w := WriteInput(0x00, ctrl);
    StartOutcome(s, ctrl);
    Isolation(s, a, w, log);
    var f := Flight(s, ctrl, log);
    var b := ChainModelRun(ChainModelStep(a, ChainInputsOf(s.regs, w, PortOf(s.chain).busy)), ChainStream(AesStep(s, w), log));
    Observable(f.chain, b);
    if log == [] {
      FlightStep(s, ctrl, [], w);
      DoneStep(s, w);
    } else {
      var before, last := log[..|log| - 1], log[|log| - 1];
      assert log == before + [last];
      FlightState(s, ctrl, before);
      FlightStep(s, ctrl, before, last);
      DoneStep(Flight(s, ctrl, before), last);
    }
  }

  /** The next transfer, if it is neither a CTRL write nor a clear, sets DONE. */
  lemma {:induction false} FlightDone(s: AesState, ctrl: bv32, log: seq<BusInputs>, input: BusInputs)
    requires Settled(s) && !s.regs.statusDone && IsStart(ctrl)
    requires |log| == 22 && forall input | input in log :: input.resetn
    requires input.resetn && !WritesAt(input, 0x00) && !Clears(input)
    ensures var f := Flight(s, ctrl, log + [input]);
            && f.regs.statusDone && Settled(f)
            && Outcome(ctrl, s.regs.key, s.regs.data, s.chain.iv, f.chain.out, f.chain.iv)
  {
    hide ChainRefines, AesStep, AesRun, Flight, ChainStep, Outcome, IsStart, WritesAt, Clears, RequestOf, RequestAt, CtrlMode, CtrlDirection;
    FlightState(s, ctrl, log);
    FlightStep(s, ctrl, log, input);
    var f := Flight(s, ctrl, log);
    var b :| ChainRefines(f.chain, b) && b.job.None? && b.done;
    var c := ChainInputsOf(f.regs, input, PortOf(f.chain).busy);
    Observable(f.chain, b);
    DecodeMeaning(f, input);
    ChainSimulates(f.chain, b, c);
    Observable(ChainStep(f.chain, c), ChainModelStep(b, c));
    ChainOfStep(f, input);
    DoneStep(f, input);
    assert Settled(Flight(s, ctrl, log + [input]));
  }

  /** A read changes neither the chain's visible state nor a register. */
  lemma {:induction false} SettledRead(s: AesState, addr: bv32)
    requires Settled(s)
    ensures var t := AesStep(s, ReadInput(addr));
            && Settled(t) && t.chain.out == s.chain.out && t.chain.iv == s.chain.iv
            && t.regs.statusDone == s.regs.statusDone && t.regs.key == s.regs.key && t.regs.data == s.regs.data
  {
    hide AesStep, Settled, ReadData;
    SettledStep(s, ReadInput(addr));
  }

  lemma {:induction false} SettledClear(s: AesState)
    requires Settled(s)
    ensures var t := AesStep(s, WriteInput(0x04, 0x2));
            && Settled(t) && t.chain.out == s.chain.out && t.chain.iv == s.chain.iv
            && !t.regs.statusDone && t.regs.key == s.regs.key && t.regs.data == s.regs.data
  {
    hide AesStep, Settled, ReadData;
    SettledStep(s, WriteInput(0x04, 0x2));
  }

  /** Reads leave the key as it is, in any state. */
  lemma KeyKept(s: AesState, addr: bv32)
    ensures AesStep(s, ReadInput(addr)).regs.key == s.regs.key
  {
    hide AesStep;
    OtherWrites(s, ReadInput(addr), 0);
  }

  /** Polls STATUS until DONE or a timeout of 400 reads, which is never reached. The
      transfers of `log` have gone by since START. */
  method PollDone(dut: Aes, ghost s: AesState, ghost ctrl: bv32, ghost log: seq<BusInputs>) returns (done: bool)
    requires dut.Valid() && Settled(s) && !s.regs.statusDone && IsStart(ctrl)
    requires |log| <= 22 && forall input | input in log :: input.resetn
    requires dut.State() == Flight(s, ctrl, log)
    modifies dut.Repr()
    ensures done && Settled(dut.State()) && dut.key == old(dut.key)
    ensures Outcome(ctrl, s.regs.key, s.regs.data, s.chain.iv, dut.chain.out, dut.chain.iv)
  {
    hide AesStep, Settled, ReadData, Flight, Outcome, IsStart;
    done := false;
    var ok, rd := false, 0;
    var i := 0;
    ghost var past := log;
    while i < 400 && !done
      invariant 0 <= i <= 24 && (!done ==> |past| == |log| + i <= 23)
      invariant !done ==> dut.State() == Flight(s, ctrl, past) && forall input | input in past :: input.resetn
      invariant !done && |past| == 23 ==> dut.statusDone && Settled(dut.State())
      invariant done || |past| == 23 ==> Outcome(ctrl, s.regs.key, s.regs.data, s.chain.iv, dut.chain.out, dut.chain.iv)
      invariant done ==> Settled(dut.State())
      invariant dut.key == old(dut.key)
    {
      ghost var f := dut.State();
      StatusWord(f.regs, f.chain);
      KeyKept(f, 0x04);
      if |past| <= 22 {
        FlightState(s, ctrl, past);
        FlightStep(s, ctrl, past, ReadInput(0x04));
        if |past| == 22 {
          FlightDone(s, ctrl, past, ReadInput(0x04));
        }
      } else {
        SettledRead(f, 0x04);
      }
      past := past + [ReadInput(0x04)];
      ok, rd := Read(dut, 0x04, rd);
      done := rd & 0x2 != 0;
      i := i + 1;
    }
  }

  /** The four words at 0x30 to 0x3c. */
  method ReadResult(dut: Aes) returns (out: Block)
    requires dut.Valid() && Settled(dut.State())
    modifies dut.Repr()
    ensures out == old(dut.chain.out) && Settled(dut.State())
    ensures dut.chain.iv == old(dut.chain.iv) && dut.key == old(dut.key) && dut.data == old(dut.data)
  {
    hide AesStep, Settled, ReadData, Unpack, Pack;
    ghost var s := dut.State();
    ResultWord(dut.Regs(), PortOf(s.chain));
    SettledRead(dut.State(), 0x30);
    var ok, w0 := Read(dut, 0x30, 0);
    ResultWord(dut.Regs(), PortOf(dut.chain.State()));
    SettledRead(dut.State(), 0x34);
    var w1;
    ok, w1 := Read(dut, 0x34, 0);
    ResultWord(dut.Regs(), PortOf(dut.chain.State()));
    SettledRead(dut.State(), 0x38);
    var w2;
    ok, w2 := Read(dut, 0x38, 0);
    ResultWord(dut.Regs(), PortOf(dut.chain.State()));
    SettledRead(dut.State(), 0x3c);
    var w3;
    ok, w3 := Read(dut, 0x3c, 0);
    out := Block(Unpack(w0), Unpack(w1), Unpack(w2), Unpack(w3));
    WordsReadBack(old(dut.chain.out));
  }

  lemma ResultWord(r: AesRegs, port: ChainPort)
    ensures ReadData(r, 0x30, port) == Pack(port.out.w0) && ReadData(r, 0x34, port) == Pack(port.out.w1)
    ensures ReadData(r, 0x38, port) == Pack(port.out.w2) && ReadData(r, 0x3c, port) == Pack(port.out.w3)
  {
    hide Pack;
  }

  /** START, poll, read the result, clear DONE. */
  method RunBlock(dut: Aes, ctrl: bv32) returns (ok: bool, out: Block)
    requires dut.Valid() && Settled(dut.State()) && !dut.statusDone && IsStart(ctrl)
    modifies dut.Repr()
    ensures ok && Outcome(ctrl, old(dut.key), old(dut.data), old(dut.chain.iv), out, dut.chain.iv)
    ensures Settled(dut.State()) && !dut.statusDone && dut.key == old(dut.key)
  {
    hide AesStep, Settled, Outcome, IsStart, Flight;
    ghost var s := dut.State();
    FlightStep(s, ctrl, [], ReadInput(0x04));
    StartKeepsKey(s, ctrl);
    var sent, resp := Write(dut, 0x00, ctrl, 0);
    ok := PollDone(dut, s, ctrl, []);
    if !ok {
      return false, ZERO_BLOCK;
    }
    out := ReadResult(dut);
    SettledClear(dut.State());
    sent, resp := Write(dut, 0x04, 0x2, resp);
  }

  lemma StartKeepsKey(s: AesState, ctrl: bv32)
    ensures AesStep(s, WriteInput(0x00, ctrl)).regs.key == s.regs.key
  {
    hide AesStep;
    OtherWrites(s, WriteInput(0x00, ctrl), 0);
  }

  // ----- Checks of the register interface -----

  /** Whatever is written to a KEY word, it reads back as 0. */
  method KeyReadsZero(dut: Aes, word: bv32) returns (rd: bv32)
    requires dut.Valid()
    modifies dut.Repr()
    ensures rd == 0
  {
    hide AesStep, ReadData;
    var ok, resp := Write(dut, 0x10, word, 0);
    RegisterMap(dut.Regs(), 0x10, PortOf(dut.chain.State()));
    ok, rd := Read(dut, 0x10, 0xffff_ffff);
  }

  /** One more write while a block is in flight. */
  method WriteInFlight(dut: Aes, ghost s: AesState, ghost log: seq<BusInputs>, addr: bv32, data: bv32)
    returns (ghost longer: seq<BusInputs>)
    requires dut.Valid() && dut.State() == Flight(s, 0x1, log)
    modifies dut.Repr()
    ensures longer == log + [WriteInput(addr, data)] && dut.State() == Flight(s, 0x1, longer)
  {
    hide AesStep, Flight;
    FlightStep(s, 0x1, log, WriteInput(addr, data));
    var sent, resp := Write(dut, addr, data, 0);
    longer := log + [WriteInput(addr, data)];
  }

  /** There is no queue: while a block is in flight BUSY reads 1, new DATA and a second
      START are without effect, and the result is that of the original data. */
  method NoQueue(dut: Aes, key: Block, data: Block, other: Block) returns (busy: bool, ok: bool, out: Block)
    requires dut.Valid() && Settled(dut.State()) && !dut.statusDone
    modifies dut.Repr()
    ensures busy && ok && out == Encrypt(key, data)
    ensures Settled(dut.State()) && !dut.statusDone
  {
    hide AesStep, Settled, Flight, Encrypt, ReadData, ReadWord, Pack, FrontStep, ChainStep;
    WriteBlock(dut, 0x10, key);
    WriteBlock(dut, 0x20, data);
    ghost var s := dut.State();
    FlightStep(s, 0x1, [], ReadInput(0x04));
    var sent, resp := Write(dut, 0x00, 0x1, 0);
    busy := ReadBusy(dut, s);
    ghost var log := [ReadInput(0x04)];
    log := WriteInFlight(dut, s, log, 0x20, Pack(other.w0));
    log := WriteInFlight(dut, s, log, 0x24, Pack(other.w1));
    log := WriteInFlight(dut, s, log, 0x28, Pack(other.w2));
    log := WriteInFlight(dut, s, log, 0x2c, Pack(other.w3));
    log := WriteInFlight(dut, s, log, 0x00, 0x1);
    ok, out := CollectResult(dut, s, log);
  }

  method ReadBusy(dut: Aes, ghost s: AesState) returns (busy: bool)
    requires dut.Valid() && Settled(s) && !s.regs.statusDone && dut.State() == Flight(s, 0x1, [])
    modifies dut.Repr()
    ensures busy && dut.State() == Flight(s, 0x1, [ReadInput(0x04)])
  {
    hide AesStep, Settled, Flight, ReadData;
    FlightState(s, 0x1, []);
    StatusWord(dut.Regs(), dut.chain.State());
    FlightStep(s, 0x1, [], ReadInput(0x04));
    assert [] + [ReadInput(0x04)] == [ReadInput(0x04)];
    var read, rd := Read(dut, 0x04, 0);
    busy := rd & 0x1 != 0;
  }

  method CollectResult(dut: Aes, ghost s: AesState, ghost log: seq<BusInputs>) returns (ok: bool, out: Block)
    requires dut.Valid() && Settled(s) && !s.regs.statusDone
    requires |log| <= 22 && forall input | input in log :: input.resetn
    requires dut.State() == Flight(s, 0x1, log)
    modifies dut.Repr()
    ensures ok && out == Encrypt(s.regs.key, s.regs.data)
    ensures Settled(dut.State()) && !dut.statusDone
  {
    hide AesStep, Settled, Flight, Encrypt, Decrypt;
    ok := PollDone(dut, s, 0x1, log);
    out := ReadResult(dut);
    SettledClear(dut.State());
    var sent, resp := Write(dut, 0x04, 0x2, 0);
  }

  // ----- Messages -----

  /** The block before block i, or the IV. */
  function Before(iv: Block, blocks: seq<Block>, i: nat): Block
    requires i <= |blocks|
  {
    if i == 0 then iv else blocks[i - 1]
  }

  /** CBC encryption block by block: KEY, IV and LOAD_IV once, then DATA and 0x5 for each
      block. */
  method CbcEncrypt(dut: Aes, key: Block, iv: Block, blocks: seq<Block>) returns (ok: bool, out: seq<Block>)
    requires dut.Valid() && Settled(dut.State()) && !dut.statusDone
    modifies dut.Repr()
    ensures Settled(dut.State()) && !dut.statusDone
    ensures ok && |out| == |blocks|
    ensures forall i | 0 <= i < |blocks| :: out[i] == Encrypt(key, Xor(blocks[i], Before(iv, out, i)))
  {
    hide AesStep, Settled, Encrypt, Decrypt, Xor, Counter;
    WriteBlock(dut, 0x10, key);
    LoadIv(dut, iv);
    ok, out := true, [];
    for n := 0 to |blocks|
      invariant Settled(dut.State()) && !dut.statusDone && dut.key == key
      invariant ok && |out| == n && dut.chain.iv == Before(iv, out, n)
      invariant forall i | 0 <= i < n :: out[i] == Encrypt(key, Xor(blocks[i], Before(iv, out, i)))
    {
      WriteBlock(dut, 0x20, blocks[n]);
      var done, block := RunBlock(dut, 0x5);
      ok := ok && done;
      var longer := out + [block];
      forall i | 0 <= i <= n
        ensures longer[i] == Encrypt(key, Xor(blocks[i], Before(iv, longer, i)))
      {
        assert i < n ==> longer[i] == out[i];
        assert Before(iv, longer, i) == Before(iv, out, i);
      }
      out := longer;
    }
  }

  /** CBC decryption, with 0x7. */
  method CbcDecrypt(dut: Aes, key: Block, iv: Block, blocks: seq<Block>) returns (ok: bool, out: seq<Block>)
    requires dut.Valid() && Settled(dut.State()) && !dut.statusDone
    modifies dut.Repr()
    ensures Settled(dut.State()) && !dut.statusDone
    ensures ok && |out| == |blocks|
    ensures forall i | 0 <= i < |blocks| :: out[i] == Xor(Decrypt(key, blocks[i]), Before(iv, blocks, i))
  {
    hide AesStep, Settled, Encrypt, Decrypt, Xor, Counter;
    WriteBlock(dut, 0x10, key);
    LoadIv(dut, iv);
    ok, out := true, [];
    for n := 0 to |blocks|
      invariant Settled(dut.State()) && !dut.statusDone && dut.key == key
      invariant ok && |out| == n && dut.chain.iv == Before(iv, blocks, n)
      invariant forall i | 0 <= i < n :: out[i] == Xor(Decrypt(key, blocks[i]), Before(iv, blocks, i))
    {
      WriteBlock(dut, 0x20, blocks[n]);
      var done, block := RunBlock(dut, 0x7);
      ok := ok && done;
      out := out + [block];
    }
  }

  /** A CTR message, with 0x9 or 0xb: block i is combined with the encryption of the
      number iv + i modulo 2^128. */
  method Ctr(dut: Aes, key: Block, iv: Block, blocks: seq<Block>, decrypt: bool) returns (ok: bool, out: seq<Block>)
    requires dut.Valid() && Settled(dut.State()) && !dut.statusDone
    modifies dut.Repr()
    ensures Settled(dut.State()) && !dut.statusDone
    ensures ok && |out| == |blocks|
    ensures forall i | 0 <= i < |blocks| :: out[i] == Xor(blocks[i], Encrypt(key, Counter(iv, i)))
    ensures Value(dut.chain.iv) == (Value(iv) + |blocks|) % 0x1_0000_0000_0000_0000_0000_0000_0000_0000
  {
    hide AesStep, Settled, Encrypt, Decrypt, Xor, Counter, Value;
    WriteBlock(dut, 0x10, key);
    LoadIv(dut, iv);
    ok, out := true, [];
    CounterStep(iv, 0);
    for n := 0 to |blocks|
      invariant Settled(dut.State()) && !dut.statusDone && dut.key == key
      invariant ok && |out| == n && dut.chain.iv == Counter(iv, n)
      invariant forall i | 0 <= i < n :: out[i] == Xor(blocks[i], Encrypt(key, Counter(iv, i)))
    {
      WriteBlock(dut, 0x20, blocks[n]);
      var done, block := RunBlock(dut, if decrypt then 0xb else 0x9);
      CounterStep(iv, n);
      ok := ok && done;
      out := out + [block];
    }
  }

  lemma CounterStep(iv: Block, i: nat)
    ensures Counter(iv, 0) == iv
    ensures Counter(Counter(iv, i), 1) == Counter(iv, i + 1)
  {
    hide Value, OfValue, Advance;
    AdvanceAdds(iv, 0);
    AdvanceAdds(iv, i);
    AdvanceAdds(iv, i + 1);
    AdvanceAdds(Advance(iv, i), 1);
    AdvanceTwice(iv, i, 1);
  }

  /** Encryption and then decryption, over the registers, in CBC and in CTR mode: both
      restore the message. */
  method MessagesRoundTrip(dut: Aes, key: Block, iv: Block, message: seq<Block>) returns (cbc: seq<Block>, ctr: seq<Block>)
    requires dut.Valid() && Settled(dut.State()) && !dut.statusDone
    modifies dut.Repr()
    ensures cbc == message && ctr == message
  {
    hide Settled, Encrypt, Decrypt, Xor, Counter, Value;
    var ok, cipher := CbcEncrypt(dut, key, iv, message);
    ok, cbc := CbcDecrypt(dut, key, iv, cipher);
    forall i | 0 <= i < |message|
      ensures cbc[i] == message[i]
    {
      var before := Before(iv, cipher, i);
      assert cbc[i] == Xor(Decrypt(key, cipher[i]), before);
      DecryptEncrypt(key, Xor(message[i], before));
      XorLaws(message[i], before);
    }
    ok, cipher := Ctr(dut, key, iv, message, false);
    ok, ctr := Ctr(dut, key, iv, cipher, true);
    forall i | 0 <= i < |message|
      ensures ctr[i] == message[i]
    {
      XorLaws(message[i], Encrypt(key, Counter(iv, i)));
    }
  }
}
