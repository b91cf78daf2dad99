/** Single-byte I2C transactions as waveforms with arbitrary hold times, and what the
    slave makes of them. */
module I2cBus {

  import opened I2cSlave

  type Lows = s: seq<bool> | |s| > 0 witness [false]
  type Hold = n: int | n > 0 witness 1

  /** One SCL pulse: SCL low for |low| samples with SDA doing anything, then high for
      `high` samples with SDA left at `bit`. */
  datatype Pulse = Pulse(low: Lows, bit: bool, high: Hold)

  function Low(p: Pulse): seq<Sample> {
    seq(|p.low|, i requires 0 <= i < |p.low| => Sample(false, p.low[i]))
  }

  function High(p: Pulse): seq<Sample> {
    seq(p.high, _ => Sample(true, p.bit))
  }

  function Samples(p: Pulse): seq<Sample> {
    Low(p) + High(p)
  }

  function Wave(ps: seq<Pulse>): seq<Sample> {
    if ps == [] then [] else Wave(ps[..|ps| - 1]) + Samples(ps[|ps| - 1])
  }

  function Bits(ps: seq<Pulse>): seq<bool> {
    seq(|ps|, i requires 0 <= i < |ps| => ps[i].bit)
  }

  /** Throughout the high phase of pulse p, entered in state s, the line shows v. */
  ghost predicate Shows(c: Config, s: I2cState, p: Pulse, v: bool) {
    forall k {:trigger Samples(p)[k]} :: |p.low| <= k < |Samples(p)| ==>
                                           Line(Run(c, s, Samples(p)[..k]), Samples(p)[k]) == v
  }

  // ----- One pulse -----

  /** The effect of a pulse whatever its timing: one falling and one rising edge. */
  function AfterPulse(c: Config, s: I2cState, bit: bool): I2cState {
    Step(c, Step(c, s, Sample(false, true)), Sample(true, bit))
  }

  function DriveAfterFall(s: I2cState): bool {
    NextDrive(s, Sample(false, true))
  }

  lemma {:induction false} RunAppend(c: Config, s: I2cState, xs: seq<Sample>, ys: seq<Sample>)
    ensures Run(c, s, xs + ys) == Run(c, Run(c, s, xs), ys)
  {
    hide Step;
    if ys == [] {
      assert xs + ys == xs;
    } else {
      var init := ys[..|ys| - 1];
      assert (xs + ys)[..|xs + ys| - 1] == xs + init;
      RunAppend(c, s, xs, init);
    }
  }

  lemma FallStep(c: Config, s: I2cState, sda: bool)
    requires Safe(s) && s.sclPrev
    ensures Step(c, s, Sample(false, sda)) == Step(c, s, Sample(false, true)).(sdaPrev := sda && !s.driveLow)
  {
    hide ShiftIn, Safe;
  }

  /** A further low sample only updates the remembered SDA. */
  lemma LowStep(c: Config, s: I2cState, sda: bool)
    requires Safe(s) && !s.sclPrev
    ensures Step(c, s, Sample(false, sda)) == s.(sdaPrev := sda && !s.driveLow)
  {
    hide ShiftIn;
  }

  lemma RiseStep(c: Config, s: I2cState, v: bool, bit: bool)
    requires Safe(s) && !s.sclPrev
    ensures Step(c, s.(sdaPrev := v), Sample(true, bit)) == Step(c, s, Sample(true, bit))
    ensures var r := Step(c, s, Sample(true, bit));
            r.sclPrev && r.driveLow == s.driveLow && r.sdaPrev == (bit && !s.driveLow)
  {
    hide ShiftIn;
  }

  /** A further high sample with SDA held changes nothing. */
  lemma HighStep(c: Config, s: I2cState, bit: bool)
    requires Safe(s) && s.sclPrev && s.sdaPrev == (bit && !s.driveLow)
    ensures Step(c, s, Sample(true, bit)) == s
  {
    hide ShiftIn;
  }

  lemma {:induction false} LowRun(c: Config, s: I2cState, p: Pulse, k: nat)
    requires Safe(s) && s.sclPrev && 0 < k <= |p.low|
    ensures var f := Step(c, s, Sample(false, true));
            var u := Run(c, s, Low(p)[..k]);
            u == f.(sdaPrev := u.sdaPrev) && Safe(u) && !u.sclPrev
    ensures Run(c, s, Low(p)[..k]).driveLow == DriveAfterFall(s)
  {
    hide Step, Safe, NextDrive;
    assert Low(p)[..k][..k - 1] == Low(p)[..k - 1];
    SafeRun(c, s, Low(p)[..k]);
    if k == 1 {
      assert Run(c, s, Low(p)[..0]) == s;
      FallStep(c, s, p.low[0]);
      SeenLine(c, s, Sample(false, true));
      FallDrive(c, s);
    } else {
      LowRun(c, s, p, k - 1);
      LowStep(c, Run(c, s, Low(p)[..k - 1]), p.low[k - 1]);
    }
  }

  lemma FallDrive(c: Config, s: I2cState)
    ensures Step(c, s, Sample(false, true)).driveLow == DriveAfterFall(s)
  {
    hide NextPhase, NextBitIdx, NextShift, NextMatched, NextRw, NextDrive;
  }

  lemma {:induction false} HighRun(c: Config, s: I2cState, p: Pulse, k: nat)
    requires Safe(s) && s.sclPrev && 0 < k <= p.high
    ensures var u := Run(c, s, Low(p) + High(p)[..k]);
            u == AfterPulse(c, s, p.bit) && Safe(u) && u.sclPrev
            && u.driveLow == DriveAfterFall(s) && u.sdaPrev == (p.bit && !u.driveLow)
  {
    hide Step, Safe, NextDrive;
    var xs, x := Low(p) + High(p)[..k - 1], Sample(true, p.bit);
    assert Low(p) + High(p)[..k] == xs + [x];
    assert (xs + [x])[..|xs + [x]| - 1] == xs;
    SafeRun(c, s, xs + [x]);
    if k == 1 {
      assert xs == Low(p)[..|p.low|];
      LowRun(c, s, p, |p.low|);
      var f := Step(c, s, Sample(false, true));
      var u := Run(c, s, xs);
      SafeStep(c, s, Sample(false, true));
      RiseStep(c, f, u.sdaPrev, p.bit);
    } else {
      HighRun(c, s, p, k - 1);
      HighStep(c, Run(c, s, xs), p.bit);
    }
  }

  /** Whatever its timing, a pulse has the effect of its two edges, and the slave's
      drive is settled from the first low sample on. */
  lemma PulseRun(c: Config, s: I2cState, p: Pulse)
    requires Safe(s) && s.sclPrev
    ensures Run(c, s, Samples(p)) == AfterPulse(c, s, p.bit)
    ensures Safe(AfterPulse(c, s, p.bit)) && AfterPulse(c, s, p.bit).sclPrev
    ensures AfterPulse(c, s, p.bit).driveLow == DriveAfterFall(s)
    ensures forall k {:trigger Samples(p)[..k]} :: 0 < k <= |Samples(p)| ==> Run(c, s, Samples(p)[..k]).driveLow == DriveAfterFall(s)
    ensures Shows(c, s, p, p.bit && !DriveAfterFall(s))
  {
    hide Step, Safe, NextDrive, Run;
    forall k | 0 < k <= |Samples(p)|
      ensures Run(c, s, Samples(p)[..k]).driveLow == DriveAfterFall(s)
    {
      if k <= |p.low| {
        assert Samples(p)[..k] == Low(p)[..k];
        LowRun(c, s, p, k);
      } else {
        assert Samples(p)[..k] == Low(p) + High(p)[..k - |p.low|];
        HighRun(c, s, p, k - |p.low|);
      }
    }
    assert Samples(p) == Low(p) + High(p)[..p.high];
    HighRun(c, s, p, p.high);
  }

  // ----- The effect of a pulse, phase by phase -----

  lemma ReceiveBit(c: Config, s: I2cState, bit: bool)
    requires Safe(s) && s.sclPrev && (s.phase.Addr? || s.phase.WData?) && s.bitIdx > 0
    ensures AfterPulse(c, s, bit)
         == s.(shift := ShiftIn(s.shift, bit), bitIdx := s.bitIdx - 1, driveLow := false, sdaPrev := bit)
    ensures !DriveAfterFall(s)
  {
    hide ShiftIn;
  }

  lemma LastAddressBit(c: Config, s: I2cState, bit: bool)
    requires Safe(s) && s.sclPrev && s.phase.Addr? && s.bitIdx == 0
    ensures AfterPulse(c, s, bit)
         == s.(shift := ShiftIn(s.shift, bit), matched := ShiftIn(s.shift, bit)[..7] == c.myAddr, rw := bit,
               phase := AddrAck, sdaPrev := bit)
    ensures !DriveAfterFall(s)
  {
    hide ShiftIn;
  }

  lemma LastDataBit(c: Config, s: I2cState, bit: bool)
    requires Safe(s) && s.sclPrev && s.phase.WData? && s.bitIdx == 0
    ensures AfterPulse(c, s, bit)
         == s.(shift := ShiftIn(s.shift, bit), phase := WDataAck, driveLow := false, sdaPrev := bit)
    ensures !DriveAfterFall(s)
  {
    hide ShiftIn;
  }

  lemma AddressAck(c: Config, s: I2cState, bit: bool)
    requires Safe(s) && s.sclPrev && s.phase.AddrAck?
    ensures DriveAfterFall(s) == s.matched
    ensures AfterPulse(c, s, bit)
         == s.(phase := if !s.matched then Idle else if s.rw then RData else WData, bitIdx := 7,
               shift := c.txByte, driveLow := s.matched, sdaPrev := bit && !s.matched)
  {
    hide ShiftIn;
  }

  lemma DataAck(c: Config, s: I2cState, bit: bool)
    requires Safe(s) && s.sclPrev && s.phase.WDataAck?
    ensures DriveAfterFall(s)
    ensures AfterPulse(c, s, bit)
         == s.(rx := s.shift, gotWrite := true, phase := WaitStop, driveLow := true, sdaPrev := false)
  {
    hide ShiftIn;
  }

  lemma SendBit(c: Config, s: I2cState, bit: bool)
    requires Safe(s) && s.sclPrev && s.phase.RData?
    ensures DriveAfterFall(s) == !s.shift[0]
    ensures AfterPulse(c, s, bit)
         == if s.bitIdx == 0
            then s.(driveLow := !s.shift[0], sdaPrev := bit && s.shift[0], gotRead := true, phase := RDataAck)
            else s.(driveLow := !s.shift[0], sdaPrev := bit && s.shift[0],
                    shift := ShiftIn(s.shift, false), bitIdx := s.bitIdx - 1)
  {
    hide ShiftIn;
  }

  /** In the two closing phases the slave lets go and waits. */
  lemma LetGo(c: Config, s: I2cState, bit: bool)
    requires Safe(s) && s.sclPrev && (s.phase.WaitStop? || s.phase.RDataAck?)
    ensures !DriveAfterFall(s)
    ensures AfterPulse(c, s, bit) == s.(driveLow := false, sdaPrev := bit)
  {
    hide ShiftIn;
  }

  // ----- Bytes -----

  lemma {:induction false} WaveAfter(c: Config, s: I2cState, ps: seq<Pulse>, k: nat)
    requires Safe(s) && s.sclPrev && k < |ps|
    ensures var u := Run(c, s, Wave(ps[..k]));
            && Safe(u)
            && Run(c, s, Wave(ps[..k + 1])) == Run(c, u, Samples(ps[k]))
  {
    hide Run, Safe, Step, Samples;
    assert ps[..k + 1][..k] == ps[..k];
    SafeRun(c, s, Wave(ps[..k]));
    RunAppend(c, s, Wave(ps[..k]), Samples(ps[k]));
  }

  /** Receiving: after k < 8 pulses, the k low bits of the shift register are theirs. */
  lemma {:induction false} ReceiveBits(c: Config, s: I2cState, ps: seq<Pulse>, k: nat)
    requires Safe(s) && s.sclPrev && (s.phase.Addr? || s.phase.WData?) && s.bitIdx == 7
    requires |ps| == 8 && k < 8
    ensures var u := Run(c, s, Wave(ps[..k]));
            && Safe(u)
            && u == s.(shift := s.shift[k..] + Bits(ps)[..k], bitIdx := 7 - k,
                       driveLow := u.driveLow, sdaPrev := u.sdaPrev)
            && (k > 0 || !s.driveLow ==> !u.driveLow)
  {
    hide Run, Safe, Step, Samples, AfterPulse, Shows, DriveAfterFall;
    if k > 0 {
      ReceiveBits(c, s, ps, k - 1);
      WaveAfter(c, s, ps, k - 1);
      var v := Run(c, s, Wave(ps[..k - 1]));
      PulseRun(c, v, ps[k - 1]);
      ReceiveBit(c, v, ps[k - 1].bit);
      assert ShiftIn(v.shift, ps[k - 1].bit) == s.shift[k..] + Bits(ps)[..k];
    } else {
      RunEmpty(c, s);
      assert s.shift[0..] + Bits(ps)[..0] == s.shift;
    }
  }

  /** While receiving, the line shows each of the master's bits undisturbed. */
  lemma ReceivedUndisturbed(c: Config, s: I2cState, ps: seq<Pulse>, k: nat)
    requires Safe(s) && s.sclPrev && (s.phase.Addr? || s.phase.WData?) && s.bitIdx == 7
    requires |ps| == 8 && k < 8
    ensures !DriveAfterFall(Run(c, s, Wave(ps[..k])))
    ensures Shows(c, Run(c, s, Wave(ps[..k])), ps[k], ps[k].bit)
  {
    hide Run, Safe, Step, Samples, AfterPulse, Shows, DriveAfterFall;
    ReceiveBits(c, s, ps, k);
    var u := Run(c, s, Wave(ps[..k]));
    PulseRun(c, u, ps[k]);
    if k < 7 {
      ReceiveBit(c, u, ps[k].bit);
    } else if s.phase.Addr? {
      LastAddressBit(c, u, ps[k].bit);
    } else {
      LastDataBit(c, u, ps[k].bit);
    }
  }

  lemma RunEmpty(c: Config, s: I2cState)
    ensures Run(c, s, []) == s
  {
  }

  /** Sending: after k < 8 pulses, the rest of the byte is at the top of the register. */
  lemma {:induction false} SendBits(c: Config, s: I2cState, ps: seq<Pulse>, k: nat)
    requires Safe(s) && s.sclPrev && s.phase.RData? && s.bitIdx == 7
    requires |ps| == 8 && k < 8
    ensures var u := Run(c, s, Wave(ps[..k]));
            && Safe(u)
            && u == s.(shift := u.shift, bitIdx := 7 - k, driveLow := u.driveLow, sdaPrev := u.sdaPrev)
            && u.shift[..8 - k] == s.shift[k..]
  {
    hide Run, Safe, Step, Samples, AfterPulse, Shows, DriveAfterFall;
    if k > 0 {
      SendBits(c, s, ps, k - 1);
      WaveAfter(c, s, ps, k - 1);
      var v := Run(c, s, Wave(ps[..k - 1]));
      PulseRun(c, v, ps[k - 1]);
      SendBit(c, v, ps[k - 1].bit);
      ShiftTail(v.shift, s.shift, k);
    } else {
      RunEmpty(c, s);
    }
  }

  lemma ShiftTail(shift: Byte, byte: Byte, k: nat)
    requires 0 < k < 8 && shift[..9 - k] == byte[k - 1..]
    ensures ShiftIn(shift, false)[..8 - k] == byte[k..]
  {
    assert ShiftIn(shift, false)[..8 - k] == shift[..9 - k][1..];
  }

  /** Each pulse shows the next bit of the byte, as far as the master leaves the line
      alone. */
  lemma SentBit(c: Config, s: I2cState, ps: seq<Pulse>, k: nat)
    requires Safe(s) && s.sclPrev && s.phase.RData? && s.bitIdx == 7
    requires |ps| == 8 && k < 8
    ensures Shows(c, Run(c, s, Wave(ps[..k])), ps[k], ps[k].bit && s.shift[k])
  {
    hide Run, Safe, Step, Samples, AfterPulse, Shows, DriveAfterFall;
    SendBits(c, s, ps, k);
    var u := Run(c, s, Wave(ps[..k]));
    assert u.shift[0] == u.shift[..8 - k][0];
    PulseRun(c, u, ps[k]);
    SendBit(c, u, ps[k].bit);
  }

  // ----- Whole transactions -----

  /** START, eight address pulses, the acknowledge pulse, eight data pulses and their
      acknowledge pulse, then STOP: SCL low, SCL high with SDA still low, SDA released. */
  datatype Transaction = Transaction(
    start: Hold, address: seq<Pulse>, addressAck: Pulse, data: seq<Pulse>, dataAck: Pulse, stop: Pulse, rest: Hold)

  predicate Legal(t: Transaction) {
    |t.address| == 8 && |t.data| == 8 && !t.stop.bit
  }

  function Held(n: Hold, sda: bool): seq<Sample> {
    seq(n, _ => Sample(true, sda))
  }

  // The waveform up to each part of the transaction.
  function ToAddress(t: Transaction): seq<Sample> { Held(t.start, false) }
  function ToAddressAck(t: Transaction): seq<Sample> { ToAddress(t) + Wave(t.address) }
  function ToData(t: Transaction): seq<Sample> { ToAddressAck(t) + Samples(t.addressAck) }
  function ToDataAck(t: Transaction): seq<Sample> { ToData(t) + Wave(t.data) }
  function ToStop(t: Transaction): seq<Sample> { ToDataAck(t) + Samples(t.dataAck) }
  function Whole(t: Transaction): seq<Sample> { ToStop(t) + Samples(t.stop) + Held(t.rest, true) }

  /** SDA was last seen high with SCL high, as on a free bus or before a repeated START. */
  predicate BusHigh(s: I2cState) {
    Safe(s) && s.sclPrev && s.sdaPrev
  }

  lemma {:induction false} HeldRun(c: Config, s: I2cState, n: Hold, bit: bool)
    requires Safe(s) && s.sclPrev && !s.driveLow && s.sdaPrev != bit
    ensures Run(c, s, Held(n, bit)) == Step(c, s, Sample(true, bit))
    ensures Step(c, s, Sample(true, bit))
         == if bit then s.(phase := Idle, sdaPrev := true, xferDone := true)
            else s.(phase := Addr, bitIdx := 7, shift := ZERO_BYTE, sdaPrev := false,
                    gotWrite := false, gotRead := false, xferDone := false)
    ensures Safe(Step(c, s, Sample(true, bit)))
  {
    hide ShiftIn, Run;
    SafeStep(c, s, Sample(true, bit));
    assert Held(n, bit)[..n - 1] + [Sample(true, bit)] == Held(n, bit);
    RunAppend(c, s, Held(n, bit)[..n - 1], [Sample(true, bit)]);
    RunOne(c, Run(c, s, Held(n, bit)[..n - 1]), Sample(true, bit));
    if n == 1 {
      RunEmpty(c, s);
    } else {
      assert Held(n, bit)[..n - 1] == Held(n - 1, bit);
      HeldRun(c, s, n - 1, bit);
      HighStep(c, Step(c, s, Sample(true, bit)), bit);
    }
  }

  lemma RunOne(c: Config, s: I2cState, x: Sample)
    ensures Run(c, s, [x]) == Step(c, s, x)
  {
    assert [x][..0] == [];
  }

  /** After START and eight pulses: the address byte is decoded, every bit was shown
      undisturbed, and the slave is about to answer. */
  lemma Addressed(c: Config, s: I2cState, t: Transaction)
    requires BusHigh(s) && Legal(t)
    ensures var started := Run(c, s, ToAddress(t));
            forall i :: 0 <= i < 8 ==> Shows(c, Run(c, started, Wave(t.address[..i])), t.address[i], t.address[i].bit)
    ensures var u := Run(c, s, ToAddressAck(t));
            && Safe(u) && u.sclPrev && !u.driveLow
            && u.phase == AddrAck
            && u.matched == (Bits(t.address)[..7] == c.myAddr)
            && u.rw == Bits(t.address)[7]
            && u.rx == s.rx && !u.gotWrite && !u.gotRead && !u.xferDone
  {
    hide Run, Safe, Step, Samples, AfterPulse, Shows, DriveAfterFall, ShiftIn;
    var started := Run(c, s, ToAddress(t));
    Started(c, s, t.start);
    forall i | 0 <= i < 8
      ensures Shows(c, Run(c, started, Wave(t.address[..i])), t.address[i], t.address[i].bit)
    {
      ReceivedUndisturbed(c, started, t.address, i);
    }
    ReceiveBits(c, started, t.address, 7);
    WholeByte(c, started, t.address);
    RunAppend(c, s, ToAddress(t), Wave(t.address));
    var v := Run(c, started, Wave(t.address[..7]));
    LastAddressBit(c, v, t.address[7].bit);
    ShiftLast(started.shift, v.shift, Bits(t.address));
  }

  lemma Started(c: Config, s: I2cState, n: Hold)
    requires BusHigh(s)
    ensures Run(c, s, Held(n, false)) == s.(phase := Addr, bitIdx := 7, shift := ZERO_BYTE, sdaPrev := false,
                    gotWrite := false, gotRead := false, xferDone := false)
    ensures Safe(Run(c, s, Held(n, false))) && !s.driveLow
  {
    hide Run, Step;
    HeldRun(c, s, n, false);
  }

  lemma WholeByte(c: Config, s: I2cState, ps: seq<Pulse>)
    requires Safe(s) && s.sclPrev && |ps| == 8
    requires Run(c, s, Wave(ps[..7])).sclPrev
    ensures Run(c, s, Wave(ps)) == AfterPulse(c, Run(c, s, Wave(ps[..7])), ps[7].bit)
    ensures Safe(Run(c, s, Wave(ps))) && Run(c, s, Wave(ps)).sclPrev
  {
    hide Run, Safe, Step, AfterPulse, Shows, Samples, Wave;
    assert ps[..8] == ps;
    WaveAfter(c, s, ps, 7);
    PulseRun(c, Run(c, s, Wave(ps[..7])), ps[7]);
  }

  lemma ShiftLast(before: Byte, shift: Byte, bits: Byte)
    requires shift == before[7..] + bits[..7]
    ensures ShiftIn(shift, bits[7]) == bits
  {
  }

  /** The STOP: the slave lets go, and the bus is free again. */
  lemma Stopped(c: Config, s: I2cState, t: Transaction)
    requires Safe(s) && s.sclPrev && (s.phase.WaitStop? || s.phase.RDataAck?) && Legal(t)
    ensures Run(c, Run(c, s, Samples(t.stop)), Held(t.rest, true))
         == s.(phase := Idle, driveLow := false, sdaPrev := true, xferDone := true)
  {
    hide Run, Step, Samples, AfterPulse, Shows;
    PulseRun(c, s, t.stop);
    LetGo(c, s, false);
    HeldRun(c, Run(c, s, Samples(t.stop)), t.rest, true);
  }

  /** A write to this slave: the line shows the master's bits throughout, SDA is held low
      through both acknowledge high phases whatever the master does there, the received
      byte is the one sent, and the slave ends released and idle. */
  lemma WriteTransaction(c: Config, s: I2cState, t: Transaction)
    requires BusHigh(s) && Legal(t)
    requires Bits(t.address) == c.myAddr + [false]
    ensures Shows(c, Run(c, s, ToAddressAck(t)), t.addressAck, false)
    ensures forall i :: 0 <= i < 8 ==>
                          Shows(c, Run(c, Run(c, s, ToData(t)), Wave(t.data[..i])), t.data[i], t.data[i].bit)
    ensures Shows(c, Run(c, s, ToDataAck(t)), t.dataAck, false)
    ensures var u := Run(c, s, Whole(t));
            && u.rx == Bits(t.data)
            && u.gotWrite && !u.gotRead && u.xferDone
            && u.phase == Idle && !u.driveLow && BusHigh(u)
  {
    hide Run, Safe, Step, Samples, AfterPulse, Shows, DriveAfterFall, ShiftIn;
    Addressed(c, s, t);
    var asked := Run(c, s, ToAddressAck(t));
    PulseRun(c, asked, t.addressAck);
    AddressAck(c, asked, t.addressAck.bit);
    RunAppend(c, s, ToAddressAck(t), Samples(t.addressAck));
    var matched := Run(c, s, ToData(t));
    forall i | 0 <= i < 8
      ensures Shows(c, Run(c, matched, Wave(t.data[..i])), t.data[i], t.data[i].bit)
    {
      ReceivedUndisturbed(c, matched, t.data, i);
    }
    ReceiveBits(c, matched, t.data, 7);
    WholeByte(c, matched, t.data);
    var v := Run(c, matched, Wave(t.data[..7]));
    LastDataBit(c, v, t.data[7].bit);
    ShiftLast(matched.shift, v.shift, Bits(t.data));
    RunAppend(c, s, ToData(t), Wave(t.data));
    Finished(c, s, t);
    var full := Run(c, s, ToDataAck(t));
    PulseRun(c, full, t.dataAck);
    DataAck(c, full, t.dataAck.bit);
    Stopped(c, Run(c, s, ToStop(t)), t);
    IdleIsSafe(Run(c, s, Whole(t)));
  }

  lemma Finished(c: Config, s: I2cState, t: Transaction)
    ensures Run(c, s, ToStop(t)) == Run(c, Run(c, s, ToDataAck(t)), Samples(t.dataAck))
    ensures Run(c, s, Whole(t)) == Run(c, Run(c, Run(c, s, ToStop(t)), Samples(t.stop)), Held(t.rest, true))
  {
    hide Run;
    RunAppend(c, s, ToDataAck(t), Samples(t.dataAck));
    RunAppend(c, s, ToStop(t), Samples(t.stop));
    RunAppend(c, s, ToStop(t) + Samples(t.stop), Held(t.rest, true));
  }

  /** A read from this slave: it acknowledges its address, spells txByte most significant
      bit first on every line the master releases, leaves the closing acknowledge to the
      master, and ends released and idle with the received byte untouched. */
  lemma ReadTransaction(c: Config, s: I2cState, t: Transaction)
    requires BusHigh(s) && Legal(t)
    requires Bits(t.address) == c.myAddr + [true]
    ensures Shows(c, Run(c, s, ToAddressAck(t)), t.addressAck, false)
    ensures forall i :: 0 <= i < 8 ==>
                          Shows(c, Run(c, Run(c, s, ToData(t)), Wave(t.data[..i])), t.data[i], t.data[i].bit && c.txByte[i])
    ensures Shows(c, Run(c, s, ToDataAck(t)), t.dataAck, t.dataAck.bit)
    ensures var u := Run(c, s, Whole(t));
            && u.rx == s.rx
            && !u.gotWrite && u.gotRead && u.xferDone
            && u.phase == Idle && !u.driveLow && BusHigh(u)
  {
    hide Run, Safe, Step, Samples, AfterPulse, Shows, DriveAfterFall, ShiftIn;
    Addressed(c, s, t);
    var asked := Run(c, s, ToAddressAck(t));
    PulseRun(c, asked, t.addressAck);
    AddressAck(c, asked, t.addressAck.bit);
    RunAppend(c, s, ToAddressAck(t), Samples(t.addressAck));
    var matched := Run(c, s, ToData(t));
    forall i | 0 <= i < 8
      ensures Shows(c, Run(c, matched, Wave(t.data[..i])), t.data[i], t.data[i].bit && c.txByte[i])
    {
      SentBit(c, matched, t.data, i);
    }
    SendBits(c, matched, t.data, 7);
    WholeByte(c, matched, t.data);
    SendBit(c, Run(c, matched, Wave(t.data[..7])), t.data[7].bit);
    RunAppend(c, s, ToData(t), Wave(t.data));
    Finished(c, s, t);
    var full := Run(c, s, ToDataAck(t));
    PulseRun(c, full, t.dataAck);
    LetGo(c, full, t.dataAck.bit);
    Stopped(c, Run(c, s, ToStop(t)), t);
    IdleIsSafe(Run(c, s, Whole(t)));
  }

  // ----- Foreign addresses -----

  /** No START among the samples xs that follow state s. */
  ghost predicate NoStart(c: Config, s: I2cState, xs: seq<Sample>) {
    forall k {:trigger xs[..k]} :: 0 <= k < |xs| ==> !StartCond(Run(c, s, xs[..k]), xs[k])
  }

  /** The slave does not drive the line at any point of the run over xs. */
  ghost predicate Quiet(c: Config, s: I2cState, xs: seq<Sample>) {
    forall k {:trigger xs[..k]} :: 0 <= k <= |xs| ==> !Run(c, s, xs[..k]).driveLow
  }

  lemma QuietAppend(c: Config, s: I2cState, xs: seq<Sample>, ys: seq<Sample>)
    requires Quiet(c, s, xs) && Quiet(c, Run(c, s, xs), ys)
    ensures Quiet(c, s, xs + ys)
  {
    hide Run;
    forall k {:trigger (xs + ys)[..k]} | 0 <= k <= |xs + ys|
      ensures !Run(c, s, (xs + ys)[..k]).driveLow
    {
      if k <= |xs| {
        assert (xs + ys)[..k] == xs[..k];
      } else {
        assert (xs + ys)[..k] == xs + ys[..k - |xs|];
        RunAppend(c, s, xs, ys[..k - |xs|]);
      }
    }
  }

  lemma QuietPulse(c: Config, s: I2cState, p: Pulse)
    requires Safe(s) && s.sclPrev && !s.driveLow && !DriveAfterFall(s)
    ensures Quiet(c, s, Samples(p))
  {
    hide Run, Safe, Step, Samples, AfterPulse, Shows, DriveAfterFall;
    RunEmpty(c, s);
    assert Samples(p)[..0] == [];
    PulseRun(c, s, p);
  }

  lemma {:induction false} QuietBits(c: Config, s: I2cState, ps: seq<Pulse>, k: nat)
    requires Safe(s) && s.sclPrev && (s.phase.Addr? || s.phase.WData?) && s.bitIdx == 7 && !s.driveLow
    requires |ps| == 8 && k <= 8
    ensures Quiet(c, s, Wave(ps[..k]))
  {
    hide Run, Safe, Step, Samples, AfterPulse, Shows, DriveAfterFall, Quiet;
    if k == 0 {
      QuietEmpty(c, s);
    } else {
      QuietBits(c, s, ps, k - 1);
      ReceiveBits(c, s, ps, k - 1);
      ReceivedUndisturbed(c, s, ps, k - 1);
      QuietPulse(c, Run(c, s, Wave(ps[..k - 1])), ps[k - 1]);
      QuietAppend(c, s, Wave(ps[..k - 1]), Samples(ps[k - 1]));
      assert ps[..k][..k - 1] == ps[..k - 1];
    }
  }

  lemma QuietEmpty(c: Config, s: I2cState)
    requires !s.driveLow
    ensures Quiet(c, s, [])
  {
  }

  lemma QuietStart(c: Config, s: I2cState, n: Hold)
    requires BusHigh(s)
    ensures Quiet(c, s, Held(n, false))
  {
    hide Run;
    forall k {:trigger Held(n, false)[..k]} | 0 <= k <= n
      ensures !Run(c, s, Held(n, false)[..k]).driveLow
    {
      if k == 0 {
        RunEmpty(c, s);
      } else {
        assert Held(n, false)[..k] == Held(k, false);
        Started(c, s, k);
      }
    }
  }

  /** An idle slave stays out of the way until the next START. */
  lemma {:induction false} IdleRun(c: Config, s: I2cState, xs: seq<Sample>)
    requires Safe(s) && s.phase.Idle? && NoStart(c, s, xs)
    ensures var u := Run(c, s, xs);
            && u.phase == Idle && !u.driveLow && u.rx == s.rx && u.gotWrite == s.gotWrite && u.gotRead == s.gotRead
  {
    hide Safe, StopCond, ShiftIn, NextShift, NextBitIdx, NextMatched, NextRw;
    if xs == [] {
      IdleIsReleased(s);
    } else {
      var init := xs[..|xs| - 1];
      forall k {:trigger init[..k]} | 0 <= k < |init|
        ensures !StartCond(Run(c, s, init[..k]), init[k])
      {
        assert init[..k] == xs[..k];
      }
      IdleRun(c, s, init);
    }
  }

  lemma QuietIdle(c: Config, s: I2cState, xs: seq<Sample>)
    requires Safe(s) && s.phase.Idle? && NoStart(c, s, xs)
    ensures Quiet(c, s, xs)
  {
    hide Run, Safe, StartCond;
    forall k {:trigger xs[..k]} | 0 <= k <= |xs|
      ensures !Run(c, s, xs[..k]).driveLow
    {
      assert forall i {:trigger xs[..k][..i]} :: 0 <= i < k ==> xs[..k][..i] == xs[..i];
      IdleRun(c, s, xs[..k]);
    }
  }

  lemma IdleIsReleased(s: I2cState)
    requires Safe(s) && s.phase.Idle?
    ensures !s.driveLow
  {
  }

  /** A transaction for another address, followed after its acknowledge pulse by anything
      up to the next START: the slave never drives the line, at any sample, and what it
      received before is untouched. */
  lemma ForeignTransaction(c: Config, s: I2cState, t: Transaction, xs: seq<Sample>)
    requires BusHigh(s) && Legal(t)
    requires Bits(t.address)[..7] != c.myAddr
    requires NoStart(c, Run(c, s, ToData(t)), xs)
    ensures var started := Run(c, s, ToAddress(t));
            forall i :: 0 <= i < 8 ==> Shows(c, Run(c, started, Wave(t.address[..i])), t.address[i], t.address[i].bit)
    ensures Shows(c, Run(c, s, ToAddressAck(t)), t.addressAck, t.addressAck.bit)
    ensures Quiet(c, s, ToData(t) + xs)
    ensures var u := Run(c, s, ToData(t) + xs);
            u.phase == Idle && u.rx == s.rx && !u.gotWrite && !u.gotRead
  {
    hide Run, Safe, Step, Samples, AfterPulse, Shows, DriveAfterFall, ShiftIn, NoStart, Quiet;
    var started := Run(c, s, ToAddress(t));
    Started(c, s, t.start);
    QuietStart(c, s, t.start);
    QuietBits(c, started, t.address, 8);
    assert t.address[..8] == t.address;
    QuietAppend(c, s, ToAddress(t), Wave(t.address));
    Addressed(c, s, t);
    var asked := Run(c, s, ToAddressAck(t));
    PulseRun(c, asked, t.addressAck);
    AddressAck(c, asked, t.addressAck.bit);
    QuietPulse(c, asked, t.addressAck);
    QuietAppend(c, s, ToAddressAck(t), Samples(t.addressAck));
    RunAppend(c, s, ToAddressAck(t), Samples(t.addressAck));
    IdleRun(c, Run(c, s, ToData(t)), xs);
    QuietIdle(c, Run(c, s, ToData(t)), xs);
    QuietAppend(c, s, ToData(t), xs);
    RunAppend(c, s, ToData(t), xs);
  }
}
