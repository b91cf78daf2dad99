/** The behavioural I2C slave: an edge-driven state machine on the two bus lines. */
module I2cSlave {

  /** Bit vectors as bit strings, most significant bit first. */
  type Byte = s: seq<bool> | |s| == 8 witness [false, false, false, false, false, false, false, false]
  type Address = s: seq<bool> | |s| == 7 witness [false, false, false, false, false, false, false]

  const ZERO_BYTE: Byte := [false, false, false, false, false, false, false, false]

  datatype Phase = Idle | Addr | AddrAck | WData | WDataAck | RData | RDataAck | WaitStop

  /** The configuration inputs, held steady during a transaction. */
  datatype Config = Config(myAddr: Address, txByte: Byte)

  /** SCL, and SDA as the other devices leave it (true when released). */
  datatype Sample = Sample(scl: bool, sda: bool)

  type BitIndex = n: nat | n < 8

  datatype I2cState = I2cState(
    phase: Phase, bitIdx: BitIndex, shift: Byte, matched: bool, rw: bool, driveLow: bool,
    sclPrev: bool, sdaPrev: bool, rx: Byte, gotWrite: bool, gotRead: bool, xferDone: bool)

  /** The wired-and bus line: low when anyone pulls it low. */
  function Line(s: I2cState, x: Sample): bool {
    x.sda && !s.driveLow
  }

  predicate StartCond(s: I2cState, x: Sample) {
    s.sclPrev && x.scl && s.sdaPrev && !Line(s, x)
  }

  predicate StopCond(s: I2cState, x: Sample) {
    s.sclPrev && x.scl && !s.sdaPrev && Line(s, x)
  }

  function ShiftIn(shift: Byte, bit: bool): Byte {
    shift[1..] + [bit]
  }

  predicate Rising(s: I2cState, x: Sample) {
    !s.sclPrev && x.scl
  }

  predicate Falling(s: I2cState, x: Sample) {
    s.sclPrev && !x.scl
  }

  // The next value of each register. Bits are sampled and phases decided on a rising
  // SCL; the drive changes on a falling one.

  function NextPhase(s: I2cState, x: Sample): Phase {
    if StartCond(s, x) then Addr
    else if StopCond(s, x) then Idle
    else if Rising(s, x) then
      match s.phase
      case Addr => if s.bitIdx == 0 then AddrAck else Addr
      case AddrAck => if !s.matched then Idle else if s.rw then RData else WData
      case WData => if s.bitIdx == 0 then WDataAck else WData
      case RData => if s.bitIdx == 0 then RDataAck else RData
      case _ => s.phase
    else if Falling(s, x) && s.phase.WDataAck? then WaitStop
    else s.phase
  }

  function NextBitIdx(s: I2cState, x: Sample): BitIndex {
    if StartCond(s, x) then 7
    else if Rising(s, x) then
      match s.phase
      case AddrAck => 7
      case Addr | WData | RData => if s.bitIdx == 0 then 0 else s.bitIdx - 1
      case _ => s.bitIdx
    else s.bitIdx
  }

  function NextShift(c: Config, s: I2cState, x: Sample): Byte {
    if StartCond(s, x) then ZERO_BYTE
    else if Rising(s, x) then
      match s.phase
      case Addr | WData => ShiftIn(s.shift, Line(s, x))
      case AddrAck => c.txByte
      case RData => if s.bitIdx == 0 then s.shift else ShiftIn(s.shift, false)
      case _ => s.shift
    else s.shift
  }

  predicate AddressDone(s: I2cState, x: Sample) {
    Rising(s, x) && s.phase.Addr? && s.bitIdx == 0
  }

  /** The seven high bits of the address byte select this slave. */
  function NextMatched(c: Config, s: I2cState, x: Sample): bool {
    if AddressDone(s, x) then ShiftIn(s.shift, Line(s, x))[..7] == c.myAddr else s.matched
  }

  function NextRw(s: I2cState, x: Sample): bool {
    if AddressDone(s, x) then Line(s, x) else s.rw
  }

  function NextDrive(s: I2cState, x: Sample): bool {
    if StartCond(s, x) || StopCond(s, x) || s.phase.Idle? then false
    else if Falling(s, x) then
      match s.phase
      case AddrAck => s.matched
      case WDataAck => true
      case RData => !s.shift[0]
      case WData | WaitStop | RDataAck => false
      case _ => s.driveLow
    else s.driveLow
  }

  predicate ByteReceived(s: I2cState, x: Sample) {
    Falling(s, x) && s.phase.WDataAck?
  }

  predicate ByteSent(s: I2cState, x: Sample) {
    Rising(s, x) && s.phase.RData? && s.bitIdx == 0
  }

  /** One clock edge. */
  function Step(c: Config, s: I2cState, x: Sample): I2cState {
    I2cState(
      NextPhase(s, x), NextBitIdx(s, x), NextShift(c, s, x), NextMatched(c, s, x), NextRw(s, x), NextDrive(s, x),
      x.scl, Line(s, x),
      if ByteReceived(s, x) then s.shift else s.rx,
      !StartCond(s, x) && (s.gotWrite || ByteReceived(s, x)),
      !StartCond(s, x) && (s.gotRead || ByteSent(s, x)),
      !StartCond(s, x) && (s.xferDone || StopCond(s, x)))
  }

  lemma Assembled(c: Config, s: I2cState, x: Sample, t: I2cState)
    requires t.phase == NextPhase(s, x) && t.bitIdx == NextBitIdx(s, x) && t.shift == NextShift(c, s, x)
    requires t.matched == NextMatched(c, s, x) && t.rw == NextRw(s, x) && t.driveLow == NextDrive(s, x)
    requires t.sclPrev == x.scl && t.sdaPrev == Line(s, x)
    requires t.rx == if ByteReceived(s, x) then s.shift else s.rx
    requires t.gotWrite == (!StartCond(s, x) && (s.gotWrite || ByteReceived(s, x)))
    requires t.gotRead == (!StartCond(s, x) && (s.gotRead || ByteSent(s, x)))
    requires t.xferDone == (!StartCond(s, x) && (s.xferDone || StopCond(s, x)))
    ensures t == Step(c, s, x)
  {
    hide NextPhase, NextBitIdx, NextShift, NextMatched, NextRw, NextDrive, Line, StartCond, StopCond;
    hide ByteReceived, ByteSent;
  }

  /** The module's registers, updated in place. */
  class FakeI2cSlave {
    var phase: Phase
    var bitIdx: BitIndex
    var shift: Byte
    var matched: bool
    var rw: bool
    var driveLow: bool
    var sclPrev: bool
    var sdaPrev: bool
    var rx: Byte
    var gotWrite: bool
    var gotRead: bool
    var xferDone: bool

    function State(): I2cState
      reads this
    {
      I2cState(phase, bitIdx, shift, matched, rw, driveLow, sclPrev, sdaPrev, rx, gotWrite, gotRead, xferDone)
    }

    method Latch(t: I2cState)
      modifies this
      ensures State() == t
    {
      phase, bitIdx, shift, matched, rw, driveLow := t.phase, t.bitIdx, t.shift, t.matched, t.rw, t.driveLow;
      sclPrev, sdaPrev, rx := t.sclPrev, t.sdaPrev, t.rx;
      gotWrite, gotRead, xferDone := t.gotWrite, t.gotRead, t.xferDone;
    }

    /** One clock edge, decided phase by phase as the always block does. */
    method Tick(c: Config, x: Sample)
      modifies this
      ensures State() == Step(c, old(State()), x)
    {
      var line := x.sda && !driveLow;
      if sclPrev && x.scl && sdaPrev != line {
        Condition(c, x, line);
      } else {
        match phase
        case Idle | WaitStop | RDataAck => Release(c, x, line);
        case Addr => ReceiveAddress(c, x, line);
        case AddrAck => AcknowledgeAddress(c, x, line);
        case WData => ReceiveData(c, x, line);
        case WDataAck => AcknowledgeData(c, x, line);
        case RData => Transmit(c, x, line);
      }
    }

    /** SDA moved while SCL stayed high: START when it fell, STOP when it rose. */
    method Condition(c: Config, x: Sample, line: bool)
      requires line == Line(State(), x) && sclPrev && x.scl && sdaPrev != line
      modifies this
      ensures State() == Step(c, old(State()), x)
    {
      var s := State();
      if sdaPrev {
        Latch(s.(phase := Addr, bitIdx := 7, shift := ZERO_BYTE, driveLow := false, sclPrev := true,
          sdaPrev := line, gotWrite := false, gotRead := false, xferDone := false));
      } else {
        Latch(s.(phase := Idle, driveLow := false, sclPrev := true, sdaPrev := line, xferDone := true));
      }
    }

    method Release(c: Config, x: Sample, line: bool)
      requires NoCondition(x, line) && (phase.Idle? || phase.WaitStop? || phase.RDataAck?)
      modifies this
      ensures State() == Step(c, old(State()), x)
    {
      var drive := driveLow;
      if phase.Idle? || (sclPrev && !x.scl) {
        drive := false;
      }
      Latch(State().(driveLow := drive, sclPrev := x.scl, sdaPrev := line));
    }

    method ReceiveAddress(c: Config, x: Sample, line: bool)
      requires NoCondition(x, line) && phase.Addr?
      modifies this
      ensures State() == Step(c, old(State()), x)
    {
      hide Step, ShiftIn;
      var s := State();
      var t := s.(sclPrev := x.scl, sdaPrev := line);
      if !s.sclPrev && x.scl {
        var byte := ShiftIn(s.shift, line);
        if s.bitIdx == 0 {
          t := t.(shift := byte, matched := byte[..7] == c.myAddr, rw := line, phase := AddrAck);
        } else {
          t := t.(shift := byte, bitIdx := s.bitIdx - 1);
        }
      }
      Assembled(c, s, x, t);
      Latch(t);
    }

    method AcknowledgeAddress(c: Config, x: Sample, line: bool)
      requires NoCondition(x, line) && phase.AddrAck?
      modifies this
      ensures State() == Step(c, old(State()), x)
    {
      hide Step;
      var s := State();
      var t := s.(sclPrev := x.scl, sdaPrev := line);
      if s.sclPrev && !x.scl {
        t := t.(driveLow := s.matched);
      } else if !s.sclPrev && x.scl {
        var next := if !s.matched then Idle else if s.rw then RData else WData;
        t := t.(bitIdx := 7, shift := c.txByte, phase := next);
      }
      Assembled(c, s, x, t);
      Latch(t);
    }

    method ReceiveData(c: Config, x: Sample, line: bool)
      requires NoCondition(x, line) && phase.WData?
      modifies this
      ensures State() == Step(c, old(State()), x)
    {
      hide Step, ShiftIn;
      var s := State();
      var t := s.(sclPrev := x.scl, sdaPrev := line);
      if s.sclPrev && !x.scl {
        t := t.(driveLow := false);
      } else if !s.sclPrev && x.scl {
        var byte := ShiftIn(s.shift, line);
        if s.bitIdx == 0 {
          t := t.(shift := byte, phase := WDataAck);
        } else {
          t := t.(shift := byte, bitIdx := s.bitIdx - 1);
        }
      }
      Assembled(c, s, x, t);
      Latch(t);
    }

    method AcknowledgeData(c: Config, x: Sample, line: bool)
      requires NoCondition(x, line) && phase.WDataAck?
      modifies this
      ensures State() == Step(c, old(State()), x)
    {
      hide Step;
      var s := State();
      var t := s.(sclPrev := x.scl, sdaPrev := line);
      if s.sclPrev && !x.scl {
        t := t.(driveLow := true, rx := s.shift, gotWrite := true, phase := WaitStop);
      }
      Assembled(c, s, x, t);
      Latch(t);
    }

    method Transmit(c: Config, x: Sample, line: bool)
      requires NoCondition(x, line) && phase.RData?
      modifies this
      ensures State() == Step(c, old(State()), x)
    {
      hide Step, ShiftIn;
      var s := State();
      var t := s.(sclPrev := x.scl, sdaPrev := line);
      if s.sclPrev && !x.scl {
        t := t.(driveLow := !s.shift[0]);
      } else if !s.sclPrev && x.scl {
        if s.bitIdx == 0 {
          t := t.(gotRead := true, phase := RDataAck);
        } else {
          t := t.(shift := ShiftIn(s.shift, false), bitIdx := s.bitIdx - 1);
        }
      }
      Assembled(c, s, x, t);
      Latch(t);
    }

    predicate NoCondition(x: Sample, line: bool)
      reads this
    {
      line == Line(State(), x) && !(sclPrev && x.scl && sdaPrev != line)
    }
  }

  // ----- Bus safety -----

  /** Driving low with SCL last seen high means SDA was last seen low, so the slave's
      own drive never looks like a condition. */
  predicate Safe(s: I2cState) {
    && (s.driveLow && s.sclPrev ==> !s.sdaPrev)
    && (s.phase.Idle? || s.phase.Addr? ==> !s.driveLow)
    && (s.phase.AddrAck? && s.driveLow ==> s.matched)
  }

  /** The drive changes only on an edge where SCL is seen falling, whatever the
      master does. */
  lemma SafeStep(c: Config, s: I2cState, x: Sample)
    requires Safe(s)
    ensures Safe(Step(c, s, x))
    ensures Step(c, s, x).driveLow != s.driveLow ==> s.sclPrev && !x.scl
  {
    hide NextBitIdx, NextShift, NextRw, ShiftIn;
  }

  function Run(c: Config, s: I2cState, xs: seq<Sample>): I2cState {
    if xs == [] then s else Step(c, Run(c, s, xs[..|xs| - 1]), xs[|xs| - 1])
  }

  lemma {:induction false} SafeRun(c: Config, s: I2cState, xs: seq<Sample>)
    requires Safe(s)
    ensures Safe(Run(c, s, xs))
  {
    hide Step, Safe;
    if xs != [] {
      SafeRun(c, s, xs[..|xs| - 1]);
      SafeStep(c, Run(c, s, xs[..|xs| - 1]), xs[|xs| - 1]);
    }
  }

  /** From a released idle state, and after any history, a change of the line while
      SCL stays high is a change by the other devices: the slave never makes a START
      or a STOP itself. */
  lemma {:induction false} NeverMakesCondition(c: Config, s: I2cState, before: seq<Sample>, x: Sample, y: Sample)
    requires s.phase.Idle? && !s.driveLow
    requires x.scl && y.scl
    ensures var u := Run(c, s, before);
            var v := Step(c, u, x);
            v.driveLow == u.driveLow && (Line(v, y) != Line(u, x) ==> y.sda != x.sda)
    ensures StartCond(Step(c, Run(c, s, before), x), y) ==> x.sda && !y.sda
    ensures StopCond(Step(c, Run(c, s, before), x), y) ==> !x.sda && y.sda
  {
    hide Run, Step, Safe;
    SafeRun(c, s, before) by {
      IdleIsSafe(s);
    }
    SafeStep(c, Run(c, s, before), x);
    SeenLine(c, Run(c, s, before), x);
  }

  /** However it powers up, an idle slave has let go of the line after one clock. */
  lemma IdleReleases(c: Config, s: I2cState, x: Sample)
    requires s.phase.Idle?
    ensures !Step(c, s, x).driveLow && Safe(Step(c, s, x))
  {
    hide ShiftIn;
  }

  lemma IdleIsSafe(s: I2cState)
    requires s.phase.Idle? && !s.driveLow
    ensures Safe(s)
  {
  }

  lemma SeenLine(c: Config, s: I2cState, x: Sample)
    ensures Step(c, s, x).sclPrev == x.scl && Step(c, s, x).sdaPrev == Line(s, x)
  {
    hide NextPhase, NextBitIdx, NextShift, NextMatched, NextRw, NextDrive;
  }
}
