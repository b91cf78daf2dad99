/** The behavioural SPI slave: a full-duplex byte exchange over all four clock modes. */
module SpiSlave {

  /** A byte as a bit string, most significant bit first. */
  type Byte = s: seq<bool> | |s| == 8 witness [false, false, false, false, false, false, false, false]

  const EDGE_COUNTS: nat := 32

  /** The clock mode and the byte to send, set before the transfer. */
  datatype Config = Config(cpol: bool, cpha: bool, preload: Byte)

  datatype Sample = Sample(sclk: bool, mosi: bool, csN: bool)

  type EdgeCount = n: nat | n < EDGE_COUNTS

  datatype SpiState = SpiState(
    txShift: Byte, received: Byte, miso: bool, edgeCnt: EdgeCount, sclkPrev: bool, csNPrev: bool, xferDone: bool)

  function ShiftIn(byte: Byte, bit: bool): Byte {
    byte[1..] + [bit]
  }

  predicate Select(s: SpiState, x: Sample) {
    s.csNPrev && !x.csN
  }

  predicate Edge(s: SpiState, x: Sample) {
    !Select(s, x) && !x.csN && x.sclk != s.sclkPrev
  }

  /** MOSI is taken on the leading edge when CPHA is 0, on the trailing one otherwise. */
  predicate Captures(c: Config, s: SpiState, x: Sample) {
    Edge(s, x) && (x.sclk == c.cpol) == c.cpha
  }

  /** MISO moves on the other edges, but not on the very first leading one. */
  predicate Shifts(c: Config, s: SpiState, x: Sample) {
    Edge(s, x) && (x.sclk == c.cpol) != c.cpha && (c.cpha ==> s.edgeCnt != 0)
  }

  /** One clock edge. */
  function Step(c: Config, s: SpiState, x: Sample): SpiState {
    SpiState(
      if Select(s, x) then c.preload else if Shifts(c, s, x) then ShiftIn(s.txShift, false) else s.txShift,
      if Captures(c, s, x) then ShiftIn(s.received, x.mosi) else s.received,
      if Select(s, x) then c.preload[0] else if Shifts(c, s, x) then s.txShift[1] else s.miso,
      if Select(s, x) then 0 else if Edge(s, x) then (s.edgeCnt + 1) % EDGE_COUNTS else s.edgeCnt,
      if Select(s, x) then c.cpol else if Edge(s, x) then x.sclk else s.sclkPrev,
      x.csN,
      !Select(s, x) && (s.xferDone || (Edge(s, x) && s.edgeCnt == 15)))
  }

  /** The module's registers, updated in place. */
  class FakeSpiSlave {
    var txShift: Byte
    var received: Byte
    var miso: bool
    var edgeCnt: EdgeCount
    var sclkPrev: bool
    var csNPrev: bool
    var xferDone: bool

    function State(): SpiState
      reads this
    {
      SpiState(txShift, received, miso, edgeCnt, sclkPrev, csNPrev, xferDone)
    }

    /** One clock edge. */
    method Tick(c: Config, x: Sample)
      modifies this
      ensures State() == Step(c, old(State()), x)
    {
      if csNPrev && !x.csN {
        txShift, miso := c.preload, c.preload[0];
        edgeCnt, xferDone, sclkPrev := 0, false, c.cpol;
      } else if !x.csN && x.sclk != sclkPrev {
        var shift := false;
        if x.sclk != c.cpol {
          if !c.cpha {
            received := ShiftIn(received, x.mosi);
          }
          shift := c.cpha && edgeCnt != 0;
        } else {
          if c.cpha {
            received := ShiftIn(received, x.mosi);
          }
          shift := !c.cpha;
        }
        if shift {
          txShift, miso := ShiftIn(txShift, false), txShift[1];
        }
        if edgeCnt == 15 {
          xferDone := true;
        }
        edgeCnt, sclkPrev := (edgeCnt + 1) % EDGE_COUNTS, x.sclk;
      }
      csNPrev := x.csN;
    }
  }

  function Run(c: Config, s: SpiState, xs: seq<Sample>): SpiState {
    if xs == [] then s else Step(c, Run(c, s, xs[..|xs| - 1]), xs[|xs| - 1])
  }

  // ----- What is on the wires -----

  /** SCLK after the samples xs, which start from its idle level. */
  function Level(cpol: bool, xs: seq<Sample>): bool {
    if xs == [] then cpol else xs[|xs| - 1].sclk
  }

  /** MOSI at each of the SCLK edges of xs. */
  function EdgeBits(cpol: bool, xs: seq<Sample>): seq<bool> {
    if xs == [] then []
    else
      var init, x := xs[..|xs| - 1], xs[|xs| - 1];
      EdgeBits(cpol, init) + if x.sclk != Level(cpol, init) then [x.mosi] else []
  }

  /** Of n edges, those that sample: the even-numbered (leading) ones when CPHA is 0, the
      odd-numbered (trailing) ones otherwise. */
  function SampleCount(cpha: bool, n: nat): nat {
    if cpha then n / 2 else (n + 1) / 2
  }

  function SampledBits(cpha: bool, bits: seq<bool>): seq<bool> {
    seq(SampleCount(cpha, |bits|), j requires 0 <= j < SampleCount(cpha, |bits|) => bits[if cpha then 2 * j + 1 else 2 * j])
  }

  /** How far the outgoing byte has moved after n edges. */
  function ShiftCount(cpha: bool, n: nat): nat {
    if cpha then (if n == 0 then 0 else (n - 1) / 2) else n / 2
  }

  /** Bit i of the outgoing stream: the byte, then zeros. */
  function Outgoing(byte: Byte, i: nat): bool {
    i < 8 && byte[i]
  }

  predicate Counted(c: Config, n: nat, s: SpiState) {
    && s.edgeCnt == n % EDGE_COUNTS
    && !s.csNPrev
    && s.sclkPrev == (c.cpol == (n % 2 == 0))
    && s.xferDone == (n >= 16)
  }

  predicate Received(c: Config, before: Byte, bits: seq<bool>, s: SpiState) {
    s.received == (before + SampledBits(c.cpha, bits))[SampleCount(c.cpha, |bits|)..]
  }

  predicate Sending(c: Config, n: nat, s: SpiState) {
    && s.miso == s.txShift[0]
    && forall i :: 0 <= i < 8 ==> s.txShift[i] == Outgoing(c.preload, ShiftCount(c.cpha, n) + i)
  }

  /** The slave after the edges with MOSI at `bits`, selected with `before` in its receive
      register. */
  predicate Exchanging(c: Config, before: Byte, bits: seq<bool>, s: SpiState) {
    Counted(c, |bits|, s) && Received(c, before, bits, s) && Sending(c, |bits|, s)
  }

  lemma SampledStep(cpha: bool, bits: seq<bool>, bit: bool)
    ensures SampledBits(cpha, bits + [bit])
         == SampledBits(cpha, bits) + if (|bits| % 2 == 1) == cpha then [bit] else []
  {
  }

  lemma ReceivedStep(before: Byte, bits: seq<bool>, bit: bool)
    ensures ShiftIn((before + bits)[|bits|..], bit) == (before + (bits + [bit]))[|bits| + 1..]
  {
  }

  lemma CountStep(c: Config, n: nat, s: SpiState, x: Sample)
    requires Counted(c, n, s) && !x.csN
    ensures Counted(c, if Edge(s, x) then n + 1 else n, Step(c, s, x))
    ensures Captures(c, s, x) == (Edge(s, x) && (n % 2 == 1) == c.cpha)
    ensures Shifts(c, s, x) ==> Edge(s, x) && ShiftCount(c.cpha, n + 1) == ShiftCount(c.cpha, n) + 1
    ensures Edge(s, x) && !Shifts(c, s, x) ==>
              ShiftCount(c.cpha, n + 1) == ShiftCount(c.cpha, n) || (ShiftCount(c.cpha, n) >= 8 && ShiftCount(c.cpha, n + 1) >= 8)
  {
  }

  lemma ReceiveStep(c: Config, before: Byte, bits: seq<bool>, s: SpiState, x: Sample)
    requires Received(c, before, bits, s) && !x.csN
    requires Captures(c, s, x) == (Edge(s, x) && (|bits| % 2 == 1) == c.cpha)
    ensures Received(c, before, if Edge(s, x) then bits + [x.mosi] else bits, Step(c, s, x))
  {
    hide Captures, Edge, Shifts, Select;
    SampledStep(c.cpha, bits, x.mosi);
    ReceivedStep(before, SampledBits(c.cpha, bits), x.mosi);
    NoCapture(c, s, x);
  }

  lemma NoCapture(c: Config, s: SpiState, x: Sample)
    ensures Captures(c, s, x) ==> Edge(s, x)
  {
  }

  lemma SendStep(c: Config, n: nat, m: nat, s: SpiState, x: Sample)
    requires Sending(c, n, s) && !Select(s, x)
    requires m == n || m == n + 1
    requires Shifts(c, s, x) ==> ShiftCount(c.cpha, m) == ShiftCount(c.cpha, n) + 1
    requires !Shifts(c, s, x) ==> ShiftCount(c.cpha, m) == ShiftCount(c.cpha, n) || (ShiftCount(c.cpha, n) >= 8 && ShiftCount(c.cpha, m) >= 8)
    ensures Sending(c, m, Step(c, s, x))
  {
    hide Shifts, Captures, Edge, Select;
    var k := ShiftCount(c.cpha, n);
    hide ShiftCount;
    assert Shifts(c, s, x) ==> forall i :: 0 <= i < 8 ==> ShiftIn(s.txShift, false)[i] == Outgoing(c.preload, k + 1 + i);
  }

  /** One clock edge keeps the invariant, whether or not SCLK moves. */
  lemma ExchangeStep(c: Config, before: Byte, bits: seq<bool>, s: SpiState, x: Sample)
    requires Exchanging(c, before, bits, s) && !x.csN
    ensures Exchanging(c, before, if Edge(s, x) then bits + [x.mosi] else bits, Step(c, s, x))
    ensures Captures(c, s, x) == (Edge(s, x) && (|bits| % 2 == 1) == c.cpha)
  {
    hide Step, Received, Sending, Captures, Shifts, ShiftCount;
    CountStep(c, |bits|, s, x);
    ReceiveStep(c, before, bits, s, x);
    SendStep(c, |bits|, if Edge(s, x) then |bits| + 1 else |bits|, s, x);
  }

  /** The whole exchange: select the slave, then let SCLK and MOSI do anything while it
      stays selected. Whatever the mode, the timing and the state before, the register
      has shifted in MOSI at exactly the sampling edges, MISO shows the next bit of the
      preloaded byte, and xferDone is up exactly from the 16th edge on. */
  lemma {:induction false} Exchange(c: Config, s: SpiState, x: Sample, xs: seq<Sample>)
    requires s.csNPrev && !x.csN
    requires forall k :: 0 <= k < |xs| ==> !xs[k].csN
    ensures var u := Run(c, Step(c, s, x), xs);
            && Exchanging(c, s.received, EdgeBits(c.cpol, xs), u)
            && u.sclkPrev == Level(c.cpol, xs)
  {
    hide Step, Exchanging, SampledBits;
    if xs == [] {
      ExchangeStart(c, s, x);
    } else {
      var init := xs[..|xs| - 1];
      Exchange(c, s, x, init);
      var u := Run(c, Step(c, s, x), init);
      Seen(c, s.received, EdgeBits(c.cpol, init), u, xs[|xs| - 1]);
      ExchangeStep(c, s.received, EdgeBits(c.cpol, init), u, xs[|xs| - 1]);
      assert EdgeBits(c.cpol, init) + [] == EdgeBits(c.cpol, init);
    }
  }

  lemma ExchangeStart(c: Config, s: SpiState, x: Sample)
    requires s.csNPrev && !x.csN
    ensures Exchanging(c, s.received, [], Step(c, s, x)) && Step(c, s, x).sclkPrev == c.cpol
  {
  }

  lemma Seen(c: Config, before: Byte, bits: seq<bool>, s: SpiState, x: Sample)
    requires Exchanging(c, before, bits, s) && !x.csN
    ensures Edge(s, x) == (x.sclk != s.sclkPrev)
    ensures Step(c, s, x).sclkPrev == x.sclk
  {
  }

  /** A 16-edge transfer swaps two bytes: `received` ends as MOSI at the eight sampling
      edges, which are edges 0, 2, ... when CPHA is 0 and 1, 3, ... otherwise, and xferDone
      is up from the 16th edge on, not before. */
  lemma FullDuplexReceive(c: Config, s: SpiState, x: Sample, xs: seq<Sample>)
    requires s.csNPrev && !x.csN
    requires forall k :: 0 <= k < |xs| ==> !xs[k].csN
    ensures var u := Run(c, Step(c, s, x), xs);
            && (u.xferDone <==> |EdgeBits(c.cpol, xs)| >= 16)
            && (|EdgeBits(c.cpol, xs)| == 16 ==>
                  forall j :: 0 <= j < 8 ==> u.received[j] == EdgeBits(c.cpol, xs)[2 * j + if c.cpha then 1 else 0])
  {
    hide Run, Step, EdgeBits, Sending;
    Exchange(c, s, x, xs);
  }

  /** The other direction: at the j-th edge on which the slave (and so the master) samples,
      the line shows bit j of the preloaded byte, most significant first. */
  lemma FullDuplexSend(c: Config, s: SpiState, x: Sample, xs: seq<Sample>, y: Sample)
    requires s.csNPrev && !x.csN && !y.csN
    requires forall k :: 0 <= k < |xs| ==> !xs[k].csN
    ensures var u := Run(c, Step(c, s, x), xs);
            var j := |SampledBits(c.cpha, EdgeBits(c.cpol, xs))|;
            Captures(c, u, y) && j < 8 ==> u.miso == c.preload[j]
  {
    hide Run, Step, EdgeBits, Captures, Received, Counted;
    var bits, u := EdgeBits(c.cpol, xs), Run(c, Step(c, s, x), xs);
    Exchange(c, s, x, xs);
    ExchangeStep(c, s.received, bits, u, y);
    assert u.miso == Outgoing(c.preload, ShiftCount(c.cpha, |bits|) + 0);
    assert |SampledBits(c.cpha, bits)| == SampleCount(c.cpha, |bits|);
    hide Exchanging, SampledBits, Edge;
    if Captures(c, u, y) {
      SampleAtShift(c.cpha, |bits|);
    }
  }

  /** At a sampling edge as many bits have been sent as sampled. */
  lemma SampleAtShift(cpha: bool, n: nat)
    requires (n % 2 == 1) == cpha
    ensures SampleCount(cpha, n) == ShiftCount(cpha, n)
  {
  }

  /** While deselected nothing is shifted and the result is kept. */
  lemma {:induction false} Deselected(c: Config, s: SpiState, xs: seq<Sample>)
    requires xs != [] && forall k :: 0 <= k < |xs| ==> xs[k].csN
    ensures Run(c, s, xs) == s.(csNPrev := true)
  {
    if |xs| > 1 {
      Deselected(c, s, xs[..|xs| - 1]);
    }
  }
}
