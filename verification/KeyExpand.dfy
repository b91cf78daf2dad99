/** The iterative key expander: one round key per clock edge into an eleven-entry
    register file. */
module KeyExpand {
  import opened Blocks
  import opened Cipher

  /** A four-bit register. */
  type Nibble = n: nat | n < 16

  type RoundKeys = s: seq<Block> | |s| == 11 witness seq(11, _ => ZERO_BLOCK)

  datatype KeyInputs = KeyInputs(resetn: bool, start: bool, keyIn: Block)

  datatype KeyState = KeyState(expanding: bool, roundIdx: Nibble, rk: RoundKeys, done: bool)

  /** The register file read at a four-bit index; a simulator reads X past its end,
      which no state reached after a reset does. */
  function ReadKey(rk: RoundKeys, i: Nibble): Block {
    if i < 11 then rk[i] else ZERO_BLOCK
  }

  /** One clock edge: every register from the values before the edge. */
  function KeyStep(s: KeyState, input: KeyInputs): KeyState {
    if !input.resetn then
      s.(expanding := false, roundIdx := 0, done := false)
    else if !s.expanding then
      if input.start then
        KeyState(true, 1, s.rk[0 := input.keyIn], false)
      else
        s.(done := false)
    else
      var produced := NextRoundKey(ReadKey(s.rk, (s.roundIdx + 15) % 16), s.roundIdx);
      var rk := if s.roundIdx < 11 then s.rk[s.roundIdx := produced] else s.rk;
      if s.roundIdx == 10 then
        KeyState(false, 10, rk, true)
      else
        KeyState(true, (s.roundIdx + 1) % 16, rk, false)
  }

  /** The module's registers, updated in place. Nothing is initialized before the
      first reset. */
  class KeyExpander {
    var expanding: bool
    var roundIdx: Nibble
    var done: bool
    const rk: array<Block>

    ghost predicate Valid() {
      rk.Length == 11
    }

    ghost function State(): KeyState
      requires Valid()
      reads this, rk
    {
      KeyState(expanding, roundIdx, rk[..], done)
    }

    constructor ()
      ensures Valid() && fresh(rk)
    {
      rk := new Block[11];
    }

    method Tick(input: KeyInputs)
      requires Valid()
      modifies this, rk
      ensures State() == KeyStep(old(State()), input)
    {
      hide NextRoundKey;
      if !input.resetn {
        expanding, roundIdx, done := false, 0, false;
      } else {
        done := false;
        if !expanding {
          if input.start {
            rk[0] := input.keyIn;
            roundIdx := 1;
            expanding := true;
          }
        } else {
          var last := (roundIdx + 15) % 16;
          var prev := if last < 11 then rk[last] else ZERO_BLOCK;
          if roundIdx < 11 {
            rk[roundIdx] := NextRoundKey(prev, roundIdx);
          }
          if roundIdx == 10 {
            done := true;
            expanding := false;
          } else {
            roundIdx := (roundIdx + 1) % 16;
          }
        }
      }
    }
  }

  // ----- Runs -----

  /** The first n registers hold the first n round keys of `key`. */
  ghost predicate HasKeys(rk: RoundKeys, key: Block, n: nat)
    requires n <= 11
  {
    forall i | 0 <= i < n :: rk[i] == RoundKey(key, i)
  }

  /** n edges after the one that accepted `key`. */
  ghost predicate Expanding(s: KeyState, key: Block, n: nat) {
    && n <= 10
    && HasKeys(s.rk, key, n + 1)
    && s.done == (n == 10)
    && s.expanding == (n < 10)
    && s.roundIdx == if n < 10 then n + 1 else 10
  }

  lemma {:induction false} StartExpanding(s: KeyState, input: KeyInputs)
    requires !s.expanding && input.resetn && input.start
    ensures Expanding(KeyStep(s, input), input.keyIn, 0)
  {
    hide NextRoundKey, RoundKey;
    RoundKeyZero(input.keyIn);
  }

  /** Each edge extends the prefix of round keys by one, whatever the inputs. */
  lemma {:induction false} ExpandOne(s: KeyState, input: KeyInputs, key: Block, n: nat)
    requires Expanding(s, key, n) && n < 10 && input.resetn
    ensures Expanding(KeyStep(s, input), key, n + 1)
  {
    hide NextRoundKey, RoundKey;
    StepIsRecurrence(key, n + 1);
    assert (s.roundIdx + 15) % 16 == n;
  }

  function KeyRun(s: KeyState, inputs: seq<KeyInputs>): KeyState {
    if inputs == [] then s else KeyStep(KeyRun(s, inputs[..|inputs| - 1]), inputs[|inputs| - 1])
  }

  /** From an idle expander, `done` rises on exactly the tenth edge after the one
      that accepts a key, and the register file then holds words 4i to 4i+3 of that
      key's recurrence as round key i. */
  lemma {:induction false} ScheduleRun(s: KeyState, first: KeyInputs, rest: seq<KeyInputs>)
    requires !s.expanding && first.resetn && first.start
    requires |rest| <= 10 && forall input | input in rest :: input.resetn
    ensures var f := KeyRun(KeyStep(s, first), rest);
            && f.done == (|rest| == 10)
            && (forall i | 0 <= i <= |rest| :: f.rk[i] == RoundKey(first.keyIn, i))
    ensures Expanding(KeyRun(KeyStep(s, first), rest), first.keyIn, |rest|)
  {
    hide RoundKey, KeyStep;
    if rest == [] {
      StartExpanding(s, first);
    } else {
      ScheduleRun(s, first, rest[..|rest| - 1]);
      ExpandOne(KeyRun(KeyStep(s, first), rest[..|rest| - 1]), rest[|rest| - 1], first.keyIn, |rest| - 1);
    }
  }
}
