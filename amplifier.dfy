/** An amplifier of the day-7 circuit (src/days/day_7/amplifier.rs): an
    Intcode program with its own instruction pointer and a phase setting
    that answers the first SaveInput, which runs until it emits one value
    or halts. */
module Amplifiers {
  import opened Wrappers
  import opened Opcodes
  import opened Instructions
  import opened Programs

  /** What a run of an amplifier sees: memory, its own pointer and the
      phase setting not yet consumed. */
  datatype AmpState = AmpState(memory: seq<int>, pointer: nat, phase: Option<u32>)

  /** The value handed to a SaveInput: the phase while it is pending,
      afterwards the incoming signal. */
  function InputFor(phase: Option<u32>, signal: u32): (input: int)
    ensures phase.Some? ==> input == phase.value
    ensures phase.None? ==> input == signal
  {
    match phase
    case Some(p) => p
    case None => signal
  }

  /** `Amplifier::run` as a function of the state: execute instructions
      until the first output (which must fit in a u32) or Halt (no output,
      the pointer left on the Halt cell). `fuel` bounds the number of turns
      of the loop, the final Halt check included; `AmpTurn`, `AmpExecute`
      and `AmpEmit` are the parts of a turn. */
  function AmpRun(s: AmpState, signal: u32, fuel: nat): Result<(AmpState, Option<u32>)>
    decreases fuel, 0
  {
    if fuel == 0 then Err(OutOfFuel) else AmpTurn(s, signal, fuel - 1)
  }

  function AmpTurn(s: AmpState, signal: u32, fuel: nat): Result<(AmpState, Option<u32>)>
    decreases fuel, 3
  {
    match FetchOpcode(s.memory, s.pointer)
    case Err(e) => Err(e)
    case Ok(op) => if op == Halt then Ok((s, None)) else AmpExecute(s, op, signal, fuel)
  }

  /** Executes the instruction under the pointer with the pending input;
      a SaveInput consumes the phase. */
  function AmpExecute(s: AmpState, op: Opcode, signal: u32, fuel: nat): Result<(AmpState, Option<u32>)>
    decreases fuel, 2
  {
    match Step(Machine(s.memory, s.pointer), op, Some(InputFor(s.phase, signal)))
    case Err(e) => Err(e)
    case Ok((next, instr, res)) =>
      AmpEmit(AmpState(next.memory, next.pointer, if instr.opcode == SaveInput then None else s.phase), res, signal, fuel)
  }

  /** An output ends the run (a value outside u32 is fatal); otherwise the
      loop goes on. */
  function AmpEmit(s: AmpState, res: InstructionResult, signal: u32, fuel: nat): Result<(AmpState, Option<u32>)>
    decreases fuel, 1
  {
    match res.output
    case Some(v) => if 0 <= v < U32Limit then Ok((s, Some(v as u32))) else Err(OutputNotU32(v))
    case None => AmpRun(s, signal, fuel)
  }

  /** A run that reports no output stopped on a Halt cell. */
  lemma {:induction false} NoOutputMeansHalted(s: AmpState, signal: u32, fuel: nat)
    requires AmpRun(s, signal, fuel).Ok? && AmpRun(s, signal, fuel).value.1.None?
    ensures FetchOpcode(AmpRun(s, signal, fuel).value.0.memory, AmpRun(s, signal, fuel).value.0.pointer) == Ok(Halt)
    decreases fuel
  {
    assert AmpRun(s, signal, fuel) == AmpTurn(s, signal, fuel - 1);
    match FetchOpcode(s.memory, s.pointer)
    case Err(_) =>
    case Ok(op) =>
      if op != Halt {
        assert AmpTurn(s, signal, fuel - 1) == AmpExecute(s, op, signal, fuel - 1);
        match Step(Machine(s.memory, s.pointer), op, Some(InputFor(s.phase, signal)))
        case Err(_) =>
        case Ok((next, instr, res)) =>
          var s' := AmpState(next.memory, next.pointer, if instr.opcode == SaveInput then None else s.phase);
          assert AmpExecute(s, op, signal, fuel - 1) == AmpEmit(s', res, signal, fuel - 1);
          EmitWithoutOutput(s', res, signal, fuel - 1);
          NoOutputMeansHalted(s', signal, fuel - 1);
      }
  }

  /** An emission step that reports no output had none to emit and went on
      with the loop. */
  lemma EmitWithoutOutput(s: AmpState, res: InstructionResult, signal: u32, fuel: nat)
    requires AmpEmit(s, res, signal, fuel).Ok? && AmpEmit(s, res, signal, fuel).value.1.None?
    ensures res.output.None? && AmpEmit(s, res, signal, fuel) == AmpRun(s, signal, fuel)
  {
  }

  /** Once an amplifier has halted, every later run, whatever the signal
      and the (nonzero) fuel, returns no output and changes nothing. */
  lemma HaltedStaysHalted(s: AmpState, signal: u32, fuel: nat, signal': u32, fuel': nat)
    requires AmpRun(s, signal, fuel).Ok? && AmpRun(s, signal, fuel).value.1.None?
    requires fuel' > 0
    ensures var s' := AmpRun(s, signal, fuel).value.0;
      AmpRun(s', signal', fuel') == Ok((s', None))
  {
    NoOutputMeansHalted(s, signal, fuel);
    var s' := AmpRun(s, signal, fuel).value.0;
    assert AmpRun(s', signal', fuel') == AmpTurn(s', signal', fuel' - 1);
  }

  /** The phase answers one SaveInput only: a run either keeps the pending
      phase or clears it, and a cleared phase never comes back. */
  lemma {:induction false} PhaseIsConsumedOnce(s: AmpState, signal: u32, fuel: nat)
    requires AmpRun(s, signal, fuel).Ok?
    ensures var p := AmpRun(s, signal, fuel).value.0.phase;
      p == s.phase || p == None
    decreases fuel
  {
    assert AmpRun(s, signal, fuel) == AmpTurn(s, signal, fuel - 1);
    match FetchOpcode(s.memory, s.pointer)
    case Err(_) =>
    case Ok(op) =>
      if op != Halt {
        assert AmpTurn(s, signal, fuel - 1) == AmpExecute(s, op, signal, fuel - 1);
        match Step(Machine(s.memory, s.pointer), op, Some(InputFor(s.phase, signal)))
        case Err(_) =>
        case Ok((next, instr, res)) =>
          var s' := AmpState(next.memory, next.pointer, if instr.opcode == SaveInput then None else s.phase);
          assert AmpExecute(s, op, signal, fuel - 1) == AmpEmit(s', res, signal, fuel - 1);
          if res.output.None? {
            PhaseIsConsumedOnce(s', signal, fuel - 1);
          }
      }
  }

  /** How a turn of the amplifier's loop ended. */
  datatype TurnEnd = AtHalt | Ran(result: InstructionResult)

  class Amplifier {
    const program: Program
    var pointer: nat
    var phase: Option<u32>

    /** `Amplifier::new`: takes ownership of `program`, pointer 0, the phase pending. */
    constructor (program: Program, phase: u32)
      ensures this.program == program && pointer == 0 && this.phase == Some(phase)
    {
      this.program := program;
      pointer := 0;
      this.phase := Some(phase);
    }

    function State(): AmpState
      reads this, program, program.memory
    {
      AmpState(program.memory[..], pointer, phase)
    }

    /** One turn of `run`'s loop: stop at Halt, or execute the instruction
      under the pointer, consume the phase on SaveInput and move the
      pointer. The run from the old state is the emission step of this
      turn applied to the new state. */
    method Turn(signal: u32, ghost fuel: nat) returns (r: Result<TurnEnd>)
      requires fuel > 0
      modifies this, program.memory
      ensures r == Ok(AtHalt) ==> State() == old(State()) && AmpRun(State(), signal, fuel) == Ok((State(), None))
      ensures r.Err? ==> AmpRun(old(State()), signal, fuel) == Err(r.error)
      ensures r.Ok? && r.value.Ran? ==>
        AmpRun(old(State()), signal, fuel) == AmpEmit(State(), r.value.result, signal, fuel - 1)
    {
      var current := program.Get(pointer);
      if current.Err? {
        return Err(current.error);
      }
      var opcode := FromFirstValue(Util.AsUsize(current.value));
      if opcode.Err? {
        return Err(opcode.error);
      }
      if opcode.value == Halt {
        return Ok(AtHalt);
      }
      var count := ParameterCount(opcode.value);
      var instruction := FetchInstruction(program.memory[..], pointer, count);
      ghost var before := State();
      ghost var input := Some(InputFor(phase, signal));
      assert AmpRun(before, signal, fuel) == AmpTurn(before, signal, fuel - 1);
      assert AmpTurn(before, signal, fuel - 1) == AmpExecute(before, opcode.value, signal, fuel - 1);
      if instruction.Err? {
        return Err(instruction.error);
      }
      var result := Instructions.Run(instruction.value, program.memory, Some(InputFor(phase, signal)));
      if result.Err? {
        return Err(result.error);
      }
      if opcode.value == SaveInput && phase.Some? {
        phase := None;
      }
      pointer := NextPointer(pointer, opcode.value, result.value);
      assert Step(Machine(before.memory, before.pointer), opcode.value, input)
          == Ok((Machine(program.memory[..], pointer), instruction.value, result.value));
      r := Ok(Ran(result.value));
    }

    /** `run`: executes until the first output, which it returns (fatal if
      it is not a u32), or until Halt, which yields no output. */
    method Run(signal: u32, fuel: nat) returns (r: Result<Option<u32>>)
      modifies this, program.memory
      ensures var spec := AmpRun(old(State()), signal, fuel);
        && (spec.Ok? ==> r == Ok(spec.value.1) && State() == spec.value.0)
        && (spec.Err? ==> r == Err(spec.error))
    {
      ghost var start := State();
      var fuelLeft := fuel;
      while true
        invariant AmpRun(start, signal, fuel) == AmpRun(State(), signal, fuelLeft)
        decreases fuelLeft
      {
        if fuelLeft == 0 {
          return Err(OutOfFuel);
        }
        var turn := Turn(signal, fuelLeft);
        if turn.Err? {
          return Err(turn.error);
        }
        if turn.value.AtHalt? {
          return Ok(None);
        }
        var output := turn.value.result.output;
        if output.Some? {
          if !(0 <= output.value < U32Limit) {
            return Err(OutputNotU32(output.value));
          }
          return Ok(Some(output.value as u32));
        }
        assert AmpEmit(State(), turn.value.result, signal, fuelLeft - 1) == AmpRun(State(), signal, fuelLeft - 1);
        fuelLeft := fuelLeft - 1;
      }
    }
  }
}
