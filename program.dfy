/** The Intcode virtual machine (src/intcode/program.rs): a class owning a
    fixed-length memory array and the instruction pointer, and the pure
    run-loop semantics (`RunFrom`) its `Run` method is proved against. */
module Programs {
  import opened Wrappers
  import opened Util
  import opened Opcodes
  import opened Parameters
  import opened Instructions

  /** The minimum memory size a program is padded to. */
  const MemorySize: nat := 2000

  /** The initial memory of a parsed image: the image itself, followed by
      zeros up to `MemorySize` cells when it is shorter. */
  function Padded(image: seq<int>): (memory: seq<int>)
    ensures |memory| == if |image| < MemorySize then MemorySize else |image|
    ensures memory[..|image|] == image
    ensures forall i :: |image| <= i < |memory| ==> memory[i] == 0
  {
    if |image| < MemorySize then image + seq(MemorySize - |image|, _ => 0) else image
  }

  /** What execution sees of a program: its memory and its pointer. */
  datatype Machine = Machine(memory: seq<int>, pointer: nat)

  /** The opcode of the cell under the pointer (missing cell: fatal): the
      code formed by its last two decimal digits, which is what
      `from_first_value` decodes from the cell cast to `usize`. */
  function FetchOpcode(memory: seq<int>, pointer: nat): (r: Result<Opcode>)
    ensures pointer < |memory| ==> r == FromFirstValue(AsUsize(memory[pointer]))
    ensures pointer >= |memory| ==> r == Err(AddressOutOfRange(pointer))
  {
    if pointer < |memory| then FromCode(AsUsize(memory[pointer]) % 100) else Err(AddressOutOfRange(pointer))
  }

  /** `get_instruction`: the instruction decoded from the cells
      `pointer ..= pointer + count` (a slice past the end is fatal). */
  function FetchInstruction(memory: seq<int>, pointer: nat, count: nat): (r: Result<Instruction>)
    ensures r.Ok? ==> WellFormed(r.value)
    ensures pointer + count >= |memory| ==> r == Err(AddressOutOfRange(pointer + count))
  {
    if pointer + count < |memory| then FromInts(memory[pointer..pointer + count + 1])
    else Err(AddressOutOfRange(pointer + count))
  }

  /** Where the pointer goes after an instruction: the jump target when
      there is one, else just past the instruction's parameters. */
  function NextPointer(pointer: nat, op: Opcode, res: InstructionResult): (next: nat)
    ensures res.pointer.Some? ==> next == res.pointer.value
    ensures res.pointer.None? ==> next > pointer + ParameterCount(op)
  {
    res.pointer.GetOr(pointer + ParameterCount(op) + 1)
  }

  /** One turn of the run loop for a non-Halt opcode `op` at the pointer:
      decode, execute with `input`, move the pointer. */
  function Step(m: Machine, op: Opcode, input: Option<int>): (r: Result<(Machine, Instruction, InstructionResult)>)
    ensures r.Ok? ==> WellFormed(r.value.1) && |r.value.0.memory| == |m.memory|
    ensures r.Ok? ==> (r.value.2.output.Some? <==> r.value.1.opcode == Output)
    ensures r.Ok? ==> r.value.0.pointer == NextPointer(m.pointer, r.value.1.opcode, r.value.2)
    ensures m.pointer + ParameterCount(op) >= |m.memory| ==> r == Err(AddressOutOfRange(m.pointer + ParameterCount(op)))
  {
    match FetchInstruction(m.memory, m.pointer, ParameterCount(op))
    case Err(e) => Err(e)
    case Ok(instr) =>
      match Execute(instr, m.memory, input)
      case Err(e) => Err(e)
      case Ok((memory, res)) => Ok((Machine(memory, NextPointer(m.pointer, instr.opcode, res)), instr, res))
  }

  /** The `k`-th input, if there is one. */
  function InputAt(inputs: seq<int>, k: nat): Option<int> {
    if k < |inputs| then Some(inputs[k]) else None
  }

  function OutputOf(res: InstructionResult): seq<int> {
    match res.output
    case Some(v) => [v]
    case None => []
  }

  /** Puts `outputs` in front of the outputs of a run. */
  function Prepend(outputs: seq<int>, r: Result<(Machine, seq<int>)>): Result<(Machine, seq<int>)> {
    match r
    case Err(e) => Err(e)
    case Ok((m, rest)) => Ok((m, outputs + rest))
  }

  /** The meaning of a non-Halt instruction as the run loop uses it. */
  type Semantics = (Machine, Opcode, Option<int>) -> Result<(Machine, Instruction, InstructionResult)>

  /** The run loop from machine `m` for any instruction semantics `step`,
      the next unread input being `inputs[k]`: stops at Halt (executing
      nothing more and leaving the pointer on the Halt cell), otherwise
      executes one instruction, collects its output and consumes an input
      exactly when it was a SaveInput. `fuel` bounds the number of turns
      of the loop, the final Halt check included. */
  function RunWith(step: Semantics, m: Machine, inputs: seq<int>, k: nat, fuel: nat): Result<(Machine, seq<int>)>
    decreases fuel
  {
    if fuel == 0 then Err(OutOfFuel)
    else
      match FetchOpcode(m.memory, m.pointer)
      case Err(e) => Err(e)
      case Ok(op) =>
        if op == Halt then Ok((m, []))
        else
          match step(m, op, InputAt(inputs, k))
          case Err(e) => Err(e)
          case Ok((next, instr, res)) =>
            Prepend(OutputOf(res), RunWith(step, next, inputs, if instr.opcode == SaveInput then k + 1 else k, fuel - 1))
  }

  /** `Program::run` as a function of the machine: the run loop with the
      Intcode instruction semantics `Step`. `TurnFrom` is one turn of the
      loop, with `fuel` turns left after it. */
  function RunFrom(m: Machine, inputs: seq<int>, k: nat, fuel: nat): Result<(Machine, seq<int>)>
    decreases fuel, 0
  {
    if fuel == 0 then Err(OutOfFuel) else TurnFrom(m, inputs, k, fuel - 1)
  }

  function TurnFrom(m: Machine, inputs: seq<int>, k: nat, fuel: nat): Result<(Machine, seq<int>)>
    decreases fuel, 2
  {
    match FetchOpcode(m.memory, m.pointer)
    case Err(e) => Err(e)
    case Ok(op) => if op == Halt then Ok((m, [])) else ExecuteFrom(m, op, inputs, k, fuel)
  }

  /** The rest of a turn on a non-Halt opcode `op`: execute it, collect its
      output and go on with the next turn. */
  function ExecuteFrom(m: Machine, op: Opcode, inputs: seq<int>, k: nat, fuel: nat): Result<(Machine, seq<int>)>
    decreases fuel, 1
  {
    match Step(m, op, InputAt(inputs, k))
    case Err(e) => Err(e)
    case Ok((next, instr, res)) =>
      Prepend(OutputOf(res), RunFrom(next, inputs, if instr.opcode == SaveInput then k + 1 else k, fuel))
  }

  /** The Intcode run loop is the generic loop instantiated with `Step`. */
  lemma {:induction false} RunFromIsRunWith(m: Machine, inputs: seq<int>, k: nat, fuel: nat)
    ensures RunFrom(m, inputs, k, fuel) == RunWith(Step, m, inputs, k, fuel)
    decreases fuel, 2
  {
    if fuel > 0 {
      TurnFromIsRunWith(m, inputs, k, fuel);
    }
  }

  /** One turn of the Intcode loop agrees with the generic loop's turn. */
  lemma {:induction false} TurnFromIsRunWith(m: Machine, inputs: seq<int>, k: nat, fuel: nat)
    requires fuel > 0
    ensures TurnFrom(m, inputs, k, fuel - 1) == RunWith(Step, m, inputs, k, fuel)
    decreases fuel, 1
  {
    var f := FetchOpcode(m.memory, m.pointer);
    if f.Ok? && f.value != Halt {
      ExecuteFromIsRunWith(m, f.value, inputs, k, fuel);
    }
  }

  /** The rest of a turn on a non-Halt opcode agrees too. */
  lemma {:induction false} ExecuteFromIsRunWith(m: Machine, op: Opcode, inputs: seq<int>, k: nat, fuel: nat)
    requires fuel > 0 && FetchOpcode(m.memory, m.pointer) == Ok(op) && op != Halt
    ensures ExecuteFrom(m, op, inputs, k, fuel - 1) == RunWith(Step, m, inputs, k, fuel)
    decreases fuel, 0
  {
    var s := Step(m, op, InputAt(inputs, k));
    if s.Ok? {
      var (next, instr, res) := s.value;
      var k' := if instr.opcode == SaveInput then k + 1 else k;
      RunFromIsRunWith(next, inputs, k', fuel - 1);
      assert ExecuteFrom(m, op, inputs, k, fuel - 1) == Prepend(OutputOf(res), RunFrom(next, inputs, k', fuel - 1));
      assert RunWith(Step, m, inputs, k, fuel) == Prepend(OutputOf(res), RunWith(Step, next, inputs, k', fuel - 1));
    }
  }

  lemma PrependAssociates(a: seq<int>, b: seq<int>, r: Result<(Machine, seq<int>)>)
    ensures Prepend(a, Prepend(b, r)) == Prepend(a + b, r)
  {
    if r.Ok? {
      assert a + (b + r.value.1) == (a + b) + r.value.1;
    }
  }

  lemma PrependNothing(r: Result<(Machine, seq<int>)>)
    ensures Prepend([], r) == r
  {
    if r.Ok? {
      assert [] + r.value.1 == r.value.1;
    }
  }

  /** At Halt the loop stops at once: nothing runs, no input is read, and
      memory and pointer are left as they are. */
  lemma RunStopsAtHalt(m: Machine, inputs: seq<int>, k: nat, fuel: nat)
    requires fuel > 0 && FetchOpcode(m.memory, m.pointer) == Ok(Halt)
    ensures RunFrom(m, inputs, k, fuel) == Ok((m, []))
  {
    assert RunFrom(m, inputs, k, fuel) == TurnFrom(m, inputs, k, fuel - 1);
  }

  /** One turn of the generic loop on a non-Halt opcode whose step
      succeeded: its output, then the rest of the run. */
  lemma RunWithTurn(step: Semantics, m: Machine, inputs: seq<int>, k: nat, fuel: nat, op: Opcode)
    requires fuel > 0 && FetchOpcode(m.memory, m.pointer) == Ok(op) && op != Halt
    requires step(m, op, InputAt(inputs, k)).Ok?
    ensures var (next, instr, res) := step(m, op, InputAt(inputs, k)).value;
      RunWith(step, m, inputs, k, fuel)
        == Prepend(OutputOf(res), RunWith(step, next, inputs, if instr.opcode == SaveInput then k + 1 else k, fuel - 1))
  {
  }

  lemma {:induction false} RunWithReadsRemainingInputs(step: Semantics, m: Machine, inputs: seq<int>, k: nat, d: nat, fuel: nat)
    requires d <= k && d <= |inputs|
    ensures RunWith(step, m, inputs, k, fuel) == RunWith(step, m, inputs[d..], k - d, fuel)
    decreases fuel
  {
    var f := FetchOpcode(m.memory, m.pointer);
    if fuel > 0 && f.Ok? && f.value != Halt {
      var op, input := f.value, InputAt(inputs, k);
      assert InputAt(inputs[d..], k - d) == input;
      var r := step(m, op, input);
      if r.Ok? {
        var (next, instr, res) := r.value;
        var k' := if instr.opcode == SaveInput then k + 1 else k;
        RunWithReadsRemainingInputs(step, next, inputs, k', d, fuel - 1);
        RunWithTurn(step, m, inputs, k, fuel, op);
        RunWithTurn(step, m, inputs[d..], k - d, fuel, op);
        assert k' - d == if instr.opcode == SaveInput then k - d + 1 else k - d;
      } else {
        assert RunWith(step, m, inputs[d..], k - d, fuel) == Err(r.error);
      }
    }
  }

  /** Inputs are consumed strictly in order: a run that has already read
      `k` inputs behaves as a fresh run on the rest of the list. */
  lemma RunReadsRemainingInputs(m: Machine, inputs: seq<int>, k: nat, fuel: nat)
    requires k <= |inputs|
    ensures RunFrom(m, inputs, k, fuel) == RunFrom(m, inputs[k..], 0, fuel)
  {
    RunFromIsRunWith(m, inputs, k, fuel);
    RunFromIsRunWith(m, inputs[k..], 0, fuel);
    RunWithReadsRemainingInputs(Step, m, inputs, k, k, fuel);
  }

  lemma {:induction false} RunWithFuelMonotone(step: Semantics, m: Machine, inputs: seq<int>, k: nat, fuel: nat, more: nat)
    requires fuel <= more
    requires RunWith(step, m, inputs, k, fuel).Ok?
    ensures RunWith(step, m, inputs, k, more) == RunWith(step, m, inputs, k, fuel)
    decreases fuel
  {
    match FetchOpcode(m.memory, m.pointer)
    case Err(_) =>
    case Ok(op) =>
      if op != Halt {
        match step(m, op, InputAt(inputs, k))
        case Err(_) =>
        case Ok((next, instr, res)) =>
          RunWithFuelMonotone(step, next, inputs, if instr.opcode == SaveInput then k + 1 else k, fuel - 1, more - 1);
      }
  }

  /** Extra fuel does not change a run that finished: the result is a
      property of the program and its inputs, not of the bound. */
  lemma RunFuelMonotone(m: Machine, inputs: seq<int>, k: nat, fuel: nat, more: nat)
    requires fuel <= more
    requires RunFrom(m, inputs, k, fuel).Ok?
    ensures RunFrom(m, inputs, k, more) == RunFrom(m, inputs, k, fuel)
  {
    RunFromIsRunWith(m, inputs, k, fuel);
    RunFromIsRunWith(m, inputs, k, more);
    RunWithFuelMonotone(Step, m, inputs, k, fuel, more);
  }

  /** A step semantics that never changes the length of memory. */
  ghost predicate KeepsLength(step: Semantics) {
    forall m, op, input :: step(m, op, input).Ok? ==> |step(m, op, input).value.0.memory| == |m.memory|
  }

  lemma {:induction false} RunWithEndsAtHalt(step: Semantics, m: Machine, inputs: seq<int>, k: nat, fuel: nat)
    requires KeepsLength(step)
    requires RunWith(step, m, inputs, k, fuel).Ok?
    ensures |RunWith(step, m, inputs, k, fuel).value.0.memory| == |m.memory|
    ensures FetchOpcode(RunWith(step, m, inputs, k, fuel).value.0.memory, RunWith(step, m, inputs, k, fuel).value.0.pointer) == Ok(Halt)
    decreases fuel
  {
    match FetchOpcode(m.memory, m.pointer)
    case Err(_) =>
    case Ok(op) =>
      if op != Halt {
        match step(m, op, InputAt(inputs, k))
        case Err(_) =>
        case Ok((next, instr, res)) =>
          RunWithEndsAtHalt(step, next, inputs, if instr.opcode == SaveInput then k + 1 else k, fuel - 1);
      }
  }

  /** No Intcode instruction changes the length of memory. */
  lemma StepKeepsLength()
    ensures KeepsLength(Step)
  {
  }

  /** A finished run stops on a Halt cell and never changes the length of
      memory. */
  lemma RunEndsAtHalt(m: Machine, inputs: seq<int>, k: nat, fuel: nat)
    requires RunFrom(m, inputs, k, fuel).Ok?
    ensures |RunFrom(m, inputs, k, fuel).value.0.memory| == |m.memory|
    ensures FetchOpcode(RunFrom(m, inputs, k, fuel).value.0.memory, RunFrom(m, inputs, k, fuel).value.0.pointer) == Ok(Halt)
  {
    RunFromIsRunWith(m, inputs, k, fuel);
    StepKeepsLength();
    RunWithEndsAtHalt(Step, m, inputs, k, fuel);
  }

  /** How a turn of the run loop ended: on Halt, or after executing `instr`. */
  datatype Turn = Halted | Executed(instr: Instruction, result: InstructionResult)

  class Program {
    const memory: array<int>
    var pointer: nat
    var relativeBase: int

    /** The state the run loop works on. */
    function State(): Machine
      reads this, memory
    {
      Machine(memory[..], pointer)
    }

    /** `Program::from` on an already parsed image: memory padded with
      zeros to at least `MemorySize` cells, pointer and relative base 0. */
    constructor FromImage(image: seq<int>)
      ensures fresh(memory)
      ensures memory[..] == Padded(image) && pointer == 0 && relativeBase == 0
    {
      var padded := Padded(image);
      memory := new int[|padded|](i requires 0 <= i < |padded| => padded[i]);
      pointer := 0;
      relativeBase := 0;
    }

    /** A program whose memory holds exactly `cells`. */
    constructor FromCells(cells: seq<int>, pointer: nat, relativeBase: int)
      ensures fresh(memory)
      ensures memory[..] == cells && this.pointer == pointer && this.relativeBase == relativeBase
    {
      memory := new int[|cells|](i requires 0 <= i < |cells| => cells[i]);
      this.pointer := pointer;
      this.relativeBase := relativeBase;
    }

    /** A deep copy: a new program with its own memory array. */
    method Clone() returns (copy: Program)
      ensures fresh(copy) && fresh(copy.memory)
      ensures copy.memory[..] == memory[..] && copy.pointer == pointer && copy.relativeBase == relativeBase
    {
      copy := new Program.FromCells(memory[..], pointer, relativeBase);
    }

    /** `get`: the cell at `address`; fatal outside the memory. */
    function Get(address: nat): (r: Result<int>)
      reads this, memory
      ensures r.Ok? <==> address < memory.Length
      ensures r.Ok? ==> r.value == memory[address]
    {
      if address < memory.Length then Ok(memory[address]) else Err(AddressOutOfRange(address))
    }

    /** `set`: changes exactly the cell at `address`, never the length. */
    method Set(address: nat, value: int) returns (r: Result<()>)
      modifies memory
      ensures r.Ok? <==> address < memory.Length
      ensures r.Ok? ==> memory[..] == old(memory[..])[address := value]
      ensures r.Err? ==> memory[..] == old(memory[..])
    {
      if address < memory.Length {
        memory[address] := value;
        r := Ok(());
      } else {
        r := Err(AddressOutOfRange(address));
      }
    }

    /** `get_current`: the cell under the pointer; fatal past the end. */
    function GetCurrent(): (r: Result<int>)
      reads this, memory
      ensures r.Ok? <==> pointer < memory.Length
      ensures r.Ok? ==> r.value == memory[pointer]
    {
      Get(pointer)
    }

    /** `get_instruction`: decodes the cells `pointer ..= pointer + paramCount`. */
    function GetInstruction(paramCount: nat): (r: Result<Instruction>)
      reads this, memory
      ensures r.Ok? ==> WellFormed(r.value)
      ensures pointer + paramCount < memory.Length ==> r == FromInts(memory[pointer..pointer + paramCount + 1])
      ensures pointer + paramCount >= memory.Length ==> r == Err(AddressOutOfRange(pointer + paramCount))
    {
      FetchInstruction(memory[..], pointer, paramCount)
    }

    /** `run_instruction`: executes in place, then moves the pointer to the
      jump target if there is one, else past the instruction. */
    method RunInstruction(instr: Instruction, input: Option<int>) returns (r: Result<InstructionResult>)
      requires WellFormed(instr)
      modifies this, memory
      ensures relativeBase == old(relativeBase)
      ensures var e := Execute(instr, old(memory[..]), input);
        && (e.Ok? ==> r == Ok(e.value.1) && memory[..] == e.value.0
                      && pointer == NextPointer(old(pointer), instr.opcode, e.value.1))
        && (e.Err? ==> r == Err(e.error))
    {
      r := Instructions.Run(instr, memory, input);
      if r.Ok? {
        pointer := NextPointer(pointer, instr.opcode, r.value);
      }
    }

    /** `adjust_relative_base`: adds `value` to the relative base and
      changes nothing else. */
    method AdjustRelativeBase(value: int)
      modifies this
      ensures relativeBase == old(relativeBase) + value
      ensures pointer == old(pointer)
    {
      relativeBase := relativeBase + value;
    }

    /** One turn of `run`'s loop, `fuel` turns being allowed: stop at Halt,
      or decode and execute the instruction under the pointer with the
      `k`-th input. The run from the old state is this turn's output
      followed by the run from the new state. */
    method RunTurn(inputs: seq<int>, k: nat, ghost fuel: nat) returns (r: Result<Turn>)
      requires fuel > 0
      modifies this, memory
      ensures relativeBase == old(relativeBase)
      ensures r == Ok(Halted) ==> State() == old(State()) && RunFrom(State(), inputs, k, fuel) == Ok((State(), []))
      ensures r.Err? ==> RunFrom(old(State()), inputs, k, fuel) == Err(r.error)
      ensures r.Ok? && r.value.Executed? ==>
        RunFrom(old(State()), inputs, k, fuel)
        == Prepend(OutputOf(r.value.result),
                   RunFrom(State(), inputs, if r.value.instr.opcode == SaveInput then k + 1 else k, fuel - 1))
    {
      assert RunFrom(State(), inputs, k, fuel) == TurnFrom(State(), inputs, k, fuel - 1);
      var current := GetCurrent();
      if current.Err? {
        return Err(current.error);
      }
      var opcode := FromFirstValue(AsUsize(current.value));
      if opcode.Err? {
        return Err(opcode.error);
      }
      if opcode.value == Halt {
        return Ok(Halted);
      }
      var instruction := GetInstruction(ParameterCount(opcode.value));
      ghost var before := State();
      assert instruction == FetchInstruction(before.memory, before.pointer, ParameterCount(opcode.value));
      assert TurnFrom(before, inputs, k, fuel - 1) == ExecuteFrom(before, opcode.value, inputs, k, fuel - 1);
      if instruction.Err? {
        return Err(instruction.error);
      }
      var result := RunInstruction(instruction.value, InputAt(inputs, k));
      if result.Err? {
        return Err(result.error);
      }
      assert Step(before, opcode.value, InputAt(inputs, k)) == Ok((State(), instruction.value, result.value));
      r := Ok(Executed(instruction.value, result.value));
    }

    /** `run`: executes until Halt, handing the `k`-th SaveInput the `k`-th
      input and returning every output in emission order. At most `fuel`
      turns of the loop are made. */
    method Run(inputs: Option<seq<int>>, fuel: nat) returns (r: Result<seq<int>>)
      modifies this, memory
      ensures relativeBase == old(relativeBase)
      ensures var spec := RunFrom(Machine(old(memory[..]), old(pointer)), inputs.GetOr([]), 0, fuel);
        && (spec.Ok? ==> r == Ok(spec.value.1) && State() == spec.value.0)
        && (spec.Err? ==> r == Err(spec.error))
    {
      ghost var start := State();
      var inputPointer := 0;
      var outputs: seq<int> := [];
      var fuelLeft := fuel;
      PrependNothing(RunFrom(start, inputs.GetOr([]), 0, fuel));
      while true
        invariant relativeBase == old(relativeBase)
        invariant RunFrom(start, inputs.GetOr([]), 0, fuel)
               == Prepend(outputs, RunFrom(State(), inputs.GetOr([]), inputPointer, fuelLeft))
        decreases fuelLeft
      {
        if fuelLeft == 0 {
          return Err(OutOfFuel);
        }
        var unwrappedInputs := inputs.GetOr([]);
        var turn := RunTurn(unwrappedInputs, inputPointer, fuelLeft);
        if turn.Err? {
          return Err(turn.error);
        }
        if turn.value.Halted? {
          break;
        }
        var nextInput := if turn.value.instr.opcode == SaveInput then inputPointer + 1 else inputPointer;
        PrependAssociates(outputs, OutputOf(turn.value.result), RunFrom(State(), unwrappedInputs, nextInput, fuelLeft - 1));
        outputs := outputs + OutputOf(turn.value.result);
        inputPointer := nextInput;
        fuelLeft := fuelLeft - 1;
      }
      assert outputs + [] == outputs;
      r := Ok(outputs);
    }
  }
}
