/** Instruction decoding and execution (src/intcode/instruction.rs).
    `Execute` is the meaning of one instruction on a memory snapshot; the
    method `Run` performs it in place on the memory array. */
module Instructions {
  import opened Wrappers
  import opened Util
  import opened Opcodes
  import opened Parameters

  datatype Instruction = Instruction(opcode: Opcode, parameters: seq<Parameter>)

  /** Every decoded instruction carries exactly its opcode's arity. */
  predicate WellFormed(instr: Instruction) {
    |instr.parameters| == ParameterCount(instr.opcode)
  }

  /** What executing an instruction reports back to the run loop: a jump
      target, and a value emitted by Output. */
  datatype InstructionResult = InstructionResult(pointer: Option<nat>, output: Option<int>)

  const NoEffect := InstructionResult(None, None)

  /** The parameters `i .. count-1` of an instruction whose first value is
      `first`, in order; parameter `j` takes the cell `ints[j + 1]`. */
  function DecodeParameters(first: nat, ints: seq<int>, i: nat, count: nat): (r: Result<seq<Parameter>>)
    requires i <= count
    decreases count - i
    ensures r.Ok? <==> count < |ints| && forall j :: i <= j < count ==> ModeFromFirstValue(first, j).Ok?
    ensures r.Ok? ==> |r.value| == count - i
    ensures r.Ok? ==> forall j :: i <= j < count ==>
      r.value[j - i] == Parameter(ModeFromFirstValue(first, j).value, ints[j + 1])
  {
    if i == count then
      if count < |ints| then Ok([]) else Err(AddressOutOfRange(count))
    else
      match ModeFromFirstValue(first, i)
      case Err(e) => Err(e)
      case Ok(mode) =>
        if i + 1 >= |ints| then Err(AddressOutOfRange(i + 1))
        else
          match DecodeParameters(first, ints, i + 1, count)
          case Err(e) => Err(e)
          case Ok(rest) => Ok([Parameter(mode, ints[i + 1])] + rest)
  }

  /** `Instruction::from_ints`: the opcode comes from `ints[0]` (cast to
      usize) and parameter `i` from the mode digit `i` of `ints[0]` and the
      cell `ints[i + 1]`. On Halt the parameter range `0..=count-1`
      underflows, which is fatal. */
  function FromInts(ints: seq<int>): (r: Result<Instruction>)
    requires |ints| >= 1
    ensures r.Ok? <==>
      && FromFirstValue(AsUsize(ints[0])).Ok?
      && 0 < ParameterCount(FromFirstValue(AsUsize(ints[0])).value) < |ints|
      && forall j :: 0 <= j < ParameterCount(FromFirstValue(AsUsize(ints[0])).value) ==>
           ModeFromFirstValue(AsUsize(ints[0]), j).Ok?
    ensures r.Ok? ==> Ok(r.value.opcode) == FromFirstValue(AsUsize(ints[0])) && WellFormed(r.value)
    ensures r.Ok? ==> forall j :: 0 <= j < |r.value.parameters| ==>
      r.value.parameters[j] == Parameter(ModeFromFirstValue(AsUsize(ints[0]), j).value, ints[j + 1])
  {
    var first := AsUsize(ints[0]);
    match FromFirstValue(first)
    case Err(e) => Err(e)
    case Ok(opcode) =>
      var count := ParameterCount(opcode);
      if count == 0 then Err(ParameterCountUnderflow)
      else
        match DecodeParameters(first, ints, 0, count)
        case Err(e) => Err(e)
        case Ok(parameters) => Ok(Instruction(opcode, parameters))
  }

  /** `map_parameter_values`: every parameter resolved against the same
      snapshot, in order; the first failing read is fatal. */
  function MapParameterValues(parameters: seq<Parameter>, memory: seq<int>): (r: Result<seq<int>>)
    ensures r.Ok? <==> forall i :: 0 <= i < |parameters| ==> GetValue(parameters[i], memory).Ok?
    ensures r.Ok? ==> |r.value| == |parameters|
    ensures r.Ok? ==> forall i :: 0 <= i < |parameters| ==> GetValue(parameters[i], memory) == Ok(r.value[i])
    ensures r.Err? ==> exists i :: 0 <= i < |parameters| && GetValue(parameters[i], memory) == Err(r.error)
  {
    if parameters == [] then Ok([])
    else
      match GetValue(parameters[0], memory)
      case Err(e) => Err(e)
      case Ok(v) =>
        match MapParameterValues(parameters[1..], memory)
        case Err(e) => Err(e)
        case Ok(vs) => Ok([v] + vs)
  }

  /** The value written by the four three-operand opcodes. */
  function Combine(op: Opcode, a: int, b: int): int {
    match op
    case Add => a + b
    case Multiply => a * b
    case LessThan => if a < b then 1 else 0
    case Equals => if a == b then 1 else 0
    case _ => 0
  }

  predicate WritesResult(op: Opcode) {
    op == Add || op == Multiply || op == LessThan || op == Equals
  }

  /** The condition of a jump on its first operand. */
  function JumpTaken(op: Opcode, condition: int): bool {
    if op == JumpIfTrue then condition != 0 else condition == 0
  }

  predicate IsJump(op: Opcode) {
    op == JumpIfTrue || op == JumpIfFalse
  }

  /** `set_result` on a snapshot: the last parameter's raw value is the
      destination address, whatever its mode. */
  function Store(memory: seq<int>, address: int, value: int): Result<seq<int>> {
    if 0 <= address < |memory| then Ok(memory[address := value]) else Err(AddressOutOfRange(address))
  }

  /** The meaning of `Instruction::run` on memory `memory` with the input
      that the caller supplies (the interactive fallback is not modelled).
      Only Output emits, and it emits its operand; only a jump returns a
      pointer; Output, the jumps and Halt leave memory as it was; no
      instruction changes the memory's length. */
  function Execute(instr: Instruction, memory: seq<int>, input: Option<int>): (r: Result<(seq<int>, InstructionResult)>)
    requires WellFormed(instr)
    ensures r.Ok? ==> |r.value.0| == |memory|
    ensures r.Ok? ==> (r.value.1.output.Some? <==> instr.opcode == Output)
    ensures r.Ok? && instr.opcode == Output ==> GetValue(instr.parameters[0], memory) == Ok(r.value.1.output.value)
    ensures r.Ok? && r.value.1.pointer.Some? ==> IsJump(instr.opcode)
    ensures r.Ok? && !WritesResult(instr.opcode) && instr.opcode != SaveInput ==> r.value.0 == memory
  {
    var ps := instr.parameters;
    match instr.opcode
    case Add | Multiply | LessThan | Equals =>
      (match MapParameterValues(ps, memory)
       case Err(e) => Err(e)
       case Ok(vs) =>
         match Store(memory, ps[|ps| - 1].raw, Combine(instr.opcode, vs[0], vs[1]))
         case Err(e) => Err(e)
         case Ok(m) => Ok((m, NoEffect)))
    case SaveInput =>
      (match input
       case None => Err(InputUnavailable)
       case Some(x) =>
         match Store(memory, ps[|ps| - 1].raw, x)
         case Err(e) => Err(e)
         case Ok(m) => Ok((m, NoEffect)))
    case Output =>
      (match GetValue(ps[0], memory)
       case Err(e) => Err(e)
       case Ok(v) => Ok((memory, InstructionResult(None, Some(v)))))
    case JumpIfTrue | JumpIfFalse =>
      (match MapParameterValues(ps, memory)
       case Err(e) => Err(e)
       case Ok(vs) =>
         if !JumpTaken(instr.opcode, vs[0]) then Ok((memory, NoEffect))
         else if vs[1] < 0 then Err(InvalidJumpAddress(vs[1]))
         else Ok((memory, InstructionResult(Some(vs[1]), None))))
    case Halt => Ok((memory, NoEffect))
  }

  /** Add, Multiply, LessThan and Equals read both operands and the
      destination's mode-resolved value from the snapshot, then write
      `Combine(a, b)` to the destination's raw address and nothing else. */
  lemma ThreeOperandSemantics(instr: Instruction, memory: seq<int>, input: Option<int>)
    requires WellFormed(instr) && WritesResult(instr.opcode)
    ensures var ps := instr.parameters;
      Execute(instr, memory, input).Ok? <==>
        (forall i :: 0 <= i < 3 ==> GetValue(ps[i], memory).Ok?) && 0 <= ps[2].raw < |memory|
    ensures var ps := instr.parameters;
      Execute(instr, memory, input).Ok? ==>
        var a, b := GetValue(ps[0], memory).value, GetValue(ps[1], memory).value;
        Execute(instr, memory, input).value == (memory[ps[2].raw := Combine(instr.opcode, a, b)], NoEffect)
  {
  }

  /** The comparisons write the flag 1 exactly when the comparison holds, else 0. */
  lemma ComparisonWritesFlag(instr: Instruction, memory: seq<int>, input: Option<int>)
    requires WellFormed(instr) && (instr.opcode == LessThan || instr.opcode == Equals)
    requires Execute(instr, memory, input).Ok?
    ensures var ps := instr.parameters;
      var a, b := GetValue(ps[0], memory).value, GetValue(ps[1], memory).value;
      var m := Execute(instr, memory, input).value.0;
      && (m[ps[2].raw] == 1 <==> (if instr.opcode == LessThan then a < b else a == b))
      && (m[ps[2].raw] == 0 || m[ps[2].raw] == 1)
  {
    ThreeOperandSemantics(instr, memory, input);
  }

  /** Operands come from the snapshot taken before the write, so a
      destination that is also an operand contributes its old value. */
  lemma DestinationAliasUsesOldValue(a: int, memory: seq<int>, input: Option<int>)
    requires 0 <= a < |memory|
    ensures var instr := Instruction(Add, [Parameter(Position, a), Parameter(Position, a), Parameter(Position, a)]);
      Execute(instr, memory, input) == Ok((memory[a := memory[a] + memory[a]], NoEffect))
  {
    var instr := Instruction(Add, [Parameter(Position, a), Parameter(Position, a), Parameter(Position, a)]);
    ThreeOperandSemantics(instr, memory, input);
  }

  /** The jumps return the target `read(p1)` exactly when their condition
      on `read(p0)` holds; a negative target is fatal; memory is unchanged. */
  lemma JumpSemantics(instr: Instruction, memory: seq<int>, input: Option<int>)
    requires WellFormed(instr) && IsJump(instr.opcode)
    requires GetValue(instr.parameters[0], memory).Ok? && GetValue(instr.parameters[1], memory).Ok?
    ensures var c, t := GetValue(instr.parameters[0], memory).value, GetValue(instr.parameters[1], memory).value;
      var taken := if instr.opcode == JumpIfTrue then c != 0 else c == 0;
      Execute(instr, memory, input) ==
        if !taken then Ok((memory, NoEffect))
        else if t < 0 then Err(InvalidJumpAddress(t))
        else Ok((memory, InstructionResult(Some(t), None)))
  {
  }

  /** SaveInput writes the supplied input to `raw(p0)` and reports nothing;
      without an input it fails. */
  lemma SaveInputSemantics(instr: Instruction, memory: seq<int>, input: Option<int>)
    requires WellFormed(instr) && instr.opcode == SaveInput
    ensures var dest := instr.parameters[0].raw;
      Execute(instr, memory, input) ==
        if input.None? then Err(InputUnavailable)
        else if 0 <= dest < |memory| then Ok((memory[dest := input.value], NoEffect))
        else Err(AddressOutOfRange(dest))
  {
  }

  /** An instruction changes at most one cell: the one its last parameter's
      raw value addresses. */
  lemma ExecuteWritesOnlyDestination(instr: Instruction, memory: seq<int>, input: Option<int>)
    requires WellFormed(instr) && Execute(instr, memory, input).Ok?
    ensures var m := Execute(instr, memory, input).value.0;
      instr.parameters != [] ==>
        forall j :: 0 <= j < |memory| && j != instr.parameters[|instr.parameters| - 1].raw ==> m[j] == memory[j]
  {
  }

  /** `set_result`, in place: write `result` to the last parameter's raw address. */
  method SetResult(instr: Instruction, memory: array<int>, result: int) returns (r: Result<()>)
    requires |instr.parameters| > 0
    modifies memory
    ensures var s := Store(old(memory[..]), instr.parameters[|instr.parameters| - 1].raw, result);
      && (r.Ok? <==> s.Ok?)
      && (s.Ok? ==> memory[..] == s.value)
      && (s.Err? ==> r == Err(s.error) && memory[..] == old(memory[..]))
  {
    var address := instr.parameters[|instr.parameters| - 1].raw;
    if 0 <= address < memory.Length {
      memory[address] := result;
      r := Ok(());
    } else {
      r := Err(AddressOutOfRange(address));
    }
  }

  /** `Instruction::run`: executes the instruction in place on `memory`.
      A failing instruction leaves memory untouched. */
  method Run(instr: Instruction, memory: array<int>, input: Option<int>) returns (r: Result<InstructionResult>)
    requires WellFormed(instr)
    modifies memory
    ensures var e := Execute(instr, old(memory[..]), input);
      && (e.Ok? ==> r == Ok(e.value.1) && memory[..] == e.value.0)
      && (e.Err? ==> r == Err(e.error) && memory[..] == old(memory[..]))
  {
    var ps := instr.parameters;
    match instr.opcode
    case Add | Multiply | LessThan | Equals =>
      var operands := MapParameterValues(ps, memory[..]);
      if operands.Err? {
        return Err(operands.error);
      }
      var done := SetResult(instr, memory, Combine(instr.opcode, operands.value[0], operands.value[1]));
      if done.Err? {
        return Err(done.error);
      }
      r := Ok(NoEffect);
    case SaveInput =>
      if input.None? {
        return Err(InputUnavailable);
      }
      var done := SetResult(instr, memory, input.value);
      if done.Err? {
        return Err(done.error);
      }
      r := Ok(NoEffect);
    case Output =>
      var v := GetValue(ps[0], memory[..]);
      if v.Err? {
        return Err(v.error);
      }
      r := Ok(InstructionResult(None, Some(v.value)));
    case JumpIfTrue | JumpIfFalse =>
      var values := MapParameterValues(ps, memory[..]);
      if values.Err? {
        return Err(values.error);
      }
      if !JumpTaken(instr.opcode, values.value[0]) {
        r := Ok(NoEffect);
      } else if values.value[1] < 0 {
        r := Err(InvalidJumpAddress(values.value[1]));
      } else {
        r := Ok(InstructionResult(Some(values.value[1]), None));
      }
    case Halt =>
      r := Ok(NoEffect);
  }
}
