/** Opcode decoding (src/intcode/opcode.rs). */
module Opcodes {
  import opened Wrappers
  import opened Util

  datatype Opcode =
    | Add
    | Multiply
    | SaveInput
    | Output
    | JumpIfTrue
    | JumpIfFalse
    | LessThan
    | Equals
    | Halt

  /** The numeric code of each opcode. */
  function Code(op: Opcode): nat {
    match op
    case Add => 1
    case Multiply => 2
    case SaveInput => 3
    case Output => 4
    case JumpIfTrue => 5
    case JumpIfFalse => 6
    case LessThan => 7
    case Equals => 8
    case Halt => 99
  }

  /** `Opcode::from`: the codes 1..8 and 99 are opcodes, anything else is fatal. */
  function FromCode(value: nat): (r: Result<Opcode>)
    ensures r.Ok? <==> 1 <= value <= 8 || value == 99
    ensures r.Ok? ==> Code(r.value) == value
    ensures r.Err? ==> r.error == InvalidOpcode(value)
  {
    match value
    case 1 => Ok(Add)
    case 2 => Ok(Multiply)
    case 3 => Ok(SaveInput)
    case 4 => Ok(Output)
    case 5 => Ok(JumpIfTrue)
    case 6 => Ok(JumpIfFalse)
    case 7 => Ok(LessThan)
    case 8 => Ok(Equals)
    case 99 => Ok(Halt)
    case _ => Err(InvalidOpcode(value))
  }

  lemma CodeRoundTrip(op: Opcode)
    ensures FromCode(Code(op)) == Ok(op)
  {
  }

  /** The number of parameter cells that follow the opcode cell. */
  function ParameterCount(op: Opcode): (n: nat)
    ensures n <= 3
    ensures n == 0 <==> op == Halt
    ensures n == 1 <==> op == SaveInput || op == Output
    ensures n == 2 <==> op == JumpIfTrue || op == JumpIfFalse
  {
    match op
    case Add => 3
    case Multiply => 3
    case SaveInput => 1
    case Output => 1
    case JumpIfTrue => 2
    case JumpIfFalse => 2
    case LessThan => 3
    case Equals => 3
    case Halt => 0
  }

  /** `Opcode::from_first_value`: values of at most two digits are decoded
      directly; otherwise the last two decimal digits form the code. Either
      way the opcode is the one whose code is `value % 100`. */
  function FromFirstValue(value: nat): (r: Result<Opcode>)
    ensures r == FromCode(value % 100)
  {
    DigitCountAtLeast(value, 2);
    if DigitCount(value) <= 2 then
      assert value < 100;
      FromCode(value)
    else
      var ds := Digits(value);
      LastTwoDigits(value);
      FromCode(ds[|ds| - 1] + 10 * ds[|ds| - 2])
  }

  /** The last two decimal digits of a number read as a two-digit number
      are the number modulo 100. */
  lemma LastTwoDigits(value: nat)
    requires |Digits(value)| >= 2
    ensures var ds := Digits(value); ds[|ds| - 1] + 10 * ds[|ds| - 2] == value % 100
  {
    var ds := Digits(value);
    DigitFromRight(value, 0);
    DigitFromRight(value, 1);
    var low, high := value % 10, (value / 10) % 10;
    assert ds[|ds| - 1] == low && ds[|ds| - 2] == high;
    DivisionUnique(value, 10, value / 10, low);
    DivisionUnique(value / 10, 10, value / 10 / 10, high);
    assert value == 100 * (value / 10 / 10) + (10 * high + low);
    DivisionUnique(value, 100, value / 10 / 10, 10 * high + low);
  }

  /** Values with parameter modes: the modes are ignored. */
  lemma FirstValueExamples()
    ensures FromFirstValue(1002) == Ok(Multiply)
    ensures FromFirstValue(1101) == Ok(Add)
  {
  }

  /** A two-digit value is decoded whole; `100` ends in the code 0. */
  lemma ShortValueExamples()
    ensures FromFirstValue(99) == Ok(Halt)
    ensures FromFirstValue(100) == Err(InvalidOpcode(0))
  {
  }
}
