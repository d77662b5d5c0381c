/** Parameter modes and operand resolution (src/intcode/parameter.rs). */
module Parameters {
  import opened Wrappers
  import opened Util

  datatype ParameterMode = Position | Immediate

  /** `ParameterMode::from`: digit 0 is Position, 1 is Immediate, any
      other digit is fatal. */
  function ModeFromDigit(digit: nat): (r: Result<ParameterMode>)
    ensures r == Ok(Position) <==> digit == 0
    ensures r == Ok(Immediate) <==> digit == 1
    ensures r.Err? <==> digit > 1
    ensures r.Err? ==> r.error == InvalidParameterMode(digit)
  {
    match digit
    case 0 => Ok(Position)
    case 1 => Ok(Immediate)
    case _ => Err(InvalidParameterMode(digit))
  }

  /** `ParameterMode::from_first_value`: the mode of parameter `index` is the
      digit `index + 3` places from the right of the first value; a first
      value of at most two digits, or one too short for `index`, gives
      Position. Either way the mode digit is `(value / 10^(index+2)) % 10`. */
  function ModeFromFirstValue(value: nat, index: nat): (r: Result<ParameterMode>)
    ensures r == ModeFromDigit((value / Pow10(index + 2)) % 10)
  {
    DigitCountAtLeast(value, index + 2);
    if DigitCount(value) <= 2 then
      DivisionUnique(value, Pow10(index + 2), 0, value);
      Ok(Position)
    else
      var ds := Digits(value);
      var modeIndex: int := |ds| - 3 - index;
      if modeIndex < 0 then
        DivisionUnique(value, Pow10(index + 2), 0, value);
        Ok(Position)
      else
        DigitFromRight(value, index + 2);
        ModeFromDigit(ds[modeIndex])
  }

  /** A first value with too few digits for `index` selects Position. */
  lemma MissingModeDigitIsPosition(value: nat, index: nat)
    requires DigitCount(value) < index + 3
    ensures ModeFromFirstValue(value, index) == Ok(Position)
  {
  }

  lemma ModeExamples()
    ensures ModeFromFirstValue(1002, 0) == Ok(Position)
    ensures ModeFromFirstValue(1002, 1) == Ok(Immediate)
    ensures ModeFromFirstValue(1002, 2) == Ok(Position)
    ensures ModeFromFirstValue(1202, 0) == Err(InvalidParameterMode(2))
  {
  }

  /** A decoded operand: its mode and the raw cell that follows the opcode. */
  datatype Parameter = Parameter(mode: ParameterMode, raw: int)

  /** `Parameter::get_value` on a snapshot of memory: Position reads the cell
      at `raw` (fatal outside the memory), Immediate is `raw` itself. */
  function GetValue(p: Parameter, memory: seq<int>): (r: Result<int>)
    ensures p.mode == Immediate ==> r == Ok(p.raw)
    ensures p.mode == Position ==> (r.Ok? <==> 0 <= p.raw < |memory|)
    ensures p.mode == Position && r.Ok? ==> r.value == memory[p.raw]
    ensures r.Err? ==> r.error == AddressOutOfRange(p.raw)
  {
    match p.mode
    case Position => if 0 <= p.raw < |memory| then Ok(memory[p.raw]) else Err(AddressOutOfRange(p.raw))
    case Immediate => Ok(p.raw)
  }
}
