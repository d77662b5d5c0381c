/** Day 2 (src/days/day_2.rs): the first, add/multiply-only Intcode
    interpreter, which works directly on a vector of unsigned cells. */
module Day2 {
  import opened Wrappers
  import opened Util

  /** The cell value the noun/verb search looks for in cell 0. */
  const TargetOutput: nat := 19690720

  /** `do_instruction`: opcode 1 adds, opcode 2 multiplies, any other
      opcode is fatal. */
  function DoInstruction(opcode: nat, a: nat, b: nat): (r: Result<nat>)
    ensures r.Ok? <==> opcode == 1 || opcode == 2
    ensures opcode == 1 ==> r == Ok(a + b)
    ensures opcode == 2 ==> r == Ok(a * b)
    ensures r.Err? ==> r.error == InvalidOpcode(opcode)
  {
    match opcode
    case 1 => Ok(a + b)
    case 2 => Ok(a * b)
    case _ => Err(InvalidOpcode(opcode))
  }

  /** Indexing the vector: fatal outside it. */
  function Read(memory: seq<nat>, address: nat): (r: Result<nat>)
    ensures r.Ok? <==> address < |memory|
    ensures r.Ok? ==> r.value == memory[address]
  {
    if address < |memory| then Ok(memory[address]) else Err(AddressOutOfRange(address))
  }

  /** `run_intcode` from `pointer`: stop on 99; otherwise read both operands
      through their address cells (left to right), read the destination,
      compute (an unknown opcode is fatal before the destination is
      indexed) and store, then move four cells on. The result is the final
      memory, as long as the input; only index and opcode errors occur. */
  function Interpret(memory: seq<nat>, pointer: nat): (r: Result<seq<nat>>)
    ensures r.Ok? ==> |r.value| == |memory|
    ensures r.Err? ==> r.error.AddressOutOfRange? || r.error.InvalidOpcode?
    decreases |memory| + 4 - pointer
  {
    if pointer >= |memory| then Err(AddressOutOfRange(pointer))
    else if memory[pointer] == 99 then Ok(memory)
    else
      match Read(memory, pointer + 1)
      case Err(e) => Err(e)
      case Ok(first) =>
        match Read(memory, first)
        case Err(e) => Err(e)
        case Ok(a) =>
          match Read(memory, pointer + 2)
          case Err(e) => Err(e)
          case Ok(second) =>
            match Read(memory, second)
            case Err(e) => Err(e)
            case Ok(b) =>
              match Read(memory, pointer + 3)
              case Err(e) => Err(e)
              case Ok(destination) =>
                match DoInstruction(memory[pointer], a, b)
                case Err(e) => Err(e)
                case Ok(value) =>
                  if destination < |memory| then Interpret(memory[destination := value], pointer + 4)
                  else Err(AddressOutOfRange(destination))
  }

  /** A successful run stopped on a 99 cell, a whole number of four-cell
      instructions after `pointer`. */
  lemma {:induction false} InterpretEndsAtHalt(memory: seq<nat>, pointer: nat)
    requires Interpret(memory, pointer).Ok?
    ensures var final := Interpret(memory, pointer).value;
      exists q :: pointer <= q < |final| && (q - pointer) % 4 == 0 && final[q] == 99
    decreases |memory| + 4 - pointer
  {
    var final := Interpret(memory, pointer).value;
    if memory[pointer] == 99 {
      assert final[pointer] == 99;
    } else {
      var destination := memory[pointer + 3];
      var value := DoInstruction(memory[pointer], memory[memory[pointer + 1]], memory[memory[pointer + 2]]).value;
      InterpretEndsAtHalt(memory[destination := value], pointer + 4);
      var q :| pointer + 4 <= q < |final| && (q - pointer - 4) % 4 == 0 && final[q] == 99;
      assert (q - pointer) % 4 == 0;
    }
  }

  lemma InterpretExamples()
    ensures Interpret([1, 0, 0, 0, 99], 0) == Ok([2, 0, 0, 0, 99])
    ensures Interpret([1, 9, 10, 3, 2, 3, 11, 0, 99, 30, 40, 50], 0)
         == Ok([3500, 9, 10, 70, 2, 3, 11, 0, 99, 30, 40, 50])
  {
    var m := [1, 0, 0, 0, 99];
    assert m[0 := 2] == [2, 0, 0, 0, 99];
    assert Interpret(m, 0) == Interpret(m[0 := 2], 4);
    var m0 := [1, 9, 10, 3, 2, 3, 11, 0, 99, 30, 40, 50];
    var m1 := [1, 9, 10, 70, 2, 3, 11, 0, 99, 30, 40, 50];
    var m2 := [3500, 9, 10, 70, 2, 3, 11, 0, 99, 30, 40, 50];
    assert m0[3 := 70] == m1;
    assert m1[0 := 3500] == m2;
    assert Interpret(m0, 0) == Interpret(m1, 4);
    assert Interpret(m1, 4) == Interpret(m2, 8);
  }

  /** `run_intcode` in place: the vector ends as the final memory, which is
      also returned. */
  method RunIntcode(program: array<nat>) returns (r: Result<seq<nat>>)
    modifies program
    ensures r == Interpret(old(program[..]), 0)
    ensures r.Ok? ==> program[..] == r.value
  {
    ghost var start := program[..];
    var pointer := 0;
    while true
      invariant Interpret(start, 0) == Interpret(program[..], pointer)
      decreases program.Length + 4 - pointer
    {
      if pointer >= program.Length {
        return Err(AddressOutOfRange(pointer));
      }
      var opcode := program[pointer];
      if opcode == 99 {
        break;
      }
      if pointer + 1 >= program.Length {
        return Err(AddressOutOfRange(pointer + 1));
      }
      if program[pointer + 1] >= program.Length {
        return Err(AddressOutOfRange(program[pointer + 1]));
      }
      var a := program[program[pointer + 1]];
      if pointer + 2 >= program.Length {
        return Err(AddressOutOfRange(pointer + 2));
      }
      if program[pointer + 2] >= program.Length {
        return Err(AddressOutOfRange(program[pointer + 2]));
      }
      var b := program[program[pointer + 2]];
      if pointer + 3 >= program.Length {
        return Err(AddressOutOfRange(pointer + 3));
      }
      var resultParam := program[pointer + 3];
      var value := DoInstruction(opcode, a, b);
      if value.Err? {
        return Err(value.error);
      }
      if resultParam >= program.Length {
        return Err(AddressOutOfRange(resultParam));
      }
      program[resultParam] := value.value;
      pointer := pointer + 4;
    }
    r := Ok(program[..]);
  }

  /** Cells 1 and 2 (noun and verb) overwritten; fatal when the vector is
      too short for either. */
  function SetNounVerb(memory: seq<nat>, noun: nat, verb: nat): (r: Result<seq<nat>>)
    ensures r.Ok? <==> |memory| >= 3
    ensures r.Ok? ==> |r.value| == |memory| && r.value[1] == noun && r.value[2] == verb
    ensures r.Ok? ==> forall i :: 0 <= i < |memory| && i != 1 && i != 2 ==> r.value[i] == memory[i]
  {
    if |memory| < 2 then Err(AddressOutOfRange(1))
    else if |memory| < 3 then Err(AddressOutOfRange(2))
    else Ok(memory[1 := noun][2 := verb])
  }

  /** `restore_intcode_program`: the "1202 program alarm" state, noun 12 and
      verb 2. A vector too short for cell 2 keeps the write to cell 1. */
  method Restore(program: array<nat>) returns (r: Result<()>)
    modifies program
    ensures var spec := SetNounVerb(old(program[..]), 12, 2);
      && (spec.Ok? ==> r.Ok? && program[..] == spec.value)
      && (spec.Err? ==> r == Err(spec.error))
    ensures program.Length == 2 ==> program[..] == old(program[..])[1 := 12]
    ensures program.Length < 2 ==> program[..] == old(program[..])
  {
    if program.Length < 2 {
      return Err(AddressOutOfRange(1));
    }
    program[1] := 12;
    if program.Length < 3 {
      return Err(AddressOutOfRange(2));
    }
    program[2] := 2;
    r := Ok(());
  }

  /** One trial of `find_noun_verb`: does a fresh copy with this noun and
      verb leave the target in cell 0? */
  function Attempt(original: seq<nat>, noun: nat, verb: nat): (r: Result<bool>)
    ensures r.Err? ==> r.error != NoNounVerb
    ensures r.Ok? ==> |original| >= 3
  {
    match SetNounVerb(original, noun, verb)
    case Err(e) => Err(e)
    case Ok(memory) =>
      match Interpret(memory, 0)
      case Err(e) => Err(e)
      case Ok(final) => Ok(final[0] == TargetOutput)
  }

  /** Search order of `find_noun_verb`: nouns outer, verbs inner. */
  predicate Before(noun: nat, verb: nat, noun': nat, verb': nat) {
    noun < noun' || (noun == noun' && verb < verb')
  }

  /** The search from the trial (`noun`, `verb`) on, both over 0..=99 (a
      verb past 99 moves on to the next noun); the first failing trial is
      fatal. A found pair is in range, hits the target and is not before
      the start. */
  function Search(original: seq<nat>, noun: nat, verb: nat): (r: Result<(nat, nat)>)
    ensures r.Ok? ==> r.value.0 <= 99 && r.value.1 <= 99 && Attempt(original, r.value.0, r.value.1) == Ok(true)
    ensures r.Ok? ==> !Before(r.value.0, r.value.1, noun, verb)
    decreases 100 - noun, 100 - verb
  {
    if noun > 99 then Err(NoNounVerb)
    else if verb > 99 then Search(original, noun + 1, 0)
    else
      match Attempt(original, noun, verb)
      case Err(e) => Err(e)
      case Ok(hit) => if hit then Ok((noun, verb)) else Search(original, noun, verb + 1)
  }

  /** Every trial between the start and a found pair ran and missed: it is
      the first hit in search order. */
  lemma {:induction false} SearchFindsFirst(original: seq<nat>, noun: nat, verb: nat)
    requires Search(original, noun, verb).Ok?
    ensures var (n, v) := Search(original, noun, verb).value;
      forall n', v' :: v' <= 99 && !Before(n', v', noun, verb) && Before(n', v', n, v) ==> Attempt(original, n', v') == Ok(false)
    decreases 100 - noun, 100 - verb
  {
    if verb > 99 {
      SearchFindsFirst(original, noun + 1, 0);
    } else if Attempt(original, noun, verb) == Ok(false) {
      SearchFindsFirst(original, noun, verb + 1);
    }
  }

  /** No pair is reported exactly when every remaining trial ran and
      missed. */
  lemma {:induction false} SearchNoneOnlyIfAllMiss(original: seq<nat>, noun: nat, verb: nat)
    ensures Search(original, noun, verb) == Err(NoNounVerb) <==>
      forall n', v' :: n' <= 99 && v' <= 99 && !Before(n', v', noun, verb) ==> Attempt(original, n', v') == Ok(false)
    decreases 100 - noun, 100 - verb
  {
    if noun <= 99 {
      if verb > 99 {
        SearchNoneOnlyIfAllMiss(original, noun + 1, 0);
      } else {
        SearchNoneOnlyIfAllMiss(original, noun, verb + 1);
      }
    }
  }

  /** `find_noun_verb` on an already parsed program: nested loops over
      noun and verb, each trial on a new copy of `original`. */
  method FindNounVerb(original: seq<nat>) returns (r: Result<(nat, nat)>)
    ensures r == Search(original, 0, 0)
  {
    for noun := 0 to 100
      invariant Search(original, 0, 0) == Search(original, noun, 0)
    {
      for verb := 0 to 100
        invariant Search(original, 0, 0) == Search(original, noun, verb)
      {
        var hit := Trial(original, noun, verb);
        if hit.Err? {
          return Err(hit.error);
        }
        if hit.value {
          return Ok((noun, verb));
        }
      }
    }
    r := Err(NoNounVerb);
  }

  /** The body of `find_noun_verb`'s inner loop: a new copy of `original`
      with the noun and verb set, run in place, checked for the target. */
  method Trial(original: seq<nat>, noun: nat, verb: nat) returns (r: Result<bool>)
    ensures r == Attempt(original, noun, verb)
  {
    var program := new nat[|original|](i requires 0 <= i < |original| => original[i]);
    if program.Length < 2 {
      return Err(AddressOutOfRange(1));
    }
    program[1] := noun;
    if program.Length < 3 {
      return Err(AddressOutOfRange(2));
    }
    program[2] := verb;
    assert program[..] == SetNounVerb(original, noun, verb).value;
    var output := RunIntcode(program);
    if output.Err? {
      return Err(output.error);
    }
    r := Ok(output.value[0] == TargetOutput);
  }
}
