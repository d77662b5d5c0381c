# Advent of Code 2019 in Rust: a verified model

This project models, in Dafny, the core of a set of Rust solutions to the
Advent of Code 2019 puzzles. It also proves what those solutions compute.

The core has three parts.

- **The Intcode virtual machine** (`src/intcode/`):
  - opcode and parameter-mode decoding from the decimal digits of an instruction's first cell;
  - the decoding of an instruction and its parameters;
  - the semantics of the nine instructions;
  - the `Program` object, with its run loop.

  When the opcode is Halt, the loop stops. Otherwise it fetches and decodes the instruction and executes it in place. It then moves the pointer, hands the inputs out in order and collects the outputs in emission order.
- **The day-7 amplifiers** (`src/days/day_7/`). An amplifier owns a program, its own pointer and a pending one-shot phase input. Its run returns after each single output. Amplifiers are chained in series (part 1) or in a round-robin feedback loop (part 2). Each arrangement is maximised over a list of phase settings.
- **The per-day solvers**:
  - day 1: recursive fuel;
  - day 2: the add/multiply-only Intcode and the noun/verb search;
  - day 3: wire walking, crossings, Manhattan distance and combined steps;
  - day 4: the password digit rules and the password count;
  - day 6: orbit paths, the checksum and orbital transfers;
  - day 8: the layered Space Image, its transparency compositing and the layer checksum;
  - day 10 part 1: line of sight through gcd-reduced directions;
  - the decimal `digits` helper in `src/util.rs`.

Code that mutates state is modelled imperatively, and each method is proved
against a specification function.

- `Programs.Program` is a class whose memory is an `array<int>`.
- `Amplifiers.Amplifier` is a class that owns a `Program`.
- `Instructions.Run` and `Instructions.SetResult` write into the memory array in place.

The loops of the remaining code also become methods with invariants:

- `digits`;
- the day 2 interpreter and its search;
- the day 3 wire walk;
- the day 4 predicates;
- `path_to_com`;
- the day 8 `decode` and the layer search;
- the day 10 scans;
- the day 7 drivers.

Pure code, such as decoding, the colour table and fuel, is modelled as functions and lemmas.

Every fatal condition becomes an `Err` carrying a `Fault` that names it:

- a panic;
- an `unwrap` or `expect` on a missing value;
- an `Err` propagated with `?`;
- an out-of-range index.

Modules follow the source files:

- `wrappers.dfy`: `Wrappers` (`Option`, `Result`, `Fault`, `u32`)
- `strings.dfy`: `Strings` (`str::split` and `str::parse::<u32>()`)
- `util.dfy`: `Util` (`src/util.rs`)
- `opcode.dfy`: `Opcodes` (`src/intcode/opcode.rs`)
- `parameter.dfy`: `Parameters` (`src/intcode/parameter.rs`)
- `instruction.dfy`: `Instructions` (`src/intcode/instruction.rs`)
- `program.dfy`: `Programs` (`src/intcode/program.rs`)
- `amplifier.dfy`: `Amplifiers` (`src/days/day_7/amplifier.rs`)
- `day7_1.dfy`, `day7_2.dfy`: `Day7Part1`, `Day7Part2` (`src/days/day_7/`)
- `day1.dfy` … `day10.dfy`: `Day1` … `Day10` (the day solvers)

The repository's source files do not agree with
each other in two places. The model reconciles them as follows.

- **The instruction result.** `Instruction::run` in `instruction.rs` returns an optional pointer and prints the Output value. But `program.rs` and `amplifier.rs` consume an `InstructionResult` record holding an optional jump target and an optional output. The model uses that record (`Instructions.InstructionResult`): Output reports the value it read as `output`, and the jumps report their target as `pointer`.
- **`digit_count`.** It is imported by `opcode.rs` and `parameter.rs` but absent from `util.rs`. It is modelled as the length of `digits(n)` (`Util.DigitCount`).

`Instruction::from` in `program.rs` is `Instruction::from_ints`.

Two design points shape the proofs.

- **Opcode decoding in the run loops.** `Programs.FetchOpcode` decodes the opcode cell as the code formed by its last two digits (`% 100`). Its contract states that this equals `from_first_value` of the cell as a `usize`, so both run loops decode the opcode as the source does.
- **Generic run lemmas.** The inductive lemmas about the run loop are proved once, for a generic loop `Programs.RunWith` parameterised by the instruction semantics. `Programs.RunFromIsRunWith` transfers them to `RunFrom`.

## Model

| member | source | states |
|---|---|---|
| `Util.Digits` | src/util.rs:15-26 | Every digit is at most 9, and the sequence is empty exactly for 0. |
| `Util.DecimalDigits` | src/util.rs:15-26 | The push-`num % 10`-then-reverse loop returns exactly `Digits(num)`, most significant first. |
| `Util.DigitsMagnitude` | src/util.rs:19-25 | For n > 0 the first digit is nonzero, and `10^(len-1) <= n < 10^len`. |
| `Util.FromDigitsOfDigits` | src/util.rs:19-25 | Folding the digits as `acc * 10 + d` gives back n. |
| `Util.DigitFromRight` | src/util.rs:19-21 | The digit k places from the right is `(n / 10^k) % 10`. |
| `Util.DigitCountAtLeast` | src/intcode/opcode.rs:50 | A number has more than k digits exactly when it is at least `10^k`; this is the legacy-branch test of the decoders. |
| `Util.AsUsize` | src/intcode/program.rs:82 | `x as usize` on a 64-bit target: the value itself for 0 <= x < 2^64, and `x + 2^64` for negative x. |
| `Opcodes.FromCode` | src/intcode/opcode.rs:17-30 | Succeeds exactly on 1..8 and 99, with the opcode whose code is the value. Any other value is the fault `InvalidOpcode(value)`. |
| `Opcodes.CodeRoundTrip` | src/intcode/opcode.rs:17-30 | Decoding the code of an opcode gives back that opcode. |
| `Opcodes.ParameterCount` | src/intcode/opcode.rs:34-46 | Halt has 0 parameters; SaveInput and Output have 1; the two jumps have 2; the other opcodes have 3 (each an iff). |
| `Opcodes.FromFirstValue` | src/intcode/opcode.rs:48-58 | Both branches, the one-or-two-digit value and the last-two-digits of a longer one, decode `value % 100`. |
| `Opcodes.LastTwoDigits` | src/intcode/opcode.rs:55-56 | For a number of two or more digits, `last + 10 * second_last` is `value % 100`. |
| `Opcodes.FirstValueExamples` | src/intcode/opcode.rs:54-57 | 1002 decodes to Multiply and 1101 to Add: the mode digits are ignored. |
| `Opcodes.ShortValueExamples` | src/intcode/opcode.rs:50-52 | 99 decodes to Halt. 100 decodes code 0, which is fatal. |
| `Parameters.ModeFromDigit` | src/intcode/parameter.rs:12-18 | Digit 0 is Position and 1 is Immediate (each an iff). Any digit above 1 is the fault `InvalidParameterMode(digit)`. |
| `Parameters.ModeFromFirstValue` | src/intcode/parameter.rs:22-35 | The mode of parameter i is `ParameterMode::from((v / 10^(i+2)) % 10)` for every v and i: a missing digit reads as 0, Position. |
| `Parameters.MissingModeDigitIsPosition` | src/intcode/parameter.rs:24-32 | Too few digits for index i gives Position. |
| `Parameters.ModeExamples` | src/intcode/parameter.rs:28-34 | 1002 gives Position, Immediate, Position for parameters 0, 1, 2. In 1202 the digit 2 is fatal. |
| `Parameters.GetValue` | src/intcode/parameter.rs:44-50 | Immediate mode yields the raw value. Position mode yields `memory[raw]` exactly when raw is an address of memory; otherwise it fails with that address. |
| `Instructions.DecodeParameters` | src/intcode/instruction.rs:19-25 | Succeeds exactly when the cells exist and every mode decodes. Parameter j then has mode j of the first value and raw value `ints[j + 1]`. |
| `Instructions.FromInts` | src/intcode/instruction.rs:15-28 | Succeeds exactly when the opcode decodes, its parameter count is positive (Halt underflows `0..=count-1`), the slice is long enough and every mode decodes. The result then has the opcode of `ints[0] as usize` and exactly `parameter_count` parameters, parameter j being (mode j, `ints[j + 1]`). |
| `Instructions.MapParameterValues` | src/intcode/instruction.rs:30-36 | Every parameter resolves against the same snapshot, in order. The first failing parameter's fault is the result. |
| `Instructions.ThreeOperandSemantics` | src/intcode/instruction.rs:46-55 | Add, Multiply, LessThan and Equals succeed exactly when all three parameters resolve and `raw(p2)` is an address. They then write `Combine(read(p0), read(p1))` to `raw(p2)` and change nothing else. |
| `Instructions.ComparisonWritesFlag` | src/intcode/instruction.rs:101-110 | LessThan and Equals write 1 exactly when the comparison holds, and 0 otherwise. |
| `Instructions.DestinationAliasUsesOldValue` | src/intcode/instruction.rs:47-48 | An Add whose operands and destination are all the same cell writes twice the old value there. |
| `Instructions.JumpSemantics` | src/intcode/instruction.rs:79-100 | JumpIfTrue (`read(p0) != 0`) and JumpIfFalse (`read(p0) == 0`) return `read(p1)` exactly when their condition holds. A negative target is fatal, and memory is unchanged. |
| `Instructions.SaveInputSemantics` | src/intcode/instruction.rs:56-60 | With an input, SaveInput writes it to `raw(p0)` and returns no pointer. An out-of-range destination is fatal. No input is the fault `InputUnavailable`. |
| `Instructions.Execute` | src/intcode/instruction.rs:44-113 | The memory keeps its length. Only Output emits, and it emits `read(p0)`. Only a jump returns a pointer. Output, the jumps and Halt leave memory unchanged. |
| `Instructions.ExecuteWritesOnlyDestination` | src/intcode/instruction.rs:38-41 | Only the cell at the last parameter's raw address can change. |
| `Instructions.SetResult` | src/intcode/instruction.rs:38-41 | Writes the result to the last parameter's raw address in the array, or fails and leaves the array as it was. |
| `Instructions.Run` | src/intcode/instruction.rs:44-113 | Executes in place. The array ends as `Execute`'s memory and the result is `Execute`'s. On failure the array is untouched. |
| `Programs.Padded` | src/intcode/program.rs:23-35 | The memory has length max(|image|, 2000), starts with the image and is zero after it. |
| `Programs.Program.FromImage` | src/intcode/program.rs:20-42 | A fresh memory array holding the padded image, with pointer and relative base 0. |
| `Programs.Program.Clone` | src/intcode/program.rs:12 | `#[derive(Clone)]`: a new program with its own array, the same cells, pointer and relative base. |
| `Programs.Program.Get` | src/intcode/program.rs:46-48 | The cell at the address, and fatal outside memory. |
| `Programs.Program.Set` | src/intcode/program.rs:50-52 | Changes exactly that cell and never the length. Outside memory it is fatal and nothing changes. |
| `Programs.Program.GetCurrent` | src/intcode/program.rs:54-56 | The cell under the pointer, and fatal past the end. |
| `Programs.Program.GetInstruction` | src/intcode/program.rs:58-60 | `from_ints` on the cells `pointer ..= pointer + count`. A slice past the end is fatal. |
| `Programs.FetchInstruction` | src/intcode/program.rs:58-60 | The decoded instruction is well formed. A slice past the end of memory is fatal. |
| `Programs.FetchOpcode` | src/intcode/program.rs:82 | The run loop's opcode is `from_first_value(memory[pointer] as usize)`, and a pointer past the end is fatal. |
| `Programs.Step` | src/intcode/program.rs:62-72 | Fetches and executes one instruction. On success the instruction is well formed, Output is the only emitter, memory keeps its length and the pointer is `NextPointer`. A parameter slice past the end of memory is fatal. |
| `Programs.NextPointer` | src/intcode/program.rs:68-70 | The jump target when there is one, otherwise a pointer past the instruction's parameters. |
| `Programs.RunFrom` | src/intcode/program.rs:78-103 | The run loop as a function: stop on Halt, otherwise `Step` and continue, consuming an input only after SaveInput. Its properties are the `Run…` lemmas below. |
| `Programs.Program.RunInstruction` | src/intcode/program.rs:62-72 | Executes in place. The pointer then moves to the jump target if there is one, else to `pointer + parameter_count + 1`. |
| `Programs.Program.AdjustRelativeBase` | src/intcode/program.rs:74-76 | Adds the value to the relative base and leaves the pointer alone (memory is outside its frame). |
| `Programs.Program.RunTurn` | src/intcode/program.rs:81-99 | One loop turn. On Halt nothing changes and the run from this state is empty. Otherwise the run from the old state is this turn's output followed by the run from the new state, with the input index advanced only after SaveInput. |
| `Programs.Program.Run` | src/intcode/program.rs:78-103 | Returns exactly the outputs of `RunFrom` from the initial state and inputs, in emission order, and ends in its final state. Any fault of the run is returned. |
| `Programs.RunFromIsRunWith` | src/intcode/program.rs:81-99 | The run loop is the generic loop instantiated with the Intcode instruction step. |
| `Programs.RunStopsAtHalt` | src/intcode/program.rs:82-85 | On a Halt cell the run stops at once: nothing executes, no input is read, the state is unchanged and there is no output. |
| `Programs.RunReadsRemainingInputs` | src/intcode/program.rs:88-99 | A run that has already consumed k inputs behaves exactly like a run on `inputs[k..]` from index 0: inputs are consumed in order. |
| `Programs.RunFuelMonotone` | src/intcode/program.rs:81-100 | A finished run is unchanged by more fuel, so the result does not depend on the bound. |
| `Programs.RunEndsAtHalt` | src/intcode/program.rs:81-85 | A finished run stops with the pointer on a Halt cell, and memory keeps its length. |
| `Programs.StepKeepsLength` | src/intcode/program.rs:50-52 | No instruction changes the length of memory. |
| `Amplifiers.InputFor` | src/days/day_7/amplifier.rs:35 | A SaveInput receives the phase while it is pending, and the call's signal afterwards. |
| `Amplifiers.Amplifier.constructor` | src/days/day_7/amplifier.rs:14-20 | Stores the program unchanged, with pointer 0 and the phase pending. |
| `Amplifiers.Amplifier.Turn` | src/days/day_7/amplifier.rs:24-52 | One loop turn. On Halt nothing changes and the run yields no output. Otherwise it executes with `InputFor`, clears the phase after a SaveInput and moves the pointer; the run from the old state is this turn's emission step on the new state. |
| `Amplifiers.Amplifier.Run` | src/days/day_7/amplifier.rs:22-56 | Returns `AmpRun`'s result and ends in its state: the first output (fatal if not a u32) with the pointer past it, or None at Halt. Memory, pointer and phase persist. |
| `Amplifiers.AmpRun` | src/days/day_7/amplifier.rs:22-56 | The amplifier loop as a function: stop with None on Halt, return after the first output, feed the phase first and the signal afterwards. Its properties are the three lemmas below. |
| `Amplifiers.NoOutputMeansHalted` | src/days/day_7/amplifier.rs:23-27 | A run that returns no output stopped with the pointer on a Halt cell. |
| `Amplifiers.HaltedStaysHalted` | src/days/day_7/amplifier.rs:24-27 | After a run returned None, every later run (with any signal and any positive fuel) returns None and changes nothing. |
| `Amplifiers.PhaseIsConsumedOnce` | src/days/day_7/amplifier.rs:38-40 | After a run the phase is either still the old one or cleared, so a cleared phase never returns. |
| `Day7Part1.AmplifierOutput` | src/days/day_7/day_7_1.rs:13-17 | Succeeds exactly when a fresh amplifier's run succeeds with an output, and yields that output. A run without output is the fault `MissingOutput`. |
| `Day7Part1.RunAmplifier` | src/days/day_7/day_7_1.rs:13-17 | Runs an amplifier on a clone of the program and returns `AmplifierOutput` of the program's memory. |
| `Day7Part1.ChainSignal` | src/days/day_7/day_7_1.rs:19-25 | The signal passed through one fresh amplifier per phase, in order, the first failure ending the chain. Its properties are `ChainSignalSplits` and `ChainOfOne`. |
| `Day7Part1.ThrusterSignal` | src/days/day_7/day_7_1.rs:19-25 | The signal starts at 0 and passes through one amplifier per phase, in order: `ChainSignal(memory, phases, 0)`. |
| `Day7Part1.ChainSignalSplits` | src/days/day_7/day_7_1.rs:19-25 | The chain is a left fold: chaining `a + b` is chaining `b` on what `a` produced. |
| `Day7Part1.ChainOfOne` | src/days/day_7/day_7_1.rs:19-25 | A chain of one phase is one amplifier run. |
| `Day7Part1.MaxOver` | src/days/day_7/day_7_1.rs:27-37 | The running maximum with strict `>`: on success it is at least the start value. |
| `Day7Part1.MaxOverIsMaximum` | src/days/day_7/day_7_1.rs:27-37 | The result is at least the start value and at least every candidate's signal. It equals the start value or some candidate's signal. |
| `Day7Part1.MaxOverFailsIffSomeFails` | src/days/day_7/day_7_1.rs:27-37 | The maximisation fails exactly when some candidate's signal fails. |
| `Day7Part1.MaxThrusterSignal` | src/days/day_7/day_7_1.rs:27-37 | The running maximum, from 0, of the thruster signals of the candidate phase lists. |
| `Day7Part2.FreshStates` | src/days/day_7/day_7_2.rs:19-22 | One amplifier state per phase, each with the program's memory, pointer 0 and its phase pending. |
| `Day7Part2.NewAmplifiers` | src/days/day_7/day_7_2.rs:19-22 | One fresh amplifier per phase, each with its own fresh copy of the memory, pairwise independent, whose states are `FreshStates`. |
| `Day7Part2.Feedback` | src/days/day_7/day_7_2.rs:33-47 | The round-robin loop as a function: amplifier i runs on the signal, a halt ends the loop with the signal it was given, and after the last amplifier the first runs again. Its properties are the lemmas below. |
| `Day7Part2.FirstHaltGivesZero` | src/days/day_7/day_7_2.rs:34-44 | If the first amplifier halts at once, the loop yields the initial signal 0. |
| `Day7Part2.FirstRoundIsChain` | src/days/day_7/day_7_2.rs:36-45 | When the serial chain of part 1 yields v on the fresh amplifiers, the first round of the feedback loop ends with signal v. |
| `Day7Part2.FeedbackRoundsMonotone` | src/days/day_7/day_7_2.rs:36-46 | A loop that ended within some number of rounds gives the same result with more rounds allowed. |
| `Day7Part2.Advance` | src/days/day_7/day_7_2.rs:38-44 | Amplifier i runs on the current signal. A fault is fatal and None ends the loop with the current signal. An output becomes the next signal, and the loop continues at i + 1 from the updated states. |
| `Day7Part2.RunRound` | src/days/day_7/day_7_2.rs:37-45 | One pass of the `for` over the amplifiers in list order: it either ends the loop with its result, or continues it with the next round's signal. |
| `Day7Part2.RunFeedbackLoop` | src/days/day_7/day_7_2.rs:33-47 | Starting from signal 0 and driving the amplifiers round-robin, returns `Feedback` of their initial states. |
| `Day7Part2.MaxThrusterSignal` | src/days/day_7/day_7_2.rs:16-31 | The running maximum, from 0, of the feedback results on fresh clones for each candidate phase list. |
| `Day2.DoInstruction` | src/days/day_2.rs:20-26 | Opcode 1 adds and opcode 2 multiplies. Anything else is the fault `InvalidOpcode` (success is an iff). |
| `Day2.Read` | src/days/day_2.rs:36 | Indexing the vector gives the cell, and is fatal outside it. |
| `Day2.Interpret` | src/days/day_2.rs:28-44 | A finished run keeps the memory's length. Its only faults are a missing cell and a bad opcode. |
| `Day2.InterpretEndsAtHalt` | src/days/day_2.rs:28-44 | A finished run stopped on a 99 cell a whole number of 4-cell instructions after the start. |
| `Day2.InterpretExamples` | src/days/day_2.rs:28-44 | `[1,0,0,0,99]` runs to `[2,0,0,0,99]`, and `[1,9,10,3,2,3,11,0,99,30,40,50]` runs to `[3500,9,10,70,2,3,11,0,99,30,40,50]`. |
| `Day2.RunIntcode` | src/days/day_2.rs:28-44 | The in-place pointer loop returns `Interpret` of the initial vector. On success the vector is the returned final memory. |
| `Day2.SetNounVerb` | src/days/day_2.rs:52-53 | Cells 1 and 2 become noun and verb and every other cell is kept. A vector shorter than 3 is fatal. |
| `Day2.Restore` | src/days/day_2.rs:15-18 | Writes 12 to cell 1 and 2 to cell 2 and nothing else. A vector of length 2 keeps the first write before failing. |
| `Day2.Attempt` | src/days/day_2.rs:51-55 | One trial on a fresh copy. It succeeds only on a vector of at least 3 cells, and its faults are those of `SetNounVerb` and `Interpret`, never `NoNounVerb`. |
| `Day2.Trial` | src/days/day_2.rs:51-55 | The in-place trial on a new array computes `Attempt`. |
| `Day2.Search` | src/days/day_2.rs:46-61 | A found pair is in 0..=99 × 0..=99, hits 19690720, and does not come before the starting pair in noun-then-verb order. |
| `Day2.SearchFindsFirst` | src/days/day_2.rs:47-62 | Every pair between the starting pair and the found one, in noun-then-verb order, ran and missed. |
| `Day2.SearchNoneOnlyIfAllMiss` | src/days/day_2.rs:47-62 | The search reports no pair exactly when every pair ran and missed. |
| `Day2.FindNounVerb` | src/days/day_2.rs:47-62 | The nested loops over fresh copies compute `Search` from (0, 0). |
| `Day1.ModuleFuel` | src/days/day_1.rs:15-22 | The fuel is 0 exactly when `mass / 3 <= 2`, and never exceeds half the mass (so the u32 additions cannot overflow). |
| `Day1.FuelOfFuel` | src/days/day_1.rs:20-21 | Otherwise it is `(m/3 - 2) + fuel(m/3 - 2)`, which is at least `m/3 - 2`. |
| `Day1.TotalFuel` | src/days/day_1.rs:26-31 | The sum over the modules is at most half the total mass. |
| `Day1.ModuleFuelSmallExamples` | src/days/day_1.rs:15-22 | 12 → 2, 14 → 2, 1969 → 966. |
| `Day1.ModuleFuelLargeExample` | src/days/day_1.rs:15-22 | 100756 → 50346. |
| `Day1.TotalFuelSplits` | src/days/day_1.rs:26-31 | The total is additive over any split of the module list. |
| `Day1.TotalFuelBounds` | src/days/day_1.rs:26-31 | Each module's fuel is at most the total. |
| `Day4.MatchingAdjacentDigits` | src/days/day_4.rs:7-18 | The loop returns true exactly when some digit equals the one before it. |
| `Day4.ExactlyTwoMatchingAdjacentDigits` | src/days/day_4.rs:20-37 | The run-counting loop returns true exactly when some maximal run of equal digits has length exactly 2. |
| `Day4.DigitsDoNotDecrease` | src/days/day_4.rs:39-50 | The loop returns true exactly when the digits never decrease. |
| `Day4.IsolatedPairIsAdjacentPair` | src/days/day_4.rs:7-37 | A run of exactly two equal digits implies an adjacent pair. |
| `Day4.MeetsCriteria` | src/days/day_4.rs:52-54 | The conjunction of the exactly-two rule and the order rule. |
| `Day4.DigitsExample` | src/util.rs:15-26 | `digits(112233)` is `[1,1,2,2,3,3]`. |
| `Day4.SecondExampleDigits` | src/util.rs:15-26 | `digits(111122)` is `[1,1,1,1,2,2]`. |
| `Day4.MeetsFirstExample` | src/days/day_4.rs:52-54 | 112233 meets the criteria. |
| `Day4.MeetsSecondExample` | src/days/day_4.rs:52-54 | 111122 meets the criteria: its pair of 2s is a run of exactly two. |
| `Day4.FailsExample` | src/days/day_4.rs:52-54 | 123444 fails: its only run is three long. |
| `Day4.CountIsCardinality` | src/days/day_4.rs:56-60 | The filter/count over `lo..=hi` is the size of the set of numbers in range that satisfy the predicate. |
| `Day4.PasswordCountIsCardinality` | src/days/day_4.rs:56-60 | The password count is the number of n in 134564..=585159 meeting the criteria. |
| `Day4.PossiblePasswordsCount` | src/days/day_4.rs:56-60 | The loop over 134564..=585159 computes that count. |
| `Day3.ParseSegment` | src/days/day_3.rs:19-28 | Succeeds exactly when the first character is U, D, L or R and the rest parses as a u32. The result has that letter and that distance. An empty segment is `EmptySegment`, and a bad number is `InvalidDistance` even before the letter is checked. |
| `Day3.ParseSegments` | src/days/day_3.rs:16-31 | The `collect` into a `Result`: one direction per segment, in order. |
| `Day3.ParseWirePath` | src/days/day_3.rs:15-32 | On success there is one direction per comma-separated piece, piece i parsing to direction i. |
| `Day3.ReadWirePaths` | src/days/day_3.rs:34-47 | With at least two lines, the two wires are the first two lines parsed, and a parse fault of the first line is reported. Fewer lines is the fault `MissingWire`. |
| `Day3.ParseShowSegment` | src/days/day_3.rs:20-28 | Parsing the rendering of a segment gives it back. |
| `Day3.ParseShowWirePath` | src/days/day_3.rs:15-32 | Parsing the comma-joined rendering of a non-empty wire gives it back. |
| `Day3.ReadShownWires` | src/days/day_3.rs:34-47 | Two rendered wires, followed by any lines, read back as themselves. |
| `Day3.StepOf` | src/days/day_3.rs:56-79 | Each direction moves exactly one unit along one axis. |
| `Day3.Segment` | src/days/day_3.rs:54-81 | A segment covers one point per unit of its distance. |
| `Day3.Walk` | src/days/day_3.rs:49-84 | The number of points of a wire is the sum of its distances. |
| `Day3.WalkChained` | src/days/day_3.rs:50-80 | The points form a path of unit steps starting one step from the origin, and the origin itself is not included. |
| `Day3.WirePoints` | src/days/day_3.rs:49-84 | The nested loops over `x`, `y` and `cords` produce exactly `Walk(Origin, wire)`. |
| `Day3.WalkSegment` | src/days/day_3.rs:56-79 | An inner loop appends the segment's points and ends at the segment's end point. |
| `Day3.ManhattanDistance` | src/days/day_3.rs:93-95 | `|x| + |y|`, which is 0 exactly at the origin. |
| `Day3.Intersections` | src/days/day_3.rs:86-90 | Exactly the points on both wires. |
| `Day3.FirstIndex` | src/days/day_3.rs:129-136 | `position`: an index of the point, with no earlier occurrence. |
| `Day3.DistanceWithinSteps` | src/days/day_3.rs:128-138 | A crossing is strictly closer to the port than the combined steps (first index + first index + 2) to it. |
| `Day3.ClosestWireIntersection` | src/days/day_3.rs:97-119 | Returns a crossing of minimal Manhattan distance, whatever the iteration order. It fails with `NoIntersection` exactly when no crossing is nearer than `u32::MAX`. |
| `Day3.TotalStepsToIntersections` | src/days/day_3.rs:121-141 | Exactly one entry per crossing: the entries line up with a duplicate-free listing of the crossings, entry j being the combined steps to crossing j. |
| `Day3.StepsOfEach` | src/days/day_3.rs:126-140 | The `map` over the crossing set, in any order: one entry per crossing, the crossings listed without repeats, entry j being the combined steps to crossing j. |
| `Day3.MinOf` | src/days/day_3.rs:146 | The minimum is an element and a lower bound of all elements. |
| `Day3.LowestStepsToIntersection` | src/days/day_3.rs:143-147 | The fewest combined steps to any crossing, attained by some crossing. With no crossing it is fatal. |
| `Day6.AddOrbit` | src/days/day_6.rs:22-29 | A line `A)B` makes B orbit A and adds A as a root only if A is absent. Every other entry is kept. A line without `)` is fatal. |
| `Day6.AddOrbitKeepsClosed` | src/days/day_6.rs:25-29 | Adding an orbit keeps every recorded parent an object of the map. |
| `Day6.ParseLinesMeaning` | src/days/day_6.rs:18-33 | Parsing fails exactly on a line without `)`. Otherwise the map is closed and holds both objects of every line. |
| `Day6.ParseOrbitMap` | src/days/day_6.rs:18-33 | The loop over the lines folds them into the map in order. |
| `Day6.Climb` | src/days/day_6.rs:47-50 | The climb from a parent lists at most `fuel` objects of the map, starting with that parent, and is empty exactly from a root. Its only faults are `CyclicOrbitMap` and `MissingObject`. |
| `Day6.Ancestors` | src/days/day_6.rs:43-53 | An object outside the map is `MissingObject` (the first `unwrap`). A path has at most as many entries as the map, all of them objects of the map. |
| `Day6.PathToCom` | src/days/day_6.rs:43-53 | The `while` loop pushing each parent in turn computes `Ancestors`. |
| `Day6.AncestorsAreParentChain` | src/days/day_6.rs:43-53 | The first entry is the object's parent, each entry's parent is the next and the last entry is a root. A root's path is empty. |
| `Day6.AncestorsAreDistinct` | src/days/day_6.rs:45-50 | A successful path never visits an object twice. |
| `Day6.AncestorsExcludeObject` | src/days/day_6.rs:42-53 | The path does not contain the object itself. |
| `Day6.ClosedClimbNeverMisses` | src/days/day_6.rs:45-50 | In a map whose parents are all objects, no climb meets a missing parent. |
| `Day6.Checksum` | src/days/day_6.rs:35-40 | Fails exactly when some object's path fails, and then with that path's fault. A success is the sum of the path lengths over all objects (`SumPathLengths`). |
| `Day6.SumPathLengthsAnyKey` | src/days/day_6.rs:35-40 | The sum does not depend on the order of the keys: any key can be taken first. |
| `Day6.ChecksumExample` | src/days/day_6.rs:35-40 | `COM)B`, `B)C` has checksum 3. |
| `Day6.CommonSuffixLength` | src/days/day_6.rs:61-66 | The shared length is at most the length of either path. |
| `Day6.CommonSuffixIsShared` | src/days/day_6.rs:61-66 | The `take_while` count over the reversed paths is the unique n with n trailing matches and a mismatch just before them. |
| `Day6.Transfers` | src/days/day_6.rs:55-71 | Succeeds exactly when both paths do, the start's fault first, and never exceeds the two path lengths together. |
| `Day6.TransfersSymmetric` | src/days/day_6.rs:55-71 | The transfer count does not depend on which end is the start. |
| `Day6.TransferToParent` | src/days/day_6.rs:55-71 | From an object to its parent is one transfer. |
| `Day6.TransferToSelf` | src/days/day_6.rs:55-71 | From an object to itself is zero transfers. |
| `Day6.MinOrbitalTransfers` | src/days/day_6.rs:55-71 | Computed with `PathToCom`: both path lengths minus twice the common suffix. |
| `Day8.ColorFrom` | src/days/day_8/space_image.rs:13-20 | 0, 1 and 2 are Black, White and Transparent (each an iff). Any other digit is fatal. |
| `Day8.ColorFromDigitOf` | src/days/day_8/space_image.rs:13-20 | Each colour is read back from its digit. |
| `Day8.Colors` | src/days/day_8/space_image.rs:52-56 | Succeeds exactly when every digit is at most 2, with one colour per digit, pointwise. Otherwise the first invalid digit is reported. |
| `Day8.ColorsOfEach` | src/days/day_8/space_image.rs:52-56 | Colours given pointwise are the colour mapping: the mapping is unique. |
| `Day8.Chunks` | src/days/day_8/space_image.rs:45 | `chunks_exact` of `count * size` pixels gives `count` layers of `size` pixels. |
| `Day8.ChunkContents` | src/days/day_8/space_image.rs:45 | Layer k is `pixels[k * size .. (k + 1) * size]`. |
| `Day8.FromDigits` | src/days/day_8/space_image.rs:44-65 | A zero layer size is fatal. A remainder is `DimensionMismatch` (an iff). Otherwise it succeeds exactly when every digit is a colour, with `len / (w*h)` well-formed layers, and reports the first bad digit on failure. |
| `Day8.FromDigitsChunks` | src/days/day_8/space_image.rs:50-58 | On success the layers are the chunks of the colour mapping. |
| `Day8.LayerContents` | src/days/day_8/space_image.rs:50-58 | Pixel i of layer k is the colour of digit `k * w * h + i`. |
| `Day8.Composite` | src/days/day_8/space_image.rs:78-90 | A composite pixel is transparent or the colour of some layer at that pixel. |
| `Day8.CompositeIsFirstVisible` | src/days/day_8/space_image.rs:78-90 | A decoded pixel is the colour, at that pixel, of the first layer that is not transparent there. It is transparent exactly when every layer is. |
| `Day8.CompositeOfOneLayer` | src/days/day_8/space_image.rs:81-87 | A single layer decodes to itself. |
| `Day8.Decode` | src/days/day_8/space_image.rs:78-90 | The nested loops over a transparent buffer yield w*h pixels, pixel i being the composite at i. |
| `Day8.Paint` | src/days/day_8/space_image.rs:82-86 | One layer over the buffer fills exactly the transparent pixels. |
| `Day8.CompositeExample` | src/days/day_8/space_image.rs:78-90 | The four 2 by 2 layers of `0222112222120000` composite to black, white, white, black. |
| `Day8.FromDigitsExample` | src/days/day_8/space_image.rs:44-65 | `123456789012` as a 3 by 2 image fails on its digit 3. |
| `Day8.Count` | src/days/day_8/mod.rs:34-38 | The `filter(...).count()` of a colour is at most the layer's size. |
| `Day8.CountZero` | src/days/day_8/mod.rs:34-38 | A count of zero means no pixel of that colour, and back. |
| `Day8.CountsPartition` | src/days/day_8/mod.rs:16-21 | A layer's black, white and transparent counts add up to its size. |
| `Day8.FindLayerFewestZeroes` | src/days/day_8/mod.rs:29-49 | Returns a copy of a layer with the fewest black pixels, the earliest on ties (strict `<`). It fails with `NoLayer` exactly when every layer has more than w*h black pixels. |
| `Day8.NoLayerOnlyWhenEmpty` | src/days/day_8/mod.rs:30-48 | For a well-formed image that failure happens exactly when there are no layers. |
| `Day8.ImageChecksum` | src/days/day_8/mod.rs:15-23 | White count times transparent count of a layer with the fewest black pixels. |
| `Day10.Sub` | src/days/day_10/mod.rs:22-27 | Coordinate-wise subtraction, which is zero exactly for equal positions. |
| `Day10.TruncDiv` | src/days/day_10/mod.rs:33-38 | `isize` division: the quotient's magnitude is the quotient of the magnitudes, and its sign is the product of the signs. |
| `Day10.Div` | src/days/day_10/mod.rs:30-39 | A positive divisor of both coordinates divides exactly: scaling the result back gives the position. |
| `Day10.Gcd` | src/days/day_10/mod.rs:84 | The gcd is 0 only for two zeros, and otherwise divides both. |
| `Day10.GcdGreatest` | src/days/day_10/mod.rs:84 | Every common divisor divides the gcd. |
| `Day10.Dir` | src/days/day_10/mod.rs:83-84 | The reduced direction is non-zero, and scaled back by the gcd it is the difference. |
| `Day10.DirOfMultiple` | src/days/day_10/mod.rs:83-84 | A positive multiple of a difference has the same reduced direction. |
| `Day10.DirIffSameRay` | src/days/day_10/mod.rs:83-88 | Two differences have the same reduced direction exactly when they lie on the same ray. |
| `Day10.DirExamples` | src/days/day_10/mod.rs:83-84 | (4,-6) → (2,-3), (0,-5) → (0,-1), (-3,0) → (-1,0). |
| `Day10.DirectionsCount` | src/days/day_10/mod.rs:85-88 | A set with one asteroid per direction has as many members as directions. |
| `Day10.Visible` | src/days/day_10/mod.rs:99-101 | The number of distinct reduced directions to the other asteroids. Its properties are `DirectionsCount`, `VisibleZeroIffAlone` and `FindReachable`. |
| `Day10.VisibleZeroIffAlone` | src/days/day_10/mod.rs:94-107 | A station sees nothing exactly when it is the only asteroid. |
| `Day10.Utf8Len` | src/days/day_10/mod.rs:61 | A character takes 1 to 4 bytes, and 1 exactly for ASCII. |
| `Day10.ByteOffset` | src/days/day_10/mod.rs:61 | The `char_indices` index of character i is between i and 4i. |
| `Day10.ByteOffsetStrict` | src/days/day_10/mod.rs:61 | Offsets grow strictly along the line. |
| `Day10.AsciiByteOffset` | src/days/day_10/mod.rs:61 | On an ASCII line the offset is the character index. |
| `Day10.ByteOffsetExample` | src/days/day_10/mod.rs:61-67 | In `é#` the asteroid is at x = 2, not 1. |
| `Day10.ParseAsteroidMap` | src/days/day_10/mod.rs:57-72 | A position (x, y) is in the set exactly when line y has a `#` whose byte offset is x. |
| `Day10.FindReachable` | src/days/day_10/mod.rs:74-92 | In any iteration order the result is a subset of the asteroids without the station, with one asteroid per reduced direction and every direction represented. Its size is the number of distinct directions. |
| `Day10.BestLocation` | src/days/day_10/mod.rs:94-107 | Returns an asteroid and its positive, maximal visible count. Returns None exactly when no asteroid sees another (including an empty map). |
| `Strings.Split` | src/days/day_3.rs:18 | `str::split` gives at least one piece. |
| `Strings.SplitPiecesAreFree` | src/days/day_3.rs:18 | No piece contains the separator. |
| `Strings.JoinSplit` | src/days/day_3.rs:18 | Joining the pieces with the separator gives the string back. |
| `Strings.SplitJoin` | src/days/day_3.rs:18 | Splitting a join of separator-free pieces gives the pieces back. |
| `Strings.ParseU32` | src/days/day_3.rs:21 | Only a non-empty string can parse. Its partner `ParseShowU32` proves that every u32 reads back from its rendering. |
| `Strings.ParseShowU32` | src/days/day_3.rs:21 | Every u32 survives rendering and parsing. |
| `Strings.ParseU32Examples` | src/days/day_3.rs:21 | The empty string, a lone `+`, `-1` and `x1` do not parse. `+12` parses to 12. |

## Left out

- File and console I/O is not modelled. This covers `read_lines`, `fs::read_to_string`, `parse_module_masses`, `parse_intcode_program`, parsing of `Program::from`'s text and of `SpaceImage::from_file`'s digits, and the `run_day_*` drivers. The model starts from already-read lines, masses, digits or cells.
- All printing is left out, including `Color::render` and `SpaceImage::render`. Output values are returned instead (the record described above).
- The interactive stdin fallback of SaveInput is not modelled. A SaveInput without a supplied input fails with `InputUnavailable`.
- `src/main.rs`, `src/days/day_5.rs` and `src/days/day_9.rs` only call the VM with literal inputs and print, so they are not part of this model.
- `src/days/day_10/day_10_2.rs` orders asteroids with `f32::atan2` and float sorting; floating point is not modelled.
- `itertools::permutations` is not modelled. `Day7Part1.MaxThrusterSignal` and `Day7Part2.MaxThrusterSignal` take the list of phase settings as a parameter, and their maximality is proved for whatever list is given.
- HashSet and HashMap iteration order is not modelled. The day 3, 6 and 10 loops pick elements in an arbitrary order (`:|`). Their results are stated independently of the order: minima, counts and membership. The order of `TotalStepsToIntersections`' entries is unspecified.
- Non-termination is bounded by fuel.
  - `Programs.Program.Run`: its runs are bounded by a fuel count of loop turns. Running out is the fault `OutOfFuel`, where the source would loop without end.
  - `Amplifiers.Amplifier.Run`: its runs are bounded in the same way.
  - `Day7Part2.RunFeedbackLoop`: its outer `loop` is bounded by `rounds`.
- Day6.PathToCom: a climb longer than the map's size fails with `CyclicOrbitMap`, where the source loops on a cyclic map. That an acyclic map never reaches this bound is not proved.
- Machine integer widths are not modelled, except where stated below.
  - isize, usize and i32 arithmetic is unbounded: the Intcode Add and Multiply, the day 2 interpreter, and the day 3 and day 10 coordinates.
  - Overflow (a panic in debug builds) is not modelled.
  - `as usize` on the opcode cell is modelled exactly (`Util.AsUsize`).
  - A negative Position address is out of range.
- Day6.Checksum: `len() as u32` and the u32 `sum` are unbounded here. The cast would truncate silently and the sum would panic in debug builds; with a map of fewer than 2^16 objects neither can happen.
- Day6.Transfers: the final `as u32` of `min_orbital_transfers` is not modelled. It would truncate silently, but the value is at most the two path lengths, so it cannot exceed the map's size.
- Day8.FindLayerFewestZeroes: the starting bound `width * height + 1` is unbounded here, where the usize product could overflow.
- Day1.TotalFuel: the u32 `sum` is a mathematical sum, so a total above `u32::MAX` (a panic in debug builds) is not modelled. `ModuleFuel` itself is proved to stay within u32.
- Relative mode, an AdjustRelativeBase opcode and auto-growing memory do not exist in `parameter.rs`, `opcode.rs` or `program.rs`. Only the `adjust_relative_base` method is modelled.
- Day8.Decode: requires every layer to have `width * height` pixels, as `FromDigits` guarantees. A longer layer would panic in the source, and this model does not model that.
- Day4.MatchingAdjacentDigits: requires `num > 0`. For 0 the source indexes `digits[0]` of an empty vector and panics.
- Day4.ExactlyTwoMatchingAdjacentDigits: requires `num > 0`, for the same reason.
- Day4.DigitsDoNotDecrease: requires `num > 0`, for the same reason.
- Day4.MeetsCriteria: requires `num > 0`, for the same reason. The count only ever passes 134564..=585159.
- Day3.ParseSegment: `split_at(1)` is taken on characters. A segment whose first character is not ASCII, which panics in the source, is not distinguished.
- Day8.FromDigits: digits are naturals rather than `u8`. A `to_digit(10).unwrap()` failure belongs to file parsing and is not modelled.
