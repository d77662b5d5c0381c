/** Day 7, part 2 (src/days/day_7/day_7_2.rs): the amplifiers form a
    feedback loop, driven round-robin until one of them halts. */
module Day7Part2 {
  import opened Wrappers
  import opened Programs
  import opened Amplifiers
  import opened Day7Part1

  /** `run_feedback_loop` on the amplifiers' states: amplifier `i` runs on
      the latest `signal`; an output becomes the next signal, the first run
      that halts ends the loop with the signal it was given. After the last
      amplifier the loop starts again at the first; `rounds` bounds how
      often (the source loops without bound). */
  function Feedback(states: seq<AmpState>, i: nat, signal: u32, rounds: nat, fuel: nat): Result<u32>
    requires i <= |states|
    decreases rounds, |states| - i
  {
    if i == |states| then
      if rounds == 0 then Err(OutOfFuel) else Feedback(states, 0, signal, rounds - 1, fuel)
    else
      match AmpRun(states[i], signal, fuel)
      case Err(e) => Err(e)
      case Ok((s, out)) => if out.None? then Ok(signal) else Feedback(states[i := s], i + 1, out.value, rounds, fuel)
  }

  /** Amplifiers with the given phases pending, each on its own copy of
      `memory`, pointer 0. */
  function FreshStates(memory: seq<int>, phases: seq<u32>): (states: seq<AmpState>)
    ensures |states| == |phases|
    ensures forall j :: 0 <= j < |phases| ==> states[j] == AmpState(memory, 0, Some(phases[j]))
  {
    seq(|phases|, j requires 0 <= j < |phases| => AmpState(memory, 0, Some(phases[j])))
  }

  /** The feedback result of one phase setting when the loop starts on fresh
      amplifiers with signal 0. */
  function FeedbackSignal(memory: seq<int>, phases: seq<u32>, rounds: nat, fuel: nat): Result<u32> {
    Feedback(FreshStates(memory, phases), 0, 0, rounds, fuel)
  }

  /** If the first amplifier halts at once, the loop yields the initial 0. */
  lemma FirstHaltGivesZero(memory: seq<int>, phases: seq<u32>, rounds: nat, fuel: nat)
    requires |phases| > 0
    requires AmpRun(AmpState(memory, 0, Some(phases[0])), 0, fuel).Ok?
    requires AmpRun(AmpState(memory, 0, Some(phases[0])), 0, fuel).value.1.None?
    ensures FeedbackSignal(memory, phases, rounds, fuel) == Ok(0)
  {
  }

  /** The first round of the feedback loop is the serial chain of part 1:
      when the chain delivers `v`, the loop reaches the end of its first
      round with signal `v`. */
  lemma {:induction false} FirstRoundIsChain(memory: seq<int>, phases: seq<u32>, states: seq<AmpState>, i: nat,
                                             signal: u32, v: u32, rounds: nat, fuel: nat)
    requires i <= |states| == |phases|
    requires forall j :: i <= j < |states| ==> states[j] == AmpState(memory, 0, Some(phases[j]))
    requires ChainSignal(memory, phases[i..], signal, fuel) == Ok(v)
    ensures exists ss: seq<AmpState> :: |ss| == |states| && Feedback(states, i, signal, rounds, fuel) == Feedback(ss, |ss|, v, rounds, fuel)
    decreases |states| - i
  {
    if i == |states| {
      assert phases[i..] == [];
    } else {
      var next := AmplifierOutput(memory, phases[i], signal, fuel).value;
      var s := AmpRun(states[i], signal, fuel).value.0;
      assert phases[i..][1..] == phases[i + 1..];
      FirstRoundIsChain(memory, phases, states[i := s], i + 1, next, v, rounds, fuel);
    }
  }

  /** Fuel monotonicity of the loop bound: a loop that ends within
      `rounds` rounds ends the same way with any larger bound. */
  lemma {:induction false} FeedbackRoundsMonotone(states: seq<AmpState>, i: nat, signal: u32, rounds: nat, more: nat, fuel: nat)
    requires i <= |states|
    requires rounds <= more
    requires Feedback(states, i, signal, rounds, fuel).Ok?
    ensures Feedback(states, i, signal, more, fuel) == Feedback(states, i, signal, rounds, fuel)
    decreases rounds, |states| - i
  {
    if i == |states| {
      FeedbackRoundsMonotone(states, 0, signal, rounds - 1, more - 1, fuel);
    } else {
      match AmpRun(states[i], signal, fuel)
      case Err(_) =>
      case Ok((s, out)) =>
        if out.Some? {
          FeedbackRoundsMonotone(states[i := s], i + 1, out.value, rounds, more, fuel);
        }
    }
  }

  /** The amplifiers' current states, in list order. */
  function States(amps: seq<Amplifier>): (states: seq<AmpState>)
    reads set a | a in amps, set a | a in amps :: a.program, set a | a in amps :: a.program.memory
    ensures |states| == |amps|
    ensures forall j :: 0 <= j < |amps| ==> states[j] == amps[j].State()
  {
    if amps == [] then [] else [amps[0].State()] + States(amps[1..])
  }

  /** Distinct amplifiers, each owning a memory no other one shares. */
  predicate Independent(amps: seq<Amplifier>)
    reads set a | a in amps, set a | a in amps :: a.program
  {
    forall i, j :: 0 <= i < j < |amps| ==> amps[i] != amps[j] && amps[i].program.memory != amps[j].program.memory
  }

  /** `states` are the current states of `amps`, in order. */
  ghost predicate Mirrors(amps: seq<Amplifier>, states: seq<AmpState>)
    reads set a | a in amps, set a | a in amps :: a.program, set a | a in amps :: a.program.memory
  {
    |states| == |amps| && forall j :: 0 <= j < |amps| ==> amps[j].State() == states[j]
  }

  /** One step of `run_feedback_loop`'s inner loop: amplifier `i` runs on
      `signal`; the loop from the states before is that step followed by the
      loop from the states after. */
  method Advance(amps: seq<Amplifier>, i: nat, signal: u32, ghost current: seq<AmpState>, ghost rounds: nat, fuel: nat)
      returns (output: Result<Option<u32>>, ghost next: seq<AmpState>)
    requires Independent(amps) && i < |amps| == |current|
    requires Mirrors(amps, current)
    modifies amps[i], amps[i].program.memory
    ensures Mirrors(amps, next)
    ensures output.Err? ==> Feedback(current, i, signal, rounds, fuel) == Err(output.error)
    ensures output == Ok(None) ==> Feedback(current, i, signal, rounds, fuel) == Ok(signal)
    ensures output.Ok? && output.value.Some? ==>
      Feedback(current, i, signal, rounds, fuel) == Feedback(next, i + 1, output.value.value, rounds, fuel)
  {
    output := amps[i].Run(signal, fuel);
    next := current[i := amps[i].State()];
  }

  /** One round of `run_feedback_loop`'s `for`: the amplifiers from the
      first to the last, or up to the first that halts (`finished`, with the
      loop's result in `r`). A completed round hands the last output on. */
  method RunRound(amps: seq<Amplifier>, signal: u32, ghost current: seq<AmpState>, ghost rounds: nat, fuel: nat)
      returns (r: Result<u32>, finished: bool, ghost next: seq<AmpState>)
    requires Independent(amps) && |amps| == |current|
    requires Mirrors(amps, current)
    modifies set a | a in amps, set a | a in amps :: a.program.memory
    ensures Mirrors(amps, next)
    ensures finished ==> Feedback(current, 0, signal, rounds, fuel) == r
    ensures !finished ==> r.Ok? && Feedback(current, 0, signal, rounds, fuel) == Feedback(next, |next|, r.value, rounds, fuel)
  {
    next := current;
    var latest := signal;
    for i := 0 to |amps|
      invariant Mirrors(amps, next)
      invariant Feedback(current, 0, signal, rounds, fuel) == Feedback(next, i, latest, rounds, fuel)
    {
      var output;
      output, next := Advance(amps, i, latest, next, rounds, fuel);
      if output.Err? {
        return Err(output.error), true, next;
      }
      if output.value.None? {
        return Ok(latest), true, next;
      }
      latest := output.value.value;
    }
    return Ok(latest), false, next;
  }

  /** `run_feedback_loop`: the signal starts at 0 and the amplifiers run in
      turn until one of them halts. */
  method RunFeedbackLoop(amps: seq<Amplifier>, rounds: nat, fuel: nat) returns (r: Result<u32>)
    requires Independent(amps)
    modifies set a | a in amps, set a | a in amps :: a.program.memory
    ensures r == Feedback(old(States(amps)), 0, 0, rounds, fuel)
  {
    ghost var start := States(amps);
    ghost var current := start;
    var signal: u32 := 0;
    var roundsLeft := rounds;
    while true
      invariant Mirrors(amps, current)
      invariant Feedback(start, 0, 0, rounds, fuel) == Feedback(current, 0, signal, roundsLeft, fuel)
      decreases roundsLeft
    {
      var result, finished;
      result, finished, current := RunRound(amps, signal, current, roundsLeft, fuel);
      if finished {
        return result;
      }
      if roundsLeft == 0 {
        return Err(OutOfFuel);
      }
      signal := result.value;
      roundsLeft := roundsLeft - 1;
    }
  }

  /** Each candidate's signal in part 2: the feedback loop on fresh
      amplifiers. */
  function FeedbackFromZero(memory: seq<int>, rounds: nat, fuel: nat): seq<u32> -> Result<u32> {
    phases => FeedbackSignal(memory, phases, rounds, fuel)
  }

  /** `max_thruster_signal` over an explicit list of phase settings (the
      permutations of 5..=9 in the source): every candidate gets new
      amplifiers on new copies of `program`. */
  method MaxThrusterSignal(program: Program, candidates: seq<seq<u32>>, rounds: nat, fuel: nat) returns (r: Result<u32>)
    ensures r == MaxOver(FeedbackFromZero(program.memory[..], rounds, fuel), candidates, 0)
  {
    ghost var memory := program.memory[..];
    var highest: u32 := 0;
    for i := 0 to |candidates|
      invariant program.memory[..] == memory
      invariant MaxOver(FeedbackFromZero(memory, rounds, fuel), candidates, 0)
             == MaxOver(FeedbackFromZero(memory, rounds, fuel), candidates[i..], highest)
    {
      assert candidates[i..][1..] == candidates[i + 1..];
      var amps := NewAmplifiers(program, candidates[i]);
      var signal := RunFeedbackLoop(amps, rounds, fuel);
      if signal.Err? {
        return Err(signal.error);
      }
      if signal.value > highest {
        highest := signal.value;
      }
    }
    assert candidates[|candidates|..] == [];
    r := Ok(highest);
  }

  /** The `map`/`collect` of `max_thruster_signal`: one new amplifier per
      phase, each on a new clone of `program`. */
  method NewAmplifiers(program: Program, phases: seq<u32>) returns (amps: seq<Amplifier>)
    ensures |amps| == |phases| && Independent(amps)
    ensures forall j :: 0 <= j < |amps| ==> fresh(amps[j]) && fresh(amps[j].program.memory)
    ensures States(amps) == FreshStates(program.memory[..], phases)
  {
    amps := [];
    for i := 0 to |phases|
      invariant |amps| == i && Independent(amps)
      invariant forall j :: 0 <= j < i ==> fresh(amps[j]) && fresh(amps[j].program.memory)
      invariant forall j :: 0 <= j < i ==> amps[j].State() == AmpState(program.memory[..], 0, Some(phases[j]))
    {
      var copy := program.Clone();
      var amp := new Amplifier(copy, phases[i]);
      amps := amps + [amp];
    }
  }
}
