/** Day 7, part 1 (src/days/day_7/day_7_1.rs): five amplifiers in series,
    each a fresh copy of the same program, and the highest thruster signal
    over a list of phase settings. */
module Day7Part1 {
  import opened Wrappers
  import opened Programs
  import opened Amplifiers

  /** `run_amplifier` as a function of the program's memory: a new
      amplifier with `phase` pending is run once on `signal`; a run that
      halts without output is fatal. */
  function AmplifierOutput(memory: seq<int>, phase: u32, signal: u32, fuel: nat): (r: Result<u32>)
    ensures r.Ok? <==> AmpRun(AmpState(memory, 0, Some(phase)), signal, fuel).Ok?
                       && AmpRun(AmpState(memory, 0, Some(phase)), signal, fuel).value.1.Some?
    ensures r.Ok? ==> AmpRun(AmpState(memory, 0, Some(phase)), signal, fuel).value.1 == Some(r.value)
  {
    match AmpRun(AmpState(memory, 0, Some(phase)), signal, fuel)
    case Err(e) => Err(e)
    case Ok((_, out)) => if out.Some? then Ok(out.value) else Err(MissingOutput)
  }

  /** The signal leaving a chain of amplifiers whose phases are `phases`,
      when `signal` enters the first one; the first failure ends the chain. */
  function ChainSignal(memory: seq<int>, phases: seq<u32>, signal: u32, fuel: nat): Result<u32>
    decreases |phases|
  {
    if phases == [] then Ok(signal)
    else
      match AmplifierOutput(memory, phases[0], signal, fuel)
      case Err(e) => Err(e)
      case Ok(next) => ChainSignal(memory, phases[1..], next, fuel)
  }

  /** Chaining is a left fold: running `a ++ b` is running `b` on what `a`
      produced. */
  lemma {:induction false} ChainSignalSplits(memory: seq<int>, a: seq<u32>, b: seq<u32>, signal: u32, fuel: nat)
    ensures ChainSignal(memory, a + b, signal, fuel) ==
      match ChainSignal(memory, a, signal, fuel)
      case Err(e) => Err(e)
      case Ok(mid) => ChainSignal(memory, b, mid, fuel)
    decreases |a|
  {
    if a == [] {
      assert a + b == b;
    } else {
      assert (a + b)[1..] == a[1..] + b;
      match AmplifierOutput(memory, a[0], signal, fuel)
      case Err(_) =>
      case Ok(next) => ChainSignalSplits(memory, a[1..], b, next, fuel);
    }
  }

  /** A single phase is a single amplifier run. */
  lemma ChainOfOne(memory: seq<int>, phase: u32, signal: u32, fuel: nat)
    ensures ChainSignal(memory, [phase], signal, fuel) == AmplifierOutput(memory, phase, signal, fuel)
  {
    assert [phase][1..] == [];
  }

  /** `run_amplifier`: runs a clone of `program`, leaving it unchanged. */
  method RunAmplifier(phase: u32, signal: u32, program: Program, fuel: nat) returns (r: Result<u32>)
    ensures r == AmplifierOutput(program.memory[..], phase, signal, fuel)
  {
    var copy := program.Clone();
    var amp := new Amplifier(copy, phase);
    var output := amp.Run(signal, fuel);
    if output.Err? {
      return Err(output.error);
    }
    if output.value.None? {
      return Err(MissingOutput);
    }
    r := Ok(output.value.value);
  }

  /** `thruster_signal`: the signal starts at 0 and passes through one
      amplifier per phase, in order. */
  method ThrusterSignal(phases: seq<u32>, program: Program, fuel: nat) returns (r: Result<u32>)
    ensures r == ChainSignal(program.memory[..], phases, 0, fuel)
  {
    ghost var memory := program.memory[..];
    var signal: u32 := 0;
    for i := 0 to |phases|
      invariant program.memory[..] == memory
      invariant ChainSignal(memory, phases, 0, fuel) == ChainSignal(memory, phases[i..], signal, fuel)
    {
      assert phases[i..][1..] == phases[i + 1..];
      var next := RunAmplifier(phases[i], signal, program, fuel);
      if next.Err? {
        return Err(next.error);
      }
      signal := next.value;
    }
    assert phases[|phases|..] == [];
    r := Ok(signal);
  }

  /** The running maximum of a `max_thruster_signal` loop over the
      remaining candidates, where `signalOf` gives each candidate's signal:
      a strictly larger signal replaces `highest`, and the first failing
      candidate is fatal. */
  function MaxOver(signalOf: seq<u32> -> Result<u32>, candidates: seq<seq<u32>>, highest: u32): (r: Result<u32>)
    ensures r.Ok? ==> r.value >= highest
    decreases |candidates|
  {
    if candidates == [] then Ok(highest)
    else
      match signalOf(candidates[0])
      case Err(e) => Err(e)
      case Ok(v) => MaxOver(signalOf, candidates[1..], if v > highest then v else highest)
  }

  /** The maximum is an upper bound of every candidate's signal and of the
      starting value, and it is one of them. */
  lemma {:induction false} MaxOverIsMaximum(signalOf: seq<u32> -> Result<u32>, candidates: seq<seq<u32>>, highest: u32)
    requires MaxOver(signalOf, candidates, highest).Ok?
    ensures var m := MaxOver(signalOf, candidates, highest).value;
      && m >= highest
      && (forall c :: c in candidates ==> signalOf(c).Ok? && signalOf(c).value <= m)
      && (m == highest || exists c :: c in candidates && signalOf(c) == Ok(m))
    decreases |candidates|
  {
    if candidates != [] {
      var v := signalOf(candidates[0]).value;
      var h' := if v > highest then v else highest;
      MaxOverIsMaximum(signalOf, candidates[1..], h');
      var m := MaxOver(signalOf, candidates, highest).value;
      forall c | c in candidates
        ensures signalOf(c).Ok? && signalOf(c).value <= m
      {
        if c != candidates[0] {
          assert c in candidates[1..];
        }
      }
      if m != highest {
        if m == h' {
          assert signalOf(candidates[0]) == Ok(m);
        } else {
          var c :| c in candidates[1..] && signalOf(c) == Ok(m);
          assert c in candidates;
        }
      }
    }
  }

  /** The search fails exactly when some candidate fails. */
  lemma {:induction false} MaxOverFailsIffSomeFails(signalOf: seq<u32> -> Result<u32>, candidates: seq<seq<u32>>, highest: u32)
    ensures MaxOver(signalOf, candidates, highest).Err? <==> exists c :: c in candidates && signalOf(c).Err?
    decreases |candidates|
  {
    if candidates != [] {
      match signalOf(candidates[0])
      case Err(_) =>
        assert candidates[0] in candidates;
      case Ok(v) =>
        MaxOverFailsIffSomeFails(signalOf, candidates[1..], if v > highest then v else highest);
        if exists c :: c in candidates && signalOf(c).Err? {
          var c :| c in candidates && signalOf(c).Err?;
          assert c in candidates[1..];
        }
    }
  }

  /** Each candidate's signal in part 1: the chain started at 0. */
  function ChainFromZero(memory: seq<int>, fuel: nat): seq<u32> -> Result<u32> {
    phases => ChainSignal(memory, phases, 0, fuel)
  }

  /** `max_thruster_signal` over an explicit list of phase settings (the
      permutations of 0..=4 in the source): the highest signal, at least 0. */
  method MaxThrusterSignal(program: Program, candidates: seq<seq<u32>>, fuel: nat) returns (r: Result<u32>)
    ensures r == MaxOver(ChainFromZero(program.memory[..], fuel), candidates, 0)
  {
    ghost var memory := program.memory[..];
    var highest: u32 := 0;
    for i := 0 to |candidates|
      invariant program.memory[..] == memory
      invariant MaxOver(ChainFromZero(memory, fuel), candidates, 0) == MaxOver(ChainFromZero(memory, fuel), candidates[i..], highest)
    {
      assert candidates[i..][1..] == candidates[i + 1..];
      var copy := program.Clone();
      var signal := ThrusterSignal(candidates[i], copy, fuel);
      if signal.Err? {
        return Err(signal.error);
      }
      if signal.value > highest {
        highest := signal.value;
      }
    }
    assert candidates[|candidates|..] == [];
    r := Ok(highest);
  }
}
