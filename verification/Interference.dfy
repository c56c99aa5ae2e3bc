/** The loop of WriteBytes among other writers: how often a writer goes round in any run. */
module Interference {
  import opened Prelude
  import opened Store
  import opened StoreTheorems
  import opened Progress

  /** How often writer `w` wrote to a file in a run: once each time round. */
  function Appends(steps: seq<Step>, w: nat): nat
    decreases |steps|
  {
    if steps == [] then 0 else (if steps[0] == Append(w) then 1 else 0) + Appends(steps[1..], w)
  }

  /** In no interleaving does a writer go round more often than it was given bytes. */
  ghost predicate RoundsBounded(volumeSize: nat) {
    forall steps, t, w: nat | Reaches(volumeSize, steps, t) :: Appends(steps, w) <= |Asked(steps, w)|
  }

  /** The bytes of the current call that are in no file yet. */
  function Unwritten(s: State, w: nat): int {
    if w < |s.writers| then |s.writers[w].phase.Rest()| - s.writers[w].phase.InFlight() else 0
  }

  lemma UnwrittenIsCount(s: State, w: nat)
    requires Sound(s)
    ensures Unwritten(s, w) >= 0
  {
    if w < |s.writers| { assert PhaseOk(s.pool, w, s.writers[w].phase); }
  }

  /** Each time round uses up a byte, whatever the other writers do. */
  lemma StepUnwritten(s: State, step: Step, w: nat)
    requires Sound(s) && Enabled(s, step) && IsPracticalSize(s.pool.volumeSize)
    ensures Appends([step], w) + Unwritten(Apply(s, step), w) <= Unwritten(s, w) + |Asked([step], w)|
  {
    if step.Append? {
      LocatedWrites(s, step.w);
    } else if step.Record? {
      assert PhaseOk(s.pool, step.w, s.writers[step.w].phase);
    }
  }

  lemma {:induction false} RunUnwritten(s: State, steps: seq<Step>, t: State, w: nat)
    requires Sound(s) && Run(s, steps) == Some(t) && IsPracticalSize(s.pool.volumeSize)
    ensures Appends(steps, w) + Unwritten(t, w) <= Unwritten(s, w) + |Asked(steps, w)|
    decreases |steps|
  {
    if steps != [] {
      var m := Apply(s, steps[0]);
      StepSound(s, steps[0]);
      StepUnwritten(s, steps[0], w);
      assert Run(s, [steps[0]]) == Run(m, []);
      RunKeepsVolumeSize(s, [steps[0]], m);
      RunUnwritten(m, steps[1..], t, w);
      assert [steps[0]][1..] == [];
    }
  }

  lemma {:induction false} AppendsConcat(a: seq<Step>, b: seq<Step>, w: nat)
    ensures Appends(a + b, w) == Appends(a, w) + Appends(b, w)
    decreases |a|
  {
    if a == [] {
      assert a + b == b;
    } else {
      AppendsConcat(a[1..], b, w);
      assert (a + b)[1..] == a[1..] + b;
    }
  }

  lemma {:induction false} AskedConcat(a: seq<Step>, b: seq<Step>, w: nat)
    ensures Asked(a + b, w) == Asked(a, w) + Asked(b, w)
    decreases |a|
  {
    if a == [] {
      assert a + b == b;
    } else {
      AskedConcat(a[1..], b, w);
      assert (a + b)[1..] == a[1..] + b;
    }
  }

  /** A lone writer in a stuck pool goes round as often as one likes, and is given nothing more. */
  lemma {:induction false} StuckRounds(s: State, k: nat) returns (steps: seq<Step>, t: State)
    requires |s.writers| == 1 && s.writers[0].phase == Ready(ONE_BYTE) && Stuck(s.pool)
    ensures Run(s, steps) == Some(t) && Appends(steps, 0) == k && Asked(steps, 0) == []
    decreases k
  {
    if k == 0 {
      steps, t := [], s;
    } else {
      var four := [Find(0), Locate(0), Append(0), Record(0)];
      var m := Moved(s, 0, FlatVolumes.Round(s.pool, 0, ONE_BYTE).0, Ready(ONE_BYTE));
      RoundIsFourSteps(s, 0);
      StuckRound(s.pool, ONE_BYTE);
      FourAppends();
      var rest;
      rest, t := StuckRounds(m, k - 1);
      RunAppend(s, four, rest, m);
      AppendsConcat(four, rest, 0);
      AskedConcat(four, rest, 0);
      steps := four + rest;
    }
  }

  lemma FourAppends()
    ensures var four := [Find(0), Locate(0), Append(0), Record(0)]; Appends(four, 0) == 1 && Asked(four, 0) == []
  {
    AppendsConcat([Find(0), Locate(0)], [Append(0), Record(0)], 0);
    AskedConcat([Find(0), Locate(0)], [Append(0), Record(0)], 0);
    assert [Find(0), Locate(0)] + [Append(0), Record(0)] == [Find(0), Locate(0), Append(0), Record(0)];
  }

  lemma UnboundedRounds(volumeSize: nat) returns (steps: seq<Step>, t: State)
    requires !IsPracticalSize(volumeSize)
    ensures Reaches(volumeSize, steps, t) && Appends(steps, 0) > |Asked(steps, 0)|
  {
    var before, s := ReachStuck(volumeSize);
    Extend(volumeSize, before, s, Begin(0, ONE_BYTE));
    var begun, b := before + [Begin(0, ONE_BYTE)], Apply(s, Begin(0, ONE_BYTE));
    var rest;
    rest, t := StuckRounds(b, |Asked(begun, 0)| + 1);
    RunAppend(Initial(volumeSize), begun, rest, b);
    AppendsConcat(begun, rest, 0);
    AskedConcat(begun, rest, 0);
    steps := begun + rest;
  }

  /** Termination under interference, exactly: in every run each writer goes round at most as often as it was given
      bytes - so every call ends if its thread is let run - if and only if the size is practical. */
  lemma RoundsExactly(volumeSize: nat)
    ensures RoundsBounded(volumeSize) <==> IsPracticalSize(volumeSize)
  {
    if IsPracticalSize(volumeSize) {
      forall steps, t, w: nat | Reaches(volumeSize, steps, t) ensures Appends(steps, w) <= |Asked(steps, w)| {
        InitialGood(volumeSize);
        RunUnwritten(Initial(volumeSize), steps, t, w);
        RunSound(Initial(volumeSize), steps, t);
        UnwrittenIsCount(t, w);
      }
    } else {
      var steps, t := UnboundedRounds(volumeSize);
    }
  }
}
