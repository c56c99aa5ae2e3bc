/** The promises of the flat-volume store, for every volume size and every interleaving of any number of writers. */
module StoreTheorems {
  import opened Prelude
  import opened Blocks
  import VolumePool
  import opened Store
  import opened StoreContents
  import opened StoreLayout

  ghost predicate Good(s: State) {
    Sound(s) && Stored(s) && Tiled(s) && Conserved(s) && Tidy(s) && Dense(s) && NoEmptyBlocks(s)
  }

  lemma InitialGood(volumeSize: nat)
    ensures Good(Initial(volumeSize))
  {
    var s := Initial(volumeSize);
    assert forall v: nat, o: nat :: AllClaims(s, v, o) == [];
  }

  lemma StepGood(s: State, step: Step)
    requires Good(s) && Enabled(s, step)
    ensures Good(Apply(s, step))
  {
    StepSound(s, step);
    StepStored(s, step);
    StepTiled(s, step);
    StepConserved(s, step);
    StepTidy(s, step);
    StepDense(s, step);
    StepNoEmptyBlocks(s, step);
  }

  lemma {:induction false} RunGood(s: State, steps: seq<Step>, t: State)
    requires Good(s) && Run(s, steps) == Some(t)
    ensures Good(t)
    decreases |steps|
  {
    if steps != [] {
      StepGood(s, steps[0]);
      RunGood(Apply(s, steps[0]), steps[1..], t);
    }
  }

  predicate Reaches(volumeSize: nat, steps: seq<Step>, t: State) {
    Run(Initial(volumeSize), steps) == Some(t)
  }

  /** No WriteBytes call is running. */
  predicate Quiet(s: State) {
    forall w | 0 <= w < |s.writers| :: s.writers[w].phase.Idle? || s.writers[w].phase.Closed?
  }

  predicate NothingInFlight(s: State) {
    forall w | 0 <= w < |s.writers| :: !s.writers[w].phase.Appended?
  }

  lemma StepAsked(s: State, step: Step, w: nat)
    requires Enabled(s, step) && w < |Apply(s, step).writers|
    ensures Apply(s, step).writers[w].requested
         == (if w < |s.writers| then s.writers[w].requested else [])
            + (if step.Begin? && step.w == w then step.data else [])
  {
  }

  lemma {:induction false} AskedOf(s: State, steps: seq<Step>, t: State, w: nat)
    requires Run(s, steps) == Some(t) && w < |t.writers|
    ensures t.writers[w].requested == (if w < |s.writers| then s.writers[w].requested else []) + Asked(steps, w)
    decreases |steps|
  {
    if steps != [] {
      var m := Apply(s, steps[0]);
      AskedOf(m, steps[1..], t, w);
      if w < |m.writers| { StepAsked(s, steps[0], w); }
    }
  }

  /** Round trip: between its calls, a writer's blocks hold exactly what was passed to its WriteBytes, in order. */
  lemma RoundTrip(volumeSize: nat, steps: seq<Step>, t: State, w: nat)
    requires Reaches(volumeSize, steps, t) && w < |t.writers|
    requires t.writers[w].phase.Idle? || t.writers[w].phase.Closed?
    ensures w < |t.pool.nodes| && AllFit(t.pool.files, t.pool.nodes[w])
    ensures Content(t.pool.files, t.pool.nodes[w]) == Asked(steps, w)
    ensures t.pool.nodes[w] == [] <==> Asked(steps, w) == []
  {
    InitialGood(volumeSize);
    RunGood(Initial(volumeSize), steps, t);
    AskedOf(Initial(volumeSize), steps, t, w);
    assert NodeStored(t, w);
    var content := Content(t.pool.files, t.pool.nodes[w]);
    assert content + [] == content;
  }

  /** At every moment the recorded blocks and the windows of all writers partition the volume files. */
  lemma Tiling(volumeSize: nat, steps: seq<Step>, t: State, v: nat, o: nat)
    requires Reaches(volumeSize, steps, t)
    ensures |t.writers| == |t.pool.nodes|
    ensures Claims(t, v, o) == if v < |t.pool.files| && o < |t.pool.files[v]| then 1 else 0
  {
    InitialGood(volumeSize);
    RunGood(Initial(volumeSize), steps, t);
  }

  function BlockTotals(nodes: seq<seq<Block>>): seq<nat> {
    seq(|nodes|, w requires 0 <= w < |nodes| => SumSizes(nodes[w]))
  }

  function AskedTotals(steps: seq<Step>, n: nat): seq<nat> {
    seq(n, w requires 0 <= w < n => |Asked(steps, w)|)
  }

  /** With nothing in flight the block sizes add up to the lengths of the volume files, and between calls
      also to the number of bytes that were passed to WriteBytes. */
  lemma Conservation(volumeSize: nat, steps: seq<Step>, t: State)
    requires Reaches(volumeSize, steps, t)
    ensures NothingInFlight(t) ==> Sum(BlockTotals(t.pool.nodes)) == Sum(Lengths(t.pool.files))
    ensures Quiet(t) ==> Sum(AskedTotals(steps, |t.writers|)) == Sum(Lengths(t.pool.files))
  {
    InitialGood(volumeSize);
    RunGood(Initial(volumeSize), steps, t);
    if NothingInFlight(t) {
      assert BlockTotals(t.pool.nodes) == Holdings(t);
    }
    if Quiet(t) { AskedIsHeld(volumeSize, steps, t); }
  }

  lemma AskedIsHeld(volumeSize: nat, steps: seq<Step>, t: State)
    requires Reaches(volumeSize, steps, t) && |t.writers| == |t.pool.nodes| && Quiet(t)
    ensures AskedTotals(steps, |t.writers|) == Holdings(t)
  {
    forall w | 0 <= w < |t.writers| ensures |Asked(steps, w)| == SumSizes(t.pool.nodes[w]) {
      RoundTrip(volumeSize, steps, t, w);
      ContentLength(t.pool.files, t.pool.nodes[w]);
    }
  }

  /** A node has at most one block per volume, and only its last block may end before the end of its volume. */
  lemma Fragmentation(volumeSize: nat, steps: seq<Step>, t: State, w: nat)
    requires Reaches(volumeSize, steps, t) && w < |t.pool.nodes|
    ensures DistinctVolumes(t.pool.nodes[w])
    ensures forall i | 0 <= i < |t.pool.nodes[w]| - 1 :: t.pool.nodes[w][i].End() == volumeSize
    ensures t.pool.volumeSize == volumeSize
  {
    InitialGood(volumeSize);
    RunGood(Initial(volumeSize), steps, t);
    RunKeepsVolumeSize(Initial(volumeSize), steps, t);
    assert NodeTidy(t, w);
  }

  lemma {:induction false} RunKeepsVolumeSize(s: State, steps: seq<Step>, t: State)
    requires Run(s, steps) == Some(t)
    ensures t.pool.volumeSize == s.pool.volumeSize
    decreases |steps|
  {
    if steps != [] {
      RunKeepsVolumeSize(Apply(s, steps[0]), steps[1..], t);
    }
  }

  /** No volume outgrows the volume size, in or out of a window, and one that left the pool is exactly full. */
  lemma Capacity(volumeSize: nat, steps: seq<Step>, t: State, v: nat)
    requires Reaches(volumeSize, steps, t) && v < |t.pool.files|
    ensures |t.pool.files[v]| <= volumeSize
    ensures !IsOpen(t.pool, v) ==> |t.pool.files[v]| == volumeSize
  {
    InitialGood(volumeSize);
    RunGood(Initial(volumeSize), steps, t);
    RunKeepsVolumeSize(Initial(volumeSize), steps, t);
    if IsOpen(t.pool, v) {
      var i :| 0 <= i < |t.pool.open| && t.pool.open[i].number == v;
      assert EntryAccounted(t, t.pool.open[i]);
    }
  }

  lemma {:induction false} RunBounded(s: State, steps: seq<Step>, t: State, bound: nat)
    requires Good(s) && Run(s, steps) == Some(t) && Peak(s, steps) <= bound && |s.pool.open| <= bound
    ensures |t.pool.open| <= bound
    decreases |steps|
  {
    if steps != [] {
      StepGood(s, steps[0]);
      StepBounded(s, steps[0], bound);
      RunBounded(Apply(s, steps[0]), steps[1..], t, bound);
    }
  }

  function Times(n: nat, x: nat): nat {
    if n == 0 then 0 else Times(n - 1, x) + x
  }

  lemma {:induction false} TimesIsProduct(n: nat, x: nat)
    ensures Times(n, x) == n * x
  {
    if n > 0 {
      TimesIsProduct(n - 1, x);
      assert n * x == (n - 1) * x + x;
    }
  }

  lemma {:induction false} TimesMonotone(a: nat, b: nat, x: nat)
    requires a <= b
    ensures Times(a, x) <= Times(b, x)
  {
    if a < b { TimesMonotone(a, b - 1, x); }
  }

  predicate Names(open: seq<VolumePool.OpenVolume>, v: nat) {
    exists i | 0 <= i < |open| :: open[i].number == v
  }

  lemma NamesLast(open: seq<VolumePool.OpenVolume>, v: nat)
    requires open != [] && Names(open, v)
    ensures open[|open| - 1].number == v || Names(open[..|open| - 1], v)
  {
    var i :| 0 <= i < |open| && open[i].number == v;
    if i < |open| - 1 { assert open[..|open| - 1][i].number == v; }
  }

  /** Only open volumes may be short, so few volumes are wasted. */
  lemma {:induction false} VolumesNeeded(files: seq<Bytes>, open: seq<VolumePool.OpenVolume>, volumeSize: nat)
    requires forall i, j | 0 <= i < j < |open| :: open[i].number < open[j].number
    requires forall i | 0 <= i < |open| :: open[i].number < |files|
    requires forall v | 0 <= v < |files| && !Names(open, v) :: |files[v]| == volumeSize
    ensures Times(|files|, volumeSize) <= Sum(Lengths(files)) + Times(|open|, volumeSize)
  {
    if files != [] {
      var n, m := |files| - 1, |open| - 1;
      assert Lengths(files) == Lengths(files[..n]) + [|files[n]|];
      SumAppend(Lengths(files[..n]), [|files[n]|]);
      if open != [] && open[m].number == n {
        forall v | 0 <= v < n && !Names(open[..m], v) ensures |files[..n][v]| == volumeSize {
          if Names(open, v) { NamesLast(open, v); }
        }
        VolumesNeeded(files[..n], open[..m], volumeSize);
      } else {
        assert !Names(open, n);
        VolumesNeeded(files[..n], open, volumeSize);
      }
    }
  }

  lemma VolumesOfSoundState(t: State)
    requires Sound(t)
    ensures Times(|t.pool.files|, t.pool.volumeSize)
         <= Sum(Lengths(t.pool.files)) + Times(|t.pool.open|, t.pool.volumeSize)
  {
    forall v | 0 <= v < |t.pool.files| && !Names(t.pool.open, v) ensures |t.pool.files[v]| == t.pool.volumeSize {
      assert !IsOpen(t.pool, v);
    }
    VolumesNeeded(t.pool.files, t.pool.open, t.pool.volumeSize);
  }

  /** A live writer owns at most one volume and a closed one none; the pool holds at most as many volumes as there were
      writers alive at one moment, so the volumes created exceed what the bytes in them need by at most that many. */
  lemma PoolBound(volumeSize: nat, steps: seq<Step>, t: State, peak: nat)
    requires Reaches(volumeSize, steps, t) && Peak(Initial(volumeSize), steps) <= peak
    ensures forall i | 0 <= i < |t.pool.open| && t.pool.open[i].owner.Some? ::
              t.pool.open[i].owner.value < |t.writers| && !t.writers[t.pool.open[i].owner.value].phase.Closed?
    ensures forall i, j | 0 <= i < j < |t.pool.open| && t.pool.open[i].owner.Some? ::
              t.pool.open[i].owner != t.pool.open[j].owner
    ensures |t.pool.open| <= peak
    ensures |t.pool.files| * volumeSize <= Sum(Lengths(t.pool.files)) + peak * volumeSize
  {
    InitialGood(volumeSize);
    RunGood(Initial(volumeSize), steps, t);
    RunBounded(Initial(volumeSize), steps, t, peak);
    RunKeepsVolumeSize(Initial(volumeSize), steps, t);
    VolumesOfSoundState(t);
    TimesMonotone(|t.pool.open|, peak, volumeSize);
    TimesIsProduct(|t.pool.files|, volumeSize);
    TimesIsProduct(peak, volumeSize);
  }

  function AllVolumeNumbers(nodes: seq<seq<Block>>): set<nat> {
    set w, i | 0 <= w < |nodes| && 0 <= i < |nodes[w]| :: nodes[w][i].volumeNumber
  }

  /** Between calls, the blocks of all nodes name exactly the volumes that were created. */
  lemma DenseNumbering(volumeSize: nat, steps: seq<Step>, t: State)
    requires Reaches(volumeSize, steps, t) && Quiet(t)
    ensures forall v: nat :: v in AllVolumeNumbers(t.pool.nodes) <==> v < |t.pool.files|
  {
    InitialGood(volumeSize);
    RunGood(Initial(volumeSize), steps, t);
    forall v: nat | v < |t.pool.files| ensures v in AllVolumeNumbers(t.pool.nodes) {
      assert InUse(t, v);
      var w :| 0 <= w < |t.writers| && UsesVolume(t, w, v);
      assert HasBlockIn(t.pool.nodes[w], v);
      var i :| 0 <= i < |t.pool.nodes[w]| && t.pool.nodes[w][i].volumeNumber == v;
    }
    forall w, i | 0 <= w < |t.pool.nodes| && 0 <= i < |t.pool.nodes[w]|
      ensures t.pool.nodes[w][i].volumeNumber < |t.pool.files|
    {
      assert NodeStored(t, w);
      assert Fits(t.pool.files, t.pool.nodes[w][i]);
    }
  }
}
