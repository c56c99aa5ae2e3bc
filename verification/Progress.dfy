/** When the loop of WriteBytes ends, despite the cast of `leftSize` to 32 bits. */
module Progress {
  import opened Prelude
  import opened Blocks
  import opened VolumePool
  import opened Store
  import opened StoreContents
  import opened StoreTheorems
  import opened FlatVolumes

  /** Every WriteBytes call that can be made in a run finishes when no other writer interferes with it. */
  ghost predicate AlwaysFinishes(volumeSize: nat) {
    forall steps, t, w: nat, data | Reaches(volumeSize, steps, t) && w < |t.writers| && t.writers[w].phase.Idle? ::
      Finishes(t.pool, w, data)
  }

  /** In no interleaving is a round reached that writes nothing. */
  ghost predicate EveryRoundWrites(volumeSize: nat) {
    forall steps, t, w: nat | Reaches(volumeSize, steps, t) && w < |t.writers| && t.writers[w].phase.Located? ::
      RoundWrites(t.writers[w].phase)
  }

  predicate RoundWrites(phase: Phase)
    requires phase.Located?
  {
    ChunkSize(phase.leftSize, |phase.rest|) > 0
  }

  predicate IsPracticalSize(volumeSize: nat) {
    0 < volumeSize < UINT32_RANGE
  }

  /** The state just before the BytesWereWritten of a round. */
  function BeforeRecord(s: State, w: nat): State
    requires Enabled(s, Find(w))
  {
    Apply(Apply(Apply(s, Find(w)), Locate(w)), Append(w))
  }

  lemma BeforeRecordIs(s: State, w: nat)
    requires Enabled(s, Find(w))
    ensures var rest, f := s.writers[w].phase.rest, FindStream(s.pool, w);
            var n := ChunkSize(f.1.leftSize, |rest|);
            BeforeRecord(s, w) == Moved(s, w, AppendToFile(f.0, f.1.volume, rest[..n]),
                                        Appended(rest, f.1.volume, FileLength(f.0, f.1.volume), n))
  {
    var rest, f := s.writers[w].phase.rest, FindStream(s.pool, w);
    var s1 := Apply(s, Find(w));
    assert s1.writers[w].phase == Found(rest, f.1.volume, f.1.leftSize) && s1.pool == f.0;
    var s2 := Apply(s1, Locate(w));
    assert s2.writers[w].phase == Located(rest, f.1.volume, f.1.leftSize, FileLength(f.0, f.1.volume));
    assert s2.pool == f.0;
  }

  /** One pass of the loop is four steps of the machine. */
  lemma RoundIsFourSteps(s: State, w: nat)
    requires Enabled(s, Find(w))
    ensures var r := Round(s.pool, w, s.writers[w].phase.rest);
            Run(s, [Find(w), Locate(w), Append(w), Record(w)]) == Some(Moved(s, w, r.0, LoopHead(r.1)))
  {
    var rest, f := s.writers[w].phase.rest, FindStream(s.pool, w);
    var n := ChunkSize(f.1.leftSize, |rest|);
    BeforeRecordIs(s, w);
    FourSteps(s, w);
    RecordOfMoved(s, w, AppendToFile(f.0, f.1.volume, rest[..n]),
                  Appended(rest, f.1.volume, FileLength(f.0, f.1.volume), n));
  }

  lemma RecordOfMoved(s: State, w: nat, pool: Pool, phase: Phase)
    requires w < |s.writers| && phase.Appended? && phase.n <= |phase.rest|
    ensures Apply(Moved(s, w, pool, phase), Record(w))
         == Moved(s, w, BytesWereWritten(pool, w, phase.offset, phase.n), LoopHead(phase.rest[phase.n..]))
  {
  }

  lemma FourSteps(s: State, w: nat)
    requires Enabled(s, Find(w))
    ensures Enabled(BeforeRecord(s, w), Record(w))
    ensures Run(s, [Find(w), Locate(w), Append(w), Record(w)]) == Some(Apply(BeforeRecord(s, w), Record(w)))
  {
    var s1 := Apply(s, Find(w));
    var s2 := Apply(s1, Locate(w));
    var s3 := Apply(s2, Append(w));
    assert Run(s3, [Record(w)]) == Some(Apply(s3, Record(w)));
    assert [Append(w), Record(w)][1..] == [Record(w)];
    assert Run(s2, [Append(w), Record(w)]) == Run(s3, [Record(w)]);
    assert [Locate(w), Append(w), Record(w)][1..] == [Append(w), Record(w)];
    assert Run(s1, [Locate(w), Append(w), Record(w)]) == Run(s2, [Append(w), Record(w)]);
    assert [Find(w), Locate(w), Append(w), Record(w)][1..] == [Locate(w), Append(w), Record(w)];
  }

  lemma {:induction false} RunSound(s: State, steps: seq<Step>, t: State)
    requires Sound(s) && Run(s, steps) == Some(t)
    ensures Sound(t)
    decreases |steps|
  {
    if steps != [] {
      StepSound(s, steps[0]);
      RunSound(Apply(s, steps[0]), steps[1..], t);
    }
  }

  lemma {:induction false} RunAppend(s: State, a: seq<Step>, b: seq<Step>, m: State)
    requires Run(s, a) == Some(m)
    ensures Run(s, a + b) == Run(m, b)
    decreases |a|
  {
    if a == [] {
      assert a + b == b;
    } else {
      RunAppend(Apply(s, a[0]), a[1..], b, m);
      assert (a + b)[1..] == a[1..] + b;
    }
  }

  /** In a sound state a round of a volume of practical size writes something. */
  lemma LocatedWrites(s: State, w: nat)
    requires Sound(s) && IsPracticalSize(s.pool.volumeSize)
    requires w < |s.writers| && s.writers[w].phase.Located?
    ensures RoundWrites(s.writers[w].phase)
  {
    assert PhaseOk(s.pool, w, s.writers[w].phase);
    assert EntryAccounted(s, Held(s.pool, w));
  }

  lemma RoundShrinks(s: State, w: nat)
    requires Sound(s) && IsPracticalSize(s.pool.volumeSize) && Enabled(s, Find(w))
    ensures |Round(s.pool, w, s.writers[w].phase.rest).1| < |s.writers[w].phase.rest|
  {
    var s1 := Apply(s, Find(w));
    var s2 := Apply(s1, Locate(w));
    StepSound(s, Find(w));
    StepSound(s1, Locate(w));
    LocatedWrites(s2, w);
  }

  lemma RoundSound(s: State, w: nat, t: State)
    requires Sound(s) && Enabled(s, Find(w))
    requires var r := Round(s.pool, w, s.writers[w].phase.rest); t == Moved(s, w, r.0, LoopHead(r.1))
    ensures Sound(t) && t.pool.volumeSize == s.pool.volumeSize
  {
    var four := [Find(w), Locate(w), Append(w), Record(w)];
    RoundIsFourSteps(s, w);
    RunSound(s, four, t);
    RunKeepsVolumeSize(s, four, t);
  }

  lemma {:induction false} FinishesWithin(s: State, w: nat, rest: Bytes)
    requires Sound(s) && IsPracticalSize(s.pool.volumeSize)
    requires w < |s.writers| && s.writers[w].phase == Ready(rest)
    ensures Rounds(s.pool, w, rest, |rest|).1 == []
    decreases |rest|
  {
    var r := Round(s.pool, w, rest);
    RoundShrinks(s, w);
    if r.1 != [] {
      var t := Moved(s, w, r.0, LoopHead(r.1));
      RoundSound(s, w, t);
      FinishesWithin(t, w, r.1);
    }
    FinishesStep(s.pool, w, rest, r);
  }

  lemma FinishesStep(p: Pool, w: nat, rest: Bytes, r: Job)
    requires r == Round(p, w, rest) && |r.1| < |rest|
    requires r.1 != [] ==> Rounds(r.0, w, r.1, |r.1|).1 == []
    ensures Rounds(p, w, rest, |rest|).1 == []
  {
    assert RoundOf(w)((p, rest)) == r;
    IterateAgrees(RoundOf(w), NothingLeft(), r, |r.1|, |rest| - 1);
  }

  /** Writer 0 will be given a volume whose `leftSize` is a multiple of 2^32, now and after every round. */
  predicate Stuck(p: Pool) {
    && p.nodes != []
    && if p.open == [] then Truncate32(p.volumeSize) == 0
       else p.open == [OpenVolume(p.open[0].number, p.open[0].leftSize, Some(0))]
            && p.open[0].leftSize > 0 && Truncate32(p.open[0].leftSize) == 0
  }

  lemma StuckRound(p: Pool, rest: Bytes)
    requires Stuck(p)
    ensures Round(p, 0, rest).1 == rest && Stuck(Round(p, 0, rest).0)
    ensures Truncate32(FindStream(p, 0).1.leftSize) == 0
  {
    if p.open == [] {
      var (q, f) := FindStream(p, 0);
      assert q.open == [OpenVolume(|p.files|, p.volumeSize, Some(0))];
      assert FirstOwned(q.open, 0) == 0;
      assert Without(q.open, 0) == [];
    }
  }

  lemma StuckForever(p: Pool, rest: Bytes, k: nat)
    requires Stuck(p)
    ensures Rounds(p, 0, rest, k).1 == rest
  {
    var inv := (job: Job) => Stuck(job.0) && job.1 == rest;
    forall job | inv(job) ensures inv(RoundOf(0)(job)) {
      StuckRound(job.0, job.1);
    }
    IterateKeeps(RoundOf(0), NothingLeft(), inv, (p, rest), k);
  }

  const ONE_BYTE: Bytes := [0]

  /** Any other volume size leads a lone writer to a stuck pool. */
  lemma ReachStuck(volumeSize: nat) returns (steps: seq<Step>, t: State)
    requires !IsPracticalSize(volumeSize)
    ensures Reaches(volumeSize, steps, t) && Stuck(t.pool) && |t.writers| == 1 && t.writers[0].phase.Idle?
  {
    var s := Apply(Initial(volumeSize), Create);
    var r := Truncate32(volumeSize);
    steps := [Create];
    t := s;
    assert Run(Initial(volumeSize), [Create]) == Run(s, []);
    if r > 0 {
      var data: Bytes := seq(r, i => 0 as Byte);
      var b := Apply(s, Begin(0, data));
      assert Run(s, [Begin(0, data)]) == Run(b, []);
      RunAppend(Initial(volumeSize), [Create], [Begin(0, data)], s);
      var four := [Find(0), Locate(0), Append(0), Record(0)];
      RoundIsFourSteps(b, 0);
      FirstFill(volumeSize, data);
      RunAppend(Initial(volumeSize), [Create] + [Begin(0, data)], four, b);
      steps := [Create] + [Begin(0, data)] + four;
      t := Moved(b, 0, Round(b.pool, 0, data).0, LoopHead([]));
    }
  }

  lemma FirstFill(volumeSize: nat, data: Bytes)
    requires volumeSize >= UINT32_RANGE && |data| == Truncate32(volumeSize) > 0
    ensures var r := Round(Pool(volumeSize, [], [], [[]]), 0, data); r.1 == [] && Stuck(r.0)
  {
    var p := Pool(volumeSize, [], [], [[]]);
    var (q, f) := FindStream(p, 0);
    assert q.open == [OpenVolume(0, volumeSize, Some(0))] && q.files == [[]];
    assert FirstOwned(q.open, 0) == 0;
    assert Truncate32(volumeSize - |data|) == 0;
  }

  /** Termination, exactly: every call finishes if and only if the volume size is between 1 and 2^32 - 1. */
  lemma TerminationExactly(volumeSize: nat)
    ensures AlwaysFinishes(volumeSize) <==> IsPracticalSize(volumeSize)
  {
    if IsPracticalSize(volumeSize) {
      forall steps, t, w: nat, data | Reaches(volumeSize, steps, t) && w < |t.writers| && t.writers[w].phase.Idle?
        ensures Finishes(t.pool, w, data)
      {
        CallFinishes(volumeSize, steps, t, w, data);
      }
    } else {
      var steps, t := ReachStuck(volumeSize);
      forall k: nat ensures Rounds(t.pool, 0, ONE_BYTE, k).1 != [] {
        StuckForever(t.pool, ONE_BYTE, k);
      }
      assert !Finishes(t.pool, 0, ONE_BYTE);
    }
  }

  lemma CallFinishes(volumeSize: nat, steps: seq<Step>, t: State, w: nat, data: Bytes)
    requires IsPracticalSize(volumeSize)
    requires Reaches(volumeSize, steps, t) && w < |t.writers| && t.writers[w].phase.Idle?
    ensures Finishes(t.pool, w, data)
  {
    if data == [] {
      assert Rounds(t.pool, w, data, 0).1 == [];
    } else {
      InitialGood(volumeSize);
      RunSound(Initial(volumeSize), steps, t);
      RunKeepsVolumeSize(Initial(volumeSize), steps, t);
      StepSound(t, Begin(w, data));
      FinishesWithin(Apply(t, Begin(w, data)), w, data);
      assert Rounds(t.pool, w, data, |data|).1 == [];
    }
  }

  lemma Extend(volumeSize: nat, steps: seq<Step>, s: State, step: Step)
    requires Reaches(volumeSize, steps, s) && Enabled(s, step)
    ensures Reaches(volumeSize, steps + [step], Apply(s, step))
  {
    assert Run(s, [step]) == Run(Apply(s, step), []);
    RunAppend(Initial(volumeSize), steps, [step], s);
  }

  lemma EmptyRoundReached(volumeSize: nat) returns (steps: seq<Step>, t: State)
    requires !IsPracticalSize(volumeSize)
    ensures Reaches(volumeSize, steps, t) && |t.writers| == 1
    ensures t.writers[0].phase.Located? && !RoundWrites(t.writers[0].phase)
  {
    var before, s := ReachStuck(volumeSize);
    StuckRound(s.pool, ONE_BYTE);
    Extend(volumeSize, before, s, Begin(0, ONE_BYTE));
    steps, s := before + [Begin(0, ONE_BYTE)], Apply(s, Begin(0, ONE_BYTE));
    Extend(volumeSize, steps, s, Find(0));
    steps, t := steps + [Find(0)], Apply(s, Find(0));
    Extend(volumeSize, steps, t, Locate(0));
    steps, t := steps + [Locate(0)], Apply(t, Locate(0));
  }

  /** Progress under interference, exactly: no interleaving reaches an empty round if and only if the size is
      practical. */
  lemma ProgressExactly(volumeSize: nat)
    ensures EveryRoundWrites(volumeSize) <==> IsPracticalSize(volumeSize)
  {
    if IsPracticalSize(volumeSize) {
      forall steps, t, w: nat | Reaches(volumeSize, steps, t) && w < |t.writers| && t.writers[w].phase.Located?
        ensures RoundWrites(t.writers[w].phase)
      {
        InitialGood(volumeSize);
        RunSound(Initial(volumeSize), steps, t);
        RunKeepsVolumeSize(Initial(volumeSize), steps, t);
        LocatedWrites(t, w);
      }
    } else {
      var steps, t := EmptyRoundReached(volumeSize);
    }
  }

  lemma RoundStored(s: State, w: nat, t: State)
    requires Sound(s) && Stored(s) && Enabled(s, Find(w))
    requires var r := Round(s.pool, w, s.writers[w].phase.rest); t == Moved(s, w, r.0, LoopHead(r.1))
    ensures Sound(t) && Stored(t) && t.pool.volumeSize == s.pool.volumeSize
  {
    var four := [Find(w), Locate(w), Append(w), Record(w)];
    RoundSound(s, w, t);
    RoundIsFourSteps(s, w);
    RunStored(s, four, t);
  }

  lemma {:induction false} RunStored(s: State, steps: seq<Step>, t: State)
    requires Sound(s) && Stored(s) && Run(s, steps) == Some(t)
    ensures Stored(t)
    decreases |steps|
  {
    if steps != [] {
      StepSound(s, steps[0]);
      StepStored(s, steps[0]);
      RunStored(Apply(s, steps[0]), steps[1..], t);
    }
  }

  /** The store when the call of `w` has come as far as `job`. */
  function StateAt(s: State, w: nat, job: Job): State
    requires w < |s.writers|
  {
    Moved(s, w, job.0, LoopHead(job.1))
  }

  lemma RoundsStored(s: State, w: nat, rest: Bytes, k: nat)
    requires Sound(s) && Stored(s) && w < |s.writers| && s.writers[w].phase == LoopHead(rest)
    ensures Sound(StateAt(s, w, Rounds(s.pool, w, rest, k))) && Stored(StateAt(s, w, Rounds(s.pool, w, rest, k)))
  {
    var inv := (job: Job) => Sound(StateAt(s, w, job)) && Stored(StateAt(s, w, job));
    assert StateAt(s, w, (s.pool, rest)) == s;
    forall job | inv(job) && !NothingLeft()(job) ensures inv(RoundOf(w)(job)) {
      RoundStored(StateAt(s, w, job), w, StateAt(s, w, Round(job.0, w, job.1)));
    }
    IterateKeeps(RoundOf(w), NothingLeft(), inv, (s.pool, rest), k);
  }

  /** A WriteBytes call that finishes appends its bytes to the content of its node and to no other node's. */
  lemma WriteBytesStores(s: State, w: nat, data: Bytes, k: nat, u: nat)
    requires Sound(s) && Stored(s) && w < |s.writers| && u < |s.writers| && s.writers[w].phase.Idle?
    requires Rounds(s.pool, w, data, k).1 == []
    ensures NodeStored(s, u)
    ensures var p := Rounds(s.pool, w, data, k).0;
            && |p.nodes| == |s.pool.nodes| && AllFit(p.files, p.nodes[u])
            && (u == w ==> Content(p.files, p.nodes[u]) == Content(s.pool.files, s.pool.nodes[u]) + data)
            && (u != w ==> Content(p.files, p.nodes[u]) == Content(s.pool.files, s.pool.nodes[u]))
  {
    var b := Apply(s, Begin(w, data));
    StepSound(s, Begin(w, data));
    StepStored(s, Begin(w, data));
    RoundsStored(b, w, data, k);
    var t := StateAt(b, w, Rounds(s.pool, w, data, k));
    assert NodeStored(s, u) && NodeStored(t, u);
    var before, after := Content(s.pool.files, s.pool.nodes[u]), Content(t.pool.files, t.pool.nodes[u]);
    if u == w {
      assert before + [] == before && after + [] == after;
    } else {
      var rest := s.writers[u].phase.Rest();
      assert before == (before + rest)[..|before + rest| - |rest|];
      assert after == (after + rest)[..|after + rest| - |rest|];
    }
  }

  /** How much a round writes, for any volume size and under interference: all that is left, or what the volume still
      has room for, cut to 32 bits. So with a practical size a round either finishes its call or fills the volume. */
  lemma RoundSizeExactly(volumeSize: nat, steps: seq<Step>, t: State, w: nat)
    requires Reaches(volumeSize, steps, t) && w < |t.writers| && t.writers[w].phase.Appended?
    ensures var phase := t.writers[w].phase;
            && phase.offset <= volumeSize
            && phase.n == Min((volumeSize - phase.offset) % 0x1_0000_0000, |phase.rest|)
            && phase.volume < |t.pool.files| && |t.pool.files[phase.volume]| == phase.offset + phase.n
            && (IsPracticalSize(volumeSize) ==>
                  phase.n == |phase.rest| || |t.pool.files[phase.volume]| == volumeSize)
  {
    InitialGood(volumeSize);
    RunSound(Initial(volumeSize), steps, t);
    RunKeepsVolumeSize(Initial(volumeSize), steps, t);
    assert PhaseOk(t.pool, w, t.writers[w].phase);
    assert EntryAccounted(t, Held(t.pool, w));
  }
}
