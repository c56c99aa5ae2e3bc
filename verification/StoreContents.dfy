/** What the recorded blocks mean in every reachable state: round trip, tiling and conservation. */
module StoreContents {
  import opened Prelude
  import opened Blocks
  import opened VolumePool
  import opened Store

  /** A writer's blocks hold what it was asked to write, up to what its current call still has to write. */
  predicate NodeStored(s: State, w: nat)
    requires w < |s.writers| == |s.pool.nodes|
  {
    && AllFit(s.pool.files, s.pool.nodes[w])
    && Content(s.pool.files, s.pool.nodes[w]) + s.writers[w].phase.Rest() == s.writers[w].requested
  }

  predicate Stored(s: State) {
    && |s.writers| == |s.pool.nodes|
    && forall w | 0 <= w < |s.writers| :: NodeStored(s, w)
  }

  lemma StepStored(s: State, step: Step)
    requires Sound(s) && Stored(s) && Enabled(s, step)
    ensures Stored(Apply(s, step))
  {
    StepSound(s, step);
    forall u | 0 <= u < |Apply(s, step).writers| ensures NodeStored(Apply(s, step), u) {
      if u < |s.writers| { StepKeepsNode(s, step, u); }
    }
  }

  lemma StepKeepsNode(s: State, step: Step, u: nat)
    requires Sound(s) && Enabled(s, step) && u < |s.writers| && NodeStored(s, u)
    ensures |Apply(s, step).writers| == |Apply(s, step).pool.nodes| && NodeStored(Apply(s, step), u)
  {
    match step
    case Find(w) => FindKeepsNode(s, w, u);
    case Append(w) => AppendKeepsNode(s, w, u);
    case Record(w) => RecordStoresNode(s, w, u);
    case _ =>
  }

  lemma FindKeepsNode(s: State, w: nat, u: nat)
    requires Sound(s) && Enabled(s, Find(w)) && u < |s.writers| && NodeStored(s, u)
    ensures NodeStored(Apply(s, Find(w)), u)
  {
    ContentSurvivesNewFile(s.pool.files, s.pool.nodes[u]);
  }

  lemma AppendKeepsNode(s: State, w: nat, u: nat)
    requires Sound(s) && Enabled(s, Append(w)) && u < |s.writers| && NodeStored(s, u)
    ensures NodeStored(Apply(s, Append(w)), u)
  {
    var phase := s.writers[w].phase;
    assert PhaseOk(s.pool, w, phase);
    var n := ChunkSize(phase.leftSize, |phase.rest|);
    ContentSurvivesAppend(s.pool.files, s.pool.nodes[u], phase.volume, phase.rest[..n]);
  }

  lemma RecordStoresNode(s: State, w: nat, u: nat)
    requires Sound(s) && Enabled(s, Record(w)) && u < |s.writers| && NodeStored(s, u)
    ensures NodeStored(Apply(s, Record(w)), u)
  {
    var phase := s.writers[w].phase;
    assert PhaseOk(s.pool, w, phase);
    if u == w {
      RecordedChunk(s.pool.files, s.pool.nodes[w], phase);
    }
  }

  /** Recording the window moves its bytes from what is left to what is stored. */
  lemma RecordedChunk(files: seq<Bytes>, blocks: seq<Block>, phase: Phase)
    requires AllFit(files, blocks) && phase.Appended? && phase.n <= |phase.rest| && phase.volume < |files|
    requires phase.offset + phase.n == |files[phase.volume]|
    requires files[phase.volume][phase.offset..] == phase.rest[..phase.n]
    ensures var blocks' := Recorded(blocks, Block(phase.volume, phase.offset, phase.n));
            AllFit(files, blocks')
            && Content(files, blocks') + LoopHead(phase.rest[phase.n..]).Rest() == Content(files, blocks) + phase.rest
  {
    var b := Block(phase.volume, phase.offset, phase.n);
    assert Fits(files, b);
    RecordedMeaning(files, blocks, b);
    assert Slice(files, b) == phase.rest[..phase.n];
    assert LoopHead(phase.rest[phase.n..]).Rest() == phase.rest[phase.n..];
    Regroup(Content(files, blocks), phase.rest, phase.n);
  }

  lemma Regroup(content: Bytes, rest: Bytes, n: nat)
    requires n <= |rest|
    ensures content + rest[..n] + rest[n..] == content + rest
  {
  }

  /** A writer that was asked for nothing has no blocks. */
  predicate NoEmptyBlocks(s: State)
    requires |s.writers| == |s.pool.nodes|
  {
    forall w | 0 <= w < |s.writers| && s.writers[w].requested == [] :: s.pool.nodes[w] == []
  }

  lemma StepNoEmptyBlocks(s: State, step: Step)
    requires Sound(s) && Stored(s) && NoEmptyBlocks(s) && Enabled(s, step)
    ensures |Apply(s, step).writers| == |Apply(s, step).pool.nodes| && NoEmptyBlocks(Apply(s, step))
  {
    if step.Record? {
      assert PhaseOk(s.pool, step.w, s.writers[step.w].phase);
      assert NodeStored(s, step.w);
    }
  }

  /** 1 when the bytes of the window cover byte `o` of volume `v`, else 0. */
  function InFlightHit(phase: Phase, v: nat, o: nat): nat {
    if phase.Appended? then Hit(Block(phase.volume, phase.offset, phase.n), v, o) else 0
  }

  /** How many recorded blocks and in-flight writes of one writer cover byte `o` of volume `v`. */
  function Claim(blocks: seq<Block>, phase: Phase, v: nat, o: nat): nat {
    Hits(blocks, v, o) + InFlightHit(phase, v, o)
  }

  function AllClaims(s: State, v: nat, o: nat): seq<nat>
    requires |s.writers| == |s.pool.nodes|
  {
    seq(|s.writers|, w requires 0 <= w < |s.writers| => Claim(s.pool.nodes[w], s.writers[w].phase, v, o))
  }

  function Claims(s: State, v: nat, o: nat): nat
    requires |s.writers| == |s.pool.nodes|
  {
    Sum(AllClaims(s, v, o))
  }

  /** 1 when byte `o` of volume `v` exists, else 0. */
  function Covered(s: State, v: nat, o: nat): nat {
    if v < |s.pool.files| && o < |s.pool.files[v]| then 1 else 0
  }

  /** Recorded blocks and in-flight writes partition the files: every byte is claimed exactly once, nothing else is. */
  ghost predicate Tiled(s: State)
    requires |s.writers| == |s.pool.nodes|
  {
    forall v: nat, o: nat :: Claims(s, v, o) == Covered(s, v, o)
  }

  /** Every part of the state that belongs to another writer is as before. */
  predicate OnlyMoves(s: State, w: nat, t: State) {
    && w < |s.writers| == |s.pool.nodes| == |t.writers| == |t.pool.nodes|
    && forall u | 0 <= u < |s.writers| && u != w :: t.writers[u] == s.writers[u] && t.pool.nodes[u] == s.pool.nodes[u]
  }

  lemma ClaimsMove(s: State, w: nat, t: State, v: nat, o: nat)
    requires OnlyMoves(s, w, t)
    ensures Claims(t, v, o) + Claim(s.pool.nodes[w], s.writers[w].phase, v, o)
         == Claims(s, v, o) + Claim(t.pool.nodes[w], t.writers[w].phase, v, o)
  {
    var x := Claim(t.pool.nodes[w], t.writers[w].phase, v, o);
    assert AllClaims(t, v, o) == AllClaims(s, v, o)[w := x];
    SumUpdate(AllClaims(s, v, o), w, x);
  }

  lemma StepTiled(s: State, step: Step)
    requires Sound(s) && Tiled(s) && Enabled(s, step)
    ensures |Apply(s, step).writers| == |Apply(s, step).pool.nodes| && Tiled(Apply(s, step))
  {
    StepSound(s, step);
    forall v: nat, o: nat ensures Claims(Apply(s, step), v, o) == Covered(Apply(s, step), v, o) {
      StepClaims(s, step, v, o);
    }
  }

  lemma StepClaims(s: State, step: Step, v: nat, o: nat)
    requires Sound(s) && Enabled(s, step) && Claims(s, v, o) == Covered(s, v, o)
    ensures |Apply(s, step).writers| == |Apply(s, step).pool.nodes|
    ensures Claims(Apply(s, step), v, o) == Covered(Apply(s, step), v, o)
  {
    match step
    case Create => CreateClaims(s, v, o);
    case Append(w) => AppendClaims(s, w, v, o);
    case Record(w) => RecordClaims(s, w, v, o);
    case _ => QuietClaims(s, step, v, o);
  }

  /** Begin, Find, Locate and Close move no block and no window. */
  lemma QuietClaims(s: State, step: Step, v: nat, o: nat)
    requires Sound(s) && Enabled(s, step) && (step.Begin? || step.Find? || step.Locate? || step.Close?)
    ensures |Apply(s, step).writers| == |Apply(s, step).pool.nodes|
    ensures Claims(Apply(s, step), v, o) == Claims(s, v, o)
    ensures Covered(Apply(s, step), v, o) == Covered(s, v, o)
  {
    ClaimsMove(s, step.w, Apply(s, step), v, o);
  }

  lemma CreateClaims(s: State, v: nat, o: nat)
    requires Shape(s)
    ensures Claims(Apply(s, Create), v, o) == Claims(s, v, o)
  {
    assert AllClaims(Apply(s, Create), v, o) == AllClaims(s, v, o) + [0];
    SumAppend(AllClaims(s, v, o), [0]);
  }

  lemma AppendClaims(s: State, w: nat, v: nat, o: nat)
    requires Sound(s) && Enabled(s, Append(w))
    requires Claims(s, v, o) == Covered(s, v, o)
    ensures Claims(Apply(s, Append(w)), v, o) == Covered(Apply(s, Append(w)), v, o)
  {
    assert PhaseOk(s.pool, w, s.writers[w].phase);
    ClaimsMove(s, w, Apply(s, Append(w)), v, o);
  }

  lemma RecordClaims(s: State, w: nat, v: nat, o: nat)
    requires Sound(s) && Enabled(s, Record(w))
    ensures |Apply(s, Record(w)).writers| == |Apply(s, Record(w)).pool.nodes|
    ensures Claims(Apply(s, Record(w)), v, o) == Claims(s, v, o)
  {
    var phase := s.writers[w].phase;
    assert PhaseOk(s.pool, w, phase);
    RecordedCoverage(s.pool.nodes[w], Block(phase.volume, phase.offset, phase.n), v, o);
    ClaimsMove(s, w, Apply(s, Record(w)), v, o);
  }

  function Lengths(files: seq<Bytes>): seq<nat> {
    seq(|files|, v requires 0 <= v < |files| => |files[v]|)
  }

  /** Bytes recorded for each writer, and bytes of its window. */
  function Holdings(s: State): seq<nat>
    requires |s.writers| == |s.pool.nodes|
  {
    seq(|s.writers|, w requires 0 <= w < |s.writers| => SumSizes(s.pool.nodes[w]) + s.writers[w].phase.InFlight())
  }

  predicate Conserved(s: State)
    requires |s.writers| == |s.pool.nodes|
  {
    Sum(Holdings(s)) == Sum(Lengths(s.pool.files))
  }

  lemma HoldingsMove(s: State, w: nat, t: State)
    requires OnlyMoves(s, w, t)
    ensures Sum(Holdings(t)) + SumSizes(s.pool.nodes[w]) + s.writers[w].phase.InFlight()
         == Sum(Holdings(s)) + SumSizes(t.pool.nodes[w]) + t.writers[w].phase.InFlight()
  {
    var x := SumSizes(t.pool.nodes[w]) + t.writers[w].phase.InFlight();
    assert Holdings(t) == Holdings(s)[w := x];
    SumUpdate(Holdings(s), w, x);
  }

  lemma LengthsGrow(files: seq<Bytes>, v: nat, more: Bytes)
    requires v < |files|
    ensures Sum(Lengths(files[v := files[v] + more])) == Sum(Lengths(files)) + |more|
  {
    assert Lengths(files[v := files[v] + more]) == Lengths(files)[v := |files[v]| + |more|];
    SumUpdate(Lengths(files), v, |files[v]| + |more|);
  }

  lemma LengthsNewFile(files: seq<Bytes>)
    ensures Sum(Lengths(files + [[]])) == Sum(Lengths(files))
  {
    assert Lengths(files + [[]]) == Lengths(files) + [0];
    SumAppend(Lengths(files), [0]);
  }

  lemma CreateConserved(s: State)
    requires Shape(s) && Conserved(s)
    ensures Conserved(Apply(s, Create))
  {
    assert Holdings(Apply(s, Create)) == Holdings(s) + [0];
    SumAppend(Holdings(s), [0]);
  }

  lemma FindConserved(s: State, w: nat)
    requires Shape(s) && Conserved(s) && Enabled(s, Find(w))
    ensures Conserved(Apply(s, Find(w)))
  {
    HoldingsMove(s, w, Apply(s, Find(w)));
    LengthsNewFile(s.pool.files);
  }

  lemma AppendConserved(s: State, w: nat)
    requires Sound(s) && Conserved(s) && Enabled(s, Append(w))
    ensures Conserved(Apply(s, Append(w)))
  {
    var phase := s.writers[w].phase;
    assert PhaseOk(s.pool, w, phase);
    HoldingsMove(s, w, Apply(s, Append(w)));
    LengthsGrow(s.pool.files, phase.volume, phase.rest[..ChunkSize(phase.leftSize, |phase.rest|)]);
  }

  lemma RecordConserved(s: State, w: nat)
    requires Sound(s) && Conserved(s) && Enabled(s, Record(w))
    ensures |Apply(s, Record(w)).writers| == |Apply(s, Record(w)).pool.nodes| && Conserved(Apply(s, Record(w)))
  {
    var phase := s.writers[w].phase;
    assert PhaseOk(s.pool, w, phase);
    HoldingsMove(s, w, Apply(s, Record(w)));
    RecordedSize(s.pool.nodes[w], Block(phase.volume, phase.offset, phase.n));
  }

  lemma StepConserved(s: State, step: Step)
    requires Sound(s) && Conserved(s) && Enabled(s, step)
    ensures |Apply(s, step).writers| == |Apply(s, step).pool.nodes| && Conserved(Apply(s, step))
  {
    match step
    case Create => CreateConserved(s);
    case Find(w) => FindConserved(s, w);
    case Append(w) => AppendConserved(s, w);
    case Record(w) => RecordConserved(s, w);
    case _ => HoldingsMove(s, step.w, Apply(s, step));
  }
}
