/** How the blocks lie in the volumes, in every reachable state: fragmentation, dense numbering, size of the pool. */
module StoreLayout {
  import opened Prelude
  import opened Blocks
  import opened VolumePool
  import opened Store
  import StoreContents

  /** All blocks but the last end at the end of a volume that is no longer open. */
  predicate FullBeforeLast(p: Pool, blocks: seq<Block>) {
    forall i | 0 <= i < |blocks| - 1 :: blocks[i].End() == p.volumeSize && !IsOpen(p, blocks[i].volumeNumber)
  }

  predicate DistinctVolumes(blocks: seq<Block>) {
    forall i, j | 0 <= i < j < |blocks| :: blocks[i].volumeNumber != blocks[j].volumeNumber
  }

  /** The next block of `w` either starts a volume unknown to it or continues the last block. */
  predicate Continuable(p: Pool, w: nat, last: Block) {
    if IsOpen(p, last.volumeNumber) then
      && Owns(p, w) && Held(p, w).number == last.volumeNumber
      && last.End() + Held(p, w).leftSize == p.volumeSize
    else
      last.End() == p.volumeSize
  }

  predicate NodeTidy(s: State, w: nat)
    requires w < |s.writers| == |s.pool.nodes|
  {
    var blocks := s.pool.nodes[w];
    && FullBeforeLast(s.pool, blocks)
    && DistinctVolumes(blocks)
    && (blocks != [] && !s.writers[w].phase.Closed? ==> Continuable(s.pool, w, blocks[|blocks| - 1]))
  }

  predicate Tidy(s: State) {
    |s.writers| == |s.pool.nodes| && forall w | 0 <= w < |s.writers| :: NodeTidy(s, w)
  }

  lemma HeldIsOpen(p: Pool, u: nat)
    requires Owns(p, u)
    ensures IsOpen(p, Held(p, u).number)
  {
  }

  /** A step that leaves the entry and the blocks of `u` alone and opens no volume that `u` has blocks in. */
  lemma UntouchedTidy(s: State, t: State, u: nat)
    requires u < |s.writers| == |s.pool.nodes| && u < |t.writers| == |t.pool.nodes| && NodeTidy(s, u)
    requires t.pool.nodes[u] == s.pool.nodes[u] && t.pool.volumeSize == s.pool.volumeSize
    requires t.writers[u].phase.Closed? <==> s.writers[u].phase.Closed?
    requires Owns(s.pool, u) ==> Owns(t.pool, u) && Held(t.pool, u) == Held(s.pool, u)
    requires NothingOpened(s.pool, t.pool, s.pool.nodes[u])
    ensures NodeTidy(t, u)
  {
    if Owns(s.pool, u) { HeldIsOpen(t.pool, u); }
  }

  /** No volume that the blocks lie in is newly open. */
  predicate NothingOpened(p: Pool, q: Pool, blocks: seq<Block>) {
    forall i | 0 <= i < |blocks| :: IsOpen(q, blocks[i].volumeNumber) ==> IsOpen(p, blocks[i].volumeNumber)
  }

  lemma FindTidy(s: State, w: nat, u: nat)
    requires Sound(s) && StoreContents.Stored(s) && Enabled(s, Find(w)) && u < |s.writers| && NodeTidy(s, u)
    ensures NodeTidy(Apply(s, Find(w)), u)
  {
    var t := Apply(s, Find(w));
    var open, f, blocks := s.pool.open, LastFree(s.pool.open), s.pool.nodes[u];
    if Owns(s.pool, w) {
      UntouchedTidy(s, t, u);
    } else if f < |open| {
      var e := open[f].(owner := Some(w));
      if u != w { OthersAfterUpdate(open, f, e, u); }
      forall i | 0 <= i < |blocks|
        ensures IsOpen(t.pool, blocks[i].volumeNumber) ==> IsOpen(s.pool, blocks[i].volumeNumber)
      {
        OpenAfterUpdate(s, f, e, t, blocks[i].volumeNumber);
      }
      UntouchedTidy(s, t, u);
    } else {
      FindNewTidy(s, w, u);
    }
  }

  lemma FindNewTidy(s: State, w: nat, u: nat)
    requires Sound(s) && StoreContents.Stored(s) && Enabled(s, Find(w)) && u < |s.writers| && NodeTidy(s, u)
    requires !Owns(s.pool, w) && LastFree(s.pool.open) == |s.pool.open|
    ensures NodeTidy(Apply(s, Find(w)), u)
  {
    var t := Apply(s, Find(w));
    var blocks := s.pool.nodes[u];
    if u != w { OthersAfterPush(s.pool.open, OpenVolume(|s.pool.files|, s.pool.volumeSize, Some(w)), u); }
    assert StoreContents.NodeStored(s, u);
    forall i | 0 <= i < |blocks|
      ensures IsOpen(t.pool, blocks[i].volumeNumber) ==> IsOpen(s.pool, blocks[i].volumeNumber)
    {
      assert Fits(s.pool.files, blocks[i]);
      NewVolumeOpens(s, w, t, blocks[i].volumeNumber);
    }
    UntouchedTidy(s, t, u);
  }

  lemma CloseTidy(s: State, w: nat, u: nat)
    requires Sound(s) && Enabled(s, Close(w)) && u < |s.writers| == |s.pool.nodes| && NodeTidy(s, u)
    ensures NodeTidy(Apply(s, Close(w)), u)
  {
    var t := Apply(s, Close(w));
    var open, i, blocks := s.pool.open, FirstOwned(s.pool.open, w), s.pool.nodes[u];
    if i < |open| {
      var e := open[i].(owner := None);
      forall k | 0 <= k < |blocks|
        ensures IsOpen(t.pool, blocks[k].volumeNumber) ==> IsOpen(s.pool, blocks[k].volumeNumber)
      {
        OpenAfterUpdate(s, i, e, t, blocks[k].volumeNumber);
      }
      if u != w { OthersAfterUpdate(open, i, e, u); }
    }
    if u != w { UntouchedTidy(s, t, u); }
  }

  /** Recording leaves the entries of the others. */
  lemma RecordEntries(s: State, w: nat, u: nat)
    requires Sound(s) && Enabled(s, Record(w)) && u != w && Owns(s.pool, u)
    ensures var q := Apply(s, Record(w)).pool; Owns(q, u) && Held(q, u) == Held(s.pool, u)
  {
    var open, i, phase := s.pool.open, FirstOwned(s.pool.open, w), s.writers[w].phase;
    assert PhaseOk(s.pool, w, phase) && EntryAccounted(s, open[i]);
    assert open[i].owner != Some(u);
    if open[i].leftSize == phase.n {
      assert Apply(s, Record(w)).pool.open == Without(open, i);
      OthersAfterRemoval(open, i, u);
    } else {
      var e := open[i].(leftSize := open[i].leftSize - phase.n);
      assert Apply(s, Record(w)).pool.open == open[i := e];
      OthersAfterUpdate(open, i, e, u);
    }
  }

  lemma RecordOpensNothing(s: State, w: nat, v: nat)
    requires Sound(s) && Enabled(s, Record(w))
    ensures IsOpen(Apply(s, Record(w)).pool, v) ==> IsOpen(s.pool, v)
  {
    var t := Apply(s, Record(w));
    var i, phase := FirstOwned(s.pool.open, w), s.writers[w].phase;
    assert PhaseOk(s.pool, w, phase) && EntryAccounted(s, s.pool.open[i]);
    if s.pool.open[i].leftSize == phase.n {
      RemovalCloses(s, w, t, v);
    } else {
      OpenAfterUpdate(s, i, t.pool.open[i], t, v);
    }
  }

  lemma RecordTidyOther(s: State, w: nat, u: nat)
    requires Sound(s) && Enabled(s, Record(w)) && u < |s.writers| == |s.pool.nodes| && NodeTidy(s, u) && u != w
    requires Sound(Apply(s, Record(w)))
    ensures NodeTidy(Apply(s, Record(w)), u)
  {
    var t, blocks := Apply(s, Record(w)), s.pool.nodes[u];
    forall i | 0 <= i < |blocks|
      ensures IsOpen(t.pool, blocks[i].volumeNumber) ==> IsOpen(s.pool, blocks[i].volumeNumber)
    {
      RecordOpensNothing(s, w, blocks[i].volumeNumber);
    }
    if Owns(s.pool, u) { RecordEntries(s, w, u); }
    UntouchedTidy(s, t, u);
  }

  /** The blocks after recording in a held volume: merged into the last one exactly when that is in this volume. */
  lemma RecordedTidy(p: Pool, w: nat, blocks: seq<Block>, b: Block)
    requires FullBeforeLast(p, blocks) && DistinctVolumes(blocks)
    requires blocks != [] ==> Continuable(p, w, blocks[|blocks| - 1])
    requires Owns(p, w) && b.volumeNumber == Held(p, w).number && b.offset + Held(p, w).leftSize == p.volumeSize
    ensures var r := Recorded(blocks, b);
            FullBeforeLast(p, r) && DistinctVolumes(r) && r[|r| - 1].volumeNumber == b.volumeNumber
            && r[|r| - 1].End() == b.End()
  {
    HeldIsOpen(p, w);
    var r := Recorded(blocks, b);
    if Continues(blocks, b) {
      assert forall k | 0 <= k < |r| - 1 :: r[k] == blocks[k];
    } else {
      assert forall k | 0 <= k < |blocks| :: r[k] == blocks[k] && r[k].volumeNumber != b.volumeNumber;
    }
  }

  lemma StillFull(p: Pool, q: Pool, blocks: seq<Block>)
    requires FullBeforeLast(p, blocks) && q.volumeSize == p.volumeSize && NothingOpened(p, q, blocks)
    ensures FullBeforeLast(q, blocks)
  {
  }

  lemma RecordTidySelf(s: State, w: nat)
    requires Sound(s) && Enabled(s, Record(w)) && |s.writers| == |s.pool.nodes| && NodeTidy(s, w)
    requires Sound(Apply(s, Record(w)))
    ensures NodeTidy(Apply(s, Record(w)), w)
  {
    var t := Apply(s, Record(w));
    var phase := s.writers[w].phase;
    assert PhaseOk(s.pool, w, phase) && EntryAccounted(s, Held(s.pool, w));
    var b := Block(phase.volume, phase.offset, phase.n);
    var r := Recorded(s.pool.nodes[w], b);
    RecordedTidy(s.pool, w, s.pool.nodes[w], b);
    forall i | 0 <= i < |r| ensures IsOpen(t.pool, r[i].volumeNumber) ==> IsOpen(s.pool, r[i].volumeNumber) {
      RecordOpensNothing(s, w, r[i].volumeNumber);
    }
    StillFull(s.pool, t.pool, r);
    RecordContinuable(s, w, r[|r| - 1]);
  }

  lemma RecordContinuable(s: State, w: nat, last: Block)
    requires Sound(s) && Enabled(s, Record(w))
    requires last.volumeNumber == s.writers[w].phase.volume
    requires last.End() == s.writers[w].phase.offset + s.writers[w].phase.n
    ensures Continuable(Apply(s, Record(w)).pool, w, last)
  {
    var t := Apply(s, Record(w));
    var i, phase := FirstOwned(s.pool.open, w), s.writers[w].phase;
    assert PhaseOk(s.pool, w, phase) && EntryAccounted(s, s.pool.open[i]);
    if s.pool.open[i].leftSize == phase.n {
      RemovalCloses(s, w, t, phase.volume);
    } else {
      FirstOwnedIs(t.pool.open, w, i);
      HeldIsOpen(t.pool, w);
    }
  }

  /** Create, Begin, Locate and Append change neither the pool's entries nor any blocks. */
  lemma QuietTidy(s: State, t: State, u: nat)
    requires u < |s.writers| == |s.pool.nodes| && u < |t.writers| == |t.pool.nodes| && NodeTidy(s, u)
    requires t.pool.nodes[u] == s.pool.nodes[u] && t.pool.volumeSize == s.pool.volumeSize
    requires t.writers[u].phase.Closed? <==> s.writers[u].phase.Closed?
    requires t.pool.open == s.pool.open
    ensures NodeTidy(t, u)
  {
    UntouchedTidy(s, t, u);
  }

  lemma StepTidy(s: State, step: Step)
    requires Sound(s) && StoreContents.Stored(s) && Tidy(s) && Enabled(s, step)
    ensures Tidy(Apply(s, step))
  {
    StepSound(s, step);
    forall u | 0 <= u < |Apply(s, step).writers| ensures NodeTidy(Apply(s, step), u) {
      if u < |s.writers| {
        assert NodeTidy(s, u);
        match step
        case Find(w) => FindTidy(s, w, u);
        case Record(w) => if u == w { RecordTidySelf(s, w); } else { RecordTidyOther(s, w, u); }
        case Close(w) => CloseTidy(s, w, u);
        case _ => QuietTidy(s, Apply(s, step), u);
      }
    }
  }

  /** Some writer's block, or its current round, is in volume `v`. */
  predicate InUse(s: State, v: nat) {
    exists w | 0 <= w < |s.writers| :: UsesVolume(s, w, v)
  }

  predicate UsesVolume(s: State, w: nat, v: nat) {
    && w < |s.writers| && w < |s.pool.nodes|
    && (HasBlockIn(s.pool.nodes[w], v) || (s.writers[w].phase.Holds() && s.writers[w].phase.volume == v))
  }

  predicate HasBlockIn(blocks: seq<Block>, v: nat) {
    exists i | 0 <= i < |blocks| :: blocks[i].volumeNumber == v
  }

  predicate Dense(s: State) {
    forall v | 0 <= v < |s.pool.files| :: InUse(s, v)
  }

  lemma RecordedHasBlock(blocks: seq<Block>, b: Block, v: nat)
    ensures HasBlockIn(Recorded(blocks, b), v) <==> HasBlockIn(blocks, v) || b.volumeNumber == v
  {
    var r := Recorded(blocks, b);
    if HasBlockIn(blocks, v) {
      var i :| 0 <= i < |blocks| && blocks[i].volumeNumber == v;
      assert r[i].volumeNumber == v;
    }
    assert r[|r| - 1].volumeNumber == b.volumeNumber;
    if HasBlockIn(r, v) && b.volumeNumber != v {
      var i :| 0 <= i < |r| && r[i].volumeNumber == v;
      assert blocks[i].volumeNumber == v;
    }
  }

  lemma StepDense(s: State, step: Step)
    requires Sound(s) && Dense(s) && Enabled(s, step)
    ensures Dense(Apply(s, step))
  {
    var t := Apply(s, step);
    forall v | 0 <= v < |t.pool.files| ensures InUse(t, v) {
      if v < |s.pool.files| {
        assert InUse(s, v);
        var u :| 0 <= u < |s.writers| && UsesVolume(s, u, v);
        UseSurvives(s, step, u, v);
      } else {
        assert UsesVolume(t, step.w, v);
      }
    }
  }

  lemma UseSurvives(s: State, step: Step, u: nat, v: nat)
    requires Sound(s) && Enabled(s, step) && UsesVolume(s, u, v)
    ensures UsesVolume(Apply(s, step), u, v)
  {
    if step.Record? && step.w == u {
      var phase := s.writers[u].phase;
      assert PhaseOk(s.pool, u, phase);
      RecordedHasBlock(s.pool.nodes[u], Block(phase.volume, phase.offset, phase.n), v);
    }
  }

  /** Distinct live writers are at most as many as there are live writers. */
  lemma {:induction false} DistinctLive(writers: seq<Writer>, ids: set<nat>)
    requires forall u | u in ids :: u < |writers| && !writers[u].phase.Closed?
    ensures |ids| <= Live(writers)
  {
    if writers == [] {
      if u :| u in ids { assert false; }
    } else {
      var n := |writers| - 1;
      DistinctLive(writers[..n], ids - {n});
    }
  }

  /** The owners of fully owned, distinctly owned entries are as many as the entries. */
  lemma {:induction false} OwnersCount(open: seq<OpenVolume>) returns (owners: set<nat>)
    requires forall i | 0 <= i < |open| :: open[i].owner.Some?
    requires forall i, j | 0 <= i < j < |open| :: open[i].owner != open[j].owner
    ensures |owners| == |open|
    ensures forall u | u in owners :: FirstOwned(open, u) < |open|
  {
    if open == [] {
      owners := {};
    } else {
      var n := |open| - 1;
      var rest := OwnersCount(open[..n]);
      var last := open[n].owner.value;
      assert last !in rest;
      owners := rest + {last};
      forall u | u in owners ensures FirstOwned(open, u) < |open| {
        var i := if u == last then n else FirstOwned(open[..n], u);
        assert open[i].owner == Some(u);
      }
    }
  }

  lemma NewVolumeBounded(s: State, w: nat)
    requires Shape(s) && w < |s.writers| && s.writers[w].phase.Ready?
    requires !Owns(s.pool, w) && LastFree(s.pool.open) == |s.pool.open|
    ensures |s.pool.open| + 1 <= Live(s.writers)
  {
    var open := s.pool.open;
    forall i | 0 <= i < |open| ensures open[i].owner.Some? {
      assert open[i].owner != None;
    }
    var owners := OwnersCount(open);
    assert w !in owners;
    DistinctLive(s.writers, owners + {w});
  }

  /** Only a FindStream that finds nothing opens a volume. */
  lemma OpenGrowth(s: State, step: Step)
    requires Enabled(s, step)
    ensures |Apply(s, step).pool.open| <= |s.pool.open|
         || (step.Find? && !Owns(s.pool, step.w) && LastFree(s.pool.open) == |s.pool.open|
             && |Apply(s, step).pool.open| == |s.pool.open| + 1)
  {
  }

  /** A step opens a volume only while every open one has another live owner. */
  lemma StepBounded(s: State, step: Step, bound: nat)
    requires Sound(s) && Enabled(s, step) && Live(s.writers) <= bound && |s.pool.open| <= bound
    ensures |Apply(s, step).pool.open| <= bound
  {
    OpenGrowth(s, step);
    if |Apply(s, step).pool.open| > |s.pool.open| { NewVolumeBounded(s, step.w); }
  }
}
