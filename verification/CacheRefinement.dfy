/** What reading does to the handle cache, in the steps of its machine. */
module CacheRefinement {
  import opened Prelude
  import opened Blocks
  import opened HandleCache
  import opened HandleCacheRuns

  /** The cache of these volumes and streams: the handle count follows the open handles. */
  function Synced(volumes: seq<Volume>, streams: seq<Stream>): Cache {
    Cache(volumes, NumOpen(volumes) % UINT16_RANGE, streams)
  }

  /** A step of reading by stream `i`: a sweep, a use of its handle right after one, or the passing of a block. */
  predicate IsReadingStep(steps: seq<CacheStep>, k: nat, i: nat)
    requires k < |steps|
  {
    || steps[k] == Sweep || steps[k] == PassBlock(i)
    || (steps[k] == UseHandle(i) && k > 0 && steps[k - 1] == Sweep)
  }

  predicate IsReading(steps: seq<CacheStep>, i: nat) {
    forall k | 0 <= k < |steps| :: IsReadingStep(steps, k, i)
  }

  /** Reading through stream `i`, undisturbed, takes the cache from `c` to `d`. */
  ghost predicate ReadsTo(c: Cache, i: nat, d: Cache) {
    exists steps :: IsReading(steps, i) && RunCache(c, steps) == Some(d)
  }

  lemma ReadsNothing(c: Cache, i: nat)
    ensures ReadsTo(c, i, c)
  {
    assert IsReading([], i) && RunCache(c, []) == Some(c);
  }

  lemma ReadsOneStep(c: Cache, i: nat, step: CacheStep)
    requires step in {Sweep, PassBlock(i)} && Possible(c, step)
    ensures ReadsTo(c, i, After(c, step))
  {
    assert RunCache(c, [step]) == RunCache(After(c, step), []);
    assert IsReading([step], i);
  }

  lemma {:induction false} RunCacheAppend(c: Cache, a: seq<CacheStep>, b: seq<CacheStep>, d: Cache)
    requires RunCache(c, a) == Some(d)
    ensures RunCache(c, a + b) == RunCache(d, b)
    decreases |a|
  {
    if a == [] {
      assert a + b == b;
    } else {
      RunCacheAppend(After(c, a[0]), a[1..], b, d);
      assert (a + b)[1..] == a[1..] + b;
    }
  }

  lemma ReadingConcat(a: seq<CacheStep>, b: seq<CacheStep>, i: nat)
    requires IsReading(a, i) && IsReading(b, i)
    ensures IsReading(a + b, i)
  {
    forall k | 0 <= k < |a + b| ensures IsReadingStep(a + b, k, i) {
      if k < |a| {
        assert IsReadingStep(a, k, i);
      } else {
        assert IsReadingStep(b, k - |a|, i);
      }
    }
  }

  lemma ReadsOn(c: Cache, i: nat, d: Cache, e: Cache)
    requires ReadsTo(c, i, d) && ReadsTo(d, i, e)
    ensures ReadsTo(c, i, e)
  {
    var a :| IsReading(a, i) && RunCache(c, a) == Some(d);
    var b :| IsReading(b, i) && RunCache(d, b) == Some(e);
    RunCacheAppend(c, a, b, d);
    ReadingConcat(a, b, i);
  }

  /** A read from the volume files of a block: a sweep, and unless nothing is read the use of its handle. */
  lemma ReadSteps(volumes: seq<Volume>, streams: seq<Stream>, i: nat, count: nat)
    requires i < |streams| && streams[i].Ok(|volumes|) && streams[i].Reading()
    ensures var v := streams[i].blocks[streams[i].passed].volumeNumber;
            ReadsTo(Synced(volumes, streams), i,
                    Synced(AfterRead(volumes, NumOpen(volumes) % UINT16_RANGE, v, count), streams))
  {
    var c, v := Synced(volumes, streams), streams[i].blocks[streams[i].passed].volumeNumber;
    var swept := SweptIfMany(volumes, NumOpen(volumes) % UINT16_RANGE);
    AfterSweep(c);
    ReadsOneStep(c, i, Sweep);
    if count > 0 {
      AfterUse(swept, streams, i);
      SweepAndUse(c, i, After(c, Sweep), Synced(Opened(swept, v), streams));
    }
  }

  lemma SweepAndUse(c: Cache, i: nat, d: Cache, e: Cache)
    requires d == After(c, Sweep) && Possible(d, UseHandle(i)) && e == After(d, UseHandle(i))
    ensures ReadsTo(c, i, e)
  {
    assert RunCache(d, [UseHandle(i)]) == RunCache(e, []);
    assert [Sweep, UseHandle(i)][1..] == [UseHandle(i)];
    assert RunCache(c, [Sweep, UseHandle(i)]) == RunCache(d, [UseHandle(i)]);
    assert IsReading([Sweep, UseHandle(i)], i);
  }

  lemma AfterUse(volumes: seq<Volume>, streams: seq<Stream>, i: nat)
    requires i < |streams| && streams[i].Ok(|volumes|) && streams[i].Reading()
    ensures var v := streams[i].blocks[streams[i].passed].volumeNumber;
            After(Synced(volumes, streams), UseHandle(i)) == Synced(Opened(volumes, v), streams)
  {
    var v := streams[i].blocks[streams[i].passed].volumeNumber;
    NumOpenUpdate(volumes, v, volumes[v].(isOpen := true));
    OneMore(NumOpen(volumes) % UINT16_RANGE, NumOpen(volumes));
    if volumes[v].isOpen { assert Opened(volumes, v) == volumes; }
  }

  /** Leaving a block is one step. */
  lemma PassSteps(volumes: seq<Volume>, streams: seq<Stream>, i: nat)
    requires i < |streams| && streams[i].Ok(|volumes|) && streams[i].Reading()
    ensures var s := streams[i];
            ReadsTo(Synced(volumes, streams), i,
                    Synced(Decremented(volumes, s.blocks[s.passed].volumeNumber),
                           streams[i := s.(passed := s.passed + 1)]))
  {
    var v := streams[i].blocks[streams[i].passed].volumeNumber;
    NumOpenUpdate(volumes, v, Decremented(volumes, v)[v]);
    ReadsOneStep(Synced(volumes, streams), i, PassBlock(i));
  }

  /** A stream that has come to block `n` of its blocks goes on to the next. */
  lemma PassesOn(start: Cache, volumes: seq<Volume>, streams: seq<Stream>, i: nat, blocks: seq<Block>, n: nat)
    requires i < |streams| && InRange(|volumes|, blocks) && n < |blocks|
    requires ReadsTo(start, i, Synced(volumes, streams[i := Stream(blocks, |blocks|, n)]))
    ensures ReadsTo(start, i, Synced(Decremented(volumes, blocks[n].volumeNumber),
                                     streams[i := Stream(blocks, |blocks|, n + 1)]))
  {
    var here, there := streams[i := Stream(blocks, |blocks|, n)], streams[i := Stream(blocks, |blocks|, n + 1)];
    PassSteps(volumes, here, i);
    assert here[i := Stream(blocks, |blocks|, n + 1)] == there;
    ReadsOn(start, i, Synced(volumes, here), Synced(Decremented(volumes, blocks[n].volumeNumber), there));
  }

  /** Stream `i` counts its blocks from `n` on. */
  function CountingFrom(blocks: seq<Block>, i: nat, n: nat): seq<CacheStep>
    requires n <= |blocks|
    decreases |blocks| - n
  {
    if n == |blocks| then [] else [CountBlock(i)] + CountingFrom(blocks, i, n + 1)
  }

  lemma CountedNext(volumes: seq<Volume>, blocks: seq<Block>, n: nat)
    requires InRange(|volumes|, blocks) && n < |blocks|
    ensures Incremented(CountedFor(volumes, blocks[..n]), blocks[n].volumeNumber)
         == CountedFor(volumes, blocks[..n + 1])
  {
    assert blocks[..n + 1] == blocks[..n] + [blocks[n]];
    forall v | 0 <= v < |volumes|
      ensures CountIn(blocks[..n + 1], v) == CountIn(blocks[..n], v) + if blocks[n].volumeNumber == v then 1 else 0
    {
      CountInAppend(blocks[..n], [blocks[n]], v);
      CountInOne(blocks[n], v);
    }
  }

  lemma {:induction false} CountingSteps(volumes: seq<Volume>, streams: seq<Stream>, i: nat, blocks: seq<Block>, n: nat)
    requires i < |streams| && InRange(|volumes|, blocks) && n <= |blocks| && streams[i] == Stream(blocks, n, 0)
    ensures RunCache(Synced(CountedFor(volumes, blocks[..n]), streams), CountingFrom(blocks, i, n))
         == Some(Synced(CountedFor(volumes, blocks), streams[i := Stream(blocks, |blocks|, 0)]))
    decreases |blocks| - n
  {
    if n == |blocks| {
      assert blocks[..n] == blocks && streams[i := Stream(blocks, |blocks|, 0)] == streams;
    } else {
      var before, steps := CountedFor(volumes, blocks[..n]), CountingFrom(blocks, i, n);
      var v, next := blocks[n].volumeNumber, streams[i := Stream(blocks, n + 1, 0)];
      CountedNext(volumes, blocks, n);
      NumOpenUpdate(before, v, Incremented(before, v)[v]);
      assert steps[0] == CountBlock(i) && steps[1..] == CountingFrom(blocks, i, n + 1);
      assert After(Synced(before, streams), CountBlock(i)) == Synced(CountedFor(volumes, blocks[..n + 1]), next);
      CountingSteps(volumes, next, i, blocks, n + 1);
      assert next[i := Stream(blocks, |blocks|, 0)] == streams[i := Stream(blocks, |blocks|, 0)];
    }
  }

  /** Opening a stream, with all its blocks counted, is a run of its machine. */
  lemma {:induction false} OpeningSteps(volumes: seq<Volume>, streams: seq<Stream>, blocks: seq<Block>)
    requires InRange(|volumes|, blocks)
    ensures RunCache(Synced(volumes, streams), [OpenStream(blocks)] + CountingFrom(blocks, |streams|, 0))
         == Some(Synced(CountedFor(volumes, blocks), streams + [Stream(blocks, |blocks|, 0)]))
  {
    var added, i := streams + [Stream(blocks, 0, 0)], |streams|;
    assert blocks[..0] == [] && CountedFor(volumes, blocks[..0]) == volumes;
    var steps := [OpenStream(blocks)] + CountingFrom(blocks, i, 0);
    assert steps[0] == OpenStream(blocks) && steps[1..] == CountingFrom(blocks, i, 0);
    CountingSteps(volumes, added, i, blocks, 0);
    assert added[i := Stream(blocks, |blocks|, 0)] == streams + [Stream(blocks, |blocks|, 0)];
  }
}
