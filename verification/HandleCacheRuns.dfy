/** Any number of streams reading at once: what the reference counts and the handle count mean in every state. */
module HandleCacheRuns {
  import opened Prelude
  import Blocks
  import opened HandleCache

  /** A stream first counts its blocks one by one; then it passes them one by one. */
  datatype Stream = Stream(blocks: seq<Blocks.Block>, counted: nat, passed: nat) {
    predicate Ok(volumeCount: nat) {
      && InRange(volumeCount, blocks) && passed <= counted <= |blocks|
      && (passed > 0 ==> counted == |blocks|)
    }

    predicate Reading() {
      counted == |blocks| && passed < |blocks|
    }

    /** The blocks that are counted and not yet passed. */
    function Pending(): seq<Blocks.Block>
      requires passed <= counted <= |blocks|
    {
      blocks[passed..counted]
    }
  }

  datatype Cache = Cache(volumes: seq<Volume>, nOpenVolumes: nat, streams: seq<Stream>)

  /** The locked sections: a stream is opened, counts a block, uses the handle of its block, passes its block; a sweep
      looks at one volume, between any steps of others; and the whole sweep of CloseUnusedVolumes undisturbed. */
  datatype CacheStep =
    | OpenStream(blocks: seq<Blocks.Block>)
    | CountBlock(i: nat)
    | UseHandle(i: nat)
    | PassBlock(i: nat)
    | CloseIfUnused(v: nat)
    | Sweep

  function InitialCache(volumeCount: nat): Cache {
    Cache(seq(volumeCount, _ => Volume(false, 0)), 0, [])
  }

  predicate Possible(c: Cache, step: CacheStep) {
    match step
    case OpenStream(blocks) => InRange(|c.volumes|, blocks)
    case CloseIfUnused(v) => v < |c.volumes|
    case Sweep => true
    case CountBlock(i) =>
      i < |c.streams| && c.streams[i].Ok(|c.volumes|) && c.streams[i].counted < |c.streams[i].blocks|
    case UseHandle(i) => i < |c.streams| && c.streams[i].Ok(|c.volumes|) && c.streams[i].Reading()
    case PassBlock(i) => i < |c.streams| && c.streams[i].Ok(|c.volumes|) && c.streams[i].Reading()
  }

  function After(c: Cache, step: CacheStep): Cache
    requires Possible(c, step)
  {
    match step
    case OpenStream(blocks) => c.(streams := c.streams + [Stream(blocks, 0, 0)])
    case CountBlock(i) =>
      var s := c.streams[i];
      c.(volumes := Incremented(c.volumes, s.blocks[s.counted].volumeNumber),
         streams := c.streams[i := s.(counted := s.counted + 1)])
    case UseHandle(i) =>
      var v := c.streams[i].blocks[c.streams[i].passed].volumeNumber;
      c.(volumes := Opened(c.volumes, v),
         nOpenVolumes := if c.volumes[v].isOpen then c.nOpenVolumes else (c.nOpenVolumes + 1) % UINT16_RANGE)
    case PassBlock(i) =>
      var s := c.streams[i];
      c.(volumes := Decremented(c.volumes, s.blocks[s.passed].volumeNumber),
         streams := c.streams[i := s.(passed := s.passed + 1)])
    case CloseIfUnused(v) =>
      if c.volumes[v].counter == 0 && c.volumes[v].isOpen then
        c.(volumes := c.volumes[v := c.volumes[v].(isOpen := false)],
           nOpenVolumes := (c.nOpenVolumes - 1) % UINT16_RANGE)
      else c
    case Sweep =>
      if c.nOpenVolumes > MANY_HANDLES then
        var closed := NumOpen(c.volumes) - NumOpen(Swept(c.volumes));
        c.(volumes := Swept(c.volumes), nOpenVolumes := (c.nOpenVolumes - closed) % UINT16_RANGE)
      else c
  }

  function RunCache(c: Cache, steps: seq<CacheStep>): Option<Cache>
    decreases |steps|
  {
    if steps == [] then Some(c)
    else if Possible(c, steps[0]) then RunCache(After(c, steps[0]), steps[1..])
    else None
  }

  predicate StreamsOk(c: Cache) {
    forall i | 0 <= i < |c.streams| :: c.streams[i].Ok(|c.volumes|)
  }

  /** For each stream, its pending blocks in volume `v`. */
  function PendingIn(c: Cache, v: nat): seq<nat>
    requires StreamsOk(c)
  {
    seq(|c.streams|, i requires 0 <= i < |c.streams| => CountIn(c.streams[i].Pending(), v))
  }

  /** A volume's counter is the number of pending blocks in it, over all streams. */
  predicate CountersExact(c: Cache)
    requires StreamsOk(c)
  {
    forall v | 0 <= v < |c.volumes| :: c.volumes[v].counter == Sum(PendingIn(c, v))
  }

  predicate CacheOk(c: Cache) {
    StreamsOk(c) && CountersExact(c) && c.nOpenVolumes == NumOpen(c.volumes) % UINT16_RANGE
  }

  lemma OpenStreamOk(c: Cache, blocks: seq<Blocks.Block>)
    requires CacheOk(c) && InRange(|c.volumes|, blocks)
    ensures CacheOk(After(c, OpenStream(blocks)))
  {
    var d := After(c, OpenStream(blocks));
    assert StreamsOk(d);
    forall v | 0 <= v < |d.volumes| ensures d.volumes[v].counter == Sum(PendingIn(d, v)) {
      assert PendingIn(d, v) == PendingIn(c, v) + [0];
      SumAppend(PendingIn(c, v), [0]);
    }
  }

  /** Only stream `i` moved, and the counters moved with its pending blocks. */
  lemma StreamMoved(c: Cache, i: nat, d: Cache)
    requires CacheOk(c) && i < |c.streams| == |d.streams| && |d.volumes| == |c.volumes|
    requires d.streams == c.streams[i := d.streams[i]] && d.streams[i].Ok(|d.volumes|)
    requires forall v | 0 <= v < |c.volumes| ::
               d.volumes[v].counter + CountIn(c.streams[i].Pending(), v)
               == c.volumes[v].counter + CountIn(d.streams[i].Pending(), v)
    ensures StreamsOk(d) && CountersExact(d)
  {
    assert StreamsOk(d);
    forall v | 0 <= v < |d.volumes| ensures d.volumes[v].counter == Sum(PendingIn(d, v)) {
      var x := CountIn(d.streams[i].Pending(), v);
      assert PendingIn(d, v) == PendingIn(c, v)[i := x];
      SumUpdate(PendingIn(c, v), i, x);
    }
  }

  lemma CountBlockOk(c: Cache, i: nat)
    requires CacheOk(c) && Possible(c, CountBlock(i))
    ensures CacheOk(After(c, CountBlock(i)))
  {
    var d, s := After(c, CountBlock(i)), c.streams[i];
    var b := s.blocks[s.counted];
    assert d.streams[i].Pending() == s.Pending() + [b];
    forall v | 0 <= v < |c.volumes|
      ensures d.volumes[v].counter + CountIn(s.Pending(), v)
           == c.volumes[v].counter + CountIn(d.streams[i].Pending(), v)
    {
      CountInAppend(s.Pending(), [b], v);
      CountInOne(b, v);
    }
    StreamMoved(c, i, d);
    NumOpenUpdate(c.volumes, b.volumeNumber, d.volumes[b.volumeNumber]);
  }

  lemma SumAtLeast(numbers: seq<nat>, i: nat)
    requires i < |numbers|
    ensures numbers[i] <= Sum(numbers)
  {
    SumUpdate(numbers, i, 0);
  }

  /** The counter of the block at hand is positive, so giving it back cannot underflow and no sweep closes its
      handle. */
  lemma BlockAtHandCounted(c: Cache, i: nat)
    requires CacheOk(c) && i < |c.streams| && c.streams[i].Reading()
    ensures c.streams[i].blocks[c.streams[i].passed].volumeNumber < |c.volumes|
    ensures c.volumes[c.streams[i].blocks[c.streams[i].passed].volumeNumber].counter > 0
  {
    var s := c.streams[i];
    assert s.Ok(|c.volumes|);
    var v := s.blocks[s.passed].volumeNumber;
    assert s.Pending()[0].volumeNumber == v;
    assert PendingIn(c, v)[i] > 0;
    SumAtLeast(PendingIn(c, v), i);
  }

  lemma PassBlockOk(c: Cache, i: nat)
    requires CacheOk(c) && Possible(c, PassBlock(i))
    ensures CacheOk(After(c, PassBlock(i)))
  {
    var d, s := After(c, PassBlock(i)), c.streams[i];
    var b := s.blocks[s.passed];
    BlockAtHandCounted(c, i);
    assert s.Pending() == [b] + d.streams[i].Pending();
    forall v | 0 <= v < |c.volumes|
      ensures d.volumes[v].counter + CountIn(s.Pending(), v)
           == c.volumes[v].counter + CountIn(d.streams[i].Pending(), v)
    {
      CountInAppend([b], d.streams[i].Pending(), v);
      CountInOne(b, v);
    }
    StreamMoved(c, i, d);
    NumOpenUpdate(c.volumes, b.volumeNumber, d.volumes[b.volumeNumber]);
  }

  /** Steps that change handles only. */
  lemma HandlesMoved(c: Cache, d: Cache)
    requires CacheOk(c) && d.streams == c.streams && |d.volumes| == |c.volumes|
    requires forall v | 0 <= v < |c.volumes| :: d.volumes[v].counter == c.volumes[v].counter
    ensures StreamsOk(d) && CountersExact(d)
  {
    forall v | 0 <= v < |d.volumes| ensures d.volumes[v].counter == Sum(PendingIn(d, v)) {
      assert PendingIn(d, v) == PendingIn(c, v);
    }
  }

  lemma {:induction false} SweepCloses(volumes: seq<Volume>)
    ensures NumOpen(Swept(volumes)) <= NumOpen(volumes)
  {
    if volumes != [] {
      var n := |volumes| - 1;
      SweepCloses(volumes[..n]);
      assert Swept(volumes)[..n] == Swept(volumes[..n]);
    }
  }

  lemma UseHandleOk(c: Cache, i: nat)
    requires CacheOk(c) && Possible(c, UseHandle(i))
    ensures CacheOk(After(c, UseHandle(i)))
  {
    var v := c.streams[i].blocks[c.streams[i].passed].volumeNumber;
    NumOpenUpdate(c.volumes, v, c.volumes[v].(isOpen := true));
    assert NumOpen(Opened(c.volumes, v)) == NumOpen(c.volumes) + if c.volumes[v].isOpen then 0 else 1;
    OneMore(c.nOpenVolumes, NumOpen(c.volumes));
    HandlesMoved(c, After(c, UseHandle(i)));
  }

  lemma OneMore(counter: nat, n: nat)
    requires counter == n % UINT16_RANGE
    ensures (counter + 1) % UINT16_RANGE == (n + 1) % UINT16_RANGE
  {
  }

  lemma CloseIfUnusedOk(c: Cache, v: nat)
    requires CacheOk(c) && v < |c.volumes|
    ensures CacheOk(After(c, CloseIfUnused(v)))
  {
    if c.volumes[v].counter == 0 && c.volumes[v].isOpen {
      NumOpenUpdate(c.volumes, v, c.volumes[v].(isOpen := false));
      OneLess(c.nOpenVolumes, NumOpen(c.volumes));
    }
    HandlesMoved(c, After(c, CloseIfUnused(v)));
  }

  lemma OneLess(counter: nat, n: nat)
    requires counter == n % UINT16_RANGE
    ensures (counter - 1) % UINT16_RANGE == (n - 1) % UINT16_RANGE
  {
  }

  lemma SweepOk(c: Cache)
    requires CacheOk(c)
    ensures CacheOk(After(c, Sweep))
  {
    SweepCloses(c.volumes);
    HandlesMoved(c, After(c, Sweep));
  }

  lemma StepCacheOk(c: Cache, step: CacheStep)
    requires CacheOk(c) && Possible(c, step)
    ensures CacheOk(After(c, step))
  {
    match step
    case OpenStream(blocks) => OpenStreamOk(c, blocks);
    case CountBlock(i) => CountBlockOk(c, i);
    case PassBlock(i) => PassBlockOk(c, i);
    case UseHandle(i) => UseHandleOk(c, i);
    case CloseIfUnused(v) => CloseIfUnusedOk(c, v);
    case Sweep => SweepOk(c);
  }

  lemma {:induction false} RunCacheOk(c: Cache, steps: seq<CacheStep>, d: Cache)
    requires CacheOk(c) && RunCache(c, steps) == Some(d)
    ensures CacheOk(d) && |d.volumes| == |c.volumes|
    decreases |steps|
  {
    if steps != [] {
      StepCacheOk(c, steps[0]);
      RunCacheOk(After(c, steps[0]), steps[1..], d);
    }
  }

  lemma InitialCacheOk(volumeCount: nat)
    ensures CacheOk(InitialCache(volumeCount))
  {
    var c := InitialCache(volumeCount);
    NoneOpen(c.volumes);
    forall v | 0 <= v < |c.volumes| ensures c.volumes[v].counter == Sum(PendingIn(c, v)) {
      assert PendingIn(c, v) == [];
    }
  }

  /** The handle cache in every reachable state: exact reference counts, exact handle count (below 2^16 volumes),
      and every stream's current volume is protected. */
  lemma CacheInvariant(volumeCount: nat, steps: seq<CacheStep>, d: Cache)
    requires RunCache(InitialCache(volumeCount), steps) == Some(d)
    ensures StreamsOk(d) && CountersExact(d)
    ensures volumeCount < 0x1_0000 ==> d.nOpenVolumes == NumOpen(d.volumes)
    ensures forall i | 0 <= i < |d.streams| && d.streams[i].Reading() ::
              d.volumes[d.streams[i].blocks[d.streams[i].passed].volumeNumber].counter > 0
  {
    InitialCacheOk(volumeCount);
    RunCacheOk(InitialCache(volumeCount), steps, d);
    NumOpenBound(d.volumes);
    forall i | 0 <= i < |d.streams| && d.streams[i].Reading()
      ensures d.volumes[d.streams[i].blocks[d.streams[i].passed].volumeNumber].counter > 0
    {
      BlockAtHandCounted(d, i);
    }
  }

  /** After a sweep at most 100 handles are open or every open handle is needed, and no needed handle was closed. */
  lemma SweepBound(volumeCount: nat, steps: seq<CacheStep>, d: Cache)
    requires RunCache(InitialCache(volumeCount), steps) == Some(d) && volumeCount < 0x1_0000
    ensures var e := After(d, Sweep);
            && StreamsOk(d) && |e.volumes| == |d.volumes|
            && (NumOpen(d.volumes) <= 100 ==> e.volumes == d.volumes)
            && (NumOpen(e.volumes) <= 100
                || forall v | 0 <= v < |e.volumes| && e.volumes[v].isOpen :: Sum(PendingIn(d, v)) > 0)
            && (forall v | 0 <= v < |d.volumes| && Sum(PendingIn(d, v)) > 0 :: e.volumes[v] == d.volumes[v])
  {
    CacheInvariant(volumeCount, steps, d);
  }

  /** A sweep looks at the volumes from `v` on. */
  function SweepFrom(n: nat, v: nat): seq<CacheStep>
    requires v <= n
    decreases n - v
  {
    if v == n then [] else [CloseIfUnused(v)] + SweepFrom(n, v + 1)
  }

  /** The volumes once a sweep has looked at the first `v`. */
  function SweptUpTo(volumes: seq<Volume>, v: nat): seq<Volume>
    requires v <= |volumes|
  {
    Swept(volumes[..v]) + volumes[v..]
  }

  lemma SweptNext(volumes: seq<Volume>, v: nat)
    requires v < |volumes|
    ensures SweptUpTo(volumes, v + 1) == SweptUpTo(volumes, v)[v := SweptVolume(volumes[v])]
    ensures SweptUpTo(volumes, v)[v] == volumes[v]
  {
  }

  lemma {:induction false} SweepFromSweeps(c: Cache, volumes: seq<Volume>, v: nat)
    requires v <= |volumes| && c.volumes == SweptUpTo(volumes, v)
    requires c.nOpenVolumes == NumOpen(c.volumes) % UINT16_RANGE
    ensures RunCache(c, SweepFrom(|volumes|, v))
         == Some(Cache(Swept(volumes), NumOpen(Swept(volumes)) % UINT16_RANGE, c.streams))
    decreases |volumes| - v
  {
    if v == |volumes| {
      assert volumes[..v] == volumes && c.volumes == Swept(volumes);
    } else {
      SweptNext(volumes, v);
      NumOpenUpdate(c.volumes, v, volumes[v].(isOpen := false));
      OneLess(c.nOpenVolumes, NumOpen(c.volumes));
      var steps := SweepFrom(|volumes|, v);
      assert steps[0] == CloseIfUnused(v) && steps[1..] == SweepFrom(|volumes|, v + 1);
      assert c.volumes[v := SweptVolume(volumes[v])] == After(c, CloseIfUnused(v)).volumes;
      SweepFromSweeps(After(c, CloseIfUnused(v)), volumes, v + 1);
    }
  }

  lemma ManyLess(n: nat, left: nat)
    requires left <= n
    ensures (n % UINT16_RANGE - (n - left)) % UINT16_RANGE == left % UINT16_RANGE
  {
    assert n % UINT16_RANGE - (n - left) == left - n / UINT16_RANGE * UINT16_RANGE;
  }

  /** What a sweep leaves of the volumes, and the count of their handles. */
  lemma AfterSweep(c: Cache)
    requires c.nOpenVolumes == NumOpen(c.volumes) % UINT16_RANGE
    ensures var swept := SweptIfMany(c.volumes, c.nOpenVolumes);
            After(c, Sweep) == Cache(swept, NumOpen(swept) % UINT16_RANGE, c.streams)
  {
    SweepCloses(c.volumes);
    ManyLess(NumOpen(c.volumes), NumOpen(Swept(c.volumes)));
  }

  /** The undisturbed sweep is the sweep whose looks follow each other. */
  lemma SweepIsItsLooks(c: Cache)
    requires c.nOpenVolumes == NumOpen(c.volumes) % UINT16_RANGE > MANY_HANDLES
    ensures RunCache(c, SweepFrom(|c.volumes|, 0)) == Some(After(c, Sweep))
  {
    assert SweptUpTo(c.volumes, 0) == c.volumes;
    SweepFromSweeps(c, c.volumes, 0);
    AfterSweep(c);
  }
}
