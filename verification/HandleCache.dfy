/** The reading half of FlatVolumesFileSystem: reference counts per volume and the cache of open handles. */
module HandleCache {
  import opened Prelude
  import opened Blocks

  /** `isOpen` says that the volume's handle is not null. */
  datatype Volume = Volume(isOpen: bool, counter: nat)

  const UINT16_RANGE: nat := 0x1_0000

  /** More than this many open handles make CloseUnusedVolumes close some. */
  const MANY_HANDLES: nat := 100

  /** How many of the blocks lie in volume `v`. */
  function CountIn(blocks: seq<Block>, v: nat): nat {
    if blocks == [] then 0
    else (if blocks[0].volumeNumber == v then 1 else 0) + CountIn(blocks[1..], v)
  }

  predicate InRange(volumeCount: nat, blocks: seq<Block>) {
    forall i | 0 <= i < |blocks| :: blocks[i].volumeNumber < volumeCount
  }

  function Counters(volumes: seq<Volume>): seq<nat> {
    seq(|volumes|, v requires 0 <= v < |volumes| => volumes[v].counter)
  }

  /** Every volume is counted at least once for each of the blocks in it. */
  predicate Counted(counters: seq<nat>, blocks: seq<Block>) {
    forall v | 0 <= v < |counters| :: CountIn(blocks, v) <= counters[v]
  }

  /** `after` is `before` less one reference for each of the blocks. */
  predicate Released(before: seq<nat>, after: seq<nat>, blocks: seq<Block>) {
    |before| == |after| && forall v | 0 <= v < |after| :: after[v] + CountIn(blocks, v) == before[v]
  }

  lemma ReleasedMore(a: seq<nat>, b: seq<nat>, c: seq<nat>, first: seq<Block>, then': seq<Block>)
    requires Released(a, b, first) && Released(b, c, then')
    ensures Released(a, c, first + then')
  {
    forall v | 0 <= v < |c| ensures c[v] + CountIn(first + then', v) == a[v] {
      CountInAppend(first, then', v);
    }
  }

  /** What is counted for all blocks stays counted for the rest when the first blocks are released. */
  lemma CountedAfterRelease(before: seq<nat>, after: seq<nat>, first: seq<Block>, rest: seq<Block>)
    requires Counted(before, first + rest) && Released(before, after, first)
    ensures Counted(after, rest)
  {
    forall v | 0 <= v < |after| ensures CountIn(rest, v) <= after[v] {
      CountInAppend(first, rest, v);
    }
  }

  function NumOpen(volumes: seq<Volume>): nat {
    if volumes == [] then 0
    else NumOpen(volumes[..|volumes| - 1]) + if volumes[|volumes| - 1].isOpen then 1 else 0
  }

  function Incremented(volumes: seq<Volume>, v: nat): seq<Volume>
    requires v < |volumes|
  {
    volumes[v := volumes[v].(counter := volumes[v].counter + 1)]
  }

  /** `counter--` on a `uint64`. */
  function Decremented(volumes: seq<Volume>, v: nat): seq<Volume>
    requires v < |volumes|
  {
    var c := volumes[v].counter;
    volumes[v := volumes[v].(counter := if c == 0 then UINT64_RANGE - 1 else c - 1)]
  }

  /** One less in this volume, wrapping round at 0, and the others as before. */
  lemma DecrementedExactly(volumes: seq<Volume>, v: nat)
    requires v < |volumes|
    ensures |Decremented(volumes, v)| == |volumes|
    ensures Decremented(volumes, v)[v].isOpen == volumes[v].isOpen
    ensures volumes[v].counter > 0 ==> Decremented(volumes, v)[v].counter == volumes[v].counter - 1
    ensures volumes[v].counter == 0 ==> Decremented(volumes, v)[v].counter == 0xFFFF_FFFF_FFFF_FFFF
    ensures forall u | 0 <= u < |volumes| && u != v :: Decremented(volumes, v)[u] == volumes[u]
  {
  }

  function Opened(volumes: seq<Volume>, v: nat): seq<Volume>
    requires v < |volumes|
  {
    volumes[v := volumes[v].(isOpen := true)]
  }

  /** Each volume counted once more for each of the blocks in it. */
  function CountedFor(volumes: seq<Volume>, blocks: seq<Block>): seq<Volume> {
    seq(|volumes|, v requires 0 <= v < |volumes| =>
      volumes[v].(counter := volumes[v].counter + CountIn(blocks, v)))
  }

  function SweptVolume(volume: Volume): Volume {
    volume.(isOpen := volume.isOpen && volume.counter > 0)
  }

  /** Every handle without pending block is closed. */
  function Swept(volumes: seq<Volume>): seq<Volume> {
    seq(|volumes|, v requires 0 <= v < |volumes| => SweptVolume(volumes[v]))
  }

  /** What CloseUnusedVolumes leaves when `n` handles are counted as open. */
  function SweptIfMany(volumes: seq<Volume>, n: nat): seq<Volume> {
    if n > MANY_HANDLES then Swept(volumes) else volumes
  }

  /** What a read of `count` bytes of volume `v` leaves when `n` handles are counted as open. */
  function AfterRead(volumes: seq<Volume>, n: nat, v: nat, count: nat): seq<Volume>
    requires v < |volumes|
  {
    if count == 0 then SweptIfMany(volumes, n) else Opened(SweptIfMany(volumes, n), v)
  }

  lemma ReadKeepsCounters(volumes: seq<Volume>, n: nat, v: nat, count: nat)
    requires v < |volumes|
    ensures Counters(AfterRead(volumes, n, v, count)) == Counters(volumes)
  {
  }

  /** A read limits the open handles: after it at most 101 are open, or none but its own is open without need. It closes
      none while at most 100 are open, and never one that is needed; it opens no other than its own. */
  lemma ReadLimitsHandles(volumes: seq<Volume>, v: nat, count: nat)
    requires v < |volumes| < 0x1_0000
    ensures var after := AfterRead(volumes, NumOpen(volumes) % UINT16_RANGE, v, count);
            && |after| == |volumes|
            && (NumOpen(after) <= 101
                || forall u | 0 <= u < |after| && u != v && after[u].isOpen :: after[u].counter > 0)
            && (count > 0 ==> after[v].isOpen)
            && (forall u | 0 <= u < |after| && (NumOpen(volumes) <= 100 || volumes[u].counter > 0) ::
                  volumes[u].isOpen ==> after[u].isOpen)
            && (forall u | 0 <= u < |after| && u != v :: after[u].isOpen ==> volumes[u].isOpen)
  {
    NumOpenBound(volumes);
    var swept := SweptIfMany(volumes, NumOpen(volumes) % UINT16_RANGE);
    NumOpenUpdate(swept, v, swept[v].(isOpen := true));
  }

  lemma {:induction false} CountInAppend(a: seq<Block>, b: seq<Block>, v: nat)
    ensures CountIn(a + b, v) == CountIn(a, v) + CountIn(b, v)
  {
    if a == [] {
      assert a + b == b;
    } else {
      CountInAppend(a[1..], b, v);
      assert (a + b)[1..] == a[1..] + b;
    }
  }

  lemma CountInOne(b: Block, v: nat)
    ensures CountIn([b], v) == if b.volumeNumber == v then 1 else 0
  {
    assert [b][1..] == [];
  }

  lemma {:induction false} NumOpenUpdate(volumes: seq<Volume>, v: nat, x: Volume)
    requires v < |volumes|
    ensures NumOpen(volumes[v := x]) + (if volumes[v].isOpen then 1 else 0)
         == NumOpen(volumes) + (if x.isOpen then 1 else 0)
  {
    var n := |volumes| - 1;
    if v == n {
      assert volumes[v := x][..n] == volumes[..n];
    } else {
      NumOpenUpdate(volumes[..n], v, x);
      assert volumes[v := x][..n] == volumes[..n][v := x];
    }
  }

  lemma {:induction false} NumOpenBound(volumes: seq<Volume>)
    ensures NumOpen(volumes) <= |volumes|
  {
    if volumes != [] { NumOpenBound(volumes[..|volumes| - 1]); }
  }

  lemma {:induction false} NoneOpen(volumes: seq<Volume>)
    requires forall v | 0 <= v < |volumes| :: !volumes[v].isOpen
    ensures NumOpen(volumes) == 0
  {
    if volumes != [] { NoneOpen(volumes[..|volumes| - 1]); }
  }
}
