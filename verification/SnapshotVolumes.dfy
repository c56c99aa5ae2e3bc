/** A re-read snapshot against its volume files: every block it owns can be addressed by its reader, and together the
    owned blocks are all the volumes hold. */
module SnapshotVolumes {
  import opened Prelude
  import Blocks
  import StoreContents
  import opened StoreTheorems
  import HandleCache
  import ReadBack
  import opened Nodes
  import opened Snapshots
  import opened SnapshotChain

  function AllBlocks(nodes: seq<Node>): seq<seq<Blocks.Block>> {
    seq(|nodes|, i requires 0 <= i < |nodes| => nodes[i].attributes.blocks)
  }

  lemma NewFileInIndex(v: Variant, cfg: Config, last: Option<seq<Node>>, src: seq<SourceNode>, o: Outcome,
                       snap: Snapshot, i: nat)
    requires Added(v, cfg, last, src, o, snap) && i < |src| && IsNewFile(cfg, last, src, i)
    ensures BlocksOf(o, src[i].path) in AllBlocks(snap.nodes)
  {
    AddedLookup(v, cfg, last, src, o, snap, i);
    var n := IndexOf(Entries(snap.nodes), src[i].path).value;
    assert AllBlocks(snap.nodes)[n] == BlocksOf(o, src[i].path);
  }

  /** The blocks of every writer are the blocks of some node of the new index. */
  lemma WritersInIndex(v: Variant, cfg: Config, last: Option<seq<Node>>, src: seq<SourceNode>, o: Outcome,
                       snap: Snapshot, w: nat)
    requires Added(v, cfg, last, src, o, snap) && w < |o.store.pool.nodes| == |o.store.writers|
    ensures o.store.pool.nodes[w] in AllBlocks(snap.nodes)
  {
    assert HasSource(cfg, last, src, o, w);
    var i :| 0 <= i < |src| && IsNewFile(cfg, last, src, i) && src[i].path in o.writer && o.writer[src[i].path] == w;
    NewFileInIndex(v, cfg, last, src, o, snap, i);
  }

  /** Back-references of older snapshots count too, but never make the reader's array too small for a block of this
      snapshot's own volumes. */
  lemma OwnedBlocksAddressable(v: Variant, cfg: Config, last: Option<seq<Node>>, src: seq<SourceNode>, o: Outcome,
                               snap: Snapshot, i: nat)
    requires ValidSource(src) && Added(v, cfg, last, src, o, snap)
    requires i < |src| && Treatment(cfg, last, src, i).NewData?
    ensures Lookup(snap.nodes, src[i].path).Some?
    ensures HandleCache.InRange(|AllVolumeNumbers(AllBlocks(snap.nodes))|, Lookup(snap.nodes, src[i].path).value.blocks)
  {
    AddedLookup(v, cfg, last, src, o, snap, i);
    Tiling(o.volumeSize, o.steps, o.store, 0, 0);
    forall w | 0 <= w < |o.store.pool.nodes| ensures o.store.pool.nodes[w] in AllBlocks(snap.nodes) {
      WritersInIndex(v, cfg, last, src, o, snap, w);
    }
    ReadBack.ReaderArrayLargeEnough(o.volumeSize, o.steps, o.store, AllBlocks(snap.nodes));
  }

  /** The writer of a node that is backed up with its data. */
  function Place(cfg: Config, last: Option<seq<Node>>, src: seq<SourceNode>, o: Outcome, node: Node): Option<nat> {
    var i := IndexOf(SourceEntries(src), node.path);
    if i.Some? && IsNewFile(cfg, last, src, i.value) && node.path in o.writer then Some(o.writer[node.path]) else None
  }

  function Places(cfg: Config, last: Option<seq<Node>>, src: seq<SourceNode>, o: Outcome, nodes: seq<Node>):
    seq<Option<nat>>
  {
    seq(|nodes|, m requires 0 <= m < |nodes| => Place(cfg, last, src, o, nodes[m]))
  }

  function OwnedSize(a: Attributes): nat {
    if a.ownsBlocks then Blocks.SumSizes(a.blocks) else 0
  }

  /** Only nodes that are backed up with their data own blocks, namely those recorded for them. */
  lemma OwnedAfterReread(v: Variant, cfg: Config, last: Option<seq<Node>>, src: seq<SourceNode>, o: Outcome, i: nat)
    requires i < |src|
    ensures OwnedSize(Reread(AttributesFor(v, cfg, last, src, o, i)))
         == if IsNewFile(cfg, last, src, i) then Blocks.SumSizes(BlocksOf(o, src[i].path)) else 0
  {
    if Treatment(cfg, last, src, i).MetadataOnly? && last.Some? {
      CarriedHasPredecessor(cfg, last.value, src, i);
    }
  }

  lemma SourceOfNode(v: Variant, cfg: Config, last: Option<seq<Node>>, src: seq<SourceNode>, o: Outcome,
                     snap: Snapshot, m: nat) returns (i: nat)
    requires Added(v, cfg, last, src, o, snap) && m < |snap.nodes|
    ensures IndexOf(SourceEntries(src), snap.nodes[m].path) == Some(i) && src[i].path == snap.nodes[m].path
    ensures snap.nodes[m].attributes == Reread(AttributesFor(v, cfg, last, src, o, i))
  {
    assert snap.nodes[m].path == o.nodes[m].path;
    i := IndexOf(SourceEntries(src), snap.nodes[m].path).value;
    LookupAt(o.nodes, m);
    AddedLookup(v, cfg, last, src, o, snap, i);
  }

  /** A node owns exactly the blocks of its writer, and only nodes with a writer own blocks. */
  lemma OwnedByWriter(v: Variant, cfg: Config, last: Option<seq<Node>>, src: seq<SourceNode>, o: Outcome,
                      snap: Snapshot, m: nat)
    requires Added(v, cfg, last, src, o, snap) && m < |snap.nodes| && |o.store.pool.nodes| == |o.store.writers|
    ensures match Place(cfg, last, src, o, snap.nodes[m])
            case None => OwnedSizes(snap.nodes)[m] == 0
            case Some(w) =>
              w < |o.store.pool.nodes| && Blocks.SumSizes(o.store.pool.nodes[w]) == OwnedSizes(snap.nodes)[m]
  {
    var i := SourceOfNode(v, cfg, last, src, o, snap, m);
    OwnedAfterReread(v, cfg, last, src, o, i);
    if IsNewFile(cfg, last, src, i) {
      assert WroteNode(cfg, src[i], o);
    }
  }

  lemma PlacesDiffer(v: Variant, cfg: Config, last: Option<seq<Node>>, src: seq<SourceNode>, o: Outcome,
                     snap: Snapshot, m: nat, n: nat)
    requires Added(v, cfg, last, src, o, snap) && m < n < |snap.nodes|
    requires Place(cfg, last, src, o, snap.nodes[m]).Some?
    ensures Place(cfg, last, src, o, snap.nodes[m]) != Place(cfg, last, src, o, snap.nodes[n])
  {
    assert Entries(o.nodes)[m].path == o.nodes[m].path == snap.nodes[m].path;
    assert Entries(o.nodes)[n].path == o.nodes[n].path == snap.nodes[n].path;
    var i, j := IndexOf(SourceEntries(src), o.nodes[m].path).value, IndexOf(SourceEntries(src), o.nodes[n].path).value;
    assert src[i].path == o.nodes[m].path && src[j].path == o.nodes[n].path;
    assert i < j || j < i;
  }

  lemma WriterHasPlace(v: Variant, cfg: Config, last: Option<seq<Node>>, src: seq<SourceNode>, o: Outcome,
                       snap: Snapshot, w: nat)
    requires ValidSource(src) && Added(v, cfg, last, src, o, snap) && w < |o.store.writers|
    ensures Some(w) in Places(cfg, last, src, o, snap.nodes)
  {
    assert HasSource(cfg, last, src, o, w);
    var i :| 0 <= i < |src| && IsNewFile(cfg, last, src, i) && src[i].path in o.writer && o.writer[src[i].path] == w;
    AddedLookup(v, cfg, last, src, o, snap, i);
    var m := IndexOf(Entries(snap.nodes), src[i].path).value;
    assert Entries(snap.nodes)[m].path == snap.nodes[m].path == src[i].path;
    IndexOfUnique(SourceEntries(src), i);
    assert SourceEntries(src)[i].path == src[i].path;
    assert Places(cfg, last, src, o, snap.nodes)[m] == Some(w);
  }

  lemma OwnedRearranged(v: Variant, cfg: Config, last: Option<seq<Node>>, src: seq<SourceNode>, o: Outcome,
                        snap: Snapshot)
    requires ValidSource(src) && Added(v, cfg, last, src, o, snap) && |o.store.pool.nodes| == |o.store.writers|
    ensures Rearranged(OwnedSizes(snap.nodes), BlockTotals(o.store.pool.nodes), Places(cfg, last, src, o, snap.nodes))
  {
    var a, b, place := OwnedSizes(snap.nodes), BlockTotals(o.store.pool.nodes), Places(cfg, last, src, o, snap.nodes);
    forall m | 0 <= m < |a|
      ensures place[m].None? ==> a[m] == 0
      ensures place[m].Some? ==> place[m].value < |b| && b[place[m].value] == a[m]
    {
      OwnedByWriter(v, cfg, last, src, o, snap, m);
    }
    forall m, n | 0 <= m < n < |a| && place[m].Some? ensures place[m] != place[n] {
      PlacesDiffer(v, cfg, last, src, o, snap, m, n);
    }
    forall w | 0 <= w < |b| && b[w] > 0 ensures Some(w) in place {
      WriterHasPlace(v, cfg, last, src, o, snap, w);
    }
  }

  /** Conservation in a finished snapshot: what its nodes own is what its volume files hold. */
  lemma OwnedIsStored(v: Variant, cfg: Config, last: Option<seq<Node>>, src: seq<SourceNode>, o: Outcome,
                      snap: Snapshot)
    requires ValidSource(src) && Added(v, cfg, last, src, o, snap)
    ensures Sum(OwnedSizes(snap.nodes)) == Sum(StoreContents.Lengths(snap.files))
  {
    Tiling(o.volumeSize, o.steps, o.store, 0, 0);
    OwnedRearranged(v, cfg, last, src, o, snap);
    SumRearranged(OwnedSizes(snap.nodes), BlockTotals(o.store.pool.nodes), Places(cfg, last, src, o, snap.nodes));
    Conservation(o.volumeSize, o.steps, o.store);
  }
}
