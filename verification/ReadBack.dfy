/** Writing, then reading: the whole way of a node's bytes through the store. */
module ReadBack {
  import opened Prelude
  import opened Blocks
  import opened Store
  import opened StoreTheorems
  import HandleCache
  import BlockReader

  /** The volume count of the constructor of FlatVolumesFileSystem: distinct volume numbers over all blocks. */
  method CountVolumes(nodes: seq<seq<Block>>) returns (count: nat)
    ensures count == |AllVolumeNumbers(nodes)|
  {
    var volumes: set<nat> := {};
    for i := 0 to |nodes|
      invariant volumes == AllVolumeNumbers(nodes[..i])
    {
      NoBlocksYet(nodes[..i]);
      assert nodes[i][..0] == [];
      for j := 0 to |nodes[i]|
        invariant volumes == AllVolumeNumbers(nodes[..i] + [nodes[i][..j]])
      {
        volumes := volumes + {nodes[i][j].volumeNumber};
        OneMoreBlock(nodes[..i], nodes[i], j);
      }
      assert nodes[i][..|nodes[i]|] == nodes[i];
      assert nodes[..i] + [nodes[i]] == nodes[..i + 1];
    }
    assert nodes[..|nodes|] == nodes;
    count := |volumes|;
  }

  lemma OneMoreBlock(nodes: seq<seq<Block>>, blocks: seq<Block>, j: nat)
    requires j < |blocks|
    ensures AllVolumeNumbers(nodes + [blocks[..j + 1]])
         == AllVolumeNumbers(nodes + [blocks[..j]]) + {blocks[j].volumeNumber}
  {
    var a, b := nodes + [blocks[..j]], nodes + [blocks[..j + 1]];
    forall x | x in AllVolumeNumbers(a) ensures x in AllVolumeNumbers(b) {
      var w, i :| 0 <= w < |a| && 0 <= i < |a[w]| && a[w][i].volumeNumber == x;
      assert b[w][i].volumeNumber == x;
    }
    assert b[|nodes|][j] == blocks[j];
    forall x | x in AllVolumeNumbers(b) && x != blocks[j].volumeNumber ensures x in AllVolumeNumbers(a) {
      var w, i :| 0 <= w < |b| && 0 <= i < |b[w]| && b[w][i].volumeNumber == x;
      assert a[w][i].volumeNumber == x;
    }
  }

  lemma NoBlocksYet(nodes: seq<seq<Block>>)
    ensures AllVolumeNumbers(nodes + [[]]) == AllVolumeNumbers(nodes)
  {
    var a := nodes + [[]];
    forall x | x in AllVolumeNumbers(nodes) ensures x in AllVolumeNumbers(a) {
      var w, i :| 0 <= w < |nodes| && 0 <= i < |nodes[w]| && nodes[w][i].volumeNumber == x;
      assert a[w][i].volumeNumber == x;
    }
    forall x | x in AllVolumeNumbers(a) ensures x in AllVolumeNumbers(nodes) {
      var w, i :| 0 <= w < |a| && 0 <= i < |a[w]| && a[w][i].volumeNumber == x;
      assert nodes[w][i].volumeNumber == x;
    }
  }

  /** Whatever further nodes (back-references to older snapshots) the index holds, the reader's array, sized by
      counting distinct volume numbers, has an entry for every volume of the finished store. */
  lemma ReaderArrayLargeEnough(volumeSize: nat, steps: seq<Step>, t: State, nodes: seq<seq<Block>>)
    requires Reaches(volumeSize, steps, t) && Quiet(t)
    requires forall w | 0 <= w < |t.pool.nodes| :: t.pool.nodes[w] in nodes
    ensures |t.pool.files| <= |AllVolumeNumbers(nodes)|
    ensures forall w | 0 <= w < |t.pool.nodes| :: HandleCache.InRange(|AllVolumeNumbers(nodes)|, t.pool.nodes[w])
  {
    DenseNumbering(volumeSize, steps, t);
    forall v: nat | v < |t.pool.files| ensures v in AllVolumeNumbers(nodes) {
      assert v in AllVolumeNumbers(t.pool.nodes);
      var w, i :| 0 <= w < |t.pool.nodes| && 0 <= i < |t.pool.nodes[w]| && t.pool.nodes[w][i].volumeNumber == v;
      assert t.pool.nodes[w] in nodes;
      var u :| 0 <= u < |nodes| && nodes[u] == t.pool.nodes[w];
      assert nodes[u][i].volumeNumber == v;
    }
    InitialSegment(|t.pool.files|, AllVolumeNumbers(nodes));
    forall w, i | 0 <= w < |t.pool.nodes| && 0 <= i < |t.pool.nodes[w]|
      ensures t.pool.nodes[w][i].volumeNumber < |AllVolumeNumbers(nodes)|
    {
      assert t.pool.nodes[w][i].volumeNumber in AllVolumeNumbers(t.pool.nodes);
    }
  }

  /** Reads of the given sizes, one after the other. */
  method ReadAll(stream: BlockReader.FlatVolumesBlockInputStream, counts: seq<nat>) returns (data: Bytes)
    requires stream.Valid() && forall i | 0 <= i < |counts| :: counts[i] < UINT32_RANGE
    modifies stream, stream.reader`nOpenVolumes, stream.reader.volumes
    ensures stream.Valid()
    ensures data == old(stream.Remaining())[..Min(Sum(counts), |old(stream.Remaining())|)]
    ensures stream.Remaining() == old(stream.Remaining())[|data|..]
  {
    ghost var all := stream.Remaining();
    data := [];
    assert counts[..0] == [];
    for i := 0 to |counts|
      invariant stream.Valid()
      invariant data + stream.Remaining() == all && |data| == Min(Sum(counts[..i]), |all|)
    {
      ghost var before := stream.Remaining();
      var chunk := stream.ReadBytes(counts[i], [stream.Position()], 0);
      NextChunk(data, before, chunk, counts[i]);
      SumNext(counts, i);
      data := data + chunk;
    }
    assert counts[..|counts|] == counts;
    Prefix(data, stream.Remaining());
  }

  lemma NextChunk(data: Bytes, before: Bytes, chunk: Bytes, count: nat)
    requires chunk == before[..Min(count, |before|)]
    ensures data + chunk + before[|chunk|..] == data + before
    ensures |chunk| == Min(count, |before|)
  {
  }

  lemma Prefix(a: Bytes, b: Bytes)
    ensures (a + b)[..|a|] == a && (a + b)[|a|..] == b
  {
  }

  /** Restoring a node from a finished store, with reads of any sizes, gives what its writer was asked to write. */
  method ReadNode(volumeSize: nat, ghost steps: seq<Step>, t: State, nodes: seq<seq<Block>>, w: nat, counts: seq<nat>)
    returns (data: Bytes)
    requires Reaches(volumeSize, steps, t) && Quiet(t) && w < |t.writers|
    requires |t.pool.nodes| == |t.writers| && forall u | 0 <= u < |t.pool.nodes| :: t.pool.nodes[u] in nodes
    requires forall i | 0 <= i < |counts| :: counts[i] < UINT32_RANGE
    ensures data == Asked(steps, w)[..Min(Sum(counts), |Asked(steps, w)|)]
  {
    RoundTrip(volumeSize, steps, t, w);
    ReaderArrayLargeEnough(volumeSize, steps, t, nodes);
    var count := CountVolumes(nodes);
    var reader := new BlockReader.VolumeReader(t.pool.files, count);
    reader.IncrementVolumeCounters(t.pool.nodes[w]);
    var stream := new BlockReader.FlatVolumesBlockInputStream(reader, t.pool.nodes[w]);
    data := ReadAll(stream, counts);
  }
}
