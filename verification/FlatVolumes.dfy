/** The writing half of FlatVolumesFileSystem, as it executes: every method is proved to compute its atomic section. */
module FlatVolumes {
  import opened Prelude
  import Blocks
  import opened VolumePool

  /** One pass through the loop of WriteBytes without interference: the pool and the bytes left to write. */
  function Round(p: Pool, w: nat, rest: Bytes): (Pool, Bytes) {
    var (q, stream) := FindStream(p, w);
    var n := ChunkSize(stream.leftSize, |rest|);
    (BytesWereWritten(AppendToFile(q, stream.volume, rest[..n]), w, FileLength(q, stream.volume), n), rest[n..])
  }

  /** A pool with the bytes that a WriteBytes call still has to write. */
  type Job = (Pool, Bytes)

  function RoundOf(w: nat): Job -> Job {
    (job: Job) => Round(job.0, w, job.1)
  }

  function NothingLeft(): Job -> bool {
    (job: Job) => job.1 == []
  }

  function Rounds(p: Pool, w: nat, rest: Bytes, k: nat): Job {
    Iterate(RoundOf(w), NothingLeft(), (p, rest), k)
  }

  /** The loop of WriteBytes ends. */
  ghost predicate Finishes(p: Pool, w: nat, rest: Bytes) {
    exists k: nat :: Rounds(p, w, rest, k).1 == []
  }

  /** The value of the loop variable `free` of FindStream after `i` volumes. */
  function LastFreeBefore(open: seq<OpenVolume>, i: nat): Option<nat>
    requires i <= |open|
  {
    var f := LastFree(open[..i]);
    if f < i then Some(f) else None
  }

  class FlatVolumesFileSystem {
    const volumeSize: nat
    /** The volume files; file `v` is named by its number. */
    var files: seq<Bytes>
    var nextVolumeNumber: nat
    var openVolumes: seq<OpenVolume>
    /** The attributes of the nodes of the index, in index order. */
    var nodes: seq<Blocks.BackupNodeAttributes>

    ghost predicate Valid()
      reads this
    {
      nextVolumeNumber == |files| && forall i, j | 0 <= i < j < |nodes| :: nodes[i] != nodes[j]
    }

    ghost function NodeBlocks(): seq<seq<Blocks.Block>>
      reads this, nodes
    {
      seq(|nodes|, i requires 0 <= i < |nodes| reads this, nodes => nodes[i].blocks)
    }

    ghost function View(): Pool
      reads this, nodes
    {
      Pool(volumeSize, files, openVolumes, NodeBlocks())
    }

    /** Which nodes own their blocks. */
    ghost function Owning(): seq<bool>
      reads this, nodes
    {
      seq(|nodes|, i requires 0 <= i < |nodes| reads this, nodes => nodes[i].ownsBlocks)
    }

    constructor (volumeSize: nat)
      ensures Valid() && View() == Pool(volumeSize, [], [], [])
      ensures this.volumeSize == volumeSize && nodes == []
    {
      this.volumeSize := volumeSize;
      files := [];
      nextVolumeNumber := 0;
      openVolumes := [];
      nodes := [];
    }

    /** A node enters the index without blocks. */
    method AddNode(attributes: Blocks.BackupNodeAttributes) returns (w: nat)
      requires Valid() && attributes !in nodes && attributes.blocks == []
      modifies this`nodes
      ensures Valid() && w == |old(nodes)| && nodes == old(nodes) + [attributes]
      ensures View() == old(View()).(nodes := old(View()).nodes + [[]])
    {
      w := |nodes|;
      nodes := nodes + [attributes];
    }

    method FindStream(writer: nat) returns (stream: Stream)
      requires Valid()
      modifies this`files, this`openVolumes, this`nextVolumeNumber
      ensures Valid()
      ensures (View(), stream) == VolumePool.FindStream(old(View()), writer)
      ensures nodes == old(nodes)
    {
      var free: Option<nat> := None;
      var i := 0;
      while i < |openVolumes|
        invariant 0 <= i <= |openVolumes|
        invariant openVolumes == old(openVolumes) && View() == old(View())
        invariant forall j | 0 <= j < i :: openVolumes[j].owner != Some(writer)
        invariant free == LastFreeBefore(openVolumes, i)
      {
        if openVolumes[i].owner == Some(writer) {
          assert FirstOwned(openVolumes, writer) == i;
          return Stream(openVolumes[i].number, openVolumes[i].leftSize);
        }
        if openVolumes[i].owner == None {
          free := Some(i);
        }
        assert openVolumes[..i + 1][..i] == openVolumes[..i];
        i := i + 1;
      }
      assert FirstOwned(openVolumes, writer) == |openVolumes|;
      assert openVolumes[..i] == openVolumes;
      if free.Some? {
        openVolumes := openVolumes[free.value := openVolumes[free.value].(owner := Some(writer))];
        assert NodeBlocks() == old(NodeBlocks());
        return Stream(openVolumes[free.value].number, openVolumes[free.value].leftSize);
      }
      var newVolume := OpenVolume(nextVolumeNumber, volumeSize, Some(writer));
      nextVolumeNumber := nextVolumeNumber + 1;
      files := files + [[]];
      openVolumes := openVolumes + [newVolume];
      assert NodeBlocks() == old(NodeBlocks());
      return Stream(newVolume.number, newVolume.leftSize);
    }

    method BytesWereWrittenToVolume(writer: nat, offset: nat, nBytesWritten: nat)
      requires Valid() && writer < |nodes|
      modifies this`openVolumes, nodes
      ensures Valid() && nodes == old(nodes)
      ensures View() == BytesWereWritten(old(View()), writer, offset, nBytesWritten)
      ensures Owning() == if FirstOwned(old(openVolumes), writer) < |old(openVolumes)|
                          then old(Owning())[writer := true] else old(Owning())
    {
      var it := 0;
      while it < |openVolumes|
        invariant 0 <= it <= |openVolumes|
        invariant openVolumes == old(openVolumes) && unchanged(nodes)
        invariant forall j | 0 <= j < it :: openVolumes[j].owner != Some(writer)
      {
        if openVolumes[it].owner == Some(writer) {
          assert FirstOwned(openVolumes, writer) == it;
          nodes[writer].AddBlock(Blocks.Block(openVolumes[it].number, offset, nBytesWritten));
          var left := Subtract64(openVolumes[it].leftSize, nBytesWritten);
          if left == 0 {
            openVolumes := openVolumes[..it] + openVolumes[it + 1..];
          } else {
            openVolumes := openVolumes[it := openVolumes[it].(leftSize := left)];
          }
          assert NodeBlocks() == old(NodeBlocks())[writer := nodes[writer].blocks];
          assert Owning() == old(Owning())[writer := true];
          return;
        }
        it := it + 1;
      }
      assert FirstOwned(openVolumes, writer) == |openVolumes|;
      assert NodeBlocks() == old(NodeBlocks()) && Owning() == old(Owning());
    }

    method CloseFile(writer: nat)
      requires Valid()
      modifies this`openVolumes
      ensures Valid() && nodes == old(nodes)
      ensures View() == VolumePool.CloseFile(old(View()), writer)
    {
      var i := 0;
      while i < |openVolumes|
        invariant 0 <= i <= |openVolumes|
        invariant openVolumes == old(openVolumes) && View() == old(View())
        invariant forall j | 0 <= j < i :: openVolumes[j].owner != Some(writer)
      {
        if openVolumes[i].owner == Some(writer) {
          assert FirstOwned(openVolumes, writer) == i;
          openVolumes := openVolumes[i := openVolumes[i].(owner := None)];
          return;
        }
        i := i + 1;
      }
      assert FirstOwned(openVolumes, writer) == |openVolumes|;
    }

    /** The file write between the two locked sections. */
    method AppendFile(volume: nat, data: Bytes) returns (offset: nat)
      requires Valid()
      modifies this`files
      ensures Valid() && nodes == old(nodes)
      ensures offset == FileLength(old(View()), volume)
      ensures View() == AppendToFile(old(View()), volume, data)
    {
      if volume < |files| {
        offset := |files[volume]|;
        files := files[volume := files[volume] + data];
      } else {
        offset := 0;
      }
    }

    /** The body of the loop of WriteBytes. */
    method WriteRound(writer: nat, rest: Bytes) returns (left: Bytes)
      requires Valid() && writer < |nodes|
      modifies this`files, this`openVolumes, this`nextVolumeNumber, nodes
      ensures Valid() && nodes == old(nodes)
      ensures (View(), left) == Round(old(View()), writer, rest)
      ensures Owning() == old(Owning())[writer := true]
    {
      FindStreamOwns(View(), writer);
      var stream := FindStream(writer);
      var bytesToWrite := ChunkSize(stream.leftSize, |rest|);
      var offset := AppendFile(stream.volume, rest[..bytesToWrite]);
      BytesWereWrittenToVolume(writer, offset, bytesToWrite);
      left := rest[bytesToWrite..];
    }

    /** Writes all of `source`, over as many volumes as it takes; `bound` rounds suffice. */
    method WriteLoop(writer: nat, source: Bytes, ghost bound: nat)
      requires Valid() && writer < |nodes|
      requires Rounds(View(), writer, source, bound).1 == []
      modifies this`files, this`openVolumes, this`nextVolumeNumber, nodes
      ensures Valid() && nodes == old(nodes)
      ensures View() == Rounds(old(View()), writer, source, bound).0
      ensures Owning() == if source == [] then old(Owning()) else old(Owning())[writer := true]
    {
      var rest := source;
      ghost var result, todo := Rounds(View(), writer, source, bound), bound;
      ghost var before, after := Owning(), Owning()[writer := true];
      while rest != []
        invariant Valid() && nodes == old(nodes)
        invariant Rounds(View(), writer, rest, todo) == result
        invariant Owning() == after || (Owning() == before && rest == source)
        invariant source == [] ==> Owning() == before
        decreases todo
      {
        rest := WriteStep(writer, rest, todo);
        todo := todo - 1;
      }
    }

    /** A round of a loop that ends within `todo` rounds. */
    method WriteStep(writer: nat, rest: Bytes, ghost todo: nat) returns (left: Bytes)
      requires Valid() && writer < |nodes|
      requires rest != [] && Rounds(View(), writer, rest, todo).1 == []
      modifies this`files, this`openVolumes, this`nextVolumeNumber, nodes
      ensures Valid() && nodes == old(nodes) && todo > 0
      ensures Rounds(View(), writer, left, todo - 1) == old(Rounds(View(), writer, rest, todo))
      ensures Owning() == old(Owning())[writer := true]
    {
      ghost var before := View();
      left := WriteRound(writer, rest);
      NextRound(before, writer, rest, todo, (View(), left));
    }

    /** Every call whose loop ends leaves the pool that its rounds lead to. */
    method WriteBytes(writer: nat, source: Bytes)
      requires Valid() && writer < |nodes|
      requires Finishes(View(), writer, source)
      modifies this`files, this`openVolumes, this`nextVolumeNumber, nodes
      ensures Valid() && nodes == old(nodes)
      ensures forall k: nat :: Rounds(old(View()), writer, source, k).1 == [] ==>
                View() == Rounds(old(View()), writer, source, k).0
      ensures Owning() == if source == [] then old(Owning()) else old(Owning())[writer := true]
    {
      ghost var start := View();
      ghost var bound: nat :| Rounds(start, writer, source, bound).1 == [];
      WriteLoop(writer, source, bound);
      forall k: nat | Rounds(start, writer, source, k).1 == [] ensures View() == Rounds(start, writer, source, k).0 {
        IterateAgrees(RoundOf(writer), NothingLeft(), (start, source), Min(k, bound), Max(k, bound));
      }
    }
  }

  /** After FindStream its caller holds a volume. */
  lemma FindStreamOwns(p: Pool, w: nat)
    ensures FirstOwned(VolumePool.FindStream(p, w).0.open, w) < |VolumePool.FindStream(p, w).0.open|
  {
    var open, i := p.open, FirstOwned(p.open, w);
    if i == |open| {
      var f := LastFree(open);
      var after := VolumePool.FindStream(p, w).0.open;
      assert after[f].owner == Some(w);
    }
  }

  lemma NextRound(p: Pool, w: nat, rest: Bytes, k: nat, r: Job)
    requires rest != [] && r == Round(p, w, rest) && Rounds(p, w, rest, k).1 == []
    ensures k > 0 && Rounds(p, w, rest, k) == Rounds(r.0, w, r.1, k - 1)
  {
    assert RoundOf(w)((p, rest)) == r;
  }
}
