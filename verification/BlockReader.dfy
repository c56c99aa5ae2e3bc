/** Reading a node back: the volume reader with its handle cache, and the stream that walks a node's blocks. */
module BlockReader {
  import opened Prelude
  import opened Blocks
  import opened HandleCache
  import opened HandleCacheRuns
  import opened CacheRefinement

  class VolumeReader {
    const files: seq<Bytes>
    const volumes: array<Volume>
    var nOpenVolumes: nat

    /** The 16-bit count of handles follows the number of open handles. */
    ghost predicate Valid()
      reads this, volumes
    {
      nOpenVolumes == NumOpen(volumes[..]) % UINT16_RANGE
    }

    /** The handle cache, with the streams that read through it. */
    ghost function CacheOf(streams: seq<Stream>): Cache
      reads this, volumes
    {
      Cache(volumes[..], nOpenVolumes, streams)
    }

    constructor (files: seq<Bytes>, volumeCount: nat)
      ensures Valid() && fresh(volumes) && this.files == files
      ensures volumes.Length == volumeCount && forall v | 0 <= v < volumeCount :: volumes[v] == Volume(false, 0)
    {
      this.files := files;
      volumes := new Volume[volumeCount](_ => Volume(false, 0));
      nOpenVolumes := 0;
      new;
      NoneOpen(volumes[..]);
    }

    method IncrementVolumeCounters(blocks: seq<Block>)
      requires Valid() && InRange(volumes.Length, blocks)
      modifies volumes
      ensures Valid() && volumes[..] == CountedFor(old(volumes[..]), blocks)
    {
      for i := 0 to |blocks|
        invariant Valid()
        invariant forall v | 0 <= v < volumes.Length ::
                    volumes[v] == old(volumes[v]).(counter := old(volumes[v]).counter + CountIn(blocks[..i], v))
      {
        var v := blocks[i].volumeNumber;
        ghost var before := volumes[..];
        volumes[v] := volumes[v].(counter := volumes[v].counter + 1);
        assert volumes[..] == before[v := volumes[v]];
        NumOpenUpdate(before, v, volumes[v]);
        forall u ensures CountIn(blocks[..i + 1], u) == CountIn(blocks[..i], u) + if u == v then 1 else 0 {
          assert blocks[..i + 1] == blocks[..i] + [blocks[i]];
          CountInAppend(blocks[..i], [blocks[i]], u);
        }
      }
      assert blocks[..|blocks|] == blocks;
    }

    method DecrementVolumeCount(v: nat)
      requires Valid() && v < volumes.Length
      modifies volumes
      ensures Valid() && volumes[..] == Decremented(old(volumes[..]), v)
    {
      ghost var before := volumes[..];
      var c := volumes[v].counter;
      volumes[v] := volumes[v].(counter := if c == 0 then UINT64_RANGE - 1 else c - 1);
      assert volumes[..] == before[v := volumes[v]];
      NumOpenUpdate(before, v, volumes[v]);
    }

    /** Opens the handle of a volume unless it is open. */
    method LockVolumeStream(v: nat)
      requires Valid() && v < volumes.Length
      modifies this`nOpenVolumes, volumes
      ensures Valid() && volumes[..] == Opened(old(volumes[..]), v) && volumes[v].isOpen
    {
      ghost var before := volumes[..];
      if !volumes[v].isOpen {
        volumes[v] := volumes[v].(isOpen := true);
        nOpenVolumes := (nOpenVolumes + 1) % UINT16_RANGE;
        assert volumes[..] == before[v := volumes[v]];
        NumOpenUpdate(before, v, volumes[v]);
      }
    }

    method CloseUnusedVolumes()
      requires Valid()
      modifies this`nOpenVolumes, volumes
      ensures Valid()
      ensures volumes[..] == SweptIfMany(old(volumes[..]), old(nOpenVolumes))
      ensures forall v | 0 <= v < volumes.Length :: volumes[v].counter == old(volumes[v].counter)
      ensures forall v | 0 <= v < volumes.Length ::
                volumes[v].isOpen <==> old(volumes[v].isOpen) && (old(nOpenVolumes) <= 100 || volumes[v].counter > 0)
    {
      if nOpenVolumes > MANY_HANDLES {
        for i := 0 to volumes.Length
          invariant Valid()
          invariant forall v | 0 <= v < i :: volumes[v] == SweptVolume(old(volumes[v]))
          invariant forall v | i <= v < volumes.Length :: volumes[v] == old(volumes[v])
        {
          if volumes[i].counter == 0 && volumes[i].isOpen {
            CloseVolume(i);
          }
        }
      }
    }

    method CloseVolume(v: nat)
      requires Valid() && v < volumes.Length && volumes[v].isOpen
      modifies this`nOpenVolumes, volumes
      ensures Valid() && volumes[..] == old(volumes[..])[v := old(volumes[v]).(isOpen := false)]
    {
      ghost var before := volumes[..];
      NumOpenUpdate(before, v, volumes[v].(isOpen := false));
      volumes[v] := volumes[v].(isOpen := false);
      nOpenVolumes := (nOpenVolumes - 1) % UINT16_RANGE;
      assert volumes[..] == before[v := volumes[v]];
    }

    /** Reads `count` bytes of a volume file; a file read inside the file is complete. */
    method ReadBytes(v: nat, offset: nat, count: nat) returns (data: Bytes)
      requires Valid() && v < volumes.Length && v < |files| && offset + count <= |files[v]|
      modifies this`nOpenVolumes, volumes
      ensures Valid()
      ensures data == files[v][offset..offset + count]
      ensures volumes[..] == AfterRead(old(volumes[..]), old(nOpenVolumes), v, count)
      ensures volumes.Length < 0x1_0000 ==>
                NumOpen(volumes[..]) <= 101
                || forall u | 0 <= u < volumes.Length && u != v && volumes[u].isOpen :: volumes[u].counter > 0
      ensures volumes.Length < 0x1_0000 && old(NumOpen(volumes[..])) <= 100 ==>
                forall u | 0 <= u < volumes.Length && old(volumes[u].isOpen) :: volumes[u].isOpen
      ensures forall u | 0 <= u < volumes.Length && u != v && volumes[u].isOpen :: old(volumes[u].isOpen)
    {
      if volumes.Length < 0x1_0000 { ReadLimitsHandles(volumes[..], v, count); }
      CloseUnusedVolumes();
      ghost var swept := volumes[..];
      data := [];
      var left: nat := count;
      while left > 0
        invariant Valid() && left + |data| == count && (left == 0 || data == [])
        invariant left == 0 ==> data == files[v][offset..offset + count]
        invariant volumes[..] == if left == count then swept else Opened(swept, v)
      {
        LockVolumeStream(v);
        var chunk := files[v][offset..offset + left];
        data := data + chunk;
        left := left - |chunk|;
      }
    }
  }

  /** `Unsigned<uint32>::DowncastToClosest`: the largest `uint32` not above the number. */
  function DowncastToClosest32(x: nat): nat {
    Min(x, UINT32_RANGE - 1)
  }

  class FlatVolumesBlockInputStream {
    const reader: VolumeReader
    const blocks: seq<Block>
    var currentBlockIndex: nat
    var blockOffset: nat

    /** The position lies in the block list, and the blocks in the files. */
    ghost predicate Positioned()
      reads this
    {
      && AllFit(reader.files, blocks) && currentBlockIndex <= |blocks|
      && (currentBlockIndex < |blocks| ==> blockOffset <= blocks[currentBlockIndex].size)
    }

    ghost predicate Valid()
      reads this, reader, reader.volumes
    {
      && Positioned() && reader.Valid() && InRange(reader.volumes.Length, blocks)
      && Counted(Counters(reader.volumes[..]), blocks[currentBlockIndex..])
    }

    /** The bytes not read yet. */
    ghost function Remaining(): Bytes
      requires Positioned()
      reads this
    {
      RemainingFrom(reader.files, blocks, currentBlockIndex, blockOffset)
    }

    /** This stream, as the machine of the handle cache sees it. */
    ghost function Position(): Stream
      reads this
    {
      Stream(blocks, |blocks|, currentBlockIndex)
    }

    /** As stream `i` of `streams`, this one has taken the handle cache from `start` to where it is, by steps of
        reading, and given back the references of the blocks it passed. */
    ghost predicate Arrived(start: Cache, streams: seq<Stream>, i: nat)
      reads this, reader, reader.volumes
    {
      && i < |streams| && ReadsTo(start, i, reader.CacheOf(streams[i := Position()]))
      && streams[i].passed <= currentBlockIndex <= |blocks|
      && Released(Counters(start.volumes), Counters(reader.volumes[..]), blocks[streams[i].passed..currentBlockIndex])
    }

    /** Takes over blocks that the reader has already counted. */
    constructor (reader: VolumeReader, blocks: seq<Block>)
      requires reader.Valid() && AllFit(reader.files, blocks) && InRange(reader.volumes.Length, blocks)
      requires Counted(Counters(reader.volumes[..]), blocks)
      ensures Valid() && this.reader == reader && this.blocks == blocks
      ensures currentBlockIndex == 0 && Remaining() == Content(reader.files, blocks)
    {
      this.reader := reader;
      this.blocks := blocks;
      currentBlockIndex := 0;
      blockOffset := 0;
      new;
      assert blocks[0..] == blocks;
    }

    predicate IsAtEnd()
      reads this
    {
      currentBlockIndex >= |blocks|
    }

    /** The block at hand is read: its reference is given back and the next one begins. */
    method LeaveBlock(ghost start: Cache, ghost streams: seq<Stream>, ghost i: nat)
      requires Valid() && !IsAtEnd() && blockOffset >= blocks[currentBlockIndex].size
      requires Arrived(start, streams, i)
      modifies this, reader.volumes
      ensures Valid() && currentBlockIndex == old(currentBlockIndex) + 1
      ensures Remaining() == old(Remaining())
      ensures Released(old(Counters(reader.volumes[..])), Counters(reader.volumes[..]),
                       [blocks[old(currentBlockIndex)]])
      ensures Arrived(start, streams, i)
    {
      PassesOn(start, reader.volumes[..], streams, i, blocks, currentBlockIndex);
      ghost var before, first := Counters(reader.volumes[..]), [blocks[currentBlockIndex]];
      assert blocks[currentBlockIndex..] == first + blocks[currentBlockIndex + 1..];
      PassBytes(reader.files, blocks, currentBlockIndex);
      DecrementReleases(reader.volumes[..], blocks[currentBlockIndex], blocks[currentBlockIndex + 1..]);
      reader.DecrementVolumeCount(blocks[currentBlockIndex].volumeNumber);
      currentBlockIndex := currentBlockIndex + 1;
      ReleasedNext(Counters(start.volumes), before, Counters(reader.volumes[..]), blocks, streams[i].passed,
                   currentBlockIndex - 1);
      if !IsAtEnd() {
        blockOffset := 0;
      }
    }

    /** Reads `count` bytes of the block at hand, at the position. */
    method ReadHere(count: nat, ghost start: Cache, ghost streams: seq<Stream>, ghost i: nat) returns (chunk: Bytes)
      requires Valid() && !IsAtEnd() && blockOffset + count <= blocks[currentBlockIndex].size
      requires Fits(reader.files, blocks[currentBlockIndex]) && Arrived(start, streams, i)
      modifies reader`nOpenVolumes, reader.volumes
      ensures Valid() && Arrived(start, streams, i)
      ensures Counters(reader.volumes[..]) == old(Counters(reader.volumes[..]))
      ensures var b, from := blocks[currentBlockIndex], blocks[currentBlockIndex].offset + blockOffset;
              chunk == reader.files[b.volumeNumber][from..from + count]
    {
      ghost var here := streams[i := Position()];
      ghost var before, volume := reader.CacheOf(here), blocks[currentBlockIndex].volumeNumber;
      ReadSteps(reader.volumes[..], here, i, count);
      ReadKeepsCounters(reader.volumes[..], reader.nOpenVolumes, volume, count);
      chunk := reader.ReadBytes(blocks[currentBlockIndex].volumeNumber, blocks[currentBlockIndex].offset + blockOffset,
                                count);
      ReadsOn(start, i, before, reader.CacheOf(here));
    }

    /** Reads as many of the `wanted` bytes as the block at hand still has: clamping its rest to 32 bits loses none. */
    method ReadFromBlock(wanted: nat, ghost start: Cache, ghost streams: seq<Stream>, ghost i: nat)
      returns (chunk: Bytes)
      requires Valid() && !IsAtEnd() && Arrived(start, streams, i) && wanted < UINT32_RANGE
      modifies this`blockOffset, reader`nOpenVolumes, reader.volumes
      ensures Valid() && chunk + Remaining() == old(Remaining())
      ensures |chunk| == Min(wanted, blocks[currentBlockIndex].size - old(blockOffset))
      ensures Counters(reader.volumes[..]) == old(Counters(reader.volumes[..]))
      ensures Arrived(start, streams, i)
    {
      var leftSize := Min(wanted, DowncastToClosest32(blocks[currentBlockIndex].size - blockOffset));
      ReadChunk(reader.files, blocks, currentBlockIndex, blockOffset, leftSize);
      chunk := ReadHere(leftSize, start, streams, i);
      blockOffset := blockOffset + |chunk|;
    }

    /** Returns the next bytes of the node, `count` of them unless the node ends before, and gives back the
        reference counts of the blocks it leaves behind. As stream `i` of any streams, it takes the handle cache through
        steps of its machine. */
    method ReadBytes(count: nat, ghost streams: seq<Stream>, ghost i: nat) returns (data: Bytes)
      requires Valid() && count < UINT32_RANGE && i < |streams| && streams[i] == Position()
      modifies this, reader`nOpenVolumes, reader.volumes
      ensures Valid()
      ensures data == old(Remaining())[..Min(count, |old(Remaining())|)]
      ensures Remaining() == old(Remaining())[|data|..]
      ensures |data| < count ==> IsAtEnd()
      ensures old(currentBlockIndex) <= currentBlockIndex
      ensures Released(old(Counters(reader.volumes[..])), Counters(reader.volumes[..]),
                       blocks[old(currentBlockIndex)..currentBlockIndex])
      ensures Arrived(old(reader.CacheOf(streams)), streams, i)
    {
      data := [];
      ghost var cache := reader.CacheOf(streams);
      ReadsNothing(cache, i);
      assert streams[i := Position()] == streams && blocks[currentBlockIndex..currentBlockIndex] == [];
      if IsAtEnd() {
        return;
      }
      var left: nat := count;
      while left > 0
        invariant Valid() && left + |data| == count
        invariant data + Remaining() == old(Remaining()) && currentBlockIndex < |blocks|
        invariant Arrived(cache, streams, i)
        decreases |blocks| - currentBlockIndex, left
      {
        if blockOffset >= blocks[currentBlockIndex].size {
          LeaveBlock(cache, streams, i);
          if IsAtEnd() {
            break;
          }
        }
        var chunk := ReadFromBlock(left, cache, streams, i);
        Associative(data, chunk, Remaining());
        data := data + chunk;
        left := left - |chunk|;
      }
      TakePrefix(data, Remaining(), count);
    }
  }

  /** What is left of the node's content at a position of the stream. */
  function RemainingFrom(files: seq<Bytes>, blocks: seq<Block>, index: nat, offset: nat): Bytes
    requires AllFit(files, blocks) && index <= |blocks|
    requires index < |blocks| ==> offset <= blocks[index].size
  {
    if index == |blocks| then []
    else
      ContentCons(files, blocks[index..]);
      Content(files, blocks[index..])[offset..]
  }

  lemma PassBytes(files: seq<Bytes>, blocks: seq<Block>, index: nat)
    requires AllFit(files, blocks) && index < |blocks|
    ensures RemainingFrom(files, blocks, index, blocks[index].size) == RemainingFrom(files, blocks, index + 1, 0)
  {
    ContentCons(files, blocks[index..]);
    assert blocks[index..][1..] == blocks[index + 1..];
  }

  lemma ReadChunk(files: seq<Bytes>, blocks: seq<Block>, index: nat, offset: nat, n: nat)
    requires AllFit(files, blocks) && index < |blocks| && offset + n <= blocks[index].size
    ensures Fits(files, blocks[index])
    ensures var b := blocks[index];
            RemainingFrom(files, blocks, index, offset)
            == files[b.volumeNumber][b.offset + offset..b.offset + offset + n]
               + RemainingFrom(files, blocks, index, offset + n)
  {
    var b := blocks[index];
    assert Fits(files, b);
    var suffix := blocks[index..];
    ContentCons(files, suffix);
    DropSplit(Content(files, suffix), offset, n);
    SliceOfContent(Slice(files, b), Content(files, suffix[1..]), offset, n);
    SliceOfSlice(files[b.volumeNumber], b.offset, b.End(), offset, n);
    assert RemainingFrom(files, blocks, index, offset) == Content(files, suffix)[offset..];
    assert RemainingFrom(files, blocks, index, offset + n) == Content(files, suffix)[offset + n..];
  }

  lemma SliceOfSlice(a: Bytes, from: nat, to: nat, offset: nat, n: nat)
    requires from + offset + n <= to <= |a|
    ensures a[from..to][offset..offset + n] == a[from + offset..from + offset + n]
  {
    var x, y := a[from..to][offset..offset + n], a[from + offset..from + offset + n];
    forall i | 0 <= i < n ensures x[i] == y[i] {
      assert x[i] == a[from..to][offset + i];
    }
  }

  lemma DropSplit(a: Bytes, offset: nat, n: nat)
    requires offset + n <= |a|
    ensures a[offset..] == a[offset..offset + n] + a[offset + n..]
  {
  }

  lemma SliceOfContent(a: Bytes, b: Bytes, offset: nat, n: nat)
    requires offset + n <= |a|
    ensures (a + b)[offset..offset + n] == a[offset..offset + n]
  {
  }

  lemma Associative(a: Bytes, b: Bytes, c: Bytes)
    ensures a + (b + c) == a + b + c
  {
  }

  lemma TakePrefix(data: Bytes, left: Bytes, count: nat)
    requires |data| == count || (|data| < count && left == [])
    ensures data == (data + left)[..Min(count, |data + left|)]
    ensures left == (data + left)[|data|..]
  {
  }

  lemma ReleasedNext(a: seq<nat>, b: seq<nat>, c: seq<nat>, blocks: seq<Block>, from: nat, index: nat)
    requires from <= index < |blocks|
    requires Released(a, b, blocks[from..index]) && Released(b, c, [blocks[index]])
    ensures Released(a, c, blocks[from..index + 1])
  {
    ReleasedMore(a, b, c, blocks[from..index], [blocks[index]]);
    assert blocks[from..index + 1] == blocks[from..index] + [blocks[index]];
  }

  /** Giving back the first block's reference never takes a counter below zero. */
  lemma DecrementReleases(volumes: seq<Volume>, b: Block, rest: seq<Block>)
    requires b.volumeNumber < |volumes| && Counted(Counters(volumes), [b] + rest)
    ensures volumes[b.volumeNumber].counter > 0
    ensures Released(Counters(volumes), Counters(Decremented(volumes, b.volumeNumber)), [b])
    ensures Counted(Counters(Decremented(volumes, b.volumeNumber)), rest)
  {
    CountInAppend([b], rest, b.volumeNumber);
    CountedAfterRelease(Counters(volumes), Counters(Decremented(volumes, b.volumeNumber)), [b], rest);
  }
}
