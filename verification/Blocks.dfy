/** Blocks of a node: where its bytes lie in the volume files (BackupNodeAttributes). */
module Blocks {
  import opened Prelude

  datatype Block = Block(volumeNumber: nat, offset: nat, size: nat) {
    function End(): nat {
      offset + size
    }
  }

  /** Every byte a block names exists in the volume files. */
  predicate Fits(files: seq<Bytes>, b: Block) {
    b.volumeNumber < |files| && b.End() <= |files[b.volumeNumber]|
  }

  predicate AllFit(files: seq<Bytes>, blocks: seq<Block>) {
    forall i | 0 <= i < |blocks| :: Fits(files, blocks[i])
  }

  function Slice(files: seq<Bytes>, b: Block): Bytes
    requires Fits(files, b)
  {
    files[b.volumeNumber][b.offset..b.End()]
  }

  /** What a list of blocks means: its slices, one after the other. */
  function Content(files: seq<Bytes>, blocks: seq<Block>): Bytes
    requires AllFit(files, blocks)
  {
    if blocks == [] then [] else Content(files, blocks[..|blocks| - 1]) + Slice(files, blocks[|blocks| - 1])
  }

  function SumSizes(blocks: seq<Block>): nat {
    if blocks == [] then 0 else SumSizes(blocks[..|blocks| - 1]) + blocks[|blocks| - 1].size
  }

  /** 1 when the block covers byte `o` of volume `v`, else 0. */
  function Hit(b: Block, v: nat, o: nat): nat {
    if b.volumeNumber == v && b.offset <= o < b.End() then 1 else 0
  }

  /** How many of the blocks cover byte `o` of volume `v`. */
  function Hits(blocks: seq<Block>, v: nat, o: nat): nat {
    if blocks == [] then 0 else Hits(blocks[..|blocks| - 1], v, o) + Hit(blocks[|blocks| - 1], v, o)
  }

  predicate Continues(blocks: seq<Block>, b: Block) {
    && blocks != []
    && blocks[|blocks| - 1].volumeNumber == b.volumeNumber
    && blocks[|blocks| - 1].End() == b.offset
  }

  /** The list after recording `b`: the last block grows when `b` continues it. */
  function Recorded(blocks: seq<Block>, b: Block): seq<Block> {
    if Continues(blocks, b) then
      var last := blocks[|blocks| - 1];
      blocks[..|blocks| - 1] + [last.(size := last.size + b.size)]
    else
      blocks + [b]
  }

  /** Recording adds exactly the new block's bytes, coverage and size, whether or not it was merged. */
  lemma RecordedMeaning(files: seq<Bytes>, blocks: seq<Block>, b: Block)
    requires AllFit(files, blocks) && Fits(files, b)
    ensures AllFit(files, Recorded(blocks, b))
    ensures Content(files, Recorded(blocks, b)) == Content(files, blocks) + Slice(files, b)
  {
    var r := Recorded(blocks, b);
    if Continues(blocks, b) {
      var init, last := blocks[..|blocks| - 1], blocks[|blocks| - 1];
      var grown := last.(size := last.size + b.size);
      assert r[..|r| - 1] == init && r[|r| - 1] == grown;
      assert Slice(files, grown) == Slice(files, last) + Slice(files, b);
    } else {
      assert r[..|r| - 1] == blocks && r[|r| - 1] == b;
    }
  }

  lemma RecordedCoverage(blocks: seq<Block>, b: Block, v: nat, o: nat)
    ensures Hits(Recorded(blocks, b), v, o) == Hits(blocks, v, o) + Hit(b, v, o)
  {
    var r := Recorded(blocks, b);
    if Continues(blocks, b) {
      assert r[..|r| - 1] == blocks[..|blocks| - 1];
    } else {
      assert r[..|r| - 1] == blocks;
    }
  }

  lemma RecordedSize(blocks: seq<Block>, b: Block)
    ensures SumSizes(Recorded(blocks, b)) == SumSizes(blocks) + b.size
  {
    var r := Recorded(blocks, b);
    if Continues(blocks, b) {
      assert r[..|r| - 1] == blocks[..|blocks| - 1];
    } else {
      assert r[..|r| - 1] == blocks;
    }
  }

  /** Appending to one file leaves the meaning of every block that fitted before. */
  lemma {:induction false} ContentSurvivesAppend(files: seq<Bytes>, blocks: seq<Block>, v: nat, more: Bytes)
    requires AllFit(files, blocks) && v < |files|
    ensures AllFit(files[v := files[v] + more], blocks)
    ensures Content(files[v := files[v] + more], blocks) == Content(files, blocks)
  {
    var files' := files[v := files[v] + more];
    if blocks != [] {
      var last := blocks[|blocks| - 1];
      ContentSurvivesAppend(files, blocks[..|blocks| - 1], v, more);
      assert Slice(files', last) == Slice(files, last);
    }
  }

  lemma {:induction false} ContentSurvivesNewFile(files: seq<Bytes>, blocks: seq<Block>)
    requires AllFit(files, blocks)
    ensures AllFit(files + [[]], blocks)
    ensures Content(files + [[]], blocks) == Content(files, blocks)
  {
    if blocks != [] {
      ContentSurvivesNewFile(files, blocks[..|blocks| - 1]);
    }
  }

  lemma {:induction false} ContentLength(files: seq<Bytes>, blocks: seq<Block>)
    requires AllFit(files, blocks)
    ensures |Content(files, blocks)| == SumSizes(blocks)
  {
    if blocks != [] {
      ContentLength(files, blocks[..|blocks| - 1]);
    }
  }

  /** Reading front to back: the first block's slice, then the rest. */
  lemma {:induction false} ContentCons(files: seq<Bytes>, blocks: seq<Block>)
    requires AllFit(files, blocks) && blocks != []
    ensures Content(files, blocks) == Slice(files, blocks[0]) + Content(files, blocks[1..])
  {
    var init := blocks[..|blocks| - 1];
    if init == [] {
      assert blocks == [blocks[0]] && blocks[1..] == [];
    } else {
      ContentCons(files, init);
      assert blocks[1..][..|blocks| - 2] == init[1..];
    }
  }

  /** The part of a node's attributes that the volume store writes. */
  class BackupNodeAttributes {
    var ownsBlocks: bool
    var blocks: seq<Block>

    /** A node starts without blocks; its flag is whatever the memory held. */
    constructor (uninitialised: bool)
      ensures blocks == [] && ownsBlocks == uninitialised
    {
      ownsBlocks := uninitialised;
      blocks := [];
    }

    method AddBlock(block: Block)
      modifies this
      ensures ownsBlocks
      ensures blocks == Recorded(old(blocks), block)
    {
      ownsBlocks := true;
      if blocks != [] {
        var lastBlock := blocks[|blocks| - 1];
        if lastBlock.volumeNumber == block.volumeNumber && lastBlock.offset + lastBlock.size == block.offset {
          blocks := blocks[..|blocks| - 1] + [lastBlock.(size := lastBlock.size + block.size)];
          return;
        }
      }
      blocks := blocks + [block];
    }

    method ComputeSumOfBlockSizes() returns (sum: nat)
      ensures sum == SumSizes(blocks)
    {
      sum := 0;
      for i := 0 to |blocks|
        invariant sum == SumSizes(blocks[..i])
      {
        assert blocks[..i + 1][..i] == blocks[..i];
        sum := sum + blocks[i].size;
      }
      assert blocks[..|blocks|] == blocks;
    }
  }
}
