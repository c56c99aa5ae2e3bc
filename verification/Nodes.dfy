/** Nodes of a source or backup index: their attributes, the path map and the hash index. */
module Nodes {
  import opened Prelude
  import Blocks

  datatype FileType = Directory | File | Link

  datatype HashAlgorithm = MD5 | SHA512_256

  datatype CompressionSetting = Lzma

  datatype Permissions = POSIX(owner: int, group: int, mode: nat)

  /** The attributes that the equality of FileSystemNodeAttributes compares and CopyFrom copies. */
  datatype Facts = Facts(fileType: FileType, size: nat, lastModified: Option<int>)

  /** BackupNodeAttributes. */
  datatype Attributes = Attributes(
    facts: Facts,
    permissions: Permissions,
    ownsBlocks: bool,
    compression: Option<CompressionSetting>,
    backReference: Option<Path>,
    blocks: seq<Blocks.Block>,
    hashes: map<HashAlgorithm, string>)
  {
    predicate HasData() {
      ownsBlocks || facts.size == 0
    }
  }

  datatype Node = Node(path: Path, attributes: Attributes)

  /** A node of the source, with the content that is read when it is backed up (for a link: its target). */
  datatype SourceNode = SourceNode(path: Path, facts: Facts, permissions: Permissions, content: Bytes)

  /** What the difference resolver sees of a node of either index. */
  datatype Entry = Entry(path: Path, facts: Facts)

  function Entries(nodes: seq<Node>): seq<Entry> {
    seq(|nodes|, i requires 0 <= i < |nodes| => Entry(nodes[i].path, nodes[i].attributes.facts))
  }

  function SourceEntries(nodes: seq<SourceNode>): seq<Entry> {
    seq(|nodes|, i requires 0 <= i < |nodes| => Entry(nodes[i].path, nodes[i].facts))
  }

  /** Position of a path, as the path map gives it. */
  function IndexOf(entries: seq<Entry>, p: Path): (r: Option<nat>)
    ensures r.Some? ==> r.value < |entries| && entries[r.value].path == p
    ensures r.None? ==> forall i | 0 <= i < |entries| :: entries[i].path != p
  {
    if entries == [] then None
    else if entries[|entries| - 1].path == p then Some(|entries| - 1)
    else IndexOf(entries[..|entries| - 1], p)
  }

  /** The path map is a bijection. */
  predicate Distinct(entries: seq<Entry>) {
    forall i, j | 0 <= i < j < |entries| :: entries[i].path != entries[j].path
  }

  lemma IndexOfUnique(entries: seq<Entry>, i: nat)
    requires Distinct(entries) && i < |entries|
    ensures IndexOf(entries, entries[i].path) == Some(i)
  {
  }

  function Lookup(nodes: seq<Node>, p: Path): Option<Attributes> {
    var i := IndexOf(Entries(nodes), p);
    if i.Some? then Some(nodes[i.value].attributes) else None
  }

  lemma LookupAt(nodes: seq<Node>, i: nat)
    requires Distinct(Entries(nodes)) && i < |nodes|
    ensures Lookup(nodes, nodes[i].path) == Some(nodes[i].attributes)
  {
    IndexOfUnique(Entries(nodes), i);
    assert Entries(nodes)[i].path == nodes[i].path;
  }

  /** `Unsigned<uint32>::Max()`, the answer when no node has the hash. */
  const NOT_FOUND: nat := UINT32_RANGE - 1

  /** The index by hash: of several nodes with one hash, the last one stays. */
  function HashIndex(nodes: seq<Node>, alg: HashAlgorithm): map<string, nat> {
    if nodes == [] then map[]
    else
      var n := |nodes| - 1;
      var rest := HashIndex(nodes[..n], alg);
      if alg in nodes[n].attributes.hashes then rest[nodes[n].attributes.hashes[alg] := n] else rest
  }

  function FindByHash(hashIndex: map<string, nat>, hash: string): nat {
    if hash in hashIndex then hashIndex[hash] else NOT_FOUND
  }

  predicate HasHash(nodes: seq<Node>, alg: HashAlgorithm, i: nat, hash: string) {
    i < |nodes| && alg in nodes[i].attributes.hashes && nodes[i].attributes.hashes[alg] == hash
  }

  /** The hash index finds a node with the hash exactly when one exists, and then the last one. */
  lemma {:induction false} HashIndexExact(nodes: seq<Node>, alg: HashAlgorithm, hash: string)
    requires |nodes| <= 0xFFFF_FFFF
    ensures var r := FindByHash(HashIndex(nodes, alg), hash);
            && (r == NOT_FOUND <==> forall i | 0 <= i < |nodes| :: !HasHash(nodes, alg, i, hash))
            && (r != NOT_FOUND ==> HasHash(nodes, alg, r, hash)
                                   && forall i | r < i < |nodes| :: !HasHash(nodes, alg, i, hash))
  {
    if nodes != [] {
      var n := |nodes| - 1;
      HashIndexExact(nodes[..n], alg, hash);
      assert forall i | 0 <= i < n :: HasHash(nodes, alg, i, hash) <==> HasHash(nodes[..n], alg, i, hash);
      if HasHash(nodes, alg, n, hash) {
        assert FindByHash(HashIndex(nodes, alg), hash) == n;
      } else {
        assert FindByHash(HashIndex(nodes, alg), hash) == FindByHash(HashIndex(nodes[..n], alg), hash);
      }
    }
  }

  method GenerateHashIndex(nodes: seq<Node>, alg: HashAlgorithm) returns (hashIndex: map<string, nat>)
    ensures hashIndex == HashIndex(nodes, alg)
  {
    hashIndex := map[];
    for i := 0 to |nodes|
      invariant hashIndex == HashIndex(nodes[..i], alg)
    {
      assert nodes[..i + 1][..i] == nodes[..i];
      if alg in nodes[i].attributes.hashes {
        hashIndex := hashIndex[nodes[i].attributes.hashes[alg] := i];
      }
    }
    assert nodes[..|nodes|] == nodes;
  }

  /** The sum over the nodes that own their blocks. */
  function OwnedSizes(nodes: seq<Node>): seq<nat> {
    seq(|nodes|, i requires 0 <= i < |nodes| =>
      if nodes[i].attributes.ownsBlocks then Blocks.SumSizes(nodes[i].attributes.blocks) else 0)
  }

  method ComputeSumOfOwnedBlockSizes(nodes: seq<Node>) returns (sum: nat)
    ensures sum == Sum(OwnedSizes(nodes))
  {
    sum := 0;
    for i := 0 to |nodes|
      invariant sum == Sum(OwnedSizes(nodes)[..i])
    {
      var size := 0;
      if nodes[i].attributes.ownsBlocks {
        var blocks := nodes[i].attributes.blocks;
        for j := 0 to |blocks|
          invariant size == Blocks.SumSizes(blocks[..j])
        {
          assert blocks[..j + 1][..j] == blocks[..j];
          size := size + blocks[j].size;
        }
        assert blocks[..|blocks|] == blocks;
      }
      SumNext(OwnedSizes(nodes), i);
      sum := sum + size;
    }
    assert OwnedSizes(nodes)[..|nodes|] == OwnedSizes(nodes);
  }
}
