/** Snapshots and their chain: how AddSnapshot fills a new index, and how data is found again. */
module Snapshots {
  import opened Prelude
  import Blocks
  import Store
  import StoreTheorems
  import opened Nodes
  import opened Difference
  import CompressionStatistics

  /** The configuration and the functions of the environment: hash and compressor. */
  datatype Config = Config(
    alg: HashAlgorithm,
    hash: Bytes -> string,
    compress: (int, Bytes) -> Bytes,
    decompress: Bytes -> Bytes,
    maxCompressionLevel: nat)

  /** Decompressing undoes compressing at any level, and nothing non-empty compresses to nothing. */
  ghost predicate GoodCodec(cfg: Config) {
    && (forall level, x :: cfg.decompress(cfg.compress(level, x)) == x)
    && (forall level, x | x != [] :: cfg.compress(level, x) != [])
  }

  /** What the directory walk yields: distinct paths, directories of size 0, contents of the size they claim. */
  predicate ValidSource(src: seq<SourceNode>) {
    && Distinct(SourceEntries(src)) && |src| <= NOT_FOUND
    && forall i | 0 <= i < |src| ::
         src[i].facts.size == if src[i].facts.fileType.Directory? then 0 else |src[i].content|
  }

  /** How a finished AddSnapshot went: the run of the store with the writer of each node, the compression rates and
      uninitialised flags met on the way, and the index in memory, its nodes in any order. */
  datatype Outcome = Outcome(
    volumeSize: nat,
    steps: seq<Store.Step>,
    store: Store.State,
    writer: map<Path, nat>,
    rate: map<Path, real>,
    uninitialised: map<Path, bool>,
    nodes: seq<Node>)

  /** The rate that decides about compression. */
  function EffectiveRate(facts: Facts, learned: real): real {
    match facts.fileType
    case File => if facts.size == 0 then 1.0 else learned
    case Link => if facts.size > 100 then 0.0 else 1.0
    case Directory => 1.0
  }

  predicate Compresses(facts: Facts, learned: real) {
    EffectiveRate(facts, learned) <= CompressionStatistics.WORTHWHILE
  }

  /** The bytes that BackupNode passes to the store. */
  function StoredForm(cfg: Config, node: SourceNode, learned: real): Bytes {
    if Compresses(node.facts, learned) then
      var rate := EffectiveRate(node.facts, learned);
      cfg.compress(CompressionStatistics.CompressionLevel(cfg.maxCompressionLevel, rate), node.content)
    else node.content
  }

  /** BackupNode. */
  function NewAttributes(cfg: Config, node: SourceNode, learned: real, blocks: seq<Blocks.Block>,
                         uninitialised: bool): Attributes {
    if node.facts.fileType.Directory? then
      Attributes(node.facts, node.permissions, uninitialised, None, None, [], map[])
    else
      Attributes(node.facts, node.permissions, if blocks == [] then uninitialised else true,
                 if Compresses(node.facts, learned) then Some(Lzma) else None,
                 None, blocks, map[cfg.alg := cfg.hash(node.content)])
  }

  /** BackupNodeMetadata as it is, or with its back-reference cleared. */
  datatype Variant = AsWritten | TargetCleared

  function CarriedAttributes(v: Variant, before: Attributes, facts: Facts): Attributes {
    before.(facts := facts, ownsBlocks := false,
          backReference := if v.TargetCleared? then None else before.backReference)
  }

  /** BackupMove. */
  function MovedAttributes(before: Attributes, oldPath: Path, facts: Facts): Attributes {
    before.(facts := facts, ownsBlocks := false, backReference := Some(oldPath))
  }

  function Hashes(cfg: Config, src: seq<SourceNode>): seq<string> {
    seq(|src|, i requires 0 <= i < |src| => cfg.hash(src[i].content))
  }

  /** What AddSnapshot does with source node `i`. */
  function Treatment(cfg: Config, last: Option<seq<Node>>, src: seq<SourceNode>, i: nat): Kind
    requires i < |src|
  {
    if last.None? then NewData
    else
      var left := last.value;
      match KindOf(Entries(left), HashIndex(left, cfg.alg), SourceEntries(src), Hashes(cfg, src), i)
      case Unchanged => MetadataOnly
      case NewData => NewData
      case MetadataOnly => MetadataOnly
      case MovedFrom(l) => MovedFrom(l)
  }

  /** The blocks that the store recorded for a path. */
  function BlocksOf(o: Outcome, p: Path): seq<Blocks.Block> {
    if p in o.writer && o.writer[p] < |o.store.pool.nodes| then o.store.pool.nodes[o.writer[p]] else []
  }

  function RateOf(o: Outcome, p: Path): real {
    if p in o.rate then o.rate[p] else 0.0
  }

  function FlagOf(o: Outcome, p: Path): bool {
    if p in o.uninitialised then o.uninitialised[p] else false
  }

  /** The attributes of source node `i` in the new index. */
  function AttributesFor(v: Variant, cfg: Config, last: Option<seq<Node>>, src: seq<SourceNode>, o: Outcome,
                         i: nat): Attributes
    requires i < |src|
  {
    var node := src[i];
    var asNew := NewAttributes(cfg, node, RateOf(o, node.path), BlocksOf(o, node.path), FlagOf(o, node.path));
    match Treatment(cfg, last, src, i)
    case MovedFrom(l) => MovedAttributes(last.value[l].attributes, last.value[l].path, node.facts)
    case MetadataOnly =>
      var before := Lookup(last.value, node.path);
      if before.Some? then CarriedAttributes(v, before.value, node.facts) else asNew
    case _ => asNew
  }

  /** Every BackupNode ended, and each wrote the stored form of its node with a writer of its own. */
  ghost predicate Completed(cfg: Config, last: Option<seq<Node>>, src: seq<SourceNode>, o: Outcome) {
    && StoreTheorems.Reaches(o.volumeSize, o.steps, o.store) && StoreTheorems.Quiet(o.store)
    && (forall i | 0 <= i < |src| && IsNewFile(cfg, last, src, i) :: WroteNode(cfg, src[i], o))
    && OwnWriters(cfg, last, src, o)
    && (forall w | 0 <= w < |o.store.writers| :: HasSource(cfg, last, src, o, w))
  }

  /** No two nodes share a writer. */
  predicate OwnWriters(cfg: Config, last: Option<seq<Node>>, src: seq<SourceNode>, o: Outcome) {
    forall i, j | 0 <= i < j < |src| && IsNewFile(cfg, last, src, i) && IsNewFile(cfg, last, src, j)
                  && src[i].path in o.writer && src[j].path in o.writer ::
      o.writer[src[i].path] != o.writer[src[j].path]
  }

  /** A file or link that is backed up with its data. */
  predicate IsNewFile(cfg: Config, last: Option<seq<Node>>, src: seq<SourceNode>, i: nat)
    requires i < |src|
  {
    Treatment(cfg, last, src, i).NewData? && !src[i].facts.fileType.Directory?
  }

  /** Writer `w` belongs to some node that is backed up with its data. */
  predicate HasSource(cfg: Config, last: Option<seq<Node>>, src: seq<SourceNode>, o: Outcome, w: nat) {
    exists i | 0 <= i < |src| :: IsNewFile(cfg, last, src, i) && src[i].path in o.writer && o.writer[src[i].path] == w
  }

  predicate WroteNode(cfg: Config, node: SourceNode, o: Outcome) {
    && node.path in o.writer && o.writer[node.path] < |o.store.writers|
    && Store.Asked(o.steps, o.writer[node.path]) == StoredForm(cfg, node, RateOf(o, node.path))
  }

  /** The index in memory has exactly one node per source node, with its attributes. */
  predicate Indexed(v: Variant, cfg: Config, last: Option<seq<Node>>, src: seq<SourceNode>, o: Outcome) {
    && Distinct(Entries(o.nodes)) && |o.nodes| <= NOT_FOUND
    && (forall j | 0 <= j < |o.nodes| :: IndexOf(SourceEntries(src), o.nodes[j].path).Some?)
    && (forall i | 0 <= i < |src| ::
          Lookup(o.nodes, src[i].path) == Some(AttributesFor(v, cfg, last, src, o, i)))
  }

  /** What writing an index to its file and reading it again makes of a node. */
  function Reread(a: Attributes): Attributes {
    var sized := a.(facts := a.facts.(size := if a.facts.fileType.Directory? then 0 else a.facts.size));
    if a.blocks == [] then sized.(ownsBlocks := false, compression := None, backReference := None) else sized
  }

  function RereadAll(nodes: seq<Node>): seq<Node> {
    seq(|nodes|, i requires 0 <= i < |nodes| => Node(nodes[i].path, Reread(nodes[i].attributes)))
  }

  /** A snapshot read from disk: its index and its volume files. */
  datatype Snapshot = Snapshot(nodes: seq<Node>, files: seq<Bytes>)

  /** `snap` is what AddSnapshot appends after `last`. */
  ghost predicate Added(v: Variant, cfg: Config, last: Option<seq<Node>>, src: seq<SourceNode>, o: Outcome,
                        snap: Snapshot) {
    && Completed(cfg, last, src, o) && Indexed(v, cfg, last, src, o)
    && snap == Snapshot(RereadAll(o.nodes), o.store.pool.files)
  }

  /** FindDataSnapshot: the newest snapshot not after `k` with the data of path `p` of snapshot `k`, and its path there.
      None when a path is missing in an older snapshot, or there is no older snapshot. */
  function FindData(chain: seq<Snapshot>, k: nat, p: Path): (r: Option<(nat, Path)>)
    requires k < |chain|
    ensures r.Some? ==> r.value.0 <= k
    decreases k
  {
    var a := Lookup(chain[k].nodes, p);
    if a.None? then None
    else if a.value.HasData() then Some((k, p))
    else if k == 0 then None
    else FindData(chain, k - 1, if a.value.backReference.Some? then a.value.backReference.value else p)
  }

  /** OpenFileForReading without verification: the content of a node from its snapshot's own volumes. */
  function ReadData(cfg: Config, snap: Snapshot, p: Path): Option<Bytes> {
    var a := Lookup(snap.nodes, p);
    if a.None? || !Blocks.AllFit(snap.files, a.value.blocks) then None
    else
      var raw := Blocks.Content(snap.files, a.value.blocks);
      Some(if a.value.compression.Some? then cfg.decompress(raw) else raw)
  }

  /** OpenFileForReading with verification: reading fails when the hash is not the recorded one. */
  function ReadVerified(cfg: Config, snap: Snapshot, p: Path): Option<Bytes> {
    var a, data := Lookup(snap.nodes, p), ReadData(cfg, snap, p);
    if a.Some? && data.Some? && cfg.alg in a.value.hashes && a.value.hashes[cfg.alg] == cfg.hash(data.value)
    then data else None
  }

  /** Restoring a file or link of snapshot `k`. */
  function Restore(cfg: Config, chain: seq<Snapshot>, k: nat, p: Path): Option<Bytes>
    requires k < |chain|
  {
    var a, place := Lookup(chain[k].nodes, p), FindData(chain, k, p);
    if a.None? || place.None? then None
    else
      var data := ReadVerified(cfg, chain[place.value.0], place.value.1);
      if data.Some? && |data.value| == a.value.facts.size then data else None
  }
}
