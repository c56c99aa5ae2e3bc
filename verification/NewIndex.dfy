/** What the index of a new snapshot says of each node, field by field, and what its volumes hold for it. */
module NewIndex {
  import opened Prelude
  import opened Blocks
  import CompressionStatistics
  import opened Nodes
  import opened Snapshots
  import opened SnapshotChain
  import StoreTheorems

  /** A file or link is worth compressing: a file that is not empty and whose extension has a rate of at most 0.9, or a
      link of more than 100 bytes. */
  predicate IsWorthCompressing(facts: Facts, rate: real) {
    || (facts.fileType.File? && facts.size > 0 && rate <= 0.9)
    || (facts.fileType.Link? && facts.size > 100)
  }

  lemma WorthExactly(facts: Facts, rate: real)
    requires !facts.fileType.Directory?
    ensures Compresses(facts, rate) <==> IsWorthCompressing(facts, rate)
  {
  }

  /** Everything the new index says of a file or link that is backed up with its data. */
  lemma NewFileExactly(v: Variant, cfg: Config, last: Option<seq<Node>>, src: seq<SourceNode>, o: Outcome,
                       snap: Snapshot, i: nat)
    requires GoodCodec(cfg) && ValidSource(src) && Added(v, cfg, last, src, o, snap)
    requires i < |src| && IsData(src[i]) && Treatment(cfg, last, src, i).NewData?
    ensures Lookup(snap.nodes, src[i].path).Some?
    ensures var a, node := Lookup(snap.nodes, src[i].path).value, src[i];
            && a.facts == node.facts && a.permissions == node.permissions
            && a.hashes == map[cfg.alg := cfg.hash(node.content)]
            && a.backReference == None
            && (a.ownsBlocks <==> node.facts.size > 0) && (a.blocks == [] <==> node.facts.size == 0)
            && (a.compression.Some? <==> IsWorthCompressing(node.facts, RateOf(o, node.path)))
            && (a.compression.None? ==> SumSizes(a.blocks) == node.facts.size)
  {
    AddedLookup(v, cfg, last, src, o, snap, i);
    NewNodeRecorded(v, cfg, last, src, o, snap, i);
    WorthExactly(src[i].facts, RateOf(o, src[i].path));
    NewFileHolds(v, cfg, last, src, o, snap, i);
    ContentLength(snap.files, Lookup(snap.nodes, src[i].path).value.blocks);
  }

  /** Its blocks hold its content, compressed at the level for the rate of its extension (for a link, for the rate 0)
      exactly when it is worth compressing. */
  lemma NewFileHolds(v: Variant, cfg: Config, last: Option<seq<Node>>, src: seq<SourceNode>, o: Outcome,
                     snap: Snapshot, i: nat)
    requires GoodCodec(cfg) && ValidSource(src) && Added(v, cfg, last, src, o, snap)
    requires i < |src| && IsData(src[i]) && Treatment(cfg, last, src, i).NewData?
    ensures Lookup(snap.nodes, src[i].path).Some?
    ensures AllFit(snap.files, Lookup(snap.nodes, src[i].path).value.blocks)
    ensures var node, rate := src[i], RateOf(o, src[i].path);
            Content(snap.files, Lookup(snap.nodes, node.path).value.blocks)
            == if IsWorthCompressing(node.facts, rate)
               then cfg.compress(CompressionStatistics.CompressionLevel(
                                   cfg.maxCompressionLevel, if node.facts.fileType.Link? then 0.0 else rate),
                                 node.content)
               else node.content
  {
    var node := src[i];
    AddedLookup(v, cfg, last, src, o, snap, i);
    assert WroteNode(cfg, node, o);
    StoreTheorems.RoundTrip(o.volumeSize, o.steps, o.store, o.writer[node.path]);
    WorthExactly(node.facts, RateOf(o, node.path));
  }

  /** A directory has neither blocks nor hashes. */
  lemma NewDirectoryExactly(v: Variant, cfg: Config, last: Option<seq<Node>>, src: seq<SourceNode>, o: Outcome,
                            snap: Snapshot, i: nat)
    requires ValidSource(src) && Added(v, cfg, last, src, o, snap)
    requires i < |src| && !IsData(src[i]) && Treatment(cfg, last, src, i).NewData?
    ensures Lookup(snap.nodes, src[i].path)
         == Some(Attributes(src[i].facts, src[i].permissions, false, None, None, [], map[]))
  {
    AddedLookup(v, cfg, last, src, o, snap, i);
  }

  /** Everything the new index says of a node that is not backed up: all but facts and ownership is as in the last
      index. The back-reference is the old path of a moved node and that of the last index for a carried one. */
  lemma CopiedExactly(v: Variant, cfg: Config, last: seq<Node>, src: seq<SourceNode>, o: Outcome, snap: Snapshot,
                      i: nat) returns (before: Attributes)
    requires ValidSource(src) && Added(v, cfg, Some(last), src, o, snap)
    requires i < |src| && !Treatment(cfg, Some(last), src, i).NewData?
    requires Treatment(cfg, Some(last), src, i).MovedFrom? ==> Treatment(cfg, Some(last), src, i).left < |last|
    ensures var k := Treatment(cfg, Some(last), src, i);
            if k.MovedFrom? then before == last[k.left].attributes else Lookup(last, src[i].path) == Some(before)
    ensures Lookup(snap.nodes, src[i].path).Some?
    ensures var a, k := Lookup(snap.nodes, src[i].path).value, Treatment(cfg, Some(last), src, i);
            && a.facts == src[i].facts && !a.ownsBlocks
            && a.permissions == before.permissions && a.blocks == before.blocks && a.hashes == before.hashes
            && (before.blocks != [] ==> a.compression == before.compression)
            && (before.blocks != [] ==>
                  a.backReference == if k.MovedFrom? then Some(last[k.left].path)
                                     else if v.TargetCleared? then None else before.backReference)
            && (before.blocks == [] ==> a.compression == None && a.backReference == None)
  {
    AddedLookup(v, cfg, Some(last), src, o, snap, i);
    var k := Treatment(cfg, Some(last), src, i);
    if k.MovedFrom? {
      before := last[k.left].attributes;
    } else {
      CarriedHasPredecessor(cfg, last, src, i);
      before := Lookup(last, src[i].path).value;
    }
  }

  /** The statistics learn exactly from the files that are compressed: starting one decides as BackupNode does, from the
      rate stored for its extension or 0, and its end moves that rate only if it was compressed. */
  lemma LearningExactly(l: CompressionStatistics.Learning, ext: string, facts: Facts, sample: real)
    requires facts.fileType.File?
    ensures var m := CompressionStatistics.Learn(l, CompressionStatistics.Start(ext, facts.size));
            var rate := if ext in l.stats then l.stats[ext] else 0.0;
            && m.stats == l.stats[ext := rate]
            && m.tasks == l.tasks + [CompressionStatistics.Task(ext, IsWorthCompressing(facts, rate), false)]
    ensures forall i: nat | i < |l.tasks| && !l.tasks[i].ended ::
              CompressionStatistics.Learn(l, CompressionStatistics.End(i, sample)).stats
              == if l.tasks[i].compresses then CompressionStatistics.Learned(l.stats, l.tasks[i].ext, sample)
                 else l.stats
  {
    if ext in l.stats { assert l.stats[ext := l.stats[ext]] == l.stats; }
  }
}
