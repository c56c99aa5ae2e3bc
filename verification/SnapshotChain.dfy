/** Restoring any snapshot of any run gives the source as it was - exactly when no stale back-reference was copied. */
module SnapshotChain {
  import opened Prelude
  import Blocks
  import StoreTheorems
  import opened Nodes
  import opened Difference
  import opened Snapshots

  // ----- Lookups in re-read indexes -----

  lemma {:induction false} IndexOfSamePaths(a: seq<Entry>, b: seq<Entry>, p: Path)
    requires |a| == |b| && forall i | 0 <= i < |a| :: a[i].path == b[i].path
    ensures IndexOf(a, p) == IndexOf(b, p)
  {
    if a != [] { IndexOfSamePaths(a[..|a| - 1], b[..|b| - 1], p); }
  }

  lemma RereadLookup(nodes: seq<Node>, p: Path)
    ensures Lookup(RereadAll(nodes), p)
         == match Lookup(nodes, p) case None => None case Some(a) => Some(Reread(a))
  {
    IndexOfSamePaths(Entries(RereadAll(nodes)), Entries(nodes), p);
  }

  /** A source node is in the re-read index with the attributes that AddSnapshot gave it. */
  lemma AddedLookup(v: Variant, cfg: Config, last: Option<seq<Node>>, src: seq<SourceNode>, o: Outcome,
                    snap: Snapshot, i: nat)
    requires Added(v, cfg, last, src, o, snap) && i < |src|
    ensures Lookup(o.nodes, src[i].path) == Some(AttributesFor(v, cfg, last, src, o, i))
    ensures Lookup(snap.nodes, src[i].path) == Some(Reread(AttributesFor(v, cfg, last, src, o, i)))
  {
    RereadLookup(o.nodes, src[i].path);
  }

  lemma CarriedHasPredecessor(cfg: Config, last: seq<Node>, src: seq<SourceNode>, i: nat)
    requires i < |src| && Treatment(cfg, Some(last), src, i).MetadataOnly?
    ensures Lookup(last, src[i].path).Some?
  {
    var left := Entries(last);
    if !KindOf(left, HashIndex(last, cfg.alg), SourceEntries(src), Hashes(cfg, src), i).Unchanged? {
      var l := FindByHash(HashIndex(last, cfg.alg), cfg.hash(src[i].content));
      assert left[l].path == src[i].path;
    }
  }

  /** What AddSnapshot does with a source node, told by paths, facts and hashes alone. */
  lemma TreatmentExactly(cfg: Config, last: seq<Node>, src: seq<SourceNode>, i: nat)
    requires i < |src| && |last| <= 0xFFFF_FFFF && Distinct(Entries(last))
    ensures var k, e := Treatment(cfg, Some(last), src, i), Entry(src[i].path, src[i].facts);
            var hash := cfg.hash(src[i].content);
            && (k.NewData? <==> e !in Entries(last) && (e.facts.fileType.Directory? || HashIsNew(last, cfg.alg, hash)))
            && (forall l: nat :: k == MovedFrom(l) <==>
                  e !in Entries(last) && !e.facts.fileType.Directory?
                  && IsLastWithHash(last, cfg.alg, l, hash) && last[l].path != e.path)
            && (!k.NewData? && !k.MovedFrom? ==> k.MetadataOnly?)
    ensures Treatment(cfg, None, src, i) == NewData
  {
    KindExactly(last, cfg.alg, SourceEntries(src), Hashes(cfg, src), i);
  }

  // ----- What one snapshot records about its source -----

  predicate IsData(node: SourceNode) {
    !node.facts.fileType.Directory?
  }

  /** The recorded attributes describe the source node; owned blocks hold its content. */
  predicate NodeRecorded(cfg: Config, snap: Snapshot, node: SourceNode) {
    var a := Lookup(snap.nodes, node.path);
    && a.Some? && a.value.facts == node.facts
    && if IsData(node) then
         && cfg.alg in a.value.hashes && a.value.hashes[cfg.alg] == cfg.hash(node.content)
         && (node.facts.size == 0 ==> a.value.blocks == [] && a.value.compression == None)
         && (node.facts.size > 0 ==> a.value.blocks != [])
         && (a.value.ownsBlocks ==> ReadData(cfg, snap, node.path) == Some(node.content))
       else
         cfg.alg !in a.value.hashes && a.value.blocks == []
  }

  predicate Records(cfg: Config, snap: Snapshot, src: seq<SourceNode>) {
    && Distinct(Entries(snap.nodes)) && |snap.nodes| <= NOT_FOUND
    && (forall j | 0 <= j < |snap.nodes| :: IndexOf(SourceEntries(src), snap.nodes[j].path).Some?)
    && (forall i | 0 <= i < |src| :: NodeRecorded(cfg, snap, src[i]))
  }

  /** Among the contents of two consecutive sources, equal hashes mean equal contents. */
  ghost predicate HashSeparates(cfg: Config, prev: seq<SourceNode>, src: seq<SourceNode>) {
    forall x, y | x in prev + src && y in prev + src && cfg.hash(x.content) == cfg.hash(y.content) ::
      x.content == y.content
  }

  /** A node with unchanged path, type, size and modification time has unchanged content. */
  predicate SameFactsSameContent(prev: seq<SourceNode>, src: seq<SourceNode>) {
    forall i, j | 0 <= i < |prev| && 0 <= j < |src| && prev[i].path == src[j].path && prev[i].facts == src[j].facts ::
      prev[i].content == src[j].content
  }

  lemma NodeOfPath(cfg: Config, snap: Snapshot, src: seq<SourceNode>, p: Path) returns (j: nat)
    requires Records(cfg, snap, src) && Lookup(snap.nodes, p).Some?
    ensures j < |src| && src[j].path == p && NodeRecorded(cfg, snap, src[j])
  {
    var i := IndexOf(Entries(snap.nodes), p).value;
    assert Entries(snap.nodes)[i].path == snap.nodes[i].path == p;
    j := IndexOf(SourceEntries(src), p).value;
    assert SourceEntries(src)[j].path == src[j].path;
  }

  /** Where a carried or moved node comes from: a node of the previous source with the same content, whose attributes
      (except for facts) it copies. */
  lemma Origin(cfg: Config, last: Snapshot, prev: seq<SourceNode>, src: seq<SourceNode>, i: nat) returns (j: nat)
    requires Records(cfg, last, prev) && ValidSource(prev) && ValidSource(src)
    requires HashSeparates(cfg, prev, src) && SameFactsSameContent(prev, src)
    requires i < |src| && IsData(src[i]) && !Treatment(cfg, Some(last.nodes), src, i).NewData?
    ensures j < |prev| && IsData(prev[j])
    ensures prev[j].content == src[i].content && prev[j].facts.size == src[i].facts.size
    ensures var k := Treatment(cfg, Some(last.nodes), src, i);
            && (k.MetadataOnly? ==> prev[j].path == src[i].path && Lookup(last.nodes, prev[j].path).Some?)
            && (k.MovedFrom? ==> k.left < |last.nodes| && prev[j].path == last.nodes[k.left].path
                                 && Lookup(last.nodes, prev[j].path) == Some(last.nodes[k.left].attributes))
  {
    var left, right := Entries(last.nodes), SourceEntries(src);
    var kind := KindOf(left, HashIndex(last.nodes, cfg.alg), right, Hashes(cfg, src), i);
    HashIndexExact(last.nodes, cfg.alg, cfg.hash(src[i].content));
    if kind.Unchanged? {
      var l := IndexOf(left, src[i].path).value;
      assert last.nodes[l].path == src[i].path;
      LookupAt(last.nodes, l);
      j := NodeOfPath(cfg, last, prev, src[i].path);
    } else {
      var l := FindByHash(HashIndex(last.nodes, cfg.alg), cfg.hash(src[i].content));
      assert HasHash(last.nodes, cfg.alg, l, cfg.hash(src[i].content));
      LookupAt(last.nodes, l);
      assert left[l].path == last.nodes[l].path;
      j := NodeOfPath(cfg, last, prev, last.nodes[l].path);
      assert prev[j] in prev + src && src[i] in prev + src;
    }
  }

  // ----- The new snapshot records its source -----

  lemma NewNodeRecorded(v: Variant, cfg: Config, last: Option<seq<Node>>, src: seq<SourceNode>, o: Outcome,
                        snap: Snapshot, i: nat)
    requires GoodCodec(cfg) && ValidSource(src) && Added(v, cfg, last, src, o, snap)
    requires i < |src| && Treatment(cfg, last, src, i).NewData?
    ensures NodeRecorded(cfg, snap, src[i])
    ensures IsData(src[i]) ==> ReadData(cfg, snap, src[i].path) == Some(src[i].content)
    ensures IsData(src[i]) ==> Lookup(snap.nodes, src[i].path).value.HasData()
  {
    var node := src[i];
    AddedLookup(v, cfg, last, src, o, snap, i);
    if IsData(node) {
      assert WroteNode(cfg, node, o);
      var blocks, learned := BlocksOf(o, node.path), RateOf(o, node.path);
      StoreTheorems.RoundTrip(o.volumeSize, o.steps, o.store, o.writer[node.path]);
      assert Blocks.Content(snap.files, blocks) == StoredForm(cfg, node, learned);
      if node.facts.size > 0 {
        assert StoredForm(cfg, node, learned) != [];
      }
    }
  }

  lemma CopiedNodeRecorded(v: Variant, cfg: Config, last: Snapshot, prev: seq<SourceNode>, src: seq<SourceNode>,
                           o: Outcome, snap: Snapshot, i: nat)
    requires Records(cfg, last, prev) && ValidSource(prev) && ValidSource(src)
    requires HashSeparates(cfg, prev, src) && SameFactsSameContent(prev, src)
    requires Added(v, cfg, Some(last.nodes), src, o, snap)
    requires i < |src| && !Treatment(cfg, Some(last.nodes), src, i).NewData?
    ensures NodeRecorded(cfg, snap, src[i])
    ensures IsData(src[i]) ==> !Lookup(snap.nodes, src[i].path).value.ownsBlocks
  {
    if IsData(src[i]) {
      var j := Origin(cfg, last, prev, src, i);
      CopiedFileRecorded(v, cfg, last, prev, src, o, snap, i, j);
    } else {
      CarriedDirectoryRecorded(v, cfg, last, prev, src, o, snap, i);
    }
  }

  lemma CopiedFileRecorded(v: Variant, cfg: Config, last: Snapshot, prev: seq<SourceNode>, src: seq<SourceNode>,
                           o: Outcome, snap: Snapshot, i: nat, j: nat)
    requires Records(cfg, last, prev) && ValidSource(src) && Added(v, cfg, Some(last.nodes), src, o, snap)
    requires i < |src| && IsData(src[i]) && j < |prev| && IsData(prev[j])
    requires prev[j].content == src[i].content && prev[j].facts.size == src[i].facts.size
    requires match Treatment(cfg, Some(last.nodes), src, i)
             case MetadataOnly => prev[j].path == src[i].path
             case MovedFrom(l) => Lookup(last.nodes, prev[j].path) == Some(last.nodes[l].attributes)
             case _ => false
    ensures NodeRecorded(cfg, snap, src[i]) && !Lookup(snap.nodes, src[i].path).value.ownsBlocks
  {
    AddedLookup(v, cfg, Some(last.nodes), src, o, snap, i);
    assert NodeRecorded(cfg, last, prev[j]);
  }

  lemma CarriedDirectoryRecorded(v: Variant, cfg: Config, last: Snapshot, prev: seq<SourceNode>, src: seq<SourceNode>,
                                 o: Outcome, snap: Snapshot, i: nat)
    requires Records(cfg, last, prev) && ValidSource(src) && Added(v, cfg, Some(last.nodes), src, o, snap)
    requires i < |src| && !IsData(src[i]) && !Treatment(cfg, Some(last.nodes), src, i).NewData?
    ensures NodeRecorded(cfg, snap, src[i])
  {
    AddedLookup(v, cfg, Some(last.nodes), src, o, snap, i);
    var l := IndexOf(Entries(last.nodes), src[i].path).value;
    assert Entries(last.nodes)[l].facts == last.nodes[l].attributes.facts == src[i].facts;
    LookupAt(last.nodes, l);
    var j := NodeOfPath(cfg, last, prev, src[i].path);
  }

  lemma FirstRecorded(v: Variant, cfg: Config, src: seq<SourceNode>, o: Outcome, snap: Snapshot)
    requires GoodCodec(cfg) && ValidSource(src) && Added(v, cfg, None, src, o, snap)
    ensures Records(cfg, snap, src)
  {
    RereadKeepsPaths(src, o.nodes, snap);
    forall i | 0 <= i < |src| ensures NodeRecorded(cfg, snap, src[i]) {
      NewNodeRecorded(v, cfg, None, src, o, snap, i);
    }
  }

  lemma RereadKeepsPaths(src: seq<SourceNode>, nodes: seq<Node>, snap: Snapshot)
    requires snap.nodes == RereadAll(nodes) && Distinct(Entries(nodes))
    requires forall j | 0 <= j < |nodes| :: IndexOf(SourceEntries(src), nodes[j].path).Some?
    ensures Distinct(Entries(snap.nodes))
    ensures forall j | 0 <= j < |snap.nodes| :: IndexOf(SourceEntries(src), snap.nodes[j].path).Some?
  {
    assert forall j | 0 <= j < |nodes| :: Entries(snap.nodes)[j].path == Entries(nodes)[j].path;
  }

  lemma NextRecorded(v: Variant, cfg: Config, last: Snapshot, prev: seq<SourceNode>, src: seq<SourceNode>,
                     o: Outcome, snap: Snapshot)
    requires GoodCodec(cfg) && Records(cfg, last, prev) && ValidSource(prev) && ValidSource(src)
    requires HashSeparates(cfg, prev, src) && SameFactsSameContent(prev, src)
    requires Added(v, cfg, Some(last.nodes), src, o, snap)
    ensures Records(cfg, snap, src)
  {
    RereadKeepsPaths(src, o.nodes, snap);
    forall i | 0 <= i < |src| ensures NodeRecorded(cfg, snap, src[i]) {
      if Treatment(cfg, Some(last.nodes), src, i).NewData? {
        NewNodeRecorded(v, cfg, Some(last.nodes), src, o, snap, i);
      } else {
        CopiedNodeRecorded(v, cfg, last, prev, src, o, snap, i);
      }
    }
  }

  lemma AddedNodeAgrees(v: Variant, cfg: Config, last: Option<seq<Node>>, src: seq<SourceNode>, o: Outcome,
                        snap: Snapshot, i: nat)
    requires ValidSource(src) && Added(v, cfg, last, src, o, snap) && i < |src|
    ensures !Differs(SourceEntries(src), Entries(snap.nodes), i)
  {
    var left := Entries(snap.nodes);
    AddedLookup(v, cfg, last, src, o, snap, i);
    assert AttributesFor(v, cfg, last, src, o, i).facts == src[i].facts;
    var j := IndexOf(left, src[i].path).value;
    assert left[j].facts == snap.nodes[j].attributes.facts;
  }

  /** A new snapshot, written and read again, lists the source's paths with the source's facts. */
  lemma AddedAgrees(v: Variant, cfg: Config, last: Option<seq<Node>>, src: seq<SourceNode>, o: Outcome, snap: Snapshot)
    requires ValidSource(src) && Added(v, cfg, last, src, o, snap)
    ensures Distinct(Entries(snap.nodes)) && Agree(Entries(snap.nodes), SourceEntries(src))
  {
    var left, right := Entries(snap.nodes), SourceEntries(src);
    RereadKeepsPaths(src, o.nodes, snap);
    AgreeByNode(left, right);
    forall j | 0 <= j < |left| ensures IndexOf(right, left[j].path).Some? {
      assert left[j].path == snap.nodes[j].path;
    }
    forall i | 0 <= i < |right| ensures !Differs(right, left, i) {
      AddedNodeAgrees(v, cfg, last, src, o, snap, i);
    }
  }

  /** So the check at the end of AddSnapshot finds no difference. */
  lemma NoDifferenceRemains(v: Variant, cfg: Config, last: Option<seq<Node>>, src: seq<SourceNode>, o: Outcome,
                            snap: Snapshot)
    requires ValidSource(src) && Added(v, cfg, last, src, o, snap)
    ensures !Resolved(Entries(snap.nodes), HashIndex(snap.nodes, cfg.alg), SourceEntries(src), Hashes(cfg, src)).Exist()
  {
    AddedAgrees(v, cfg, last, src, o, snap);
    NoDifferenceExactly(Entries(snap.nodes), HashIndex(snap.nodes, cfg.alg), SourceEntries(src), Hashes(cfg, src));
  }

  /** Permissions are neither compared nor copied from the source: the new index has the source's permissions exactly
      for the nodes that are backed up with their data, and for those whose copied permissions happen to be the same. */
  lemma PermissionsExactly(v: Variant, cfg: Config, last: Option<seq<Node>>, src: seq<SourceNode>, o: Outcome,
                           snap: Snapshot, i: nat)
    requires Added(v, cfg, last, src, o, snap) && i < |src|
    ensures Lookup(snap.nodes, src[i].path).Some?
    ensures Lookup(snap.nodes, src[i].path).value.permissions == src[i].permissions
       <==> match Treatment(cfg, last, src, i)
            case MovedFrom(l) => last.value[l].attributes.permissions == src[i].permissions
            case MetadataOnly => Lookup(last.value, src[i].path).Some? ==>
                                   Lookup(last.value, src[i].path).value.permissions == src[i].permissions
            case _ => true
  {
    AddedLookup(v, cfg, last, src, o, snap, i);
  }

  // ----- Restoring -----

  predicate Faithful(cfg: Config, chain: seq<Snapshot>, k: nat, node: SourceNode)
    requires k < |chain|
  {
    Restore(cfg, chain, k, node.path) == Some(node.content)
  }

  /** Every file and link of snapshot `k` is restored with the content it had when the snapshot was made. */
  predicate AllFaithful(cfg: Config, chain: seq<Snapshot>, k: nat, src: seq<SourceNode>)
    requires k < |chain|
  {
    forall i | 0 <= i < |src| && IsData(src[i]) :: Faithful(cfg, chain, k, src[i])
  }

  /** Whether the back-reference that BackupNodeMetadata would copy still leads to this node's data: it is absent, or
      its path is in the last index with the same hash. Nodes that get no copy of it are not concerned. */
  predicate TargetUsable(cfg: Config, last: seq<Node>, src: seq<SourceNode>, i: nat)
    requires i < |src|
  {
    Treatment(cfg, Some(last), src, i).MetadataOnly? && IsData(src[i]) && src[i].facts.size > 0 ==>
      var before := Lookup(last, src[i].path);
      before.Some? && before.value.backReference.Some? ==>
        var target := Lookup(last, before.value.backReference.value);
        && target.Some? && cfg.alg in target.value.hashes && cfg.alg in before.value.hashes
        && target.value.hashes[cfg.alg] == before.value.hashes[cfg.alg]
  }

  predicate NoStaleTarget(cfg: Config, last: seq<Node>, src: seq<SourceNode>) {
    forall i | 0 <= i < |src| :: TargetUsable(cfg, last, src, i)
  }

  lemma RestoreOwn(cfg: Config, chain: seq<Snapshot>, k: nat, node: SourceNode)
    requires k < |chain| && NodeRecorded(cfg, chain[k], node) && IsData(node) && node.facts.size == |node.content|
    requires Lookup(chain[k].nodes, node.path).value.HasData()
    ensures Faithful(cfg, chain, k, node)
  {
    var a := Lookup(chain[k].nodes, node.path).value;
    if !a.ownsBlocks {
      assert node.content == [] && ReadData(cfg, chain[k], node.path) == Some([]);
    }
  }

  /** Where a node without data of its own points in the previous index. */
  function PointsTo(a: Attributes, p: Path): Path {
    if a.backReference.Some? then a.backReference.value else p
  }

  lemma RestoreThrough(cfg: Config, chain: seq<Snapshot>, k: nat, node: SourceNode, origin: SourceNode)
    requires 0 < k < |chain| && NodeRecorded(cfg, chain[k], node) && !Lookup(chain[k].nodes, node.path).value.HasData()
    requires origin.path == PointsTo(Lookup(chain[k].nodes, node.path).value, node.path)
    requires Faithful(cfg, chain, k - 1, origin) && origin.content == node.content
    requires node.facts.size == |node.content|
    ensures Faithful(cfg, chain, k, node)
  {
  }

  /** A node without own data is only restored through a path that had its content in the previous source. */
  lemma RestoredThroughItsContent(cfg: Config, chain: seq<Snapshot>, k: nat, prev: seq<SourceNode>, node: SourceNode)
    returns (j: nat)
    requires 0 < k < |chain| && NodeRecorded(cfg, chain[k], node) && !Lookup(chain[k].nodes, node.path).value.HasData()
    requires Records(cfg, chain[k - 1], prev) && ValidSource(prev) && AllFaithful(cfg, chain, k - 1, prev)
    requires Faithful(cfg, chain, k, node)
    ensures j < |prev| && prev[j].path == PointsTo(Lookup(chain[k].nodes, node.path).value, node.path)
    ensures IsData(prev[j]) && prev[j].content == node.content && NodeRecorded(cfg, chain[k - 1], prev[j])
  {
    var t := PointsTo(Lookup(chain[k].nodes, node.path).value, node.path);
    assert FindData(chain, k, node.path) == FindData(chain, k - 1, t);
    assert Lookup(chain[k - 1].nodes, t).Some?;
    j := NodeOfPath(cfg, chain[k - 1], prev, t);
    if IsData(prev[j]) {
      assert Faithful(cfg, chain, k - 1, prev[j]);
    }
  }

  /** One AddSnapshot step: a node of the new snapshot is restored exactly when the target copied for it is usable. */
  lemma NodeFaithfulExactly(v: Variant, cfg: Config, chain: seq<Snapshot>, n: nat, prev: seq<SourceNode>,
                            src: seq<SourceNode>, o: Outcome, i: nat)
    requires 0 < n < |chain| && GoodCodec(cfg) && ValidSource(prev) && ValidSource(src)
    requires Records(cfg, chain[n - 1], prev) && AllFaithful(cfg, chain, n - 1, prev)
    requires HashSeparates(cfg, prev, src) && SameFactsSameContent(prev, src)
    requires Added(v, cfg, Some(chain[n - 1].nodes), src, o, chain[n])
    requires i < |src| && IsData(src[i])
    ensures Faithful(cfg, chain, n, src[i]) <==> v.TargetCleared? || TargetUsable(cfg, chain[n - 1].nodes, src, i)
  {
    var last, node := chain[n - 1], src[i];
    var kind := Treatment(cfg, Some(last.nodes), src, i);
    if kind.NewData? {
      NewNodeRecorded(v, cfg, Some(last.nodes), src, o, chain[n], i);
      RestoreOwn(cfg, chain, n, node);
    } else {
      CopiedNodeRecorded(v, cfg, last, prev, src, o, chain[n], i);
      if node.facts.size == 0 {
        RestoreOwn(cfg, chain, n, node);
      } else {
        CopiedFaithfulExactly(v, cfg, chain, n, prev, src, o, i);
      }
    }
  }

  lemma CopiedFaithfulExactly(v: Variant, cfg: Config, chain: seq<Snapshot>, n: nat, prev: seq<SourceNode>,
                              src: seq<SourceNode>, o: Outcome, i: nat)
    requires 0 < n < |chain| && ValidSource(prev) && ValidSource(src)
    requires Records(cfg, chain[n - 1], prev) && AllFaithful(cfg, chain, n - 1, prev)
    requires HashSeparates(cfg, prev, src) && SameFactsSameContent(prev, src)
    requires Added(v, cfg, Some(chain[n - 1].nodes), src, o, chain[n])
    requires i < |src| && IsData(src[i]) && src[i].facts.size > 0
    requires !Treatment(cfg, Some(chain[n - 1].nodes), src, i).NewData?
    ensures Faithful(cfg, chain, n, src[i]) <==> v.TargetCleared? || TargetUsable(cfg, chain[n - 1].nodes, src, i)
  {
    var last, node := chain[n - 1], src[i];
    var kind := Treatment(cfg, Some(last.nodes), src, i);
    CopiedNodeRecorded(v, cfg, last, prev, src, o, chain[n], i);
    var j := Origin(cfg, last, prev, src, i);
    assert NodeRecorded(cfg, last, prev[j]) && Faithful(cfg, chain, n - 1, prev[j]);
    AddedLookup(v, cfg, Some(last.nodes), src, o, chain[n], i);
    var a := Lookup(chain[n].nodes, node.path).value;
    if PointsTo(a, node.path) == prev[j].path {
      RestoreThrough(cfg, chain, n, node, prev[j]);
    } else {
      var t := PointsTo(a, node.path);
      if TargetUsable(cfg, last.nodes, src, i) {
        var m := NodeOfPath(cfg, last, prev, t);
        assert prev[m] in prev + src && prev[j] in prev + src;
        assert Faithful(cfg, chain, n - 1, prev[m]);
        RestoreThrough(cfg, chain, n, node, prev[m]);
      } else if Faithful(cfg, chain, n, node) {
        var m := RestoredThroughItsContent(cfg, chain, n, prev, node);
      }
    }
  }

  // ----- Whole runs -----

  function LastNodes(chain: seq<Snapshot>, k: nat): Option<seq<Node>>
    requires k <= |chain|
  {
    if k == 0 then None else Some(chain[k - 1].nodes)
  }

  /** Snapshot `k` is what AddSnapshot made of source `k`, against the snapshot before. */
  ghost predicate IsStep(v: Variant, cfg: Config, sources: seq<seq<SourceNode>>, outcomes: seq<Outcome>,
                         chain: seq<Snapshot>, k: nat)
    requires k < |chain| == |sources| == |outcomes|
  {
    Added(v, cfg, LastNodes(chain, k), sources[k], outcomes[k], chain[k])
  }

  /** A run: one AddSnapshot per source. */
  ghost predicate IsRun(v: Variant, cfg: Config, sources: seq<seq<SourceNode>>, outcomes: seq<Outcome>,
                        chain: seq<Snapshot>)
  {
    && |sources| == |outcomes| == |chain|
    && forall k {:trigger IsStep(v, cfg, sources, outcomes, chain, k)} | 0 <= k < |chain| ::
         IsStep(v, cfg, sources, outcomes, chain, k)
  }

  /** Adding a snapshot to a run gives a run. */
  lemma RunGrows(v: Variant, cfg: Config, sources: seq<seq<SourceNode>>, outcomes: seq<Outcome>, chain: seq<Snapshot>,
                 src: seq<SourceNode>, o: Outcome, snap: Snapshot)
    requires IsRun(v, cfg, sources, outcomes, chain) && Added(v, cfg, LastNodes(chain, |chain|), src, o, snap)
    ensures IsRun(v, cfg, sources + [src], outcomes + [o], chain + [snap])
  {
    var sources', outcomes', chain', n := sources + [src], outcomes + [o], chain + [snap], |chain|;
    forall k | 0 <= k < n + 1 ensures IsStep(v, cfg, sources', outcomes', chain', k) {
      assert LastNodes(chain', k) == LastNodes(chain, k);
      if k < n {
        assert sources'[k] == sources[k] && outcomes'[k] == outcomes[k] && chain'[k] == chain[k];
        assert IsStep(v, cfg, sources, outcomes, chain, k);
      } else {
        assert sources'[k] == src && outcomes'[k] == o && chain'[k] == snap;
      }
    }
  }

  ghost predicate EnvironmentAt(cfg: Config, sources: seq<seq<SourceNode>>, k: nat)
    requires k < |sources|
  {
    && ValidSource(sources[k])
    && (k > 0 ==> HashSeparates(cfg, sources[k - 1], sources[k]) && SameFactsSameContent(sources[k - 1], sources[k]))
  }

  /** What the environment promises about a run. */
  ghost predicate Environment(cfg: Config, sources: seq<seq<SourceNode>>) {
    && GoodCodec(cfg)
    && forall k {:trigger EnvironmentAt(cfg, sources, k)} | 0 <= k < |sources| :: EnvironmentAt(cfg, sources, k)
  }

  lemma {:induction false} RunRecorded(v: Variant, cfg: Config, sources: seq<seq<SourceNode>>, outcomes: seq<Outcome>,
                                       chain: seq<Snapshot>, k: nat)
    requires IsRun(v, cfg, sources, outcomes, chain) && Environment(cfg, sources) && k < |chain|
    ensures Records(cfg, chain[k], sources[k])
  {
    assert IsStep(v, cfg, sources, outcomes, chain, k) && EnvironmentAt(cfg, sources, k);
    if k == 0 {
      FirstRecorded(v, cfg, sources[0], outcomes[0], chain[0]);
    } else {
      RunRecorded(v, cfg, sources, outcomes, chain, k - 1);
      assert EnvironmentAt(cfg, sources, k - 1);
      NextRecorded(v, cfg, chain[k - 1], sources[k - 1], sources[k], outcomes[k], chain[k]);
    }
  }

  lemma SnapshotKeepsData(v: Variant, cfg: Config, last: Option<seq<Node>>, source: seq<SourceNode>, outcome: Outcome,
                          s: Snapshot, i: nat)
    requires Added(v, cfg, last, source, outcome, s) && Records(cfg, s, source) && i < |source|
    ensures var p := source[i].path;
            && Lookup(outcome.nodes, p).Some? && Lookup(s.nodes, p).Some?
            && (Lookup(outcome.nodes, p).value.HasData() <==> Lookup(s.nodes, p).value.HasData())
  {
    RereadLookup(outcome.nodes, source[i].path);
    assert NodeRecorded(cfg, s, source[i]);
  }

  /** Writing and re-reading an index keeps which nodes have data: only a node without blocks loses its flag, and such
      a file is empty. */
  lemma RereadKeepsData(v: Variant, cfg: Config, sources: seq<seq<SourceNode>>, outcomes: seq<Outcome>,
                        chain: seq<Snapshot>, k: nat, i: nat)
    requires IsRun(v, cfg, sources, outcomes, chain) && Environment(cfg, sources) && k < |chain| && i < |sources[k]|
    ensures var p := sources[k][i].path;
            && Lookup(outcomes[k].nodes, p).Some? && Lookup(chain[k].nodes, p).Some?
            && (Lookup(outcomes[k].nodes, p).value.HasData() <==> Lookup(chain[k].nodes, p).value.HasData())
  {
    assert IsStep(v, cfg, sources, outcomes, chain, k) && EnvironmentAt(cfg, sources, k);
    RunRecorded(v, cfg, sources, outcomes, chain, k);
    SnapshotKeepsData(v, cfg, LastNodes(chain, k), sources[k], outcomes[k], chain[k], i);
  }

  /** Of every snapshot the index as it was in memory, or as it is re-read. */
  predicate InMemoryOrReread(outcomes: seq<Outcome>, chain: seq<Snapshot>, mixed: seq<Snapshot>) {
    && |mixed| == |chain| == |outcomes|
    && forall k | 0 <= k < |mixed| :: mixed[k].nodes == chain[k].nodes || mixed[k].nodes == outcomes[k].nodes
  }

  /** A node as it was in memory points where the re-read one points. */
  lemma RereadPointsAlike(v: Variant, cfg: Config, sources: seq<seq<SourceNode>>, outcomes: seq<Outcome>,
                          chain: seq<Snapshot>, k: nat, p: Path)
    requires IsRun(v, cfg, sources, outcomes, chain) && Environment(cfg, sources) && k < |chain|
    ensures match (Lookup(outcomes[k].nodes, p), Lookup(chain[k].nodes, p))
            case (None, None) => true
            case (Some(a), Some(b)) =>
              (a.HasData() <==> b.HasData()) && (!a.HasData() ==> PointsTo(a, p) == PointsTo(b, p))
            case _ => false
  {
    assert IsStep(v, cfg, sources, outcomes, chain, k);
    RereadLookup(outcomes[k].nodes, p);
    if Lookup(chain[k].nodes, p).Some? {
      RunRecorded(v, cfg, sources, outcomes, chain, k);
      var j := NodeOfPath(cfg, chain[k], sources[k], p);
      RereadKeepsData(v, cfg, sources, outcomes, chain, k, j);
      assert EnvironmentAt(cfg, sources, k);
    }
  }

  /** So FindDataSnapshot gives the same answers before and after writing and re-reading, for every path. */
  lemma {:induction false} RereadKeepsFindData(v: Variant, cfg: Config, sources: seq<seq<SourceNode>>,
                                               outcomes: seq<Outcome>, chain: seq<Snapshot>, mixed: seq<Snapshot>,
                                               k: nat, p: Path)
    requires IsRun(v, cfg, sources, outcomes, chain) && Environment(cfg, sources) && k < |chain|
    requires InMemoryOrReread(outcomes, chain, mixed)
    ensures FindData(mixed, k, p) == FindData(chain, k, p)
    decreases k
  {
    RereadPointsAlike(v, cfg, sources, outcomes, chain, k, p);
    var a := Lookup(chain[k].nodes, p);
    if a.Some? && !a.value.HasData() && k > 0 {
      RereadKeepsFindData(v, cfg, sources, outcomes, chain, mixed, k - 1, PointsTo(a.value, p));
    }
  }

  lemma FirstFaithful(v: Variant, cfg: Config, sources: seq<seq<SourceNode>>, outcomes: seq<Outcome>,
                      chain: seq<Snapshot>)
    requires IsRun(v, cfg, sources, outcomes, chain) && Environment(cfg, sources) && chain != []
    ensures AllFaithful(cfg, chain, 0, sources[0])
  {
    assert IsStep(v, cfg, sources, outcomes, chain, 0) && EnvironmentAt(cfg, sources, 0);
    forall i | 0 <= i < |sources[0]| && IsData(sources[0][i]) ensures Faithful(cfg, chain, 0, sources[0][i]) {
      NewNodeRecorded(v, cfg, None, sources[0], outcomes[0], chain[0], i);
      RestoreOwn(cfg, chain, 0, sources[0][i]);
    }
  }

  /** One step of a run whose last snapshot is faithful. */
  lemma NextFaithfulExactly(v: Variant, cfg: Config, sources: seq<seq<SourceNode>>, outcomes: seq<Outcome>,
                            chain: seq<Snapshot>, k: nat)
    requires IsRun(v, cfg, sources, outcomes, chain) && Environment(cfg, sources) && 0 < k < |chain|
    requires AllFaithful(cfg, chain, k - 1, sources[k - 1])
    ensures AllFaithful(cfg, chain, k, sources[k])
       <==> v.TargetCleared? || NotStaleAt(cfg, chain, sources, k)
  {
    RunRecorded(v, cfg, sources, outcomes, chain, k - 1);
    assert IsStep(v, cfg, sources, outcomes, chain, k);
    assert EnvironmentAt(cfg, sources, k - 1) && EnvironmentAt(cfg, sources, k);
    forall i | 0 <= i < |sources[k]| && IsData(sources[k][i])
      ensures Faithful(cfg, chain, k, sources[k][i])
         <==> v.TargetCleared? || TargetUsable(cfg, chain[k - 1].nodes, sources[k], i)
    {
      NodeFaithfulExactly(v, cfg, chain, k, sources[k - 1], sources[k], outcomes[k], i);
    }
  }

  predicate RunFaithful(cfg: Config, chain: seq<Snapshot>, sources: seq<seq<SourceNode>>, n: nat)
    requires n <= |chain| == |sources|
  {
    forall k {:trigger AllFaithful(cfg, chain, k, sources[k])} | 0 <= k < n :: AllFaithful(cfg, chain, k, sources[k])
  }

  predicate RunNotStale(cfg: Config, chain: seq<Snapshot>, sources: seq<seq<SourceNode>>, n: nat)
    requires n <= |chain| == |sources|
  {
    forall k {:trigger NotStaleAt(cfg, chain, sources, k)} | 0 < k < n :: NotStaleAt(cfg, chain, sources, k)
  }

  predicate NotStaleAt(cfg: Config, chain: seq<Snapshot>, sources: seq<seq<SourceNode>>, k: nat)
    requires 0 < k < |chain| == |sources|
  {
    NoStaleTarget(cfg, chain[k - 1].nodes, sources[k])
  }

  /** Restore correctness over whole runs, exactly: all files and links of all snapshots come back as they were if and
      only if no AddSnapshot copied a stale back-reference - or back-references are cleared. */
  lemma {:induction false} RestoreExactly(v: Variant, cfg: Config, sources: seq<seq<SourceNode>>,
                                          outcomes: seq<Outcome>, chain: seq<Snapshot>, n: nat)
    requires IsRun(v, cfg, sources, outcomes, chain) && Environment(cfg, sources) && n <= |chain|
    ensures RunFaithful(cfg, chain, sources, n) <==> v.TargetCleared? || RunNotStale(cfg, chain, sources, n)
  {
    if n == 1 {
      FirstFaithful(v, cfg, sources, outcomes, chain);
    } else if n > 1 {
      RestoreExactly(v, cfg, sources, outcomes, chain, n - 1);
      if RunFaithful(cfg, chain, sources, n - 1) {
        assert AllFaithful(cfg, chain, n - 2, sources[n - 2]);
        NextFaithfulExactly(v, cfg, sources, outcomes, chain, n - 1);
      }
    }
  }
}
