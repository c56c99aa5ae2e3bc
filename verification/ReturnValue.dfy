/** When AddSnapshot returns true, exactly, and when it does so although a file is lost. */
module ReturnValue {
  import opened Prelude
  import opened Nodes
  import opened Snapshots
  import opened SnapshotChain
  import opened Verification

  /** The verification that ends AddSnapshot neither throws nor finds a failure. */
  predicate Succeeds(cfg: Config, chain: seq<Snapshot>, k: nat)
    requires k < |chain|
  {
    !DataMissing(chain, k) && Passes(cfg, chain, k, true)
  }

  /** Whether the back-reference that BackupNodeMetadata would copy leads anywhere: it is absent, or its path is a file
      or link of the last index - of whatever content. Nodes that get no copy of it are not concerned. */
  predicate TargetPresent(cfg: Config, last: seq<Node>, src: seq<SourceNode>, i: nat)
    requires i < |src|
  {
    Treatment(cfg, Some(last), src, i).MetadataOnly? && IsData(src[i]) && src[i].facts.size > 0 ==>
      var before := Lookup(last, src[i].path);
      before.Some? && before.value.backReference.Some? ==>
        var target := Lookup(last, before.value.backReference.value);
        target.Some? && !target.value.facts.fileType.Directory?
  }

  predicate AllPresent(cfg: Config, last: seq<Node>, src: seq<SourceNode>) {
    forall i | 0 <= i < |src| :: TargetPresent(cfg, last, src, i)
  }

  /** The back-reference that would be copied leads to a file or link with another hash. */
  predicate TargetElsewhere(cfg: Config, last: seq<Node>, src: seq<SourceNode>, i: nat)
    requires i < |src|
  {
    Treatment(cfg, Some(last), src, i).MetadataOnly? && IsData(src[i]) && src[i].facts.size > 0
    && var before := Lookup(last, src[i].path);
       before.Some? && before.value.backReference.Some?
       && var target := Lookup(last, before.value.backReference.value);
          target.Some? && cfg.alg in target.value.hashes && cfg.alg in before.value.hashes
          && target.value.hashes[cfg.alg] != before.value.hashes[cfg.alg]
  }

  // ----- Verification of undamaged snapshots -----

  /** In an undamaged snapshot every file or link with data verifies; a directory, having no hash, does not. */
  lemma UndamagedVerifies(cfg: Config, snap: Snapshot, src: seq<SourceNode>, q: Path)
    requires Records(cfg, snap, src) && ValidSource(src)
    requires Lookup(snap.nodes, q).Some? && Lookup(snap.nodes, q).value.HasData()
    ensures VerifyNode(cfg, snap, q) <==> !Lookup(snap.nodes, q).value.facts.fileType.Directory?
  {
    var j := NodeOfPath(cfg, snap, src, q);
    if IsData(src[j]) && src[j].facts.size == 0 {
      assert ReadData(cfg, snap, q) == Some([]);
    }
  }

  lemma FoundHasData(chain: seq<Snapshot>, k: nat, p: Path)
    requires k < |chain| && FindData(chain, k, p).Some?
    ensures var place := FindData(chain, k, p).value;
            Lookup(chain[place.0].nodes, place.1).Some? && Lookup(chain[place.0].nodes, place.1).value.HasData()
  {
    FindDataIdempotent(chain, k, p);
  }

  lemma VerifiesWhereItLeads(v: Variant, cfg: Config, sources: seq<seq<SourceNode>>, outcomes: seq<Outcome>,
                             chain: seq<Snapshot>, k: nat, p: Path)
    requires IsRun(v, cfg, sources, outcomes, chain) && Environment(cfg, sources) && k < |chain|
    requires FindData(chain, k, p).Some?
    ensures var place := FindData(chain, k, p).value;
            VerifyNode(cfg, chain[place.0], place.1) <==> LeadsToData(chain, k, p)
  {
    var m := FindData(chain, k, p).value.0;
    FoundHasData(chain, k, p);
    RunRecorded(v, cfg, sources, outcomes, chain, m);
    assert EnvironmentAt(cfg, sources, m);
    UndamagedVerifies(cfg, chain[m], sources[m], FindData(chain, k, p).value.1);
  }

  /** Full verification of an undamaged snapshot succeeds exactly when all its files and links lead to data. */
  lemma SucceedsIfResolved(v: Variant, cfg: Config, sources: seq<seq<SourceNode>>, outcomes: seq<Outcome>,
                           chain: seq<Snapshot>, k: nat)
    requires IsRun(v, cfg, sources, outcomes, chain) && Environment(cfg, sources) && k < |chain|
    ensures Succeeds(cfg, chain, k) <==> Resolves(chain, k)
  {
    forall i | 0 <= i < |chain[k].nodes| && IsDataNode(chain[k].nodes[i])
      ensures !LosesData(chain, k, i) && !Fails(cfg, chain, k, true, i)
         <==> LeadsToData(chain, k, chain[k].nodes[i].path)
    {
      if FindData(chain, k, chain[k].nodes[i].path).Some? {
        VerifiesWhereItLeads(v, cfg, sources, outcomes, chain, k, chain[k].nodes[i].path);
      }
    }
    if Resolves(chain, k) { ResolvesMeansFound(chain, k); }
  }

  // ----- One step -----

  /** Every file and link of the source leads to data. */
  predicate SourceResolves(chain: seq<Snapshot>, k: nat, src: seq<SourceNode>)
    requires k < |chain|
  {
    forall i | 0 <= i < |src| && IsData(src[i]) :: LeadsToData(chain, k, src[i].path)
  }

  lemma ResolvesBySource(cfg: Config, chain: seq<Snapshot>, k: nat, src: seq<SourceNode>)
    requires k < |chain| && Records(cfg, chain[k], src)
    ensures Resolves(chain, k) <==> SourceResolves(chain, k, src)
  {
    forall m | 0 <= m < |chain[k].nodes| && IsDataNode(chain[k].nodes[m])
      ensures exists i | 0 <= i < |src| && IsData(src[i]) :: src[i].path == chain[k].nodes[m].path
    {
      LookupAt(chain[k].nodes, m);
      var j := NodeOfPath(cfg, chain[k], src, chain[k].nodes[m].path);
    }
    forall i | 0 <= i < |src| && IsData(src[i])
      ensures exists m | 0 <= m < |chain[k].nodes| && IsDataNode(chain[k].nodes[m]) ::
                chain[k].nodes[m].path == src[i].path
    {
      assert NodeRecorded(cfg, chain[k], src[i]);
      var m := IndexOf(Entries(chain[k].nodes), src[i].path).value;
      assert Entries(chain[k].nodes)[m].path == chain[k].nodes[m].path;
    }
  }

  lemma LeadsToItself(chain: seq<Snapshot>, k: nat, p: Path)
    requires k < |chain| && Lookup(chain[k].nodes, p).Some? && Lookup(chain[k].nodes, p).value.HasData()
    requires !Lookup(chain[k].nodes, p).value.facts.fileType.Directory?
    ensures LeadsToData(chain, k, p)
  {
  }

  /** Once the snapshot before resolves, a path leads to data there exactly when it is a file or link there. */
  lemma LeadsIfPresent(cfg: Config, chain: seq<Snapshot>, k: nat, src: seq<SourceNode>, p: Path)
    requires k < |chain| && Records(cfg, chain[k], src) && ValidSource(src) && SourceResolves(chain, k, src)
    ensures LeadsToData(chain, k, p)
       <==> Lookup(chain[k].nodes, p).Some? && !Lookup(chain[k].nodes, p).value.facts.fileType.Directory?
  {
    if Lookup(chain[k].nodes, p).Some? {
      var j := NodeOfPath(cfg, chain[k], src, p);
      if !IsData(src[j]) {
        assert FindData(chain, k, p) == Some((k, p));
      }
    }
  }

  /** A node without data of its own leads to data exactly when it points to a file or link of the snapshot before. */
  lemma LeadsThrough(cfg: Config, chain: seq<Snapshot>, n: nat, prev: seq<SourceNode>, node: SourceNode, t: Path)
    requires 0 < n < |chain| && NodeRecorded(cfg, chain[n], node) && node.facts.size > 0
    requires Records(cfg, chain[n - 1], prev) && ValidSource(prev) && SourceResolves(chain, n - 1, prev)
    requires !Lookup(chain[n].nodes, node.path).value.ownsBlocks
    requires t == PointsTo(Lookup(chain[n].nodes, node.path).value, node.path)
    ensures LeadsToData(chain, n, node.path)
       <==> Lookup(chain[n - 1].nodes, t).Some? && !Lookup(chain[n - 1].nodes, t).value.facts.fileType.Directory?
  {
    assert FindData(chain, n, node.path) == FindData(chain, n - 1, t);
    LeadsIfPresent(cfg, chain, n - 1, prev, t);
  }

  /** Where a node with copied attributes points: a file or link of the last index, unless the target copied for it
      is not present. */
  lemma CopiedPointsTo(v: Variant, cfg: Config, last: Snapshot, prev: seq<SourceNode>, src: seq<SourceNode>,
                       o: Outcome, snap: Snapshot, i: nat) returns (t: Path)
    requires Records(cfg, last, prev) && ValidSource(prev) && ValidSource(src)
    requires HashSeparates(cfg, prev, src) && SameFactsSameContent(prev, src)
    requires Added(v, cfg, Some(last.nodes), src, o, snap)
    requires i < |src| && IsData(src[i]) && src[i].facts.size > 0
    requires !Treatment(cfg, Some(last.nodes), src, i).NewData?
    ensures var a := Lookup(snap.nodes, src[i].path); a.Some? && t == PointsTo(a.value, src[i].path)
    ensures Lookup(last.nodes, t).Some? && !Lookup(last.nodes, t).value.facts.fileType.Directory?
       <==> v.TargetCleared? || TargetPresent(cfg, last.nodes, src, i)
  {
    AddedLookup(v, cfg, Some(last.nodes), src, o, snap, i);
    var j := Origin(cfg, last, prev, src, i);
    assert NodeRecorded(cfg, last, prev[j]);
    t := PointsTo(Lookup(snap.nodes, src[i].path).value, src[i].path);
  }

  lemma CopiedLeadsExactly(v: Variant, cfg: Config, chain: seq<Snapshot>, n: nat, prev: seq<SourceNode>,
                           src: seq<SourceNode>, o: Outcome, i: nat)
    requires 0 < n < |chain| && ValidSource(prev) && ValidSource(src)
    requires Records(cfg, chain[n - 1], prev) && SourceResolves(chain, n - 1, prev)
    requires HashSeparates(cfg, prev, src) && SameFactsSameContent(prev, src)
    requires Added(v, cfg, Some(chain[n - 1].nodes), src, o, chain[n])
    requires i < |src| && IsData(src[i]) && NodeRecorded(cfg, chain[n], src[i])
    requires !Treatment(cfg, Some(chain[n - 1].nodes), src, i).NewData?
    requires !Lookup(chain[n].nodes, src[i].path).value.ownsBlocks
    ensures LeadsToData(chain, n, src[i].path) <==> v.TargetCleared? || TargetPresent(cfg, chain[n - 1].nodes, src, i)
  {
    if src[i].facts.size == 0 {
      LeadsToItself(chain, n, src[i].path);
    } else {
      var t := CopiedPointsTo(v, cfg, chain[n - 1], prev, src, o, chain[n], i);
      LeadsThrough(cfg, chain, n, prev, src[i], t);
    }
  }

  /** One step: a file or link of the new snapshot leads to data exactly when the target copied for it is present. */
  lemma NodeLeadsExactly(v: Variant, cfg: Config, chain: seq<Snapshot>, n: nat, prev: seq<SourceNode>,
                         src: seq<SourceNode>, o: Outcome, i: nat)
    requires 0 < n < |chain| && GoodCodec(cfg) && ValidSource(prev) && ValidSource(src)
    requires Records(cfg, chain[n - 1], prev) && SourceResolves(chain, n - 1, prev)
    requires HashSeparates(cfg, prev, src) && SameFactsSameContent(prev, src)
    requires Added(v, cfg, Some(chain[n - 1].nodes), src, o, chain[n])
    requires i < |src| && IsData(src[i])
    ensures LeadsToData(chain, n, src[i].path) <==> v.TargetCleared? || TargetPresent(cfg, chain[n - 1].nodes, src, i)
  {
    var last, p := chain[n - 1], src[i].path;
    if Treatment(cfg, Some(last.nodes), src, i).NewData? {
      NewNodeRecorded(v, cfg, Some(last.nodes), src, o, chain[n], i);
      LeadsToItself(chain, n, p);
    } else {
      CopiedNodeRecorded(v, cfg, last, prev, src, o, chain[n], i);
      CopiedLeadsExactly(v, cfg, chain, n, prev, src, o, i);
    }
  }

  // ----- Whole runs -----

  lemma FirstResolves(v: Variant, cfg: Config, sources: seq<seq<SourceNode>>, outcomes: seq<Outcome>,
                      chain: seq<Snapshot>)
    requires IsRun(v, cfg, sources, outcomes, chain) && Environment(cfg, sources) && chain != []
    ensures SourceResolves(chain, 0, sources[0])
  {
    assert IsStep(v, cfg, sources, outcomes, chain, 0) && EnvironmentAt(cfg, sources, 0);
    forall i | 0 <= i < |sources[0]| && IsData(sources[0][i]) ensures LeadsToData(chain, 0, sources[0][i].path) {
      NewNodeRecorded(v, cfg, None, sources[0], outcomes[0], chain[0], i);
      LeadsToItself(chain, 0, sources[0][i].path);
    }
  }

  predicate PresentAt(cfg: Config, chain: seq<Snapshot>, sources: seq<seq<SourceNode>>, k: nat)
    requires 0 < k < |chain| == |sources|
  {
    AllPresent(cfg, chain[k - 1].nodes, sources[k])
  }

  predicate RunPresent(cfg: Config, chain: seq<Snapshot>, sources: seq<seq<SourceNode>>, n: nat)
    requires n <= |chain| == |sources|
  {
    forall k {:trigger PresentAt(cfg, chain, sources, k)} | 0 < k < n :: PresentAt(cfg, chain, sources, k)
  }

  predicate RunResolves(chain: seq<Snapshot>, n: nat)
    requires n <= |chain|
  {
    forall k | 0 <= k < n :: Resolves(chain, k)
  }

  predicate RunSucceeds(cfg: Config, chain: seq<Snapshot>, n: nat)
    requires n <= |chain|
  {
    forall k | 0 <= k < n :: Succeeds(cfg, chain, k)
  }

  lemma SourceResolvesExactly(v: Variant, cfg: Config, chain: seq<Snapshot>, n: nat, prev: seq<SourceNode>,
                              src: seq<SourceNode>, o: Outcome)
    requires 0 < n < |chain| && GoodCodec(cfg) && ValidSource(prev) && ValidSource(src)
    requires Records(cfg, chain[n - 1], prev) && SourceResolves(chain, n - 1, prev)
    requires HashSeparates(cfg, prev, src) && SameFactsSameContent(prev, src)
    requires Added(v, cfg, Some(chain[n - 1].nodes), src, o, chain[n])
    ensures SourceResolves(chain, n, src) <==> v.TargetCleared? || AllPresent(cfg, chain[n - 1].nodes, src)
  {
    forall i | 0 <= i < |src| && IsData(src[i])
      ensures LeadsToData(chain, n, src[i].path) <==> v.TargetCleared? || TargetPresent(cfg, chain[n - 1].nodes, src, i)
    {
      NodeLeadsExactly(v, cfg, chain, n, prev, src, o, i);
    }
  }

  lemma NextResolves(v: Variant, cfg: Config, sources: seq<seq<SourceNode>>, outcomes: seq<Outcome>,
                     chain: seq<Snapshot>, k: nat)
    requires IsRun(v, cfg, sources, outcomes, chain) && Environment(cfg, sources) && 0 < k < |chain|
    requires Resolves(chain, k - 1)
    ensures Resolves(chain, k) <==> v.TargetCleared? || PresentAt(cfg, chain, sources, k)
  {
    RunRecorded(v, cfg, sources, outcomes, chain, k - 1);
    RunRecorded(v, cfg, sources, outcomes, chain, k);
    ResolvesBySource(cfg, chain, k - 1, sources[k - 1]);
    ResolvesBySource(cfg, chain, k, sources[k]);
    assert IsStep(v, cfg, sources, outcomes, chain, k);
    assert EnvironmentAt(cfg, sources, k - 1) && EnvironmentAt(cfg, sources, k);
    SourceResolvesExactly(v, cfg, chain, k, sources[k - 1], sources[k], outcomes[k]);
  }

  lemma {:induction false} RunResolvesExactly(v: Variant, cfg: Config, sources: seq<seq<SourceNode>>,
                                              outcomes: seq<Outcome>, chain: seq<Snapshot>, n: nat)
    requires IsRun(v, cfg, sources, outcomes, chain) && Environment(cfg, sources) && n <= |chain|
    ensures RunResolves(chain, n) <==> v.TargetCleared? || RunPresent(cfg, chain, sources, n)
  {
    if n == 1 {
      FirstResolves(v, cfg, sources, outcomes, chain);
      RunRecorded(v, cfg, sources, outcomes, chain, 0);
      ResolvesBySource(cfg, chain, 0, sources[0]);
    } else if n > 1 {
      RunResolvesExactly(v, cfg, sources, outcomes, chain, n - 1);
      if RunResolves(chain, n - 1) {
        assert Resolves(chain, n - 2);
        NextResolves(v, cfg, sources, outcomes, chain, n - 1);
      }
    }
  }

  /** A present target is usable unless it has another hash. */
  lemma PresentIsUsable(cfg: Config, last: Snapshot, prev: seq<SourceNode>, src: seq<SourceNode>, i: nat)
    requires Records(cfg, last, prev) && ValidSource(prev) && ValidSource(src)
    requires HashSeparates(cfg, prev, src) && SameFactsSameContent(prev, src) && i < |src|
    ensures TargetUsable(cfg, last.nodes, src, i)
       <==> TargetPresent(cfg, last.nodes, src, i) && !TargetElsewhere(cfg, last.nodes, src, i)
  {
    if Treatment(cfg, Some(last.nodes), src, i).MetadataOnly? && IsData(src[i]) && src[i].facts.size > 0 {
      var j := Origin(cfg, last, prev, src, i);
      assert NodeRecorded(cfg, last, prev[j]);
      var before := Lookup(last.nodes, src[i].path).value;
      if before.backReference.Some? && Lookup(last.nodes, before.backReference.value).Some? {
        var m := NodeOfPath(cfg, last, prev, before.backReference.value);
      }
    }
  }

  predicate SomeElsewhere(cfg: Config, last: seq<Node>, src: seq<SourceNode>) {
    exists i | 0 <= i < |src| :: TargetElsewhere(cfg, last, src, i)
  }

  lemma NotStaleExactly(cfg: Config, last: Snapshot, prev: seq<SourceNode>, src: seq<SourceNode>)
    requires Records(cfg, last, prev) && ValidSource(prev) && ValidSource(src)
    requires HashSeparates(cfg, prev, src) && SameFactsSameContent(prev, src)
    ensures NoStaleTarget(cfg, last.nodes, src)
       <==> AllPresent(cfg, last.nodes, src) && !SomeElsewhere(cfg, last.nodes, src)
  {
    forall i | 0 <= i < |src|
      ensures TargetUsable(cfg, last.nodes, src, i)
         <==> TargetPresent(cfg, last.nodes, src, i) && !TargetElsewhere(cfg, last.nodes, src, i)
    {
      PresentIsUsable(cfg, last, prev, src, i);
    }
  }

  predicate ElsewhereAt(cfg: Config, chain: seq<Snapshot>, sources: seq<seq<SourceNode>>, k: nat)
    requires 0 < k < |chain| == |sources|
  {
    SomeElsewhere(cfg, chain[k - 1].nodes, sources[k])
  }

  predicate RunElsewhere(cfg: Config, chain: seq<Snapshot>, sources: seq<seq<SourceNode>>, n: nat)
    requires n <= |chain| == |sources|
  {
    exists k {:trigger ElsewhereAt(cfg, chain, sources, k)} | 0 < k < n :: ElsewhereAt(cfg, chain, sources, k)
  }

  lemma RunNotStaleExactly(v: Variant, cfg: Config, sources: seq<seq<SourceNode>>, outcomes: seq<Outcome>,
                           chain: seq<Snapshot>, n: nat)
    requires IsRun(v, cfg, sources, outcomes, chain) && Environment(cfg, sources) && n <= |chain|
    ensures RunNotStale(cfg, chain, sources, n)
       <==> RunPresent(cfg, chain, sources, n) && !RunElsewhere(cfg, chain, sources, n)
  {
    forall k | 0 < k < n
      ensures NotStaleAt(cfg, chain, sources, k)
         <==> PresentAt(cfg, chain, sources, k) && !ElsewhereAt(cfg, chain, sources, k)
    {
      RunRecorded(v, cfg, sources, outcomes, chain, k - 1);
      assert EnvironmentAt(cfg, sources, k - 1) && EnvironmentAt(cfg, sources, k);
      NotStaleExactly(cfg, chain[k - 1], sources[k - 1], sources[k]);
    }
  }

  /** Success over whole runs, exactly: every AddSnapshot returns true if and only if each back-reference that it copied
      leads to some file or link of the last index - or back-references are cleared. Where all are usable, all
      succeed. */
  lemma SuccessExactly(v: Variant, cfg: Config, sources: seq<seq<SourceNode>>, outcomes: seq<Outcome>,
                       chain: seq<Snapshot>, n: nat)
    requires IsRun(v, cfg, sources, outcomes, chain) && Environment(cfg, sources) && n <= |chain|
    ensures RunSucceeds(cfg, chain, n) <==> v.TargetCleared? || RunPresent(cfg, chain, sources, n)
    ensures RunNotStale(cfg, chain, sources, n) ==> RunSucceeds(cfg, chain, n)
  {
    RunNotStaleExactly(v, cfg, sources, outcomes, chain, n);
    RunResolvesExactly(v, cfg, sources, outcomes, chain, n);
    forall k | 0 <= k < n ensures Succeeds(cfg, chain, k) <==> Resolves(chain, k) {
      SucceedsIfResolved(v, cfg, sources, outcomes, chain, k);
    }
  }

  /** Silent loss, exactly: every AddSnapshot returns true and yet some file or link is not restored as it was, if and
      only if every copied back-reference leads to a file or link and one of them to another hash. */
  lemma SilentLossExactly(v: Variant, cfg: Config, sources: seq<seq<SourceNode>>, outcomes: seq<Outcome>,
                          chain: seq<Snapshot>, n: nat)
    requires IsRun(v, cfg, sources, outcomes, chain) && Environment(cfg, sources) && n <= |chain|
    ensures RunSucceeds(cfg, chain, n) && !RunFaithful(cfg, chain, sources, n)
       <==> v.AsWritten? && RunPresent(cfg, chain, sources, n) && RunElsewhere(cfg, chain, sources, n)
  {
    SuccessExactly(v, cfg, sources, outcomes, chain, n);
    RestoreExactly(v, cfg, sources, outcomes, chain, n);
    RunNotStaleExactly(v, cfg, sources, outcomes, chain, n);
  }
}
