/** VerifySnapshot, and why verifying every snapshot locally is as strong as verifying every snapshot fully. */
module Verification {
  import opened Prelude
  import opened Nodes
  import Difference
  import opened Snapshots
  import opened SnapshotChain

  /** Reading the node with verification yields as many bytes as recorded. */
  predicate VerifyNode(cfg: Config, snap: Snapshot, p: Path) {
    var a, data := Lookup(snap.nodes, p), ReadVerified(cfg, snap, p);
    a.Some? && data.Some? && |data.value| == a.value.facts.size
  }

  predicate IsDataNode(node: Node) {
    !node.attributes.facts.fileType.Directory?
  }

  /** Every file and link of snapshot `k` leads to a file or link of some snapshot. */
  predicate Resolves(chain: seq<Snapshot>, k: nat)
    requires k < |chain|
  {
    forall i | 0 <= i < |chain[k].nodes| && IsDataNode(chain[k].nodes[i]) ::
      LeadsToData(chain, k, chain[k].nodes[i].path)
  }

  predicate LeadsToData(chain: seq<Snapshot>, k: nat, p: Path)
    requires k < |chain|
  {
    var place := FindData(chain, k, p);
    && place.Some?
    && var there := Lookup(chain[place.value.0].nodes, place.value.1);
       there.Some? && !there.value.facts.fileType.Directory?
  }

  /** Node `i` fails the verification of snapshot `k`; a local one looks only at data in the snapshot itself. */
  predicate Fails(cfg: Config, chain: seq<Snapshot>, k: nat, full: bool, i: nat)
    requires k < |chain| && i < |chain[k].nodes|
  {
    var place := FindData(chain, k, chain[k].nodes[i].path);
    && IsDataNode(chain[k].nodes[i]) && place.Some? && (full || place.value.0 == k)
    && !VerifyNode(cfg, chain[place.value.0], place.value.1)
  }

  predicate Passes(cfg: Config, chain: seq<Snapshot>, k: nat, full: bool)
    requires k < |chain|
  {
    forall i | 0 <= i < |chain[k].nodes| :: !Fails(cfg, chain, k, full, i)
  }

  /** Some file or link of snapshot `k` has no data anywhere: looking it up throws. */
  predicate DataMissing(chain: seq<Snapshot>, k: nat)
    requires k < |chain|
  {
    exists i | 0 <= i < |chain[k].nodes| :: LosesData(chain, k, i)
  }

  predicate LosesData(chain: seq<Snapshot>, k: nat, i: nat)
    requires k < |chain| && i < |chain[k].nodes|
  {
    IsDataNode(chain[k].nodes[i]) && FindData(chain, k, chain[k].nodes[i].path).None?
  }

  /** Looking again from where the data was found finds it there. */
  lemma {:induction false} FindDataIdempotent(chain: seq<Snapshot>, k: nat, p: Path)
    requires k < |chain| && FindData(chain, k, p).Some?
    ensures var place := FindData(chain, k, p).value;
            && Lookup(chain[place.0].nodes, place.1).Some?
            && FindData(chain, place.0, place.1) == Some(place)
    decreases k
  {
    var a := Lookup(chain[k].nodes, p).value;
    if !a.HasData() { FindDataIdempotent(chain, k - 1, PointsTo(a, p)); }
  }

  /** The walk, told by the fields of a node: it stops at a node that owns its blocks or is empty, else goes on in the
      snapshot before, at the back-reference or else at the same path. */
  lemma FindDataExactly(chain: seq<Snapshot>, k: nat, p: Path)
    requires k < |chain| && Lookup(chain[k].nodes, p).Some?
    ensures var a := Lookup(chain[k].nodes, p).value;
            FindData(chain, k, p)
            == if a.ownsBlocks || a.facts.size == 0 then Some((k, p))
               else if k == 0 then None
               else FindData(chain, k - 1, match a.backReference case None => p case Some(target) => target)
  {
  }

  /** The data at `q` of a snapshot is what the index says: readable, of the recorded size and hash. */
  predicate IsIntact(cfg: Config, snap: Snapshot, q: Path) {
    var a, data := Lookup(snap.nodes, q), ReadData(cfg, snap, q);
    && a.Some? && data.Some? && |data.value| == a.value.facts.size
    && cfg.alg in a.value.hashes && a.value.hashes[cfg.alg] == cfg.hash(data.value)
  }

  /** Full verification blames exactly the files and links whose data is found, but not intact; local verification of
      these only those whose data is in the snapshot itself. */
  lemma FailsExactly(cfg: Config, chain: seq<Snapshot>, k: nat, i: nat)
    requires k < |chain| && i < |chain[k].nodes|
    ensures var node, place := chain[k].nodes[i], FindData(chain, k, chain[k].nodes[i].path);
            && (Fails(cfg, chain, k, true, i) <==>
                  !node.attributes.facts.fileType.Directory? && place.Some?
                  && !IsIntact(cfg, chain[place.value.0], place.value.1))
            && (Fails(cfg, chain, k, false, i) <==> Fails(cfg, chain, k, true, i) && place.value.0 == k)
  {
  }

  /** Restoring gives data exactly when it is found with the recorded hash and has the size of the restored node. */
  lemma RestoredExactly(cfg: Config, chain: seq<Snapshot>, k: nat, p: Path, data: Bytes)
    requires k < |chain|
    ensures Restore(cfg, chain, k, p) == Some(data)
       <==> var place := FindData(chain, k, p);
            && place.Some? && ReadData(cfg, chain[place.value.0], place.value.1) == Some(data)
            && |data| == Lookup(chain[k].nodes, p).value.facts.size
            && var there := Lookup(chain[place.value.0].nodes, place.value.1).value;
               cfg.alg in there.hashes && there.hashes[cfg.alg] == cfg.hash(data)
  {
    if FindData(chain, k, p).Some? { FindDataIdempotent(chain, k, p); }
  }

  /** The same indexes over whatever the volume files have become. */
  predicate SameIndexes(chain: seq<Snapshot>, disk: seq<Snapshot>) {
    |disk| == |chain| && forall k | 0 <= k < |chain| :: disk[k].nodes == chain[k].nodes
  }

  lemma {:induction false} FindDataIgnoresFiles(chain: seq<Snapshot>, disk: seq<Snapshot>, k: nat, p: Path)
    requires SameIndexes(chain, disk) && k < |chain|
    ensures FindData(disk, k, p) == FindData(chain, k, p)
    decreases k
  {
    var a := Lookup(chain[k].nodes, p);
    if a.Some? && !a.value.HasData() && k > 0 {
      FindDataIgnoresFiles(chain, disk, k - 1, PointsTo(a.value, p));
    }
  }

  /** What local verification says of a snapshot depends on its own volumes alone. */
  lemma LocalIsLocal(cfg: Config, chain: seq<Snapshot>, disk: seq<Snapshot>, k: nat)
    requires SameIndexes(chain, disk) && k < |chain| && disk[k].files == chain[k].files
    ensures forall i | 0 <= i < |chain[k].nodes| :: Fails(cfg, disk, k, false, i) <==> Fails(cfg, chain, k, false, i)
    ensures Passes(cfg, disk, k, false) <==> Passes(cfg, chain, k, false)
  {
    assert disk[k] == chain[k];
    forall i | 0 <= i < |chain[k].nodes| ensures Fails(cfg, disk, k, false, i) <==> Fails(cfg, chain, k, false, i) {
      FindDataIgnoresFiles(chain, disk, k, chain[k].nodes[i].path);
    }
  }

  /** `disk` is `chain`, all of whose snapshots pass, with damage in the volumes of snapshot `j` alone. */
  predicate DamagedOnlyIn(cfg: Config, chain: seq<Snapshot>, disk: seq<Snapshot>, j: nat) {
    && SameIndexes(chain, disk)
    && forall k | 0 <= k < |chain| :: Passes(cfg, chain, k, false) && (k != j ==> disk[k].files == chain[k].files)
  }

  lemma OthersStillPass(cfg: Config, chain: seq<Snapshot>, disk: seq<Snapshot>, j: nat)
    requires DamagedOnlyIn(cfg, chain, disk, j)
    ensures forall k | 0 <= k < |disk| && k != j :: Passes(cfg, disk, k, false)
  {
    forall k | 0 <= k < |disk| && k != j ensures Passes(cfg, disk, k, false) {
      LocalIsLocal(cfg, chain, disk, k);
    }
  }

  /** The nodes that fail, or None for the exception of a node whose data is missing. `order` is the order in which
      the pool's threads finish their nodes. */
  method VerifySnapshot(cfg: Config, chain: seq<Snapshot>, k: nat, full: bool, order: seq<nat>)
    returns (failedNodes: Option<seq<nat>>)
    requires k < |chain| && Difference.IsFullSchedule(order, |chain[k].nodes|)
    ensures failedNodes.None? <==> DataMissing(chain, k)
    ensures failedNodes.Some? ==>
              forall i: nat :: i in failedNodes.value <==> i < |chain[k].nodes| && Fails(cfg, chain, k, full, i)
    ensures failedNodes.Some? ==> (failedNodes.value == [] <==> Passes(cfg, chain, k, full))
  {
    var failed: seq<nat> := [];
    for t := 0 to |order|
      invariant forall i: nat :: i in failed <==>
                  i in order[..t] && i < |chain[k].nodes| && Fails(cfg, chain, k, full, i)
      invariant forall i | i in order[..t] :: i < |chain[k].nodes| && !LosesData(chain, k, i)
    {
      var i := order[t];
      var node := chain[k].nodes[i];
      assert order[..t + 1] == order[..t] + [i];
      if !node.attributes.facts.fileType.Directory? {
        var place := FindData(chain, k, node.path);
        if place.None? {
          assert LosesData(chain, k, i);
          return None;
        }
        if full || place.value.0 == k {
          if !VerifyNode(cfg, chain[place.value.0], place.value.1) {
            failed := failed + [i];
          }
        }
      }
    }
    assert order[..|order|] == order;
    if failed != [] { assert failed[0] in failed; }
    failedNodes := Some(failed);
  }

  /** CommandVerifyAllSnapshots: the snapshots whose local verification fails. */
  method VerifyAllSnapshots(cfg: Config, chain: seq<Snapshot>, orders: seq<seq<nat>>)
    returns (corrupt: Option<seq<nat>>)
    requires |orders| == |chain|
    requires forall k | 0 <= k < |chain| :: Difference.IsFullSchedule(orders[k], |chain[k].nodes|)
    ensures corrupt.None? <==> exists k | 0 <= k < |chain| :: DataMissing(chain, k)
    ensures corrupt.Some? ==> forall k: nat :: k in corrupt.value <==> k < |chain| && !Passes(cfg, chain, k, false)
    ensures (forall k | 0 <= k < |chain| :: Resolves(chain, k)) ==>
              corrupt.Some? && (corrupt.value == [] <==> forall k | 0 <= k < |chain| :: Passes(cfg, chain, k, true))
    ensures forall intact, j: nat | DamagedOnlyIn(cfg, intact, chain, j) && corrupt.Some? ::
              forall k | k in corrupt.value :: k == j
  {
    var names: seq<nat> := [];
    for k := 0 to |chain|
      invariant forall j: nat :: j in names <==> j < k && !Passes(cfg, chain, j, false)
      invariant forall j | 0 <= j < k :: !DataMissing(chain, j)
    {
      var failedNodes := VerifySnapshot(cfg, chain, k, false, orders[k]);
      if failedNodes.None? {
        ResolvesMeansFound(chain, k);
        return None;
      }
      if failedNodes.value != [] {
        names := names + [k];
      }
    }
    if names != [] { assert names[0] in names; }
    corrupt := Some(names);
    forall intact, j: nat | DamagedOnlyIn(cfg, intact, chain, j) ensures forall k | k in names :: k == j {
      OthersStillPass(cfg, intact, chain, j);
    }
    if forall k | 0 <= k < |chain| :: Resolves(chain, k) { VerifyAllExactly(cfg, chain); }
  }

  lemma ResolvesMeansFound(chain: seq<Snapshot>, k: nat)
    requires k < |chain|
    ensures Resolves(chain, k) ==> !DataMissing(chain, k)
  {
    forall i | 0 <= i < |chain[k].nodes| && LosesData(chain, k, i) ensures !Resolves(chain, k) {
      assert !LeadsToData(chain, k, chain[k].nodes[i].path);
    }
  }

  /** What full verification of one snapshot checks is checked locally in the snapshot that holds the data. */
  lemma LocalCoversFull(cfg: Config, chain: seq<Snapshot>, k: nat, i: nat)
    requires k < |chain| && i < |chain[k].nodes| && Resolves(chain, k) && Fails(cfg, chain, k, true, i)
    ensures exists j | 0 <= j < |chain| :: !Passes(cfg, chain, j, false)
  {
    var p := chain[k].nodes[i].path;
    assert LeadsToData(chain, k, p);
    var (j, q) := FindData(chain, k, p).value;
    FindDataIdempotent(chain, k, p);
    var m := IndexOf(Entries(chain[j].nodes), q).value;
    assert Entries(chain[j].nodes)[m].path == chain[j].nodes[m].path == q;
    assert Fails(cfg, chain, j, false, m);
    assert !Passes(cfg, chain, j, false);
  }

  /** All snapshots pass locally exactly when all pass fully. */
  lemma VerifyAllExactly(cfg: Config, chain: seq<Snapshot>)
    requires forall k | 0 <= k < |chain| :: Resolves(chain, k)
    ensures (forall k | 0 <= k < |chain| :: Passes(cfg, chain, k, false))
       <==> (forall k | 0 <= k < |chain| :: Passes(cfg, chain, k, true))
  {
    if forall k | 0 <= k < |chain| :: Passes(cfg, chain, k, false) {
      forall k, i | 0 <= k < |chain| && 0 <= i < |chain[k].nodes| ensures !Fails(cfg, chain, k, true, i) {
        if Fails(cfg, chain, k, true, i) { LocalCoversFull(cfg, chain, k, i); }
      }
    }
    if forall k | 0 <= k < |chain| :: Passes(cfg, chain, k, true) {
      forall k, i | 0 <= k < |chain| && 0 <= i < |chain[k].nodes| ensures !Fails(cfg, chain, k, false, i) {
        assert Passes(cfg, chain, k, true) && !Fails(cfg, chain, k, true, i);
      }
    }
  }

  /** Snapshots that restore faithfully resolve, and go on doing so when volume files rot. */
  lemma FaithfulResolves(v: Variant, cfg: Config, sources: seq<seq<SourceNode>>, outcomes: seq<Outcome>,
                         chain: seq<Snapshot>, disk: seq<Snapshot>, k: nat)
    requires IsRun(v, cfg, sources, outcomes, chain) && Environment(cfg, sources) && k < |chain|
    requires AllFaithful(cfg, chain, k, sources[k]) && SameIndexes(chain, disk)
    ensures Resolves(disk, k)
  {
    RunRecorded(v, cfg, sources, outcomes, chain, k);
    forall i | 0 <= i < |disk[k].nodes| && IsDataNode(disk[k].nodes[i])
      ensures LeadsToData(disk, k, disk[k].nodes[i].path)
    {
      var p := chain[k].nodes[i].path;
      LookupAt(chain[k].nodes, i);
      var j := NodeOfPath(cfg, chain[k], sources[k], p);
      assert Faithful(cfg, chain, k, sources[k][j]);
      var (m, q) := FindData(chain, k, p).value;
      FindDataIgnoresFiles(chain, disk, k, p);
      RunRecorded(v, cfg, sources, outcomes, chain, m);
      var n := NodeOfPath(cfg, chain[m], sources[m], q);
    }
  }

  /** For every run without stale back-references, and whatever happened to the volume files since: verifying all
      snapshots locally finds no failure exactly when verifying all of them fully finds none. */
  lemma VerifyAllSuffices(v: Variant, cfg: Config, sources: seq<seq<SourceNode>>, outcomes: seq<Outcome>,
                          chain: seq<Snapshot>, disk: seq<Snapshot>)
    requires IsRun(v, cfg, sources, outcomes, chain) && Environment(cfg, sources) && SameIndexes(chain, disk)
    requires v.TargetCleared? || RunNotStale(cfg, chain, sources, |chain|)
    ensures (forall k | 0 <= k < |disk| :: Passes(cfg, disk, k, false))
       <==> (forall k | 0 <= k < |disk| :: Passes(cfg, disk, k, true))
  {
    RestoreExactly(v, cfg, sources, outcomes, chain, |chain|);
    forall k | 0 <= k < |disk| ensures Resolves(disk, k) {
      assert AllFaithful(cfg, chain, k, sources[k]);
      FaithfulResolves(v, cfg, sources, outcomes, chain, disk, k);
    }
    VerifyAllExactly(cfg, disk);
  }

  /** Data found in an undamaged snapshot of a run has the size that is recorded with it. */
  lemma FoundDataHasItsSize(cfg: Config, snap: Snapshot, src: seq<SourceNode>, q: Path)
    requires Records(cfg, snap, src) && ValidSource(src)
    requires Lookup(snap.nodes, q).Some? && Lookup(snap.nodes, q).value.HasData() && ReadVerified(cfg, snap, q).Some?
    ensures VerifyNode(cfg, snap, q)
  {
    var j := NodeOfPath(cfg, snap, src, q);
    if src[j].facts.size == 0 {
      assert ReadData(cfg, snap, q) == Some([]);
    }
  }

  /** A snapshot that restores faithfully passes its full verification, the last thing AddSnapshot does. */
  lemma FaithfulPasses(v: Variant, cfg: Config, sources: seq<seq<SourceNode>>, outcomes: seq<Outcome>,
                       chain: seq<Snapshot>, k: nat)
    requires IsRun(v, cfg, sources, outcomes, chain) && Environment(cfg, sources) && k < |chain|
    requires AllFaithful(cfg, chain, k, sources[k])
    ensures Passes(cfg, chain, k, true)
  {
    RunRecorded(v, cfg, sources, outcomes, chain, k);
    forall i | 0 <= i < |chain[k].nodes| ensures !Fails(cfg, chain, k, true, i) {
      var p := chain[k].nodes[i].path;
      if IsDataNode(chain[k].nodes[i]) && FindData(chain, k, p).Some? {
        LookupAt(chain[k].nodes, i);
        var j := NodeOfPath(cfg, chain[k], sources[k], p);
        assert Faithful(cfg, chain, k, sources[k][j]);
        FindDataIdempotent(chain, k, p);
        var (m, q) := FindData(chain, k, p).value;
        RunRecorded(v, cfg, sources, outcomes, chain, m);
        assert EnvironmentAt(cfg, sources, m);
        FoundDataHasItsSize(cfg, chain[m], sources[m], q);
      }
    }
  }

  /** Full verification is worth something: where it passes on damaged or undamaged volumes, restoring yields the
      source content, unless the data read now collides with that content under the hash. */
  lemma PassingRestores(v: Variant, cfg: Config, sources: seq<seq<SourceNode>>, outcomes: seq<Outcome>,
                        chain: seq<Snapshot>, disk: seq<Snapshot>, k: nat, i: nat)
    requires IsRun(v, cfg, sources, outcomes, chain) && Environment(cfg, sources) && SameIndexes(chain, disk)
    requires k < |chain| && AllFaithful(cfg, chain, k, sources[k]) && Passes(cfg, disk, k, true)
    requires i < |sources[k]| && IsData(sources[k][i])
    requires var node, place := sources[k][i], FindData(chain, k, sources[k][i].path);
             place.Some? ==>
               var data := ReadData(cfg, disk[place.value.0], place.value.1);
               data.Some? && cfg.hash(data.value) == cfg.hash(node.content) ==> data.value == node.content
    ensures Faithful(cfg, disk, k, sources[k][i])
  {
    var node := sources[k][i];
    RunRecorded(v, cfg, sources, outcomes, chain, k);
    assert NodeRecorded(cfg, chain[k], node) && Faithful(cfg, chain, k, node);
    var n := IndexOf(Entries(chain[k].nodes), node.path).value;
    assert Entries(chain[k].nodes)[n].path == disk[k].nodes[n].path == node.path;
    assert !Fails(cfg, disk, k, true, n);
    FindDataIgnoresFiles(chain, disk, k, node.path);
    assert EnvironmentAt(cfg, sources, k);
  }
}
