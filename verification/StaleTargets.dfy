/** What a stale back-reference does: runs in which the newest snapshot loses a file, or silently gives another file's
    content. The statements hold for every run over these sources, whatever the threads did; such runs exist. */
module StaleTargets {
  import opened Prelude
  import opened Nodes
  import opened Snapshots
  import opened SnapshotChain
  import opened Verification

  const X: Bytes := [1]
  const Y: Bytes := [2]

  function OneByteFile(path: Path, time: int, content: Bytes): SourceNode {
    SourceNode(path, Facts(File, 1, Some(time)), POSIX(0, 0, 0), content)
  }

  /** `/a` is moved to `/b`, then nothing happens. */
  const MOVED_AWAY: seq<seq<SourceNode>> :=
    [[OneByteFile("/a", 1, X)], [OneByteFile("/b", 1, X)], [OneByteFile("/b", 1, X)]]

  /** `/a` is moved to `/b` and a new `/a` is created, then nothing happens. */
  const REPLACED: seq<seq<SourceNode>> :=
    [[OneByteFile("/a", 1, X)],
     [OneByteFile("/b", 1, X), OneByteFile("/a", 2, Y)],
     [OneByteFile("/b", 1, X), OneByteFile("/a", 2, Y)]]

  lemma MovedAwayEnvironment(cfg: Config)
    requires GoodCodec(cfg)
    ensures Environment(cfg, MOVED_AWAY)
  {
    forall k | 0 <= k < 3 ensures EnvironmentAt(cfg, MOVED_AWAY, k) {
      assert ValidSource(MOVED_AWAY[k]);
    }
  }

  lemma ReplacedEnvironment(cfg: Config)
    requires GoodCodec(cfg) && cfg.hash(X) != cfg.hash(Y)
    ensures Environment(cfg, REPLACED)
  {
    forall k | 0 <= k < 3 ensures EnvironmentAt(cfg, REPLACED, k) {
      assert "/b"[1] != "/a"[1];
      assert ValidSource(REPLACED[k]);
    }
  }

  lemma OnlyPath(cfg: Config, last: Snapshot, prev: seq<SourceNode>)
    requires Records(cfg, last, prev) && prev == [OneByteFile("/a", 1, X)]
    ensures forall l | 0 <= l < |last.nodes| :: last.nodes[l].path == "/a"
    ensures Lookup(last.nodes, "/a").Some?
  {
    assert NodeRecorded(cfg, last, prev[0]);
    forall l | 0 <= l < |last.nodes| ensures last.nodes[l].path == "/a" {
      var j := IndexOf(SourceEntries(prev), last.nodes[l].path).value;
    }
  }

  /** A file at `/b` whose content the last index has at `/a` is a move. */
  lemma MoveIsNoticed(cfg: Config, last: Snapshot, prev: seq<SourceNode>, src: seq<SourceNode>)
    requires Records(cfg, last, prev) && prev == [OneByteFile("/a", 1, X)]
    requires src != [] && src[0] == OneByteFile("/b", 1, X)
    ensures var kind := Treatment(cfg, Some(last.nodes), src, 0);
            kind.MovedFrom? && kind.left < |last.nodes| && last.nodes[kind.left].path == "/a"
  {
    assert "/b"[1] != "/a"[1];
    OnlyPath(cfg, last, prev);
    assert NodeRecorded(cfg, last, prev[0]);
    var left := Entries(last.nodes);
    var l0 := IndexOf(left, "/a").value;
    assert HasHash(last.nodes, cfg.alg, l0, cfg.hash(X));
    HashIndexExact(last.nodes, cfg.alg, cfg.hash(X));
    assert IndexOf(left, "/b") == None;
  }

  /** A changed file at `/a` whose content the last index does not have is backed up. */
  lemma ReplacementIsNoticed(cfg: Config, last: Snapshot, prev: seq<SourceNode>, src: seq<SourceNode>)
    requires Records(cfg, last, prev) && prev == [OneByteFile("/a", 1, X)] && cfg.hash(X) != cfg.hash(Y)
    requires |src| == 2 && src[1] == OneByteFile("/a", 2, Y)
    ensures Treatment(cfg, Some(last.nodes), src, 1).NewData?
  {
    OnlyPath(cfg, last, prev);
    assert NodeRecorded(cfg, last, prev[0]);
    HashIndexExact(last.nodes, cfg.alg, cfg.hash(Y));
    forall l | 0 <= l < |last.nodes| ensures !HasHash(last.nodes, cfg.alg, l, cfg.hash(Y)) {
      LookupAt(last.nodes, l);
    }
    assert Entries(last.nodes)[IndexOf(Entries(last.nodes), "/a").value].facts == prev[0].facts;
  }

  /** The move copies the attributes and points to the old path. */
  lemma MoveKeepsTarget(cfg: Config, last: Snapshot, prev: seq<SourceNode>, src: seq<SourceNode>, o: Outcome,
                        snap: Snapshot)
    requires Records(cfg, last, prev) && prev == [OneByteFile("/a", 1, X)]
    requires ValidSource(src) && src != [] && src[0] == OneByteFile("/b", 1, X)
    requires Added(AsWritten, cfg, Some(last.nodes), src, o, snap)
    ensures Lookup(snap.nodes, "/b").Some?
    ensures var a := Lookup(snap.nodes, "/b").value;
            !a.HasData() && a.backReference == Some("/a") && a.blocks != [] && a.facts == src[0].facts
  {
    MoveIsNoticed(cfg, last, prev, src);
    assert NodeRecorded(cfg, last, prev[0]);
    LookupAt(last.nodes, Treatment(cfg, Some(last.nodes), src, 0).left);
    AddedLookup(AsWritten, cfg, Some(last.nodes), src, o, snap, 0);
  }

  /** A node with the facts of the last index is only carried over. */
  lemma CarryIsNoticed(cfg: Config, last: seq<Node>, src: seq<SourceNode>, i: nat)
    requires i < |src| && Lookup(last, src[i].path).Some? && Lookup(last, src[i].path).value.facts == src[i].facts
    ensures Treatment(cfg, Some(last), src, i).MetadataOnly?
  {
    assert Entries(last)[IndexOf(Entries(last), src[i].path).value].facts == src[i].facts;
  }

  /** In a step that changes nothing about a node, BackupNodeMetadata copies its back-reference. */
  lemma CarryKeepsTarget(cfg: Config, last: Snapshot, src: seq<SourceNode>, o: Outcome, snap: Snapshot, i: nat)
    requires ValidSource(src) && i < |src| && Lookup(last.nodes, src[i].path).Some?
    requires Lookup(last.nodes, src[i].path).value.facts == src[i].facts == Facts(File, 1, src[i].facts.lastModified)
    requires Lookup(last.nodes, src[i].path).value.blocks != []
    requires Added(AsWritten, cfg, Some(last.nodes), src, o, snap)
    ensures Lookup(snap.nodes, src[i].path).Some?
    ensures var a := Lookup(snap.nodes, src[i].path).value;
            !a.HasData() && a.backReference == Lookup(last.nodes, src[i].path).value.backReference
            && a.facts == src[i].facts
  {
    CarryIsNoticed(cfg, last.nodes, src, i);
    AddedLookup(AsWritten, cfg, Some(last.nodes), src, o, snap, i);
  }

  /** The last two snapshots of a run in which `/a` was moved to `/b` and `/b` stayed as it was. */
  lemma TargetStaysForTwo(cfg: Config, sources: seq<seq<SourceNode>>, outcomes: seq<Outcome>, chain: seq<Snapshot>)
    requires |sources| == 3 && sources[0] == [OneByteFile("/a", 1, X)]
    requires sources[1] == sources[2] != [] && sources[1][0] == OneByteFile("/b", 1, X)
    requires IsRun(AsWritten, cfg, sources, outcomes, chain) && Environment(cfg, sources)
    ensures Lookup(chain[2].nodes, "/b").Some?
    ensures var a := Lookup(chain[2].nodes, "/b").value;
            !a.HasData() && a.backReference == Some("/a") && a.facts == sources[1][0].facts
    ensures Records(cfg, chain[1], sources[1]) && ValidSource(sources[1])
  {
    assert IsStep(AsWritten, cfg, sources, outcomes, chain, 1) && IsStep(AsWritten, cfg, sources, outcomes, chain, 2);
    assert EnvironmentAt(cfg, sources, 1) && EnvironmentAt(cfg, sources, 2);
    RunRecorded(AsWritten, cfg, sources, outcomes, chain, 0);
    RunRecorded(AsWritten, cfg, sources, outcomes, chain, 1);
    MoveKeepsTarget(cfg, chain[0], sources[0], sources[1], outcomes[1], chain[1]);
    CarryKeepsTarget(cfg, chain[1], sources[2], outcomes[2], chain[2], 0);
  }

  lemma NodeAt(nodes: seq<Node>, p: Path) returns (n: nat)
    requires Lookup(nodes, p).Some?
    ensures n < |nodes| && nodes[n].path == p && nodes[n].attributes == Lookup(nodes, p).value
  {
    n := IndexOf(Entries(nodes), p).value;
    assert Entries(nodes)[n].path == nodes[n].path;
  }

  /** After a move followed by an uneventful backup, the newest snapshot has lost the file: looking for its data ends
      at the missing old path in the snapshot before. */
  lemma UnchangedAfterMoveIsLost(cfg: Config, outcomes: seq<Outcome>, chain: seq<Snapshot>)
    requires GoodCodec(cfg) && IsRun(AsWritten, cfg, MOVED_AWAY, outcomes, chain)
    ensures FindData(chain, 2, "/b") == None && DataMissing(chain, 2)
  {
    MovedAwayEnvironment(cfg);
    TargetStaysForTwo(cfg, MOVED_AWAY, outcomes, chain);
    assert "/b"[1] != "/a"[1];
    if Lookup(chain[1].nodes, "/a").Some? {
      var j := NodeOfPath(cfg, chain[1], MOVED_AWAY[1], "/a");
    }
    assert FindData(chain, 1, "/a") == None;
    var n := NodeAt(chain[2].nodes, "/b");
    assert LosesData(chain, 2, n);
  }

  /** In the second snapshot of the other run, the new `/a` is backed up with its own data. */
  lemma ReplacementIsNew(cfg: Config, outcomes: seq<Outcome>, chain: seq<Snapshot>)
    requires GoodCodec(cfg) && cfg.hash(X) != cfg.hash(Y) && IsRun(AsWritten, cfg, REPLACED, outcomes, chain)
    ensures Lookup(chain[1].nodes, "/a").Some? && Lookup(chain[1].nodes, "/a").value.HasData()
    ensures Lookup(chain[1].nodes, "/a").value.facts.size == 1
    ensures ReadVerified(cfg, chain[1], "/a") == Some(Y)
  {
    ReplacedEnvironment(cfg);
    assert "/b"[1] != "/a"[1];
    var last, src := chain[0], REPLACED[1];
    assert IsStep(AsWritten, cfg, REPLACED, outcomes, chain, 1) && EnvironmentAt(cfg, REPLACED, 1);
    RunRecorded(AsWritten, cfg, REPLACED, outcomes, chain, 0);
    ReplacementIsNoticed(cfg, last, REPLACED[0], src);
    NewNodeRecorded(AsWritten, cfg, Some(last.nodes), src, outcomes[1], chain[1], 1);
  }

  /** After a move whose old path was taken by a new file of the same size, the next snapshot restores the moved file
      with the new file's content - and its verification, which ends AddSnapshot, reports nothing. */
  lemma ReplacedAfterMoveIsWrong(cfg: Config, outcomes: seq<Outcome>, chain: seq<Snapshot>)
    requires GoodCodec(cfg) && cfg.hash(X) != cfg.hash(Y) && IsRun(AsWritten, cfg, REPLACED, outcomes, chain)
    ensures Restore(cfg, chain, 2, "/b") == Some(Y) && REPLACED[2][0].path == "/b" && REPLACED[2][0].content == X
    ensures !DataMissing(chain, 2) && Passes(cfg, chain, 2, true)
  {
    ReplacedEnvironment(cfg);
    TargetStaysForTwo(cfg, REPLACED, outcomes, chain);
    ReplacementIsNew(cfg, outcomes, chain);
    assert FindData(chain, 1, "/a") == Some((1, "/a"));
    assert FindData(chain, 2, "/b") == Some((1, "/a"));
    assert VerifyNode(cfg, chain[1], "/a");
    RunRecorded(AsWritten, cfg, REPLACED, outcomes, chain, 2);
    ReplacementStays(cfg, outcomes, chain);
    forall n | 0 <= n < |chain[2].nodes| ensures FindData(chain, 2, chain[2].nodes[n].path) == Some((1, "/a")) {
      LookupAt(chain[2].nodes, n);
      var j := NodeOfPath(cfg, chain[2], REPLACED[2], chain[2].nodes[n].path);
    }
  }

  lemma ReplacementStays(cfg: Config, outcomes: seq<Outcome>, chain: seq<Snapshot>)
    requires GoodCodec(cfg) && cfg.hash(X) != cfg.hash(Y) && IsRun(AsWritten, cfg, REPLACED, outcomes, chain)
    ensures FindData(chain, 2, "/a") == Some((1, "/a"))
  {
    ReplacedEnvironment(cfg);
    var src := REPLACED[2];
    assert IsStep(AsWritten, cfg, REPLACED, outcomes, chain, 2) && EnvironmentAt(cfg, REPLACED, 2);
    assert IsStep(AsWritten, cfg, REPLACED, outcomes, chain, 1);
    RunRecorded(AsWritten, cfg, REPLACED, outcomes, chain, 1);
    assert NodeRecorded(cfg, chain[1], REPLACED[1][1]);
    ReplacementIsNew(cfg, outcomes, chain);
    CarryKeepsTarget(cfg, chain[1], src, outcomes[2], chain[2], 1);
    NewHasNoTarget(cfg, outcomes, chain);
  }

  lemma NewHasNoTarget(cfg: Config, outcomes: seq<Outcome>, chain: seq<Snapshot>)
    requires GoodCodec(cfg) && IsRun(AsWritten, cfg, REPLACED, outcomes, chain)
    requires Lookup(chain[1].nodes, "/a").Some? && Lookup(chain[1].nodes, "/a").value.HasData()
    requires Lookup(chain[1].nodes, "/a").value.facts.size == 1
    ensures Lookup(chain[1].nodes, "/a").value.backReference == None
  {
    assert IsStep(AsWritten, cfg, REPLACED, outcomes, chain, 1);
    var src, o := REPLACED[1], outcomes[1];
    AddedLookup(AsWritten, cfg, Some(chain[0].nodes), src, o, chain[1], 1);
  }

  /** Only the permissions of `/a` change. */
  const CHMOD: seq<seq<SourceNode>> :=
    [[OneByteFile("/a", 1, X)], [OneByteFile("/a", 1, X).(permissions := POSIX(0, 0, 511))]]

  /** A change of permissions alone never reaches a snapshot. */
  lemma ChmodIsLost(cfg: Config, outcomes: seq<Outcome>, chain: seq<Snapshot>)
    requires GoodCodec(cfg) && IsRun(AsWritten, cfg, CHMOD, outcomes, chain)
    ensures Lookup(chain[1].nodes, "/a").Some?
    ensures Lookup(chain[1].nodes, "/a").value.permissions == CHMOD[0][0].permissions != CHMOD[1][0].permissions
  {
    var last := Some(chain[0].nodes);
    assert IsStep(AsWritten, cfg, CHMOD, outcomes, chain, 0) && IsStep(AsWritten, cfg, CHMOD, outcomes, chain, 1);
    assert ValidSource(CHMOD[0]);
    FirstRecorded(AsWritten, cfg, CHMOD[0], outcomes[0], chain[0]);
    assert NodeRecorded(cfg, chain[0], CHMOD[0][0]);
    PermissionsExactly(AsWritten, cfg, None, CHMOD[0], outcomes[0], chain[0], 0);
    CarryIsNoticed(cfg, chain[0].nodes, CHMOD[1], 0);
    AddedLookup(AsWritten, cfg, last, CHMOD[1], outcomes[1], chain[1], 0);
  }
}
