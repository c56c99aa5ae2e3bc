/** SnapshotManager: adding a snapshot, as it executes. */
module SnapshotManager {
  import opened Prelude
  import opened Nodes
  import opened Difference
  import opened Snapshots
  import opened SnapshotChain
  import Verification
  import opened BackupIndex
  import opened SnapshotNames
  import ReturnValue

  function AllBelow(n: nat): (all: set<nat>)
    ensures forall i: nat :: i in all <==> i < n
  {
    if n == 0 then {} else AllBelow(n - 1) + {n - 1}
  }

  /** What ComputeDifference yields. */
  function Plan(cfg: Config, last: Option<seq<Node>>, src: seq<SourceNode>, updateDefault: bool): Differences {
    if last.None? then
      Differences({}, AllBelow(|src|), {}, map[])
    else
      var d := Resolved(Entries(last.value), HashIndex(last.value, cfg.alg), SourceEntries(src), Hashes(cfg, src));
      if updateDefault then WithDefault(d, |src|) else d
  }

  /** The differences say for each source node what is done with it. */
  lemma PlanIsTreatment(cfg: Config, last: Option<seq<Node>>, src: seq<SourceNode>, i: nat)
    requires i < |src|
    ensures var d, k := Plan(cfg, last, src, true), Treatment(cfg, last, src, i);
            && (i in d.differentData <==> k.NewData?)
            && (i in d.differentMetadata <==> k.MetadataOnly?)
            && (i in d.moved <==> k.MovedFrom?)
            && (k.MovedFrom? ==> d.moved[i] == k.left)
  {
  }

  /** Orders in which the pool's threads finish the three kinds of comparison tasks. */
  datatype Schedules = Schedules(left: seq<nat>, right: seq<nat>, changed: seq<nat>)

  predicate SchedulesFor(s: Schedules, last: Option<seq<Node>>, src: seq<SourceNode>) {
    last.Some? ==>
      && IsFullSchedule(s.left, |last.value|) && IsFullSchedule(s.right, |src|)
      && IsSchedule(s.changed, Different(SourceEntries(src), Entries(last.value)))
  }

  datatype AddResult = DifferenceRemains | NodeDataMissing | Verified(allPassed: bool)

  class Manager {
    var snapshots: seq<Snapshot>
    /** Position of the snapshot that each one refers to (`prev`). */
    var previous: seq<Option<nat>>
    /** What the files of the index directory hold, with their volumes. */
    var indexFiles: map<string, Snapshot>
    /** When the snapshots were made. */
    ghost var times: seq<DateTime>

    /** The snapshots are those on disk, in the order of their creation. */
    ghost predicate Valid()
      reads this
    {
      && Increasing(times) && Readable(IndexFiles(times), indexFiles)
      && snapshots == Loaded(IndexFiles(times), indexFiles) && |previous| == |times| && IsLinked(previous)
    }

    constructor (names: seq<string>, indexFiles: map<string, Snapshot>, ghost times: seq<DateTime>)
      requires Increasing(times) && IsListing(names, times) && Readable(IndexFiles(times), indexFiles)
      ensures Valid() && this.times == times && this.indexFiles == indexFiles
    {
      var inOrder, before := ReadInSnapshots(names, indexFiles, times);
      this.snapshots, this.previous := inOrder, before;
      this.indexFiles, this.times := indexFiles, times;
    }

    function LastIndex(): Option<seq<Node>>
      reads this
    {
      LastNodes(snapshots, |snapshots|)
    }

    method ComputeDifference(cfg: Config, src: seq<SourceNode>, updateDefault: bool, schedules: Schedules)
      returns (d: Differences)
      requires LastIndex().Some? ==> |LastIndex().value| <= NOT_FOUND
      requires SchedulesFor(schedules, LastIndex(), src)
      ensures d == Plan(cfg, LastIndex(), src, updateDefault)
    {
      if snapshots != [] {
        var last := snapshots[|snapshots| - 1].nodes;
        var hashIndex := GenerateHashIndex(last, cfg.alg);
        HashIndexInRange(last, cfg.alg);
        d := ComputeDiff(Entries(last), hashIndex, SourceEntries(src), Hashes(cfg, src),
                         schedules.left, schedules.right, schedules.changed);
        if updateDefault {
          d := UpdateDefault(d, |src|);
        }
      } else {
        d := Differences({}, {}, {}, map[]);
        for i := 0 to |src|
          invariant d == Differences({}, AllBelow(i), {}, map[])
        {
          d := d.(differentData := d.differentData + {i});
        }
      }
    }

    /** What is added to the new index for source node `i`: by BackupNode, BackupMove or
        BackupNodeMetadata. */
    method BuildAttributes(cfg: Config, src: seq<SourceNode>, d: Differences, o: Outcome, i: nat)
      returns (attributes: Attributes)
      requires i < |src| && d == Plan(cfg, LastIndex(), src, true)
      ensures attributes == AttributesFor(AsWritten, cfg, LastIndex(), src, o, i)
    {
      var path := src[i].path;
      PlanIsTreatment(cfg, LastIndex(), src, i);
      if i in d.differentData {
        attributes := NewAttributes(cfg, src[i], RateOf(o, path), BlocksOf(o, path), FlagOf(o, path));
      } else if i in d.moved {
        var before := snapshots[|snapshots| - 1].nodes[d.moved[i]];
        attributes := MovedAttributes(before.attributes, before.path, src[i].facts);
      } else {
        var before := Lookup(snapshots[|snapshots| - 1].nodes, path);
        CarriedHasPredecessor(cfg, LastIndex().value, src, i);
        attributes := CarriedAttributes(AsWritten, before.value, src[i].facts);
      }
    }

    /** Fills the new index: each node once, in the order in which pool threads and main thread add them. */
    method FillIndex(cfg: Config, src: seq<SourceNode>, d: Differences, o: Outcome, order: seq<nat>)
      returns (index: BackupNodeIndex)
      requires ValidSource(src) && AllSourceAbsolute(src) && d == Plan(cfg, LastIndex(), src, true)
      requires IsFullSchedule(order, |src|)
      ensures fresh(index) && index.Valid()
      ensures Indexed(AsWritten, cfg, LastIndex(), src, o.(nodes := index.View()))
      ensures AllAbsolute(index.View()) && Distinct(Entries(index.View())) && |index.View()| == |order|
    {
      ghost var last := LastIndex();
      index := new BackupNodeIndex();
      for t := 0 to |order|
        invariant fresh(index) && index.Valid() && index.View() == NewNodes(cfg, last, src, o, order[..t])
      {
        var i := order[t];
        NotYetAdded(index, cfg, last, src, o, order, t);
        var attributes := BuildAttributes(cfg, src, d, o, i);
        NewNodesNext(cfg, last, src, o, order, t);
        var position := index.AddNode(src[i].path, attributes);
      }
      assert order[..|order|] == order;
      index.PathsDistinct();
      NewNodesIndexed(cfg, last, src, o, order);
    }

    /** Serialize, and the re-reading of the file. */
    method WriteAndReread(index: BackupNodeIndex, cfg: Config, files: seq<Bytes>) returns (snapshot: Snapshot)
      requires index.Valid() && AllAbsolute(index.View()) && Distinct(Entries(index.View()))
      ensures snapshot == Snapshot(RereadAll(index.View()), files)
    {
      var document := index.Serialize();
      var reread := new BackupNodeIndex();
      var ok := reread.Deserialize(document, cfg.alg);
      snapshot := Snapshot(reread.View(), files);
    }

    /** The first half of AddSnapshot: the new index is filled in `order`, written to its file and read again. */
    method CreateSnapshot(cfg: Config, src: seq<SourceNode>, o: Outcome, order: seq<nat>, schedules: Schedules)
      returns (snapshot: Snapshot, ghost nodes: seq<Node>)
      requires ValidSource(src) && AllSourceAbsolute(src) && IsFullSchedule(order, |src|)
      requires LastIndex().Some? ==> |LastIndex().value| <= NOT_FOUND
      requires Completed(cfg, LastIndex(), src, o) && SchedulesFor(schedules, LastIndex(), src)
      ensures Added(AsWritten, cfg, LastIndex(), src, o.(nodes := nodes), snapshot)
      ensures SettledWith(cfg, src, snapshot)
    {
      var d := ComputeDifference(cfg, src, true, schedules);
      var index := FillIndex(cfg, src, d, o, order);
      nodes := index.View();
      snapshot := WriteAndReread(index, cfg, o.store.pool.files);
      SnapshotReady(cfg, LastIndex(), src, o, nodes, snapshot);
      ScheduleLength(order, |src|);
    }

    /** The second half: the source is compared with the re-read snapshot, and that is verified in full. */
    method CheckSnapshot(cfg: Config, src: seq<SourceNode>, verifyOrder: seq<nat>, schedules: Schedules)
      returns (result: AddResult)
      requires LastIndex().Some? && SettledWith(cfg, src, snapshots[|snapshots| - 1])
      requires IsFullSchedule(verifyOrder, |src|)
      requires IsFullSchedule(schedules.left, |src|) && IsFullSchedule(schedules.right,
               |src|) && schedules.changed == []
      ensures !result.DifferenceRemains?
      ensures result.NodeDataMissing? <==> Verification.DataMissing(snapshots, |snapshots| - 1)
      ensures result.Verified? ==> (result.allPassed <==> Verification.Passes(cfg, snapshots, |snapshots| - 1, true))
    {
      var remaining := ComputeDifference(cfg, src, false, schedules);
      if remaining.Exist() {
        return DifferenceRemains;
      }
      var failed := Verification.VerifySnapshot(cfg, snapshots, |snapshots| - 1, true, verifyOrder);
      if failed.None? {
        return NodeDataMissing;
      }
      return Verified(failed.value == []);
    }

    /** Follows back-references from snapshot to previous snapshot, to where the data of `path` of snapshot `k` is. */
    method FindDataSnapshot(k: nat, path: Path) returns (place: Option<(nat, Path)>)
      requires Valid() && k < |snapshots|
      ensures place == FindData(snapshots, k, path)
      decreases k
    {
      var attributes := Lookup(snapshots[k].nodes, path);
      if attributes.None? {
        return None;
      }
      if !attributes.value.HasData() {
        var parentPath := path;
        if attributes.value.backReference.Some? {
          parentPath := attributes.value.backReference.value;
        }
        if previous[k].None? {
          return None;
        }
        place := FindDataSnapshot(previous[k].value, parentPath);
        return;
      }
      place := Some((k, path));
    }

    /** Restores a file of snapshot `k`; None stands for the exceptions on missing, corrupt or wrongly sized data. */
    method RestoreFile(cfg: Config, k: nat, path: Path) returns (data: Option<Bytes>)
      requires Valid() && k < |snapshots|
      ensures data == Restore(cfg, snapshots, k, path)
    {
      var attributes := Lookup(snapshots[k].nodes, path);
      if attributes.None? {
        return None;
      }
      var place := FindDataSnapshot(k, path);
      if place.None? {
        return None;
      }
      data := ReadVerified(cfg, snapshots[place.value.0], place.value.1);
      if data.Some? && |data.value| != attributes.value.facts.size {
        data := None;
      }
    }

    /** Forgets all snapshots and reads the index directory, to which the file of a new snapshot was added. */
    method CloseAndReadIn(snapshot: Snapshot, now: DateTime, names: seq<string>)
      requires Valid() && Increasing(times + [now]) && IsListing(names, times + [now])
      modifies this
      ensures Valid() && times == old(times) + [now] && indexFiles == old(indexFiles)[IndexFile(now) := snapshot]
      ensures snapshots == old(snapshots) + [snapshot]
    {
      LoadedAfterWrite(times, now, indexFiles, snapshot);
      indexFiles := indexFiles[IndexFile(now) := snapshot];
      times := times + [now];
      snapshots := [];
      snapshots, previous := ReadInSnapshots(names, indexFiles, times);
    }

    /** Backs up the source at the time `now`; the pool threads have done their part as `o` says, and `names` is what
        the index directory lists afterwards. */
    method AddSnapshot(cfg: Config, src: seq<SourceNode>, o: Outcome, order: seq<nat>, verifyOrder: seq<nat>,
                       schedules: Schedules, schedulesAfter: Schedules, now: DateTime, names: seq<string>)
      returns (result: AddResult, ghost nodes: seq<Node>)
      requires Valid() && Increasing(times + [now]) && IsListing(names, times + [now])
      requires ValidSource(src) && AllSourceAbsolute(src) && IsFullSchedule(order, |src|)
      requires LastIndex().Some? ==> |LastIndex().value| <= NOT_FOUND
      requires Completed(cfg, LastIndex(), src, o) && SchedulesFor(schedules, LastIndex(), src)
      requires IsFullSchedule(verifyOrder, |src|) && schedulesAfter.changed == []
      requires IsFullSchedule(schedulesAfter.left, |src|) && IsFullSchedule(schedulesAfter.right, |src|)
      modifies this
      ensures Valid() && times == old(times) + [now]
      ensures |snapshots| == |old(snapshots)| + 1 && snapshots[..|old(snapshots)|] == old(snapshots)
      ensures Added(AsWritten, cfg, old(LastIndex()), src, o.(nodes := nodes), snapshots[|snapshots| - 1])
      ensures !result.DifferenceRemains?
      ensures result.NodeDataMissing? <==> Verification.DataMissing(snapshots, |snapshots| - 1)
      ensures result == Verified(true) <==> ReturnValue.Succeeds(cfg, snapshots, |snapshots| - 1)
      ensures forall sources, outcomes | IsRun(AsWritten, cfg, sources, outcomes, old(snapshots)) ::
                IsRun(AsWritten, cfg, sources + [src], outcomes + [o.(nodes := nodes)], snapshots)
    {
      var snapshot;
      snapshot, nodes := CreateSnapshot(cfg, src, o, order, schedules);
      EveryRunGrows(cfg, snapshots, src, o.(nodes := nodes), snapshot);
      CloseAndReadIn(snapshot, now, names);
      result := CheckSnapshot(cfg, src, verifyOrder, schedulesAfter);
    }
  }

  lemma EveryRunGrows(cfg: Config, chain: seq<Snapshot>, src: seq<SourceNode>, o: Outcome, snap: Snapshot)
    requires Added(AsWritten, cfg, LastNodes(chain, |chain|), src, o, snap)
    ensures forall sources, outcomes | IsRun(AsWritten, cfg, sources, outcomes, chain) ::
              IsRun(AsWritten, cfg, sources + [src], outcomes + [o], chain + [snap])
  {
    forall sources, outcomes | IsRun(AsWritten, cfg, sources, outcomes, chain)
      ensures IsRun(AsWritten, cfg, sources + [src], outcomes + [o], chain + [snap])
    {
      RunGrows(AsWritten, cfg, sources, outcomes, chain, src, o, snap);
    }
  }

  /** The snapshot has as many nodes as the source, and comparing them finds nothing. */
  predicate SettledWith(cfg: Config, src: seq<SourceNode>, snap: Snapshot) {
    && |snap.nodes| == |src| <= NOT_FOUND
    && Different(SourceEntries(src), Entries(snap.nodes)) == {}
    && !Plan(cfg, Some(snap.nodes), src, false).Exist()
  }

  /** The new snapshot is as AddSnapshot promises, and differs from its source in nothing. */
  lemma SnapshotReady(cfg: Config, last: Option<seq<Node>>, src: seq<SourceNode>, o: Outcome, nodes: seq<Node>,
                      snap: Snapshot)
    requires ValidSource(src) && Completed(cfg, last, src, o) && Indexed(AsWritten, cfg, last, src, o.(nodes := nodes))
    requires snap == Snapshot(RereadAll(nodes), o.store.pool.files)
    ensures Added(AsWritten, cfg, last, src, o.(nodes := nodes), snap)
    ensures !Plan(cfg, Some(snap.nodes), src, false).Exist()
    ensures Different(SourceEntries(src), Entries(snap.nodes)) == {}
    ensures |snap.nodes| == |nodes| <= NOT_FOUND
  {
    CompletedIgnoresNodes(cfg, last, src, o, nodes);
    AddedAgrees(AsWritten, cfg, last, src, o.(nodes := nodes), snap);
    AgreeingIsNotDifferent(Entries(snap.nodes), SourceEntries(src));
    NoDifferenceRemains(AsWritten, cfg, last, src, o.(nodes := nodes), snap);
  }

  lemma CompletedIgnoresNodes(cfg: Config, last: Option<seq<Node>>, src: seq<SourceNode>, o: Outcome, nodes: seq<Node>)
    requires Completed(cfg, last, src, o)
    ensures Completed(cfg, last, src, o.(nodes := nodes))
  {
    forall i | 0 <= i < |src| && IsNewFile(cfg, last, src, i) ensures WroteNode(cfg, src[i], o.(nodes := nodes)) {
      assert WroteNode(cfg, src[i], o);
    }
    assert OwnWriters(cfg, last, src, o.(nodes := nodes));
    forall w | 0 <= w < |o.store.writers| ensures HasSource(cfg, last, src, o.(nodes := nodes), w) {
      assert HasSource(cfg, last, src, o, w);
    }
  }

  predicate AllSourceAbsolute(src: seq<SourceNode>) {
    forall i | 0 <= i < |src| :: Absolute(src[i].path) == src[i].path
  }

  /** The nodes of the new index after the additions in `order`. */
  function NewNodes(cfg: Config, last: Option<seq<Node>>, src: seq<SourceNode>, o: Outcome, order: seq<nat>): seq<Node>
    requires forall t | 0 <= t < |order| :: order[t] < |src|
  {
    seq(|order|, t requires 0 <= t < |order| && order[t] < |src| =>
      Node(src[order[t]].path, AttributesFor(AsWritten, cfg, last, src, o, order[t])))
  }

  lemma NewNodesNext(cfg: Config, last: Option<seq<Node>>, src: seq<SourceNode>, o: Outcome, order: seq<nat>, t: nat)
    requires t < |order| && forall s | 0 <= s < |order| :: order[s] < |src|
    ensures NewNodes(cfg, last, src, o, order[..t + 1])
         == NewNodes(cfg, last, src, o, order[..t])
            + [Node(src[order[t]].path, AttributesFor(AsWritten, cfg, last, src, o, order[t]))]
  {
    assert order[..t + 1] == order[..t] + [order[t]];
  }

  lemma NotYetAdded(index: BackupNodeIndex, cfg: Config, last: Option<seq<Node>>, src: seq<SourceNode>, o: Outcome,
                    order: seq<nat>, t: nat)
    requires index.Valid() && ValidSource(src) && AllSourceAbsolute(src) && IsFullSchedule(order, |src|) && t < |order|
    requires index.View() == NewNodes(cfg, last, src, o, order[..t])
    ensures Absolute(src[order[t]].path) !in index.pathMap
  {
    var p, entries := src[order[t]].path, SourceEntries(src);
    assert entries[order[t]].path == p;
    forall j | 0 <= j < |index.paths| ensures index.paths[j] != p {
      assert index.View()[j].path == index.paths[j];
      assert entries[order[j]].path == src[order[j]].path;
    }
  }

  lemma NewNodesIndexed(cfg: Config, last: Option<seq<Node>>, src: seq<SourceNode>, o: Outcome, order: seq<nat>)
    requires IsFullSchedule(order, |src|) && ValidSource(src) && AllSourceAbsolute(src)
    requires Distinct(Entries(NewNodes(cfg, last, src, o, order)))
    ensures Indexed(AsWritten, cfg, last, src, o.(nodes := NewNodes(cfg, last, src, o, order)))
    ensures AllAbsolute(NewNodes(cfg, last, src, o, order))
  {
    var nodes := NewNodes(cfg, last, src, o, order);
    ScheduleLength(order, |src|);
    forall t | 0 <= t < |nodes| ensures IndexOf(SourceEntries(src), nodes[t].path).Some? {
      assert SourceEntries(src)[order[t]].path == nodes[t].path;
    }
    forall i | 0 <= i < |src|
      ensures Lookup(nodes, src[i].path) == Some(AttributesFor(AsWritten, cfg, last, src, o.(nodes := nodes), i))
    {
      NewNodeFound(cfg, last, src, o, order, i);
      AttributesIgnoreNodes(cfg, last, src, o, nodes, i);
    }
  }

  lemma AttributesIgnoreNodes(cfg: Config, last: Option<seq<Node>>, src: seq<SourceNode>, o: Outcome,
                              nodes: seq<Node>, i: nat)
    requires i < |src|
    ensures AttributesFor(AsWritten, cfg, last, src, o.(nodes := nodes), i)
         == AttributesFor(AsWritten, cfg, last, src, o, i)
  {
  }

  lemma NewNodeFound(cfg: Config, last: Option<seq<Node>>, src: seq<SourceNode>, o: Outcome, order: seq<nat>, i: nat)
    requires IsFullSchedule(order, |src|) && i < |src|
    requires Distinct(Entries(NewNodes(cfg, last, src, o, order)))
    ensures Lookup(NewNodes(cfg, last, src, o, order), src[i].path)
         == Some(AttributesFor(AsWritten, cfg, last, src, o, i))
  {
    assert i in order;
    var t :| 0 <= t < |order| && order[t] == i;
    LookupAt(NewNodes(cfg, last, src, o, order), t);
  }

  lemma ScheduleLength(order: seq<nat>, n: nat)
    requires IsFullSchedule(order, n)
    ensures |order| == n
  {
    var members := set i | 0 <= i < |order| :: order[i];
    DistinctMembers(order);
    MembersBelow(members, n);
    forall v: nat | v < n ensures v in members {
      assert v in order;
    }
    InitialSegment(n, members);
  }

  lemma {:induction false} DistinctMembers(order: seq<nat>)
    requires forall i, j | 0 <= i < j < |order| :: order[i] != order[j]
    ensures |set i | 0 <= i < |order| :: order[i]| == |order|
  {
    if order != [] {
      var n := |order| - 1;
      DistinctMembers(order[..n]);
      assert (set i | 0 <= i < |order| :: order[i]) == (set i | 0 <= i < n :: order[..n][i]) + {order[n]};
    }
  }

  lemma {:induction false} MembersBelow(members: set<nat>, n: nat)
    requires forall x | x in members :: x < n
    ensures |members| <= n
  {
    if n == 0 {
      assert members == {};
    } else {
      MembersBelow(members - {n - 1}, n - 1);
    }
  }

  lemma {:induction false} HashIndexInRange(nodes: seq<Node>, alg: HashAlgorithm)
    ensures forall h | h in HashIndex(nodes, alg) :: HashIndex(nodes, alg)[h] < |nodes|
  {
    if nodes != [] { HashIndexInRange(nodes[..|nodes| - 1], alg); }
  }
}
