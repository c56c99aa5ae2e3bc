/** Backups can always be made: for any valid sources and any volume size between 1 and 2^32 - 1 there is a run. So the
    runs with stale targets exist. */
module RunsExist {
  import opened Prelude
  import opened Store
  import opened StoreTheorems
  import opened Progress
  import opened Nodes
  import opened Snapshots
  import opened SnapshotChain
  import opened SnapshotManager
  import opened StaleTargets

  // ----- The writers of a backup can end -----

  /** A call goes round until nothing is left, if no other writer moves meanwhile. */
  lemma {:induction false} CallEnds(s: State, w: nat) returns (steps: seq<Step>, t: State)
    requires Sound(s) && IsPracticalSize(s.pool.volumeSize) && Enabled(s, Find(w))
    ensures Run(s, steps) == Some(t) && t.writers == s.writers[w := Writer(Idle, s.writers[w].requested)]
    decreases |s.writers[w].phase.rest|
  {
    var four := [Find(w), Locate(w), Append(w), Record(w)];
    var r := FlatVolumes.Round(s.pool, w, s.writers[w].phase.rest);
    var m := Moved(s, w, r.0, LoopHead(r.1));
    RoundIsFourSteps(s, w);
    RoundShrinks(s, w);
    RoundSound(s, w, m);
    if r.1 == [] {
      steps, t := four, m;
    } else {
      var rest;
      rest, t := CallEnds(m, w);
      RunAppend(s, four, rest, m);
      steps := four + rest;
    }
  }

  /** One more writer writes `data`. */
  lemma OneMoreWriter(volumeSize: nat, steps: seq<Step>, s: State, data: Bytes) returns (after: seq<Step>, t: State)
    requires IsPracticalSize(volumeSize) && Reaches(volumeSize, steps, s)
    ensures Reaches(volumeSize, after, t) && t.writers == s.writers + [Writer(Idle, data)]
  {
    var w, created := |s.writers|, Apply(s, Create);
    Extend(volumeSize, steps, s, Create);
    InitialGood(volumeSize);
    RunSound(Initial(volumeSize), steps, s);
    var begun := Apply(created, Begin(w, data));
    Extend(volumeSize, steps + [Create], created, Begin(w, data));
    after, t := steps + [Create] + [Begin(w, data)], begun;
    assert [] + data == data;
    assert begun.writers == s.writers + [Writer(LoopHead(data), data)];
    if data != [] {
      RunSound(Initial(volumeSize), after, begun);
      RunKeepsVolumeSize(Initial(volumeSize), after, begun);
      var rest;
      rest, t := CallEnds(begun, w);
      RunAppend(Initial(volumeSize), after, rest, begun);
      after := after + rest;
    }
  }

  /** Writer `w` writes `contents[w]`. */
  lemma {:induction false} AllWritersEnd(volumeSize: nat, contents: seq<Bytes>) returns (steps: seq<Step>, t: State)
    requires IsPracticalSize(volumeSize)
    ensures Reaches(volumeSize, steps, t) && |t.writers| == |contents|
    ensures forall w | 0 <= w < |contents| :: t.writers[w] == Writer(Idle, contents[w])
    decreases |contents|
  {
    if contents == [] {
      steps, t := [], Initial(volumeSize);
    } else {
      var n := |contents| - 1;
      var before, s := AllWritersEnd(volumeSize, contents[..n]);
      steps, t := OneMoreWriter(volumeSize, before, s, contents[n]);
    }
  }

  // ----- A backup can be completed -----

  /** The first `n` source nodes that are backed up with data, without the others. */
  function NewFiles(cfg: Config, last: Option<seq<Node>>, src: seq<SourceNode>, n: nat): (ids: seq<nat>)
    requires n <= |src|
    ensures forall w | 0 <= w < |ids| :: ids[w] < n && IsNewFile(cfg, last, src, ids[w])
    ensures forall w, x | 0 <= w < x < |ids| :: ids[w] < ids[x]
    ensures forall i | 0 <= i < n && IsNewFile(cfg, last, src, i) :: i in ids
  {
    if n == 0 then []
    else
      var ids := NewFiles(cfg, last, src, n - 1);
      if IsNewFile(cfg, last, src, n - 1) then ids + [n - 1] else ids
  }

  /** Each of these nodes gets the writer at its position. */
  function WriterOf(src: seq<SourceNode>, ids: seq<nat>): map<Path, nat>
    requires forall w | 0 <= w < |ids| :: ids[w] < |src|
    requires forall w, x | 0 <= w < x < |ids| :: src[ids[w]].path != src[ids[x]].path
  {
    map w | 0 <= w < |ids| :: src[ids[w]].path := w
  }

  lemma WriterOfIs(src: seq<SourceNode>, ids: seq<nat>, w: nat)
    requires forall w | 0 <= w < |ids| :: ids[w] < |src|
    requires forall w, x | 0 <= w < x < |ids| :: src[ids[w]].path != src[ids[x]].path
    requires w < |ids|
    ensures src[ids[w]].path in WriterOf(src, ids) && WriterOf(src, ids)[src[ids[w]].path] == w
  {
  }

  lemma PathsDiffer(src: seq<SourceNode>)
    requires ValidSource(src)
    ensures forall i, j | 0 <= i < |src| && 0 <= j < |src| && i != j :: src[i].path != src[j].path
  {
    assert forall i | 0 <= i < |src| :: SourceEntries(src)[i].path == src[i].path;
  }

  /** `o` has a writer for each new file, which wrote its stored form. */
  predicate Assembled(cfg: Config, last: Option<seq<Node>>, src: seq<SourceNode>, o: Outcome) {
    var ids := NewFiles(cfg, last, src, |src|);
    && (forall w, x | 0 <= w < x < |ids| :: src[ids[w]].path != src[ids[x]].path)
    && o.writer == WriterOf(src, ids) && |o.store.writers| == |ids|
    && (forall w | 0 <= w < |ids| ::
          o.store.writers[w] == Writer(Idle, StoredForm(cfg, src[ids[w]], RateOf(o, src[ids[w]].path))))
  }

  lemma AssembledWrote(cfg: Config, last: Option<seq<Node>>, src: seq<SourceNode>, o: Outcome, i: nat) returns (w: nat)
    requires Reaches(o.volumeSize, o.steps, o.store) && Assembled(cfg, last, src, o)
    requires i < |src| && IsNewFile(cfg, last, src, i)
    ensures WroteNode(cfg, src[i], o) && NewFiles(cfg, last, src, |src|)[o.writer[src[i].path]] == i
  {
    var ids := NewFiles(cfg, last, src, |src|);
    w := PositionOf(ids, i);
    WriterOfIs(src, ids, w);
    AskedIsRequested(o, w);
  }

  lemma PositionOf(ids: seq<nat>, i: nat) returns (w: nat)
    requires i in ids
    ensures w < |ids| && ids[w] == i
  {
    w :| 0 <= w < |ids| && ids[w] == i;
  }

  lemma AskedIsRequested(o: Outcome, w: nat)
    requires Reaches(o.volumeSize, o.steps, o.store) && w < |o.store.writers|
    ensures Asked(o.steps, w) == o.store.writers[w].requested
  {
    AskedOf(Initial(o.volumeSize), o.steps, o.store, w);
  }

  lemma AssembledCompleted(cfg: Config, last: Option<seq<Node>>, src: seq<SourceNode>, o: Outcome)
    requires Reaches(o.volumeSize, o.steps, o.store) && Assembled(cfg, last, src, o)
    ensures Completed(cfg, last, src, o)
  {
    forall i | 0 <= i < |src| && IsNewFile(cfg, last, src, i)
      ensures WroteNode(cfg, src[i], o) && NewFiles(cfg, last, src, |src|)[o.writer[src[i].path]] == i
    {
      var w := AssembledWrote(cfg, last, src, o, i);
    }
    var ids := NewFiles(cfg, last, src, |src|);
    forall w | 0 <= w < |o.store.writers| ensures HasSource(cfg, last, src, o, w) {
      WriterOfIs(src, ids, w);
      assert IsNewFile(cfg, last, src, ids[w]);
    }
  }

  /** The threads of a backup can end, whatever rates and flags they meet. */
  lemma BackupCanEnd(cfg: Config, last: Option<seq<Node>>, src: seq<SourceNode>, volumeSize: nat,
                     rate: map<Path, real>, flags: map<Path, bool>) returns (o: Outcome)
    requires ValidSource(src) && IsPracticalSize(volumeSize)
    ensures Completed(cfg, last, src, o)
    ensures o.volumeSize == volumeSize && o.rate == rate && o.uninitialised == flags
  {
    var ids := NewFiles(cfg, last, src, |src|);
    o := Outcome(volumeSize, [], Initial(volumeSize), map[], rate, flags, []);
    var contents := seq(|ids|, w requires 0 <= w < |ids| =>
                                 StoredForm(cfg, src[ids[w]], RateOf(o, src[ids[w]].path)));
    var steps, t := AllWritersEnd(volumeSize, contents);
    PathsDiffer(src);
    o := o.(steps := steps, store := t, writer := WriterOf(src, ids));
    AssembledCompleted(cfg, last, src, o);
  }

  /** AddSnapshot goes on from threads that have ended: the index can be filled. */
  lemma CanAdd(cfg: Config, last: Option<seq<Node>>, src: seq<SourceNode>, o: Outcome)
    returns (done: Outcome, snap: Snapshot)
    requires ValidSource(src) && AllSourceAbsolute(src) && Completed(cfg, last, src, o)
    ensures Added(AsWritten, cfg, last, src, done, snap) && done == o.(nodes := done.nodes)
  {
    var order := seq(|src|, i => i);
    forall t | 0 <= t < |src| ensures t in order {
      assert order[t] == t;
    }
    var nodes := NewNodes(cfg, last, src, o, order);
    forall i, j | 0 <= i < j < |nodes| ensures Entries(nodes)[i].path != Entries(nodes)[j].path {
      assert SourceEntries(src)[i].path != SourceEntries(src)[j].path;
    }
    NewNodesIndexed(cfg, last, src, o, order);
    done, snap := o.(nodes := nodes), Snapshot(RereadAll(nodes), o.store.pool.files);
    CompletedIgnoresNodes(cfg, last, src, o, nodes);
  }

  // ----- Whole runs -----

  predicate AllValid(sources: seq<seq<SourceNode>>) {
    forall k | 0 <= k < |sources| :: ValidSource(sources[k]) && AllSourceAbsolute(sources[k])
  }

  /** Any valid sources can be backed up, one after the other. */
  lemma {:induction false} RunExists(cfg: Config, sources: seq<seq<SourceNode>>, volumeSize: nat)
    returns (outcomes: seq<Outcome>, chain: seq<Snapshot>)
    requires AllValid(sources) && IsPracticalSize(volumeSize)
    ensures IsRun(AsWritten, cfg, sources, outcomes, chain)
    ensures forall k | 0 <= k < |outcomes| :: outcomes[k].volumeSize == volumeSize
    decreases |sources|
  {
    if sources == [] {
      outcomes, chain := [], [];
    } else {
      var n := |sources| - 1;
      outcomes, chain := RunExists(cfg, sources[..n], volumeSize);
      var last := LastNodes(chain, n);
      var o := BackupCanEnd(cfg, last, sources[n], volumeSize, map[], map[]);
      var snap;
      o, snap := CanAdd(cfg, last, sources[n], o);
      RunGrows(AsWritten, cfg, sources[..n], outcomes, chain, sources[n], o, snap);
      outcomes, chain := outcomes + [o], chain + [snap];
      assert sources[..n] + [sources[n]] == sources;
    }
  }

  lemma MovedAwayRunExists(cfg: Config) returns (outcomes: seq<Outcome>, chain: seq<Snapshot>)
    requires GoodCodec(cfg)
    ensures IsRun(AsWritten, cfg, MOVED_AWAY, outcomes, chain)
  {
    MovedAwayEnvironment(cfg);
    forall k | 0 <= k < 3 ensures ValidSource(MOVED_AWAY[k]) && AllSourceAbsolute(MOVED_AWAY[k]) {
      assert EnvironmentAt(cfg, MOVED_AWAY, k);
    }
    outcomes, chain := RunExists(cfg, MOVED_AWAY, 10);
  }

  lemma ReplacedRunExists(cfg: Config) returns (outcomes: seq<Outcome>, chain: seq<Snapshot>)
    requires GoodCodec(cfg) && cfg.hash(X) != cfg.hash(Y)
    ensures IsRun(AsWritten, cfg, REPLACED, outcomes, chain)
  {
    ReplacedEnvironment(cfg);
    forall k | 0 <= k < 3 ensures ValidSource(REPLACED[k]) && AllSourceAbsolute(REPLACED[k]) {
      assert EnvironmentAt(cfg, REPLACED, k);
    }
    outcomes, chain := RunExists(cfg, REPLACED, 10);
  }
}
