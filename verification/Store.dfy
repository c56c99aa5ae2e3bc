/** Any number of writers interleaved over one pool, and what every reachable state satisfies. */
module Store {
  import opened Prelude
  import opened VolumePool

  /** Where a writer stands: between calls, or inside the loop of WriteBytes with `rest` still to write.
      Each arrow of the loop is one step: FindStream (locked), the offset query, the file write (both unlocked),
      BytesWereWritten (locked). In `Appended` the bytes are in the file and not yet in the index. */
  datatype Phase =
    | Idle
    | Ready(rest: Bytes)
    | Found(rest: Bytes, volume: nat, leftSize: nat)
    | Located(rest: Bytes, volume: nat, leftSize: nat, offset: nat)
    | Appended(rest: Bytes, volume: nat, offset: nat, n: nat)
    | Closed
  {
    function Rest(): Bytes {
      if Idle? || Closed? then [] else this.rest
    }

    predicate Holds() {
      Found? || Located? || Appended?
    }

    function InFlight(): nat {
      if Appended? then n else 0
    }
  }

  /** `requested` is everything ever passed to WriteBytes. */
  datatype Writer = Writer(phase: Phase, requested: Bytes)

  /** Writer `w` writes node `w`. */
  datatype State = State(pool: Pool, writers: seq<Writer>)

  datatype Step =
    | Create
    | Begin(w: nat, data: Bytes)
    | Find(w: nat)
    | Locate(w: nat)
    | Append(w: nat)
    | Record(w: nat)
    | Close(w: nat)

  function Live(writers: seq<Writer>): nat {
    if writers == [] then 0
    else Live(writers[..|writers| - 1]) + if writers[|writers| - 1].phase.Closed? then 0 else 1
  }

  function Initial(volumeSize: nat): State {
    State(Pool(volumeSize, [], [], []), [])
  }

  predicate Enabled(s: State, step: Step) {
    step.Create? ||
    (step.w < |s.writers| &&
     var phase := s.writers[step.w].phase;
     match step
     case Begin(_, _) => phase.Idle?
     case Find(_) => phase.Ready?
     case Locate(_) => phase.Found?
     case Append(_) => phase.Located?
     case Record(_) => phase.Appended?
     case Close(_) => phase.Idle?)
  }

  /** The head of the loop: the call returns when nothing is left. */
  function LoopHead(rest: Bytes): Phase {
    if rest == [] then Idle else Ready(rest)
  }

  function Moved(s: State, w: nat, pool: Pool, phase: Phase): State
    requires w < |s.writers|
  {
    s.(pool := pool, writers := s.writers[w := s.writers[w].(phase := phase)])
  }

  function Apply(s: State, step: Step): State
    requires Enabled(s, step)
  {
    match step
    case Create =>
      State(s.pool.(nodes := s.pool.nodes + [[]]), s.writers + [Writer(Idle, [])])
    case Begin(w, data) =>
      s.(writers := s.writers[w := Writer(LoopHead(data), s.writers[w].requested + data)])
    case Find(w) =>
      var (pool, stream) := FindStream(s.pool, w);
      Moved(s, w, pool, Found(s.writers[w].phase.rest, stream.volume, stream.leftSize))
    case Locate(w) =>
      var phase := s.writers[w].phase;
      Moved(s, w, s.pool, Located(phase.rest, phase.volume, phase.leftSize, FileLength(s.pool, phase.volume)))
    case Append(w) =>
      var phase := s.writers[w].phase;
      var n := ChunkSize(phase.leftSize, |phase.rest|);
      Moved(s, w, AppendToFile(s.pool, phase.volume, phase.rest[..n]),
            Appended(phase.rest, phase.volume, phase.offset, n))
    case Record(w) =>
      var phase := s.writers[w].phase;
      Moved(s, w, BytesWereWritten(s.pool, w, phase.offset, phase.n),
            LoopHead(phase.rest[Min(phase.n, |phase.rest|)..]))
    case Close(w) =>
      Moved(s, w, CloseFile(s.pool, w), Closed)
  }

  /** The state after a sequence of steps, if each of them was possible. */
  function Run(s: State, steps: seq<Step>): Option<State>
    decreases |steps|
  {
    if steps == [] then Some(s)
    else if Enabled(s, steps[0]) then Run(Apply(s, steps[0]), steps[1..])
    else None
  }

  /** The largest number of live writers at any moment of a run. */
  function Peak(s: State, steps: seq<Step>): nat
    decreases |steps|
  {
    if steps != [] && Enabled(s, steps[0]) then Max(Live(s.writers), Peak(Apply(s, steps[0]), steps[1..]))
    else Live(s.writers)
  }

  /** Everything a run passes to WriteBytes of writer `w`, in order. */
  function Asked(steps: seq<Step>, w: nat): Bytes
    decreases |steps|
  {
    if steps == [] then []
    else (if steps[0].Begin? && steps[0].w == w then steps[0].data else []) + Asked(steps[1..], w)
  }

  /** A volume that `w` holds, as an entry of the pool. */
  function Held(p: Pool, w: nat): OpenVolume
    requires FirstOwned(p.open, w) < |p.open|
  {
    p.open[FirstOwned(p.open, w)]
  }

  predicate Owns(p: Pool, w: nat) {
    FirstOwned(p.open, w) < |p.open|
  }

  predicate IsOpen(p: Pool, v: nat) {
    exists i | 0 <= i < |p.open| :: p.open[i].number == v
  }

  /** Pool entries: numbered in creation order, owned by distinct live writers. */
  predicate Shape(s: State) {
    var open := s.pool.open;
    && |s.writers| == |s.pool.nodes|
    && (forall i | 0 <= i < |open| :: open[i].number < |s.pool.files|)
    && (forall i, j | 0 <= i < j < |open| :: open[i].number < open[j].number)
    && (forall i | 0 <= i < |open| && open[i].owner.Some? ::
          open[i].owner.value < |s.writers| && !s.writers[open[i].owner.value].phase.Closed?)
    && (forall i, j | 0 <= i < j < |open| && open[i].owner.Some? :: open[i].owner != open[j].owner)
  }

  /** Bytes in an open volume's file that the pool has not yet subtracted from `leftSize`. */
  function Unrecorded(s: State, e: OpenVolume): nat {
    if e.owner.Some? && e.owner.value < |s.writers| then s.writers[e.owner.value].phase.InFlight() else 0
  }

  predicate EntryAccounted(s: State, e: OpenVolume) {
    && e.number < |s.pool.files|
    && Unrecorded(s, e) <= e.leftSize
    && |s.pool.files[e.number]| + e.leftSize == s.pool.volumeSize + Unrecorded(s, e)
    && (s.pool.volumeSize > 0 ==> e.leftSize > 0)
  }

  /** Capacity bookkeeping, including the window between file write and index update. */
  predicate Accounted(s: State) {
    && (forall i | 0 <= i < |s.pool.open| :: EntryAccounted(s, s.pool.open[i]))
    && (forall v | 0 <= v < |s.pool.files| && !IsOpen(s.pool, v) :: |s.pool.files[v]| == s.pool.volumeSize)
  }

  /** A writer inside the loop holds the volume it was given, and in the window its bytes end the file. */
  predicate PhaseOk(p: Pool, w: nat, phase: Phase) {
    && (phase.Holds() || phase.Ready? ==> phase.rest != [])
    && (phase.Holds() ==> Owns(p, w) && Held(p, w).number == phase.volume && phase.volume < |p.files|)
    && (phase.Found? || phase.Located? ==> phase.leftSize == Held(p, w).leftSize)
    && (phase.Located? ==> phase.offset == |p.files[phase.volume]|)
    && (phase.Appended? ==>
          && phase.n == ChunkSize(Held(p, w).leftSize, |phase.rest|)
          && phase.offset + phase.n == |p.files[phase.volume]|
          && p.files[phase.volume][phase.offset..] == phase.rest[..phase.n])
  }

  predicate Phased(s: State) {
    forall w | 0 <= w < |s.writers| :: PhaseOk(s.pool, w, s.writers[w].phase)
  }

  predicate Sound(s: State) {
    Shape(s) && Accounted(s) && Phased(s)
  }

  lemma CreateSound(s: State)
    requires Sound(s)
    ensures Sound(Apply(s, Create))
  {
    var t := Apply(s, Create);
    assert t.pool.open == s.pool.open && t.pool.files == s.pool.files;
    forall w | 0 <= w < |t.writers| ensures PhaseOk(t.pool, w, t.writers[w].phase) {
      if w < |s.writers| { assert PhaseOk(s.pool, w, s.writers[w].phase); }
    }
    forall i | 0 <= i < |t.pool.open| ensures EntryAccounted(t, t.pool.open[i]) {
      assert EntryAccounted(s, s.pool.open[i]);
    }
    forall v | 0 <= v < |t.pool.files| && !IsOpen(t.pool, v) ensures |t.pool.files[v]| == t.pool.volumeSize {
      assert !IsOpen(s.pool, v);
    }
  }

  /** A step of `w` that leaves the pool alone and stays outside the window. */
  lemma QuietStepSound(s: State, w: nat, x: Writer)
    requires Sound(s) && w < |s.writers|
    requires !s.writers[w].phase.Appended? && !x.phase.Appended? && !s.writers[w].phase.Closed? && !x.phase.Closed?
    requires PhaseOk(s.pool, w, x.phase)
    ensures Sound(s.(writers := s.writers[w := x]))
  {
    var t := s.(writers := s.writers[w := x]);
    forall i | 0 <= i < |t.pool.open| ensures EntryAccounted(t, t.pool.open[i]) {
      assert EntryAccounted(s, s.pool.open[i]);
    }
  }

  /** FirstOwned is determined by its contract. */
  lemma FirstOwnedIs(open: seq<OpenVolume>, w: nat, i: nat)
    requires i <= |open|
    requires i < |open| ==> open[i].owner == Some(w)
    requires forall j | 0 <= j < i :: open[j].owner != Some(w)
    ensures FirstOwned(open, w) == i
  {
  }

  lemma OthersAfterUpdate(open: seq<OpenVolume>, i: nat, e: OpenVolume, u: nat)
    requires i < |open| && open[i].owner != Some(u) && e.owner != Some(u)
    ensures FirstOwned(open[i := e], u) == FirstOwned(open, u)
  {
    FirstOwnedIs(open[i := e], u, FirstOwned(open, u));
  }

  lemma OthersAfterPush(open: seq<OpenVolume>, e: OpenVolume, u: nat)
    requires e.owner != Some(u)
    ensures FirstOwned(open, u) < |open| ==> FirstOwned(open + [e], u) == FirstOwned(open, u)
    ensures FirstOwned(open, u) == |open| ==> FirstOwned(open + [e], u) == |open| + 1
  {
    var a := FirstOwned(open, u);
    FirstOwnedIs(open + [e], u, if a < |open| then a else |open| + 1);
  }

  /** Dropping entry `i` keeps every other writer's entry. */
  lemma OthersAfterRemoval(open: seq<OpenVolume>, i: nat, u: nat)
    requires i < |open| && open[i].owner != Some(u)
    ensures FirstOwned(open, u) < |open| <==> FirstOwned(Without(open, i), u) < |Without(open, i)|
    ensures FirstOwned(open, u) < |open| ==>
              Without(open, i)[FirstOwned(Without(open, i), u)] == open[FirstOwned(open, u)]
  {
    var a := FirstOwned(open, u);
    FirstOwnedIs(Without(open, i), u, if a < i then a else a - 1);
  }

  /** The pool entries after a step: the same, one changed, one added or one removed. */
  lemma ShapeAfterUpdate(s: State, i: nat, e: OpenVolume, t: State)
    requires Shape(s) && i < |s.pool.open| && t.pool.open == s.pool.open[i := e] && e.number == s.pool.open[i].number
    requires |t.pool.files| == |s.pool.files| && |t.writers| == |s.writers| == |t.pool.nodes|
    requires e.owner.Some? ==> e.owner.value < |s.writers| && !t.writers[e.owner.value].phase.Closed?
    requires e.owner.Some? ==> forall j | 0 <= j < |s.pool.open| && j != i :: s.pool.open[j].owner != e.owner
    requires forall j | 0 <= j < |s.pool.open| && j != i && s.pool.open[j].owner.Some? ::
               !t.writers[s.pool.open[j].owner.value].phase.Closed?
    ensures Shape(t)
  {
  }

  lemma OpenAfterUpdate(s: State, i: nat, e: OpenVolume, t: State, v: nat)
    requires i < |s.pool.open| && t.pool.open == s.pool.open[i := e] && e.number == s.pool.open[i].number
    ensures IsOpen(t.pool, v) <==> IsOpen(s.pool, v)
  {
    if IsOpen(s.pool, v) {
      var j :| 0 <= j < |s.pool.open| && s.pool.open[j].number == v;
      assert t.pool.open[j].number == v;
    }
    if IsOpen(t.pool, v) {
      var j :| 0 <= j < |t.pool.open| && t.pool.open[j].number == v;
      assert s.pool.open[j].number == v;
    }
  }

  /** `t` is `s` after writer `w` moved and the pool entry `i`, its own or free before and after, became `e`. */
  predicate EntryUpdated(s: State, i: nat, e: OpenVolume, t: State, w: nat) {
    && i < |s.pool.open| && w < |s.writers|
    && t.pool.open == s.pool.open[i := e] && e.number == s.pool.open[i].number
    && t.pool.files == s.pool.files && t.pool.volumeSize == s.pool.volumeSize
    && (s.pool.open[i].owner == None || s.pool.open[i].owner == Some(w)) && (e.owner == None || e.owner == Some(w))
    && |t.writers| == |s.writers| && (forall u | 0 <= u < |s.writers| && u != w :: t.writers[u] == s.writers[u])
    && forall j | 0 <= j < |s.pool.open| && j != i :: s.pool.open[j].owner != Some(w)
  }

  lemma AccountedAfterUpdate(s: State, i: nat, e: OpenVolume, t: State, w: nat)
    requires Sound(s) && EntryUpdated(s, i, e, t, w) && EntryAccounted(t, e)
    ensures Accounted(t)
  {
    forall j | 0 <= j < |t.pool.open| ensures EntryAccounted(t, t.pool.open[j]) {
      assert EntryAccounted(s, s.pool.open[j]);
    }
    forall v | 0 <= v < |t.pool.files| && !IsOpen(t.pool, v) ensures |t.pool.files[v]| == t.pool.volumeSize {
      OpenAfterUpdate(s, i, e, t, v);
    }
  }

  lemma SoundAfterUpdate(s: State, i: nat, e: OpenVolume, t: State, w: nat)
    requires Sound(s) && Shape(t) && EntryUpdated(s, i, e, t, w)
    requires EntryAccounted(t, e) && PhaseOk(t.pool, w, t.writers[w].phase)
    ensures Sound(t)
  {
    AccountedAfterUpdate(s, i, e, t, w);
    forall u | 0 <= u < |t.writers| ensures PhaseOk(t.pool, u, t.writers[u].phase) {
      if u != w {
        assert PhaseOk(s.pool, u, s.writers[u].phase);
        OthersAfterUpdate(s.pool.open, i, e, u);
      }
    }
  }

  lemma FindFreeSound(s: State, w: nat)
    requires Sound(s) && Enabled(s, Find(w))
    requires !Owns(s.pool, w) && LastFree(s.pool.open) < |s.pool.open|
    ensures Sound(Apply(s, Find(w)))
  {
    var f := LastFree(s.pool.open);
    var t, e := Apply(s, Find(w)), s.pool.open[f].(owner := Some(w));
    FindFreeEffect(s, w, f, e, t);
    ShapeAfterUpdate(s, f, e, t);
    SoundAfterUpdate(s, f, e, t, w);
  }

  lemma FindFreeEffect(s: State, w: nat, f: nat, e: OpenVolume, t: State)
    requires Sound(s) && Enabled(s, Find(w)) && t == Apply(s, Find(w))
    requires !Owns(s.pool, w) && f == LastFree(s.pool.open) < |s.pool.open| && e == s.pool.open[f].(owner := Some(w))
    ensures EntryUpdated(s, f, e, t, w) && !t.writers[w].phase.Closed? && |t.pool.nodes| == |s.pool.nodes|
    ensures EntryAccounted(t, e) && PhaseOk(t.pool, w, t.writers[w].phase)
  {
    assert PhaseOk(s.pool, w, s.writers[w].phase) && EntryAccounted(s, s.pool.open[f]);
    FirstOwnedIs(t.pool.open, w, f);
  }

  lemma FindNewSound(s: State, w: nat)
    requires Sound(s) && Enabled(s, Find(w))
    requires !Owns(s.pool, w) && LastFree(s.pool.open) == |s.pool.open|
    ensures Sound(Apply(s, Find(w)))
  {
    var t := Apply(s, Find(w));
    FirstOwnedIs(t.pool.open, w, |s.pool.open|);
    assert PhaseOk(s.pool, w, s.writers[w].phase);
    NewVolumeShape(s, w, t);
    NewVolumeAccounted(s, w, t);
    forall u | 0 <= u < |t.writers| ensures PhaseOk(t.pool, u, t.writers[u].phase) {
      if u != w { NewVolumePhase(s, w, t.pool, u); }
    }
  }

  lemma NewVolumeAccounted(s: State, w: nat, t: State)
    requires Shape(s) && Accounted(s) && w < |s.writers| == |t.writers| && !Owns(s.pool, w)
    requires t.pool.open == s.pool.open + [OpenVolume(|s.pool.files|, s.pool.volumeSize, Some(w))]
    requires t.pool.files == s.pool.files + [[]] && t.pool.volumeSize == s.pool.volumeSize
    requires !t.writers[w].phase.Appended?
    requires forall u | 0 <= u < |s.writers| && u != w :: t.writers[u] == s.writers[u]
    ensures Accounted(t)
  {
    forall i | 0 <= i < |t.pool.open| ensures EntryAccounted(t, t.pool.open[i]) {
      if i < |s.pool.open| {
        assert s.pool.open[i].owner != Some(w);
        assert EntryAccounted(s, s.pool.open[i]);
      }
    }
    forall v | 0 <= v < |t.pool.files| && !IsOpen(t.pool, v) ensures |t.pool.files[v]| == t.pool.volumeSize {
      NewVolumeOpens(s, w, t, v);
    }
  }

  lemma NewVolumePhase(s: State, w: nat, p: Pool, u: nat)
    requires Phased(s) && u < |s.writers| && u != w
    requires p.open == s.pool.open + [OpenVolume(|s.pool.files|, s.pool.volumeSize, Some(w))]
    requires p.files == s.pool.files + [[]]
    ensures PhaseOk(p, u, s.writers[u].phase)
  {
    assert PhaseOk(s.pool, u, s.writers[u].phase);
    OthersAfterPush(s.pool.open, OpenVolume(|s.pool.files|, s.pool.volumeSize, Some(w)), u);
  }

  lemma NewVolumeShape(s: State, w: nat, t: State)
    requires Shape(s) && w < |s.writers| && !Owns(s.pool, w) && |t.writers| == |t.pool.nodes| == |s.writers|
    requires t.pool.open == s.pool.open + [OpenVolume(|s.pool.files|, s.pool.volumeSize, Some(w))]
    requires |t.pool.files| == |s.pool.files| + 1
    requires forall u | 0 <= u < |s.writers| :: t.writers[u].phase.Closed? ==> s.writers[u].phase.Closed? && u != w
    ensures Shape(t)
  {
  }

  lemma NewVolumeOpens(s: State, w: nat, t: State, v: nat)
    requires t.pool.open == s.pool.open + [OpenVolume(|s.pool.files|, s.pool.volumeSize, Some(w))]
    ensures IsOpen(t.pool, v) <==> IsOpen(s.pool, v) || v == |s.pool.files|
  {
    if IsOpen(s.pool, v) {
      var i :| 0 <= i < |s.pool.open| && s.pool.open[i].number == v;
      assert t.pool.open[i].number == v;
    }
    if v == |s.pool.files| { assert t.pool.open[|s.pool.open|].number == v; }
    if IsOpen(t.pool, v) && v != |s.pool.files| {
      var i :| 0 <= i < |t.pool.open| && t.pool.open[i].number == v;
      assert s.pool.open[i].number == v;
    }
  }

  lemma FindSound(s: State, w: nat)
    requires Sound(s) && Enabled(s, Find(w))
    ensures Sound(Apply(s, Find(w)))
  {
    var t := Apply(s, Find(w));
    if Owns(s.pool, w) {
      assert PhaseOk(s.pool, w, s.writers[w].phase);
      QuietStepSound(s, w, t.writers[w]);
    } else if LastFree(s.pool.open) < |s.pool.open| {
      FindFreeSound(s, w);
    } else {
      FindNewSound(s, w);
    }
  }

  lemma HoldersDiffer(s: State, u: nat, w: nat)
    requires Shape(s) && u != w && Owns(s.pool, u) && Owns(s.pool, w)
    ensures Held(s.pool, u).number != Held(s.pool, w).number
  {
    var i, j := FirstOwned(s.pool.open, u), FirstOwned(s.pool.open, w);
    assert i < j || j < i;
  }

  lemma EntryIsHeld(s: State, j: nat, w: nat)
    requires Shape(s) && Owns(s.pool, w) && j < |s.pool.open|
    ensures j == FirstOwned(s.pool.open, w)
            || (s.pool.open[j].number != Held(s.pool, w).number && s.pool.open[j].owner != Some(w))
  {
    var i := FirstOwned(s.pool.open, w);
    if i < j { assert s.pool.open[i].owner != s.pool.open[j].owner; }
  }

  lemma AppendSound(s: State, w: nat)
    requires Sound(s) && Enabled(s, Append(w))
    ensures Sound(Apply(s, Append(w)))
  {
    var t := Apply(s, Append(w));
    AppendAccounted(s, w, t);
    AppendPhased(s, w, t);
    SameEntriesShape(s, t);
  }

  lemma SameEntriesShape(s: State, t: State)
    requires Shape(s) && t.pool.open == s.pool.open && |t.pool.files| == |s.pool.files|
    requires |t.writers| == |t.pool.nodes| == |s.writers|
    requires forall u | 0 <= u < |s.writers| :: t.writers[u].phase.Closed? ==> s.writers[u].phase.Closed?
    ensures Shape(t)
  {
  }

  lemma AppendAccounted(s: State, w: nat, t: State)
    requires Sound(s) && Enabled(s, Append(w)) && t == Apply(s, Append(w))
    ensures Accounted(t)
  {
    var phase := s.writers[w].phase;
    assert PhaseOk(s.pool, w, phase);
    var v := phase.volume;
    assert |t.pool.files[v]| == |s.pool.files[v]| + t.writers[w].phase.n;
    forall j | 0 <= j < |t.pool.open| ensures EntryAccounted(t, t.pool.open[j]) {
      AppendEntry(s, w, t, j);
    }
    forall x | 0 <= x < |t.pool.files| && !IsOpen(t.pool, x) ensures |t.pool.files[x]| == t.pool.volumeSize {
      assert !IsOpen(s.pool, x) && x != v;
    }
  }

  lemma AppendEntry(s: State, w: nat, t: State, j: nat)
    requires Sound(s) && Enabled(s, Append(w)) && j < |s.pool.open| && PhaseOk(s.pool, w, s.writers[w].phase)
    requires t.pool.volumeSize == s.pool.volumeSize && |t.pool.files| == |s.pool.files|
    requires |t.writers| == |s.writers| && forall u | 0 <= u < |s.writers| && u != w :: t.writers[u] == s.writers[u]
    requires t.writers[w].phase.InFlight() <= Held(s.pool, w).leftSize
    requires var v := s.writers[w].phase.volume;
             |t.pool.files[v]| == |s.pool.files[v]| + t.writers[w].phase.InFlight()
             && forall x | 0 <= x < |s.pool.files| && x != v :: t.pool.files[x] == s.pool.files[x]
    ensures EntryAccounted(t, s.pool.open[j])
  {
    assert EntryAccounted(s, s.pool.open[j]);
    EntryIsHeld(s, j, w);
  }

  lemma AppendPhased(s: State, w: nat, t: State)
    requires Sound(s) && Enabled(s, Append(w)) && t == Apply(s, Append(w))
    ensures Phased(t)
  {
    assert PhaseOk(s.pool, w, s.writers[w].phase);
    forall u | 0 <= u < |t.writers| ensures PhaseOk(t.pool, u, t.writers[u].phase) {
      assert PhaseOk(s.pool, u, s.writers[u].phase);
      if u != w && s.writers[u].phase.Holds() { HoldersDiffer(s, u, w); }
    }
  }

  lemma RecordSound(s: State, w: nat)
    requires Sound(s) && Enabled(s, Record(w))
    ensures Sound(Apply(s, Record(w)))
  {
    assert PhaseOk(s.pool, w, s.writers[w].phase) && EntryAccounted(s, Held(s.pool, w));
    if Held(s.pool, w).leftSize == s.writers[w].phase.n {
      RecordFullSound(s, w);
    } else {
      RecordPartSound(s, w);
    }
  }

  lemma RecordPartEffect(s: State, w: nat, e: OpenVolume, t: State)
    requires Sound(s) && Enabled(s, Record(w)) && t == Apply(s, Record(w))
    requires Owns(s.pool, w) && s.writers[w].phase.n < Held(s.pool, w).leftSize
    requires e == Held(s.pool, w).(leftSize := Held(s.pool, w).leftSize - s.writers[w].phase.n)
    ensures t.pool.open == s.pool.open[FirstOwned(s.pool.open, w) := e]
    ensures t.pool.files == s.pool.files && t.pool.volumeSize == s.pool.volumeSize
    ensures |t.pool.nodes| == |s.pool.nodes| && t.writers == s.writers[w := t.writers[w]]
    ensures s.writers[w].phase.n <= |s.writers[w].phase.rest|
    ensures t.writers[w].phase == LoopHead(s.writers[w].phase.rest[s.writers[w].phase.n..])
  {
    assert PhaseOk(s.pool, w, s.writers[w].phase);
  }

  lemma RecordPartOk(s: State, w: nat, e: OpenVolume, t: State)
    requires Sound(s) && w < |s.writers| && s.writers[w].phase.Appended?
    requires Owns(s.pool, w) && s.writers[w].phase.n < Held(s.pool, w).leftSize
    requires e == Held(s.pool, w).(leftSize := Held(s.pool, w).leftSize - s.writers[w].phase.n)
    requires t.pool.files == s.pool.files && t.pool.volumeSize == s.pool.volumeSize && w < |t.writers|
    requires s.writers[w].phase.n <= |s.writers[w].phase.rest|
    requires t.writers[w].phase == LoopHead(s.writers[w].phase.rest[s.writers[w].phase.n..])
    ensures !t.writers[w].phase.Closed? && EntryAccounted(t, e) && PhaseOk(t.pool, w, t.writers[w].phase)
  {
    assert EntryAccounted(s, Held(s.pool, w));
  }

  lemma RecordPartSound(s: State, w: nat)
    requires Sound(s) && Enabled(s, Record(w))
    requires Owns(s.pool, w) && s.writers[w].phase.n < Held(s.pool, w).leftSize
    ensures Sound(Apply(s, Record(w)))
  {
    var e := Held(s.pool, w).(leftSize := Held(s.pool, w).leftSize - s.writers[w].phase.n);
    RecordPartEffect(s, w, e, Apply(s, Record(w)));
    RecordPartOk(s, w, e, Apply(s, Record(w)));
    PartSound(s, w, e, Apply(s, Record(w)));
  }

  lemma PartSound(s: State, w: nat, e: OpenVolume, t: State)
    requires Sound(s) && w < |s.writers| && Owns(s.pool, w)
    requires e.number == Held(s.pool, w).number && e.owner == Some(w)
    requires t.pool.open == s.pool.open[FirstOwned(s.pool.open, w) := e]
    requires t.pool.files == s.pool.files && t.pool.volumeSize == s.pool.volumeSize
    requires |t.writers| == |s.writers| && |t.pool.nodes| == |s.pool.nodes| && t.writers == s.writers[w := t.writers[w]]
    requires !t.writers[w].phase.Closed? && EntryAccounted(t, e) && PhaseOk(t.pool, w, t.writers[w].phase)
    ensures Sound(t)
  {
    HeldByOnlyOne(s, w);
    ShapeAfterUpdate(s, FirstOwned(s.pool.open, w), e, t);
    SoundAfterUpdate(s, FirstOwned(s.pool.open, w), e, t, w);
  }

  lemma HeldByOnlyOne(s: State, w: nat)
    requires Shape(s) && Owns(s.pool, w)
    ensures forall j | 0 <= j < |s.pool.open| && j != FirstOwned(s.pool.open, w) :: s.pool.open[j].owner != Some(w)
  {
    forall j | 0 <= j < |s.pool.open| && j != FirstOwned(s.pool.open, w) ensures s.pool.open[j].owner != Some(w) {
      EntryIsHeld(s, j, w);
    }
  }

  /** `t` is `s` after the volume of `w` left the pool. */
  predicate Dropped(s: State, w: nat, t: State) {
    && w < |s.writers| && Owns(s.pool, w)
    && t.pool.open == Without(s.pool.open, FirstOwned(s.pool.open, w))
    && t.pool.files == s.pool.files && t.pool.volumeSize == s.pool.volumeSize
    && |t.writers| == |s.writers| && forall u | 0 <= u < |s.writers| && u != w :: t.writers[u] == s.writers[u]
  }

  lemma RecordFullEffect(s: State, w: nat)
    requires Sound(s) && Enabled(s, Record(w))
    requires Owns(s.pool, w) && Held(s.pool, w).leftSize == s.writers[w].phase.n
    ensures Dropped(s, w, Apply(s, Record(w)))
    ensures !Apply(s, Record(w)).writers[w].phase.Holds() && !Apply(s, Record(w)).writers[w].phase.Closed?
    ensures PhaseOk(Apply(s, Record(w)).pool, w, Apply(s, Record(w)).writers[w].phase)
    ensures |Apply(s, Record(w)).pool.nodes| == |s.pool.nodes|
    ensures Held(s.pool, w).number < |s.pool.files|
    ensures |s.pool.files[Held(s.pool, w).number]| == s.pool.volumeSize
  {
    assert PhaseOk(s.pool, w, s.writers[w].phase);
    assert EntryAccounted(s, Held(s.pool, w));
  }

  lemma RecordFullSound(s: State, w: nat)
    requires Sound(s) && Enabled(s, Record(w))
    requires Owns(s.pool, w) && Held(s.pool, w).leftSize == s.writers[w].phase.n
    ensures Sound(Apply(s, Record(w)))
  {
    RecordFullEffect(s, w);
    DroppedSound(s, w, Apply(s, Record(w)));
  }

  lemma DroppedSound(s: State, w: nat, t: State)
    requires Sound(s) && Dropped(s, w, t) && |t.pool.nodes| == |s.pool.nodes|
    requires !t.writers[w].phase.Closed? && PhaseOk(t.pool, w, t.writers[w].phase)
    requires Held(s.pool, w).number < |s.pool.files|
    requires |s.pool.files[Held(s.pool, w).number]| == s.pool.volumeSize
    ensures Sound(t)
  {
    RemovalShape(s, w, t);
    RemovalAccounted(s, w, t);
    RemovalPhased(s, w, t);
  }

  lemma RemovalEntry(s: State, w: nat, t: State, j: nat)
    requires Sound(s) && Dropped(s, w, t) && j < |t.pool.open|
    ensures EntryAccounted(t, t.pool.open[j])
  {
    var i := FirstOwned(s.pool.open, w);
    var k := if j < i then j else j + 1;
    assert t.pool.open[j] == s.pool.open[k] && EntryAccounted(s, s.pool.open[k]);
    EntryIsHeld(s, k, w);
  }

  lemma RemovalAccounted(s: State, w: nat, t: State)
    requires Sound(s) && Dropped(s, w, t)
    requires Held(s.pool, w).number < |s.pool.files|
    requires |s.pool.files[Held(s.pool, w).number]| == s.pool.volumeSize
    ensures Accounted(t)
  {
    forall j | 0 <= j < |t.pool.open| ensures EntryAccounted(t, t.pool.open[j]) {
      RemovalEntry(s, w, t, j);
    }
    forall v | 0 <= v < |t.pool.files| && !IsOpen(t.pool, v) ensures |t.pool.files[v]| == t.pool.volumeSize {
      RemovalCloses(s, w, t, v);
    }
  }

  lemma RemovalPhased(s: State, w: nat, t: State)
    requires Sound(s) && Dropped(s, w, t) && PhaseOk(t.pool, w, t.writers[w].phase)
    ensures Phased(t)
  {
    forall u | 0 <= u < |t.writers| ensures PhaseOk(t.pool, u, t.writers[u].phase) {
      if u != w {
        assert PhaseOk(s.pool, u, s.writers[u].phase);
        forall j | 0 <= j < |s.pool.open| && j == FirstOwned(s.pool.open, w) ensures s.pool.open[j].owner != Some(u) {}
        OthersAfterRemoval(s.pool.open, FirstOwned(s.pool.open, w), u);
      }
    }
  }

  lemma RemovalCloses(s: State, w: nat, t: State, v: nat)
    requires Shape(s) && Owns(s.pool, w)
    requires t.pool.open == Without(s.pool.open, FirstOwned(s.pool.open, w))
    ensures IsOpen(t.pool, v) <==> IsOpen(s.pool, v) && v != Held(s.pool, w).number
  {
    var i := FirstOwned(s.pool.open, w);
    if v == s.pool.open[i].number {
      forall j | 0 <= j < |t.pool.open| ensures t.pool.open[j].number != v {
        assert t.pool.open[j] == s.pool.open[if j < i then j else j + 1];
      }
    } else {
      RemovalKeepsOpen(s.pool.open, i, v);
    }
  }

  lemma RemovalKeepsOpen(open: seq<OpenVolume>, i: nat, v: nat)
    requires i < |open| && open[i].number != v
    ensures (exists j | 0 <= j < |Without(open, i)| :: Without(open, i)[j].number == v)
       <==> (exists j | 0 <= j < |open| :: open[j].number == v)
  {
    if j :| 0 <= j < |open| && open[j].number == v {
      assert Without(open, i)[if j < i then j else j - 1].number == v;
    }
    if j :| 0 <= j < |Without(open, i)| && Without(open, i)[j].number == v {
      assert open[if j < i then j else j + 1].number == v;
    }
  }

  lemma RemovalOrdered(open: seq<OpenVolume>, i: nat, j: nat, k: nat)
    requires i < |open| && j < k < |open| - 1
    requires forall a, b | 0 <= a < b < |open| :: open[a].number < open[b].number
    requires forall a, b | 0 <= a < b < |open| && open[a].owner.Some? :: open[a].owner != open[b].owner
    ensures Without(open, i)[j].number < Without(open, i)[k].number
    ensures Without(open, i)[j].owner.Some? ==> Without(open, i)[j].owner != Without(open, i)[k].owner
  {
    var j', k' := if j < i then j else j + 1, if k < i then k else k + 1;
    assert Without(open, i)[j] == open[j'] && Without(open, i)[k] == open[k'];
  }

  lemma RemovalShape(s: State, w: nat, t: State)
    requires Shape(s) && Owns(s.pool, w) && |t.writers| == |t.pool.nodes| == |s.writers|
    requires t.pool.open == Without(s.pool.open, FirstOwned(s.pool.open, w))
    requires |t.pool.files| == |s.pool.files|
    requires forall u | 0 <= u < |s.writers| :: t.writers[u].phase.Closed? ==> s.writers[u].phase.Closed?
    ensures Shape(t)
  {
    var old', new', i := s.pool.open, t.pool.open, FirstOwned(s.pool.open, w);
    forall j, k | 0 <= j < k < |new'|
      ensures new'[j].number < new'[k].number
      ensures new'[j].owner.Some? ==> new'[j].owner != new'[k].owner
    {
      RemovalOrdered(old', i, j, k);
    }
    forall j | 0 <= j < |new'|
      ensures new'[j].number < |t.pool.files|
      ensures new'[j].owner.Some? ==>
                new'[j].owner.value < |t.writers| && !t.writers[new'[j].owner.value].phase.Closed?
    {
      assert new'[j] == old'[if j < i then j else j + 1];
    }
  }

  lemma CloseSound(s: State, w: nat)
    requires Sound(s) && Enabled(s, Close(w))
    ensures Sound(Apply(s, Close(w)))
  {
    var t := Apply(s, Close(w));
    var open, i := s.pool.open, FirstOwned(s.pool.open, w);
    if i < |open| {
      var e := open[i].(owner := None);
      HeldByOnlyOne(s, w);
      assert EntryAccounted(s, open[i]);
      ShapeAfterUpdate(s, i, e, t);
      SoundAfterUpdate(s, i, e, t, w);
    } else {
      CloseUnownedSound(s, w);
    }
  }

  lemma CloseUnownedSound(s: State, w: nat)
    requires Sound(s) && Enabled(s, Close(w)) && !Owns(s.pool, w)
    ensures Sound(Apply(s, Close(w)))
  {
    var t := Apply(s, Close(w));
    assert t.pool == s.pool;
    forall j | 0 <= j < |t.pool.open| ensures EntryAccounted(t, t.pool.open[j]) {
      assert EntryAccounted(s, s.pool.open[j]);
    }
  }

  lemma StepSound(s: State, step: Step)
    requires Sound(s) && Enabled(s, step)
    ensures Sound(Apply(s, step))
  {
    match step
    case Create => CreateSound(s);
    case Begin(w, data) => QuietStepSound(s, w, Apply(s, step).writers[w]);
    case Find(w) => FindSound(s, w);
    case Locate(w) =>
      assert PhaseOk(s.pool, w, s.writers[w].phase);
      QuietStepSound(s, w, Apply(s, step).writers[w]);
    case Append(w) => AppendSound(s, w);
    case Record(w) => RecordSound(s, w);
    case Close(w) => CloseSound(s, w);
  }
}
