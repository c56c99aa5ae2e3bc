/** The shared part of the flat-volume store and its atomic sections, as functions on values
    (FlatVolumesFileSystem: the `writing` state, the volume files and the index it fills). */
module VolumePool {
  import opened Prelude
  import Blocks

  /** A volume being filled; `owner` is the writer (its node index) that may write to it now. */
  datatype OpenVolume = OpenVolume(number: nat, leftSize: nat, owner: Option<nat>)

  /** `files[v]` is the content of volume file `v`; volumes are numbered in creation order, so `|files|` is the
      next volume number. `nodes[w]` are the blocks recorded for node `w`. */
  datatype Pool = Pool(volumeSize: nat, files: seq<Bytes>, open: seq<OpenVolume>, nodes: seq<seq<Blocks.Block>>)

  /** What FindStream gives its caller. */
  datatype Stream = Stream(volume: nat, leftSize: nat)

  /** Position of the first open volume owned by `w`, or the length. */
  function FirstOwned(open: seq<OpenVolume>, w: nat): (i: nat)
    ensures i <= |open|
    ensures i < |open| ==> open[i].owner == Some(w)
    ensures forall j | 0 <= j < i :: open[j].owner != Some(w)
  {
    if open == [] || open[0].owner == Some(w) then 0 else 1 + FirstOwned(open[1..], w)
  }

  /** Position of the last open volume without owner, or the length. */
  function LastFree(open: seq<OpenVolume>): (i: nat)
    ensures i <= |open|
    ensures i < |open| ==> open[i].owner == None && forall j | i < j < |open| :: open[j].owner != None
    ensures i == |open| ==> forall j | 0 <= j < |open| :: open[j].owner != None
  {
    if open == [] then 0
    else if open[|open| - 1].owner == None then |open| - 1
    else
      var i := LastFree(open[..|open| - 1]);
      if i == |open| - 1 then |open| else i
  }

  /** The writer's own volume, else the last free one, else a new one. */
  function FindStream(p: Pool, w: nat): (Pool, Stream) {
    var i := FirstOwned(p.open, w);
    if i < |p.open| then
      (p, Stream(p.open[i].number, p.open[i].leftSize))
    else
      var f := LastFree(p.open);
      if f < |p.open| then
        (p.(open := p.open[f := p.open[f].(owner := Some(w))]), Stream(p.open[f].number, p.open[f].leftSize))
      else
        (p.(files := p.files + [[]], open := p.open + [OpenVolume(|p.files|, p.volumeSize, Some(w))]),
         Stream(|p.files|, p.volumeSize))
  }

  /** The choice, told by the entries alone: a volume owned by the writer, the first if there were several; without one
      the last volume nobody owns, which then is the writer's; without that a new, empty one of full size. */
  lemma FindStreamExactly(p: Pool, w: nat)
    ensures forall i | 0 <= i < |p.open| && p.open[i].owner == Some(w)
                       && (forall j | 0 <= j < i :: p.open[j].owner != Some(w)) ::
              FindStream(p, w) == (p, Stream(p.open[i].number, p.open[i].leftSize))
    ensures (forall i | 0 <= i < |p.open| :: p.open[i].owner != Some(w)) ==>
              forall i | 0 <= i < |p.open| && p.open[i].owner == None
                         && (forall j | i < j < |p.open| :: p.open[j].owner != None) ::
                FindStream(p, w) == (p.(open := p.open[i := p.open[i].(owner := Some(w))]),
                                     Stream(p.open[i].number, p.open[i].leftSize))
    ensures (forall i | 0 <= i < |p.open| :: p.open[i].owner != Some(w) && p.open[i].owner != None) ==>
              FindStream(p, w) == (p.(files := p.files + [[]],
                                      open := p.open + [OpenVolume(|p.files|, p.volumeSize, Some(w))]),
                                   Stream(|p.files|, p.volumeSize))
  {
    forall i | 0 <= i < |p.open| && p.open[i].owner == None && (forall j | i < j < |p.open| :: p.open[j].owner != None)
      ensures LastFree(p.open) == i
    {
      var f := LastFree(p.open);
      assert !(f < i) && !(i < f < |p.open|);
    }
  }

  function FileLength(p: Pool, v: nat): nat {
    if v < |p.files| then |p.files[v]| else 0
  }

  /** A write at the current end of volume file `v`. */
  function AppendToFile(p: Pool, v: nat, data: Bytes): Pool {
    if v < |p.files| then p.(files := p.files[v := p.files[v] + data]) else p
  }

  /** How many bytes one round of WriteBytes writes: both operands of the minimum are 32 bits wide. */
  function ChunkSize(leftSize: nat, wanted: nat): (n: nat)
    ensures n <= leftSize && n <= wanted
  {
    Min(Truncate32(leftSize), wanted)
  }

  /** `leftSize -= n` on a `uint64`. */
  function Subtract64(leftSize: nat, n: nat): nat {
    if n <= leftSize then leftSize - n else (leftSize - n) % UINT64_RANGE
  }

  function Without(open: seq<OpenVolume>, i: nat): seq<OpenVolume>
    requires i < |open|
  {
    open[..i] + open[i + 1..]
  }

  /** The index learns of `n` bytes written at `offset` of the writer's volume; a full volume leaves the pool. */
  function BytesWereWritten(p: Pool, w: nat, offset: nat, n: nat): Pool {
    var i := FirstOwned(p.open, w);
    if i < |p.open| && w < |p.nodes| then
      var left := Subtract64(p.open[i].leftSize, n);
      p.(nodes := p.nodes[w := Blocks.Recorded(p.nodes[w], Blocks.Block(p.open[i].number, offset, n))],
         open := if left == 0 then Without(p.open, i) else p.open[i := p.open[i].(leftSize := left)])
    else
      p
  }

  /** The writer's volume becomes free. */
  function CloseFile(p: Pool, w: nat): Pool {
    var i := FirstOwned(p.open, w);
    if i < |p.open| then p.(open := p.open[i := p.open[i].(owner := None)]) else p
  }
}
