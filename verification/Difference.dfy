/** NodeIndexDifferenceResolver: what changed between the last index and the source. */
module Difference {
  import opened Nodes

  /** `deleted` refers to the left index, the others to the right one; `moved` maps right to left. */
  datatype Differences = Differences(
    deleted: set<nat>, differentData: set<nat>, differentMetadata: set<nat>, moved: map<nat, nat>)
  {
    predicate Exist() {
      !(deleted == {} && differentData == {} && differentMetadata == {} && moved == map[])
    }
  }

  /** Node `i` of one index has no node with the same path and equal facts in the other. */
  predicate Differs(entries: seq<Entry>, other: seq<Entry>, i: nat)
    requires i < |entries|
  {
    var j := IndexOf(other, entries[i].path);
    j.None? || entries[i].facts != other[j.value].facts
  }

  function Different(entries: seq<Entry>, other: seq<Entry>): set<nat> {
    set i | 0 <= i < |entries| && Differs(entries, other, i)
  }

  function Deleted(left: seq<Entry>, right: seq<Entry>): set<nat> {
    set i | 0 <= i < |left| && IndexOf(right, left[i].path).None?
  }

  datatype Kind = Unchanged | NewData | MetadataOnly | MovedFrom(left: nat)

  /** What becomes of node `i` of the right index. */
  function KindOf(left: seq<Entry>, hashIndex: map<string, nat>, right: seq<Entry>, hashes: seq<string>, i: nat): Kind
    requires i < |right| == |hashes|
  {
    if !Differs(right, left, i) then Unchanged
    else if right[i].facts.fileType.Directory? then NewData
    else
      var l := FindByHash(hashIndex, hashes[i]);
      if l == NOT_FOUND || l >= |left| then NewData
      else if left[l].path == right[i].path then MetadataOnly
      else MovedFrom(l)
  }

  /** The four result sets, defined outright. */
  function Resolved(left: seq<Entry>, hashIndex: map<string, nat>, right: seq<Entry>, hashes: seq<string>): Differences
    requires |right| == |hashes|
  {
    var moved := map i | 0 <= i < |right| && KindOf(left, hashIndex, right, hashes, i).MovedFrom? ::
                   KindOf(left, hashIndex, right, hashes, i).left;
    Differences(
      Deleted(left, right) - moved.Values,
      (set i | 0 <= i < |right| && KindOf(left, hashIndex, right, hashes, i).NewData?),
      (set i | 0 <= i < |right| && KindOf(left, hashIndex, right, hashes, i).MetadataOnly?),
      moved)
  }

  /** The order in which the pool's threads reach the critical section of their tasks: each task once. */
  predicate IsSchedule(order: seq<nat>, tasks: set<nat>) {
    (forall i | 0 <= i < |order| :: order[i] in tasks)
    && (forall t | t in tasks :: t in order)
    && (forall i, j | 0 <= i < j < |order| :: order[i] != order[j])
  }

  predicate IsFullSchedule(order: seq<nat>, n: nat) {
    (forall i | 0 <= i < |order| :: order[i] < n)
    && (forall t | 0 <= t < n :: t in order)
    && (forall i, j | 0 <= i < j < |order| :: order[i] != order[j])
  }

  method ComputeDifference(entries: seq<Entry>, other: seq<Entry>, order: seq<nat>) returns (diff: set<nat>)
    requires IsFullSchedule(order, |entries|)
    ensures diff == Different(entries, other)
  {
    diff := {};
    for k := 0 to |order|
      invariant diff == set i | i in order[..k] && i < |entries| && Differs(entries, other, i)
    {
      var i := order[k];
      var otherIndex := IndexOf(other, entries[i].path);
      var included := false;
      if otherIndex.Some? {
        if entries[i].facts != other[otherIndex.value].facts {
          included := true;
        }
      } else {
        included := true;
      }
      if included {
        diff := diff + {i};
      }
      assert order[..k + 1] == order[..k] + [i];
    }
    assert order[..|order|] == order;
  }

  method ComputeDeleted(left: seq<Entry>, right: seq<Entry>, indexes: set<nat>) returns (deleted: set<nat>)
    requires indexes == Different(left, right)
    ensures deleted == Deleted(left, right)
  {
    deleted := {};
    var todo := indexes;
    while todo != {}
      invariant todo <= indexes
      invariant deleted == set i | i in indexes - todo && IndexOf(right, left[i].path).None?
      decreases todo
    {
      var index :| index in todo;
      todo := todo - {index};
      if IndexOf(right, left[index].path).None? {
        deleted := deleted + {index};
      }
    }
  }

  /** Fills the three sets of the right index; `order` is the order of the critical sections. */
  method ComputeNodeDifferences(start: Differences, left: seq<Entry>, hashIndex: map<string, nat>,
                                right: seq<Entry>, hashes: seq<string>, rightToLeftDiffs: set<nat>, order: seq<nat>)
    returns (d: Differences)
    requires |right| == |hashes| && rightToLeftDiffs == Different(right, left) && IsSchedule(order, rightToLeftDiffs)
    requires start.differentData == {} && start.differentMetadata == {} && start.moved == map[]
    requires forall h | h in hashIndex :: hashIndex[h] < |left| <= NOT_FOUND
    ensures d == Resolved(left, hashIndex, right, hashes).(deleted := start.deleted)
  {
    d := start;
    for k := 0 to |order|
      invariant d == Partly(start, left, hashIndex, right, hashes, order[..k])
    {
      var index := order[k];
      assert index in rightToLeftDiffs;
      if right[index].facts.fileType.Directory? {
        d := d.(differentData := d.differentData + {index});
      } else {
        var l := FindByHash(hashIndex, hashes[index]);
        if l == NOT_FOUND {
          d := d.(differentData := d.differentData + {index});
        } else if left[l].path == right[index].path {
          d := d.(differentMetadata := d.differentMetadata + {index});
        } else {
          d := d.(moved := d.moved[index := l]);
        }
      }
      assert order[..k + 1] == order[..k] + [index];
      PartlyNext(start, left, hashIndex, right, hashes, order[..k], index);
    }
    assert order[..|order|] == order;
    PartlyAll(start, left, hashIndex, right, hashes, order);
  }

  /** The sets after the nodes in `done`. */
  function Partly(start: Differences, left: seq<Entry>, hashIndex: map<string, nat>, right: seq<Entry>,
                  hashes: seq<string>, done: seq<nat>): Differences
    requires |right| == |hashes|
  {
    Differences(
      start.deleted,
      (set i | i in done && i < |right| && KindOf(left, hashIndex, right, hashes, i).NewData?),
      (set i | i in done && i < |right| && KindOf(left, hashIndex, right, hashes, i).MetadataOnly?),
      map i | i in done && i < |right| && KindOf(left, hashIndex, right, hashes, i).MovedFrom? ::
        KindOf(left, hashIndex, right, hashes, i).left)
  }

  lemma PartlyNext(start: Differences, left: seq<Entry>, hashIndex: map<string, nat>, right: seq<Entry>,
                   hashes: seq<string>, done: seq<nat>, i: nat)
    requires i < |right| == |hashes|
    ensures var p, q := Partly(start, left, hashIndex, right, hashes, done),
                        Partly(start, left, hashIndex, right, hashes, done + [i]);
            match KindOf(left, hashIndex, right, hashes, i)
            case Unchanged => q == p
            case NewData => q == p.(differentData := p.differentData + {i})
            case MetadataOnly => q == p.(differentMetadata := p.differentMetadata + {i})
            case MovedFrom(l) => q == p.(moved := p.moved[i := l])
  {
    assert forall j :: j in done + [i] <==> j in done || j == i;
  }

  lemma PartlyAll(start: Differences, left: seq<Entry>, hashIndex: map<string, nat>, right: seq<Entry>,
                  hashes: seq<string>, order: seq<nat>)
    requires |right| == |hashes| && IsSchedule(order, Different(right, left))
    ensures Partly(start, left, hashIndex, right, hashes, order)
         == Resolved(left, hashIndex, right, hashes).(deleted := start.deleted)
  {
    forall i | 0 <= i < |right| && !KindOf(left, hashIndex, right, hashes, i).Unchanged? ensures i in order {
      assert i in Different(right, left);
    }
  }

  method ResolveDifferences(left: seq<Entry>, hashIndex: map<string, nat>, right: seq<Entry>, hashes: seq<string>,
                            leftToRightDiffs: set<nat>, rightToLeftDiffs: set<nat>, order: seq<nat>)
    returns (d: Differences)
    requires |right| == |hashes| && leftToRightDiffs == Different(left, right)
    requires rightToLeftDiffs == Different(right, left) && IsSchedule(order, rightToLeftDiffs)
    requires forall h | h in hashIndex :: hashIndex[h] < |left| <= NOT_FOUND
    ensures d == Resolved(left, hashIndex, right, hashes)
  {
    var deleted := ComputeDeleted(left, right, leftToRightDiffs);
    d := ComputeNodeDifferences(Differences(deleted, {}, {}, map[]), left, hashIndex, right, hashes,
                                rightToLeftDiffs, order);
    var keys := d.moved.Keys;
    ghost var moved := d.moved;
    while keys != {}
      invariant keys <= moved.Keys && d.moved == moved
      invariant d == Resolved(left, hashIndex, right, hashes).(deleted := d.deleted)
      invariant d.deleted == deleted - (set i | i in moved.Keys - keys :: moved[i])
      decreases keys
    {
      var i :| i in keys;
      keys := keys - {i};
      d := d.(deleted := d.deleted - {d.moved[i]});
    }
    assert (set i | i in moved.Keys :: moved[i]) == moved.Values;
  }

  /** The whole comparison, for any three schedules of its tasks. */
  method ComputeDiff(left: seq<Entry>, hashIndex: map<string, nat>, right: seq<Entry>, hashes: seq<string>,
                     order1: seq<nat>, order2: seq<nat>, order3: seq<nat>)
    returns (d: Differences)
    requires |right| == |hashes|
    requires IsFullSchedule(order1, |left|) && IsFullSchedule(order2, |right|)
    requires IsSchedule(order3, Different(right, left))
    requires forall h | h in hashIndex :: hashIndex[h] < |left| <= NOT_FOUND
    ensures d == Resolved(left, hashIndex, right, hashes)
  {
    var leftToRightDiffs := ComputeDifference(left, right, order1);
    var rightToLeftDiffs := ComputeDifference(right, left, order2);
    d := ResolveDifferences(left, hashIndex, right, hashes, leftToRightDiffs, rightToLeftDiffs, order3);
  }

  /** A node differs exactly when the other index does not have its path with the same facts. */
  lemma DiffersExactly(entries: seq<Entry>, other: seq<Entry>, i: nat)
    requires Distinct(other) && i < |entries|
    ensures Differs(entries, other, i) <==> entries[i] !in other
  {
    if entries[i] in other {
      var j :| 0 <= j < |other| && other[j] == entries[i];
      IndexOfUnique(other, j);
    }
  }

  /** Two indexes list the same paths with equal facts. */
  ghost predicate Agree(left: seq<Entry>, right: seq<Entry>) {
    forall e: Entry :: e in left <==> e in right
  }

  lemma AgreeByNode(left: seq<Entry>, right: seq<Entry>)
    requires Distinct(left) && Distinct(right)
    ensures Agree(left, right)
       <==> (forall i | 0 <= i < |left| :: IndexOf(right, left[i].path).Some?)
            && (forall i | 0 <= i < |right| :: !Differs(right, left, i))
  {
    if Agree(left, right) {
      forall i | 0 <= i < |left| ensures IndexOf(right, left[i].path).Some? {
        assert left[i] in right;
      }
      forall i | 0 <= i < |right| ensures !Differs(right, left, i) {
        DiffersExactly(right, left, i);
      }
    }
    if (forall i | 0 <= i < |left| :: IndexOf(right, left[i].path).Some?)
       && (forall i | 0 <= i < |right| :: !Differs(right, left, i)) {
      forall i | 0 <= i < |left| ensures left[i] in right {
        var j := IndexOf(right, left[i].path).value;
        assert !Differs(right, left, j);
        IndexOfUnique(left, i);
      }
      forall i | 0 <= i < |right| ensures right[i] in left {
        DiffersExactly(right, left, i);
      }
    }
  }

  lemma AgreeingIsNotDifferent(left: seq<Entry>, right: seq<Entry>)
    requires Distinct(left) && Agree(left, right)
    ensures Different(right, left) == {}
  {
    forall i | 0 <= i < |right| ensures !Differs(right, left, i) {
      DiffersExactly(right, left, i);
    }
  }

  /** No difference is reported exactly when the indexes agree. */
  lemma NoDifferenceExactly(left: seq<Entry>, hashIndex: map<string, nat>, right: seq<Entry>, hashes: seq<string>)
    requires |right| == |hashes| && Distinct(left) && Distinct(right)
    ensures !Resolved(left, hashIndex, right, hashes).Exist() <==> Agree(left, right)
  {
    var d := Resolved(left, hashIndex, right, hashes);
    AgreeByNode(left, right);
    if !d.Exist() {
      forall i | 0 <= i < |right| ensures !Differs(right, left, i) {
        assert i !in d.differentData && i !in d.differentMetadata && i !in d.moved;
      }
      forall i | 0 <= i < |left| ensures IndexOf(right, left[i].path).Some? {
        assert i !in d.deleted;
      }
    }
    if Agree(left, right) {
      assert forall i | 0 <= i < |right| :: KindOf(left, hashIndex, right, hashes, i) == Unchanged;
      assert d.moved == map[];
    }
  }

  /** Of the nodes with the hash, the last. */
  predicate IsLastWithHash(nodes: seq<Node>, alg: HashAlgorithm, l: nat, hash: string) {
    HasHash(nodes, alg, l, hash) && forall m | l < m < |nodes| :: !HasHash(nodes, alg, m, hash)
  }

  predicate HashIsNew(nodes: seq<Node>, alg: HashAlgorithm, hash: string) {
    forall l | 0 <= l < |nodes| :: !HasHash(nodes, alg, l, hash)
  }

  /** Which kind a node is, told by paths, facts and hashes alone. */
  lemma KindExactly(nodes: seq<Node>, alg: HashAlgorithm, right: seq<Entry>, hashes: seq<string>, i: nat)
    requires i < |right| == |hashes| && |nodes| <= 0xFFFF_FFFF && Distinct(Entries(nodes))
    ensures var kind, e := KindOf(Entries(nodes), HashIndex(nodes, alg), right, hashes, i), right[i];
            && (kind.Unchanged? <==> e in Entries(nodes))
            && (kind.NewData? <==> e !in Entries(nodes)
                                   && (e.facts.fileType.Directory? || HashIsNew(nodes, alg, hashes[i])))
            && (kind.MetadataOnly? <==> e !in Entries(nodes) && !e.facts.fileType.Directory?
                                        && exists l | 0 <= l < |nodes| :: IsLastWithHash(nodes, alg, l, hashes[i])
                                                                          && nodes[l].path == e.path)
            && (forall l: nat :: kind == MovedFrom(l) <==>
                  e !in Entries(nodes) && !e.facts.fileType.Directory?
                  && IsLastWithHash(nodes, alg, l, hashes[i]) && nodes[l].path != e.path)
  {
    DiffersExactly(right, Entries(nodes), i);
    HashIndexExact(nodes, alg, hashes[i]);
    var r := FindByHash(HashIndex(nodes, alg), hashes[i]);
    forall l: nat ensures IsLastWithHash(nodes, alg, l, hashes[i]) <==> r != NOT_FOUND && l == r {
      if IsLastWithHash(nodes, alg, l, hashes[i]) && r != NOT_FOUND { assert !(l < r) && !(r < l); }
    }
    if r != NOT_FOUND { assert Entries(nodes)[r].path == nodes[r].path; }
  }

  /** The four result sets, told by paths, facts and hashes alone. */
  lemma DifferencesExactly(nodes: seq<Node>, alg: HashAlgorithm, right: seq<Entry>, hashes: seq<string>)
    requires |right| == |hashes| && |nodes| <= 0xFFFF_FFFF && Distinct(Entries(nodes))
    ensures var d := Resolved(Entries(nodes), HashIndex(nodes, alg), right, hashes);
            && (forall i: nat :: i in d.differentData <==>
                  i < |right| && right[i] !in Entries(nodes)
                  && (right[i].facts.fileType.Directory? || HashIsNew(nodes, alg, hashes[i])))
            && (forall i: nat :: i in d.differentMetadata <==>
                  i < |right| && right[i] !in Entries(nodes) && !right[i].facts.fileType.Directory?
                  && exists l | 0 <= l < |nodes| :: IsLastWithHash(nodes, alg, l, hashes[i])
                                                    && nodes[l].path == right[i].path)
            && (forall i: nat, l: nat :: i in d.moved && d.moved[i] == l <==>
                  i < |right| && right[i] !in Entries(nodes) && !right[i].facts.fileType.Directory?
                  && IsLastWithHash(nodes, alg, l, hashes[i]) && nodes[l].path != right[i].path)
            && (forall l: nat :: l in d.deleted <==>
                  l < |nodes| && (forall i | 0 <= i < |right| :: right[i].path != nodes[l].path)
                  && forall i | i in d.moved :: d.moved[i] != l)
  {
    forall i | 0 <= i < |right| {
      KindExactly(nodes, alg, right, hashes, i);
    }
    forall l | 0 <= l < |nodes|
      ensures IndexOf(right, Entries(nodes)[l].path).None? <==>
              forall i | 0 <= i < |right| :: right[i].path != nodes[l].path
    {
    }
  }

  /** With `updateDefault`, unchanged nodes count as metadata only. */
  function WithDefault(d: Differences, n: nat): Differences {
    d.(differentMetadata :=
      d.differentMetadata + set i | 0 <= i < n && i !in d.differentData && i !in d.differentMetadata && i !in d.moved)
  }

  method UpdateDefault(d: Differences, n: nat) returns (r: Differences)
    ensures r == WithDefault(d, n)
  {
    r := d;
    for i := 0 to n
      invariant r == WithDefault(d, i)
    {
      if !(i in r.differentData || i in r.differentMetadata || i in r.moved) {
        r := r.(differentMetadata := r.differentMetadata + {i});
      }
    }
  }

  /** Every source node gets exactly one treatment; metadata-only nodes have a predecessor at their path, and moved
      ones a predecessor elsewhere with the same hash. */
  lemma DefaultPartition(nodes: seq<Node>, alg: HashAlgorithm, right: seq<Entry>, hashes: seq<string>)
    requires |right| == |hashes| && |nodes| <= NOT_FOUND
    ensures var left := Entries(nodes);
            var d := WithDefault(Resolved(left, HashIndex(nodes, alg), right, hashes), |right|);
            && d.differentData !! d.differentMetadata && d.differentData !! d.moved.Keys
            && d.differentMetadata !! d.moved.Keys
            && (forall i: nat :: i in d.differentData || i in d.differentMetadata || i in d.moved <==> i < |right|)
            && (forall i | i in d.differentMetadata :: IndexOf(left, right[i].path).Some?)
            && (forall i | i in d.moved :: HasHash(nodes, alg, d.moved[i], hashes[i])
                                           && nodes[d.moved[i]].path != right[i].path)
  {
    var left, hashIndex := Entries(nodes), HashIndex(nodes, alg);
    var d := WithDefault(Resolved(left, hashIndex, right, hashes), |right|);
    forall i | 0 <= i < |right|
      ensures i in d.differentMetadata ==> IndexOf(left, right[i].path).Some?
      ensures i in d.moved ==> HasHash(nodes, alg, d.moved[i], hashes[i]) && nodes[d.moved[i]].path != right[i].path
    {
      HashIndexExact(nodes, alg, hashes[i]);
      match KindOf(left, hashIndex, right, hashes, i)
      case Unchanged =>
      case NewData =>
      case MetadataOnly =>
      case MovedFrom(l) => assert left[l].path == nodes[l].path;
    }
  }

  /** What AddSnapshot carries over is what it does not back up and does not move, told by paths, facts and hashes. */
  lemma DefaultExactly(nodes: seq<Node>, alg: HashAlgorithm, right: seq<Entry>, hashes: seq<string>)
    requires |right| == |hashes| && |nodes| <= 0xFFFF_FFFF && Distinct(Entries(nodes))
    ensures var resolved := Resolved(Entries(nodes), HashIndex(nodes, alg), right, hashes);
            var d := WithDefault(resolved, |right|);
            && d.deleted == resolved.deleted && d.differentData == resolved.differentData && d.moved == resolved.moved
            && forall i: nat :: i in d.differentMetadata <==>
                 i < |right|
                 && (right[i] in Entries(nodes)
                     || (!right[i].facts.fileType.Directory?
                         && exists l | 0 <= l < |nodes| :: IsLastWithHash(nodes, alg, l, hashes[i])
                                                           && nodes[l].path == right[i].path))
  {
    forall i | 0 <= i < |right| {
      KindExactly(nodes, alg, right, hashes, i);
    }
  }
}
