/** The index as an object: the attribute array with its bijective path map, its file and its hash index. */
module BackupIndex {
  import opened Prelude
  import opened Nodes
  import Snapshots
  import opened IndexArchive

  /** Paths are absolute in an index. */
  function Absolute(p: Path): (absolute: Path)
    ensures absolute != "" && absolute[0] == '/'
    ensures absolute == p || absolute[1..] == p
    ensures p != "" && p[0] == '/' ==> absolute == p
  {
    if p != "" && p[0] == '/' then p else "/" + p
  }

  class BackupNodeIndex {
    var nodeAttributes: seq<Attributes>
    var pathMap: map<Path, nat>
    /** The other direction of the bijective map. */
    var paths: seq<Path>
    var hashIndex: map<string, nat>

    ghost predicate Valid()
      reads this
    {
      && |paths| == |nodeAttributes|
      && (forall i | 0 <= i < |paths| :: paths[i] in pathMap && pathMap[paths[i]] == i)
      && (forall p | p in pathMap :: pathMap[p] < |paths| && paths[pathMap[p]] == p)
    }

    function View(): seq<Node>
      requires |paths| == |nodeAttributes|
      reads this
    {
      seq(|paths|, i requires 0 <= i < |paths| == |nodeAttributes| reads this => Node(paths[i], nodeAttributes[i]))
    }

    constructor ()
      ensures Valid() && View() == [] && hashIndex == map[]
    {
      nodeAttributes := [];
      pathMap := map[];
      paths := [];
      hashIndex := map[];
    }

    method AddNode(path: Path, attributes: Attributes) returns (index: nat)
      requires Valid() && Absolute(path) !in pathMap
      modifies this`nodeAttributes, this`pathMap, this`paths
      ensures Valid() && index == |old(View())| && View() == old(View()) + [Node(Absolute(path), attributes)]
      ensures pathMap.Keys == old(pathMap).Keys + {Absolute(path)}
    {
      index := |nodeAttributes|;
      nodeAttributes := nodeAttributes + [attributes];
      pathMap := pathMap[Absolute(path) := index];
      paths := paths + [Absolute(path)];
    }

    /** The path map answers as a search of the nodes would. */
    method GetNodeIndex(path: Path) returns (index: Option<nat>)
      requires Valid()
      ensures index == IndexOf(Entries(View()), path)
    {
      assert forall i | 0 <= i < |paths| :: Entries(View())[i].path == paths[i];
      if path in pathMap {
        index := Some(pathMap[path]);
        assert Entries(View())[pathMap[path]].path == path;
      } else {
        index := None;
      }
    }

    lemma PathsDistinct()
      requires Valid()
      ensures Distinct(Entries(View()))
    {
      forall i, j | 0 <= i < j < |paths| ensures Entries(View())[i].path != Entries(View())[j].path {
        assert pathMap[paths[i]] == i && pathMap[paths[j]] == j;
      }
    }

    method Serialize() returns (document: Element)
      requires Valid()
      ensures document == PrintIndex(View())
    {
      var nodes: seq<Element> := [];
      for i := 0 to |nodeAttributes|
        invariant |nodes| == i && forall j | 0 <= j < i :: nodes[j] == PrintNode(View()[j])
      {
        nodes := nodes + [PrintNode(Node(paths[i], nodeAttributes[i]))];
      }
      assert nodes == PrintIndex(View()).children[0].children;
      document := Parent("SnapshotIndex", map[], [Parent("Nodes", map[], nodes)]);
    }

    /** Adds the nodes of the elements until one cannot be added. */
    method AddParsed(elements: seq<Element>) returns (ok: bool)
      requires Valid() && View() == [] && pathMap == map[]
      modifies this`nodeAttributes, this`pathMap, this`paths
      ensures Valid() && (ok <==> Acceptable(elements))
      ensures ok ==> View() == Parsed(elements)
    {
      for i := 0 to |elements|
        invariant Valid() && |paths| == i && AllParse(elements[..i])
        invariant View() == Parsed(elements[..i])
      {
        var node := ParseNode(elements[i]);
        if node.None? {
          return false;
        }
        if Absolute(node.value.path) in pathMap {
          ghost var j := pathMap[Absolute(node.value.path)];
          assert View()[j].path == paths[j] && elements[..i][j] == elements[j];
          return false;
        }
        ParsedNext(elements, i);
        var index := AddNode(node.value.path, node.value.attributes);
      }
      assert elements[..|elements|] == elements;
      forall i, j | 0 <= i < j < |elements| ensures ParsedNode(elements[i]).path != ParsedNode(elements[j]).path {
        assert View()[i].path == paths[i] && View()[j].path == paths[j];
        assert pathMap[paths[i]] == i && pathMap[paths[j]] == j;
      }
      ok := true;
    }

    /** Reads the nodes of a document into an empty index and indexes them by hash; false stands for an exception. */
    method Deserialize(document: Element, alg: HashAlgorithm) returns (ok: bool)
      requires Valid() && View() == [] && pathMap == map[]
      modifies this
      ensures Valid()
      ensures forall nodes: seq<Node> |
                document == PrintIndex(nodes) && AllAbsolute(nodes) && Distinct(Entries(nodes)) ::
                ok && View() == Snapshots.RereadAll(nodes)
      ensures ok <==> IsIndexDocument(document)
      ensures ok ==> View() == Parsed(Child(document.children, "Nodes").value.children)
      ensures ok ==> hashIndex == HashIndex(View(), alg)
    {
      ok := false;
      forall nodes: seq<Node> | document == PrintIndex(nodes) && AllAbsolute(nodes) && Distinct(Entries(nodes))
        ensures document.tag == "SnapshotIndex" && Child(document.children, "Nodes").Some?
        ensures var elements := Child(document.children, "Nodes").value.children;
                Acceptable(elements) && Parsed(elements) == Snapshots.RereadAll(nodes)
      {
        PrintedIsAcceptable(nodes);
      }
      var top := Child(document.children, "Nodes");
      if document.tag == "SnapshotIndex" && top.Some? {
        ok := AddParsed(top.value.children);
        if ok {
          var nodes := View();
          hashIndex := GenerateHashIndex(nodes, alg);
          assert View() == nodes;
        }
      }
    }
  }

  function ParsedNode(e: Element): Node
    requires ParseNode(e).Some?
  {
    var node := ParseNode(e).value;
    Node(Absolute(node.path), node.attributes)
  }

  predicate AllParse(elements: seq<Element>) {
    forall i | 0 <= i < |elements| :: ParseNode(elements[i]).Some?
  }

  /** All elements are nodes, with distinct paths. */
  predicate Acceptable(elements: seq<Element>) {
    && AllParse(elements)
    && (forall i, j | 0 <= i < j < |elements| :: ParsedNode(elements[i]).path != ParsedNode(elements[j]).path)
  }

  /** What Deserialize accepts: nodes with distinct paths inside the two outer elements. */
  predicate IsIndexDocument(document: Element) {
    && document.tag == "SnapshotIndex" && Child(document.children, "Nodes").Some?
    && Acceptable(Child(document.children, "Nodes").value.children)
  }

  function Parsed(elements: seq<Element>): seq<Node>
    requires AllParse(elements)
  {
    seq(|elements|, i requires 0 <= i < |elements| && ParseNode(elements[i]).Some? => ParsedNode(elements[i]))
  }

  lemma ParsedNext(elements: seq<Element>, i: nat)
    requires i < |elements| && AllParse(elements[..i]) && ParseNode(elements[i]).Some?
    ensures AllParse(elements[..i + 1])
    ensures Parsed(elements[..i + 1]) == Parsed(elements[..i]) + [ParsedNode(elements[i])]
  {
    assert elements[..i + 1] == elements[..i] + [elements[i]];
  }

  predicate AllAbsolute(nodes: seq<Node>) {
    forall i | 0 <= i < |nodes| :: Absolute(nodes[i].path) == nodes[i].path
  }

  /** The document of an index with distinct absolute paths is accepted and gives the re-read nodes. */
  lemma PrintedIsAcceptable(nodes: seq<Node>)
    requires AllAbsolute(nodes) && Distinct(Entries(nodes))
    ensures Child(PrintIndex(nodes).children, "Nodes").Some?
    ensures var elements := Child(PrintIndex(nodes).children, "Nodes").value.children;
            Acceptable(elements) && Parsed(elements) == Snapshots.RereadAll(nodes)
  {
    var elements := Child(PrintIndex(nodes).children, "Nodes").value.children;
    assert |elements| == |nodes|;
    forall i | 0 <= i < |nodes|
      ensures ParseNode(elements[i]).Some? && ParsedNode(elements[i]) == Snapshots.RereadAll(nodes)[i]
      ensures Entries(nodes)[i].path == ParsedNode(elements[i]).path
    {
      NodeRoundTrip(nodes[i]);
    }
  }
}
