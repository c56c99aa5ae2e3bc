/** The index file: nodes as a tree of elements, and back (BackupNodeIndex, Serialize and DeserializeNode). */
module IndexArchive {
  import opened Prelude
  import opened Blocks
  import opened Nodes
  import Snapshots

  datatype Value = Text(text: string) | Number(number: int) | Flag(flag: bool)

  /** An element with attributes, child elements and, for a leaf, a value. */
  datatype Element = Element(tag: string, attributes: map<string, Value>, children: seq<Element>, value: Option<Value>)

  function Leaf(tag: string, value: Value): Element {
    Element(tag, map[], [], Some(value))
  }

  function Parent(tag: string, attributes: map<string, Value>, children: seq<Element>): Element {
    Element(tag, attributes, children, None)
  }

  /** The first child with the tag (HasChildElement and EnterElement). */
  function Child(children: seq<Element>, tag: string): Option<Element> {
    if children == [] then None
    else if children[0].tag == tag then Some(children[0])
    else Child(children[1..], tag)
  }

  // ----- Names of values -----

  function TypeName(t: FileType): string {
    match t
    case Directory => "directory"
    case File => "file"
    case Link => "link"
  }

  function TypeNamed(name: string): Option<FileType> {
    if name == "directory" then Some(Directory)
    else if name == "file" then Some(File)
    else if name == "link" then Some(Link)
    else None
  }

  function AlgorithmName(a: HashAlgorithm): string {
    match a
    case MD5 => "md5"
    case SHA512_256 => "sha512/256"
  }

  function AlgorithmNamed(name: string): Option<HashAlgorithm> {
    if name == "md5" then Some(MD5) else if name == "sha512/256" then Some(SHA512_256) else None
  }

  // ----- Printing -----

  function PrintBlock(b: Block): Element {
    Parent("Block",
           map["volumeNumber" := Number(b.volumeNumber), "offset" := Number(b.offset), "size" := Number(b.size)],
           [])
  }

  function PrintBlocks(blocks: seq<Block>): seq<Element> {
    if blocks == [] then [] else [PrintBlock(blocks[0])] + PrintBlocks(blocks[1..])
  }

  /** SerializeBlocks: nothing at all without blocks; absent options leave no attribute. */
  function PrintOwnership(a: Attributes): seq<Element> {
    if a.blocks == [] then []
    else
      [Parent("Blocks",
              map["owned" := Flag(a.ownsBlocks)]
              + (if a.backReference.Some? then map["owner" := Text(a.backReference.value)] else map[])
              + (if a.compression.Some? then map["compression" := Text("lzma")] else map[]),
              PrintBlocks(a.blocks))]
  }

  function PrintHash(algorithm: HashAlgorithm, hash: string): Element {
    Parent("Hash", map["algorithm" := Text(AlgorithmName(algorithm)), "value" := Text(hash)], [])
  }

  function PrintHashes(hashes: map<HashAlgorithm, string>): seq<Element> {
    if hashes == map[] then []
    else
      [Parent("HashValues", map[],
              (if MD5 in hashes then [PrintHash(MD5, hashes[MD5])] else [])
              + (if SHA512_256 in hashes then [PrintHash(SHA512_256, hashes[SHA512_256])] else []))]
  }

  function PrintPermissions(p: Permissions): Element {
    Parent("Permissions", map["type" := Text("POSIX")],
           [Leaf("owner", Number(p.owner)), Leaf("group", Number(p.group)), Leaf("mode", Number(p.mode))])
  }

  /** The parts of a printed node, in the order in which SerializeNode writes them. */
  function Parts(node: Node): seq<seq<Element>> {
    var a := node.attributes;
    [[Leaf("Path", Text(node.path))],
     if a.facts.lastModified.Some? then [Leaf("LastModified", Number(a.facts.lastModified.value))] else [],
     [PrintPermissions(a.permissions)],
     if a.facts.fileType.Directory? then [] else [Leaf("Size", Number(a.facts.size))],
     PrintOwnership(a),
     PrintHashes(a.hashes)]
  }

  const PART_TAGS: seq<string> := ["Path", "LastModified", "Permissions", "Size", "Blocks", "HashValues"]

  function Flatten(parts: seq<seq<Element>>): seq<Element> {
    if parts == [] then [] else parts[0] + Flatten(parts[1..])
  }

  function PrintNode(node: Node): Element {
    Parent("Node", map["type" := Text(TypeName(node.attributes.facts.fileType))], Flatten(Parts(node)))
  }

  function PrintIndex(nodes: seq<Node>): Element {
    Parent("SnapshotIndex", map[],
           [Parent("Nodes", map[], seq(|nodes|, i requires 0 <= i < |nodes| => PrintNode(nodes[i])))])
  }

  // ----- Parsing; None stands for the exception of the deserializer -----

  function NumberOf(v: Option<Value>): Option<int> {
    if v.Some? && v.value.Number? then Some(v.value.number) else None
  }

  function CountOf(v: Option<Value>): Option<nat> {
    if v.Some? && v.value.Number? && v.value.number >= 0 then Some(v.value.number) else None
  }

  function TextOf(v: Option<Value>): Option<string> {
    if v.Some? && v.value.Text? then Some(v.value.text) else None
  }

  function Attribute(e: Element, name: string): Option<Value> {
    if name in e.attributes then Some(e.attributes[name]) else None
  }

  function ValueOf(e: Option<Element>): Option<Value> {
    if e.Some? then e.value.value else None
  }

  function ParseBlock(e: Element): Option<Block> {
    var v, o := CountOf(Attribute(e, "volumeNumber")), CountOf(Attribute(e, "offset"));
    var s := CountOf(Attribute(e, "size"));
    if e.tag == "Block" && v.Some? && o.Some? && s.Some? then Some(Block(v.value, o.value, s.value)) else None
  }

  function ParseBlocks(children: seq<Element>): Option<seq<Block>> {
    if children == [] then Some([])
    else
      var first, rest := ParseBlock(children[0]), ParseBlocks(children[1..]);
      if first.Some? && rest.Some? then Some([first.value] + rest.value) else None
  }

  /** What DeserializeBlocks hands over; without the element nothing is owned. */
  datatype Ownership = Ownership(owned: bool, owner: Option<Path>, compression: Option<CompressionSetting>,
      blocks: seq<Block>)

  function ParseOwnership(children: seq<Element>): Option<Ownership> {
    var e := Child(children, "Blocks");
    if e.None? then Some(Ownership(false, None, None, []))
    else
      var owned, blocks := Attribute(e.value, "owned"), ParseBlocks(e.value.children);
      var owner, compression := Attribute(e.value, "owner"), Attribute(e.value, "compression");
      if owned.Some? && owned.value.Flag? && blocks.Some?
         && (owner.None? || owner.value.Text?) && (compression.None? || compression.value == Text("lzma")) then
        Some(Ownership(owned.value.flag, TextOf(owner), if compression.Some? then Some(Lzma) else None, blocks.value))
      else None
  }

  function ParseHash(e: Element): Option<(HashAlgorithm, string)> {
    var name, hash := TextOf(Attribute(e, "algorithm")), TextOf(Attribute(e, "value"));
    var algorithm := if name.Some? then AlgorithmNamed(name.value) else None;
    if e.tag == "Hash" && algorithm.Some? && hash.Some? then Some((algorithm.value, hash.value)) else None
  }

  function ParseHashList(children: seq<Element>): Option<map<HashAlgorithm, string>> {
    if children == [] then Some(map[])
    else
      var n := |children| - 1;
      var rest, hash := ParseHashList(children[..n]), ParseHash(children[n]);
      if rest.Some? && hash.Some? then Some(rest.value[hash.value.0 := hash.value.1]) else None
  }

  function ParseHashes(children: seq<Element>): Option<map<HashAlgorithm, string>> {
    var e := Child(children, "HashValues");
    if e.None? then Some(map[]) else ParseHashList(e.value.children)
  }

  function ParsePermissions(children: seq<Element>): Option<Permissions> {
    var e := Child(children, "Permissions");
    if e.None? || Attribute(e.value, "type") != Some(Text("POSIX")) then None
    else
      var owner := NumberOf(ValueOf(Child(e.value.children, "owner")));
      var group := NumberOf(ValueOf(Child(e.value.children, "group")));
      var mode := CountOf(ValueOf(Child(e.value.children, "mode")));
      if owner.Some? && group.Some? && mode.Some? then Some(POSIX(owner.value, group.value, mode.value)) else None
  }

  /** The facts of a node: the time is optional, and without a size element the size is 0. */
  function ParseFacts(e: Element): Option<Facts> {
    var typeName := TextOf(Attribute(e, "type"));
    var fileType := if typeName.Some? then TypeNamed(typeName.value) else None;
    var time, size := Child(e.children, "LastModified"), Child(e.children, "Size");
    var timeValue, sizeValue := NumberOf(ValueOf(time)), CountOf(ValueOf(size));
    if fileType.None? || (time.Some? && timeValue.None?) || (size.Some? && sizeValue.None?) then None
    else Some(Facts(fileType.value, if size.Some? then sizeValue.value else 0, timeValue))
  }

  function ParseNode(e: Element): Option<Node> {
    var path, facts := TextOf(ValueOf(Child(e.children, "Path"))), ParseFacts(e);
    var permissions := ParsePermissions(e.children);
    var ownership, hashes := ParseOwnership(e.children), ParseHashes(e.children);
    if e.tag == "Node" && path.Some? && facts.Some? && permissions.Some? && ownership.Some? && hashes.Some? then
      var o := ownership.value;
      Some(Node(path.value,
                Attributes(facts.value, permissions.value, o.owned, o.compression, o.owner, o.blocks, hashes.value)))
    else None
  }

  // ----- Round trip -----

  lemma {:induction false} BlocksRoundTrip(blocks: seq<Block>)
    ensures ParseBlocks(PrintBlocks(blocks)) == Some(blocks)
  {
    if blocks != [] {
      BlocksRoundTrip(blocks[1..]);
      var printed := PrintBlocks(blocks);
      assert printed[1..] == PrintBlocks(blocks[1..]) && printed[0] == PrintBlock(blocks[0]);
      assert ParseBlock(printed[0]) == Some(blocks[0]);
      assert [blocks[0]] + blocks[1..] == blocks;
    }
  }

  lemma {:induction false} ChildSkips(before: seq<Element>, after: seq<Element>, tag: string)
    requires forall i | 0 <= i < |before| :: before[i].tag != tag
    ensures Child(before + after, tag) == Child(after, tag)
  {
    if before == [] {
      assert before + after == after;
    } else {
      ChildSkips(before[1..], after, tag);
      assert (before + after)[1..] == before[1..] + after;
    }
  }

  /** At most one element, with this tag. */
  predicate Only(elements: seq<Element>, tag: string) {
    |elements| <= 1 && forall i | 0 <= i < |elements| :: elements[i].tag == tag
  }

  lemma {:induction false} NotInParts(parts: seq<seq<Element>>, tags: seq<string>, tag: string)
    requires |parts| == |tags| && tag !in tags && forall i | 0 <= i < |parts| :: Only(parts[i], tags[i])
    ensures Child(Flatten(parts), tag) == None
  {
    if parts != [] {
      NotInParts(parts[1..], tags[1..], tag);
      ChildSkips(parts[0], Flatten(parts[1..]), tag);
    }
  }

  /** Parts with distinct tags, written one after the other, are found again under their tags. */
  lemma {:induction false} PartFound(parts: seq<seq<Element>>, tags: seq<string>, k: nat)
    requires k < |parts| == |tags| && forall i | 0 <= i < |parts| :: Only(parts[i], tags[i])
    requires forall i, j | 0 <= i < j < |tags| :: tags[i] != tags[j]
    ensures Child(Flatten(parts), tags[k]) == if parts[k] == [] then None else Some(parts[k][0])
  {
    if k > 0 {
      PartFound(parts[1..], tags[1..], k - 1);
      ChildSkips(parts[0], Flatten(parts[1..]), tags[k]);
    } else if parts[0] == [] {
      NotInParts(parts[1..], tags[1..], tags[0]);
      assert [] + Flatten(parts[1..]) == Flatten(parts[1..]);
    }
  }

  lemma NodePartFound(node: Node, k: nat)
    requires k < 6
    ensures Child(PrintNode(node).children, PART_TAGS[k])
         == if Parts(node)[k] == [] then None else Some(Parts(node)[k][0])
  {
    PartFound(Parts(node), PART_TAGS, k);
  }

  lemma FlattenThree(a: Element, b: Element, c: Element)
    ensures Flatten([[a], [b], [c]]) == [a, b, c]
  {
    assert [[a], [b], [c]][1..] == [[b], [c]] && [[b], [c]][1..] == [[c]] && [[c]][1..] == [];
    assert Flatten([[c]]) == [c];
    assert Flatten([[b], [c]]) == [b, c];
  }

  lemma PermissionsRoundTrip(node: Node)
    ensures ParsePermissions(PrintNode(node).children) == Some(node.attributes.permissions)
  {
    NodePartFound(node, 2);
    var e := PrintPermissions(node.attributes.permissions);
    var c := e.children;
    PartFound([[c[0]], [c[1]], [c[2]]], ["owner", "group", "mode"], 0);
    PartFound([[c[0]], [c[1]], [c[2]]], ["owner", "group", "mode"], 1);
    PartFound([[c[0]], [c[1]], [c[2]]], ["owner", "group", "mode"], 2);
    FlattenThree(c[0], c[1], c[2]);
    assert c == [c[0], c[1], c[2]];
  }

  lemma FactsRoundTrip(node: Node)
    ensures ParseFacts(PrintNode(node)) == Some(Snapshots.Reread(node.attributes).facts)
  {
    NodePartFound(node, 1);
    NodePartFound(node, 3);
    assert TypeNamed(TypeName(node.attributes.facts.fileType)) == Some(node.attributes.facts.fileType);
  }

  lemma OwnershipRoundTrip(node: Node)
    ensures var a := Snapshots.Reread(node.attributes);
            ParseOwnership(PrintNode(node).children)
            == Some(Ownership(a.ownsBlocks && a.blocks != [], a.backReference, a.compression, a.blocks))
  {
    NodePartFound(node, 4);
    var a := node.attributes;
    if a.blocks != [] {
      BlocksRoundTrip(a.blocks);
      var e := PrintOwnership(a)[0];
      assert "owned"[4] != "owner"[4];
      assert Attribute(e, "owned") == Some(Flag(a.ownsBlocks));
      assert TextOf(Attribute(e, "owner")) == a.backReference;
      assert Attribute(e, "compression") == if a.compression.Some? then Some(Text("lzma")) else None;
      if a.compression.Some? {
        match a.compression.value case Lzma =>
      }
    }
  }

  lemma HashesRoundTrip(node: Node)
    ensures ParseHashes(PrintNode(node).children) == Some(node.attributes.hashes)
  {
    NodePartFound(node, 5);
    var h := node.attributes.hashes;
    if h != map[] { HashListRoundTrip(h); }
  }

  lemma HashRoundTrip(algorithm: HashAlgorithm, hash: string)
    ensures ParseHash(PrintHash(algorithm, hash)) == Some((algorithm, hash))
  {
    assert AlgorithmNamed(AlgorithmName(algorithm)) == Some(algorithm);
  }

  lemma NextHash(c: seq<Element>, algorithm: HashAlgorithm, hash: string)
    requires ParseHashList(c).Some?
    ensures ParseHashList(c + [PrintHash(algorithm, hash)]) == Some(ParseHashList(c).value[algorithm := hash])
  {
    var d := c + [PrintHash(algorithm, hash)];
    assert d[..|d| - 1] == c;
    HashRoundTrip(algorithm, hash);
  }

  lemma SameHashes(g: map<HashAlgorithm, string>, h: map<HashAlgorithm, string>)
    requires MD5 in g <==> MD5 in h
    requires SHA512_256 in g <==> SHA512_256 in h
    requires MD5 in h ==> g[MD5] == h[MD5]
    requires SHA512_256 in h ==> g[SHA512_256] == h[SHA512_256]
    ensures g == h
  {
    forall a: HashAlgorithm ensures a in g <==> a in h {
      match a case MD5 => case SHA512_256 =>
    }
    forall a | a in g ensures g[a] == h[a] {
      match a case MD5 => case SHA512_256 =>
    }
  }

  lemma HashListRoundTrip(h: map<HashAlgorithm, string>)
    requires h != map[]
    ensures ParseHashList(PrintHashes(h)[0].children) == Some(h)
  {
    var c := PrintHashes(h)[0].children;
    var first := if MD5 in h then [PrintHash(MD5, h[MD5])] else [];
    if MD5 in h {
      NextHash([], MD5, h[MD5]);
      assert [] + first == first;
    }
    if SHA512_256 in h {
      NextHash(first, SHA512_256, h[SHA512_256]);
      assert c == first + [PrintHash(SHA512_256, h[SHA512_256])];
    } else {
      assert c == first;
    }
    SameHashes(ParseHashList(c).value, h);
  }

  /** A printed node is read back with all its attributes, except that a node without blocks loses its ownership,
      back-reference and compression setting (and a directory any size). */
  lemma NodeRoundTrip(node: Node)
    ensures ParseNode(PrintNode(node)) == Some(Node(node.path, Snapshots.Reread(node.attributes)))
  {
    NodePartFound(node, 0);
    PermissionsRoundTrip(node);
    FactsRoundTrip(node);
    OwnershipRoundTrip(node);
    HashesRoundTrip(node);
  }

  // ----- What is written -----

  /** A printed block has these three attributes and nothing else. */
  lemma {:induction false} BlocksAreWritten(blocks: seq<Block>)
    ensures |PrintBlocks(blocks)| == |blocks|
    ensures forall k | 0 <= k < |blocks| ::
              var e := PrintBlocks(blocks)[k];
              && e.tag == "Block" && e.children == [] && e.value == None
              && e.attributes == map["volumeNumber" := Number(blocks[k].volumeNumber),
                                     "offset" := Number(blocks[k].offset), "size" := Number(blocks[k].size)]
  {
    if blocks != [] {
      BlocksAreWritten(blocks[1..]);
    }
  }

  /** What the file says of a node, element by element: the path, the time if there is one, for all but directories the
      size, for nodes with blocks these with their owner, and the hashes if there are any. */
  lemma NodeIsWritten(node: Node)
    ensures var e, a := PrintNode(node), node.attributes;
            && e.tag == "Node"
            && Attribute(e, "type") == Some(Text(match a.facts.fileType
                                                 case Directory => "directory" case File => "file" case Link => "link"))
            && Child(e.children, "Path") == Some(Leaf("Path", Text(node.path)))
            && Child(e.children, "LastModified")
               == (if a.facts.lastModified.Some? then Some(Leaf("LastModified", Number(a.facts.lastModified.value)))
                   else None)
            && Child(e.children, "Size")
               == (if a.facts.fileType.Directory? then None else Some(Leaf("Size", Number(a.facts.size))))
            && (Child(e.children, "HashValues").None? <==> a.hashes == map[])
            && (Child(e.children, "Blocks").None? <==> a.blocks == [])
  {
    NodePartFound(node, 0);
    NodePartFound(node, 1);
    NodePartFound(node, 3);
    NodePartFound(node, 4);
    NodePartFound(node, 5);
  }

  lemma OwnershipIsWritten(node: Node)
    requires node.attributes.blocks != []
    ensures var blocks, a := Child(PrintNode(node).children, "Blocks"), node.attributes;
            && blocks.Some? && blocks.value.children == PrintBlocks(a.blocks)
            && Attribute(blocks.value, "owned") == Some(Flag(a.ownsBlocks))
            && Attribute(blocks.value, "owner")
               == (if a.backReference.Some? then Some(Text(a.backReference.value)) else None)
            && Attribute(blocks.value, "compression") == (if a.compression.Some? then Some(Text("lzma")) else None)
  {
    NodePartFound(node, 4);
    assert "owned"[4] != "owner"[4];
  }

  lemma HashIsWritten(node: Node, algorithm: HashAlgorithm)
    requires algorithm in node.attributes.hashes
    ensures var hashes, name := Child(PrintNode(node).children, "HashValues"),
                                if algorithm.MD5? then "md5" else "sha512/256";
            && hashes.Some?
            && exists k | 0 <= k < |hashes.value.children| ::
                 hashes.value.children[k]
                 == Element("Hash", map["algorithm" := Text(name), "value" := Text(node.attributes.hashes[algorithm])],
                            [], None)
  {
    NodePartFound(node, 5);
    var h := node.attributes.hashes;
    var c := PrintHashes(h)[0].children;
    if algorithm.MD5? {
      assert c[0] == PrintHash(MD5, h[MD5]);
    } else {
      assert c[|c| - 1] == PrintHash(SHA512_256, h[SHA512_256]);
    }
  }

  lemma PermissionsAreWritten(node: Node)
    ensures var e, p := Child(PrintNode(node).children, "Permissions"), node.attributes.permissions;
            && e.Some? && Attribute(e.value, "type") == Some(Text("POSIX"))
            && e.value.children == [Leaf("owner", Number(p.owner)), Leaf("group", Number(p.group)),
                                    Leaf("mode", Number(p.mode))]
  {
    NodePartFound(node, 2);
  }

  // ----- What is read -----

  /** What any accepted element says of its node, whoever wrote it: missing optional parts count as no time, size 0, no
      hashes, and no blocks that nobody owns. */
  lemma NodeIsRead(e: Element)
    requires ParseNode(e).Some?
    ensures var node, a := ParseNode(e).value, ParseNode(e).value.attributes;
            && e.tag == "Node"
            && Attribute(e, "type") == Some(Text(match a.facts.fileType
                                                 case Directory => "directory" case File => "file" case Link => "link"))
            && ValueOf(Child(e.children, "Path")) == Some(Text(node.path))
            && (match Child(e.children, "LastModified")
                case None => a.facts.lastModified == None
                case Some(time) => a.facts.lastModified.Some? && time.value == Some(Number(a.facts.lastModified.value)))
            && (match Child(e.children, "Size")
                case None => a.facts.size == 0
                case Some(size) => size.value == Some(Number(a.facts.size)))
            && (Child(e.children, "HashValues").None? ==> a.hashes == map[])
            && (Child(e.children, "Blocks").None? ==>
                  !a.ownsBlocks && a.backReference == None && a.compression == None && a.blocks == [])
  {
  }
}
