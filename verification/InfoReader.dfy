/** What a reader finds in the info bytes of an artifact's torrent, without knowing how they were made. */
module InfoReader {
  import opened Basics
  import opened Bencode
  import opened FileTree
  import opened Manifests
  import opened Torrent
  import opened Validate
  import I = Identity
  import Merkle
  import Paths

  /** What lies at the end of a path of nested dictionaries. */
  function Walk(v: Value, p: Path): Option<Value>
    decreases |p|
  {
    if p == [] then Some(v)
    else if v.Dict? && p[0] in v.d then Walk(v.d[p[0]], p[1..])
    else None
  }

  /** The path ends at a file, under the empty key. */
  ghost predicate EndsAtFile(tree: Value, p: Path) {
    Walk(tree, p).Some? && Walk(tree, p).value.Dict? && "" in Walk(tree, p).value.d
  }

  /** The path ends at one file, of this size and this root. */
  ghost predicate Finds(tree: Value, p: Path, size: int, root: Bytes) {
    Walk(tree, p) == Some(Dict(map["" := Dict(map["length" := Int(size), "pieces root" := Str(root)])]))
  }

  /** The 32 bytes that a manifest pins for a file. */
  predicate Pins(f: File, root: Bytes) {
    |root| == 32 && AllBytes(root) && f.merkleRoot == "sha256:" + Hex(root)
  }

  function ManifestPath(hex: string): Path {
    ["manifest", "sha256-" + hex]
  }

  /** The tree holds the files of the manifest, the manifest itself, and nothing else. */
  ghost predicate HoldsFiles(h: Hasher, m: Manifest, manifestBytes: Bytes, tree: Value) {
    && (forall f :: f in m.files ==> exists root :: Pins(f, root) && Finds(tree, Paths.Split(f.name), f.size, root))
    && Finds(tree, ManifestPath(Hex(h(manifestBytes))), |manifestBytes|, Merkle.Root(h, manifestBytes))
    && (forall p :: GoodPath(p) && EndsAtFile(tree, p) ==>
         p == ManifestPath(Hex(h(manifestBytes))) || exists f :: f in m.files && p == Paths.Split(f.name))
  }

  /** The piece length for a total size. */
  predicate Rung(total: int, pl: int) {
    && (total <= 0x4000_0000 ==> pl == 0x10_0000)
    && (0x4000_0000 < total <= 0x2_0000_0000 ==> pl == 0x40_0000)
    && (0x2_0000_0000 < total <= 0x10_0000_0000 ==> pl == 0x100_0000)
    && (0x10_0000_0000 < total <= 0x80_0000_0000 ==> pl == 0x400_0000)
    && (0x80_0000_0000 < total ==> pl == 0x1000_0000)
  }

  function Sizes(files: seq<File>): int {
    if files == [] then 0 else files[0].size + Sizes(files[1..])
  }

  /** The dictionary at the top. */
  function Top(tree: Value, name: Bytes, pieceLength: int): Value {
    Dict(map["file tree" := tree, "meta version" := Int(2), "name" := Str(name), "piece length" := Int(pieceLength)])
  }

  /** What the info bytes of an artifact say to a reader, and how its infohash is written. */
  ghost predicate SaysOf(h: Hasher, m: Manifest, manifestBytes: Bytes, info: Bytes, name: string, pieceLength: int,
                         total: int, infohash: string)
  {
    && (exists tree :: HoldsFiles(h, m, manifestBytes, tree) && Read(info) == Some((Top(tree, name, pieceLength), [])))
    && name == "shardr-sha256-" + Hex(h(manifestBytes))[..12]
    && total == Wrap64(|manifestBytes| + Sizes(m.files)) && Rung(total, pieceLength)
    && infohash == "btmh:1220" + Hex(h(info))
  }

  /* ---- Reading the tree ---- */

  lemma {:induction false} LookupWalks(node: Value, p: Path)
    requires Lookup(node, p).Some?
    ensures Walk(node, p) == Lookup(node, p)
    decreases |p|
  {
    if |p| == 1 {
      assert p[1..] == [];
    } else {
      LookupWalks(node.d[p[0]], p[1..]);
    }
  }

  lemma {:induction false} WalkOn(node: Value, p: Path, q: Path)
    requires Walk(node, p).Some?
    ensures Walk(node, p + q) == Walk(Walk(node, p).value, q)
    decreases |p|
  {
    if p == [] {
      assert p + q == q;
    } else {
      WalkOn(node.d[p[0]], p[1..], q);
      assert (p + q)[1..] == p[1..] + q;
    }
  }

  /** A walk that ends at a file has looked up a file on its way. */
  lemma {:induction false} WalkLooks(node: Value, p: Path) returns (n: nat)
    requires p != [] && EndsAtFile(node, p)
    ensures 0 < n <= |p| && Lookup(node, p[..n]).Some?
    decreases |p|
  {
    var child := node.d[p[0]];
    if IsLeaf(child) || |p| == 1 {
      n := 1;
      assert |p| == 1 ==> p[1..] == [] && Walk(child, p[1..]) == Some(child);
      assert Lookup(node, p[..1]) == Some(child);
    } else {
      var k := WalkLooks(child, p[1..]);
      n := k + 1;
      assert p[..n] == [p[0]] + p[1..][..k];
      LookupThrough(node, p[0], p[1..][..k]);
    }
  }

  lemma LeafFound(tree: Value, p: Path, size: int, root: Bytes)
    requires Lookup(tree, p) == Some(Leaf(size, root))
    ensures Finds(tree, p, size, root)
  {
    LookupWalks(tree, p);
  }

  lemma DecodedPin(f: File)
    requires IsDigest(f.merkleRoot) && DecodeRoot(DigestHex(f.merkleRoot)).Ok?
    ensures Pins(f, DecodeRoot(DigestHex(f.merkleRoot)).value)
  {
    hide Hex, HexDecode, IsHex;
    HexOfDecoded(DigestHex(f.merkleRoot));
    I.DigestDecodes(f.merkleRoot);
    assert f.merkleRoot == "sha256:" + DigestHex(f.merkleRoot);
  }

  lemma TreeHolds(h: Hasher, m: Manifest, manifestBytes: Bytes)
    requires Accepts(m) && PinnedTree(m.files).Ok?
    ensures var tree := WithManifest(h, PinnedTree(m.files).value, manifestBytes, Hex(h(manifestBytes)));
      HoldsFiles(h, m, manifestBytes, tree)
  {
    hide Accepts, PinnedTree, WithManifest, Lookup, Walk, Paths.Split, Hex, Leaf, DecodeRoot, Merkle.Root, Pins, Finds;
    var hex := Hex(h(manifestBytes));
    var tree := WithManifest(h, PinnedTree(m.files).value, manifestBytes, hex);
    I.AcceptedFacts(m);
    forall f | f in m.files ensures exists root :: Pins(f, root) && Finds(tree, Paths.Split(f.name), f.size, root) {
      var i :| 0 <= i < |m.files| && m.files[i] == f;
      I.TreeReadsBack(h, m, manifestBytes, hex, Paths.Split(f.name));
      var root := DecodeRoot(DigestHex(f.merkleRoot)).value;
      assert I.FileEntries(m.files)[i] == I.PinnedEntry(f);
      LeafFound(tree, Paths.Split(f.name), f.size, root);
      DecodedPin(f);
    }
    I.TreeReadsBack(h, m, manifestBytes, hex, ManifestPath(hex));
    LeafFound(tree, ManifestPath(hex), |manifestBytes|, Merkle.Root(h, manifestBytes));
    forall p | GoodPath(p) && EndsAtFile(tree, p)
      ensures p == ManifestPath(hex) || exists f :: f in m.files && p == Paths.Split(f.name)
    {
      var n := WalkLooks(tree, p);
      FileStops(h, m, manifestBytes, p, n);
    }
  }

  /** No path leads on from a file. */
  lemma FileStops(h: Hasher, m: Manifest, manifestBytes: Bytes, p: Path, n: nat)
    requires Accepts(m) && PinnedTree(m.files).Ok? && GoodPath(p) && 0 < n <= |p|
    requires var tree := WithManifest(h, PinnedTree(m.files).value, manifestBytes, Hex(h(manifestBytes)));
      EndsAtFile(tree, p) && Lookup(tree, p[..n]).Some?
    ensures p == ManifestPath(Hex(h(manifestBytes))) || exists f :: f in m.files && p == Paths.Split(f.name)
  {
    hide Accepts, PinnedTree, WithManifest, Lookup, Paths.Split, Hex, DecodeRoot, Merkle.Root;
    var hex := Hex(h(manifestBytes));
    var tree := WithManifest(h, PinnedTree(m.files).value, manifestBytes, hex);
    assert p == p[..n] + p[n..] && (n < |p| ==> p[n..][0] == p[n] && p[n] in p);
    assert n == |p| ==> p[..n] == p;
    I.TreeReadsBack(h, m, manifestBytes, hex, p[..n]);
    LookupWalks(tree, p[..n]);
    WalkOn(tree, p[..n], p[n..]);
  }

  lemma {:induction false} TotalIsSizes(files: seq<File>, manifestBytes: Bytes)
    ensures Total(manifestBytes, files) == Wrap64(|manifestBytes| + Sizes(files))
  {
    hide Wrap64;
    if files != [] {
      var init, last := files[..|files| - 1], files[|files| - 1];
      TotalIsSizes(init, manifestBytes);
      I.WrapAdd(|manifestBytes| + Sizes(init), last.size);
      SizesSnoc(init, last);
      assert files == init + [last];
    }
  }

  lemma {:induction false} SizesSnoc(files: seq<File>, f: File)
    ensures Sizes(files + [f]) == Sizes(files) + f.size
  {
    if files == [] {
      assert [f][1..] == [] && files + [f] == [f];
    } else {
      SizesSnoc(files[1..], f);
      assert (files + [f])[1..] == files[1..] + [f];
    }
  }

  /** Whatever the manifest alone gives says to a reader what the manifest says. */
  lemma InfoReads(h: Hasher, m: Manifest, manifestBytes: Bytes)
    requires Accepts(m)
    ensures FromManifest(h, m.files, manifestBytes, Hex(h(manifestBytes))).Ok?
    ensures var t := FromManifest(h, m.files, manifestBytes, Hex(h(manifestBytes))).value;
      SaysOf(h, m, manifestBytes, t.0, t.1.name, t.1.pieceLength, t.1.totalSize, t.1.infohash)
  {
    hide Accepts, PinnedTree, WithManifest, Hex, Encode, Read, HoldsFiles, Total, Wrap64, Sizes;
    var hex := Hex(h(manifestBytes));
    I.ManifestTree(h, m, manifestBytes, hex);
    TreeHolds(h, m, manifestBytes);
    TotalIsSizes(m.files, manifestBytes);
    var tree := WithManifest(h, PinnedTree(m.files).value, manifestBytes, hex);
    var t := FromManifest(h, m.files, manifestBytes, hex).value;
    var v := InfoDict(tree, t.1.name, t.1.pieceLength);
    ReadBack(v, []);
    assert Encode(v) + [] == Encode(v);
  }
}
