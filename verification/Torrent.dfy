/**
 The torrent identity of a manifest, derived twice: from the file contents (BuildTorrent) and from
 the manifest alone (BuildTorrentFromManifest).
 */
module Torrent {
  import opened Basics
  import opened Bencode
  import opened FileTree
  import opened Manifests
  import Merkle
  import Paths

  /** A Go call that returns a value, an error, or panics. */
  datatype Outcome<+T> = Ok(value: T) | Err | Panic

  datatype TorrentResult = TorrentResult(
    name: string, pieceLength: int, totalSize: int, infohash: string, layers: Bytes, layersDigest: string)

  type Resolver = Bytes -> Option<Bytes>

  /* ---- The piece-length ladder ---- */

  const MIB: int := 0x10_0000
  const GIB: int := 0x4000_0000

  function LadderPieceLength(totalSize: int): int {
    if totalSize <= GIB then MIB
    else if totalSize <= 8 * GIB then 4 * MIB
    else if totalSize <= 64 * GIB then 16 * MIB
    else if totalSize <= 512 * GIB then 64 * MIB
    else 256 * MIB
  }

  /** Every rung is a power of two that is a power-of-two run of blocks. */
  lemma LadderIsPowerOfTwo(totalSize: int)
    ensures var pl := LadderPieceLength(totalSize);
      pl >= 16384 && Merkle.IsPow2(pl) && Merkle.IsPow2(Merkle.BlocksPerPiece(pl)) &&
      pl == Merkle.Pow2(Merkle.Height(Merkle.BlocksPerPiece(pl))) * Merkle.BLOCK
  {
    hide Merkle.Pow2, Merkle.IsPow2, Merkle.Height;
    var pl := LadderPieceLength(totalSize);
    var k := if pl == MIB then 20 else if pl == 4 * MIB then 22 else if pl == 16 * MIB then 24
             else if pl == 64 * MIB then 26 else 28;
    Rungs();
    assert pl == Merkle.Pow2(k) && Merkle.BlocksPerPiece(pl) == Merkle.Pow2(k - 14);
    Merkle.Pow2IsPow2(k);
    Merkle.Pow2IsPow2(k - 14);
    Merkle.IsPow2HasHeight(Merkle.BlocksPerPiece(pl));
  }

  lemma Rungs()
    ensures Merkle.Pow2(20) == MIB && Merkle.Pow2(6) == 64
    ensures Merkle.Pow2(22) == 4 * MIB && Merkle.Pow2(8) == 256
    ensures Merkle.Pow2(24) == 16 * MIB && Merkle.Pow2(10) == 1024
    ensures Merkle.Pow2(26) == 64 * MIB && Merkle.Pow2(12) == 4096
    ensures Merkle.Pow2(28) == 256 * MIB && Merkle.Pow2(14) == 16384
  {
    Merkle.Pow2Add(14, 6);
    Merkle.Pow2Add(14, 8);
    Merkle.Pow2Add(14, 10);
    Merkle.Pow2Add(14, 12);
    Merkle.Pow2Add(14, 14);
  }

  /* ---- Trees ---- */

  function Entry1(f: File, root: Bytes): Entry {
    Entry(Paths.Split(f.name), f.size, root)
  }

  function EmptyTree(): Value {
    Dict(map[])
  }

  /** insertFileTree on the running tree. */
  function AddFile(tree: Value, f: File, root: Bytes): (r: Outcome<Value>)
    requires tree.Dict?
    ensures !r.Err? && (r.Ok? ==> r.value.Dict?)
  {
    var t := Insert(tree, Paths.Split(f.name), Leaf(f.size, root));
    if t.None? then Panic else Ok(t.value)
  }

  /**
   hex.Decode into 32 bytes: an error for a bad digit or an odd length, a panic when more than 32
   bytes come out, zero bytes where fewer do.
   */
  function DecodeRoot(t: string): (r: Outcome<Bytes>)
    ensures r.Ok? ==> |r.value| == 32
  {
    if |t| >= 66 then
      if HexDecode(t[..64]).None? || HexValue(t[64]).None? || HexValue(t[65]).None? then Err else Panic
    else
      var d := HexDecode(t);
      if d.None? then Err else Ok(d.value + seq(32 - |d.value|, _ => '\0'))
  }

  /** The tree over pinned roots, file by file; the first failure wins. */
  /** hex.Decode into 32 bytes: what it takes, when it runs past its end, and what is left as zeros. */
  lemma DecodeRootMeans(t: string)
    ensures DecodeRoot(t).Ok? <==> |t| <= 64 && |t| % 2 == 0 && forall i :: 0 <= i < |t| ==> AnyHexDigit(t[i])
    ensures DecodeRoot(t).Panic? <==> |t| >= 66 && forall i :: 0 <= i < 66 ==> AnyHexDigit(t[i])
    ensures DecodeRoot(t).Ok? ==> forall i :: 0 <= i < 32 ==>
      var b := DecodeRoot(t).value[i];
      if 2 * i < |t| then IsValue(t[2 * i], b as int / 16) && IsValue(t[2 * i + 1], b as int % 16) else b == '\0'
  {
    hide HexDecode, HexValue, IsValue, AnyHexDigit;
    HexDecodeMeans(t);
    if |t| >= 66 {
      HexDecodeMeans(t[..64]);
      HexValueMeans(t[64]);
      HexValueMeans(t[65]);
      assert (forall i :: 0 <= i < 66 ==> AnyHexDigit(t[i])) <==>
        (forall i :: 0 <= i < 64 ==> AnyHexDigit(t[..64][i])) && AnyHexDigit(t[64]) && AnyHexDigit(t[65]);
    }
  }

  function PinnedTree(files: seq<File>): (r: Outcome<Value>)
    ensures r.Ok? ==> r.value.Dict?
  {
    if files == [] then Ok(EmptyTree())
    else
      var last := files[|files| - 1];
      var t := PinnedTree(files[..|files| - 1]);
      if !t.Ok? then t
      else
        var root := DecodeRoot(DigestHex(last.merkleRoot));
        if !root.Ok? then (if root.Err? then Err else Panic) else AddFile(t.value, last, root.value)
  }

  function Total(manifestBytes: Bytes, files: seq<File>): int {
    if files == [] then Wrap64(|manifestBytes|)
    else Wrap64(Total(manifestBytes, files[..|files| - 1]) + files[|files| - 1].size)
  }

  /** The tree with the embedded manifest put in place. */
  function WithManifest(h: Hasher, tree: Value, manifestBytes: Bytes, digestHex: string): Value
    requires tree.Dict?
  {
    Dict(tree.d["manifest" :=
      Dict(map["sha256-" + digestHex := Leaf(|manifestBytes|, Merkle.Root(h, manifestBytes))])])
  }

  function InfoDict(tree: Value, name: string, pieceLength: int): Value {
    Dict(map["file tree" := tree, "meta version" := Int(2), "name" := Str(name), "piece length" := Int(pieceLength)])
  }

  function TorrentName(digestHex: string): string
    requires |digestHex| >= 12
  {
    "shardr-sha256-" + digestHex[..12]
  }

  function Infohash(h: Hasher, info: Bytes): string {
    "btmh:1220" + Hex(h(info))
  }

  /** What both constructions return once the tree over the files is there. */
  ghost function Identity(h: Hasher, tree: Value, total: int, manifestBytes: Bytes, digestHex: string): (Bytes,
                          TorrentResult)
    requires tree.Dict? && |digestHex| >= 12
  {
    var pl := LadderPieceLength(total);
    var info := Encode(InfoDict(WithManifest(h, tree, manifestBytes, digestHex), TorrentName(digestHex), pl));
    (info, TorrentResult(TorrentName(digestHex), pl, total, Infohash(h, info), "", ""))
  }

  /** BuildTorrentFromManifest, as a function of the manifest. */
  ghost function FromManifest(h: Hasher, files: seq<File>, manifestBytes: Bytes,
                              digestHex: string): Outcome<(Bytes, TorrentResult)>
  {
    var t := PinnedTree(files);
    if t.Err? then Err
    else if t.Panic? || |digestHex| < 12 then Panic
    else Ok(Identity(h, t.value, Total(manifestBytes, files), manifestBytes, digestHex))
  }

  method BuildTorrentFromManifest(h: Hasher, files: seq<File>, manifestBytes: Bytes, digestHex: string)
    returns (r: Outcome<(Bytes, TorrentResult)>)
    ensures r == FromManifest(h, files, manifestBytes, digestHex)
  {
    var tree := EmptyTree();
    var total := Wrap64(|manifestBytes|);
    var manifestRoot := Merkle.MerkleRoot(h, manifestBytes);
    for i := 0 to |files|
      invariant PinnedTree(files[..i]) == Ok(tree) && tree.Dict?
      invariant total == Total(manifestBytes, files[..i])
    {
      var f := files[i];
      assert files[..i + 1][..i] == files[..i];
      PinnedPrefix(files, i + 1);
      var root := DecodeRoot(DigestHex(f.merkleRoot));
      if !root.Ok? {
        return if root.Err? then Err else Panic;
      }
      var next := AddFile(tree, f, root.value);
      if !next.Ok? {
        return Panic;
      }
      tree := next.value;
      total := Wrap64(total + f.size);
    }
    assert files[..|files|] == files;
    if |digestHex| < 12 {
      return Panic;
    }
    tree := Dict(tree.d["manifest" := Dict(map["sha256-" + digestHex := Leaf(|manifestBytes|, manifestRoot)])]);
    var pieceLength := LadderPieceLength(total);
    var name := TorrentName(digestHex);
    var info := EncodeValue(InfoDict(tree, name, pieceLength));
    r := Ok((info, TorrentResult(name, pieceLength, total, Infohash(h, info), "", "")));
  }

  lemma EmptyPinned(manifestBytes: Bytes)
    ensures PinnedTree([]) == Ok(EmptyTree()) && Total(manifestBytes, []) == Wrap64(|manifestBytes|)
  {
  }

  lemma PinnedStep(files: seq<File>, i: nat, tree: Value, root: Bytes)
    requires i < |files| && tree.Dict? && PinnedTree(files[..i]) == Ok(tree)
    requires DecodeRoot(DigestHex(files[i].merkleRoot)) == Ok(root)
    ensures PinnedTree(files[..i + 1]) == AddFile(tree, files[i], root)
  {
    assert files[..i + 1][..i] == files[..i];
  }

  /** A failure on a prefix is the failure of the whole. */
  lemma {:induction false} PinnedPrefix(files: seq<File>, n: nat)
    requires n <= |files|
    ensures !PinnedTree(files[..n]).Ok? ==> PinnedTree(files) == PinnedTree(files[..n])
  {
    if n < |files| {
      PinnedPrefix(files[..|files| - 1], n);
      assert files[..|files| - 1][..n] == files[..n];
    } else {
      assert files[..n] == files;
    }
  }

  /* ---- From content ---- */

  /** The content of f resolves, has the size in the manifest, and the pinned merkle root. */
  predicate ContentMatches(h: Hasher, f: File, resolve: Resolver) {
    var data := resolve(f.name);
    data.Some? && |data.value| == f.size && DigestHex(f.merkleRoot) == Hex(Merkle.Root(h, data.value))
  }

  /** A pin that equals a computed root decodes to that root. */
  lemma PinDecodes(pin: string, root: Digest)
    requires pin == Hex(root)
    ensures DecodeRoot(pin) == Ok(root)
  {
    HexRoundTrip(root);
    assert root + seq(0, _ => '\0') == root;
  }

  /** The bytes of one piece-layers entry. */
  function Concat(hs: seq<Digest>): Bytes {
    if hs == [] then [] else
      var last: Bytes := hs[|hs| - 1];
      Concat(hs[..|hs| - 1]) + last
  }

  lemma {:induction false} ConcatAt(hs: seq<Digest>, k: nat)
    ensures |Concat(hs)| == 32 * |hs|
    ensures k < |hs| ==> Concat(hs)[32 * k..32 * k + 32] == hs[k]
  {
    if hs != [] {
      ConcatAt(hs[..|hs| - 1], k);
    }
  }

  function LayerBytes(h: Hasher, data: Bytes, pieceLength: int): Bytes {
    Concat(Merkle.PieceLayer(h, data, Merkle.Height(Merkle.BlocksPerPiece(pieceLength))))
  }

  /** The piece-layers dictionary: one entry for every file longer than a piece, keyed by its root. */
  function LayerMap(h: Hasher, files: seq<File>, resolve: Resolver, pieceLength: int): map<Bytes, Value>
    requires forall f :: f in files ==> ContentMatches(h, f, resolve)
  {
    if files == [] then map[]
    else
      var last := files[|files| - 1];
      assert ContentMatches(h, last, resolve);
      var before := LayerMap(h, files[..|files| - 1], resolve, pieceLength);
      AddLayer(h, before, last.size, resolve(last.name).value, pieceLength)
  }

  function AddLayer(h: Hasher, layers: map<Bytes, Value>, size: int, data: Bytes, pieceLength: int): map<Bytes, Value> {
    if size <= pieceLength then layers else layers[Merkle.Root(h, data) := Str(LayerBytes(h, data, pieceLength))]
  }

  /** The closure addLayer of BuildTorrent; the piece length is one of the ladder. */
  method AddLayerEntry(h: Hasher, layers: map<Bytes, Value>, size: int, root: Digest, data: Bytes, pieceLength: int)
    returns (next: map<Bytes, Value>)
    requires root == Merkle.Root(h, data) && Merkle.IsPow2(Merkle.BlocksPerPiece(pieceLength))
    ensures next == AddLayer(h, layers, size, data, pieceLength)
  {
    if size <= pieceLength {
      return layers;
    }
    var hashes := Merkle.PieceLayerHashes(h, data, pieceLength);
    var bytes: Bytes := "";
    for i := 0 to |hashes.value|
      invariant bytes == Concat(hashes.value[..i])
    {
      assert hashes.value[..i + 1][..i] == hashes.value[..i];
      var hash: Bytes := hashes.value[i];
      bytes := bytes + hash;
    }
    assert hashes.value[..|hashes.value|] == hashes.value;
    next := layers[root := Str(bytes)];
  }

  /**
   BuildTorrent.  It succeeds exactly when every content matches its pin and no path is taken twice;
   then it returns what BuildTorrentFromManifest returns, plus the piece layers.
   */
  method BuildTorrent(h: Hasher, files: seq<File>, manifestBytes: Bytes, digestHex: string, resolve: Resolver)
    returns (r: Outcome<(Bytes, TorrentResult)>)
    ensures r.Ok? <==>
      (forall f :: f in files ==> ContentMatches(h, f, resolve)) &&
      FromManifest(h, files, manifestBytes, digestHex).Ok?
    ensures r.Ok? ==>
      var pinned := FromManifest(h, files, manifestBytes, digestHex).value;
      var pl := pinned.1.pieceLength;
      var blob := Encode(Dict(AddLayer(h, LayerMap(h, files, resolve, pl), |manifestBytes|, manifestBytes, pl)));
      r.value == (pinned.0, pinned.1.(layers := blob, layersDigest := DigestOf(h, blob)))
    ensures r.Panic? ==> FromManifest(h, files, manifestBytes, digestHex).Panic?
  {
    hide PinnedTree, Total, LadderPieceLength, Encode, AddLayer, InfoDict, Infohash, TorrentName, Hex, Merkle.Root;
    var scan := ScanContent(h, files, manifestBytes, resolve);
    if !scan.Ok? {
      return if scan.Err? then Err else Panic;
    }
    var tree, total := scan.value.0, scan.value.1;
    var manifestRoot := Merkle.MerkleRoot(h, manifestBytes);
    if |digestHex| < 12 {
      return Panic;
    }
    tree := Dict(tree.d["manifest" := Dict(map["sha256-" + digestHex := Leaf(|manifestBytes|, manifestRoot)])]);
    var pieceLength := LadderPieceLength(total);
    LadderIsPowerOfTwo(total);
    var name := TorrentName(digestHex);
    var info := EncodeValue(InfoDict(tree, name, pieceLength));
    var layers: map<Bytes, Value> := map[];
    for i := 0 to |files|
      invariant layers == LayerMap(h, files[..i], resolve, pieceLength)
    {
      var f := files[i];
      assert files[..i + 1][..i] == files[..i];
      assert ContentMatches(h, f, resolve);
      var data := resolve(f.name).value;
      var root := Merkle.MerkleRoot(h, data);
      layers := AddLayerEntry(h, layers, f.size, root, data, pieceLength);
    }
    assert files[..|files|] == files;
    layers := AddLayerEntry(h, layers, |manifestBytes|, manifestRoot, manifestBytes, pieceLength);
    var blob := EncodeValue(Dict(layers));
    r := Ok((info, TorrentResult(name, pieceLength, total, Infohash(h, info), blob, DigestOf(h, blob))));
  }

  /** The first loop of BuildTorrent: resolve, check size and root, insert, add up. */
  method ScanContent(h: Hasher, files: seq<File>, manifestBytes: Bytes, resolve: Resolver)
    returns (r: Outcome<(Value, int)>)
    ensures r.Ok? ==>
      (forall f :: f in files ==> ContentMatches(h, f, resolve)) &&
      PinnedTree(files) == Ok(r.value.0) && r.value.1 == Total(manifestBytes, files)
    ensures r.Err? ==> exists f :: f in files && !ContentMatches(h, f, resolve)
    ensures r.Panic? ==> PinnedTree(files) == Panic
  {
    hide PinnedTree, AddFile, DecodeRoot, Merkle.Root, Hex, DigestHex, Wrap64;
    var tree := EmptyTree();
    EmptyPinned(manifestBytes);
    var total := Wrap64(|manifestBytes|);
    for i := 0 to |files|
      invariant forall f :: f in files[..i] ==> ContentMatches(h, f, resolve)
      invariant PinnedTree(files[..i]) == Ok(tree) && tree.Dict?
      invariant total == Total(manifestBytes, files[..i])
    {
      var f := files[i];
      assert f in files;
      assert files[..i + 1][..i] == files[..i];
      PinnedPrefix(files, i + 1);
      var data := resolve(f.name);
      if data.None? {
        return Err;
      }
      if |data.value| != f.size {
        return Err;
      }
      var root := Merkle.MerkleRoot(h, data.value);
      if DigestHex(f.merkleRoot) != Hex(root) {
        return Err;
      }
      PinDecodes(DigestHex(f.merkleRoot), root);
      PinnedStep(files, i, tree, root);
      var next := AddFile(tree, f, root);
      if !next.Ok? {
        return Panic;
      }
      tree := next.value;
      total := Wrap64(total + f.size);
    }
    assert files[..|files|] == files;
    r := Ok((tree, total));
  }
}
