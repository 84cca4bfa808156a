/**
 Sealing an artifact, reconstructing its torrent from the manifest alone, and the binding check
 between the two.  The JSON canonicalizers are parameters.
 */
module Seal {
  import opened Basics
  import opened Bencode
  import opened BlobStore
  import opened FileTree
  import opened Manifests
  import opened Torrent
  import opened Validate
  import Identity
  import InfoReader
  import Merkle
  import Paths

  datatype Distribution = Distribution(
    schemaVersion: int, artifactType: string, manifestDigest: string,
    infohash: string, pieceLength: int, layersDigest: string)

  datatype RecordError = BadRecord | BadInfohash

  const INFOHASH_PREFIX: string := "btmh:1220"

  /** The regular expression ^btmh:1220[0-9a-f]{64}$ */
  predicate IsInfohash(s: string) {
    INFOHASH_PREFIX <= s && |s| == 73 && IsHex(s[9..])
  }

  /** ValidateDistribution */
  function ValidateDistribution(d: Distribution): (err: Option<RecordError>)
    ensures err.None? <==>
      d.schemaVersion == 1 && d.artifactType == "distribution" && IsDigest(d.manifestDigest) &&
      IsInfohash(d.infohash) && d.pieceLength >= 16384 && Merkle.IsPow2(d.pieceLength) && IsDigest(d.layersDigest)
  {
    var pl := d.pieceLength;
    if d.schemaVersion != 1 || d.artifactType != "distribution" then Some(BadRecord)
    else if !IsDigest(d.manifestDigest) then Some(BadRecord)
    else if !IsInfohash(d.infohash) then Some(BadInfohash)
    else if pl < 16384 then Some(BadRecord)
    else
      Merkle.PowerOfTwoTest(pl);
      if Merkle.BitAnd(pl, pl - 1) != 0 then Some(BadRecord)
      else if !IsDigest(d.layersDigest) then Some(BadRecord)
      else None
  }

  /* ---- Reconstruction and the binding check ---- */

  datatype Recon = Recon(
    infohashHex: string, infohash: string, info: Bytes, pieceLength: int, totalSize: int,
    name: string, manifestDigest: string, manifestHex: string, specs: map<Bytes, FileSpec>)

  function Specs(files: seq<File>): map<Bytes, FileSpec> {
    if files == [] then map[]
    else
      var last := files[|files| - 1];
      Specs(files[..|files| - 1])[last.name := FileSpec(DigestHex(last.digest), last.size)]
  }

  ghost function ReconOf(h: Hasher, m: Manifest, manifestBytes: Bytes): Outcome<Recon> {
    var hex := Hex(h(manifestBytes));
    match FromManifest(h, m.files, manifestBytes, hex)
    case Err => Err
    case Panic => Panic
    case Ok((info, t)) =>
      Ok(Recon(
        if INFOHASH_PREFIX <= t.infohash then t.infohash[9..] else t.infohash, t.infohash, info,
        t.pieceLength, t.totalSize, t.name, SHA256_PREFIX + hex, hex,
        Specs(m.files)["manifest/sha256-" + hex := FileSpec(hex, |manifestBytes|)]))
  }

  /** What a reconstruction tells, to a reader of its info bytes too. */
  ghost predicate Tells(h: Hasher, m: Manifest, manifestBytes: Bytes, r: Recon) {
    && InfoReader.SaysOf(h, m, manifestBytes, r.info, r.name, r.pieceLength, r.totalSize, r.infohash)
    && r.infohashHex == Hex(h(r.info))
    && r.manifestHex == Hex(h(manifestBytes)) && r.manifestDigest == "sha256:" + Hex(h(manifestBytes))
  }

  /** Reconstruct.  Of an accepted manifest it never fails, and its info bytes say what the manifest says. */
  method Reconstruct(h: Hasher, m: Manifest, manifestBytes: Bytes) returns (r: Outcome<Recon>)
    ensures r == ReconOf(h, m, manifestBytes)
    ensures Accepts(m) ==> r.Ok? && Tells(h, m, manifestBytes, r.value)
  {
    hide FromManifest, Hex, DigestHex, Accepts, Tells;
    assert Accepts(m) ==>
      ReconOf(h, m, manifestBytes).Ok? && Tells(h, m, manifestBytes, ReconOf(h, m, manifestBytes).value) by {
      if Accepts(m) {
        ReconTells(h, m, manifestBytes);
      }
    }
    var hex := Hex(h(manifestBytes));
    var built := BuildTorrentFromManifest(h, m.files, manifestBytes, hex);
    if !built.Ok? {
      return if built.Err? then Err else Panic;
    }
    var info, t := built.value.0, built.value.1;
    var specs: map<Bytes, FileSpec> := map[];
    for i := 0 to |m.files|
      invariant specs == Specs(m.files[..i])
    {
      var f := m.files[i];
      assert m.files[..i + 1][..i] == m.files[..i];
      specs := specs[f.name := FileSpec(DigestHex(f.digest), f.size)];
    }
    assert m.files[..|m.files|] == m.files;
    specs := specs["manifest/sha256-" + hex := FileSpec(hex, |manifestBytes|)];
    var ihHex := if INFOHASH_PREFIX <= t.infohash then t.infohash[9..] else t.infohash;
    r := Ok(Recon(ihHex, t.infohash, info, t.pieceLength, t.totalSize, t.name, SHA256_PREFIX + hex, hex, specs));
  }

  datatype BindingError = WrongManifest | WrongInfohash | WrongPieceLength

  /** CheckRecord */
  function CheckRecord(r: Recon, d: Distribution): (err: Option<BindingError>)
    ensures err.None? <==>
      d.manifestDigest == r.manifestDigest && d.infohash == r.infohash && d.pieceLength == r.pieceLength
  {
    if d.manifestDigest != r.manifestDigest then Some(WrongManifest)
    else if d.infohash != r.infohash then Some(WrongInfohash)
    else if d.pieceLength != r.pieceLength then Some(WrongPieceLength)
    else None
  }

  /** derivedRecord: the record a BitTorrent import makes from the manifest and the layers blob. */
  function DerivedRecord(r: Recon, layersDigest: string): Distribution {
    Distribution(1, "distribution", r.manifestDigest, r.infohash, r.pieceLength, layersDigest)
  }

  lemma ReconShape(h: Hasher, m: Manifest, manifestBytes: Bytes)
    requires Accepts(m)
    ensures ReconOf(h, m, manifestBytes).Ok?
    ensures var r := ReconOf(h, m, manifestBytes).value;
      && r.manifestDigest == DigestOf(h, manifestBytes)
      && IsInfohash(r.infohash) && r.infohashHex == r.infohash[9..] && |r.infohashHex| == 64
      && r.pieceLength == LadderPieceLength(r.totalSize) && r.pieceLength >= 16384 && Merkle.IsPow2(r.pieceLength)
      && r.info == FromManifest(h, m.files, manifestBytes, r.manifestHex).value.0
  {
    var hex := Hex(h(manifestBytes));
    Identity.ManifestTree(h, m, manifestBytes, hex);
    var t := FromManifest(h, m.files, manifestBytes, hex).value;
    LadderIsPowerOfTwo(t.1.totalSize);
    assert Infohash(h, t.0)[9..] == Hex(h(t.0));
  }

  lemma ReconTells(h: Hasher, m: Manifest, manifestBytes: Bytes)
    requires Accepts(m)
    ensures ReconOf(h, m, manifestBytes).Ok? && Tells(h, m, manifestBytes, ReconOf(h, m, manifestBytes).value)
  {
    hide Accepts, FromManifest, InfoReader.SaysOf, Hex;
    ReconShape(h, m, manifestBytes);
    InfoReader.InfoReads(h, m, manifestBytes);
    ReconHash(h, m, manifestBytes);
  }

  lemma ReconHash(h: Hasher, m: Manifest, manifestBytes: Bytes)
    requires ReconOf(h, m, manifestBytes).Ok?
    ensures ReconOf(h, m, manifestBytes).value.infohashHex == Hex(h(ReconOf(h, m, manifestBytes).value.info))
  {
    hide Hex;
    var info := FromManifest(h, m.files, manifestBytes, Hex(h(manifestBytes))).value.0;
    assert Infohash(h, info)[9..] == Hex(h(info));
  }

  /** A record derived from an accepted manifest passes both gates. */
  lemma DerivedRecordPasses(h: Hasher, m: Manifest, manifestBytes: Bytes, layersDigest: string)
    requires Accepts(m) && IsDigest(layersDigest)
    ensures ReconOf(h, m, manifestBytes).Ok?
    ensures var r := ReconOf(h, m, manifestBytes).value;
      CheckRecord(r, DerivedRecord(r, layersDigest)).None? && ValidateDistribution(DerivedRecord(r, layersDigest)).None?
  {
    ReconShape(h, m, manifestBytes);
  }

  lemma InfohashInjective(h: Hasher, x: Bytes, y: Bytes)
    requires Infohash(h, x) == Infohash(h, y)
    ensures x == y || Collides(h, x, y)
  {
    hide Hex;
    assert Infohash(h, x)[9..] == Hex(h(x)) && Infohash(h, y)[9..] == Hex(h(y));
    HexInjective(h(x), h(y));
  }

  /**
   What the binding check binds: a record made from one manifest passes the check of another only
   when the two have the same bytes, and the same info dictionary, or SHA-256 collides on them.
   */
  lemma RecordBinds(h: Hasher, m: Manifest, b: Bytes, m': Manifest, b': Bytes, layersDigest: string)
    requires Accepts(m) && Accepts(m')
    requires ReconOf(h, m, b).Ok? && ReconOf(h, m', b').Ok?
    requires CheckRecord(ReconOf(h, m, b).value, DerivedRecord(ReconOf(h, m', b').value, layersDigest)).None?
    ensures b == b' || Collides(h, b, b')
    ensures var info, info' := ReconOf(h, m, b).value.info, ReconOf(h, m', b').value.info;
      info == info' || Collides(h, info, info')
  {
    hide FromManifest, Infohash, IsInfohash, Merkle.IsPow2, Accepts;
    ReconShape(h, m, b);
    ReconShape(h, m', b');
    DigestOfInjective(h, b, b');
    ReconInfohash(h, m, b);
    ReconInfohash(h, m', b');
    InfohashInjective(h, ReconOf(h, m, b).value.info, ReconOf(h, m', b').value.info);
  }

  lemma ReconInfohash(h: Hasher, m: Manifest, b: Bytes)
    requires ReconOf(h, m, b).Ok?
    ensures ReconOf(h, m, b).value.infohash == Infohash(h, ReconOf(h, m, b).value.info)
    ensures FromManifest(h, m.files, b, Hex(h(b))).Ok?
    ensures ReconOf(h, m, b).value.info == FromManifest(h, m.files, b, Hex(h(b))).value.0
  {
    hide Infohash, Hex;
  }

  /* ---- What an infohash binds ---- */

  /** Accepted manifests of one infohash have the same table of files, or their info bytes collide. */
  lemma InfohashBinds(h: Hasher, m: Manifest, b: Bytes, m': Manifest, b': Bytes)
    requires Accepts(m) && Accepts(m') && ReconOf(h, m, b).Ok? && ReconOf(h, m', b').Ok?
    requires ReconOf(h, m, b).value.infohash == ReconOf(h, m', b').value.infohash
    ensures Identity.Decodable(m.files) && Identity.Decodable(m'.files)
    ensures Collides(h, ReconOf(h, m, b).value.info, ReconOf(h, m', b').value.info) ||
      forall e :: e in Identity.Table(h, m.files, b, Hex(h(b))) <==> e in Identity.Table(h, m'.files, b', Hex(h(b')))
  {
    hide FromManifest, Infohash, ReconOf, Accepts, Identity.Table;
    ReconInfohash(h, m, b);
    ReconInfohash(h, m', b');
    InfohashInjective(h, ReconOf(h, m, b).value.info, ReconOf(h, m', b').value.info);
    Identity.InfoIdentity(h, m, b, Hex(h(b)), m', b', Hex(h(b')));
  }

  /** Two namesakes of one content, or a collision in the merkle trees of their contents. */
  ghost predicate SameContent(h: Hasher, f: File, resolve: Resolver, g: File, resolve': Resolver) {
    var x, y := resolve(f.name), resolve'(g.name);
    f.name == g.name && x.Some? && y.Some? &&
    (x == y || Merkle.CollisionIn(h, Merkle.RootInputs(h, x.value), Merkle.RootInputs(h, y.value)))
  }

  /**
   The content that an infohash binds: between two artifacts of one infohash every file has its
   namesake of the same content, or a collision is at hand, in the info bytes or in the two merkle
   trees of that file.
   */
  lemma ContentBinds(h: Hasher, m: Manifest, b: Bytes, resolve: Resolver, m': Manifest, b': Bytes, resolve': Resolver,
                     i: nat) returns (j: nat)
    requires Accepts(m) && Accepts(m') && ReconOf(h, m, b).Ok? && ReconOf(h, m', b').Ok? && i < |m.files|
    requires forall f :: f in m.files ==> ContentMatches(h, f, resolve)
    requires forall f :: f in m'.files ==> ContentMatches(h, f, resolve')
    requires ReconOf(h, m, b).value.infohash == ReconOf(h, m', b').value.infohash
    ensures Collides(h, ReconOf(h, m, b).value.info, ReconOf(h, m', b').value.info) ||
      (j < |m'.files| && SameContent(h, m.files[i], resolve, m'.files[j], resolve'))
  {
    hide FromManifest, ReconOf, Accepts, ContentMatches, Merkle.Root, Merkle.CollisionIn, Merkle.RootInputs, Hex,
      DecodeRoot, Paths.Split;
    j := 0;
    InfohashBinds(h, m, b, m', b');
    if !Collides(h, ReconOf(h, m, b).value.info, ReconOf(h, m', b').value.info) {
      j := Namesake(h, m, b, m', b', i);
      var f, g := m.files[i], m'.files[j];
      assert f in m.files && g in m'.files;
      PinnedContent(h, f, resolve);
      PinnedContent(h, g, resolve');
      Paths.SplitInjective(f.name, g.name);
      Merkle.RootBinds(h, resolve(f.name).value, resolve'(g.name).value);
    }
  }

  /** The entry of file i, found among the files of the other manifest. */
  lemma Namesake(h: Hasher, m: Manifest, b: Bytes, m': Manifest, b': Bytes, i: nat) returns (j: nat)
    requires Accepts(m) && Accepts(m') && Identity.Decodable(m.files) && Identity.Decodable(m'.files) && i < |m.files|
    requires forall e ::
      e in Identity.Table(h, m.files, b, Hex(h(b))) <==> e in Identity.Table(h, m'.files, b', Hex(h(b')))
    ensures j < |m'.files| && Identity.PinnedEntry(m.files[i]) == Identity.PinnedEntry(m'.files[j])
  {
    hide Accepts, Hex, DecodeRoot, Paths.Split;
    Identity.OutsideManifestDir(m);
    Identity.OutsideManifestDir(m');
    var t, t' := Identity.Table(h, m.files, b, Hex(h(b))), Identity.Table(h, m'.files, b', Hex(h(b')));
    var e := Identity.FileEntries(m.files)[i];
    assert t[i] == e && e in t;
    var k :| 0 <= k < |t'| && t'[k] == e;
    assert e.path[0] != "manifest";
    j := k;
  }

  /** The entry of a file whose content matches its pin carries that content's size and root. */
  lemma PinnedContent(h: Hasher, f: File, resolve: Resolver)
    requires ContentMatches(h, f, resolve) && DecodeRoot(DigestHex(f.merkleRoot)).Ok?
    ensures resolve(f.name).Some?
    ensures var x := resolve(f.name).value;
      Identity.PinnedEntry(f) == Entry(Paths.Split(f.name), |x|, Merkle.Root(h, x))
  {
    hide DecodeRoot, Merkle.Root, Hex, Paths.Split;
    PinDecodes(DigestHex(f.merkleRoot), Merkle.Root(h, resolve(f.name).value));
  }

  lemma InitNames(files: seq<File>)
    requires !SameName(files) && files != []
    ensures !SameName(files[..|files| - 1])
    ensures forall i :: 0 <= i < |files| - 1 ==> files[i].name != files[|files| - 1].name
  {
    var k := |files| - 1;
    forall i, j | 0 <= i < j < k ensures files[..k][i].name != files[..k][j].name {
      assert !(files[i].name == files[j].name);
    }
    forall i | 0 <= i < k ensures files[i].name != files[k].name {
      assert !(files[i].name == files[k].name);
    }
  }

  lemma {:induction false} SpecFrom(files: seq<File>, n: Bytes)
    requires n in Specs(files)
    ensures exists i :: 0 <= i < |files| && files[i].name == n
  {
    var k := |files| - 1;
    if n == files[k].name {
    } else {
      SpecFrom(files[..k], n);
      var i :| 0 <= i < k && files[..k][i].name == n;
      assert files[i].name == n;
    }
  }

  lemma {:induction false} SpecAt(files: seq<File>, i: nat)
    requires i < |files| && !SameName(files)
    ensures files[i].name in Specs(files)
    ensures Specs(files)[files[i].name] == FileSpec(DigestHex(files[i].digest), files[i].size)
  {
    InitNames(files);
    if i < |files| - 1 {
      SpecAt(files[..|files| - 1], i);
    }
  }

  /** The storage driver is registered for exactly the files that the info dict names. */
  lemma SpecsCoverTree(h: Hasher, m: Manifest, manifestBytes: Bytes, name: Bytes)
    requires Accepts(m)
    ensures ReconOf(h, m, manifestBytes).Ok? && PinnedTree(m.files).Ok?
    ensures var r := ReconOf(h, m, manifestBytes).value;
      name in r.specs <==>
      Lookup(WithManifest(h, PinnedTree(m.files).value, manifestBytes, r.manifestHex), Paths.Split(name)).Some?
  {
    hide Paths.Split, PinnedTree, FromManifest, WithManifest, Lookup, Identity.FileEntries, Hex, Specs;
    var hex := Hex(h(manifestBytes));
    ReconShape(h, m, manifestBytes);
    ReconSpecs(h, m, manifestBytes);
    Identity.AcceptedFacts(m);
    if name in Specs(m.files) {
      SpecFrom(m.files, name);
    }
    forall i | 0 <= i < |m.files| ensures m.files[i].name in Specs(m.files) {
      SpecAt(m.files, i);
    }
    Identity.TreeReadsBack(h, m, manifestBytes, hex, Paths.Split(name));
    ManifestPath(hex);
    if Paths.Split(name) == ["manifest", "sha256-" + hex] {
      Paths.SplitInjective(name, "manifest/sha256-" + hex);
    }
    forall i | 0 <= i < |m.files| && Paths.Split(name) == Paths.Split(m.files[i].name) ensures name == m.files[i].name {
      Paths.SplitInjective(name, m.files[i].name);
    }
  }

  lemma ReconSpecs(h: Hasher, m: Manifest, manifestBytes: Bytes)
    requires ReconOf(h, m, manifestBytes).Ok?
    ensures ReconOf(h, m, manifestBytes).value.specs.Keys ==
            Specs(m.files).Keys + {"manifest/sha256-" + Hex(h(manifestBytes))}
    ensures ReconOf(h, m, manifestBytes).value.manifestHex == Hex(h(manifestBytes))
  {
  }

  lemma ManifestPath(hex: string)
    requires IsHex(hex)
    ensures Paths.Split("manifest/sha256-" + hex) == ["manifest", "sha256-" + hex]
  {
    var segs := ["manifest", "sha256-" + hex];
    assert segs[1..] == ["sha256-" + hex];
    assert Paths.Join(segs) == "manifest" + ['/'] + ("sha256-" + hex) == "manifest/sha256-" + hex;
    Paths.SplitJoin(segs);
  }

  /* ---- Seal ---- */

  datatype Sealed = Sealed(
    manifest: Manifest, manifestBytes: Bytes, manifestDigest: string, torrent: TorrentResult,
    distribution: Distribution, distributionBytes: Bytes, distributionDigest: string)

  /**
   Seal.  It never panics; it succeeds exactly when the sorted manifest is acceptable and every
   content matches its pin; and what it seals passes ValidateDistribution and CheckRecord, and is
   the record that an import from the manifest and the layers alone derives.
   */
  method Seal(h: Hasher, files: seq<File>, annotations: map<string, string>, resolve: Resolver,
              canonical: Manifest -> Bytes, canonicalRecord: Distribution -> Bytes)
    returns (r: Outcome<Sealed>)
    ensures !r.Panic?
    ensures r.Ok? <==>
      Accepts(Manifest(1, "model", SortFiles(files), annotations)) &&
      forall f :: f in SortFiles(files) ==> ContentMatches(h, f, resolve)
    ensures r.Ok? ==>
      var s := r.value;
      && s.manifest == Manifest(1, "model", SortFiles(files), annotations)
      && s.manifestBytes == canonical(s.manifest) && s.manifestDigest == DigestOf(h, s.manifestBytes)
      && s.distributionBytes == canonicalRecord(s.distribution)
      && s.distributionDigest == DigestOf(h, s.distributionBytes)
      && s.torrent.layersDigest == DigestOf(h, s.torrent.layers)
      && ValidateDistribution(s.distribution).None?
      && ReconOf(h, s.manifest, s.manifestBytes).Ok?
      && var recon := ReconOf(h, s.manifest, s.manifestBytes).value;
         CheckRecord(recon, s.distribution).None? && Tells(h, s.manifest, s.manifestBytes, recon) &&
         s.distribution == DerivedRecord(recon, s.torrent.layersDigest) &&
         s.torrent.infohash == recon.infohash && s.torrent.name == recon.name &&
         s.torrent.pieceLength == recon.pieceLength && s.torrent.totalSize == recon.totalSize
    ensures r.Ok? ==>
      HoldsLayers(h, SortFiles(files), resolve, r.value.manifestBytes, r.value.torrent.pieceLength,
                  r.value.torrent.layers)
  {
    hide Tells, FromManifest, Merkle.IsPow2, LayerMap, AddLayer, HoldsLayers, Encode;
    var sorted := SortFiles(files);
    var m := Manifest(1, "model", sorted, annotations);
    var err := ValidateManifest(m);
    if err.Some? {
      return Err;
    }
    var manifestBytes := canonical(m);
    var manifestDigest := DigestOf(h, manifestBytes);
    Identity.ManifestTree(h, m, manifestBytes, DigestHex(manifestDigest));
    var built := BuildTorrent(h, sorted, manifestBytes, DigestHex(manifestDigest), resolve);
    if !built.Ok? {
      return if built.Err? then Err else Panic;
    }
    var t := built.value.1;
    var d := Distribution(1, "distribution", manifestDigest, t.infohash, t.pieceLength, t.layersDigest);
    SealedRecord(h, m, manifestBytes, d);
    ReconTells(h, m, manifestBytes);
    LayersRead(h, sorted, resolve, manifestBytes, t.pieceLength);
    var bytes := canonicalRecord(d);
    r := Ok(Sealed(m, manifestBytes, manifestDigest, t, d, bytes, DigestOf(h, bytes)));
  }

  lemma SealedRecord(h: Hasher, m: Manifest, manifestBytes: Bytes, d: Distribution)
    requires Accepts(m) && FromManifest(h, m.files, manifestBytes, Hex(h(manifestBytes))).Ok?
    requires var t := FromManifest(h, m.files, manifestBytes, Hex(h(manifestBytes))).value.1;
      d == Distribution(1, "distribution", DigestOf(h, manifestBytes), t.infohash, t.pieceLength, d.layersDigest)
    requires IsDigest(d.layersDigest)
    ensures ValidateDistribution(d).None? && ReconOf(h, m, manifestBytes).Ok?
    ensures CheckRecord(ReconOf(h, m, manifestBytes).value, d).None?
    ensures d == DerivedRecord(ReconOf(h, m, manifestBytes).value, d.layersDigest)
  {
    ReconShape(h, m, manifestBytes);
    DerivedRecordPasses(h, m, manifestBytes, d.layersDigest);
  }

  /* ---- Piece layers ---- */

  /** A layers entry is the piece layer of a content whose root is the key, longer than a piece. */
  ghost predicate LayerOf(h: Hasher, root: Bytes, v: Value, data: Bytes, pieceLength: int) {
    Merkle.Root(h, data) == root && |data| > pieceLength && v == Str(LayerBytes(h, data, pieceLength))
  }

  lemma {:induction false} LayersAreOfContents(h: Hasher, files: seq<File>, resolve: Resolver, pieceLength: int,
                                               root: Bytes)
    requires forall f :: f in files ==> ContentMatches(h, f, resolve)
    ensures root in LayerMap(h, files, resolve, pieceLength) <==>
      exists f :: f in files && f.size > pieceLength && root == Merkle.Root(h, resolve(f.name).value)
    ensures root in LayerMap(h, files, resolve, pieceLength) ==>
      exists f :: f in files &&
        LayerOf(h, root, LayerMap(h, files, resolve, pieceLength)[root], resolve(f.name).value, pieceLength)
  {
    hide Merkle.Root, LayerBytes, Hex;
    if files != [] {
      var init, last := files[..|files| - 1], files[|files| - 1];
      assert files == init + [last];
      assert ContentMatches(h, last, resolve) && last in files;
      var data := resolve(last.name).value;
      LayersAreOfContents(h, init, resolve, pieceLength, root);
      if last.size > pieceLength && root == Merkle.Root(h, data) {
        assert LayerOf(h, root, LayerMap(h, files, resolve, pieceLength)[root], data, pieceLength);
      }
    }
  }

  /**
   The piece-layers dictionary of BuildTorrent, the embedded manifest included: its keys are exactly
   the roots of the contents longer than a piece, and each entry is the layer of such a content.
   */
  lemma LayersExactly(h: Hasher, files: seq<File>, resolve: Resolver, manifestBytes: Bytes, pieceLength: int,
                      root: Bytes)
    requires forall f :: f in files ==> ContentMatches(h, f, resolve)
    ensures
      var contents := LayerMap(h, files, resolve, pieceLength);
      var layers := AddLayer(h, contents, |manifestBytes|, manifestBytes, pieceLength);
      && (root in layers <==>
           (exists f :: f in files && f.size > pieceLength && root == Merkle.Root(h, resolve(f.name).value)) ||
           (|manifestBytes| > pieceLength && root == Merkle.Root(h, manifestBytes)))
      && (root in layers ==>
           LayerOf(h, root, layers[root], manifestBytes, pieceLength) ||
           exists f :: f in files && LayerOf(h, root, layers[root], resolve(f.name).value, pieceLength))
  {
    hide Merkle.Root, LayerBytes, Hex, LayerMap, ContentMatches;
    LayersAreOfContents(h, files, resolve, pieceLength, root);
  }

  /** The content with this root and layers entry is that of a file, or the manifest. */
  ghost predicate Layered(h: Hasher, files: seq<File>, resolve: Resolver, manifestBytes: Bytes, pl: int, root: Bytes,
                          v: Value)
  {
    LayerOf(h, root, v, manifestBytes, pl) ||
    exists f :: f in files && resolve(f.name).Some? && LayerOf(h, root, v, resolve(f.name).value, pl)
  }

  /** What is longer than a piece has its root in the dictionary. */
  ghost predicate LongOnes(h: Hasher, files: seq<File>, resolve: Resolver, manifestBytes: Bytes, pl: int,
                           layers: map<Bytes, Value>)
  {
    && (|manifestBytes| > pl ==> Bytes32(Merkle.Root(h, manifestBytes)) in layers)
    && forall f :: f in files && f.size > pl && resolve(f.name).Some? ==>
         Bytes32(Merkle.Root(h, resolve(f.name).value)) in layers
  }

  function Bytes32(d: Digest): Bytes {
    d
  }

  /** A reader of the piece-layers blob finds a layer for every content longer than a piece, and no other. */
  ghost predicate HoldsLayers(h: Hasher, files: seq<File>, resolve: Resolver, manifestBytes: Bytes, pl: int,
                              blob: Bytes)
  {
    var v := Bencode.Read(blob);
    && v.Some? && v.value.0.Dict? && v.value.1 == []
    && LongOnes(h, files, resolve, manifestBytes, pl, v.value.0.d)
    && forall root :: root in v.value.0.d ==> Layered(h, files, resolve, manifestBytes, pl, root, v.value.0.d[root])
  }

  lemma LayersRead(h: Hasher, files: seq<File>, resolve: Resolver, manifestBytes: Bytes, pl: int)
    requires forall f :: f in files ==> ContentMatches(h, f, resolve)
    ensures HoldsLayers(h, files, resolve, manifestBytes, pl,
      Encode(Dict(AddLayer(h, LayerMap(h, files, resolve, pl), |manifestBytes|, manifestBytes, pl))))
  {
    hide Merkle.Root, LayerOf, LayerMap, AddLayer, Hex, Bencode.Read, Encode;
    var layers := AddLayer(h, LayerMap(h, files, resolve, pl), |manifestBytes|, manifestBytes, pl);
    Bencode.ReadBack(Dict(layers), []);
    assert Encode(Dict(layers)) + [] == Encode(Dict(layers));
    forall root: Bytes ensures root in layers ==> Layered(h, files, resolve, manifestBytes, pl, root, layers[root]) {
      LayersExactly(h, files, resolve, manifestBytes, pl, root);
    }
    LayersExactly(h, files, resolve, manifestBytes, pl, Bytes32(Merkle.Root(h, manifestBytes)));
    forall f | f in files && f.size > pl && resolve(f.name).Some?
      ensures Bytes32(Merkle.Root(h, resolve(f.name).value)) in layers
    {
      LayersExactly(h, files, resolve, manifestBytes, pl, Bytes32(Merkle.Root(h, resolve(f.name).value)));
    }
  }

  /** Under the ladder every layers entry folds back to the root it is filed under. */
  lemma LayerFoldsToKey(h: Hasher, root: Bytes, v: Value, data: Bytes, total: int, j: nat, m: nat)
    requires LayerOf(h, root, v, data, LadderPieceLength(total))
    requires j == Merkle.Height(Merkle.BlocksPerPiece(LadderPieceLength(total)))
    requires j + m == Merkle.Height(Merkle.BlockCount(data))
    ensures v == Str(Concat(Merkle.PieceLayer(h, data, j)))
    ensures |Merkle.PieceLayer(h, data, j)| <= Merkle.Pow2(m)
    ensures Merkle.Tree(h, m, Merkle.Pad(Merkle.PieceLayer(h, data, j),
              Merkle.Tree(h, j, Merkle.Zeros(Merkle.Pow2(j))), Merkle.Pow2(m))) == root
  {
    hide Merkle.Tree, Merkle.Pow2, Merkle.IsPow2, Merkle.PieceLayer, Merkle.Root;
    LadderIsPowerOfTwo(total);
    Merkle.PieceLayerFoldsToRoot(h, data, j, m);
  }

  /**
   A layers entry holds 32 bytes for every piece of its content, in order: the root of that piece, which
   for a full piece is the root of a file with just its bytes.
   */
  lemma LayerHoldsPieces(h: Hasher, root: Bytes, v: Value, data: Bytes, total: int, j: nat, k: nat, lo: nat,
                         piece: Bytes)
    requires LayerOf(h, root, v, data, LadderPieceLength(total))
    requires j == Merkle.Height(Merkle.BlocksPerPiece(LadderPieceLength(total)))
    requires lo == k * LadderPieceLength(total) && lo < |data|
    requires piece == data[lo..Min(lo + LadderPieceLength(total), |data|)]
    ensures v.Str? && |v.s| == 32 * Merkle.CeilDiv(|data|, LadderPieceLength(total)) && 32 * k + 32 <= |v.s|
    ensures Merkle.BlockCount(piece) <= Merkle.Pow2(j) && v.s[32 * k..32 * k + 32] == Merkle.PieceRoot(h, piece, j)
    ensures |piece| == LadderPieceLength(total) ==> v.s[32 * k..32 * k + 32] == Merkle.Root(h, piece)
  {
    hide Merkle.Tree, Merkle.Pow2, Merkle.IsPow2, Merkle.PieceLayer, Merkle.Root, Merkle.PieceRoot, Concat,
      LadderPieceLength,
      Merkle.Height, Merkle.CeilDiv;
    var pl := LadderPieceLength(total);
    LadderIsPowerOfTwo(total);
    Merkle.MulSwap(k, Merkle.Pow2(j), Merkle.BLOCK);
    Merkle.PieceLayerEntry(h, data, j, k, k * Merkle.Pow2(j));
    Merkle.KeepEntry(|data|, pl, k);
    ConcatAt(Merkle.PieceLayer(h, data, j), k);
    assert Merkle.Piece(data, lo, pl) == piece;
    if |piece| == pl {
      Merkle.FullPieceRoot(h, piece, j);
    }
  }
}
