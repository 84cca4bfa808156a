/**
 The swarm side of Fill and ImportBT: the driver is opened for a reconstructed torrent, the engine makes
 its calls, and WaitSealed looks whether every registered file is there.
 */
module SwarmFetch {
  import opened Basics
  import opened Bencode
  import opened BlobStore
  import opened Manifests
  import opened Torrent
  import opened Validate
  import C = CasDriver
  import D = ForeignDriver
  import FileTree
  import Identity
  import Merkle
  import O = ForeignOpen
  import Paths
  import Seal

  /** The file tree of the info dict. */
  function InfoTree(h: Hasher, m: Manifest, manifestBytes: Bytes): Value
    requires PinnedTree(m.files).Ok?
  {
    WithManifest(h, PinnedTree(m.files).value, manifestBytes, Hex(h(manifestBytes)))
  }

  /** The entries are files of the tree, none of them twice. */
  ghost predicate FilesOf(tree: Value, entries: seq<C.Entry>) {
    && (forall j, k :: 0 <= j < k < |entries| ==> entries[j].path != entries[k].path)
    && (forall k :: 0 <= k < |entries| ==> FileTree.Lookup(tree, entries[k].path).Some?)
  }

  /** The names of a manifest's torrent: its own place, and those of its files. */
  ghost predicate Listed(m: Manifest, hex: string, name: Bytes) {
    name == "manifest/sha256-" + hex || exists i :: 0 <= i < |m.files| && name == m.files[i].name
  }

  lemma PathListed(h: Hasher, m: Manifest, manifestBytes: Bytes, p: FileTree.Path) returns (name: Bytes)
    requires Accepts(m) && PinnedTree(m.files).Ok? && FileTree.Lookup(InfoTree(h, m, manifestBytes), p).Some?
    ensures Listed(m, Hex(h(manifestBytes)), name) && p == Paths.Split(name)
  {
    hide Accepts, PinnedTree, WithManifest, FileTree.Lookup, Paths.Split, Identity.FileEntries, Hex;
    var hex := Hex(h(manifestBytes));
    Identity.TreeReadsBack(h, m, manifestBytes, hex, p);
    Seal.ManifestPath(hex);
    if p == ["manifest", "sha256-" + hex] {
      name := "manifest/sha256-" + hex;
    } else {
      var i :| 0 <= i < |m.files| && p == Paths.Split(m.files[i].name);
      name := m.files[i].name;
    }
  }

  lemma ListedCanonical(m: Manifest, hex: string, name: Bytes)
    requires Accepts(m) && IsHex(hex) && Listed(m, hex, name)
    ensures O.CanonicalPath(Paths.Split(name))
  {
    hide Accepts, Paths.Split, Paths.GoodName, O.CanonicalPath;
    if name == "manifest/sha256-" + hex {
      Seal.ManifestPath(hex);
      PlainHex(hex);
    } else {
      Identity.AcceptedFacts(m);
      var i :| 0 <= i < |m.files| && name == m.files[i].name;
      assert m.files[i] in m.files;
      PlainName(name);
    }
  }

  lemma PlainName(name: Bytes)
    requires Paths.GoodName(name)
    ensures O.CanonicalPath(Paths.Split(name))
  {
    hide Paths.Split;
    var segs := Paths.Split(name);
    assert forall k :: 0 <= k < |segs| ==> segs[k] in segs && Paths.GoodSegment(segs[k]);
  }

  lemma PlainHex(hex: string)
    requires IsHex(hex)
    ensures O.CanonicalPath(["manifest", "sha256-" + hex])
  {
    assert forall i :: 0 <= i < |hex| ==> IsHexDigit(hex[i]);
    assert ("sha256-" + hex)[0] == 's';
  }

  /** A path of an accepted manifest's tree: canonical, without slashes in its segments, and registered. */
  lemma TreePath(h: Hasher, m: Manifest, manifestBytes: Bytes, p: FileTree.Path)
    requires Accepts(m) && PinnedTree(m.files).Ok? && FileTree.Lookup(InfoTree(h, m, manifestBytes), p).Some?
    ensures O.CanonicalPath(p) && Paths.Split(Paths.Join(p)) == p
    ensures Seal.ReconOf(h, m, manifestBytes).Ok? && Paths.Join(p) in Seal.ReconOf(h, m, manifestBytes).value.specs
  {
    hide Accepts, PinnedTree, WithManifest, FileTree.Lookup, Paths.Split, Paths.Join, Seal.ReconOf, Hex, Listed,
      O.CanonicalPath;
    var name := PathListed(h, m, manifestBytes, p);
    ListedCanonical(m, Hex(h(manifestBytes)), name);
    Paths.JoinSplit(name);
    Seal.ReconShape(h, m, manifestBytes);
    Seal.SpecsCoverTree(h, m, manifestBytes, name);
    Seal.ReconSpecs(h, m, manifestBytes);
  }

  /** Files of an accepted manifest's tree have canonical paths, distinct names, and a registered digest each. */
  lemma AcceptedOpens(h: Hasher, m: Manifest, manifestBytes: Bytes, entries: seq<C.Entry>)
    requires Accepts(m) && PinnedTree(m.files).Ok? && FilesOf(InfoTree(h, m, manifestBytes), entries)
    ensures Seal.ReconOf(h, m, manifestBytes).Ok?
    ensures forall k :: 0 <= k < |entries| ==> O.CanonicalPath(entries[k].path)
    ensures forall k :: 0 <= k < |entries| ==> C.Name(entries[k]) in Seal.ReconOf(h, m, manifestBytes).value.specs
    ensures C.DistinctNames(entries)
  {
    hide Accepts, PinnedTree, WithManifest, FileTree.Lookup, Paths.Split, Paths.Join, Seal.ReconOf, O.CanonicalPath;
    Seal.ReconShape(h, m, manifestBytes);
    forall k | 0 <= k < |entries|
      ensures O.CanonicalPath(entries[k].path) && Paths.Split(C.Name(entries[k])) == entries[k].path
      ensures C.Name(entries[k]) in Seal.ReconOf(h, m, manifestBytes).value.specs
    {
      TreePath(h, m, manifestBytes, entries[k].path);
    }
  }

  /** What is registered under each name: the pin of that file, or the manifest's own digest. */
  lemma RegisteredPins(h: Hasher, m: Manifest, manifestBytes: Bytes)
    requires Accepts(m) && Seal.ReconOf(h, m, manifestBytes).Ok?
    ensures var r := Seal.ReconOf(h, m, manifestBytes).value;
      && (forall p :: p in r.specs ==> |r.specs[p].digest| == 64)
      && (forall f :: f in m.files ==> f.name in r.specs && r.specs[f.name].digest == DigestHex(f.digest))
      && "manifest/sha256-" + r.manifestHex in r.specs
      && r.specs["manifest/sha256-" + r.manifestHex].digest == r.manifestHex
  {
    hide Accepts, FromManifest, Seal.Specs, Hex, Paths.Split;
    var r, hex := Seal.ReconOf(h, m, manifestBytes).value, Hex(h(manifestBytes));
    var own: Bytes := "manifest/sha256-" + hex;
    assert r.specs == Seal.Specs(m.files)[own := FileSpec(hex, |manifestBytes|)];
    Identity.AcceptedFacts(m);
    AcceptedDigests(m);
    forall i | 0 <= i < |m.files|
      ensures m.files[i].name in r.specs && r.specs[m.files[i].name].digest == DigestHex(m.files[i].digest)
    {
      Seal.SpecAt(m.files, i);
      Seal.ManifestPath(hex);
      assert m.files[i] in m.files && !Paths.Reserved(m.files[i].name);
    }
    forall p | p in r.specs ensures |r.specs[p].digest| == 64 {
      if p != own {
        Seal.SpecFrom(m.files, p);
      }
    }
  }

  lemma AcceptedDigests(m: Manifest)
    requires Accepts(m)
    ensures forall f :: f in m.files ==> IsDigest(f.digest)
  {
    assert !Violates(m, E_VALIDATION);
    forall f | f in m.files ensures IsDigest(f.digest) {
      assert !BadEntry(f);
    }
  }

  /** The states of a freshly opened driver are registered files, pinned as they were registered. */
  lemma OpenedPins(entries: seq<C.Entry>, pl: nat, pins: map<Bytes, FileSpec>, blobs: map<string, Bytes>)
    requires pl > 0 && forall k :: 0 <= k < |entries| ==> C.Name(entries[k]) in pins
    ensures var files := C.FirstStates(entries, |entries|, pl, pins, blobs);
      forall p :: p in files ==> p in pins && files[p].spec.digest == pins[p].digest
  {
    hide C.Name, C.FirstStates;
    var files := C.FirstStates(entries, |entries|, pl, pins, blobs);
    forall p | p in files ensures p in pins && files[p].spec.digest == pins[p].digest {
      C.StateFrom(entries, |entries|, pl, pins, blobs, p);
      var k := C.StateAt(entries, |entries|, pl, pins, blobs, p);
    }
  }

  /** Each content is that of a registered file, by its digest and its length. */
  ghost predicate ContentsOf(h: Hasher, entries: seq<C.Entry>, specs: map<Bytes, FileSpec>, contents: map<Bytes, Bytes>)
  {
    forall p :: p in contents ==>
      && p in specs && specs[p].digest == Hex(h(contents[p]))
      && exists k :: 0 <= k < |entries| && C.Name(entries[k]) == p && entries[k].length == |contents[p]| > 0
  }

  /** The calls mark every piece of these files, and retract none for good. */
  ghost predicate Finished(spans: seq<C.Span>, count: nat, calls: seq<C.Call>, paths: set<Bytes>) {
    forall p :: p in paths ==> C.AllMarked(spans, count, C.Marks({}, calls), p)
  }

  /** A freshly opened driver is ready to be served the contents of its files. */
  lemma ReadyToServe(h: Hasher, entries: seq<C.Entry>, pl: nat, specs: map<Bytes, FileSpec>, files: C.States,
                     complete: set<int>, blobs: map<string, Bytes>, contents: map<Bytes, Bytes>)
    requires pl > 0 && C.DistinctNames(entries) && C.AllStart(entries, pl, specs, files, blobs)
    requires C.AllOk(C.SpansOf(entries, |entries|, pl), C.PiecesBefore(entries, |entries|, pl), files, complete, blobs)
    requires forall i :: i in complete ==> i < C.PiecesBefore(entries, |entries|, pl)
    requires ContentsOf(h, entries, specs, contents)
    ensures forall p :: p in contents ==>
      && p in files && C.PinnedTo(h, C.SpansOf(entries, |entries|, pl), pl, files[p], p, contents[p])
      && C.Untouched(C.SpansOf(entries, |entries|, pl), files[p], complete, p)
  {
    hide C.AllOk, C.SpansOf, C.PiecesBefore, C.Name, C.PinnedTo, C.Untouched, C.AllStart, Hex;
    forall p | p in contents
      ensures p in files && C.PinnedTo(h, C.SpansOf(entries, |entries|, pl), pl, files[p], p, contents[p])
      ensures C.Untouched(C.SpansOf(entries, |entries|, pl), files[p], complete, p)
    {
      var k :| 0 <= k < |entries| && C.Name(entries[k]) == p && entries[k].length == |contents[p]| > 0;
      StartOf(entries, pl, specs, files, blobs, k);
      OneReady(h, entries, pl, specs, files[p], complete, blobs, contents[p], k);
      StillUntouched(entries, pl, specs, files, complete, blobs, k);
    }
  }

  lemma StartOf(entries: seq<C.Entry>, pl: nat, specs: map<Bytes, FileSpec>, files: C.States, blobs: map<string, Bytes>,
                k: nat)
    requires pl > 0 && C.AllStart(entries, pl, specs, files, blobs) && k < |entries| && entries[k].length > 0
    ensures C.Name(entries[k]) in files
    ensures C.StartsAs(files[C.Name(entries[k])], C.Pin(specs, C.Name(entries[k])), entries[k].length,
                       Merkle.CeilDiv(entries[k].length, pl), blobs)
  {
  }

  lemma OneReady(h: Hasher, entries: seq<C.Entry>, pl: nat, specs: map<Bytes, FileSpec>, st: C.FileState,
                 complete: set<int>, blobs: map<string, Bytes>, content: Bytes, k: nat)
    requires pl > 0 && C.DistinctNames(entries) && k < |entries| && entries[k].length == |content| > 0
    requires var p := C.Name(entries[k]);
      && p in specs && specs[p].digest == Hex(h(content))
      && C.StartsAs(st, C.Pin(specs, p), |content|, Merkle.CeilDiv(|content|, pl), blobs)
    ensures C.PinnedTo(h, C.SpansOf(entries, |entries|, pl), pl, st, C.Name(entries[k]), content)
  {
    hide C.SpansOf, C.Name, Hex, Merkle.CeilDiv;
    var spans := C.SpansOf(entries, |entries|, pl);
    forall j | 0 <= j < |spans| && spans[j].path == C.Name(entries[k])
      ensures Merkle.CeilDiv(|content|, pl) == spans[j].end - spans[j].begin
    {
      var i := C.EntryAt(entries, |entries|, pl, j);
      assert i == k;
    }
  }

  lemma StillUntouched(entries: seq<C.Entry>, pl: nat, specs: map<Bytes, FileSpec>, files: C.States, complete: set<int>,
                       blobs: map<string, Bytes>, k: nat)
    requires pl > 0 && k < |entries| && entries[k].length > 0 && C.Name(entries[k]) in files
    requires C.AllOk(C.SpansOf(entries, |entries|, pl), C.PiecesBefore(entries, |entries|, pl), files, complete, blobs)
    requires forall i :: i in complete ==> i < C.PiecesBefore(entries, |entries|, pl)
    requires C.StartsAs(files[C.Name(entries[k])], C.Pin(specs, C.Name(entries[k])), entries[k].length,
                        Merkle.CeilDiv(entries[k].length, pl), blobs)
    ensures C.Untouched(C.SpansOf(entries, |entries|, pl), files[C.Name(entries[k])], complete, C.Name(entries[k]))
  {
    hide C.SpansOf, C.Name, Merkle.CeilDiv, C.PiecesBefore, C.EndToEnd, C.DistinctPaths, C.FileOk, C.PathOf, C.Local,
      C.Pieces,
      C.Owner;
    var p, spans := C.Name(entries[k]), C.SpansOf(entries, |entries|, pl);
    var count := C.PiecesBefore(entries, |entries|, pl);
    var st := files[p];
    forall i: nat | i in complete && C.PathOf(spans, i) == p ensures st.sealed {
      var j := C.Find(spans, count, i);
      C.OneOwner(spans, count, j, i);
      assert C.Explained(spans[j], files[spans[j].path], complete);
    }
  }

  /**
   Of an accepted manifest the driver always opens, in order and with every file pinned, and however the
   engine calls it, WaitSealed of as many files as are registered is over exactly when each of them is
   sealed.  Then every file of the manifest, and the manifest, is in the store under its digest.  And it
   does end so when the engine serves every registered file honestly and marks every piece.
   */
  method Fetch(store: Store, ghost m: Manifest, ghost manifestBytes: Bytes, recon: Seal.Recon, entries: seq<C.Entry>,
               calls: seq<C.Call>, ghost contents: map<Bytes, Bytes>)
    returns (d: C.CasTorrent, failed: bool, ready: bool)
    requires store.Sound() && Accepts(m) && Seal.ReconOf(store.h, m, manifestBytes) == Ok(recon)
    requires PinnedTree(m.files).Ok? && FilesOf(InfoTree(store.h, m, manifestBytes), entries)
    requires recon.pieceLength > 0 && C.Padded(entries, recon.pieceLength)
    requires forall k :: 0 <= k < |calls| ==>
      calls[k].OtherPut? || calls[k].i < C.PiecesBefore(entries, |entries|, recon.pieceLength)
    requires ContentsOf(store.h, entries, recon.specs, contents)
    requires C.Honest(C.SpansOf(entries, |entries|, recon.pieceLength), recon.pieceLength, calls, contents)
    modifies store
    ensures fresh(d) && d.store == store && d.Valid() && Later(old(store.Now()), store.Now())
    ensures d.spans == C.SpansOf(entries, |entries|, recon.pieceLength)
    ensures failed <==> exists p :: p in d.files && d.files[p].failed.Some?
    ensures ready <==> !failed && forall p :: p in recon.specs ==> p in d.files && d.files[p].sealed
    ensures ready ==>
      recon.manifestHex in store.blobs && Hex(store.h(store.blobs[recon.manifestHex])) == recon.manifestHex
    ensures ready ==> forall f :: f in m.files ==>
      DigestHex(f.digest) in store.blobs && Hex(store.h(store.blobs[DigestHex(f.digest)])) == DigestHex(f.digest)
    ensures contents.Keys == recon.specs.Keys && Finished(d.spans, d.count, calls, contents.Keys) ==> ready
  {
    hide Accepts, FilesOf, C.Padded, C.AllOk, SoundBlobs, Later, C.FirstStates, C.SpansOf, C.PiecesBefore, C.Settled,
      C.DistinctNames, C.DistinctPinned, C.OwnBits, C.Name, O.CanonicalPath, Seal.ReconOf, InfoTree, PinnedTree, Hex,
      C.AllStart, C.Honest, ContentsOf, C.PinnedTo, C.Untouched, C.AllMarked, C.Holds, C.Marks;
    AcceptedOpens(store.h, m, manifestBytes, entries);
    RegisteredPins(store.h, m, manifestBytes);
    var driver := C.Open(store, recon.pieceLength, entries, recon.specs);
    assert driver != null;
    d := driver;
    OpenedPins(entries, recon.pieceLength, recon.specs, store.blobs);
    ReadyToServe(store.h, entries, recon.pieceLength, recon.specs, d.files, d.complete, store.blobs, contents);
    ghost var files, complete := d.files, d.complete;
    C.Drive(d, calls, contents);
    SameFiles(files, d.files);
    failed, ready := d.LookSealed(|recon.specs|);
    ghost var sealed := set p | p in d.files && d.files[p].sealed;
    D.SubsetCount(sealed, recon.specs.Keys);
    if contents.Keys == recon.specs.Keys && Finished(d.spans, d.count, calls, contents.Keys) {
      C.MarksMore(complete, calls);
      forall p | p in recon.specs ensures p in sealed {
        MoreMarked(d.spans, d.count, C.Marks({}, calls), C.Marks(complete, calls), p);
      }
    }
    if ready {
      forall p | p in recon.specs
        ensures p in d.files && d.files[p].sealed && recon.specs[p].digest in store.blobs
        ensures Hex(store.h(store.blobs[recon.specs[p].digest])) == recon.specs[p].digest
      {
        assert p in sealed;
      }
    }
  }

  lemma SameFiles(before: C.States, after: C.States)
    requires C.Settled(before, after)
    ensures after.Keys == before.Keys && forall p :: p in before ==> after[p].spec == before[p].spec
  {
  }

  lemma MoreMarked(spans: seq<C.Span>, count: nat, marks: set<int>, more: set<int>, p: Bytes)
    requires C.AllMarked(spans, count, marks, p) && marks <= more
    ensures C.AllMarked(spans, count, more, p)
  {
  }
}
