/** What the two kinds of import do to the store, and that either may start at any time. */
module ImportPrograms {
  import opened Basics
  import opened ImportProtocol
  import opened ImportSafety
  import Index
  import opened Manifests
  import Seal
  import opened Validate

  /** One sealed artifact: its manifest, its contents by file name, and its other two documents. */
  datatype Artifact = Artifact(manifest: Manifest, contents: map<Bytes, Bytes>, layers: Bytes, record: Bytes,
                               quant: Bytes, weightsFormat: Bytes, revision: Bytes)

  /** A name without an entry reads as no bytes. */
  function ContentOf(a: Artifact, name: Bytes): Bytes {
    if name in a.contents then a.contents[name] else []
  }

  /** Every file goes under the digest that the manifest pins, whatever its bytes are. */
  function FilePuts(a: Artifact, files: seq<File>): (ops: seq<Op>)
    ensures forall op :: op in ops ==> op.Put?
  {
    if files == [] then [] else [Put(DigestHex(files[0].digest), ContentOf(a, files[0].name))] + FilePuts(a, files[1..])
  }

  /** putCanonical: a document goes under the digest of its bytes. */
  function Puts(c: Codec, documents: seq<Bytes>): (ops: seq<Op>)
    ensures forall op :: op in ops ==> op.Put?
  {
    if documents == [] then [] else [Put(Hex(c.h(documents[0])), documents[0])] + Puts(c, documents[1..])
  }

  /** Import, for one artifact: the files and the three documents, before the link. */
  function ArtifactPuts(c: Codec, a: Artifact): seq<Op> {
    FilePuts(a, a.manifest.files) + Puts(c, [c.encodeManifest(a.manifest), a.layers, a.record])
  }

  function ManifestOf(c: Codec, a: Artifact): Bytes {
    DigestOf(c.h, c.encodeManifest(a.manifest))
  }

  function MemberOf(c: Codec, a: Artifact): Index.Member {
    Index.Member(ManifestOf(c, a), a.quant, a.weightsFormat, a.revision)
  }

  /** Import: every artifact, and at the end the merge of their members into the namespace. */
  function ImportOps(c: Codec, artifacts: seq<Artifact>, key: Bytes, members: seq<Index.Member>): seq<Op> {
    if artifacts == [] then [Merge(key, members)]
    else
      var a := artifacts[0];
      var link := Link(ManifestOf(c, a), DigestOf(c.h, a.record));
      ArtifactPuts(c, a) + ([link] + ImportOps(c, artifacts[1..], key, members))
  }

  function MembersOf(c: Codec, artifacts: seq<Artifact>): seq<Index.Member> {
    if artifacts == [] then [] else [MemberOf(c, artifacts[0])] + MembersOf(c, artifacts[1..])
  }

  /** The gates of ImportBT: a valid manifest, and the infohash that its reconstruction has. */
  ghost function Bound(c: Codec, manifest: Bytes, infohash: string): Option<Seal.Recon> {
    if ManifestFiles(c, manifest).None? then None
    else
      var r := Seal.ReconOf(c.h, c.decodeManifest(manifest).value, manifest);
      if !r.Ok? || r.value.infohashHex != infohash then None else Some(r.value)
  }

  /** WaitSealed on all files: it goes on when each of them is in the store. */
  function Waits(files: seq<File>): (ops: seq<Op>)
    ensures forall op :: op in ops ==> op.Has?
  {
    if files == [] then [] else [Has(DigestHex(files[0].digest))] + Waits(files[1..])
  }

  /**
   ImportBT: the manifest under its pin; if it passes the gates, whatever the swarm client stores or
   finds, the wait, the layers, the derived record, and the link.
   */
  ghost function BTOps(c: Codec, pin: string, infohash: string, manifest: Bytes, fetches: seq<Op>, layers: Bytes,
                       canonicalRecord: Seal.Distribution -> Bytes): seq<Op>
  {
    var r := Bound(c, manifest, infohash);
    if r.None? then [Put(pin, manifest)]
    else
      var record := canonicalRecord(Seal.DerivedRecord(r.value, DigestOf(c.h, layers)));
      ([Put(pin, manifest)] + fetches + Waits(c.decodeManifest(manifest).value.files) + Puts(c, [layers, record])) +
      [Link(r.value.manifestDigest, DigestOf(c.h, record))]
  }

  /* ---- They may start ---- */

  /** The digests that some operations find or put, and the contents they put. */
  function Fetched(ops: seq<Op>): set<string> {
    if ops == [] then {} else SeenBy(ops[0]) + Fetched(ops[1..])
  }

  function Kept(ops: seq<Op>): set<Bytes> {
    if ops == [] then {} else StoredBy(ops[0]) + Kept(ops[1..])
  }

  lemma {:induction false} InOps(ops: seq<Op>, op: Op)
    requires op in ops
    ensures SeenBy(op) <= Fetched(ops) && StoredBy(op) <= Kept(ops)
  {
    if op != ops[0] {
      InOps(ops[1..], op);
    }
  }

  lemma {:induction false} OpsThen(c: Codec, seen: set<string>, stored: set<Bytes>, ops: seq<Op>, rest: seq<Op>)
    requires forall op :: op in ops ==> op.Put? || op.Has?
    requires WellOrdered(c, seen + Fetched(ops), stored + Kept(ops), rest)
    ensures WellOrdered(c, seen, stored, ops + rest)
    decreases |ops|
  {
    hide Covered;
    if ops == [] {
      assert ops + rest == rest && seen + {} == seen && stored + {} == stored;
    } else {
      var op, tail := ops[0], ops[1..];
      assert op in ops && forall x :: x in tail ==> x in ops;
      assert seen + SeenBy(op) + Fetched(tail) == seen + Fetched(ops);
      assert stored + StoredBy(op) + Kept(tail) == stored + Kept(ops);
      OpsThen(c, seen + SeenBy(op), stored + StoredBy(op), tail, rest);
      assert (ops + rest)[1..] == tail + rest && stored + {} == stored;
    }
  }

  lemma {:induction false} FilePutsAt(a: Artifact, files: seq<File>, f: File)
    requires f in files
    ensures Put(DigestHex(f.digest), ContentOf(a, f.name)) in FilePuts(a, files)
  {
    if f != files[0] {
      FilePutsAt(a, files[1..], f);
    }
  }

  lemma {:induction false} PutsAt(c: Codec, documents: seq<Bytes>, b: Bytes)
    requires b in documents
    ensures Put(Hex(c.h(b)), b) in Puts(c, documents)
  {
    if b != documents[0] {
      PutsAt(c, documents[1..], b);
    }
  }

  lemma {:induction false} WaitsAt(files: seq<File>, f: File)
    requires f in files
    ensures Has(DigestHex(f.digest)) in Waits(files)
  {
    if f != files[0] {
      WaitsAt(files[1..], f);
    }
  }

  lemma CoveredGrows(c: Codec, seen: set<string>, stored: set<Bytes>, more: set<string>, kept: set<Bytes>,
                     manifest: Bytes)
    requires Covered(c, seen, stored, manifest) && seen <= more && stored <= kept
    ensures Covered(c, more, kept, manifest)
  {
  }

  /** What the puts of one artifact cover: its manifest, and the record to link it to. */
  lemma ArtifactCovered(c: Codec, a: Artifact)
    requires RoundTrips(c) && Accepts(a.manifest)
    ensures var ops := ArtifactPuts(c, a);
      Covered(c, Fetched(ops), Kept(ops), ManifestOf(c, a)) && Hex(c.h(a.record)) in Fetched(ops)
  {
    hide Accepts, FilePuts, Puts, Fetched, Kept;
    var ops, b := ArtifactPuts(c, a), c.encodeManifest(a.manifest);
    var documents := [b, a.layers, a.record];
    PutsAt(c, documents, b);
    InOps(ops, Put(Hex(c.h(b)), b));
    PutsAt(c, documents, a.record);
    InOps(ops, Put(Hex(c.h(a.record)), a.record));
    assert b in Kept(ops) && ManifestFiles(c, b) == Some(set f | f in a.manifest.files :: f.digest);
    forall d | d in ManifestFiles(c, b).value ensures DigestHex(d) in Fetched(ops) {
      var f :| f in a.manifest.files && f.digest == d;
      FilePutsAt(a, a.manifest.files, f);
      InOps(ops, Put(DigestHex(d), ContentOf(a, f.name)));
    }
  }

  lemma {:induction false} ImportOrdered(c: Codec, seen: set<string>, stored: set<Bytes>, artifacts: seq<Artifact>,
                                         key: Bytes, members: seq<Index.Member>)
    requires RoundTrips(c) && forall a :: a in artifacts ==> Accepts(a.manifest)
    requires forall m :: m in members ==>
      Covered(c, seen, stored, m.manifest) || exists a :: a in artifacts && m.manifest == ManifestOf(c, a)
    ensures WellOrdered(c, seen, stored, ImportOps(c, artifacts, key, members))
    decreases |artifacts|
  {
    hide Covered, Accepts, RoundTrips, ArtifactPuts, Fetched, Kept, ManifestOf;
    if artifacts == [] {
      assert ImportOps(c, artifacts, key, members)[1..] == [];
    } else {
      var a, tail := artifacts[0], artifacts[1..];
      assert artifacts == [a] + tail;
      var ops := ArtifactPuts(c, a);
      var seen', stored' := seen + Fetched(ops), stored + Kept(ops);
      ArtifactCovered(c, a);
      CoveredGrows(c, Fetched(ops), Kept(ops), seen', stored', ManifestOf(c, a));
      forall m | m in members
        ensures Covered(c, seen', stored', m.manifest) || exists x :: x in tail && m.manifest == ManifestOf(c, x)
      {
        if Covered(c, seen, stored, m.manifest) {
          CoveredGrows(c, seen, stored, seen', stored', m.manifest);
        }
      }
      ImportOrdered(c, seen', stored', tail, key, members);
      var rest, link := ImportOps(c, tail, key, members), Link(ManifestOf(c, a), DigestOf(c.h, a.record));
      assert ([link] + rest)[1..] == rest;
      ArtifactPutsOnly(c, a);
      OpsThen(c, seen, stored, ops, [link] + rest);
    }
  }

  lemma ArtifactPutsOnly(c: Codec, a: Artifact)
    ensures forall op :: op in ArtifactPuts(c, a) ==> op.Put?
  {
  }

  lemma {:induction false} MembersCome(c: Codec, artifacts: seq<Artifact>)
    ensures forall m :: m in MembersOf(c, artifacts) ==> exists a :: a in artifacts && m == MemberOf(c, a)
  {
    if artifacts != [] {
      MembersCome(c, artifacts[1..]);
      assert artifacts == [artifacts[0]] + artifacts[1..];
    }
  }

  /**
   Import may start: everything it links or publishes is stored before.  Seal has accepted the
   manifests; that the contents hash to their pins is for each Put to find out.
   */
  lemma ImportMayStart(c: Codec, artifacts: seq<Artifact>, key: Bytes)
    requires RoundTrips(c) && forall a :: a in artifacts ==> Accepts(a.manifest)
    ensures WellOrdered(c, {}, {}, ImportOps(c, artifacts, key, MembersOf(c, artifacts)))
  {
    hide Covered, Accepts, RoundTrips;
    MembersCome(c, artifacts);
    ImportOrdered(c, {}, {}, artifacts, key, MembersOf(c, artifacts));
  }

  /** ImportBT may start, whatever it is served: its gates and its wait come before the link. */
  lemma BTMayStart(c: Codec, pin: string, infohash: string, manifest: Bytes, fetches: seq<Op>, layers: Bytes,
                   canonicalRecord: Seal.Distribution -> Bytes)
    requires forall op :: op in fetches ==> op.Put? || op.Has?
    ensures WellOrdered(c, {}, {}, BTOps(c, pin, infohash, manifest, fetches, layers, canonicalRecord))
  {
    hide Accepts, Seal.ReconOf, Fetched, Kept, Waits, Puts;
    var r := Bound(c, manifest, infohash);
    if r.None? {
      OnePut(c, pin, manifest);
    } else {
      var m := c.decodeManifest(manifest).value;
      Seal.ReconShape(c.h, m, manifest);
      var record := canonicalRecord(Seal.DerivedRecord(r.value, DigestOf(c.h, layers)));
      var ops := [Put(pin, manifest)] + fetches + Waits(m.files) + Puts(c, [layers, record]);
      InOps(ops, Put(pin, manifest));
      PutsAt(c, [layers, record], record);
      InOps(ops, Put(Hex(c.h(record)), record));
      forall d | d in ManifestFiles(c, manifest).value ensures DigestHex(d) in Fetched(ops) {
        var f :| f in m.files && f.digest == d;
        WaitsAt(m.files, f);
        InOps(ops, Has(DigestHex(d)));
      }
      assert manifest in Kept(ops);
      var link := Link(r.value.manifestDigest, DigestOf(c.h, record));
      assert {} + Fetched(ops) == Fetched(ops) && {} + Kept(ops) == Kept(ops) && [link][1..] == [];
      OpsThen(c, {}, {}, ops, [link]);
    }
  }

  lemma OnePut(c: Codec, digest: string, bytes: Bytes)
    ensures WellOrdered(c, {}, {}, [Put(digest, bytes)])
  {
    assert [Put(digest, bytes)][1..] == [];
  }
}
