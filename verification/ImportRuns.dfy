/** What the invariant of the import protocol means: for the store, for its verification, for concurrent imports. */
module ImportRuns {
  import opened Basics
  import opened ImportProtocol
  import opened ImportSafety
  import Index
  import Manifests
  import Ref
  import Sorting
  import Validate

  /* ---- The store over a run ---- */

  /** The members of one import are committed under one key; no other key of the namespace state changes. */
  ghost predicate Commits(s: State, s': State, p: nat, key: Bytes, members: seq<Index.Member>, at: Bytes) {
    && p in s.procs && s.procs[p].todo != [] && s.procs[p].todo[0] == Merge(key, members)
    && s'.namespaces == s.namespaces[key := at]
    && s'.committed == s.committed[key := Index.Commit(Committed(s, key), members)]
  }

  ghost predicate CommitsAtMost(s: State, s': State) {
    (s'.namespaces == s.namespaces && s'.committed == s.committed) ||
    exists p, key, members, at :: Commits(s, s', p, key, members, at)
  }

  lemma QuietEffect(s: State, s': State)
    requires s'.blobs == s.blobs && s'.clash == s.clash && s'.namespaces == s.namespaces && s'.committed == s.committed
    ensures BlobsKept(s, s') && CommitsAtMost(s, s')
  {
    hide Commits;
  }

  lemma StoreEffect(s: State, s': State, digest: string, bytes: Bytes)
    requires s'.clash == Meets(s, digest, bytes) && s'.namespaces == s.namespaces && s'.committed == s.committed
    requires s'.blobs == s.blobs || s'.blobs == s.blobs[digest := bytes]
    ensures BlobsKept(s, s') && CommitsAtMost(s, s')
  {
    hide Commits;
  }

  /** Moving a process changes neither the store nor the state files. */
  ghost predicate SameDisk(s: State, s': State) {
    s'.blobs == s.blobs && s'.clash == s.clash && s'.namespaces == s.namespaces && s'.committed == s.committed
  }

  lemma Moves(s: State, p: nat, pc: Pc, seen: set<string>, stored: set<Bytes>)
    requires p in s.procs && s.procs[p].todo != []
    ensures SameDisk(s, At(s, p, pc)) && SameDisk(s, Next(s, p, seen, stored)) && SameDisk(s, Stop(s, p))
  {
  }

  lemma PutEffect(c: Codec, s: State, p: nat, s': State)
    requires p in s.procs && s.procs[p].todo != [] && s.procs[p].todo[0].Put? && Advance(c, s, p) == Some(s')
    ensures BlobsKept(s, s') && CommitsAtMost(s, s')
  {
    hide BlobsKept, CommitsAtMost, Meets, At, Next, Stop, With;
    var digest, bytes := s.procs[p].todo[0].digest, s.procs[p].todo[0].bytes;
    Moves(s, p, Verified, {}, {});
    Moves(s, p, Absent, {}, {});
    match s.procs[p].pc {
      case Absent =>
        Moves(Rename(s, digest, bytes), p, Start, {digest}, {bytes});
        StoreEffect(s, s', digest, bytes);
      case Verified =>
        if digest in s.blobs {
          Moves(KeepBlob(s, digest, bytes), p, Start, {digest}, {bytes});
          StoreEffect(s, s', digest, bytes);
        } else {
          QuietEffect(s, s');
        }
      case _ => QuietEffect(s, s');
    }
  }

  lemma OtherEffect(c: Codec, s: State, p: nat, s': State)
    requires p in s.procs && s.procs[p].todo != [] && (s.procs[p].todo[0].Has? || s.procs[p].todo[0].Link?)
    requires Advance(c, s, p) == Some(s')
    ensures BlobsKept(s, s') && CommitsAtMost(s, s')
  {
    hide BlobsKept, CommitsAtMost, Ref.NormalizeDigest, At, Next, Stop, With;
    var op, pc := s.procs[p].todo[0], s.procs[p].pc;
    Moves(s, p, Loaded(s.links), SeenBy(op), {});
    Moves(s.(stateLock := Some(p)), p, Locked, {}, {});
    if op.Link? && pc.Loaded? {
      var m, r := Ref.NormalizeDigest(op.manifest), Ref.NormalizeDigest(op.record);
      if m.Some? && r.Some? {
        Moves(s.(links := pc.links[m.value := r.value], stateLock := None), p, Start, {}, {});
      }
    }
    QuietEffect(s, s');
  }

  lemma MergeEffect(c: Codec, s: State, p: nat, s': State)
    requires Inv(c, s) && p in s.procs && s.procs[p].todo != [] && s.procs[p].todo[0].Merge?
    requires Advance(c, s, p) == Some(s')
    ensures BlobsKept(s, s') && CommitsAtMost(s, s')
  {
    hide Inv, ReadIndex, IndexDigest, Index.ValidMembers, Index.UpsertAll, Index.Commit, Ref.ValidNamespaceKey,
      BlobsKept, CommitsAtMost, Meets, At, Next, Stop, With, Committed, Lookup;
    var key, members, pc := s.procs[p].todo[0].key, s.procs[p].todo[0].members, s.procs[p].pc;
    match pc {
      case StateLoaded(ms, namespaces) => PublishEffect(c, s, p, s', key, members, ms);
      case Merged(ms) =>
        Moves(KeepBlob(s, IndexDigest(c, ms), c.encodeIndex(ms)), p, IndexStored(ms), {}, {});
        Moves(s, p, IndexAbsent(ms), {}, {});
        StoreEffect'(s, s', IndexDigest(c, ms), c.encodeIndex(ms));
      case IndexAbsent(ms) =>
        Moves(Rename(s, IndexDigest(c, ms), c.encodeIndex(ms)), p, IndexStored(ms), {}, {});
        StoreEffect(s, s', IndexDigest(c, ms), c.encodeIndex(ms));
      case _ => MergeQuiet(c, s, p, s');
    }
  }

  lemma StoreEffect'(s: State, s': State, digest: string, bytes: Bytes)
    requires s'.clash == Meets(s, digest, bytes) || s'.clash == s.clash
    requires s'.namespaces == s.namespaces && s'.committed == s.committed && s'.blobs == s.blobs
    ensures BlobsKept(s, s') && CommitsAtMost(s, s')
  {
    hide Commits;
  }

  lemma MergeQuiet(c: Codec, s: State, p: nat, s': State)
    requires p in s.procs && s.procs[p].todo != [] && s.procs[p].todo[0].Merge? && Advance(c, s, p) == Some(s')
    requires !s.procs[p].pc.StateLoaded? && !s.procs[p].pc.Merged? && !s.procs[p].pc.IndexAbsent?
    ensures BlobsKept(s, s') && CommitsAtMost(s, s')
  {
    hide ReadIndex, IndexDigest, Index.ValidMembers, Index.UpsertAll, Ref.ValidNamespaceKey,
      BlobsKept, CommitsAtMost, Meets, At, Next, Stop, With, Committed, Lookup, AdvancePut, AdvanceLink, KeepBlob,
      Rename;
    var key, members, pc := s.procs[p].todo[0].key, s.procs[p].todo[0].members, s.procs[p].pc;
    match pc {
      case Start => Moves(s.(nsLocks := s.nsLocks[key := p]), p, Holding, {}, {});
      case Holding => Moves(s, p, Pointed(Lookup(s.namespaces, key)), {}, {});
      case Pointed(at) =>
        var current := ReadIndex(c, s.blobs, at);
        if current.Some? {
          Moves(s, p, Merged(Index.UpsertAll(current.value, members)), {}, {});
        } else {
          Moves(s, p, Start, {}, {});
        }
      case IndexStored(ms) =>
        Moves(s, p, Start, {}, {});
        Moves(s.(stateLock := Some(p)), p, StateHeld(ms), {}, {});
      case StateHeld(ms) => Moves(s, p, StateLoaded(ms, s.namespaces), {}, {});
      case Published => Moves(s.(nsLocks := s.nsLocks - {key}), p, Start, {}, {});
      case _ =>
    }
    QuietEffect(s, s');
  }

  lemma PublishEffect(c: Codec, s: State, p: nat, s': State, key: Bytes, members: seq<Index.Member>,
                      ms: seq<Index.Member>)
    requires Inv(c, s) && p in s.procs && s.procs[p].todo != [] && s.procs[p].todo[0] == Merge(key, members)
    requires s.procs[p].pc.StateLoaded? && s.procs[p].pc.merged == ms && Advance(c, s, p) == Some(s')
    ensures BlobsKept(s, s') && CommitsAtMost(s, s')
  {
    hide Inv, ProcOk, Index.Commit, ReadyIndex, StoredIndex, Ref.ValidNamespaceKey;
    InvProc(c, s, p);
    PoisedMerge(c, s, p);
    assert Commits(s, s', p, key, members, DigestOf(c.h, c.encodeIndex(ms)));
  }

  /** No step takes a blob away or changes one, and none touches more than one namespace key. */
  lemma StepEffect(c: Codec, s: State, s': State)
    requires Inv(c, s) && Step(c, s, s')
    ensures BlobsKept(s, s') && CommitsAtMost(s, s')
  {
    hide Inv, Spawns, Advance, BlobsKept, Commits;
    var p :| StepOf(c, s, s', p);
    if Spawns(c, s, s', p) || s' == Stop(s, p) {
      StillEffect(c, s, s', p);
    } else {
      TodoLeft(c, s, p);
      match s.procs[p].todo[0] {
        case Put(digest, bytes) => PutEffect(c, s, p, s');
        case Has(digest) => OtherEffect(c, s, p, s');
        case Link(manifest, record) => OtherEffect(c, s, p, s');
        case Merge(key, members) => MergeEffect(c, s, p, s');
      }
    }
  }

  lemma TodoLeft(c: Codec, s: State, p: nat)
    requires p in s.procs && Advance(c, s, p).Some?
    ensures s.procs[p].todo != []
  {
  }

  lemma StillEffect(c: Codec, s: State, s': State, p: nat)
    requires Spawns(c, s, s', p) || (p in s.procs && s' == Stop(s, p))
    ensures BlobsKept(s, s') && s'.namespaces == s.namespaces && s'.committed == s.committed
  {
    hide WellOrdered;
  }

  /**
   Every visible blob hashes to its name; one that has become visible never disappears, and keeps its
   bytes unless a Put has met a collision.
   */
  lemma {:induction false} BlobsForever(c: Codec, run: seq<State>, i: nat, j: nat, d: string)
    requires RoundTrips(c) && Run(c, run) && i <= j < |run| && d in run[i].blobs
    ensures Hex(c.h(run[i].blobs[d])) == d && d in run[j].blobs
    ensures run[j].blobs[d] == run[i].blobs[d] ||
            (run[j].clash.Some? && Collides(c.h, run[j].clash.value.0, run[j].clash.value.1))
    decreases j
  {
    hide Step, Closed, ProcOk;
    EveryState(c, run, i);
    EveryState(c, run, j);
    if i < j {
      BlobsForever(c, run, i, j - 1, d);
      assert Step(c, run[j - 1], run[j - 1 + 1]);
      EveryState(c, run, j - 1);
      StepEffect(c, run[j - 1], run[j]);
    }
  }

  /* ---- Concurrent imports lose nothing ---- */

  /** Whatever quant was ever committed under a key is still committed there. */
  lemma {:induction false} QuantsForever(c: Codec, run: seq<State>, i: nat, j: nat, key: Bytes, q: Bytes)
    requires RoundTrips(c) && Run(c, run) && i <= j < |run|
    requires key in run[i].committed && q in run[i].committed[key]
    ensures key in run[j].committed && q in run[j].committed[key]
    decreases j
  {
    hide Step, Inv, Index.Commit, Commits;
    if i < j {
      QuantsForever(c, run, i, j - 1, key, q);
      assert Step(c, run[j - 1], run[j - 1 + 1]);
      EveryState(c, run, j - 1);
      StepEffect(c, run[j - 1], run[j]);
      if run[j].committed != run[j - 1].committed {
        var p, k, members, at :| Commits(run[j - 1], run[j], p, k, members, at);
        CommitKeepsQuant(run[j - 1], run[j], p, k, members, at, key, q);
      }
    }
  }

  lemma CommitKeepsQuant(s: State, s': State, p: nat, k: Bytes, members: seq<Index.Member>, at: Bytes, key: Bytes,
                         q: Bytes)
    requires Commits(s, s', p, k, members, at) && key in s.committed && q in s.committed[key]
    ensures key in s'.committed && q in s'.committed[key]
  {
    hide Index.Commit;
    Index.CommitKeeps(Committed(s, k), members);
  }

  /**
   In every state of a run without a collision each namespace's index is present and valid, strictly
   sorted by quant, and holds exactly what was committed there: for each quant ever committed, the
   member of its last committer.
   */
  lemma NothingLost(c: Codec, run: seq<State>, i: nat, j: nat, key: Bytes, q: Bytes)
    requires RoundTrips(c) && Run(c, run) && i <= j < |run| && run[j].clash.None?
    requires key in run[i].committed && q in run[i].committed[key]
    ensures key in run[j].namespaces && key in run[j].committed && q in run[j].committed[key]
    ensures var ms := ReadIndex(c, run[j].blobs, Some(run[j].namespaces[key]));
      ms.Some? && Index.Lists(ms.value, run[j].committed[key]) && run[j].committed[key][q] in ms.value
  {
    hide Run, ReadIndex, Less, ProcOk, SoundNames, GoodLink, Complete;
    QuantsForever(c, run, i, j, key, q);
    EveryState(c, run, j);
    assert GoodIndex(c, run[j].blobs, run[j].namespaces[key], run[j].committed[key]);
  }

  /** The index read at the start of a merge is never missing, unreadable or invalid. */
  lemma MergeNeverRefusesIndex(c: Codec, run: seq<State>, i: nat, p: nat)
    requires RoundTrips(c) && Run(c, run) && i < |run| && run[i].clash.None?
    requires p in run[i].procs && run[i].procs[p].todo != [] && run[i].procs[p].todo[0].Merge?
    requires run[i].procs[p].pc.Pointed?
    ensures ReadIndex(c, run[i].blobs, run[i].procs[p].pc.at).Some?
  {
    hide Run, ReadIndex, Less, ProcOk, Inv;
    EveryState(c, run, i);
    InvProc(c, run[i], p);
    PoisedMerge(c, run[i], p);
    CurrentLists(c, run[i], run[i].procs[p].todo[0].key);
  }

  /**
   An import that has published, and still holds its lock, finds each of its members in the namespace's
   index, the last one of each quant.
   */
  lemma PublishedMembers(c: Codec, run: seq<State>, i: nat, p: nat, n: nat)
    requires RoundTrips(c) && Run(c, run) && i < |run| && run[i].clash.None? && p in run[i].procs
    requires var proc := run[i].procs[p];
      proc.todo != [] && proc.todo[0].Merge? && proc.pc == Published && Index.LastOfQuant(proc.todo[0].members, n)
    ensures var op := run[i].procs[p].todo[0];
      var index := ReadIndex(c, run[i].blobs, Lookup(run[i].namespaces, op.key));
      index.Some? && op.members[n] in index.value
  {
    hide Run, ReadIndex, Less, ProcOk, Inv, Lookup, Committed;
    EveryState(c, run, i);
    InvProc(c, run[i], p);
    PoisedMerge(c, run[i], p);
    CurrentLists(c, run[i], run[i].procs[p].todo[0].key);
  }

  /* ---- Whatever is visible is whole ---- */

  /** A digest that names a blob. */
  ghost predicate Names(blobs: map<string, Bytes>, digest: Bytes) {
    "sha256:" <= digest && digest[7..] in blobs
  }

  /** An accepted manifest, all of whose files are in the store. */
  ghost predicate Whole(c: Codec, blobs: map<string, Bytes>, manifest: Bytes) {
    Names(blobs, manifest) &&
    var m := c.decodeManifest(blobs[manifest[7..]]);
    m.Some? && Validate.Accepts(m.value) && forall f :: f in m.value.files ==> Names(blobs, f.digest)
  }

  /** A valid index, whose members are all whole. */
  ghost predicate WholeIndex(c: Codec, blobs: map<string, Bytes>, index: Bytes) {
    Names(blobs, index) &&
    var ms := c.decodeIndex(blobs[index[7..]]);
    ms.Some? && Index.ValidMembers(ms.value) && forall m :: m in ms.value ==> Whole(c, blobs, m.manifest)
  }

  lemma CompleteWhole(c: Codec, blobs: map<string, Bytes>, manifest: Bytes)
    requires Complete(c, blobs, manifest)
    ensures Whole(c, blobs, manifest)
  {
    hide Validate.Accepts;
    var m := c.decodeManifest(blobs[DigestHex(manifest)]).value;
    forall f | f in m.files ensures Names(blobs, f.digest) {
      FileDigest(m, f);
      assert f.digest in ManifestFiles(c, blobs[DigestHex(manifest)]).value;
    }
  }

  lemma FileDigest(m: Manifests.Manifest, f: Manifests.File)
    requires Validate.Accepts(m) && f in m.files
    ensures IsDigest(f.digest)
  {
    assert !Validate.Violates(m, Manifests.E_VALIDATION);
  }

  /**
   A reader that follows what is visible, in any state of a run without a collision, never meets a hole:
   indexes are valid, and linked and listed manifests are accepted ones with all their files.
   */
  lemma VisibleIsWhole(c: Codec, run: seq<State>, i: nat)
    requires RoundTrips(c) && Run(c, run) && i < |run| && run[i].clash.None?
    ensures forall k :: k in run[i].namespaces ==> WholeIndex(c, run[i].blobs, run[i].namespaces[k])
    ensures forall m :: m in run[i].links ==>
      Whole(c, run[i].blobs, m) && Names(run[i].blobs, run[i].links[m])
  {
    hide Run, ProcOk, Whole, Complete, Index.ValidMembers, Index.Lists;
    EveryState(c, run, i);
    var s := run[i];
    forall k | k in s.namespaces ensures WholeIndex(c, s.blobs, s.namespaces[k]) {
      assert GoodIndex(c, s.blobs, s.namespaces[k], s.committed[k]);
      var ms := ReadIndex(c, s.blobs, Some(s.namespaces[k])).value;
      forall m | m in ms ensures Whole(c, s.blobs, m.manifest) {
        CompleteWhole(c, s.blobs, m.manifest);
      }
    }
    forall m | m in s.links ensures Whole(c, s.blobs, m) && Names(s.blobs, s.links[m]) {
      assert GoodLink(c, s.blobs, m, s.links[m]);
      CompleteWhole(c, s.blobs, m);
    }
  }

  /* ---- cas.VerifyAll ---- */

  predicate HexName(d: string) {
    |d| == 64 && IsHex(d)
  }

  /** Has: a name that is no digest is never present. */
  predicate HasBlob(blobs: map<string, Bytes>, d: string) {
    HexName(d) && d in blobs
  }

  /** The state files refer to d. */
  ghost predicate RefersTo(namespaces: map<Bytes, Bytes>, tags: map<Bytes, Bytes>, links: map<Bytes, Bytes>, d: string)
  {
    || (exists k :: k in namespaces && DigestHex(namespaces[k]) == d)
    || (exists k :: k in tags && DigestHex(tags[k]) == d)
    || LinkRefersTo(links, links.Keys, d)
  }

  /** One of the given links has d at one of its two ends. */
  ghost predicate LinkRefersTo(links: map<Bytes, Bytes>, keys: set<Bytes>, d: string) {
    exists m ::
      && m in links && m in keys && IsCanonical(m) && IsCanonical(links[m])
      && (DigestHex(m) == d || DigestHex(links[m]) == d)
  }

  lemma MoreLinks(links: map<Bytes, Bytes>, keys: set<Bytes>, m: Bytes)
    requires m in links && m in keys
    ensures forall d :: LinkRefersTo(links, keys, d) <==>
      LinkRefersTo(links, keys - {m}, d) ||
      (IsCanonical(m) && IsCanonical(links[m]) && (DigestHex(m) == d || DigestHex(links[m]) == d))
  {
    hide IsCanonical, DigestHex;
  }

  /** What NormalizeDigest accepts. */
  predicate IsCanonical(d: Bytes) {
    IsDigest(d) || HexName(d)
  }

  /** What the two names of a digest are: canonical, or bare. */
  lemma CanonicalNames(d: Bytes)
    ensures IsCanonical(d) <==> Ref.NormalizeDigest(d).Some?
    ensures IsCanonical(d) ==> Ref.NormalizeDigest(d) == Some("sha256:" + DigestHex(d))
  {
    if IsDigest(d) {
      assert d == "sha256:" + d[7..];
    }
  }

  /** The walk over the blobs. */
  method WalkBlobs(h: Hasher, blobs: map<string, Bytes>) returns (mismatched: set<string>)
    ensures forall d :: d in mismatched <==> d in blobs && HexName(d) && Hex(h(blobs[d])) != d
  {
    hide HexName;
    mismatched := {};
    var walk := blobs.Keys;
    while walk != {}
      invariant walk <= blobs.Keys
      invariant forall d :: d in mismatched <==> d in blobs && d !in walk && HexName(d) && Hex(h(blobs[d])) != d
      decreases |walk|
    {
      var d :| d in walk;
      walk := walk - {d};
      if HexName(d) && Hex(h(blobs[d])) != d {
        mismatched := mismatched + {d};
      }
    }
  }

  /** The check of the distribution links, both ends of each. */
  method CheckLinks(blobs: map<string, Bytes>, links: map<Bytes, Bytes>)
    returns (missing: seq<string>, stateErrors: nat)
    ensures forall d :: d in missing <==> !HasBlob(blobs, d) && LinkRefersTo(links, links.Keys, d)
    ensures stateErrors == 0 <==> forall m :: m in links ==> IsCanonical(m) && IsCanonical(links[m])
  {
    hide HasBlob, IsCanonical, DigestHex, LinkRefersTo;
    missing, stateErrors := [], 0;
    var done: set<Bytes> := {};
    NoLinks(links);
    while done != links.Keys
      invariant done <= links.Keys
      invariant forall d :: d in missing <==> !HasBlob(blobs, d) && LinkRefersTo(links, done, d)
      invariant stateErrors == 0 <==> forall m :: m in done ==> IsCanonical(m) && IsCanonical(links[m])
      decreases |links.Keys - done|
    {
      var m :| m in links.Keys - done;
      MoreLinks(links, done + {m}, m);
      assert done + {m} - {m} == done;
      done := done + {m};
      if !IsCanonical(m) || !IsCanonical(links[m]) {
        stateErrors := stateErrors + 1;
        continue;
      }
      if !HasBlob(blobs, DigestHex(links[m])) {
        missing := missing + [DigestHex(links[m])];
      }
      if !HasBlob(blobs, DigestHex(m)) {
        missing := missing + [DigestHex(m)];
      }
    }
  }

  lemma NoLinks(links: map<Bytes, Bytes>)
    ensures forall d :: !LinkRefersTo(links, {}, d)
  {
  }

  /** The digests among refs that have no blob. */
  method CheckRefs(blobs: map<string, Bytes>, refs: set<string>) returns (missing: seq<string>)
    ensures forall d :: d in missing <==> d in refs && !HasBlob(blobs, d)
  {
    hide HasBlob;
    missing := [];
    var rest := refs;
    while rest != {}
      invariant rest <= refs
      invariant forall d :: d in missing <==> d in refs && d !in rest && !HasBlob(blobs, d)
      decreases |rest|
    {
      var d :| d in rest;
      rest := rest - {d};
      if !HasBlob(blobs, d) {
        missing := missing + [d];
      }
    }
  }

  /** VerifyAll: the blobs whose bytes do not hash to their name, and the references without a blob. */
  method VerifyAll(h: Hasher, blobs: map<string, Bytes>, namespaces: map<Bytes, Bytes>, tags: map<Bytes, Bytes>,
                   links: map<Bytes, Bytes>)
    returns (mismatched: set<string>, missing: seq<string>, stateErrors: nat)
    ensures forall d :: d in mismatched <==> d in blobs && HexName(d) && Hex(h(blobs[d])) != d
    ensures forall d :: d in missing <==> !HasBlob(blobs, d) && RefersTo(namespaces, tags, links, d)
    ensures Sorting.SortedBy(Leq, missing)
    ensures stateErrors == 0 <==> forall m :: m in links ==> IsCanonical(m) && IsCanonical(links[m])
  {
    hide HexName, HasBlob, IsCanonical, Leq, DigestHex, LinkRefersTo;
    mismatched := WalkBlobs(h, blobs);
    var fromLinks, fromRefs;
    fromLinks, stateErrors := CheckLinks(blobs, links);
    var refs := (set k | k in namespaces :: DigestHex(namespaces[k])) + (set k | k in tags :: DigestHex(tags[k]));
    fromRefs := CheckRefs(blobs, refs);
    missing := fromLinks + fromRefs;
    Ref.ByteOrder(missing);
    Sorting.SortSorted(Leq, missing);
    Sorting.SameElements(Sorting.Sort(Leq, missing), missing);
    missing := Sorting.Sort(Leq, missing);
  }

  /** Referential closure of every state of a run: every digest the state files hold is the name of a blob. */
  lemma NothingMissing(c: Codec, run: seq<State>, i: nat)
    requires RoundTrips(c) && Run(c, run) && i < |run|
    ensures forall d :: d in run[i].blobs ==> Hex(c.h(run[i].blobs[d])) == d
    ensures run[i].clash.None? ==>
      && (forall m :: m in run[i].links ==> IsCanonical(m) && IsCanonical(run[i].links[m]))
      && (forall d :: RefersTo(run[i].namespaces, map[], run[i].links, d) ==> HasBlob(run[i].blobs, d))
  {
    hide Run, ProcOk, Closed, RefersTo, HasBlob, IsCanonical;
    EveryState(c, run, i);
    var s := run[i];
    if s.clash.None? {
      ClosedRefers(c, s);
    }
  }

  lemma ClosedRefers(c: Codec, s: State)
    requires Closed(c, s)
    ensures forall m :: m in s.links ==> IsCanonical(m) && IsCanonical(s.links[m])
    ensures forall d :: RefersTo(s.namespaces, map[], s.links, d) ==> HasBlob(s.blobs, d)
  {
    hide GoodIndex, GoodLink, HasBlob, IsCanonical, DigestHex;
    forall m | m in s.links
      ensures IsCanonical(m) && IsCanonical(s.links[m]) && HasBlob(s.blobs, DigestHex(m))
      ensures HasBlob(s.blobs, DigestHex(s.links[m]))
    {
      LinkBlobs(c, s.blobs, m, s.links[m]);
    }
    forall k | k in s.namespaces ensures HasBlob(s.blobs, DigestHex(s.namespaces[k])) {
      IndexBlob(c, s.blobs, s.namespaces[k], s.committed[k]);
    }
  }

  lemma LinkBlobs(c: Codec, blobs: map<string, Bytes>, manifest: Bytes, record: Bytes)
    requires GoodLink(c, blobs, manifest, record)
    ensures IsCanonical(manifest) && IsCanonical(record)
    ensures HasBlob(blobs, DigestHex(manifest)) && HasBlob(blobs, DigestHex(record))
  {
  }

  lemma IndexBlob(c: Codec, blobs: map<string, Bytes>, at: Bytes, committed: map<Bytes, Index.Member>)
    requires GoodIndex(c, blobs, at, committed)
    ensures HasBlob(blobs, DigestHex(at))
  {
  }

  /** In every state of a run, whatever steps are still to come, VerifyAll has nothing to report. */
  method VerifyRun(c: Codec, ghost run: seq<State>, s: State)
    returns (mismatched: set<string>, missing: seq<string>, stateErrors: nat)
    requires RoundTrips(c) && Run(c, run) && run != [] && s == run[|run| - 1]
    ensures mismatched == {}
    ensures s.clash.None? ==> stateErrors == 0 && forall d :: d !in missing
  {
    hide Run, RefersTo, HasBlob, IsCanonical, RoundTrips;
    NothingMissing(c, run, |run| - 1);
    mismatched, missing, stateErrors := VerifyAll(c.h, s.blobs, s.namespaces, map[], s.links);
  }
}
