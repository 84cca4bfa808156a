/** What holds in every state that any number of imports can reach, whatever their steps' order. */
module ImportSafety {
  import opened Basics
  import opened ImportProtocol
  import Index
  import Ref

  /* ---- The invariant ---- */

  ghost predicate SoundNames(c: Codec, s: State) {
    forall d :: d in s.blobs ==> Hex(c.h(s.blobs[d])) == d
  }

  ghost predicate ClashIsReal(c: Codec, s: State) {
    s.clash.Some? ==> Collides(c.h, s.clash.value.0, s.clash.value.1)
  }

  /** A manifest that is present, valid, and whose files are all present. */
  ghost predicate Complete(c: Codec, blobs: map<string, Bytes>, manifest: Bytes) {
    && IsDigest(manifest) && DigestHex(manifest) in blobs
    && var files := ManifestFiles(c, blobs[DigestHex(manifest)]);
       files.Some? && forall f :: f in files.value ==> DigestHex(f) in blobs
  }

  ghost predicate AllComplete(c: Codec, blobs: map<string, Bytes>, ms: seq<Index.Member>) {
    forall m :: m in ms ==> Complete(c, blobs, m.manifest)
  }

  /** An index that is present and valid, lists exactly what was committed, and only complete members. */
  ghost predicate GoodIndex(c: Codec, blobs: map<string, Bytes>, at: Bytes, committed: map<Bytes, Index.Member>) {
    var ms := ReadIndex(c, blobs, Some(at));
    IsDigest(at) && ms.Some? && Index.Lists(ms.value, committed) && AllComplete(c, blobs, ms.value)
  }

  ghost predicate GoodLink(c: Codec, blobs: map<string, Bytes>, manifest: Bytes, record: Bytes) {
    Complete(c, blobs, manifest) && IsDigest(record) && DigestHex(record) in blobs
  }

  /** Referential closure: whatever the state files refer to is there. */
  ghost predicate Closed(c: Codec, s: State) {
    && s.namespaces.Keys == s.committed.Keys
    && (forall k :: k in s.namespaces ==>
         Ref.ValidNamespaceKey(k) && GoodIndex(c, s.blobs, s.namespaces[k], s.committed[k]))
    && (forall m :: m in s.links ==> GoodLink(c, s.blobs, m, s.links[m]))
  }

  /** What a process has stored or seen is in the store. */
  ghost predicate Remembers(c: Codec, s: State, proc: Proc) {
    && (forall d :: d in proc.seen ==> d in s.blobs)
    && (forall b :: b in proc.stored ==> Hex(c.h(b)) in s.blobs && (s.clash.None? ==> s.blobs[Hex(c.h(b))] == b))
  }

  /** The index a process is about to publish is valid, complete, and what the namespace should hold next. */
  ghost predicate ReadyIndex(c: Codec, s: State, key: Bytes, members: seq<Index.Member>, merged: seq<Index.Member>) {
    && Index.ValidMembers(merged)
    && (s.clash.None? ==>
         Index.Lists(merged, Index.Commit(Committed(s, key), members)) && AllComplete(c, s.blobs, merged))
  }

  ghost predicate StoredIndex(c: Codec, s: State, merged: seq<Index.Member>) {
    var d := IndexDigest(c, merged);
    d in s.blobs && (s.clash.None? ==> s.blobs[d] == c.encodeIndex(merged))
  }

  /** What is committed under a key includes these members, the last one of each quant. */
  ghost predicate HoldsAll(s: State, key: Bytes, members: seq<Index.Member>) {
    forall i: nat :: Index.LastOfQuant(members, i) ==>
      members[i].quant in Committed(s, key) && Committed(s, key)[members[i].quant] == members[i]
  }

  /** Where a process stands agrees with the locks it holds and with what it has read under them. */
  ghost predicate Poised(c: Codec, s: State, p: nat, op: Op, pc: Pc) {
    match op
    case Put(digest, bytes) => pc == Start || ((pc == Verified || pc == Absent) && Hex(c.h(bytes)) == digest)
    case Has(digest) => pc == Start
    case Link(manifest, record) =>
      pc == Start ||
      (s.stateLock == Some(p) && (pc == Locked || pc == Loaded(s.links)))
    case Merge(key, members) =>
      pc == Start ||
      (key in s.nsLocks && s.nsLocks[key] == p &&
       match pc
       case Holding => true
       case Pointed(at) => at == Lookup(s.namespaces, key)
       case Merged(ms) => ReadyIndex(c, s, key, members, ms)
       case IndexAbsent(ms) => ReadyIndex(c, s, key, members, ms)
       case IndexStored(ms) => ReadyIndex(c, s, key, members, ms) && StoredIndex(c, s, ms)
       case StateHeld(ms) =>
         && ReadyIndex(c, s, key, members, ms) && StoredIndex(c, s, ms)
         && s.stateLock == Some(p) && Ref.ValidNamespaceKey(key)
       case StateLoaded(ms, namespaces) =>
         && ReadyIndex(c, s, key, members, ms) && StoredIndex(c, s, ms)
         && s.stateLock == Some(p) && Ref.ValidNamespaceKey(key) && namespaces == s.namespaces
       case Published => HoldsAll(s, key, members)
       case _ => false)
  }

  ghost predicate ProcOk(c: Codec, s: State, p: nat)
    requires p in s.procs
  {
    var proc := s.procs[p];
    && Remembers(c, s, proc) && WellOrdered(c, proc.seen, proc.stored, proc.todo)
    && (proc.todo != [] ==> Poised(c, s, p, proc.todo[0], proc.pc))
  }

  ghost predicate Inv(c: Codec, s: State) {
    && SoundNames(c, s) && ClashIsReal(c, s)
    && (s.clash.None? ==> Closed(c, s))
    && (forall p :: p in s.procs ==> ProcOk(c, s, p))
  }

  /* ---- What a step leaves alone ---- */

  /** No blob goes away, and none changes without a clash. */
  ghost predicate BlobsKept(s: State, s': State) {
    && (forall d :: d in s.blobs ==> d in s'.blobs)
    && (s'.clash.None? ==> s.clash.None? && forall d :: d in s.blobs ==> s'.blobs[d] == s.blobs[d])
  }

  /** What a step of p may change: nothing that another process relies on under its locks. */
  ghost predicate Fair(s: State, s': State, p: nat) {
    && BlobsKept(s, s')
    && (s.stateLock.Some? && s.stateLock.value != p ==>
         s'.stateLock == s.stateLock && s'.links == s.links && s'.namespaces == s.namespaces)
    && (forall k :: k in s.nsLocks && s.nsLocks[k] != p ==>
         k in s'.nsLocks && s'.nsLocks[k] == s.nsLocks[k] &&
         Lookup(s'.namespaces, k) == Lookup(s.namespaces, k) && Committed(s', k) == Committed(s, k))
    && (forall q :: q in s.procs && q != p ==> q in s'.procs && s'.procs[q] == s.procs[q])
    && (forall q :: q in s'.procs ==> q in s.procs || q == p)
  }

  lemma CompleteGrows(c: Codec, s: State, s': State, manifest: Bytes)
    requires BlobsKept(s, s') && s'.clash.None? && Complete(c, s.blobs, manifest)
    ensures Complete(c, s'.blobs, manifest)
  {
  }

  lemma AllCompleteGrows(c: Codec, s: State, s': State, ms: seq<Index.Member>)
    requires BlobsKept(s, s') && s'.clash.None? && AllComplete(c, s.blobs, ms)
    ensures AllComplete(c, s'.blobs, ms)
  {
    forall m | m in ms ensures Complete(c, s'.blobs, m.manifest) {
      CompleteGrows(c, s, s', m.manifest);
    }
  }

  lemma ReadIndexGrows(c: Codec, s: State, s': State, at: Option<Bytes>)
    requires BlobsKept(s, s') && s'.clash.None? && ReadIndex(c, s.blobs, at).Some?
    ensures ReadIndex(c, s'.blobs, at) == ReadIndex(c, s.blobs, at)
  {
  }

  lemma GoodIndexGrows(c: Codec, s: State, s': State, at: Bytes, committed: map<Bytes, Index.Member>)
    requires BlobsKept(s, s') && s'.clash.None? && GoodIndex(c, s.blobs, at, committed)
    ensures GoodIndex(c, s'.blobs, at, committed)
  {
    hide AllComplete, ReadIndex, Index.Lists;
    ReadIndexGrows(c, s, s', Some(at));
    AllCompleteGrows(c, s, s', ReadIndex(c, s.blobs, Some(at)).value);
  }

  lemma GoodLinkGrows(c: Codec, s: State, s': State, manifest: Bytes, record: Bytes)
    requires BlobsKept(s, s') && s'.clash.None? && GoodLink(c, s.blobs, manifest, record)
    ensures GoodLink(c, s'.blobs, manifest, record)
  {
    CompleteGrows(c, s, s', manifest);
  }

  /** A step that changes no state file keeps them closed. */
  lemma ClosedGrows(c: Codec, s: State, s': State)
    requires BlobsKept(s, s') && s'.clash.None? && Closed(c, s)
    requires s'.namespaces == s.namespaces && s'.links == s.links && s'.committed == s.committed
    ensures Closed(c, s')
  {
    hide GoodIndex, GoodLink, Ref.ValidNamespaceKey;
    forall k | k in s.namespaces ensures GoodIndex(c, s'.blobs, s.namespaces[k], s.committed[k]) {
      GoodIndexGrows(c, s, s', s.namespaces[k], s.committed[k]);
    }
    forall m | m in s.links ensures GoodLink(c, s'.blobs, m, s.links[m]) {
      GoodLinkGrows(c, s, s', m, s.links[m]);
    }
  }

  lemma RemembersGrows(c: Codec, s: State, s': State, proc: Proc)
    requires BlobsKept(s, s') && Remembers(c, s, proc)
    ensures Remembers(c, s', proc)
  {
  }

  lemma ReadyGrows(c: Codec, s: State, s': State, key: Bytes, members: seq<Index.Member>, merged: seq<Index.Member>)
    requires BlobsKept(s, s') && Committed(s', key) == Committed(s, key) && ReadyIndex(c, s, key, members, merged)
    ensures ReadyIndex(c, s', key, members, merged)
  {
    hide AllComplete, Index.Lists, Index.ValidMembers, Committed;
    if s'.clash.None? {
      AllCompleteGrows(c, s, s', merged);
    }
  }

  lemma StoredGrows(c: Codec, s: State, s': State, merged: seq<Index.Member>)
    requires BlobsKept(s, s') && StoredIndex(c, s, merged)
    ensures StoredIndex(c, s', merged)
  {
  }

  /** Another process stands where it stood. */
  lemma PoisedStays(c: Codec, s: State, s': State, p: nat, q: nat, op: Op, pc: Pc)
    requires Fair(s, s', p) && q != p && Poised(c, s, q, op, pc)
    ensures Poised(c, s', q, op, pc)
  {
    hide ReadyIndex, StoredIndex, BlobsKept, Ref.ValidNamespaceKey, Committed, Lookup;
    if op.Merge? && pc != Start {
      assert op.key in s.nsLocks && s.nsLocks[op.key] != p;
      match pc {
        case Merged(ms) => ReadyGrows(c, s, s', op.key, op.members, ms);
        case IndexAbsent(ms) => ReadyGrows(c, s, s', op.key, op.members, ms);
        case IndexStored(ms) => ReadyGrows(c, s, s', op.key, op.members, ms); StoredGrows(c, s, s', ms);
        case StateHeld(ms) => ReadyGrows(c, s, s', op.key, op.members, ms); StoredGrows(c, s, s', ms);
        case StateLoaded(ms, namespaces) => ReadyGrows(c, s, s', op.key, op.members, ms); StoredGrows(c, s, s', ms);
        case _ =>
      }
    }
  }

  lemma OthersStay(c: Codec, s: State, s': State, p: nat)
    requires Inv(c, s) && Fair(s, s', p)
    ensures forall q :: q in s'.procs && q != p ==> ProcOk(c, s', q)
  {
    hide Poised, WellOrdered, Closed, SoundNames, ClashIsReal, BlobsKept, Remembers;
    forall q | q in s'.procs && q != p ensures ProcOk(c, s', q) {
      assert ProcOk(c, s, q) && s'.procs[q] == s.procs[q];
      RemembersGrows(c, s, s', s.procs[q]);
      if s.procs[q].todo != [] {
        PoisedStays(c, s, s', p, q, s.procs[q].todo[0], s.procs[q].pc);
      }
    }
  }

  /** The step of p keeps the invariant when it is fair, keeps the state files closed, and leaves p in order. */
  lemma StepKeeps(c: Codec, s: State, s': State, p: nat)
    requires Inv(c, s) && Fair(s, s', p) && SoundNames(c, s') && ClashIsReal(c, s')
    requires s'.clash.None? ==> Closed(c, s')
    requires p in s'.procs && ProcOk(c, s', p)
    ensures Inv(c, s')
  {
    hide ProcOk, Closed, SoundNames, ClashIsReal, Fair;
    OthersStay(c, s, s', p);
  }

  /* ---- The steps, one by one ---- */

  /** s' is s but for where p stands, what the store holds and what the state files and locks say. */
  lemma StartsPoised(c: Codec, s: State, p: nat, op: Op)
    ensures Poised(c, s, p, op, Start)
  {
  }

  /** Going on to the next operation. */
  lemma NextOk(c: Codec, s: State, t: State, p: nat, seen: set<string>, stored: set<Bytes>)
    requires p in s.procs && ProcOk(c, s, p) && t.procs == s.procs && BlobsKept(s, t) && s.procs[p].todo != []
    requires forall d :: d in seen ==> d in t.blobs
    requires forall b :: b in stored ==> Hex(c.h(b)) in t.blobs && (t.clash.None? ==> t.blobs[Hex(c.h(b))] == b)
    requires var proc := s.procs[p]; WellOrdered(c, proc.seen + seen, proc.stored + stored, proc.todo[1..])
    ensures p in Next(t, p, seen, stored).procs && ProcOk(c, Next(t, p, seen, stored), p)
  {
    hide WellOrdered, Poised;
    var s' := Next(t, p, seen, stored);
    var proc := s'.procs[p];
    RemembersGrows(c, s, s', s.procs[p]);
    assert Remembers(c, s', proc);
    if proc.todo != [] {
      StartsPoised(c, s', p, proc.todo[0]);
    }
  }

  lemma AtOk(c: Codec, s: State, t: State, p: nat, pc: Pc)
    requires p in s.procs && ProcOk(c, s, p) && t.procs == s.procs && BlobsKept(s, t) && s.procs[p].todo != []
    requires Poised(c, At(t, p, pc), p, s.procs[p].todo[0], pc)
    ensures p in At(t, p, pc).procs && ProcOk(c, At(t, p, pc), p)
  {
    hide WellOrdered, Poised;
    RemembersGrows(c, s, At(t, p, pc), s.procs[p]);
  }

  /** Steps that touch neither the store nor the state files. */
  lemma QuietStep(c: Codec, s: State, s': State, p: nat)
    requires Inv(c, s) && s'.blobs == s.blobs && s'.clash == s.clash
    requires s'.namespaces == s.namespaces && s'.links == s.links && s'.committed == s.committed
    requires Fair(s, s', p) && p in s'.procs && ProcOk(c, s', p)
    ensures Inv(c, s')
  {
    hide ProcOk, Fair;
    assert BlobsKept(s, s');
    if s'.clash.None? {
      ClosedGrows(c, s, s');
    }
    StepKeeps(c, s, s', p) by {
      assert SoundNames(c, s') && ClashIsReal(c, s');
    }
  }

  lemma StopKeeps(c: Codec, s: State, p: nat)
    requires Inv(c, s) && p in s.procs
    ensures Inv(c, Stop(s, p))
  {
    hide Poised, Closed, SoundNames, ClashIsReal;
    assert ProcOk(c, s, p);
    QuietStep(c, s, Stop(s, p), p);
  }

  lemma LocalStep(c: Codec, s: State, p: nat, pc: Pc)
    requires Inv(c, s) && p in s.procs && s.procs[p].todo != []
    requires Poised(c, s, p, s.procs[p].todo[0], pc)
    ensures Inv(c, At(s, p, pc))
  {
    hide WellOrdered, Closed, SoundNames, ClashIsReal, Inv, ProcOk;
    var s' := At(s, p, pc);
    assert ProcOk(c, s, p) by {
      InvProc(c, s, p);
    }
    SamePoised(c, s, s', p, s.procs[p].todo[0], pc);
    AtOk(c, s, s, p, pc);
    QuietStep(c, s, s', p);
  }

  lemma InvProc(c: Codec, s: State, p: nat)
    requires Inv(c, s) && p in s.procs
    ensures ProcOk(c, s, p)
  {
  }

  lemma SamePoised(c: Codec, s: State, s': State, p: nat, op: Op, pc: Pc)
    requires s' == s.(procs := s'.procs) && Poised(c, s, p, op, pc)
    ensures Poised(c, s', p, op, pc)
  {
    hide Index.ValidMembers, Index.Lists, AllComplete, Ref.ValidNamespaceKey, IndexDigest;
  }

  /** A Put that finds or makes its blob. */
  lemma StoreStep(c: Codec, s: State, digest: string, bytes: Bytes)
    requires SoundNames(c, s) && ClashIsReal(c, s) && Hex(c.h(bytes)) == digest
    ensures var t := Rename(s, digest, bytes);
      BlobsKept(s, t) && SoundNames(c, t) && ClashIsReal(c, t) && t.blobs[digest] == bytes
    ensures digest in s.blobs ==>
      var t := KeepBlob(s, digest, bytes);
      BlobsKept(s, t) && SoundNames(c, t) && ClashIsReal(c, t) && (t.clash.None? ==> t.blobs[digest] == bytes)
  {
    if digest in s.blobs {
      HexInjective(c.h(bytes), c.h(s.blobs[digest]));
    }
  }

  lemma PutKeeps(c: Codec, s: State, p: nat, s': State)
    requires Inv(c, s) && p in s.procs && s.procs[p].todo != [] && s.procs[p].todo[0].Put?
    requires Advance(c, s, p) == Some(s')
    ensures Inv(c, s')
  {
    hide Closed, SoundNames, ClashIsReal, Fair, BlobsKept, ProcOk, Remembers;
    InvProc(c, s, p);
    var digest, bytes := s.procs[p].todo[0].digest, s.procs[p].todo[0].bytes;
    match s.procs[p].pc {
      case Start =>
        if Hex(c.h(bytes)) == digest {
          LocalStep(c, s, p, Verified);
        } else {
          StopKeeps(c, s, p);
        }
      case Verified =>
        if digest in s.blobs {
          PutDone(c, s, p, KeepBlob(s, digest, bytes), digest, bytes);
        } else {
          PoisedPut(c, s, p);
          LocalStep(c, s, p, Absent);
        }
      case Absent =>
        PutDone(c, s, p, Rename(s, digest, bytes), digest, bytes);
      case _ =>
    }
  }

  lemma PoisedPut(c: Codec, s: State, p: nat)
    requires p in s.procs && ProcOk(c, s, p) && s.procs[p].todo != [] && s.procs[p].todo[0].Put?
    requires s.procs[p].pc != Start
    ensures Hex(c.h(s.procs[p].todo[0].bytes)) == s.procs[p].todo[0].digest
  {
    hide WellOrdered, Remembers;
  }

  lemma PutDone(c: Codec, s: State, p: nat, t: State, digest: string, bytes: Bytes)
    requires Inv(c, s) && p in s.procs && s.procs[p].todo != [] && s.procs[p].todo[0] == Put(digest, bytes)
    requires s.procs[p].pc != Start
    requires t == Rename(s, digest, bytes) || (digest in s.blobs && t == KeepBlob(s, digest, bytes))
    ensures Inv(c, Next(t, p, {digest}, {bytes}))
  {
    hide Closed, SoundNames, ClashIsReal, ProcOk, Remembers, Poised;
    InvProc(c, s, p);
    PoisedPut(c, s, p);
    StoreStep(c, s, digest, bytes);
    HeadOrdered(c, s, p);
    NextOk(c, s, t, p, {digest}, {bytes});
    StoreKeeps(c, s, t, Next(t, p, {digest}, {bytes}), p);
  }

  /** A step whose only lasting change is in the store. */
  lemma StoreKeeps(c: Codec, s: State, t: State, s': State, p: nat)
    requires Inv(c, s) && p in s.procs && BlobsKept(s, t) && SoundNames(c, t) && ClashIsReal(c, t)
    requires t == s.(blobs := t.blobs, clash := t.clash)
    requires p in s'.procs && s' == With(t, p, s'.procs[p]) && ProcOk(c, s', p)
    ensures Inv(c, s')
  {
    hide ProcOk, Closed;
    if s'.clash.None? {
      ClosedGrows(c, s, s');
    }
    StepKeeps(c, s, s', p);
  }

  lemma HeadOrdered(c: Codec, s: State, p: nat)
    requires p in s.procs && ProcOk(c, s, p) && s.procs[p].todo != []
    ensures var proc := s.procs[p];
      WellOrdered(c, proc.seen + SeenBy(proc.todo[0]), proc.stored + StoredBy(proc.todo[0]), proc.todo[1..])
    ensures s.procs[p].todo[0].Link? ==>
      Covered(c, s.procs[p].seen, s.procs[p].stored, s.procs[p].todo[0].manifest) &&
      DigestHex(s.procs[p].todo[0].record) in s.procs[p].seen
    ensures s.procs[p].todo[0].Merge? ==>
      forall m :: m in s.procs[p].todo[0].members ==> Covered(c, s.procs[p].seen, s.procs[p].stored, m.manifest)
  {
    hide Remembers, Poised, Covered;
    var proc := s.procs[p];
    assert proc.seen + {} == proc.seen && proc.stored + {} == proc.stored;
  }

  /** The digest an operation finds or puts. */
  function SeenBy(op: Op): set<string> {
    if op.Put? || op.Has? then {op.digest} else {}
  }

  function StoredBy(op: Op): set<Bytes> {
    if op.Put? then {op.bytes} else {}
  }

  lemma HasKeeps(c: Codec, s: State, p: nat, s': State)
    requires Inv(c, s) && p in s.procs && s.procs[p].todo != [] && s.procs[p].todo[0].Has?
    requires Advance(c, s, p) == Some(s')
    ensures Inv(c, s')
  {
    hide Closed, SoundNames, ClashIsReal, ProcOk, Remembers, Poised;
    InvProc(c, s, p);
    var digest := s.procs[p].todo[0].digest;
    if digest in s.blobs {
      HeadOrdered(c, s, p);
      NextOk(c, s, s, p, {digest}, {});
      QuietStep(c, s, s', p);
    } else {
      StopKeeps(c, s, p);
    }
  }

  /** Whatever a process has covered is complete in the store. */
  lemma CoveredComplete(c: Codec, s: State, proc: Proc, manifest: Bytes)
    requires Remembers(c, s, proc) && Covered(c, proc.seen, proc.stored, manifest) && s.clash.None?
    ensures Complete(c, s.blobs, manifest)
  {
  }

  /* ---- Links ---- */

  lemma LinkKeeps(c: Codec, s: State, p: nat, s': State)
    requires Inv(c, s) && p in s.procs && s.procs[p].todo != [] && s.procs[p].todo[0].Link?
    requires Advance(c, s, p) == Some(s')
    ensures Inv(c, s')
  {
    hide Closed, SoundNames, ClashIsReal, ProcOk, Remembers;
    InvProc(c, s, p);
    var manifest, record := s.procs[p].todo[0].manifest, s.procs[p].todo[0].record;
    match s.procs[p].pc {
      case Start =>
        if Ref.NormalizeDigest(manifest).None? || Ref.NormalizeDigest(record).None? {
          StopKeeps(c, s, p);
        } else {
          AtOk(c, s, s.(stateLock := Some(p)), p, Locked);
          QuietStep(c, s, s', p);
        }
      case Locked =>
        PoisedLink(c, s, p);
        LocalStep(c, s, p, Loaded(s.links));
      case Loaded(links) =>
        LinkSaved(c, s, p, s');
      case _ =>
    }
  }

  lemma PoisedLink(c: Codec, s: State, p: nat)
    requires p in s.procs && ProcOk(c, s, p) && s.procs[p].todo != [] && s.procs[p].todo[0].Link?
    requires s.procs[p].pc != Start
    ensures s.stateLock == Some(p) && (s.procs[p].pc.Loaded? ==> s.procs[p].pc.links == s.links)
  {
    hide WellOrdered, Remembers;
  }

  lemma LinkSaved(c: Codec, s: State, p: nat, s': State)
    requires Inv(c, s) && p in s.procs && s.procs[p].todo != [] && s.procs[p].todo[0].Link? && s.procs[p].pc.Loaded?
    requires Advance(c, s, p) == Some(s')
    ensures Inv(c, s')
  {
    hide SoundNames, ClashIsReal, ProcOk, Remembers, Poised, Covered, GoodIndex, Complete, Ref.ValidNamespaceKey;
    InvProc(c, s, p);
    PoisedLink(c, s, p);
    HeadOrdered(c, s, p);
    var proc := s.procs[p];
    var manifest, record := proc.todo[0].manifest, proc.todo[0].record;
    var m, r := Ref.NormalizeDigest(manifest).value, Ref.NormalizeDigest(record).value;
    var t := s.(links := s.links[m := r], stateLock := None);
    NextOk(c, s, t, p, {}, {});
    if s.clash.None? {
      CoveredComplete(c, s, proc, manifest);
      CanonicalStays(c, s, manifest);
      RemembersSeen(c, s, proc, DigestHex(record));
    }
    StepKeeps(c, s, s', p) by {
      assert SoundNames(c, s') && ClashIsReal(c, s') by {
        SameStore(c, s, s');
      }
    }
  }

  lemma SameStore(c: Codec, s: State, s': State)
    requires SoundNames(c, s) && ClashIsReal(c, s) && s'.blobs == s.blobs && s'.clash == s.clash
    ensures SoundNames(c, s') && ClashIsReal(c, s')
  {
  }

  lemma RemembersSeen(c: Codec, s: State, proc: Proc, d: string)
    requires Remembers(c, s, proc) && d in proc.seen
    ensures d in s.blobs
  {
  }

  lemma ProcRemembers(c: Codec, s: State, p: nat)
    requires p in s.procs && ProcOk(c, s, p)
    ensures Remembers(c, s, s.procs[p])
  {
    hide WellOrdered, Poised, Remembers;
  }

  lemma CanonicalStays(c: Codec, s: State, manifest: Bytes)
    requires Complete(c, s.blobs, manifest)
    ensures Ref.NormalizeDigest(manifest) == Some(manifest)
  {
  }

  /* ---- Index merges ---- */

  lemma PoisedMerge(c: Codec, s: State, p: nat)
    requires p in s.procs && ProcOk(c, s, p) && s.procs[p].todo != [] && s.procs[p].todo[0].Merge?
    requires s.procs[p].pc != Start
    ensures var key, members, pc := s.procs[p].todo[0].key, s.procs[p].todo[0].members, s.procs[p].pc;
      && key in s.nsLocks && s.nsLocks[key] == p
      && (pc.Pointed? ==> pc.at == Lookup(s.namespaces, key))
      && (pc.Merged? || pc.IndexAbsent? || pc.IndexStored? || pc.StateHeld? || pc.StateLoaded? ==>
           ReadyIndex(c, s, key, members, pc.merged))
      && (pc.IndexStored? || pc.StateHeld? || pc.StateLoaded? ==> StoredIndex(c, s, pc.merged))
      && (pc.StateHeld? || pc.StateLoaded? ==> s.stateLock == Some(p) && Ref.ValidNamespaceKey(key))
      && (pc.StateLoaded? ==> pc.namespaces == s.namespaces)
      && (pc == Published ==> HoldsAll(s, key, members))
  {
    hide WellOrdered, Remembers, ReadyIndex, StoredIndex, Ref.ValidNamespaceKey, Lookup, HoldsAll;
  }

  lemma MergeKeeps(c: Codec, s: State, p: nat, s': State)
    requires RoundTrips(c) && Inv(c, s) && p in s.procs && s.procs[p].todo != [] && s.procs[p].todo[0].Merge?
    requires Advance(c, s, p) == Some(s')
    ensures Inv(c, s')
  {
    hide Inv, ProcOk, ReadyIndex, StoredIndex, Ref.ValidNamespaceKey, Index.ValidMembers, ReadIndex, IndexDigest,
      Rename, KeepBlob;
    InvProc(c, s, p);
    var key, members := s.procs[p].todo[0].key, s.procs[p].todo[0].members;
    if s.procs[p].pc != Start {
      PoisedMerge(c, s, p);
    }
    match s.procs[p].pc {
      case Start => MergeStarts(c, s, p, s');
      case Holding => LocalStep(c, s, p, Pointed(Lookup(s.namespaces, key)));
      case Pointed(at) =>
        var current := ReadIndex(c, s.blobs, at);
        if current.None? || !Index.ValidMembers(Index.UpsertAll(current.value, members)) {
          StopKeeps(c, s, p);
        } else {
          MergeReady(c, s, p, key, members, current.value);
          LocalStep(c, s, p, Merged(Index.UpsertAll(current.value, members)));
        }
      case Merged(ms) =>
        if IndexDigest(c, ms) in s.blobs {
          IndexPut(c, s, p, KeepBlob(s, IndexDigest(c, ms), c.encodeIndex(ms)), ms);
        } else {
          LocalStep(c, s, p, IndexAbsent(ms));
        }
      case IndexAbsent(ms) =>
        IndexPut(c, s, p, Rename(s, IndexDigest(c, ms), c.encodeIndex(ms)), ms);
      case IndexStored(ms) =>
        if !Ref.ValidNamespaceKey(key) {
          StopKeeps(c, s, p);
        } else {
          StateLocks(c, s, p, s', ms);
        }
      case StateHeld(ms) => LocalStep(c, s, p, StateLoaded(ms, s.namespaces));
      case StateLoaded(ms, namespaces) => Publishes(c, s, p, s', ms);
      case Published => MergeEnds(c, s, p, s');
      case _ =>
    }
  }

  lemma MergeStarts(c: Codec, s: State, p: nat, s': State)
    requires Inv(c, s) && p in s.procs && s.procs[p].todo != [] && s.procs[p].todo[0].Merge? && s.procs[p].pc == Start
    requires Advance(c, s, p) == Some(s')
    ensures Inv(c, s')
  {
    hide Closed, SoundNames, ClashIsReal, ProcOk;
    InvProc(c, s, p);
    AtOk(c, s, s.(nsLocks := s.nsLocks[s.procs[p].todo[0].key := p]), p, Holding);
    QuietStep(c, s, s', p);
  }

  lemma MergeEnds(c: Codec, s: State, p: nat, s': State)
    requires Inv(c, s) && p in s.procs && s.procs[p].todo != [] && s.procs[p].todo[0].Merge?
    requires s.procs[p].pc == Published
    requires Advance(c, s, p) == Some(s')
    ensures Inv(c, s')
  {
    hide Closed, SoundNames, ClashIsReal, ProcOk, Remembers, Poised, HoldsAll, ReadyIndex, StoredIndex, Inv, Covered;
    InvProc(c, s, p);
    PoisedMerge(c, s, p);
    HeadOrdered(c, s, p);
    NextOk(c, s, s.(nsLocks := s.nsLocks - {s.procs[p].todo[0].key}), p, {}, {});
    QuietStep(c, s, s', p);
  }

  lemma StateLocks(c: Codec, s: State, p: nat, s': State, ms: seq<Index.Member>)
    requires Inv(c, s) && p in s.procs && s.procs[p].todo != [] && s.procs[p].todo[0].Merge?
    requires s.procs[p].pc == IndexStored(ms)
    requires Advance(c, s, p) == Some(s') && s'.stateLock == Some(p) && s.stateLock.None?
    requires Ref.ValidNamespaceKey(s.procs[p].todo[0].key)
    ensures Inv(c, s')
  {
    hide Closed, SoundNames, ClashIsReal, ProcOk, Remembers, ReadyIndex, StoredIndex, Ref.ValidNamespaceKey;
    InvProc(c, s, p);
    PoisedMerge(c, s, p);
    ReadyGrows(c, s, s', s.procs[p].todo[0].key, s.procs[p].todo[0].members, ms);
    StoredGrows(c, s, s', ms);
    AtOk(c, s, s.(stateLock := Some(p)), p, StateHeld(ms));
    QuietStep(c, s, s', p);
  }

  /** What a namespace refers to now lists what was committed there. */
  lemma CurrentLists(c: Codec, s: State, key: Bytes)
    requires Inv(c, s) && s.clash.None?
    ensures var current := ReadIndex(c, s.blobs, Lookup(s.namespaces, key));
      current.Some? && Index.Lists(current.value, Committed(s, key)) && AllComplete(c, s.blobs, current.value)
  {
    hide ProcOk, GoodLink, Complete;
    if key in s.namespaces {
      assert GoodIndex(c, s.blobs, s.namespaces[key], s.committed[key]);
    }
  }

  lemma UpsertComplete(c: Codec, blobs: map<string, Bytes>, current: seq<Index.Member>, cm: map<Bytes, Index.Member>,
                       members: seq<Index.Member>)
    requires Index.Lists(current, cm) && AllComplete(c, blobs, current) && AllComplete(c, blobs, members)
    ensures AllComplete(c, blobs, Index.UpsertAll(current, members))
  {
    hide Complete;
    Index.UpsertAllLists(current, cm, members);
    Index.CommitKeeps(cm, members);
    var merged, after := Index.UpsertAll(current, members), Index.Commit(cm, members);
    forall m | m in merged ensures Complete(c, blobs, m.manifest) {
      assert m.quant in after && after[m.quant] == m;
      assert m in members || (m.quant in cm && cm[m.quant] == m);
    }
  }

  lemma MergeReady(c: Codec, s: State, p: nat, key: Bytes, members: seq<Index.Member>, current: seq<Index.Member>)
    requires Inv(c, s) && p in s.procs && s.procs[p].todo != [] && s.procs[p].todo[0] == Merge(key, members)
    requires ReadIndex(c, s.blobs, Lookup(s.namespaces, key)) == Some(current)
    requires Index.ValidMembers(Index.UpsertAll(current, members))
    ensures ReadyIndex(c, s, key, members, Index.UpsertAll(current, members))
  {
    hide Inv, ProcOk, Index.ValidMembers, Index.Lists, ReadIndex, Complete, Covered, Remembers, Lookup, Committed;
    if s.clash.None? {
      InvProc(c, s, p);
      HeadOrdered(c, s, p);
      ProcRemembers(c, s, p);
      CurrentLists(c, s, key);
      forall m | m in members ensures Complete(c, s.blobs, m.manifest) {
        CoveredComplete(c, s, s.procs[p], m.manifest);
      }
      UpsertComplete(c, s.blobs, current, Committed(s, key), members);
      Index.UpsertAllLists(current, Committed(s, key), members);
    }
  }

  lemma IndexPut(c: Codec, s: State, p: nat, t: State, ms: seq<Index.Member>)
    requires Inv(c, s) && p in s.procs && s.procs[p].todo != [] && s.procs[p].todo[0].Merge?
    requires s.procs[p].pc == Merged(ms) || s.procs[p].pc == IndexAbsent(ms)
    requires var d, b := IndexDigest(c, ms), c.encodeIndex(ms);
      t == Rename(s, d, b) || (d in s.blobs && t == KeepBlob(s, d, b))
    ensures Inv(c, At(t, p, IndexStored(ms)))
  {
    hide Closed, SoundNames, ClashIsReal, ProcOk, Remembers, ReadyIndex;
    InvProc(c, s, p);
    PoisedMerge(c, s, p);
    StoreStep(c, s, IndexDigest(c, ms), c.encodeIndex(ms));
    var s' := At(t, p, IndexStored(ms));
    ReadyGrows(c, s, s', s.procs[p].todo[0].key, s.procs[p].todo[0].members, ms);
    AtOk(c, s, t, p, IndexStored(ms));
    StoreKeeps(c, s, t, s', p);
  }

  /** The namespace is pointed at the merged index: the moment of the commit. */
  lemma Publishes(c: Codec, s: State, p: nat, s': State, ms: seq<Index.Member>)
    requires RoundTrips(c) && Inv(c, s) && p in s.procs && s.procs[p].todo != [] && s.procs[p].todo[0].Merge?
    requires s.procs[p].pc.StateLoaded? && s.procs[p].pc.merged == ms && Advance(c, s, p) == Some(s')
    ensures Inv(c, s')
  {
    hide SoundNames, ClashIsReal, ProcOk, Remembers, Poised, Ref.ValidNamespaceKey, ReadyIndex, StoredIndex,
      Index.Commit, Closed, RoundTrips, AdvancePut, AdvanceLink, ReadIndex, Index.UpsertAll, Index.ValidMembers;
    InvProc(c, s, p);
    PoisedMerge(c, s, p);
    var key, members := s.procs[p].todo[0].key, s.procs[p].todo[0].members;
    var t := AfterPublish(c, s, key, members, ms);
    PublishedPoised(c, At(t, p, Published), p, key, members, s);
    AtOk(c, s, t, p, Published);
    if s.clash.None? {
      ClosedPublished(c, s, s', key, members, ms);
    }
    SameStore(c, s, s');
    StepKeeps(c, s, s', p);
  }

  function AfterPublish(c: Codec, s: State, key: Bytes, members: seq<Index.Member>, ms: seq<Index.Member>): State {
    s.(namespaces := s.namespaces[key := DigestOf(c.h, c.encodeIndex(ms))],
       committed := s.committed[key := Index.Commit(Committed(s, key), members)], stateLock := None)
  }

  lemma ClosedPublished(c: Codec, s: State, s': State, key: Bytes, members: seq<Index.Member>, ms: seq<Index.Member>)
    requires RoundTrips(c) && s.clash.None? && Closed(c, s) && Ref.ValidNamespaceKey(key)
    requires ReadyIndex(c, s, key, members, ms) && StoredIndex(c, s, ms)
    requires s' == AfterPublish(c, s, key, members, ms).(procs := s'.procs)
    ensures Closed(c, s')
  {
    hide GoodLink, GoodIndex, Ref.ValidNamespaceKey, ReadyIndex, StoredIndex, Index.Commit;
    NewIndexGood(c, s, key, members, ms);
  }

  lemma PublishedPoised(c: Codec, s: State, p: nat, key: Bytes, members: seq<Index.Member>, before: State)
    requires key in s.nsLocks && s.nsLocks[key] == p
    requires Committed(s, key) == Index.Commit(Committed(before, key), members)
    ensures Poised(c, s, p, Merge(key, members), Published)
  {
    hide Committed, Index.Commit;
    forall i: nat | Index.LastOfQuant(members, i)
      ensures members[i].quant in Committed(s, key) && Committed(s, key)[members[i].quant] == members[i]
    {
      Index.CommitLast(Committed(before, key), members, i);
    }
  }

  lemma NewIndexGood(c: Codec, s: State, key: Bytes, members: seq<Index.Member>, ms: seq<Index.Member>)
    requires RoundTrips(c) && s.clash.None? && ReadyIndex(c, s, key, members, ms) && StoredIndex(c, s, ms)
    ensures GoodIndex(c, s.blobs, DigestOf(c.h, c.encodeIndex(ms)), Index.Commit(Committed(s, key), members))
  {
    hide Index.Lists, Index.ValidMembers, AllComplete, Index.Commit, Committed;
    assert c.decodeIndex(c.encodeIndex(ms)) == Some(ms);
  }

  /* ---- Whole runs ---- */

  lemma SpawnKeeps(c: Codec, s: State, s': State, p: nat)
    requires Inv(c, s) && Spawns(c, s, s', p)
    ensures Inv(c, s')
  {
    hide Closed, SoundNames, ClashIsReal, WellOrdered, Poised;
    if s'.procs[p].todo != [] {
      StartsPoised(c, s', p, s'.procs[p].todo[0]);
    }
    QuietStep(c, s, s', p);
  }

  lemma EveryStepKeeps(c: Codec, s: State, s': State)
    requires RoundTrips(c) && Inv(c, s) && Step(c, s, s')
    ensures Inv(c, s')
  {
    hide Inv, Spawns, RoundTrips;
    var p :| StepOf(c, s, s', p);
    if Spawns(c, s, s', p) {
      SpawnKeeps(c, s, s', p);
    } else if s' == Stop(s, p) {
      StopKeeps(c, s, p);
    } else {
      match s.procs[p].todo[0] {
        case Put(digest, bytes) => PutKeeps(c, s, p, s');
        case Has(digest) => HasKeeps(c, s, p, s');
        case Link(manifest, record) => LinkKeeps(c, s, p, s');
        case Merge(key, members) => MergeKeeps(c, s, p, s');
      }
    }
  }

  /** The invariant holds in every state of every run. */
  lemma {:induction false} EveryState(c: Codec, run: seq<State>, i: nat)
    requires RoundTrips(c) && Run(c, run) && i < |run|
    ensures Inv(c, run[i])
  {
    if i > 0 {
      EveryState(c, run, i - 1);
      assert Step(c, run[i - 1], run[i - 1 + 1]);
      EveryStepKeeps(c, run[i - 1], run[i]);
    }
  }
}
