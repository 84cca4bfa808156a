/** What an import that reaches its end has left behind: blobs, links, and members of the namespace's index. */
module ImportEffects {
  import opened Basics
  import opened ImportPrograms
  import opened ImportProtocol
  import opened ImportRuns
  import opened ImportSafety
  import Index
  import opened Manifests
  import Ref
  import Seal
  import Torrent
  import V = Validate

  /* ---- One step ---- */

  /** Process p completes op. */
  ghost predicate Finishes(s: State, s': State, p: nat, op: Op) {
    && p in s.procs && p in s'.procs && s.procs[p].todo != [] && s.procs[p].todo[0] == op
    && s'.procs[p].todo == s.procs[p].todo[1..] && s'.procs[p].done == s.procs[p].done + [op]
    && s'.procs[p].seen == s.procs[p].seen + SeenBy(op) && s'.procs[p].stored == s.procs[p].stored + StoredBy(op)
  }

  /** Process p goes on with what it is at, or stops. */
  ghost predicate GoesOn(s: State, s': State, p: nat) {
    && p in s.procs && p in s'.procs && s'.procs[p] == s.procs[p].(todo := s'.procs[p].todo, pc := s'.procs[p].pc)
    && (s'.procs[p].todo == s.procs[p].todo || s'.procs[p].todo == [])
  }

  /** What is true of a completed operation, at the moment of its completion. */
  ghost predicate Takes(c: Codec, s: State, s': State, op: Op) {
    match op
    case Put(digest, bytes) => Hex(c.h(bytes)) == digest && s'.links == s.links
    case Has(digest) => s'.links == s.links
    case Link(manifest, record) =>
      var m, r := Ref.NormalizeDigest(manifest), Ref.NormalizeDigest(record);
      m.Some? && r.Some? && s'.links == s.links[m.value := r.value]
    case Merge(key, members) => HoldsAll(s, key, members) && s'.links == s.links
  }

  /** A step of p: no other process changes, and links change only when p completes a Link. */
  ghost predicate MovesOne(c: Codec, s: State, s': State, p: nat) {
    && p in s'.procs && s'.procs == s.procs[p := s'.procs[p]]
    && ((GoesOn(s, s', p) && s'.links == s.links) || exists op :: Finishes(s, s', p, op) && Takes(c, s, s', op))
  }

  lemma NextFinishes(s: State, t: State, p: nat, op: Op)
    requires p in s.procs && t.procs == s.procs && s.procs[p].todo != [] && s.procs[p].todo[0] == op
    ensures var s' := Next(t, p, SeenBy(op), StoredBy(op));
      Finishes(s, s', p, op) && s'.links == t.links && s'.procs == s.procs[p := s'.procs[p]]
  {
  }

  lemma AtGoesOn(s: State, t: State, p: nat, pc: Pc)
    requires p in s.procs && t.procs == s.procs
    ensures var s' := At(t, p, pc); GoesOn(s, s', p) && s'.links == t.links && s'.procs == s.procs[p := s'.procs[p]]
  {
  }

  lemma StopGoesOn(s: State, p: nat)
    requires p in s.procs
    ensures var s' := Stop(s, p); GoesOn(s, s', p) && s'.links == s.links && s'.procs == s.procs[p := s'.procs[p]]
  {
  }

  lemma GoesOnMoves(c: Codec, s: State, s': State, p: nat)
    requires p in s'.procs && s'.procs == s.procs[p := s'.procs[p]] && GoesOn(s, s', p) && s'.links == s.links
    ensures MovesOne(c, s, s', p)
  {
  }

  lemma FinishMoves(c: Codec, s: State, s': State, p: nat, op: Op)
    requires p in s'.procs && s'.procs == s.procs[p := s'.procs[p]] && Finishes(s, s', p, op) && Takes(c, s, s', op)
    ensures MovesOne(c, s, s', p)
  {
  }

  lemma PutMoves(c: Codec, s: State, p: nat, s': State)
    requires Inv(c, s) && p in s.procs && s.procs[p].todo != [] && s.procs[p].todo[0].Put?
    requires Advance(c, s, p) == Some(s')
    ensures MovesOne(c, s, s', p)
  {
    hide Inv, ProcOk, GoesOn, Finishes, Meets, At, Next, Stop, With, MovesOne, KeepBlob, Rename;
    InvProc(c, s, p);
    var op := s.procs[p].todo[0];
    SameProcs(s, op.digest, op.bytes);
    match s.procs[p].pc {
      case Start =>
        StopGoesOn(s, p);
        AtGoesOn(s, s, p, Verified);
        GoesOnMoves(c, s, s', p);
      case Verified =>
        PoisedPut(c, s, p);
        if op.digest in s.blobs {
          NextFinishes(s, KeepBlob(s, op.digest, op.bytes), p, op);
          FinishMoves(c, s, s', p, op);
        } else {
          AtGoesOn(s, s, p, Absent);
          GoesOnMoves(c, s, s', p);
        }
      case Absent =>
        PoisedPut(c, s, p);
        NextFinishes(s, Rename(s, op.digest, op.bytes), p, op);
        FinishMoves(c, s, s', p, op);
      case _ =>
    }
  }

  lemma SameProcs(s: State, digest: string, bytes: Bytes)
    ensures KeepBlob(s, digest, bytes).procs == s.procs && KeepBlob(s, digest, bytes).links == s.links
    ensures Rename(s, digest, bytes).procs == s.procs && Rename(s, digest, bytes).links == s.links
  {
  }

  lemma HasMoves(c: Codec, s: State, p: nat, s': State)
    requires p in s.procs && s.procs[p].todo != [] && s.procs[p].todo[0].Has? && Advance(c, s, p) == Some(s')
    ensures MovesOne(c, s, s', p)
  {
    hide GoesOn, Finishes, At, Next, Stop, With;
    StopGoesOn(s, p);
    NextFinishes(s, s, p, s.procs[p].todo[0]);
  }

  lemma LinkMoves(c: Codec, s: State, p: nat, s': State)
    requires Inv(c, s) && p in s.procs && s.procs[p].todo != [] && s.procs[p].todo[0].Link?
    requires Advance(c, s, p) == Some(s')
    ensures MovesOne(c, s, s', p)
  {
    hide Inv, ProcOk, GoesOn, Finishes, At, Next, Stop, With, Ref.NormalizeDigest, MovesOne;
    InvProc(c, s, p);
    var op := s.procs[p].todo[0];
    match s.procs[p].pc {
      case Start =>
        StopGoesOn(s, p);
        AtGoesOn(s, s.(stateLock := Some(p)), p, Locked);
        GoesOnMoves(c, s, s', p);
      case Locked =>
        AtGoesOn(s, s, p, Loaded(s.links));
        GoesOnMoves(c, s, s', p);
      case Loaded(links) => SavedMoves(c, s, p, s');
      case _ =>
    }
  }

  /** Of a link whose map has been loaded. */
  lemma SavedMoves(c: Codec, s: State, p: nat, s': State)
    requires Inv(c, s) && p in s.procs && s.procs[p].todo != [] && s.procs[p].todo[0].Link?
    requires Advance(c, s, p) == Some(s')
    requires s.procs[p].pc.Loaded?
    ensures MovesOne(c, s, s', p)
  {
    hide Inv, ProcOk, GoesOn, Finishes, At, Next, Stop, With, Ref.NormalizeDigest, MovesOne;
    var op := s.procs[p].todo[0];
    InvProc(c, s, p);
    PoisedLink(c, s, p);
    var m, r := Ref.NormalizeDigest(op.manifest), Ref.NormalizeDigest(op.record);
    if m.Some? && r.Some? {
      NextFinishes(s, s.(links := s.links[m.value := r.value], stateLock := None), p, op);
      FinishMoves(c, s, s', p, op);
    }
  }

  lemma MergeMoves(c: Codec, s: State, p: nat, s': State)
    requires Inv(c, s) && p in s.procs && s.procs[p].todo != [] && s.procs[p].todo[0].Merge?
    requires Advance(c, s, p) == Some(s')
    ensures MovesOne(c, s, s', p)
  {
    hide Inv, ProcOk, GoesOn, Finishes, At, Next, Stop, With, ReadIndex, IndexDigest, Index.ValidMembers,
      Index.UpsertAll,
      Index.Commit, Ref.ValidNamespaceKey, Meets, Committed, Lookup, HoldsAll, ReadyIndex, StoredIndex;
    InvProc(c, s, p);
    var op := s.procs[p].todo[0];
    if s.procs[p].pc == Published {
      PoisedMerge(c, s, p);
      NextFinishes(s, s.(nsLocks := s.nsLocks - {op.key}), p, op);
    } else {
      MergeGoesOn(c, s, p, s');
    }
  }

  /** Of a merge that has not published yet. */
  lemma MergeGoesOn(c: Codec, s: State, p: nat, s': State)
    requires p in s.procs && s.procs[p].todo != [] && s.procs[p].todo[0].Merge? && Advance(c, s, p) == Some(s')
    requires s.procs[p].pc != Published
    ensures GoesOn(s, s', p) && s'.links == s.links && p in s'.procs && s'.procs == s.procs[p := s'.procs[p]]
  {
    hide GoesOn, At, Next, Stop, With, ReadIndex, IndexDigest, Index.ValidMembers, Index.UpsertAll, Index.Commit,
      Ref.ValidNamespaceKey, Meets, Committed, Lookup;
    var op := s.procs[p].todo[0];
    StopGoesOn(s, p);
    match s.procs[p].pc {
      case Start => AtGoesOn(s, s.(nsLocks := s.nsLocks[op.key := p]), p, Holding);
      case Holding => AtGoesOn(s, s, p, Pointed(Lookup(s.namespaces, op.key)));
      case Pointed(at) =>
        var current := ReadIndex(c, s.blobs, at);
        if current.Some? {
          AtGoesOn(s, s, p, Merged(Index.UpsertAll(current.value, op.members)));
        }
      case Merged(ms) =>
        AtGoesOn(s, KeepBlob(s, IndexDigest(c, ms), c.encodeIndex(ms)), p, IndexStored(ms));
        AtGoesOn(s, s, p, IndexAbsent(ms));
      case IndexAbsent(ms) =>
        AtGoesOn(s, Rename(s, IndexDigest(c, ms), c.encodeIndex(ms)), p, IndexStored(ms));
      case IndexStored(ms) => AtGoesOn(s, s.(stateLock := Some(p)), p, StateHeld(ms));
      case StateHeld(ms) => AtGoesOn(s, s, p, StateLoaded(ms, s.namespaces));
      case StateLoaded(ms, namespaces) =>
        AtGoesOn(s, s.(namespaces := namespaces[op.key := DigestOf(c.h, c.encodeIndex(ms))],
                       committed := s.committed[op.key := Index.Commit(Committed(s, op.key), op.members)],
                       stateLock := None), p, Published);
      case _ =>
    }
  }

  /** A new process has done nothing, and changes nothing else. */
  ghost predicate Starts(s: State, s': State, p: nat) {
    p !in s.procs && p in s'.procs && s' == With(s, p, s'.procs[p]) && s'.procs[p].done == [] &&
    s'.procs[p].seen == {} && s'.procs[p].stored == {}
  }

  lemma StepMoves(c: Codec, s: State, s': State) returns (p: nat)
    requires Inv(c, s) && Step(c, s, s')
    ensures Starts(s, s', p) || MovesOne(c, s, s', p)
  {
    hide Inv, Advance, MovesOne, Stop, WellOrdered, With, GoesOn;
    p :| StepOf(c, s, s', p);
    if p in s.procs {
      if s' == Stop(s, p) {
        StopGoesOn(s, p);
        GoesOnMoves(c, s, s', p);
      } else {
        TodoLeft(c, s, p);
        match s.procs[p].todo[0] {
          case Put(digest, bytes) => PutMoves(c, s, p, s');
          case Has(digest) => HasMoves(c, s, p, s');
          case Link(manifest, record) => LinkMoves(c, s, p, s');
          case Merge(key, members) => MergeMoves(c, s, p, s');
        }
      }
    }
  }

  /* ---- Runs ---- */

  /** In step k of the run process p completes op. */
  ghost predicate Completes(run: seq<State>, k: nat, p: nat, op: Op) {
    k + 1 < |run| && Finishes(run[k], run[k + 1], p, op)
  }

  lemma RunStep(c: Codec, run: seq<State>, k: nat) returns (p: nat)
    requires RoundTrips(c) && Run(c, run) && k + 1 < |run|
    ensures Inv(c, run[k]) && Inv(c, run[k + 1]) && Step(c, run[k], run[k + 1])
    ensures Starts(run[k], run[k + 1], p) || MovesOne(c, run[k], run[k + 1], p)
  {
    hide Inv, Step, MovesOne;
    EveryState(c, run, k);
    EveryState(c, run, k + 1);
    p := StepMoves(c, run[k], run[k + 1]);
  }

  lemma OneStep(c: Codec, s: State, s': State, p: nat, q: nat)
    requires (Starts(s, s', p) || MovesOne(c, s, s', p)) && q in s.procs
    ensures q in s'.procs && (q != p ==> s'.procs[q] == s.procs[q])
    ensures s'.procs[q].done == s.procs[q].done || exists op :: Finishes(s, s', q, op) && Takes(c, s, s', op)
  {
    hide Takes;
  }

  lemma {:induction false} ProcStays(c: Codec, run: seq<State>, i: nat, j: nat, p: nat)
    requires RoundTrips(c) && Run(c, run) && i <= j < |run| && p in run[i].procs
    ensures p in run[j].procs
    decreases j
  {
    hide Run, MovesOne, Starts, Inv;
    if i < j {
      ProcStays(c, run, i, j - 1, p);
      var q := RunStep(c, run, j - 1);
      OneStep(c, run[j - 1], run[j], q, p);
    }
  }

  /** What a process has done since it started, it has completed in some step of its own. */
  lemma {:induction false} WasCompleted(c: Codec, run: seq<State>, i: nat, j: nat, p: nat, op: Op) returns (k: nat)
    requires RoundTrips(c) && Run(c, run) && i <= j < |run| && p in run[i].procs && run[i].procs[p].done == []
    requires p in run[j].procs && op in run[j].procs[p].done
    ensures i <= k < j && Completes(run, k, p, op) && Takes(c, run[k], run[k + 1], op)
    decreases j
  {
    hide Run, MovesOne, Starts, Inv, Takes, Finishes, Step;
    k := j - 1;
    ProcStays(c, run, i, k, p);
    var q := RunStep(c, run, k);
    NewlyDone(c, run[k], run[j], q, p, op);
    if op in run[k].procs[p].done {
      k := WasCompleted(c, run, i, k, p, op);
    }
  }

  lemma NewlyDone(c: Codec, s: State, s': State, p: nat, q: nat, op: Op)
    requires (Starts(s, s', p) || MovesOne(c, s, s', p)) && q in s.procs && q in s'.procs && op in s'.procs[q].done
    ensures op in s.procs[q].done || (Finishes(s, s', q, op) && Takes(c, s, s', op))
  {
    hide Takes;
    OneStep(c, s, s', p, q);
  }

  /** What the history of a process records of its completed operations. */
  ghost predicate Recalls(c: Codec, proc: Proc) {
    forall op :: op in proc.done ==>
      SeenBy(op) <= proc.seen && StoredBy(op) <= proc.stored && (op.Put? ==> Hex(c.h(op.bytes)) == op.digest)
  }

  lemma StepRecalls(c: Codec, s: State, s': State, p: nat, q: nat)
    requires Starts(s, s', p) || MovesOne(c, s, s', p)
    requires q in s'.procs && (q in s.procs ==> Recalls(c, s.procs[q]))
    ensures Recalls(c, s'.procs[q])
  {
  }

  lemma {:induction false} Recall(c: Codec, run: seq<State>, j: nat, p: nat)
    requires RoundTrips(c) && Run(c, run) && j < |run| && p in run[j].procs
    ensures Recalls(c, run[j].procs[p])
    decreases j
  {
    hide MovesOne, Starts, Inv, Recalls, Step;
    if j > 0 {
      if p in run[j - 1].procs {
        Recall(c, run, j - 1, p);
      }
      var q := RunStep(c, run, j - 1);
      StepRecalls(c, run[j - 1], run[j], q, p);
    }
  }

  /** Whatever has been put or found is there, and what has been put has its own bytes. */
  lemma DoneStored(c: Codec, run: seq<State>, j: nat, p: nat, op: Op)
    requires RoundTrips(c) && Run(c, run) && j < |run| && run[j].clash.None?
    requires p in run[j].procs && op in run[j].procs[p].done
    ensures op.Put? || op.Has? ==> op.digest in run[j].blobs
    ensures op.Put? ==> Hex(c.h(op.bytes)) == op.digest && run[j].blobs[op.digest] == op.bytes
  {
    hide Run, Inv, ProcOk;
    EveryState(c, run, j);
    InvProc(c, run[j], p);
    ProcRemembers(c, run[j], p);
    Recall(c, run, j, p);
  }

  /** Step l completes a link of this manifest. */
  ghost predicate Relinks(run: seq<State>, l: nat, manifest: Bytes) {
    exists p, op :: Completes(run, l, p, op) && op.Link? && Ref.NormalizeDigest(op.manifest) == Some(manifest)
  }

  /** The link of a manifest is this record, or some step since k has linked it anew. */
  ghost predicate LinkedSince(run: seq<State>, k: nat, j: nat, manifest: Bytes, record: Bytes)
    requires j < |run|
  {
    (manifest in run[j].links && run[j].links[manifest] == record) ||
    exists l: nat :: k <= l < j && Relinks(run, l, manifest)
  }

  lemma {:induction false} LinkStays(c: Codec, run: seq<State>, k: nat, j: nat, manifest: Bytes)
    requires RoundTrips(c) && Run(c, run) && k <= j < |run| && manifest in run[k].links
    ensures LinkedSince(run, k, j, manifest, run[k].links[manifest])
    decreases j
  {
    hide Run, MovesOne, Starts, Inv, Relinks;
    if k < j {
      LinkStays(c, run, k, j - 1, manifest);
      var p := RunStep(c, run, j - 1);
      LinkStep(c, run, j - 1, p, manifest);
    }
  }

  lemma LinkStep(c: Codec, run: seq<State>, k: nat, p: nat, manifest: Bytes)
    requires k + 1 < |run| && (Starts(run[k], run[k + 1], p) || MovesOne(c, run[k], run[k + 1], p))
    ensures !Relinks(run, k, manifest) && manifest in run[k].links ==>
      manifest in run[k + 1].links && run[k + 1].links[manifest] == run[k].links[manifest]
  {
    hide Ref.NormalizeDigest, HoldsAll, Finishes;
    if MovesOne(c, run[k], run[k + 1], p) && !(GoesOn(run[k], run[k + 1], p) && run[k + 1].links == run[k].links) {
      var op :| Finishes(run[k], run[k + 1], p, op) && Takes(c, run[k], run[k + 1], op);
      assert Completes(run, k, p, op);
    }
  }

  /** The step publishes a member of this quant under the key. */
  ghost predicate Publishing(s: State, s': State, key: Bytes, quant: Bytes) {
    exists p, members, at :: Commits(s, s', p, key, members, at) && Brings(members, quant)
  }

  ghost predicate Republishes(run: seq<State>, l: nat, key: Bytes, quant: Bytes) {
    l + 1 < |run| && Publishing(run[l], run[l + 1], key, quant)
  }

  predicate Brings(members: seq<Index.Member>, quant: Bytes) {
    exists n :: 0 <= n < |members| && members[n].quant == quant
  }

  /** The namespace's index holds the member, or some step since k has published another of its quant. */
  ghost predicate ListedSince(c: Codec, run: seq<State>, k: nat, j: nat, key: Bytes, m: Index.Member)
    requires j < |run|
  {
    (key in run[j].namespaces &&
     var index := ReadIndex(c, run[j].blobs, Some(run[j].namespaces[key])); index.Some? && m in index.value) ||
    exists l: nat :: k <= l < j && Republishes(run, l, key, m.quant)
  }

  lemma {:induction false} CommitStays(c: Codec, run: seq<State>, k: nat, j: nat, key: Bytes, quant: Bytes)
    requires RoundTrips(c) && Run(c, run) && k <= j < |run| && key in run[k].committed && quant in run[k].committed[key]
    ensures (key in run[j].committed && quant in run[j].committed[key] &&
             run[j].committed[key][quant] == run[k].committed[key][quant]) ||
            exists l: nat :: k <= l < j && Republishes(run, l, key, quant)
    decreases j
  {
    hide Run, Inv, Step, Republishes;
    if k < j {
      CommitStays(c, run, k, j - 1, key, quant);
      EveryState(c, run, j - 1);
      assert Step(c, run[j - 1], run[j - 1 + 1]) by {
        StepsOf(c, run, j - 1);
      }
      if key in run[j - 1].committed && quant in run[j - 1].committed[key] {
        CommitStep(c, run, j - 1, key, quant);
      }
    }
  }

  lemma StepsOf(c: Codec, run: seq<State>, k: nat)
    requires Run(c, run) && k + 1 < |run|
    ensures Step(c, run[k], run[k + 1])
  {
    hide Step;
  }

  lemma CommitStep(c: Codec, run: seq<State>, k: nat, key: Bytes, quant: Bytes)
    requires k + 1 < |run| && Inv(c, run[k]) && Step(c, run[k], run[k + 1])
    requires key in run[k].committed && quant in run[k].committed[key]
    ensures Republishes(run, k, key, quant) ||
      (key in run[k + 1].committed && quant in run[k + 1].committed[key] &&
       run[k + 1].committed[key][quant] == run[k].committed[key][quant])
  {
    hide Inv, Step, Index.Commit;
    StepEffect(c, run[k], run[k + 1]);
    if run[k + 1].committed != run[k].committed {
      var p, key', members, at :| Commits(run[k], run[k + 1], p, key', members, at);
      if key' == key && !Brings(members, quant) {
        Index.CommitKeeps(Committed(run[k], key), members);
      }
    }
  }

  /** A completed merge: the last member of each quant is in the index, unless it has been replaced since. */
  lemma MergeListed(c: Codec, run: seq<State>, k: nat, j: nat, p: nat, key: Bytes, members: seq<Index.Member>, n: nat)
    requires RoundTrips(c) && Run(c, run) && k < j < |run| && run[j].clash.None?
    requires Completes(run, k, p, Merge(key, members)) && Takes(c, run[k], run[k + 1], Merge(key, members))
    requires Index.LastOfQuant(members, n)
    ensures ListedSince(c, run, k, j, key, members[n])
  {
    hide Run, Inv, Step, Republishes, ReadIndex, Completes, Index.Lists, Closed;
    var m := members[n];
    assert m.quant in Committed(run[k], key) && Committed(run[k], key)[m.quant] == m;
    CommitStays(c, run, k, j, key, m.quant);
    if key in run[j].committed && m.quant in run[j].committed[key] && run[j].committed[key][m.quant] == m {
      EveryState(c, run, j);
      IndexHolds(c, run[j], key, m);
    }
  }

  lemma IndexHolds(c: Codec, s: State, key: Bytes, m: Index.Member)
    requires Inv(c, s) && s.clash.None? && key in s.committed && m.quant in s.committed[key]
    requires s.committed[key][m.quant] == m
    ensures key in s.namespaces
    ensures var index := ReadIndex(c, s.blobs, Some(s.namespaces[key])); index.Some? && m in index.value
  {
    hide ReadIndex, ProcOk, SoundNames, GoodLink, Complete, Less;
    assert GoodIndex(c, s.blobs, s.namespaces[key], s.committed[key]);
  }

  /** A completed link stands, unless the manifest has been linked anew since. */
  lemma LinkStands(c: Codec, run: seq<State>, k: nat, j: nat, p: nat, manifest: Bytes, record: Bytes)
    requires RoundTrips(c) && Run(c, run) && k < j < |run| && IsDigest(manifest) && IsDigest(record)
    requires Completes(run, k, p, Link(manifest, record)) && Takes(c, run[k], run[k + 1], Link(manifest, record))
    ensures LinkedSince(run, k + 1, j, manifest, record)
  {
    hide Run, Completes;
    LinkStays(c, run, k + 1, j, manifest);
  }

  /* ---- Whole imports ---- */

  /** The process started with these operations at state i, and has completed all of them at state j. */
  ghost predicate RanAll(run: seq<State>, i: nat, j: nat, p: nat, ops: seq<Op>) {
    && i <= j < |run| && p in run[i].procs && run[i].procs[p].todo == ops && run[i].procs[p].done == []
    && p in run[j].procs && run[j].procs[p].done == ops
  }

  /** A process has completed part of its operations, and has the others before it unless it has stopped. */
  lemma {:induction false} DoneThenTodo(c: Codec, run: seq<State>, i: nat, j: nat, p: nat)
    requires RoundTrips(c) && Run(c, run) && i <= j < |run| && p in run[i].procs && run[i].procs[p].done == []
    ensures p in run[j].procs
    ensures var before, now := run[i].procs[p], run[j].procs[p];
      now.done + now.todo == before.todo || (now.todo == [] && now.done <= before.todo)
    decreases j
  {
    hide Run, Inv, Step, MovesOne, Starts, Takes;
    if i < j {
      DoneThenTodo(c, run, i, j - 1, p);
      var q := RunStep(c, run, j - 1);
      OneStep(c, run[j - 1], run[j], q, p);
      TodoStep(c, run[j - 1], run[j], q, p, run[i].procs[p].todo);
    }
  }

  lemma TodoStep(c: Codec, s: State, s': State, p: nat, q: nat, ops: seq<Op>)
    requires (Starts(s, s', p) || MovesOne(c, s, s', p)) && q in s.procs && q in s'.procs
    requires var o := s.procs[q]; o.done + o.todo == ops || (o.todo == [] && o.done <= ops)
    ensures var n := s'.procs[q]; n.done + n.todo == ops || (n.todo == [] && n.done <= ops)
  {
    hide Takes;
    var o, n := s.procs[q], s'.procs[q];
    if o.todo != [] {
      assert o.done + [o.todo[0]] + o.todo[1..] == o.done + o.todo;
    }
  }

  /** The bytes are in the store, under their digest. */
  ghost predicate Stored(c: Codec, blobs: map<string, Bytes>, b: Bytes) {
    Hex(c.h(b)) in blobs && blobs[Hex(c.h(b))] == b
  }

  /** The member that stands for an artifact. */
  function Entry(c: Codec, a: Artifact): Index.Member {
    Index.Member(DigestOf(c.h, c.encodeManifest(a.manifest)), a.quant, a.weightsFormat, a.revision)
  }

  lemma {:induction false} ImportHas(c: Codec, artifacts: seq<Artifact>, key: Bytes, members: seq<Index.Member>, n: nat)
    requires n < |artifacts|
    ensures var ops, a := ImportOps(c, artifacts, key, members), artifacts[n];
      && (forall op :: op in ArtifactPuts(c, a) ==> op in ops)
      && Link(ManifestOf(c, a), DigestOf(c.h, a.record)) in ops && Merge(key, members) in ops
  {
    hide ArtifactPuts, ManifestOf;
    var rest := artifacts[1..];
    if n > 0 {
      ImportHas(c, rest, key, members, n - 1);
    } else {
      MergeLast(c, rest, key, members);
    }
  }

  lemma {:induction false} MergeLast(c: Codec, artifacts: seq<Artifact>, key: Bytes, members: seq<Index.Member>)
    ensures Merge(key, members) in ImportOps(c, artifacts, key, members)
  {
    hide ArtifactPuts, ManifestOf;
    if artifacts != [] {
      MergeLast(c, artifacts[1..], key, members);
    }
  }

  lemma {:induction false} MembersAt(c: Codec, artifacts: seq<Artifact>)
    ensures |MembersOf(c, artifacts)| == |artifacts|
    ensures forall n :: 0 <= n < |artifacts| ==> MembersOf(c, artifacts)[n] == Entry(c, artifacts[n])
  {
    if artifacts != [] {
      MembersAt(c, artifacts[1..]);
    }
  }

  /** Every content of the artifact is in the store, under the digest that its manifest pins. */
  ghost predicate FilesStored(blobs: map<string, Bytes>, a: Artifact) {
    forall f :: f in a.manifest.files ==>
      DigestHex(f.digest) in blobs && (f.name in a.contents ==> blobs[DigestHex(f.digest)] == a.contents[f.name])
  }

  lemma ArtifactStored(c: Codec, run: seq<State>, j: nat, p: nat, a: Artifact)
    requires RoundTrips(c) && Run(c, run) && j < |run| && run[j].clash.None? && p in run[j].procs
    requires forall op :: op in ArtifactPuts(c, a) ==> op in run[j].procs[p].done
    ensures FilesStored(run[j].blobs, a) && Stored(c, run[j].blobs, c.encodeManifest(a.manifest))
    ensures Stored(c, run[j].blobs, a.layers) && Stored(c, run[j].blobs, a.record)
  {
    hide Run, RoundTrips, FilePuts, Puts;
    forall f | f in a.manifest.files
      ensures DigestHex(f.digest) in run[j].blobs
      ensures f.name in a.contents ==> run[j].blobs[DigestHex(f.digest)] == a.contents[f.name]
    {
      FilePutsAt(a, a.manifest.files, f);
      DoneStored(c, run, j, p, Put(DigestHex(f.digest), ContentOf(a, f.name)));
    }
    var documents := [c.encodeManifest(a.manifest), a.layers, a.record];
    forall b | b in documents ensures Stored(c, run[j].blobs, b) {
      PutsAt(c, documents, b);
      DoneStored(c, run, j, p, Put(Hex(c.h(b)), b));
    }
    assert documents[0] in documents && documents[1] in documents && documents[2] in documents;
  }

  /**
   What Import leaves when it reaches its end: the contents, manifests, layers and records of its
   artifacts, the link of every manifest to its record, and in the namespace's index a member for every
   artifact, the last one of each quant.  Links and members stay until another import replaces them.
   */
  lemma ImportLeaves(c: Codec, run: seq<State>, i: nat, j: nat, p: nat, artifacts: seq<Artifact>, key: Bytes, n: nat)
    returns (k: nat, l: nat)
    requires RoundTrips(c) && Run(c, run)
    requires RanAll(run, i, j, p, ImportOps(c, artifacts, key, MembersOf(c, artifacts)))
    requires run[j].clash.None? && n < |artifacts|
    ensures var a, blobs := artifacts[n], run[j].blobs;
      && FilesStored(blobs, a) && Stored(c, blobs, c.encodeManifest(a.manifest))
      && Stored(c, blobs, a.layers) && Stored(c, blobs, a.record)
      && i <= k < j && LinkedSince(run, k + 1, j, DigestOf(c.h, c.encodeManifest(a.manifest)), DigestOf(c.h, a.record))
    ensures i <= l < j && ((forall m :: n < m < |artifacts| ==> artifacts[m].quant != artifacts[n].quant) ==>
      ListedSince(c, run, l, j, key,
        Index.Member(DigestOf(c.h, c.encodeManifest(artifacts[n].manifest)), artifacts[n].quant,
                     artifacts[n].weightsFormat,
                     artifacts[n].revision)))
  {
    hide Run, RoundTrips, ArtifactPuts, FilesStored, Stored, LinkedSince, ListedSince, Completes, Takes, MembersOf,
      ImportOps;
    var members := MembersOf(c, artifacts);
    var a := artifacts[n];
    ImportHas(c, artifacts, key, members, n);
    ArtifactStored(c, run, j, p, a);
    var link, merge := Link(ManifestOf(c, a), DigestOf(c.h, a.record)), Merge(key, members);
    k := WasCompleted(c, run, i, j, p, link);
    LinkStands(c, run, k, j, p, ManifestOf(c, a), DigestOf(c.h, a.record));
    l := WasCompleted(c, run, i, j, p, merge);
    MembersAt(c, artifacts);
    if forall m :: n < m < |artifacts| ==> artifacts[m].quant != artifacts[n].quant {
      assert Index.LastOfQuant(members, n);
      MergeListed(c, run, l, j, p, key, members, n);
    }
  }

  /**
   What ImportBT leaves when it reaches its end, having got past its gates: the manifest under its pin,
   every file that it names, the layers, a record that binds the three, and the link to it.
   */
  lemma BTLeaves(c: Codec, run: seq<State>, i: nat, j: nat, p: nat, pin: string, infohash: string, manifest: Bytes,
                 fetches: seq<Op>, layers: Bytes, canonicalRecord: Seal.Distribution -> Bytes, m: Manifest,
                 r: Seal.Recon)
    returns (k: nat, d: Seal.Distribution)
    requires RoundTrips(c) && Run(c, run)
    requires RanAll(run, i, j, p, BTOps(c, pin, infohash, manifest, fetches, layers, canonicalRecord))
    requires run[j].clash.None?
    requires c.decodeManifest(manifest) == Some(m) && V.Accepts(m)
    requires Seal.ReconOf(c.h, m, manifest) == Torrent.Ok(r) && r.infohashHex == infohash
    ensures pin == Hex(c.h(manifest)) && Stored(c, run[j].blobs, manifest) && Stored(c, run[j].blobs, layers)
    ensures forall f :: f in m.files ==> DigestHex(f.digest) in run[j].blobs
    ensures Seal.ValidateDistribution(d).None? && d.manifestDigest == DigestOf(c.h, manifest)
    ensures d.infohash == "btmh:1220" + infohash && d.pieceLength == r.pieceLength
    ensures d.layersDigest == DigestOf(c.h, layers)
    ensures Stored(c, run[j].blobs, canonicalRecord(d)) && i <= k < j
    ensures LinkedSince(run, k + 1, j, DigestOf(c.h, manifest), DigestOf(c.h, canonicalRecord(d)))
  {
    hide Run, RoundTrips, Stored, LinkedSince, Completes, Takes, V.Accepts, Seal.ReconOf, Seal.Tells, Hex, Puts, Waits;
    Seal.ReconTells(c.h, m, manifest);
    BTRecord(c, m, manifest, r, layers);
    d := Seal.DerivedRecord(r, DigestOf(c.h, layers));
    var record := canonicalRecord(d);
    BTHas(c, pin, infohash, manifest, fetches, layers, canonicalRecord, m, r);
    BTStored(c, run, j, p, pin, manifest, layers, record, m);
    var link := Link(DigestOf(c.h, manifest), DigestOf(c.h, record));
    k := WasCompleted(c, run, i, j, p, link);
    LinkStands(c, run, k, j, p, DigestOf(c.h, manifest), DigestOf(c.h, record));
  }

  lemma BTRecord(c: Codec, m: Manifest, manifest: Bytes, r: Seal.Recon, layers: Bytes)
    requires V.Accepts(m) && Seal.ReconOf(c.h, m, manifest) == Torrent.Ok(r)
    ensures var d := Seal.DerivedRecord(r, DigestOf(c.h, layers));
      && Seal.ValidateDistribution(d).None? && d.manifestDigest == DigestOf(c.h, manifest)
      && d.infohash == "btmh:1220" + r.infohashHex && d.pieceLength == r.pieceLength
      && d.layersDigest == DigestOf(c.h, layers)
  {
    hide V.Accepts, Seal.ReconOf, Hex;
    Seal.ReconTells(c.h, m, manifest);
    Seal.DerivedRecordPasses(c.h, m, manifest, DigestOf(c.h, layers));
  }

  lemma BTHas(c: Codec, pin: string, infohash: string, manifest: Bytes, fetches: seq<Op>, layers: Bytes,
              canonicalRecord: Seal.Distribution -> Bytes, m: Manifest, r: Seal.Recon)
    requires c.decodeManifest(manifest) == Some(m) && V.Accepts(m)
    requires Seal.ReconOf(c.h, m, manifest) == Torrent.Ok(r) && r.infohashHex == infohash
    requires r.manifestDigest == DigestOf(c.h, manifest)
    ensures var ops := BTOps(c, pin, infohash, manifest, fetches, layers, canonicalRecord);
      var record := canonicalRecord(Seal.DerivedRecord(r, DigestOf(c.h, layers)));
      && Put(pin, manifest) in ops && Put(Hex(c.h(layers)), layers) in ops && Put(Hex(c.h(record)), record) in ops
      && (forall f :: f in m.files ==> Has(DigestHex(f.digest)) in ops)
      && Link(DigestOf(c.h, manifest), DigestOf(c.h, record)) in ops
  {
    hide V.Accepts, Seal.ReconOf, Hex, Puts, Waits, DigestHex;
    var record := canonicalRecord(Seal.DerivedRecord(r, DigestOf(c.h, layers)));
    PutsAt(c, [layers, record], layers);
    PutsAt(c, [layers, record], record);
    forall f | f in m.files ensures Has(DigestHex(f.digest)) in Waits(m.files) {
      WaitsAt(m.files, f);
    }
  }

  lemma BTStored(c: Codec, run: seq<State>, j: nat, p: nat, pin: string, manifest: Bytes, layers: Bytes, record: Bytes,
                 m: Manifest)
    requires RoundTrips(c) && Run(c, run) && j < |run| && run[j].clash.None? && p in run[j].procs
    requires var done := run[j].procs[p].done;
      && Put(pin, manifest) in done && Put(Hex(c.h(layers)), layers) in done && Put(Hex(c.h(record)), record) in done
      && (forall f :: f in m.files ==> Has(DigestHex(f.digest)) in done)
    ensures pin == Hex(c.h(manifest)) && Stored(c, run[j].blobs, manifest)
    ensures Stored(c, run[j].blobs, layers) && Stored(c, run[j].blobs, record)
    ensures forall f :: f in m.files ==> DigestHex(f.digest) in run[j].blobs
  {
    hide Run, RoundTrips, DigestHex, Hex;
    DoneStored(c, run, j, p, Put(pin, manifest));
    DoneStored(c, run, j, p, Put(Hex(c.h(layers)), layers));
    DoneStored(c, run, j, p, Put(Hex(c.h(record)), record));
    forall f | f in m.files ensures DigestHex(f.digest) in run[j].blobs {
      DoneStored(c, run, j, p, Has(DigestHex(f.digest)));
    }
  }

  /** An ImportBT that does not get past its gates puts the manifest and does nothing else. */
  lemma BTRefuses(c: Codec, pin: string, infohash: string, manifest: Bytes, fetches: seq<Op>, layers: Bytes,
                  canonicalRecord: Seal.Distribution -> Bytes)
    requires var m := c.decodeManifest(manifest);
      m.None? || !V.Accepts(m.value) || !Seal.ReconOf(c.h, m.value, manifest).Ok? ||
      Seal.ReconOf(c.h, m.value, manifest).value.infohashHex != infohash
    ensures forall op :: op in BTOps(c, pin, infohash, manifest, fetches, layers, canonicalRecord) ==>
      op == Put(pin, manifest)
  {
    hide V.Accepts, Seal.ReconOf;
  }
}
