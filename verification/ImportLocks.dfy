/** The two levels of locks: who holds one is on the way to giving it back, and nothing ever stands still. */
module ImportLocks {
  import opened Basics
  import opened ImportProtocol
  import opened ImportSafety
  import Index
  import Ref

  /* ---- Who holds a lock ---- */

  /** The process is at work on the state files. */
  ghost predicate HoldsState(proc: Proc) {
    proc.todo != [] &&
    match proc.todo[0]
    case Link(manifest, record) =>
      && (proc.pc.Locked? || proc.pc.Loaded?)
      && Ref.NormalizeDigest(manifest).Some? && Ref.NormalizeDigest(record).Some?
    case Merge(key, members) => proc.pc.StateHeld? || proc.pc.StateLoaded?
    case _ => false
  }

  /** The process is at work on the index of this namespace. */
  ghost predicate HoldsKey(proc: Proc, key: Bytes) {
    && proc.todo != [] && proc.todo[0].Merge? && proc.todo[0].key == key
    && !proc.pc.Start? && !proc.pc.Verified? && !proc.pc.Absent? && !proc.pc.Locked? && !proc.pc.Loaded?
  }

  /** Every lock is held by a process that is at work under it. */
  ghost predicate Owned(s: State) {
    && (s.stateLock.Some? ==> s.stateLock.value in s.procs && HoldsState(s.procs[s.stateLock.value]))
    && (forall k :: k in s.nsLocks ==> s.nsLocks[k] in s.procs && HoldsKey(s.procs[s.nsLocks[k]], k))
  }

  /* ---- It stays so ---- */

  /** Process p now holds what is listed, and the other processes are as they were. */
  ghost predicate Hands(s: State, s': State, p: nat) {
    && (forall q :: q in s.procs ==> q in s'.procs) && p in s'.procs
    && (forall q :: q in s.procs && q != p ==> s'.procs[q] == s.procs[q])
    && (s'.stateLock == Some(p) ==> HoldsState(s'.procs[p]))
    && (s'.stateLock.Some? && s'.stateLock.value != p ==> s'.stateLock == s.stateLock)
    && (forall k :: k in s'.nsLocks && s'.nsLocks[k] == p ==> HoldsKey(s'.procs[p], k))
    && (forall k :: k in s'.nsLocks && s'.nsLocks[k] != p ==> k in s.nsLocks && s'.nsLocks[k] == s.nsLocks[k])
  }

  lemma HandsKeep(s: State, s': State, p: nat)
    requires Owned(s) && Hands(s, s', p)
    ensures Owned(s')
  {
    hide HoldsState, HoldsKey;
  }

  lemma StopHands(s: State, p: nat)
    requires p in s.procs
    ensures Hands(s, Stop(s, p), p)
  {
  }

  /** The locks of t are those of s, but for those that p has taken or given back. */
  ghost predicate MayLock(s: State, t: State, p: nat) {
    && t.procs == s.procs && p in s.procs
    && (t.stateLock == s.stateLock || t.stateLock == Some(p) || t.stateLock == None)
    && (forall k :: k in t.nsLocks && t.nsLocks[k] != p ==> k in s.nsLocks && t.nsLocks[k] == s.nsLocks[k])
  }

  lemma AtHands(s: State, t: State, p: nat, pc: Pc)
    requires MayLock(s, t, p)
    requires t.stateLock == Some(p) ==> HoldsState(s.procs[p].(pc := pc))
    requires forall k :: k in t.nsLocks && t.nsLocks[k] == p ==> HoldsKey(s.procs[p].(pc := pc), k)
    ensures Hands(s, At(t, p, pc), p)
  {
    hide HoldsState, HoldsKey;
  }

  lemma NextHands(s: State, t: State, p: nat, seen: set<string>, stored: set<Bytes>)
    requires MayLock(s, t, p) && s.procs[p].todo != []
    requires t.stateLock != Some(p) && forall k :: k in t.nsLocks ==> t.nsLocks[k] != p
    ensures Hands(s, Next(t, p, seen, stored), p)
  {
    hide HoldsState, HoldsKey;
  }

  /** What a process holds, by its operation. */
  lemma HoldsOwn(s: State, p: nat)
    requires Owned(s) && p in s.procs && s.procs[p].todo != []
    ensures var op, pc := s.procs[p].todo[0], s.procs[p].pc;
      && (s.stateLock == Some(p) ==> HoldsState(s.procs[p]))
      && (s.stateLock == Some(p) ==> op.Link? || (op.Merge? && (pc.StateHeld? || pc.StateLoaded?)))
      && (forall k :: k in s.nsLocks && s.nsLocks[k] == p ==> op.Merge? && op.key == k && pc != Start)
  {
  }

  lemma PutHands(c: Codec, s: State, p: nat, s': State)
    requires Owned(s) && p in s.procs && s.procs[p].todo != [] && Advance(c, s, p) == Some(s')
    requires s.procs[p].todo[0].Put? || s.procs[p].todo[0].Has?
    ensures Hands(s, s', p)
  {
    hide Meets, Hands, HoldsState, HoldsKey, Stop, At, Next, With;
    HoldsOwn(s, p);
    StopHands(s, p);
    AtHands(s, s, p, Verified);
    AtHands(s, s, p, Absent);
    match s.procs[p].todo[0] {
      case Put(digest, bytes) =>
        NextHands(s, KeepBlob(s, digest, bytes), p, {digest}, {bytes});
        NextHands(s, Rename(s, digest, bytes), p, {digest}, {bytes});
      case Has(digest) => NextHands(s, s, p, {digest}, {});
    }
  }

  lemma LinkHands(c: Codec, s: State, p: nat, s': State)
    requires Owned(s)
    requires p in s.procs && s.procs[p].todo != [] && s.procs[p].todo[0].Link? && Advance(c, s, p) == Some(s')
    ensures Hands(s, s', p)
  {
    hide Ref.NormalizeDigest, Hands, HoldsKey, Stop, At, Next, With, AdvancePut, AdvanceMerge;
    HoldsOwn(s, p);
    StopHands(s, p);
    var m, r := Ref.NormalizeDigest(s.procs[p].todo[0].manifest), Ref.NormalizeDigest(s.procs[p].todo[0].record);
    match s.procs[p].pc {
      case Start =>
        if m.Some? && r.Some? {
          AtHands(s, s.(stateLock := Some(p)), p, Locked);
        }
      case Locked => AtHands(s, s, p, Loaded(s.links));
      case Loaded(links) =>
        if m.Some? && r.Some? {
          NextHands(s, s.(links := links[m.value := r.value], stateLock := None), p, {}, {});
        }
      case _ =>
    }
  }

  lemma MergeHands(c: Codec, s: State, p: nat, s': State)
    requires Inv(c, s) && Owned(s)
    requires p in s.procs && s.procs[p].todo != [] && s.procs[p].todo[0].Merge? && Advance(c, s, p) == Some(s')
    ensures Hands(s, s', p)
  {
    hide Inv, ReadIndex, IndexDigest, Index.ValidMembers, Index.UpsertAll, Index.Commit, Ref.ValidNamespaceKey, Meets,
      Committed, Lookup, ReadyIndex, StoredIndex, HoldsAll, Stop, AdvancePut, AdvanceLink, Hands, At, Next, With;
    HoldsOwn(s, p);
    StopHands(s, p);
    var op := s.procs[p].todo[0];
    match s.procs[p].pc {
      case Start => AtHands(s, s.(nsLocks := s.nsLocks[op.key := p]), p, Holding);
      case Holding => AtHands(s, s, p, Pointed(Lookup(s.namespaces, op.key)));
      case Pointed(at) =>
        var current := ReadIndex(c, s.blobs, at);
        if current.Some? {
          AtHands(s, s, p, Merged(Index.UpsertAll(current.value, op.members)));
        }
      case Merged(ms) =>
        AtHands(s, KeepBlob(s, IndexDigest(c, ms), c.encodeIndex(ms)), p, IndexStored(ms));
        AtHands(s, s, p, IndexAbsent(ms));
      case IndexAbsent(ms) => AtHands(s, Rename(s, IndexDigest(c, ms), c.encodeIndex(ms)), p, IndexStored(ms));
      case IndexStored(ms) => AtHands(s, s.(stateLock := Some(p)), p, StateHeld(ms));
      case _ => LateHands(c, s, p, s');
    }
  }

  /** Of a merge under the state lock, or at its end. */
  lemma LateHands(c: Codec, s: State, p: nat, s': State)
    requires Inv(c, s) && Owned(s)
    requires p in s.procs && s.procs[p].todo != [] && s.procs[p].todo[0].Merge? && Advance(c, s, p) == Some(s')
    requires s.procs[p].pc.StateHeld? || s.procs[p].pc.StateLoaded? || s.procs[p].pc.Published?
    ensures Hands(s, s', p)
  {
    hide Inv, IndexDigest, Index.Commit, Committed, ReadyIndex, StoredIndex, HoldsAll, AdvancePut, AdvanceLink, Hands,
      At,
      Next, With;
    HoldsOwn(s, p);
    var op := s.procs[p].todo[0];
    match s.procs[p].pc {
      case StateHeld(ms) => AtHands(s, s, p, StateLoaded(ms, s.namespaces));
      case StateLoaded(ms, namespaces) =>
        AtHands(s, s.(namespaces := namespaces[op.key := DigestOf(c.h, c.encodeIndex(ms))],
                      committed := s.committed[op.key := Index.Commit(Committed(s, op.key), op.members)],
                      stateLock := None), p, Published);
      case Published => NextHands(s, s.(nsLocks := s.nsLocks - {op.key}), p, {}, {});
    }
  }

  lemma StepOwned(c: Codec, s: State, s': State)
    requires Inv(c, s) && Owned(s) && Step(c, s, s')
    ensures Owned(s')
  {
    hide Inv, Owned, Hands, Advance, Stop;
    var p :| StepOf(c, s, s', p);
    if Spawns(c, s, s', p) {
      SpawnOwned(c, s, s', p);
    } else if s' == Stop(s, p) {
      StopHands(s, p);
      HandsKeep(s, s', p);
    } else {
      HasTodo(c, s, p);
      match s.procs[p].todo[0] {
        case Link(manifest, record) => LinkHands(c, s, p, s');
        case Merge(key, members) => MergeHands(c, s, p, s');
        case _ => PutHands(c, s, p, s');
      }
      HandsKeep(s, s', p);
    }
  }

  lemma SpawnOwned(c: Codec, s: State, s': State, p: nat)
    requires Owned(s) && Spawns(c, s, s', p)
    ensures Owned(s')
  {
    hide WellOrdered, HoldsState, HoldsKey;
  }

  lemma HasTodo(c: Codec, s: State, p: nat)
    requires p in s.procs && Advance(c, s, p).Some?
    ensures s.procs[p].todo != []
  {
  }

  lemma {:induction false} AlwaysOwned(c: Codec, run: seq<State>, i: nat)
    requires RoundTrips(c) && Run(c, run) && i < |run|
    ensures Owned(run[i])
  {
    hide Step, Inv;
    if i > 0 {
      AlwaysOwned(c, run, i - 1);
      EveryState(c, run, i - 1);
      assert Step(c, run[i - 1], run[i - 1 + 1]);
      StepOwned(c, run[i - 1], run[i]);
    }
  }

  /* ---- Nothing stands still ---- */

  /** A process can take a step, if it holds the state lock. */
  lemma StateMoves(c: Codec, s: State, p: nat)
    requires p in s.procs && HoldsState(s.procs[p])
    ensures Advance(c, s, p).Some?
  {
    hide Ref.NormalizeDigest, Stop, With, At, Next;
  }

  /** Of a namespace's lock: it can, or waits for the state lock. */
  lemma KeyMoves(c: Codec, s: State, p: nat, key: Bytes)
    requires p in s.procs && HoldsKey(s.procs[p], key)
    ensures Advance(c, s, p).Some? || s.stateLock.Some?
  {
    hide ReadIndex, IndexDigest, Index.ValidMembers, Index.UpsertAll, Ref.ValidNamespaceKey, Stop, With, At, Next;
  }

  /** A process that cannot move waits for one of the two locks. */
  lemma Waits(c: Codec, s: State, p: nat)
    requires Inv(c, s) && p in s.procs && s.procs[p].todo != []
    ensures
      || Advance(c, s, p).Some? || s.stateLock.Some?
      || (s.procs[p].todo[0].Merge? && s.procs[p].todo[0].key in s.nsLocks)
  {
    hide Inv, Ref.NormalizeDigest, Stop, With, At, Next, KeepBlob, Rename, ReadIndex, IndexDigest, Index.ValidMembers,
      Index.UpsertAll, Ref.ValidNamespaceKey, ReadyIndex, StoredIndex, HoldsAll;
    InvProc(c, s, p);
    if s.procs[p].pc != Start {
      match s.procs[p].todo[0] {
        case Put(digest, bytes) => PoisedPut(c, s, p);
        case Has(digest) =>
        case Link(manifest, record) => PoisedLink(c, s, p);
        case Merge(key, members) => PoisedMerge(c, s, p);
      }
    }
  }

  /**
   No deadlock: in every state of a run in which some process has work left, some process can take a
   step of its own.
   */
  lemma NoDeadlock(c: Codec, run: seq<State>, i: nat, p: nat) returns (q: nat)
    requires RoundTrips(c) && Run(c, run) && i < |run| && p in run[i].procs && run[i].procs[p].todo != []
    ensures q in run[i].procs && Advance(c, run[i], q).Some?
  {
    hide Run, Inv, Advance, HoldsState, HoldsKey;
    var s := run[i];
    EveryState(c, run, i);
    AlwaysOwned(c, run, i);
    q := p;
    if Advance(c, s, p).None? {
      Waits(c, s, p);
      if s.stateLock.None? {
        q := s.nsLocks[s.procs[p].todo[0].key];
        KeyMoves(c, s, q, s.procs[p].todo[0].key);
      } else {
        q := s.stateLock.value;
        StateMoves(c, s, q);
      }
    }
  }

  /* ---- Every run can come to its end ---- */

  function Rank(pc: Pc): nat
    ensures Rank(pc) < 9
  {
    match pc
    case Start => 0
    case Verified => 1
    case Absent => 2
    case Locked => 1
    case Loaded(_) => 2
    case Holding => 1
    case Pointed(_) => 2
    case Merged(_) => 3
    case IndexAbsent(_) => 4
    case IndexStored(_) => 5
    case StateHeld(_) => 6
    case StateLoaded(_, _) => 7
    case Published => 8
  }

  /** The steps a process has left, at the most. */
  function Left(proc: Proc): nat {
    if proc.todo == [] then 0 else 9 * |proc.todo| - Rank(proc.pc)
  }

  function LeftOf(s: State, p: nat): nat {
    if p in s.procs then Left(s.procs[p]) else 0
  }

  /** Of all processes below n. */
  function AllLeft(s: State, n: nat): nat {
    if n == 0 then 0 else LeftOf(s, n - 1) + AllLeft(s, n - 1)
  }

  /** Process p gets closer to its end, and the others stay where they are. */
  ghost predicate Nearer(s: State, s': State, p: nat) {
    && p in s.procs && s'.procs.Keys == s.procs.Keys && Left(s'.procs[p]) < Left(s.procs[p])
    && (forall q :: q in s.procs && q != p ==> s'.procs[q] == s.procs[q])
  }

  lemma AtNearer(s: State, t: State, p: nat, pc: Pc)
    requires p in s.procs && t.procs == s.procs && s.procs[p].todo != [] && Rank(pc) > Rank(s.procs[p].pc)
    ensures Nearer(s, At(t, p, pc), p)
  {
    hide Rank;
    var was, now := s.procs[p], s.procs[p].(pc := pc);
    assert Left(now) == 9 * |was.todo| - Rank(pc);
  }

  lemma NextNearer(s: State, t: State, p: nat, seen: set<string>, stored: set<Bytes>)
    requires p in s.procs && t.procs == s.procs && s.procs[p].todo != []
    ensures Nearer(s, Next(t, p, seen, stored), p)
  {
  }

  lemma StopNearer(s: State, p: nat)
    requires p in s.procs && s.procs[p].todo != []
    ensures Nearer(s, Stop(s, p), p)
  {
  }

  lemma AdvanceNearer(c: Codec, s: State, p: nat, s': State)
    requires p in s.procs && Advance(c, s, p) == Some(s')
    ensures Nearer(s, s', p)
  {
    hide Nearer, Stop, At, Next, With, Meets, AdvanceMerge, AdvanceLink;
    HasTodo(c, s, p);
    StopNearer(s, p);
    match s.procs[p].todo[0] {
      case Put(digest, bytes) =>
        NextNearer(s, KeepBlob(s, digest, bytes), p, {digest}, {bytes});
        NextNearer(s, Rename(s, digest, bytes), p, {digest}, {bytes});
        match s.procs[p].pc {
          case Start => AtNearer(s, s, p, Verified);
          case Verified => AtNearer(s, s, p, Absent);
          case _ =>
        }
      case Has(digest) => NextNearer(s, s, p, {digest}, {});
      case Link(manifest, record) => LinkNearer(c, s, p, s');
      case Merge(key, members) => MergeNearer(c, s, p, s');
    }
  }

  lemma LinkNearer(c: Codec, s: State, p: nat, s': State)
    requires p in s.procs && s.procs[p].todo != [] && s.procs[p].todo[0].Link? && Advance(c, s, p) == Some(s')
    ensures Nearer(s, s', p)
  {
    hide Nearer, Stop, At, Next, With, AdvanceMerge, AdvancePut, Ref.NormalizeDigest;
    StopNearer(s, p);
    var m, r := Ref.NormalizeDigest(s.procs[p].todo[0].manifest), Ref.NormalizeDigest(s.procs[p].todo[0].record);
    match s.procs[p].pc {
      case Start => AtNearer(s, s.(stateLock := Some(p)), p, Locked);
      case Locked => AtNearer(s, s, p, Loaded(s.links));
      case Loaded(links) =>
        if m.Some? && r.Some? {
          NextNearer(s, s.(links := links[m.value := r.value], stateLock := None), p, {}, {});
        }
      case _ =>
    }
  }

  lemma MergeNearer(c: Codec, s: State, p: nat, s': State)
    requires p in s.procs && s.procs[p].todo != [] && s.procs[p].todo[0].Merge? && Advance(c, s, p) == Some(s')
    ensures Nearer(s, s', p)
  {
    hide ReadIndex, IndexDigest, Index.ValidMembers, Index.UpsertAll, Index.Commit, Ref.ValidNamespaceKey, Meets,
      Committed, Lookup, AdvancePut, AdvanceLink, Nearer, Stop, At, Next, With;
    StopNearer(s, p);
    var op := s.procs[p].todo[0];
    match s.procs[p].pc {
      case Start => AtNearer(s, s.(nsLocks := s.nsLocks[op.key := p]), p, Holding);
      case Holding => AtNearer(s, s, p, Pointed(Lookup(s.namespaces, op.key)));
      case Pointed(at) =>
        var current := ReadIndex(c, s.blobs, at);
        if current.Some? {
          AtNearer(s, s, p, Merged(Index.UpsertAll(current.value, op.members)));
        }
      case Merged(ms) =>
        AtNearer(s, KeepBlob(s, IndexDigest(c, ms), c.encodeIndex(ms)), p, IndexStored(ms));
        AtNearer(s, s, p, IndexAbsent(ms));
      case IndexAbsent(ms) => AtNearer(s, Rename(s, IndexDigest(c, ms), c.encodeIndex(ms)), p, IndexStored(ms));
      case IndexStored(ms) => AtNearer(s, s.(stateLock := Some(p)), p, StateHeld(ms));
      case _ => LateNearer(c, s, p, s');
    }
  }

  lemma LateNearer(c: Codec, s: State, p: nat, s': State)
    requires p in s.procs && s.procs[p].todo != [] && s.procs[p].todo[0].Merge? && Advance(c, s, p) == Some(s')
    requires s.procs[p].pc.StateHeld? || s.procs[p].pc.StateLoaded? || s.procs[p].pc.Published?
    ensures Nearer(s, s', p)
  {
    hide IndexDigest, Index.Commit, Committed, AdvancePut, AdvanceLink, Nearer, At, Next, With;
    var op := s.procs[p].todo[0];
    match s.procs[p].pc {
      case StateHeld(ms) => AtNearer(s, s, p, StateLoaded(ms, s.namespaces));
      case StateLoaded(ms, namespaces) =>
        AtNearer(s, s.(namespaces := namespaces[op.key := DigestOf(c.h, c.encodeIndex(ms))],
                       committed := s.committed[op.key := Index.Commit(Committed(s, op.key), op.members)],
                       stateLock := None), p, Published);
      case Published => NextNearer(s, s.(nsLocks := s.nsLocks - {op.key}), p, {}, {});
    }
  }

  lemma {:induction false} LessLeft(s: State, s': State, p: nat, n: nat)
    requires Nearer(s, s', p)
    ensures if p < n then AllLeft(s', n) < AllLeft(s, n) else AllLeft(s', n) == AllLeft(s, n)
  {
    hide Left;
    if n > 0 {
      LessLeft(s, s', p, n - 1);
    }
  }

  ghost predicate Below(ids: set<nat>, n: nat) {
    forall p :: p in ids ==> p < n
  }

  lemma {:induction false} Bounded(ids: set<nat>) returns (n: nat)
    ensures Below(ids, n)
  {
    n := 0;
    if ids != {} {
      var p :| p in ids;
      var m := Bounded(ids - {p});
      n := if p < m then m else p + 1;
      forall q | q in ids ensures q < n {
        assert q == p || q in ids - {p};
      }
    }
  }

  /** No process has any work left. */
  ghost predicate AllDone(s: State) {
    forall p :: p in s.procs ==> s.procs[p].todo == []
  }

  ghost function Last(run: seq<State>): State
    requires run != []
  {
    run[|run| - 1]
  }

  /** More steps of the processes at work bring every one of them to its end. */
  lemma {:induction false} Finish(c: Codec, run: seq<State>, n: nat) returns (more: seq<State>)
    requires RoundTrips(c) && Run(c, run) && Below(Last(run).procs.Keys, n)
    ensures Run(c, run + more) && Last(run + more).procs.Keys == Last(run).procs.Keys && AllDone(Last(run + more))
    decreases AllLeft(Last(run), n)
  {
    hide Step, Advance, Nearer, RoundTrips;
    var s := Last(run);
    if AllDone(s) {
      more := [];
      assert run + more == run;
    } else {
      var p :| p in s.procs && s.procs[p].todo != [];
      var q := NoDeadlock(c, run, |run| - 1, p);
      var s' := Advance(c, s, q).value;
      StepsTo(c, run, q, s');
      AdvanceNearer(c, s, q, s');
      LessLeft(s, s', q, n);
      NearerKeys(s, s', q);
      more := Finish(c, run + [s'], n);
      assert run + [s'] + more == run + ([s'] + more);
      more := [s'] + more;
    }
  }

  lemma NearerKeys(s: State, s': State, p: nat)
    requires Nearer(s, s', p)
    ensures s'.procs.Keys == s.procs.Keys
  {
  }

  lemma StepsTo(c: Codec, run: seq<State>, p: nat, s': State)
    requires Run(c, run) && p in Last(run).procs && Advance(c, Last(run), p) == Some(s')
    ensures Run(c, run + [s'])
  {
    hide Advance;
    var all := run + [s'];
    assert StepOf(c, run[|run| - 1], s', p);
    forall i | 0 <= i < |all| - 1 ensures Step(c, all[i], all[i + 1]) {
      if i < |run| - 1 {
        assert Step(c, run[i], run[i + 1]);
      }
    }
  }

  /** Every run can be continued until no import has any work left, and then every lock is free. */
  lemma CanFinish(c: Codec, run: seq<State>) returns (more: seq<State>)
    requires RoundTrips(c) && Run(c, run)
    ensures Run(c, run + more) && Last(run + more).procs.Keys == Last(run).procs.Keys && AllDone(Last(run + more))
    ensures Last(run + more).stateLock.None? && Last(run + more).nsLocks == map[]
  {
    hide Step, RoundTrips;
    var n := Bounded(Last(run).procs.Keys);
    more := Finish(c, run, n);
    AlwaysOwned(c, run + more, |run + more| - 1);
  }
}
