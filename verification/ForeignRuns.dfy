/** Whole runs of the foreign driver under an engine that makes any calls in any order. */
module ForeignRuns {
  import opened Basics
  import opened BlobStore
  import opened ForeignLayout
  import opened ForeignState
  import opened ForeignDriver

  /** A call of the engine, or a Put of some other writer of the same store in between. */
  datatype Call =
    | Write(i: nat, b: Bytes, off: nat)
    | Read(i: nat, len: nat, off: nat)
    | Complete(i: nat)
    | Retract(i: nat)
    | Ask(i: nat)
    | OtherPut(digest: string, bytes: Bytes)

  /** The pieces marked complete and not retracted since. */
  function Marks(start: set<int>, calls: seq<Call>): set<int> {
    if calls == [] then start
    else
      var before := Marks(start, calls[..|calls| - 1]);
      match calls[|calls| - 1]
      case Complete(i) => before + {i as int}
      case Retract(i) => before - {i as int}
      case _ => before
  }

  lemma SettledRefl(states: States)
    ensures Settled(states, states)
  {
  }

  lemma SettledTrans(a: States, b: States, c: States)
    requires Settled(a, b) && Settled(b, c)
    ensures Settled(a, c)
  {
  }

  /** A failure is never forgotten. */
  lemma StaysUnclean(a: States, b: States)
    requires Settled(a, b) && Clean(b)
    ensures Clean(a)
  {
    forall p | p in a ensures a[p].failed.None? {
      assert b[p].failed.None?;
    }
  }

  lemma SamePartsSettle(a: States, b: States)
    requires SameButParts(a, b)
    ensures Settled(a, b)
  {
    forall p | p in a
      ensures p in b && (a[p].sealed ==> b[p].sealed && b[p].digest == a[p].digest) &&
              (a[p].failed.Some? ==> b[p].failed.Some?)
    {
      assert SameButPart(a[p], b[p]);
    }
  }

  /**
   The seal gate: the blob of a sealed file has the file's length, hashes to the recorded digest and
   matches every digest its anchor carries.
   */
  ghost predicate Vouched(t: Setup, f: FileRange, st: FileState, v: View) {
    && st.digest in v.blobs
    && |v.blobs[st.digest]| == f.end - f.begin
    && Hex(t.h(v.blobs[st.digest])) == st.digest
    && (st.anchor.sha256 != "" ==> st.digest == st.anchor.sha256)
    && (st.anchor.gitSha1 != "" ==> HasGitId(t.sha1, v.blobs[st.digest], st.anchor.gitSha1))
  }

  lemma SealedIsVouched(t: Setup, before: States, v0: View, after: States, v: View, j: nat)
    requires AllFilesOk(t, before, v0) && AllFilesOk(t, after, v) && !v.clash && j < |t.files|
    requires var p := t.files[j].path; p in before && !before[p].sealed && p in after && after[p].sealed
    ensures Vouched(t, t.files[j], after[t.files[j].path], v)
  {
    hide Layout, PieceCount, CountTrue;
    FileAt(t, before, v0, j);
    FileAt(t, after, v, j);
  }

  /* ---- A stream served honestly ---- */

  /** The call writes stream position q. */
  predicate Writes(pl: nat, call: Call, q: int) {
    call.Write? && call.i * pl + call.off <= q < call.i * pl + call.off + |call.b|
  }

  /** Some of the first n calls writes position q. */
  ghost predicate Covered(pl: nat, calls: seq<Call>, n: nat, q: int) {
    exists k :: 0 <= k < n && k < |calls| && Writes(pl, calls[k], q)
  }

  predicate InPiece(pl: nat, i: nat, q: int) {
    i * pl <= q < i * pl + pl
  }

  /** All of piece i has been written. */
  ghost predicate PieceCovered(pl: nat, total: nat, calls: seq<Call>, n: nat, i: nat) {
    forall q :: 0 <= q < total && InPiece(pl, i, q) ==> Covered(pl, calls, n, q)
  }

  /** Call n writes nothing but the stream's own bytes, and marks only pieces that are written. */
  ghost predicate HonestCall(pl: nat, calls: seq<Call>, n: nat, content: Bytes)
    requires n < |calls|
  {
    match calls[n]
    case Write(i, b, off) =>
      b != [] ==> i * pl + off + |b| <= |content| && b == content[i * pl + off..i * pl + off + |b|]
    case Complete(i) => PieceCovered(pl, |content|, calls, n, i)
    case _ => true
  }

  /** The bytes of file f in the stream. */
  function Slice(f: FileRange, content: Bytes): Bytes
    requires f.begin <= f.end <= |content|
  {
    content[f.begin..f.end]
  }

  predicate SameAt(part: Bytes, slice: Bytes, k: int) {
    0 <= k < |part| && k < |slice| && part[k] == slice[k]
  }

  /** What a file has after n honest calls: its written bytes, or all of them under their digest. */
  ghost predicate Follows(t: Setup, calls: seq<Call>, n: nat, f: FileRange, st: FileState, content: Bytes) {
    && f.begin <= f.end <= |content|
    && st.failed.None? && Gate(t, st.anchor, Slice(f, content))
    && (st.sealed ==> st.digest == Hex(t.h(Slice(f, content))))
    && (!st.sealed ==> forall q :: f.begin <= q < f.end && Covered(t.pl, calls, n, q) ==>
         SameAt(PartOf(st), Slice(f, content), q - f.begin))
  }

  /** A file that keeps its part, under a call that writes nothing. */
  lemma FollowsOn(t: Setup, calls: seq<Call>, n: nat, f: FileRange, st: FileState, st': FileState, content: Bytes)
    requires n < |calls| && !calls[n].Write? && Follows(t, calls, n, f, st, content)
    requires st' == st.(pieces := st'.pieces, numDone := st'.numDone)
    ensures Follows(t, calls, n + 1, f, st', content)
  {
    hide Gate, SameAt, Covered, Writes;
    CoveredNext(t.pl, calls, n);
    NoWrite(t.pl, calls[n]);
    var m := n + 1;
    if !st.sealed {
      forall q | f.begin <= q < f.end && Covered(t.pl, calls, m, q)
        ensures SameAt(PartOf(st'), Slice(f, content), q - f.begin)
      {
        assert Covered(t.pl, calls, n, q);
      }
    }
  }

  /** The whole of the driver agrees with the stream after n honest calls. */
  ghost predicate Agrees(t: Setup, calls: seq<Call>, n: nat, states: States, complete: set<int>, content: Bytes) {
    && t.pl > 0 && |content| == t.total && Layout(t.files, t.total) && Clean(states)
    && (forall j :: 0 <= j < |t.files| ==>
         t.files[j].path in states && Follows(t, calls, n, t.files[j], states[t.files[j].path], content))
    && (forall i: nat :: i in complete ==> PieceCovered(t.pl, t.total, calls, n, i))
  }

  lemma CoveredNext(pl: nat, calls: seq<Call>, n: nat)
    requires n < |calls|
    ensures forall q :: Covered(pl, calls, n + 1, q) <==> Covered(pl, calls, n, q) || Writes(pl, calls[n], q)
  {
    hide Writes;
  }

  lemma PieceStays(pl: nat, total: nat, calls: seq<Call>, n: nat, i: nat)
    requires n < |calls| && PieceCovered(pl, total, calls, n, i)
    ensures PieceCovered(pl, total, calls, n + 1, i)
  {
    hide Writes, Covered, InPiece;
    CoveredNext(pl, calls, n);
  }

  lemma PiecesStay(pl: nat, total: nat, calls: seq<Call>, n: nat, complete: set<int>)
    requires n < |calls| && forall i: nat :: i in complete ==> PieceCovered(pl, total, calls, n, i)
    ensures forall i: nat :: i in complete ==> PieceCovered(pl, total, calls, n + 1, i)
  {
    hide PieceCovered;
    forall i: nat | i in complete ensures PieceCovered(pl, total, calls, n + 1, i) {
      PieceStays(pl, total, calls, n, i);
    }
  }

  /** A file all of whose bytes have been written has exactly its bytes. */
  lemma WholePart(t: Setup, calls: seq<Call>, n: nat, f: FileRange, st: FileState, v: View, content: Bytes)
    requires t.pl > 0 && f.begin < f.end <= |content| && FileOk(t, f, st, v) && Follows(t, calls, n, f, st, content)
    requires !st.sealed && forall q :: f.begin <= q < f.end ==> Covered(t.pl, calls, n, q)
    ensures st.part == Some(Slice(f, content)) && PassesGate(t, st)
  {
    hide Covered, Gate, PieceCount, CountTrue;
    var part, slice := PartOf(st), Slice(f, content);
    forall k | 0 <= k < |slice| ensures SameAt(part, slice, k) {
      assert Covered(t.pl, calls, n, f.begin + k);
      assert SameAt(part, slice, f.begin + k - f.begin);
    }
    assert SameAt(part, slice, |slice| - 1);
    assert forall k :: 0 <= k < |slice| ==> SameAt(part, slice, k) && part[k] == slice[k];
    assert part == slice;
  }

  /** The pieces of a file cover its positions. */
  lemma PiecesCover(t: Setup, calls: seq<Call>, n: nat, f: FileRange)
    requires t.pl > 0 && f.begin < f.end <= t.total
    requires forall i: nat :: FirstPiece(f, t.pl) <= i <= LastPiece(f, t.pl) ==>
      PieceCovered(t.pl, t.total, calls, n, i)
    ensures forall q :: f.begin <= q < f.end ==> Covered(t.pl, calls, n, q)
  {
    hide Covered;
    forall q | f.begin <= q < f.end ensures Covered(t.pl, calls, n, q) {
      var i := q / t.pl;
      PieceOf(t.pl, q);
      DivCompare(f.begin, t.pl, i);
      DivCompare(f.end - 1, t.pl, i);
      assert PieceCovered(t.pl, t.total, calls, n, i);
    }
  }

  lemma PieceOf(pl: nat, q: nat)
    requires pl > 0
    ensures InPiece(pl, q / pl, q)
  {
    assert q == (q / pl) * pl + q % pl;
  }

  /** When the bit of piece i is the last one, all pieces of the file are written. */
  lemma LastBit(t: Setup, calls: seq<Call>, n: nat, f: FileRange, st: FileState, v: View, complete: set<int>, i: nat)
    requires t.pl > 0 && f.begin < f.end <= t.total && FileOk(t, f, st, v) && FileLive(t.pl, f, st, complete)
    requires 0 <= i - FirstPiece(f, t.pl) < |st.pieces| && !st.pieces[i - FirstPiece(f, t.pl)]
    requires st.numDone + 1 == |st.pieces|
    requires PieceCovered(t.pl, t.total, calls, n, i)
    requires forall k: nat :: k in complete ==> PieceCovered(t.pl, t.total, calls, n, k)
    ensures forall q :: f.begin <= q < f.end ==> Covered(t.pl, calls, n, q)
  {
    hide Covered, PieceCovered, Gate, FirstPiece;
    var bit := i - FirstPiece(f, t.pl);
    CountTrueUpdate(st.pieces, bit, true);
    CountTrueAll(st.pieces[bit := true]);
    forall k: nat | FirstPiece(f, t.pl) <= k <= LastPiece(f, t.pl) ensures PieceCovered(t.pl, t.total, calls, n, k) {
      if k != i {
        assert st.pieces[bit := true][k - FirstPiece(f, t.pl)];
        assert k in complete;
      }
    }
    PiecesCover(t, calls, n, f);
  }

  /** Marking a written piece never completes a file badly. */
  lemma NeverBad(t: Setup, calls: seq<Call>, n: nat, states: States, complete: set<int>, v: View, content: Bytes,
                 i: nat,
                 j: nat)
    requires AllFilesOk(t, states, v) && AllFilesLive(t, states, complete)
    requires Agrees(t, calls, n, states, complete, content)
    requires PieceCovered(t.pl, t.total, calls, n, i) && j < |t.files|
    ensures !FillsBadly(t, t.files[j], states, i)
  {
    hide Covered, PieceCovered, Gate, FirstPiece, FileOk, FileLive, Layout, Follows, PassesGate, Clean, PieceCount;
    var f := t.files[j];
    FileAt(t, states, v, j);
    if FillsBadly(t, f, states, i) {
      LastBit(t, calls, n, f, states[f.path], v, complete, i);
      WholePart(t, calls, n, f, states[f.path], v, content);
    }
  }

  lemma StartAgrees(t: Setup, calls: seq<Call>, states: States, v: View, content: Bytes)
    requires AllFilesOk(t, states, v) && Clean(states) && |content| == t.total
    requires forall j :: 0 <= j < |t.files| ==> FreshFor(t, t.files[j], states[t.files[j].path], content)
    ensures Agrees(t, calls, 0, states, {}, content)
  {
    hide FileOk, Gate;
  }

  /** A file of which nothing has been written, and whose anchor describes its slice of the stream. */
  ghost predicate FreshFor(t: Setup, f: FileRange, st: FileState, content: Bytes) {
    f.begin <= f.end <= |content| && st.part.None? && Gate(t, st.anchor, Slice(f, content)) &&
    (st.sealed ==> st.digest == Hex(t.h(Slice(f, content))))
  }

  /** A call that leaves the files and their parts alone. */
  lemma QuietAgrees(t: Setup, calls: seq<Call>, n: nat, states: States, states': States, complete: set<int>,
                    complete': set<int>, content: Bytes)
    requires n < |calls| && !calls[n].Write? && Agrees(t, calls, n, states, complete, content)
    requires states'.Keys == states.Keys && complete' <= complete
    requires forall p :: p in states ==>
      states'[p] == states[p].(pieces := states'[p].pieces, numDone := states'[p].numDone)
    ensures Agrees(t, calls, n + 1, states', complete', content)
  {
    hide Covered, PieceCovered, Layout, Follows;
    PiecesStay(t.pl, t.total, calls, n, complete);
    forall j | 0 <= j < |t.files|
      ensures t.files[j].path in states' && Follows(t, calls, n + 1, t.files[j], states'[t.files[j].path], content)
    {
      FollowsOn(t, calls, n, t.files[j], states[t.files[j].path], states'[t.files[j].path], content);
    }
  }

  lemma NoWrite(pl: nat, call: Call)
    requires !call.Write?
    ensures forall q :: !Writes(pl, call, q)
  {
  }

  /** What a retraction does to the states. */
  lemma RetractedStates(t: Setup, before: States, after: States, i: nat, v: View)
    requires t.pl > 0 && PieceTouched(t, false, before, after, i, v)
    ensures after.Keys == before.Keys
    ensures forall p :: p in before ==> after[p] == before[p].(pieces := after[p].pieces, numDone := after[p].numDone)
  {
    hide IsRun;
    forall p | p in before ensures after[p] == before[p].(pieces := after[p].pieces, numDone := after[p].numDone) {
      if after[p] != before[p] {
        var j :| 0 <= j < |t.files| && t.files[j].path == p;
      }
    }
  }

  /** An honest write keeps the agreement. */
  lemma WriteAgrees(t: Setup, calls: seq<Call>, n: nat, states: States, states': States, complete: set<int>, v: View,
                    content: Bytes)
    requires n < |calls| && calls[n].Write? && HonestCall(t.pl, calls, n, content)
    requires Agrees(t, calls, n, states, complete, content) && AllFilesOk(t, states, v) && AllFilesOk(t, states', v)
    requires SameButParts(states, states')
    requires Written(t, states, states', v.blobs, calls[n].i * t.pl + calls[n].off, calls[n].b, |calls[n].b|)
    ensures Agrees(t, calls, n + 1, states', complete, content)
  {
    hide Covered, PieceCovered, Gate, Layout, Written, FileOk, SameAt, ByteAt, Follows, HonestCall;
    CoveredNext(t.pl, calls, n);
    PiecesStay(t.pl, t.total, calls, n, complete);
    forall p | p in states' ensures states'[p].failed.None? {
      SameFailure(states[p], states'[p]);
    }
    forall j | 0 <= j < |t.files|
      ensures t.files[j].path in states' && Follows(t, calls, n + 1, t.files[j], states'[t.files[j].path], content)
    {
      FileWritten(t, calls, n, states, states', complete, v, content, j);
    }
  }

  lemma FileWritten(t: Setup, calls: seq<Call>, n: nat, states: States, states': States, complete: set<int>, v: View,
                    content: Bytes, j: nat)
    requires n < |calls| && calls[n].Write? && HonestCall(t.pl, calls, n, content) && j < |t.files|
    requires Agrees(t, calls, n, states, complete, content) && SameButParts(states, states')
    requires Written(t, states, states', v.blobs, calls[n].i * t.pl + calls[n].off, calls[n].b, |calls[n].b|)
    ensures t.files[j].path in states' && t.files[j].begin < t.files[j].end <= |content|
    ensures Follows(t, calls, n + 1, t.files[j], states'[t.files[j].path], content)
  {
    hide Covered, PieceCovered, Gate, Layout, Locate, ByteAt;
    var f := t.files[j];
    assert f.begin < f.end <= t.total && SameButPart(states[f.path], states'[f.path]) by {
      LayoutAt(t, j);
    }
    CoveredNext(t.pl, calls, n);
    InFile(t, states, v.blobs, j);
    InFile(t, states', v.blobs, j);
    var st, st' := states[f.path], states'[f.path];
    if !st'.sealed {
      var m := n + 1;
      forall q | f.begin <= q < f.end && Covered(t.pl, calls, m, q)
        ensures SameAt(PartOf(st'), Slice(f, content), q - f.begin)
      {
        NotSealedAt(t, states, j, q);
        ByteFollows(t, calls, n, states, states', v, content, f, st, st', q);
      }
    }
  }

  lemma ByteFollows(t: Setup, calls: seq<Call>, n: nat, states: States, states': States, v: View, content: Bytes,
                    f: FileRange, st: FileState, st': FileState, q: nat)
    requires n < |calls| && calls[n].Write? && HonestCall(t.pl, calls, n, content)
    requires f.begin <= q < f.end <= t.total == |content| && !st.sealed && !st'.sealed
    requires Covered(t.pl, calls, n, q) || Writes(t.pl, calls[n], q)
    requires Covered(t.pl, calls, n, q) ==> SameAt(PartOf(st), Slice(f, content), q - f.begin)
    requires Written(t, states, states', v.blobs, calls[n].i * t.pl + calls[n].off, calls[n].b, |calls[n].b|)
    requires !SealedAt(t.files, states, q)
    requires ByteAt(t.files, states, v.blobs, q) == ByteOf(f, st, v.blobs, q)
    requires ByteAt(t.files, states', v.blobs, q) == ByteOf(f, st', v.blobs, q)
    ensures SameAt(PartOf(st'), Slice(f, content), q - f.begin)
  {
    hide Covered, ByteAt, SealedAt;
    assert ByteWritten(t, states, states', v.blobs, calls[n].i * t.pl + calls[n].off, calls[n].b, |calls[n].b|, q);
  }

  lemma LayoutAt(t: Setup, j: nat)
    requires Layout(t.files, t.total) && j < |t.files|
    ensures t.files[j].begin < t.files[j].end <= t.total
  {
  }

  lemma NotSealedAt(t: Setup, states: States, j: nat, q: nat)
    requires Layout(t.files, t.total) && j < |t.files| && t.files[j].begin <= q < t.files[j].end
    requires t.files[j].path in states && !states[t.files[j].path].sealed
    ensures !SealedAt(t.files, states, q)
  {
    LocateIs(t.files, t.total, q, j);
  }

  /** Marking an honest piece keeps the agreement: what is sealed now is the slice of the stream. */
  lemma MarkAgrees(t: Setup, calls: seq<Call>, n: nat, states: States, states': States, complete: set<int>, v: View,
                   w: View, content: Bytes, i: nat)
    requires n < |calls| && calls[n] == Complete(i) && HonestCall(t.pl, calls, n, content)
    requires Agrees(t, calls, n, states, complete, content) && AllFilesOk(t, states, v)
    requires AllFilesLive(t, states, complete) && PieceTouched(t, true, states, states', i, w) && Clean(states')
    ensures Agrees(t, calls, n + 1, states', complete + {i}, content)
  {
    hide Covered, PieceCovered, Gate, Layout, FileOk, SameAt, Follows, FileLive, Touched, Writes;
    CoveredNext(t.pl, calls, n);
    NoWrite(t.pl, calls[n]);
    PiecesStay(t.pl, t.total, calls, n, complete);
    PieceStays(t.pl, t.total, calls, n, i);
    forall j | 0 <= j < |t.files|
      ensures t.files[j].path in states' && Follows(t, calls, n + 1, t.files[j], states'[t.files[j].path], content)
    {
      FileMarked(t, calls, n, states, states', complete, v, w, content, i, j);
    }
  }

  lemma FileMarked(t: Setup, calls: seq<Call>, n: nat, states: States, states': States, complete: set<int>, v: View,
                   w: View, content: Bytes, i: nat, j: nat)
    requires n < |calls| && calls[n] == Complete(i) && HonestCall(t.pl, calls, n, content) && j < |t.files|
    requires Agrees(t, calls, n, states, complete, content) && AllFilesOk(t, states, v)
    requires AllFilesLive(t, states, complete) && PieceTouched(t, true, states, states', i, w) && Clean(states')
    ensures t.files[j].path in states' && t.files[j].begin < t.files[j].end <= |content|
    ensures Follows(t, calls, n + 1, t.files[j], states'[t.files[j].path], content)
  {
    hide Covered, PieceCovered, Gate, Layout, FileOk, SameAt, FileLive, Writes, FirstPiece, IsRun;
    var f := t.files[j];
    FileAt(t, states, v, j);
    BitmapShape(t, f, states[f.path], v);
    var st := states[f.path];
    var lo: nat, m: nat :| IsRun(t, i, lo, m) && RunTouched(t, true, states, states', lo, m, i, w);
    assert TouchedAt(t, true, states, states', lo <= j < lo + m, f, i, w);
    var st' := states'[f.path];
    if st'.sealed == st.sealed {
      FollowsOn(t, calls, n, f, st, st', content);
    } else {
      assert st.numDone + 1 == |st.pieces| by {
        CountTrueUpdate(st.pieces, i - FirstPiece(f, t.pl), true);
      }
      LastBit(t, calls, n, f, st, v, complete, i);
      WholePart(t, calls, n, f, st, v, content);
    }
  }

  /** The slice is in the store under its digest, unless the blob there collides with it. */
  ghost predicate Holds(h: Hasher, blobs: map<string, Bytes>, slice: Bytes) {
    var d := Hex(h(slice));
    d in blobs && (blobs[d] == slice || Collides(h, slice, blobs[d]))
  }

  /** Every piece of the file is marked. */
  ghost predicate AllMarked(t: Setup, marks: set<int>, f: FileRange)
    requires t.pl > 0
  {
    forall i: nat :: i < NumPieces(t.total, t.pl) && Touches(t, f, i) ==> i in marks
  }

  lemma MarkedSeals(t: Setup, calls: seq<Call>, n: nat, states: States, complete: set<int>, v: View, content: Bytes,
                    j: nat)
    requires AllFilesOk(t, states, v) && AllFilesLive(t, states, complete)
    requires Agrees(t, calls, n, states, complete, content)
    requires SoundBlobs(t.h, v.blobs) && j < |t.files| && AllMarked(t, complete, t.files[j])
    ensures states[t.files[j].path].sealed && t.files[j].end <= |content|
    ensures Holds(t.h, v.blobs, Slice(t.files[j], content))
  {
    hide Covered, PieceCovered, Gate, Layout, Hex, PieceCount;
    var f := t.files[j];
    FileAt(t, states, v, j);
    BitmapShape(t, f, states[f.path], v);
    var st := states[f.path];
    forall k | 0 <= k < |st.pieces| ensures st.pieces[k] {
      BitTouches(t, f, k);
      assert FirstPiece(f, t.pl) + k in complete;
    }
    CountTrueAll(st.pieces);
    HexInjective(t.h(v.blobs[st.digest]), t.h(Slice(f, content)));
  }

  lemma BitTouches(t: Setup, f: FileRange, k: nat)
    requires t.pl > 0 && f.begin < f.end <= t.total && k < PieceCount(f, t.pl)
    ensures FirstPiece(f, t.pl) + k < NumPieces(t.total, t.pl) && Touches(t, f, FirstPiece(f, t.pl) + k)
  {
    var i := FirstPiece(f, t.pl) + k;
    DivCompare(f.end - 1, t.pl, i);
    PieceStart(t.total, t.pl, i);
    PieceBitExact(f, t.total, t.pl, i, i * t.pl, Min(i * t.pl + t.pl, t.total));
  }

  /** One call, of a stream that is served honestly if its content is given. */
  method Step(d: ForeignTorrent, calls: seq<Call>, n: nat, ghost content: Option<Bytes>)
    requires d.Valid() && !d.closed && n < |calls| && (calls[n].OtherPut? || d.IsPiece(calls[n].i))
    requires content.Some? ==>
      Agrees(d.t, calls, n, d.states, d.complete, content.value) && HonestCall(d.t.pl, calls, n, content.value)
    modifies d`states, d`complete, d.store
    ensures d.Valid() && Settled(old(d.states), d.states) && Later(old(d.store.Now()), d.store.Now())
    ensures Clean(d.states) ==> d.complete == Marks(old(d.complete), [calls[n]])
    ensures content.Some? ==> Agrees(d.t, calls, n + 1, d.states, d.complete, content.value)
  {
    hide AllFilesOk, AllFilesLive, Clean, Settled, Later, SoundBlobs, Layout, Times, SameButParts, Written,
      NoneFailedIn, ByteAt, FillsBadly, Agrees, PieceTouched, HonestCall;
    assert [calls[n]][..0] == [];
    SettledRefl(d.states);
    LaterRefl(d.store.Now());
    ghost var v := d.store.Now();
    if content.Some? {
      AgreesClean(d.t, calls, n, d.states, d.complete, content.value);
    }
    match calls[n] {
      case Write(i, b, off) =>
        var ok, k := d.WriteAt(i, b, off);
        SamePartsSettle(old(d.states), d.states);
        if content.Some? {
          WriteSucceeds(d.t, calls, n, old(d.states), content.value, v);
          WriteAgrees(d.t, calls, n, old(d.states), d.states, d.complete, v, content.value);
        }
      case Read(i, len, off) =>
        var data, ok := d.ReadAt(i, len, off);
      case Complete(i) =>
        if content.Some? {
          CompleteCovered(d.t, calls, n, i, content.value);
          forall j | 0 <= j < |d.t.files| ensures !FillsBadly(d.t, d.t.files[j], d.states, i) {
            NeverBad(d.t, calls, n, d.states, d.complete, v, content.value, i, j);
          }
        }
        var err := d.MarkComplete(i);
        if content.Some? {
          MarkAgrees(d.t, calls, n, old(d.states), d.states, old(d.complete), v, d.store.Now(), content.value, i);
        }
      case Retract(i) =>
        d.MarkNotComplete(i);
        RetractedStates(d.t, old(d.states), d.states, i, d.store.Now());
      case Ask(i) =>
        var done, err := d.Completion(i);
      case OtherPut(digest, bytes) =>
        var ok := d.store.Put(digest, bytes);
        StoreGrowth(d.t, d.states, v, d.store.Now());
    }
    if content.Some? && !calls[n].Write? && !calls[n].Complete? {
      QuietAgrees(d.t, calls, n, old(d.states), d.states, old(d.complete), d.complete, content.value);
    }
  }

  lemma AgreesClean(t: Setup, calls: seq<Call>, n: nat, states: States, complete: set<int>, content: Bytes)
    requires Agrees(t, calls, n, states, complete, content)
    ensures Clean(states) && t.pl > 0 && |content| == t.total
  {
  }

  lemma CompleteCovered(t: Setup, calls: seq<Call>, n: nat, i: nat, content: Bytes)
    requires n < |calls| && calls[n] == Complete(i) && HonestCall(t.pl, calls, n, content) && |content| == t.total
    ensures PieceCovered(t.pl, t.total, calls, n, i)
  {
  }

  /** An honest write lies inside the stream, and none of its files has failed. */
  lemma WriteSucceeds(t: Setup, calls: seq<Call>, n: nat, states: States, content: Bytes, v: View)
    requires n < |calls| && calls[n].Write? && HonestCall(t.pl, calls, n, content) && |content| == t.total
    requires AllFilesOk(t, states, v) && Clean(states)
    ensures Times(calls[n].i, t.pl) == calls[n].i * t.pl
    ensures var pos := Times(calls[n].i, t.pl) + calls[n].off;
      calls[n].b == [] || (pos + |calls[n].b| <= t.total && NoneFailedIn(t, states, pos, pos + |calls[n].b|))
  {
    hide FileOk;
  }

  /**
   Any sequence of calls, mixed with any other writes to the store.  The invariant holds throughout,
   nothing sealed or failed is undone, the store only grows, and until a file fails its anchor the
   complete pieces are exactly those marked and not retracted since.  Every file that was sealed on the
   way is vouched for.  A stream that is served honestly, with a content that the anchors describe, makes
   no file fail: each file all of whose pieces are marked is sealed, and its blob is its slice of the content.
   */
  method Drive(d: ForeignTorrent, calls: seq<Call>, ghost content: Option<Bytes>)
    requires d.Valid() && !d.closed && forall k :: 0 <= k < |calls| ==> calls[k].OtherPut? || d.IsPiece(calls[k].i)
    requires content.Some? ==>
      && |content.value| == d.t.total && Clean(d.states) && d.complete == {}
      && (forall j :: 0 <= j < |d.t.files| ==>
           d.t.files[j].path in d.states && FreshFor(d.t, d.t.files[j], d.states[d.t.files[j].path], content.value))
      && (forall n :: 0 <= n < |calls| ==> HonestCall(d.t.pl, calls, n, content.value))
    modifies d`states, d`complete, d.store
    ensures d.Valid() && Settled(old(d.states), d.states) && Later(old(d.store.Now()), d.store.Now())
    ensures Clean(d.states) ==> d.complete == Marks(old(d.complete), calls)
    ensures !d.store.clash ==> forall j ::
      (0 <= j < |d.t.files| && !old(d.states)[d.t.files[j].path].sealed && d.states[d.t.files[j].path].sealed) ==>
        Vouched(d.t, d.t.files[j], d.states[d.t.files[j].path], d.store.Now())
    ensures content.Some? ==> Clean(d.states)
    ensures content.Some? ==> forall j ::
      0 <= j < |d.t.files| && AllMarked(d.t, Marks({}, calls), d.t.files[j]) ==>
        d.t.files[j].path in d.states && d.states[d.t.files[j].path].sealed &&
        d.t.files[j].begin <= d.t.files[j].end <= |content.value| &&
        Holds(d.t.h, d.store.blobs, content.value[d.t.files[j].begin..d.t.files[j].end])
  {
    hide AllFilesOk, AllFilesLive, Clean, Settled, Later, SoundBlobs, Layout, Times, Vouched, Agrees, FreshFor,
      HonestCall,
      AllMarked, Holds;
    SettledRefl(d.states);
    LaterRefl(d.store.Now());
    FilesPresent(d.t, d.states, d.store.Now());
    if content.Some? {
      StartAgrees(d.t, calls, d.states, d.store.Now(), content.value);
    }
    for n := 0 to |calls|
      invariant d.Valid() && Settled(old(d.states), d.states) && Later(old(d.store.Now()), d.store.Now())
      invariant Clean(d.states) ==> d.complete == Marks(old(d.complete), calls[..n])
      invariant content.Some? ==> Agrees(d.t, calls, n, d.states, d.complete, content.value)
    {
      ghost var s, v, c := d.states, d.store.Now(), d.complete;
      Step(d, calls, n, content);
      SettledTrans(old(d.states), s, d.states);
      LaterTrans(old(d.store.Now()), v, d.store.Now());
      if Clean(d.states) {
        StaysUnclean(s, d.states);
        assert calls[..n + 1][..n] == calls[..n];
        assert [calls[n]][..0] == [];
      }
    }
    assert calls[..|calls|] == calls;
    FilesPresent(d.t, d.states, d.store.Now());
    if !d.store.clash {
      forall j | 0 <= j < |d.t.files| && !old(d.states)[d.t.files[j].path].sealed && d.states[d.t.files[j].path].sealed
        ensures Vouched(d.t, d.t.files[j], d.states[d.t.files[j].path], d.store.Now())
      {
        SealedIsVouched(d.t, old(d.states), old(d.store.Now()), d.states, d.store.Now(), j);
      }
    }
    if content.Some? {
      AgreesClean(d.t, calls, |calls|, d.states, d.complete, content.value);
      forall j | 0 <= j < |d.t.files| && AllMarked(d.t, Marks({}, calls), d.t.files[j])
        ensures d.states[d.t.files[j].path].sealed && d.t.files[j].begin <= d.t.files[j].end <= |content.value|
        ensures Holds(d.t.h, d.store.blobs, content.value[d.t.files[j].begin..d.t.files[j].end])
      {
        MarkedSeals(d.t, calls, |calls|, d.states, d.complete, d.store.Now(), content.value, j);
      }
    }
  }

  /**
   Reading back a successful write, across any number of file boundaries: with sealed blobs as long
   as their files, the read is full and returns the written bytes at unsealed positions and the
   sealed blob's bytes at sealed ones.
   */
  method WriteThenRead(d: ForeignTorrent, i: nat, b: Bytes, off: nat) returns (written: bool, data: Bytes, full: bool)
    requires d.Valid() && !d.closed && d.IsPiece(i) && b != []
    requires SealedBlobsFit(d.t, d.states, d.store.Now())
    modifies d`states
    ensures d.Valid()
    ensures written ==> full && |data| == |b| && forall k :: 0 <= k < |b| ==>
      Some(data[k]) ==
        if SealedAt(d.t.files, old(d.states), d.Offset(i) + off + k)
        then old(d.Stream(d.Offset(i) + off + k)) else Some(b[k])
  {
    hide AllFilesOk, AllFilesLive, Clean, SoundBlobs, Layout, Times, SameButParts, Written, NoneFailedIn, ByteAt,
      SealedAt,
      SealedBlobsFit;
    ghost var n;
    written, n := d.WriteAt(i, b, off);
    data, full := d.ReadAt(i, |b|, off);
    if written {
      var abs := d.Offset(i) + off;
      forall q: nat | abs <= q < abs + |b|
        ensures d.Stream(q).Some?
        ensures d.Stream(q) ==
          if SealedAt(d.t.files, old(d.states), q)
          then ByteAt(d.t.files, old(d.states), d.store.blobs, q) else Some(b[q - abs])
      {
        ReadBack(d.t, old(d.states), d.states, d.store.Now(), abs, b, q);
      }
      forall k | 0 <= k < |b|
        ensures Some(data[k]) ==
          if SealedAt(d.t.files, old(d.states), abs + k) then old(d.Stream(abs + k)) else Some(b[k])
      {
        assert d.Stream(abs + k) == Some(data[k]);
      }
    }
  }
}
