/**
 The storage driver for shardr's own (BitTorrent v2) torrents.  Files start on piece boundaries, so
 every piece belongs to one file; each file is pinned to a digest before it may be written, and seals
 into the store when its last piece completes.
 */
module CasDriver {
  import opened Basics
  import opened BlobStore
  import L = ForeignLayout
  import S = ForeignState
  import O = ForeignOpen
  import Merkle
  import opened Paths

  datatype Failure = SealedFile | UnpinnedFile | NoPart | WrongDigest

  datatype FileState = FileState(
    spec: FileSpec, sealed: bool, failed: Option<Failure>, part: Option<Bytes>, numDone: int, pieces: Option<seq<bool>>)

  type States = map<Bytes, FileState>

  /** fileSpan: the pieces [begin, end) of one file. */
  datatype Span = Span(path: Bytes, begin: nat, end: nat)

  /** Spans follow each other without a gap. */
  ghost predicate EndToEnd(spans: seq<Span>, count: nat) {
    && (forall j :: 0 <= j < |spans| ==> spans[j].begin < spans[j].end)
    && (forall j :: 0 < j < |spans| ==> spans[j].begin == spans[j - 1].end)
    && (if spans == [] then count == 0 else spans[0].begin == 0 && spans[|spans| - 1].end == count)
  }

  ghost predicate DistinctPaths(spans: seq<Span>) {
    forall j, k :: 0 <= j < |spans| && 0 <= k < |spans| && spans[j].path == spans[k].path ==> j == k
  }

  /**
   What holds of a file of n pieces in every state: the counter counts the bits, an unpinned file is
   untouched, a sealed one is in the store, and one that is neither sealed nor failed lacks a piece.
   */
  ghost predicate FileOk(n: nat, st: FileState, blobs: map<string, Bytes>) {
    && (st.pieces.Some? <==> st.spec.digest != "")
    && (st.pieces.None? ==> !st.sealed && st.failed.None? && st.part.None? && st.numDone == 0)
    && (st.pieces.Some? ==> |st.pieces.value| == n && st.numDone == L.CountTrue(st.pieces.value))
    && (st.sealed ==> st.failed.None? && st.part.None? && st.spec.digest in blobs)
    && (st.pieces.Some? && !st.sealed && st.failed.None? ==> st.numDone < n)
  }

  /** The complete pieces explain the bitmap of a file. */
  ghost predicate Explained(s: Span, st: FileState, complete: set<int>) {
    forall i :: s.begin <= i < s.end ==>
      (i in complete <==> st.pieces.Some? && i - s.begin < |st.pieces.value| && st.pieces.value[i - s.begin])
  }

  ghost predicate AllOk(spans: seq<Span>, count: nat, states: States, complete: set<int>, blobs: map<string, Bytes>) {
    && EndToEnd(spans, count) && DistinctPaths(spans)
    && (forall j :: 0 <= j < |spans| ==>
         spans[j].path in states && FileOk(spans[j].end - spans[j].begin, states[spans[j].path], blobs) &&
         Explained(spans[j], states[spans[j].path], complete))
    && (forall p :: p in states ==> exists j :: 0 <= j < |spans| && spans[j].path == p)
  }

  /** Sealed files stay sealed, failed files stay failed, and no file changes its pin. */
  ghost predicate Settled(before: States, after: States) {
    before.Keys == after.Keys && forall p :: p in before ==>
      && after[p].spec == before[p].spec
      && (before[p].sealed ==> after[p].sealed)
      && (before[p].failed.Some? ==> after[p].failed == before[p].failed)
  }

  lemma SpansDisjoint(spans: seq<Span>, count: nat, j: nat, k: nat)
    requires EndToEnd(spans, count) && j < k < |spans|
    ensures spans[j].end <= spans[k].begin
  {
    if j + 1 < k {
      SpansDisjoint(spans, count, j, k - 1);
      assert spans[k].begin == spans[k - 1].end;
    }
  }

  lemma Fits(spans: seq<Span>, count: nat, j: nat)
    requires EndToEnd(spans, count) && j < |spans|
    ensures spans[j].end <= count
  {
    if j < |spans| - 1 {
      SpansDisjoint(spans, count, j, |spans| - 1);
    }
  }

  lemma ExplainedElsewhere(spans: seq<Span>, count: nat, j: nat, k: nat, st: FileState, i: int, complete: set<int>)
    requires EndToEnd(spans, count) && j < |spans| && k < |spans| && j != k
    requires spans[j].begin <= i < spans[j].end && Explained(spans[k], st, complete)
    ensures Explained(spans[k], st, complete + {i}) && Explained(spans[k], st, complete - {i})
  {
    if j < k {
      SpansDisjoint(spans, count, j, k);
    } else {
      SpansDisjoint(spans, count, k, j);
    }
  }

  lemma FileOkLater(n: nat, st: FileState, v: View, w: View)
    requires FileOk(n, st, v.blobs) && Later(v, w)
    ensures FileOk(n, st, w.blobs)
  {
  }

  /** Replacing the state of one file, together with the standing of at most one of its pieces. */
  lemma Replace(spans: seq<Span>, count: nat, states: States, complete: set<int>, v: View,
                j: nat, i: int, st: FileState, complete': set<int>, w: View)
    requires AllOk(spans, count, states, complete, v.blobs) && Later(v, w)
    requires j < |spans| && spans[j].begin <= i < spans[j].end
    requires complete' == complete || complete' == complete + {i} || complete' == complete - {i}
    requires FileOk(spans[j].end - spans[j].begin, st, w.blobs) && Explained(spans[j], st, complete')
    ensures AllOk(spans, count, states[spans[j].path := st], complete', w.blobs)
  {
    hide FileOk, Explained, Later, EndToEnd;
    var after := states[spans[j].path := st];
    forall k | 0 <= k < |spans|
      ensures spans[k].begin <= spans[k].end
      ensures FileOk(spans[k].end - spans[k].begin, after[spans[k].path], w.blobs)
      ensures Explained(spans[k], after[spans[k].path], complete')
    {
      SpanProper(spans, count, k);
      if k != j {
        ExplainedElsewhere(spans, count, j, k, states[spans[k].path], i, complete);
        FileOkLater(spans[k].end - spans[k].begin, states[spans[k].path], v, w);
      }
    }
  }

  lemma SpanProper(spans: seq<Span>, count: nat, k: nat)
    requires EndToEnd(spans, count) && k < |spans|
    ensures spans[k].begin < spans[k].end
  {
  }

  function SetBit(st: FileState, bit: nat, value: bool): FileState
    requires st.pieces.Some? && bit < |st.pieces.value|
  {
    st.(pieces := Some(st.pieces.value[bit := value]), numDone := st.numDone + if value then 1 else -1)
  }

  lemma BitSet(s: Span, st: FileState, i: int, value: bool, complete: set<int>)
    requires s.begin <= i < s.end && st.pieces.Some? && |st.pieces.value| == s.end - s.begin
    requires st.numDone == L.CountTrue(st.pieces.value) && st.pieces.value[i - s.begin] != value
    requires Explained(s, st, complete)
    ensures Explained(s, SetBit(st, i - s.begin, value), if value then complete + {i} else complete - {i})
    ensures SetBit(st, i - s.begin, value).numDone == L.CountTrue(SetBit(st, i - s.begin, value).pieces.value)
  {
    L.CountTrueUpdate(st.pieces.value, i - s.begin, value);
  }

  lemma SameComplete(s: Span, st: FileState, i: int, complete: set<int>)
    requires s.begin <= i < s.end && Explained(s, st, complete) && st.pieces.Some?
    requires |st.pieces.value| == s.end - s.begin
    ensures st.pieces.value[i - s.begin] ==> complete + {i} == complete
    ensures !st.pieces.value[i - s.begin] ==> complete - {i} == complete
  {
  }

  lemma OneFile(spans: seq<Span>, count: nat, states: States, complete: set<int>, blobs: map<string, Bytes>, j: nat)
    requires AllOk(spans, count, states, complete, blobs) && j < |spans|
    ensures spans[j].begin < spans[j].end <= count && spans[j].path in states
    ensures FileOk(spans[j].end - spans[j].begin, states[spans[j].path], blobs)
    ensures Explained(spans[j], states[spans[j].path], complete)
  {
    Fits(spans, count, j);
  }

  lemma Shape(spans: seq<Span>, count: nat, states: States, complete: set<int>, blobs: map<string, Bytes>)
    requires AllOk(spans, count, states, complete, blobs)
    ensures EndToEnd(spans, count)
  {
  }

  /** When piece i lies past all spans before k, it does not lie before span k, nor past the last one. */
  lemma Before(spans: seq<Span>, count: nat, k: nat, i: nat)
    requires EndToEnd(spans, count) && k <= |spans| && i < count
    requires forall m :: 0 <= m < k ==> spans[m].end <= i
    ensures k < |spans| && spans[k].begin <= i
  {
    if k > 0 {
      assert spans[k - 1].end <= i;
    }
  }

  lemma SettledRefl(states: States)
    ensures Settled(states, states)
  {
  }

  lemma SettledStep(states: States, p: Bytes, st: FileState)
    requires p in states && st.spec == states[p].spec && (states[p].sealed ==> st.sealed)
    requires states[p].failed.Some? ==> st.failed == states[p].failed
    ensures Settled(states, states[p := st])
  {
  }

  lemma Bitmap(n: nat, st: FileState, blobs: map<string, Bytes>)
    requires FileOk(n, st, blobs)
    ensures st.pieces.Some? <==> st.spec.digest != ""
    ensures st.pieces.Some? ==> |st.pieces.value| == n && st.numDone == L.CountTrue(st.pieces.value)
    ensures st.sealed || st.failed.Some? ==> st.pieces.Some?
    ensures st.pieces.Some? && !st.sealed && st.failed.None? ==> st.numDone < n
    ensures st.sealed ==> st.failed.None? && st.spec.digest in blobs
  {
  }

  lemma PartChange(s: Span, st: FileState, part: Option<Bytes>, blobs: map<string, Bytes>, complete: set<int>)
    requires s.begin < s.end && FileOk(s.end - s.begin, st, blobs) && Explained(s, st, complete)
    requires !st.sealed && st.spec.digest != ""
    ensures FileOk(s.end - s.begin, st.(part := part), blobs) && Explained(s, st.(part := part), complete)
  {
  }

  lemma SealedBits(n: nat, st: FileState, st': FileState, blobs: map<string, Bytes>)
    requires FileOk(n, st, blobs) && st.sealed && st' == st.(pieces := st'.pieces, numDone := st'.numDone)
    requires st'.pieces.Some? && |st'.pieces.value| == n && st'.numDone == L.CountTrue(st'.pieces.value)
    ensures FileOk(n, st', blobs)
  {
  }

  lemma AtMostAll(bits: seq<bool>)
    ensures L.CountTrue(bits) <= |bits|
  {
  }

  lemma OpenBits(n: nat, st: FileState, st': FileState, blobs: map<string, Bytes>)
    requires FileOk(n, st, blobs) && !st.sealed && st.failed.None?
    requires st' == st.(pieces := st'.pieces, numDone := st'.numDone)
    requires st.pieces.Some? && st'.pieces.Some? && |st'.pieces.value| == n
    requires st'.numDone == L.CountTrue(st'.pieces.value) < n
    ensures FileOk(n, st', blobs)
  {
  }

  lemma ClearedBits(n: nat, st: FileState, st': FileState, blobs: map<string, Bytes>)
    requires FileOk(n, st, blobs) && st.pieces.Some? && st' == st.(pieces := st'.pieces, numDone := st'.numDone)
    requires st'.pieces.Some? && |st'.pieces.value| == n
    requires st'.numDone == L.CountTrue(st'.pieces.value) == st.numDone - 1
    ensures FileOk(n, st', blobs)
  {
  }

  /** A file whose last piece has just been recorded, after the attempt to seal it. */
  lemma SealOutcome(s: Span, st: FileState, st': FileState, n: FileState, err: Option<Failure>,
                    complete: set<int>, complete': set<int>, blobs: map<string, Bytes>, blobs': map<string, Bytes>)
    requires s.begin < s.end && FileOk(s.end - s.begin, st, blobs) && !st.sealed && st.failed.None? && st.pieces.Some?
    requires st' == st.(pieces := st'.pieces, numDone := st'.numDone) && Explained(s, st', complete')
    requires st'.pieces.Some? && |st'.pieces.value| == s.end - s.begin && st'.numDone == L.CountTrue(st'.pieces.value)
    requires n == st'.(part := None, sealed := err.None?, failed := err) && (err.None? ==> st.spec.digest in blobs')
    ensures FileOk(s.end - s.begin, n, blobs') && Explained(s, n, complete')
  {
  }

  lemma NotComplete(s: Span, st: FileState, i: int, complete: set<int>)
    requires s.begin <= i < s.end && Explained(s, st, complete)
    requires !(st.pieces.Some? && i - s.begin < |st.pieces.value| && st.pieces.value[i - s.begin])
    ensures complete - {i} == complete
  {
  }

  /* ---- The file of a piece ---- */

  ghost predicate Owns(spans: seq<Span>, j: nat, i: nat) {
    j < |spans| && spans[j].begin <= i < spans[j].end
  }

  /** The file that owns piece i. */
  ghost function Owner(spans: seq<Span>, i: nat): (j: nat)
    ensures (exists k: nat :: Owns(spans, k, i)) ==> Owns(spans, j, i)
  {
    if exists k: nat :: Owns(spans, k, i) then var k: nat :| Owns(spans, k, i); k else 0
  }

  /** The path of that file. */
  ghost function PathOf(spans: seq<Span>, i: nat): Bytes {
    if Owns(spans, Owner(spans, i), i) then spans[Owner(spans, i)].path else ""
  }

  /** The place of piece i in its file. */
  ghost function Local(spans: seq<Span>, i: nat): nat {
    if Owns(spans, Owner(spans, i), i) then i - spans[Owner(spans, i)].begin else 0
  }

  /** The number of pieces of that file. */
  ghost function Pieces(spans: seq<Span>, i: nat): nat {
    if Owns(spans, Owner(spans, i), i) then spans[Owner(spans, i)].end - spans[Owner(spans, i)].begin else 0
  }

  /** Where the completion of piece i is looked up. */
  ghost function BitOf(spans: seq<Span>, files: States, i: nat): Option<bool> {
    if PathOf(spans, i) !in files then None
    else
      var st := files[PathOf(spans, i)];
      if st.pieces.Some? && Local(spans, i) < |st.pieces.value| then Some(st.pieces.value[Local(spans, i)]) else None
  }

  /** What Completion tells of piece i: its bit is set and its file has not failed. */
  ghost predicate Reports(spans: seq<Span>, files: States, i: nat) {
    BitOf(spans, files, i) == Some(true) && files[PathOf(spans, i)].failed.None?
  }

  lemma OneOwner(spans: seq<Span>, count: nat, j: nat, i: nat)
    requires EndToEnd(spans, count) && Owns(spans, j, i)
    ensures Owner(spans, i) == j && PathOf(spans, i) == spans[j].path && Local(spans, i) == i - spans[j].begin
    ensures Pieces(spans, i) == spans[j].end - spans[j].begin
    ensures forall k: nat :: Owns(spans, k, i) ==> k == j
  {
    forall k: nat | Owns(spans, k, i) ensures k == j {
      if k < j {
        SpansDisjoint(spans, count, k, j);
      } else if j < k {
        SpansDisjoint(spans, count, j, k);
      }
    }
  }

  class CasTorrent {
    const store: Store
    const pl: nat
    const spans: seq<Span>
    /** The number of pieces. */
    const count: nat

    var files: States
    var closed: bool
    /** Digests whose bytes this process has hashed, or the engine has checked piece by piece. */
    var verified: set<string>
    /** The pieces whose completion has been recorded and not retracted. */
    ghost var complete: set<int>

    ghost predicate Valid()
      reads this, store
    {
      && pl > 0 && store.Sound()
      && AllOk(spans, count, files, complete, store.blobs)
    }

    constructor (store: Store, pl: nat, spans: seq<Span>, count: nat, files: States, ghost complete: set<int>)
      ensures this.store == store && this.pl == pl && this.spans == spans && this.count == count
      ensures this.files == files && this.complete == complete && verified == {} && !closed
    {
      this.store, this.pl, this.spans, this.count := store, pl, spans, count;
      this.files, this.complete := files, complete;
      verified, closed := {}, false;
    }

    /** spanFor: every piece has exactly one owner, and the panic is never reached. */
    method SpanFor(i: nat) returns (j: nat)
      requires Valid() && i < count
      ensures Owns(spans, j, i) && forall k: nat :: Owns(spans, k, i) ==> k == j
      ensures j == Owner(spans, i) && spans[j].path == PathOf(spans, i) && PathOf(spans, i) in files
      ensures Local(spans, i) == i - spans[j].begin && Pieces(spans, i) == spans[j].end - spans[j].begin
    {
      hide AllOk, EndToEnd;
      assert EndToEnd(spans, count) by {
        Shape(spans, count, files, complete, store.blobs);
      }
      for k := 0 to |spans|
        invariant forall m :: 0 <= m < k ==> spans[m].end <= i
      {
        SpanProper(spans, count, k);
        Before(spans, count, k, i);
        var s := spans[k];
        if i >= s.begin && i < s.end {
          OneFile(spans, count, files, complete, store.blobs, k);
          OneOwner(spans, count, k, i);
          return k;
        }
      }
      Before(spans, count, |spans|, i);
      assert false;
    }

    /**
     WriteAt: refused for sealed, unpinned and failed files.  Otherwise the bytes go into the part at the
     place of the piece, the bytes around them stay, and zero bytes fill up what was never written below.
     */
    method WriteAt(i: nat, b: Bytes, off: nat) returns (err: bool)
      requires Valid() && i < count && !closed
      modifies this`files
      ensures Valid() && Settled(old(files), files) && PathOf(spans, i) in old(files) && PathOf(spans, i) in files
      ensures err <==> !Writable(old(files)[PathOf(spans, i)])
      ensures err ==> files == old(files)
      ensures !err ==>
        var o, n := old(files)[PathOf(spans, i)], files[PathOf(spans, i)];
        && files == old(files)[PathOf(spans, i) := o.(part := n.part)]
        && n.part.Some? && Splices(PartOf(o), n.part.value, Local(spans, i) * pl + off, b)
    {
      hide AllOk, FileOk, Explained, Patched, Settled, L.CountTrue, Later, SoundBlobs, Splices, PathOf, Local;
      var k := SpanFor(i);
      var p := spans[k].path;
      var st := files[p];
      SettledRefl(files);
      if st.sealed {
        return true;
      }
      if st.spec.digest == "" {
        return true;
      }
      if st.failed.Some? {
        return true;
      }
      var pos := (i - spans[k].begin) * pl + off;
      PatchSplices(PartOf(st), pos, b);
      var st' := st.(part := Some(Patched(PartOf(st), pos, b)));
      OneFile(spans, count, files, complete, store.blobs, k);
      PartChange(spans[k], st, st'.part, store.blobs, complete);
      LaterRefl(store.Now());
      Replace(spans, count, files, complete, store.Now(), k, i, st', complete, store.Now());
      SettledStep(files, p, st');
      files := files[p := st'];
      return false;
    }

    /**
     ReadAt: from the sealed blob, or from the part as far as it goes; an error when there is neither,
     and together with the bytes when there are fewer than asked for.
     */
    method ReadAt(i: nat, len: nat, off: nat) returns (data: Bytes, err: bool)
      requires Valid() && i < count && !closed
      ensures PathOf(spans, i) in files
      ensures var st, pos := files[PathOf(spans, i)], Local(spans, i) * pl + off;
        && (st.sealed ==> st.spec.digest in store.blobs && Reads(store.blobs[st.spec.digest], data, pos, len))
        && (!st.sealed ==> Reads(PartOf(st), data, pos, len))
        && (err <==> (!st.sealed && st.part.None?) || |data| < len)
    {
      hide AllOk, Explained, L.CountTrue, S.ReadFile, FileOk, SoundBlobs, PathOf, Local;
      var k := SpanFor(i);
      OneFile(spans, count, files, complete, store.blobs, k);
      var st := files[spans[k].path];
      Bitmap(spans[k].end - spans[k].begin, st, store.blobs);
      var pos := (i - spans[k].begin) * pl + off;
      if st.sealed {
        data := S.ReadFile(store.blobs[st.spec.digest], pos, len);
        return data, |data| < len;
      }
      if st.part.None? {
        return [], true;
      }
      data := S.ReadFile(st.part.value, pos, len);
      return data, |data| < len;
    }

    /** sealLocked: the verifying write; the part is deleted whether it passes or not. */
    method SealLocked(p: Bytes) returns (err: Option<Failure>)
      requires store.Sound() && p in files
      modifies this`files, this`verified, store
      ensures store.Sound() && Later(old(store.Now()), store.Now())
      ensures var st := old(files)[p];
        && (err.None? <==> st.part.Some? && Hex(store.h(st.part.value)) == st.spec.digest)
        && files == old(files)[p := if err.None? then st.(part := None, sealed := true) else st.(part := None)]
        && verified == old(verified) + (if err.None? then {st.spec.digest} else {})
        && (err.None? ==> st.spec.digest in store.blobs)
        && (err.None? ==> store.clash || store.blobs[st.spec.digest] == st.part.value)
        && (err.Some? ==> store.Now() == old(store.Now()))
    {
      hide Later, SoundBlobs;
      LaterRefl(store.Now());
      var st := files[p];
      if st.part.None? {
        assert st == st.(part := None) && files == files[p := st];
        return Some(NoPart);
      }
      var ok := store.Put(st.spec.digest, st.part.value);
      if !ok {
        files := files[p := st.(part := None)];
        return Some(WrongDigest);
      }
      files := files[p := st.(part := None, sealed := true)];
      verified := verified + {st.spec.digest};
      return None;
    }

    /** The end of MarkComplete: a file whose last piece is recorded is sealed, or fails. */
    method SealLast(p: Bytes) returns (err: Option<Failure>)
      requires store.Sound() && p in files && files[p].failed.None? && !files[p].sealed
      modifies this`files, this`verified, store
      ensures store.Sound() && Later(old(store.Now()), store.Now())
      ensures p in files && files == old(files)[p := files[p]]
      ensures Finished(store.h, old(files)[p], files[p], err, store.Now())
      ensures verified == old(verified) + (if files[p].sealed then {old(files)[p].spec.digest} else {})
    {
      hide Later, SoundBlobs;
      err := SealLocked(p);
      if err.Some? {
        files := files[p := files[p].(failed := err)];
      }
    }

    /** MarkComplete on a sealed file: the piece is recorded, and the file counts as verified once all are. */
    method MarkSealed(k: nat, i: nat)
      requires Valid() && Owns(spans, k, i) && spans[k].path in files && files[spans[k].path].sealed
      modifies this`files, this`verified, this`complete
      ensures Valid() && Settled(old(files), files) && complete == old(complete) + {i}
      ensures spans[k].path in files && files == old(files)[spans[k].path := files[spans[k].path]]
      ensures var o, n := old(files)[spans[k].path], files[spans[k].path];
        && n == o.(pieces := n.pieces, numDone := n.numDone)
        && verified == old(verified) + (if Confirmed(o, n, i - spans[k].begin) then {o.spec.digest} else {})
    {
      hide AllOk, FileOk, Explained, Settled, Later, L.CountTrue, SoundBlobs, EndToEnd, DistinctPaths;
      var s := spans[k];
      var st := files[s.path];
      OneFile(spans, count, files, complete, store.blobs, k);
      Bitmap(s.end - s.begin, st, store.blobs);
      SettledRefl(files);
      assert files == files[s.path := st];
      SameComplete(s, st, i, complete);
      if !st.pieces.value[i - s.begin] {
        LaterRefl(store.Now());
        BitSet(s, st, i, true, complete);
        var st' := SetBit(st, i - s.begin, true);
        SealedBits(s.end - s.begin, st, st', store.blobs);
        Replace(spans, count, files, complete, store.Now(), k, i, st', complete + {i}, store.Now());
        SettledStep(files, s.path, st');
        files := files[s.path := st'];
        complete := complete + {i};
        if st'.numDone == |st'.pieces.value| {
          verified := verified + {st'.spec.digest};
        }
      }
    }

    /**
     MarkComplete.  A sealed file only has the piece recorded, and counts as verified once every piece
     is; the last piece of an unsealed one seals it exactly when its part hashes to its pin.
     */
    method MarkComplete(i: nat) returns (err: Option<Failure>)
      requires Valid() && i < count && !closed
      modifies this`files, this`verified, this`complete, store
      ensures Valid() && Settled(old(files), files) && Later(old(store.Now()), store.Now())
      ensures PathOf(spans, i) in files && PathOf(spans, i) in old(files)
      ensures files == old(files)[PathOf(spans, i) := files[PathOf(spans, i)]]
      ensures var o, r := old(files)[PathOf(spans, i)], files[PathOf(spans, i)];
        && Recorded(store.h, Pieces(spans, i), o, r, err, store.Now())
        && complete == (if o.spec.digest != "" && o.failed.None? then old(complete) + {i} else old(complete))
        && verified == old(verified) + (if Confirmed(o, r, Local(spans, i)) then {o.spec.digest} else {})
    {
      hide AllOk, FileOk, Explained, Settled, Later, L.CountTrue, SoundBlobs, EndToEnd, DistinctPaths;
      var k := SpanFor(i);
      var s := spans[k];
      var p := s.path;
      var st := files[p];
      OneFile(spans, count, files, complete, store.blobs, k);
      Bitmap(s.end - s.begin, st, store.blobs);
      SettledRefl(files);
      LaterRefl(store.Now());
      ghost var v := store.Now();
      assert files == files[p := st];
      if st.sealed {
        MarkSealed(k, i);
        return None;
      }
      if st.failed.Some? {
        return st.failed;
      }
      if st.pieces.None? {
        return Some(UnpinnedFile);
      }
      SameComplete(s, st, i, complete);
      var st' := st;
      if !st.pieces.value[i - s.begin] {
        BitSet(s, st, i, true, complete);
        st' := SetBit(st, i - s.begin, true);
      }
      SettledStep(files, p, st');
      files := files[p := st'];
      complete := complete + {i};
      AtMostAll(st'.pieces.value);
      if st'.numDone < |st'.pieces.value| {
        OpenBits(s.end - s.begin, st, st', v.blobs);
        Replace(spans, count, old(files), old(complete), v, k, i, st', complete, v);
        return None;
      }
      err := SealLast(p);
      ghost var n := files[p];
      SealOutcome(s, st, st', n, err, old(complete), complete, old(store.blobs), store.blobs);
      SettledStep(old(files), p, n);
      Replace(spans, count, old(files), old(complete), v, k, i, n, complete, store.Now());
      assert files == old(files)[p := n];
    }

    /** MarkNotComplete: the piece leaves the complete ones; nothing sealed or failed is undone. */
    method MarkNotComplete(i: nat)
      requires Valid() && i < count && !closed
      modifies this`files, this`complete
      ensures Valid() && Settled(old(files), files) && complete == old(complete) - {i}
      ensures files.Keys == old(files).Keys
      ensures forall p :: p in files ==>
        files[p] == old(files)[p].(pieces := files[p].pieces, numDone := files[p].numDone)
    {
      hide AllOk, FileOk, Explained, Settled, Later, L.CountTrue, SoundBlobs;
      var k := SpanFor(i);
      var s := spans[k];
      var st := files[s.path];
      OneFile(spans, count, files, complete, store.blobs, k);
      Bitmap(s.end - s.begin, st, store.blobs);
      SettledRefl(files);
      LaterRefl(store.Now());
      if st.pieces.Some? && st.pieces.value[i - s.begin] {
        BitSet(s, st, i, false, complete);
        var st' := SetBit(st, i - s.begin, false);
        ClearedBits(s.end - s.begin, st, st', store.blobs);
        Replace(spans, count, files, complete, store.Now(), k, i, st', complete - {i}, store.Now());
        SettledStep(files, s.path, st');
        files := files[s.path := st'];
        complete := complete - {i};
      } else {
        NotComplete(s, st, i, complete);
      }
    }

    /** Completion: unknown for unpinned files, an error for failed ones, and otherwise the piece's own bit. */
    method Completion(i: nat) returns (known: bool, done: bool, err: bool)
      requires Valid() && i < count && !closed
      ensures PathOf(spans, i) in files
      ensures known <==> files[PathOf(spans, i)].spec.digest != ""
      ensures err <==> files[PathOf(spans, i)].failed.Some?
      ensures done <==> files[PathOf(spans, i)].failed.None? && i in complete
      ensures done <==> Reports(spans, files, i)
    {
      hide AllOk, L.CountTrue;
      var k := SpanFor(i);
      var s := spans[k];
      var st := files[s.path];
      OneFile(spans, count, files, complete, store.blobs, k);
      if st.spec.digest == "" {
        return false, false, false;
      }
      if st.failed.Some? {
        return true, false, true;
      }
      return true, st.pieces.Some? && st.pieces.value[i - s.begin], false;
    }

    /** close: unfinished parts are deleted; what is sealed stays in the store. */
    method Close()
      requires Valid()
      modifies this`files, this`closed
      ensures Valid() && closed && Settled(old(files), files)
      ensures forall p :: p in files ==> files[p] == old(files)[p].(part := None)
    {
      hide EndToEnd, DistinctPaths, L.CountTrue, SoundBlobs;
      files := map p | p in files :: files[p].(part := None);
      closed := true;
    }

    /** One look of WaitSealed: a failure of any file comes first, then the number of sealed files. */
    method LookSealed(n: nat) returns (failed: bool, ready: bool)
      ensures failed <==> exists p :: p in files && files[p].failed.Some?
      ensures ready <==> !failed && |set p | p in files && files[p].sealed| >= n
    {
      var done := 0;
      failed := false;
      var rest := files.Keys;
      ghost var sealed: set<Bytes> := {};
      while rest != {}
        invariant rest <= files.Keys && done == |sealed|
        invariant failed <==> exists p :: p in files && p !in rest && files[p].failed.Some?
        invariant forall p :: p in sealed <==> p in files && p !in rest && files[p].failed.None? && files[p].sealed
        decreases |rest|
      {
        var p :| p in rest;
        rest := rest - {p};
        if files[p].failed.Some? {
          failed := true;
        } else if files[p].sealed {
          done := done + 1;
          sealed := sealed + {p};
        }
      }
      if !failed {
        assert sealed == set p | p in files && files[p].sealed;
      }
      ready := !failed && done >= n;
    }
  }

  function PartOf(st: FileState): Bytes {
    if st.part.Some? then st.part.value else []
  }

  predicate Writable(st: FileState) {
    !st.sealed && st.spec.digest != "" && st.failed.None?
  }

  /**
   What MarkComplete makes of a file of n pieces.  Unpinned and failed files refuse; a sealed file has
   the piece recorded and nothing else; the last piece of an open file seals it exactly when its part
   hashes to the pin, and the blob is then the part's bytes unless two blobs collide.
   */
  ghost predicate Recorded(h: Hasher, n: nat, o: FileState, r: FileState, err: Option<Failure>, v: View) {
    if o.spec.digest == "" then err.Some? && r == o
    else if o.failed.Some? then err == o.failed && r == o
    else if o.sealed || r.numDone < n then err.None? && r == o.(pieces := r.pieces, numDone := r.numDone)
    else r.pieces.Some? && Finished(h, o.(pieces := r.pieces, numDone := n), r, err, v)
  }

  ghost predicate Finished(h: Hasher, o: FileState, r: FileState, err: Option<Failure>, v: View) {
    && r == o.(part := None, sealed := err.None?, failed := err)
    && (err.None? <==> o.part.Some? && Hex(h(o.part.value)) == o.spec.digest)
    && (err.None? ==> o.spec.digest in v.blobs && (v.clash || v.blobs[o.spec.digest] == o.part.value))
  }

  /** What a write of b at pos makes of a part. */
  ghost predicate Splices(o: Bytes, n: Bytes, pos: nat, b: Bytes) {
    if b == [] then n == o
    else
      && |n| == (if pos + |b| < |o| then |o| else pos + |b|)
      && forall q :: 0 <= q < |n| ==>
           n[q] == if pos <= q < pos + |b| then b[q - pos] else if q < |o| then o[q] else '\0'
  }

  /** The longest stretch of at most len bytes that the content has at pos. */
  ghost predicate Reads(content: Bytes, data: Bytes, pos: nat, len: nat) {
    && |data| <= len && (|data| < len ==> pos + |data| >= |content|) && (data != [] ==> pos + |data| <= |content|)
    && forall q :: 0 <= q < |data| ==> data[q] == content[pos + q]
  }

  lemma PatchSplices(part: Bytes, pos: nat, b: Bytes)
    ensures Splices(part, Patched(part, pos, b), pos, b)
  {
    hide S.Overlay;
  }

  /** os.File.WriteAt: writing nothing leaves the part as it is. */
  function Patched(part: Bytes, pos: nat, b: Bytes): Bytes {
    if b == [] then part else S.Overlay(part, pos, b)
  }

  /** The engine has now seen every piece of a file: recorded on a sealed one, or by sealing it. */
  predicate Confirmed(o: FileState, n: FileState, bit: int) {
    if o.sealed then
      o.pieces.Some? && 0 <= bit < |o.pieces.value| && !o.pieces.value[bit] && n.numDone == |o.pieces.value|
    else n.sealed
  }

  /* ---- Opening a torrent ---- */

  /** One file of the torrent's tree, in stream order. */
  datatype Entry = Entry(path: seq<Bytes>, length: nat, offset: nat)

  function Name(e: Entry): Bytes {
    Join(e.path)
  }

  /** The pieces of the first k files. */
  function PiecesBefore(entries: seq<Entry>, k: nat, pl: nat): nat
    requires pl > 0 && k <= |entries|
  {
    if k == 0 then 0 else PiecesBefore(entries, k - 1, pl) + Merkle.CeilDiv(entries[k - 1].length, pl)
  }

  /** Every file starts on a piece boundary, right after the last piece of the file before it. */
  ghost predicate Padded(entries: seq<Entry>, pl: nat)
    requires pl > 0
  {
    forall k :: 0 <= k < |entries| ==> entries[k].offset == S.Times(PiecesBefore(entries, k, pl), pl)
  }

  /** The spans of the non-empty files among the first k. */
  function SpansOf(entries: seq<Entry>, k: nat, pl: nat): seq<Span>
    requires pl > 0 && k <= |entries|
  {
    if k == 0 then []
    else if entries[k - 1].length == 0 then SpansOf(entries, k - 1, pl)
    else SpansOf(entries, k - 1, pl) + [SpanOf(entries, k - 1, pl)]
  }

  /** The first state of a file of n pieces: a single piece of a file in the store counts at once. */
  function FirstState(pin: Option<FileSpec>, length: nat, n: nat, blobs: map<string, Bytes>): FileState {
    if pin.None? then FileState(FileSpec("", length), false, None, None, 0, None)
    else
      var sealed := pin.value.digest in blobs;
      FileState(FileSpec(pin.value.digest, length), sealed, None, None, if sealed && n == 1 then 1 else 0,
                Some(seq(n, _ => sealed && n == 1)))
  }

  /** How a file of n pieces starts: sealed exactly when it is pinned to a digest that the store has. */
  ghost predicate StartsAs(st: FileState, pin: Option<FileSpec>, length: nat, n: nat, blobs: map<string, Bytes>) {
    && st.spec == FileSpec(if pin.Some? then pin.value.digest else "", length)
    && (st.sealed <==> pin.Some? && pin.value.digest in blobs) && st.failed.None? && st.part.None?
    && (st.pieces.Some? <==> pin.Some?)
    && (pin.Some? ==> |st.pieces.value| == n)
    && (pin.Some? ==> forall i :: 0 <= i < n ==> (st.pieces.value[i] <==> st.sealed && n == 1))
  }

  function Pin(pins: map<Bytes, FileSpec>, p: Bytes): Option<FileSpec> {
    if p in pins then Some(pins[p]) else None
  }

  function FirstStates(entries: seq<Entry>, k: nat, pl: nat, pins: map<Bytes, FileSpec>,
                       blobs: map<string, Bytes>): States
    requires pl > 0 && k <= |entries|
  {
    if k == 0 then map[]
    else
      var before, e := FirstStates(entries, k - 1, pl, pins, blobs), entries[k - 1];
      if e.length == 0 then before
      else before[Name(e) := FirstState(Pin(pins, Name(e)), e.length, Merkle.CeilDiv(e.length, pl), blobs)]
  }

  lemma FirstStateOk(pin: Option<FileSpec>, length: nat, n: nat, s: Span, blobs: map<string, Bytes>, complete: set<int>)
    requires pin.Some? ==> pin.value.digest != ""
    requires n > 0 && s.begin + n == s.end && forall i :: i in complete ==> i < s.begin
    ensures var st := FirstState(pin, length, n, blobs);
      FileOk(n, st, blobs) && Explained(s, st, if st.sealed && n == 1 then complete + {s.begin as int} else complete)
  {
    L.CountNone(n);
    L.CountTrueAll([true]);
    assert n == 1 ==> seq(n, _ => true) == [true];
  }

  /** A file appended after the pieces there are so far. */
  lemma Append(spans: seq<Span>, count: nat, states: States, complete: set<int>, blobs: map<string, Bytes>,
               s: Span, st: FileState, complete': set<int>)
    requires AllOk(spans, count, states, complete, blobs) && DistinctPaths(spans + [s])
    requires s.begin == count && s.begin < s.end && (complete' == complete || complete' == complete + {count as int})
    requires FileOk(s.end - s.begin, st, blobs) && Explained(s, st, complete')
    ensures AllOk(spans + [s], s.end, states[s.path := st], complete', blobs)
  {
    hide FileOk, Explained, EndToEnd, DistinctPaths;
    var all, after := spans + [s], states[s.path := st];
    EndToEndGrows(spans, count, s);
    forall j | 0 <= j < |all|
      ensures all[j].begin < all[j].end && all[j].path in after
      ensures FileOk(all[j].end - all[j].begin, after[all[j].path], blobs)
      ensures Explained(all[j], after[all[j].path], complete')
    {
      if j < |spans| {
        assert all[j] == spans[j];
        OneFile(spans, count, states, complete, blobs, j);
        NewPath(spans, s, j);
        ExplainedBelow(spans[j], states[spans[j].path], count, complete);
      } else {
        assert all[j] == s;
      }
    }
    forall p | p in after ensures exists j :: 0 <= j < |all| && all[j].path == p {
      assert all[|spans|].path == s.path;
      if p in states {
        var j :| 0 <= j < |spans| && spans[j].path == p;
        assert all[j].path == p;
      }
    }
  }

  lemma NewPath(spans: seq<Span>, s: Span, j: nat)
    requires DistinctPaths(spans + [s]) && j < |spans|
    ensures spans[j].path != s.path
  {
    assert (spans + [s])[j] == spans[j] && (spans + [s])[|spans|] == s;
  }

  lemma EndToEndGrows(spans: seq<Span>, count: nat, s: Span)
    requires EndToEnd(spans, count) && s.begin == count && s.begin < s.end
    ensures EndToEnd(spans + [s], s.end)
  {
    assert (spans + [s])[|spans|] == s;
    assert forall j :: 0 <= j < |spans| ==> (spans + [s])[j] == spans[j];
  }

  lemma ExplainedBelow(s: Span, st: FileState, count: nat, complete: set<int>)
    requires Explained(s, st, complete) && s.end <= count
    ensures Explained(s, st, complete + {count as int})
  {
  }

  lemma FewerDistinct(spans: seq<Span>, s: Span)
    requires DistinctPaths(spans + [s])
    ensures DistinctPaths(spans)
  {
    forall j, k | 0 <= j < |spans| && 0 <= k < |spans| && spans[j].path == spans[k].path ensures j == k {
      assert (spans + [s])[j].path == (spans + [s])[k].path;
    }
  }

  /** Where file k of a padded torrent starts, in pieces: the alignment guard never fires. */
  lemma Aligned(entries: seq<Entry>, k: nat, pl: nat)
    requires pl > 0 && k < |entries| && Padded(entries, pl)
    ensures entries[k].offset % pl == 0 && entries[k].offset / pl == PiecesBefore(entries, k, pl)
  {
    hide S.Times;
    ExactMultiple(PiecesBefore(entries, k, pl), pl);
  }

  lemma ExactMultiple(q: nat, d: nat)
    requires d > 0
    ensures S.Times(q, d) % d == 0 && S.Times(q, d) / d == q
  {
    Merkle.DivIs(q * d, d, q);
  }

  /** The state of the loop of newCASTorrent after k files. */
  ghost predicate Opened(entries: seq<Entry>, k: nat, pl: nat, pins: map<Bytes, FileSpec>, blobs: map<string, Bytes>,
                         spans: seq<Span>, states: States, complete: set<int>)
  {
    && pl > 0 && k <= |entries|
    && spans == SpansOf(entries, k, pl) && states == FirstStates(entries, k, pl, pins, blobs)
    && (forall i :: i in complete ==> i < PiecesBefore(entries, k, pl))
    && (DistinctPaths(spans) ==> AllOk(spans, PiecesBefore(entries, k, pl), states, complete, blobs))
  }

  lemma SomePiece(n: nat, d: nat)
    requires d > 0 && n > 0
    ensures Merkle.CeilDiv(n, d) > 0
  {
    Merkle.CeilDivBounds(n, d);
  }

  lemma OpenNext(entries: seq<Entry>, k: nat, pl: nat, pins: map<Bytes, FileSpec>, blobs: map<string, Bytes>,
                 spans: seq<Span>, states: States, complete: set<int>)
    requires k < |entries| && Opened(entries, k, pl, pins, blobs, spans, states, complete)
    requires forall p :: p in pins ==> pins[p].digest != ""
    requires entries[k].length > 0
    ensures var n, p := Merkle.CeilDiv(entries[k].length, pl), Name(entries[k]);
      var begin, st := PiecesBefore(entries, k, pl), FirstState(Pin(pins, p), entries[k].length, n, blobs);
      n > 0 &&
      Opened(entries, k + 1, pl, pins, blobs, spans + [Span(p, begin, begin + n)], states[p := st],
             if st.sealed && n == 1 then complete + {begin as int} else complete)
  {
    hide AllOk, DistinctPaths, FileOk, Explained, FirstState, S.Times, Merkle.CeilDiv;
    var n, p, begin := Merkle.CeilDiv(entries[k].length, pl), Name(entries[k]), PiecesBefore(entries, k, pl);
    var s, st := Span(p, begin, begin + n), FirstState(Pin(pins, p), entries[k].length, n, blobs);
    SomePiece(entries[k].length, pl);
    if DistinctPaths(spans + [s]) {
      FewerDistinct(spans, s);
      FirstStateOk(Pin(pins, p), entries[k].length, n, s, blobs, complete);
      var complete' := if st.sealed && n == 1 then complete + {begin as int} else complete;
      Append(spans, begin, states, complete, blobs, s, st, complete');
    }
  }

  /* ---- What a shared name breaks ---- */

  /** No two non-empty files have one joined path. */
  ghost predicate DistinctNames(entries: seq<Entry>) {
    forall j, k :: 0 <= j < k < |entries| && entries[j].length > 0 && entries[k].length > 0 ==>
      Name(entries[j]) != Name(entries[k])
  }

  /** No two non-empty files have one joined path that is pinned. */
  ghost predicate DistinctPinned(entries: seq<Entry>, pins: map<Bytes, FileSpec>) {
    forall j, k :: 0 <= j < k < |entries| && entries[j].length > 0 && entries[k].length > 0 ==>
      Name(entries[j]) in pins ==> Name(entries[j]) != Name(entries[k])
  }

  /** Piece i belongs to a file that is pinned. */
  ghost predicate Pinned(spans: seq<Span>, files: States, i: nat) {
    PathOf(spans, i) in files && files[PathOf(spans, i)].pieces.Some?
  }

  /** Every piece of a pinned file has a bit in a bitmap, and shares it with no other piece. */
  ghost predicate OwnBits(spans: seq<Span>, count: nat, files: States) {
    && (forall i: nat :: i < count && Pinned(spans, files, i) ==> BitOf(spans, files, i).Some?)
    && (forall i: nat, k: nat :: i < k < count && Pinned(spans, files, i) && PathOf(spans, i) == PathOf(spans, k) ==>
         Local(spans, i) != Local(spans, k))
  }

  function SpanOf(entries: seq<Entry>, k: nat, pl: nat): Span
    requires pl > 0 && k < |entries|
  {
    Span(Name(entries[k]), PiecesBefore(entries, k, pl), PiecesBefore(entries, k + 1, pl))
  }

  lemma {:induction false} SpanAt(entries: seq<Entry>, n: nat, pl: nat, k: nat) returns (j: nat)
    requires pl > 0 && k < n <= |entries| && entries[k].length > 0
    ensures j < |SpansOf(entries, n, pl)| && SpansOf(entries, n, pl)[j] == SpanOf(entries, k, pl)
  {
    hide PiecesBefore, Merkle.CeilDiv;
    if k == n - 1 {
      j := |SpansOf(entries, n - 1, pl)|;
    } else {
      j := SpanAt(entries, n - 1, pl, k);
    }
  }

  lemma {:induction false} EntryAt(entries: seq<Entry>, n: nat, pl: nat, j: nat) returns (k: nat)
    requires pl > 0 && n <= |entries| && j < |SpansOf(entries, n, pl)|
    ensures k < n && entries[k].length > 0 && SpansOf(entries, n, pl)[j] == SpanOf(entries, k, pl)
  {
    hide PiecesBefore, Merkle.CeilDiv;
    if entries[n - 1].length > 0 && j == |SpansOf(entries, n - 1, pl)| {
      k := n - 1;
    } else {
      k := EntryAt(entries, n - 1, pl, j);
    }
  }

  lemma NoPieces(pl: nat)
    requires pl > 0
    ensures Merkle.CeilDiv(0, pl) == 0
  {
    Merkle.DivIs(pl - 1, pl, 0);
  }

  lemma {:induction false} SpansFollow(entries: seq<Entry>, n: nat, pl: nat)
    requires pl > 0 && n <= |entries|
    ensures EndToEnd(SpansOf(entries, n, pl), PiecesBefore(entries, n, pl))
  {
    hide Merkle.CeilDiv;
    if n > 0 {
      SpansFollow(entries, n - 1, pl);
      if entries[n - 1].length == 0 {
        NoPieces(pl);
      } else {
        SomePiece(entries[n - 1].length, pl);
        EndToEndGrows(SpansOf(entries, n - 1, pl), PiecesBefore(entries, n - 1, pl), SpanOf(entries, n - 1, pl));
      }
    }
  }

  /** The state of a path is that of the last non-empty file that has it. */
  lemma {:induction false} StateAt(entries: seq<Entry>, n: nat, pl: nat, pins: map<Bytes, FileSpec>,
                                   blobs: map<string, Bytes>,
                                   p: Bytes) returns (k: nat)
    requires pl > 0 && n <= |entries| && exists i :: 0 <= i < n && entries[i].length > 0 && Name(entries[i]) == p
    ensures k < n && entries[k].length > 0 && Name(entries[k]) == p && p in FirstStates(entries, n, pl, pins, blobs)
    ensures FirstStates(entries, n, pl, pins, blobs)[p] ==
            FirstState(Pin(pins, p), entries[k].length, Merkle.CeilDiv(entries[k].length, pl), blobs)
  {
    hide FirstState, Merkle.CeilDiv, Name;
    if entries[n - 1].length > 0 && Name(entries[n - 1]) == p {
      k := n - 1;
    } else {
      k := StateAt(entries, n - 1, pl, pins, blobs, p);
    }
  }

  lemma {:induction false} StateFrom(entries: seq<Entry>, n: nat, pl: nat, pins: map<Bytes, FileSpec>,
                                     blobs: map<string, Bytes>,
                                     p: Bytes)
    requires pl > 0 && n <= |entries| && p in FirstStates(entries, n, pl, pins, blobs)
    ensures exists k :: 0 <= k < n && entries[k].length > 0 && Name(entries[k]) == p
  {
    hide FirstState, Merkle.CeilDiv, Name;
    if entries[n - 1].length == 0 || Name(entries[n - 1]) != p {
      StateFrom(entries, n - 1, pl, pins, blobs, p);
    }
  }

  /** Every non-empty file starts as it should. */
  ghost predicate AllStart(entries: seq<Entry>, pl: nat, pins: map<Bytes, FileSpec>, files: States,
                           blobs: map<string, Bytes>)
    requires pl > 0
  {
    forall k :: 0 <= k < |entries| && entries[k].length > 0 ==>
      Name(entries[k]) in files &&
      StartsAs(files[Name(entries[k])], Pin(pins, Name(entries[k])), entries[k].length,
               Merkle.CeilDiv(entries[k].length, pl), blobs)
  }

  lemma FirstStatesStart(entries: seq<Entry>, pl: nat, pins: map<Bytes, FileSpec>, blobs: map<string, Bytes>)
    requires pl > 0 && DistinctNames(entries)
    ensures AllStart(entries, pl, pins, FirstStates(entries, |entries|, pl, pins, blobs), blobs)
  {
    hide Name, FirstStates, Merkle.CeilDiv;
    forall k | 0 <= k < |entries| && entries[k].length > 0
      ensures Name(entries[k]) in FirstStates(entries, |entries|, pl, pins, blobs)
      ensures StartsAs(FirstStates(entries, |entries|, pl, pins, blobs)[Name(entries[k])], Pin(pins, Name(entries[k])),
                       entries[k].length, Merkle.CeilDiv(entries[k].length, pl), blobs)
    {
      var j := StateAt(entries, |entries|, pl, pins, blobs, Name(entries[k]));
      assert j == k;
    }
  }

  lemma NamesAndPaths(entries: seq<Entry>, pl: nat)
    requires pl > 0
    ensures DistinctPaths(SpansOf(entries, |entries|, pl)) <==> DistinctNames(entries)
  {
    hide SpansOf, PiecesBefore, Name;
    var n, spans := |entries|, SpansOf(entries, |entries|, pl);
    SpansFollow(entries, n, pl);
    if DistinctNames(entries) {
      forall a, b | 0 <= a < |spans| && 0 <= b < |spans| && spans[a].path == spans[b].path ensures a == b {
        SameEntrySameSpan(entries, pl, a, b);
      }
    }
    if DistinctPaths(spans) {
      forall j, k | 0 <= j < k < n && entries[j].length > 0 && entries[k].length > 0
        ensures Name(entries[j]) != Name(entries[k])
      {
        var a := SpanAt(entries, n, pl, j);
        var b := SpanAt(entries, n, pl, k);
        SpansApart(entries, pl, j, k);
      }
    }
  }

  lemma SpansApart(entries: seq<Entry>, pl: nat, j: nat, k: nat)
    requires pl > 0 && j < k < |entries| && entries[j].length > 0
    ensures PiecesBefore(entries, j, pl) < PiecesBefore(entries, j + 1, pl) <= PiecesBefore(entries, k, pl)
  {
    hide Merkle.CeilDiv;
    SomePiece(entries[j].length, pl);
    if j + 1 < k {
      SpansApart(entries, pl, j, k - 1);
    }
  }

  lemma SameEntrySameSpan(entries: seq<Entry>, pl: nat, a: nat, b: nat)
    requires pl > 0 && DistinctNames(entries)
    requires var spans := SpansOf(entries, |entries|, pl); a < |spans| && b < |spans| && spans[a].path == spans[b].path
    ensures a == b
  {
    hide SpansOf, PiecesBefore, Name;
    var n, spans := |entries|, SpansOf(entries, |entries|, pl);
    SpansFollow(entries, n, pl);
    var j := EntryAt(entries, n, pl, a);
    var k := EntryAt(entries, n, pl, b);
    assert j == k;
    if a < b {
      SpansDisjoint(spans, PiecesBefore(entries, n, pl), a, b);
    } else if b < a {
      SpansDisjoint(spans, PiecesBefore(entries, n, pl), b, a);
    }
  }

  /** Piece i, the span that owns it, and the file of that span. */
  lemma PieceAt(entries: seq<Entry>, pl: nat, i: nat) returns (k: nat)
    requires pl > 0 && i < PiecesBefore(entries, |entries|, pl)
    ensures k < |entries| && entries[k].length > 0
    ensures var spans := SpansOf(entries, |entries|, pl);
      PathOf(spans, i) == Name(entries[k]) && i == PiecesBefore(entries, k, pl) + Local(spans, i) &&
      Local(spans, i) < Merkle.CeilDiv(entries[k].length, pl)
  {
    hide SpansOf, Name, PathOf, Local, Pieces, Owner, Merkle.CeilDiv;
    var n, spans := |entries|, SpansOf(entries, |entries|, pl);
    SpansFollow(entries, n, pl);
    var j := Find(spans, PiecesBefore(entries, n, pl), i);
    OneOwner(spans, PiecesBefore(entries, n, pl), j, i);
    k := EntryAt(entries, n, pl, j);
    assert PiecesBefore(entries, k + 1, pl) == PiecesBefore(entries, k, pl) + Merkle.CeilDiv(entries[k].length, pl);
  }

  lemma Find(spans: seq<Span>, count: nat, i: nat) returns (j: nat)
    requires EndToEnd(spans, count) && i < count
    ensures Owns(spans, j, i)
  {
    j := 0;
    while !(i < spans[j].end)
      invariant j < |spans| && spans[j].begin <= i
      decreases |spans| - j
    {
      j := j + 1;
    }
  }

  /** The first piece of file k. */
  lemma FirstPiece(entries: seq<Entry>, pl: nat, k: nat)
    requires pl > 0 && k < |entries| && entries[k].length > 0
    ensures PiecesBefore(entries, k, pl) < PiecesBefore(entries, |entries|, pl)
    ensures var spans, i := SpansOf(entries, |entries|, pl), PiecesBefore(entries, k, pl);
      PathOf(spans, i) == Name(entries[k]) && Local(spans, i) == 0
  {
    hide SpansOf, Name, PathOf, Local, Pieces, Owner, Merkle.CeilDiv;
    var n, spans := |entries|, SpansOf(entries, |entries|, pl);
    SpansFollow(entries, n, pl);
    var j := SpanAt(entries, n, pl, k);
    SomePiece(entries[k].length, pl);
    Fits(spans, PiecesBefore(entries, n, pl), j);
    OneOwner(spans, PiecesBefore(entries, n, pl), j, PiecesBefore(entries, k, pl));
  }

  lemma FirstPins(entries: seq<Entry>, pl: nat, pins: map<Bytes, FileSpec>, blobs: map<string, Bytes>, i: nat)
    requires pl > 0 && i < PiecesBefore(entries, |entries|, pl)
    ensures var spans, files := SpansOf(entries, |entries|, pl), FirstStates(entries, |entries|, pl, pins, blobs);
      Pinned(spans, files, i) <==> PathOf(spans, i) in pins
  {
    hide SpansOf, FirstStates, PathOf, Merkle.CeilDiv, Name, PiecesBefore;
    var k := PieceAt(entries, pl, i);
    var m := StateAt(entries, |entries|, pl, pins, blobs, Name(entries[k]));
  }

  /** The pieces of pinned files have bits of their own exactly when no pinned path is shared. */
  lemma BitsAndNames(entries: seq<Entry>, pl: nat, pins: map<Bytes, FileSpec>, blobs: map<string, Bytes>)
    requires pl > 0
    ensures var spans, files := SpansOf(entries, |entries|, pl), FirstStates(entries, |entries|, pl, pins, blobs);
      OwnBits(spans, PiecesBefore(entries, |entries|, pl), files) <==> DistinctPinned(entries, pins)
  {
    hide SpansOf, FirstStates, PathOf, Local, Merkle.CeilDiv, Name, PiecesBefore, Pinned, FirstState, BitOf;
    var n := |entries|;
    var spans, count := SpansOf(entries, n, pl), PiecesBefore(entries, n, pl);
    var files := FirstStates(entries, n, pl, pins, blobs);
    if DistinctPinned(entries, pins) {
      forall i: nat | i < count && Pinned(spans, files, i) ensures BitOf(spans, files, i).Some? {
        PinnedBit(entries, pl, pins, blobs, i);
      }
      forall i: nat, k: nat | i < k < count && Pinned(spans, files, i) && PathOf(spans, i) == PathOf(spans, k)
        ensures Local(spans, i) != Local(spans, k)
      {
        FirstPins(entries, pl, pins, blobs, i);
        var a := PieceAt(entries, pl, i);
        var b := PieceAt(entries, pl, k);
        assert a == b;
      }
    }
    if OwnBits(spans, count, files) {
      forall j, k | 0 <= j < k < n && entries[j].length > 0 && entries[k].length > 0 && Name(entries[j]) in pins
        ensures Name(entries[j]) != Name(entries[k])
      {
        FirstPiece(entries, pl, j);
        FirstPiece(entries, pl, k);
        SpansApart(entries, pl, j, k);
        FirstPins(entries, pl, pins, blobs, PiecesBefore(entries, j, pl));
      }
    }
  }

  lemma PinnedBit(entries: seq<Entry>, pl: nat, pins: map<Bytes, FileSpec>, blobs: map<string, Bytes>, i: nat)
    requires pl > 0 && i < PiecesBefore(entries, |entries|, pl) && DistinctPinned(entries, pins)
    requires Pinned(SpansOf(entries, |entries|, pl), FirstStates(entries, |entries|, pl, pins, blobs), i)
    ensures BitOf(SpansOf(entries, |entries|, pl), FirstStates(entries, |entries|, pl, pins, blobs), i).Some?
  {
    hide SpansOf, FirstStates, PathOf, Local, Merkle.CeilDiv, Name, PiecesBefore;
    FirstPins(entries, pl, pins, blobs, i);
    var k := PieceAt(entries, pl, i);
    var m := StateAt(entries, |entries|, pl, pins, blobs, Name(entries[k]));
    assert k == m;
  }

  lemma OpenEnds(entries: seq<Entry>, pl: nat, pins: map<Bytes, FileSpec>, blobs: map<string, Bytes>,
                 spans: seq<Span>, states: States, complete: set<int>)
    requires Opened(entries, |entries|, pl, pins, blobs, spans, states, complete)
    ensures spans == SpansOf(entries, |entries|, pl) && states == FirstStates(entries, |entries|, pl, pins, blobs)
    ensures forall i :: i in complete ==> i < PiecesBefore(entries, |entries|, pl)
    ensures DistinctPaths(spans) <==> AllOk(spans, PiecesBefore(entries, |entries|, pl), states, complete, blobs)
  {
    hide FileOk, Explained;
  }

  /**
   newCASTorrent.  It refuses exactly when some path is not canonical; of a padded torrent it never
   panics; what it opens is in order exactly when no two non-empty files share a joined path, and every
   pinned piece then has a bit of its own exactly when none of the shared paths is pinned.  Every
   registered digest is 64 characters long.
   */
  method Open(store: Store, pl: nat, entries: seq<Entry>, pins: map<Bytes, FileSpec>) returns (d: CasTorrent?)
    requires store.Sound() && pl > 0 && Padded(entries, pl)
    requires forall p :: p in pins ==> |pins[p].digest| == 64
    ensures d == null <==> exists k :: 0 <= k < |entries| && !O.CanonicalPath(entries[k].path)
    ensures d != null ==> fresh(d) && d.store == store && d.pl == pl && !d.closed
    ensures d != null ==> d.spans == SpansOf(entries, |entries|, pl) && d.count == PiecesBefore(entries, |entries|, pl)
    ensures d != null ==> d.files == FirstStates(entries, |entries|, pl, pins, store.blobs)
    ensures d != null && DistinctNames(entries) ==> AllStart(entries, pl, pins, d.files, store.blobs)
    ensures d != null ==> forall i :: i in d.complete ==> i < d.count
    ensures d != null ==> (d.Valid() <==> DistinctNames(entries))
    ensures d != null ==> (OwnBits(d.spans, d.count, d.files) <==> DistinctPinned(entries, pins))
  {
    hide AllOk, DistinctPaths, Opened, SoundBlobs, Padded, O.CanonicalPath, DistinctNames, DistinctPinned, OwnBits,
      SpansOf, FirstStates, FirstState, AllStart;
    var spans: seq<Span>, files: States, count := [], map[], 0;
    ghost var complete: set<int> := {};
    assert Opened(entries, 0, pl, pins, store.blobs, spans, files, complete) by {
      OpenStarts(entries, pl, pins, store.blobs);
    }
    for k := 0 to |entries|
      invariant Opened(entries, k, pl, pins, store.blobs, spans, files, complete)
      invariant count == PiecesBefore(entries, k, pl)
      invariant forall i :: 0 <= i < k ==> O.CanonicalPath(entries[i].path)
    {
      var fi := entries[k];
      var canonical := O.CheckPath(fi.path);
      if !canonical {
        return null;
      }
      var path := Name(fi);
      if fi.length == 0 {
        OpenSkips(entries, k, pl, pins, store.blobs, spans, files, complete);
        continue;
      }
      Aligned(entries, k, pl);
      if fi.offset % pl != 0 {
        assert false;
      }
      OpenNext(entries, k, pl, pins, store.blobs, spans, files, complete);
      var begin := fi.offset / pl;
      var n := (fi.length + pl - 1) / pl;
      spans := spans + [Span(path, begin, begin + n)];
      var st := FirstState(Pin(pins, path), fi.length, n, store.blobs);
      complete := if st.sealed && n == 1 then complete + {begin as int} else complete;
      files := files[path := st];
      count := begin + n;
    }
    OpenEnds(entries, pl, pins, store.blobs, spans, files, complete);
    NamesAndPaths(entries, pl);
    BitsAndNames(entries, pl, pins, store.blobs);
    if DistinctNames(entries) {
      FirstStatesStart(entries, pl, pins, store.blobs);
    }
    d := new CasTorrent(store, pl, spans, count, files, complete);
  }

  lemma OpenStarts(entries: seq<Entry>, pl: nat, pins: map<Bytes, FileSpec>, blobs: map<string, Bytes>)
    requires pl > 0
    ensures Opened(entries, 0, pl, pins, blobs, [], map[], {})
  {
  }

  lemma OpenSkips(entries: seq<Entry>, k: nat, pl: nat, pins: map<Bytes, FileSpec>, blobs: map<string, Bytes>,
                  spans: seq<Span>, states: States, complete: set<int>)
    requires k < |entries| && Opened(entries, k, pl, pins, blobs, spans, states, complete) && entries[k].length == 0
    ensures Opened(entries, k + 1, pl, pins, blobs, spans, states, complete)
  {
    hide AllOk, DistinctPaths;
    Merkle.DivIs(pl - 1, pl, 0);
  }

  /* ---- Two paths that join alike ---- */

  function JoinAlike(n: nat): seq<Entry> {
    [Entry(["a/b"], 2, 0), Entry(["a", "b"], n, 2)]
  }

  lemma JoinedAlike(n: nat)
    requires n > 0
    ensures forall e :: e in JoinAlike(n) ==> O.CanonicalPath(e.path) && Name(e) == "a/b"
    ensures Padded(JoinAlike(n), 1) && PiecesBefore(JoinAlike(n), 1, 1) == 2
    ensures PiecesBefore(JoinAlike(n), 2, 1) == 2 + n
    ensures SpansOf(JoinAlike(n), 2, 1) == [Span("a/b", 0, 2), Span("a/b", 2, 2 + n)]
  {
    assert ["a", "b"][1..] == ["b"];
    assert Join(["a", "b"]) == "a" + ['/'] + "b" == "a/b";
    Merkle.CeilDivIs(2, 1, 2);
    Merkle.CeilDivIs(n, 1, n);
    assert PiecesBefore(JoinAlike(n), 0, 1) == 0;
    assert SpansOf(JoinAlike(n), 0, 1) == [];
    assert SpansOf(JoinAlike(n), 1, 1) == [Span("a/b", 0, 2)];
  }

  lemma SharedBits(n: nat, files: States)
    requires n > 0
    ensures var spans := [Span("a/b", 0, 2), Span("a/b", 2, 2 + n)];
      && BitOf(spans, files, 0) == BitOf(spans, files, 2) && PathOf(spans, 0) == PathOf(spans, 2)
      && PathOf(spans, 1) == "a/b" && Local(spans, 1) == 1
  {
    hide PathOf, Local, Owner, Pieces;
    var spans := [Span("a/b", 0, 2), Span("a/b", 2, 2 + n)];
    OneOwner(spans, 2 + n, 0, 0);
    OneOwner(spans, 2 + n, 0, 1);
    OneOwner(spans, 2 + n, 1, 2);
  }

  /**
   A tree with the files "a/b" and b in the directory a is opened; one bitmap of n bits serves both.
   The first pieces of the two files share a bit, so that marking one marks the other, and when n is 1
   the second piece of the first file has none: the index that MarkComplete uses is out of range.
   */
  method OpenJoined(store: Store, digest: string, n: nat) returns (d: CasTorrent?)
    requires store.Sound() && |digest| == 64 && n > 0
    ensures d != null && d.count == 2 + n
    ensures forall files :: Reports(d.spans, files, 0) <==> Reports(d.spans, files, 2)
    ensures Pinned(d.spans, d.files, 1) && (BitOf(d.spans, d.files, 1).None? <==> n == 1)
  {
    hide Padded, O.CanonicalPath, PiecesBefore, SpansOf, FirstStates, PathOf, Local, Owner, Pieces;
    JoinedAlike(n);
    var pins := map["a/b" := FileSpec(digest, 2)];
    d := Open(store, 1, JoinAlike(n), pins);
    forall files: States ensures Reports(d.spans, files, 0) <==> Reports(d.spans, files, 2) {
      SharedBits(n, files);
    }
    SharedBits(n, d.files);
    LastWins(n, pins, store.blobs);
  }

  lemma LastWins(n: nat, pins: map<Bytes, FileSpec>, blobs: map<string, Bytes>)
    requires n > 0 && "a/b" in pins
    ensures var files := FirstStates(JoinAlike(n), 2, 1, pins, blobs);
      "a/b" in files && files["a/b"].pieces.Some? && |files["a/b"].pieces.value| == n
  {
    hide Name;
    JoinedAlike(n);
    Merkle.CeilDivIs(n, 1, n);
    assert JoinAlike(n)[1] in JoinAlike(n);
  }

  /* ---- Whole runs ---- */

  /** A call of the engine, or a Put of some other writer of the same store in between. */
  datatype Call =
    | Write(i: nat, b: Bytes, off: nat)
    | Read(i: nat, len: nat, off: nat)
    | Complete(i: nat)
    | Retract(i: nat)
    | Ask(i: nat)
    | OtherPut(digest: string, bytes: Bytes)

  lemma SettledTrans(a: States, b: States, c: States)
    requires Settled(a, b) && Settled(b, c)
    ensures Settled(a, c)
  {
  }

  lemma StoreGrowth(spans: seq<Span>, count: nat, states: States, complete: set<int>, v: View, w: View)
    requires AllOk(spans, count, states, complete, v.blobs) && Later(v, w)
    ensures AllOk(spans, count, states, complete, w.blobs)
  {
    hide FileOk, Explained, EndToEnd, DistinctPaths, Later;
    forall j | 0 <= j < |spans|
      ensures spans[j].begin <= spans[j].end && FileOk(spans[j].end - spans[j].begin, states[spans[j].path], w.blobs)
    {
      SpanProper(spans, count, j);
      FileOkLater(spans[j].end - spans[j].begin, states[spans[j].path], v, w);
    }
  }

  /** What has been written is read back, in full. */
  method WriteThenRead(d: CasTorrent, i: nat, b: Bytes, off: nat) returns (refused: bool, data: Bytes, err: bool)
    requires d.Valid() && !d.closed && i < d.count && b != []
    modifies d`files
    ensures PathOf(d.spans, i) in old(d.files) && (refused <==> !Writable(old(d.files)[PathOf(d.spans, i)]))
    ensures !refused ==> data == b && !err
  {
    hide AllOk, Settled, PathOf, Local, SoundBlobs;
    refused := d.WriteAt(i, b, off);
    data, err := d.ReadAt(i, |b|, off);
    if !refused {
      assert |data| == |b| && forall q :: 0 <= q < |b| ==> data[q] == b[q];
    }
  }

  /* ---- Honest content ---- */

  /** The call writes position q of the file at p. */
  ghost predicate Writes(spans: seq<Span>, pl: nat, call: Call, p: Bytes, q: int) {
    call.Write? && PathOf(spans, call.i) == p &&
    var pos := Local(spans, call.i) * pl + call.off; pos <= q < pos + |call.b|
  }

  /** Some of the first n calls writes position q of the file at p. */
  ghost predicate Covered(spans: seq<Span>, pl: nat, calls: seq<Call>, n: nat, p: Bytes, q: int) {
    exists k :: 0 <= k < n && k < |calls| && Writes(spans, pl, calls[k], p, q)
  }

  /** Position q belongs to the piece at the given place of its file. */
  predicate InPiece(pl: nat, local: nat, q: int) {
    local * pl <= q < (local + 1) * pl
  }

  /** All of piece i of a file with this content has been written. */
  ghost predicate PieceCovered(spans: seq<Span>, pl: nat, calls: seq<Call>, n: nat, i: nat, content: Bytes) {
    forall q :: 0 <= q < |content| && InPiece(pl, Local(spans, i), q) ==>
      Covered(spans, pl, calls, n, PathOf(spans, i), q)
  }

  /** Call n writes nothing to the file but the content's own bytes, and marks only pieces that are written. */
  ghost predicate HonestCall(spans: seq<Span>, pl: nat, calls: seq<Call>, n: nat, p: Bytes, content: Bytes)
    requires n < |calls|
  {
    match calls[n]
    case Write(i, b, off) =>
      PathOf(spans, i) == p && b != [] ==>
        var pos := Local(spans, i) * pl + off; pos + |b| <= |content| && b == content[pos..pos + |b|]
    case Complete(i) => PathOf(spans, i) == p ==> PieceCovered(spans, pl, calls, n, i, content)
    case _ => true
  }

  ghost predicate Honest(spans: seq<Span>, pl: nat, calls: seq<Call>, contents: map<Bytes, Bytes>) {
    forall p, n :: p in contents && 0 <= n < |calls| ==> HonestCall(spans, pl, calls, n, p, contents[p])
  }

  /** A file that is pinned to this content, as long as its pieces say, and has not failed. */
  ghost predicate PinnedTo(h: Hasher, spans: seq<Span>, pl: nat, st: FileState, p: Bytes, content: Bytes) {
    && pl > 0 && st.spec.digest == Hex(h(content)) && st.failed.None?
    && forall j :: 0 <= j < |spans| && spans[j].path == p ==>
         Merkle.CeilDiv(|content|, pl) == spans[j].end - spans[j].begin
  }

  predicate SameAt(part: Bytes, content: Bytes, q: int) {
    0 <= q < |part| && q < |content| && part[q] == content[q]
  }

  /** The part is no longer than the content, and has its bytes wherever it was written. */
  ghost predicate Follows(spans: seq<Span>, pl: nat, calls: seq<Call>, n: nat, p: Bytes, part: Bytes, content: Bytes) {
    |part| <= |content| &&
    forall q :: 0 <= q < |content| && Covered(spans, pl, calls, n, p, q) ==> SameAt(part, content, q)
  }

  ghost predicate MarksFollow(spans: seq<Span>, pl: nat, calls: seq<Call>, n: nat, p: Bytes, complete: set<int>,
                              content: Bytes)
  {
    forall i: nat :: i in complete && PathOf(spans, i) == p ==> PieceCovered(spans, pl, calls, n, i, content)
  }

  /** What an unsealed file has of its content after n honest calls. */
  ghost predicate Agrees(spans: seq<Span>, pl: nat, calls: seq<Call>, n: nat, st: FileState, complete: set<int>,
                         p: Bytes,
                         content: Bytes)
  {
    st.sealed ||
    (Follows(spans, pl, calls, n, p, PartOf(st), content) && MarksFollow(spans, pl, calls, n, p, complete, content))
  }

  ghost predicate AllAgree(h: Hasher, spans: seq<Span>, pl: nat, calls: seq<Call>, n: nat, files: States,
                           complete: set<int>, contents: map<Bytes, Bytes>)
  {
    forall p :: p in contents ==>
      p in files && PinnedTo(h, spans, pl, files[p], p, contents[p]) &&
      Agrees(spans, pl, calls, n, files[p], complete, p, contents[p])
  }

  /** A file of which nothing has been written or marked, or which is in the store already. */
  ghost predicate Untouched(spans: seq<Span>, st: FileState, complete: set<int>, p: Bytes) {
    st.sealed || (st.part.None? && forall i: nat :: i in complete ==> PathOf(spans, i) != p)
  }

  /** The pieces that the calls mark, unless they retract them later. */
  function Marks(complete: set<int>, calls: seq<Call>): set<int> {
    if calls == [] then complete
    else
      var before := Marks(complete, calls[..|calls| - 1]);
      match calls[|calls| - 1]
      case Complete(i) => before + {i}
      case Retract(i) => before - {i}
      case _ => before
  }

  lemma {:induction false} MarksMore(complete: set<int>, calls: seq<Call>)
    ensures Marks({}, calls) <= Marks(complete, calls)
  {
    if calls != [] {
      MarksMore(complete, calls[..|calls| - 1]);
    }
  }

  lemma MarksNext(complete: set<int>, calls: seq<Call>, n: nat)
    requires n < |calls|
    ensures Marks(complete, calls[..n + 1]) ==
      match calls[n]
      case Complete(i) => Marks(complete, calls[..n]) + {i}
      case Retract(i) => Marks(complete, calls[..n]) - {i}
      case _ => Marks(complete, calls[..n])
  {
    assert calls[..n + 1][..n] == calls[..n];
  }

  lemma CoveredNext(spans: seq<Span>, pl: nat, calls: seq<Call>, n: nat, p: Bytes)
    requires n < |calls|
    ensures forall q :: Covered(spans, pl, calls, n + 1, p, q) <==>
      Covered(spans, pl, calls, n, p, q) || Writes(spans, pl, calls[n], p, q)
  {
    hide Writes;
  }

  lemma PieceStays(spans: seq<Span>, pl: nat, calls: seq<Call>, n: nat, i: nat, content: Bytes)
    requires n < |calls| && PieceCovered(spans, pl, calls, n, i, content)
    ensures PieceCovered(spans, pl, calls, n + 1, i, content)
  {
    hide Writes, Covered, InPiece;
    CoveredNext(spans, pl, calls, n, PathOf(spans, i));
  }

  /** A call that does not write to the file, nor mark it, leaves it in agreement. */
  lemma StillAgrees(spans: seq<Span>, pl: nat, calls: seq<Call>, n: nat, st: FileState, st': FileState,
                    complete: set<int>,
                    complete': set<int>, p: Bytes, content: Bytes)
    requires n < |calls| && Agrees(spans, pl, calls, n, st, complete, p, content)
    requires st'.sealed == st.sealed && st'.part == st.part
    requires forall q :: !Writes(spans, pl, calls[n], p, q)
    requires forall i: nat :: i in complete' && PathOf(spans, i) == p ==>
      i in complete || PieceCovered(spans, pl, calls, n, i, content)
    ensures Agrees(spans, pl, calls, n + 1, st', complete', p, content)
  {
    hide Writes, Covered, PieceCovered, SameAt;
    CoveredNext(spans, pl, calls, n, p);
    if !st.sealed {
      forall i: nat | i in complete' && PathOf(spans, i) == p
        ensures PieceCovered(spans, pl, calls, n + 1, i, content)
      {
        PieceStays(spans, pl, calls, n, i, content);
      }
    }
  }

  lemma WriteAgrees(spans: seq<Span>, pl: nat, calls: seq<Call>, n: nat, st: FileState, st': FileState,
                    complete: set<int>, p: Bytes, content: Bytes)
    requires n < |calls| && calls[n].Write? && PathOf(spans, calls[n].i) == p
    requires HonestCall(spans, pl, calls, n, p, content)
    requires Agrees(spans, pl, calls, n, st, complete, p, content) && !st.sealed && st' == st.(part := st'.part)
    requires Splices(PartOf(st), PartOf(st'), Local(spans, calls[n].i) * pl + calls[n].off, calls[n].b)
    ensures Agrees(spans, pl, calls, n + 1, st', complete, p, content)
  {
    hide Covered, PieceCovered, PathOf, Local;
    CoveredNext(spans, pl, calls, n, p);
    forall i: nat | i in complete && PathOf(spans, i) == p ensures PieceCovered(spans, pl, calls, n + 1, i, content) {
      PieceStays(spans, pl, calls, n, i, content);
    }
    forall q | 0 <= q < |content| && Covered(spans, pl, calls, n + 1, p, q) ensures SameAt(PartOf(st'), content, q) {
      assert SameAt(PartOf(st), content, q) || Writes(spans, pl, calls[n], p, q);
    }
  }

  /** A file all of whose pieces are complete holds its content. */
  lemma AllWritten(spans: seq<Span>, count: nat, pl: nat, calls: seq<Call>, n: nat, part: Bytes, j: nat, content: Bytes)
    requires EndToEnd(spans, count) && j < |spans| && pl > 0
    requires Merkle.CeilDiv(|content|, pl) == spans[j].end - spans[j].begin
    requires Follows(spans, pl, calls, n, spans[j].path, part, content)
    requires forall i: nat :: spans[j].begin <= i < spans[j].end ==> PieceCovered(spans, pl, calls, n, i, content)
    ensures part == content && content != []
  {
    hide Covered, EndToEnd, PathOf, Local, Owner, Pieces;
    forall q | 0 <= q < |content| ensures SameAt(part, content, q) {
      var i := spans[j].begin + q / pl;
      PieceOf(|content|, pl, q);
      OneOwner(spans, count, j, i);
      assert PieceCovered(spans, pl, calls, n, i, content);
    }
    SpanProper(spans, count, j);
    NoPieces(pl);
    assert SameAt(part, content, |content| - 1);
    assert forall q :: 0 <= q < |content| ==> SameAt(part, content, q) && part[q] == content[q];
  }

  lemma PieceOf(length: nat, pl: nat, q: nat)
    requires pl > 0 && q < length
    ensures InPiece(pl, q / pl, q) && q / pl < Merkle.CeilDiv(length, pl)
  {
    var k := q / pl;
    assert q == k * pl + q % pl;
    Merkle.CeilDivBounds(length, pl);
    Merkle.MulMono(Merkle.CeilDiv(length, pl), k, pl);
  }

  /** Marking a written piece of an honest file never fails it: with the last piece the part is the content. */
  lemma MarkAgrees(h: Hasher, spans: seq<Span>, count: nat, pl: nat, calls: seq<Call>, n: nat, i: nat, j: nat,
                   o: FileState, r: FileState, err: Option<Failure>, complete: set<int>, v: View, p: Bytes,
                   content: Bytes)
    requires EndToEnd(spans, count) && Owns(spans, j, i) && spans[j].path == p && n < |calls| && calls[n] == Complete(i)
    requires HonestCall(spans, pl, calls, n, p, content) && PinnedTo(h, spans, pl, o, p, content)
    requires Agrees(spans, pl, calls, n, o, complete, p, content)
    requires Recorded(h, spans[j].end - spans[j].begin, o, r, err, v)
    requires FileOk(spans[j].end - spans[j].begin, r, v.blobs) && Explained(spans[j], r, complete + {i})
    ensures PinnedTo(h, spans, pl, r, p, content) && Agrees(spans, pl, calls, n + 1, r, complete + {i}, p, content)
  {
    hide Covered, EndToEnd, Local, Owner, Pieces, PathOf, PieceCovered, Merkle.CeilDiv, Hex;
    OneOwner(spans, count, j, i);
    NoWrite(spans, pl, calls[n], p);
    var m := spans[j].end - spans[j].begin;
    if o.sealed || r.numDone < m {
      StillAgrees(spans, pl, calls, n, o, r, complete, complete + {i}, p, content);
    } else {
      L.CountTrueAll(r.pieces.value);
      forall k: nat | spans[j].begin <= k < spans[j].end ensures PieceCovered(spans, pl, calls, n, k, content) {
        assert r.pieces.value[k - spans[j].begin] && k in complete + {i};
        OneOwner(spans, count, j, k);
        assert k != i ==> k in complete;
      }
      AllWritten(spans, count, pl, calls, n, PartOf(o), j, content);
    }
  }

  lemma NoWrite(spans: seq<Span>, pl: nat, call: Call, p: Bytes)
    requires !call.Write? || PathOf(spans, call.i) != p || call.b == []
    ensures forall q :: !Writes(spans, pl, call, p, q)
  {
  }

  lemma StartAgrees(h: Hasher, spans: seq<Span>, pl: nat, calls: seq<Call>, files: States, complete: set<int>,
                    contents: map<Bytes, Bytes>)
    requires forall p :: p in contents ==>
      p in files && PinnedTo(h, spans, pl, files[p], p, contents[p]) && Untouched(spans, files[p], complete, p)
    ensures AllAgree(h, spans, pl, calls, 0, files, complete, contents)
  {
    hide PinnedTo, PieceCovered, PathOf;
  }

  /** A call that changes no file's part, and leaves the complete pieces alone. */
  lemma QuietKeeps(h: Hasher, spans: seq<Span>, pl: nat, calls: seq<Call>, n: nat, files: States, files': States,
                   complete: set<int>, complete': set<int>, contents: map<Bytes, Bytes>)
    requires n < |calls| && !calls[n].Write? && AllAgree(h, spans, pl, calls, n, files, complete, contents)
    requires files'.Keys == files.Keys && complete' <= complete
    requires forall p :: p in files ==> files'[p] == files[p].(pieces := files'[p].pieces, numDone := files'[p].numDone)
    ensures AllAgree(h, spans, pl, calls, n + 1, files', complete', contents)
  {
    hide PathOf, PieceCovered, Covered, Agrees, Writes;
    forall p | p in contents
      ensures PinnedTo(h, spans, pl, files'[p], p, contents[p])
      ensures Agrees(spans, pl, calls, n + 1, files'[p], complete', p, contents[p])
    {
      NoWrite(spans, pl, calls[n], p);
      AgreesParts(spans, pl, calls, n, files[p], complete, p, contents[p]);
      StillAgrees(spans, pl, calls, n, files[p], files'[p], complete, complete', p, contents[p]);
    }
  }

  lemma AgreesParts(spans: seq<Span>, pl: nat, calls: seq<Call>, n: nat, st: FileState, complete: set<int>, p: Bytes,
                    content: Bytes)
    requires Agrees(spans, pl, calls, n, st, complete, p, content)
    ensures !st.sealed ==> MarksFollow(spans, pl, calls, n, p, complete, content)
  {
  }

  lemma WriteKeeps(h: Hasher, spans: seq<Span>, pl: nat, calls: seq<Call>, n: nat, files: States, files': States,
                   complete: set<int>, contents: map<Bytes, Bytes>)
    requires n < |calls| && calls[n].Write? && Honest(spans, pl, calls, contents)
    requires AllAgree(h, spans, pl, calls, n, files, complete, contents)
    requires PathOf(spans, calls[n].i) in files && PathOf(spans, calls[n].i) in files'
    requires var p := PathOf(spans, calls[n].i);
      if !Writable(files[p]) then files' == files
      else files' == files[p := files[p].(part := files'[p].part)] && files'[p].part.Some? &&
           Splices(PartOf(files[p]), PartOf(files'[p]), Local(spans, calls[n].i) * pl + calls[n].off, calls[n].b)
    ensures AllAgree(h, spans, pl, calls, n + 1, files', complete, contents)
  {
    hide PathOf, Local, PieceCovered, Covered, Agrees, Writes, Splices, HonestCall, Hex;
    forall p | p in contents
      ensures p in files' && PinnedTo(h, spans, pl, files'[p], p, contents[p])
      ensures Agrees(spans, pl, calls, n + 1, files'[p], complete, p, contents[p])
    {
      if files[p].sealed {
        SealedAgrees(spans, pl, calls, n + 1, files'[p], complete, p, contents[p]);
      } else if p == PathOf(spans, calls[n].i) {
        WriteAgrees(spans, pl, calls, n, files[p], files'[p], complete, p, contents[p]);
      } else {
        NoWrite(spans, pl, calls[n], p);
        StillAgrees(spans, pl, calls, n, files[p], files'[p], complete, complete, p, contents[p]);
      }
    }
  }

  lemma SealedAgrees(spans: seq<Span>, pl: nat, calls: seq<Call>, n: nat, st: FileState, complete: set<int>, p: Bytes,
                     content: Bytes)
    requires st.sealed
    ensures Agrees(spans, pl, calls, n, st, complete, p, content)
  {
  }

  lemma MarkKeeps(h: Hasher, spans: seq<Span>, count: nat, pl: nat, calls: seq<Call>, n: nat, i: nat, files: States,
                  files': States, err: Option<Failure>, complete: set<int>, complete': set<int>,
                  contents: map<Bytes, Bytes>, v: View)
    requires n < |calls| && calls[n] == Complete(i) && i < count && Honest(spans, pl, calls, contents)
    requires AllAgree(h, spans, pl, calls, n, files, complete, contents)
    requires AllOk(spans, count, files', complete', v.blobs)
    requires PathOf(spans, i) in files && PathOf(spans, i) in files'
    requires var p := PathOf(spans, i);
      && files' == files[p := files'[p]] && Recorded(h, Pieces(spans, i), files[p], files'[p], err, v)
      && complete' == (if files[p].spec.digest != "" && files[p].failed.None? then complete + {i} else complete)
    ensures AllAgree(h, spans, pl, calls, n + 1, files', complete', contents)
    ensures PathOf(spans, i) in contents ==> complete' == complete + {i}
  {
    hide PathOf, Local, Pieces, Owner, PieceCovered, Covered, Agrees, Writes, HonestCall, Hex, FileOk, Explained,
      Recorded,
      EndToEnd, DistinctPaths;
    assert EndToEnd(spans, count);
    var j := Find(spans, count, i);
    OneOwner(spans, count, j, i);
    forall p | p in contents
      ensures p in files' && PinnedTo(h, spans, pl, files'[p], p, contents[p])
      ensures Agrees(spans, pl, calls, n + 1, files'[p], complete', p, contents[p])
    {
      if p == PathOf(spans, i) {
        OneFile(spans, count, files', complete', v.blobs, j);
        MarkAgrees(h, spans, count, pl, calls, n, i, j, files[p], files'[p], err, complete, v, p, contents[p]);
      } else {
        NoWrite(spans, pl, calls[n], p);
        AgreesParts(spans, pl, calls, n, files[p], complete, p, contents[p]);
        StillAgrees(spans, pl, calls, n, files[p], files'[p], complete, complete', p, contents[p]);
      }
    }
  }

  /** Of these files the complete pieces are the marked ones. */
  ghost predicate SameMarks(spans: seq<Span>, complete: set<int>, marks: set<int>, contents: map<Bytes, Bytes>) {
    forall i: nat :: PathOf(spans, i) in contents ==> (i in complete <==> i in marks)
  }

  ghost predicate AllMarked(spans: seq<Span>, count: nat, marks: set<int>, p: Bytes) {
    forall i: nat :: i < count && PathOf(spans, i) == p ==> i in marks
  }

  /** The content is in the store under its digest, unless the blob there collides with it. */
  ghost predicate Holds(h: Hasher, blobs: map<string, Bytes>, content: Bytes) {
    var d := Hex(h(content));
    d in blobs && (blobs[d] == content || Collides(h, content, blobs[d]))
  }

  /** A file with every piece marked is sealed, or has failed. */
  lemma MarkedSeals(h: Hasher, spans: seq<Span>, count: nat, pl: nat, files: States, complete: set<int>,
                    marks: set<int>,
                    blobs: map<string, Bytes>, contents: map<Bytes, Bytes>, p: Bytes)
    requires AllOk(spans, count, files, complete, blobs) && SoundBlobs(h, blobs)
    requires p in contents && p in files && PinnedTo(h, spans, pl, files[p], p, contents[p])
    requires SameMarks(spans, complete, marks, contents) && AllMarked(spans, count, marks, p)
    ensures files[p].sealed && Holds(h, blobs, contents[p])
  {
    hide PathOf, Local, Pieces, Owner, EndToEnd, DistinctPaths, Hex;
    var j :| 0 <= j < |spans| && spans[j].path == p;
    OneFile(spans, count, files, complete, blobs, j);
    var st := files[p];
    forall i: nat | spans[j].begin <= i < spans[j].end ensures i in complete {
      OneOwner(spans, count, j, i);
    }
    assert forall k :: 0 <= k < |st.pieces.value| ==> st.pieces.value[k] by {
      forall k | 0 <= k < |st.pieces.value| ensures st.pieces.value[k] {
        assert (spans[j].begin + k) as nat in complete;
      }
    }
    L.CountTrueAll(st.pieces.value);
    HexInjective(h(blobs[st.spec.digest]), h(contents[p]));
  }

  /**
   Any calls, in any order, mixed with any other writes to the store: the invariant holds throughout,
   nothing sealed or failed is undone, and every sealed file's digest names a blob that hashes to it.
   A file that is served honestly, with the content that it is pinned to, never fails: once each of its
   pieces is marked, and not retracted since, it is sealed, and its blob is the content.
   */
  method Drive(d: CasTorrent, calls: seq<Call>, ghost contents: map<Bytes, Bytes>)
    requires d.Valid() && !d.closed && forall k :: 0 <= k < |calls| ==> calls[k].OtherPut? || calls[k].i < d.count
    requires forall p :: p in contents ==>
      p in d.files && PinnedTo(d.store.h, d.spans, d.pl, d.files[p], p, contents[p]) &&
      Untouched(d.spans, d.files[p], d.complete, p)
    requires Honest(d.spans, d.pl, calls, contents)
    modifies d`files, d`verified, d`complete, d.store
    ensures d.Valid() && Settled(old(d.files), d.files) && Later(old(d.store.Now()), d.store.Now())
    ensures forall p :: p in d.files && d.files[p].sealed ==>
      var digest := d.files[p].spec.digest;
      digest in d.store.blobs && Hex(d.store.h(d.store.blobs[digest])) == digest
    ensures forall p :: p in contents ==> p in d.files && d.files[p].failed.None?
    ensures forall p :: p in contents && AllMarked(d.spans, d.count, Marks(old(d.complete), calls), p) ==>
      d.files[p].sealed && Holds(d.store.h, d.store.blobs, contents[p])
  {
    hide AllOk, Settled, Later, SoundBlobs, Recorded, Confirmed, Patched, S.ReadFile, Honest, AllAgree, Untouched,
      PinnedTo,
      Splices, AllMarked, Holds, Reads, PathOf, Local, Pieces;
    SettledRefl(d.files);
    LaterRefl(d.store.Now());
    StartAgrees(d.store.h, d.spans, d.pl, calls, d.files, d.complete, contents);
    assert calls[..0] == [] && SameMarks(d.spans, d.complete, Marks(d.complete, []), contents);
    for n := 0 to |calls|
      invariant d.Valid() && Settled(old(d.files), d.files) && Later(old(d.store.Now()), d.store.Now())
      invariant AllAgree(d.store.h, d.spans, d.pl, calls, n, d.files, d.complete, contents)
      invariant SameMarks(d.spans, d.complete, Marks(old(d.complete), calls[..n]), contents)
    {
      ghost var files, v, complete := d.files, d.store.Now(), d.complete;
      SettledRefl(files);
      LaterRefl(v);
      MarksNext(old(d.complete), calls, n);
      match calls[n] {
        case Write(i, b, off) =>
          var err := d.WriteAt(i, b, off);
          WriteKeeps(d.store.h, d.spans, d.pl, calls, n, files, d.files, complete, contents);
        case Read(i, len, off) =>
          var data, err := d.ReadAt(i, len, off);
          QuietKeeps(d.store.h, d.spans, d.pl, calls, n, files, d.files, complete, d.complete, contents);
        case Complete(i) =>
          var err := d.MarkComplete(i);
          MarkKeeps(d.store.h, d.spans, d.count, d.pl, calls, n, i, files, d.files, err, complete, d.complete, contents,
                    d.store.Now());
        case Retract(i) =>
          d.MarkNotComplete(i);
          QuietKeeps(d.store.h, d.spans, d.pl, calls, n, files, d.files, complete, d.complete, contents);
        case Ask(i) =>
          var known, done, err := d.Completion(i);
          QuietKeeps(d.store.h, d.spans, d.pl, calls, n, files, d.files, complete, d.complete, contents);
        case OtherPut(digest, bytes) =>
          var ok := d.store.Put(digest, bytes);
          StoreGrowth(d.spans, d.count, d.files, d.complete, v, d.store.Now());
          QuietKeeps(d.store.h, d.spans, d.pl, calls, n, files, d.files, complete, d.complete, contents);
      }
      SettledTrans(old(d.files), files, d.files);
      LaterTrans(old(d.store.Now()), v, d.store.Now());
    }
    SealedAreStored(d.store.h, d.spans, d.count, d.files, d.complete, d.store.blobs);
    assert calls[..|calls|] == calls;
    AgreePinned(d.store.h, d.spans, d.pl, calls, |calls|, d.files, d.complete, contents);
    ghost var marks := Marks(old(d.complete), calls);
    forall p | p in contents && AllMarked(d.spans, d.count, marks, p)
      ensures d.files[p].sealed && Holds(d.store.h, d.store.blobs, contents[p])
    {
      MarkedSeals(d.store.h, d.spans, d.count, d.pl, d.files, d.complete, marks, d.store.blobs, contents, p);
    }
  }

  lemma AgreePinned(h: Hasher, spans: seq<Span>, pl: nat, calls: seq<Call>, n: nat, files: States, complete: set<int>,
                    contents: map<Bytes, Bytes>)
    requires AllAgree(h, spans, pl, calls, n, files, complete, contents)
    ensures forall p :: p in contents ==>
      p in files && files[p].failed.None? && PinnedTo(h, spans, pl, files[p], p, contents[p])
  {
    hide Agrees;
  }

  lemma SealedAreStored(h: Hasher, spans: seq<Span>, count: nat, states: States, complete: set<int>,
                        blobs: map<string, Bytes>)
    requires AllOk(spans, count, states, complete, blobs) && SoundBlobs(h, blobs)
    ensures forall p :: p in states && states[p].sealed ==>
      states[p].spec.digest in blobs && Hex(h(blobs[states[p].spec.digest])) == states[p].spec.digest
  {
    hide EndToEnd, DistinctPaths, Explained;
    forall p | p in states && states[p].sealed ensures states[p].spec.digest in blobs {
      var j :| 0 <= j < |spans| && spans[j].path == p;
      assert FileOk(spans[j].end - spans[j].begin, states[spans[j].path], blobs);
    }
  }
}
