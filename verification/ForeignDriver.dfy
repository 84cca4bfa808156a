/**
 The storage driver for foreign (BitTorrent v1) torrents.  The engine is an arbitrary client that
 writes, reads, completes and retracts pieces in any order; pieces span files, and every file seals
 into the store on its own when its last piece completes.
 */
module ForeignDriver {
  import opened Basics
  import opened BlobStore
  import opened ForeignLayout
  import opened ForeignState

  class ForeignTorrent {
    const store: Store
    const t: Setup

    var states: States
    var closed: bool
    /** The pieces the engine has completed and not retracted. */
    ghost var complete: set<int>

    ghost predicate Valid()
      reads this, store
    {
      && store.h == t.h && store.Sound()
      && AllFilesOk(t, states, store.Now())
      && (Clean(states) ==> AllFilesLive(t, states, complete))
    }

    /** The readable stream. */
    ghost function Stream(q: nat): Option<char>
      reads this, store
    {
      ByteAt(t.files, states, store.blobs, q)
    }

    ghost predicate IsPiece(i: nat) {
      t.pl > 0 && i < NumPieces(t.total, t.pl)
    }

    /** Where piece i starts in the stream. */
    function Offset(i: nat): nat {
      Times(i, t.pl)
    }

    /** Where piece i ends in the stream; the last piece may be short. */
    function End(i: nat): nat {
      Min(Offset(i) + t.pl, t.total)
    }

    constructor (store: Store, t: Setup, states: States)
      ensures this.store == store && this.t == t && this.states == states && complete == {} && !closed
    {
      this.store, this.t, this.states := store, t, states;
      complete, closed := {}, false;
    }

    /** WriteAt, split over the files it touches; n is how much of b was taken before an error. */
    method WriteAt(i: nat, b: Bytes, off: nat) returns (ok: bool, ghost n: nat)
      requires Valid() && IsPiece(i) && !closed
      modifies this`states
      ensures Valid() && SameButParts(old(states), states)
      ensures ok <==>
        (b == [] ||
          (Offset(i) + off + |b| <= t.total && NoneFailedIn(t, old(states), Offset(i) + off, Offset(i) + off + |b|)))
      ensures ok ==> n == |b|
      ensures Written(t, old(states), states, store.blobs, Offset(i) + off, b, n)
    {
      hide AllFilesOk, AllFilesLive, Clean, Layout, Written, SameButParts, Overlay, NoneFailedIn, WriteProgress, Times;
      var abs := Offset(i) + off;
      var done := 0;
      WriteStarts(t, states, store.Now(), abs, b);
      while done < |b|
        invariant done <= |b|
        invariant WriteProgress(t, old(states), states, store.Now(), abs, b, done)
      {
        ProgressOk(t, old(states), states, store.Now(), abs, b, done);
        FilesPresent(t, states, store.Now());
        var fs, lo := FilesInRange(t.files, t.total, abs + done, abs + |b|);
        if |fs| == 0 {
          WriteEnds(t, old(states), states, store.Now(), abs, b, done, complete);
          return false, done;
        }
        var f := fs[0];
        assert f == t.files[lo] && f.path in states;
        var len := Min(|b| - done, f.end - (abs + done));
        var st := states[f.path];
        if st.failed.Some? {
          WriteEnds(t, old(states), states, store.Now(), abs, b, done, complete);
          FailedIn(t, old(states), states, store.Now(), abs, b, done, lo);
          return false, done;
        }
        WriteStep(t, old(states), states, store.Now(), abs, b, done, len, lo);
        if st.sealed {
          assert states == states[f.path := st];
        } else {
          states := states[f.path := st.(part := Some(Overlay(PartOf(st), abs + done - f.begin, b[done..done + len])))];
        }
        done := done + len;
      }
      WriteEnds(t, old(states), states, store.Now(), abs, b, done, complete);
      return true, done;
    }

    /**
     ReadAt: the longest readable stretch from the given position, at most len bytes.  It reports
     success for a full read, and for a short one that stops at the end of the stream.
     */
    method ReadAt(i: nat, len: nat, off: nat) returns (data: Bytes, ok: bool)
      requires Valid() && IsPiece(i) && !closed
      ensures |data| <= len
      ensures forall k :: 0 <= k < |data| ==> Stream(Offset(i) + off + k) == Some(data[k])
      ensures |data| < len ==> Stream(Offset(i) + off + |data|) == None
      ensures ok <==> data != [] && (|data| == len || Offset(i) + off + |data| >= t.total)
    {
      hide AllFilesOk, AllFilesLive, Clean, Layout, Times, ByteAt, ReadFile, ReadProgress;
      var abs := Offset(i) + off;
      ReadStarts(t, states, store.blobs, abs);
      FilesPresent(t, states, store.Now());
      data := [];
      while |data| < len
        invariant |data| <= len
        invariant ReadProgress(t, states, store.blobs, abs, data)
        decreases len - |data|
      {
        var fs, lo := FilesInRange(t.files, t.total, abs + |data|, abs + len);
        if |fs| == 0 {
          PastEnd(t, states, store.blobs, abs + |data|);
          break;
        }
        var f := fs[0];
        assert f == t.files[lo];
        var pos := abs + |data|;
        var n := Min(len - |data|, f.end - pos);
        var st := states[f.path];
        ReadStep(t, states, store.blobs, lo, abs, data, n);
        if !st.sealed && st.part.None? {
          ReadIs(t, states, store.blobs, abs, data);
          return data, false;
        }
        var content := if st.sealed then store.blobs[st.digest] else st.part.value;
        var chunk := ReadFile(content, pos - f.begin, n);
        data := data + chunk;
        if |chunk| < n {
          ReadIs(t, states, store.blobs, abs, data);
          return data, false;
        }
      }
      ReadIs(t, states, store.blobs, abs, data);
      return data, |data| > 0;
    }

    /** sealLocked: the anchor gate, then the store.  It succeeds exactly when the part passes the gate. */
    method SealLocked(f: FileRange) returns (err: Option<SealError>)
      requires store.h == t.h && store.Sound() && f.path in states && !states[f.path].sealed
      modifies this`states, store
      ensures store.Sound() && Later(old(store.Now()), store.Now())
      ensures f.path in states && states == old(states)[f.path := states[f.path]]
      ensures err.None? <==> PassesGate(t, old(states)[f.path])
      ensures err.None? ==> SealedNow(t, old(states)[f.path], states[f.path], store.Now())
      ensures err.Some? ==> RefusedSeal(t, old(states)[f.path], states[f.path], err.value)
      ensures err.Some? ==> store.Now() == old(store.Now())
    {
      hide SoundBlobs, Later, HasGitId;
      LaterRefl(store.Now());
      var st := states[f.path];
      if st.part.None? {
        assert states == states[f.path := st];
        return Some(NoPart);
      }
      var content := st.part.value;
      if |content| != st.anchor.size {
        assert states == states[f.path := st];
        return Some(SizeMismatch);
      }
      var got := Hex(store.h(content));
      if st.anchor.sha256 != "" && got != st.anchor.sha256 {
        states := states[f.path := st.(part := None)];
        return Some(WrongSha256);
      }
      GitIdIs(t.sha1, content, st.anchor.gitSha1);
      if st.anchor.gitSha1 != "" && GitBlob(t.sha1, content) != st.anchor.gitSha1 {
        states := states[f.path := st.(part := None)];
        return Some(WrongGitBlob);
      }
      var ok := store.Put(got, content);
      assert ok;
      states := states[f.path := st.(part := None, sealed := true, digest := got)];
      return None;
    }

    /** The inner loop of MarkComplete, over the pieces of [b, e) inside one file: the bit guards never fire. */
    method MarkFile(f: FileRange, ghost i: nat, b: nat, e: nat) returns (err: Option<SealError>)
      requires store.h == t.h && store.Sound() && t.pl > 0 && f.path in states
      requires f.begin < f.end <= t.total && Overlaps(f, b, e)
      requires b == Times(i, t.pl) && b < t.total && e == Min(b + t.pl, t.total)
      requires FileOk(t, f, states[f.path], store.Now())
      modifies this`states, store
      ensures store.Sound() && Later(old(store.Now()), store.Now())
      ensures f.path in states && states == old(states)[f.path := states[f.path]]
      ensures FileOk(t, f, states[f.path], store.Now())
      ensures 0 <= i - FirstPiece(f, t.pl) < |old(states)[f.path].pieces|
      ensures err.None? ==>
        Touched(t, true, old(states)[f.path], states[f.path], i - FirstPiece(f, t.pl), store.Now())
      ensures err.Some? ==> states[f.path].failed == err && !old(states)[f.path].sealed
      ensures err.Some? <==> CompletesBadly(t, old(states)[f.path], i - FirstPiece(f, t.pl))
    {
      hide FileOk, Touched, SealedNow, PassesGate, RefusedSeal, Later, SoundBlobs, PieceCount, CountTrue;
      BitmapShape(t, f, states[f.path], store.Now());
      PieceBitExact(f, t.total, t.pl, i, b, e);
      var bits := PieceBits(f, b, e, t.pl);
      var first, last := bits.0, bits.1;
      assert states == states[f.path := states[f.path]];
      LaterRefl(store.Now());
      var k := first;
      while k <= last
        invariant first == last == i && (k == i || k == i + 1)
        invariant k == i ==> states == old(states) && store.Now() == old(store.Now())
        invariant store.Sound() && Later(old(store.Now()), store.Now())
        invariant f.path in states && states == old(states)[f.path := states[f.path]]
        invariant FileOk(t, f, states[f.path], store.Now())
        invariant k == i + 1 ==>
          (Touched(t, true, old(states)[f.path], states[f.path], i - FirstPiece(f, t.pl), store.Now()) &&
           !CompletesBadly(t, old(states)[f.path], i - FirstPiece(f, t.pl)))
        decreases last + 1 - k
      {
        var bit := k - FirstPiece(f, t.pl);
        var st := states[f.path];
        assert 0 <= bit < |st.pieces|;
        if st.pieces[bit] {
          AlreadyTouched(t, true, st, bit, store.Now());
          k := k + 1;
          continue;
        }
        var st' := SetBit(st, bit, true);
        states := states[f.path := st'];
        SameGate(t, st, bit);
        if st'.numDone == |st'.pieces| && !st'.sealed {
          var sealErr := SealLocked(f);
          if sealErr.Some? {
            FailedOk(t, f, st, states[f.path], sealErr.value, bit, old(store.Now()), store.Now());
            states := states[f.path := states[f.path].(failed := sealErr)];
            return sealErr;
          }
          SealedOk(t, f, st, states[f.path], bit, old(store.Now()), store.Now());
        } else {
          BitOk(t, true, f, st, bit, store.Now());
        }
        k := k + 1;
      }
      return None;
    }

    /** The loop of MarkComplete over the files of the piece. */
    method MarkFiles(fs: seq<FileRange>, ghost lo: nat, i: nat) returns (err: Option<SealError>)
      requires Valid() && IsPiece(i) && lo + |fs| <= |t.files| && fs == t.files[lo..lo + |fs|] && IsRun(t, i, lo, |fs|)
      modifies this`states, store
      ensures store.Sound() && Later(old(store.Now()), store.Now()) && AllFilesOk(t, states, store.Now())
      ensures err.None? ==> Progress(t, true, old(states), old(store.Now()), states, store.Now(), lo, |fs|, i)
      ensures err.Some? ==> Settled(old(states), states) && !Clean(states)
      ensures err.Some? ==> exists n :: lo <= n < lo + |fs| && FillsBadly(t, t.files[n], old(states), i)
    {
      hide AllFilesOk, AllFilesLive, Clean, Settled, Progress, FileOk, Touched, Later, SoundBlobs, FillsBadly, Times,
        CompletesBadly, PieceCount, Layout;
      PieceInside(t, i);
      ProgressStarts(t, true, states, store.Now(), lo, i);
      for n := 0 to |fs|
        invariant Progress(t, true, old(states), old(store.Now()), states, store.Now(), lo, n, i)
      {
        var f := fs[n];
        assert f == t.files[lo + n];
        ghost var before, v := states, store.Now();
        ProgressNext(t, true, old(states), old(store.Now()), before, v, lo, n, i);
        err := MarkFile(f, i, Offset(i), End(i));
        if err.Some? {
          ProgressBreaks(t, old(states), old(store.Now()), before, v, lo, n, i, states[f.path], store.Now());
          return err;
        }
        ProgressStep(t, true, old(states), old(store.Now()), before, v, lo, n, i, states[f.path], store.Now());
      }
      ProgressSound(t, true, old(states), old(store.Now()), states, store.Now(), lo, |fs|, i);
      return None;
    }

    /**
     MarkComplete.  It fails exactly when piece i is the last one of some file whose bytes do not pass
     the anchor gate; otherwise i joins the complete pieces and no readable byte changes, whatever
     was sealed on the way.
     */
    method MarkComplete(i: nat) returns (err: Option<SealError>)
      requires Valid() && IsPiece(i) && !closed
      modifies this`states, this`complete, store
      ensures Valid() && Settled(old(states), states) && Later(old(store.Now()), store.Now())
      ensures err.Some? <==> exists j ::
        0 <= j < |t.files| && Overlaps(t.files[j], Offset(i), End(i)) && FillsBadly(t, t.files[j], old(states), i)
      ensures err.None? ==>
        complete == old(complete) + {i} && PieceTouched(t, true, old(states), states, i, store.Now())
      ensures err.None? ==> (Clean(states) <==> Clean(old(states)))
      ensures err.None? ==> store.clash || forall q: nat :: Stream(q) == old(Stream(q))
      ensures err.Some? ==> !Clean(states) && complete == old(complete)
    {
      hide AllFilesOk, AllFilesLive, Clean, Settled, Progress, FileOk, Later, SoundBlobs, FillsBadly, Times, ByteAt,
        Layout, PieceTouched;
      FilesPresent(t, states, store.Now());
      var fs, lo := FilesInRange(t.files, t.total, Offset(i), End(i));
      err := MarkFiles(fs, lo, i);
      if err.Some? {
        return err;
      }
      complete := complete + {i};
      ProgressEnds(t, true, old(states), old(store.Now()), states, store.Now(), lo, |fs|, i, old(complete));
    }

    /** The inner loop of MarkNotComplete, over the pieces of [b, e) inside one file. */
    method UnmarkFile(f: FileRange, ghost i: nat, b: nat, e: nat)
      requires t.pl > 0 && f.path in states
      requires f.begin < f.end <= t.total && Overlaps(f, b, e)
      requires b == Times(i, t.pl) && b < t.total && e == Min(b + t.pl, t.total)
      requires FileOk(t, f, states[f.path], store.Now())
      modifies this`states
      ensures f.path in states && states == old(states)[f.path := states[f.path]]
      ensures FileOk(t, f, states[f.path], store.Now())
      ensures 0 <= i - FirstPiece(f, t.pl) < |old(states)[f.path].pieces|
      ensures Touched(t, false, old(states)[f.path], states[f.path], i - FirstPiece(f, t.pl), store.Now())
    {
      hide FileOk, Touched, PieceCount, CountTrue;
      BitmapShape(t, f, states[f.path], store.Now());
      PieceBitExact(f, t.total, t.pl, i, b, e);
      var bits := PieceBits(f, b, e, t.pl);
      var first, last := bits.0, bits.1;
      assert states == states[f.path := states[f.path]];
      var k := first;
      while k <= last
        invariant first == last == i && (k == i || k == i + 1)
        invariant k == i ==> states == old(states)
        invariant f.path in states && states == old(states)[f.path := states[f.path]]
        invariant FileOk(t, f, states[f.path], store.Now())
        invariant k == i + 1 ==>
          Touched(t, false, old(states)[f.path], states[f.path], i - FirstPiece(f, t.pl), store.Now())
        decreases last + 1 - k
      {
        var bit := k - FirstPiece(f, t.pl);
        var st := states[f.path];
        assert 0 <= bit < |st.pieces|;
        if st.pieces[bit] {
          BitOk(t, false, f, st, bit, store.Now());
          states := states[f.path := SetBit(st, bit, false)];
        } else {
          AlreadyTouched(t, false, st, bit, store.Now());
        }
        k := k + 1;
      }
    }

    /** MarkNotComplete: i leaves the complete pieces; what is sealed or failed stays so, and no byte changes. */
    method MarkNotComplete(i: nat)
      requires Valid() && IsPiece(i) && !closed
      modifies this`states, this`complete
      ensures Valid() && Settled(old(states), states)
      ensures complete == old(complete) - {i} && PieceTouched(t, false, old(states), states, i, store.Now())
      ensures Clean(states) <==> Clean(old(states))
      ensures store.clash || forall q: nat :: Stream(q) == old(Stream(q))
    {
      hide AllFilesOk, AllFilesLive, Clean, Settled, Progress, FileOk, Touched, Later, SoundBlobs, Times, ByteAt,
        Layout, PieceTouched;
      FilesPresent(t, states, store.Now());
      PieceInside(t, i);
      var fs, lo := FilesInRange(t.files, t.total, Offset(i), End(i));
      ProgressStarts(t, false, states, store.Now(), lo, i);
      LaterRefl(store.Now());
      for n := 0 to |fs|
        invariant complete == old(complete)
        invariant Progress(t, false, old(states), store.Now(), states, store.Now(), lo, n, i)
      {
        var f := fs[n];
        assert f == t.files[lo + n];
        ghost var before := states;
        ProgressNext(t, false, old(states), store.Now(), states, store.Now(), lo, n, i);
        UnmarkFile(f, i, Offset(i), End(i));
        ProgressStep(t, false, old(states), store.Now(), before, store.Now(), lo, n, i, states[f.path], store.Now());
      }
      complete := complete - {i};
      ProgressEnds(t, false, old(states), store.Now(), states, store.Now(), lo, |fs|, i, old(complete));
    }

    /**
     Completion: an error once any file has failed its anchor check, and otherwise whether i is one
     of the complete pieces, in every file the piece touches.
     */
    method Completion(i: nat) returns (done: bool, err: bool)
      requires Valid() && IsPiece(i) && !closed
      ensures err <==> !Clean(states)
      ensures done <==> Clean(states) && i in complete
      ensures done <==> Clean(states) && Reported(t, states, i)
    {
      hide AllFilesOk, AllFilesLive, FileOk, FileLive, SoundBlobs, Times, Layout, FirstPiece, PieceCount, CountTrue,
        PieceBits, Min, Reported;
      err := AnyFailed(states);
      if err {
        return false, true;
      }
      FilesPresent(t, states, store.Now());
      PieceInside(t, i);
      var fs, lo := FilesInRange(t.files, t.total, Offset(i), End(i));
      assert fs != [];
      ReportedIs(t, states, store.Now(), complete, i, lo);
      for n := 0 to |fs|
        invariant n > 0 ==> i in complete
      {
        var f := fs[n];
        assert f == t.files[lo + n];
        var st := states[f.path];
        BitIs(t, states, store.Now(), complete, lo + n, i);
        var bits := PieceBits(f, Offset(i), End(i), t.pl);
        for k := bits.0 to bits.1 + 1
          invariant k > bits.0 ==> i in complete
        {
          var bit := k - FirstPiece(f, t.pl);
          if bit < 0 || bit >= |st.pieces| || !st.pieces[bit] {
            return false, false;
          }
        }
      }
      return true, false;
    }

    /**
     One look of WaitSealedWanted: it succeeds exactly when every wanted file is sealed and no file
     has failed, whatever other files have sealed besides.
     */
    method LookSealedWanted(wanted: map<Bytes, bool>) returns (look: Look)
      ensures look.AnchorFailed? <==> !Clean(states)
      ensures look.Ready? <==>
        Clean(states) && forall p :: p in wanted ==> wanted[p] && p in states && states[p].sealed
      ensures look.Closed? ==> closed
      ensures look.Blocked? ==> !closed
    {
      var done: set<Bytes> := {};
      var rest := states.Keys;
      while rest != {}
        invariant rest <= states.Keys
        invariant forall p :: p in states && p !in rest ==> states[p].failed.None?
        invariant forall p :: p in done <==> p in states && p !in rest && states[p].sealed && p in wanted && wanted[p]
        decreases |rest|
      {
        var p :| p in rest;
        rest := rest - {p};
        if states[p].failed.Some? {
          return AnchorFailed;
        }
        if states[p].sealed && p in wanted && wanted[p] {
          done := done + {p};
        }
      }
      SubsetCount(done, wanted.Keys);
      if |done| >= |wanted| {
        return Ready;
      }
      assert exists p :: p in wanted && p !in done;
      if closed {
        return Closed;
      }
      return Blocked;
    }

    /** close: unsealed parts are deleted; what is sealed stays in the store. */
    method Close()
      requires Valid()
      modifies this`states, this`closed
      ensures Valid() && closed && Settled(old(states), states) && (Clean(states) <==> Clean(old(states)))
      ensures states.Keys == old(states).Keys && forall p :: p in states ==> states[p] == old(states)[p].(part := None)
    {
      hide AllFilesOk, AllFilesLive;
      ClosedOk(t, states, store.Now(), complete);
      states := map p | p in states :: states[p].(part := None);
      closed := true;
    }
  }

  /** What WaitSealedWanted finds in one turn of its loop; Blocked waits for the next change. */
  datatype Look = Ready | AnchorFailed | Closed | Blocked

  lemma SubsetCount<T>(a: set<T>, b: set<T>)
    requires a <= b
    ensures |a| <= |b| && (|a| < |b| <==> exists x :: x in b && x !in a)
  {
    var c := b - a;
    assert b == a + c && a !! c;
  }

  /** The loop of Completion over all files. */
  method AnyFailed(states: States) returns (failed: bool)
    ensures failed <==> !Clean(states)
  {
    var rest := states.Keys;
    while rest != {}
      invariant rest <= states.Keys
      invariant forall p :: p in states && p !in rest ==> states[p].failed.None?
      decreases |rest|
    {
      var p :| p in rest;
      rest := rest - {p};
      if states[p].failed.Some? {
        return true;
      }
    }
    return false;
  }

  /** The one bit that Completion looks at in file j, and what it means. */
  lemma BitIs(t: Setup, states: States, v: View, complete: set<int>, j: nat, i: nat)
    requires AllFilesOk(t, states, v) && AllFilesLive(t, states, complete) && i < NumPieces(t.total, t.pl)
    requires j < |t.files|
    requires Touches(t, t.files[j], i)
    ensures var f, b, e := t.files[j], Times(i, t.pl), Min(Times(i, t.pl) + t.pl, t.total);
      && f.begin < f.end && b < e && PieceBits(f, b, e, t.pl) == (i, i)
      && f.path in states && 0 <= i - FirstPiece(f, t.pl) < |states[f.path].pieces|
      && (states[f.path].pieces[i - FirstPiece(f, t.pl)] <==> i in complete)
  {
    hide FileOk, Layout;
    var f := t.files[j];
    FileAt(t, states, v, j);
    BitmapShape(t, f, states[f.path], v);
    PieceInside(t, i);
    PieceBitExact(f, t.total, t.pl, i, Times(i, t.pl), Min(Times(i, t.pl) + t.pl, t.total));
    assert FileLive(t.pl, f, states[f.path], complete);
  }

  lemma ReportedIs(t: Setup, states: States, v: View, complete: set<int>, i: nat, lo: nat)
    requires AllFilesOk(t, states, v) && AllFilesLive(t, states, complete) && i < NumPieces(t.total, t.pl)
    requires lo < |t.files|
    requires Touches(t, t.files[lo], i)
    ensures Reported(t, states, i) <==> i in complete
  {
    hide AllFilesOk, AllFilesLive, FirstPiece, Times, PieceBits, NumPieces;
    BitIs(t, states, v, complete, lo, i);
    forall j | 0 <= j < |t.files| && Touches(t, t.files[j], i)
      ensures BitOf(t, states, t.files[j], i) == Some(i in complete)
    {
      BitIs(t, states, v, complete, j, i);
    }
  }

  lemma ClosedOk(t: Setup, states: States, v: View, complete: set<int>)
    requires AllFilesOk(t, states, v) && (Clean(states) ==> AllFilesLive(t, states, complete))
    ensures var after := map p | p in states :: states[p].(part := None);
      AllFilesOk(t, after, v) && (Clean(after) ==> AllFilesLive(t, after, complete))
  {
    hide Layout, PieceCount, CountTrue, Gate, FirstPiece;
    var after := map p | p in states :: states[p].(part := None);
    if Clean(after) {
      forall p | p in states ensures states[p].failed.None? {
        assert after[p].failed.None?;
      }
    }
  }
}
