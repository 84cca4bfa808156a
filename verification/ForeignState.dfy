/**
 The state of a foreign (BitTorrent v1) download, file by file, and what each elementary change does
 to the readable stream, to the bitmaps and to the anchor gate.
 */
module ForeignState {
  import opened Basics
  import opened BlobStore
  import opened ForeignLayout
  import Bencode

  /** ForeignFile: what the anchor of record says about one file; an empty digest says nothing. */
  datatype Anchor = Anchor(path: Bytes, size: int, sha256: string, gitSha1: string)

  datatype SealError = NoPart | SizeMismatch | WrongSha256 | WrongGitBlob

  datatype FileState = FileState(
    anchor: Anchor, part: Option<Bytes>, sealed: bool, digest: string,
    failed: Option<SealError>, pieces: seq<bool>, numDone: int)

  type States = map<Bytes, FileState>

  /** What is fixed when a torrent is opened; preSealed are the files that were in the store already. */
  datatype Setup = Setup(
    h: Hasher, sha1: Bytes -> string, pl: nat, total: nat, files: seq<FileRange>, preSealed: set<Bytes>)

  /** The id git gives to a blob. */
  function GitBlob(sha1: Bytes -> string, b: Bytes): string {
    sha1("blob " + Bencode.Dec(|b|) + "\0" + b)
  }

  /** The object that git hashes for a blob: its type, its length in decimal, a zero byte, its bytes. */
  predicate GitObject(bytes: Bytes, digits: string, content: Bytes) {
    Bencode.Decimal(digits, |content|) && bytes == "blob " + digits + ['\0'] + content
  }

  /** The git object of this content has the id. */
  ghost predicate HasGitId(sha1: Bytes -> string, content: Bytes, id: string) {
    exists bytes, digits :: GitObject(bytes, digits, content) && sha1(bytes) == id
  }

  /** Every content has one git object, and its id is what GitBlob computes. */
  lemma GitIdIs(sha1: Bytes -> string, content: Bytes, id: string)
    ensures HasGitId(sha1, content, id) <==> GitBlob(sha1, content) == id
  {
    var digits := Bencode.DecNat(|content|);
    var bytes := "blob " + digits + ['\0'] + content;
    Bencode.DecNatIsDecimal(|content|);
    assert GitObject(bytes, digits, content) && GitBlob(sha1, content) == sha1(bytes);
    if HasGitId(sha1, content, id) {
      var b, ds :| GitObject(b, ds, content) && sha1(b) == id;
      Bencode.DecimalUnique(ds, |content|);
    }
  }

  /** The anchor gate: length, SHA-256 and git blob id are all as recorded. */
  ghost predicate Gate(t: Setup, a: Anchor, content: Bytes) {
    && |content| == a.size
    && (a.sha256 != "" ==> Hex(t.h(content)) == a.sha256)
    && (a.gitSha1 != "" ==> HasGitId(t.sha1, content, a.gitSha1))
  }

  ghost predicate PassesGate(t: Setup, st: FileState) {
    st.part.Some? && Gate(t, st.anchor, st.part.value)
  }

  /* ---- Invariants ---- */

  /** What holds of one file in every state, before and after failures. */
  ghost predicate FileOk(t: Setup, f: FileRange, st: FileState, v: View)
    requires t.pl > 0 && f.begin < f.end
  {
    && |st.pieces| == PieceCount(f, t.pl) && st.numDone == CountTrue(st.pieces)
    && st.anchor.size == f.end - f.begin && |PartOf(st)| <= f.end - f.begin
    && (st.sealed ==> st.failed.None? && st.part.None? && st.digest in v.blobs)
    && (st.sealed && f.path !in t.preSealed && !v.clash ==>
         Hex(t.h(v.blobs[st.digest])) == st.digest && Gate(t, st.anchor, v.blobs[st.digest]))
    && (st.failed.Some? ==> !st.sealed && (st.part.Some? ==> |st.part.value| != st.anchor.size))
    && (f.path in t.preSealed ==> st.sealed)
  }

  ghost predicate AllFilesOk(t: Setup, states: States, v: View) {
    && t.pl > 0 && Layout(t.files, t.total)
    && (forall j :: 0 <= j < |t.files| ==>
         t.files[j].path in states && FileOk(t, t.files[j], states[t.files[j].path], v))
    && (forall p :: p in states ==>
         (exists j :: 0 <= j < |t.files| && t.files[j].path == p) ||
         (states[p].sealed && states[p].failed.None? && states[p].digest in v.blobs))
  }

  /** The complete pieces explain the bitmap, and an unsealed file still lacks a piece. */
  ghost predicate FileLive(pl: nat, f: FileRange, st: FileState, complete: set<int>)
    requires pl > 0
  {
    && (forall k :: 0 <= k < |st.pieces| ==> (st.pieces[k] <==> FirstPiece(f, pl) + k in complete))
    && (st.sealed || st.numDone < |st.pieces|)
  }

  ghost predicate AllFilesLive(t: Setup, states: States, complete: set<int>)
    requires t.pl > 0
  {
    forall j :: 0 <= j < |t.files| && t.files[j].path in states ==>
      FileLive(t.pl, t.files[j], states[t.files[j].path], complete)
  }

  /** No anchor check has failed. */
  predicate Clean(states: States) {
    forall p :: p in states ==> states[p].failed.None?
  }

  /** Sealed files stay sealed under their digest; failed files stay failed. */
  ghost predicate Settled(before: States, after: States) {
    forall p :: p in before ==>
      p in after &&
      (before[p].sealed ==> after[p].sealed && after[p].digest == before[p].digest) &&
      (before[p].failed.Some? ==> after[p].failed.Some?)
  }

  lemma FileAt(t: Setup, states: States, v: View, j: nat)
    requires AllFilesOk(t, states, v) && j < |t.files|
    ensures t.pl > 0 && t.files[j].begin < t.files[j].end <= t.total && t.files[j].path in states
    ensures FileOk(t, t.files[j], states[t.files[j].path], v)
  {
  }

  lemma FilesPresent(t: Setup, states: States, v: View)
    requires AllFilesOk(t, states, v)
    ensures t.pl > 0 && Layout(t.files, t.total)
    ensures forall j :: 0 <= j < |t.files| ==>
      t.files[j].path in states && t.files[j].begin < t.files[j].end <= t.total &&
      (states[t.files[j].path].sealed ==> states[t.files[j].path].digest in v.blobs)
  {
    hide PieceCount, CountTrue, Gate;
  }

  lemma BitmapShape(t: Setup, f: FileRange, st: FileState, v: View)
    requires t.pl > 0 && f.begin < f.end && FileOk(t, f, st, v)
    ensures |st.pieces| == PieceCount(f, t.pl) && st.numDone == CountTrue(st.pieces)
    ensures st.sealed ==> st.digest in v.blobs
  {
  }

  lemma FileOkLater(t: Setup, f: FileRange, st: FileState, v: View, w: View)
    requires t.pl > 0 && f.begin < f.end && FileOk(t, f, st, v) && Later(v, w)
    ensures FileOk(t, f, st, w)
  {
  }

  lemma OtherPath(t: Setup, k: nat, j: nat)
    requires Layout(t.files, t.total) && k < |t.files| && j < |t.files|
    ensures t.files[k].path == t.files[j].path <==> k == j
  {
  }

  /** Replacing the state of one file, while the store may grow, keeps everything else in order. */
  lemma ReplaceState(t: Setup, states: States, v: View, j: nat, st: FileState, w: View)
    requires AllFilesOk(t, states, v) && j < |t.files| && Later(v, w)
    requires t.files[j].begin < t.files[j].end && FileOk(t, t.files[j], st, w)
    ensures AllFilesOk(t, states[t.files[j].path := st], w)
  {
    hide FileOk, Later, Layout;
    FilesPresent(t, states, v);
    LaterBlobs(v, w);
    forall k | 0 <= k < |t.files|
      ensures FileOk(t, t.files[k], states[t.files[j].path := st][t.files[k].path], w)
    {
      if k != j {
        OtherPath(t, k, j);
        FileOkLater(t, t.files[k], states[t.files[k].path], v, w);
      }
    }
  }

  /* ---- The readable stream ---- */

  function ByteIn(content: Bytes, k: nat): Option<char> {
    if k < |content| then Some(content[k]) else None
  }

  function PartOf(st: FileState): Bytes {
    if st.part.Some? then st.part.value else []
  }

  /** The byte a reader finds at stream position q of file f. */
  function ByteOf(f: FileRange, st: FileState, blobs: map<string, Bytes>, q: nat): Option<char> {
    if q < f.begin then None
    else if st.sealed then (if st.digest in blobs then ByteIn(blobs[st.digest], q - f.begin) else None)
    else ByteIn(PartOf(st), q - f.begin)
  }

  /** The readable stream. */
  ghost function ByteAt(files: seq<FileRange>, states: States, blobs: map<string, Bytes>, q: nat): Option<char> {
    var j := Locate(files, q);
    if j < |files| && files[j].path in states then ByteOf(files[j], states[files[j].path], blobs, q) else None
  }

  ghost predicate SealedAt(files: seq<FileRange>, states: States, q: nat) {
    var j := Locate(files, q);
    j < |files| && files[j].path in states && states[files[j].path].sealed
  }

  lemma PastEnd(t: Setup, states: States, blobs: map<string, Bytes>, q: nat)
    requires Layout(t.files, t.total) && q >= t.total
    ensures ByteAt(t.files, states, blobs, q) == None
  {
    LocateInside(t.files, t.total, q);
  }

  lemma InFile(t: Setup, states: States, blobs: map<string, Bytes>, j: nat)
    requires Layout(t.files, t.total) && j < |t.files| && t.files[j].path in states
    ensures forall q: nat :: t.files[j].begin <= q < t.files[j].end ==>
      ByteAt(t.files, states, blobs, q) == ByteOf(t.files[j], states[t.files[j].path], blobs, q)
  {
    forall q: nat | t.files[j].begin <= q < t.files[j].end
      ensures ByteAt(t.files, states, blobs, q) == ByteOf(t.files[j], states[t.files[j].path], blobs, q)
    {
      LocateIs(t.files, t.total, q, j);
    }
  }

  /** Whatever other writers put into the store leaves the driver in order and the stream as it is. */
  lemma StoreGrowth(t: Setup, states: States, v: View, w: View)
    requires AllFilesOk(t, states, v) && Later(v, w)
    ensures AllFilesOk(t, states, w)
    ensures forall q: nat :: ByteAt(t.files, states, w.blobs, q) == ByteAt(t.files, states, v.blobs, q)
  {
    hide FileOk, Locate, ByteOf, Later;
    FilesPresent(t, states, v);
    LaterBlobs(v, w);
    forall k | 0 <= k < |t.files| ensures FileOk(t, t.files[k], states[t.files[k].path], w) {
      FileAt(t, states, v, k);
      FileOkLater(t, t.files[k], states[t.files[k].path], v, w);
    }
    forall q: nat ensures ByteAt(t.files, states, w.blobs, q) == ByteAt(t.files, states, v.blobs, q) {
      var j := Locate(t.files, q);
      if j < |t.files| {
        FileAt(t, states, v, j);
        BitmapShape(t, t.files[j], states[t.files[j].path], v);
        SameReads(t.files[j], states[t.files[j].path], v, w, q);
      }
    }
  }

  lemma LaterBlobs(v: View, w: View)
    requires Later(v, w)
    ensures forall d :: d in v.blobs ==> d in w.blobs
  {
  }

  lemma SameReads(f: FileRange, st: FileState, v: View, w: View, q: nat)
    requires Later(v, w) && (st.sealed ==> st.digest in v.blobs)
    ensures ByteOf(f, st, w.blobs, q) == ByteOf(f, st, v.blobs, q)
  {
  }

  /* ---- Writing ---- */

  /** os.File.WriteAt: a write past the end leaves zero bytes in between. */
  function Overlay(part: Bytes, off: nat, data: Bytes): (r: Bytes)
    ensures |r| == if |part| > off + |data| then |part| else off + |data|
    ensures forall k :: 0 <= k < |r| ==>
      r[k] == if off <= k < off + |data| then data[k - off] else if k < |part| then part[k] else '\0'
  {
    var base := if |part| < off then part + seq(off - |part|, _ => '\0') else part;
    base[..off] + data + if off + |data| < |base| then base[off + |data|..] else []
  }

  /** The state of a file after one chunk of a write. */
  function WriteChunk(st: FileState, off: nat, chunk: Bytes): FileState {
    if st.sealed then st else st.(part := Some(Overlay(PartOf(st), off, chunk)))
  }

  /**
   What a write of data[..n] at stream offset abs does to the readable stream: unsealed positions
   hold the written bytes, sealed positions and all readable bytes elsewhere are as before, and
   nothing but zero fill appears anywhere else.
   */
  ghost predicate Written(t: Setup, before: States, after: States, blobs: map<string, Bytes>, abs: nat, data: Bytes,
                          n: nat)
  {
    n <= |data| && forall q: nat :: q < t.total ==> ByteWritten(t, before, after, blobs, abs, data, n, q)
  }

  ghost predicate ByteWritten(t: Setup, before: States, after: States, blobs: map<string, Bytes>,
                              abs: nat, data: Bytes, n: nat, q: nat)
    requires n <= |data|
  {
    var o, r := ByteAt(t.files, before, blobs, q), ByteAt(t.files, after, blobs, q);
    && (SealedAt(t.files, before, q) <==> SealedAt(t.files, after, q))
    && (SealedAt(t.files, before, q) ==> r == o)
    && (!SealedAt(t.files, before, q) && abs <= q < abs + n ==> r == Some(data[q - abs]))
    && (!SealedAt(t.files, before, q) && !(abs <= q < abs + n) ==> (r == o || (o.None? && r == Some('\0') && q < abs)))
  }

  /** Two file states that differ in their part file at most, and not at all when settled. */
  predicate SameButPart(a: FileState, b: FileState) {
    a.(part := None) == b.(part := None) && (a.sealed ==> a.part == b.part) && (a.failed.Some? ==> a.part == b.part)
  }

  ghost predicate SameButParts(before: States, after: States) {
    before.Keys == after.Keys && forall p :: p in before ==> SameButPart(before[p], after[p])
  }

  lemma OverlayByte(part: Bytes, off: nat, data: Bytes, k: nat)
    requires data != []
    ensures var r, o := ByteIn(Overlay(part, off, data), k), ByteIn(part, k);
      && (off <= k < off + |data| ==> r == Some(data[k - off]))
      && (!(off <= k < off + |data|) ==> (r == o || (o.None? && r == Some('\0') && k < off)))
  {
    hide Overlay;
  }

  lemma ChunkByte(f: FileRange, st: FileState, blobs: map<string, Bytes>, pos: nat, chunk: Bytes, q: nat)
    requires f.begin <= q && f.begin <= pos && chunk != []
    ensures var r, o := ByteOf(f, WriteChunk(st, pos - f.begin, chunk), blobs, q), ByteOf(f, st, blobs, q);
      && (st.sealed ==> r == o)
      && (!st.sealed && pos <= q < pos + |chunk| ==> r == Some(chunk[q - pos]))
      && (!st.sealed && !(pos <= q < pos + |chunk|) ==> (r == o || (o.None? && r == Some('\0') && q < pos)))
    ensures WriteChunk(st, pos - f.begin, chunk).sealed == st.sealed
  {
    OverlayByte(PartOf(st), pos - f.begin, chunk, q - f.begin);
  }

  lemma ChunkFileOk(t: Setup, f: FileRange, st: FileState, v: View, off: nat, chunk: Bytes)
    requires t.pl > 0 && f.begin < f.end && FileOk(t, f, st, v) && st.failed.None?
    requires off + |chunk| <= f.end - f.begin
    ensures FileOk(t, f, WriteChunk(st, off, chunk), v)
    ensures SameButPart(st, WriteChunk(st, off, chunk))
  {
    hide PieceCount, CountTrue, Gate, Overlay;
  }

  /** One chunk of a write, inside one file. */
  lemma ChunkWritten(t: Setup, before: States, mid: States, blobs: map<string, Bytes>,
                     abs: nat, data: Bytes, done: nat, n: nat, j: nat)
    requires Layout(t.files, t.total) && j < |t.files| && t.files[j].path in mid
    requires Written(t, before, mid, blobs, abs, data, done) && done + n <= |data|
    requires t.files[j].begin <= abs + done && 0 < n && abs + done + n <= t.files[j].end
    ensures var p := t.files[j].path;
      Written(t, before, mid[p := WriteChunk(mid[p], abs + done - t.files[j].begin, data[done..done + n])],
              blobs, abs, data, done + n)
  {
    hide Layout, Locate, WriteChunk, ByteOf;
    var p, pos, chunk, m := t.files[j].path, abs + done, data[done..done + n], done + n;
    var after := mid[p := WriteChunk(mid[p], pos - t.files[j].begin, chunk)];
    forall q: nat | q < t.total ensures ByteWritten(t, before, after, blobs, abs, data, m, q) {
      assert ByteWritten(t, before, mid, blobs, abs, data, done, q);
      LocateInside(t.files, t.total, q);
      if pos <= q < pos + n {
        LocateIs(t.files, t.total, q, j);
        assert chunk[q - pos] == data[q - abs];
      }
      OtherPath(t, Locate(t.files, q), j);
      if Locate(t.files, q) == j {
        ChunkByte(t.files[j], mid[p], blobs, pos, chunk, q);
      }
    }
  }

  lemma SameButPartsTrans(a: States, b: States, c: States)
    requires SameButParts(a, b) && SameButParts(b, c)
    ensures SameButParts(a, c)
  {
  }

  lemma SameFailure(a: FileState, b: FileState)
    requires SameButPart(a, b)
    ensures a.failed == b.failed
  {
  }

  lemma LiveSameParts(t: Setup, before: States, after: States, complete: set<int>)
    requires t.pl > 0 && SameButParts(before, after)
    requires Clean(before) ==> AllFilesLive(t, before, complete)
    ensures Clean(before) <==> Clean(after)
    ensures Clean(after) ==> AllFilesLive(t, after, complete)
  {
    forall p | p in before ensures before[p].failed == after[p].failed && before[p].pieces == after[p].pieces &&
        before[p].sealed == after[p].sealed && before[p].numDone == after[p].numDone {
      assert SameButPart(before[p], after[p]);
    }
  }

  /** No file that the range [b, e) touches has failed. */
  ghost predicate NoneFailedIn(t: Setup, states: States, b: nat, e: nat) {
    forall j :: 0 <= j < |t.files| && Overlaps(t.files[j], b, e) ==>
      t.files[j].path in states && states[t.files[j].path].failed.None?
  }

  lemma NoneFailedGrow(t: Setup, states: States, b: nat, mid: nat, e: nat, lo: nat)
    requires Layout(t.files, t.total) && b <= mid < e && lo < |t.files|
    requires t.files[lo].begin <= mid && e <= t.files[lo].end
    requires b < mid ==> NoneFailedIn(t, states, b, mid)
    requires t.files[lo].path in states && states[t.files[lo].path].failed.None?
    ensures e <= t.total && NoneFailedIn(t, states, b, e)
  {
    forall j | 0 <= j < |t.files| && Overlaps(t.files[j], b, e)
      ensures t.files[j].path in states && states[t.files[j].path].failed.None?
    {
      if j < lo {
        assert t.files[j].end <= t.files[lo].begin;
        if b < mid {
          assert Overlaps(t.files[j], b, mid);
        }
      }
    }
  }

  /** The invariant of the write loop. */
  ghost predicate WriteProgress(t: Setup, before: States, states: States, v: View, abs: nat, b: Bytes, done: nat) {
    && done <= |b|
    && AllFilesOk(t, states, v) && SameButParts(before, states)
    && Written(t, before, states, v.blobs, abs, b, done)
    && (done > 0 ==> abs + done <= t.total && NoneFailedIn(t, before, abs, abs + done))
  }

  lemma WriteStarts(t: Setup, states: States, v: View, abs: nat, b: Bytes)
    requires AllFilesOk(t, states, v)
    ensures WriteProgress(t, states, states, v, abs, b, 0)
  {
    hide AllFilesOk;
  }

  lemma ProgressOk(t: Setup, before: States, states: States, v: View, abs: nat, b: Bytes, done: nat)
    requires WriteProgress(t, before, states, v, abs, b, done)
    ensures AllFilesOk(t, states, v)
  {
    hide AllFilesOk, SameButParts, Written, NoneFailedIn;
  }

  lemma WriteStep(t: Setup, before: States, states: States, v: View, abs: nat, b: Bytes, done: nat, len: nat, lo: nat)
    requires WriteProgress(t, before, states, v, abs, b, done)
    requires lo < |t.files| && 0 < len && done + len <= |b|
    requires t.files[lo].begin <= abs + done && abs + done + len <= t.files[lo].end
    requires t.files[lo].path in states && states[t.files[lo].path].failed.None?
    ensures var p := t.files[lo].path;
      WriteProgress(t, before, states[p := WriteChunk(states[p], abs + done - t.files[lo].begin, b[done..done + len])],
                    v, abs, b, done + len)
  {
    hide Written, NoneFailedIn, FileOk, WriteChunk, Layout, AllFilesOk;
    var p, off, chunk := t.files[lo].path, abs + done - t.files[lo].begin, b[done..done + len];
    var st := states[p];
    FilesPresent(t, states, v);
    FileAt(t, states, v, lo);
    LaterRefl(v);
    ChunkFileOk(t, t.files[lo], st, v, off, chunk);
    ReplaceState(t, states, v, lo, WriteChunk(st, off, chunk), v);
    ChunkWritten(t, before, states, v.blobs, abs, b, done, len, lo);
    assert SameButPart(before[p], st);
    SameFailure(before[p], st);
    NoneFailedGrow(t, before, abs, abs + done, abs + done + len, lo);
    assert SameButParts(states, states[p := WriteChunk(st, off, chunk)]);
    SameButPartsTrans(before, states, states[p := WriteChunk(st, off, chunk)]);
  }

  lemma WriteEnds(t: Setup, before: States, states: States, v: View, abs: nat, b: Bytes, done: nat, complete: set<int>)
    requires WriteProgress(t, before, states, v, abs, b, done)
    requires t.pl > 0 && (Clean(before) ==> AllFilesLive(t, before, complete))
    ensures AllFilesOk(t, states, v)
    ensures Clean(states) ==> AllFilesLive(t, states, complete)
    ensures SameButParts(before, states) && Written(t, before, states, v.blobs, abs, b, done)
    ensures done > 0 ==> abs + done <= t.total && NoneFailedIn(t, before, abs, abs + done)
  {
    hide Written, NoneFailedIn, FileOk, Layout, FileLive;
    LiveSameParts(t, before, states, complete);
  }

  lemma FailedIn(t: Setup, before: States, states: States, v: View, abs: nat, b: Bytes, done: nat, lo: nat)
    requires WriteProgress(t, before, states, v, abs, b, done)
    requires lo < |t.files| && Overlaps(t.files[lo], abs, abs + |b|)
    requires t.files[lo].path in states && states[t.files[lo].path].failed.Some?
    ensures !NoneFailedIn(t, before, abs, abs + |b|)
  {
    hide AllFilesOk, Written;
    assert SameButPart(before[t.files[lo].path], states[t.files[lo].path]);
    SameFailure(before[t.files[lo].path], states[t.files[lo].path]);
  }

  /** Every sealed blob is as long as its file. */
  ghost predicate SealedBlobsFit(t: Setup, states: States, v: View) {
    forall j :: 0 <= j < |t.files| && t.files[j].path in states && states[t.files[j].path].sealed ==>
      var d := states[t.files[j].path].digest;
      d in v.blobs && |v.blobs[d]| == t.files[j].end - t.files[j].begin
  }

  /**
   Reading back what was written: with sealed blobs as long as their files, every position of the
   written range is readable and holds the written byte, or the sealed blob's byte.
   */
  lemma ReadBack(t: Setup, before: States, after: States, v: View, abs: nat, b: Bytes, q: nat)
    requires AllFilesOk(t, before, v) && SealedBlobsFit(t, before, v)
    requires Written(t, before, after, v.blobs, abs, b, |b|) && abs <= q < abs + |b| && abs + |b| <= t.total
    ensures ByteAt(t.files, after, v.blobs, q).Some?
    ensures ByteAt(t.files, after, v.blobs, q) ==
      if SealedAt(t.files, before, q) then ByteAt(t.files, before, v.blobs, q) else Some(b[q - abs])
  {
    hide FileOk, Layout, Locate;
    assert ByteWritten(t, before, after, v.blobs, abs, b, |b|, q);
    FilesPresent(t, before, v);
    LocateInside(t.files, t.total, q);
  }

  /* ---- Reading ---- */

  /** os.File.ReadAt: what the file holds of n bytes at off; fewer than n come with an EOF error. */
  function ReadFile(content: Bytes, off: nat, n: nat): (r: Bytes)
    ensures |r| <= n && off + |r| <= (if off <= |content| then |content| else off)
    ensures |r| < n ==> off + |r| >= |content|
    ensures forall k :: 0 <= k < |r| ==> r[k] == content[off + k]
  {
    if off >= |content| then [] else content[off..Min(off + n, |content|)]
  }

  /** What a file serves its readers: the sealed blob, or the part as far as it goes. */
  function ContentOf(st: FileState, blobs: map<string, Bytes>): Bytes {
    if !st.sealed then PartOf(st) else if st.digest in blobs then blobs[st.digest] else []
  }

  /** A chunk read from a file's content is the stream's, and a short one ends where the stream does. */
  lemma ReadChunk(t: Setup, states: States, blobs: map<string, Bytes>, j: nat, pos: nat, n: nat)
    requires Layout(t.files, t.total) && j < |t.files| && t.files[j].path in states
    requires t.files[j].begin <= pos && pos + n <= t.files[j].end
    ensures var chunk := ReadFile(ContentOf(states[t.files[j].path], blobs), pos - t.files[j].begin, n);
      && (forall k: nat :: k < |chunk| ==> ByteAt(t.files, states, blobs, pos + k) == Some(chunk[k]))
      && (|chunk| < n ==> ByteAt(t.files, states, blobs, pos + |chunk|) == None)
  {
    InFile(t, states, blobs, j);
  }

  /** The invariant of the read loop. */
  ghost predicate ReadProgress(t: Setup, states: States, blobs: map<string, Bytes>, abs: nat, data: Bytes) {
    forall k :: 0 <= k < |data| ==> ByteAt(t.files, states, blobs, abs + k) == Some(data[k])
  }

  lemma ReadStarts(t: Setup, states: States, blobs: map<string, Bytes>, abs: nat)
    ensures ReadProgress(t, states, blobs, abs, [])
  {
  }

  lemma ReadIs(t: Setup, states: States, blobs: map<string, Bytes>, abs: nat, data: Bytes)
    requires ReadProgress(t, states, blobs, abs, data)
    ensures forall k :: 0 <= k < |data| ==> ByteAt(t.files, states, blobs, abs + k) == Some(data[k])
  {
  }

  lemma ReadStep(t: Setup, states: States, blobs: map<string, Bytes>, j: nat, abs: nat, data: Bytes, n: nat)
    requires Layout(t.files, t.total) && j < |t.files| && t.files[j].path in states
    requires t.files[j].begin <= abs + |data| && abs + |data| + n <= t.files[j].end
    requires ReadProgress(t, states, blobs, abs, data)
    ensures var chunk := ReadFile(ContentOf(states[t.files[j].path], blobs), abs + |data| - t.files[j].begin, n);
      && ReadProgress(t, states, blobs, abs, data + chunk)
      && |chunk| <= n
      && (|chunk| < n ==>
           ByteAt(t.files, states, blobs, abs + |data + chunk|) == None && abs + |data + chunk| < t.total)
  {
    hide ByteAt, ReadFile, ContentOf;
    var chunk := ReadFile(ContentOf(states[t.files[j].path], blobs), abs + |data| - t.files[j].begin, n);
    ReadChunk(t, states, blobs, j, abs + |data|, n);
    forall k | 0 <= k < |data + chunk| ensures ByteAt(t.files, states, blobs, abs + k) == Some((data + chunk)[k]) {
      if k >= |data| {
        assert ByteAt(t.files, states, blobs, abs + |data| + (k - |data|)) == Some(chunk[k - |data|]);
      }
    }
  }

  /* ---- Sealing ---- */

  /** A file just sealed serves the very bytes of its part, unless two blobs collide. */
  ghost predicate SealedFrom(t: Setup, content: Bytes, n: FileState, v: View) {
    && n.part.None? && n.digest == Hex(t.h(content)) && n.digest in v.blobs
    && |content| == n.anchor.size
    && (v.clash || v.blobs[n.digest] == content)
  }

  ghost predicate SealedNow(t: Setup, o: FileState, n: FileState, v: View) {
    && PassesGate(t, o)
    && n == o.(part := None, sealed := true, digest := Hex(t.h(o.part.value)))
    && SealedFrom(t, o.part.value, n, v)
  }

  /** A refused seal drops a part of the right length, and names the first test that it fails. */
  predicate RefusedSeal(t: Setup, o: FileState, n: FileState, err: SealError) {
    && n == o.(part := if o.part.Some? && |o.part.value| == o.anchor.size then None else o.part)
    && (err == NoPart <==> o.part.None?)
    && (err == SizeMismatch <==> o.part.Some? && |o.part.value| != o.anchor.size)
    && (err == WrongSha256 <==>
         o.part.Some? && |o.part.value| == o.anchor.size &&
         o.anchor.sha256 != "" && Hex(t.h(o.part.value)) != o.anchor.sha256)
  }

  /* ---- Marking and retracting pieces ---- */

  /** A file after one of its bits was set, the seal included when it was the last. */
  ghost predicate Marked(t: Setup, o: FileState, n: FileState, bit: int, v: View)
    requires 0 <= bit < |o.pieces|
  {
    && n.anchor == o.anchor && n.failed == o.failed
    && n.pieces == o.pieces[bit := true] && n.numDone == CountTrue(n.pieces)
    && (n.sealed <==> o.sealed || (!o.pieces[bit] && n.numDone == |n.pieces|))
    && (n.sealed == o.sealed ==> n.part == o.part && n.digest == o.digest)
    && (n.sealed && !o.sealed ==> o.part.Some? && SealedFrom(t, o.part.value, n, v))
  }

  /** A file after one of its bits was cleared. */
  predicate Unmarked(o: FileState, n: FileState, bit: int)
    requires 0 <= bit < |o.pieces|
  {
    n == o.(pieces := o.pieces[bit := false], numDone := CountTrue(o.pieces[bit := false]))
  }

  /** One file touched by MarkComplete (mark) or MarkNotComplete (not mark). */
  ghost predicate Touched(t: Setup, mark: bool, o: FileState, n: FileState, bit: int, v: View)
    requires 0 <= bit < |o.pieces|
  {
    if mark then Marked(t, o, n, bit, v) else Unmarked(o, n, bit)
  }

  lemma TouchedLater(t: Setup, mark: bool, o: FileState, n: FileState, bit: int, v: View, w: View)
    requires 0 <= bit < |o.pieces| && Touched(t, mark, o, n, bit, v) && Later(v, w)
    ensures Touched(t, mark, o, n, bit, w)
  {
  }

  lemma TouchedReads(t: Setup, mark: bool, f: FileRange, o: FileState, n: FileState, bit: int, v: View, w: View, q: nat)
    requires 0 <= bit < |o.pieces| && Touched(t, mark, o, n, bit, w) && Later(v, w)
    requires o.sealed ==> o.digest in v.blobs
    ensures w.clash || ByteOf(f, n, w.blobs, q) == ByteOf(f, o, v.blobs, q)
  {
  }

  /** The complete pieces after piece i was marked or retracted. */
  function CompleteAfter(mark: bool, complete: set<int>, i: int): set<int> {
    if mark then complete + {i} else complete - {i}
  }

  lemma TouchedLive(t: Setup, mark: bool, f: FileRange, o: FileState, n: FileState, i: int, complete: set<int>, v: View)
    requires t.pl > 0 && 0 <= i - FirstPiece(f, t.pl) < |o.pieces| && o.numDone == CountTrue(o.pieces)
    requires FileLive(t.pl, f, o, complete) && Touched(t, mark, o, n, i - FirstPiece(f, t.pl), v)
    ensures FileLive(t.pl, f, n, CompleteAfter(mark, complete, i))
  {
    var bit := i - FirstPiece(f, t.pl);
    if mark && o.pieces[bit] {
      assert n.pieces == o.pieces;
    }
    CountTrueAll(n.pieces);
    if !mark {
      assert !n.pieces[bit];
    }
  }

  /** A file that piece i does not touch stays live when i joins or leaves the complete pieces. */
  lemma UntouchedLive(t: Setup, mark: bool, f: FileRange, st: FileState, i: int, complete: set<int>)
    requires t.pl > 0 && FileLive(t.pl, f, st, complete) && !(0 <= i - FirstPiece(f, t.pl) < |st.pieces|)
    ensures FileLive(t.pl, f, st, CompleteAfter(mark, complete, i))
  {
  }

  /** Setting this bit completes a file whose part does not pass the gate. */
  ghost predicate CompletesBadly(t: Setup, st: FileState, bit: int)
    requires 0 <= bit < |st.pieces|
  {
    !st.sealed && !st.pieces[bit] && st.numDone + 1 == |st.pieces| && !PassesGate(t, st)
  }

  /** Setting the bit of piece i completes file f, and its part does not pass the gate. */
  ghost predicate FillsBadly(t: Setup, f: FileRange, states: States, i: int)
    requires t.pl > 0
  {
    f.path in states && 0 <= i - FirstPiece(f, t.pl) < |states[f.path].pieces| &&
    CompletesBadly(t, states[f.path], i - FirstPiece(f, t.pl))
  }

  function SetBit(st: FileState, bit: int, value: bool): FileState
    requires 0 <= bit < |st.pieces|
  {
    st.(pieces := st.pieces[bit := value], numDone := st.numDone + if value then 1 else -1)
  }

  lemma SameGate(t: Setup, st: FileState, bit: int)
    requires 0 <= bit < |st.pieces|
    ensures PassesGate(t, SetBit(st, bit, true)) == PassesGate(t, st)
  {
  }

  lemma AlreadyTouched(t: Setup, mark: bool, st: FileState, bit: int, v: View)
    requires 0 <= bit < |st.pieces| && st.pieces[bit] == mark && st.numDone == CountTrue(st.pieces)
    ensures Touched(t, mark, st, st, bit, v)
  {
    assert st.pieces[bit := mark] == st.pieces;
  }

  lemma BitOk(t: Setup, mark: bool, f: FileRange, st: FileState, bit: int, v: View)
    requires t.pl > 0 && f.begin < f.end && FileOk(t, f, st, v)
    requires 0 <= bit < |st.pieces| && st.pieces[bit] != mark
    requires mark ==> st.numDone + 1 != |st.pieces| || st.sealed
    ensures FileOk(t, f, SetBit(st, bit, mark), v) && Touched(t, mark, st, SetBit(st, bit, mark), bit, v)
  {
    CountTrueUpdate(st.pieces, bit, mark);
  }

  lemma SealedOk(t: Setup, f: FileRange, st: FileState, n: FileState, bit: int, v: View, w: View)
    requires t.pl > 0 && f.begin < f.end && FileOk(t, f, st, v)
    requires 0 <= bit < |st.pieces| && !st.pieces[bit] && !st.sealed && st.numDone + 1 == |st.pieces|
    requires SealedNow(t, SetBit(st, bit, true), n, w)
    ensures FileOk(t, f, n, w) && Touched(t, true, st, n, bit, w) && PassesGate(t, st)
  {
    CountTrueUpdate(st.pieces, bit, true);
  }

  lemma FailedOk(t: Setup, f: FileRange, st: FileState, n: FileState, err: SealError, bit: int, v: View, w: View)
    requires t.pl > 0 && f.begin < f.end && FileOk(t, f, st, v)
    requires 0 <= bit < |st.pieces| && !st.pieces[bit] && !st.sealed && st.numDone + 1 == |st.pieces|
    requires RefusedSeal(t, SetBit(st, bit, true), n, err) && !PassesGate(t, SetBit(st, bit, true))
    ensures FileOk(t, f, n.(failed := Some(err)), w) && CompletesBadly(t, st, bit)
  {
    CountTrueUpdate(st.pieces, bit, true);
  }

  /* ---- A run of files touched by one piece ---- */

  /** File f is as before, or touched for piece i. */
  ghost predicate TouchedAt(t: Setup, mark: bool, before: States, states: States, touched: bool, f: FileRange, i: int,
                            v: View)
    requires t.pl > 0 && f.path in before && f.path in states
  {
    var o, n := before[f.path], states[f.path];
    if touched then
      0 <= i - FirstPiece(f, t.pl) < |o.pieces| && Touched(t, mark, o, n, i - FirstPiece(f, t.pl), v)
    else n == o
  }

  /** The files lo, lo + 1, ... before lo + n have been touched for piece i, no other file has changed. */
  ghost predicate RunTouched(t: Setup, mark: bool, before: States, states: States, lo: nat, n: nat, i: int, v: View)
    requires t.pl > 0
  {
    && before.Keys == states.Keys && lo + n <= |t.files|
    && (forall j :: 0 <= j < |t.files| ==> t.files[j].path in before)
    && (forall j :: 0 <= j < |t.files| ==> TouchedAt(t, mark, before, states, lo <= j < lo + n, t.files[j], i, v))
    && (forall p :: p in before ==> states[p] == before[p] || exists j :: 0 <= j < |t.files| && t.files[j].path == p)
  }

  /** The invariant of MarkComplete and MarkNotComplete. */
  ghost predicate Progress(t: Setup, mark: bool, before: States, v0: View, states: States, v: View, lo: nat, n: nat,
                           i: int)
    requires t.pl > 0
  {
    && SoundBlobs(t.h, v.blobs) && Later(v0, v)
    && AllFilesOk(t, states, v) && RunTouched(t, mark, before, states, lo, n, i, v)
    && (mark ==> forall j :: lo <= j < lo + n ==> !FillsBadly(t, t.files[j], before, i))
  }

  lemma ProgressStarts(t: Setup, mark: bool, states: States, v: View, lo: nat, i: int)
    requires SoundBlobs(t.h, v.blobs) && AllFilesOk(t, states, v) && lo <= |t.files|
    ensures t.pl > 0 && Progress(t, mark, states, v, states, v, lo, 0, i)
  {
    hide FileOk;
    LaterRefl(v);
  }

  lemma ProgressSound(t: Setup, mark: bool, before: States, v0: View, states: States, v: View, lo: nat, n: nat, i: int)
    requires t.pl > 0 && Progress(t, mark, before, v0, states, v, lo, n, i)
    ensures SoundBlobs(t.h, v.blobs) && Later(v0, v) && AllFilesOk(t, states, v)
  {
    hide AllFilesOk, RunTouched, FillsBadly;
  }

  lemma ProgressNext(t: Setup, mark: bool, before: States, v0: View, states: States, v: View, lo: nat, n: nat, i: int)
    requires t.pl > 0 && lo + n < |t.files| && Progress(t, mark, before, v0, states, v, lo, n, i)
    ensures var f := t.files[lo + n];
      && SoundBlobs(t.h, v.blobs) && f.begin < f.end <= t.total && f.path in states && f.path in before
      && states[f.path] == before[f.path] && FileOk(t, f, states[f.path], v)
  {
    hide FileOk;
    FileAt(t, states, v, lo + n);
  }

  lemma RunStep(t: Setup, mark: bool, before: States, states: States, v: View, lo: nat, n: nat, i: int, st: FileState,
                w: View)
    requires t.pl > 0 && Layout(t.files, t.total) && RunTouched(t, mark, before, states, lo, n, i, v)
    requires lo + n < |t.files| && Later(v, w)
    requires var f := t.files[lo + n];
      f.path in before && 0 <= i - FirstPiece(f, t.pl) < |before[f.path].pieces| &&
      Touched(t, mark, before[f.path], st, i - FirstPiece(f, t.pl), w)
    ensures RunTouched(t, mark, before, states[t.files[lo + n].path := st], lo, n + 1, i, w)
  {
    hide TouchedAt, Layout;
    var after := states[t.files[lo + n].path := st];
    forall j | 0 <= j < |t.files|
      ensures TouchedAt(t, mark, before, after, lo <= j < lo + n + 1, t.files[j], i, w)
    {
      OtherPath(t, j, lo + n);
      TouchedAtLater(t, mark, before, states, lo <= j < lo + n, t.files[j], i, v, after, st, j == lo + n, w);
    }
  }

  lemma TouchedAtLater(t: Setup, mark: bool, before: States, states: States, touched: bool, f: FileRange, i: int,
                       v: View,
                       after: States, st: FileState, now: bool, w: View)
    requires t.pl > 0 && f.path in before && f.path in states && f.path in after && Later(v, w)
    requires TouchedAt(t, mark, before, states, touched, f, i, v)
    requires after[f.path] == if now then st else states[f.path]
    requires now ==>
      (0 <= i - FirstPiece(f, t.pl) < |before[f.path].pieces| &&
       Touched(t, mark, before[f.path], st, i - FirstPiece(f, t.pl), w))
    ensures TouchedAt(t, mark, before, after, touched || now, f, i, w)
  {
    hide Touched, Later;
    if touched && !now {
      TouchedLater(t, mark, before[f.path], states[f.path], i - FirstPiece(f, t.pl), v, w);
    }
  }

  lemma ProgressStep(t: Setup, mark: bool, before: States, v0: View, states: States, v: View, lo: nat, n: nat, i: int,
                     st: FileState, w: View)
    requires t.pl > 0 && lo + n < |t.files| && Progress(t, mark, before, v0, states, v, lo, n, i)
    requires SoundBlobs(t.h, w.blobs) && Later(v, w)
    requires var f := t.files[lo + n];
      && f.begin < f.end && FileOk(t, f, st, w)
      && f.path in before && 0 <= i - FirstPiece(f, t.pl) < |before[f.path].pieces|
      && Touched(t, mark, before[f.path], st, i - FirstPiece(f, t.pl), w)
      && (mark ==> !CompletesBadly(t, before[f.path], i - FirstPiece(f, t.pl)))
    ensures Progress(t, mark, before, v0, states[t.files[lo + n].path := st], w, lo, n + 1, i)
  {
    hide FileOk, RunTouched, Touched, Later, SoundBlobs, Layout;
    LaterTrans(v0, v, w);
    ReplaceState(t, states, v, lo + n, st, w);
    assert Layout(t.files, t.total);
    RunStep(t, mark, before, states, v, lo, n, i, st, w);
  }

  lemma RunSettles(t: Setup, mark: bool, before: States, states: States, lo: nat, n: nat, i: int, v: View)
    requires t.pl > 0 && RunTouched(t, mark, before, states, lo, n, i, v)
    ensures Settled(before, states) && (Clean(states) <==> Clean(before))
  {
    hide SealedFrom;
    forall p | p in before
      ensures before[p].failed == states[p].failed
      ensures before[p].sealed ==> states[p].sealed && states[p].digest == before[p].digest
    {
      if states[p] != before[p] {
        var j :| 0 <= j < |t.files| && t.files[j].path == p;
      }
    }
  }

  lemma ProgressBreaks(t: Setup, before: States, v0: View, states: States, v: View, lo: nat, n: nat, i: int,
                       st: FileState, w: View)
    requires t.pl > 0 && lo + n < |t.files| && Progress(t, true, before, v0, states, v, lo, n, i)
    requires SoundBlobs(t.h, w.blobs) && Later(v, w)
    requires var f := t.files[lo + n];
      && f.begin < f.end && FileOk(t, f, st, w)
      && f.path in before && f.path in states && states[f.path] == before[f.path] && !before[f.path].sealed
      && st.failed.Some? && 0 <= i - FirstPiece(f, t.pl) < |before[f.path].pieces|
      && CompletesBadly(t, before[f.path], i - FirstPiece(f, t.pl))
    ensures var after := states[t.files[lo + n].path := st];
      && AllFilesOk(t, after, w) && Settled(before, after) && !Clean(after) && Later(v0, w)
      && FillsBadly(t, t.files[lo + n], before, i)
  {
    hide FileOk, RunTouched, Later, SoundBlobs, Layout;
    LaterTrans(v0, v, w);
    ReplaceState(t, states, v, lo + n, st, w);
    RunSettles(t, true, before, states, lo, n, i, v);
  }

  function Times(a: nat, b: nat): nat {
    a * b
  }

  /** Piece i overlaps file f. */
  predicate Touches(t: Setup, f: FileRange, i: nat) {
    Overlaps(f, Times(i, t.pl), Min(Times(i, t.pl) + t.pl, t.total))
  }

  lemma PieceInside(t: Setup, i: nat)
    requires t.pl > 0 && i < NumPieces(t.total, t.pl)
    ensures Times(i, t.pl) < t.total && Times(i, t.pl) < Min(Times(i, t.pl) + t.pl, t.total)
  {
    PieceStart(t.total, t.pl, i);
  }

  lemma PieceBitAt(t: Setup, f: FileRange, i: nat)
    requires t.pl > 0 && f.begin < f.end <= t.total && i < NumPieces(t.total, t.pl)
    ensures Touches(t, f, i) <==>
      0 <= i - FirstPiece(f, t.pl) < PieceCount(f, t.pl)
  {
    PieceInside(t, i);
    PieceBitExact(f, t.total, t.pl, i, Times(i, t.pl), Min(Times(i, t.pl) + t.pl, t.total));
  }

  /** Exactly the files that piece i overlaps have been touched for it. */
  ghost predicate PieceTouched(t: Setup, mark: bool, before: States, states: States, i: nat, v: View)
    requires t.pl > 0
  {
    exists lo: nat, n: nat :: IsRun(t, i, lo, n) && RunTouched(t, mark, before, states, lo, n, i, v)
  }

  /** The run lo, ..., lo + n - 1 is exactly the files that piece i overlaps. */
  ghost predicate IsRun(t: Setup, i: nat, lo: nat, n: nat)
    requires t.pl > 0
  {
    forall j :: 0 <= j < |t.files| ==>
      (Touches(t, t.files[j], i) <==> lo <= j < lo + n)
  }

  lemma RunLive(t: Setup, mark: bool, before: States, states: States, v0: View, v: View, lo: nat, n: nat, i: nat,
                complete: set<int>)
    requires AllFilesOk(t, before, v0) && RunTouched(t, mark, before, states, lo, n, i, v)
    requires i < NumPieces(t.total, t.pl) && IsRun(t, i, lo, n) && AllFilesLive(t, before, complete)
    ensures AllFilesLive(t, states, CompleteAfter(mark, complete, i))
  {
    hide TouchedAt, FileOk, FileLive, Times, CompleteAfter, Layout;
    forall j | 0 <= j < |t.files|
      ensures FileLive(t.pl, t.files[j], states[t.files[j].path], CompleteAfter(mark, complete, i))
    {
      FileAt(t, before, v0, j);
      OneLive(t, mark, before, states, v0, v, lo <= j < lo + n, t.files[j], i, complete);
    }
  }

  lemma OneLive(t: Setup, mark: bool, before: States, states: States, v0: View, v: View, touched: bool,
                f: FileRange, i: nat, complete: set<int>)
    requires t.pl > 0 && f.begin < f.end <= t.total && f.path in before && f.path in states
    requires FileOk(t, f, before[f.path], v0)
    requires i < NumPieces(t.total, t.pl) && TouchedAt(t, mark, before, states, touched, f, i, v)
    requires touched <==> Touches(t, f, i)
    requires FileLive(t.pl, f, before[f.path], complete)
    ensures FileLive(t.pl, f, states[f.path], CompleteAfter(mark, complete, i))
  {
    hide Touched, FileOk, FileLive, Times, CompleteAfter, CountTrue;
    BitmapShape(t, f, before[f.path], v0);
    PieceBitAt(t, f, i);
    if touched {
      TouchedLive(t, mark, f, before[f.path], states[f.path], i, complete, v);
    } else {
      UntouchedLive(t, mark, f, before[f.path], i, complete);
    }
  }

  lemma RunReads(t: Setup, mark: bool, before: States, states: States, v0: View, v: View, lo: nat, n: nat, i: int)
    requires AllFilesOk(t, before, v0) && RunTouched(t, mark, before, states, lo, n, i, v) && Later(v0, v) && !v.clash
    ensures forall q: nat :: ByteAt(t.files, states, v.blobs, q) == ByteAt(t.files, before, v0.blobs, q)
  {
    hide Touched, FileOk, Layout, Locate, ByteOf, Later;
    forall q: nat ensures ByteAt(t.files, states, v.blobs, q) == ByteAt(t.files, before, v0.blobs, q) {
      var j := Locate(t.files, q);
      if j < |t.files| {
        var p := t.files[j].path;
        FileAt(t, before, v0, j);
        BitmapShape(t, t.files[j], before[p], v0);
        assert TouchedAt(t, mark, before, states, lo <= j < lo + n, t.files[j], i, v);
        if lo <= j < lo + n {
          TouchedReads(t, mark, t.files[j], before[p], states[p], i - FirstPiece(t.files[j], t.pl), v0, v, q);
        } else {
          SameReads(t.files[j], before[p], v0, v, q);
        }
      }
    }
  }

  lemma ProgressEnds(t: Setup, mark: bool, before: States, v0: View, states: States, v: View, lo: nat, n: nat, i: nat,
                     complete: set<int>)
    requires t.pl > 0 && i < NumPieces(t.total, t.pl) && IsRun(t, i, lo, n)
    requires Progress(t, mark, before, v0, states, v, lo, n, i) && AllFilesOk(t, before, v0)
    requires Clean(before) ==> AllFilesLive(t, before, complete)
    ensures SoundBlobs(t.h, v.blobs) && Later(v0, v) && AllFilesOk(t, states, v)
    ensures Settled(before, states) && (Clean(states) <==> Clean(before))
    ensures Clean(states) ==> AllFilesLive(t, states, CompleteAfter(mark, complete, i))
    ensures v.clash || forall q: nat :: ByteAt(t.files, states, v.blobs, q) == ByteAt(t.files, before, v0.blobs, q)
    ensures PieceTouched(t, mark, before, states, i, v)
    ensures mark ==> forall j :: 0 <= j < |t.files| && Touches(t, t.files[j], i) ==>
      !FillsBadly(t, t.files[j], before, i)
  {
    hide AllFilesOk, RunTouched, Later, SoundBlobs, FillsBadly, Times, Settled, Clean, AllFilesLive, ByteAt;
    RunSettles(t, mark, before, states, lo, n, i, v);
    if Clean(before) {
      RunLive(t, mark, before, states, v0, v, lo, n, i, complete);
    }
    if !v.clash {
      RunReads(t, mark, before, states, v0, v, lo, n, i);
    }
  }

  /* ---- What Completion reads ---- */

  /** Every file that piece i overlaps has a bit for it, and the bit is set. */
  ghost predicate Reported(t: Setup, states: States, i: nat)
    requires t.pl > 0
  {
    forall j :: 0 <= j < |t.files| && Touches(t, t.files[j], i) ==>
      BitOf(t, states, t.files[j], i) == Some(true)
  }

  /** The bit of piece i in the bitmap of file f, if the bitmap reaches that far. */
  function BitOf(t: Setup, states: States, f: FileRange, i: nat): Option<bool>
    requires t.pl > 0
  {
    if f.path in states && 0 <= i - FirstPiece(f, t.pl) < |states[f.path].pieces|
    then Some(states[f.path].pieces[i - FirstPiece(f, t.pl)]) else None
  }

  /** No guard on a bit index ever fires: each piece has a bit in each file that it overlaps. */
  ghost predicate BitsInRange(t: Setup, states: States)
    requires t.pl > 0
  {
    forall j, i: nat :: 0 <= j < |t.files| && i < NumPieces(t.total, t.pl) && Touches(t, t.files[j], i) ==>
      BitOf(t, states, t.files[j], i).Some?
  }

  lemma BitsFit(t: Setup, states: States, v: View)
    requires AllFilesOk(t, states, v)
    ensures BitsInRange(t, states)
  {
    hide FileOk, Layout, Times, FirstPiece, PieceCount;
    forall j, i: nat | 0 <= j < |t.files| && i < NumPieces(t.total, t.pl) && Touches(t, t.files[j], i)
      ensures BitOf(t, states, t.files[j], i).Some?
    {
      FileAt(t, states, v, j);
      BitmapShape(t, t.files[j], states[t.files[j].path], v);
      PieceBitAt(t, t.files[j], i);
    }
  }

  /* ---- Stream positions and their places ---- */

  /** Where a stream position is kept: the file's name, and the offset in what is kept under it. */
  function PlaceOf(files: seq<FileRange>, q: nat): Option<(Bytes, int)> {
    var j := Locate(files, q);
    if j < |files| then Some((files[j].path, q - files[j].begin)) else None
  }

  /** No two stream positions are kept in one place. */
  ghost predicate OwnPlaces(files: seq<FileRange>, total: nat) {
    forall q: nat, r: nat :: q < total && r < total && PlaceOf(files, q) == PlaceOf(files, r) ==> q == r
  }

  lemma PlacesDiffer(t: Setup)
    requires Layout(t.files, t.total)
    ensures OwnPlaces(t.files, t.total)
  {
    hide Layout, Locate;
    forall q: nat, r: nat | q < t.total && r < t.total && PlaceOf(t.files, q) == PlaceOf(t.files, r) ensures q == r {
      LocateInside(t.files, t.total, q);
      LocateInside(t.files, t.total, r);
      OtherPath(t, Locate(t.files, q), Locate(t.files, r));
    }
  }

  /** Of two positions in one place, a write to one changes what is read at the other. */
  lemma SharedPlace(files: seq<FileRange>, states: States, blobs: map<string, Bytes>, q: nat, r: nat, c: char)
    requires PlaceOf(files, q).Some? && PlaceOf(files, q) == PlaceOf(files, r) && PlaceOf(files, q).value.1 >= 0
    requires var p := PlaceOf(files, q).value.0; p in states && !states[p].sealed
    ensures var (p, off) := PlaceOf(files, q).value;
      ByteAt(files, states[p := WriteChunk(states[p], off, [c])], blobs, r) == Some(c)
  {
    hide Locate;
  }

  /** The same files, with bitmaps of the same lengths; no call of the driver changes either. */
  ghost predicate SameBitmaps(before: States, after: States) {
    forall p :: p in before ==> p in after && |after[p].pieces| == |before[p].pieces|
  }

  /** A piece without a bit is never reported complete, whatever bits are set. */
  lemma NoBitNeverReported(t: Setup, states: States, after: States, j: nat, i: nat)
    requires t.pl > 0 && j < |t.files| && Touches(t, t.files[j], i)
    requires t.files[j].path in states && BitOf(t, states, t.files[j], i).None?
    requires SameBitmaps(states, after)
    ensures !Reported(t, after, i)
  {
    hide Times, FirstPiece;
    assert BitOf(t, after, t.files[j], i).None?;
  }
}
