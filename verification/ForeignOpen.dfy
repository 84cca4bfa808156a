/**
 Opening a foreign torrent: the torrent's own file list, which is untrusted, is checked against the
 anchor of record, and the stream geometry and the first file states are laid out.
 */
module ForeignOpen {
  import opened Basics
  import opened BlobStore
  import opened ForeignLayout
  import opened ForeignState
  import opened ForeignDriver
  import Merkle
  import Paths

  /** One file of the torrent's info dict, in stream order. */
  datatype Entry = Entry(path: seq<Bytes>, length: nat)

  /** canonicalTorrentPath: no empty, "." or ".." segment and no backslash. */
  predicate CanonicalPath(segs: seq<Bytes>) {
    segs != [] && forall k :: 0 <= k < |segs| ==>
      segs[k] != "" && segs[k] != "." && segs[k] != ".." && '\\' !in segs[k]
  }

  function Name(e: Entry): Bytes {
    Paths.Join(e.path)
  }

  /** The entry is not what the anchor describes. */
  ghost predicate Refused(h: Hasher, sha1: Bytes -> string, anchors: map<Bytes, Anchor>, strict: bool, e: Entry) {
    || !CanonicalPath(e.path)
    || (Name(e) !in anchors && strict)
    || (Name(e) in anchors &&
        var a := anchors[Name(e)];
        || (a.size != 0 && a.size != e.length)
        || (e.length == 0 && a.sha256 != "" && a.sha256 != Hex(h("")))
        || (e.length == 0 && a.gitSha1 != "" && !HasGitId(sha1, "", a.gitSha1)))
  }

  function TotalOf(entries: seq<Entry>): nat {
    if entries == [] then 0 else TotalOf(entries[..|entries| - 1]) + entries[|entries| - 1].length
  }

  /** The non-empty entries laid end to end. */
  function RangesOf(entries: seq<Entry>): seq<FileRange> {
    if entries == [] then [] else
    var init, e := entries[..|entries| - 1], entries[|entries| - 1];
    RangesOf(init) + if e.length == 0 then [] else [FileRange(Name(e), TotalOf(init), TotalOf(init) + e.length)]
  }

  /** A non-empty entry before position k has name p. */
  ghost predicate Taken(entries: seq<Entry>, k: nat, p: Bytes)
    requires k <= |entries|
  {
    exists i :: 0 <= i < k && entries[i].length > 0 && Name(entries[i]) == p
  }

  /** No entry reuses the name of a non-empty entry before it. */
  ghost predicate NoReuse(entries: seq<Entry>) {
    forall k :: 0 <= k < |entries| ==> !Taken(entries, k, Name(entries[k]))
  }

  ghost predicate HasFile(files: seq<FileRange>, p: Bytes) {
    exists j :: 0 <= j < |files| && files[j].path == p
  }

  /** Where a non-empty entry lies in the stream: after all the bytes of the entries before it. */
  lemma {:induction false} RangeAt(entries: seq<Entry>, k: nat) returns (j: nat)
    requires k < |entries| && entries[k].length > 0
    ensures j < |RangesOf(entries)| && TotalOf(entries[..k]) + entries[k].length <= TotalOf(entries)
    ensures RangesOf(entries)[j] ==
      FileRange(Name(entries[k]), TotalOf(entries[..k]), TotalOf(entries[..k]) + entries[k].length)
  {
    hide Name;
    var n := |entries| - 1;
    if k == n {
      j := |RangesOf(entries[..n])|;
    } else {
      j := RangeAt(entries[..n], k);
      assert entries[..n][..k] == entries[..k];
    }
  }

  /** Every file of the stream is a non-empty entry. */
  lemma {:induction false} EntryAt(entries: seq<Entry>, j: nat) returns (k: nat)
    requires j < |RangesOf(entries)|
    ensures k < |entries| && entries[k].length > 0 && TotalOf(entries[..k]) + entries[k].length <= TotalOf(entries)
    ensures RangesOf(entries)[j] ==
      FileRange(Name(entries[k]), TotalOf(entries[..k]), TotalOf(entries[..k]) + entries[k].length)
  {
    hide Name;
    var n := |entries| - 1;
    if j == |RangesOf(entries[..n])| {
      k := n;
    } else {
      k := EntryAt(entries[..n], j);
      assert entries[..n][..k] == entries[..k];
    }
  }

  lemma {:induction false} RangesTaken(entries: seq<Entry>, p: Bytes)
    ensures HasFile(RangesOf(entries), p) <==> Taken(entries, |entries|, p)
  {
    if entries != [] {
      var n := |entries| - 1;
      var init, e, r := entries[..n], entries[n], RangesOf(entries);
      RangesTaken(init, p);
      assert forall j :: 0 <= j < |RangesOf(init)| ==> r[j] == RangesOf(init)[j];
      if HasFile(RangesOf(init), p) {
        var i :| 0 <= i < n && init[i].length > 0 && Name(init[i]) == p;
        assert entries[i] == init[i];
        var j :| 0 <= j < |RangesOf(init)| && RangesOf(init)[j].path == p;
        assert r[j].path == p;
      } else if e.length > 0 && Name(e) == p {
        assert r[|r| - 1].path == p;
        assert Taken(entries, |entries|, p);
      }
    }
  }

  /** Ranges one after the other, none of them empty. */
  ghost predicate Tiles(files: seq<FileRange>, total: nat) {
    && (forall j :: 0 <= j < |files| ==> files[j].begin < files[j].end <= total)
    && (forall j, k :: 0 <= j < k < |files| ==> files[j].end <= files[k].begin)
  }

  lemma {:induction false} RangesTile(entries: seq<Entry>)
    ensures Tiles(RangesOf(entries), TotalOf(entries))
  {
    if entries != [] {
      RangesTile(entries[..|entries| - 1]);
    }
  }

  lemma LocateStart(files: seq<FileRange>, total: nat, j: nat)
    requires Tiles(files, total) && j < |files|
    ensures Locate(files, files[j].begin) == j
  {
    LocateBounds(files, files[j].begin);
  }

  /** What Register recorded for a name; nothing, when the name is not anchored. */
  function AnchorFor(anchors: map<Bytes, Anchor>, p: Bytes): (a: Anchor)
    ensures p in anchors ==> a == anchors[p]
    ensures p !in anchors ==> a.size == 0 && a.sha256 == "" && a.gitSha1 == ""
  {
    if p in anchors then anchors[p] else Anchor("", 0, "", "")
  }

  /** The first state of a non-empty file, sealed already when the store has what its anchor pins. */
  function FirstState(a: Anchor, f: FileRange, pl: nat, sealed: bool): FileState
    requires pl > 0 && f.begin < f.end
  {
    FileState(Anchor(f.path, f.end - f.begin, a.sha256, a.gitSha1), None, sealed, if sealed then a.sha256 else "",
              None, seq(Max0(PieceCount(f, pl)), _ => false), 0)
  }

  function Max0(n: int): nat {
    if n < 0 then 0 else n
  }

  function EmptyState(p: Bytes, digest: string): FileState {
    FileState(Anchor(p, 0, digest, ""), None, true, digest, None, [], 0)
  }

  lemma OnePieceAtLeast(f: FileRange, pl: nat)
    requires pl > 0 && f.begin < f.end
    ensures PieceCount(f, pl) >= 1
  {
    DivCompare(f.begin, pl, FirstPiece(f, pl));
    DivCompare(f.end - 1, pl, FirstPiece(f, pl));
  }

  lemma FirstStateOk(t: Setup, a: Anchor, f: FileRange, sealed: bool, v: View)
    requires t.pl > 0 && f.begin < f.end && (sealed ==> a.sha256 in v.blobs) && (f.path in t.preSealed <==> sealed)
    ensures FileOk(t, f, FirstState(a, f, t.pl, sealed), v) && FileLive(t.pl, f, FirstState(a, f, t.pl, sealed), {})
  {
    OnePieceAtLeast(f, t.pl);
    CountNone(PieceCount(f, t.pl));
  }

  /** Two files share a name, or a file's state has lost its bitmap to an empty namesake. */
  ghost predicate Broken(files: seq<FileRange>, states: States) {
    || (exists j, k :: 0 <= j < k < |files| && files[j].path == files[k].path)
    || (exists j :: 0 <= j < |files| && files[j].path in states && states[files[j].path].pieces == [])
  }

  lemma BrokenIsInvalid(t: Setup, states: States, v: View)
    requires Broken(t.files, states)
    ensures !AllFilesOk(t, states, v)
  {
    if AllFilesOk(t, states, v) {
      FilesPresent(t, states, v);
      forall j | 0 <= j < |t.files| ensures states[t.files[j].path].pieces != [] {
        FileAt(t, states, v, j);
        OnePieceAtLeast(t.files[j], t.pl);
        BitmapShape(t, t.files[j], states[t.files[j].path], v);
      }
      assert false;
    }
  }

  /** What breaks: two stream positions share a place, or a piece has no bit in a file that it overlaps. */
  lemma BrokenShows(t: Setup, states: States)
    requires t.pl > 0 && Tiles(t.files, t.total) && Broken(t.files, states)
    ensures !OwnPlaces(t.files, t.total) || !BitsInRange(t, states)
  {
    hide Locate, Times, Touches, NumPieces;
    if j, k :| 0 <= j < k < |t.files| && t.files[j].path == t.files[k].path {
      LocateStart(t.files, t.total, j);
      LocateStart(t.files, t.total, k);
      assert PlaceOf(t.files, t.files[j].begin) == PlaceOf(t.files, t.files[k].begin);
      assert t.files[j].begin < t.files[j].end <= t.files[k].begin;
    } else {
      var j :| 0 <= j < |t.files| && t.files[j].path in states && states[t.files[j].path].pieces == [];
      FirstPieceTouches(t, t.files[j]);
      assert BitOf(t, states, t.files[j], FirstPiece(t.files[j], t.pl)).None?;
    }
  }

  lemma FirstPieceTouches(t: Setup, f: FileRange)
    requires t.pl > 0 && f.begin < f.end <= t.total
    ensures FirstPiece(f, t.pl) < NumPieces(t.total, t.pl) && Touches(t, f, FirstPiece(f, t.pl))
  {
    var i := FirstPiece(f, t.pl);
    DivCompare(f.begin, t.pl, i);
    PieceStart(t.total, t.pl, i);
    OnePieceAtLeast(f, t.pl);
    PieceBitAt(t, f, i);
  }

  /** Every file starts under its own anchor, with no bit set, sealed when the store had what the anchor pins. */
  ghost predicate AllStart(t: Setup, anchors: map<Bytes, Anchor>, states: States, had: map<string, Bytes>, v: View)
    requires t.pl > 0
  {
    forall j :: 0 <= j < |t.files| ==>
      t.files[j].begin < t.files[j].end && t.files[j].path in states &&
      StartsAs(t, t.files[j], AnchorFor(anchors, t.files[j].path), states[t.files[j].path], had, v)
  }

  ghost predicate StartsAs(t: Setup, f: FileRange, a: Anchor, st: FileState, had: map<string, Bytes>, v: View)
    requires t.pl > 0 && f.begin < f.end
  {
    && st.anchor == Anchor(f.path, f.end - f.begin, a.sha256, a.gitSha1)
    && st.part.None? && st.failed.None? && (forall k :: 0 <= k < |st.pieces| ==> !st.pieces[k])
    && (st.sealed <==> f.path in t.preSealed)
    && (st.sealed ==> st.digest == a.sha256 != "" && a.sha256 in v.blobs)
    && (a.sha256 != "" && a.sha256 in had ==> st.sealed)
  }

  /** The stream as far as the first k entries go. */
  ghost predicate Opened(t: Setup, anchors: map<Bytes, Anchor>, had: map<string, Bytes>, entries: seq<Entry>, k: nat,
                         states: States, v: View)
  {
    && t.pl > 0 && k <= |entries| && SoundBlobs(t.h, v.blobs)
    && t.files == RangesOf(entries[..k]) && t.total == TotalOf(entries[..k])
    && (forall p :: p in t.preSealed ==> HasFile(t.files, p))
    && (forall j :: 0 <= j < |t.files| ==> t.files[j].path in states)
    && Clean(states)
    && (NoReuse(entries[..k]) ==>
         AllFilesOk(t, states, v) && AllFilesLive(t, states, {}) && AllStart(t, anchors, states, had, v))
    && (!NoReuse(entries[..k]) ==> Broken(t.files, states))
  }

  lemma Prefixes(entries: seq<Entry>, k: nat)
    requires k < |entries|
    ensures entries[..k + 1][..k] == entries[..k] && entries[..k + 1][k] == entries[k]
    ensures NoReuse(entries[..k + 1]) <==> NoReuse(entries[..k]) && !HasFile(RangesOf(entries[..k]), Name(entries[k]))
  {
    RangesTaken(entries[..k], Name(entries[k]));
    assert forall i, p :: 0 <= i <= k ==> (Taken(entries[..k + 1], i, p) <==> Taken(entries[..k], i, p));
    if NoReuse(entries[..k + 1]) {
      assert !Taken(entries[..k + 1], k, Name(entries[..k + 1][k]));
      forall i | 0 <= i < k ensures !Taken(entries[..k], i, Name(entries[..k][i])) {
        assert !Taken(entries[..k + 1], i, Name(entries[..k + 1][i]));
      }
    } else {
      var i :| 0 <= i < k + 1 && Taken(entries[..k + 1], i, Name(entries[..k + 1][i]));
      assert i < k ==> Taken(entries[..k], i, Name(entries[..k][i]));
    }
  }

  /** An empty file under a new name: sealed under the digest of no bytes, and no part of the stream. */
  lemma AddEmpty(t: Setup, anchors: map<Bytes, Anchor>, had: map<string, Bytes>, states: States, v: View, p: Bytes,
                 digest: string, w: View)
    requires AllFilesOk(t, states, v) && AllFilesLive(t, states, {}) && AllStart(t, anchors, states, had, v)
    requires !HasFile(t.files, p) && Later(v, w) && digest in w.blobs
    ensures var after := states[p := EmptyState(p, digest)];
      AllFilesOk(t, after, w) && AllFilesLive(t, after, {}) && AllStart(t, anchors, after, had, w)
  {
    hide Later, FileOk, FileLive, Layout, FirstState;
    LaterBlobs(v, w);
    forall j | 0 <= j < |t.files|
      ensures t.files[j].path != p && FileOk(t, t.files[j], states[t.files[j].path], w)
    {
      FileAt(t, states, v, j);
      FileOkLater(t, t.files[j], states[t.files[j].path], v, w);
    }
  }

  /** An empty entry. */
  lemma OpenEmpty(t: Setup, anchors: map<Bytes, Anchor>, had: map<string, Bytes>, entries: seq<Entry>, k: nat,
                  states: States,
                  v: View, digest: string, w: View)
    requires k < |entries| && entries[k].length == 0 && Opened(t, anchors, had, entries, k, states, v)
    requires SoundBlobs(t.h, w.blobs) && Later(v, w) && digest in w.blobs
    ensures Opened(t, anchors, had, entries, k + 1, states[Name(entries[k]) := EmptyState(Name(entries[k]), digest)], w)
  {
    hide Later, SoundBlobs, AllFilesOk, AllFilesLive, Broken, NoReuse, AllStart;
    var p := Name(entries[k]);
    var after := states[p := EmptyState(p, digest)];
    Prefixes(entries, k);
    if NoReuse(entries[..k + 1]) {
      AddEmpty(t, anchors, had, states, v, p, digest, w);
    } else if !NoReuse(entries[..k]) {
      KeepsBroken(t.files, states, t.files, after, p);
    } else {
      LosesBitmap(t.files, after, p);
    }
  }

  lemma LosesBitmap(files: seq<FileRange>, states: States, p: Bytes)
    requires HasFile(files, p) && p in states && states[p].pieces == []
    ensures Broken(files, states)
  {
    var j :| 0 <= j < |files| && files[j].path == p;
    assert files[j].path in states;
  }

  lemma KeepsBroken(files: seq<FileRange>, states: States, files': seq<FileRange>, after: States, p: Bytes)
    requires Broken(files, states) && files <= files' && p in after
    requires after == states[p := after[p]]
    requires after[p].pieces == [] || (exists k :: |files| <= k < |files'| && files'[k].path == p)
    ensures Broken(files', after)
  {
    if j, k :| 0 <= j < k < |files| && files[j].path == files[k].path {
      assert files'[j].path == files'[k].path;
    } else {
      var j :| 0 <= j < |files| && files[j].path in states && states[files[j].path].pieces == [];
      assert files'[j] == files[j];
      if files[j].path == p && after[p].pieces != [] {
        var k :| |files| <= k < |files'| && files'[k].path == p;
        assert files'[j].path == files'[k].path;
      }
    }
  }

  function Extended(t: Setup, f: FileRange, sealed: bool): Setup {
    t.(total := f.end, files := t.files + [f], preSealed := if sealed then t.preSealed + {f.path} else t.preSealed)
  }

  lemma LayoutGrows(files: seq<FileRange>, total: nat, f: FileRange)
    requires Layout(files, total) && f.begin == total && f.begin < f.end && !HasFile(files, f.path)
    ensures Layout(files + [f], f.end)
  {
    var g := files + [f];
    assert g[|files|] == f;
    forall j | 0 <= j < |files| ensures g[j] == files[j] && g[j].path != f.path && g[j].end <= total {
    }
  }

  ghost predicate StartsOk(t: Setup, anchors: map<Bytes, Anchor>, f: FileRange, states: States,
                           had: map<string, Bytes>, v: View)
    requires t.pl > 0
  {
    && f.begin < f.end && f.path in states
    && FileOk(t, f, states[f.path], v) && FileLive(t.pl, f, states[f.path], {})
    && StartsAs(t, f, AnchorFor(anchors, f.path), states[f.path], had, v)
  }

  lemma AppendedOk(t: Setup, anchors: map<Bytes, Anchor>, had: map<string, Bytes>, states: States, v: View,
                   f: FileRange, sealed: bool)
    requires t.pl > 0 && f.begin < f.end && !(f.path in t.preSealed)
    requires var a := AnchorFor(anchors, f.path);
      (a.sha256 != "" && a.sha256 in had ==> sealed) && (sealed ==> a.sha256 != "" && a.sha256 in v.blobs)
    requires f.path in states && states[f.path] == FirstState(AnchorFor(anchors, f.path), f, t.pl, sealed)
    ensures StartsOk(Extended(t, f, sealed), anchors, f, states, had, v)
  {
    hide FileOk, FileLive;
    FirstStateOk(Extended(t, f, sealed), AnchorFor(anchors, f.path), f, sealed, v);
  }

  /** A non-empty file under a new name, appended to the stream. */
  lemma AppendFile(t: Setup, anchors: map<Bytes, Anchor>, had: map<string, Bytes>, states: States, v: View,
                   f: FileRange, sealed: bool)
    requires AllFilesOk(t, states, v) && AllFilesLive(t, states, {}) && AllStart(t, anchors, states, had, v)
    requires var a := AnchorFor(anchors, f.path);
      (a.sha256 != "" && a.sha256 in had ==> sealed) && (sealed ==> a.sha256 != "" && a.sha256 in v.blobs)
    requires f.begin == t.total && f.begin < f.end && !HasFile(t.files, f.path)
    requires forall p :: p in t.preSealed ==> HasFile(t.files, p)
    ensures
      var t', after :=
        Extended(t, f, sealed), states[f.path := FirstState(AnchorFor(anchors, f.path), f, t.pl, sealed)];
      AllFilesOk(t', after, v) && AllFilesLive(t', after, {}) && AllStart(t', anchors, after, had, v)
  {
    hide FileOk, FileLive, Layout, FirstState, AnchorFor, StartsAs;
    var t', after := Extended(t, f, sealed), states[f.path := FirstState(AnchorFor(anchors, f.path), f, t.pl, sealed)];
    LayoutGrows(t.files, t.total, f);
    AppendedOk(t, anchors, had, after, v, f, sealed);
    forall j | 0 <= j < |t'.files| ensures StartsOk(t', anchors, t'.files[j], after, had, v) {
      if j < |t.files| {
        assert t.files[j].path != f.path;
        FileOkExtends(t, f, sealed, t.files[j], states[t.files[j].path], v);
        StartsExtends(t, f, sealed, t.files[j], AnchorFor(anchors, t.files[j].path), states[t.files[j].path], had, v);
      }
    }
    FilesOkAre(t', anchors, after, had, v);
    forall p | p in after
      ensures HasFile(t'.files, p) || (after[p].sealed && after[p].failed.None? && after[p].digest in v.blobs)
    {
      SameNames(t.files, f, p);
    }
  }

  lemma SameNames(files: seq<FileRange>, f: FileRange, p: Bytes)
    ensures HasFile(files + [f], p) <==> HasFile(files, p) || f.path == p
  {
    if j :| 0 <= j < |files| && files[j].path == p {
      assert (files + [f])[j].path == p;
    }
    assert (files + [f])[|files|] == f;
  }

  lemma StartsExtends(t: Setup, f: FileRange, sealed: bool, g: FileRange, a: Anchor, st: FileState,
                      had: map<string, Bytes>, v: View)
    requires t.pl > 0 && g.begin < g.end && StartsAs(t, g, a, st, had, v) && g.path != f.path
    ensures StartsAs(Extended(t, f, sealed), g, a, st, had, v)
  {
    hide FirstState;
  }

  lemma FilesOkAre(t: Setup, anchors: map<Bytes, Anchor>, states: States, had: map<string, Bytes>, v: View)
    requires t.pl > 0 && forall j :: 0 <= j < |t.files| ==> StartsOk(t, anchors, t.files[j], states, had, v)
    ensures forall j :: 0 <= j < |t.files| ==>
      && t.files[j].begin < t.files[j].end
      && t.files[j].path in states && FileOk(t, t.files[j], states[t.files[j].path], v)
    ensures AllFilesLive(t, states, {}) && AllStart(t, anchors, states, had, v)
  {
    hide FileOk, FileLive, StartsAs, AnchorFor;
    forall j | 0 <= j < |t.files| ensures StartsOk(t, anchors, t.files[j], states, had, v) {
    }
  }

  lemma FirstStateClean(states: States, p: Bytes, a: Anchor, f: FileRange, pl: nat, sealed: bool)
    requires pl > 0 && f.begin < f.end && Clean(states)
    ensures Clean(states[p := FirstState(a, f, pl, sealed)])
  {
  }

  /** A non-empty entry: its range follows the stream so far. */
  lemma OpenFile(t: Setup, anchors: map<Bytes, Anchor>, had: map<string, Bytes>, entries: seq<Entry>, k: nat,
                 states: States,
                 v: View, a: Anchor, sealed: bool)
    requires k < |entries| && entries[k].length > 0 && Opened(t, anchors, had, entries, k, states, v)
    requires a == AnchorFor(anchors, Name(entries[k])) && (a.sha256 != "" && a.sha256 in had ==> sealed)
    requires sealed ==> a.sha256 != "" && a.sha256 in v.blobs
    ensures var f := FileRange(Name(entries[k]), t.total, t.total + entries[k].length);
      Opened(Extended(t, f, sealed), anchors, had, entries, k + 1, states[f.path := FirstState(a, f, t.pl, sealed)], v)
  {
    hide SoundBlobs, AllFilesOk, AllFilesLive, Broken, NoReuse, AllStart, FirstState, AnchorFor;
    var f := FileRange(Name(entries[k]), t.total, t.total + entries[k].length);
    var t' := Extended(t, f, sealed);
    Prefixes(entries, k);
    FirstStateClean(states, f.path, a, f, t.pl, sealed);
    assert t'.files[|t.files|].path == f.path;
    assert forall j :: 0 <= j < |t.files| ==> t'.files[j] == t.files[j];
    if NoReuse(entries[..k + 1]) {
      AppendFile(t, anchors, had, states, v, f, sealed);
    } else if !NoReuse(entries[..k]) {
      KeepsBroken(t.files, states, t'.files, states[f.path := FirstState(a, f, t.pl, sealed)], f.path);
    } else {
      NowBroken(t.files, f, states[f.path := FirstState(a, f, t.pl, sealed)]);
    }
  }

  lemma NowBroken(files: seq<FileRange>, f: FileRange, states: States)
    requires HasFile(files, f.path)
    ensures Broken(files + [f], states)
  {
    var j :| 0 <= j < |files| && files[j].path == f.path;
    assert (files + [f])[j].path == (files + [f])[|files|].path;
  }

  lemma FileOkExtends(t: Setup, f: FileRange, sealed: bool, g: FileRange, st: FileState, v: View)
    requires t.pl > 0 && g.begin < g.end && FileOk(t, g, st, v) && g.path != f.path
    ensures FileOk(Extended(t, f, sealed), g, st, v)
  {
  }

  lemma OpenStarts(t: Setup, anchors: map<Bytes, Anchor>, entries: seq<Entry>, v: View)
    requires t.pl > 0 && t.files == [] && t.total == 0 && t.preSealed == {} && SoundBlobs(t.h, v.blobs)
    ensures Opened(t, anchors, v.blobs, entries, 0, map[], v)
  {
    assert entries[..0] == [];
  }

  lemma OpenEnds(t: Setup, anchors: map<Bytes, Anchor>, had: map<string, Bytes>, entries: seq<Entry>, states: States,
                 v: View)
    requires Opened(t, anchors, had, entries, |entries|, states, v)
    ensures t.pl > 0 && t.files == RangesOf(entries) && t.total == TotalOf(entries) && Clean(states)
    ensures forall j :: 0 <= j < |t.files| ==> t.files[j].path in states
    ensures AllFilesOk(t, states, v) && AllFilesLive(t, states, {}) <==> NoReuse(entries)
    ensures NoReuse(entries) ==> AllStart(t, anchors, states, had, v)
    ensures OwnPlaces(t.files, t.total) && BitsInRange(t, states) <==> NoReuse(entries)
  {
    hide AllFilesOk, AllFilesLive, NoReuse, Broken, SoundBlobs, AllStart, OwnPlaces, BitsInRange, Layout, Tiles;
    assert entries[..|entries|] == entries;
    if !NoReuse(entries) {
      BrokenIsInvalid(t, states, v);
      RangesTile(entries);
      BrokenShows(t, states);
    } else {
      BitsFit(t, states, v);
      FilesPresent(t, states, v);
      PlacesDiffer(t);
    }
  }

  /** canonicalTorrentPath */
  method CheckPath(segs: seq<Bytes>) returns (ok: bool)
    ensures ok <==> CanonicalPath(segs)
  {
    if |segs| == 0 {
      return false;
    }
    for k := 0 to |segs|
      invariant CanonicalPath(segs[..k]) || k == 0
    {
      var s := segs[k];
      if s == "" || s == "." || s == ".." || '\\' in s {
        return false;
      }
      assert segs[..k + 1] == segs[..k] + [s];
    }
    assert segs[..|segs|] == segs;
    return true;
  }

  /** The refusals of newForeignTorrent. */
  datatype Refusal = NotCanonical | NotAnchored | AnchorSize | AnchorSha256 | AnchorGitBlob

  /** What the anchor says of a size: nothing, when it is zero. */
  predicate SizeAgrees(a: Anchor, size: int) {
    a.size == 0 || a.size == size
  }

  /** The refusals of newForeignTorrent, in its order: the size gate comes before the empty file. */
  method CheckEntry(h: Hasher, sha1: Bytes -> string, anchors: map<Bytes, Anchor>, strict: bool, e: Entry)
    returns (r: Option<Refusal>)
    ensures r.Some? <==> Refused(h, sha1, anchors, strict, e)
    ensures r == Some(NotCanonical) <==> !CanonicalPath(e.path)
    ensures r == Some(NotAnchored) <==> CanonicalPath(e.path) && strict && Name(e) !in anchors
    ensures r == Some(AnchorSize) <==>
      CanonicalPath(e.path) && Name(e) in anchors && !SizeAgrees(anchors[Name(e)], e.length)
  {
    var canonical := CheckPath(e.path);
    if !canonical {
      return Some(NotCanonical);
    }
    var p := Name(e);
    var anchored := p in anchors;
    if !anchored && strict {
      return Some(NotAnchored);
    }
    var a := AnchorFor(anchors, p);
    if anchored && a.size != 0 && a.size != e.length {
      return Some(AnchorSize);
    }
    if e.length == 0 {
      if a.sha256 != "" && a.sha256 != Hex(h("")) {
        return Some(AnchorSha256);
      }
      GitIdIs(sha1, "", a.gitSha1);
      if a.gitSha1 != "" && a.gitSha1 != GitBlob(sha1, "") {
        return Some(AnchorGitBlob);
      }
    }
    return None;
  }

  /** Some content is what the anchor of record describes. */
  ghost predicate Describes(h: Hasher, sha1: Bytes -> string, a: Anchor, content: Bytes) {
    && SizeAgrees(a, |content|)
    && (a.sha256 != "" ==> Hex(h(content)) == a.sha256)
    && (a.gitSha1 != "" ==> HasGitId(sha1, content, a.gitSha1))
  }

  /**
   What the checks at opening mean for an anchored file.  An empty one is taken exactly when the empty
   content is what its anchor describes.  Another is refused only if no content of the torrent's length
   is, and once taken it passes the gate of the seal with exactly the content that is.
   */
  lemma RefusalMeans(t: Setup, anchors: map<Bytes, Anchor>, strict: bool, e: Entry, begin: nat, sealed: bool,
                     content: Bytes)
    requires t.pl > 0 && CanonicalPath(e.path) && Name(e) in anchors && |content| == e.length
    ensures e.length == 0 ==>
      (Refused(t.h, t.sha1, anchors, strict, e) <==> !Describes(t.h, t.sha1, anchors[Name(e)], content))
    ensures Refused(t.h, t.sha1, anchors, strict, e) ==> !Describes(t.h, t.sha1, anchors[Name(e)], content)
    ensures !Refused(t.h, t.sha1, anchors, strict, e) && e.length > 0 ==>
      var f := FileRange(Name(e), begin, begin + e.length);
      Gate(t, FirstState(anchors[Name(e)], f, t.pl, sealed).anchor, content) <==>
        Describes(t.h, t.sha1, anchors[Name(e)], content)
  {
    hide CanonicalPath, Hex, HasGitId;
    assert e.length == 0 ==> content == "";
  }

  lemma OldBlob(digest: string, v: View, w: View)
    requires Later(v, w)
    ensures digest in v.blobs ==> digest in w.blobs
  {
  }

  /**
   newForeignTorrent.  It refuses exactly when some entry is not what the anchor describes; what it
   opens is in order exactly when no entry reuses the name of a non-empty entry before it.
   */
  method Open(store: Store, sha1: Bytes -> string, pl: nat, entries: seq<Entry>, anchors: map<Bytes, Anchor>,
              strict: bool)
    returns (d: ForeignTorrent?)
    requires store.Sound() && pl > 0
    modifies store
    ensures store.Sound() && Later(old(store.Now()), store.Now())
    ensures d == null <==> exists k :: 0 <= k < |entries| && Refused(store.h, sha1, anchors, strict, entries[k])
    ensures d != null ==> fresh(d) && d.store == store && d.complete == {} && !d.closed && Clean(d.states)
    ensures d != null ==> d.t.files == RangesOf(entries) && d.t.total == TotalOf(entries) && d.t.pl == pl
    ensures d != null ==> d.t.h == store.h && d.t.sha1 == sha1
    ensures d != null ==> forall j :: 0 <= j < |d.t.files| ==> d.t.files[j].path in d.states
    ensures d != null ==> (d.Valid() <==> NoReuse(entries))
    ensures d != null ==> (OwnPlaces(d.t.files, d.t.total) && BitsInRange(d.t, d.states) <==> NoReuse(entries))
    ensures d != null && NoReuse(entries) ==> AllStart(d.t, anchors, d.states, old(store.blobs), store.Now())
  {
    hide Opened, Later, SoundBlobs, AllFilesOk, AllFilesLive, AllStart, Broken, NoReuse, FirstState, EmptyState,
      Refused,
      OwnPlaces, BitsInRange, RangesOf, TotalOf;
    var t := Setup(store.h, sha1, pl, 0, [], {});
    var states: States := map[];
    LaterRefl(store.Now());
    OpenStarts(t, anchors, entries, store.Now());
    for k := 0 to |entries|
      invariant t.h == store.h && t.sha1 == sha1 && t.pl == pl
      invariant store.Sound() && Later(old(store.Now()), store.Now())
      invariant Opened(t, anchors, old(store.blobs), entries, k, states, store.Now())
      invariant forall i :: 0 <= i < k ==> !Refused(store.h, sha1, anchors, strict, entries[i])
    {
      var e := entries[k];
      ghost var v := store.Now();
      var p := Name(e);
      var refusal := CheckEntry(store.h, sha1, anchors, strict, e);
      if refusal.Some? {
        return null;
      }
      var a := AnchorFor(anchors, p);
      if e.length == 0 {
        var digest := Hex(store.h(""));
        if !store.Has(digest) {
          var ok := store.Put(digest, "");
          assert ok;
        } else {
          LaterRefl(v);
        }
        LaterTrans(old(store.Now()), v, store.Now());
        OpenEmpty(t, anchors, old(store.blobs), entries, k, states, v, digest, store.Now());
        states := states[p := EmptyState(p, digest)];
        continue;
      }
      var f := FileRange(p, t.total, t.total + e.length);
      var sealed := a.sha256 != "" && store.Has(a.sha256);
      OldBlob(a.sha256, old(store.Now()), v);
      OpenFile(t, anchors, old(store.blobs), entries, k, states, v, a, sealed);
      states := states[p := FirstState(a, f, pl, sealed)];
      t := Extended(t, f, sealed);
    }
    OpenEnds(t, anchors, old(store.blobs), entries, states, store.Now());
    d := new ForeignTorrent(store, t, states);
  }

  /* ---- Two file lists that reuse a name ---- */

  lemma OneSegment(name: Bytes, length: nat)
    requires name == "a"
    ensures Name(Entry([name], length)) == name && CanonicalPath([name])
  {
  }

  /** A torrent that names a file twice is opened; its two positions share a place, its two pieces a bit. */
  method OpenTwice(store: Store, sha1: Bytes -> string) returns (d: ForeignTorrent?)
    requires store.Sound()
    modifies store
    ensures d != null && d.t.pl == 1 && d.t.total == 2 && PlaceOf(d.t.files, 0) == PlaceOf(d.t.files, 1)
    ensures forall states: States :: Reported(d.t, states, 0) <==> Reported(d.t, states, 1)
  {
    hide CanonicalPath, Reported, PlaceOf, OwnPlaces, BitsInRange, RangesOf, TotalOf, NoReuse;
    var entries := [Entry(["a"], 1), Entry(["a"], 1)];
    OneSegment("a", 1);
    d := Open(store, sha1, 1, entries, map[], false);
    TwiceRanges(entries);
    TwiceShares(d.t);
  }

  lemma TwiceRanges(entries: seq<Entry>)
    requires entries == [Entry(["a"], 1), Entry(["a"], 1)]
    ensures RangesOf(entries) == [FileRange("a", 0, 1), FileRange("a", 1, 2)] && TotalOf(entries) == 2
  {
    OneSegment("a", 1);
    assert entries[..1] == [entries[0]] && [entries[0]][..0] == [];
    assert RangesOf([entries[0]]) == [FileRange("a", 0, 1)] && TotalOf([entries[0]]) == 1;
  }

  lemma TwiceShares(t: Setup)
    requires t.pl == 1 && t.total == 2 && t.files == [FileRange("a", 0, 1), FileRange("a", 1, 2)]
    ensures PlaceOf(t.files, 0) == PlaceOf(t.files, 1)
    ensures forall states: States :: Reported(t, states, 0) <==> Reported(t, states, 1)
  {
    assert Tiles(t.files, 2);
    LocateStart(t.files, 2, 0);
    LocateStart(t.files, 2, 1);
    assert Touches(t, t.files[0], 0) && !Touches(t, t.files[1], 0);
    assert Touches(t, t.files[1], 1) && !Touches(t, t.files[0], 1);
    forall states: States ensures Reported(t, states, 0) <==> Reported(t, states, 1) {
      assert BitOf(t, states, t.files[0], 0) == BitOf(t, states, t.files[1], 1);
    }
  }

  /** A torrent that names a file and then an empty file alike is opened; its piece is never reported. */
  method OpenEmptied(store: Store, sha1: Bytes -> string) returns (d: ForeignTorrent?)
    requires store.Sound()
    modifies store
    ensures d != null && d.t.pl == 1 && d.t.total == 1
    ensures forall after :: SameBitmaps(d.states, after) ==> !Reported(d.t, after, 0)
  {
    hide CanonicalPath, Reported, OwnPlaces, BitsInRange, RangesOf, TotalOf, NoReuse;
    var entries := [Entry(["a"], 1), Entry(["a"], 0)];
    OneSegment("a", 1);
    OneSegment("a", 0);
    d := Open(store, sha1, 1, entries, map[], false);
    EmptiedRanges(entries);
    assert d.t.files[0].path == "a";
    EmptiedBits(d.t, d.states);
    forall after: States | SameBitmaps(d.states, after) ensures !Reported(d.t, after, 0) {
      NoBitNeverReported(d.t, d.states, after, 0, 0);
    }
  }

  lemma EmptiedRanges(entries: seq<Entry>)
    requires entries == [Entry(["a"], 1), Entry(["a"], 0)]
    ensures RangesOf(entries) == [FileRange("a", 0, 1)] && TotalOf(entries) == 1 && !NoReuse(entries)
  {
    OneSegment("a", 1);
    OneSegment("a", 0);
    assert entries[..1] == [entries[0]] && [entries[0]][..0] == [];
    assert TotalOf([entries[0]]) == 1;
    assert RangesOf([entries[0]]) == [FileRange("a", 0, 1)];
    assert Taken(entries, 1, Name(entries[1]));
  }

  lemma EmptiedBits(t: Setup, states: States)
    requires t.pl == 1 && t.total == 1 && t.files == [FileRange("a", 0, 1)] && "a" in states
    requires !(OwnPlaces(t.files, t.total) && BitsInRange(t, states))
    ensures Touches(t, t.files[0], 0) && BitOf(t, states, t.files[0], 0).None?
  {
    assert OwnPlaces(t.files, t.total);
    assert Touches(t, t.files[0], 0);
    Merkle.CeilDivIs(1, 1, 1);
    assert NumPieces(1, 1) == 1;
  }
}
