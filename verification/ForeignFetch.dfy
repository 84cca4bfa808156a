/** A community torrent, fetched: opened under its anchors, served by the engine, and waited for. */
module ForeignFetch {
  import opened Basics
  import opened BlobStore
  import opened ForeignDriver
  import opened ForeignLayout
  import opened ForeignOpen
  import R = ForeignRuns
  import S = ForeignState

  /** The bytes of entry k in the stream. */
  function SliceOf(entries: seq<Entry>, content: Bytes, k: nat): Bytes
    requires k < |entries| && TotalOf(entries[..k]) + entries[k].length <= |content|
  {
    content[TotalOf(entries[..k])..TotalOf(entries[..k]) + entries[k].length]
  }

  lemma {:induction false} InStream(entries: seq<Entry>, k: nat)
    requires k < |entries|
    ensures TotalOf(entries[..k]) + entries[k].length <= TotalOf(entries)
  {
    var n := |entries| - 1;
    if k < n {
      InStream(entries[..n], k);
      assert entries[..n][..k] == entries[..k];
    }
  }

  /** The stream is what the anchors of its non-empty entries describe. */
  ghost predicate Anchored(h: Hasher, sha1: Bytes -> string, anchors: map<Bytes, S.Anchor>, entries: seq<Entry>,
                           content: Bytes)
  {
    |content| == TotalOf(entries) &&
    forall k :: 0 <= k < |entries| && entries[k].length > 0 ==>
      TotalOf(entries[..k]) + entries[k].length <= |content| &&
      (Name(entries[k]) in anchors ==> Describes(h, sha1, anchors[Name(entries[k])], SliceOf(entries, content, k)))
  }

  /** A freshly opened driver is ready to be served the stream. */
  lemma ReadyToServe(t: S.Setup, anchors: map<Bytes, S.Anchor>, entries: seq<Entry>, states: S.States,
                     had: map<string, Bytes>, v: View, content: Bytes)
    requires t.pl > 0 && t.files == RangesOf(entries) && t.total == TotalOf(entries)
    requires AllStart(t, anchors, states, had, v) && Anchored(t.h, t.sha1, anchors, entries, content)
    ensures forall j :: 0 <= j < |t.files| ==>
      t.files[j].path in states && R.FreshFor(t, t.files[j], states[t.files[j].path], content)
  {
    hide RangesOf, TotalOf, Name, S.HasGitId, Hex;
    forall j | 0 <= j < |t.files|
      ensures t.files[j].path in states && R.FreshFor(t, t.files[j], states[t.files[j].path], content)
    {
      var k := EntryAt(entries, j);
      var f := t.files[j];
      assert StartsAs(t, f, AnchorFor(anchors, f.path), states[f.path], had, v);
      assert R.Slice(f, content) == SliceOf(entries, content, k);
    }
  }

  /** Every piece of the torrent is marked, and not retracted for good. */
  ghost predicate AllPieces(t: S.Setup, calls: seq<R.Call>) {
    t.pl > 0 && forall i: nat :: i < NumPieces(t.total, t.pl) ==> i in R.Marks({}, calls)
  }

  /**
   A torrent whose entries are what its anchors describe, and which reuses no name.  It is opened, and if
   the engine serves the stream honestly no file fails its anchor.  Once every piece is marked each
   non-empty file is in the store, byte for byte, and the wait for any of them is over.
   */
  method Fetch(store: Store, sha1: Bytes -> string, pl: nat, entries: seq<Entry>, anchors: map<Bytes, S.Anchor>,
               strict: bool, calls: seq<R.Call>, ghost content: Bytes, wanted: map<Bytes, bool>)
    returns (d: ForeignTorrent?, look: Look)
    requires store.Sound() && pl > 0 && NoReuse(entries) && Anchored(store.h, sha1, anchors, entries, content)
    requires forall k :: 0 <= k < |entries| ==> !Refused(store.h, sha1, anchors, strict, entries[k])
    requires forall n :: 0 <= n < |calls| ==>
      (calls[n].OtherPut? || calls[n].i < NumPieces(TotalOf(entries), pl)) && R.HonestCall(pl, calls, n, content)
    modifies store
    ensures store.Sound() && d != null && d.t.pl == pl && d.t.total == TotalOf(entries) && S.Clean(d.states)
    ensures AllPieces(d.t, calls) ==> forall k :: 0 <= k < |entries| && entries[k].length > 0 ==>
      && TotalOf(entries[..k]) + entries[k].length <= |content|
      && Name(entries[k]) in d.states && d.states[Name(entries[k])].sealed
      && R.Holds(store.h, store.blobs, SliceOf(entries, content, k))
    ensures AllPieces(d.t, calls) && Wants(entries, wanted) ==> look.Ready?
  {
    hide RangesOf, TotalOf, Name, S.AllFilesOk, S.AllFilesLive, S.Clean, SoundBlobs, Later, NoReuse, Refused, Anchored,
      AllStart, R.HonestCall, R.FreshFor, R.AllMarked, R.Holds, S.OwnPlaces, S.BitsInRange, S.Settled, AllPieces,
      NumPieces;
    ghost var had := store.blobs;
    d := Open(store, sha1, pl, entries, anchors, strict);
    ReadyToServe(d.t, anchors, entries, d.states, had, store.Now(), content);
    StreamLength(store.h, sha1, anchors, entries, content);
    R.Drive(d, calls, Some(content));
    look := d.LookSealedWanted(wanted);
    if AllPieces(d.t, calls) {
      forall k | 0 <= k < |entries| && entries[k].length > 0
        ensures TotalOf(entries[..k]) + entries[k].length <= |content|
        ensures Name(entries[k]) in d.states && d.states[Name(entries[k])].sealed
        ensures R.Holds(store.h, store.blobs, SliceOf(entries, content, k))
      {
        InStream(entries, k);
        var j := RangeAt(entries, k);
        FileMarked(d.t, calls, d.t.files[j]);
      }
      WantedSealed(entries, wanted, d.states);
    }
  }

  lemma StreamLength(h: Hasher, sha1: Bytes -> string, anchors: map<Bytes, S.Anchor>, entries: seq<Entry>,
                     content: Bytes)
    requires Anchored(h, sha1, anchors, entries, content)
    ensures |content| == TotalOf(entries)
  {
  }

  lemma FileMarked(t: S.Setup, calls: seq<R.Call>, f: FileRange)
    requires AllPieces(t, calls)
    ensures t.pl > 0 && R.AllMarked(t, R.Marks({}, calls), f)
  {
  }

  /** Only non-empty files are wanted. */
  ghost predicate Wants(entries: seq<Entry>, wanted: map<Bytes, bool>) {
    forall p :: p in wanted ==>
      wanted[p] && exists k :: 0 <= k < |entries| && entries[k].length > 0 && Name(entries[k]) == p
  }

  lemma WantedSealed(entries: seq<Entry>, wanted: map<Bytes, bool>, states: S.States)
    requires forall k :: 0 <= k < |entries| && entries[k].length > 0 ==>
      Name(entries[k]) in states && states[Name(entries[k])].sealed
    ensures Wants(entries, wanted) ==> forall p :: p in wanted ==> wanted[p] && p in states && states[p].sealed
  {
  }
}
