/**
 The geometry of a BitTorrent v1 download: files laid end to end in one byte stream, and pieces that
 cut the stream at equal distances, across file boundaries.
 */
module ForeignLayout {
  import opened Basics
  import Merkle

  /** One file's slice [begin, end) of the concatenated stream. */
  datatype FileRange = FileRange(path: Bytes, begin: nat, end: nat)

  /** Non-empty files in stream order, without gaps, under distinct paths. */
  ghost predicate Layout(files: seq<FileRange>, total: nat) {
    && (forall j :: 0 <= j < |files| ==> files[j].begin < files[j].end <= total)
    && (forall j, k :: 0 <= j < k < |files| ==> files[j].end <= files[k].begin)
    && (forall j :: 0 < j < |files| ==> files[j].begin == files[j - 1].end)
    && (if files == [] then total == 0 else files[0].begin == 0 && files[|files| - 1].end == total)
    && (forall j, k :: 0 <= j < |files| && 0 <= k < |files| && files[j].path == files[k].path ==> j == k)
  }

  predicate Overlaps(f: FileRange, b: nat, e: nat) {
    f.begin < e && f.end > b
  }

  /** The file that holds stream position q; the number of files when q lies past the end. */
  function Locate(files: seq<FileRange>, q: nat): (j: nat)
    ensures j <= |files|
  {
    if files == [] || q < files[0].end then 0 else 1 + Locate(files[1..], q)
  }

  lemma {:induction false} LocateBounds(files: seq<FileRange>, q: nat)
    ensures forall k :: 0 <= k < Locate(files, q) ==> files[k].end <= q
    ensures Locate(files, q) < |files| ==> q < files[Locate(files, q)].end
  {
    if files != [] && q >= files[0].end {
      LocateBounds(files[1..], q);
      forall k | 0 <= k < Locate(files, q) ensures files[k].end <= q {
        if k > 0 {
          assert files[1..][k - 1].end <= q;
        }
      }
    }
  }

  lemma LocateIs(files: seq<FileRange>, total: nat, q: nat, j: nat)
    requires Layout(files, total) && j < |files| && files[j].begin <= q < files[j].end
    ensures Locate(files, q) == j
  {
    LocateBounds(files, q);
  }

  lemma LocateInside(files: seq<FileRange>, total: nat, q: nat)
    requires Layout(files, total)
    ensures q < total <==> Locate(files, q) < |files|
    ensures q < total ==> files[Locate(files, q)].begin <= q < files[Locate(files, q)].end
  {
    LocateBounds(files, q);
    var k := Locate(files, q);
    if k > 0 {
      assert files[k - 1].end <= q;
    }
  }

  /** filesInRange: the files that overlap [b, e), a contiguous run of the list. */
  method FilesInRange(files: seq<FileRange>, ghost total: nat, b: nat, e: nat)
    returns (out: seq<FileRange>, ghost lo: nat)
    requires Layout(files, total)
    ensures lo + |out| <= |files| && out == files[lo..lo + |out|]
    ensures forall j :: 0 <= j < |files| ==> (Overlaps(files[j], b, e) <==> lo <= j < lo + |out|)
    ensures b < e ==> (out == [] <==> b >= total)
    ensures b < e && out != [] ==> lo == Locate(files, b) && out[0].begin <= b < out[0].end
  {
    hide Layout, Locate;
    out, lo := [], Locate(files, b);
    LocateBounds(files, b);
    LocateInside(files, total, b);
    for i := 0 to |files|
      invariant i <= lo ==> out == []
      invariant i >= lo ==> lo + |out| == i && out == files[lo..i]
      invariant forall j :: 0 <= j < i ==> files[j].begin < e
    {
      var f := files[i];
      if f.begin >= e {
        OverlapRun(files, total, b, e, lo, i);
        lo := Min(lo, i);
        return;
      }
      EndsAfter(files, total, b, lo, i);
      if f.end > b {
        out := out + [f];
      }
    }
    OverlapRun(files, total, b, e, lo, |files|);
  }

  lemma EndsAfter(files: seq<FileRange>, total: nat, b: nat, lo: nat, i: nat)
    requires Layout(files, total) && i < |files| && lo <= |files|
    requires forall j :: 0 <= j < lo ==> files[j].end <= b
    requires lo < |files| ==> files[lo].end > b
    ensures files[i].end > b <==> lo <= i
  {
    if lo < i {
      assert files[lo].end <= files[i].begin;
    }
  }

  lemma OverlapRun(files: seq<FileRange>, total: nat, b: nat, e: nat, lo: nat, hi: nat)
    requires Layout(files, total) && lo <= |files| && hi <= |files|
    requires forall j :: 0 <= j < lo ==> files[j].end <= b
    requires lo < |files| ==> files[lo].end > b
    requires forall j :: 0 <= j < hi ==> files[j].begin < e
    requires hi < |files| ==> files[hi].begin >= e
    ensures forall j :: 0 <= j < |files| ==> (Overlaps(files[j], b, e) <==> lo <= j < hi)
  {
    forall j | 0 <= j < |files| ensures Overlaps(files[j], b, e) <==> lo <= j < hi {
      EndsAfter(files, total, b, lo, j);
      if hi < j {
        assert files[hi].end <= files[j].begin;
      }
    }
  }

  /* ---- Pieces ---- */

  function NumPieces(total: nat, pl: nat): nat
    requires pl > 0
  {
    Merkle.CeilDiv(total, pl)
  }

  function FirstPiece(f: FileRange, pl: nat): nat
    requires pl > 0
  {
    f.begin / pl
  }

  function LastPiece(f: FileRange, pl: nat): nat
    requires pl > 0 && f.begin < f.end
  {
    (f.end - 1) / pl
  }

  /** The length of a file's bitmap. */
  function PieceCount(f: FileRange, pl: nat): int
    requires pl > 0 && f.begin < f.end
  {
    LastPiece(f, pl) - FirstPiece(f, pl) + 1
  }

  /** pieceBits: the pieces of [b, e) that touch file f, first and last. */
  function PieceBits(f: FileRange, b: nat, e: nat, pl: nat): (int, int)
    requires pl > 0 && b < e && f.begin < f.end
  {
    (if f.begin > b then f.begin / pl else b / pl, if f.end < e then (f.end - 1) / pl else (e - 1) / pl)
  }

  lemma DivCompare(n: nat, d: nat, i: nat)
    requires d > 0
    ensures n / d <= i <==> n < i * d + d
    ensures i <= n / d <==> i * d <= n
  {
    var q := n / d;
    assert n == q * d + n % d;
    Merkle.MulMono(q, i, d);
    Merkle.MulMono(i, q, d);
    Merkle.MulMono(i + 1, q, d);
    Merkle.MulMono(q + 1, i, d);
  }

  /**
   One piece, one bit: a file overlaps piece i exactly when i lies in its bitmap, and then pieceBits
   names that piece alone.  So no range guard on the bit index can ever fire.
   */
  lemma PieceBitExact(f: FileRange, total: nat, pl: nat, i: nat, b: nat, e: nat)
    requires pl > 0 && f.begin < f.end <= total && b == i * pl && b < total && e == Min(b + pl, total)
    ensures Overlaps(f, b, e) <==> FirstPiece(f, pl) <= i <= LastPiece(f, pl)
    ensures Overlaps(f, b, e) ==> PieceBits(f, b, e, pl) == (i, i)
    ensures Overlaps(f, b, e) ==> 0 <= i - FirstPiece(f, pl) < PieceCount(f, pl)
  {
    DivCompare(f.begin, pl, i);
    DivCompare(f.end - 1, pl, i);
    DivCompare(b, pl, i);
    DivCompare(e - 1, pl, i);
  }

  lemma PieceStart(total: nat, pl: nat, i: nat)
    requires pl > 0
    ensures i < NumPieces(total, pl) <==> i * pl < total
  {
    Merkle.KeepEntry(total, pl, i);
  }

  /* ---- Bitmaps ---- */

  function CountTrue(bits: seq<bool>): (n: nat)
    ensures n <= |bits|
  {
    if bits == [] then 0 else CountTrue(bits[..|bits| - 1]) + if bits[|bits| - 1] then 1 else 0
  }

  lemma {:induction false} CountTrueAll(bits: seq<bool>)
    ensures CountTrue(bits) == |bits| <==> forall k :: 0 <= k < |bits| ==> bits[k]
  {
    if bits != [] {
      var init := bits[..|bits| - 1];
      CountTrueAll(init);
      assert forall k :: 0 <= k < |init| ==> init[k] == bits[k];
    }
  }

  lemma {:induction false} CountTrueUpdate(bits: seq<bool>, k: nat, v: bool)
    requires k < |bits| && bits[k] != v
    ensures CountTrue(bits[k := v]) == CountTrue(bits) + if v then 1 else -1
  {
    var n := |bits| - 1;
    if k == n {
      assert bits[k := v][..n] == bits[..n];
    } else {
      CountTrueUpdate(bits[..n], k, v);
      assert bits[k := v][..n] == bits[..n][k := v];
    }
  }

  lemma {:induction false} CountNone(n: nat)
    ensures CountTrue(seq(n, _ => false)) == 0
  {
    if n > 0 {
      CountNone(n - 1);
      assert seq(n, _ => false)[..n - 1] == seq(n - 1, _ => false);
    }
  }
}
