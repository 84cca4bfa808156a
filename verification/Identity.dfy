/**
 What the torrent identity is worth: an info dict stands for exactly one table of files, sealing
 never panics, and every sealed record passes the gates that are run against it later.
 */
module Identity {
  import opened Basics
  import opened Bencode
  import opened FileTree
  import opened Manifests
  import opened Torrent
  import opened Validate
  import Merkle
  import Paths

  /* ---- Accepted manifests have separate paths and decodable roots ---- */

  lemma DigestDecodes(d: string)
    requires IsDigest(d)
    ensures DecodeRoot(DigestHex(d)).Ok? && HexDecode(DigestHex(d)) == Some(DecodeRoot(DigestHex(d)).value)
  {
    HexOfDecoded(DigestHex(d));
    var v := HexDecode(DigestHex(d)).value;
    assert v + seq(32 - |v|, _ => '\0') == v;
  }

  ghost predicate Decodable(files: seq<File>) {
    forall f :: f in files ==> DecodeRoot(DigestHex(f.merkleRoot)).Ok?
  }

  function PinnedEntry(f: File): Entry
    requires DecodeRoot(DigestHex(f.merkleRoot)).Ok?
  {
    Entry1(f, DecodeRoot(DigestHex(f.merkleRoot)).value)
  }

  /** The files of a manifest as entries of a file tree. */
  function FileEntries(files: seq<File>): (es: seq<Entry>)
    requires Decodable(files)
    ensures |es| == |files| && forall i :: 0 <= i < |es| ==> files[i] in files && es[i] == PinnedEntry(files[i])
  {
    seq(|files|, i requires 0 <= i < |files| => PinnedEntry(files[i]))
  }

  lemma {:induction false} PinnedTreeIsTree(files: seq<File>)
    requires Decodable(files)
    ensures forall e :: e in FileEntries(files) ==> e.path != []
    ensures PinnedTree(files) == var t := Tree(FileEntries(files)); if t.None? then Panic else Ok(t.value)
  {
    if files != [] {
      var init := files[..|files| - 1];
      PinnedTreeIsTree(init);
      assert FileEntries(files)[..|files| - 1] == FileEntries(init);
    }
  }

  lemma AcceptedFacts(m: Manifest)
    requires Accepts(m)
    ensures Decodable(m.files) && m.files != []
    ensures forall f :: f in m.files ==> Paths.GoodName(f.name) && f.size > 0 && IsDigest(f.merkleRoot)
    ensures !SameName(m.files) && !DirectoryClash(m.files)
  {
    assert !Violates(m, E_VALIDATION) && !Violates(m, E_RESERVED_PATH);
    forall f | f in m.files
      ensures Paths.GoodName(f.name) && f.size > 0 && DecodeRoot(DigestHex(f.merkleRoot)).Ok?
    {
      assert !BadEntry(f) && !Paths.Reserved(f.name);
      DigestDecodes(f.merkleRoot);
    }
  }

  /** Of two accepted names neither lies on the way to the other. */
  lemma NamesApart(files: seq<File>, i: nat, j: nat)
    requires i < j < |files| && !SameName(files) && !DirectoryClash(files)
    ensures Apart(Paths.Split(files[i].name), Paths.Split(files[j].name))
  {
    NotThrough(files, i, j);
    NotThrough(files, j, i);
  }

  lemma NotThrough(files: seq<File>, i: nat, j: nat)
    requires i < |files| && j < |files| && i != j && !SameName(files) && !DirectoryClash(files)
    ensures !(Paths.Split(files[i].name) <= Paths.Split(files[j].name))
  {
    if Paths.Split(files[i].name) <= Paths.Split(files[j].name) {
      ThroughClashes(files, i, j);
    }
  }

  lemma ThroughClashes(files: seq<File>, i: nat, j: nat)
    requires i < |files| && j < |files| && i != j
    requires Paths.Split(files[i].name) <= Paths.Split(files[j].name)
    ensures SameName(files) || DirectoryClash(files)
  {
    var p, q := Paths.Split(files[i].name), Paths.Split(files[j].name);
    assert p == q[..|p|];
    if |p| == |q| {
      assert p == q;
      Paths.SplitInjective(files[i].name, files[j].name);
      assert files[Min(i, j)].name == files[if i < j then j else i].name;
    } else {
      Paths.JoinSplit(files[i].name);
      assert files[i] in files && files[j] in files;
      assert IsDirOf(files[i].name, files[j].name, |p|);
    }
  }

  lemma AcceptedSeparate(m: Manifest)
    requires Accepts(m)
    ensures Decodable(m.files) && Separate(FileEntries(m.files))
  {
    AcceptedFacts(m);
    var es := FileEntries(m.files);
    forall i | 0 <= i < |es| ensures GoodPath(es[i].path) {
      assert Paths.GoodName(m.files[i].name);
    }
    forall i, j | 0 <= i < j < |es| ensures Apart(es[i].path, es[j].path) {
      NamesApart(m.files, i, j);
    }
  }

  /* ---- The whole table of files, the embedded manifest included ---- */

  function ManifestEntry(h: Hasher, manifestBytes: Bytes, digestHex: string): Entry {
    Entry(["manifest", "sha256-" + digestHex], |manifestBytes|, Merkle.Root(h, manifestBytes))
  }

  function Table(h: Hasher, files: seq<File>, manifestBytes: Bytes, digestHex: string): seq<Entry>
    requires Decodable(files)
  {
    FileEntries(files) + [ManifestEntry(h, manifestBytes, digestHex)]
  }

  /** No file of an accepted manifest lives where the manifest itself is put. */
  lemma OutsideManifestDir(m: Manifest)
    requires Accepts(m)
    ensures Decodable(m.files)
    ensures forall i :: 0 <= i < |m.files| ==> FileEntries(m.files)[i].path[0] != "manifest"
  {
    AcceptedFacts(m);
    forall i | 0 <= i < |m.files| ensures FileEntries(m.files)[i].path[0] != "manifest" {
      assert m.files[i] in m.files;
      assert !Paths.Reserved(m.files[i].name);
    }
  }

  lemma TableSeparate(h: Hasher, m: Manifest, manifestBytes: Bytes, digestHex: string)
    requires Accepts(m)
    ensures Decodable(m.files) && Separate(Table(h, m.files, manifestBytes, digestHex))
  {
    AcceptedSeparate(m);
    OutsideManifestDir(m);
    var es, t := FileEntries(m.files), Table(h, m.files, manifestBytes, digestHex);
    forall i | 0 <= i < |t| ensures GoodPath(t[i].path) {
      assert i < |es| ==> t[i] == es[i];
    }
    forall i, j | 0 <= i < j < |t| ensures Apart(t[i].path, t[j].path) {
      assert t[i] == es[i];
      assert j < |es| ==> t[j] == es[j];
    }
  }

  lemma NoManifestDir(m: Manifest)
    requires Accepts(m)
    ensures PinnedTree(m.files).Ok? && "manifest" !in PinnedTree(m.files).value.d
  {
    AcceptedSeparate(m);
    OutsideManifestDir(m);
    PinnedTreeIsTree(m.files);
    var es := FileEntries(m.files);
    TreeFaithful(es);
    var tree := Tree(es).value;
    if "manifest" in tree.d {
      TopOfTree(es, tree, "manifest");
    }
  }

  lemma TopOfTree(es: seq<Entry>, tree: Value, seg: Bytes)
    requires Tidy(tree) && seg in tree.d && forall p :: Lookup(tree, p) == Listed(es, p)
    ensures exists i :: 0 <= i < |es| && es[i].path != [] && es[i].path[0] == seg
  {
    FileThrough(tree, seg);
    var q :| Lookup(tree, q).Some? && [seg] <= q;
    assert Listed(es, q).Some?;
    var i :| 0 <= i < |es| && es[i].path == q;
  }

  /**
   For an accepted manifest neither construction can panic or fail on its paths, and the tree they
   build is the tree of exactly the table of files.
   */
  lemma ManifestTree(h: Hasher, m: Manifest, manifestBytes: Bytes, digestHex: string)
    requires Accepts(m) && |digestHex| >= 12
    ensures Decodable(m.files) && PinnedTree(m.files).Ok?
    ensures FromManifest(h, m.files, manifestBytes, digestHex).Ok?
    ensures forall e :: e in Table(h, m.files, manifestBytes, digestHex) ==> e.path != []
    ensures Tree(Table(h, m.files, manifestBytes, digestHex)) ==
            Some(WithManifest(h, PinnedTree(m.files).value, manifestBytes, digestHex))
  {
    AcceptedSeparate(m);
    TableSeparate(h, m, manifestBytes, digestHex);
    var es, t := FileEntries(m.files), Table(h, m.files, manifestBytes, digestHex);
    TreeFaithful(es);
    TreeFaithful(t);
    PinnedTreeIsTree(m.files);
    assert t[..|es|] == es;
    var tree, me := Tree(es).value, ManifestEntry(h, manifestBytes, digestHex);
    NoManifestDir(m);
    assert me.path[1..] == ["sha256-" + digestHex];
    assert Insert(Dict(map[]), ["sha256-" + digestHex], EntryLeaf(me)) ==
           Some(Dict(map["sha256-" + digestHex := EntryLeaf(me)]));
  }

  /** File-tree faithfulness: reading the nested tree back gives the files, and nothing but them. */
  lemma TreeReadsBack(h: Hasher, m: Manifest, manifestBytes: Bytes, digestHex: string, p: Path)
    requires Accepts(m) && |digestHex| >= 12
    ensures Decodable(m.files) && PinnedTree(m.files).Ok?
    ensures var tree := WithManifest(h, PinnedTree(m.files).value, manifestBytes, digestHex);
      && (forall i :: 0 <= i < |m.files| && p == Paths.Split(m.files[i].name) ==>
           Lookup(tree, p) == Some(EntryLeaf(FileEntries(m.files)[i])))
      && (p == ["manifest", "sha256-" + digestHex] ==>
           Lookup(tree, p) == Some(Leaf(|manifestBytes|, Merkle.Root(h, manifestBytes))))
      && (Lookup(tree, p).Some? ==>
           p == ["manifest", "sha256-" + digestHex] ||
           exists i :: 0 <= i < |m.files| && p == Paths.Split(m.files[i].name))
  {
    hide Accepts, WithManifest, PinnedTree, Merkle.Root;
    ManifestTree(h, m, manifestBytes, digestHex);
    TableSeparate(h, m, manifestBytes, digestHex);
    var es, t := FileEntries(m.files), Table(h, m.files, manifestBytes, digestHex);
    TreeFaithful(t);
    assert Lookup(Tree(t).value, p) == Listed(t, p);
    forall i | 0 <= i < |m.files| && p == Paths.Split(m.files[i].name)
      ensures Listed(t, p) == Some(EntryLeaf(es[i]))
    {
      assert t[i] == es[i];
      ListedAt(t, i);
    }
    if p == ["manifest", "sha256-" + digestHex] {
      ListedAt(t, |es|);
    } else if Listed(t, p).Some? {
      var i :| 0 <= i < |t| && t[i].path == p;
      assert i < |es| && t[i] == es[i];
    }
  }

  /* ---- One info dict, one table ---- */

  /** The sum of sizes, before wrap-around. */
  function Sum(es: seq<Entry>): int {
    if es == [] then 0 else es[0].size + Sum(es[1..])
  }

  lemma {:induction false} SumAppend(es: seq<Entry>, e: Entry)
    ensures Sum(es + [e]) == Sum(es) + e.size
  {
    if es == [] {
      assert [e][1..] == [] && es + [e] == [e];
    } else {
      SumAppend(es[1..], e);
      assert (es + [e])[1..] == es[1..] + [e];
    }
  }

  function Without(es: seq<Entry>, i: nat): seq<Entry>
    requires i < |es|
  {
    es[..i] + es[i + 1..]
  }

  lemma {:induction false} SumTakeOut(es: seq<Entry>, i: nat)
    requires i < |es|
    ensures Sum(es) == es[i].size + Sum(Without(es, i))
  {
    if i > 0 {
      SumTakeOut(es[1..], i - 1);
      assert Without(es, i)[1..] == Without(es[1..], i - 1);
    } else {
      assert Without(es, 0) == es[1..];
    }
  }

  lemma {:induction false} SumOfSameSet(es: seq<Entry>, fs: seq<Entry>)
    requires Separate(es) && Separate(fs) && forall e :: e in es <==> e in fs
    ensures Sum(es) == Sum(fs)
    decreases |es|
  {
    if es == [] {
      if fs != [] {
        SomeEntry(fs);
      }
    } else {
      assert es[0] in fs;
      var i :| 0 <= i < |fs| && fs[i] == es[0];
      SumTakeOut(fs, i);
      SeparateWithout(fs, i);
      assert Separate(es[1..]);
      RestInRest(es, 0, fs, i);
      RestInRest(fs, i, es, 0);
      assert Without(es, 0) == es[1..];
      SumOfSameSet(es[1..], Without(fs, i));
    }
  }

  lemma SomeEntry(es: seq<Entry>)
    requires es != []
    ensures exists e :: e in es
  {
    assert es[0] in es;
  }

  /** Take one common entry out of two lists; what is left of the first is in the second. */
  lemma RestInRest(es: seq<Entry>, i: nat, fs: seq<Entry>, j: nat)
    requires Separate(es) && Separate(fs) && i < |es| && j < |fs| && es[i] == fs[j]
    requires forall e :: e in es ==> e in fs
    ensures forall e :: e in Without(es, i) ==> e in Without(fs, j)
  {
    var rest, tail := Without(es, i), Without(fs, j);
    DistinctPaths(es);
    forall e | e in rest ensures e in tail {
      var k :| 0 <= k < |rest| && rest[k] == e;
      assert e == es[if k < i then k else k + 1];
      assert e in es && e in fs && e != es[i];
      var n :| 0 <= n < |fs| && fs[n] == e;
      assert tail[if n < j then n else n - 1] == e;
    }
  }

  lemma SeparateWithout(fs: seq<Entry>, i: nat)
    requires Separate(fs) && i < |fs|
    ensures Separate(Without(fs, i))
  {
    var rest := Without(fs, i);
    forall a, b | 0 <= a < b < |rest| ensures Apart(rest[a].path, rest[b].path) {
      var a', b' := if a < i then a else a + 1, if b < i then b else b + 1;
      assert rest[a] == fs[a'] && rest[b] == fs[b'];
    }
  }

  lemma WrapAdd(a: int, b: int)
    ensures Wrap64(Wrap64(a) + b) == Wrap64(a + b)
  {
    var m := 2 * TWO63;
    var q := (a + TWO63) / m;
    assert Wrap64(a) == a - q * m;
    assert Wrap64(a) + b + TWO63 == (a + b + TWO63) - q * m;
    ModShift(a + b + TWO63, -q, m);
  }

  lemma ModShift(x: int, k: int, m: nat)
    requires m > 0
    ensures (x + k * m) % m == x % m
  {
    var q, r := x / m, x % m;
    var y := x + k * m;
    assert y == (q + k) * m + r;
    ModUnique(y, m, q + k, r);
  }

  lemma ModUnique(y: int, m: nat, q: int, r: int)
    requires m > 0 && 0 <= r < m && y == q * m + r
    ensures y % m == r
  {
    var d := y / m - q;
    assert d * m == r - y % m;
    if d >= 1 {
      Merkle.MulMono(1, d, m);
    } else if d <= -1 {
      Merkle.MulMono(d, -1, m);
    }
  }

  lemma {:induction false} TotalIsSum(h: Hasher, files: seq<File>, manifestBytes: Bytes, digestHex: string)
    requires Decodable(files)
    ensures Total(manifestBytes, files) == Wrap64(Sum(Table(h, files, manifestBytes, digestHex)))
  {
    hide Wrap64;
    var me := ManifestEntry(h, manifestBytes, digestHex);
    SumAppend(FileEntries(files), me);
    if files == [] {
      assert FileEntries(files) == [];
    } else {
      var init, last := files[..|files| - 1], files[|files| - 1];
      TotalIsSum(h, init, manifestBytes, digestHex);
      SumAppend(FileEntries(init), me);
      EntriesSnoc(files);
      SumAppend(FileEntries(init), PinnedEntry(last));
      WrapAdd(Sum(Table(h, init, manifestBytes, digestHex)), last.size);
    }
  }

  lemma EntriesSnoc(files: seq<File>)
    requires Decodable(files) && files != []
    ensures Decodable(files[..|files| - 1]) && files[|files| - 1] in files
    ensures FileEntries(files) == FileEntries(files[..|files| - 1]) + [PinnedEntry(files[|files| - 1])]
  {
  }

  lemma InfoDictInjective(t: Value, n: string, p: int, t': Value, n': string, p': int)
    ensures InfoDict(t, n, p) == InfoDict(t', n', p') <==> t == t' && n == n' && p == p'
  {
    var a, b := InfoDict(t, n, p).d, InfoDict(t', n', p').d;
    assert a["file tree"] == t && a["name"] == Str(n) && a["piece length"] == Int(p);
    assert b["file tree"] == t' && b["name"] == Str(n') && b["piece length"] == Int(p');
  }

  /**
   The identity theorem.  Two accepted manifests have the same info bytes, hence the same infohash
   input, exactly when they have the same table: the same names with the same sizes and roots, and
   the same embedded manifest.  The order of the files and of map iteration plays no part.
   */
  lemma InfoIdentity(h: Hasher, m: Manifest, b: Bytes, hex: string, m': Manifest, b': Bytes, hex': string)
    requires Accepts(m) && Accepts(m') && |hex| >= 12 && |hex'| >= 12
    ensures Decodable(m.files) && Decodable(m'.files)
    ensures FromManifest(h, m.files, b, hex).Ok? && FromManifest(h, m'.files, b', hex').Ok?
    ensures FromManifest(h, m.files, b, hex).value.0 == FromManifest(h, m'.files, b', hex').value.0 <==>
            (forall e :: e in Table(h, m.files, b, hex) <==> e in Table(h, m'.files, b', hex'))
  {
    hide InfoDict, Tree, PinnedTree, Encode, WithManifest, Total, LadderPieceLength, TorrentName, FileEntries;
    ManifestTree(h, m, b, hex);
    ManifestTree(h, m', b', hex');
    TableSeparate(h, m, b, hex);
    TableSeparate(h, m', b', hex');
    var t, t' := Table(h, m.files, b, hex), Table(h, m'.files, b', hex');
    TreeIdentity(t, t');
    var n, n' := TorrentName(hex), TorrentName(hex');
    var p, p' := LadderPieceLength(Total(b, m.files)), LadderPieceLength(Total(b', m'.files));
    InfoDictInjective(Tree(t).value, n, p, Tree(t').value, n', p');
    EncodeInjective(InfoDict(Tree(t).value, n, p), InfoDict(Tree(t').value, n', p'));
    if forall e :: e in t <==> e in t' {
      SumOfSameSet(t, t');
      TotalIsSum(h, m.files, b, hex);
      TotalIsSum(h, m'.files, b', hex');
      SameManifestEntry(h, m, b, hex, m', b', hex');
    }
  }

  lemma SameManifestEntry(h: Hasher, m: Manifest, b: Bytes, hex: string, m': Manifest, b': Bytes, hex': string)
    requires Accepts(m) && Accepts(m') && Decodable(m.files) && Decodable(m'.files)
    requires forall e :: e in Table(h, m.files, b, hex) <==> e in Table(h, m'.files, b', hex')
    ensures hex == hex'
  {
    OutsideManifestDir(m');
    var t, t', me := Table(h, m.files, b, hex), Table(h, m'.files, b', hex'), ManifestEntry(h, b, hex);
    assert t[|t| - 1] == me && me in t;
    var i :| 0 <= i < |t'| && t'[i] == me;
    assert forall k :: 0 <= k < |m'.files| ==> t'[k].path[0] != "manifest";
    assert me.path[1] == ManifestEntry(h, b', hex').path[1];
    assert ("sha256-" + hex)[7..] == hex && ("sha256-" + hex')[7..] == hex';
  }
}
