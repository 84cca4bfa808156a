/**
 The nested "file tree" dictionary of an info dict (BEP 52), built path by path, and what can be read
 back from it.
 */
module FileTree {
  import opened Basics
  import opened Bencode

  type Path = seq<Bytes>

  /** The dictionary at the end of a file's path. */
  function Leaf(size: int, root: Bytes): Value {
    Dict(map["" := Dict(map["length" := Int(size), "pieces root" := Str(root)])])
  }

  predicate IsLeaf(v: Value) {
    v.Dict? && "" in v.d
  }

  /** Directories hold named entries only, and no directory but the top one is empty. */
  ghost predicate Tidy(v: Value) {
    v.Dict? && forall k :: k in v.d ==>
      k != "" && v.d[k].Dict? && v.d[k].d != map[] && (IsLeaf(v.d[k]) || Tidy(v.d[k]))
  }

  /** insertFileTree; None is the panic on a path that is already taken. */
  function Insert(node: Value, path: Path, leaf: Value): (r: Option<Value>)
    requires node.Dict? && path != []
    ensures r.Some? ==> r.value.Dict?
    decreases |path|
  {
    var seg := path[0];
    if |path| == 1 then
      if seg in node.d then None else Some(Dict(node.d[seg := leaf]))
    else
      var next := if seg in node.d && node.d[seg].Dict? then node.d[seg] else Dict(map[]);
      var r := Insert(next, path[1..], leaf);
      if r.None? then None else Some(Dict(node.d[seg := r.value]))
  }

  /** The leaf at the end of a path, if the path leads to one. */
  function Lookup(node: Value, path: Path): Option<Value>
    decreases |path|
  {
    if path == [] || !node.Dict? || path[0] !in node.d then None
    else
      var child := node.d[path[0]];
      if |path| == 1 then
        if IsLeaf(child) then Some(child) else None
      else if IsLeaf(child) then None
      else Lookup(child, path[1..])
  }

  predicate GoodPath(path: Path) {
    path != [] && forall g :: g in path ==> g != ""
  }

  /** Neither path leads through the other. */
  predicate Apart(p: Path, q: Path) {
    !(p <= q) && !(q <= p)
  }

  /** Every tidy directory with an entry leads to a file. */
  lemma {:induction false} HasFile(node: Value) returns (p: Path)
    requires Tidy(node) && node.d != map[]
    ensures GoodPath(p) && Lookup(node, p).Some?
    decreases node
  {
    var k :| k in node.d;
    if IsLeaf(node.d[k]) {
      p := [k];
    } else {
      var rest := HasFile(node.d[k]);
      p := [k] + rest;
      assert p[1..] == rest;
    }
  }

  /** A path that leads through k leads to the same leaf from the entry at k. */
  lemma LookupThrough(node: Value, k: Bytes, rest: Path)
    requires node.Dict? && k in node.d && rest != []
    ensures Lookup(node, [k] + rest) == if IsLeaf(node.d[k]) then None else Lookup(node.d[k], rest)
  {
    assert ([k] + rest)[1..] == rest;
  }

  /**
   Inserting a path that stays apart from all files already there does not panic, keeps the tree
   tidy, adds exactly that file and disturbs no other.
   */
  lemma {:induction false} InsertSpec(node: Value, path: Path, leaf: Value)
    requires Tidy(node) && GoodPath(path) && IsLeaf(leaf)
    requires forall q :: Lookup(node, q).Some? ==> Apart(q, path)
    ensures Insert(node, path, leaf).Some?
    ensures var t := Insert(node, path, leaf).value;
      Tidy(t) && forall q :: Lookup(t, q) == if q == path then Some(leaf) else Lookup(node, q)
    decreases |path|
  {
    var seg := path[0];
    assert seg in path;
    if |path| == 1 {
      assert path == [seg];
      if seg in node.d {
        FileThrough(node, seg);
      }
      var t := Insert(node, path, leaf).value;
      forall q ensures Lookup(t, q) == if q == path then Some(leaf) else Lookup(node, q) {
        if |q| > 0 && q[0] == seg {
          assert q == [seg] || |q| > 1;
        }
      }
    } else {
      var rest := path[1..];
      assert path == [seg] + rest;
      var next := if seg in node.d then node.d[seg] else Dict(map[]);
      if seg in node.d && IsLeaf(node.d[seg]) {
        assert Lookup(node, [seg]).Some? && [seg] <= path;
      }
      forall q | Lookup(next, q).Some? ensures Apart(q, rest) {
        LookupThrough(node, seg, q);
        ApartBelow(seg, q, rest);
      }
      assert forall g :: g in rest ==> g in path;
      InsertSpec(next, rest, leaf);
      var below := Insert(next, rest, leaf).value;
      var t := Insert(node, path, leaf).value;
      assert t == Dict(node.d[seg := below]);
      NotLeafBelow(next, rest, leaf);
      forall q ensures Lookup(t, q) == if q == path then Some(leaf) else Lookup(node, q) {
        if |q| > 1 && q[0] == seg {
          assert q == [seg] + q[1..];
          LookupThrough(t, seg, q[1..]);
          if seg in node.d {
            LookupThrough(node, seg, q[1..]);
          }
        } else if q != [] && q[0] == seg {
          assert q == [seg];
        }
      }
    }
  }

  lemma ApartBelow(seg: Bytes, q: Path, rest: Path)
    requires Apart([seg] + q, [seg] + rest)
    ensures Apart(q, rest)
  {
  }

  lemma FileThrough(node: Value, seg: Bytes)
    requires Tidy(node) && seg in node.d
    ensures exists q :: Lookup(node, q).Some? && [seg] <= q
  {
    if IsLeaf(node.d[seg]) {
      assert Lookup(node, [seg]).Some?;
    } else {
      var rest := HasFile(node.d[seg]);
      LookupThrough(node, seg, rest);
      assert [seg] <= [seg] + rest;
    }
  }

  lemma NotLeafBelow(next: Value, rest: Path, leaf: Value)
    requires next.Dict? && GoodPath(rest) && Insert(next, rest, leaf).Some?
    ensures var below := Insert(next, rest, leaf).value;
      below.d != map[] && (IsLeaf(below) <==> IsLeaf(next))
  {
    assert rest[0] in rest;
    assert rest[0] in Insert(next, rest, leaf).value.d;
  }

  /** A tidy tree is determined by the files that can be looked up in it. */
  lemma {:induction false} TreeExtensional(a: Value, b: Value)
    requires Tidy(a) && Tidy(b) && forall q :: Lookup(a, q) == Lookup(b, q)
    ensures a == b
    decreases a
  {
    forall k ensures k in a.d <==> k in b.d {
      if k in a.d {
        FileThrough(a, k);
        var q :| Lookup(a, q).Some? && [k] <= q;
        assert Lookup(b, q).Some? && q[0] == k;
      }
      if k in b.d {
        FileThrough(b, k);
        var q :| Lookup(b, q).Some? && [k] <= q;
        assert Lookup(a, q).Some? && q[0] == k;
      }
    }
    forall k | k in a.d ensures a.d[k] == b.d[k] {
      assert Lookup(a, [k]) == Lookup(b, [k]);
      if !IsLeaf(a.d[k]) {
        forall q ensures Lookup(a.d[k], q) == Lookup(b.d[k], q) {
          if q != [] {
            LookupThrough(a, k, q);
            LookupThrough(b, k, q);
            assert Lookup(a, [k] + q) == Lookup(b, [k] + q);
          }
        }
        TreeExtensional(a.d[k], b.d[k]);
      }
    }
    assert a.d == b.d;
  }

  /* ---- Trees of many files ---- */

  datatype Entry = Entry(path: Path, size: int, root: Bytes)

  function EntryLeaf(e: Entry): Value {
    Leaf(e.size, e.root)
  }

  /** The paths of a well-formed list of files: each is good, and no two meet. */
  ghost predicate Separate(es: seq<Entry>) {
    && (forall i :: 0 <= i < |es| ==> GoodPath(es[i].path))
    && (forall i, j :: 0 <= i < j < |es| ==> Apart(es[i].path, es[j].path))
  }

  /** All files inserted in turn into an empty tree. */
  function Tree(es: seq<Entry>): (r: Option<Value>)
    requires forall e :: e in es ==> e.path != []
    ensures r.Some? ==> r.value.Dict?
  {
    if es == [] then Some(Dict(map[]))
    else
      var last := es[|es| - 1];
      var t := Tree(es[..|es| - 1]);
      if t.None? then None else Insert(t.value, last.path, EntryLeaf(last))
  }

  /** The file at path p, according to the list itself. */
  ghost function Listed(es: seq<Entry>, p: Path): Option<Value> {
    if exists i :: 0 <= i < |es| && es[i].path == p
    then var i :| 0 <= i < |es| && es[i].path == p; Some(EntryLeaf(es[i]))
    else None
  }

  lemma ListedAt(es: seq<Entry>, i: nat)
    requires Separate(es) && i < |es|
    ensures Listed(es, es[i].path) == Some(EntryLeaf(es[i]))
  {
    var j :| 0 <= j < |es| && es[j].path == es[i].path &&
      Listed(es, es[i].path) == Some(EntryLeaf(es[j]));
    DistinctPaths(es);
    assert j == i;
  }

  lemma DistinctPaths(es: seq<Entry>)
    requires Separate(es)
    ensures forall i, j :: 0 <= i < |es| && 0 <= j < |es| && es[i].path == es[j].path ==> i == j
  {
    forall i, j | 0 <= i < |es| && 0 <= j < |es| && i != j ensures es[i].path != es[j].path {
      assert Apart(es[Min(i, j)].path, es[if i < j then j else i].path);
    }
  }

  lemma LeafInjective(e: Entry, f: Entry)
    ensures EntryLeaf(e) == EntryLeaf(f) ==> e.size == f.size && e.root == f.root
  {
    var a, b := EntryLeaf(e).d[""], EntryLeaf(f).d[""];
    assert a.d["length"] == Int(e.size) && a.d["pieces root"] == Str(e.root);
    assert b.d["length"] == Int(f.size) && b.d["pieces root"] == Str(f.root);
  }

  /**
   Faithfulness: building the tree of separate paths never panics, and flattening it gives back
   exactly the listed files.
   */
  lemma {:induction false} TreeFaithful(es: seq<Entry>)
    requires Separate(es)
    ensures forall e :: e in es ==> e.path != []
    ensures Tree(es).Some? && Tidy(Tree(es).value)
    ensures forall p :: Lookup(Tree(es).value, p) == Listed(es, p)
  {
    if es != [] {
      var n := |es| - 1;
      var init, last := es[..n], es[n];
      assert Separate(init);
      TreeFaithful(init);
      var t := Tree(init).value;
      forall q | Lookup(t, q).Some? ensures Apart(q, last.path) {
        var i :| 0 <= i < |init| && init[i].path == q;
        assert es[i] == init[i];
        assert Apart(es[i].path, es[n].path);
      }
      assert IsLeaf(EntryLeaf(last));
      InsertSpec(t, last.path, EntryLeaf(last));
      forall p ensures Lookup(Tree(es).value, p) == Listed(es, p) {
        ListedSnoc(es, p);
      }
    }
  }

  lemma ListedSnoc(es: seq<Entry>, p: Path)
    requires Separate(es) && es != []
    ensures var n := |es| - 1;
      Listed(es, p) == if p == es[n].path then Some(EntryLeaf(es[n])) else Listed(es[..n], p)
  {
    var n := |es| - 1;
    var init := es[..n];
    assert Separate(init);
    if p == es[n].path {
      ListedAt(es, n);
    } else if exists i :: 0 <= i < n && init[i].path == p {
      var i :| 0 <= i < n && init[i].path == p;
      assert es[i] == init[i];
      ListedAt(es, i);
      ListedAt(init, i);
    } else {
      assert forall i :: 0 <= i < n ==> init[i] == es[i];
    }
  }

  /** One tree, one set of files: the list can be read back, and its order does not matter. */
  lemma TreeIdentity(es: seq<Entry>, fs: seq<Entry>)
    requires Separate(es) && Separate(fs)
    ensures (forall e :: e in es ==> e.path != []) && (forall f :: f in fs ==> f.path != [])
    ensures Tree(es) == Tree(fs) <==> (forall e :: e in es <==> e in fs)
  {
    TreeFaithful(es);
    TreeFaithful(fs);
    if Tree(es) == Tree(fs) {
      SameListing(es, fs);
      SameListing(fs, es);
    } else {
      if forall e :: e in es <==> e in fs {
        forall p ensures Listed(es, p) == Listed(fs, p) {
          if exists i :: 0 <= i < |es| && es[i].path == p {
            ListingOf(es, fs, p);
          } else if exists i :: 0 <= i < |fs| && fs[i].path == p {
            ListingOf(fs, es, p);
          }
        }
        TreeExtensional(Tree(es).value, Tree(fs).value);
      }
    }
  }

  lemma ListingOf(es: seq<Entry>, fs: seq<Entry>, p: Path)
    requires Separate(es) && Separate(fs) && (forall e :: e in es ==> e in fs)
    requires exists i :: 0 <= i < |es| && es[i].path == p
    ensures Listed(es, p) == Listed(fs, p)
  {
    var i :| 0 <= i < |es| && es[i].path == p;
    assert es[i] in fs;
    var j :| 0 <= j < |fs| && fs[j] == es[i];
    ListedAt(es, i);
    ListedAt(fs, j);
  }

  lemma SameListing(es: seq<Entry>, fs: seq<Entry>)
    requires Separate(es) && Separate(fs) && forall p :: Listed(es, p) == Listed(fs, p)
    ensures forall e :: e in es ==> e in fs
  {
    forall e | e in es ensures e in fs {
      var i :| 0 <= i < |es| && es[i] == e;
      ListedAt(es, i);
      assert Listed(fs, e.path) == Some(EntryLeaf(e));
      var j :| 0 <= j < |fs| && fs[j].path == e.path && Listed(fs, e.path) == Some(EntryLeaf(fs[j]));
      LeafInjective(e, fs[j]);
      assert e == fs[j];
    }
  }
}
