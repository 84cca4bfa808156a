/**
 Model manifests: the canonical file order, the sort that establishes it, and the validator that
 enforces it together with the other rules of the document.
 */
module Manifests {
  import opened Basics
  import opened Sorting

  datatype File = File(
    kind: string, digest: string, size: int, name: Bytes, part: Option<int>, role: string,
    variant: string, runtime: string, adapterType: string, codeRole: string, merkleRoot: string)

  datatype Manifest = Manifest(
    schemaVersion: int, artifactType: string, files: seq<File>, annotations: map<string, string>)

  /** The E_* vocabulary of validation failures. */
  datatype Class =
    | E_VALIDATION | E_RESERVED_PATH | E_WEIGHTS_MIX | E_WEIGHTS_MISSING | E_CARDINALITY
    | E_PARTS | E_RUNTIME_DUP | E_FILE_ORDER

  /* ---- 64-bit integers ---- */

  const TWO63: int := 0x8000_0000_0000_0000

  predicate IsInt64(n: int) {
    -TWO63 <= n < TWO63
  }

  /** Two's-complement wrap-around of a Go int64. */
  function Wrap64(n: int): (r: int)
    ensures IsInt64(r)
    ensures IsInt64(n) ==> r == n
  {
    (n + TWO63) % (2 * TWO63) - TWO63
  }

  /* ---- Canonical file order ---- */

  predicate IsWeights(kind: string) {
    kind == "weights.gguf" || kind == "weights.safetensors"
  }

  function KindRank(kind: string): int {
    if kind == "config" then 0
    else if IsWeights(kind) then 1
    else if kind == "weights.aux" then 2
    else if kind == "tokenizer" then 3
    else if kind == "chat-template" then 4
    else if kind == "adapter" then 5
    else if kind == "runtime-config" then 6
    else if kind == "code" then 7
    else 8
  }

  /** The kinds in their order; the two formats of weights share a place. */
  function KindOrder(): seq<seq<string>> {
    [["config"], ["weights.gguf", "weights.safetensors"], ["weights.aux"], ["tokenizer"], ["chat-template"],
     ["adapter"], ["runtime-config"], ["code"]]
  }

  function DerefPart(p: Option<int>): int {
    if p.None? then -1 else p.value
  }

  /** fileOrder: below zero when a sorts before b.  The difference of two parts is an int64. */
  function FileOrder(a: File, b: File): int {
    var ra, rb := KindRank(a.kind), KindRank(b.kind);
    if ra != rb then ra - rb
    else if IsWeights(a.kind) then
      var ap, bp := DerefPart(a.part), DerefPart(b.part);
      if ap != bp then Wrap64(ap - bp) else Compare(a.digest, b.digest)
    else if a.kind == "weights.aux" then Compare(a.name, b.name)
    else if a.kind == "runtime-config" then Compare(a.runtime, b.runtime)
    else if a.kind == "code" then
      var c := Compare(a.codeRole, b.codeRole);
      if c != 0 then c else Compare(a.name, b.name)
    else Compare(a.digest, b.digest)
  }

  /** Every other kind is unknown. */
  lemma UnknownKinds(kind: string)
    ensures KindRank(kind) == 8 <==> forall i :: 0 <= i < 8 ==> kind !in KindOrder()[i]
  {
    var order := KindOrder();
    if i :| 0 <= i < 8 && kind in order[i] {
      KindPlace(kind, i);
    } else {
      assert kind !in order[0] && kind !in order[1] && kind !in order[2] && kind !in order[3];
      assert kind !in order[4] && kind !in order[5] && kind !in order[6] && kind !in order[7];
    }
  }

  /** A file of an earlier kind sorts before a file of a later one, whatever else they carry. */
  lemma KindsInOrder(a: File, b: File, i: nat, j: nat)
    requires i < j < 8 && a.kind in KindOrder()[i] && b.kind in KindOrder()[j]
    ensures FileOrder(a, b) < 0 < FileOrder(b, a)
  {
    KindPlace(a.kind, i);
    KindPlace(b.kind, j);
  }

  lemma KindPlace(kind: string, i: nat)
    requires i < 8 && kind in KindOrder()[i]
    ensures KindRank(kind) == i
  {
  }

  /** The order does not look at the part, or no difference of parts leaves the int64 range. */
  predicate SafePart(f: File) {
    IsWeights(f.kind) && f.part.Some? ==> 0 <= f.part.value <= TWO63 - 2
  }

  /** What decides within a kind; a weights file without a part comes before those with one. */
  lemma WithinKind(a: File, b: File)
    requires SafePart(a) && SafePart(b)
    ensures a.kind in KindOrder()[1] && b.kind in KindOrder()[1] ==>
      (FileOrder(a, b) < 0 <==>
        || (a.part.None? && b.part.Some?) || (a.part.Some? && b.part.Some? && a.part.value < b.part.value)
        || (a.part == b.part && Less(a.digest, b.digest)))
    ensures a.kind == b.kind == "weights.aux" ==> (FileOrder(a, b) < 0 <==> Less(a.name, b.name))
    ensures a.kind == b.kind == "runtime-config" ==> (FileOrder(a, b) < 0 <==> Less(a.runtime, b.runtime))
    ensures a.kind == b.kind == "code" ==>
      (FileOrder(a, b) < 0 <==> Less(a.codeRole, b.codeRole) || (a.codeRole == b.codeRole && Less(a.name, b.name)))
    ensures a.kind == b.kind && a.kind in ["config", "tokenizer", "chat-template", "adapter"] ==>
      (FileOrder(a, b) < 0 <==> Less(a.digest, b.digest))
  {
    hide Leq;
    if a.kind == b.kind && a.kind in ["config", "tokenizer", "chat-template", "adapter"] {
      assert a.kind == "config" || a.kind == "tokenizer" || a.kind == "chat-template" || a.kind == "adapter";
    }
  }

  lemma WrapSign(a: int, b: int)
    requires IsInt64(a) && IsInt64(b) && a != b
    ensures (Wrap64(a - b) < 0 <==> a < b) <==> IsInt64(a - b)
  {
  }

  /** Two weights files compare by part exactly when the difference of their parts is an int64. */
  lemma PartOrderExact(a: File, b: File)
    requires IsWeights(a.kind) && IsWeights(b.kind)
    requires IsInt64(DerefPart(a.part)) && IsInt64(DerefPart(b.part)) && DerefPart(a.part) != DerefPart(b.part)
    ensures (FileOrder(a, b) < 0 <==> DerefPart(a.part) < DerefPart(b.part)) <==>
            IsInt64(DerefPart(a.part) - DerefPart(b.part))
  {
    WrapSign(DerefPart(a.part), DerefPart(b.part));
  }

  function WeightsPart(part: int, digest: string): File {
    File("weights.gguf", digest, 1, "w", Some(part), "", "", "", "", "", "")
  }

  /** With parts whose difference is no int64 the comparator runs in a circle. */
  lemma PartOverflowCycle()
    ensures var a, b, c := WeightsPart(-TWO63, ""), WeightsPart(-1, ""), WeightsPart(TWO63 - 1, "");
      FileOrder(a, b) < 0 && FileOrder(b, c) < 0 && FileOrder(c, a) < 0
  {
    var a, b, c := WeightsPart(-TWO63, ""), WeightsPart(-1, ""), WeightsPart(TWO63 - 1, "");
    assert FileOrder(a, b) == Wrap64(-TWO63 + 1);
    assert FileOrder(b, c) == Wrap64(-TWO63);
    assert FileOrder(c, a) == Wrap64(2 * TWO63 - 1) == -1;
  }

  /** The tie-breaking key of a file within its rank, as a pair of numbers and strings to compare. */
  function OrderKey(f: File): (int, int, Bytes, Bytes) {
    var r := KindRank(f.kind);
    if IsWeights(f.kind) then (r, DerefPart(f.part), f.digest, "")
    else if f.kind == "weights.aux" then (r, 0, f.name, "")
    else if f.kind == "runtime-config" then (r, 0, f.runtime, "")
    else if f.kind == "code" then (r, 0, f.codeRole, f.name)
    else (r, 0, f.digest, "")
  }

  /** The order of the keys: lexicographic in the four components. */
  predicate KeyLeq(a: (int, int, Bytes, Bytes), b: (int, int, Bytes, Bytes)) {
    a.0 < b.0 || (a.0 == b.0 && (a.1 < b.1 || (a.1 == b.1 &&
    (Less(a.2, b.2) || (a.2 == b.2 && Leq(a.3, b.3))))))
  }

  lemma RankTellsKind(a: File, b: File)
    requires KindRank(a.kind) == KindRank(b.kind)
    ensures IsWeights(a.kind) == IsWeights(b.kind)
    ensures !IsWeights(a.kind) && KindRank(a.kind) < 8 ==> a.kind == b.kind
  {
  }

  /** On safe parts fileOrder is the lexicographic order of the keys: a total preorder, no overflow. */
  lemma FileOrderIsKeyOrder(a: File, b: File)
    requires SafePart(a) && SafePart(b)
    ensures FileOrder(a, b) <= 0 <==> KeyLeq(OrderKey(a), OrderKey(b))
    ensures FileOrder(a, b) == 0 <==> OrderKey(a) == OrderKey(b)
    ensures FileOrder(a, b) < 0 <==> FileOrder(b, a) > 0
  {
    if KindRank(a.kind) == KindRank(b.kind) {
      RankTellsKind(a, b);
      var ka, kb := OrderKey(a), OrderKey(b);
      LeqTotal(ka.2, kb.2);
      LeqTotal(ka.3, kb.3);
      LeqRefl(ka.2);
      LeqRefl(ka.3);
      LeqRefl(kb.3);
    }
  }

  lemma KeyLeqTrans(a: (int, int, Bytes, Bytes), b: (int, int, Bytes, Bytes), c: (int, int, Bytes, Bytes))
    requires KeyLeq(a, b) && KeyLeq(b, c)
    ensures KeyLeq(a, c)
  {
    if a.0 == c.0 && a.1 == c.1 {
      if a.2 == b.2 == c.2 {
        LeqTrans(a.3, b.3, c.3);
      } else {
        if Leq(a.2, b.2) && Leq(b.2, c.2) {
          LeqTrans(a.2, b.2, c.2);
        }
        LeqTotal(a.2, b.2);
      }
    }
  }

  predicate InOrder(a: File, b: File) {
    FileOrder(a, b) <= 0
  }

  /** SortFiles, a stable sort by fileOrder. */
  function SortFiles(files: seq<File>): seq<File> {
    Sort(InOrder, files)
  }

  ghost predicate AdjacentInOrder(files: seq<File>) {
    forall i :: 0 < i < |files| ==> FileOrder(files[i - 1], files[i]) <= 0
  }

  /** What SortFiles returns always passes the validator's order check, and is a rearrangement. */
  lemma SortFilesIsCanonical(files: seq<File>)
    requires forall f :: f in files ==> SafePart(f)
    ensures multiset(SortFiles(files)) == multiset(files)
    ensures AdjacentInOrder(SortFiles(files))
  {
    SafeSorted(files);
    forall i | 0 < i < |SortFiles(files)| ensures FileOrder(SortFiles(files)[i - 1], SortFiles(files)[i]) <= 0 {
      assert InOrder(SortFiles(files)[i - 1], SortFiles(files)[i]);
    }
  }

  /** Without ties, the canonical order of some files does not depend on the order they came in. */
  lemma SortFilesConverges(files: seq<File>, others: seq<File>)
    requires forall f :: f in files ==> SafePart(f)
    requires NoTies(files) && multiset(files) == multiset(others)
    ensures SortFiles(files) == SortFiles(others)
  {
    SameElements(files, others);
    SafeSorted(files);
    SafeSorted(others);
    SameElements(SortFiles(files), files);
    forall x, y | x in SortFiles(files) && y in SortFiles(files) && InOrder(x, y) && InOrder(y, x) ensures x == y {
      FileOrderIsKeyOrder(x, y);
    }
    SortedUnique(InOrder, SortFiles(files), SortFiles(others));
  }

  /** No two different files have equal keys. */
  ghost predicate NoTies(files: seq<File>) {
    forall f, g :: f in files && g in files && OrderKey(f) == OrderKey(g) ==> f == g
  }

  /** Every rearrangement of the files is sorted into the same list. */
  ghost predicate Converges(files: seq<File>) {
    forall others :: multiset(others) == multiset(files) ==> SortFiles(others) == SortFiles(files)
  }

  /** The canonical order is independent of the order of arrival exactly when there are no ties. */
  lemma ConvergesExactly(files: seq<File>)
    requires forall f :: f in files ==> SafePart(f)
    ensures Converges(files) <==> NoTies(files)
  {
    hide OrderKey, SafePart;
    if NoTies(files) {
      forall others | multiset(others) == multiset(files) ensures SortFiles(others) == SortFiles(files) {
        SortFilesConverges(files, others);
      }
    } else {
      var f, g :| f in files && g in files && OrderKey(f) == OrderKey(g) && f != g;
      var s := SortFiles(files);
      SameElements(s, files);
      var i :| 0 <= i < |s| && s[i] == f;
      var j :| 0 <= j < |s| && s[j] == g;
      SwapTie(files, Min(i, j), if i < j then j else i);
    }
  }

  /** Two files that tie, exchanged in the sorted list, stay where they are when it is sorted again. */
  lemma SwapTie(files: seq<File>, i: nat, j: nat)
    requires forall f :: f in files ==> SafePart(f)
    requires i < j < |files| && SortFiles(files)[i] != SortFiles(files)[j]
    requires OrderKey(SortFiles(files)[i]) == OrderKey(SortFiles(files)[j])
    ensures !Converges(files)
  {
    hide FileOrder, OrderKey;
    var s := SortFiles(files);
    var t := s[i := s[j]][j := s[i]];
    SafeSorted(files);
    SameElements(s, files);
    SwapSorted(s, i, j);
    SortFixed(InOrder, t);
    assert SortFiles(t)[i] == s[j];
  }

  lemma SwapSorted(s: seq<File>, i: nat, j: nat)
    requires (forall f :: f in s ==> SafePart(f)) && SortedBy(InOrder, s)
    requires i < j < |s| && OrderKey(s[i]) == OrderKey(s[j])
    ensures var t := s[i := s[j]][j := s[i]]; multiset(t) == multiset(s) && SortedBy(InOrder, t)
  {
    hide FileOrder, OrderKey;
    var t := s[i := s[j]][j := s[i]];
    forall k, l | 0 <= k < l < |t| ensures InOrder(t[k], t[l]) {
      SwapKey(s, i, j, k);
      SwapKey(s, i, j, l);
      assert InOrder(s[k], s[l]);
      FileOrderIsKeyOrder(s[k], s[l]);
      FileOrderIsKeyOrder(t[k], t[l]);
    }
  }

  lemma SwapKey(s: seq<File>, i: nat, j: nat, k: nat)
    requires i < j < |s| && k < |s| && OrderKey(s[i]) == OrderKey(s[j])
    ensures var t := s[i := s[j]][j := s[i]]; OrderKey(t[k]) == OrderKey(s[k]) && t[k] in s
  {
  }

  lemma SafeSorted(files: seq<File>)
    requires forall f :: f in files ==> SafePart(f)
    ensures PreorderOn(InOrder, files) && SortedBy(InOrder, SortFiles(files))
  {
    forall x, y | x in files && y in files ensures InOrder(x, y) || InOrder(y, x) {
      FileOrderIsKeyOrder(x, y);
    }
    forall x, y, z | x in files && y in files && z in files && InOrder(x, y) && InOrder(y, z)
      ensures InOrder(x, z)
    {
      FileOrderIsKeyOrder(x, y);
      FileOrderIsKeyOrder(y, z);
      FileOrderIsKeyOrder(x, z);
      KeyLeqTrans(OrderKey(x), OrderKey(y), OrderKey(z));
    }
    SortSorted(InOrder, files);
  }

  /** A list that the validator accepts is left as it is by a second sort. */
  lemma SortFilesFixed(files: seq<File>)
    requires forall f :: f in files ==> SafePart(f)
    requires AdjacentInOrder(files)
    ensures SortFiles(files) == files
  {
    AdjacentSorted(files, |files|);
    assert files[..|files|] == files;
    SortFixed(InOrder, files);
  }

  lemma {:induction false} AdjacentSorted(files: seq<File>, n: nat)
    requires forall f :: f in files ==> SafePart(f)
    requires AdjacentInOrder(files) && n <= |files|
    ensures SortedBy(InOrder, files[..n])
  {
    if n > 1 {
      AdjacentSorted(files, n - 1);
      forall i | 0 <= i < n - 1 ensures InOrder(files[i], files[n - 1]) {
        assert InOrder(files[n - 2], files[n - 1]);
        if i < n - 2 {
          assert InOrder(files[..n - 1][i], files[..n - 1][n - 2]);
          FileOrderIsKeyOrder(files[i], files[n - 2]);
          FileOrderIsKeyOrder(files[n - 2], files[n - 1]);
          FileOrderIsKeyOrder(files[i], files[n - 1]);
          KeyLeqTrans(OrderKey(files[i]), OrderKey(files[n - 2]), OrderKey(files[n - 1]));
        }
      }
      forall i, j | 0 <= i < j < n ensures InOrder(files[..n][i], files[..n][j]) {
        if j < n - 1 {
          assert InOrder(files[..n - 1][i], files[..n - 1][j]);
        }
      }
    }
  }
}
