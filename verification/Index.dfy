/** The model index: its member rules, and the merge that replaces the member of one quant. */
module Index {
  import opened Basics
  import Ref
  import Sorting

  /** IndexMember */
  datatype Member = Member(manifest: Bytes, quant: Bytes, weightsFormat: Bytes, revision: Bytes)

  datatype Class = Invalid | DuplicateQuant

  ghost predicate DistinctQuants(members: seq<Member>) {
    forall i, j :: 0 <= i < |members| && 0 <= j < |members| && members[i].quant == members[j].quant ==> i == j
  }

  ghost predicate ValidMembers(members: seq<Member>) {
    && members != [] && DistinctQuants(members)
    && forall i :: 0 <= i < |members| ==> IsDigest(members[i].manifest) && Ref.QuantSyntax(members[i].quant)
  }

  /** ValidateIndexMembers */
  method ValidateMembers(members: seq<Member>) returns (err: Option<Class>)
    ensures err.None? <==> ValidMembers(members)
    ensures err == Some(DuplicateQuant) ==> !DistinctQuants(members)
  {
    hide Ref.QuantSyntax;
    if |members| == 0 {
      return Some(Invalid);
    }
    var seen: set<Bytes> := {};
    for i := 0 to |members|
      invariant forall q :: q in seen <==> exists j :: 0 <= j < i && members[j].quant == q
      invariant forall j, k :: 0 <= j < i && 0 <= k < i && members[j].quant == members[k].quant ==> j == k
      invariant forall j :: 0 <= j < i ==> IsDigest(members[j].manifest) && Ref.QuantSyntax(members[j].quant)
    {
      var m := members[i];
      if !IsDigest(m.manifest) {
        return Some(Invalid);
      }
      if !Ref.QuantSyntax(m.quant) {
        return Some(Invalid);
      }
      if m.quant in seen {
        return Some(DuplicateQuant);
      }
      seen := seen + {m.quant};
    }
    return None;
  }

  function ByQuant(a: Member, b: Member): bool {
    Leq(a.quant, b.quant)
  }

  function Without(members: seq<Member>, quant: Bytes): (r: seq<Member>)
    ensures forall x :: x in r <==> x in members && x.quant != quant
  {
    if members == [] then []
    else
      var n := |members| - 1;
      assert members == members[..n] + [members[n]];
      Without(members[..n], quant) + if members[n].quant != quant then [members[n]] else []
  }

  function Upsert(members: seq<Member>, m: Member): seq<Member> {
    Sorting.Sort(ByQuant, Without(members, m.quant) + [m])
  }

  /** UpsertMember */
  method UpsertMember(members: seq<Member>, m: Member) returns (out: seq<Member>)
    ensures out == Upsert(members, m)
  {
    out := [];
    for i := 0 to |members|
      invariant out == Without(members[..i], m.quant)
    {
      assert members[..i + 1][..i] == members[..i];
      if members[i].quant != m.quant {
        out := out + [members[i]];
      }
    }
    assert members[..|members|] == members;
    out := out + [m];
    out := Sorting.Sort(ByQuant, out);
  }

  /* ---- An index as the map from quants to members that it stands for ---- */

  /** The list holds exactly the members of the map, in strictly increasing quant order. */
  ghost predicate Lists(members: seq<Member>, c: map<Bytes, Member>) {
    && (forall i, j :: 0 <= i < j < |members| ==> Less(members[i].quant, members[j].quant))
    && (forall x :: x in members ==> x.quant in c && c[x.quant] == x)
    && (forall q :: q in c ==> c[q].quant == q && c[q] in members)
  }

  lemma QuantOrder(xs: seq<Member>)
    ensures Sorting.PreorderOn(ByQuant, xs)
  {
    forall x, y | x in xs && y in xs ensures ByQuant(x, y) || ByQuant(y, x) {
      LeqTotal(x.quant, y.quant);
    }
    forall x, y, z | x in xs && y in xs && z in xs && ByQuant(x, y) && ByQuant(y, z) ensures ByQuant(x, z) {
      LeqTrans(x.quant, y.quant, z.quant);
    }
  }

  lemma {:induction false} WithoutDistinct(members: seq<Member>, quant: Bytes)
    requires DistinctQuants(members)
    ensures DistinctQuants(Without(members, quant))
  {
    if members != [] {
      var n := |members| - 1;
      DistinctPrefix(members, n);
      WithoutDistinct(members[..n], quant);
      if members[n].quant != quant {
        DistinctParts(Without(members[..n], quant), members[n]);
      }
    }
  }

  lemma DistinctPrefix(members: seq<Member>, n: nat)
    requires DistinctQuants(members) && n < |members|
    ensures DistinctQuants(members[..n])
    ensures forall x :: x in members[..n] ==> x.quant != members[n].quant
  {
    forall i | 0 <= i < n ensures members[..n][i].quant != members[n].quant {
      assert members[..n][i] == members[i];
    }
    forall i, j | 0 <= i < n && 0 <= j < n && members[..n][i].quant == members[..n][j].quant ensures i == j {
      assert members[i].quant == members[j].quant;
    }
  }

  /** Distinct quants, sorted: strictly increasing. */
  lemma SortedStrictly(xs: seq<Member>)
    requires DistinctQuants(xs)
    ensures var ys := Sorting.Sort(ByQuant, xs);
      && (forall x :: x in ys <==> x in xs)
      && (forall i, j :: 0 <= i < j < |ys| ==> Less(ys[i].quant, ys[j].quant))
  {
    var ys := Sorting.Sort(ByQuant, xs);
    QuantOrder(xs);
    Sorting.SortSorted(ByQuant, xs);
    Sorting.SameElements(xs, ys);
    forall i, j | 0 <= i < j < |ys| ensures Less(ys[i].quant, ys[j].quant) {
      assert ByQuant(ys[i], ys[j]);
      if ys[i].quant == ys[j].quant {
        TwiceInSort(xs, ys, i, j);
      }
    }
  }

  lemma TwiceInSort(xs: seq<Member>, ys: seq<Member>, i: nat, j: nat)
    requires DistinctQuants(xs) && multiset(xs) == multiset(ys) && i < j < |ys|
    ensures ys[i].quant != ys[j].quant
  {
    if ys[i].quant == ys[j].quant {
      Sorting.SameElements(xs, ys);
      assert ys[i] in ys && ys[j] in ys;
      var k :| 0 <= k < |xs| && xs[k] == ys[i];
      var l :| 0 <= l < |xs| && xs[l] == ys[j];
      assert k == l && ys[i] == ys[j];
      TwiceCounted(ys, i, j);
      OnceCounted(xs, k);
      assert false;
    }
  }

  lemma TwiceCounted(ys: seq<Member>, i: nat, j: nat)
    requires i < j < |ys| && ys[i] == ys[j]
    ensures multiset(ys)[ys[i]] >= 2
  {
    assert ys == ys[..i + 1] + ys[i + 1..];
    assert ys[i] == ys[..i + 1][i] && ys[j] == ys[i + 1..][j - i - 1];
    assert ys[i] in ys[..i + 1] && ys[i] in ys[i + 1..];
  }

  lemma OnceCounted(xs: seq<Member>, k: nat)
    requires DistinctQuants(xs) && k < |xs|
    ensures multiset(xs)[xs[k]] == 1
  {
    assert xs == xs[..k] + [xs[k]] + xs[k + 1..];
    assert xs[k] !in xs[..k] && xs[k] !in xs[k + 1..];
  }

  lemma ListsDistinct(members: seq<Member>, c: map<Bytes, Member>)
    requires Lists(members, c)
    ensures DistinctQuants(members)
  {
    forall i, j | 0 <= i < j < |members| ensures members[i].quant != members[j].quant {
      assert Less(members[i].quant, members[j].quant);
    }
  }

  /** UpsertMember replaces the member of one quant and keeps every other. */
  lemma UpsertElements(members: seq<Member>, m: Member)
    requires DistinctQuants(members)
    ensures forall x :: x in Upsert(members, m) <==> x == m || (x in members && x.quant != m.quant)
    ensures forall i, j :: 0 <= i < j < |Upsert(members, m)| ==>
      Less(Upsert(members, m)[i].quant, Upsert(members, m)[j].quant)
  {
    hide Less;
    var rest := Without(members, m.quant);
    WithoutDistinct(members, m.quant);
    var xs := rest + [m];
    DistinctParts(rest, m);
    SortedStrictly(xs);
    assert Upsert(members, m) == Sorting.Sort(ByQuant, xs);
    assert forall x :: x in xs <==> x == m || x in rest;
  }

  lemma DistinctParts(rest: seq<Member>, m: Member)
    requires DistinctQuants(rest) && forall x :: x in rest ==> x.quant != m.quant
    ensures DistinctQuants(rest + [m])
  {
    var xs := rest + [m];
    forall i, j | 0 <= i < j < |xs| ensures xs[i].quant != xs[j].quant {
      assert xs[i] == rest[i] && rest[i] in rest;
    }
  }

  lemma UpsertLists(members: seq<Member>, c: map<Bytes, Member>, m: Member)
    requires Lists(members, c)
    ensures Lists(Upsert(members, m), c[m.quant := m])
  {
    hide Upsert, Less;
    ListsDistinct(members, c);
    UpsertElements(members, m);
  }

  /** An index is determined by its members: two lists of one map are the same list. */
  lemma ListsUnique(a: seq<Member>, b: seq<Member>, c: map<Bytes, Member>)
    requires Lists(a, c) && Lists(b, c)
    ensures a == b
  {
    hide Less;
    ListsDistinct(a, c);
    ListsDistinct(b, c);
    assert forall x :: x in a <==> x in b;
    SameBag(a, b);
    QuantsDecide(a, c);
    ListsSorted(a, c);
    ListsSorted(b, c);
    Sorting.SortedUnique(ByQuant, a, b);
  }

  lemma ListsSorted(a: seq<Member>, c: map<Bytes, Member>)
    requires Lists(a, c)
    ensures Sorting.SortedBy(ByQuant, a)
  {
    forall i, j | 0 <= i < j < |a| ensures ByQuant(a[i], a[j]) {
      assert Less(a[i].quant, a[j].quant);
    }
  }

  lemma QuantsDecide(a: seq<Member>, c: map<Bytes, Member>)
    requires Lists(a, c)
    ensures forall x, y :: x in a && y in a && ByQuant(x, y) && ByQuant(y, x) ==> x == y
  {
    forall x, y | x in a && y in a && ByQuant(x, y) && ByQuant(y, x) ensures x == y {
      LeqTotal(x.quant, y.quant);
    }
  }

  lemma SameBag(a: seq<Member>, b: seq<Member>)
    requires DistinctQuants(a) && DistinctQuants(b) && forall x :: x in a <==> x in b
    ensures multiset(a) == multiset(b)
  {
    forall x ensures multiset(a)[x] == multiset(b)[x] {
      if x in a {
        var i :| 0 <= i < |a| && a[i] == x;
        var j :| 0 <= j < |b| && b[j] == x;
        OnceCounted(a, i);
        OnceCounted(b, j);
      } else {
        assert x !in multiset(a) && x !in multiset(b);
      }
    }
  }

  /** Upserts of distinct quants commute. */
  lemma UpsertsCommute(members: seq<Member>, c: map<Bytes, Member>, a: Member, b: Member)
    requires Lists(members, c) && a.quant != b.quant
    ensures Upsert(Upsert(members, a), b) == Upsert(Upsert(members, b), a)
  {
    hide Upsert, Lists;
    UpsertLists(members, c, a);
    UpsertLists(members, c, b);
    UpsertLists(Upsert(members, a), c[a.quant := a], b);
    UpsertLists(Upsert(members, b), c[b.quant := b], a);
    assert c[a.quant := a][b.quant := b] == c[b.quant := b][a.quant := a];
    ListsUnique(Upsert(Upsert(members, a), b), Upsert(Upsert(members, b), a), c[a.quant := a][b.quant := b]);
  }

  /* ---- Merging the members of one import ---- */

  function UpsertAll(members: seq<Member>, ms: seq<Member>): seq<Member> {
    if ms == [] then members else Upsert(UpsertAll(members, ms[..|ms| - 1]), ms[|ms| - 1])
  }

  function Commit(c: map<Bytes, Member>, ms: seq<Member>): map<Bytes, Member> {
    if ms == [] then c else Commit(c, ms[..|ms| - 1])[ms[|ms| - 1].quant := ms[|ms| - 1]]
  }

  lemma {:induction false} UpsertAllLists(members: seq<Member>, c: map<Bytes, Member>, ms: seq<Member>)
    requires Lists(members, c)
    ensures Lists(UpsertAll(members, ms), Commit(c, ms))
  {
    hide Upsert, Lists;
    if ms != [] {
      UpsertAllLists(members, c, ms[..|ms| - 1]);
      UpsertLists(UpsertAll(members, ms[..|ms| - 1]), Commit(c, ms[..|ms| - 1]), ms[|ms| - 1]);
    }
  }

  /** A commit keeps every other quant, and ends with the last member of each quant it brings. */
  lemma {:induction false} CommitKeeps(c: map<Bytes, Member>, ms: seq<Member>)
    ensures forall q :: q in Commit(c, ms) <==> q in c || exists m :: m in ms && m.quant == q
    ensures forall q :: q in c && (forall m :: m in ms ==> m.quant != q) ==> Commit(c, ms)[q] == c[q]
    ensures forall q :: q in Commit(c, ms) && q !in c ==> Commit(c, ms)[q] in ms
    ensures forall q :: q in Commit(c, ms) && Commit(c, ms)[q] !in ms ==> q in c && Commit(c, ms)[q] == c[q]
  {
    if ms != [] {
      var n := |ms| - 1;
      assert ms == ms[..n] + [ms[n]];
      CommitKeeps(c, ms[..n]);
    }
  }

  /** No later member has the quant of member i. */
  ghost predicate LastOfQuant(ms: seq<Member>, i: nat) {
    i < |ms| && forall k :: i < k < |ms| ==> ms[k].quant != ms[i].quant
  }

  lemma {:induction false} CommitLast(c: map<Bytes, Member>, ms: seq<Member>, i: nat)
    requires LastOfQuant(ms, i)
    ensures ms[i].quant in Commit(c, ms) && Commit(c, ms)[ms[i].quant] == ms[i]
  {
    var n := |ms| - 1;
    if i < n {
      assert ms[..n][i] == ms[i] && ms[i].quant != ms[n].quant;
      CommitLast(c, ms[..n], i);
    }
  }

  /** Importing the same members again changes nothing. */
  lemma ReimportIdempotent(members: seq<Member>, c: map<Bytes, Member>, ms: seq<Member>)
    requires Lists(members, c) && DistinctQuants(ms)
    ensures UpsertAll(UpsertAll(members, ms), ms) == UpsertAll(members, ms)
  {
    hide Upsert, Lists;
    var c1 := Commit(c, ms);
    var c2 := Commit(c1, ms);
    CommitKeeps(c, ms);
    CommitKeeps(c1, ms);
    forall q | q in c2 ensures q in c1 && c2[q] == c1[q] {
      if m :| m in ms && m.quant == q {
        var i :| 0 <= i < |ms| && ms[i] == m;
        CommitLast(c, ms, i);
        CommitLast(c1, ms, i);
      }
    }
    assert c1 == c2;
    UpsertAllLists(members, c, ms);
    UpsertAllLists(UpsertAll(members, ms), c1, ms);
    ListsUnique(UpsertAll(UpsertAll(members, ms), ms), UpsertAll(members, ms), c1);
  }
}
