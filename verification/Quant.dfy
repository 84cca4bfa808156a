/** The quant of an import: from the file name, the upstream configuration or the tensor types, always legal. */
module Quant {
  import opened Basics
  import Bencode
  import Manifests
  import Paths
  import Ref
  import Sorting

  /* ---- File names ---- */

  /** A match of [-_]ddddd, or [-_]ddddd-of-ddddd, at the end: how long it is. */
  function SplitSuffix(n: Bytes): (k: nat)
    ensures k <= |n|
  {
    if |n| >= 15 && n[|n| - 15] in "-_" && AllDigits(n[|n| - 14..|n| - 9]) &&
       n[|n| - 9..|n| - 5] == "-of-" && AllDigits(n[|n| - 5..])
    then 15
    else if |n| >= 6 && n[|n| - 6] in "-_" && AllDigits(n[|n| - 5..]) then 6
    else 0
  }

  /** strings.TrimSuffix of ".gguf" */
  function TrimGGUF(base: Bytes): Bytes {
    if Paths.HasSuffix(base, ".gguf") then base[..|base| - 5] else base
  }

  /** A name without its split numbering, and the part that one names, or 0. */
  function Unnumbered(n: Bytes): (Bytes, nat) {
    var k := SplitSuffix(n);
    (n[..|n| - k], if k == 0 then 0 else Bencode.NatValue(n[|n| - k + 1..|n| - k + 6]))
  }

  /** The name without its ending and its split numbering. */
  function Base(base: Bytes): Bytes {
    Unnumbered(TrimGGUF(base)).0
  }

  ghost predicate FiveDigits(d: Bytes) {
    |d| == 5 && AllDigits(d)
  }

  /** x is part d of e of n. */
  ghost predicate IsPartOf(x: Bytes, n: Bytes, d: Bytes, e: Bytes) {
    FiveDigits(d) && FiveDigits(e) && (x == n + "-" + d + "-of-" + e || x == n + "_" + d + "-of-" + e)
  }

  /** x is part d of n. */
  ghost predicate IsPart(x: Bytes, n: Bytes, d: Bytes) {
    FiveDigits(d) && (x == n + "-" + d || x == n + "_" + d)
  }

  ghost predicate NoPartOf(x: Bytes) {
    forall n, d, e :: !IsPartOf(x, n, d, e)
  }

  ghost predicate NoPart(x: Bytes) {
    forall n, d :: !IsPart(x, n, d)
  }

  /** What the numbering of a name is, and that ".gguf" is taken away once. */
  lemma NumberingMeans(x: Bytes, n: Bytes, d: Bytes, e: Bytes)
    ensures IsPartOf(x, n, d, e) || (NoPartOf(x) && IsPart(x, n, d)) ==> Unnumbered(x) == (n, Bencode.NatValue(d))
    ensures NoPartOf(x) && NoPart(x) ==> Unnumbered(x) == (x, 0)
    ensures TrimGGUF(x + ".gguf") == x && ((forall y: Bytes :: x != y + ".gguf") ==> TrimGGUF(x) == x)
  {
    hide Bencode.NatValue, AllDigits;
    if IsPartOf(x, n, d, e) {
      LongNumbering(x, n, d, e);
    } else if NoPartOf(x) && IsPart(x, n, d) {
      ShortNumbering(x, n, d);
    } else if NoPartOf(x) && NoPart(x) {
      NoNumbering(x);
      assert x[..|x|] == x;
    }
    if Paths.HasSuffix(x, ".gguf") {
      assert x == x[..|x| - 5] + ".gguf";
    }
    assert (x + ".gguf")[..|x|] == x && (x + ".gguf")[|x|..] == ".gguf";
  }

  lemma LongNumbering(x: Bytes, n: Bytes, d: Bytes, e: Bytes)
    requires IsPartOf(x, n, d, e)
    ensures SplitSuffix(x) == 15 && Unnumbered(x) == (n, Bencode.NatValue(d))
  {
    hide Bencode.NatValue, AllDigits;
    assert |x| == |n| + 15 && x[..|n|] == n && x[|n| + 1..|n| + 6] == d;
    assert x[|n| + 6..|n| + 10] == "-of-" && x[|n| + 10..] == e;
  }

  lemma ShortNumbering(x: Bytes, n: Bytes, d: Bytes)
    requires IsPart(x, n, d) && NoPartOf(x)
    ensures Unnumbered(x) == (n, Bencode.NatValue(d))
  {
    hide Bencode.NatValue, AllDigits;
    assert |x| == |n| + 6 && x[..|n|] == n && x[|x| - 5..] == d;
    assert x[|x| - 6] in "-_";
    if SplitSuffix(x) == 15 {
      SplitIsLong(x);
    }
    assert SplitSuffix(x) == 6;
    assert x[|x| - 6 + 1..|x| - 6 + 6] == d;
  }

  lemma SplitIsLong(x: Bytes)
    requires SplitSuffix(x) == 15
    ensures !NoPartOf(x)
  {
    hide AllDigits;
    var k := |x| - 15;
    var m, a, b := x[..k], x[k + 1..k + 6], x[k + 10..];
    assert x[k] == '-' || x[k] == '_';
    assert x == m + [x[k]] + a + x[k + 6..k + 10] + b;
    assert IsPartOf(x, m, a, b);
  }

  lemma SplitIsShort(x: Bytes)
    requires SplitSuffix(x) == 6
    ensures !NoPart(x)
  {
    hide AllDigits;
    var k := |x| - 6;
    var n, d := x[..k], x[k + 1..];
    assert x[k] == '-' || x[k] == '_';
    assert x == n + [x[k]] + d && d == x[|x| - 5..] && FiveDigits(d);
    assert IsPart(x, n, d);
  }

  lemma NoNumbering(x: Bytes)
    requires NoPartOf(x) && NoPart(x)
    ensures SplitSuffix(x) == 0
  {
    hide NoPartOf, NoPart, SplitSuffix;
    SuffixLengths(x);
    if SplitSuffix(x) == 15 {
      SplitIsLong(x);
    } else if SplitSuffix(x) == 6 {
      SplitIsShort(x);
    }
  }

  lemma SuffixLengths(x: Bytes)
    ensures SplitSuffix(x) in {0, 6, 15}
  {
  }

  /** The whole of n, or what follows one of its dashes. */
  predicate IsRun(n: Bytes, s: Bytes) {
    s == n || Paths.HasSuffix(n, "-" + s)
  }

  /** q is the longest run of n that is a legal quant, and stem is what stands before it. */
  ghost predicate Longest(n: Bytes, stem: Bytes, q: Bytes) {
    && Ref.QuantSyntax(q) && IsRun(n, q) && (n == q || n == stem + "-" + q)
    && forall s :: IsRun(n, s) && Ref.QuantSyntax(s) ==> |s| <= |q|
  }

  /** No legal run has more than take tokens. */
  ghost predicate AtMost(n: Bytes, take: nat) {
    forall s :: IsRun(n, s) && Ref.QuantSyntax(s) ==> |Paths.Split(s, '-')| <= take
  }

  ghost predicate NoRun(n: Bytes) {
    forall s :: IsRun(n, s) ==> !Ref.QuantSyntax(s)
  }

  /** The last take tokens of n. */
  function LastTokens(n: Bytes, take: nat): Bytes
    requires take <= |Paths.Split(n, '-')|
  {
    Paths.Join(Paths.Split(n, '-')[|Paths.Split(n, '-')| - take..], '-')
  }

  lemma AllTokens(n: Bytes)
    ensures AtMost(n, |Paths.Split(n, '-')|)
  {
    hide Ref.QuantSyntax, IsRun, Paths.Split;
    forall s | IsRun(n, s) ensures |Paths.Split(s, '-')| <= |Paths.Split(n, '-')| {
      RunTokens(n, s);
    }
  }

  lemma OneFewer(n: Bytes, take: nat)
    requires 0 < take <= |Paths.Split(n, '-')| && AtMost(n, take) && !Ref.QuantSyntax(LastTokens(n, take))
    ensures AtMost(n, take - 1)
  {
    hide Ref.QuantSyntax, IsRun, Paths.Split, Paths.Join;
    forall s | IsRun(n, s) && Ref.QuantSyntax(s) ensures |Paths.Split(s, '-')| <= take - 1 {
      RunTokens(n, s);
    }
  }

  lemma FoundLongest(n: Bytes, take: nat)
    requires 0 < take <= |Paths.Split(n, '-')| && AtMost(n, take) && Ref.QuantSyntax(LastTokens(n, take))
    ensures Longest(n, Paths.Join(Paths.Split(n, '-')[..|Paths.Split(n, '-')| - take], '-'), LastTokens(n, take))
  {
    hide Ref.QuantSyntax, IsRun, Paths.Split, Paths.Join;
    TakeRun(n, take);
    forall s | IsRun(n, s) && Ref.QuantSyntax(s) ensures |s| <= |LastTokens(n, take)| {
      RunsGrow(n, s, take);
    }
  }

  lemma NoneLeft(n: Bytes)
    requires AtMost(n, 0)
    ensures NoRun(n)
  {
    hide Ref.QuantSyntax, IsRun;
    forall s | IsRun(n, s) ensures !Ref.QuantSyntax(s) {
      assert |Paths.Split(s, '-')| > 0;
    }
  }

  /** splitGGUF: the longest run that is a legal quant, what stands before it, and the part number. */
  method SplitGGUF(base: Bytes) returns (stem: Bytes, part: nat, quant: Bytes)
    ensures part == Unnumbered(TrimGGUF(base)).1
    ensures quant != "" ==> Longest(Base(base), stem, quant)
    ensures quant == "" ==> NoRun(Base(base)) && stem == Base(base)
  {
    hide Ref.QuantSyntax, Paths.Split, Paths.Join, IsRun, Unnumbered, Longest, AtMost, NoRun;
    var n;
    n, part := Unnumbered(TrimGGUF(base)).0, Unnumbered(TrimGGUF(base)).1;
    var tokens := Paths.Split(n, '-');
    var take := |tokens|;
    AllTokens(n);
    while take > 0
      invariant 0 <= take <= |tokens| && AtMost(n, take)
    {
      var cand := Paths.Join(tokens[|tokens| - take..], '-');
      if Ref.QuantSyntax(cand) {
        FoundLongest(n, take);
        NotEmpty(cand);
        return Paths.Join(tokens[..|tokens| - take], '-'), part, cand;
      }
      OneFewer(n, take);
      take := take - 1;
    }
    NoneLeft(n);
    return n, part, "";
  }

  lemma NotEmpty(s: Bytes)
    requires Ref.QuantSyntax(s)
    ensures s != ""
  {
  }

  lemma SplitFirst(u: Bytes, s: Bytes, d: char)
    requires d !in u
    ensures Paths.Split(u + [d] + s, d) == [u] + Paths.Split(s, d)
  {
    hide IndexByte;
    IndexOfDelimiter(u, d, s);
    assert (u + [d] + s)[..|u|] == u && (u + [d] + s)[|u| + 1..] == s;
  }

  lemma {:induction false} SplitConcat(u: Bytes, s: Bytes, d: char)
    ensures Paths.Split(u + [d] + s, d) == Paths.Split(u, d) + Paths.Split(s, d)
  {
    hide IndexByte;
    var i := IndexByte(u, d);
    if i == |u| {
      SplitFirst(u, s, d);
    } else {
      var v := u[i + 1..];
      SplitConcat(v, s, d);
      assert u + [d] + s == u[..i] + [d] + (v + [d] + s);
      SplitFirst(u[..i], v + [d] + s, d);
    }
  }

  /** The last tokens of n, as many as s has, are those of the run s. */
  lemma RunTokens(n: Bytes, s: Bytes)
    requires IsRun(n, s)
    ensures var t, k := Paths.Split(n, '-'), |Paths.Split(s, '-')|;
      k <= |t| && t[|t| - k..] == Paths.Split(s, '-') && Paths.Join(t[|t| - k..], '-') == s
  {
    Paths.JoinSplit(s, '-');
    if s != n {
      var u := n[..|n| - |s| - 1];
      assert n == u + ['-'] + s;
      SplitConcat(u, s, '-');
    }
  }

  lemma {:induction false} JoinConcat(a: seq<Bytes>, b: seq<Bytes>, d: char)
    requires a != [] && b != []
    ensures Paths.Join(a + b, d) == Paths.Join(a, d) + [d] + Paths.Join(b, d)
  {
    if |a| == 1 {
      assert (a + b)[1..] == b;
    } else {
      assert (a + b)[1..] == a[1..] + b;
      JoinConcat(a[1..], b, d);
    }
  }

  /** The last tokens of n, joined, are a run of n. */
  lemma TakeRun(n: Bytes, take: nat)
    requires 0 < take <= |Paths.Split(n, '-')|
    ensures var t := Paths.Split(n, '-');
      var s := Paths.Join(t[|t| - take..], '-');
      IsRun(n, s) && (n == s || n == Paths.Join(t[..|t| - take], '-') + "-" + s)
  {
    hide Paths.Split, Paths.Join;
    var t := Paths.Split(n, '-');
    Paths.JoinSplit(n, '-');
    if take < |t| {
      var s := Paths.Join(t[|t| - take..], '-');
      JoinConcat(t[..|t| - take], t[|t| - take..], '-');
      assert t == t[..|t| - take] + t[|t| - take..];
      assert n[|n| - |s| - 1..] == "-" + s;
    } else {
      assert t[|t| - take..] == t;
    }
  }

  /** A run of no more tokens is no longer. */
  lemma RunsGrow(n: Bytes, s: Bytes, take: nat)
    requires IsRun(n, s) && |Paths.Split(s, '-')| <= take <= |Paths.Split(n, '-')|
    ensures |s| <= |Paths.Join(Paths.Split(n, '-')[|Paths.Split(n, '-')| - take..], '-')|
  {
    hide Paths.Split, Paths.Join, IsRun;
    RunTokens(n, s);
    var t, k := Paths.Split(n, '-'), |Paths.Split(s, '-')|;
    if k < take {
      JoinConcat(t[|t| - take..|t| - k], t[|t| - k..], '-');
      assert t[|t| - take..] == t[|t| - take..|t| - k] + t[|t| - k..];
    }
  }

  /* ---- Upstream configuration and tensor types ---- */

  /** quantization_config, once parsed. */
  datatype Config = Config(quantMethod: Bytes, format: Bytes)

  /** The configuration says q: the first of its format and its method, in that order, that is legal. */
  ghost predicate Says(config: Option<Config>, q: Bytes) {
    config.Some? &&
    var words := [config.value.format, config.value.quantMethod];
    exists i ::
      && 0 <= i < 2 && SaysLegal(words[i]) && q == Ref.Lower(words[i])
      && forall k :: 0 <= k < i ==> !SaysLegal(words[k])
  }

  predicate SaysLegal(word: Bytes) {
    word != "" && Ref.QuantSyntax(Ref.Lower(word))
  }

  /** QuantFromUpstreamConfig */
  function FromConfig(config: Option<Config>): (q: Bytes)
    ensures if q != "" then Ref.QuantSyntax(q) && Says(config, q) else forall x :: !Says(config, x)
  {
    assert config.Some? ==>
      var words := [config.value.format, config.value.quantMethod];
      words[0] == config.value.format && words[1] == config.value.quantMethod;
    if config.None? then ""
    else
      var f, m := Ref.Lower(config.value.format), Ref.Lower(config.value.quantMethod);
      if config.value.format != "" && Ref.QuantSyntax(f) then f
      else if config.value.quantMethod != "" && Ref.QuantSyntax(m) then m
      else ""
  }

  /** One tensor of a safetensors header: its type in upper case, and its size from its two offsets. */
  datatype Tensor = Tensor(dtype: Bytes, size: int)

  /** The bytes of one type, in 64-bit arithmetic. */
  function BytesOf(tensors: seq<Tensor>, dtype: Bytes): int {
    if tensors == [] then 0
    else
      var n := |tensors| - 1;
      if tensors[n].dtype == dtype
      then Manifests.Wrap64(BytesOf(tensors[..n], dtype) + tensors[n].size)
      else BytesOf(tensors[..n], dtype)
  }

  /** Every tensor of the type counts with its size, and no other does. */
  lemma {:induction false} BytesAddUp(a: seq<Tensor>, b: seq<Tensor>, dtype: Bytes)
    ensures BytesOf(a + b, dtype) == Manifests.Wrap64(BytesOf(a, dtype) + BytesOf(b, dtype))
    ensures |b| == 1 ==> BytesOf(b, dtype) == if b[0].dtype == dtype then Manifests.Wrap64(b[0].size) else 0
    decreases |b|
  {
    hide Manifests.Wrap64;
    BytesAre64(a, dtype);
    if b == [] {
      assert a + b == a;
    } else {
      var n := |b| - 1;
      assert (a + b)[..|a| + n] == a + b[..n];
      BytesAddUp(a, b[..n], dtype);
      BytesAre64(a + b[..n], dtype);
      WrapAdds(BytesOf(a, dtype), BytesOf(b[..n], dtype), b[n].size);
    }
  }

  lemma WrapAdds(x: int, y: int, z: int)
    ensures Manifests.Wrap64(Manifests.Wrap64(x + y) + z) == Manifests.Wrap64(x + Manifests.Wrap64(y + z))
  {
  }

  lemma {:induction false} BytesAre64(a: seq<Tensor>, dtype: Bytes)
    ensures Manifests.IsInt64(BytesOf(a, dtype))
  {
    if a != [] {
      BytesAre64(a[..|a| - 1], dtype);
    }
  }

  predicate HasType(tensors: seq<Tensor>, dtype: Bytes) {
    exists i :: 0 <= i < |tensors| && tensors[i].dtype == dtype
  }

  function QuantOfType(dtype: Bytes): (q: Bytes)
    ensures q != "" <==> (dtype, q) in {("BF16", "bf16"), ("F16", "f16"), ("F32", "f32")}
  {
    if dtype == "BF16" then "bf16" else if dtype == "F16" then "f16" else if dtype == "F32" then "f32" else ""
  }

  /** The order of DominantDtype: more bytes first, then by name. */
  predicate Before(bytes: map<Bytes, int>, a: Bytes, b: Bytes) {
    var x, y := if a in bytes then bytes[a] else 0, if b in bytes then bytes[b] else 0;
    x > y || (x == y && Leq(a, b))
  }

  lemma BeforeOrders(bytes: map<Bytes, int>, names: seq<Bytes>)
    ensures Sorting.PreorderOn((a, b) => Before(bytes, a, b), names)
  {
    var leq := (a, b) => Before(bytes, a, b);
    hide Leq;
    forall a, b | a in names && b in names ensures leq(a, b) || leq(b, a) {
      LeqTotal(a, b);
    }
    forall a, b, c | a in names && b in names && c in names && leq(a, b) && leq(b, c) ensures leq(a, c) {
      if Leq(a, b) && Leq(b, c) {
        LeqTrans(a, b, c);
      }
    }
  }

  /** d is a known type of these tensors, and no other known type covers more bytes, or as many under a smaller name. */
  ghost predicate Dominates(tensors: seq<Tensor>, d: Bytes) {
    HasType(tensors, d) && QuantOfType(d) != "" &&
    forall e :: HasType(tensors, e) && QuantOfType(e) != "" ==>
      BytesOf(tensors, d) > BytesOf(tensors, e) || (BytesOf(tensors, d) == BytesOf(tensors, e) && Leq(d, e))
  }

  /** The loop of DominantDtype that adds up the bytes of each type. */
  method CountTypes(tensors: seq<Tensor>) returns (bytes: map<Bytes, int>, names: seq<Bytes>)
    ensures forall d :: d in names <==> HasType(tensors, d)
    ensures forall d :: d in bytes <==> HasType(tensors, d)
    ensures forall d :: d in bytes ==> bytes[d] == BytesOf(tensors, d)
  {
    hide Manifests.Wrap64, HasType;
    bytes, names := map[], [];
    NoTypes(tensors);
    for i := 0 to |tensors|
      invariant forall d :: d in names <==> HasType(tensors[..i], d)
      invariant forall d :: d in bytes <==> HasType(tensors[..i], d)
      invariant forall d :: BytesOf(tensors[..i], d) == if d in bytes then bytes[d] else 0
    {
      var d := tensors[i].dtype;
      MoreTypes(tensors, i);
      MoreBytes(tensors, i);
      if d !in bytes {
        names := names + [d];
      }
      bytes := bytes[d := Manifests.Wrap64((if d in bytes then bytes[d] else 0) + tensors[i].size)];
    }
    assert tensors[..|tensors|] == tensors;
  }

  lemma NoTypes(tensors: seq<Tensor>)
    ensures forall d :: !HasType(tensors[..0], d)
  {
  }

  lemma MoreBytes(tensors: seq<Tensor>, i: nat)
    requires i < |tensors|
    ensures forall d :: d != tensors[i].dtype ==> BytesOf(tensors[..i + 1], d) == BytesOf(tensors[..i], d)
    ensures BytesOf(tensors[..i + 1], tensors[i].dtype) ==
      Manifests.Wrap64(BytesOf(tensors[..i], tensors[i].dtype) + tensors[i].size)
  {
    hide Manifests.Wrap64;
    assert tensors[..i + 1][..i] == tensors[..i];
  }

  ghost predicate NoKnownType(tensors: seq<Tensor>) {
    forall d :: QuantOfType(d) != "" ==> !HasType(tensors, d)
  }

  /** DominantDtype: the known type that covers the most bytes; the smaller name wins a tie. */
  method DominantDtype(tensors: seq<Tensor>) returns (q: Bytes)
    ensures q == "" <==> NoKnownType(tensors)
    ensures q != "" ==> Ref.QuantSyntax(q) && exists d :: Dominates(tensors, d) && QuantOfType(d) == q
  {
    hide Manifests.Wrap64, Ref.QuantSyntax, Leq, HasType, Before, BytesOf;
    var bytes, names := CountTypes(tensors);
    var leq := (a, b) => Before(bytes, a, b);
    var sorted := Sorting.Sort(leq, names);
    BeforeOrders(bytes, names);
    Sorting.SortSorted(leq, names);
    Sorting.SameElements(sorted, names);
    for i := 0 to |sorted|
      invariant forall j :: 0 <= j < i ==> QuantOfType(sorted[j]) == ""
    {
      var d := sorted[i];
      assert d in sorted;
      if QuantOfType(d) != "" {
        KnownLegal(d);
        forall e | HasType(tensors, e) && QuantOfType(e) != "" ensures Before(bytes, d, e) {
          assert e in sorted;
          var j :| 0 <= j < |sorted| && sorted[j] == e;
          BeforeItself(bytes, d);
          assert j == i || leq(sorted[i], sorted[j]);
        }
        WinsAre(tensors, bytes, d);
        return QuantOfType(d);
      }
    }
    return "";
  }

  lemma BeforeItself(bytes: map<Bytes, int>, d: Bytes)
    ensures Before(bytes, d, d)
  {
    LeqRefl(d);
  }

  lemma WinsAre(tensors: seq<Tensor>, bytes: map<Bytes, int>, d: Bytes)
    requires forall e :: e in bytes <==> HasType(tensors, e)
    requires forall e :: e in bytes ==> bytes[e] == BytesOf(tensors, e)
    requires HasType(tensors, d) && QuantOfType(d) != ""
    requires forall e :: HasType(tensors, e) && QuantOfType(e) != "" ==> Before(bytes, d, e)
    ensures Dominates(tensors, d)
  {
    hide HasType, Leq, BytesOf;
  }

  lemma MoreTypes(tensors: seq<Tensor>, i: nat)
    requires i < |tensors|
    ensures forall d :: HasType(tensors[..i + 1], d) <==> HasType(tensors[..i], d) || d == tensors[i].dtype
  {
    forall d ensures HasType(tensors[..i + 1], d) <==> HasType(tensors[..i], d) || d == tensors[i].dtype {
      if k :| 0 <= k < i && tensors[..i][k].dtype == d {
        assert tensors[..i + 1][k].dtype == d;
      }
      assert tensors[..i + 1][i] == tensors[i];
    }
  }

  lemma KnownLegal(d: Bytes)
    requires QuantOfType(d) != ""
    ensures Ref.QuantSyntax(QuantOfType(d))
  {
    var q := QuantOfType(d);
    assert IsDigit(q[1]) || IsDigit(q[2]);
  }

  /**
   DeriveQuant: the chain of sources, each asked when the ones before it have no legal answer.  The
   result is always legal, so an index member is never refused for its quant.
   */
  method DeriveQuant(filename: Bytes, config: Option<Config>, tensors: seq<Tensor>) returns (q: Bytes)
    ensures Ref.QuantSyntax(q)
    ensures !NoRun(Base(filename)) ==> exists stem :: Longest(Base(filename), stem, q)
    ensures NoRun(Base(filename)) && (exists x :: Says(config, x)) ==> Says(config, q)
    ensures NoRun(Base(filename)) && (forall x :: !Says(config, x)) ==>
      if NoKnownType(tensors) then q == "raw" else exists d :: Dominates(tensors, d) && QuantOfType(d) == q
  {
    hide Ref.QuantSyntax, IsRun, Base, FromConfig, Says, NoRun, Longest, NoKnownType, Dominates, QuantOfType;
    var stem, part;
    stem, part, q := SplitGGUF(filename);
    if q != "" {
      LongestLegal(Base(filename), stem, q);
      return;
    }
    q := FromConfig(config);
    if q != "" {
      ConfigLegal(config);
      return;
    }
    q := DominantDtype(tensors);
    if q != "" {
      return;
    }
    RawLegal();
    return "raw";
  }

  lemma LongestLegal(n: Bytes, stem: Bytes, q: Bytes)
    requires Longest(n, stem, q)
    ensures Ref.QuantSyntax(q) && !NoRun(n)
  {
    hide Ref.QuantSyntax, IsRun;
  }

  lemma ConfigLegal(config: Option<Config>)
    ensures FromConfig(config) != "" ==> Ref.QuantSyntax(FromConfig(config))
  {
  }

  lemma RawLegal()
    ensures Ref.QuantSyntax("raw")
  {
  }
}
