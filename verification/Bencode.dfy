/**
 The bencode encoder (BEP 3).  int and int64 are one constructor, as are string and []byte: the
 encoder writes them alike.
 */
module Bencode {
  import opened Basics
  import opened Sorting

  datatype Value = Int(i: int) | Str(s: Bytes) | List(l: seq<Value>) | Dict(d: map<Bytes, Value>)

  /* ---- Decimal numbers ---- */

  function DigitChar(n: nat): char
    requires n < 10
  {
    '0' + n as char
  }

  function DecNat(n: nat): (s: string)
    ensures |s| > 0 && AllDigits(s)
  {
    if n < 10 then [DigitChar(n)] else DecNat(n / 10) + [DigitChar(n % 10)]
  }

  /** %d */
  function Dec(n: int): string {
    if n < 0 then "-" + DecNat(-n) else DecNat(n)
  }

  function NatValue(s: string): nat
    requires AllDigits(s)
  {
    if s == [] then 0
    else
      assert IsDigit(s[|s| - 1]);
      10 * NatValue(s[..|s| - 1]) + (s[|s| - 1] as int - '0' as int)
  }

  lemma {:induction false} DecNatValue(n: nat)
    ensures NatValue(DecNat(n)) == n
  {
    if n >= 10 {
      DecNatValue(n / 10);
      assert DecNat(n)[..|DecNat(n)| - 1] == DecNat(n / 10);
    } else {
      assert DecNat(n)[..0] == [];
    }
  }

  /** The decimal text of n: digits that add up to it, without leading zeros. */
  predicate Decimal(s: string, n: nat) {
    s != "" && AllDigits(s) && (|s| > 1 ==> s[0] != '0') && NatValue(s) == n
  }

  lemma {:induction false} DecNatIsDecimal(n: nat)
    ensures Decimal(DecNat(n), n) && (n > 0 ==> DecNat(n)[0] != '0')
  {
    DecNatValue(n);
    if n >= 10 {
      DecNatIsDecimal(n / 10);
    }
  }

  lemma {:induction false} LeadingDigit(s: string)
    requires s != "" && AllDigits(s) && s[0] != '0'
    ensures NatValue(s) > 0
  {
    assert IsDigit(s[|s| - 1]);
    if |s| > 1 {
      LeadingDigit(s[..|s| - 1]);
    }
  }

  lemma {:induction false} DecimalUnique(s: string, n: nat)
    requires Decimal(s, n)
    ensures s == DecNat(n)
  {
    var init, last := s[..|s| - 1], s[|s| - 1];
    assert IsDigit(last) && s == init + [last];
    if |s| > 1 {
      LeadingDigit(init);
      assert n / 10 == NatValue(init) && DigitChar(n % 10) == last;
      DecimalUnique(init, n / 10);
    } else {
      assert init == [];
    }
  }

  /** An integer in decimal text, without leading zeros and without a negative zero. */
  function ReadDecimal(s: string): Option<int> {
    if AllDigits(s) && s != "" && (|s| > 1 ==> s[0] != '0') then Some(NatValue(s))
    else if |s| > 1 && s[0] == '-' && AllDigits(s[1..]) && s[1] != '0' then Some(0 - NatValue(s[1..]))
    else None
  }

  lemma DecSign(n: int)
    ensures |Dec(n)| > 0 && (n < 0 <==> Dec(n)[0] == '-')
    ensures n >= 0 ==> IsDigit(Dec(n)[0])
    ensures ':' !in Dec(n) && 'e' !in Dec(n)
    ensures ReadDecimal(Dec(n)) == Some(n)
  {
    DecNatIsDecimal(if n < 0 then -n else n);
    var s := DecNat(if n < 0 then -n else n);
    assert IsDigit(s[0]);
  }

  /* ---- The encoder ---- */

  ghost function Least(s: set<Bytes>): (k: Bytes)
    requires s != {}
    ensures k in s && forall x :: x in s ==> Leq(k, x)
  {
    var x :| x in s;
    if s == {x} then
      LeqRefl(x);
      x
    else
      var m := Least(s - {x});
      LeqTotal(x, m);
      LeqRefl(x);
      var k := if Leq(x, m) then x else m;
      assert forall y :: y in s ==> Leq(k, y) by {
        forall y | y in s ensures Leq(k, y) {
          if y != x && k == x {
            LeqTrans(x, m, y);
          }
        }
      }
      k
  }

  ghost predicate Ascending(ks: seq<Bytes>) {
    forall i, j :: 0 <= i < j < |ks| ==> Less(ks[i], ks[j])
  }

  /** The keys of a dictionary in the order in which they are written. */
  ghost function SortedKeys(s: set<Bytes>): (ks: seq<Bytes>)
    ensures Ascending(ks)
    ensures forall k :: k in ks <==> k in s
  {
    if s == {} then [] else
      var k := Least(s);
      [k] + SortedKeys(s - {k})
  }

  function EncodeStr(s: Bytes): Bytes {
    Dec(|s|) + ":" + s
  }

  ghost function Encode(v: Value): Bytes
    decreases v, 1, 0
  {
    match v
    case Int(i) => "i" + Dec(i) + "e"
    case Str(s) => EncodeStr(s)
    case List(l) => "l" + EncodeAll(l) + "e"
    case Dict(d) => "d" + EncodeItems(v, SortedKeys(d.Keys)) + "e"
  }

  ghost function EncodeAll(l: seq<Value>): Bytes
    decreases l, 0, |l|
  {
    if l == [] then [] else Encode(l[0]) + EncodeAll(l[1..])
  }

  ghost function EncodeItems(v: Value, ks: seq<Bytes>): Bytes
    requires v.Dict? && forall k :: k in ks ==> k in v.d
    decreases v, 0, |ks|
  {
    if ks == [] then [] else EncodeStr(ks[0]) + Encode(v.d[ks[0]]) + EncodeItems(v, ks[1..])
  }

  lemma HasElement(ks: seq<Bytes>)
    requires ks != []
    ensures exists k :: k in ks
  {
    assert ks[0] in ks;
  }

  /** Two ascending rows with the same elements are the same row. */
  lemma {:induction false} AscendingUnique(xs: seq<Bytes>, ys: seq<Bytes>)
    requires Ascending(xs) && Ascending(ys) && forall k :: k in xs <==> k in ys
    ensures xs == ys
  {
    if xs == [] {
      if ys != [] {
        HasElement(ys);
      }
    } else {
      assert xs[0] in ys && ys != [] && ys[0] in xs;
      LeqTotal(xs[0], ys[0]);
      assert xs[0] == ys[0];
      forall k ensures k in xs[1..] <==> k in ys[1..] {
        assert k in xs[1..] ==> k in xs && k != xs[0];
        assert k in ys[1..] ==> k in ys && k != ys[0];
      }
      AscendingUnique(xs[1..], ys[1..]);
    }
  }

  lemma {:induction false} AllAppend(l: seq<Value>, v: Value)
    ensures EncodeAll(l + [v]) == EncodeAll(l) + Encode(v)
  {
    hide Encode;
    if l == [] {
      assert [v][1..] == [] && l + [v] == [v];
    } else {
      AllAppend(l[1..], v);
      assert (l + [v])[1..] == l[1..] + [v];
    }
  }

  lemma {:induction false} ItemsAppend(v: Value, ks: seq<Bytes>, k: Bytes)
    requires v.Dict? && k in v.d && forall j :: j in ks ==> j in v.d
    ensures EncodeItems(v, ks + [k]) == EncodeItems(v, ks) + EncodeStr(k) + Encode(v.d[k])
  {
    hide Encode, EncodeStr;
    if ks == [] {
      assert ks + [k] == [k] && [k][1..] == [];
    } else {
      ItemsAppend(v, ks[1..], k);
      assert (ks + [k])[1..] == ks[1..] + [k];
    }
  }

  /** sort.Slice on the collected keys: whatever order they came in, they leave in one order. */
  lemma CollectedKeysSort(keys: seq<Bytes>, s: set<Bytes>)
    requires |keys| == |s| && forall k :: k in keys <==> k in s
    ensures Sort(Leq, keys) == SortedKeys(s)
  {
    var ks := Sort(Leq, keys);
    forall x, y | x in keys && y in keys ensures Leq(x, y) || Leq(y, x) {
      LeqTotal(x, y);
    }
    forall x, y, z | Leq(x, y) && Leq(y, z) ensures Leq(x, z) {
      LeqTrans(x, y, z);
    }
    SortSorted(Leq, keys);
    SameElements(ks, keys);
    forall i, j | 0 <= i < j < |ks| ensures Less(ks[i], ks[j]) {
      if ks[i] == ks[j] {
        Duplicate(ks, i, j, s);
      }
    }
    AscendingUnique(ks, SortedKeys(s));
  }

  lemma Duplicate(ks: seq<Bytes>, i: nat, j: nat, s: set<Bytes>)
    requires i < j < |ks| && ks[i] == ks[j] && forall k :: k in ks <==> k in s
    ensures |ks| != |s|
  {
    var rest := ks[..j] + ks[j + 1..];
    forall k | k in s ensures k in rest {
      var n :| 0 <= n < |ks| && ks[n] == k;
      var m := if n == j then i else n;
      assert k == ks[m] == rest[if m < j then m else m - 1];
    }
    ElementsBound(rest, s);
  }

  lemma {:induction false} ElementsBound(ks: seq<Bytes>, s: set<Bytes>)
    requires forall k :: k in s ==> k in ks
    ensures |s| <= |ks|
  {
    if ks == [] {
      assert s == {};
    } else {
      forall k | k in s - {ks[0]} ensures k in ks[1..] {
        assert k in ks;
      }
      ElementsBound(ks[1..], s - {ks[0]});
    }
  }

  /** The keys of a map, in an order of the map's choosing. */
  method CollectKeys(d: map<Bytes, Value>) returns (keys: seq<Bytes>)
    ensures |keys| == |d.Keys| && forall k :: k in keys <==> k in d.Keys
  {
    keys := [];
    var rest := d.Keys;
    while rest != {}
      invariant rest <= d.Keys && |keys| + |rest| == |d.Keys|
      invariant forall k :: k in keys <==> k in d.Keys && k !in rest
      decreases rest
    {
      var k :| k in rest;
      keys, rest := keys + [k], rest - {k};
    }
  }

  /**
   The encoder as written.  Whatever order the keys of a map are collected in, the bytes are the same.
   */
  method EncodeValue(v: Value) returns (out: Bytes)
    ensures out == Encode(v)
    decreases v, 1
  {
    match v {
      case Int(i) =>
        out := "i" + Dec(i) + "e";
      case Str(s) =>
        out := EncodeStr(s);
      case List(l) =>
        out := EncodeList(v);
      case Dict(d) =>
        out := EncodeDict(v);
    }
  }

  lemma ListIs(v: Value)
    requires v.List?
    ensures Encode(v) == "l" + EncodeAll(v.l) + "e" && EncodeAll([]) == []
  {
  }

  method EncodeList(v: Value) returns (out: Bytes)
    requires v.List?
    ensures out == Encode(v)
    decreases v, 0
  {
    hide Encode, EncodeAll;
    ListIs(v);
    var l := v.l;
    out := "l";
    for j := 0 to |l|
      invariant out == "l" + EncodeAll(l[..j])
    {
      var item := EncodeValue(l[j]);
      AllAppend(l[..j], l[j]);
      assert l[..j] + [l[j]] == l[..j + 1];
      Associate("l", EncodeAll(l[..j]), item);
      out := out + item;
    }
    assert l[..|l|] == l;
    out := out + "e";
  }

  lemma Associate(a: Bytes, b: Bytes, c: Bytes)
    ensures a + b + c == a + (b + c)
  {
  }

  lemma DictIs(v: Value)
    requires v.Dict?
    ensures Encode(v) == "d" + EncodeItems(v, SortedKeys(v.d.Keys)) + "e" && EncodeItems(v, []) == []
  {
  }

  method EncodeDict(v: Value) returns (out: Bytes)
    requires v.Dict?
    ensures out == Encode(v)
    decreases v, 0
  {
    hide Encode, EncodeItems, EncodeStr, Sort, SortedKeys;
    DictIs(v);
    var keys := CollectKeys(v.d);
    CollectedKeysSort(keys, v.d.Keys);
    keys := Sort(Leq, keys);
    out := "d";
    for j := 0 to |keys|
      invariant out == "d" + EncodeItems(v, keys[..j])
    {
      assert keys[j] in v.d.Keys;
      var item := EncodeValue(v.d[keys[j]]);
      ItemsAppend(v, keys[..j], keys[j]);
      assert keys[..j] + [keys[j]] == keys[..j + 1];
      Associate("d", EncodeItems(v, keys[..j]), EncodeStr(keys[j]));
      Associate("d", EncodeItems(v, keys[..j]) + EncodeStr(keys[j]), item);
      out := out + EncodeStr(keys[j]) + item;
    }
    assert keys[..|keys|] == keys;
    out := out + "e";
  }

  /* ---- A reader ---- */

  /** A value and what follows it; None for bytes that do not start with a value (BEP 3, "bencoding"). */
  ghost function Read(s: Bytes): (r: Option<(Value, Bytes)>)
    ensures r.Some? ==> |r.value.1| < |s|
    decreases |s|, 0
  {
    if s == [] then None
    else if s[0] == 'i' then
      var n := IndexByte(s, 'e');
      var i := if n < |s| then ReadDecimal(s[1..n]) else None;
      if i.None? then None else Some((Int(i.value), s[n + 1..]))
    else if s[0] == 'l' then
      var l := ReadList(s[1..]);
      if l.None? then None else Some((List(l.value.0), l.value.1))
    else if s[0] == 'd' then
      var d := ReadItems(s[1..], None);
      if d.None? then None else Some((Dict(d.value.0), d.value.1))
    else
      var t := ReadStr(s);
      if t.None? then None else Some((Str(t.value.0), t.value.1))
  }

  /** The length in decimal, a colon, and that many bytes. */
  ghost function ReadStr(s: Bytes): (r: Option<(Bytes, Bytes)>)
    ensures r.Some? ==> |r.value.1| < |s|
  {
    var n := IndexByte(s, ':');
    var k := if n < |s| then ReadDecimal(s[..n]) else None;
    if k.None? || !(0 <= k.value < |s| - n) then None
    else Some((s[n + 1..n + 1 + k.value], s[n + 1 + k.value..]))
  }

  /** Values up to the end mark. */
  ghost function ReadList(s: Bytes): (r: Option<(seq<Value>, Bytes)>)
    ensures r.Some? ==> |r.value.1| < |s|
    decreases |s|, 1
  {
    if s == [] then None
    else if s[0] == 'e' then Some(([], s[1..]))
    else
      var v := Read(s);
      var l := if v.None? then None else ReadList(v.value.1);
      if l.None? then None else Some(([v.value.0] + l.value.0, l.value.1))
  }

  /** Keys and values up to the end mark, the keys in ascending byte order. */
  ghost function ReadItems(s: Bytes, after: Option<Bytes>): (r: Option<(map<Bytes, Value>, Bytes)>)
    ensures r.Some? ==> |r.value.1| < |s|
    decreases |s|, 1
  {
    if s == [] then None
    else if s[0] == 'e' then Some((map[], s[1..]))
    else
      var k := ReadStr(s);
      if k.None? || (after.Some? && !Precedes(after.value, k.value.0)) then None
      else
        var v := Read(k.value.1);
        var d := if v.None? then None else ReadItems(v.value.1, Some(k.value.0));
        if d.None? then None else Some((d.value.0[k.value.0 := v.value.0], d.value.1))
  }

  lemma ReadStrBack(s: Bytes, x: Bytes)
    ensures ReadStr(EncodeStr(s) + x) == Some((s, x))
  {
    hide Dec, ReadDecimal;
    var t, n := EncodeStr(s) + x, |Dec(|s|)|;
    DecSign(|s|);
    assert t == Dec(|s|) + [':'] + (s + x);
    IndexOfDelimiter(Dec(|s|), ':', s + x);
    assert t[..n] == Dec(|s|) && t[n + 1..] == s + x;
    assert t[n + 1..n + 1 + |s|] == s && t[n + 1 + |s|..] == x;
  }

  lemma ReadIntBack(i: int, x: Bytes)
    ensures Read("i" + Dec(i) + "e" + x) == Some((Int(i), x))
  {
    hide Dec, ReadDecimal, ReadStr, ReadList, ReadItems;
    var t := "i" + Dec(i) + "e" + x;
    DecSign(i);
    assert t == ("i" + Dec(i)) + ['e'] + x;
    IndexOfDelimiter("i" + Dec(i), 'e', x);
    assert t[1..|Dec(i)| + 1] == Dec(i) && t[|Dec(i)| + 2..] == x;
  }

  /** The first byte tells the kind, and is never the end mark. */
  lemma FirstByte(v: Value)
    ensures |Encode(v)| > 0 && Encode(v)[0] != 'e'
    ensures v.Int? <==> Encode(v)[0] == 'i'
    ensures v.Str? <==> IsDigit(Encode(v)[0])
    ensures v.List? <==> Encode(v)[0] == 'l'
    ensures v.Dict? <==> Encode(v)[0] == 'd'
  {
    match v
    case Str(s) => DecSign(|s|);
    case _ =>
  }

  lemma FirstByteOf(v: Value, x: Bytes)
    ensures |Encode(v)| > 0 && (Encode(v) + x)[0] == Encode(v)[0]
  {
    FirstByte(v);
  }

  /** Reading gives back what was encoded, and what follows it. */
  lemma {:induction false} ReadBack(v: Value, x: Bytes)
    ensures Read(Encode(v) + x) == Some((v, x))
    decreases v, 1, 0
  {
    hide Encode, EncodeAll, EncodeItems, EncodeStr, SortedKeys, ReadStr, ReadList, ReadItems;
    FirstByte(v);
    FirstByteOf(v, x);
    ScalarIs(v);
    match v {
      case Int(i) => ReadIntBack(i, x);
      case Str(s) => ReadStrBack(s, x);
      case List(l) =>
        ListBody(v, x);
        ReadListBack(l, x);
      case Dict(d) =>
        DictBody(v, x);
        ReadItemsBack(v, SortedKeys(d.Keys), None, x);
        assert (map k | k in SortedKeys(d.Keys) :: d[k]) == d;
    }
  }

  lemma ScalarIs(v: Value)
    ensures v.Int? ==> Encode(v) == "i" + Dec(v.i) + "e"
    ensures v.Str? ==> Encode(v) == EncodeStr(v.s)
  {
  }

  lemma ListBody(v: Value, x: Bytes)
    requires v.List?
    ensures |Encode(v) + x| > 0 && (Encode(v) + x)[1..] == EncodeAll(v.l) + "e" + x
  {
  }

  lemma DictBody(v: Value, x: Bytes)
    requires v.Dict?
    ensures |Encode(v) + x| > 0 && (Encode(v) + x)[1..] == EncodeItems(v, SortedKeys(v.d.Keys)) + "e" + x
  {
  }

  lemma AllBody(l: seq<Value>, x: Bytes)
    ensures l == [] ==> EncodeAll(l) + "e" + x == "e" + x
    ensures l != [] ==> EncodeAll(l) + "e" + x == Encode(l[0]) + (EncodeAll(l[1..]) + "e" + x)
    ensures (EncodeAll(l) + "e" + x)[0] == 'e' <==> l == []
  {
    if l != [] {
      FirstByte(l[0]);
    }
  }

  lemma {:induction false} ReadListBack(l: seq<Value>, x: Bytes)
    ensures ReadList(EncodeAll(l) + "e" + x) == Some((l, x))
    decreases l, 0, |l|
  {
    hide Encode, EncodeAll, Read;
    AllBody(l, x);
    if l == [] {
      assert ("e" + x)[1..] == x;
    } else {
      ReadBack(l[0], EncodeAll(l[1..]) + "e" + x);
      ReadListBack(l[1..], x);
      assert l == [l[0]] + l[1..];
    }
  }

  lemma ItemsBody(v: Value, ks: seq<Bytes>, x: Bytes)
    requires v.Dict? && forall k :: k in ks ==> k in v.d
    ensures ks == [] ==> EncodeItems(v, ks) + "e" + x == "e" + x
    ensures ks != [] ==>
      EncodeItems(v, ks) + "e" + x == EncodeStr(ks[0]) + (Encode(v.d[ks[0]]) + (EncodeItems(v, ks[1..]) + "e" + x))
    ensures (EncodeItems(v, ks) + "e" + x)[0] == 'e' <==> ks == []
  {
    hide Encode, EncodeStr;
    if ks != [] {
      StrFirst(ks[0]);
      var k, rest := EncodeStr(ks[0]), EncodeItems(v, ks[1..]);
      var m := Encode(v.d[ks[0]]);
      assert EncodeItems(v, ks) == k + m + rest;
      assert k + m + rest + "e" + x == k + (m + (rest + "e" + x));
    }
  }

  lemma StrFirst(s: Bytes)
    ensures |EncodeStr(s)| > 0 && EncodeStr(s)[0] != 'e'
  {
    DecSign(|s|);
  }

  lemma {:induction false} ReadItemsBack(v: Value, ks: seq<Bytes>, after: Option<Bytes>, x: Bytes)
    requires v.Dict? && Ascending(ks) && forall k :: k in ks ==> k in v.d
    requires after.Some? && ks != [] ==> Less(after.value, ks[0])
    ensures ReadItems(EncodeItems(v, ks) + "e" + x, after) == Some((map k | k in ks :: v.d[k], x))
    decreases v, 0, |ks|
  {
    hide Encode, EncodeItems, EncodeStr, Read, ReadStr, Less, Precedes;
    ItemsBody(v, ks, x);
    if ks == [] {
      assert ("e" + x)[1..] == x;
    } else {
      var k, tail := ks[0], EncodeItems(v, ks[1..]) + "e" + x;
      if after.Some? {
        LessMeans(after.value, k);
      }
      ReadStrBack(k, Encode(v.d[k]) + tail);
      ReadBack(v.d[k], tail);
      ReadItemsBack(v, ks[1..], Some(k), x);
      assert ks == [k] + ks[1..];
      assert (map j | j in ks :: v.d[j]) == (map j | j in ks[1..] :: v.d[j])[k := v.d[k]];
    }
  }

  /**
   The encoder is injective and prefix-free: where one encoding ends and which value it stands for
   can be read off any byte string that starts with it.
   */
  lemma EncodeUnique(a: Value, b: Value, x: Bytes, y: Bytes)
    requires Encode(a) + x == Encode(b) + y
    ensures a == b && x == y
  {
    hide Encode, Read;
    ReadBack(a, x);
    ReadBack(b, y);
  }

  lemma EncodeInjective(a: Value, b: Value)
    ensures Encode(a) == Encode(b) <==> a == b
  {
    hide Encode;
    if Encode(a) == Encode(b) {
      assert Encode(a) + [] == Encode(b) + [];
      EncodeUnique(a, b, [], []);
    }
  }
}
