/** Slash-separated names: splitting, joining, and the rules for names in a manifest. */
module Paths {
  import opened Basics

  /** strings.Split; names are split at slashes. */
  function Split(s: Bytes, d: char := '/'): (segs: seq<Bytes>)
    ensures segs != [] && forall g :: g in segs ==> d !in g
  {
    var i := IndexByte(s, d);
    if i == |s| then [s] else [s[..i]] + Split(s[i + 1..], d)
  }

  /** strings.Join */
  function Join(segs: seq<Bytes>, d: char := '/'): Bytes {
    if segs == [] then [] else if |segs| == 1 then segs[0] else segs[0] + [d] + Join(segs[1..], d)
  }

  lemma {:induction false} JoinSplit(s: Bytes, d: char := '/')
    ensures Join(Split(s, d), d) == s
  {
    var i := IndexByte(s, d);
    if i < |s| {
      JoinSplit(s[i + 1..], d);
      assert Split(s, d)[1..] == Split(s[i + 1..], d);
      assert s == s[..i] + [d] + s[i + 1..];
    }
  }

  lemma {:induction false} SplitJoin(segs: seq<Bytes>, d: char := '/')
    requires segs != [] && forall g :: g in segs ==> d !in g
    ensures Split(Join(segs, d), d) == segs
  {
    var s := Join(segs, d);
    if |segs| == 1 {
      assert s == segs[0] && segs[0] in segs;
      assert segs == [segs[0]];
    } else {
      IndexOfDelimiter(segs[0], d, Join(segs[1..], d));
      assert s[..|segs[0]|] == segs[0] && s[|segs[0]| + 1..] == Join(segs[1..], d);
      SplitJoin(segs[1..], d);
      assert segs == [segs[0]] + segs[1..];
    }
  }

  lemma SplitInjective(a: Bytes, b: Bytes)
    requires Split(a) == Split(b)
    ensures a == b
  {
    JoinSplit(a);
    JoinSplit(b);
  }

  predicate HasSuffix(s: Bytes, t: Bytes) {
    |t| <= |s| && s[|s| - |t|..] == t
  }

  predicate At(s: Bytes, i: int, t: Bytes) {
    0 <= i <= |s| - |t| && s[i..i + |t|] == t
  }

  predicate Contains(s: Bytes, t: Bytes) {
    exists i | 0 <= i <= |s| :: At(s, i, t)
  }

  datatype NameError = BadName | ReservedName

  /** ValidateFileName */
  method ValidateFileName(name: Bytes) returns (err: Option<NameError>)
    ensures err.None? <==> GoodName(name)
    ensures err == Some(ReservedName) <==> Reserved(name)
  {
    FirstSegment(name);
    if name == "manifest" || "manifest/" <= name {
      return Some(ReservedName);
    }
    EmptySegment(name);
    EmptyPlaceTests(name);
    BackslashSegment(name);
    if name == "" || "/" <= name || HasSuffix(name, "/") || Contains(name, "\\") || Contains(name, "//") {
      return Some(BadName);
    }
    var segs := Split(name);
    for i := 0 to |segs|
      invariant forall j :: 0 <= j < i ==> segs[j] != "." && segs[j] != ".."
    {
      if segs[i] == "." || segs[i] == ".." {
        assert segs[i] in segs;
        return Some(BadName);
      }
    }
    return None;
  }

  /** The name lives in the namespace that holds the embedded manifest. */
  predicate Reserved(name: Bytes) {
    Split(name)[0] == "manifest"
  }

  /** A path segment that means itself: not empty, not "." or "..", no backslash. */
  predicate GoodSegment(g: Bytes) {
    g != "" && g != "." && g != ".." && '\\' !in g
  }

  predicate GoodName(name: Bytes) {
    !Reserved(name) && forall g :: g in Split(name) ==> GoodSegment(g)
  }

  lemma FirstSegment(name: Bytes)
    ensures Reserved(name) <==> name == "manifest" || "manifest/" <= name
  {
    var i := IndexByte(name, '/');
    if name == "manifest" {
      assert IndexByte(name, '/') == 8;
    } else if "manifest/" <= name {
      assert name == "manifest" + ['/'] + name[9..];
      IndexOfDelimiter("manifest", '/', name[9..]);
    }
    if Reserved(name) {
      ReservedShape(name);
    }
  }

  lemma ReservedShape(name: Bytes)
    requires Reserved(name)
    ensures name == "manifest" || "manifest/" <= name
  {
    var i := IndexByte(name, '/');
    if i < |name| {
      assert name[..i] == "manifest";
      assert name[..9] == name[..8] + [name[8]];
    }
  }

  predicate TwoSlashes(s: Bytes, n: int) {
    0 <= n < |s| - 1 && s[n] == '/' && s[n + 1] == '/'
  }

  /** A slash at an end, two slashes in a row, or nothing at all. */
  ghost predicate EmptyPlace(s: Bytes) {
    s == [] || s[0] == '/' || s[|s| - 1] == '/' || exists n :: TwoSlashes(s, n)
  }

  lemma EmptyPlaceTests(s: Bytes)
    ensures EmptyPlace(s) <==> s == "" || "/" <= s || HasSuffix(s, "/") || Contains(s, "//")
  {
    if s != [] {
      assert s[|s| - 1..] == [s[|s| - 1]];
    }
    if Contains(s, "//") {
      var i :| 0 <= i <= |s| && At(s, i, "//");
      assert |"//"| == 2;
      assert s[i] == s[i..i + 2][0] && s[i + 1] == s[i..i + 2][1];
      assert TwoSlashes(s, i);
    }
    if exists n :: TwoSlashes(s, n) {
      var n :| TwoSlashes(s, n);
      assert s[n..n + 2] == "//";
      assert At(s, n, "//");
    }
  }

  /** An empty segment is a slash at an end, two slashes in a row, or an empty name. */
  lemma {:induction false} EmptySegment(name: Bytes)
    ensures [] in Split(name) <==> EmptyPlace(name)
  {
    var i := IndexByte(name, '/');
    if i < |name| {
      var rest := name[i + 1..];
      EmptySegment(rest);
      assert Split(name) == [name[..i]] + Split(rest);
      if i > 0 {
        SlashesInRest(name, i);
        assert name[..i] != [];
      }
    }
  }

  lemma SlashesInRest(name: Bytes, i: nat)
    requires 0 < i < |name| && name[i] == '/' && forall n :: 0 <= n < i ==> name[n] != '/'
    ensures EmptyPlace(name) <==> EmptyPlace(name[i + 1..])
  {
    var rest := name[i + 1..];
    assert forall k :: 0 <= k < |rest| ==> rest[k] == name[i + 1 + k];
    if exists n :: TwoSlashes(name, n) {
      var n :| TwoSlashes(name, n);
      assert n > i ==> TwoSlashes(rest, n - i - 1);
    }
    if exists n :: TwoSlashes(rest, n) {
      var n :| TwoSlashes(rest, n);
      assert TwoSlashes(name, n + i + 1);
    }
    if rest != [] && rest[0] == '/' {
      assert TwoSlashes(name, i);
    }
  }

  lemma {:induction false} BackslashSegment(name: Bytes)
    ensures Contains(name, "\\") <==> exists g :: g in Split(name) && '\\' in g
  {
    BackslashIn(name);
    var i := IndexByte(name, '/');
    if i < |name| {
      var rest := name[i + 1..];
      BackslashSegment(rest);
      BackslashIn(rest);
      assert Split(name) == [name[..i]] + Split(rest);
      assert name == name[..i] + ['/'] + rest;
      if '\\' in name[..i] {
        assert name[..i] in Split(name);
      }
      if exists g :: g in Split(rest) && '\\' in g {
        var g :| g in Split(rest) && '\\' in g;
        assert g in Split(name);
      }
    } else {
      assert Split(name) == [name];
    }
  }

  lemma BackslashIn(name: Bytes)
    ensures Contains(name, "\\") <==> '\\' in name
  {
    if Contains(name, "\\") {
      var i :| 0 <= i <= |name| && At(name, i, "\\");
      assert |"\\"| == 1;
      assert name[i] == name[i..i + 1][0];
    }
    if '\\' in name {
      var i :| 0 <= i < |name| && name[i] == '\\';
      assert name[i..i + 1] == "\\";
      assert At(name, i, "\\");
    }
  }
}
