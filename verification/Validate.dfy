/** ValidateManifest: the canonical invariants of a manifest, and which rule a refusal names. */
module Validate {
  import opened Basics
  import opened Sorting
  import opened Manifests
  import Paths

  /* ---- The rules, each stated on its own ---- */

  function Count(files: seq<File>, kind: string): nat {
    if files == [] then 0
    else Count(files[..|files| - 1], kind) + if files[|files| - 1].kind == kind then 1 else 0
  }

  /** The part numbers of the weights entries. */
  function WeightsParts(files: seq<File>): seq<int> {
    if files == [] then []
    else
      var f := files[|files| - 1];
      WeightsParts(files[..|files| - 1]) + if IsWeights(f.kind) && f.part.Some? then [f.part.value] else []
  }

  function OneTo(n: nat): (ps: seq<int>)
    ensures |ps| == n && forall i :: 0 <= i < n ==> ps[i] == i + 1
  {
    seq(n, i => i + 1)
  }

  /** Split parts are the numbers 1..n, each once, in any order. */
  predicate Contiguous(ps: seq<int>) {
    multiset(ps) == multiset(OneTo(|ps|))
  }

  /** A rule an entry breaks by itself, other than living in the reserved namespace. */
  predicate BadEntry(f: File) {
    || (!Paths.Reserved(f.name) && !Paths.GoodName(f.name))
    || !IsDigest(f.digest) || f.size <= 0 || !IsDigest(f.merkleRoot)
    || KindRank(f.kind) == 8
    || (f.kind == "config" && f.name != "modelconfig.json")
    || (f.kind == "runtime-config" && f.runtime == "")
  }

  ghost predicate SameName(files: seq<File>) {
    exists i, j :: 0 <= i < j < |files| && files[i].name == files[j].name
  }

  ghost predicate SameRuntime(files: seq<File>) {
    exists i, j :: 0 <= i < j < |files| && files[i].kind == files[j].kind == "runtime-config" &&
      files[i].runtime == files[j].runtime
  }

  /** Some name is a directory on the way to another name. */
  ghost predicate DirectoryClash(files: seq<File>) {
    exists f, g, i :: f in files && g in files && IsDirOf(f.name, g.name, i)
  }

  predicate IsDirOf(dir: Bytes, name: Bytes, i: int) {
    0 < i < |Paths.Split(name)| && dir == Paths.Join(Paths.Split(name)[..i])
  }

  /** Manifest m breaks the rule that a refusal of class c names. */
  ghost predicate Violates(m: Manifest, c: Class) {
    match c
    case E_VALIDATION =>
      || m.schemaVersion != 1 || m.artifactType != "model" || m.files == []
      || (exists f :: f in m.files && BadEntry(f))
      || SameName(m.files) || Count(m.files, "config") != 1 || DirectoryClash(m.files)
    case E_RESERVED_PATH => exists f :: f in m.files && Paths.Reserved(f.name)
    case E_WEIGHTS_MIX =>
      exists f, g :: f in m.files && g in m.files && f.kind == "weights.gguf" && g.kind == "weights.safetensors"
    case E_WEIGHTS_MISSING => forall f :: f in m.files ==> !IsWeights(f.kind)
    case E_CARDINALITY => Count(m.files, "tokenizer") > 1 || Count(m.files, "chat-template") > 1
    case E_PARTS => !Contiguous(WeightsParts(m.files))
    case E_RUNTIME_DUP => SameRuntime(m.files)
    case E_FILE_ORDER => !AdjacentInOrder(m.files)
  }

  ghost predicate Accepts(m: Manifest) {
    forall c: Class :: !Violates(m, c)
  }

  /* ---- The validator ---- */

  /** strings.TrimPrefix(kind, "weights.") */
  function Format(kind: string): string {
    if "weights." <= kind then kind[8..] else kind
  }

  lemma FormatTellsKind(a: string, b: string)
    requires IsWeights(a) && IsWeights(b)
    ensures Format(a) == Format(b) <==> a == b
    ensures Format(a) != ""
  {
    assert "weights.gguf"[8..] == "gguf" && "weights.safetensors"[8..] == "safetensors";
  }

  /** What the main loop has accumulated after some files. */
  datatype Seen = Seen(
    names: set<Bytes>, weightsFormat: string, parts: map<string, seq<int>>,
    nConfig: nat, nTokenizer: nat, nChat: nat, runtimes: set<string>)

  ghost predicate SeenNames(s: Seen, files: seq<File>) {
    && (forall n :: n in s.names <==> exists f :: f in files && f.name == n)
    && (forall r :: r in s.runtimes <==> exists f :: f in files && f.kind == "runtime-config" && f.runtime == r)
  }

  ghost predicate SeenWeights(s: Seen, files: seq<File>) {
    && (s.weightsFormat == "" ==> s.parts == map[] && forall f :: f in files ==> !IsWeights(f.kind))
    && (s.weightsFormat != "" ==> exists f :: f in files && IsWeights(f.kind))
    && (forall f :: f in files && IsWeights(f.kind) ==> Format(f.kind) == s.weightsFormat)
    && (forall k :: k in s.parts ==> k == s.weightsFormat && s.parts[k] == WeightsParts(files))
    && (WeightsParts(files) != [] ==> s.weightsFormat in s.parts)
  }

  ghost predicate SeenOf(s: Seen, files: seq<File>) {
    && SeenNames(s, files) && SeenWeights(s, files)
    && s.nConfig == Count(files, "config")
    && s.nTokenizer == Count(files, "tokenizer")
    && s.nChat == Count(files, "chat-template")
  }

  ghost predicate CleanPrefix(files: seq<File>) {
    && (forall f :: f in files ==> !BadEntry(f) && !Paths.Reserved(f.name))
    && !SameName(files) && !SameRuntime(files) && AdjacentInOrder(files)
  }

  lemma PrefixFacts(files: seq<File>, i: nat)
    requires i < |files|
    ensures files[..i + 1][..i] == files[..i] && files[..i + 1][i] == files[i]
    ensures forall f :: f in files[..i + 1] <==> f in files[..i] || f == files[i]
    ensures WeightsParts(files[..i + 1]) ==
      WeightsParts(files[..i]) + if IsWeights(files[i].kind) && files[i].part.Some? then [files[i].part.value] else []
    ensures forall kind ::
      Count(files[..i + 1], kind) == Count(files[..i], kind) + if files[i].kind == kind then 1 else 0
  {
    var xs := files[..i + 1];
    assert xs == files[..i] + [files[i]];
    assert xs[..i] == files[..i];
  }

  lemma StillClean(files: seq<File>, i: nat)
    requires i < |files| && CleanPrefix(files[..i])
    requires !BadEntry(files[i]) && !Paths.Reserved(files[i].name)
    requires forall f :: f in files[..i] ==> f.name != files[i].name
    requires forall f :: f in files[..i] && f.kind == files[i].kind == "runtime-config" ==>
      f.runtime != files[i].runtime
    requires i > 0 ==> FileOrder(files[i - 1], files[i]) <= 0
    ensures CleanPrefix(files[..i + 1])
  {
    hide BadEntry, FileOrder, Paths.Reserved, Count, WeightsParts, SameName, SameRuntime;
    var xs, ys := files[..i + 1], files[..i];
    PrefixFacts(files, i);
    StillDistinct(files, i);
    forall a | 0 < a < |xs| ensures FileOrder(xs[a - 1], xs[a]) <= 0 {
      assert a < i ==> xs[a - 1] == ys[a - 1] && xs[a] == ys[a];
    }
  }

  lemma StillDistinct(files: seq<File>, i: nat)
    requires i < |files| && !SameName(files[..i]) && !SameRuntime(files[..i])
    requires forall f :: f in files[..i] ==> f.name != files[i].name
    requires forall f :: f in files[..i] && f.kind == files[i].kind == "runtime-config" ==>
      f.runtime != files[i].runtime
    ensures !SameName(files[..i + 1]) && !SameRuntime(files[..i + 1])
  {
    var xs, ys := files[..i + 1], files[..i];
    forall a, b | 0 <= a < b < |xs|
      ensures xs[a].name != xs[b].name
      ensures !(xs[a].kind == xs[b].kind == "runtime-config" && xs[a].runtime == xs[b].runtime)
    {
      assert xs[a] == ys[a] && ys[a] in ys;
      if b < i {
        assert xs[b] == ys[b];
      }
    }
  }

  /** The kind switch of the main loop: counters, format, parts and runtime ids. */
  method CheckKind(f: File, s: Seen) returns (err: Option<Class>, t: Seen)
    ensures err.None? ==> t == Step(s, f) && KindRank(f.kind) < 8
    ensures err.None? ==> (f.kind == "config" ==> f.name == "modelconfig.json")
    ensures err.None? ==> (f.kind == "runtime-config" ==> f.runtime != "" && f.runtime !in s.runtimes)
    ensures err.None? ==> (IsWeights(f.kind) ==> s.weightsFormat == "" || s.weightsFormat == Format(f.kind))
    ensures err.Some? ==> err.value in {E_VALIDATION, E_WEIGHTS_MIX, E_RUNTIME_DUP}
    ensures err == Some(E_VALIDATION) ==> BadEntry(f)
    ensures err == Some(E_WEIGHTS_MIX) ==>
      IsWeights(f.kind) && s.weightsFormat != "" && s.weightsFormat != Format(f.kind)
    ensures err == Some(E_RUNTIME_DUP) ==> f.kind == "runtime-config" && f.runtime in s.runtimes
  {
    t := s.(names := s.names + {f.name});
    err := None;
    if f.kind == "" {
      return Some(E_VALIDATION), t;
    } else if f.kind == "config" {
      t := t.(nConfig := t.nConfig + 1);
      if f.name != "modelconfig.json" {
        return Some(E_VALIDATION), t;
      }
    } else if IsWeights(f.kind) {
      var format := Format(f.kind);
      if t.weightsFormat == "" {
        t := t.(weightsFormat := format);
      } else if t.weightsFormat != format {
        return Some(E_WEIGHTS_MIX), t;
      }
      if f.part.Some? {
        var ps := if format in t.parts then t.parts[format] else [];
        t := t.(parts := t.parts[format := ps + [f.part.value]]);
      }
    } else if f.kind == "tokenizer" {
      t := t.(nTokenizer := t.nTokenizer + 1);
    } else if f.kind == "chat-template" {
      t := t.(nChat := t.nChat + 1);
    } else if f.kind == "runtime-config" {
      if f.runtime == "" {
        return Some(E_VALIDATION), t;
      }
      if f.runtime in t.runtimes {
        return Some(E_RUNTIME_DUP), t;
      }
      t := t.(runtimes := t.runtimes + {f.runtime});
    } else if f.kind != "weights.aux" && f.kind != "adapter" && f.kind != "code" {
      return Some(E_VALIDATION), t;
    }
  }

  /** A refusal in the kind switch names a rule that the manifest breaks. */
  lemma KindRefusal(m: Manifest, i: nat, s: Seen, c: Class)
    requires i < |m.files| && SeenOf(s, m.files[..i])
    requires c == E_VALIDATION || c == E_WEIGHTS_MIX || c == E_RUNTIME_DUP
    requires var f := m.files[i];
      && (c == E_VALIDATION ==> BadEntry(f))
      && (c == E_WEIGHTS_MIX ==> IsWeights(f.kind) && s.weightsFormat != "" && s.weightsFormat != Format(f.kind))
      && (c == E_RUNTIME_DUP ==> f.kind == "runtime-config" && f.runtime in s.runtimes)
    ensures Violates(m, c)
  {
    var f := m.files[i];
    assert f in m.files;
    if c == E_WEIGHTS_MIX {
      MixedWeights(m, i, s.weightsFormat);
    } else if c == E_RUNTIME_DUP {
      var g :| g in m.files[..i] && g.kind == "runtime-config" && g.runtime == f.runtime;
      var j :| 0 <= j < i && m.files[j] == g;
      assert SameRuntime(m.files);
    }
  }

  lemma MixedWeights(m: Manifest, i: nat, format: string)
    requires i < |m.files| && IsWeights(m.files[i].kind) && format != Format(m.files[i].kind)
    requires exists f :: f in m.files[..i] && IsWeights(f.kind)
    requires forall f :: f in m.files[..i] && IsWeights(f.kind) ==> Format(f.kind) == format
    ensures Violates(m, E_WEIGHTS_MIX)
  {
    var f :| f in m.files[..i] && IsWeights(f.kind);
    var g := m.files[i];
    FormatTellsKind(f.kind, g.kind);
    assert f in m.files && g in m.files;
  }

  /** The next accumulated state, as one update of the old one. */
  function Step(s: Seen, f: File): Seen {
    var format := Format(f.kind);
    Seen(
      s.names + {f.name},
      if IsWeights(f.kind) then format else s.weightsFormat,
      if IsWeights(f.kind) && f.part.Some?
        then s.parts[format := (if format in s.parts then s.parts[format] else []) + [f.part.value]] else s.parts,
      s.nConfig + if f.kind == "config" then 1 else 0,
      s.nTokenizer + if f.kind == "tokenizer" then 1 else 0,
      s.nChat + if f.kind == "chat-template" then 1 else 0,
      if f.kind == "runtime-config" then s.runtimes + {f.runtime} else s.runtimes)
  }

  lemma NamesStep(s: Seen, files: seq<File>, i: nat)
    requires i < |files| && SeenNames(s, files[..i])
    ensures SeenNames(Step(s, files[i]), files[..i + 1])
  {
    hide Count, WeightsParts, Format, IsWeights;
    PrefixFacts(files, i);
    var f, xs, t := files[i], files[..i + 1], Step(s, files[i]);
    forall n ensures n in t.names <==> exists g :: g in xs && g.name == n {
      if n == f.name {
        assert f in xs;
      }
    }
    forall r ensures r in t.runtimes <==> exists g :: g in xs && g.kind == "runtime-config" && g.runtime == r {
      if f.kind == "runtime-config" && r == f.runtime {
        assert f in xs;
      }
    }
  }

  lemma WeightsStep(s: Seen, files: seq<File>, i: nat)
    requires i < |files| && SeenWeights(s, files[..i])
    requires var f := files[i]; IsWeights(f.kind) ==>
      Format(f.kind) != "" && (s.weightsFormat == "" || s.weightsFormat == Format(f.kind))
    ensures SeenWeights(Step(s, files[i]), files[..i + 1])
  {
    hide Count, WeightsParts, Format, IsWeights;
    PrefixFacts(files, i);
    var f, xs, ys, t := files[i], files[..i + 1], files[..i], Step(s, files[i]);
    if t.weightsFormat != "" {
      if IsWeights(f.kind) {
        assert f in xs;
      } else {
        var g :| g in ys && IsWeights(g.kind);
        assert g in xs;
      }
    }
    assert WeightsParts(ys) == [] || s.weightsFormat in s.parts;
  }

  lemma SeenStep(s: Seen, files: seq<File>, i: nat)
    requires i < |files| && SeenOf(s, files[..i])
    requires var f := files[i]; IsWeights(f.kind) ==>
      Format(f.kind) != "" && (s.weightsFormat == "" || s.weightsFormat == Format(f.kind))
    ensures SeenOf(Step(s, files[i]), files[..i + 1])
  {
    hide Count, WeightsParts, Format, IsWeights, SeenNames, SeenWeights;
    PrefixFacts(files, i);
    NamesStep(s, files, i);
    WeightsStep(s, files, i);
  }

  /** The parts check: sort, then compare with 1, 2, 3 and so on. */
  method CheckParts(parts: seq<int>) returns (ok: bool)
    ensures ok <==> Contiguous(parts)
  {
    var ps := Sort((a: int, b: int) => a <= b, parts);
    SortSorted((a: int, b: int) => a <= b, parts);
    if Contiguous(parts) {
      SortedUnique((a: int, b: int) => a <= b, ps, OneTo(|parts|));
    }
    for i := 0 to |ps|
      invariant ps[..i] == OneTo(|ps|)[..i]
    {
      if ps[i] != i + 1 {
        return false;
      }
    }
    assert ps == ps[..|ps|] == OneTo(|ps|);
    return true;
  }

  /** The prefix loops: does some name pass through a path that is itself a name? */
  method FindClash(files: seq<File>) returns (clash: bool)
    ensures clash <==> DirectoryClash(files)
  {
    var byName := set f | f in files :: f.name;
    for j := 0 to |files|
      invariant forall f, k, i :: f in files && 0 <= k < j ==> !IsDirOf(f.name, files[k].name, i)
    {
      var segs := Paths.Split(files[j].name);
      for i := 1 to |segs|
        invariant forall f, k :: f in files && 0 < k < i ==> !IsDirOf(f.name, files[j].name, k)
      {
        if Paths.Join(segs[..i]) in byName {
          ghost var f :| f in files && f.name == Paths.Join(segs[..i]);
          assert IsDirOf(f.name, files[j].name, i);
          return true;
        }
      }
    }
    return false;
  }

  /** ValidateManifest accepts exactly the manifests that break no rule, and names a broken rule. */
  method ValidateManifest(m: Manifest) returns (err: Option<Class>)
    ensures err.None? <==> Accepts(m)
    ensures err.Some? ==> Violates(m, err.value)
  {
    hide Contiguous, WeightsParts, Count, BadEntry, AdjacentInOrder;
    if m.schemaVersion != 1 || m.artifactType != "model" {
      assert Violates(m, E_VALIDATION);
      return Some(E_VALIDATION);
    }
    if |m.files| == 0 {
      assert Violates(m, E_VALIDATION);
      return Some(E_VALIDATION);
    }
    var loopErr, s := ScanFiles(m);
    if loopErr.Some? {
      return loopErr;
    }
    if s.nConfig != 1 {
      assert Violates(m, E_VALIDATION);
      return Some(E_VALIDATION);
    }
    if s.weightsFormat == "" {
      assert Violates(m, E_WEIGHTS_MISSING);
      return Some(E_WEIGHTS_MISSING);
    }
    if s.nTokenizer > 1 || s.nChat > 1 {
      assert Violates(m, E_CARDINALITY);
      return Some(E_CARDINALITY);
    }
    var clash := FindClash(m.files);
    if clash {
      assert Violates(m, E_VALIDATION);
      return Some(E_VALIDATION);
    }
    var partsOk := CheckAllParts(s.parts);
    PartsHold(m, s);
    if !partsOk {
      assert Violates(m, E_PARTS);
      return Some(E_PARTS);
    }
    AllRulesHold(m, s);
    return None;
  }

  /** The parts check over every format that carries part numbers, in map order. */
  method CheckAllParts(parts: map<string, seq<int>>) returns (ok: bool)
    ensures ok <==> forall k :: k in parts ==> Contiguous(parts[k])
  {
    var formats := parts.Keys;
    while formats != {}
      invariant formats <= parts.Keys
      invariant forall k :: k in parts.Keys - formats ==> Contiguous(parts[k])
      decreases formats
    {
      var format :| format in formats;
      ok := CheckParts(parts[format]);
      if !ok {
        return false;
      }
      formats := formats - {format};
    }
    return true;
  }

  lemma PartsHold(m: Manifest, s: Seen)
    requires SeenOf(s, m.files)
    ensures (forall k :: k in s.parts ==> Contiguous(s.parts[k])) <==> Contiguous(WeightsParts(m.files))
  {
    if WeightsParts(m.files) == [] {
      assert OneTo(0) == [];
      assert Contiguous([]);
    } else {
      assert s.parts[s.weightsFormat] == WeightsParts(m.files);
    }
  }

  lemma AllRulesHold(m: Manifest, s: Seen)
    requires m.schemaVersion == 1 && m.artifactType == "model" && m.files != []
    requires CleanPrefix(m.files) && SeenOf(s, m.files) && s.nConfig == 1
    requires s.weightsFormat != "" && s.nTokenizer <= 1 && s.nChat <= 1
    requires !DirectoryClash(m.files) && Contiguous(WeightsParts(m.files))
    ensures Accepts(m)
  {
    forall c: Class ensures !Violates(m, c) {
      match c
      case E_WEIGHTS_MIX =>
        if Violates(m, c) {
          var f, g :| f in m.files && g in m.files && f.kind == "weights.gguf" && g.kind == "weights.safetensors";
          FormatTellsKind(f.kind, g.kind);
        }
      case _ =>
    }
  }

  /** The main loop over the files. */
  method ScanFiles(m: Manifest) returns (err: Option<Class>, s: Seen)
    ensures err.Some? ==> Violates(m, err.value)
    ensures err.None? ==> CleanPrefix(m.files) && SeenOf(s, m.files)
  {
    s := Seen({}, "", map[], 0, 0, 0, {});
    err := None;
    for i := 0 to |m.files|
      invariant CleanPrefix(m.files[..i]) && SeenOf(s, m.files[..i])
    {
      var f := m.files[i];
      assert f in m.files;
      var nameErr := Paths.ValidateFileName(f.name);
      if nameErr.Some? {
        return Some(if nameErr.value.ReservedName? then E_RESERVED_PATH else E_VALIDATION), s;
      }
      if f.name in s.names {
        NameTwice(m.files, i, s);
        return Some(E_VALIDATION), s;
      }
      if !IsDigest(f.digest) || f.size <= 0 || !IsDigest(f.merkleRoot) {
        return Some(E_VALIDATION), s;
      }
      var kindErr, t := CheckKind(f, s);
      if kindErr.Some? {
        KindRefusal(m, i, s, kindErr.value);
        return kindErr, s;
      }
      if i > 0 && FileOrder(m.files[i - 1], f) > 0 {
        return Some(E_FILE_ORDER), s;
      }
      EntryHolds(m.files, i, s);
      s := t;
    }
    assert m.files[..|m.files|] == m.files;
  }

  lemma NameTwice(files: seq<File>, i: nat, s: Seen)
    requires i < |files| && SeenOf(s, files[..i]) && files[i].name in s.names
    ensures SameName(files)
  {
    var g :| g in files[..i] && g.name == files[i].name;
    var j :| 0 <= j < i && files[j] == g;
  }

  lemma EntryHolds(files: seq<File>, i: nat, s: Seen)
    requires i < |files| && CleanPrefix(files[..i]) && SeenOf(s, files[..i])
    requires !BadEntry(files[i]) && !Paths.Reserved(files[i].name) && files[i].name !in s.names
    requires files[i].kind == "runtime-config" ==> files[i].runtime !in s.runtimes
    requires IsWeights(files[i].kind) ==> s.weightsFormat == "" || s.weightsFormat == Format(files[i].kind)
    requires i > 0 ==> FileOrder(files[i - 1], files[i]) <= 0
    ensures CleanPrefix(files[..i + 1]) && SeenOf(Step(s, files[i]), files[..i + 1])
  {
    StillClean(files, i);
    if IsWeights(files[i].kind) {
      FormatTellsKind(files[i].kind, files[i].kind);
    }
    SeenStep(s, files, i);
  }

  /* ---- A tie that is sealed ---- */

  function SomeDigest(): string {
    SHA256_PREFIX + seq(64, _ => '0')
  }

  function SomeFile(kind: string, name: Bytes): File {
    File(kind, SomeDigest(), 1, name, None, "", "", "", "", "", SomeDigest())
  }

  /** A config and twice the same weights, under two names. */
  function TwiceTheWeights(first: Bytes, second: Bytes): Manifest {
    Manifest(1, "model",
      [SomeFile("config", "modelconfig.json"), SomeFile("weights.gguf", first), SomeFile("weights.gguf", second)],
      map[])
  }

  lemma FlatName(name: Bytes)
    requires '/' !in name && '\\' !in name && name != "" && name != "." && name != ".." && name != "manifest"
    ensures Paths.Split(name) == [name] && Paths.GoodName(name)
  {
    assert IndexByte(name, '/') == |name|;
  }

  ghost predicate TwoFlatNames(first: Bytes, second: Bytes) {
    && first != second && first != "modelconfig.json" && second != "modelconfig.json"
    && Paths.Split(first) == [first] && Paths.GoodName(first)
    && Paths.Split(second) == [second] && Paths.GoodName(second)
  }

  lemma TwiceEntries(first: Bytes, second: Bytes)
    requires TwoFlatNames(first, second)
    ensures forall f :: f in TwiceTheWeights(first, second).files ==>
      !BadEntry(f) && !Paths.Reserved(f.name) && Paths.Split(f.name) == [f.name] && SafePart(f) &&
      (f.kind == "config" || f.kind == "weights.gguf")
  {
    hide Paths.Split, Paths.GoodSegment;
    FlatName("modelconfig.json");
    assert SomeDigest()[7..] == seq(64, _ => '0');
    forall f | f in TwiceTheWeights(first, second).files
      ensures f in [SomeFile("config", "modelconfig.json"), SomeFile("weights.gguf", first),
                    SomeFile("weights.gguf", second)]
    {
    }
  }

  lemma TwiceCounts(first: Bytes, second: Bytes)
    ensures var files := TwiceTheWeights(first, second).files;
      Count(files, "config") == 1 && Count(files, "tokenizer") == 0 && Count(files, "chat-template") == 0 &&
      Contiguous(WeightsParts(files))
  {
    var files := TwiceTheWeights(first, second).files;
    assert files[..2][..1] == [files[0]] && files[..1] == [files[0]] && [files[0]][..0] == [];
    assert Count([files[0]], "config") == 1 && WeightsParts([files[0]]) == [];
    assert Count(files[..2], "config") == 1 && WeightsParts(files[..2]) == [];
    assert Count([files[0]], "tokenizer") == 0 && Count([files[0]], "chat-template") == 0;
    assert Count(files[..2], "tokenizer") == 0 && Count(files[..2], "chat-template") == 0;
    assert WeightsParts(files) == [] && OneTo(0) == [];
  }

  lemma TwiceApart(first: Bytes, second: Bytes)
    requires TwoFlatNames(first, second)
    ensures !SameName(TwiceTheWeights(first, second).files) && !DirectoryClash(TwiceTheWeights(first, second).files)
  {
    hide BadEntry, Paths.Reserved, Paths.GoodName, Paths.Split, SomeDigest;
    TwiceEntries(first, second);
  }

  lemma TwiceOrdered(first: Bytes, second: Bytes)
    ensures AdjacentInOrder(TwiceTheWeights(first, second).files)
  {
    hide SomeDigest;
  }

  lemma TwiceTheWeightsAccepted(first: Bytes, second: Bytes)
    requires TwoFlatNames(first, second)
    ensures Accepts(TwiceTheWeights(first, second))
    ensures SortFiles(TwiceTheWeights(first, second).files) == TwiceTheWeights(first, second).files
  {
    hide BadEntry, Paths.Reserved, Paths.GoodName, Paths.Split, Count, Contiguous, WeightsParts, SomeDigest, SameName,
      DirectoryClash, AdjacentInOrder, FileOrder;
    var m := TwiceTheWeights(first, second);
    TwiceEntries(first, second);
    TwiceCounts(first, second);
    TwiceApart(first, second);
    TwiceOrdered(first, second);
    assert m.files[1] in m.files && IsWeights(m.files[1].kind);
    SortFilesFixed(m.files);
  }

  /**
   A tie reaches a sealed manifest: two arrangements of the same files are both acceptable, each is
   what SortFiles makes of itself, and they are different.
   */
  lemma TiedManifest()
    ensures var m, n := TwiceTheWeights("a.gguf", "b.gguf"), TwiceTheWeights("b.gguf", "a.gguf");
      && multiset(m.files) == multiset(n.files)
      && Accepts(m) && SortFiles(m.files) == m.files
      && Accepts(n) && SortFiles(n.files) == n.files
      && m != n
  {
    FlatName("a.gguf");
    FlatName("b.gguf");
    TwiceTheWeightsAccepted("a.gguf", "b.gguf");
    TwiceTheWeightsAccepted("b.gguf", "a.gguf");
    assert "a.gguf"[0] != "b.gguf"[0];
  }
}
