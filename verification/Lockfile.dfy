/** runtime/llama.lock: a fail-closed parser, and the printer it undoes. */
module Lockfile {
  import opened Basics
  import Paths

  /** An asset section; empty texts stand for keys not read yet. */
  datatype Asset = Asset(url: Bytes, sha256: Bytes)

  datatype Lock = Lock(ref: Bytes, commit: Bytes, updatedAt: Bytes, assets: map<Bytes, Asset>)

  const PLATFORMS: seq<Bytes> := ["darwin_arm64", "linux_amd64"]

  /** Whether time.Parse accepts a text as RFC 3339. */
  type Rfc3339 = Bytes -> bool

  /** What RFC 3339 allows is printable and needs no quoting. */
  ghost predicate PlainDates(rfc: Rfc3339) {
    forall v :: rfc(v) ==> v != "" && Plain(v)
  }

  /** Text that %q puts between quotes as it is. */
  predicate Plain(v: Bytes) {
    forall i :: 0 <= i < |v| ==> ' ' <= v[i] <= '~' && v[i] != '"' && v[i] != '\\'
  }

  /* ---- Texts ---- */

  /** A bNNNN release. */
  predicate IsNightly(ref: Bytes) {
    |ref| >= 2 && ref[0] == 'b' && AllDigits(ref[1..])
  }

  predicate IsCommit(v: Bytes) {
    |v| == 40 && IsHex(v)
  }

  predicate IsSha256(v: Bytes) {
    |v| == 64 && IsHex(v)
  }

  function AssetName(ref: Bytes, platform: Bytes): Bytes {
    if platform == "darwin_arm64" then "llama-" + ref + "-bin-macos-arm64.tar.gz"
    else "llama-" + ref + "-bin-ubuntu-x64.tar.gz"
  }

  const DOWNLOADS: Bytes := "https://github.com/ggml-org/llama.cpp/releases/download/"

  /** The canonical download URL of a release asset. */
  function AssetURLFor(ref: Bytes, platform: Bytes): Bytes {
    DOWNLOADS + ref + "/" + AssetName(ref, platform)
  }

  /** The URLs of a release, spelled out. */
  lemma AssetURLs(ref: Bytes)
    ensures AssetURLFor(ref, "darwin_arm64") ==
      "https://github.com/ggml-org/llama.cpp/releases/download/" + ref + "/llama-" + ref + "-bin-macos-arm64.tar.gz"
    ensures AssetURLFor(ref, "linux_amd64") ==
      "https://github.com/ggml-org/llama.cpp/releases/download/" + ref + "/llama-" + ref + "-bin-ubuntu-x64.tar.gz"
  {
    Regroup(DOWNLOADS, ref, "/", "llama-", "-bin-macos-arm64.tar.gz");
    Regroup(DOWNLOADS, ref, "/", "llama-", "-bin-ubuntu-x64.tar.gz");
    assert "/" + "llama-" == "/llama-";
  }

  lemma Regroup(a: Bytes, r: Bytes, s: Bytes, l: Bytes, tail: Bytes)
    ensures a + r + s + (l + r + tail) == a + r + (s + l) + r + tail
  {
  }

  predicate IsName(s: Bytes) {
    s != "" && forall i :: 0 <= i < |s| ==> 'a' <= s[i] <= 'z' || '0' <= s[i] <= '9' || s[i] == '_'
  }

  predicate Blank(line: Bytes) {
    forall i :: 0 <= i < |line| ==> line[i] in " \t\r\n" || line[i] == 11 as char || line[i] == 12 as char
  }

  /** strings.TrimSuffix(raw, "\r") */
  function TrimCR(raw: Bytes): Bytes {
    if raw != "" && raw[|raw| - 1] == '\r' then raw[..|raw| - 1] else raw
  }

  /** A line key = "value", as its two parts. */
  function KeyLine(line: Bytes): Option<(Bytes, Bytes)> {
    var i := IndexByte(line, ' ');
    if IsName(line[..i]) && |line| >= i + 5 && line[i..i + 4] == " = \"" && line[|line| - 1] == '"' &&
       '"' !in line[i + 4..|line| - 1]
    then Some((line[..i], line[i + 4..|line| - 1])) else None
  }

  /** A line [assets.platform]. */
  function HeaderLine(line: Bytes): Option<Bytes> {
    if |line| > 9 && line[..8] == "[assets." && line[|line| - 1] == ']' && IsName(line[8..|line| - 1])
    then Some(line[8..|line| - 1]) else None
  }

  /* ---- The parser ---- */

  /** What Parse has read so far; platform is the section it is in. */
  datatype Scan = Scan(
    lock: Lock, seen: set<Bytes>, platform: Bytes, sections: set<Bytes>, keys: map<Bytes, set<Bytes>>)

  const START: Scan := Scan(Lock("", "", "", map[]), {}, "", {}, map[])

  function AssetOf(s: Scan): Asset {
    if s.platform in s.lock.assets then s.lock.assets[s.platform] else Asset("", "")
  }

  function KeysOf(s: Scan): set<Bytes> {
    if s.platform in s.keys then s.keys[s.platform] else {}
  }

  function SetAsset(s: Scan, key: Bytes, a: Asset): Scan {
    s.(lock := s.lock.(assets := s.lock.assets[s.platform := a]), keys := s.keys[s.platform := KeysOf(s) + {key}])
  }

  /** A key of an asset section; None is an error. */
  function AssetKey(s: Scan, k: Bytes, v: Bytes): Option<Scan> {
    if k in KeysOf(s) then None
    else if k == "url" then
      if v != AssetURLFor(s.lock.ref, s.platform) then None else Some(SetAsset(s, k, AssetOf(s).(url := v)))
    else if k == "sha256" then
      if !IsSha256(v) then None else Some(SetAsset(s, k, AssetOf(s).(sha256 := v)))
    else None
  }

  /** A key before the first section. */
  function TopKey(rfc: Rfc3339, s: Scan, k: Bytes, v: Bytes): Option<Scan> {
    var t := s.(seen := s.seen + {k});
    if k in s.seen then None
    else if k == "ref" then if !IsNightly(v) then None else Some(t.(lock := t.lock.(ref := v)))
    else if k == "commit" then if !IsCommit(v) then None else Some(t.(lock := t.lock.(commit := v)))
    else if k == "updated_at" then if !rfc(v) then None else Some(t.(lock := t.lock.(updatedAt := v)))
    else None
  }

  /** A line that is not blank, its carriage return removed. */
  function ReadText(rfc: Rfc3339, s: Scan, line: Bytes): Option<Scan> {
    var header := HeaderLine(line);
    if header.Some? then
      if header.value !in PLATFORMS || header.value in s.sections then None
      else
        Some(s.(platform := header.value, sections := s.sections + {header.value},
                keys := s.keys[header.value := {}]))
    else
      var kv := KeyLine(line);
      if kv.None? then None
      else if s.platform != "" then AssetKey(s, kv.value.0, kv.value.1)
      else TopKey(rfc, s, kv.value.0, kv.value.1)
  }

  function ReadLine(rfc: Rfc3339, s: Scan, raw: Bytes): Option<Scan> {
    if Blank(TrimCR(raw)) then Some(s) else ReadText(rfc, s, TrimCR(raw))
  }

  function ReadLines(rfc: Rfc3339, lines: seq<Bytes>): Option<Scan> {
    if lines == [] then Some(START)
    else
      var s := ReadLines(rfc, lines[..|lines| - 1]);
      if s.None? then None else ReadLine(rfc, s.value, lines[|lines| - 1])
  }

  /** The checks after the last line: nothing may be missing. */
  predicate AllPresent(s: Scan) {
    && "ref" in s.seen && "commit" in s.seen && "updated_at" in s.seen
    && |s.lock.assets| == |PLATFORMS|
    && forall i :: 0 <= i < |PLATFORMS| ==>
         && PLATFORMS[i] in s.lock.assets
         && s.lock.assets[PLATFORMS[i]].url != "" && s.lock.assets[PLATFORMS[i]].sha256 != ""
  }

  function Accepted(rfc: Rfc3339, data: Bytes): Option<Lock> {
    var s := ReadLines(rfc, Paths.Split(data, '\n'));
    if s.Some? && AllPresent(s.value) then Some(s.value.lock) else None
  }

  /** Parse: None is any of its errors. */
  method Parse(rfc: Rfc3339, data: Bytes) returns (r: Option<Lock>)
    ensures r == Accepted(rfc, data)
  {
    hide ReadLine, IsNightly, AllPresent;
    var lines := Paths.Split(data, '\n');
    var s := START;
    for i := 0 to |lines|
      invariant ReadLines(rfc, lines[..i]) == Some(s)
    {
      assert lines[..i + 1][..i] == lines[..i];
      var next := ReadLine(rfc, s, lines[i]);
      if next.None? {
        NeverRecovers(rfc, lines, i + 1);
        return None;
      }
      s := next.value;
    }
    assert lines[..|lines|] == lines;
    return if AllPresent(s) then Some(s.lock) else None;
  }

  lemma {:induction false} NeverRecovers(rfc: Rfc3339, lines: seq<Bytes>, n: nat)
    requires n <= |lines| && ReadLines(rfc, lines[..n]).None?
    ensures ReadLines(rfc, lines).None?
    decreases |lines|
  {
    if n == |lines| {
      assert lines[..n] == lines;
    } else {
      assert lines[..|lines| - 1][..n] == lines[..n];
      NeverRecovers(rfc, lines[..|lines| - 1], n);
    }
  }

  /* ---- What a lock file is ---- */

  /** A lock with nothing missing, every URL the canonical one of its ref. */
  ghost predicate GoodLock(rfc: Rfc3339, lk: Lock) {
    && |lk.ref| >= 2 && lk.ref[0] == 'b' && (forall i :: 1 <= i < |lk.ref| ==> '0' <= lk.ref[i] <= '9')
    && LowerHex(lk.commit, 40) && rfc(lk.updatedAt)
    && lk.assets.Keys == {"darwin_arm64", "linux_amd64"}
    && lk.assets["darwin_arm64"].url == "https://github.com/ggml-org/llama.cpp/releases/download/" + lk.ref +
         "/llama-" + lk.ref + "-bin-macos-arm64.tar.gz"
    && lk.assets["linux_amd64"].url == "https://github.com/ggml-org/llama.cpp/releases/download/" + lk.ref +
         "/llama-" + lk.ref + "-bin-ubuntu-x64.tar.gz"
    && LowerHex(lk.assets["darwin_arm64"].sha256, 64) && LowerHex(lk.assets["linux_amd64"].sha256, 64)
  }

  ghost predicate LowerHex(v: Bytes, n: nat) {
    |v| == n && forall i :: 0 <= i < n ==> '0' <= v[i] <= '9' || 'a' <= v[i] <= 'f'
  }

  /** White space to strings.TrimSpace: space, tab, line feed, vertical tab, form feed, carriage return. */
  ghost predicate AllWhite(line: Bytes) {
    forall i :: 0 <= i < |line| ==> line[i] == ' ' || 9 as char <= line[i] <= 13 as char
  }

  /** A line without the carriage return it may end with, or nothing if it is white. */
  ghost function MeaningOf(raw: Bytes): seq<Bytes> {
    var line := if raw != "" && raw[|raw| - 1] == '\r' then raw[..|raw| - 1] else raw;
    if AllWhite(line) then [] else [line]
  }

  ghost function Meaningful(lines: seq<Bytes>): seq<Bytes> {
    if lines == [] then [] else Meaningful(lines[..|lines| - 1]) + MeaningOf(lines[|lines| - 1])
  }

  /** The header of a platform and then its two keys, once each, in either order. */
  ghost predicate SpellsAsset(a: Asset, p: Bytes, m: seq<Bytes>) {
    && |m| == 3 && m[0] == "[assets." + p + "]"
    && multiset(m[1..]) == multiset{"url = \"" + a.url + "\"", "sha256 = \"" + a.sha256 + "\""}
  }

  /** The three keys, once each, in any order, and then the two sections in either order. */
  ghost predicate Spells(lk: Lock, m: seq<Bytes>)
    requires "darwin_arm64" in lk.assets && "linux_amd64" in lk.assets
  {
    && |m| == 9
    && multiset(m[..3]) == multiset{
         "ref = \"" + lk.ref + "\"", "commit = \"" + lk.commit + "\"", "updated_at = \"" + lk.updatedAt + "\""}
    && var darwin, linux := lk.assets["darwin_arm64"], lk.assets["linux_amd64"];
       || (SpellsAsset(darwin, "darwin_arm64", m[3..6]) && SpellsAsset(linux, "linux_amd64", m[6..]))
       || (SpellsAsset(linux, "linux_amd64", m[3..6]) && SpellsAsset(darwin, "darwin_arm64", m[6..]))
  }

  /* ---- The printer ---- */

  /** %q, for texts that need no escapes. */
  function Quoted(v: Bytes): Bytes {
    "\"" + v + "\""
  }

  function KeyText(k: Bytes, v: Bytes): Bytes {
    k + " = " + Quoted(v)
  }

  function HeaderText(platform: Bytes): Bytes {
    "[assets." + platform + "]"
  }

  function SectionLines(lk: Lock, p: Bytes): seq<Bytes>
    requires p in lk.assets
  {
    ["", HeaderText(p), KeyText("url", lk.assets[p].url), KeyText("sha256", lk.assets[p].sha256)]
  }

  function TopLines(lk: Lock): seq<Bytes> {
    [KeyText("ref", lk.ref), KeyText("commit", lk.commit), KeyText("updated_at", lk.updatedAt)]
  }

  predicate HasPlatforms(lk: Lock) {
    forall i :: 0 <= i < |PLATFORMS| ==> PLATFORMS[i] in lk.assets
  }

  /** The lines of a formatted lock. */
  function LinesOf(lk: Lock): seq<Bytes>
    requires HasPlatforms(lk)
  {
    TopLines(lk) + SectionLines(lk, PLATFORMS[0]) + SectionLines(lk, PLATFORMS[1])
  }

  /** Lines, each with its line feed. */
  function Text(lines: seq<Bytes>): Bytes {
    if lines == [] then "" else lines[0] + ['\n'] + Text(lines[1..])
  }

  predicate NeedsNoQuoting(lk: Lock) {
    && HasPlatforms(lk) && Plain(lk.ref) && Plain(lk.commit) && Plain(lk.updatedAt)
    && forall p :: p in PLATFORMS ==> Plain(lk.assets[p].url) && Plain(lk.assets[p].sha256)
  }

  /** Format, for locks whose texts need no escapes. */
  method Format(lk: Lock) returns (b: Bytes)
    requires NeedsNoQuoting(lk)
    ensures b == Text(LinesOf(lk))
    ensures var darwin, linux := lk.assets["darwin_arm64"], lk.assets["linux_amd64"];
      b == Text([
        "ref = \"" + lk.ref + "\"", "commit = \"" + lk.commit + "\"", "updated_at = \"" + lk.updatedAt + "\"",
        "", "[assets.darwin_arm64]", "url = \"" + darwin.url + "\"", "sha256 = \"" + darwin.sha256 + "\"",
        "", "[assets.linux_amd64]", "url = \"" + linux.url + "\"", "sha256 = \"" + linux.sha256 + "\""])
  {
    hide Plain, Text;
    PrintedLines(lk);
    b := KeyText("ref", lk.ref) + "\n" + KeyText("commit", lk.commit) + "\n" +
         KeyText("updated_at", lk.updatedAt) + "\n";
    TextOfThree(KeyText("ref", lk.ref), KeyText("commit", lk.commit), KeyText("updated_at", lk.updatedAt));
    assert LinesOf(lk)[..3] == TopLines(lk);
    for i := 0 to |PLATFORMS|
      invariant b == Text(LinesOf(lk)[..3 + 4 * i])
    {
      var p := PLATFORMS[i];
      assert LinesOf(lk)[..3 + 4 * (i + 1)] == LinesOf(lk)[..3 + 4 * i] + SectionLines(lk, p);
      TextAppends(LinesOf(lk)[..3 + 4 * i], SectionLines(lk, p));
      TextOfSection(HeaderText(p), KeyText("url", lk.assets[p].url), KeyText("sha256", lk.assets[p].sha256));
      b := b + ("\n" + HeaderText(p) + "\n" + KeyText("url", lk.assets[p].url) + "\n" +
                KeyText("sha256", lk.assets[p].sha256) + "\n");
    }
    assert LinesOf(lk)[..11] == LinesOf(lk);
  }

  lemma PrintedLines(lk: Lock)
    requires HasPlatforms(lk)
    ensures PLATFORMS[0] in lk.assets && PLATFORMS[1] in lk.assets
    ensures var darwin, linux := lk.assets["darwin_arm64"], lk.assets["linux_amd64"];
      LinesOf(lk) == [
        "ref = \"" + lk.ref + "\"", "commit = \"" + lk.commit + "\"", "updated_at = \"" + lk.updatedAt + "\"",
        "", "[assets.darwin_arm64]", "url = \"" + darwin.url + "\"", "sha256 = \"" + darwin.sha256 + "\"",
        "", "[assets.linux_amd64]", "url = \"" + linux.url + "\"", "sha256 = \"" + linux.sha256 + "\""]
  {
    hide KeyText;
    assert PLATFORMS[0] in lk.assets && PLATFORMS[1] in lk.assets;
    TopTexts(lk.ref);
    TopTexts(lk.commit);
    TopTexts(lk.updatedAt);
    AssetTexts(lk.assets[PLATFORMS[0]].url);
    AssetTexts(lk.assets[PLATFORMS[0]].sha256);
    AssetTexts(lk.assets[PLATFORMS[1]].url);
    AssetTexts(lk.assets[PLATFORMS[1]].sha256);
    assert HeaderText("darwin_arm64") == "[assets.darwin_arm64]" && HeaderText("linux_amd64") == "[assets.linux_amd64]";
  }

  lemma TextOfThree(x: Bytes, y: Bytes, z: Bytes)
    ensures Text([x, y, z]) == x + "\n" + y + "\n" + z + "\n"
  {
    assert [x, y, z][1..] == [y, z] && [y, z][1..] == [z] && [z][1..] == [];
    assert Text([z]) == z + "\n" && Text([y, z]) == y + "\n" + Text([z]);
  }

  lemma TextOfSection(x: Bytes, y: Bytes, z: Bytes)
    ensures Text(["", x, y, z]) == "\n" + x + "\n" + y + "\n" + z + "\n"
  {
    assert ["", x, y, z][1..] == [x, y, z];
    TextOfThree(x, y, z);
  }

  lemma {:induction false} TextAppends(a: seq<Bytes>, b: seq<Bytes>)
    ensures Text(a + b) == Text(a) + Text(b)
  {
    if a == [] {
      assert a + b == b;
    } else {
      assert (a + b)[1..] == a[1..] + b;
      TextAppends(a[1..], b);
    }
  }

  lemma {:induction false} TextJoins(lines: seq<Bytes>)
    ensures Text(lines) == Paths.Join(lines + [""], '\n')
  {
    if lines != [] {
      assert (lines + [""])[1..] == lines[1..] + [""];
      TextJoins(lines[1..]);
    }
  }

  lemma SplitText(lines: seq<Bytes>)
    requires forall g :: g in lines ==> '\n' !in g
    ensures Paths.Split(Text(lines), '\n') == lines + [""]
  {
    TextJoins(lines);
    Paths.SplitJoin(lines + [""], '\n');
  }

  /* ---- Lines ---- */

  lemma KeyTextReads(k: Bytes, v: Bytes)
    requires IsName(k) && '"' !in v
    ensures var line := KeyText(k, v); HeaderLine(line).None? && KeyLine(line) == Some((k, v))
  {
    var line := KeyText(k, v);
    assert line == k + [' '] + ("= \"" + v + "\"");
    assert ' ' !in k;
    IndexOfDelimiter(k, ' ', "= \"" + v + "\"");
    var i := |k|;
    assert line[..i] == k && line[i..i + 4] == " = \"" && line[i + 4..|line| - 1] == v;
    assert line[0] == k[0] && line[0] != '[';
    assert |line| > 9 ==> line[..8][0] == line[0];
  }

  lemma KeyLineText(line: Bytes)
    requires KeyLine(line).Some?
    ensures line == KeyText(KeyLine(line).value.0, KeyLine(line).value.1)
  {
    var i := IndexByte(line, ' ');
    assert line == line[..i] + line[i..i + 4] + line[i + 4..|line| - 1] + [line[|line| - 1]];
    assert line[..i] + " = " + ("\"" + line[i + 4..|line| - 1] + "\"") ==
      line[..i] + " = \"" + line[i + 4..|line| - 1] + "\"";
  }

  lemma HeaderTextReads(p: Bytes)
    requires p in PLATFORMS
    ensures HeaderLine(HeaderText(p)) == Some(p)
  {
    var line := HeaderText(p);
    assert line[8..|line| - 1] == p && line[..8] == "[assets.";
    assert p == PLATFORMS[0] || p == PLATFORMS[1];
  }

  lemma HeaderLineText(line: Bytes)
    requires HeaderLine(line).Some?
    ensures line == HeaderText(HeaderLine(line).value)
  {
    assert line == line[..8] + line[8..|line| - 1] + [line[|line| - 1]];
  }

  lemma TopTexts(v: Bytes)
    ensures KeyText("ref", v) == "ref = \"" + v + "\"" && KeyText("commit", v) == "commit = \"" + v + "\""
    ensures KeyText("updated_at", v) == "updated_at = \"" + v + "\""
  {
  }

  lemma AssetTexts(v: Bytes)
    ensures KeyText("url", v) == "url = \"" + v + "\"" && KeyText("sha256", v) == "sha256 = \"" + v + "\""
  {
  }

  /* ---- Only the lines that are not white matter ---- */

  function ReadTexts(rfc: Rfc3339, texts: seq<Bytes>): Option<Scan> {
    if texts == [] then Some(START)
    else
      var s := ReadTexts(rfc, texts[..|texts| - 1]);
      if s.None? then None else ReadText(rfc, s.value, texts[|texts| - 1])
  }

  lemma BlankIsWhite(line: Bytes)
    ensures Blank(line) <==> AllWhite(line)
  {
    forall i | 0 <= i < |line|
      ensures line[i] in " \t\r\n" <==> line[i] == ' ' || line[i] == '\t' || line[i] == '\r' || line[i] == '\n'
    {
    }
  }

  lemma {:induction false} MeaningfulRead(rfc: Rfc3339, lines: seq<Bytes>)
    ensures ReadLines(rfc, lines) == ReadTexts(rfc, Meaningful(lines))
  {
    hide ReadText, Blank, AllWhite;
    if lines != [] {
      var n := |lines| - 1;
      MeaningfulRead(rfc, lines[..n]);
      BlankIsWhite(TrimCR(lines[n]));
      var m, line := Meaningful(lines[..n]), TrimCR(lines[n]);
      assert MeaningOf(lines[n]) == if AllWhite(line) then [] else [line];
      if AllWhite(line) {
        assert m + [] == m;
      } else {
        assert (m + [line])[..|m|] == m;
      }
    }
  }

  lemma OneMore(rfc: Rfc3339, texts: seq<Bytes>, k: nat, s: Scan, s': Scan)
    requires k < |texts| && ReadTexts(rfc, texts[..k]) == Some(s) && ReadText(rfc, s, texts[k]) == Some(s')
    ensures ReadTexts(rfc, texts[..k + 1]) == Some(s')
  {
    assert texts[..k + 1][..k] == texts[..k];
  }

  /* ---- The values that are accepted ---- */

  ghost predicate GoodAsset(ref: Bytes, platform: Bytes, a: Asset) {
    (a.url == "" || a.url == AssetURLFor(ref, platform)) && (a.sha256 == "" || IsSha256(a.sha256))
  }

  /** What holds after every line. */
  ghost predicate Sound(rfc: Rfc3339, s: Scan) {
    && ("ref" in s.seen ==> IsNightly(s.lock.ref))
    && ("commit" in s.seen ==> IsCommit(s.lock.commit))
    && ("updated_at" in s.seen ==> rfc(s.lock.updatedAt))
    && (s.platform != "" ==> s.platform in PLATFORMS)
    && (s.platform == "" ==> s.lock.assets == map[])
    && (forall p :: p in s.lock.assets ==> p in PLATFORMS && GoodAsset(s.lock.ref, p, s.lock.assets[p]))
  }

  /** GoodLock, in the parser's own terms. */
  ghost predicate Fits(rfc: Rfc3339, lk: Lock) {
    && IsNightly(lk.ref) && IsCommit(lk.commit) && rfc(lk.updatedAt)
    && (forall p :: p in lk.assets <==> p in PLATFORMS)
    && forall p :: p in lk.assets ==> lk.assets[p].url == AssetURLFor(lk.ref, p) && IsSha256(lk.assets[p].sha256)
  }

  lemma GoodFits(rfc: Rfc3339, lk: Lock)
    ensures GoodLock(rfc, lk) <==> Fits(rfc, lk)
  {
    hide AssetURLFor, IsNightly, LowerHex, IsCommit, IsSha256;
    AssetURLs(lk.ref);
    NightlyText(lk.ref);
    HexText(lk.commit);
    forall p | p in lk.assets ensures IsSha256(lk.assets[p].sha256) <==> LowerHex(lk.assets[p].sha256, 64) {
      HexText(lk.assets[p].sha256);
    }
    PlatformKeys(lk.assets.Keys);
  }

  lemma NightlyText(ref: Bytes)
    ensures IsNightly(ref) <==> |ref| >= 2 && ref[0] == 'b' && forall i :: 1 <= i < |ref| ==> '0' <= ref[i] <= '9'
  {
    if |ref| >= 2 {
      assert forall i :: 1 <= i < |ref| ==> ref[i] == ref[1..][i - 1];
    }
  }

  lemma HexText(v: Bytes)
    ensures (IsCommit(v) <==> LowerHex(v, 40)) && (IsSha256(v) <==> LowerHex(v, 64))
  {
  }

  lemma PlatformKeys(keys: set<Bytes>)
    ensures (forall p :: p in keys <==> p in PLATFORMS) <==> keys == {"darwin_arm64", "linux_amd64"}
  {
    assert forall p :: p in PLATFORMS <==> p == PLATFORMS[0] || p == PLATFORMS[1];
  }

  lemma TextKeepsSound(rfc: Rfc3339, s: Scan, line: Bytes)
    requires Sound(rfc, s) && ReadText(rfc, s, line).Some?
    ensures Sound(rfc, ReadText(rfc, s, line).value)
  {
    hide IsNightly, IsCommit, IsSha256, AssetURLFor, HeaderLine, KeyLine;
  }

  /* ---- The lines that are accepted ---- */

  function Got(s: Scan, p: Bytes): Asset {
    if p in s.lock.assets then s.lock.assets[p] else Asset("", "")
  }

  /** A key as a line, if it has been read. */
  ghost function IfRead(keys: set<Bytes>, k: Bytes, v: Bytes): multiset<Bytes> {
    if k in keys then multiset{KeyText(k, v)} else multiset{}
  }

  lemma NowRead(keys: set<Bytes>, k: Bytes, v: Bytes, was: Bytes)
    requires k !in keys
    ensures IfRead(keys + {k}, k, v) == IfRead(keys, k, was) + multiset{KeyText(k, v)}
  {
  }

  lemma StillRead(keys: set<Bytes>, k: Bytes, l: Bytes, v: Bytes)
    requires k != l
    ensures IfRead(keys + {k}, l, v) == IfRead(keys, l, v)
  {
  }

  /** The keys read before the sections. */
  ghost function TopBag(s: Scan): multiset<Bytes> {
    IfRead(s.seen, "ref", s.lock.ref) + IfRead(s.seen, "commit", s.lock.commit) +
    IfRead(s.seen, "updated_at", s.lock.updatedAt)
  }

  /** The keys read of an asset. */
  ghost function KeyBag(keys: set<Bytes>, a: Asset): multiset<Bytes> {
    IfRead(keys, "url", a.url) + IfRead(keys, "sha256", a.sha256)
  }

  /** b is the section of p as it was read so far. */
  ghost predicate Block(s: Scan, p: Bytes, b: seq<Bytes>) {
    && p in s.keys && b != [] && b[0] == HeaderText(p) && multiset(b[1..]) == KeyBag(s.keys[p], Got(s, p))
    && (Got(s, p).url != "" ==> "url" in s.keys[p]) && (Got(s, p).sha256 != "" ==> "sha256" in s.keys[p])
  }

  function Other(p: Bytes): Bytes {
    if p == PLATFORMS[0] then PLATFORMS[1] else PLATFORMS[0]
  }

  ghost predicate Blocks(s: Scan, one: seq<Bytes>, two: seq<Bytes>) {
    if s.platform == "" then s.sections == {} && one == [] && two == []
    else if s.sections == {s.platform} then Block(s, s.platform, one) && two == []
    else s.sections == {s.platform, Other(s.platform)} && Block(s, Other(s.platform), one) && Block(s, s.platform, two)
  }

  /** The lines read so far: the keys, one section, another. */
  ghost predicate Shape(s: Scan, top: seq<Bytes>, one: seq<Bytes>, two: seq<Bytes>) {
    && multiset(top) == TopBag(s) && Blocks(s, one, two)
    && (s.platform != "" ==> s.platform in PLATFORMS) && s.lock.assets.Keys <= s.sections
  }

  lemma TopKeyShape(rfc: Rfc3339, s: Scan, k: Bytes, v: Bytes, top: seq<Bytes>)
    requires Shape(s, top, [], []) && s.platform == "" && TopKey(rfc, s, k, v).Some?
    ensures Shape(TopKey(rfc, s, k, v).value, top + [KeyText(k, v)], [], [])
  {
    hide KeyText, IsNightly, IsCommit, TopBag;
    assert multiset(top + [KeyText(k, v)]) == multiset(top) + multiset{KeyText(k, v)};
    TopBagGrows(rfc, s, k, v);
  }

  lemma TopBagGrows(rfc: Rfc3339, s: Scan, k: Bytes, v: Bytes)
    requires TopKey(rfc, s, k, v).Some?
    ensures TopBag(TopKey(rfc, s, k, v).value) == TopBag(s) + multiset{KeyText(k, v)}
  {
    hide KeyText, IsNightly, IsCommit, IfRead;
    var lk := s.lock;
    if k == "ref" {
      NowRead(s.seen, k, v, lk.ref);
      StillRead(s.seen, k, "commit", lk.commit);
      StillRead(s.seen, k, "updated_at", lk.updatedAt);
    } else if k == "commit" {
      NowRead(s.seen, k, v, lk.commit);
      StillRead(s.seen, k, "ref", lk.ref);
      StillRead(s.seen, k, "updated_at", lk.updatedAt);
    } else {
      NowRead(s.seen, k, v, lk.updatedAt);
      StillRead(s.seen, k, "ref", lk.ref);
      StillRead(s.seen, k, "commit", lk.commit);
    }
  }

  lemma KeyBagGrows(keys: set<Bytes>, a: Asset, v: Bytes)
    ensures "url" !in keys ==> KeyBag(keys + {"url"}, a.(url := v)) == KeyBag(keys, a) + multiset{KeyText("url", v)}
    ensures "sha256" !in keys ==>
      KeyBag(keys + {"sha256"}, a.(sha256 := v)) == KeyBag(keys, a) + multiset{KeyText("sha256", v)}
  {
    hide KeyText, IfRead;
    if "url" !in keys {
      NowRead(keys, "url", v, a.url);
      StillRead(keys, "url", "sha256", a.sha256);
    }
    if "sha256" !in keys {
      NowRead(keys, "sha256", v, a.sha256);
      StillRead(keys, "sha256", "url", a.url);
    }
  }

  lemma AssetKeyShape(s: Scan, k: Bytes, v: Bytes, b: seq<Bytes>)
    requires Block(s, s.platform, b) && AssetKey(s, k, v).Some?
    ensures Block(AssetKey(s, k, v).value, s.platform, b + [KeyText(k, v)])
  {
    hide KeyText, AssetURLFor, IsSha256, KeyBag;
    KeyBagGrows(s.keys[s.platform], Got(s, s.platform), v);
    assert (b + [KeyText(k, v)])[1..] == b[1..] + [KeyText(k, v)];
    assert multiset(b[1..] + [KeyText(k, v)]) == multiset(b[1..]) + multiset{KeyText(k, v)};
  }

  lemma OtherBlock(s: Scan, t: Scan, q: Bytes, b: seq<Bytes>)
    requires Block(s, q, b) && q in t.keys && t.keys[q] == s.keys[q] && Got(t, q) == Got(s, q)
    ensures Block(t, q, b)
  {
  }

  lemma AssetShape(s: Scan, k: Bytes, v: Bytes, top: seq<Bytes>, one: seq<Bytes>, two: seq<Bytes>)
    returns (one': seq<Bytes>, two': seq<Bytes>)
    requires Shape(s, top, one, two) && s.platform != "" && AssetKey(s, k, v).Some?
    ensures Shape(AssetKey(s, k, v).value, top, one', two') && top + one' + two' == top + one + two + [KeyText(k, v)]
  {
    hide KeyText, AssetKey, Block, TopBag;
    var t := AssetKey(s, k, v).value;
    AssetKeyFrame(s, k, v);
    if s.sections == {s.platform} {
      AssetKeyShape(s, k, v, one);
      one', two' := one + [KeyText(k, v)], [];
    } else {
      AssetKeyShape(s, k, v, two);
      BlockKeys(s, Other(s.platform), one);
      OtherBlock(s, t, Other(s.platform), one);
      one', two' := one, two + [KeyText(k, v)];
    }
  }

  /** What a key of an asset leaves alone. */
  lemma AssetKeyFrame(s: Scan, k: Bytes, v: Bytes)
    requires AssetKey(s, k, v).Some?
    ensures var t := AssetKey(s, k, v).value;
      && TopBag(t) == TopBag(s) && t.platform == s.platform && t.sections == s.sections
      && t.lock.assets.Keys == s.lock.assets.Keys + {s.platform}
      && forall q :: q in s.keys && q != s.platform ==> q in t.keys && t.keys[q] == s.keys[q] && Got(t, q) == Got(s, q)
  {
    hide AssetURLFor, IsSha256, IfRead;
  }

  lemma BlockKeys(s: Scan, p: Bytes, b: seq<Bytes>)
    requires Block(s, p, b)
    ensures p in s.keys
  {
  }

  lemma HeaderShape(rfc: Rfc3339, s: Scan, line: Bytes, top: seq<Bytes>, one: seq<Bytes>, two: seq<Bytes>)
    returns (one': seq<Bytes>, two': seq<Bytes>)
    requires Shape(s, top, one, two) && HeaderLine(line).Some? && ReadText(rfc, s, line).Some?
    ensures Shape(ReadText(rfc, s, line).value, top, one', two') && top + one' + two' == top + one + two + [line]
  {
    hide HeaderLine, HeaderText, Block;
    HeaderLineText(line);
    var p, t := HeaderLine(line).value, ReadText(rfc, s, line).value;
    assert p == PLATFORMS[0] || p == PLATFORMS[1];
    NewBlock(t, p);
    if s.platform == "" {
      one', two' := [line], [];
    } else {
      BlockKeys(s, s.platform, one);
      OtherBlock(s, t, s.platform, one);
      one', two' := one, [line];
    }
  }

  lemma NewBlock(t: Scan, p: Bytes)
    requires p in t.keys && t.keys[p] == {} && p !in t.lock.assets
    ensures Block(t, p, [HeaderText(p)])
  {
  }

  lemma TextShape(rfc: Rfc3339, s: Scan, line: Bytes, top: seq<Bytes>, one: seq<Bytes>, two: seq<Bytes>)
    returns (top': seq<Bytes>, one': seq<Bytes>, two': seq<Bytes>)
    requires Shape(s, top, one, two) && ReadText(rfc, s, line).Some?
    ensures Shape(ReadText(rfc, s, line).value, top', one', two')
    ensures top' + one' + two' == top + one + two + [line]
  {
    hide TopKey, AssetKey, KeyText, Block, TopBag, Shape, HeaderLine, KeyLine;
    top', one', two' := top, one, two;
    if HeaderLine(line).Some? {
      one', two' := HeaderShape(rfc, s, line, top, one, two);
    } else {
      KeyLineText(line);
      var k, v := KeyLine(line).value.0, KeyLine(line).value.1;
      if s.platform != "" {
        one', two' := AssetShape(s, k, v, top, one, two);
      } else {
        NoBlocks(s, top, one, two);
        TopKeyShape(rfc, s, k, v, top);
        top' := top + [line];
      }
    }
  }

  lemma NoBlocks(s: Scan, top: seq<Bytes>, one: seq<Bytes>, two: seq<Bytes>)
    requires Shape(s, top, one, two) && s.platform == ""
    ensures one == [] && two == []
  {
  }

  lemma StartShape(rfc: Rfc3339)
    ensures Sound(rfc, START) && Shape(START, [], [], [])
  {
  }

  /** Whatever was read has this shape. */
  lemma {:induction false} TextsShape(rfc: Rfc3339, texts: seq<Bytes>)
    returns (top: seq<Bytes>, one: seq<Bytes>, two: seq<Bytes>)
    requires ReadTexts(rfc, texts).Some?
    ensures var s := ReadTexts(rfc, texts).value; Sound(rfc, s) && Shape(s, top, one, two)
    ensures texts == top + one + two
  {
    hide Shape, Sound, ReadText;
    if texts == [] {
      top, one, two := [], [], [];
      StartShape(rfc);
    } else {
      var n := |texts| - 1;
      var s := ReadTexts(rfc, texts[..n]).value;
      var a, b, c := TextsShape(rfc, texts[..n]);
      TextKeepsSound(rfc, s, texts[n]);
      top, one, two := TextShape(rfc, s, texts[n], a, b, c);
      assert texts == texts[..n] + [texts[n]];
    }
  }

  lemma BlockSpells(s: Scan, p: Bytes, b: seq<Bytes>)
    requires Block(s, p, b) && p in s.lock.assets && s.lock.assets[p].url != "" && s.lock.assets[p].sha256 != ""
    ensures SpellsAsset(s.lock.assets[p], p, b)
  {
    hide KeyText;
    var a := s.lock.assets[p];
    AssetTexts(a.url);
    AssetTexts(a.sha256);
    assert multiset(b[1..]) == multiset{KeyText("url", a.url), KeyText("sha256", a.sha256)};
    assert |b[1..]| == |multiset(b[1..])| == 2;
  }

  lemma TopSpells(s: Scan, top: seq<Bytes>)
    requires multiset(top) == TopBag(s) && "ref" in s.seen && "commit" in s.seen && "updated_at" in s.seen
    ensures |top| == 3 && multiset(top) == multiset{
      "ref = \"" + s.lock.ref + "\"", "commit = \"" + s.lock.commit + "\"",
      "updated_at = \"" + s.lock.updatedAt + "\""}
  {
    hide KeyText;
    var lk := s.lock;
    TopTexts(lk.ref);
    TopTexts(lk.commit);
    TopTexts(lk.updatedAt);
    assert multiset(top) ==
      multiset{KeyText("ref", lk.ref), KeyText("commit", lk.commit), KeyText("updated_at", lk.updatedAt)};
    assert |top| == |multiset(top)| == 3;
  }

  lemma PresentFits(rfc: Rfc3339, s: Scan)
    requires Sound(rfc, s) && AllPresent(s)
    ensures Fits(rfc, s.lock) && PLATFORMS[0] in s.lock.assets && PLATFORMS[1] in s.lock.assets
  {
    hide IsNightly, IsCommit, AssetURLFor, IsSha256;
    forall p | p in PLATFORMS ensures p in s.lock.assets {
      assert p == PLATFORMS[0] || p == PLATFORMS[1];
    }
    assert PLATFORMS[0] in s.lock.assets && PLATFORMS[1] in s.lock.assets;
  }

  lemma PresentSpells(rfc: Rfc3339, s: Scan, top: seq<Bytes>, one: seq<Bytes>, two: seq<Bytes>)
    requires Sound(rfc, s) && Shape(s, top, one, two) && AllPresent(s)
    ensures GoodLock(rfc, s.lock) && Spells(s.lock, top + one + two)
  {
    hide Sound, Fits, GoodLock, Block, TopBag, SpellsAsset;
    PresentFits(rfc, s);
    GoodFits(rfc, s.lock);
    var p, q := s.platform, Other(s.platform);
    assert PLATFORMS[0] in s.sections && PLATFORMS[1] in s.sections;
    BlockSpells(s, q, one);
    BlockSpells(s, p, two);
    TopSpells(s, top);
    var m := top + one + two;
    SpellsLength(s.lock.assets[q], q, one);
    SpellsLength(s.lock.assets[p], p, two);
    assert m[..3] == top && m[3..6] == one && m[6..] == two;
  }

  lemma SpellsLength(a: Asset, p: Bytes, m: seq<Bytes>)
    requires SpellsAsset(a, p, m)
    ensures |m| == 3
  {
  }

  /* ---- Every such text is accepted ---- */

  /** The scan after some of the keys before the sections. */
  function PartTop(lk: Lock, keys: set<Bytes>): Scan {
    Scan(Lock(if "ref" in keys then lk.ref else "", if "commit" in keys then lk.commit else "",
              if "updated_at" in keys then lk.updatedAt else "", map[]), keys, "", {}, map[])
  }

  function TopValue(lk: Lock, k: Bytes): Bytes {
    if k == "ref" then lk.ref else if k == "commit" then lk.commit else lk.updatedAt
  }

  const TOPS: set<Bytes> := {"ref", "commit", "updated_at"}

  lemma TopKeyReads(rfc: Rfc3339, lk: Lock, keys: set<Bytes>, k: Bytes)
    requires PlainDates(rfc) && Fits(rfc, lk) && k in TOPS - keys
    ensures ReadText(rfc, PartTop(lk, keys), KeyText(k, TopValue(lk, k))) == Some(PartTop(lk, keys + {k}))
  {
    hide KeyText, KeyLine, HeaderLine;
    assert Plain(TopValue(lk, k)) by {
      HexPlain(lk.commit);
    }
    KeyTextReads(k, TopValue(lk, k));
  }

  lemma TopReads(rfc: Rfc3339, lk: Lock, m: seq<Bytes>, i: Bytes, j: Bytes, k: Bytes)
    requires PlainDates(rfc) && Fits(rfc, lk) && {i, j, k} == TOPS && i != j && j != k && i != k && |m| >= 3
    requires m[0] == KeyText(i, TopValue(lk, i)) && m[1] == KeyText(j, TopValue(lk, j))
    requires m[2] == KeyText(k, TopValue(lk, k))
    ensures ReadTexts(rfc, m[..3]) == Some(PartTop(lk, TOPS))
  {
    hide KeyText, ReadText, Fits, TopValue;
    assert m[..0] == [] && {} + {i} == {i} && {i} + {j} == {i, j} && {i, j} + {k} == TOPS;
    assert PartTop(lk, {}) == START;
    TopKeyReads(rfc, lk, {}, i);
    TopKeyReads(rfc, lk, {i}, j);
    TopKeyReads(rfc, lk, {i, j}, k);
    OneMore(rfc, m, 0, START, PartTop(lk, {i}));
    OneMore(rfc, m, 1, PartTop(lk, {i}), PartTop(lk, {i, j}));
    OneMore(rfc, m, 2, PartTop(lk, {i, j}), PartTop(lk, TOPS));
  }

  lemma EitherOrder<T>(x: T, y: T, a: T, b: T)
    requires multiset{x, y} == multiset{a, b}
    ensures (x == a && y == b) || (x == b && y == a)
  {
    assert x in multiset{a, b};
    assert multiset{x, y} - multiset{x} == multiset{y};
    assert multiset{a, b} - multiset{a} == multiset{b} && multiset{a, b} - multiset{b} == multiset{a};
    assert y in multiset{y};
  }

  lemma Without<T>(x: T, y: T, z: T, b: T, c: T)
    requires multiset{x, y, z} == multiset{x, b, c}
    ensures (y == b && z == c) || (y == c && z == b)
  {
    assert multiset{x, y, z} - multiset{x} == multiset{y, z};
    assert multiset{x, b, c} - multiset{x} == multiset{b, c};
    EitherOrder(y, z, b, c);
  }

  lemma AnyOrder<T>(x: T, y: T, z: T, a: T, b: T, c: T)
    requires multiset{x, y, z} == multiset{a, b, c}
    ensures var t := (x, y, z); t in {(a, b, c), (a, c, b), (b, a, c), (b, c, a), (c, a, b), (c, b, a)}
  {
    assert x in multiset{a, b, c};
    if x == a {
      Without(x, y, z, b, c);
    } else if x == b {
      assert multiset{a, b, c} == multiset{b, a, c};
      Without(x, y, z, a, c);
    } else {
      assert multiset{a, b, c} == multiset{c, a, b};
      Without(x, y, z, a, b);
    }
  }

  lemma TopsRead(rfc: Rfc3339, lk: Lock, m: seq<Bytes>)
    requires PlainDates(rfc) && Fits(rfc, lk) && |m| >= 3
    requires multiset(m[..3]) == multiset{
      "ref = \"" + lk.ref + "\"", "commit = \"" + lk.commit + "\"", "updated_at = \"" + lk.updatedAt + "\""}
    ensures ReadTexts(rfc, m[..3]) == Some(PartTop(lk, TOPS))
  {
    hide KeyText, Fits, ReadTexts, PartTop;
    TopTexts(lk.ref);
    TopTexts(lk.commit);
    TopTexts(lk.updatedAt);
    var r, c, u := KeyText("ref", lk.ref), KeyText("commit", lk.commit), KeyText("updated_at", lk.updatedAt);
    assert m[..3] == [m[0], m[1], m[2]];
    AnyOrder(m[0], m[1], m[2], r, c, u);
    var t := (m[0], m[1], m[2]);
    if t == (r, c, u) { TopReads(rfc, lk, m, "ref", "commit", "updated_at"); }
    else if t == (r, u, c) { TopReads(rfc, lk, m, "ref", "updated_at", "commit"); }
    else if t == (c, r, u) { TopReads(rfc, lk, m, "commit", "ref", "updated_at"); }
    else if t == (c, u, r) { TopReads(rfc, lk, m, "commit", "updated_at", "ref"); }
    else if t == (u, r, c) { TopReads(rfc, lk, m, "updated_at", "ref", "commit"); }
    else { TopReads(rfc, lk, m, "updated_at", "commit", "ref"); }
  }

  /** The scan after one more section. */
  function AfterSection(s: Scan, p: Bytes, a: Asset): Scan {
    Scan(s.lock.(assets := s.lock.assets[p := a]), s.seen, p, s.sections + {p}, s.keys[p := {"url", "sha256"}])
  }

  lemma SectionReads(rfc: Rfc3339, lk: Lock, m: seq<Bytes>, n: nat, s: Scan, p: Bytes)
    requires Fits(rfc, lk) && Plain(lk.ref) && p in PLATFORMS && n + 3 <= |m|
    requires p in lk.assets && SpellsAsset(lk.assets[p], p, m[n..n + 3]) && ReadTexts(rfc, m[..n]) == Some(s)
    requires s.lock.ref == lk.ref && p !in s.sections && p !in s.lock.assets
    ensures ReadTexts(rfc, m[..n + 3]) == Some(AfterSection(s, p, lk.assets[p]))
  {
    hide KeyLine, HeaderLine, KeyText, IsNightly, IsCommit, IsSha256, Plain, AssetURLFor;
    var url, sha := lk.assets[p].url, lk.assets[p].sha256;
    UrlPlain(lk.ref, p);
    Sha256Plain(sha);
    QuoteFree(url);
    QuoteFree(sha);
    KeyTextReads("url", url);
    KeyTextReads("sha256", sha);
    HeaderTextReads(p);
    AssetTexts(url);
    AssetTexts(sha);
    var b := m[n..n + 3];
    assert m[n] == b[0] && m[n + 1] == b[1] && m[n + 2] == b[2] && b[1..] == [b[1], b[2]];
    assert multiset{b[1], b[2]} == multiset{KeyText("url", url), KeyText("sha256", sha)};
    EitherOrder(b[1], b[2], KeyText("url", url), KeyText("sha256", sha));
    assert p != "";
    var s1 := s.(platform := p, sections := s.sections + {p}, keys := s.keys[p := {}]);
    var s2 := if b[1] == KeyText("url", url) then FirstKey(s, p, "url", Asset(url, ""))
      else FirstKey(s, p, "sha256", Asset("", sha));
    OneMore(rfc, m, n, s, s1);
    FirstKeyReads(s, s1, p, url, sha);
    SecondKeyReads(s, p, url, sha);
    OneMore(rfc, m, n + 1, s1, s2);
    OneMore(rfc, m, n + 2, s2, AfterSection(s, p, lk.assets[p]));
  }

  lemma Sha256Plain(v: Bytes)
    requires IsSha256(v)
    ensures Plain(v)
  {
  }

  /** The scan after the first key of a section. */
  function FirstKey(s: Scan, p: Bytes, k: Bytes, a: Asset): Scan {
    Scan(s.lock.(assets := s.lock.assets[p := a]), s.seen, p, s.sections + {p}, s.keys[p := {k}])
  }

  lemma Overwrites<K, V>(m: map<K, V>, k: K, a: V, b: V)
    ensures m[k := a][k := b] == m[k := b]
  {
  }

  /** The first key of a section. */
  lemma FirstKeyReads(s: Scan, s1: Scan, p: Bytes, url: Bytes, sha: Bytes)
    requires s1 == s.(platform := p, sections := s.sections + {p}, keys := s.keys[p := {}]) && p !in s.lock.assets
    requires url == AssetURLFor(s.lock.ref, p) && IsSha256(sha)
    ensures AssetKey(s1, "url", url) == Some(FirstKey(s, p, "url", Asset(url, "")))
    ensures AssetKey(s1, "sha256", sha) == Some(FirstKey(s, p, "sha256", Asset("", sha)))
  {
    hide AssetURLFor, IsSha256;
    assert {} + {"url"} == {"url"} && {} + {"sha256"} == {"sha256"};
    Overwrites(s.keys, p, {}, {"url"});
    Overwrites(s.keys, p, {}, {"sha256"});
  }

  /** The second key of a section, whichever it is. */
  lemma SecondKeyReads(s: Scan, p: Bytes, url: Bytes, sha: Bytes)
    requires url == AssetURLFor(s.lock.ref, p) && IsSha256(sha)
    ensures AssetKey(FirstKey(s, p, "url", Asset(url, "")), "sha256", sha) == Some(AfterSection(s, p, Asset(url, sha)))
    ensures AssetKey(FirstKey(s, p, "sha256", Asset("", sha)), "url", url) == Some(AfterSection(s, p, Asset(url, sha)))
  {
    hide AssetURLFor, IsSha256;
    assert {"url"} + {"sha256"} == {"url", "sha256"} == {"sha256"} + {"url"};
    Overwrites(s.lock.assets, p, Asset(url, ""), Asset(url, sha));
    Overwrites(s.lock.assets, p, Asset("", sha), Asset(url, sha));
    Overwrites(s.keys, p, {"url"}, {"url", "sha256"});
    Overwrites(s.keys, p, {"sha256"}, {"url", "sha256"});
  }

  lemma SpelledReads(rfc: Rfc3339, lk: Lock, m: seq<Bytes>)
    requires PlainDates(rfc) && GoodLock(rfc, lk) && Spells(lk, m)
    ensures ReadTexts(rfc, m).Some? && AllPresent(ReadTexts(rfc, m).value) && ReadTexts(rfc, m).value.lock == lk
  {
    hide GoodLock, Fits, ReadTexts, SpellsAsset, AllPresent, Plain;
    GoodFits(rfc, lk);
    FitsMeans(rfc, lk);
    TopsRead(rfc, lk, m);
    var d, l := PLATFORMS[0], PLATFORMS[1];
    var p := if SpellsAsset(lk.assets[d], d, m[3..6]) && SpellsAsset(lk.assets[l], l, m[6..]) then d else l;
    var q := Other(p);
    assert m[6..] == m[6..9];
    var s0 := PartTop(lk, TOPS);
    var s1 := AfterSection(s0, p, lk.assets[p]);
    var s2 := AfterSection(s1, q, lk.assets[q]);
    SectionReads(rfc, lk, m, 3, s0, p);
    SectionReads(rfc, lk, m, 6, s1, q);
    assert m[..9] == m;
    TwoAssets(lk, p, q);
    AllRead(rfc, lk, s2);
  }

  lemma FitsMeans(rfc: Rfc3339, lk: Lock)
    requires Fits(rfc, lk)
    ensures Plain(lk.ref) && forall x :: x in lk.assets <==> x in PLATFORMS
  {
  }

  lemma AllRead(rfc: Rfc3339, lk: Lock, s: Scan)
    requires Fits(rfc, lk) && s.lock == lk && s.seen == TOPS && |lk.assets| == 2
    ensures AllPresent(s)
  {
    hide AssetURLFor;
    forall i | 0 <= i < |PLATFORMS| ensures PLATFORMS[i] in lk.assets && lk.assets[PLATFORMS[i]].url != "" {
      assert PLATFORMS[i] in PLATFORMS;
      UrlNotEmpty(lk.ref, PLATFORMS[i]);
    }
  }

  lemma UrlNotEmpty(ref: Bytes, p: Bytes)
    ensures AssetURLFor(ref, p) != ""
  {
  }

  lemma TwoAssets(lk: Lock, p: Bytes, q: Bytes)
    requires (p == PLATFORMS[0] && q == PLATFORMS[1]) || (p == PLATFORMS[1] && q == PLATFORMS[0])
    requires forall x :: x in lk.assets <==> x in PLATFORMS
    ensures map[p := lk.assets[p]][q := lk.assets[q]] == lk.assets && |lk.assets| == 2
  {
    var m := map[p := lk.assets[p]][q := lk.assets[q]];
    forall x ensures x in m <==> x in lk.assets {
      assert x in PLATFORMS <==> x == PLATFORMS[0] || x == PLATFORMS[1];
    }
    assert m.Keys == {p, q};
  }

  lemma QuoteFree(v: Bytes)
    requires Plain(v)
    ensures '"' !in v && '\n' !in v
  {
  }

  lemma HexPlain(v: Bytes)
    requires IsHex(v)
    ensures Plain(v)
  {
  }

  lemma UrlPlain(ref: Bytes, p: Bytes)
    requires Plain(ref)
    ensures Plain(AssetURLFor(ref, p))
  {
    hide Plain;
    FixedTextsPlain();
    PlainJoin("llama-", ref);
    PlainJoin("llama-" + ref, "-bin-macos-arm64.tar.gz");
    PlainJoin("llama-" + ref, "-bin-ubuntu-x64.tar.gz");
    PlainJoin(DOWNLOADS, ref);
    PlainJoin(DOWNLOADS + ref, "/");
    PlainJoin(DOWNLOADS + ref + "/", AssetName(ref, p));
  }

  lemma FixedTextsPlain()
    ensures Plain(DOWNLOADS) && Plain("/") && Plain("llama-")
    ensures Plain("-bin-macos-arm64.tar.gz") && Plain("-bin-ubuntu-x64.tar.gz")
  {
    DownloadsPlain();
    assert Plain("-bin-macos-arm64.tar.gz") && Plain("-bin-ubuntu-x64.tar.gz");
  }

  lemma DownloadsPlain()
    ensures Plain(DOWNLOADS)
  {
    assert Plain("https://github.com/") && Plain("ggml-org/llama.cpp") && Plain("/releases/download/");
    hide Plain;
    PlainJoin("https://github.com/", "ggml-org/llama.cpp");
    PlainJoin("https://github.com/" + "ggml-org/llama.cpp", "/releases/download/");
    DownloadsParts();
  }

  lemma DownloadsParts()
    ensures DOWNLOADS == "https://github.com/" + "ggml-org/llama.cpp" + "/releases/download/"
  {
  }

  lemma PlainJoin(a: Bytes, b: Bytes)
    requires Plain(a) && Plain(b)
    ensures Plain(a + b)
  {
  }


  /* ---- Main results ---- */

  /**
   Fail-closed, exactly: a file is accepted, and as which lock, if and only if the lock is good and the
   lines that are not white spell it, every key once.
   */
  lemma ParseExact(rfc: Rfc3339, data: Bytes, lk: Lock)
    requires PlainDates(rfc)
    ensures Accepted(rfc, data) == Some(lk) <==>
      GoodLock(rfc, lk) && Spells(lk, Meaningful(Paths.Split(data, '\n')))
  {
    hide Spells, AllPresent, Shape, Sound;
    var m := Meaningful(Paths.Split(data, '\n'));
    MeaningfulRead(rfc, Paths.Split(data, '\n'));
    if Accepted(rfc, data) == Some(lk) {
      var top, one, two := TextsShape(rfc, m);
      PresentSpells(rfc, ReadTexts(rfc, m).value, top, one, two);
    }
    if GoodLock(rfc, lk) && Spells(lk, m) {
      SpelledReads(rfc, lk, m);
    }
  }

  lemma {:induction false} MeaningfulAppends(a: seq<Bytes>, b: seq<Bytes>)
    ensures Meaningful(a + b) == Meaningful(a) + Meaningful(b)
  {
    hide MeaningOf;
    if b == [] {
      assert a + b == a;
    } else {
      var n := |b| - 1;
      MeaningfulAppends(a, b[..n]);
      assert (a + b)[..|a + b| - 1] == a + b[..n];
    }
  }

  /** A line that is kept as it is. */
  ghost predicate Kept(line: Bytes) {
    line != "" && line[|line| - 1] in "\"]"
  }

  lemma KeptMeaning(line: Bytes)
    requires Kept(line)
    ensures MeaningOf(line) == [line]
  {
  }

  lemma {:induction false} KeptMeaningful(lines: seq<Bytes>)
    requires forall i :: 0 <= i < |lines| ==> Kept(lines[i])
    ensures Meaningful(lines) == lines
  {
    if lines != [] {
      var n := |lines| - 1;
      KeptMeaningful(lines[..n]);
      KeptMeaning(lines[n]);
      hide MeaningOf;
      assert lines == lines[..n] + [lines[n]];
    }
  }

  lemma EmptyMeaningful(lines: seq<Bytes>)
    ensures Meaningful([""] + lines) == Meaningful(lines) && Meaningful(lines + [""]) == Meaningful(lines)
  {
    assert Meaningful([""]) == [];
    MeaningfulAppends([""], lines);
    MeaningfulAppends(lines, [""]);
  }

  lemma SectionMeaningful(lk: Lock, p: Bytes)
    requires p in lk.assets && IsName(p)
    ensures Meaningful(SectionLines(lk, p)) == SectionLines(lk, p)[1..]
    ensures SpellsAsset(lk.assets[p], p, SectionLines(lk, p)[1..])
  {
    hide KeyText, HeaderText;
    var a, m := lk.assets[p], SectionLines(lk, p)[1..];
    AssetTexts(a.url);
    AssetTexts(a.sha256);
    KeyKept("url", a.url);
    KeyKept("sha256", a.sha256);
    HeaderKept(p);
    KeptMeaningful(m);
    EmptyMeaningful(m);
    assert SectionLines(lk, p) == [""] + m;
    assert m[1..] == [KeyText("url", a.url), KeyText("sha256", a.sha256)];
  }

  lemma KeyKept(k: Bytes, v: Bytes)
    ensures Kept(KeyText(k, v))
  {
  }

  lemma HeaderKept(p: Bytes)
    ensures Kept(HeaderText(p)) && HeaderText(p) == "[assets." + p + "]"
  {
  }

  lemma TopMeaningful(lk: Lock)
    ensures Meaningful(TopLines(lk)) == TopLines(lk) && multiset(TopLines(lk)) == multiset{
      "ref = \"" + lk.ref + "\"", "commit = \"" + lk.commit + "\"", "updated_at = \"" + lk.updatedAt + "\""}
  {
    hide KeyText;
    TopTexts(lk.ref);
    TopTexts(lk.commit);
    TopTexts(lk.updatedAt);
    KeyKept("ref", lk.ref);
    KeyKept("commit", lk.commit);
    KeyKept("updated_at", lk.updatedAt);
    KeptMeaningful(TopLines(lk));
  }

  lemma GoodPlain(rfc: Rfc3339, lk: Lock)
    requires PlainDates(rfc) && GoodLock(rfc, lk)
    ensures NeedsNoQuoting(lk)
  {
    hide AssetURLFor, IsHex, GoodLock;
    GoodFits(rfc, lk);
    HexPlain(lk.commit);
    FitsMeans(rfc, lk);
    forall i | 0 <= i < |PLATFORMS| ensures PLATFORMS[i] in lk.assets {
      assert PLATFORMS[i] in PLATFORMS;
    }
    forall p | p in PLATFORMS ensures Plain(lk.assets[p].url) && Plain(lk.assets[p].sha256) {
      HexPlain(lk.assets[p].sha256);
      UrlPlain(lk.ref, p);
    }
  }

  lemma LinesHaveNoFeed(lk: Lock)
    requires NeedsNoQuoting(lk)
    ensures forall g :: g in LinesOf(lk) ==> '\n' !in g
  {
    hide Plain, SectionLines;
    QuoteFree(lk.ref);
    QuoteFree(lk.commit);
    QuoteFree(lk.updatedAt);
    SectionFeed(lk, 0);
    SectionFeed(lk, 1);
  }

  lemma SectionFeed(lk: Lock, i: nat)
    requires NeedsNoQuoting(lk) && i < |PLATFORMS|
    ensures forall g :: g in SectionLines(lk, PLATFORMS[i]) ==> '\n' !in g
  {
    hide Plain;
    assert PLATFORMS[i] in PLATFORMS;
    QuoteFree(lk.assets[PLATFORMS[i]].url);
    QuoteFree(lk.assets[PLATFORMS[i]].sha256);
  }

  /** The printer's lines spell the lock. */
  lemma PrintedSpells(rfc: Rfc3339, lk: Lock)
    requires PlainDates(rfc) && GoodLock(rfc, lk)
    ensures NeedsNoQuoting(lk) && Spells(lk, Meaningful(Paths.Split(Text(LinesOf(lk)), '\n')))
  {
    hide Plain, Text, KeyText, HeaderText, SpellsAsset, Meaningful, TopLines;
    GoodPlain(rfc, lk);
    LinesHaveNoFeed(lk);
    SplitText(LinesOf(lk));
    EmptyMeaningful(LinesOf(lk));
    var t, d, l := TopLines(lk), SectionLines(lk, PLATFORMS[0]), SectionLines(lk, PLATFORMS[1]);
    MeaningfulAppends(t + d, l);
    MeaningfulAppends(t, d);
    TopMeaningful(lk);
    SectionMeaningful(lk, PLATFORMS[0]);
    SectionMeaningful(lk, PLATFORMS[1]);
    var m := t + d[1..] + l[1..];
    TopCount(lk);
    assert m[..3] == t && m[3..6] == d[1..] && m[6..] == l[1..];
  }

  lemma TopCount(lk: Lock)
    ensures |TopLines(lk)| == 3
  {
  }

  /**
   The round trip: however it was laid out, an accepted lock is read back from its own printed text, and
   printing that again gives the same bytes.
   */
  lemma RoundTrip(rfc: Rfc3339, data: Bytes)
    requires PlainDates(rfc) && Accepted(rfc, data).Some?
    ensures HasPlatforms(Accepted(rfc, data).value)
    ensures var printed := Text(LinesOf(Accepted(rfc, data).value));
      Accepted(rfc, printed) == Accepted(rfc, data) && Text(LinesOf(Accepted(rfc, printed).value)) == printed
  {
    hide Accepted, LinesOf, Text, Spells, GoodLock;
    var lk := Accepted(rfc, data).value;
    ParseExact(rfc, data, lk);
    PrintedSpells(rfc, lk);
    ParseExact(rfc, Text(LinesOf(lk)), lk);
  }

  /** Two accepted files that print alike pin the same lock. */
  lemma PrintingDecides(rfc: Rfc3339, a: Bytes, b: Bytes)
    requires PlainDates(rfc) && Accepted(rfc, a).Some? && Accepted(rfc, b).Some?
    requires HasPlatforms(Accepted(rfc, a).value) && HasPlatforms(Accepted(rfc, b).value)
    requires Text(LinesOf(Accepted(rfc, a).value)) == Text(LinesOf(Accepted(rfc, b).value))
    ensures Accepted(rfc, a) == Accepted(rfc, b)
  {
    hide Accepted, LinesOf, Text;
    RoundTrip(rfc, a);
    RoundTrip(rfc, b);
  }
}
