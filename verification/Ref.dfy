/** References: the grammar, its parser, and the choice of an index member. */
module Ref {
  import opened Basics
  import Sorting

  const SCHEME: string := "shardr:///"
  const MAX_REF_LEN := 512

  datatype Class = E_LENGTH | E_PARSE | E_NO_SELECTOR | E_DIGEST_FORMAT | E_TAG_BANNED

  datatype Ref = Ref(canonical: Bytes, ns: Bytes, name: Bytes, sel: Bytes, tag: Bytes, quant: Bytes, digest: Bytes)

  datatype Result<+T> = Ok(value: T) | Err(error: Class)

  /* ---- Character classes ---- */

  predicate LowerCase(c: char) {
    'a' <= c <= 'z'
  }

  predicate UpperCase(c: char) {
    'A' <= c <= 'Z'
  }

  function LowerChar(c: char): char {
    if UpperCase(c) then c - 'A' + 'a' else c
  }

  /** strings.ToLower on ASCII. */
  function Lower(s: Bytes): (t: Bytes)
    ensures |t| == |s|
    ensures forall i :: 0 <= i < |s| ==> t[i] == if 'A' <= s[i] <= 'Z' then s[i] - 'A' + 'a' else s[i]
  {
    seq(|s|, i requires 0 <= i < |s| => LowerChar(s[i]))
  }

  predicate IsAtom(s: Bytes, maxLen: nat) {
    0 < |s| <= maxLen && (LowerCase(s[0]) || IsDigit(s[0])) &&
    forall i :: 1 <= i < |s| ==> LowerCase(s[i]) || IsDigit(s[i]) || s[i] in "._-"
  }

  predicate ValidNS(s: Bytes) {
    IsAtom(s, 64)
  }

  predicate ValidName(s: Bytes) {
    IsAtom(s, 128)
  }

  predicate ValidTagShape(s: Bytes) {
    0 < |s| <= 128 && (LowerCase(s[0]) || UpperCase(s[0]) || IsDigit(s[0]) || s[0] == '_') &&
    forall i :: 1 <= i < |s| ==> LowerCase(s[i]) || UpperCase(s[i]) || IsDigit(s[i]) || s[i] in "._-"
  }

  /** A quantisation name: a known prefix and a digit, or the reserved word. */
  predicate QuantSyntax(s: Bytes) {
    s == "raw" ||
    (0 < |s| <= 24
     && (forall i :: 0 <= i < |s| ==> LowerCase(s[i]) || IsDigit(s[i]) || s[i] in "_-")
     && ("q" <= s || "iq" <= s || "tq" <= s || "ud-" <= s || "bf" <= s || "f" <= s || "fp" <= s || "mx" <= s)
     && exists i :: 0 <= i < |s| && IsDigit(s[i]))
  }

  predicate TagBanned(tag: Bytes) {
    var low := Lower(tag);
    "sha256-" <= low || "sha256:" <= low || QuantSyntax(low)
  }

  /** ns/name, the key of the namespace state. */
  predicate ValidNamespaceKey(s: Bytes) {
    var i := IndexByte(s, '/');
    i < |s| && '/' !in s[i + 1..] && ValidNS(s[..i]) && ValidName(s[i + 1..])
  }

  /** Bare hexadecimal gains the prefix; everything that is then no digest is rejected. */
  function NormalizeDigest(s: Bytes): (r: Option<Bytes>)
    ensures r.Some? <==> IsDigest(s) || (IsHex(s) && |s| == 64)
    ensures r.Some? ==> IsDigest(r.value) && DigestHex(r.value) == DigestHex(s)
  {
    if SHA256_PREFIX <= s then
      assert s[0] == 's';
      if IsDigest(s) then Some(s) else None
    else if IsDigest(SHA256_PREFIX + s) then
      assert (SHA256_PREFIX + s)[7..] == s;
      Some(SHA256_PREFIX + s)
    else
      assert IsHex(s) && |s| == 64 ==> IsDigest(SHA256_PREFIX + s) by {
        assert (SHA256_PREFIX + s)[7..] == s;
      }
      None
  }

  /* ---- The loops that decide the classes ---- */

  /** isAtom */
  method DecideAtom(s: Bytes, maxLen: nat) returns (ok: bool)
    ensures ok <==> IsAtom(s, maxLen)
  {
    if |s| == 0 || |s| > maxLen {
      return false;
    }
    var first := s[0];
    if !(('a' <= first && first <= 'z') || ('0' <= first && first <= '9')) {
      return false;
    }
    for i := 1 to |s|
      invariant forall k :: 1 <= k < i ==> LowerCase(s[k]) || IsDigit(s[k]) || s[k] in "._-"
    {
      var c := s[i];
      if !(('a' <= c && c <= 'z') || ('0' <= c && c <= '9') || c == '.' || c == '_' || c == '-') {
        return false;
      }
    }
    return true;
  }

  /** validTagShape */
  method DecideTagShape(s: Bytes) returns (ok: bool)
    ensures ok <==> ValidTagShape(s)
  {
    if |s| == 0 || |s| > 128 {
      return false;
    }
    var first := s[0];
    if !(('a' <= first && first <= 'z') || ('A' <= first && first <= 'Z') || ('0' <= first && first <= '9') ||
         first == '_')
    {
      return false;
    }
    for i := 1 to |s|
      invariant forall k :: 1 <= k < i ==> LowerCase(s[k]) || UpperCase(s[k]) || IsDigit(s[k]) || s[k] in "._-"
    {
      var c := s[i];
      if !(('a' <= c && c <= 'z') || ('A' <= c && c <= 'Z') || ('0' <= c && c <= '9') ||
           c == '.' || c == '_' || c == '-')
      {
        return false;
      }
    }
    return true;
  }

  /** QuantSyntax: the charset, a known prefix, and at least one digit. */
  method DecideQuant(s: Bytes) returns (ok: bool)
    ensures ok <==> QuantSyntax(s)
  {
    if s == "raw" {
      return true;
    }
    if |s| == 0 || |s| > 24 {
      return false;
    }
    for i := 0 to |s|
      invariant forall k :: 0 <= k < i ==> LowerCase(s[k]) || IsDigit(s[k]) || s[k] in "_-"
    {
      var r := s[i];
      if !(('a' <= r && r <= 'z') || ('0' <= r && r <= '9') || r == '_' || r == '-') {
        return false;
      }
    }
    var prefixes := ["q", "iq", "tq", "ud-", "bf", "f", "fp", "mx"];
    var prefixOK := false;
    for i := 0 to |prefixes|
      invariant prefixOK <==> exists k :: 0 <= k < i && prefixes[k] <= s
    {
      if prefixes[i] <= s {
        prefixOK := true;
        break;
      }
    }
    PrefixList(prefixes, s);
    if !prefixOK {
      return false;
    }
    for i := 0 to |s|
      invariant forall k :: 0 <= k < i ==> !IsDigit(s[k])
    {
      if '0' <= s[i] && s[i] <= '9' {
        return true;
      }
    }
    return false;
  }

  lemma PrefixList(prefixes: seq<Bytes>, s: Bytes)
    requires prefixes == ["q", "iq", "tq", "ud-", "bf", "f", "fp", "mx"]
    ensures (exists k :: 0 <= k < |prefixes| && prefixes[k] <= s) <==>
      "q" <= s || "iq" <= s || "tq" <= s || "ud-" <= s || "bf" <= s || "f" <= s || "fp" <= s || "mx" <= s
  {
    assert prefixes[0] == "q" && prefixes[1] == "iq" && prefixes[2] == "tq" && prefixes[3] == "ud-";
    assert prefixes[4] == "bf" && prefixes[5] == "f" && prefixes[6] == "fp" && prefixes[7] == "mx";
  }

  /** IsDigest */
  method DecideDigest(s: Bytes) returns (ok: bool)
    ensures ok <==> IsDigest(s)
  {
    if !("sha256:" <= s) || |s| != 7 + 64 {
      return false;
    }
    var t := s[7..];
    for i := 0 to |t|
      invariant forall k :: 0 <= k < i ==> IsHexDigit(t[k])
    {
      if !(('0' <= t[i] && t[i] <= '9') || ('a' <= t[i] && t[i] <= 'f')) {
        return false;
      }
    }
    return true;
  }

  /* ---- The parser ---- */

  datatype Selector = NoSelector | QuantSelector(quant: Bytes) | TagSelector(tag: Bytes, quant: Bytes)

  function ValidateSelector(sel: Bytes): Result<Selector> {
    var i := IndexByte(sel, '+');
    if i < |sel| then
      var tag, quant := sel[..i], sel[i + 1..];
      if !ValidTagShape(tag) then Err(E_PARSE)
      else if TagBanned(tag) then Err(E_TAG_BANNED)
      else if !QuantSyntax(quant) then Err(E_PARSE)
      else Ok(TagSelector(tag, quant))
    else if !QuantSyntax(sel) then Err(E_PARSE)
    else Ok(QuantSelector(sel))
  }

  /** The part of Parse behind the digest suffix: [ns "/" name], then an optional selector. */
  function ParsePath(path: Bytes, digest: Bytes): Result<Parts> {
    var i := IndexByte(path, ':');
    var sel := if i < |path| then path[i + 1..] else "";
    var names := path[..i];
    var j := IndexByte(names, '/');
    if i < |path| && sel == "" then Err(E_PARSE)
    else if j == |names| then Err(E_PARSE)
    else if '/' in names[j + 1..] then Err(E_PARSE)
    else
      var ns, name := Lower(names[..j]), Lower(names[j + 1..]);
      if !ValidNS(ns) || !ValidName(name) then Err(E_PARSE)
      else if sel != "" then
        (match ValidateSelector(sel)
         case Err(e) => Err(e)
         case Ok(s) => Ok(Parts(ns, name, s, digest)))
      else if digest == "" then Err(E_NO_SELECTOR)
      else Ok(Parts(ns, name, NoSelector, digest))
  }

  function Parse(input: Bytes): Result<Ref> {
    if |input| > MAX_REF_LEN then Err(E_LENGTH)
    else if !(SCHEME <= input) then Err(E_PARSE)
    else
      var rest := input[|SCHEME|..];
      var i := IndexByte(rest, '@');
      var digest := if i < |rest| then rest[i + 1..] else "";
      if i < |rest| && (digest == "" || '@' in digest) then Err(E_PARSE)
      else if i < |rest| && !IsDigest(digest) then Err(E_DIGEST_FORMAT)
      else
        match ParsePath(rest[..i], digest)
        case Err(e) => Err(e)
        case Ok(p) => Ok(RefOf(p))
  }

  /* ---- The grammar ---- */

  /** What a reference is made of; an empty digest is no digest. */
  datatype Parts = Parts(ns: Bytes, name: Bytes, sel: Selector, digest: Bytes)

  function SelText(sel: Selector): Bytes {
    match sel
    case NoSelector => ""
    case QuantSelector(quant) => quant
    case TagSelector(tag, quant) => tag + "+" + quant
  }

  function PathText(p: Parts): Bytes {
    p.ns + "/" + p.name + if p.sel.NoSelector? then "" else ":" + SelText(p.sel)
  }

  /** The canonical form. */
  function Render(p: Parts): Bytes {
    SCHEME + PathText(p) + if p.digest == "" then "" else "@" + p.digest
  }

  predicate LegalSelector(sel: Selector) {
    match sel
    case NoSelector => true
    case QuantSelector(quant) => QuantSyntax(quant)
    case TagSelector(tag, quant) => ValidTagShape(tag) && !TagBanned(tag) && QuantSyntax(quant)
  }

  /** The grammar, on components: a reference has a selector or a digest, or both. */
  predicate Legal(p: Parts) {
    && ValidNS(p.ns) && ValidName(p.name) && LegalSelector(p.sel)
    && (p.digest == "" || IsDigest(p.digest))
    && (p.sel.NoSelector? ==> p.digest != "")
  }

  /** Names are compared without regard to case; tags and quants are kept as written. */
  function Lowered(p: Parts): Parts {
    p.(ns := Lower(p.ns), name := Lower(p.name))
  }

  function RefOf(p: Parts): Ref {
    Ref(Render(p), p.ns, p.name, SelText(p.sel), if p.sel.TagSelector? then p.sel.tag else "",
        if p.sel.NoSelector? then "" else p.sel.quant, p.digest)
  }

  /* ---- The parser accepts exactly the grammar ---- */

  lemma LowerFixed(s: Bytes, maxLen: nat)
    requires IsAtom(s, maxLen)
    ensures Lower(s) == s
  {
  }

  lemma AtomFree(s: Bytes, maxLen: nat)
    requires IsAtom(Lower(s), maxLen)
    ensures '/' !in s && ':' !in s && '@' !in s
  {
    forall i | 0 <= i < |s| ensures s[i] != '/' && s[i] != ':' && s[i] != '@' {
      var c := Lower(s)[i];
      assert LowerCase(c) || IsDigit(c) || c in "._-";
    }
  }

  lemma QuantFree(s: Bytes)
    requires QuantSyntax(s)
    ensures '@' !in s && ':' !in s && '+' !in s && s != ""
  {
  }

  lemma TagFree(s: Bytes)
    requires ValidTagShape(s)
    ensures '@' !in s && '+' !in s && ':' !in s
  {
    forall i | 0 <= i < |s| ensures s[i] != '@' && s[i] != '+' && s[i] != ':' {
      assert i == 0 || LowerCase(s[i]) || UpperCase(s[i]) || IsDigit(s[i]) || s[i] in "._-";
    }
  }

  lemma SelectorAccepted(sel: Selector)
    requires LegalSelector(sel) && !sel.NoSelector?
    ensures ValidateSelector(SelText(sel)) == Ok(sel) && SelText(sel) != "" && '@' !in SelText(sel)
  {
    hide ValidTagShape, TagBanned, QuantSyntax, IndexByte;
    QuantFree(sel.quant);
    if sel.TagSelector? {
      TagFree(sel.tag);
      IndexOfDelimiter(sel.tag, '+', sel.quant);
      var text := SelText(sel);
      assert text == sel.tag + ['+'] + sel.quant;
      assert text[..|sel.tag|] == sel.tag && text[|sel.tag| + 1..] == sel.quant;
    } else {
      assert IndexByte(sel.quant, '+') == |sel.quant|;
    }
  }

  lemma SelectorSpelled(sel: Bytes)
    requires ValidateSelector(sel).Ok?
    ensures LegalSelector(ValidateSelector(sel).value) && SelText(ValidateSelector(sel).value) == sel
    ensures !ValidateSelector(sel).value.NoSelector?
  {
    hide ValidTagShape, TagBanned, QuantSyntax;
    var i := IndexByte(sel, '+');
    if i < |sel| {
      assert sel == sel[..i] + [sel[i]] + sel[i + 1..];
    }
  }

  lemma PathAccepted(p: Parts)
    requires Legal(Lowered(p))
    ensures ParsePath(PathText(p), p.digest) == Ok(Lowered(p)) && '@' !in PathText(p)
  {
    hide IsAtom, LegalSelector, ValidateSelector, IndexByte, IsDigest, Lower;
    AtomFree(p.ns, 64);
    AtomFree(p.name, 128);
    var names, path := p.ns + ['/'] + p.name, PathText(p);
    IndexOfDelimiter(p.ns, '/', p.name);
    assert names[..|p.ns|] == p.ns && names[|p.ns| + 1..] == p.name;
    assert ':' !in names;
    if p.sel.NoSelector? {
      assert path == names && IndexByte(path, ':') == |path|;
    } else {
      SelectorAccepted(p.sel);
      IndexOfDelimiter(names, ':', SelText(p.sel));
      assert path == names + [':'] + SelText(p.sel);
      assert path[..|names|] == names && path[|names| + 1..] == SelText(p.sel);
    }
  }

  lemma PathSpelled(path: Bytes, digest: Bytes) returns (p: Parts)
    requires ParsePath(path, digest).Ok? && (digest == "" || IsDigest(digest))
    ensures path == PathText(p) && p.digest == digest && Legal(Lowered(p)) && ParsePath(path, digest) == Ok(Lowered(p))
  {
    hide IsAtom, LegalSelector, ValidateSelector, IsDigest, Lower;
    var i := IndexByte(path, ':');
    var names := path[..i];
    var j := IndexByte(names, '/');
    assert names == names[..j] + "/" + names[j + 1..];
    if i < |path| {
      SelectorSpelled(path[i + 1..]);
      assert path == names + ":" + path[i + 1..];
      p := Parts(names[..j], names[j + 1..], ValidateSelector(path[i + 1..]).value, digest);
    } else {
      assert path == names;
      p := Parts(names[..j], names[j + 1..], NoSelector, digest);
      NoSelectorLegal();
    }
  }

  lemma NoSelectorLegal()
    ensures LegalSelector(NoSelector)
  {
  }

  /** Every spelling of legal components, in either case, is parsed back into them. */
  lemma ParseRendered(p: Parts)
    requires Legal(Lowered(p)) && |Render(p)| <= MAX_REF_LEN
    ensures Parse(Render(p)) == Ok(RefOf(Lowered(p)))
    ensures var r := Parse(Render(p)).value;
      && r.canonical == Render(Lowered(p)) && r.ns == Lower(p.ns) && r.name == Lower(p.name) && r.digest == p.digest
      && (p.sel.NoSelector? ==> r.sel == r.tag == r.quant == "")
      && (p.sel.QuantSelector? ==> r.sel == r.quant == p.sel.quant && r.tag == "")
      && (p.sel.TagSelector? ==> r.sel == p.sel.tag + "+" + p.sel.quant && r.tag == p.sel.tag && r.quant == p.sel.quant)
  {
    hide ParsePath, Legal, IndexByte, PathText, Render, Lower;
    ParseAccepted(p);
  }

  lemma ParseAccepted(p: Parts)
    requires Legal(Lowered(p)) && |Render(p)| <= MAX_REF_LEN
    ensures Parse(Render(p)) == Ok(RefOf(Lowered(p)))
  {
    hide ParsePath, Legal, IndexByte, PathText, RefOf;
    PathAccepted(p);
    var rest := Render(p)[|SCHEME|..];
    DigestFree(p);
    if p.digest == "" {
      assert rest == PathText(p) == rest[..|rest|] && IndexByte(rest, '@') == |rest|;
    } else {
      IndexOfDelimiter(PathText(p), '@', p.digest);
      assert rest == PathText(p) + ['@'] + p.digest;
      assert rest[..|PathText(p)|] == PathText(p) && rest[|PathText(p)| + 1..] == p.digest;
    }
  }

  lemma DigestFree(p: Parts)
    requires Legal(Lowered(p))
    ensures p.digest != "" ==> IsDigest(p.digest) && '@' !in p.digest
  {
    hide IsAtom, LegalSelector;
    if p.digest != "" {
      forall i | 0 <= i < |p.digest| ensures p.digest[i] != '@' {
        assert i < 7 ==> p.digest[i] == SHA256_PREFIX[i];
        assert i >= 7 ==> p.digest[7..][i - 7] == p.digest[i];
      }
    }
  }

  /* ---- What is refused, and how ---- */

  /** The parser on a path and what follows it behind an @. */
  lemma ParsePieces(path: Bytes, tail: Bytes)
    requires '@' !in path && '@' !in tail
    ensures |SCHEME + path| <= MAX_REF_LEN ==>
      Parse(SCHEME + path) ==
        if ParsePath(path, "").Ok? then Ok(RefOf(ParsePath(path, "").value)) else Err(ParsePath(path, "").error)
    ensures |SCHEME + path + "@" + tail| <= MAX_REF_LEN && tail != "" && !IsDigest(tail) ==>
      Parse(SCHEME + path + "@" + tail) == Err(E_DIGEST_FORMAT)
  {
    hide ParsePath, IndexByte, RefOf, IsDigest;
    assert (SCHEME + path)[|SCHEME|..] == path == path[..|path|];
    assert IndexByte(path, '@') == |path|;
    var rest := path + ['@'] + tail;
    IndexOfDelimiter(path, '@', tail);
    assert SCHEME + path + "@" + tail == SCHEME + rest && (SCHEME + rest)[|SCHEME|..] == rest;
    assert rest[|path| + 1..] == tail;
  }

  /** A reference that ends after ns/name selects nothing. */
  lemma NoSelectorRefused(ns: Bytes, name: Bytes)
    requires ValidNS(Lower(ns)) && ValidName(Lower(name))
    requires |SCHEME + (ns + "/" + name)| <= MAX_REF_LEN
    ensures Parse(SCHEME + (ns + "/" + name)) == Err(E_NO_SELECTOR)
  {
    hide IsAtom, IndexByte, Parse, Lower;
    AtomFree(ns, 64);
    AtomFree(name, 128);
    var path := ns + ['/'] + name;
    IndexOfDelimiter(ns, '/', name);
    assert path[..|path|] == path && path[..|ns|] == ns && path[|ns| + 1..] == name;
    assert IndexByte(path, ':') == |path|;
    ParsePieces(path, "");
  }

  /** A tag that looks like a digest or a quant is banned, whatever else the reference says. */
  lemma BannedTagRefused(ns: Bytes, name: Bytes, tag: Bytes, quant: Bytes)
    requires ValidNS(Lower(ns)) && ValidName(Lower(name)) && ValidTagShape(tag) && TagBanned(tag) && QuantSyntax(quant)
    requires |SCHEME + (ns + "/" + name + ":" + (tag + "+" + quant))| <= MAX_REF_LEN
    ensures Parse(SCHEME + (ns + "/" + name + ":" + (tag + "+" + quant))) == Err(E_TAG_BANNED)
  {
    hide IsAtom, IndexByte, Parse, Lower, ValidTagShape, TagBanned, QuantSyntax;
    AtomFree(ns, 64);
    AtomFree(name, 128);
    TagFree(tag);
    QuantFree(quant);
    var names, sel := ns + ['/'] + name, tag + ['+'] + quant;
    var path := names + [':'] + sel;
    IndexOfDelimiter(ns, '/', name);
    IndexOfDelimiter(names, ':', sel);
    IndexOfDelimiter(tag, '+', quant);
    assert names[..|ns|] == ns && names[|ns| + 1..] == name && path[..|names|] == names && path[|names| + 1..] == sel;
    assert sel[..|tag|] == tag;
    ParsePieces(path, "");
  }

  /** A suffix behind @ that is no digest is refused as one, and a longer input for its length. */
  lemma BadSuffixRefused(path: Bytes, tail: Bytes)
    requires '@' !in path && '@' !in tail && tail != "" && !IsDigest(tail)
    ensures Parse(SCHEME + path + "@" + tail) ==
      Err(if |SCHEME + path + "@" + tail| <= MAX_REF_LEN then E_DIGEST_FORMAT else E_LENGTH)
  {
    hide ParsePath, IndexByte, IsDigest;
    ParsePieces(path, tail);
  }

  /** The classes of characters. */
  lemma Classes(c: char)
    ensures LowerCase(c) <==> c in "abcdefghijklmnopqrstuvwxyz"
    ensures UpperCase(c) <==> c in "ABCDEFGHIJKLMNOPQRSTUVWXYZ"
    ensures IsDigit(c) <==> c in "0123456789"
    ensures IsHexDigit(c) <==> c in "0123456789abcdef"
  {
  }

  /** Whatever is accepted is a spelling of legal components. */
  lemma ParseSpelled(s: Bytes) returns (p: Parts)
    requires Parse(s).Ok?
    ensures s == Render(p) && Legal(Lowered(p)) && |s| <= MAX_REF_LEN && Parse(s) == Ok(RefOf(Lowered(p)))
  {
    hide ParsePath, Legal, PathText, RefOf, IsDigest, IndexByte, Lowered;
    var rest := s[|SCHEME|..];
    var i := IndexByte(rest, '@');
    p := PathSpelled(rest[..i], if i < |rest| then rest[i + 1..] else "");
    assert s == SCHEME + rest;
    assert i < |rest| ==> rest == rest[..i] + "@" + rest[i + 1..];
    assert i == |rest| ==> rest == rest[..i];
  }

  /** The parser accepts exactly the spellings of legal components that fit the length limit. */
  lemma ParseExact(s: Bytes)
    ensures Parse(s).Ok? <==> |s| <= MAX_REF_LEN && exists p :: Legal(Lowered(p)) && Render(p) == s
  {
    hide Parse, Legal, Render;
    if Parse(s).Ok? {
      var p := ParseSpelled(s);
    } else if p :| Legal(Lowered(p)) && Render(p) == s && |s| <= MAX_REF_LEN {
      ParseRendered(p);
    }
  }

  /** A reference's canonical form is never longer than 429 bytes, so the length check never rejects one. */
  lemma RenderShort(p: Parts)
    requires Legal(p)
    ensures |Render(p)| <= 429
  {
    var sel := p.sel;
    assert |SelText(sel)| <= 153;
    assert |p.digest| <= 71;
  }

  /** 429 is reached. */
  lemma LongestRef() returns (p: Parts)
    ensures Legal(p) && |Render(p)| == 429
  {
    var tag, quant := "T" + seq(127, _ => '.'), "q" + seq(23, _ => '8');
    p := Parts(seq(64, _ => 'n'), seq(128, _ => 'm'), TagSelector(tag, quant), SHA256_PREFIX + seq(64, _ => 'f'));
    assert IsDigit(quant[1]);
    assert Lower(tag)[0] == 't';
    assert Lower(tag)[1] == '.';
    assert p.digest[7..] == seq(64, _ => 'f');
  }

  lemma LoweredLegal(p: Parts)
    requires Legal(p)
    ensures Lowered(p) == p
  {
    LowerFixed(p.ns, 64);
    LowerFixed(p.name, 128);
  }

  /** The canonical form of what was accepted parses to the very same reference. */
  lemma CanonicalRoundTrip(s: Bytes)
    requires Parse(s).Ok?
    ensures Parse(Parse(s).value.canonical) == Parse(s)
  {
    hide Parse, Legal, Render;
    var p := ParseSpelled(s);
    var q := Lowered(p);
    RenderShort(q);
    LoweredLegal(q);
    ParseRendered(q);
  }

  /** Two legal tuples with one canonical form are the same tuple. */
  lemma RenderInjective(p: Parts, q: Parts)
    requires Legal(p) && Legal(q) && Render(p) == Render(q)
    ensures p == q
  {
    hide Parse, Legal, Render;
    RenderShort(p);
    LoweredLegal(p);
    LoweredLegal(q);
    ParseRendered(p);
    ParseRendered(q);
    SelectorSpelledOnce(p, q);
  }

  lemma SelectorSpelledOnce(p: Parts, q: Parts)
    requires Legal(p) && Legal(q) && RefOf(p) == RefOf(q)
    ensures p == q
  {
    hide ValidTagShape, TagBanned, IsAtom, QuantSyntax;
    if !p.sel.NoSelector? {
      SelectorAccepted(p.sel);
    }
    if !q.sel.NoSelector? {
      SelectorAccepted(q.sel);
    }
  }

  /* ---- Choosing an index member ---- */

  datatype Member = Member(quant: Bytes, manifest: Bytes)

  datatype Outcome = Nothing | Found(member: Member) | PinMismatch | NoMember | Ambiguous(candidates: seq<Bytes>)

  ghost predicate HasExact(members: seq<Member>, quant: Bytes) {
    exists i :: 0 <= i < |members| && members[i].quant == quant
  }

  /** The member a quant selects: the first exact one, else the only one it is a prefix of. */
  ghost predicate Picks(members: seq<Member>, quant: Bytes, i: nat) {
    i < |members| &&
    if HasExact(members, quant)
    then members[i].quant == quant && forall j :: 0 <= j < i ==> members[j].quant != quant
    else quant <= members[i].quant && forall j :: 0 <= j < |members| && j != i ==> !(quant <= members[j].quant)
  }

  /** The quants that extend the given one, in index order. */
  function Extending(members: seq<Member>, quant: Bytes): (c: seq<Bytes>)
    ensures forall x :: x in c <==> quant <= x && exists i :: 0 <= i < |members| && members[i].quant == x
  {
    if members == [] then []
    else
      var n := |members| - 1;
      var c := Extending(members[..n], quant);
      assert members == members[..n] + [members[n]];
      if quant <= members[n].quant then c + [members[n].quant] else c
  }

  /** Member i is the only one that extends the quant. */
  ghost predicate OnlyExtension(members: seq<Member>, quant: Bytes, i: nat) {
    i < |members| && quant <= members[i].quant &&
    forall j :: 0 <= j < |members| && j != i ==> !(quant <= members[j].quant)
  }

  lemma {:induction false} ExtendingNone(members: seq<Member>, quant: Bytes)
    ensures Extending(members, quant) == [] <==> forall i :: 0 <= i < |members| ==> !(quant <= members[i].quant)
  {
    if members != [] {
      var n := |members| - 1;
      ExtendingNone(members[..n], quant);
      assert forall j :: 0 <= j < n ==> members[..n][j] == members[j];
    }
  }

  lemma {:induction false} ExtendingOne(members: seq<Member>, quant: Bytes)
    ensures |Extending(members, quant)| == 1 <==> exists i :: OnlyExtension(members, quant, i)
  {
    if members != [] {
      var n := |members| - 1;
      var init := members[..n];
      ExtendingOne(init, quant);
      ExtendingNone(init, quant);
      assert forall j :: 0 <= j < n ==> init[j] == members[j];
      if quant <= members[n].quant {
        if Extending(init, quant) == [] {
          assert OnlyExtension(members, quant, n);
        }
      } else {
        assert forall i :: 0 <= i < n ==> (OnlyExtension(members, quant, i) <==> OnlyExtension(init, quant, i));
      }
    }
  }

  function CheckPin(digest: Bytes, m: Member): Outcome {
    if digest != "" && digest != m.manifest then PinMismatch else Found(m)
  }

  /** Resolve: an exact quant, or a unique extension of it, and then the pin. */
  method Resolve(quant: Bytes, digest: Bytes, members: seq<Member>) returns (out: Outcome)
    ensures out.Nothing? <==> quant == ""
    ensures quant != "" ==> match out
      case Nothing => false
      case Found(m) =>
        (digest == "" || digest == m.manifest) && exists i: nat :: Picks(members, quant, i) && members[i] == m
      case PinMismatch => exists i: nat :: Picks(members, quant, i) && digest != "" && digest != members[i].manifest
      case NoMember => forall i :: 0 <= i < |members| ==> !(quant <= members[i].quant)
      case Ambiguous(c) => && !HasExact(members, quant) && |c| > 1 && Sorting.SortedBy(Leq, c)
                           && multiset(c) == multiset(Extending(members, quant))
  {
    if quant == "" {
      return Nothing;
    }
    for i := 0 to |members|
      invariant forall j :: 0 <= j < i ==> members[j].quant != quant
    {
      if members[i].quant == quant {
        assert Picks(members, quant, i);
        return CheckPin(digest, members[i]);
      }
    }
    var candidates: seq<Bytes> := [];
    for i := 0 to |members|
      invariant candidates == Extending(members[..i], quant)
    {
      assert members[..i + 1][..i] == members[..i];
      if quant <= members[i].quant {
        candidates := candidates + [members[i].quant];
      }
    }
    assert members[..|members|] == members;
    ExtendingNone(members, quant);
    ExtendingOne(members, quant);
    if |candidates| == 0 {
      return NoMember;
    }
    if |candidates| == 1 {
      assert candidates[0] in candidates;
      for i := 0 to |members|
        invariant forall j :: 0 <= j < i ==> members[j].quant != candidates[0]
      {
        if members[i].quant == candidates[0] {
          ghost var k :| OnlyExtension(members, quant, k);
          assert i == k && Picks(members, quant, i);
          return CheckPin(digest, members[i]);
        }
      }
      assert false;
    }
    ByteOrder(candidates);
    Sorting.SortSorted(Leq, candidates);
    return Ambiguous(Sorting.Sort(Leq, candidates));
  }

  lemma ByteOrder(xs: seq<Bytes>)
    ensures Sorting.PreorderOn(Leq, xs)
  {
    forall x, y | x in xs && y in xs ensures Leq(x, y) || Leq(y, x) {
      LeqTotal(x, y);
    }
    forall x, y, z | x in xs && y in xs && z in xs && Leq(x, y) && Leq(y, z) ensures Leq(x, z) {
      LeqTrans(x, y, z);
    }
  }
}
