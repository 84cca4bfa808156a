/**
 The per-file hash tree of BitTorrent v2 (BEP 52): the root, and the piece layer that lies between
 the leaves and the root.  The loops halve a row of hashes; the specification splits the row in two.
 */
module Merkle {
  import opened Basics

  const BLOCK: nat := 16384

  /* ---- Powers of two ---- */

  function Pow2(k: nat): (p: nat)
    ensures p >= 1
  {
    if k == 0 then 1 else 2 * Pow2(k - 1)
  }

  lemma {:induction false} Pow2Add(j: nat, k: nat)
    ensures Pow2(j + k) == Pow2(j) * Pow2(k)
  {
    if j > 0 {
      Pow2Add(j - 1, k);
    }
  }

  lemma {:induction false} Pow2Mono(j: nat, k: nat)
    requires j <= k
    ensures Pow2(j) <= Pow2(k)
    ensures j < k ==> 2 * Pow2(j) <= Pow2(k)
  {
    if j < k {
      Pow2Mono(j, k - 1);
    }
  }

  /** The height of the smallest complete binary tree with at least n leaves. */
  function Height(n: int): (k: nat)
    ensures n <= Pow2(k)
  {
    if n <= 1 then 0 else 1 + Height((n + 1) / 2)
  }

  lemma {:induction false} HeightIsLeast(n: int, j: nat)
    ensures n <= Pow2(j) ==> Height(n) <= j
  {
    if n > 1 {
      HeightIsLeast((n + 1) / 2, if j > 0 then j - 1 else 0);
    }
  }

  /** nextPow2 returns the least power of two that is no smaller than n. */
  method NextPow2(n: int) returns (p: nat)
    ensures p == Pow2(Height(n))
    ensures n <= p && forall j: nat :: n <= Pow2(j) ==> p <= Pow2(j)
  {
    p := 1;
    ghost var k := 0;
    if n >= 1 {
      while p < n
        invariant p == Pow2(k)
        invariant k > 0 ==> Pow2(k - 1) < n
        decreases n - p
      {
        p := 2 * p;
        k := k + 1;
      }
    }
    HeightIsLeast(n, k);
    if Height(n) < k {
      Pow2Mono(Height(n), k - 1);
    }
    forall j: nat | n <= Pow2(j) ensures p <= Pow2(j) {
      HeightIsLeast(n, j);
      Pow2Mono(Height(n), j);
    }
  }

  /** x & y on non-negative integers. */
  function BitAnd(x: nat, y: nat): nat {
    if x == 0 || y == 0 then 0
    else (if x % 2 == 1 && y % 2 == 1 then 1 else 0) + 2 * BitAnd(x / 2, y / 2)
  }

  predicate IsPow2(n: int) {
    n == 1 || (n > 1 && n % 2 == 0 && IsPow2(n / 2))
  }

  lemma {:induction false} BitAndSelf(x: nat)
    ensures BitAnd(x, x) == x
  {
    if x > 0 {
      BitAndSelf(x / 2);
    }
  }

  /** n & (n-1) is zero exactly for the powers of two. */
  lemma {:induction false} PowerOfTwoTest(n: nat)
    requires n >= 1
    ensures BitAnd(n, n - 1) == 0 <==> IsPow2(n)
  {
    if n > 1 {
      if n % 2 == 0 {
        assert (n - 1) / 2 == n / 2 - 1;
        PowerOfTwoTest(n / 2);
      } else {
        assert (n - 1) / 2 == n / 2;
        BitAndSelf(n / 2);
      }
    }
  }

  lemma {:induction false} Pow2IsPow2(k: nat)
    ensures IsPow2(Pow2(k))
  {
    if k > 0 {
      Pow2IsPow2(k - 1);
    }
  }

  lemma {:induction false} IsPow2HasHeight(n: int)
    requires IsPow2(n)
    ensures Pow2(Height(n)) == n
  {
    if n > 1 {
      IsPow2HasHeight(n / 2);
      assert (n + 1) / 2 == n / 2;
    }
  }

  /* ---- Leaves ---- */

  function CeilDiv(n: nat, d: nat): nat
    requires d > 0
  {
    (n + d - 1) / d
  }

  lemma MulMono(a: int, b: int, d: nat)
    ensures a <= b ==> a * d <= b * d
  {
    if a <= b {
      assert (b - a) * d >= 0;
    }
  }

  lemma MulSwap(k: int, p: int, d: int)
    ensures k * (p * d) == (k * p) * d
  {
  }

  lemma DivIs(m: nat, d: nat, q: nat)
    requires d > 0 && q * d <= m < q * d + d
    ensures m / d == q
  {
    var r := m / d;
    assert m == r * d + m % d;
    MulMono(r + 1, q, d);
    MulMono(q + 1, r, d);
  }

  lemma CeilDivIs(n: nat, d: nat, q: nat)
    requires d > 0 && n <= q * d && (q > 0 ==> (q - 1) * d < n)
    ensures CeilDiv(n, d) == q
  {
    if q > 0 {
      assert q * d == (q - 1) * d + d;
    }
    DivIs(n + d - 1, d, q);
  }

  lemma CeilDivBounds(n: nat, d: nat)
    requires d > 0
    ensures n <= CeilDiv(n, d) * d
    ensures CeilDiv(n, d) > 0 ==> (CeilDiv(n, d) - 1) * d < n
  {
    var m := n + d - 1;
    assert m == (m / d) * d + m % d;
  }

  function BlockCount(data: Bytes): nat {
    CeilDiv(|data|, BLOCK)
  }

  function Block(data: Bytes, i: nat): Bytes
    requires i < BlockCount(data)
  {
    data[i * BLOCK..Min((i + 1) * BLOCK, |data|)]
  }

  function Leaves(h: Hasher, data: Bytes): (xs: seq<Digest>)
    ensures |xs| == BlockCount(data)
  {
    seq<Digest>(BlockCount(data), i requires 0 <= i < BlockCount(data) => h(Block(data, i)))
  }

  method MerkleLeaves(h: Hasher, data: Bytes) returns (leaves: seq<Digest>)
    ensures leaves == Leaves(h, data)
  {
    leaves := [];
    var off := 0;
    while off < |data|
      invariant off == |leaves| * BLOCK
      invariant |leaves| <= BlockCount(data)
      invariant leaves == Leaves(h, data)[..|leaves|]
    {
      var end := off + BLOCK;
      if end > |data| {
        end := |data|;
      }
      assert data[off..end] == Block(data, |leaves|);
      leaves := leaves + [h(data[off..end])];
      off := off + BLOCK;
    }
  }

  /* ---- The tree ---- */

  /** The 64 bytes hashed at an inner node. */
  function Both(left: Digest, right: Digest): Bytes {
    var l: Bytes, r: Bytes := left, right;
    l + r
  }

  /** The root of a complete tree of height k over the row xs: hash the roots of its two halves. */
  function Tree(h: Hasher, k: nat, xs: seq<Digest>): Digest
    requires |xs| == Pow2(k)
    decreases k
  {
    if k == 0 then xs[0]
    else h(Both(Tree(h, k - 1, xs[..Pow2(k - 1)]), Tree(h, k - 1, xs[Pow2(k - 1)..])))
  }

  /** xs filled up with z to width w. */
  function Pad(xs: seq<Digest>, z: Digest, w: nat): (ys: seq<Digest>)
    requires |xs| <= w
    ensures |ys| == w
  {
    xs + seq(w - |xs|, _ => z)
  }

  function Row(h: Hasher, data: Bytes): (xs: seq<Digest>)
    ensures |xs| == Pow2(Height(BlockCount(data)))
  {
    Pad(Leaves(h, data), ZERO, Pow2(Height(BlockCount(data))))
  }

  /** The root of a file: a complete tree over its padded leaves; the hash of nothing when empty. */
  function Root(h: Hasher, data: Bytes): Digest {
    if data == [] then h([]) else Tree(h, Height(BlockCount(data)), Row(h, data))
  }

  /** One turn of the halving loop. */
  function Halve(h: Hasher, xs: seq<Digest>): seq<Digest> {
    if |xs| < 2 then [] else [h(Both(xs[0], xs[1]))] + Halve(h, xs[2..])
  }

  lemma {:induction false} HalveAt(h: Hasher, xs: seq<Digest>, i: nat)
    ensures |Halve(h, xs)| == |xs| / 2
    ensures i < |xs| / 2 ==> Halve(h, xs)[i] == h(Both(xs[2 * i], xs[2 * i + 1]))
  {
    if |xs| >= 2 {
      HalveAt(h, xs[2..], if i > 0 then i - 1 else 0);
    }
  }

  /** The row after j turns. */
  function Level(h: Hasher, xs: seq<Digest>, j: nat): seq<Digest> {
    if j == 0 then xs else Halve(h, Level(h, xs, j - 1))
  }

  lemma {:induction false} LevelWidth(h: Hasher, xs: seq<Digest>, j: nat, m: nat)
    requires |xs| == Pow2(j + m)
    ensures |Level(h, xs, j)| == Pow2(m)
  {
    if j > 0 {
      LevelWidth(h, xs, j - 1, m + 1);
      HalveAt(h, Level(h, xs, j - 1), 0);
    }
  }

  lemma Doubled(i: nat, q: nat)
    ensures (2 * i) * q == i * (2 * q) && (2 * i + 1) * q == i * (2 * q) + q
  {
  }

  lemma TreeSplit(h: Hasher, k: nat, xs: seq<Digest>, left: seq<Digest>, right: seq<Digest>)
    requires k > 0 && |left| == |right| == Pow2(k - 1) && xs == left + right
    ensures Tree(h, k, xs) == h(Both(Tree(h, k - 1, left), Tree(h, k - 1, right)))
  {
    assert xs[..Pow2(k - 1)] == left && xs[Pow2(k - 1)..] == right;
  }

  /**
   What the halving loop holds: entry i after j turns is the root of the i-th run of p = 2^j leaves,
   which starts at lo.
   */
  lemma {:induction false} LevelEntry(h: Hasher, xs: seq<Digest>, j: nat, m: nat, i: nat, lo: nat, p: nat)
    requires |xs| == Pow2(j + m) && i < Pow2(m) && p == Pow2(j) && lo == i * p
    ensures lo + p <= |xs| && |Level(h, xs, j)| == Pow2(m)
    ensures Level(h, xs, j)[i] == Tree(h, j, xs[lo..lo + p])
    decreases j
  {
    hide Tree, Halve, Both, Level;
    RunFits(j, m, i, lo, p);
    LevelWidth(h, xs, j, m);
    if j == 0 {
      LevelZero(h, xs, i);
      assert p == 1 && lo == i;
    } else {
      var q := Pow2(j - 1);
      Doubled(i, q);
      LevelEntry(h, xs, j - 1, m + 1, 2 * i, lo, q);
      LevelEntry(h, xs, j - 1, m + 1, 2 * i + 1, lo + q, q);
      LevelStep(h, xs, j, i, lo, q);
    }
  }

  lemma LevelZero(h: Hasher, xs: seq<Digest>, i: nat)
    requires i < |xs|
    ensures i < |Level(h, xs, 0)| && Level(h, xs, 0)[i] == Tree(h, 0, xs[i..i + 1])
  {
  }

  lemma LevelStep(h: Hasher, xs: seq<Digest>, j: nat, i: nat, lo: nat, q: nat)
    requires j > 0 && q == Pow2(j - 1) && lo + q + q <= |xs| && 2 * i + 1 < |Level(h, xs, j - 1)|
    requires Level(h, xs, j - 1)[2 * i] == Tree(h, j - 1, xs[lo..lo + q])
    requires Level(h, xs, j - 1)[2 * i + 1] == Tree(h, j - 1, xs[lo + q..lo + q + q])
    ensures i < |Level(h, xs, j)| && Level(h, xs, j)[i] == Tree(h, j, xs[lo..lo + 2 * q])
  {
    HalveAt(h, Level(h, xs, j - 1), i);
    TreeOfRun(h, j, xs, lo, q);
  }

  lemma TreeOfRun(h: Hasher, j: nat, xs: seq<Digest>, lo: nat, q: nat)
    requires j > 0 && q == Pow2(j - 1) && lo + 2 * q <= |xs|
    ensures Tree(h, j, xs[lo..lo + 2 * q]) ==
            h(Both(Tree(h, j - 1, xs[lo..lo + q]), Tree(h, j - 1, xs[lo + q..lo + q + q])))
  {
    assert xs[lo..lo + 2 * q] == xs[lo..lo + q] + xs[lo + q..lo + q + q];
    TreeSplit(h, j, xs[lo..lo + 2 * q], xs[lo..lo + q], xs[lo + q..lo + q + q]);
  }

  lemma RunFits(j: nat, m: nat, i: nat, lo: nat, p: nat)
    requires i < Pow2(m) && p == Pow2(j) && lo == i * p
    ensures lo + p <= Pow2(j + m)
  {
    Pow2Add(m, j);
    MulMono(i + 1, Pow2(m), p);
  }

  lemma {:induction false} LevelCompose(h: Hasher, xs: seq<Digest>, j: nat, m: nat)
    ensures Level(h, Level(h, xs, j), m) == Level(h, xs, j + m)
  {
    if m > 0 {
      LevelCompose(h, xs, j, m - 1);
    }
  }

  lemma TreeIsLastLevel(h: Hasher, k: nat, xs: seq<Digest>)
    requires |xs| == Pow2(k)
    ensures Level(h, xs, k) == [Tree(h, k, xs)]
  {
    LevelEntry(h, xs, k, 0, 0, 0, Pow2(k));
    assert xs[0..Pow2(k)] == xs;
    assert Level(h, xs, k) == [Level(h, xs, k)[0]];
  }

  /** Folding any intermediate row gives the root of the whole tree. */
  lemma FoldLevel(h: Hasher, k: nat, xs: seq<Digest>, j: nat, m: nat, row: seq<Digest>)
    requires |xs| == Pow2(k) && j + m == k && row == Level(h, xs, j)
    ensures |row| == Pow2(m) && Tree(h, m, row) == Tree(h, k, xs)
  {
    LevelWidth(h, xs, j, m);
    LevelCompose(h, xs, j, m);
    TreeIsLastLevel(h, m, row);
    TreeIsLastLevel(h, k, xs);
  }

  method HalveRow(h: Hasher, level: seq<Digest>) returns (next: seq<Digest>)
    ensures next == Halve(h, level)
  {
    next := [];
    HalveAt(h, level, 0);
    for i := 0 to |level| / 2
      invariant |Halve(h, level)| == |level| / 2
      invariant next == Halve(h, level)[..i]
    {
      HalveAt(h, level, i);
      next := next + [h(Both(level[i * 2], level[i * 2 + 1]))];
    }
  }

  /** The halving loop that both MerkleRoot and PieceLayerHashes run. */
  method HalveTo(h: Hasher, row: seq<Digest>, target: nat, ghost turns: nat, ghost m: nat) returns (level: seq<Digest>)
    requires |row| == Pow2(turns + m) && target == Pow2(m)
    ensures level == Level(h, row, turns)
  {
    level := row;
    ghost var t: nat, left: nat := 0, turns;
    while |level| > target
      invariant t + left == turns && level == Level(h, row, t) && |level| == Pow2(left + m)
      decreases left
    {
      if left == 0 {
        assert false;
      }
      level := HalveRow(h, level);
      t, left := t + 1, left - 1;
      LevelWidth(h, row, t, left + m);
    }
    Pow2Mono(m, left + m);
  }

  /** MerkleRoot: the halving loop computes the recursive padded tree. */
  method MerkleRoot(h: Hasher, data: Bytes) returns (root: Digest)
    ensures root == Root(h, data)
  {
    var leaves := MerkleLeaves(h, data);
    if |leaves| == 0 {
      assert data == [];
      return h([]);
    }
    var n := |leaves|;
    var width := NextPow2(n);
    for i := n to width
      invariant leaves == Pad(Leaves(h, data), ZERO, i)
    {
      leaves := leaves + [ZERO];
    }
    leaves := HalveTo(h, leaves, 1, Height(n), 0);
    TreeIsLastLevel(h, Height(n), Row(h, data));
    root := leaves[0];
  }

  /* ---- The root, row by row ---- */

  /** node is the hash of 64 bytes: left, and then right. */
  ghost predicate Joins(h: Hasher, node: Digest, left: Digest, right: Digest) {
    exists b: Bytes :: |b| == 64 && b[..32] == left && b[32..] == right && h(b) == node
  }

  /** A row joins the one below it two by two. */
  ghost predicate Over(h: Hasher, row: seq<Digest>, below: seq<Digest>) {
    |below| == 2 * |row| && forall i :: 0 <= i < |row| ==> Joins(h, row[i], below[2 * i], below[2 * i + 1])
  }

  /** Each row joins the one below it, and the last holds the root alone. */
  ghost predicate Climbs(h: Hasher, rows: seq<seq<Digest>>, root: Digest) {
    && rows != [] && rows[|rows| - 1] == [root]
    && forall j :: 0 < j < |rows| ==> Over(h, rows[j], rows[j - 1])
  }

  lemma JoinsBoth(h: Hasher, left: Digest, right: Digest)
    ensures Joins(h, h(Both(left, right)), left, right)
  {
    assert Both(left, right)[..32] == left && Both(left, right)[32..] == right;
  }

  /** The rows of the halving loop climb from any row of hashes to the root of the tree over it. */
  lemma TreeClimbs(h: Hasher, k: nat, xs: seq<Digest>) returns (rows: seq<seq<Digest>>)
    requires |xs| == Pow2(k)
    ensures rows != [] && rows[0] == xs && Climbs(h, rows, Tree(h, k, xs))
  {
    hide Tree, Both, Halve, Joins;
    rows := seq(k + 1, j requires 0 <= j <= k => Level(h, xs, j));
    TreeIsLastLevel(h, k, xs);
    forall j | 0 < j < |rows| ensures Over(h, rows[j], rows[j - 1]) {
      LevelWidth(h, xs, j, k - j);
      LevelWidth(h, xs, j - 1, k - j + 1);
      HalvedIsOver(h, rows[j - 1]);
    }
  }

  lemma HalvedIsOver(h: Hasher, below: seq<Digest>)
    requires |below| % 2 == 0
    ensures Over(h, Halve(h, below), below)
  {
    hide Halve, Both, Joins;
    HalveAt(h, below, 0);
    forall i | 0 <= i < |Halve(h, below)| ensures Joins(h, Halve(h, below)[i], below[2 * i], below[2 * i + 1]) {
      HalveAt(h, below, i);
      JoinsBoth(h, below[2 * i], below[2 * i + 1]);
    }
  }

  /**
   What a root is: the hashes of the 16384-byte blocks, the last one possibly short, filled up with 32
   zero bytes to the least width that halves down to one, and then joined two by two, left before right.
   */
  lemma RootClimbs(h: Hasher, data: Bytes) returns (rows: seq<seq<Digest>>)
    requires data != []
    ensures rows != [] && Climbs(h, rows, Root(h, data))
    ensures |data| <= 16384 * |rows[0]| && (|rows[0]| > 1 ==> 16384 * (|rows[0]| / 2) < |data|)
    ensures forall i :: 0 <= i < |rows[0]| && 16384 * i < |data| ==>
      rows[0][i] == h(data[16384 * i..Min(16384 * (i + 1), |data|)])
    ensures forall i :: 0 <= i < |rows[0]| && 16384 * i >= |data| ==> rows[0][i] == seq(32, _ => '\0')
  {
    hide Tree, Climbs;
    var n := BlockCount(data);
    rows := TreeClimbs(h, Height(n), Row(h, data));
    LeastWidth(n);
    ZeroBytes();
    forall i | 0 <= i < |rows[0]| && 16384 * i < |data|
      ensures rows[0][i] == h(data[16384 * i..Min(16384 * (i + 1), |data|)])
    {
      assert rows[0][i] == h(Block(data, i));
    }
  }

  lemma ZeroBytes()
    ensures ZERO == seq(32, _ => '\0')
  {
    var z: Bytes := ZERO;
    assert |z| == 32;
  }

  lemma {:induction false} LeastWidth(n: int)
    ensures Height(n) > 0 ==> Pow2(Height(n)) < 2 * n
  {
    if n > 1 {
      LeastWidth((n + 1) / 2);
      if Height((n + 1) / 2) == 0 {
        assert n == 2;
      }
    }
  }

  /** An empty file, a single block, and two blocks. */
  lemma SmallRoots(h: Hasher, data: Bytes)
    ensures data == [] ==> Root(h, data) == h([])
    ensures 0 < |data| <= 16384 ==> Root(h, data) == h(data)
    ensures 16384 < |data| <= 32768 ==>
      Joins(h, Root(h, data), h(data[..16384]), h(data[16384..]))
  {
    hide Joins, Both;
    if 0 < |data| <= 16384 {
      assert BlockCount(data) == 1 && Block(data, 0) == data;
    } else if 16384 < |data| <= 32768 {
      assert BlockCount(data) == 2 && Block(data, 0) == data[..16384] && Block(data, 1) == data[16384..];
      var row := Row(h, data);
      assert row == [h(data[..16384]), h(data[16384..])];
      TreeSplit(h, 1, row, [row[0]], [row[1]]);
      JoinsBoth(h, row[0], row[1]);
    }
  }

  /* ---- Piece layers ---- */

  /** The row of hashes that each cover 2^j blocks, without those that cover only padding. */
  function PieceLayer(h: Hasher, data: Bytes, j: nat): seq<Digest> {
    var n := BlockCount(data);
    var k := Height(n);
    var row := Level(h, Row(h, data), Min(j, k));
    row[..Min(CeilDiv(n, Pow2(j)), |row|)]
  }

  /** int(pieceLength) / merkleBlockSize, which truncates toward zero. */
  function BlocksPerPiece(pieceLength: int): int {
    if pieceLength >= 0 then pieceLength / BLOCK else -(-pieceLength / BLOCK)
  }

  /** The width of the piece row: both widths are powers of two. */
  lemma WidthOverPiece(width: nat, p: nat, k: nat, j: nat)
    requires width == Pow2(k) && p == Pow2(j)
    ensures width / p == if j <= k then Pow2(k - j) else 0
  {
    if j <= k {
      var m := k - j;
      Pow2Add(m, j);
      DivIs(width, p, Pow2(m));
    } else {
      Pow2Mono(k, j);
      DivIs(width, p, 0);
    }
  }

  /** PieceLayerHashes; None is the panic on a piece length that is no power-of-two run of blocks. */
  method PieceLayerHashes(h: Hasher, data: Bytes, pieceLength: int) returns (out: Option<seq<Digest>>)
    ensures out.None? <==> !IsPow2(BlocksPerPiece(pieceLength))
    ensures out.Some? ==> out.value == PieceLayer(h, data, Height(BlocksPerPiece(pieceLength)))
  {
    var leaves := MerkleLeaves(h, data);
    var nBlocks := |leaves|;
    var width := NextPow2(nBlocks);
    var blocksPerPiece := BlocksPerPiece(pieceLength);
    if blocksPerPiece >= 1 {
      PowerOfTwoTest(blocksPerPiece);
    }
    if blocksPerPiece < 1 || BitAnd(blocksPerPiece, blocksPerPiece - 1) != 0 {
      return None;
    }
    ghost var k, j := Height(nBlocks), Height(blocksPerPiece);
    IsPow2HasHeight(blocksPerPiece);
    WidthOverPiece(width, blocksPerPiece, k, j);
    var target := width / blocksPerPiece;
    if target < 1 {
      target := 1;
    }
    var level := leaves;
    for i := nBlocks to width
      invariant level == Pad(leaves, ZERO, i)
    {
      level := level + [ZERO];
    }
    assert level == Row(h, data);
    level := HalveTo(h, level, target, Min(j, k), k - Min(j, k));
    var hashes := DropPadding(level, nBlocks, blocksPerPiece);
    out := Some(hashes);
  }

  /** The closing loop of PieceLayerHashes: keep the hashes that cover at least one block. */
  method DropPadding(level: seq<Digest>, nBlocks: nat, blocksPerPiece: nat) returns (out: seq<Digest>)
    requires blocksPerPiece > 0
    ensures out == level[..Min(CeilDiv(nBlocks, blocksPerPiece), |level|)]
  {
    out := [];
    ghost var count := Min(CeilDiv(nBlocks, blocksPerPiece), |level|);
    for i := 0 to |level|
      invariant out == level[..Min(i, count)]
    {
      KeepEntry(nBlocks, blocksPerPiece, i);
      if i * blocksPerPiece < nBlocks {
        out := out + [level[i]];
      }
    }
  }

  lemma KeepEntry(n: nat, d: nat, i: nat)
    requires d > 0
    ensures i * d < n <==> i < CeilDiv(n, d)
  {
    CeilDivBounds(n, d);
    var q := CeilDiv(n, d);
    if i < q {
      MulMono(i, q - 1, d);
    } else {
      MulMono(q, i, d);
    }
  }

  /** The bytes of piece i, the last one possibly short. */
  function Piece(data: Bytes, lo: nat, pieceLength: nat): Bytes
    requires lo <= |data|
  {
    data[lo..Min(lo + pieceLength, |data|)]
  }

  /** The root a piece has on its own: its leaves padded to the full width 2^j of a piece. */
  function PieceRoot(h: Hasher, piece: Bytes, j: nat): Digest
    requires BlockCount(piece) <= Pow2(j)
  {
    Tree(h, j, Pad(Leaves(h, piece), ZERO, Pow2(j)))
  }

  /** A full piece has the root of a file with its bytes. */
  lemma FullPieceRoot(h: Hasher, piece: Bytes, j: nat)
    requires |piece| == Pow2(j) * BLOCK
    ensures BlockCount(piece) <= Pow2(j) && PieceRoot(h, piece, j) == Root(h, piece)
  {
    hide Tree;
    CeilDivIs(|piece|, BLOCK, Pow2(j));
    HeightIsLeast(Pow2(j), j);
    if Height(Pow2(j)) < j {
      Pow2Mono(Height(Pow2(j)), j);
    }
  }

  function Zeros(w: nat): (xs: seq<Digest>)
    ensures |xs| == w
  {
    Pad([], ZERO, w)
  }

  lemma BlocksOfPiece(data: Bytes, lo: nat, p: nat, piece: Bytes)
    requires lo < BlockCount(data) && piece == Piece(data, lo * BLOCK, p * BLOCK)
    ensures BlockCount(piece) == Min(p, BlockCount(data) - lo)
    ensures forall t :: 0 <= t < BlockCount(piece) ==> Block(piece, t) == Block(data, lo + t)
  {
    assert |piece| == Min(p * BLOCK, |data| - lo * BLOCK);
    assert BlockCount(piece) == Min(p, BlockCount(data) - lo);
    forall t | 0 <= t < BlockCount(piece)
      ensures Block(piece, t) == Block(data, lo + t)
    {
      var a := lo * BLOCK + t * BLOCK;
      assert Block(data, lo + t) == data[a..Min(a + BLOCK, |data|)];
      assert Min((t + 1) * BLOCK, |piece|) == Min(a + BLOCK, |data|) - lo * BLOCK;
      SliceOfSlice(data, lo * BLOCK, lo * BLOCK + |piece|, t * BLOCK, Min((t + 1) * BLOCK, |piece|));
    }
  }

  lemma RunIsPieceRow(h: Hasher, data: Bytes, lo: nat, p: nat)
    requires lo < BlockCount(data) && lo + p <= |Row(h, data)|
    ensures BlockCount(Piece(data, lo * BLOCK, p * BLOCK)) <= p
    ensures Row(h, data)[lo..lo + p] == Pad(Leaves(h, Piece(data, lo * BLOCK, p * BLOCK)), ZERO, p)
  {
    BlocksOfPiece(data, lo, p, Piece(data, lo * BLOCK, p * BLOCK));
  }

  lemma RunIsZero(h: Hasher, data: Bytes, lo: nat, p: nat)
    requires BlockCount(data) <= lo && lo + p <= |Row(h, data)|
    ensures Row(h, data)[lo..lo + p] == Zeros(p)
  {
  }

  lemma PieceCount(data: Bytes, j: nat)
    ensures CeilDiv(|data|, Pow2(j) * BLOCK) == CeilDiv(BlockCount(data), Pow2(j))
  {
    var n, p := BlockCount(data), Pow2(j);
    var q := CeilDiv(n, p);
    CeilDivBounds(n, p);
    assert q * (p * BLOCK) == (q * p) * BLOCK;
    assert (q - 1) * (p * BLOCK) == ((q - 1) * p) * BLOCK;
    CeilDivIs(|data|, p * BLOCK, q);
  }

  /** A file longer than a piece has its piece layer strictly below the root. */
  lemma LayerBelowRoot(data: Bytes, j: nat)
    requires |data| > Pow2(j) * BLOCK
    ensures j < Height(BlockCount(data))
    ensures CeilDiv(BlockCount(data), Pow2(j)) <= Pow2(Height(BlockCount(data)) - j)
  {
    var n := BlockCount(data);
    var k := Height(n);
    if k <= j {
      Pow2Mono(k, j);
    }
    Pow2Add(k - j, j);
    CeilDivBounds(n, Pow2(j));
    MulMono(Pow2(k - j), CeilDiv(n, Pow2(j)) - 1, Pow2(j));
  }

  /**
   Entry i of the piece layer is the root of piece i's bytes alone (lo is the piece's first block),
   and the entries cut off are the roots of pure padding.
   */
  lemma LayerEntry(h: Hasher, data: Bytes, j: nat, i: nat, lo: nat, m: nat)
    requires |data| > Pow2(j) * BLOCK && lo == i * Pow2(j)
    requires j + m == Height(BlockCount(data)) && i < Pow2(m)
    ensures |Level(h, Row(h, data), j)| == Pow2(m)
    ensures lo < BlockCount(data) ==>
      var piece := Piece(data, lo * BLOCK, Pow2(j) * BLOCK);
      BlockCount(piece) <= Pow2(j) && Level(h, Row(h, data), j)[i] == PieceRoot(h, piece, j)
    ensures lo >= BlockCount(data) ==>
      Level(h, Row(h, data), j)[i] == Tree(h, j, Zeros(Pow2(j)))
  {
    LevelEntry(h, Row(h, data), j, m, i, lo, Pow2(j));
    if lo < BlockCount(data) {
      RunIsPieceRow(h, data, lo, Pow2(j));
    } else {
      RunIsZero(h, data, lo, Pow2(j));
    }
  }

  /** One hash for every piece, and hash i is the root of piece i's bytes alone. */
  lemma PieceLayerEntry(h: Hasher, data: Bytes, j: nat, i: nat, lo: nat)
    requires |data| > Pow2(j) * BLOCK && lo == i * Pow2(j)
    ensures |PieceLayer(h, data, j)| == CeilDiv(|data|, Pow2(j) * BLOCK)
    ensures i < |PieceLayer(h, data, j)| ==>
      lo < BlockCount(data) &&
      var piece := Piece(data, lo * BLOCK, Pow2(j) * BLOCK);
      BlockCount(piece) <= Pow2(j) && PieceLayer(h, data, j)[i] == PieceRoot(h, piece, j)
  {
    var m := Height(BlockCount(data)) - j;
    LayerBelowRoot(data, j);
    PieceCount(data, j);
    LevelWidth(h, Row(h, data), j, m);
    if i < |PieceLayer(h, data, j)| {
      KeepEntry(BlockCount(data), Pow2(j), i);
      LayerEntry(h, data, j, i, lo, m);
    }
  }

  lemma PaddingEntry(h: Hasher, data: Bytes, j: nat, i: nat, m: nat)
    requires |data| > Pow2(j) * BLOCK && j + m == Height(BlockCount(data))
    requires CeilDiv(BlockCount(data), Pow2(j)) <= i < Pow2(m)
    ensures |Level(h, Row(h, data), j)| == Pow2(m)
    ensures Level(h, Row(h, data), j)[i] == Tree(h, j, Zeros(Pow2(j)))
  {
    KeepEntry(BlockCount(data), Pow2(j), i);
    LayerEntry(h, data, j, i, i * Pow2(j), m);
  }

  /**
   The layer folds back to the root: fill it up with the hash of an all-zero subtree of the same
   height and reduce it pairwise.
   */
  lemma PieceLayerFoldsToRoot(h: Hasher, data: Bytes, j: nat, m: nat)
    requires |data| > Pow2(j) * BLOCK && j + m == Height(BlockCount(data))
    ensures |PieceLayer(h, data, j)| <= Pow2(m)
    ensures Tree(h, m, Pad(PieceLayer(h, data, j), Tree(h, j, Zeros(Pow2(j))), Pow2(m))) == Root(h, data)
  {
    hide Tree, Level, Row, Zeros, CeilDiv;
    LayerBelowRoot(data, j);
    var row, layer := Row(h, data), PieceLayer(h, data, j);
    var level := Level(h, row, j);
    LevelWidth(h, row, j, m);
    forall i | |layer| <= i < Pow2(m)
      ensures level[i] == Tree(h, j, Zeros(Pow2(j)))
    {
      PaddingEntry(h, data, j, i, m);
    }
    assert Pad(layer, Tree(h, j, Zeros(Pow2(j))), Pow2(m)) == level;
    FoldLevel(h, j + m, row, j, m, level);
  }

  /* ---- Binding ---- */

  /** Every byte string hashed at an inner node of the tree over xs. */
  ghost function NodeInputs(h: Hasher, k: nat, xs: seq<Digest>): set<Bytes>
    requires |xs| == Pow2(k)
    decreases k
  {
    if k == 0 then {}
    else
      var left, right := xs[..Pow2(k - 1)], xs[Pow2(k - 1)..];
      {Both(Tree(h, k - 1, left), Tree(h, k - 1, right))} +
      NodeInputs(h, k - 1, left) + NodeInputs(h, k - 1, right)
  }

  /** Every byte string hashed on the way from a file's content to its root. */
  ghost function RootInputs(h: Hasher, data: Bytes): set<Bytes> {
    (if data == [] then {[]} else NodeInputs(h, Height(BlockCount(data)), Row(h, data))) +
    set i | 0 <= i < BlockCount(data) :: Block(data, i)
  }

  lemma BothInjective(a: Digest, b: Digest, c: Digest, d: Digest)
    ensures Both(a, b) == Both(c, d) ==> a == c && b == d
  {
    assert Both(a, b)[..32] == a && Both(a, b)[32..] == b;
    assert Both(c, d)[..32] == c && Both(c, d)[32..] == d;
  }

  lemma NodeInputsSplit(h: Hasher, k: nat, xs: seq<Digest>, left: seq<Digest>, right: seq<Digest>)
    requires k > 0 && |left| == |right| == Pow2(k - 1) && xs == left + right
    ensures Both(Tree(h, k - 1, left), Tree(h, k - 1, right)) in NodeInputs(h, k, xs)
    ensures NodeInputs(h, k - 1, left) + NodeInputs(h, k - 1, right) <= NodeInputs(h, k, xs)
  {
    assert xs[..Pow2(k - 1)] == left && xs[Pow2(k - 1)..] == right;
  }

  ghost predicate CollisionIn(h: Hasher, xs: set<Bytes>, ys: set<Bytes>) {
    exists x, y :: x in xs && y in ys && Collides(h, x, y)
  }

  lemma CollisionMono(h: Hasher, xs: set<Bytes>, ys: set<Bytes>, xs': set<Bytes>, ys': set<Bytes>)
    requires xs <= xs' && ys <= ys' && CollisionIn(h, xs, ys)
    ensures CollisionIn(h, xs', ys')
  {
    var x, y :| x in xs && y in ys && Collides(h, x, y);
    assert x in xs' && y in ys';
  }

  /** Two rows with one root are the same row, or two inner nodes collide. */
  lemma {:induction false} TreeBinds(h: Hasher, k: nat, xs: seq<Digest>, ys: seq<Digest>)
    requires |xs| == |ys| == Pow2(k) && Tree(h, k, xs) == Tree(h, k, ys)
    ensures xs == ys || CollisionIn(h, NodeInputs(h, k, xs), NodeInputs(h, k, ys))
    decreases k, 1
  {
    if k == 0 {
      assert xs == [xs[0]] && ys == [ys[0]];
    } else {
      var p := Pow2(k - 1);
      NodeBinds(h, k - 1, xs[..p], xs[p..], ys[..p], ys[p..]);
      assert xs == xs[..p] + xs[p..] && ys == ys[..p] + ys[p..];
    }
  }

  lemma {:induction false} NodeBinds(h: Hasher, n: nat, a: seq<Digest>, b: seq<Digest>, c: seq<Digest>, d: seq<Digest>)
    requires |a| == |b| == |c| == |d| == Pow2(n) && Tree(h, n + 1, a + b) == Tree(h, n + 1, c + d)
    ensures (a == c && b == d) || CollisionIn(h, NodeInputs(h, n + 1, a + b), NodeInputs(h, n + 1, c + d))
    decreases n + 1, 0
  {
    TreeSplit(h, n + 1, a + b, a, b);
    TreeSplit(h, n + 1, c + d, c, d);
    NodeInputsSplit(h, n + 1, a + b, a, b);
    NodeInputsSplit(h, n + 1, c + d, c, d);
    var inAB, inCD := NodeInputs(h, n + 1, a + b), NodeInputs(h, n + 1, c + d);
    var x, y := Both(Tree(h, n, a), Tree(h, n, b)), Both(Tree(h, n, c), Tree(h, n, d));
    if x == y {
      BothInjective(Tree(h, n, a), Tree(h, n, b), Tree(h, n, c), Tree(h, n, d));
      TreeBinds(h, n, a, c);
      TreeBinds(h, n, b, d);
      if a != c {
        CollisionMono(h, NodeInputs(h, n, a), NodeInputs(h, n, c), inAB, inCD);
      } else if b != d {
        CollisionMono(h, NodeInputs(h, n, b), NodeInputs(h, n, d), inAB, inCD);
      }
    } else {
      assert Collides(h, x, y);
    }
  }

  /**
   The root binds the content: two files of one length and one root are equal, or two byte strings
   hashed on the way to the two roots collide.
   */
  lemma RootBinds(h: Hasher, a: Bytes, b: Bytes)
    requires |a| == |b| && Root(h, a) == Root(h, b)
    ensures a == b || CollisionIn(h, RootInputs(h, a), RootInputs(h, b))
  {
    if a != b {
      var i := DifferentBlock(a, b);
      assert Block(a, i) in RootInputs(h, a) && Block(b, i) in RootInputs(h, b);
      TreeBinds(h, Height(BlockCount(a)), Row(h, a), Row(h, b));
      if Row(h, a) == Row(h, b) {
        assert Row(h, a)[i] == h(Block(a, i)) && Row(h, b)[i] == h(Block(b, i));
        assert Collides(h, Block(a, i), Block(b, i));
      } else {
        CollisionMono(h, NodeInputs(h, Height(BlockCount(a)), Row(h, a)),
                      NodeInputs(h, Height(BlockCount(b)), Row(h, b)), RootInputs(h, a), RootInputs(h, b));
      }
    }
  }

  lemma DifferentBlock(a: Bytes, b: Bytes) returns (i: nat)
    requires |a| == |b| && a != b
    ensures i < BlockCount(a) && Block(a, i) != Block(b, i)
  {
    var t :| 0 <= t < |a| && a[t] != b[t];
    i := t / BLOCK;
    assert Block(a, i)[t - i * BLOCK] == a[t];
    assert Block(b, i)[t - i * BLOCK] == b[t];
  }
}
