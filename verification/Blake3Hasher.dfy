/** The incremental BLAKE3 hasher against the hash as a recursive left-balanced tree of chunks
    (section 5.1.2 of the BLAKE3 specification). The compression function is any function. */
module Blake3Hasher {
  import opened Naturals

  type Byte = bv8
  type Word = nat
  type Cv = s: seq<Word> | |s| == 8 witness seq(8, _ => 0)
  type Words16 = s: seq<Word> | |s| == 16 witness seq(16, _ => 0)

  const CHUNK_LEN: nat := 1024
  const BLOCK_LEN: nat := 64
  const CHUNK_START: bv8 := 1
  const CHUNK_END: bv8 := 2
  const PARENT: bv8 := 4
  const ROOT: bv8 := 8
  const DERIVE_KEY_CONTEXT: bv8 := 32
  const DERIVE_KEY_MATERIAL: bv8 := 64
  const IV: Cv := [0x6A09E667, 0xBB67AE85, 0x3C6EF372, 0xA54FF53A, 0x510E527F, 0x9B05688C, 0x1F83D9AB, 0x5BE0CD19]

  /** Chaining value, block, counter, block length and flags. */
  type Compression = (Cv, Words16, nat, nat, bv8) -> Words16

  /** What is fixed for one hash. */
  datatype Mode = Mode(compress: Compression, key: Cv, flags: bv8)

  datatype Output = Node(cv: Cv, words: Words16, counter: nat, blockLen: nat, flags: bv8)
  {
    function ChainingValue(f: Compression): Cv {
      f(cv, words, counter, blockLen, flags)[..8]
    }

    /** Block `i` of the output stream. */
    function RootWords(f: Compression, i: nat): Words16 {
      f(cv, words, i, blockLen, flags | ROOT)
    }
  }

  // ---------------------------------------------------------------- bytes and words

  function WordOf(b: seq<Byte>): Word
    requires |b| == 4
  {
    (b[0] as nat) + 0x100 * (b[1] as nat) + 0x1_0000 * (b[2] as nat) + 0x100_0000 * (b[3] as nat)
  }

  /** The little-endian words of a block. */
  function WordsOf(b: seq<Byte>): (w: Words16)
    requires |b| == BLOCK_LEN
  {
    seq(16, i requires 0 <= i < 16 => WordOf(b[4 * i..4 * i + 4]))
  }

  function BytesOf(w: Word): (b: seq<Byte>)
    ensures |b| == 4
  {
    [(w % 0x100) as Byte, (w / 0x100 % 0x100) as Byte, (w / 0x1_0000 % 0x100) as Byte, (w / 0x100_0000 % 0x100) as Byte]
  }

  // ---------------------------------------------------------------- one chunk

  function Min(a: nat, b: nat): nat { if a <= b then a else b }

  /** How many blocks are compressed before the last one, which stays in the buffer. */
  function FullBlocks(n: nat): nat {
    if n == 0 then 0 else (n - 1) / BLOCK_LEN
  }

  function StartFlag(blocks: nat): bv8 {
    if blocks == 0 then CHUNK_START else 0
  }

  /** The chaining value after the first `k` blocks of a chunk. */
  function ChunkCv(m: Mode, counter: nat, input: seq<Byte>, k: nat): Cv
    requires BLOCK_LEN * k <= |input|
  {
    if k == 0 then m.key
    else
      m.compress(ChunkCv(m, counter, input, k - 1), WordsOf(input[BLOCK_LEN * (k - 1)..BLOCK_LEN * k]),
                 counter, BLOCK_LEN, m.flags | StartFlag(k - 1))[..8]
  }

  function Padded(b: seq<Byte>): (p: seq<Byte>)
    requires |b| <= BLOCK_LEN
    ensures |p| == BLOCK_LEN
  {
    b + seq(BLOCK_LEN - |b|, _ => 0)
  }

  /** The output of a chunk with the given bytes. */
  function ChunkOutput(m: Mode, counter: nat, input: seq<Byte>): Output {
    var k := FullBlocks(|input|);
    Node(ChunkCv(m, counter, input, k), WordsOf(Padded(input[BLOCK_LEN * k..])), counter,
           |input| - BLOCK_LEN * k, m.flags | StartFlag(k) | CHUNK_END)
  }

  lemma {:induction false} ChunkCvPrefix(m: Mode, counter: nat, input: seq<Byte>, more: seq<Byte>, k: nat)
    requires BLOCK_LEN * k <= |input|
    ensures ChunkCv(m, counter, input + more, k) == ChunkCv(m, counter, input, k)
  {
    if k > 0 {
      ChunkCvPrefix(m, counter, input, more, k - 1);
      assert (input + more)[BLOCK_LEN * (k - 1)..BLOCK_LEN * k] == input[BLOCK_LEN * (k - 1)..BLOCK_LEN * k];
    }
  }

  class ChunkState {
    var chainingValue: Cv
    var chunkCounter: nat
    var block: seq<Byte>
    var blockLen: nat
    var blocksCompressed: nat
    const flags: bv8
    const mode: Mode
    ghost var input: seq<Byte>

    /** The fields fit the bytes received. */
    ghost predicate Fits()
      reads this
    {
      && flags == mode.flags && BLOCK_LEN * blocksCompressed <= |input|
      && blockLen == |input| - BLOCK_LEN * blocksCompressed && blockLen <= BLOCK_LEN
      && block == Padded(input[BLOCK_LEN * blocksCompressed..])
      && chainingValue == ChunkCv(mode, chunkCounter, input, blocksCompressed)
    }

    /** Between calls a full block waits in the buffer, so every field is determined. */
    ghost predicate Valid()
      reads this
    {
      Fits() && blocksCompressed == FullBlocks(|input|)
    }

    constructor (m: Mode, chunkCounter: nat)
      ensures Valid() && input == [] && mode == m && this.chunkCounter == chunkCounter
    {
      chainingValue, this.chunkCounter, block, blockLen := m.key, chunkCounter, seq(BLOCK_LEN, _ => 0), 0;
      blocksCompressed, flags, mode, input := 0, m.flags, m, [];
    }

    function Len(): (n: nat)
      reads this
      ensures Valid() ==> n == |input|
    {
      BLOCK_LEN * blocksCompressed + blockLen
    }

    method Update(bytes: seq<Byte>)
      requires Valid()
      modifies this
      ensures Valid() && input == old(input) + bytes && chunkCounter == old(chunkCounter)
    {
      var rest := bytes;
      assert input + [] == input;
      while rest != []
        invariant Valid() && chunkCounter == old(chunkCounter) && input + rest == old(input) + bytes
        decreases |rest|
      {
        if blockLen == BLOCK_LEN {
          FlushBlock();
        }
        var take := Min(BLOCK_LEN - blockLen, |rest|);
        CopyBytes(rest[..take]);
        assert old(input) + bytes == input + rest[take..];
        rest := rest[take..];
      }
      assert input + rest == input;
    }

    /** Compresses the full buffer; more input is coming. */
    method FlushBlock()
      requires Fits() && blockLen == BLOCK_LEN
      modifies this
      ensures Fits() && blockLen == 0 && input == old(input) && chunkCounter == old(chunkCounter)
    {
      assert block == input[BLOCK_LEN * blocksCompressed..] ==
             input[BLOCK_LEN * blocksCompressed..BLOCK_LEN * (blocksCompressed + 1)];
      chainingValue :=
        mode.compress(chainingValue, WordsOf(block), chunkCounter, BLOCK_LEN, flags | StartFlag(blocksCompressed))[..8];
      blocksCompressed := blocksCompressed + 1;
      block := seq(BLOCK_LEN, _ => 0);
      blockLen := 0;
      assert block == Padded(input[BLOCK_LEN * blocksCompressed..]);
    }

    /** Copies bytes to the buffer, which has room for them. */
    method CopyBytes(b: seq<Byte>)
      requires Fits() && b != [] && blockLen + |b| <= BLOCK_LEN
      modifies this
      ensures Valid() && input == old(input) + b && chunkCounter == old(chunkCounter)
    {
      ChunkCvPrefix(mode, chunkCounter, input, b, blocksCompressed);
      ghost var tail := input[BLOCK_LEN * blocksCompressed..];
      block := block[..blockLen] + b + block[blockLen + |b|..];
      blockLen := blockLen + |b|;
      input := input + b;
      assert input[BLOCK_LEN * blocksCompressed..] == tail + b;
      assert block == Padded(tail + b);
    }

    function Output(): (o: Output)
      requires Valid()
      reads this
      ensures o == ChunkOutput(mode, chunkCounter, input)
    {
      Node(chainingValue, WordsOf(block), chunkCounter, blockLen, flags | StartFlag(blocksCompressed) | CHUNK_END)
    }
  }

  // ---------------------------------------------------------------- the tree

  /** The largest power of two below `n`: how many chunks the left subtree has. */
  function LeftSize(n: nat): (p: nat)
    requires n >= 2
    ensures p < n <= 2 * p
  {
    if n == 2 then 1 else 2 * LeftSize((n + 1) / 2)
  }

  lemma {:induction false} LeftSizeIs(k: nat, r: nat)
    requires 1 <= r <= Pow2(k)
    ensures LeftSize(Pow2(k) + r) == Pow2(k)
  {
    if k > 0 {
      var n := Pow2(k) + r;
      assert (n + 1) / 2 == Pow2(k - 1) + (r + 1) / 2;
      LeftSizeIs(k - 1, (r + 1) / 2);
    }
  }

  lemma {:induction false} LeftSizeIsPower(n: nat) returns (k: nat)
    requires n >= 2
    ensures LeftSize(n) == Pow2(k)
  {
    if n == 2 {
      k := 0;
    } else {
      var j := LeftSizeIsPower((n + 1) / 2);
      k := j + 1;
    }
  }

  /** An input of no bytes is one empty chunk. */
  function ChunkCount(n: nat): (c: nat)
    ensures c >= 1
  {
    if n == 0 then 1 else (n - 1) / CHUNK_LEN + 1
  }

  function Chunk(input: seq<Byte>, i: nat): (c: seq<Byte>)
    ensures |c| <= CHUNK_LEN
  {
    if CHUNK_LEN * i > |input| then [] else input[CHUNK_LEN * i..Min(CHUNK_LEN * (i + 1), |input|)]
  }

  function ParentOutput(m: Mode, left: Cv, right: Cv): Output {
    Node(m.key, left + right, 0, BLOCK_LEN, PARENT | m.flags)
  }

  function ParentCv(m: Mode, left: Cv, right: Cv): Cv {
    ParentOutput(m, left, right).ChainingValue(m.compress)
  }

  /** The subtree over the `n` chunks from chunk `lo`. */
  function Subtree(m: Mode, input: seq<Byte>, lo: nat, n: nat): Output
    requires n >= 1
    decreases n, 0
  {
    if n == 1 then ChunkOutput(m, lo, Chunk(input, lo))
    else
      var p := LeftSize(n);
      ParentOutput(m, SubtreeCv(m, input, lo, p), SubtreeCv(m, input, lo + p, n - p))
  }

  function SubtreeCv(m: Mode, input: seq<Byte>, lo: nat, n: nat): Cv
    requires n >= 1
    decreases n, 1
  {
    Subtree(m, input, lo, n).ChainingValue(m.compress)
  }

  /** The root of the whole tree. */
  function Root(m: Mode, input: seq<Byte>): Output {
    Subtree(m, input, 0, ChunkCount(|input|))
  }

  // The same tree as a shape: where the chunks lie, and what is compressed at a fork.

  datatype Tree = Leaf(chunk: nat) | Fork(left: Tree, right: Tree)

  /** The chunks of a tree from left to right. */
  function Leaves(t: Tree): (s: seq<nat>)
    ensures |s| >= 1
  {
    match t
    case Leaf(i) => [i]
    case Fork(l, r) => Leaves(l) + Leaves(r)
  }

  /** Every node in between has a full left subtree that is no smaller than the right one. */
  ghost predicate LeftBalanced(t: Tree) {
    match t
    case Leaf(_) => true
    case Fork(l, r) => Perfect(l) && LeftBalanced(r) && |Leaves(r)| <= |Leaves(l)|
  }

  ghost predicate Perfect(t: Tree) {
    match t
    case Leaf(_) => true
    case Fork(l, r) => Perfect(l) && Perfect(r) && |Leaves(l)| == |Leaves(r)|
  }

  /** The block of a fork: first the words of the left value, then those of the right one. */
  function ForkBlock(l: Cv, r: Cv): (b: Words16)
    ensures forall i: nat :: i < 8 ==> b[i] == l[i] && b[8 + i] == r[i]
  {
    seq(16, i requires 0 <= i < 16 => if i < 8 then l[i] else r[i - 8])
  }

  function ValueOf(m: Mode, input: seq<Byte>, t: Tree): Cv {
    match t
    case Leaf(i) => ChunkOutput(m, i, Chunk(input, i)).ChainingValue(m.compress)
    case Fork(l, r) =>
      m.compress(m.key, ForkBlock(ValueOf(m, input, l), ValueOf(m, input, r)), 0, 64, 4 | m.flags)[..8]
  }

  function Shape(lo: nat, n: nat): Tree
    requires n >= 1
    decreases n
  {
    if n == 1 then Leaf(lo) else Fork(Shape(lo, LeftSize(n)), Shape(lo + LeftSize(n), n - LeftSize(n)))
  }

  /** The leaves of the tree are its chunks, in order. */
  lemma {:induction false} LeavesInOrder(lo: nat, n: nat)
    requires n >= 1
    ensures |Leaves(Shape(lo, n))| == n && forall i: nat :: i < n ==> Leaves(Shape(lo, n))[i] == lo + i
    decreases n
  {
    if n > 1 {
      LeavesInOrder(lo, LeftSize(n));
      LeavesInOrder(lo + LeftSize(n), n - LeftSize(n));
    }
  }

  lemma LeavesCount(lo: nat, n: nat)
    requires n >= 1
    ensures |Leaves(Shape(lo, n))| == n
  {
    hide Shape, Leaves;
    LeavesInOrder(lo, n);
  }

  lemma ShapeSplits(lo: nat, n: nat, p: nat)
    requires n >= 2 && p == LeftSize(n)
    ensures Shape(lo, n) == Fork(Shape(lo, p), Shape(lo + p, n - p))
  {
  }

  lemma PowerSplits(k: nat, p: nat)
    requires k > 0 && p == Pow2(k - 1)
    ensures Pow2(k) == p + p && p >= 1 && LeftSize(p + p) == p
  {
    LeftSizeIs(k - 1, p);
  }

  lemma ForkShape(l: Tree, r: Tree)
    requires Perfect(l)
    ensures Perfect(r) && |Leaves(l)| == |Leaves(r)| ==> Perfect(Fork(l, r))
    ensures LeftBalanced(r) && |Leaves(r)| <= |Leaves(l)| ==> LeftBalanced(Fork(l, r))
  {
  }

  lemma OneLeaf(lo: nat)
    ensures Perfect(Shape(lo, 1)) && LeftBalanced(Shape(lo, 1)) && Pow2(0) == 1
  {
    assert Shape(lo, 1) == Leaf(lo);
  }

  lemma {:induction false} ShapePerfect(lo: nat, k: nat, n: nat)
    requires n == Pow2(k)
    ensures Perfect(Shape(lo, n))
    decreases k
  {
    hide Shape, Perfect, LeftBalanced, Leaves, Pow2, LeftSize;
    OneLeaf(lo);
    if k > 0 {
      var p := Pow2(k - 1);
      PowerSplits(k, p);
      ShapeSplits(lo, n, p);
      ShapePerfect(lo, k - 1, p);
      ShapePerfect(lo + p, k - 1, p);
      LeavesCount(lo, p);
      LeavesCount(lo + p, p);
      ForkShape(Shape(lo, p), Shape(lo + p, p));
    }
  }

  lemma {:induction false} ShapeBalanced(lo: nat, n: nat)
    requires n >= 1
    ensures LeftBalanced(Shape(lo, n))
    decreases n
  {
    hide Shape, Perfect, LeftBalanced, Leaves, Pow2, LeftSize;
    OneLeaf(lo);
    if n > 1 {
      var p := LeftSize(n);
      var k := LeftSizeIsPower(n);
      ShapeSplits(lo, n, p);
      ShapePerfect(lo, k, p);
      ShapeBalanced(lo + p, n - p);
      LeavesCount(lo, p);
      LeavesCount(lo + p, n - p);
      ForkShape(Shape(lo, p), Shape(lo + p, n - p));
    }
  }

  lemma BlockIs(m: Mode, l: Cv, r: Cv)
    ensures ParentOutput(m, l, r).words == ForkBlock(l, r)
  {
  }

  lemma ValueOfFork(m: Mode, input: seq<Byte>, l: Tree, r: Tree)
    ensures ValueOf(m, input, Fork(l, r)) == ParentCv(m, ValueOf(m, input, l), ValueOf(m, input, r))
  {
    BlockIs(m, ValueOf(m, input, l), ValueOf(m, input, r));
  }

  lemma ValueOfLeaf(m: Mode, input: seq<Byte>, lo: nat)
    ensures ValueOf(m, input, Shape(lo, 1)) == SubtreeCv(m, input, lo, 1)
  {
  }

  lemma SubtreeCvSplits(m: Mode, input: seq<Byte>, lo: nat, n: nat, p: nat)
    requires n >= 2 && p == LeftSize(n)
    ensures SubtreeCv(m, input, lo, n) == ParentCv(m, SubtreeCv(m, input, lo, p), SubtreeCv(m, input, lo + p, n - p))
  {
  }

  lemma {:induction false} SubtreeValue(m: Mode, input: seq<Byte>, lo: nat, n: nat)
    requires n >= 1
    ensures SubtreeCv(m, input, lo, n) == ValueOf(m, input, Shape(lo, n))
    decreases n
  {
    hide Shape, ValueOf, SubtreeCv, ParentCv, LeftSize;
    if n == 1 {
      ValueOfLeaf(m, input, lo);
    } else {
      var p := LeftSize(n);
      SubtreeValue(m, input, lo, p);
      SubtreeValue(m, input, lo + p, n - p);
      ShapeSplits(lo, n, p);
      SubtreeCvSplits(m, input, lo, n, p);
      ValueOfFork(m, input, Shape(lo, p), Shape(lo + p, n - p));
    }
  }

  /** The hash of a stretch of chunks is the value of the left-balanced tree whose leaves are those chunks in order. */
  lemma SubtreeShape(m: Mode, input: seq<Byte>, lo: nat, n: nat)
    requires n >= 1
    ensures |Leaves(Shape(lo, n))| == n && forall i: nat :: i < n ==> Leaves(Shape(lo, n))[i] == lo + i
    ensures LeftBalanced(Shape(lo, n)) && SubtreeCv(m, input, lo, n) == ValueOf(m, input, Shape(lo, n))
  {
    hide Shape, ValueOf, SubtreeCv, LeftBalanced, Leaves;
    LeavesInOrder(lo, n);
    ShapeBalanced(lo, n);
    SubtreeValue(m, input, lo, n);
  }

  /** The roots of the perfect subtrees in the binary expansion of `t`, in units of 2^k chunks,
      the largest first. */
  function Peaks(m: Mode, input: seq<Byte>, t: nat, k: nat): seq<Cv>
    decreases t
  {
    if t == 0 then []
    else if t % 2 == 0 then Peaks(m, input, t / 2, k + 1)
    else Peaks(m, input, t / 2, k + 1) + [SubtreeCv(m, input, (t - 1) * Pow2(k), Pow2(k))]
  }

  lemma PeaksNeed(t: nat, k: nat)
    requires t >= 1
    ensures t / 2 * Pow2(k + 1) == (t - t % 2) * Pow2(k) <= t * Pow2(k)
    ensures t % 2 == 1 ==> (t - 1) * Pow2(k) + Pow2(k) == t * Pow2(k)
  {
    var p := Pow2(k);
    assert t / 2 * (2 * p) == (2 * (t / 2)) * p == (t - t % 2) * p;
    assert t * p - (t - t % 2) * p == (t % 2) * p;
  }

  /** Folding the right edge of the tree: the current output under the entries of the stack. */
  function Fold(m: Mode, stack: seq<Cv>, n: nat, right: Output): Output
    requires n <= |stack|
    decreases n
  {
    if n == 0 then right
    else Fold(m, stack, n - 1, ParentOutput(m, stack[n - 1], right.ChainingValue(m.compress)))
  }

  lemma {:induction false} FoldPrefix(m: Mode, s: seq<Cv>, t: seq<Cv>, n: nat, right: Output)
    requires n <= |s|
    ensures Fold(m, s + t, n, right) == Fold(m, s, n, right)
    decreases n
  {
    if n > 0 {
      FoldPrefix(m, s, t, n - 1, ParentOutput(m, s[n - 1], right.ChainingValue(m.compress)));
    }
  }

  lemma SubtreeSplits(m: Mode, input: seq<Byte>, lo: nat, n: nat, p: nat)
    requires n >= 2 && p == LeftSize(n)
    ensures Subtree(m, input, lo, n) ==
            ParentOutput(m, SubtreeCv(m, input, lo, p), SubtreeCv(m, input, lo + p, n - p))
  {
    hide SubtreeCv, ParentOutput, LeftSize;
  }

  lemma SubtreeLeaf(m: Mode, input: seq<Byte>, lo: nat)
    ensures Subtree(m, input, lo, 1) == ChunkOutput(m, lo, Chunk(input, lo))
  {
  }

  /** A finished subtree does not depend on what follows. */
  lemma {:induction false} SubtreePrefix(m: Mode, input: seq<Byte>, more: seq<Byte>, lo: nat, n: nat)
    requires n >= 1 && CHUNK_LEN * (lo + n) <= |input|
    ensures Subtree(m, input + more, lo, n) == Subtree(m, input, lo, n)
    decreases n
  {
    hide Subtree, ParentOutput;
    if n == 1 {
      SubtreeLeaf(m, input, lo);
      SubtreeLeaf(m, input + more, lo);
      assert Chunk(input + more, lo) == Chunk(input, lo);
    } else {
      var p := LeftSize(n);
      SubtreeSplits(m, input, lo, n, p);
      SubtreeSplits(m, input + more, lo, n, p);
      SubtreePrefix(m, input, more, lo, p);
      SubtreePrefix(m, input, more, lo + p, n - p);
    }
  }

  /** A perfect subtree and at most as many chunks right of it form one subtree. */
  lemma PeakJoin(m: Mode, input: seq<Byte>, lo: nat, k: nat, r: nat)
    requires 1 <= r <= Pow2(k)
    ensures Subtree(m, input, lo, Pow2(k) + r) ==
            ParentOutput(m, SubtreeCv(m, input, lo, Pow2(k)), SubtreeCv(m, input, lo + Pow2(k), r))
  {
    hide Subtree, SubtreeCv, ParentOutput, LeftSize, Pow2;
    LeftSizeIs(k, r);
    SubtreeSplits(m, input, lo, Pow2(k) + r, Pow2(k));
  }

  lemma FoldTop(m: Mode, s: seq<Cv>, x: Cv, right: Output)
    ensures Fold(m, s + [x], |s + [x]|, right) ==
            Fold(m, s, |s|, ParentOutput(m, x, right.ChainingValue(m.compress)))
  {
    FoldPrefix(m, s, [x], |s|, ParentOutput(m, x, right.ChainingValue(m.compress)));
  }

  lemma PeaksUnfold(m: Mode, input: seq<Byte>, t: nat, k: nat, lo: nat)
    requires t > 0 && lo == t * Pow2(k)
    ensures t % 2 == 0 ==> lo == t / 2 * Pow2(k + 1) && Peaks(m, input, t, k) == Peaks(m, input, t / 2, k + 1)
    ensures t % 2 == 1 ==> lo - Pow2(k) == t / 2 * Pow2(k + 1)
    ensures t % 2 == 1 ==>
              Peaks(m, input, t, k) == Peaks(m, input, t / 2, k + 1) + [SubtreeCv(m, input, lo - Pow2(k), Pow2(k))]
  {
    hide Subtree, SubtreeCv;
    PeaksNeed(t, k);
    assert t % 2 == 1 ==> (t - 1) * Pow2(k) == lo - Pow2(k);
  }

  /** More input does not change the finished subtrees. */
  lemma {:induction false} PeaksPrefix(m: Mode, input: seq<Byte>, more: seq<Byte>, t: nat, k: nat, lo: nat)
    requires lo == t * Pow2(k) && CHUNK_LEN * lo <= |input|
    ensures Peaks(m, input + more, t, k) == Peaks(m, input, t, k)
    decreases t
  {
    hide Peaks, Subtree, Pow2;
    if t == 0 {
      PeaksNone(m, input, k, Root(m, input));
      PeaksNone(m, input + more, k, Root(m, input));
    } else {
      PeaksUnfold(m, input, t, k, lo);
      PeaksUnfold(m, input + more, t, k, lo);
      if t % 2 == 0 {
        PeaksPrefix(m, input, more, t / 2, k + 1, lo);
      } else {
        PeaksPrefix(m, input, more, t / 2, k + 1, lo - Pow2(k));
        SubtreePrefix(m, input, more, lo - Pow2(k), Pow2(k));
      }
    }
  }

  lemma PeaksNone(m: Mode, input: seq<Byte>, k: nat, right: Output)
    ensures 0 * Pow2(k) == 0 && Peaks(m, input, 0, k) == [] && Fold(m, [], 0, right) == right
  {
  }

  /** The stack and what stands right of it make up the tree. */
  lemma {:induction false} PeaksFold(m: Mode, input: seq<Byte>, t: nat, k: nat, r: nat, lo: nat)
    requires lo == t * Pow2(k) && 1 <= r <= Pow2(k)
    ensures Fold(m, Peaks(m, input, t, k), |Peaks(m, input, t, k)|, Subtree(m, input, lo, r)) ==
            Subtree(m, input, 0, lo + r)
    decreases t
  {
    hide Peaks, Subtree, SubtreeCv, Fold, ParentOutput;
    if t == 0 {
      PeaksNone(m, input, k, Subtree(m, input, lo, r));
    } else {
      PeaksUnfold(m, input, t, k, lo);
      assert Pow2(k + 1) == 2 * Pow2(k);
      if t % 2 == 0 {
        PeaksFold(m, input, t / 2, k + 1, r, lo);
      } else {
        var p := Pow2(k);
        FoldJoined(m, input, Peaks(m, input, t / 2, k + 1), lo - p, k, r);
        PeaksFold(m, input, t / 2, k + 1, p + r, lo - p);
      }
    }
  }

  lemma FoldJoined(m: Mode, input: seq<Byte>, s: seq<Cv>, lo: nat, k: nat, r: nat)
    requires 1 <= r <= Pow2(k)
    ensures var t := s + [SubtreeCv(m, input, lo, Pow2(k))];
            Fold(m, t, |t|, Subtree(m, input, lo + Pow2(k), r)) == Fold(m, s, |s|, Subtree(m, input, lo, Pow2(k) + r))
  {
    hide Subtree, Fold, ParentOutput, Pow2;
    PeakJoin(m, input, lo, k, r);
    FoldTop(m, s, SubtreeCv(m, input, lo, Pow2(k)), Subtree(m, input, lo + Pow2(k), r));
  }

  // ---------------------------------------------------------------- merging a finished chunk

  lemma MergeStart(total: nat)
    requires total >= 1
    ensures Pow2(0) == 1 && (total - 1) * Pow2(0) == total - 1
  {
  }

  lemma OneUnit(t: nat)
    ensures Pow2(0) == 1 && t * Pow2(0) == t
  {
  }

  lemma MergeNumbers(total: nat, p: nat, lo: nat)
    requires total >= 1 && lo == (total - 1) * p
    ensures total * p == lo + p
    ensures total % 2 == 0 ==> lo >= p && lo - p == (total / 2 - 1) * (2 * p) && (total - 1) / 2 == total / 2 - 1
  {
    if total % 2 == 0 {
      assert lo - p == (total - 2) * p;
      assert (total / 2 - 1) * (2 * p) == (2 * (total / 2 - 1)) * p;
    }
  }

  lemma MergePeaks(m: Mode, input: seq<Byte>, total: nat, k: nat, lo: nat, p: nat)
    requires total >= 1 && total % 2 == 0 && p == Pow2(k) && lo == (total - 1) * p
    ensures lo >= p && Peaks(m, input, total, k) == Peaks(m, input, total / 2, k + 1)
    ensures Peaks(m, input, total - 1, k) == Peaks(m, input, total / 2 - 1, k + 1) + [SubtreeCv(m, input, lo - p, p)]
  {
    hide Peaks, Subtree, Pow2, SubtreeCv;
    MergeNumbers(total, p, lo);
    PeaksUnfold(m, input, total - 1, k, lo);
    PeaksUnfold(m, input, total, k, lo + p);
  }

  lemma MergeJoin(m: Mode, input: seq<Byte>, k: nat, lo: nat, p: nat)
    requires p == Pow2(k) && lo >= p
    ensures Pow2(k + 1) == 2 * p
    ensures ParentCv(m, SubtreeCv(m, input, lo - p, p), SubtreeCv(m, input, lo, p)) ==
            SubtreeCv(m, input, lo - p, Pow2(k + 1))
  {
    assert Pow2(k + 1) == 2 * p;
    hide Subtree, Pow2, ParentOutput;
    PeakJoin(m, input, lo - p, k, p);
  }

  /** Of an even number of units the last two are joined. */
  lemma MergeStep(m: Mode, input: seq<Byte>, total: nat, k: nat, lo: nat, p: nat)
    requires total >= 1 && total % 2 == 0 && p == Pow2(k) && lo == (total - 1) * p
    ensures lo >= p && Pow2(k + 1) == 2 * p && lo - p == (total / 2 - 1) * Pow2(k + 1)
    ensures Peaks(m, input, total - 1, k) == Peaks(m, input, total / 2 - 1, k + 1) + [SubtreeCv(m, input, lo - p, p)]
    ensures ParentCv(m, SubtreeCv(m, input, lo - p, p), SubtreeCv(m, input, lo, p)) ==
            SubtreeCv(m, input, lo - p, Pow2(k + 1))
    ensures Peaks(m, input, total, k) == Peaks(m, input, total / 2, k + 1)
  {
    hide Peaks, SubtreeCv, Pow2, ParentCv;
    MergeNumbers(total, p, lo);
    MergePeaks(m, input, total, k, lo, p);
    MergeJoin(m, input, k, lo, p);
  }

  lemma MergeEnd(m: Mode, input: seq<Byte>, total: nat, k: nat, lo: nat)
    requires total % 2 == 1 && lo == (total - 1) * Pow2(k)
    ensures Peaks(m, input, total, k) == Peaks(m, input, total - 1, k) + [SubtreeCv(m, input, lo, Pow2(k))]
  {
    hide Peaks, Subtree;
    assert total * Pow2(k) == lo + Pow2(k);
    PeaksUnfold(m, input, total, k, lo + Pow2(k));
    if total == 1 {
      PeaksNone(m, input, k, Root(m, input));
      PeaksNone(m, input, k + 1, Root(m, input));
    } else {
      PeaksUnfold(m, input, total - 1, k, lo);
      assert (total - 1) / 2 == total / 2;
    }
  }

  // ---------------------------------------------------------------- output bytes

  /** Byte `j` of the unbounded output stream of a root. */
  function StreamByte(f: Compression, o: Output, j: nat): Byte {
    BytesOf(o.RootWords(f, j / 64)[j % 64 / 4])[j % 4]
  }

  lemma DivMod64(q: nat, r: nat)
    requires r < 64
    ensures (64 * q + r) / 64 == q && (64 * q + r) % 64 == r
  {
  }

  lemma DivMod4(q: nat, r: nat)
    requires r < 4
    ensures (4 * q + r) / 4 == q && (4 * q + r) % 4 == r
  {
  }

  lemma ByteOfStream(f: Compression, o: Output, q: nat, w: nat, i: nat)
    requires w < 16 && i < 4
    ensures StreamByte(f, o, 64 * q + 4 * w + i) == BytesOf(o.RootWords(f, q)[w])[i]
  {
    hide BytesOf;
    DivMod64(q, 4 * w + i);
    DivMod4(w, i);
    DivMod4(16 * q + w, i);
    assert 64 * q + 4 * w + i == 64 * q + (4 * w + i) == 4 * (16 * q + w) + i;
  }

  /** The bytes of word `w` of the block that starts at `start`. */
  lemma WordOfStream(f: Compression, o: Output, start: nat, w: nat)
    requires start % 64 == 0 && w < 16
    ensures forall j: nat :: start + 4 * w <= j < start + 4 * w + 4 ==>
              StreamByte(f, o, j) == BytesOf(o.RootWords(f, start / 64)[w])[j - start - 4 * w]
  {
    hide BytesOf, StreamByte;
    forall j: nat | start + 4 * w <= j < start + 4 * w + 4
      ensures StreamByte(f, o, j) == BytesOf(o.RootWords(f, start / 64)[w])[j - start - 4 * w]
    {
      var q, i := start / 64, j - start - 4 * w;
      ByteOfStream(f, o, q, w, i);
      assert j == 64 * q + 4 * w + i;
    }
  }

  /** The first `length` bytes of the stream. */
  method RootOutputBytes(f: Compression, o: Output, length: nat) returns (bytes: seq<Byte>)
    ensures |bytes| == length && forall j: nat :: j < length ==> bytes[j] == StreamByte(f, o, j)
  {
    hide StreamByte, BytesOf;
    bytes := [];
    var i := 0;
    while i < length
      invariant |bytes| == i <= length && (i < length ==> i % 64 == 0)
      invariant forall j: nat :: j < i ==> bytes[j] == StreamByte(f, o, j)
    {
      var words := o.RootWords(f, i / 64);
      ghost var start := i;
      for w := 0 to 16
        invariant |bytes| == i == Min(start + 4 * w, length)
        invariant forall j: nat :: j < i ==> bytes[j] == StreamByte(f, o, j)
      {
        var wordBytes := BytesOf(words[w]);
        var take := Min(4, length - i);
        WordOfStream(f, o, start, w);
        bytes := bytes + wordBytes[..take];
        i := i + take;
      }
    }
  }

  // ---------------------------------------------------------------- the hasher

  class Hasher {
    var chunkState: ChunkState
    var cvStack: seq<Cv>
    const mode: Mode
    ghost var input: seq<Byte>

    /** The stack holds the roots of the finished perfect subtrees, and the bytes since then are
        in the chunk state. */
    ghost predicate Fits()
      reads this, chunkState
    {
      var t := chunkState.chunkCounter;
      && chunkState.Valid() && chunkState.mode == mode
      && CHUNK_LEN * t <= |input| <= CHUNK_LEN * (t + 1) && chunkState.input == input[CHUNK_LEN * t..]
      && cvStack == Peaks(mode, input, t, 0)
    }

    /** Between calls a full chunk waits in the chunk state, so the number of finished chunks is
        determined by the number of bytes. */
    ghost predicate Valid()
      reads this, chunkState
    {
      Fits() && chunkState.chunkCounter == ChunkCount(|input|) - 1
    }

    constructor (compress: Compression, keyWords: Cv, flags: bv8)
      ensures Valid() && input == [] && fresh(chunkState) && mode == Mode(compress, keyWords, flags)
    {
      mode := Mode(compress, keyWords, flags);
      chunkState := new ChunkState(Mode(compress, keyWords, flags), 0);
      cvStack, input := [], [];
    }

    /** Merges the subtrees that the new chunk completes. */
    method AddChunkChainingValue(newCv0: Cv, totalChunks: nat)
      requires totalChunks >= 1 && CHUNK_LEN * totalChunks <= |input|
      requires cvStack == Peaks(mode, input, totalChunks - 1, 0)
      requires newCv0 == SubtreeCv(mode, input, totalChunks - 1, 1)
      modifies this`cvStack
      ensures cvStack == Peaks(mode, input, totalChunks, 0)
    {
      hide Peaks, Subtree, SubtreeCv, ParentCv, Pow2;
      var newCv, total := newCv0, totalChunks;
      ghost var k, lo := 0, totalChunks - 1;
      MergeStart(totalChunks);
      while total % 2 == 0
        invariant total >= 1 && lo + Pow2(k) == totalChunks && lo == (total - 1) * Pow2(k)
        invariant cvStack == Peaks(mode, input, total - 1, k)
        invariant newCv == SubtreeCv(mode, input, lo, Pow2(k))
        invariant Peaks(mode, input, total, k) == Peaks(mode, input, totalChunks, 0)
        decreases total
      {
        MergeStep(mode, input, total, k, lo, Pow2(k));
        var top := cvStack[|cvStack| - 1];
        cvStack := cvStack[..|cvStack| - 1];
        newCv := ParentCv(mode, top, newCv);
        lo, k := lo - Pow2(k), k + 1;
        total := total / 2;
      }
      MergeEnd(mode, input, total, k, lo);
      cvStack := cvStack + [newCv];
    }

    method Update(bytes: seq<Byte>)
      requires Valid()
      modifies this, chunkState
      ensures Valid() && input == old(input) + bytes
      ensures chunkState == old(chunkState) || fresh(chunkState)
    {
      hide Peaks, ChunkState.Valid, ChunkState.Fits;
      var rest := bytes;
      assert input + [] == input;
      while rest != []
        invariant Valid() && input + rest == old(input) + bytes
        invariant chunkState == old(chunkState) || fresh(chunkState)
        decreases |rest|
      {
        if chunkState.Len() == CHUNK_LEN {
          NextChunk();
        }
        var take := Min(CHUNK_LEN - chunkState.Len(), |rest|);
        assert input + rest == input + rest[..take] + rest[take..];
        Feed(rest[..take]);
        rest := rest[take..];
      }
    }

    /** Finishes the full chunk; more input is coming. */
    method NextChunk()
      requires Fits() && |chunkState.input| == CHUNK_LEN
      modifies this
      ensures Fits() && chunkState.input == [] && input == old(input) && fresh(chunkState)
    {
      ghost var t := chunkState.chunkCounter;
      assert Chunk(input, t) == chunkState.input;
      var chunkCv := chunkState.Output().ChainingValue(mode.compress);
      var totalChunks := chunkState.chunkCounter + 1;
      AddChunkChainingValue(chunkCv, totalChunks);
      chunkState := new ChunkState(mode, totalChunks);
    }

    /** Passes bytes to the chunk state, which has room for them. */
    method Feed(b: seq<Byte>)
      requires Fits() && b != [] && |chunkState.input| + |b| <= CHUNK_LEN
      modifies this`input, chunkState
      ensures Valid() && input == old(input) + b
    {
      hide Peaks, ChunkState.Fits, ChunkState.Valid, Pow2;
      ghost var t := chunkState.chunkCounter;
      OneUnit(t);
      PeaksPrefix(mode, input, b, t, 0, t);
      chunkState.Update(b);
      assert input[CHUNK_LEN * t..] + b == (input + b)[CHUNK_LEN * t..];
      input := input + b;
    }

    /** The output bytes are those of the root of the whole tree. */
    method Finalize(length: nat) returns (bytes: seq<Byte>)
      requires Valid()
      ensures |bytes| == length
      ensures forall j: nat :: j < length ==> bytes[j] == StreamByte(mode.compress, Root(mode, input), j)
    {
      hide Peaks, Subtree;
      var output := chunkState.Output();
      ghost var last := output;
      var remaining: nat := |cvStack|;
      while remaining > 0
        invariant remaining <= |cvStack|
        invariant Fold(mode, cvStack, remaining, output) == Fold(mode, cvStack, |cvStack|, last)
      {
        remaining := remaining - 1;
        output := ParentOutput(mode, cvStack[remaining], output.ChainingValue(mode.compress));
      }
      RootFromParts();
      bytes := RootOutputBytes(mode.compress, output, length);
    }

    /** The right edge of the tree, folded, is its root. */
    lemma RootFromParts()
      requires Valid()
      ensures Fold(mode, cvStack, |cvStack|, ChunkOutput(mode, chunkState.chunkCounter, chunkState.input)) ==
              Root(mode, input)
    {
      hide Peaks, Fold;
      var t := chunkState.chunkCounter;
      assert Chunk(input, t) == chunkState.input;
      assert t * Pow2(0) == t;
      PeaksFold(mode, input, t, 0, 1, t);
    }

    /** However the input was divided among updates, the state is the same. */
    lemma SameInputSameState(other: Hasher)
      requires Valid() && other.Valid() && mode == other.mode && input == other.input
      ensures cvStack == other.cvStack
      ensures chunkState.chainingValue == other.chunkState.chainingValue
      ensures chunkState.chunkCounter == other.chunkState.chunkCounter
      ensures chunkState.block == other.chunkState.block && chunkState.blockLen == other.chunkState.blockLen
      ensures chunkState.blocksCompressed == other.chunkState.blocksCompressed
    {
      hide Peaks;
    }
  }

  /** The key words of 32 bytes. */
  function KeyWords(b: seq<Byte>): (w: Cv)
    requires |b| == 32
  {
    seq(8, i requires 0 <= i < 8 => WordOf(b[4 * i..4 * i + 4]))
  }

  /** A hasher for key derivation: its key is the hash of the context string. */
  method NewDeriveKey(compress: Compression, context: seq<Byte>) returns (h: Hasher, ghost key: seq<Byte>)
    ensures fresh(h) && fresh(h.chunkState) && h.Valid() && h.input == [] && |key| == 32
    ensures h.mode == Mode(compress, KeyWords(key), DERIVE_KEY_MATERIAL)
    ensures forall j: nat :: j < 32 ==>
              key[j] == StreamByte(compress, Root(Mode(compress, IV, DERIVE_KEY_CONTEXT), context), j)
  {
    hide Peaks, Subtree, StreamByte, ChunkState.Valid, ChunkState.Fits, Hasher.Fits, WordOf, ChunkCount;
    var contextHasher := new Hasher(compress, IV, DERIVE_KEY_CONTEXT);
    contextHasher.Update(context);
    assert [] + context == context;
    var contextKey := contextHasher.Finalize(32);
    h := new Hasher(compress, KeyWords(contextKey), DERIVE_KEY_MATERIAL);
    key := contextKey;
  }
}
