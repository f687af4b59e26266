/** Images written in pieces: how the cut into pieces can show in flash, and how it cannot. */
module OtaStream {
  import opened Lists

  type byte = x: nat | x < 256

  const BLOCK: nat := 16
  const FILL: byte := 0xFF
  const IMAGE_MAGIC: byte := 0xE9
  const SECTOR: nat := 4096

  function Flatten(chunks: seq<seq<byte>>): seq<byte> {
    if chunks == [] then [] else Flatten(chunks[..|chunks| - 1]) + Last(chunks)
  }

  /** How many bytes are left when whole blocks are taken away: `n % BLOCK`, by repeated subtraction. */
  function Leftover(n: nat): (r: nat)
    ensures r < BLOCK && r <= n
  {
    if n < BLOCK then n else Leftover(n - BLOCK)
  }

  lemma {:induction false} LeftoverIsRemainder(n: nat)
    ensures Leftover(n) == n % BLOCK
  {
    if n >= BLOCK {
      LeftoverIsRemainder(n - BLOCK);
      var q := (n - BLOCK) / BLOCK;
      assert n == BLOCK * (q + 1) + (n - BLOCK) % BLOCK;
    }
  }

  /** Adding whole blocks changes nothing about the incomplete one. */
  lemma {:induction false} BlocksAdd(a: nat, b: nat)
    requires Leftover(a) == 0
    ensures Leftover(a + b) == Leftover(b)
  {
    if a >= BLOCK {
      BlocksAdd(a - BLOCK, b);
    }
  }

  lemma {:induction false} BlocksBelow(n: nat)
    ensures Leftover(n - Leftover(n)) == 0
  {
    if n >= BLOCK {
      BlocksBelow(n - BLOCK);
    }
  }

  /** A chunk completes a block that an earlier chunk began exactly when cached bytes are waiting and it brings the
      block to its full size. */
  predicate Completes(before: nat, size: nat) {
    Leftover(before) > 0 && Leftover(before) + size >= BLOCK
  }

  /** Some chunk completed a cached block. */
  function EverCompleted(chunks: seq<seq<byte>>): bool {
    chunks != []
    && (EverCompleted(chunks[..|chunks| - 1])
        || Completes(|Flatten(chunks[..|chunks| - 1])|, |Last(chunks)|))
  }

  function PadByte(completed: bool): byte {
    if completed then FILL else 0
  }

  function PadSize(size: nat): (n: nat)
    ensures n < BLOCK
  {
    if Leftover(size) == 0 then 0 else BLOCK - Leftover(size)
  }

  lemma PadFillsBlock(size: nat)
    ensures Leftover(size + PadSize(size)) == 0
  {
    if Leftover(size) > 0 {
      BlocksBelow(size);
      BlocksAdd(size - Leftover(size), BLOCK);
    }
  }

  function Padding(size: nat, completed: bool): seq<byte> {
    seq(PadSize(size), _ => PadByte(completed))
  }

  /** What the flash holds after all chunks were written and the last block was padded. */
  function FinalImage(chunks: seq<seq<byte>>): seq<byte> {
    Flatten(chunks) + Padding(|Flatten(chunks)|, EverCompleted(chunks))
  }

  function Cut(chunks: seq<seq<byte>>, k: nat): nat
    requires k <= |chunks|
  {
    |Flatten(chunks[..k])|
  }

  lemma {:induction false} FlattenPrefix(chunks: seq<seq<byte>>, k: nat)
    requires k <= |chunks|
    ensures Flatten(chunks[..k]) <= Flatten(chunks)
  {
    if k == |chunks| {
      assert chunks[..k] == chunks;
    } else {
      FlattenPrefix(chunks[..|chunks| - 1], k);
      assert chunks[..|chunks| - 1][..k] == chunks[..k];
    }
  }

  /** A cut inside a block that the image fills completely. */
  predicate CutsFullBlock(chunks: seq<seq<byte>>, k: nat)
    requires k <= |chunks|
  {
    Leftover(Cut(chunks, k)) > 0 && |Flatten(chunks)| >= Cut(chunks, k) - Leftover(Cut(chunks, k)) + BLOCK
  }

  lemma CutOfPrefix(chunks: seq<seq<byte>>, k: nat)
    requires k < |chunks|
    ensures Cut(chunks[..|chunks| - 1], k) == Cut(chunks, k)
  {
    assert chunks[..|chunks| - 1][..k] == chunks[..k];
  }

  lemma SameBlock(a: nat, b: nat, c: nat)
    requires Leftover(a) > 0 && a <= b <= c
    requires b < a - Leftover(a) + BLOCK <= c
    ensures Completes(b, c - b)
  {
    var start := a - Leftover(a);
    BlocksBelow(a);
    BlocksAdd(start, b - start);
  }

  /** If the image without its last chunk does not fill the block of a cut, the last chunk completes it. */
  lemma LastChunkCompletes(chunks: seq<seq<byte>>, k: nat)
    requires k < |chunks| && CutsFullBlock(chunks, k) && !CutsFullBlock(chunks[..|chunks| - 1], k)
    ensures Completes(|Flatten(chunks[..|chunks| - 1])|, |Last(chunks)|)
  {
    var earlier := chunks[..|chunks| - 1];
    CutOfPrefix(chunks, k);
    FlattenPrefix(earlier, k);
    SameBlock(Cut(chunks, k), |Flatten(earlier)|, |Flatten(chunks)|);
  }

  /** A block was completed from the cache if and only if some cut falls inside a block that is filled later. */
  lemma {:induction false} CompletedIffCutInside(chunks: seq<seq<byte>>)
    ensures EverCompleted(chunks) <==> exists k :: 0 <= k <= |chunks| && CutsFullBlock(chunks, k)
  {
    if chunks == [] {
    } else {
      var n := |chunks|;
      var earlier := chunks[..n - 1];
      CompletedIffCutInside(earlier);
      if EverCompleted(earlier) {
        var k :| 0 <= k <= |earlier| && CutsFullBlock(earlier, k);
        CutOfPrefix(chunks, k);
        assert CutsFullBlock(chunks, k);
      } else if EverCompleted(chunks) {
        assert Cut(chunks, n - 1) == |Flatten(earlier)|;
        assert CutsFullBlock(chunks, n - 1);
      }
      if k :| 0 <= k <= n && CutsFullBlock(chunks, k) {
        assert chunks[..n] == chunks;
        if !CutsFullBlock(earlier, k) { LastChunkCompletes(chunks, k); }
      }
    }
  }

  lemma PaddingsDiffer(size: nat, one: bool, two: bool)
    ensures Padding(size, one) == Padding(size, two) <==> one == two || Leftover(size) == 0
  {
    if one != two && Leftover(size) != 0 {
      assert Padding(size, one)[0] == PadByte(one) && Padding(size, two)[0] == PadByte(two);
    }
  }

  /** Two ways of cutting the same image agree on everything but the value of the padding bytes, and on those too
      unless one of them completed a block from the cache and the other did not. */
  lemma CutsDifferOnlyInPadding(one: seq<seq<byte>>, two: seq<seq<byte>>)
    requires Flatten(one) == Flatten(two)
    ensures |FinalImage(one)| == |FinalImage(two)|
    ensures Leftover(|FinalImage(one)|) == 0
    ensures FinalImage(one)[..|Flatten(one)|] == FinalImage(two)[..|Flatten(one)|] == Flatten(one)
    ensures FinalImage(one) == FinalImage(two)
       <==> EverCompleted(one) == EverCompleted(two) || Leftover(|Flatten(one)|) == 0
  {
    var size := |Flatten(one)|;
    PadFillsBlock(size);
    PaddingsDiffer(size, EverCompleted(one), EverCompleted(two));
    SameHead(Flatten(one), Padding(size, EverCompleted(one)), Padding(size, EverCompleted(two)));
  }

  /** The cut does show: an image that does not end with a block, received in one piece, and the same with its first
      byte on its own. */
  lemma CutCanShow(image: seq<byte>)
    requires |image| > BLOCK && |image| % BLOCK != 0
    ensures FinalImage([image]) != FinalImage([image[..1], image[1..]])
  {
    var one, two := [image], [image[..1], image[1..]];
    LeftoverIsRemainder(|image|);
    assert one[..0] == [] && two[..1] == [image[..1]] && [image[..1]][..0] == [];
    assert Flatten(one) == image && Flatten(two) == image;
    assert EverCompleted(two) && !EverCompleted(one);
    CutsDifferOnlyInPadding(one, two);
  }
}
