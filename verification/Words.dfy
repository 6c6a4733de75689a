/**
 Fixed-width unsigned words with explicit wrap-around, and the serial-number
 arithmetic that turns a 16-bit wire number back into an unbounded position.
 */
module Words {

  const TWO_16: int := 0x1_0000
  const TWO_32: int := 0x1_0000_0000
  const TWO_64: int := 0x1_0000_0000_0000_0000

  type U8 = x: int | 0 <= x < 0x100
  type U16 = x: int | 0 <= x < TWO_16
  type U32 = x: int | 0 <= x < TWO_32
  type U64 = x: int | 0 <= x < TWO_64

  function Wrap8(x: int): U8 { x % 0x100 }

  function Wrap16(x: int): U16 { x % TWO_16 }

  function Wrap32(x: int): U32 { x % TWO_32 }

  function Wrap64(x: int): U64 { x % TWO_64 }

  /** The conversion int16(x). */
  function Signed16(x: U16): int {
    if x < 0x8000 then x else x - TWO_16
  }

  /** The integer congruent to `wire` that is nearest to `anchor`. */
  function Nearest(anchor: int, wire: U16): (x: int)
    ensures -0x8000 <= x - anchor < 0x8000
    ensures Wrap16(x) == wire
  {
    anchor + Signed16(Wrap16(wire - anchor))
  }

  function Max(a: int, b: int): int { if a < b then b else a }

  function Abs(x: int): nat { if x < 0 then -x else x }

  /** The running maximum of a non-empty trace of positions. */
  function Highest(xs: seq<int>): int
    requires |xs| > 0
  {
    if |xs| == 1 then xs[0] else Max(Highest(xs[..|xs| - 1]), xs[|xs| - 1])
  }

  lemma {:induction false} HighestIsMaximum(xs: seq<int>)
    requires |xs| > 0
    ensures Highest(xs) in xs
    ensures forall i :: 0 <= i < |xs| ==> xs[i] <= Highest(xs)
  {
    if |xs| > 1 {
      HighestIsMaximum(xs[..|xs| - 1]);
    }
  }

  lemma HighestGrows(xs: seq<int>, x: int)
    requires |xs| > 0
    ensures Highest(xs + [x]) == Max(Highest(xs), x)
  {
    assert (xs + [x])[..|xs|] == xs;
  }

  /** A true position within half the number space of the anchor is recovered exactly. */
  lemma NearestRecovers(anchor: int, x: int)
    requires -0x8000 <= x - anchor < 0x8000
    ensures Nearest(anchor, Wrap16(x)) == x
  {
    var y := Nearest(anchor, Wrap16(x));
    assert Wrap16(y) == Wrap16(x);
    CongruentClose(x, y);
  }

  /** Congruent numbers less than one cycle apart are equal. */
  lemma CongruentClose(x: int, y: int)
    requires Wrap16(x) == Wrap16(y)
    requires -TWO_16 < x - y < TWO_16
    ensures x == y
  {
  }

  lemma Cycles16(x: int, k: int)
    ensures Wrap16(x + k * TWO_16) == Wrap16(x)
  {
  }

  lemma Cycles32(x: int, k: int)
    ensures Wrap32(x + k * TWO_32) == Wrap32(x)
  {
  }

  /** Subtracting 16-bit words agrees with subtracting the positions they stand for. */
  lemma Difference16(x: int, y: int)
    ensures Wrap16(Wrap16(x) - Wrap16(y)) == Wrap16(x - y)
    ensures Wrap16(x - Wrap16(y)) == Wrap16(x - y)
    ensures Wrap16(Wrap16(x) - y) == Wrap16(x - y)
  {
    var p, q := x / TWO_16, y / TWO_16;
    Cycles16(x - y, q - p);
    Cycles16(x - y, q);
    Cycles16(x - y, -p);
  }

  lemma Sum16(x: int, y: int)
    ensures Wrap16(Wrap16(x) + Wrap16(y)) == Wrap16(x + y)
    ensures Wrap16(x + Wrap16(y)) == Wrap16(x + y)
  {
    var p, q := x / TWO_16, y / TWO_16;
    Cycles16(x + y, -p - q);
    Cycles16(x + y, -q);
  }

  lemma Difference32(x: int, y: int)
    ensures Wrap32(Wrap32(x) - Wrap32(y)) == Wrap32(x - y)
    ensures Wrap32(x - Wrap32(y)) == Wrap32(x - y)
    ensures Wrap32(Wrap32(x) - y) == Wrap32(x - y)
  {
    var p, q := x / TWO_32, y / TWO_32;
    Cycles32(x - y, q - p);
    Cycles32(x - y, q);
    Cycles32(x - y, -p);
  }

  lemma Sum32(x: int, y: int)
    ensures Wrap32(Wrap32(x) + Wrap32(y)) == Wrap32(x + y)
    ensures Wrap32(Wrap32(x) + y) == Wrap32(x + y)
    ensures Wrap32(x + Wrap32(y)) == Wrap32(x + y)
  {
    var p, q := x / TWO_32, y / TWO_32;
    Cycles32(x + y, -p - q);
    Cycles32(x + y, -p);
    Cycles32(x + y, -q);
  }

  lemma Sum64(x: int, y: int)
    ensures Wrap64(Wrap64(x) + y) == Wrap64(x + y)
  {
    assert Wrap64(x) + y == (x + y) + (-(x / TWO_64)) * TWO_64;
    Cycles64(x + y, -(x / TWO_64));
  }

  lemma Cycles64(x: int, k: int)
    ensures Wrap64(x + k * TWO_64) == Wrap64(x)
  {
  }

  lemma Small16(x: int)
    requires 0 <= x < TWO_16
    ensures Wrap16(x) == x
  {
  }

  lemma Small32(x: int)
    requires 0 <= x < TWO_32
    ensures Wrap32(x) == x
  {
  }
}
