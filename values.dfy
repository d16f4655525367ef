/**
 * The engine's small value types as the volume-box code sees them:
 * integer block positions (BlockPos), exact positions (Vec3d), unique ids
 * (UUID) and blocks, identified by their registry name.
 */
module Values {
  import opened Wrappers

  /** A block position. Coordinates are unbounded integers. */
  datatype Pos = Pos(x: int, y: int, z: int)

  /** An exact (continuous) position. */
  datatype Vec3 = Vec3(x: real, y: real, z: real)

  /** A UUID as its two 64-bit halves. */
  datatype Uuid = Uuid(most: int, least: int)

  /** A block type, identified by its registry name. */
  datatype Block = Block(name: string)

  function Min(a: int, b: int): int { if a <= b then a else b }

  function Max(a: int, b: int): int { if a <= b then b else a }

  /** Componentwise minimum (VecUtil.min). */
  function MinPos(a: Pos, b: Pos): Pos {
    Pos(Min(a.x, b.x), Min(a.y, b.y), Min(a.z, b.z))
  }

  /** Componentwise maximum (VecUtil.max). */
  function MaxPos(a: Pos, b: Pos): Pos {
    Pos(Max(a.x, b.x), Max(a.y, b.y), Max(a.z, b.z))
  }

  /** `a` lies at or below `b` on every axis. */
  predicate LePos(a: Pos, b: Pos) {
    a.x <= b.x && a.y <= b.y && a.z <= b.z
  }

  /** A Java `int` result: the value reduced to 32 bits, two's complement. */
  function Wrap32(n: int): (r: int)
    ensures -0x8000_0000 <= r < 0x8000_0000
    ensures (r - n) % 0x1_0000_0000 == 0
  {
    var m := n % 0x1_0000_0000;
    if m >= 0x8000_0000 then m - 0x1_0000_0000 else m
  }

  predicate IsInt32(n: int) {
    -0x8000_0000 <= n < 0x8000_0000
  }

  /** The position of the first occurrence of `x` in `xs`, or None when it does not occur. */
  function IndexOf<T(==)>(xs: seq<T>, x: T): (r: Option<nat>)
    ensures r.Some? ==> r.value < |xs| && xs[r.value] == x && forall j :: 0 <= j < r.value ==> xs[j] != x
    ensures r.None? <==> x !in xs
  {
    if |xs| == 0 then None
    else if xs[0] == x then Some(0)
    else match IndexOf(xs[1..], x)
      case None => None
      case Some(i) => Some(i + 1)
  }

  predicate Distinct<T(==)>(xs: seq<T>) {
    forall i, j :: 0 <= i < j < |xs| ==> xs[i] != xs[j]
  }

  lemma {:induction false} IndexOfDistinct<T>(xs: seq<T>, i: nat)
    requires Distinct(xs) && i < |xs|
    ensures IndexOf(xs, xs[i]) == Some(i)
  {
    if i > 0 {
      assert xs[1..][i - 1] == xs[i];
      IndexOfDistinct(xs[1..], i - 1);
    }
  }
}
