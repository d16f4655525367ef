/**
 * The immutable integer box (Box.java) and the box semantics both box
 * classes share (size, center, containment, intersection, extension).
 * A box is a pair of corners; every constructor path sorts them, so the
 * boxes the source builds satisfy `Sorted`.
 */
module Boxes {
  import opened Wrappers
  import opened Values
  import opened Nbt
  import opened Packets

  datatype Box = Box(min: Pos, max: Pos)

  /** min <= max on every axis. */
  predicate Sorted(b: Box) {
    LePos(b.min, b.max)
  }

  /** new Box(a, b): the corners sorted componentwise. */
  function Make(a: Pos, b: Pos): (r: Box)
    ensures Sorted(r)
    ensures {r.min.x, r.max.x} == {a.x, b.x}
    ensures {r.min.y, r.max.y} == {a.y, b.y}
    ensures {r.min.z, r.max.z} == {a.z, b.z}
  {
    Box(MinPos(a, b), MaxPos(a, b))
  }

  /** Construction does not depend on the order of the corners. */
  lemma MakeOrderIndependent(a: Pos, b: Pos)
    ensures Make(a, b) == Make(b, a)
    ensures Make(a, b).min == MinPos(a, b) && Make(a, b).max == MaxPos(a, b)
  {
  }

  /** Rebuilding a sorted box from its own corners gives it back. */
  lemma MakeOfSorted(b: Box)
    requires Sorted(b)
    ensures Make(b.min, b.max) == b
  {
  }

  /** Box.setMin: a new box with min `p`, the old max raised to hold `p`. */
  function SetMin(b: Box, p: Pos): (r: Box)
    ensures Sorted(r)
    ensures r.min == p && r.max == MaxPos(p, b.max)
  {
    Make(p, MaxPos(p, b.max))
  }

  /** Box.setMax: a new box with max `p`, the old min lowered to hold `p`. */
  function SetMax(b: Box, p: Pos): (r: Box)
    ensures Sorted(r)
    ensures r.min == MinPos(b.min, p) && r.max == p
  {
    Make(MinPos(b.min, p), p)
  }

  // ---------------------------------------------------------------------
  // Binary codec: two positions, min then max.

  function BoxBytes(b: Box): seq<Prim> {
    [PPos(b.min), PPos(b.max)]
  }

  /** new Box(PacketBuffer): reads two positions and sorts them. */
  function ParseBox(s: seq<Prim>): (r: Parsed<Box>)
    ensures r.Some? ==> Sorted(r.value.0) && |s| >= 2 && r.value.1 == s[2..]
  {
    match ParsePos(s)
    case None => None
    case Some((a, s1)) =>
      match ParsePos(s1)
      case None => None
      case Some((b, s2)) => Some((Make(a, b), s2))
  }

  lemma BoxBytesRoundTrip(b: Box, rest: seq<Prim>)
    requires Sorted(b)
    ensures ParseBox(BoxBytes(b) + rest) == Some((b, rest))
  {
    assert (BoxBytes(b) + rest)[1..] == [PPos(b.max)] + rest;
    assert (BoxBytes(b) + rest)[2..] == rest;
  }

  /** Decoding unsorted corners still yields the sorted box. */
  lemma ParseBoxSorts(a: Pos, b: Pos, rest: seq<Prim>)
    ensures ParseBox([PPos(a), PPos(b)] + rest) == Some((Make(a, b), rest))
  {
    assert ([PPos(a), PPos(b)] + rest)[1..] == [PPos(b)] + rest;
    assert ([PPos(a), PPos(b)] + rest)[2..] == rest;
  }

  /** Box.toBytes. */
  method WriteBox(buf: PacketBuffer, b: Box)
    requires buf.Valid()
    modifies buf
    ensures buf.Valid() && buf.data == old(buf.data) + BoxBytes(b) && buf.readerIndex == old(buf.readerIndex)
  {
    buf.Write(PPos(b.min));
    buf.Write(PPos(b.max));
  }

  /** new Box(PacketBuffer). */
  method ReadBox(buf: PacketBuffer) returns (r: Option<Box>)
    requires buf.Valid()
    modifies buf
    ensures buf.Valid() && buf.data == old(buf.data)
    ensures Consumed(r, ParseBox(old(buf.Remaining())), buf.Remaining())
  {
    var a := buf.ReadPos();
    if a.None? {
      return None;
    }
    var b := buf.ReadPos();
    if b.None? {
      return None;
    }
    r := Some(Make(a.value, b.value));
  }

  // ---------------------------------------------------------------------
  // NBT codec: the writer uses `min`/`max`; the reader also accepts the
  // legacy six-integer layout, decided for each corner on its own.

  /** Box.writeToNbt. */
  function BoxToNbt(b: Box): Compound {
    map["min" := WriteBlockPos(b.min), "max" := WriteBlockPos(b.max)]
  }

  function LegacyMin(nbt: Compound): Pos {
    Pos(GetInteger(nbt, "xMin"), GetInteger(nbt, "yMin"), GetInteger(nbt, "zMin"))
  }

  function LegacyMax(nbt: Compound): Pos {
    Pos(GetInteger(nbt, "xMax"), GetInteger(nbt, "yMax"), GetInteger(nbt, "zMax"))
  }

  /** The first corner a tag describes; absent when requireNonNull would throw. */
  function NbtMinCorner(nbt: Compound): Option<Pos> {
    if HasKey(nbt, "xMin") then Some(LegacyMin(nbt)) else ReadBlockPos(GetTag(nbt, "min"))
  }

  function NbtMaxCorner(nbt: Compound): Option<Pos> {
    if HasKey(nbt, "xMax") then Some(LegacyMax(nbt)) else ReadBlockPos(GetTag(nbt, "max"))
  }

  /** new Box(NBTTagCompound). */
  function BoxFromNbt(nbt: Compound): (r: Option<Box>)
    ensures r.Some? ==> Sorted(r.value)
    ensures r.None? <==> NbtMinCorner(nbt).None? || NbtMaxCorner(nbt).None?
  {
    var a := NbtMinCorner(nbt);
    var b := NbtMaxCorner(nbt);
    if a.Some? && b.Some? then Some(Make(a.value, b.value)) else None
  }

  lemma NbtRoundTrip(b: Box)
    requires Sorted(b)
    ensures BoxFromNbt(BoxToNbt(b)) == Some(b)
  {
    var nbt := BoxToNbt(b);
    assert !HasKey(nbt, "xMin") && !HasKey(nbt, "xMax");
    assert NbtMinCorner(nbt) == Some(b.min);
    assert NbtMaxCorner(nbt) == Some(b.max);
  }

  /** Each corner independently comes from the legacy keys when its x key is present. */
  lemma LegacyLayout(nbt: Compound)
    ensures HasKey(nbt, "xMin") && HasKey(nbt, "xMax") ==>
              BoxFromNbt(nbt) == Some(Make(LegacyMin(nbt), LegacyMax(nbt)))
    ensures HasKey(nbt, "xMin") && !HasKey(nbt, "xMax") ==>
              BoxFromNbt(nbt) == (match ReadBlockPos(GetTag(nbt, "max"))
                                  case None => None
                                  case Some(q) => Some(Make(LegacyMin(nbt), q)))
    ensures !HasKey(nbt, "xMin") && HasKey(nbt, "xMax") ==>
              BoxFromNbt(nbt) == (match ReadBlockPos(GetTag(nbt, "min"))
                                  case None => None
                                  case Some(q) => Some(Make(q, LegacyMax(nbt))))
  {
  }

  /** A corner with neither its legacy key nor its current key is rejected. */
  lemma MissingCornerRejected(nbt: Compound)
    requires (!HasKey(nbt, "xMin") && !HasKey(nbt, "min")) || (!HasKey(nbt, "xMax") && !HasKey(nbt, "max"))
    ensures BoxFromNbt(nbt) == None
  {
  }

  // ---------------------------------------------------------------------
  // Box semantics shared by Box and MutableBox.

  /** size(): the number of blocks along each axis, max - min + 1. */
  function Size(b: Box): Pos {
    Pos(b.max.x - b.min.x + 1, b.max.y - b.min.y + 1, b.max.z - b.min.z + 1)
  }

  /** centerExact(): min plus half the size. */
  function CenterExact(b: Box): Vec3 {
    Vec3(b.min.x as real + Size(b).x as real / 2.0,
         b.min.y as real + Size(b).y as real / 2.0,
         b.min.z as real + Size(b).z as real / 2.0)
  }

  /** center(): the block holding the exact center (coordinates floored). */
  function Center(b: Box): (r: Pos)
    ensures r == Pos(b.min.x + Size(b).x / 2, b.min.y + Size(b).y / 2, b.min.z + Size(b).z / 2)
  {
    FloorHalf(b.min.x, Size(b).x);
    FloorHalf(b.min.y, Size(b).y);
    FloorHalf(b.min.z, Size(b).z);
    Pos(CenterExact(b).x.Floor, CenterExact(b).y.Floor, CenterExact(b).z.Floor)
  }

  lemma FloorHalf(m: int, n: int)
    ensures (m as real + n as real / 2.0).Floor == m + n / 2
  {
    var q, r := n / 2, n % 2;
    assert n == 2 * q + r && (r == 0 || r == 1);
    assert n as real / 2.0 == q as real + r as real / 2.0;
    var x := m as real + n as real / 2.0;
    assert (m + q) as real <= x < (m + q) as real + 1.0;
  }

  /** contains(BlockPos): inclusive on both corners. */
  predicate Contains(b: Box, p: Pos) {
    LePos(b.min, p) && LePos(p, b.max)
  }

  /** contains(Vec3d): min <= v < max + 1 on every axis. */
  predicate ContainsVec(b: Box, v: Vec3) {
    b.min.x as real <= v.x < (b.max.x + 1) as real &&
    b.min.y as real <= v.y < (b.max.y + 1) as real &&
    b.min.z as real <= v.z < (b.max.z + 1) as real
  }

  /** The continuous point in the block at `p`'s minimum corner. */
  function BlockVec(p: Pos): Vec3 {
    Vec3(p.x as real, p.y as real, p.z as real)
  }

  /** A block lies in the box exactly when its minimum corner does, continuously. */
  lemma ContainsAgrees(b: Box, p: Pos)
    ensures Contains(b, p) <==> ContainsVec(b, BlockVec(p))
  {
  }

  /** intersect(): the common part, or null when the boxes are disjoint. */
  function Intersect(a: Box, b: Box): Option<Box> {
    var lo := MaxPos(a.min, b.min);
    var hi := MinPos(a.max, b.max);
    if LePos(lo, hi) then Some(Box(lo, hi)) else None
  }

  lemma IntersectCommutative(a: Box, b: Box)
    ensures Intersect(a, b) == Intersect(b, a)
  {
  }

  /** The intersection holds exactly the blocks both boxes hold. */
  lemma IntersectContains(a: Box, b: Box, p: Pos)
    ensures Intersect(a, b).Some? ==> Sorted(Intersect(a, b).value)
    ensures (Intersect(a, b).Some? && Contains(Intersect(a, b).value, p)) <==> Contains(a, p) && Contains(b, p)
  {
  }

  /** Null is returned only when no block lies in both boxes. */
  lemma IntersectNoneDisjoint(a: Box, b: Box)
    requires Sorted(a) && Sorted(b)
    ensures Intersect(a, b).None? <==> forall p :: !(Contains(a, p) && Contains(b, p))
  {
    if Intersect(a, b).Some? {
      var lo := MaxPos(a.min, b.min);
      assert Contains(a, lo) && Contains(b, lo);
    }
  }

  /** extendToEncompass(BlockPos): the smallest box holding the old box and `p`. */
  function ExtendToEncompass(b: Box, p: Pos): (r: Box)
    ensures Sorted(b) ==> Sorted(r)
    ensures Contains(r, p)
    ensures forall q :: Contains(b, q) ==> Contains(r, q)
  {
    Box(MinPos(b.min, p), MaxPos(b.max, p))
  }

  /** Any box holding the old box and `p` holds the extended box. */
  lemma ExtendToEncompassLeast(b: Box, p: Pos, c: Box, q: Pos)
    requires Sorted(b) && Contains(c, b.min) && Contains(c, b.max) && Contains(c, p)
    requires Contains(ExtendToEncompass(b, p), q)
    ensures Contains(c, q)
  {
  }

  /** Make(a, b) is the smallest box holding both corners. */
  lemma MakeIsSpan(a: Pos, b: Pos, c: Box, q: Pos)
    ensures Contains(Make(a, b), a) && Contains(Make(a, b), b)
    ensures Contains(c, a) && Contains(c, b) && Contains(Make(a, b), q) ==> Contains(c, q)
  {
  }

  /** The values MutableBoxTester expects of the box [1,2,3]-[4,5,6] and of its intersections. */
  lemma TesterExamples()
    ensures Size(Make(Pos(1, 2, 3), Pos(4, 5, 6))) == Pos(4, 4, 4)
    ensures Center(Make(Pos(1, 2, 3), Pos(4, 5, 6))) == Pos(3, 4, 5)
    ensures CenterExact(Make(Pos(1, 2, 3), Pos(4, 5, 6))) == Vec3(3.0, 4.0, 5.0)
    ensures !ContainsVec(Make(Pos(1, 2, 3), Pos(4, 5, 6)), Vec3(0.0, 0.0, 0.0))
    ensures ContainsVec(Make(Pos(1, 2, 3), Pos(4, 5, 6)), Vec3(1.0, 2.0, 3.0))
    ensures ContainsVec(Make(Pos(1, 2, 3), Pos(4, 5, 6)), Vec3(1.3, 2.4, 3.5))
    ensures ContainsVec(Make(Pos(1, 2, 3), Pos(4, 5, 6)), Vec3(4.9, 5.9, 6.9))
    ensures !ContainsVec(Make(Pos(1, 2, 3), Pos(4, 5, 6)), Vec3(5.0, 5.0, 6.0))
    ensures Intersect(Make(Pos(0, 0, 0), Pos(2, 2, 2)), Make(Pos(1, 1, 1), Pos(3, 3, 3))) == Some(Make(Pos(1, 1, 1), Pos(2, 2, 2)))
    ensures Intersect(Make(Pos(0, 0, 0), Pos(2, 2, 2)), Make(Pos(0, 0, 0), Pos(3, 3, 3))) == Some(Make(Pos(0, 0, 0), Pos(2, 2, 2)))
    ensures Intersect(Make(Pos(1, 1, 1), Pos(2, 2, 2)), Make(Pos(0, 0, 0), Pos(1, 1, 1))) == Some(Make(Pos(1, 1, 1), Pos(1, 1, 1)))
  {
  }
}
