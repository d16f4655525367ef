/**
 * What BoxBase adds to both box classes: equality by runtime class and
 * corners, a hash of the corners, and the list of blocks in the area.
 */
module BoxBase {
  import opened Wrappers
  import opened Values
  import opened Boxes

  /** The runtime classes that extend BoxBase. */
  datatype BoxClass = BoxClass | MutableBoxClass

  /** A box object as equals() sees it: its class and its corners. */
  datatype BoxObject = BoxObject(cls: BoxClass, min: Pos, max: Pos)

  /** equals(obj): obj is non-null, of the same class, with equal min and max. */
  predicate Equals(a: BoxObject, obj: Option<BoxObject>) {
    obj.Some? && obj.value.cls == a.cls && obj.value.min == a.min && obj.value.max == a.max
  }

  lemma EqualsIsEquivalence(a: BoxObject, b: BoxObject, c: BoxObject)
    ensures Equals(a, Some(a))
    ensures Equals(a, Some(b)) <==> Equals(b, Some(a))
    ensures Equals(a, Some(b)) && Equals(b, Some(c)) ==> Equals(a, Some(c))
    ensures !Equals(a, None)
  {
  }

  /** Equality is exactly: same class and same corners. */
  lemma EqualsIff(a: BoxObject, b: BoxObject)
    ensures Equals(a, Some(b)) <==> a.cls == b.cls && a.min == b.min && a.max == b.max
  {
  }

  /** A Box and a MutableBox with identical corners are never equal. */
  lemma BoxNeverEqualsMutableBox(lo: Pos, hi: Pos)
    ensures !Equals(BoxObject(BoxClass, lo, hi), Some(BoxObject(MutableBoxClass, lo, hi)))
    ensures !Equals(BoxObject(MutableBoxClass, lo, hi), Some(BoxObject(BoxClass, lo, hi)))
  {
  }

  /** BlockPos.hashCode: (y + z * 31) * 31 + x in 32-bit arithmetic. */
  function PosHash(p: Pos): int {
    Wrap32((p.y + p.z * 31) * 31 + p.x)
  }

  /** hashCode(): Objects.hashCode(min, max), a function of the corners only. */
  function HashCode(a: BoxObject): int {
    Wrap32(31 * (31 + PosHash(a.min)) + PosHash(a.max))
  }

  lemma EqualBoxesHashEqually(a: BoxObject, b: BoxObject)
    requires Equals(a, Some(b))
    ensures HashCode(a) == HashCode(b)
  {
  }

  // ---------------------------------------------------------------------
  // getBlocksInArea: BlockPos.getAllInBox(min, max), x varying fastest,
  // then y, then z.

  function Row(x: int, hiX: int, y: int, z: int): seq<Pos>
    decreases hiX - x
  {
    if x > hiX then [] else [Pos(x, y, z)] + Row(x + 1, hiX, y, z)
  }

  function Layer(lo: Pos, hi: Pos, y: int, z: int): seq<Pos>
    decreases hi.y - y
  {
    if y > hi.y then [] else Row(lo.x, hi.x, y, z) + Layer(lo, hi, y + 1, z)
  }

  function Slabs(lo: Pos, hi: Pos, z: int): seq<Pos>
    decreases hi.z - z
  {
    if z > hi.z then [] else Layer(lo, hi, lo.y, z) + Slabs(lo, hi, z + 1)
  }

  /** getBlocksInArea(): every block of the box, whatever order its corners are in. */
  function BlocksInArea(b: Box): seq<Pos> {
    var lo := MinPos(b.min, b.max);
    var hi := MaxPos(b.min, b.max);
    Slabs(lo, hi, lo.z)
  }

  lemma {:induction false} RowSpec(x: int, hiX: int, y: int, z: int)
    ensures |Row(x, hiX, y, z)| == if x > hiX then 0 else hiX - x + 1
    ensures forall p :: p in Row(x, hiX, y, z) <==> x <= p.x <= hiX && p.y == y && p.z == z
    ensures forall i :: 0 <= i < |Row(x, hiX, y, z)| ==> Row(x, hiX, y, z)[i] == Pos(x + i, y, z)
    decreases hiX - x
  {
    if x <= hiX {
      RowSpec(x + 1, hiX, y, z);
    }
  }

  lemma {:induction false} LayerSpec(lo: Pos, hi: Pos, y: int, z: int)
    requires lo.x <= hi.x
    ensures |Layer(lo, hi, y, z)| == if y > hi.y then 0 else (hi.y - y + 1) * (hi.x - lo.x + 1)
    ensures forall p :: p in Layer(lo, hi, y, z) <==> lo.x <= p.x <= hi.x && y <= p.y <= hi.y && p.z == z
    decreases hi.y - y
  {
    RowSpec(lo.x, hi.x, y, z);
    if y <= hi.y {
      LayerSpec(lo, hi, y + 1, z);
      var w := hi.x - lo.x + 1;
      assert |Layer(lo, hi, y, z)| == w + (if y + 1 > hi.y then 0 else (hi.y - y) * w);
      assert (hi.y - y + 1) * w == w + (hi.y - y) * w;
    }
  }

  lemma {:induction false} SlabsSpec(lo: Pos, hi: Pos, z: int)
    requires lo.x <= hi.x && lo.y <= hi.y
    ensures |Slabs(lo, hi, z)| == if z > hi.z then 0 else (hi.z - z + 1) * ((hi.y - lo.y + 1) * (hi.x - lo.x + 1))
    ensures forall p :: p in Slabs(lo, hi, z) <==> lo.x <= p.x <= hi.x && lo.y <= p.y <= hi.y && z <= p.z <= hi.z
    decreases hi.z - z
  {
    LayerSpec(lo, hi, lo.y, z);
    if z <= hi.z {
      SlabsSpec(lo, hi, z + 1);
      var a := (hi.y - lo.y + 1) * (hi.x - lo.x + 1);
      assert |Slabs(lo, hi, z)| == a + (if z + 1 > hi.z then 0 else (hi.z - z) * a);
      assert (hi.z - z + 1) * a == a + (hi.z - z) * a;
    }
  }

  /** The area lists exactly the blocks of the box, as many as its volume. */
  lemma BlocksInAreaSpec(b: Box)
    requires Sorted(b)
    ensures |BlocksInArea(b)| == Size(b).x * Size(b).y * Size(b).z
    ensures forall p :: p in BlocksInArea(b) <==> Contains(b, p)
  {
    SlabsSpec(b.min, b.max, b.min.z);
    var s := Size(b);
    assert s.z * (s.y * s.x) == s.x * s.y * s.z;
  }
}
