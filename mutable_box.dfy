/**
 * The mutable integer box (MutableBox.java): the same corners as Box, but
 * setMin/setMax, fromBytes and readFromNbt overwrite them in place and
 * return the same object. fromBytes does not sort what it reads.
 */
module MutableBoxes {
  import opened Wrappers
  import opened Values
  import opened Nbt
  import opened Packets
  import opened Boxes
  import BoxBase

  /** Two positions read as they are, without sorting (fromBytes). */
  function ParseCorners(s: seq<Prim>): (r: Parsed<Box>)
    ensures r.Some? ==> |s| >= 2 && r.value.1 == s[2..]
  {
    match ParsePos(s)
    case None => None
    case Some((a, s1)) =>
      match ParsePos(s1)
      case None => None
      case Some((b, s2)) => Some((Box(a, b), s2))
  }

  /** fromBytes after toBytes restores both corners exactly, sorted or not. */
  lemma CornersRoundTrip(b: Box, rest: seq<Prim>)
    ensures ParseCorners(BoxBytes(b) + rest) == Some((b, rest))
  {
    assert (BoxBytes(b) + rest)[1..] == [PPos(b.max)] + rest;
    assert (BoxBytes(b) + rest)[2..] == rest;
  }

  /** fromBytes keeps unsorted corners as they are; new Box(buf) would sort them. */
  lemma CornersNotSorted()
    ensures ParseCorners([PPos(Pos(5, 0, 0)), PPos(Pos(1, 0, 0))]) == Some((Box(Pos(5, 0, 0), Pos(1, 0, 0)), []))
    ensures ParseBox([PPos(Pos(5, 0, 0)), PPos(Pos(1, 0, 0))]) == Some((Box(Pos(1, 0, 0), Pos(5, 0, 0)), []))
  {
  }

  /**
   * readFromNbt on a box whose corners are `cur`: the new corners and whether
   * it completed. With `xMin` present both corners come from the six legacy
   * integers; otherwise `min` and then `max` must hold positions. When `max`
   * is missing, setMin has already been applied before requireNonNull throws.
   */
  function ReadFromNbtInto(cur: Box, nbt: Compound): (Box, bool) {
    if HasKey(nbt, "xMin") then
      (SetMax(SetMin(cur, LegacyMin(nbt)), LegacyMax(nbt)), true)
    else
      match ReadBlockPos(GetTag(nbt, "min"))
      case None => (cur, false)
      case Some(a) =>
        match ReadBlockPos(GetTag(nbt, "max"))
        case None => (SetMin(cur, a), false)
        case Some(b) => (SetMax(SetMin(cur, a), b), true)
  }

  /** setMin(a).setMax(b) ends with corners (min(a, b), b), whatever came before. */
  lemma SetMinThenSetMax(cur: Box, a: Pos, b: Pos)
    ensures SetMax(SetMin(cur, a), b) == Box(MinPos(a, b), b)
    ensures LePos(a, b) ==> SetMax(SetMin(cur, a), b) == Box(a, b)
  {
  }

  /** Reading what writeToNbt wrote restores a sorted box into any receiver. */
  lemma NbtRoundTripInto(cur: Box, b: Box)
    requires Sorted(b)
    ensures ReadFromNbtInto(cur, BoxToNbt(b)) == (b, true)
  {
    SetMinThenSetMax(cur, b.min, b.max);
  }

  /** Unlike new Box(nbt), readFromNbt does not sort legacy corners. */
  lemma ReadFromNbtUnsorted(cur: Box)
    ensures ReadFromNbtInto(cur, map["xMin" := Nbt.TInt(5), "xMax" := Nbt.TInt(1)])
            == (Box(Pos(1, 0, 0), Pos(1, 0, 0)), true)
    ensures BoxFromNbt(map["xMin" := Nbt.TInt(5), "xMax" := Nbt.TInt(1)])
            == Some(Box(Pos(1, 0, 0), Pos(5, 0, 0)))
  {
  }

  class MutableBox {
    var min: Pos
    var max: Pos

    /** The corners, as min() and max() return them. */
    function View(): Box
      reads this
    {
      Box(min, max)
    }

    /** The object as BoxBase.equals sees it. */
    function AsObject(): BoxBase.BoxObject
      reads this
    {
      BoxBase.BoxObject(BoxBase.MutableBoxClass, min, max)
    }

    /** new MutableBox(a, b): the sorted corners. */
    constructor (a: Pos, b: Pos)
      ensures View() == Make(a, b)
    {
      min := MinPos(a, b);
      max := MaxPos(a, b);
    }

    /** setMin: min := p, max := max(p, max); returns this. */
    method SetMin(p: Pos) returns (r: MutableBox)
      modifies this
      ensures r == this
      ensures min == p && max == MaxPos(p, old(max))
      ensures View() == Boxes.SetMin(old(View()), p)
    {
      min := p;
      max := MaxPos(p, max);
      r := this;
    }

    /** setMax: min := min(min, p), max := p; returns this. */
    method SetMax(p: Pos) returns (r: MutableBox)
      modifies this
      ensures r == this
      ensures min == MinPos(old(min), p) && max == p
      ensures View() == Boxes.SetMax(old(View()), p)
    {
      min := MinPos(min, p);
      max := p;
      r := this;
    }

    /** contains(BlockPos). */
    function Contains(p: Pos): bool
      reads this
    {
      Boxes.Contains(View(), p)
    }

    /** intersect(): a new MutableBox, or null when the boxes are disjoint. */
    method Intersect(other: Box) returns (r: MutableBox?)
      ensures r == null <==> Boxes.Intersect(View(), other).None?
      ensures r != null ==> fresh(r) && r.View() == Boxes.Intersect(View(), other).value
    {
      var i := Boxes.Intersect(View(), other);
      if i.None? {
        r := null;
      } else {
        r := new MutableBox(i.value.min, i.value.max);
      }
    }

    method ToBytes(buf: PacketBuffer)
      requires buf.Valid()
      modifies buf
      ensures buf.Valid() && buf.data == old(buf.data) + BoxBytes(View()) && buf.readerIndex == old(buf.readerIndex)
    {
      buf.Write(PPos(min));
      buf.Write(PPos(max));
    }

    /**
     * fromBytes: min, then max, each assigned as soon as it is read. Returns
     * false where the Java method throws; a min already read stays assigned.
     */
    method FromBytes(buf: PacketBuffer) returns (ok: bool)
      requires buf.Valid()
      modifies this, buf
      ensures buf.Valid() && buf.data == old(buf.data)
      ensures ok <==> ParseCorners(old(buf.Remaining())).Some?
      ensures ok ==> View() == ParseCorners(old(buf.Remaining())).value.0
      ensures ok ==> buf.Remaining() == ParseCorners(old(buf.Remaining())).value.1
      ensures !ok ==> max == old(max) &&
                      (ParsePos(old(buf.Remaining())).None? ==> min == old(min)) &&
                      (ParsePos(old(buf.Remaining())).Some? ==> min == ParsePos(old(buf.Remaining())).value.0)
    {
      var a := buf.ReadPos();
      if a.None? {
        return false;
      }
      min := a.value;
      var b := buf.ReadPos();
      if b.None? {
        return false;
      }
      max := b.value;
      ok := true;
    }

    /** writeToNbt. */
    function WriteToNbt(): Compound
      reads this
    {
      BoxToNbt(View())
    }

    /** readFromNbt: false where requireNonNull throws; returns this otherwise. */
    method ReadFromNbt(nbt: Compound) returns (r: Option<MutableBox>)
      modifies this
      ensures View() == ReadFromNbtInto(old(View()), nbt).0
      ensures r.Some? <==> ReadFromNbtInto(old(View()), nbt).1
      ensures r.Some? ==> r.value == this
    {
      var self: MutableBox;
      if HasKey(nbt, "xMin") {
        self := SetMin(LegacyMin(nbt));
        self := self.SetMax(LegacyMax(nbt));
        return Some(self);
      }
      var a := ReadBlockPos(GetTag(nbt, "min"));
      if a.None? {
        return None;
      }
      self := SetMin(a.value);
      var b := ReadBlockPos(GetTag(nbt, "max"));
      if b.None? {
        return None;
      }
      self := self.SetMax(b.value);
      r := Some(self);
    }
  }
}
