/**
 * Named binary tags (NBT) as the volume-box code reads and writes them.
 * A compound is a map from key to tag. The accessors mirror the engine's
 * NBTTagCompound getters, which answer a default (0, "", an empty compound)
 * for a missing key or a tag of another kind (a numeric getter takes any
 * numeric kind and converts it), and the helpers mirror the
 * block-position, UUID, enum and compound-list helpers the source calls.
 */
module Nbt {
  import opened Wrappers
  import opened Values

  datatype Tag =
    | TByte(b: int)
    | TShort(sh: int)
    | TInt(i: int)
    | TLong(l: int)
    | TFloat(f: real)
    | TDouble(d: real)
    | TString(s: string)
    | TIntArray(ints: seq<int>)
    | TList(items: seq<Tag>)
    | TCompound(entries: map<string, Tag>)

  type Compound = map<string, Tag>

  /** getTag: the tag under `key`, or null. */
  function GetTag(c: Compound, key: string): Option<Tag> {
    if key in c then Some(c[key]) else None
  }

  /** hasKey: a tag of any kind is stored under `key`. */
  predicate HasKey(c: Compound, key: string) {
    key in c
  }

  /** The numeric tag kinds: the ones `hasKey(key, 99)` accepts. */
  predicate Numeric(t: Tag) {
    t.TByte? || t.TShort? || t.TInt? || t.TLong? || t.TFloat? || t.TDouble?
  }

  /** A Java `(int)` cast of a double: truncation toward zero, saturating at the int range. */
  function JavaInt(d: real): int {
    var t := if d >= 0.0 then d.Floor else -((-d).Floor);
    if t < -0x8000_0000 then -0x8000_0000 else if t > 0x7FFF_FFFF then 0x7FFF_FFFF else t
  }

  /** A Java `(long)` cast of a double, saturating at the long range. */
  function JavaLong(d: real): int {
    var t := if d >= 0.0 then d.Floor else -((-d).Floor);
    if t < -0x8000_0000_0000_0000 then -0x8000_0000_0000_0000
    else if t > 0x7FFF_FFFF_FFFF_FFFF then 0x7FFF_FFFF_FFFF_FFFF else t
  }

  /** MathHelper.floor: the cast, one lower when the cast rounded up (wrapping at the int minimum). */
  function MathFloor(d: real): int {
    var i := JavaInt(d);
    if d < i as real then Wrap32(i - 1) else i
  }

  /** A Java `(byte)` of the low eight bits. */
  function ToByte(n: int): int {
    var m := n % 256;
    if m >= 128 then m - 256 else m
  }

  /** NBTPrimitive.getInt of each numeric kind. */
  function IntOf(t: Tag): int {
    if t.TInt? then t.i
    else if t.TByte? then t.b
    else if t.TShort? then t.sh
    else if t.TLong? then Wrap32(t.l)
    else if t.TFloat? then MathFloor(t.f)
    else if t.TDouble? then MathFloor(t.d)
    else 0
  }

  /** NBTPrimitive.getLong of each numeric kind. */
  function LongOf(t: Tag): int {
    if t.TLong? then t.l
    else if t.TByte? then t.b
    else if t.TShort? then t.sh
    else if t.TInt? then t.i
    else if t.TFloat? then JavaLong(t.f)
    else if t.TDouble? then JavaLong(t.d.Floor as real)
    else 0
  }

  /** NBTPrimitive.getDouble of each numeric kind (doubles as exact reals). */
  function DoubleOf(t: Tag): real {
    if t.TDouble? then t.d
    else if t.TFloat? then t.f
    else if t.TByte? then t.b as real
    else if t.TShort? then t.sh as real
    else if t.TInt? then t.i as real
    else if t.TLong? then t.l as real
    else 0.0
  }

  /** getInteger: the stored number through getInt when it is of a numeric kind, otherwise 0. */
  function GetInteger(c: Compound, key: string): int {
    if key in c && Numeric(c[key]) then IntOf(c[key]) else 0
  }

  function GetLong(c: Compound, key: string): int {
    if key in c && Numeric(c[key]) then LongOf(c[key]) else 0
  }

  function GetDouble(c: Compound, key: string): real {
    if key in c && Numeric(c[key]) then DoubleOf(c[key]) else 0.0
  }

  /** getBoolean: getByte, the low eight bits of the number, is not 0. */
  function GetBoolean(c: Compound, key: string): bool {
    key in c && Numeric(c[key]) && ToByte(IntOf(c[key])) != 0
  }

  /**
   * The getters read every numeric kind, not only the one the writers use:
   * an integer stored as a byte, short or int reads back as itself, and a
   * flag stored as any small non-zero integer reads as true.
   */
  lemma NumericKinds(c: Compound, key: string, n: int)
    requires key in c && (c[key] == TByte(n) || c[key] == TShort(n) || c[key] == TInt(n))
    ensures GetInteger(c, key) == n && GetLong(c, key) == n && GetDouble(c, key) == n as real
    ensures -128 <= n < 128 ==> (GetBoolean(c, key) <==> n != 0)
  {
  }

  function BooleanTag(b: bool): Tag {
    TByte(if b then 1 else 0)
  }

  function GetString(c: Compound, key: string): string {
    if key in c && c[key].TString? then c[key].s else ""
  }

  function GetCompoundTag(c: Compound, key: string): Compound {
    if key in c && c[key].TCompound? then c[key].entries else map[]
  }

  /** NBTUtilBC.writeBlockPos: three integers. */
  function WriteBlockPos(p: Pos): Tag {
    TIntArray([p.x, p.y, p.z])
  }

  /** NBTUtilBC.readBlockPos: null unless the tag holds exactly three integers. */
  function ReadBlockPos(t: Option<Tag>): Option<Pos> {
    if t.Some? && t.value.TIntArray? && |t.value.ints| == 3
    then Some(Pos(t.value.ints[0], t.value.ints[1], t.value.ints[2]))
    else None
  }

  /** NBTUtil.createPosTag: a compound with X, Y and Z. */
  function CreatePosTag(p: Pos): Compound {
    map["X" := TInt(p.x), "Y" := TInt(p.y), "Z" := TInt(p.z)]
  }

  /** NBTUtil.getPosFromTag: missing coordinates read as 0. */
  function GetPosFromTag(c: Compound): Pos {
    Pos(GetInteger(c, "X"), GetInteger(c, "Y"), GetInteger(c, "Z"))
  }

  /** NBTUtil.createUUIDTag: a compound with the two halves M and L. */
  function CreateUuidTag(u: Uuid): Compound {
    map["M" := TLong(u.most), "L" := TLong(u.least)]
  }

  /** NBTUtil.getUUIDFromTag: missing halves read as 0. */
  function GetUuidFromTag(c: Compound): Uuid {
    Uuid(GetLong(c, "M"), GetLong(c, "L"))
  }

  /** setUniqueId: the two halves under `key + "Most"` and `key + "Least"`. */
  function SetUniqueId(c: Compound, key: string, u: Uuid): Compound {
    c[key + "Most" := TLong(u.most)][key + "Least" := TLong(u.least)]
  }

  /** getUniqueId: null unless both halves are stored as numbers (hasUniqueId). */
  function GetUniqueId(c: Compound, key: string): Option<Uuid> {
    if key + "Most" in c && Numeric(c[key + "Most"]) && key + "Least" in c && Numeric(c[key + "Least"])
    then Some(Uuid(GetLong(c, key + "Most"), GetLong(c, key + "Least")))
    else None
  }

  /** NBTUtilBC.writeEnum: the constant's name. */
  function WriteEnum(names: seq<string>, ordinal: nat): Tag
    requires ordinal < |names|
  {
    TString(names[ordinal])
  }

  /** NBTUtilBC.readEnum: null unless the tag names one of the constants. */
  function ReadEnum(t: Option<Tag>, names: seq<string>): Option<nat> {
    if t.Some? && t.value.TString? then IndexOf(names, t.value.s) else None
  }

  /** NBTUtilBC.writeCompoundList. */
  function WriteCompoundList(cs: seq<Compound>): Tag {
    TList(seq(|cs|, i requires 0 <= i < |cs| => TCompound(cs[i])))
  }

  /**
   * NBTUtilBC.readCompoundList: the list's elements as compounds (an element
   * that is not a compound reads as an empty one); no list reads as empty.
   */
  function ReadCompoundList(t: Option<Tag>): seq<Compound> {
    if t.Some? && t.value.TList?
    then seq(|t.value.items|, i requires 0 <= i < |t.value.items| =>
           if t.value.items[i].TCompound? then t.value.items[i].entries else map[])
    else []
  }

  lemma ReadWriteEnum(names: seq<string>, ordinal: nat)
    requires Distinct(names) && ordinal < |names|
    ensures ReadEnum(Some(WriteEnum(names, ordinal)), names) == Some(ordinal)
  {
    IndexOfDistinct(names, ordinal);
  }

  lemma ReadWriteCompoundList(cs: seq<Compound>)
    ensures ReadCompoundList(Some(WriteCompoundList(cs))) == cs
  {
  }
}
