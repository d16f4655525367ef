/**
 * Locks (Lock.java): a cause paired with the targets it locks. Cause and
 * Target are closed sets of variants; each variant is registered in an enum
 * table (EnumCause, EnumTarget) that gives its tag, and both the NBT and the
 * binary codec write the tag followed by the variant's payload.
 */
module Locks {
  import opened Wrappers
  import opened Values
  import opened Nbt
  import opened Packets
  import opened Worlds

  /** Cause.CauseBlock: the block recorded at a position. */
  datatype Cause = CauseBlock(pos: Pos, block: Block)

  /** TargetUsedByMachine.EnumType. */
  datatype MachineType = StripesWrite | StripesRead

  /**
   * The targets. An addon slot is an ordinal of EnumAddonSlot, whose
   * constants are a parameter of this model (`slotNames`, `slotCount`).
   */
  datatype Target =
    | TargetRemove
    | TargetResize
    | TargetAddon(slot: nat)
    | TargetUsedByMachine(machine: MachineType)

  datatype Lock = Lock(cause: Cause, targets: seq<Target>)

  /** The public constructor: the targets are copied into an immutable list. */
  method NewLock(cause: Cause, targets: array<Target>) returns (l: Lock)
    ensures l.cause == cause && l.targets == targets[..]
  {
    l := Lock(cause, targets[..]);
  }

  /** ImmutableList.copyOf: a write to the array after construction does not reach the lock. */
  method NewLockCopies(cause: Cause, targets: array<Target>, t: Target) returns (l: Lock)
    requires targets.Length > 0
    modifies targets
    ensures l.targets == old(targets[..])
    ensures l.targets != targets[..] <==> old(targets[0]) != t
  {
    l := NewLock(cause, targets);
    targets[0] := t;
    assert targets[..][0] == t && l.targets[0] == old(targets[0]);
  }

  /** CauseBlock.stillWorks: the block now at `pos` is the recorded block. */
  predicate StillWorks(c: Cause, world: World) {
    world.blockAt(c.pos) == c.block
  }

  // ---------------------------------------------------------------------
  // Enum tables. EnumCause and EnumTarget list, per constant in declaration
  // order, its name and the class it stands for; getForClass is the first
  // constant whose class is the value's runtime class.

  const CAUSE_NAMES: seq<string> := ["BLOCK"]
  const CAUSE_CLASSES: seq<string> := ["CauseBlock"]
  const TARGET_NAMES: seq<string> := ["REMOVE", "RESIZE", "ADDON", "USED_BY_MACHINE"]
  const TARGET_CLASSES: seq<string> := ["TargetRemove", "TargetResize", "TargetAddon", "TargetUsedByMachine"]
  const MACHINE_VALUES: seq<MachineType> := [StripesWrite, StripesRead]
  const MACHINE_NAMES: seq<string> := ["STRIPES_WRITE", "STRIPES_READ"]

  /** getClass() of a cause or target value. */
  function CauseClass(c: Cause): string {
    match c
    case CauseBlock(_, _) => "CauseBlock"
  }

  function TargetClass(t: Target): string {
    match t
    case TargetRemove => "TargetRemove"
    case TargetResize => "TargetResize"
    case TargetAddon(_) => "TargetAddon"
    case TargetUsedByMachine(_) => "TargetUsedByMachine"
  }

  /** EnumCause.getForClass: None stands for the NullPointerException it throws. */
  function CauseForClass(clazz: string): Option<nat> {
    IndexOf(CAUSE_CLASSES, clazz)
  }

  /** EnumTarget.getForClass. */
  function TargetForClass(clazz: string): Option<nat> {
    IndexOf(TARGET_CLASSES, clazz)
  }

  /** The constant each variant is tagged with (its ordinal). */
  function CauseOrdinal(c: Cause): nat {
    match c
    case CauseBlock(_, _) => 0
  }

  function TargetOrdinal(t: Target): nat {
    match t
    case TargetRemove => 0
    case TargetResize => 1
    case TargetAddon(_) => 2
    case TargetUsedByMachine(_) => 3
  }

  function MachineOrdinal(m: MachineType): nat {
    match m
    case StripesWrite => 0
    case StripesRead => 1
  }

  /** getForClass finds every variant's constant, and that constant is the one the decoders map back to the variant. */
  lemma ForClassOfValue(c: Cause, t: Target)
    ensures CauseForClass(CauseClass(c)) == Some(CauseOrdinal(c))
    ensures TargetForClass(TargetClass(t)) == Some(TargetOrdinal(t))
    ensures CAUSE_CLASSES[CauseOrdinal(c)] == CauseClass(c) && TARGET_CLASSES[TargetOrdinal(t)] == TargetClass(t)
  {
    assert Distinct(CAUSE_CLASSES);
    assert Distinct(TARGET_CLASSES);
    IndexOfDistinct(CAUSE_CLASSES, CauseOrdinal(c));
    IndexOfDistinct(TARGET_CLASSES, TargetOrdinal(t));
  }

  // ---------------------------------------------------------------------
  // Binary codec: cause tag, cause payload, target count, then tag and
  // payload per target.

  function CausePayload(c: Cause): seq<Prim> {
    match c
    case CauseBlock(pos, block) => [PPos(pos), PString(block.name)]
  }

  function TargetPayload(t: Target): seq<Prim> {
    match t
    case TargetRemove => []
    case TargetResize => []
    case TargetAddon(slot) => [PEnum(slot)]
    case TargetUsedByMachine(m) => [PEnum(MachineOrdinal(m))]
  }

  function TargetBytes(t: Target): seq<Prim> {
    [PEnum(TargetOrdinal(t))] + TargetPayload(t)
  }

  function TargetsBytes(ts: seq<Target>): seq<Prim> {
    if |ts| == 0 then [] else TargetBytes(ts[0]) + TargetsBytes(ts[1..])
  }

  /** Lock.toBytes. */
  function LockBytes(l: Lock): seq<Prim> {
    [PEnum(CauseOrdinal(l.cause))] + CausePayload(l.cause) + [PInt(|l.targets|)] + TargetsBytes(l.targets)
  }

  /** The name of the block a CauseBlock reads is limited to 1024 characters. */
  const MAX_BLOCK_NAME: nat := 1024

  /** EnumCause.fromBytes after the tag. */
  function ParseCause(s: seq<Prim>): Parsed<Cause> {
    match ParseEnum(s, |CAUSE_NAMES|)
    case None => None
    case Some((_, s1)) =>
      match ParsePos(s1)
      case None => None
      case Some((pos, s2)) =>
        match ParseString(s2, MAX_BLOCK_NAME)
        case None => None
        case Some((name, s3)) => Some((CauseBlock(pos, Block(name)), s3))
  }

  function ParseTarget(s: seq<Prim>, slotCount: nat): Parsed<Target> {
    match ParseEnum(s, |TARGET_NAMES|)
    case None => None
    case Some((k, s1)) =>
      if k == 0 then Some((TargetRemove, s1))
      else if k == 1 then Some((TargetResize, s1))
      else if k == 2 then
        match ParseEnum(s1, slotCount)
        case None => None
        case Some((slot, s2)) => Some((TargetAddon(slot), s2))
      else
        match ParseEnum(s1, |MACHINE_VALUES|)
        case None => None
        case Some((m, s2)) => Some((TargetUsedByMachine(MACHINE_VALUES[m]), s2))
  }

  /** A parse result with `acc` put in front of the values it read. */
  function Prepend(acc: seq<Target>, p: Parsed<seq<Target>>): Parsed<seq<Target>> {
    match p
    case None => None
    case Some((ts, rest)) => Some((acc + ts, rest))
  }

  lemma PrependNothing(p: Parsed<seq<Target>>)
    ensures Prepend([], p) == p
  {
    if p.Some? {
      assert [] + p.value.0 == p.value.0;
    }
  }

  lemma PrependTwice(a: seq<Target>, b: seq<Target>, p: Parsed<seq<Target>>)
    ensures Prepend(a, Prepend(b, p)) == Prepend(a + b, p)
  {
    if p.Some? {
      assert a + (b + p.value.0) == (a + b) + p.value.0;
    }
  }

  /** `n` targets, one after the other. */
  function ParseTargets(s: seq<Prim>, n: nat, slotCount: nat): Parsed<seq<Target>>
    decreases n
  {
    if n == 0 then Some(([], s))
    else match ParseTarget(s, slotCount)
      case None => None
      case Some((t, s1)) => Prepend([t], ParseTargets(s1, n - 1, slotCount))
  }

  /** new Lock(PacketBufferBC): a negative count reads no targets (IntStream.range). */
  function ParseLock(s: seq<Prim>, slotCount: nat): Parsed<Lock> {
    match ParseCause(s)
    case None => None
    case Some((cause, s1)) =>
      match ParseInt(s1)
      case None => None
      case Some((n, s2)) =>
        match ParseTargets(s2, if n < 0 then 0 else n, slotCount)
        case None => None
        case Some((ts, s3)) => Some((Lock(cause, ts), s3))
  }

  /** The lock can be written and read back: slots and block name in range. */
  predicate Encodable(l: Lock, slotCount: nat) {
    |l.cause.block.name| <= MAX_BLOCK_NAME &&
    forall i :: 0 <= i < |l.targets| && l.targets[i].TargetAddon? ==> l.targets[i].slot < slotCount
  }

  lemma TargetRoundTrip(t: Target, rest: seq<Prim>, slotCount: nat)
    requires t.TargetAddon? ==> t.slot < slotCount
    ensures ParseTarget(TargetBytes(t) + rest, slotCount) == Some((t, rest))
  {
    var s := TargetBytes(t) + rest;
    assert s[1..] == TargetPayload(t) + rest;
    match t
    case TargetRemove =>
    case TargetResize =>
    case TargetAddon(slot) =>
      assert s[1..][1..] == rest;
    case TargetUsedByMachine(m) =>
      assert s[1..][1..] == rest;
      assert MACHINE_VALUES[MachineOrdinal(m)] == m;
  }

  lemma {:induction false} TargetsRoundTrip(ts: seq<Target>, rest: seq<Prim>, slotCount: nat)
    requires forall i :: 0 <= i < |ts| && ts[i].TargetAddon? ==> ts[i].slot < slotCount
    ensures ParseTargets(TargetsBytes(ts) + rest, |ts|, slotCount) == Some((ts, rest))
  {
    if |ts| == 0 {
      assert TargetsBytes(ts) + rest == rest;
    } else {
      var t := ts[0];
      var tail := TargetsBytes(ts[1..]) + rest;
      assert TargetsBytes(ts) + rest == TargetBytes(t) + tail;
      TargetRoundTrip(t, tail, slotCount);
      TargetsRoundTrip(ts[1..], rest, slotCount);
      assert ParseTargets(TargetBytes(t) + tail, |ts|, slotCount)
          == Prepend([t], ParseTargets(tail, |ts| - 1, slotCount));
      assert [t] + ts[1..] == ts;
    }
  }

  /** Decoding what toBytes wrote gives back the same cause and the same targets. */
  lemma LockBytesRoundTrip(l: Lock, rest: seq<Prim>, slotCount: nat)
    requires Encodable(l, slotCount)
    ensures ParseLock(LockBytes(l) + rest, slotCount) == Some((l, rest))
  {
    var tail := TargetsBytes(l.targets) + rest;
    var s := LockBytes(l) + rest;
    assert s == [PEnum(0), PPos(l.cause.pos), PString(l.cause.block.name), PInt(|l.targets|)] + tail;
    assert s[1..][1..][1..] == [PInt(|l.targets|)] + tail;
    assert ParseCause(s) == Some((l.cause, [PInt(|l.targets|)] + tail));
    assert ([PInt(|l.targets|)] + tail)[1..] == tail;
    TargetsRoundTrip(l.targets, rest, slotCount);
  }

  /** One target as Lock.toBytes writes it: its constant, then Target.toBytes. */
  method WriteTarget(buf: PacketBuffer, t: Target)
    requires buf.Valid()
    modifies buf
    ensures buf.Valid() && buf.data == old(buf.data) + TargetBytes(t) && buf.readerIndex == old(buf.readerIndex)
  {
    ForClassOfValue(CauseBlock(Pos(0, 0, 0), Block("")), t);
    buf.Write(PEnum(TargetForClass(TargetClass(t)).value));
    match t {
      case TargetAddon(slot) => buf.Write(PEnum(slot));
      case TargetUsedByMachine(m) => buf.Write(PEnum(MachineOrdinal(m)));
      case _ =>
    }
  }

  /** Lock.toBytes: the cause, the count, then each target in turn. */
  method WriteLock(buf: PacketBuffer, l: Lock)
    requires buf.Valid()
    modifies buf
    ensures buf.Valid() && buf.data == old(buf.data) + LockBytes(l) && buf.readerIndex == old(buf.readerIndex)
  {
    ForClassOfValue(l.cause, TargetRemove);
    buf.Write(PEnum(CauseForClass(CauseClass(l.cause)).value));
    buf.Write(PPos(l.cause.pos));
    buf.Write(PString(l.cause.block.name));
    buf.Write(PInt(|l.targets|));
    WriteTargets(buf, l.targets);
  }

  /** The targets of Lock.toBytes, one after the other. */
  method WriteTargets(buf: PacketBuffer, ts: seq<Target>)
    requires buf.Valid()
    modifies buf
    ensures buf.Valid() && buf.data == old(buf.data) + TargetsBytes(ts) && buf.readerIndex == old(buf.readerIndex)
  {
    ghost var goal := old(buf.data) + TargetsBytes(ts);
    assert ts[0..] == ts;
    var i := 0;
    while i < |ts|
      invariant 0 <= i <= |ts|
      invariant buf.Valid() && buf.readerIndex == old(buf.readerIndex)
      invariant buf.data + TargetsBytes(ts[i..]) == goal
    {
      ghost var before := buf.data;
      var t := ts[i];
      assert TargetsBytes(ts[i..]) == TargetBytes(t) + TargetsBytes(ts[i + 1..]);
      WriteTarget(buf, t);
      assert buf.data + TargetsBytes(ts[i + 1..]) == before + TargetsBytes(ts[i..]);
      i := i + 1;
    }
    assert buf.data + TargetsBytes(ts[i..]) == buf.data;
  }

  method ReadTarget(buf: PacketBuffer, slotCount: nat) returns (r: Option<Target>)
    requires buf.Valid()
    modifies buf
    ensures buf.Valid() && buf.data == old(buf.data)
    ensures Consumed(r, ParseTarget(old(buf.Remaining()), slotCount), buf.Remaining())
  {
    var k := buf.ReadEnum(|TARGET_NAMES|);
    if k.None? {
      return None;
    }
    if k.value == 0 {
      r := Some(TargetRemove);
    } else if k.value == 1 {
      r := Some(TargetResize);
    } else if k.value == 2 {
      var slot := buf.ReadEnum(slotCount);
      r := if slot.None? then None else Some(TargetAddon(slot.value));
    } else {
      var m := buf.ReadEnum(|MACHINE_VALUES|);
      r := if m.None? then None else Some(TargetUsedByMachine(MACHINE_VALUES[m.value]));
    }
  }

  /** new Lock(PacketBufferBC): the cause, the count, then that many targets. */
  method ReadLock(buf: PacketBuffer, slotCount: nat) returns (r: Option<Lock>)
    requires buf.Valid()
    modifies buf
    ensures buf.Valid() && buf.data == old(buf.data)
    ensures Consumed(r, ParseLock(old(buf.Remaining()), slotCount), buf.Remaining())
  {
    ghost var s0 := buf.Remaining();
    var k := buf.ReadEnum(|CAUSE_NAMES|);
    if k.None? {
      return None;
    }
    var pos := buf.ReadPos();
    if pos.None? {
      return None;
    }
    var name := buf.ReadString(MAX_BLOCK_NAME);
    if name.None? {
      return None;
    }
    var cause := CauseBlock(pos.value, Block(name.value));
    assert ParseCause(s0) == Some((cause, buf.Remaining()));
    var n := buf.ReadInt();
    if n.None? {
      return None;
    }
    var count: nat := if n.value < 0 then 0 else n.value;
    var targets := ReadTargets(buf, count, slotCount);
    if targets.None? {
      return None;
    }
    r := Some(Lock(cause, targets.value));
  }

  /** The `n` targets of new Lock(PacketBufferBC), one after the other. */
  method ReadTargets(buf: PacketBuffer, n: nat, slotCount: nat) returns (r: Option<seq<Target>>)
    requires buf.Valid()
    modifies buf
    ensures buf.Valid() && buf.data == old(buf.data)
    ensures Consumed(r, ParseTargets(old(buf.Remaining()), n, slotCount), buf.Remaining())
  {
    ghost var start := buf.Remaining();
    var targets: seq<Target> := [];
    PrependNothing(ParseTargets(start, n, slotCount));
    var i := 0;
    while i < n
      invariant 0 <= i <= n
      invariant buf.Valid() && buf.data == old(buf.data)
      invariant ParseTargets(start, n, slotCount) == Prepend(targets, ParseTargets(buf.Remaining(), n - i, slotCount))
    {
      ghost var before := buf.Remaining();
      var t := ReadTarget(buf, slotCount);
      if t.None? {
        return None;
      }
      assert ParseTargets(before, n - i, slotCount) == Prepend([t.value], ParseTargets(buf.Remaining(), n - i - 1, slotCount));
      PrependTwice(targets, [t.value], ParseTargets(buf.Remaining(), n - i - 1, slotCount));
      targets := targets + [t.value];
      i := i + 1;
    }
    assert ParseTargets(buf.Remaining(), 0, slotCount) == Some(([], buf.Remaining()));
    assert targets + [] == targets;
    r := Some(targets);
  }

  // ---------------------------------------------------------------------
  // NBT codec: {cause: {type, data}, targets: [{type, data}, ...]}.

  /** Cause.writeToNBT. */
  function CauseToNbt(c: Cause): Compound {
    map["pos" := TCompound(CreatePosTag(c.pos)), "block" := TString(c.block.name)]
  }

  /** Target.writeToNBT: Remove and Resize write nothing. */
  function TargetToNbt(t: Target, slotNames: seq<string>): Compound
    requires t.TargetAddon? ==> t.slot < |slotNames|
  {
    match t
    case TargetRemove => map[]
    case TargetResize => map[]
    case TargetAddon(slot) => map["slot" := WriteEnum(slotNames, slot)]
    case TargetUsedByMachine(m) => map["type" := WriteEnum(MACHINE_NAMES, MachineOrdinal(m))]
  }

  function TargetEntry(t: Target, slotNames: seq<string>): Compound
    requires t.TargetAddon? ==> t.slot < |slotNames|
  {
    map["type" := WriteEnum(TARGET_NAMES, TargetOrdinal(t)), "data" := TCompound(TargetToNbt(t, slotNames))]
  }

  /** The target list as writeToNBT maps it, in order. */
  function TargetEntries(ts: seq<Target>, slotNames: seq<string>): seq<Compound>
    requires SlotsNamed(ts, slotNames)
  {
    if |ts| == 0 then [] else [TargetEntry(ts[0], slotNames)] + TargetEntries(ts[1..], slotNames)
  }

  predicate SlotsNamed(ts: seq<Target>, slotNames: seq<string>) {
    forall i :: 0 <= i < |ts| && ts[i].TargetAddon? ==> ts[i].slot < |slotNames|
  }

  /** Lock.writeToNBT. */
  function LockToNbt(l: Lock, slotNames: seq<string>): Compound
    requires SlotsNamed(l.targets, slotNames)
  {
    var causeTag := map["type" := WriteEnum(CAUSE_NAMES, CauseOrdinal(l.cause)),
                        "data" := TCompound(CauseToNbt(l.cause))];
    map["cause" := TCompound(causeTag),
        "targets" := WriteCompoundList(TargetEntries(l.targets, slotNames))]
  }

  /** CauseBlock(NBTTagCompound). */
  function CauseFromNbt(data: Compound): Cause {
    CauseBlock(GetPosFromTag(GetCompoundTag(data, "pos")), Block(GetString(data, "block")))
  }

  /** EnumTarget.fromNbt: fails (requireNonNull) on an unknown tag, slot or machine type. */
  function TargetFromNbt(tag: Compound, slotNames: seq<string>): Option<Target> {
    match ReadEnum(GetTag(tag, "type"), TARGET_NAMES)
    case None => None
    case Some(k) =>
      var data := GetCompoundTag(tag, "data");
      if k == 0 then Some(TargetRemove)
      else if k == 1 then Some(TargetResize)
      else if k == 2 then
        match ReadEnum(GetTag(data, "slot"), slotNames)
        case None => None
        case Some(slot) => Some(TargetAddon(slot))
      else
        match ReadEnum(GetTag(data, "type"), MACHINE_NAMES)
        case None => None
        case Some(m) => Some(TargetUsedByMachine(MACHINE_VALUES[m]))
  }

  /** The targets in list order; one that fails makes the whole list fail. */
  function TargetsFromNbt(tags: seq<Compound>, slotNames: seq<string>): (r: Option<seq<Target>>)
    ensures r.Some? ==> |r.value| == |tags|
  {
    if |tags| == 0 then Some([])
    else match TargetFromNbt(tags[0], slotNames)
      case None => None
      case Some(t) =>
        match TargetsFromNbt(tags[1..], slotNames)
        case None => None
        case Some(ts) => Some([t] + ts)
  }

  /** Lock(NBTTagCompound). */
  function LockFromNbt(nbt: Compound, slotNames: seq<string>): Option<Lock> {
    var causeTag := GetCompoundTag(nbt, "cause");
    match ReadEnum(GetTag(causeTag, "type"), CAUSE_NAMES)
    case None => None
    case Some(_) =>
      var cause := CauseFromNbt(GetCompoundTag(causeTag, "data"));
      match TargetsFromNbt(ReadCompoundList(GetTag(nbt, "targets")), slotNames)
      case None => None
      case Some(ts) => Some(Lock(cause, ts))
  }

  lemma TargetNbtRoundTrip(t: Target, slotNames: seq<string>)
    requires Distinct(slotNames) && (t.TargetAddon? ==> t.slot < |slotNames|)
    ensures TargetFromNbt(TargetEntry(t, slotNames), slotNames) == Some(t)
  {
    var entry := TargetEntry(t, slotNames);
    assert Distinct(TARGET_NAMES);
    assert Distinct(MACHINE_NAMES);
    ReadWriteEnum(TARGET_NAMES, TargetOrdinal(t));
    assert GetTag(entry, "type") == Some(WriteEnum(TARGET_NAMES, TargetOrdinal(t)));
    assert GetCompoundTag(entry, "data") == TargetToNbt(t, slotNames);
    match t
    case TargetAddon(slot) =>
      ReadWriteEnum(slotNames, slot);
    case TargetUsedByMachine(m) =>
      ReadWriteEnum(MACHINE_NAMES, MachineOrdinal(m));
      assert MACHINE_VALUES[MachineOrdinal(m)] == m;
    case _ =>
  }

  lemma {:induction false} TargetsNbtRoundTrip(ts: seq<Target>, slotNames: seq<string>)
    requires Distinct(slotNames) && SlotsNamed(ts, slotNames)
    ensures TargetsFromNbt(TargetEntries(ts, slotNames), slotNames) == Some(ts)
  {
    if |ts| > 0 {
      TargetNbtRoundTrip(ts[0], slotNames);
      TargetsNbtRoundTrip(ts[1..], slotNames);
      assert TargetEntries(ts, slotNames)[1..] == TargetEntries(ts[1..], slotNames);
      assert [ts[0]] + ts[1..] == ts;
    }
  }

  /** Reading what writeToNBT wrote reproduces the cause and the targets in order. */
  lemma LockNbtRoundTrip(l: Lock, slotNames: seq<string>)
    requires Distinct(slotNames) && SlotsNamed(l.targets, slotNames)
    ensures LockFromNbt(LockToNbt(l, slotNames), slotNames) == Some(l)
  {
    var nbt := LockToNbt(l, slotNames);
    var causeTag := GetCompoundTag(nbt, "cause");
    assert Distinct(CAUSE_NAMES);
    ReadWriteEnum(CAUSE_NAMES, 0);
    assert causeTag == map["type" := WriteEnum(CAUSE_NAMES, CauseOrdinal(l.cause)),
                           "data" := TCompound(CauseToNbt(l.cause))];
    assert GetTag(causeTag, "type") == Some(WriteEnum(CAUSE_NAMES, 0));
    var data := GetCompoundTag(causeTag, "data");
    assert data == CauseToNbt(l.cause);
    assert GetPosFromTag(GetCompoundTag(data, "pos")) == l.cause.pos;
    assert CauseFromNbt(data) == l.cause;
    var tags := TargetEntries(l.targets, slotNames);
    assert GetTag(nbt, "targets") == Some(WriteCompoundList(tags));
    ReadWriteCompoundList(tags);
    assert ReadCompoundList(GetTag(nbt, "targets")) == tags;
    TargetsNbtRoundTrip(l.targets, slotNames);
    assert TargetsFromNbt(tags, slotNames) == Some(l.targets);
    assert ReadEnum(GetTag(causeTag, "type"), CAUSE_NAMES) == Some(0);
  }

  /** An unknown cause tag, or any unknown target tag, makes the NBT decode fail. */
  lemma UnknownTagRejected(nbt: Compound, slotNames: seq<string>, k: nat)
    ensures ReadEnum(GetTag(GetCompoundTag(nbt, "cause"), "type"), CAUSE_NAMES).None? ==>
              LockFromNbt(nbt, slotNames).None?
    ensures var tags := ReadCompoundList(GetTag(nbt, "targets"));
            k < |tags| && ReadEnum(GetTag(tags[k], "type"), TARGET_NAMES).None? ==>
              LockFromNbt(nbt, slotNames).None?
  {
    var tags := ReadCompoundList(GetTag(nbt, "targets"));
    if k < |tags| && ReadEnum(GetTag(tags[k], "type"), TARGET_NAMES).None? {
      TargetsFailAt(tags, slotNames, k);
    }
  }

  lemma {:induction false} TargetsFailAt(tags: seq<Compound>, slotNames: seq<string>, k: nat)
    requires k < |tags| && TargetFromNbt(tags[k], slotNames).None?
    ensures TargetsFromNbt(tags, slotNames).None?
  {
    if k > 0 {
      TargetsFailAt(tags[1..], slotNames, k - 1);
    }
  }

  /** Remove and Resize carry no payload in either format. */
  lemma EmptyPayloads(slotNames: seq<string>)
    ensures TargetPayload(TargetRemove) == [] && TargetPayload(TargetResize) == []
    ensures TargetToNbt(TargetRemove, slotNames) == map[] && TargetToNbt(TargetResize, slotNames) == map[]
  {
  }
}
