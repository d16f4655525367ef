/**
 * A volume box as a value (VolumeBox.java): its id, box, the optional change
 * in progress, the add-ons by slot and the locks; and the NBT and binary
 * formats it is saved and synced in. Add-on slots are EnumAddonSlot
 * ordinals, whose names (`slotNames`) and number (`slotCount`) are
 * parameters. The registry is the list AddonsRegistry.INSTANCE holds.
 */
module VolumeBoxData {
  import opened Wrappers
  import opened Values
  import opened Nbt
  import opened Packets
  import opened Boxes
  import opened Locks
  import opened Addons

  /** VolumeBox.Change: who is resizing, the box before, the held corner, the reach. */
  datatype Change = Change(playerId: Uuid, oldBox: Box, held: Pos, dist: real, paused: bool)

  datatype VolumeBoxRecord = VolumeBoxRecord(
    id: Uuid,
    box: Box,
    change: Option<Change>,
    addons: map<nat, AddonRecord>,
    locks: seq<Lock>)

  /** A record as the live objects keep it: sorted boxes, valid slots. */
  predicate WellFormed(v: VolumeBoxRecord, slotNames: seq<string>) {
    && Sorted(v.box)
    && (v.change.Some? ==> Sorted(v.change.value.oldBox))
    && (forall s :: s in v.addons ==> s < |slotNames|)
    && (forall i :: 0 <= i < |v.locks| ==> SlotsNamed(v.locks[i].targets, slotNames))
  }

  /** Every add-on's class has a registry entry. */
  predicate AllRegistered(addons: map<nat, AddonRecord>, reg: seq<AddonType>) {
    forall s :: s in addons ==> ByClass(reg, addons[s].clazz).Some?
  }

  /** The number EnumMap iteration and IntStream.range see for a count read as `n`. */
  function Count(n: int): nat {
    if n < 0 then 0 else n
  }

  // ---------------------------------------------------------------------
  // Slot order: an EnumMap iterates its keys by ascending ordinal.

  function SlotsFrom(keys: set<nat>, from: nat, slotCount: nat): (r: seq<nat>)
    ensures forall i :: 0 <= i < |r| ==> r[i] in keys && from <= r[i] < slotCount
    decreases slotCount - from
  {
    if from >= slotCount then []
    else (if from in keys then [from] else []) + SlotsFrom(keys, from + 1, slotCount)
  }

  /** The keys in [from, slotCount). */
  function KeysInRange(keys: set<nat>, from: nat, slotCount: nat): set<nat> {
    set s | s in keys && from <= s < slotCount
  }

  /** The slot order lists every key in range. */
  lemma {:induction false} SlotsFromComplete(keys: set<nat>, from: nat, slotCount: nat, s: nat)
    requires s in keys && from <= s < slotCount
    ensures s in SlotsFrom(keys, from, slotCount)
    decreases slotCount - from
  {
    if s != from {
      SlotsFromComplete(keys, from + 1, slotCount, s);
    }
  }

  /** The slot order is as long as the number of keys in range. */
  lemma {:induction false} SlotsFromLength(keys: set<nat>, from: nat, slotCount: nat)
    ensures |SlotsFrom(keys, from, slotCount)| == |KeysInRange(keys, from, slotCount)|
    decreases slotCount - from
  {
    if from >= slotCount {
      assert KeysInRange(keys, from, slotCount) == {};
    } else {
      SlotsFromLength(keys, from + 1, slotCount);
      var later := KeysInRange(keys, from + 1, slotCount);
      if from in keys {
        assert KeysInRange(keys, from, slotCount) == later + {from};
        assert from !in later;
      } else {
        assert KeysInRange(keys, from, slotCount) == later;
      }
    }
  }

  /** With every key below slotCount, the slot order lists each key exactly once. */
  lemma SlotOrderCoversKeys<V>(m: map<nat, V>, slotCount: nat)
    requires forall s :: s in m ==> s < slotCount
    ensures forall s :: s in m ==> s in SlotsFrom(m.Keys, 0, slotCount)
    ensures |SlotsFrom(m.Keys, 0, slotCount)| == |m|
  {
    forall s | s in m
      ensures s in SlotsFrom(m.Keys, 0, slotCount)
    {
      SlotsFromComplete(m.Keys, 0, slotCount, s);
    }
    SlotsFromLength(m.Keys, 0, slotCount);
    assert KeysInRange(m.Keys, 0, slotCount) == m.Keys;
    assert |m.Keys| == |m|;
  }

  /** The entries of `m` at the given slots, as a map. */
  function Restrict(m: map<nat, AddonRecord>, slots: seq<nat>): map<nat, AddonRecord>
    requires forall i :: 0 <= i < |slots| ==> slots[i] in m
  {
    map s | s in slots :: m[s]
  }

  /** Putting the entries one after the other adds them to what was there, later slots winning. */
  lemma RestrictStep(acc: map<nat, AddonRecord>, m: map<nat, AddonRecord>, slots: seq<nat>)
    requires |slots| > 0 && forall i :: 0 <= i < |slots| ==> slots[i] in m
    ensures acc[slots[0] := m[slots[0]]] + Restrict(m, slots[1..]) == acc + Restrict(m, slots)
  {
    var lhs := acc[slots[0] := m[slots[0]]] + Restrict(m, slots[1..]);
    var rhs := acc + Restrict(m, slots);
    forall s
      ensures (s in lhs <==> s in rhs) && (s in lhs ==> lhs[s] == rhs[s])
    {
      if s in slots[1..] {
      } else if s == slots[0] {
      } else {
        assert s !in slots;
      }
    }
    assert lhs == rhs;
  }

  // ---------------------------------------------------------------------
  // Change.

  /** Change.writeToNBT. */
  function ChangeToNbt(c: Change): Compound {
    map["playerId" := TCompound(CreateUuidTag(c.playerId)),
        "oldBox" := TCompound(BoxToNbt(c.oldBox)),
        "held" := TCompound(CreatePosTag(c.held)),
        "dist" := TDouble(c.dist),
        "paused" := BooleanTag(c.paused)]
  }

  /** Change(NBTTagCompound): fails only when the old box cannot be read. */
  function ChangeFromNbt(nbt: Compound): Option<Change> {
    match BoxFromNbt(GetCompoundTag(nbt, "oldBox"))
    case None => None
    case Some(oldBox) =>
      Some(Change(GetUuidFromTag(GetCompoundTag(nbt, "playerId")), oldBox,
                  GetPosFromTag(GetCompoundTag(nbt, "held")), GetDouble(nbt, "dist"), GetBoolean(nbt, "paused")))
  }

  lemma ChangeNbtRoundTrip(c: Change)
    requires Sorted(c.oldBox)
    ensures ChangeFromNbt(ChangeToNbt(c)) == Some(c)
  {
    var nbt := ChangeToNbt(c);
    assert GetCompoundTag(nbt, "oldBox") == BoxToNbt(c.oldBox);
    NbtRoundTrip(c.oldBox);
    assert GetUuidFromTag(GetCompoundTag(nbt, "playerId")) == c.playerId;
    assert GetPosFromTag(GetCompoundTag(nbt, "held")) == c.held;
  }

  /** Change.toBytes: player, old box, held corner, distance, paused flag. */
  function ChangeBytes(c: Change): seq<Prim> {
    [PUuid(c.playerId)] + BoxBytes(c.oldBox) + [PPos(c.held), PDouble(c.dist), PBool(c.paused)]
  }

  /** Change(PacketBufferBC). */
  function ParseChange(s: seq<Prim>): Parsed<Change> {
    match ParseUuid(s)
    case None => None
    case Some((player, s1)) =>
      match ParseBox(s1)
      case None => None
      case Some((oldBox, s2)) =>
        match ParsePos(s2)
        case None => None
        case Some((held, s3)) =>
          match ParseDouble(s3)
          case None => None
          case Some((dist, s4)) =>
            match ParseBool(s4)
            case None => None
            case Some((paused, s5)) => Some((Change(player, oldBox, held, dist, paused), s5))
  }

  lemma ChangeBytesRoundTrip(c: Change, rest: seq<Prim>)
    requires Sorted(c.oldBox)
    ensures ParseChange(ChangeBytes(c) + rest) == Some((c, rest))
  {
    var tail := [PPos(c.held), PDouble(c.dist), PBool(c.paused)] + rest;
    var s := ChangeBytes(c) + rest;
    assert s == [PUuid(c.playerId)] + (BoxBytes(c.oldBox) + tail);
    assert s[1..] == BoxBytes(c.oldBox) + tail;
    BoxBytesRoundTrip(c.oldBox, tail);
    assert tail[1..][1..][1..] == rest;
  }

  // ---------------------------------------------------------------------
  // NBT form: {idMost, idLeast, box, change?, addons: [...], locks: [...]}.

  /** One entry of the "addons" list; null (requireNonNull) for an unregistered class. */
  function AddonEntryNbt(slot: nat, a: AddonRecord, reg: seq<AddonType>, slotNames: seq<string>): Option<Compound>
    requires slot < |slotNames|
  {
    match ByClass(reg, a.clazz)
    case None => None
    case Some(t) =>
      Some(map["slot" := WriteEnum(slotNames, slot), "typeName" := TString(t.name), "data" := TCompound(a.data)])
  }

  function AddonsNbt(m: map<nat, AddonRecord>, slots: seq<nat>, reg: seq<AddonType>, slotNames: seq<string>): (r: Option<seq<Compound>>)
    requires forall i :: 0 <= i < |slots| ==> slots[i] in m && slots[i] < |slotNames|
    ensures r.Some? ==> |r.value| == |slots|
  {
    if |slots| == 0 then Some([])
    else match AddonEntryNbt(slots[0], m[slots[0]], reg, slotNames)
      case None => None
      case Some(e) =>
        match AddonsNbt(m, slots[1..], reg, slotNames)
        case None => None
        case Some(es) => Some([e] + es)
  }

  function LocksNbt(ls: seq<Lock>, slotNames: seq<string>): seq<Compound>
    requires forall i :: 0 <= i < |ls| ==> SlotsNamed(ls[i].targets, slotNames)
  {
    if |ls| == 0 then [] else [LockToNbt(ls[0], slotNames)] + LocksNbt(ls[1..], slotNames)
  }

  /** The compound writeToNBT builds around the add-on entries. */
  function VolumeBoxCompound(v: VolumeBoxRecord, entries: seq<Compound>, slotNames: seq<string>): Compound
    requires WellFormed(v, slotNames)
  {
    var base := SetUniqueId(map[], "id", v.id)["box" := TCompound(BoxToNbt(v.box))];
    var withChange := if v.change.Some? then base["change" := TCompound(ChangeToNbt(v.change.value))] else base;
    withChange["addons" := WriteCompoundList(entries)]["locks" := WriteCompoundList(LocksNbt(v.locks, slotNames))]
  }

  /** VolumeBox.writeToNBT; None when an add-on's class is not registered. */
  function VolumeBoxToNbt(v: VolumeBoxRecord, reg: seq<AddonType>, slotNames: seq<string>): Option<Compound>
    requires WellFormed(v, slotNames)
  {
    match AddonsNbt(v.addons, SlotsFrom(v.addons.Keys, 0, |slotNames|), reg, slotNames)
    case None => None
    case Some(entries) => Some(VolumeBoxCompound(v, entries, slotNames))
  }

  lemma VolumeBoxCompoundLookups(v: VolumeBoxRecord, entries: seq<Compound>, slotNames: seq<string>)
    requires WellFormed(v, slotNames)
    ensures var nbt := VolumeBoxCompound(v, entries, slotNames);
            && GetUniqueId(nbt, "id") == Some(v.id)
            && GetCompoundTag(nbt, "box") == BoxToNbt(v.box)
            && (HasKey(nbt, "change") <==> v.change.Some?)
            && (v.change.Some? ==> GetCompoundTag(nbt, "change") == ChangeToNbt(v.change.value))
            && GetTag(nbt, "addons") == Some(WriteCompoundList(entries))
            && GetTag(nbt, "locks") == Some(WriteCompoundList(LocksNbt(v.locks, slotNames)))
  {
    assert "id" + "Most" == "idMost" && "id" + "Least" == "idLeast";
  }

  /**
   * The "addons" list decoded into `acc`. An entry whose type name is not
   * registered is skipped; a registered one whose slot does not read
   * fails the whole decode (EnumMap.put with a null key).
   */
  function AddonsFromNbt(tags: seq<Compound>, reg: seq<AddonType>, slotNames: seq<string>, acc: map<nat, AddonRecord>)
    : Option<map<nat, AddonRecord>>
  {
    if |tags| == 0 then Some(acc)
    else match ByName(reg, GetString(tags[0], "typeName"))
      case None => AddonsFromNbt(tags[1..], reg, slotNames, acc)
      case Some(t) =>
        match ReadEnum(GetTag(tags[0], "slot"), slotNames)
        case None => None
        case Some(slot) =>
          AddonsFromNbt(tags[1..], reg, slotNames, acc[slot := AddonRecord(t.clazz, GetCompoundTag(tags[0], "data"))])
  }

  /** The "locks" list decoded; a lock that fails to decode is dropped. */
  function LocksFromNbt(tags: seq<Compound>, slotNames: seq<string>): seq<Lock> {
    if |tags| == 0 then []
    else match LockFromNbt(tags[0], slotNames)
      case None => LocksFromNbt(tags[1..], slotNames)
      case Some(l) => [l] + LocksFromNbt(tags[1..], slotNames)
  }

  /** The id stored under "id", or `freshId` (UUID.randomUUID) when there is none. */
  function StoredId(nbt: Compound, freshId: Uuid): Uuid {
    match GetUniqueId(nbt, "id")
    case None => freshId
    case Some(id) => id
  }

  /** VolumeBox(World, NBTTagCompound); None when the box, the change or an add-on slot fails. */
  function VolumeBoxFromNbt(nbt: Compound, reg: seq<AddonType>, slotNames: seq<string>, freshId: Uuid): Option<VolumeBoxRecord> {
    match BoxFromNbt(GetCompoundTag(nbt, "box"))
    case None => None
    case Some(box) =>
      var change := if HasKey(nbt, "change") then ChangeFromNbt(GetCompoundTag(nbt, "change")) else None;
      if HasKey(nbt, "change") && change.None? then None
      else
        match AddonsFromNbt(ReadCompoundList(GetTag(nbt, "addons")), reg, slotNames, map[])
        case None => None
        case Some(addons) =>
          Some(VolumeBoxRecord(StoredId(nbt, freshId), box, change, addons,
                               LocksFromNbt(ReadCompoundList(GetTag(nbt, "locks")), slotNames)))
  }

  /** Encoding fails exactly when some add-on's class is unregistered. */
  lemma {:induction false} AddonsNbtFails(m: map<nat, AddonRecord>, slots: seq<nat>, reg: seq<AddonType>, slotNames: seq<string>)
    requires forall i :: 0 <= i < |slots| ==> slots[i] in m && slots[i] < |slotNames|
    ensures AddonsNbt(m, slots, reg, slotNames).None? <==>
            exists i :: 0 <= i < |slots| && ByClass(reg, m[slots[i]].clazz).None?
  {
    if |slots| > 0 {
      AddonsNbtFails(m, slots[1..], reg, slotNames);
      if ByClass(reg, m[slots[0]].clazz).Some? {
        if exists i :: 0 <= i < |slots| && ByClass(reg, m[slots[i]].clazz).None? {
          var i :| 0 <= i < |slots| && ByClass(reg, m[slots[i]].clazz).None?;
          assert slots[1..][i - 1] == slots[i];
        }
      }
    }
  }

  lemma VolumeBoxToNbtFails(v: VolumeBoxRecord, reg: seq<AddonType>, slotNames: seq<string>)
    requires WellFormed(v, slotNames)
    ensures VolumeBoxToNbt(v, reg, slotNames).None? <==> !AllRegistered(v.addons, reg)
  {
    var slots := SlotsFrom(v.addons.Keys, 0, |slotNames|);
    SlotOrderCoversKeys(v.addons, |slotNames|);
    AddonsNbtFails(v.addons, slots, reg, slotNames);
    if !AllRegistered(v.addons, reg) {
      var s :| s in v.addons && ByClass(reg, v.addons[s].clazz).None?;
      var i :| 0 <= i < |slots| && slots[i] == s;
    }
  }

  lemma {:induction false} AddonsNbtRoundTrip(m: map<nat, AddonRecord>, slots: seq<nat>, reg: seq<AddonType>,
                                               slotNames: seq<string>, acc: map<nat, AddonRecord>)
    requires forall i :: 0 <= i < |slots| ==> slots[i] in m && slots[i] < |slotNames|
    requires NamesDistinct(reg) && Distinct(slotNames) && AllRegistered(m, reg)
    ensures AddonsNbt(m, slots, reg, slotNames).Some?
    ensures AddonsFromNbt(AddonsNbt(m, slots, reg, slotNames).value, reg, slotNames, acc) == Some(acc + Restrict(m, slots))
  {
    if |slots| == 0 {
      assert Restrict(m, slots) == map[];
      assert acc + map[] == acc;
    } else {
      var s := slots[0];
      var a := m[s];
      var t := ByClass(reg, a.clazz).value;
      var e := map["slot" := WriteEnum(slotNames, s), "typeName" := TString(t.name), "data" := TCompound(a.data)];
      AddonsNbtRoundTrip(m, slots[1..], reg, slotNames, acc[s := a]);
      var es := AddonsNbt(m, slots[1..], reg, slotNames).value;
      assert AddonsNbt(m, slots, reg, slotNames) == Some([e] + es);
      ByNameOfByClass(reg, a.clazz);
      assert t.clazz == a.clazz;
      assert GetString(e, "typeName") == t.name;
      ReadWriteEnum(slotNames, s);
      assert GetTag(e, "slot") == Some(WriteEnum(slotNames, s));
      assert ([e] + es)[1..] == es;
      assert AddonRecord(t.clazz, GetCompoundTag(e, "data")) == a;
      RestrictStep(acc, m, slots);
    }
  }

  lemma {:induction false} LocksNbtRoundTrip(ls: seq<Lock>, slotNames: seq<string>)
    requires Distinct(slotNames) && forall i :: 0 <= i < |ls| ==> SlotsNamed(ls[i].targets, slotNames)
    ensures LocksFromNbt(LocksNbt(ls, slotNames), slotNames) == ls
  {
    if |ls| > 0 {
      LockNbtRoundTrip(ls[0], slotNames);
      LocksNbtRoundTrip(ls[1..], slotNames);
      assert LocksNbt(ls, slotNames)[1..] == LocksNbt(ls[1..], slotNames);
      assert [ls[0]] + ls[1..] == ls;
    }
  }

  /** Dropping failed locks is a filter: decoding two lists is decoding each. */
  lemma {:induction false} LocksFromNbtAppend(a: seq<Compound>, b: seq<Compound>, slotNames: seq<string>)
    ensures LocksFromNbt(a + b, slotNames) == LocksFromNbt(a, slotNames) + LocksFromNbt(b, slotNames)
    ensures |LocksFromNbt(a, slotNames)| <= |a|
  {
    if |a| == 0 {
      assert a + b == b;
    } else {
      assert (a + b)[0] == a[0];
      assert (a + b)[1..] == a[1..] + b;
      LocksFromNbtAppend(a[1..], b, slotNames);
      if LockFromNbt(a[0], slotNames).Some? {
        var l := LockFromNbt(a[0], slotNames).value;
        assert [l] + (LocksFromNbt(a[1..], slotNames) + LocksFromNbt(b, slotNames))
            == ([l] + LocksFromNbt(a[1..], slotNames)) + LocksFromNbt(b, slotNames);
      }
    }
  }

  /** The slots an add-on list decodes to: those in `acc` and those of its registered entries. */
  lemma {:induction false} AddonsFromNbtSlots(tags: seq<Compound>, reg: seq<AddonType>, slotNames: seq<string>,
                                              acc: map<nat, AddonRecord>, slot: nat)
    requires AddonsFromNbt(tags, reg, slotNames, acc).Some?
    ensures slot in AddonsFromNbt(tags, reg, slotNames, acc).value <==>
            slot in acc ||
            exists i :: 0 <= i < |tags| && ByName(reg, GetString(tags[i], "typeName")).Some? &&
                        ReadEnum(GetTag(tags[i], "slot"), slotNames) == Some(slot)
  {
    if |tags| > 0 {
      var next := match ByName(reg, GetString(tags[0], "typeName"))
        case None => acc
        case Some(t) => acc[ReadEnum(GetTag(tags[0], "slot"), slotNames).value := AddonRecord(t.clazz, GetCompoundTag(tags[0], "data"))];
      AddonsFromNbtSlots(tags[1..], reg, slotNames, next, slot);
      if exists i :: 0 <= i < |tags| && ByName(reg, GetString(tags[i], "typeName")).Some? &&
                     ReadEnum(GetTag(tags[i], "slot"), slotNames) == Some(slot) {
        var i :| 0 <= i < |tags| && ByName(reg, GetString(tags[i], "typeName")).Some? &&
                 ReadEnum(GetTag(tags[i], "slot"), slotNames) == Some(slot);
        if i > 0 {
          assert tags[1..][i - 1] == tags[i];
        }
      }
      forall j | 0 <= j < |tags[1..]|
        ensures tags[1..][j] == tags[j + 1]
      {
      }
    }
  }

  /**
   * Reading what writeToNBT wrote gives the same box back, whatever fresh id
   * is on offer: the stored id is used.
   */
  lemma VolumeBoxNbtRoundTrip(v: VolumeBoxRecord, reg: seq<AddonType>, slotNames: seq<string>, freshId: Uuid)
    requires WellFormed(v, slotNames) && AllRegistered(v.addons, reg)
    requires NamesDistinct(reg) && Distinct(slotNames)
    ensures VolumeBoxToNbt(v, reg, slotNames).Some?
    ensures VolumeBoxFromNbt(VolumeBoxToNbt(v, reg, slotNames).value, reg, slotNames, freshId) == Some(v)
  {
    var slots := SlotsFrom(v.addons.Keys, 0, |slotNames|);
    AddonsNbtRoundTrip(v.addons, slots, reg, slotNames, map[]);
    var entries := AddonsNbt(v.addons, slots, reg, slotNames).value;
    assert AddonsFromNbt(entries, reg, slotNames, map[]) == Some(v.addons) by {
      SlotOrderCoversKeys(v.addons, |slotNames|);
      RestrictAll(v.addons, slots);
    }
    var nbt := VolumeBoxCompound(v, entries, slotNames);
    VolumeBoxCompoundLookups(v, entries, slotNames);
    NbtRoundTrip(v.box);
    if v.change.Some? {
      ChangeNbtRoundTrip(v.change.value);
    }
    ReadWriteCompoundList(entries);
    ReadWriteCompoundList(LocksNbt(v.locks, slotNames));
    LocksNbtRoundTrip(v.locks, slotNames);
    VolumeBoxFromParts(nbt, v, reg, slotNames, freshId);
  }

  /** The NBT constructor yields `v` once each part it reads decodes to `v`'s part. */
  lemma VolumeBoxFromParts(nbt: Compound, v: VolumeBoxRecord, reg: seq<AddonType>, slotNames: seq<string>, freshId: Uuid)
    requires GetUniqueId(nbt, "id") == Some(v.id)
    requires BoxFromNbt(GetCompoundTag(nbt, "box")) == Some(v.box)
    requires HasKey(nbt, "change") <==> v.change.Some?
    requires v.change.Some? ==> ChangeFromNbt(GetCompoundTag(nbt, "change")) == v.change
    requires AddonsFromNbt(ReadCompoundList(GetTag(nbt, "addons")), reg, slotNames, map[]) == Some(v.addons)
    requires LocksFromNbt(ReadCompoundList(GetTag(nbt, "locks")), slotNames) == v.locks
    ensures VolumeBoxFromNbt(nbt, reg, slotNames, freshId) == Some(v)
  {
  }

  // ---------------------------------------------------------------------
  // Binary form. VolumeBox(World, PacketBufferBC) reads the id and the box;
  // fromBytes reads the change flag and change, the add-on entries and the
  // locks.

  /** The longest string PacketBuffer.readString() accepts. */
  const MAX_STRING: nat := 32767

  function AddonsBytes(m: map<nat, AddonRecord>, slots: seq<nat>, reg: seq<AddonType>): seq<Prim>
    requires forall i :: 0 <= i < |slots| ==> slots[i] in m
    requires AllRegistered(m, reg)
  {
    if |slots| == 0 then []
    else [PEnum(slots[0]), PString(ByClass(reg, m[slots[0]].clazz).value.name), PData(m[slots[0]].data)]
         + AddonsBytes(m, slots[1..], reg)
  }

  function LocksBytes(ls: seq<Lock>): seq<Prim> {
    if |ls| == 0 then [] else LockBytes(ls[0]) + LocksBytes(ls[1..])
  }

  /** The change flag, then the change when there is one. */
  function ChangePartBytes(c: Option<Change>): seq<Prim> {
    [PBool(c.Some?)] + (if c.Some? then ChangeBytes(c.value) else [])
  }

  /** What fromBytes reads, in the order toBytes writes it after id and box. */
  function SyncBytes(v: VolumeBoxRecord, reg: seq<AddonType>, slotCount: nat): seq<Prim>
    requires AllRegistered(v.addons, reg)
  {
    ChangePartBytes(v.change)
    + ([PInt(|v.addons|)] + AddonsBytes(v.addons, SlotsFrom(v.addons.Keys, 0, slotCount), reg))
    + ([PInt(|v.locks|)] + LocksBytes(v.locks))
  }

  /** VolumeBox.toBytes. */
  function VolumeBoxBytes(v: VolumeBoxRecord, reg: seq<AddonType>, slotCount: nat): seq<Prim>
    requires AllRegistered(v.addons, reg)
  {
    [PUuid(v.id)] + BoxBytes(v.box) + SyncBytes(v, reg, slotCount)
  }

  /** VolumeBox(World, PacketBufferBC): the id, then the (sorted) box. */
  function ParseHeader(s: seq<Prim>): Parsed<(Uuid, Box)> {
    match ParseUuid(s)
    case None => None
    case Some((id, s1)) =>
      match ParseBox(s1)
      case None => None
      case Some((box, s2)) => Some(((id, box), s2))
  }

  /** The change flag, then the change when the flag is set. */
  function ParseChangePart(s: seq<Prim>): Parsed<Option<Change>> {
    match ParseBool(s)
    case None => None
    case Some((flag, s1)) =>
      if !flag then Some((None, s1))
      else match ParseChange(s1)
        case None => None
        case Some((c, s2)) => Some((Some(c), s2))
  }

  /**
   * `n` add-on entries put into `acc`. An entry whose name is not registered
   * is skipped without reading its payload, so the next entry's slot is read
   * from where that payload starts.
   */
  function ParseAddons(s: seq<Prim>, n: nat, reg: seq<AddonType>, slotCount: nat, acc: map<nat, AddonRecord>)
    : Parsed<map<nat, AddonRecord>>
    decreases n
  {
    if n == 0 then Some((acc, s))
    else match ParseEnum(s, slotCount)
      case None => None
      case Some((slot, s1)) =>
        match ParseString(s1, MAX_STRING)
        case None => None
        case Some((name, s2)) =>
          match ByName(reg, name)
          case None => ParseAddons(s2, n - 1, reg, slotCount, acc)
          case Some(t) =>
            match ParseData(s2)
            case None => None
            case Some((data, s3)) => ParseAddons(s3, n - 1, reg, slotCount, acc[slot := AddonRecord(t.clazz, data)])
  }

  /** One add-on entry: its slot and, when its type name is registered, the add-on read. */
  function ParseAddonEntry(s: seq<Prim>, reg: seq<AddonType>, slotCount: nat): Parsed<(nat, Option<AddonRecord>)> {
    match ParseEnum(s, slotCount)
    case None => None
    case Some((slot, s1)) =>
      match ParseString(s1, MAX_STRING)
      case None => None
      case Some((name, s2)) =>
        match ByName(reg, name)
        case None => Some(((slot, None), s2))
        case Some(t) =>
          match ParseData(s2)
          case None => None
          case Some((data, s3)) => Some(((slot, Some(AddonRecord(t.clazz, data))), s3))
  }

  /** The add-ons read so far after one more entry: a registered entry takes its slot. */
  function WithEntry(acc: map<nat, AddonRecord>, e: (nat, Option<AddonRecord>)): map<nat, AddonRecord> {
    if e.1.Some? then acc[e.0 := e.1.value] else acc
  }

  /** ParseAddons reads one ParseAddonEntry at a time. */
  lemma ParseAddonsStep(s: seq<Prim>, n: nat, reg: seq<AddonType>, slotCount: nat, acc: map<nat, AddonRecord>)
    requires n > 0
    ensures ParseAddons(s, n, reg, slotCount, acc) ==
      match ParseAddonEntry(s, reg, slotCount)
      case None => None
      case Some((e, s1)) => ParseAddons(s1, n - 1, reg, slotCount, WithEntry(acc, e))
  {
  }

  /**
   * One entry of the "addons" list: None when a registered entry's slot does
   * not read; an entry whose type is unregistered is skipped, (0, None).
   */
  function AddonEntryFromNbt(tag: Compound, reg: seq<AddonType>, slotNames: seq<string>): Option<(nat, Option<AddonRecord>)> {
    match ByName(reg, GetString(tag, "typeName"))
    case None => Some((0, None))
    case Some(t) =>
      match ReadEnum(GetTag(tag, "slot"), slotNames)
      case None => None
      case Some(slot) => Some((slot, Some(AddonRecord(t.clazz, GetCompoundTag(tag, "data")))))
  }

  /** AddonsFromNbt decodes one AddonEntryFromNbt at a time. */
  lemma AddonsFromNbtStep(tags: seq<Compound>, reg: seq<AddonType>, slotNames: seq<string>, acc: map<nat, AddonRecord>)
    requires |tags| > 0
    ensures AddonsFromNbt(tags, reg, slotNames, acc) ==
      match AddonEntryFromNbt(tags[0], reg, slotNames)
      case None => None
      case Some(e) => AddonsFromNbt(tags[1..], reg, slotNames, WithEntry(acc, e))
  {
  }

  /** Up to `n` locks: the ones read before a failure, and the rest of the stream if all `n` were read. */
  function ParseLocksFrom(s: seq<Prim>, n: nat, slotCount: nat): (seq<Lock>, Option<seq<Prim>>)
    decreases n
  {
    if n == 0 then ([], Some(s))
    else match ParseLock(s, slotCount)
      case None => ([], None)
      case Some((l, s1)) =>
        var (ls, rest) := ParseLocksFrom(s1, n - 1, slotCount);
        ([l] + ls, rest)
  }

  /**
   * What fromBytes leaves behind on a stream: the new change (None while it
   * did not get that far), the decoded add-ons (None: the map is untouched),
   * the new lock list (None: untouched) and, when everything was read, the
   * rest of the stream. The lock list is cleared before its count is read.
   */
  datatype SyncOutcome = SyncOutcome(
    change: Option<Option<Change>>,
    addons: Option<map<nat, AddonRecord>>,
    locks: Option<seq<Lock>>,
    rest: Option<seq<Prim>>)

  /** The add-on part of fromBytes: the count, then that many entries. */
  function ParseAddonPart(s: seq<Prim>, reg: seq<AddonType>, slotCount: nat): Parsed<map<nat, AddonRecord>> {
    match ParseInt(s)
    case None => None
    case Some((n, s1)) => ParseAddons(s1, Count(n), reg, slotCount, map[])
  }

  /** The lock part of fromBytes: the locks read and the rest; nothing is read when the count does not read. */
  function ParseLockPart(s: seq<Prim>, slotCount: nat): (seq<Lock>, Option<seq<Prim>>) {
    match ParseInt(s)
    case None => ([], None)
    case Some((k, s1)) => ParseLocksFrom(s1, Count(k), slotCount)
  }

  function SyncFromBytes(s: seq<Prim>, reg: seq<AddonType>, slotCount: nat): SyncOutcome {
    match ParseChangePart(s)
    case None => SyncOutcome(None, None, None, None)
    case Some((c, s1)) =>
      match ParseAddonPart(s1, reg, slotCount)
      case None => SyncOutcome(Some(c), None, None, None)
      case Some((m, s2)) =>
        var (ls, rest) := ParseLockPart(s2, slotCount);
        SyncOutcome(Some(c), Some(m), Some(ls), rest)
  }

  /** A new add-on of a decoded entry's class, after it read the entry's payload. */
  function FreshAddon(a: AddonRecord, feed: Feeding): (r: AddonRecord)
    ensures r.clazz == a.clazz && r.data == feed(a.clazz, map[], a.data)
  {
    AddonRecord(a.clazz, feed(a.clazz, map[], a.data))
  }

  /** The new add-ons the entry loop of fromBytes creates for the decoded entries `m`. */
  function FreshAddons(m: map<nat, AddonRecord>, feed: Feeding): (r: map<nat, AddonRecord>)
    ensures r.Keys == m.Keys && forall s :: s in r ==> r[s] == FreshAddon(m[s], feed)
  {
    map s | s in m :: FreshAddon(m[s], feed)
  }

  /**
   * The add-ons fromBytes leaves once the new add-ons `incoming` are read:
   * the slots of `incoming`. A slot that stays keeps its add-on, with its
   * class and what it held; a new slot holds the new add-on. Then each of
   * them reads what the new add-on of its slot writes, so a new add-on
   * reads its own payload a second time.
   */
  function SyncedAddons(cur: map<nat, AddonRecord>, incoming: map<nat, AddonRecord>, feed: Feeding): (r: map<nat, AddonRecord>)
    ensures r.Keys == incoming.Keys
    ensures forall s :: s in r ==> r[s].clazz == (if s in cur then cur[s] else incoming[s]).clazz
    ensures forall s :: s in r ==>
      r[s].data == feed(r[s].clazz, (if s in cur then cur[s] else incoming[s]).data, incoming[s].data)
  {
    map s | s in incoming ::
      var a := if s in cur then cur[s] else incoming[s];
      AddonRecord(a.clazz, feed(a.clazz, a.data, incoming[s].data))
  }

  /** The record fromBytes leaves behind: each part it got as far as decoding replaced. */
  function Synced(v: VolumeBoxRecord, r: SyncOutcome, feed: Feeding): VolumeBoxRecord {
    v.(change := if r.change.Some? then r.change.value else v.change,
       addons := if r.addons.Some? then SyncedAddons(v.addons, FreshAddons(r.addons.value, feed), feed) else v.addons,
       locks := if r.locks.Some? then r.locks.value else v.locks)
  }

  /** The counters (onAdded calls, size changes) of the slots after a sync: a new slot's add-on was told once. */
  function SyncedCounters(cur: map<nat, (nat, nat)>, m: map<nat, AddonRecord>): (r: map<nat, (nat, nat)>)
    ensures r.Keys == m.Keys
    ensures forall s :: s in r ==> r[s] == if s in cur then cur[s] else (1, 0)
  {
    map s | s in m :: if s in cur then cur[s] else (1, 0)
  }

  /** The binary form can be read back: names within readString's limit, slots and block names in range. */
  predicate Sendable(v: VolumeBoxRecord, reg: seq<AddonType>, slotCount: nat) {
    && Sorted(v.box)
    && (v.change.Some? ==> Sorted(v.change.value.oldBox))
    && (forall s :: s in v.addons ==> s < slotCount)
    && AllRegistered(v.addons, reg)
    && (forall s :: s in v.addons ==> |ByClass(reg, v.addons[s].clazz).value.name| <= MAX_STRING)
    && (forall i :: 0 <= i < |v.locks| ==> Encodable(v.locks[i], slotCount))
  }

  /** One registered entry: its slot, its type's name, its payload. */
  lemma AddonEntryBytesStep(slot: nat, a: AddonRecord, reg: seq<AddonType>, slotCount: nat, n: nat,
                            acc: map<nat, AddonRecord>, tail: seq<Prim>)
    requires slot < slotCount && NamesDistinct(reg) && ByClass(reg, a.clazz).Some?
    requires |ByClass(reg, a.clazz).value.name| <= MAX_STRING
    ensures ParseAddons([PEnum(slot), PString(ByClass(reg, a.clazz).value.name), PData(a.data)] + tail, n + 1, reg, slotCount, acc)
            == ParseAddons(tail, n, reg, slotCount, acc[slot := a])
  {
    var t := ByClass(reg, a.clazz).value;
    var bytes := [PEnum(slot), PString(t.name), PData(a.data)] + tail;
    assert bytes[1..] == [PString(t.name), PData(a.data)] + tail;
    assert bytes[1..][1..] == [PData(a.data)] + tail;
    assert bytes[1..][1..][1..] == tail;
    ByNameOfByClass(reg, a.clazz);
    assert AddonRecord(t.clazz, a.data) == a;
  }

  lemma {:induction false} AddonsBytesRoundTrip(m: map<nat, AddonRecord>, slots: seq<nat>, reg: seq<AddonType>,
                                                slotCount: nat, acc: map<nat, AddonRecord>, rest: seq<Prim>)
    requires forall i :: 0 <= i < |slots| ==> slots[i] in m && slots[i] < slotCount
    requires NamesDistinct(reg) && AllRegistered(m, reg)
    requires forall s :: s in m ==> |ByClass(reg, m[s].clazz).value.name| <= MAX_STRING
    ensures ParseAddons(AddonsBytes(m, slots, reg) + rest, |slots|, reg, slotCount, acc) == Some((acc + Restrict(m, slots), rest))
  {
    if |slots| == 0 {
      assert Restrict(m, slots) == map[];
      assert acc + map[] == acc;
      assert AddonsBytes(m, slots, reg) + rest == rest;
    } else {
      var s := slots[0];
      var a := m[s];
      var tail := AddonsBytes(m, slots[1..], reg) + rest;
      assert AddonsBytes(m, slots, reg) + rest
          == [PEnum(s), PString(ByClass(reg, a.clazz).value.name), PData(a.data)] + tail;
      AddonEntryBytesStep(s, a, reg, slotCount, |slots| - 1, acc, tail);
      AddonsBytesRoundTrip(m, slots[1..], reg, slotCount, acc[s := a], rest);
      RestrictStep(acc, m, slots);
    }
  }

  lemma {:induction false} LocksBytesRoundTrip(ls: seq<Lock>, slotCount: nat, rest: seq<Prim>)
    requires forall i :: 0 <= i < |ls| ==> Encodable(ls[i], slotCount)
    ensures ParseLocksFrom(LocksBytes(ls) + rest, |ls|, slotCount) == (ls, Some(rest))
  {
    if |ls| == 0 {
      assert LocksBytes(ls) + rest == rest;
    } else {
      var tail := LocksBytes(ls[1..]) + rest;
      assert LocksBytes(ls) + rest == LockBytes(ls[0]) + tail;
      LockBytesRoundTrip(ls[0], tail, slotCount);
      ParseLocksStep(LocksBytes(ls) + rest, |ls|, slotCount, ls[0], tail);
      LocksBytesRoundTrip(ls[1..], slotCount, rest);
      assert [ls[0]] + ls[1..] == ls;
    }
  }

  /** A lock read off the front, then the others. */
  lemma ParseLocksStep(s: seq<Prim>, n: nat, slotCount: nat, l: Lock, s1: seq<Prim>)
    requires n > 0 && ParseLock(s, slotCount) == Some((l, s1))
    ensures ParseLocksFrom(s, n, slotCount) == ([l] + ParseLocksFrom(s1, n - 1, slotCount).0, ParseLocksFrom(s1, n - 1, slotCount).1)
  {
  }

  /** The header toBytes writes is read back by VolumeBox(World, PacketBufferBC). */
  lemma HeaderRoundTrip(v: VolumeBoxRecord, reg: seq<AddonType>, slotCount: nat, rest: seq<Prim>)
    requires Sendable(v, reg, slotCount)
    ensures ParseHeader(VolumeBoxBytes(v, reg, slotCount) + rest) == Some(((v.id, v.box), SyncBytes(v, reg, slotCount) + rest))
  {
    var tail := SyncBytes(v, reg, slotCount) + rest;
    assert VolumeBoxBytes(v, reg, slotCount) + rest == [PUuid(v.id)] + (BoxBytes(v.box) + tail);
    BoxBytesRoundTrip(v.box, tail);
  }

  lemma ChangePartRoundTrip(c: Option<Change>, rest: seq<Prim>)
    requires c.Some? ==> Sorted(c.value.oldBox)
    ensures ParseChangePart(ChangePartBytes(c) + rest) == Some((c, rest))
  {
    var s := ChangePartBytes(c) + rest;
    var body := if c.Some? then ChangeBytes(c.value) else [];
    assert s == [PBool(c.Some?)] + (body + rest);
    assert s[1..] == body + rest;
    if c.Some? {
      ChangeBytesRoundTrip(c.value, rest);
    } else {
      assert body + rest == rest;
    }
  }

  lemma SyncBytesShape(v: VolumeBoxRecord, reg: seq<AddonType>, slotCount: nat, rest: seq<Prim>)
    requires AllRegistered(v.addons, reg)
    ensures SyncBytes(v, reg, slotCount) + rest ==
            ChangePartBytes(v.change) + ([PInt(|v.addons|)] + (AddonsBytes(v.addons, SlotsFrom(v.addons.Keys, 0, slotCount), reg)
            + ([PInt(|v.locks|)] + (LocksBytes(v.locks) + rest))))
  {
  }

  lemma RestrictAll(m: map<nat, AddonRecord>, slots: seq<nat>)
    requires forall i :: 0 <= i < |slots| ==> slots[i] in m
    requires forall s :: s in m ==> s in slots
    ensures map[] + Restrict(m, slots) == m
  {
    var r := map[] + Restrict(m, slots);
    assert r.Keys == m.Keys;
    assert r == m;
  }

  lemma AddonPartRoundTrip(v: VolumeBoxRecord, reg: seq<AddonType>, slotCount: nat, rest: seq<Prim>)
    requires Sendable(v, reg, slotCount) && NamesDistinct(reg)
    ensures var bytes := AddonsBytes(v.addons, SlotsFrom(v.addons.Keys, 0, slotCount), reg) + rest;
            ParseAddons(bytes, Count(|v.addons|), reg, slotCount, map[]) == Some((v.addons, rest))
  {
    var slots := SlotsFrom(v.addons.Keys, 0, slotCount);
    SlotOrderCoversKeys(v.addons, slotCount);
    AddonsBytesRoundTrip(v.addons, slots, reg, slotCount, map[], rest);
    RestrictAll(v.addons, slots);
    assert Count(|v.addons|) == |slots|;
  }

  /**
   * fromBytes reads back everything else toBytes wrote: the change, the
   * add-ons by slot and the locks in order, and stops where they end.
   */
  lemma SyncRoundTrip(v: VolumeBoxRecord, reg: seq<AddonType>, slotCount: nat, rest: seq<Prim>)
    requires Sendable(v, reg, slotCount) && NamesDistinct(reg)
    ensures SyncFromBytes(SyncBytes(v, reg, slotCount) + rest, reg, slotCount)
            == SyncOutcome(Some(v.change), Some(v.addons), Some(v.locks), Some(rest))
  {
    var locksBytes := LocksBytes(v.locks) + rest;
    var lockPart := [PInt(|v.locks|)] + locksBytes;
    var addonsBytes := AddonsBytes(v.addons, SlotsFrom(v.addons.Keys, 0, slotCount), reg) + lockPart;
    var addonPart := [PInt(|v.addons|)] + addonsBytes;
    SyncBytesShape(v, reg, slotCount, rest);
    ChangePartRoundTrip(v.change, addonPart);
    AddonPartRoundTrip(v, reg, slotCount, lockPart);
    LocksBytesRoundTrip(v.locks, slotCount, rest);
    assert ParseAddonPart(addonPart, reg, slotCount) == Some((v.addons, lockPart));
  }

  /**
   * A client that applies what the server's toBytes sent ends with the
   * server's change and locks, and with the server's add-on payloads fed to
   * its own add-ons, whatever those add-ons do with them.
   */
  lemma SyncDelivers(v0: VolumeBoxRecord, v: VolumeBoxRecord, reg: seq<AddonType>, slotCount: nat, rest: seq<Prim>,
                     feed: Feeding)
    requires Sendable(v, reg, slotCount) && NamesDistinct(reg)
    ensures Synced(v0, SyncFromBytes(SyncBytes(v, reg, slotCount) + rest, reg, slotCount), feed)
            == v0.(change := v.change, addons := SyncedAddons(v0.addons, FreshAddons(v.addons, feed), feed), locks := v.locks)
  {
    SyncRoundTrip(v, reg, slotCount, rest);
  }

  /**
   * For add-ons whose fromBytes replaces their payload, the client ends
   * with exactly the server's change, add-ons and locks, provided each slot
   * both hold holds the same class (a slot that stays keeps its object).
   */
  lemma SyncConverges(v0: VolumeBoxRecord, v: VolumeBoxRecord, reg: seq<AddonType>, slotCount: nat, rest: seq<Prim>,
                      feed: Feeding)
    requires Sendable(v, reg, slotCount) && NamesDistinct(reg) && Replaces(feed)
    requires forall s :: s in v0.addons && s in v.addons ==> v0.addons[s].clazz == v.addons[s].clazz
    ensures Synced(v0, SyncFromBytes(SyncBytes(v, reg, slotCount) + rest, reg, slotCount), feed)
            == v0.(change := v.change, addons := v.addons, locks := v.locks)
  {
    SyncDelivers(v0, v, reg, slotCount, rest, feed);
    ReplacingSync(v0.addons, v.addons, feed);
  }

  /** Replacing add-ons of the sender's classes end with the sender's add-ons. */
  lemma ReplacingSync(cur: map<nat, AddonRecord>, m: map<nat, AddonRecord>, feed: Feeding)
    requires Replaces(feed)
    requires forall s :: s in cur && s in m ==> cur[s].clazz == m[s].clazz
    ensures SyncedAddons(cur, FreshAddons(m, feed), feed) == m
  {
    var r := SyncedAddons(cur, FreshAddons(m, feed), feed);
    forall s | s in r
      ensures r[s] == m[s]
    {
    }
    assert r == m;
  }

  /**
   * Add-ons that merge what they read into what they hold do not converge:
   * a client slot holding key "a", synced from a server slot of the same
   * class holding only "b", ends holding both.
   */
  lemma MergingFeedKeepsStale()
    ensures var feed: Feeding := (c: string, held: Compound, read: Compound) => held + read;
            var cur := map[0 := AddonRecord("A", map["a" := TInt(1)])];
            var server := map[0 := AddonRecord("A", map["b" := TInt(2)])];
            var r := SyncedAddons(cur, FreshAddons(server, feed), feed);
            r[0].data == map["a" := TInt(1), "b" := TInt(2)] && r != server
  {
    var feed: Feeding := (c: string, held: Compound, read: Compound) => held + read;
    var server := map[0 := AddonRecord("A", map["b" := TInt(2)])];
    var cur := map[0 := AddonRecord("A", map["a" := TInt(1)])];
    var incoming := FreshAddons(server, feed);
    assert incoming[0].data == map[] + map["b" := TInt(2)];
    var r := SyncedAddons(cur, incoming, feed);
    assert r[0].data == map["a" := TInt(1)] + incoming[0].data;
    assert "a" in r[0].data && "a" !in server[0].data;
  }

  // ---------------------------------------------------------------------
  // The change life cycle and the derived queries, on values.

  /** startChange. */
  function Started(v: VolumeBoxRecord, c: Change): VolumeBoxRecord {
    v.(change := Some(c))
  }

  /** Change.cancel: the box taken when the change started comes back; the change ends. */
  function Cancelled(v: VolumeBoxRecord): VolumeBoxRecord
    requires v.change.Some?
  {
    v.(box := v.change.value.oldBox, change := None)
  }

  /** Change.confirm: the change ends; the box is kept (the add-on callbacks are on the objects). */
  function Confirmed(v: VolumeBoxRecord): VolumeBoxRecord
    requires v.change.Some?
  {
    v.(change := None)
  }

  /** A change that records the current box as its old box. */
  predicate ChangeOf(v: VolumeBoxRecord, c: Change) {
    c.oldBox == v.box
  }

  /**
   * Cancelling undoes a change however the box was resized meanwhile: a box
   * with no change, started and resized to any `b`, cancels back to itself.
   */
  lemma CancelRestores(v: VolumeBoxRecord, c: Change, b: Box, paused: bool)
    requires v.change.None? && ChangeOf(v, c)
    ensures Cancelled(Started(v, c).(box := b, change := Some(c.(paused := paused)))) == v
  {
  }

  /** Confirming keeps the resized box and ends the change; cancelling does not keep it. */
  lemma ConfirmKeeps(v: VolumeBoxRecord, c: Change, b: Box)
    requires v.change.None? && ChangeOf(v, c)
    ensures Confirmed(Started(v, c).(box := b)) == v.(box := b)
    ensures Cancelled(Started(v, c).(box := b)).box == v.box
  {
  }

  /** getLockTargetsStream: every lock's targets, lock by lock. */
  function LockTargets(ls: seq<Lock>): seq<Target> {
    if |ls| == 0 then [] else ls[0].targets + LockTargets(ls[1..])
  }

  lemma {:induction false} LockTargetsSpec(ls: seq<Lock>, t: Target)
    ensures t in LockTargets(ls) <==> exists i :: 0 <= i < |ls| && t in ls[i].targets
    ensures LockTargets(ls + [Lock(CauseBlock(Pos(0, 0, 0), Block("")), [])]) == LockTargets(ls)
  {
    var empty := Lock(CauseBlock(Pos(0, 0, 0), Block("")), []);
    if |ls| > 0 {
      LockTargetsSpec(ls[1..], t);
      assert (ls + [empty])[1..] == ls[1..] + [empty];
      if t in LockTargets(ls[1..]) {
        var i :| 0 <= i < |ls[1..]| && t in ls[1..][i].targets;
        assert ls[i + 1] == ls[1..][i];
      }
      if exists i :: 0 <= i < |ls| && t in ls[i].targets {
        var i :| 0 <= i < |ls| && t in ls[i].targets;
        if i > 0 {
          assert ls[1..][i - 1] == ls[i];
        }
      }
    } else {
      assert ls + [empty] == [empty];
    }
  }

  /** UUID.hashCode: the two 64-bit halves xor-ed, then folded to 32 bits. */
  function ToBv64(n: int): bv64 {
    (n % 0x1_0000_0000_0000_0000) as bv64
  }

  function UuidHash(u: Uuid): (r: int)
    ensures IsInt32(r)
  {
    var hilo := ToBv64(u.most) ^ ToBv64(u.least);
    Wrap32((((hilo >> 32) ^ hilo) & 0xFFFF_FFFF) as int)
  }

  /** The hash depends on the xor of the halves only: swapping them leaves it unchanged. */
  lemma UuidHashSymmetric(u: Uuid)
    ensures UuidHash(u) == UuidHash(Uuid(u.least, u.most))
  {
    assert ToBv64(u.most) ^ ToBv64(u.least) == ToBv64(u.least) ^ ToBv64(u.most);
  }
}
