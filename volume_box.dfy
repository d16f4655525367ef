/**
 * The live volume box (VolumeBox.java): an object whose box, change, add-on
 * map and lock list are updated in place by the change life cycle and by
 * the network sync. Each method is tied to the value model in VolumeBoxData
 * through `View()`, so the round trips proved there carry over.
 */
module VolumeBoxes {
  import opened Wrappers
  import opened Values
  import opened Nbt
  import opened Packets
  import opened Boxes
  import opened Locks
  import opened Addons
  import opened VolumeBoxData

  /** Distinct slots hold distinct add-on objects. */
  ghost predicate Injective(m: map<nat, Addon>) {
    forall s, t :: s in m && t in m && s != t ==> m[s] != m[t]
  }

  /** The add-ons' classes and payloads, slot by slot. */
  function Records(m: map<nat, Addon>): map<nat, AddonRecord>
    reads m.Values
  {
    map s | s in m :: m[s].Record()
  }

  class VolumeBox {
    const id: Uuid
    var box: Box
    var change: Option<Change>
    var addons: map<nat, Addon>
    var locks: seq<Lock>

    ghost predicate Valid()
      reads this
    {
      && Sorted(box)
      && (change.Some? ==> Sorted(change.value.oldBox))
      && Injective(addons)
    }

    function View(): VolumeBoxRecord
      reads this, addons.Values
    {
      VolumeBoxRecord(id, box, change, Records(addons), locks)
    }

    /** VolumeBox(World, BlockPos): a one-block box at `at`; `freshId` stands for UUID.randomUUID. */
    constructor At(freshId: Uuid, at: Pos)
      ensures Valid()
      ensures View() == VolumeBoxRecord(freshId, Make(at, at), None, map[], [])
    {
      id := freshId;
      box := Make(at, at);
      change := None;
      addons := map[];
      locks := [];
    }

    /** A volume box holding the given parts (the decoding constructors end here). */
    constructor Of(id: Uuid, box: Box, change: Option<Change>, addons: map<nat, Addon>, locks: seq<Lock>)
      requires Sorted(box) && (change.Some? ==> Sorted(change.value.oldBox)) && Injective(addons)
      ensures Valid()
      ensures this.id == id && this.box == box && this.change == change
      ensures this.addons == addons && this.locks == locks
    {
      this.id := id;
      this.box := box;
      this.change := change;
      this.addons := addons;
      this.locks := locks;
    }

    /** equals: the same object, or a volume box with the same id; equal boxes hash equally. */
    predicate Equals(o: VolumeBox?): (r: bool)
      ensures r <==> o != null && o.id == id
      ensures r ==> o.HashCode() == HashCode()
    {
      this == o || (o != null && id == o.id)
    }

    function HashCode(): int {
      UuidHash(id)
    }

    /** startChange. */
    method StartChange(c: Change)
      requires Valid() && Sorted(c.oldBox)
      modifies this`change
      ensures Valid() && View() == Started(old(View()), c)
    {
      change := Some(c);
    }

    /** Change.cancel: the old box comes back and the change ends. */
    method Cancel()
      requires Valid() && change.Some?
      modifies this`box, this`change
      ensures Valid() && View() == Cancelled(old(View()))
    {
      box := change.value.oldBox;
      change := None;
    }

    /** Change.setPaused. */
    method SetPaused(paused: bool)
      requires Valid() && change.Some?
      modifies this`change
      ensures Valid() && View() == old(View()).(change := Some(old(change).value.(paused := paused)))
    {
      change := Some(change.value.(paused := paused));
    }

    /** Change.confirm: every add-on is told the size changed, once; the change ends. */
    method Confirm()
      requires Valid() && change.Some?
      modifies this`change, addons.Values
      ensures Valid() && View() == Confirmed(old(View()))
      ensures forall s :: s in addons ==>
        && addons[s].sizeChanges == old(addons[s].sizeChanges) + 1
        && addons[s].added == old(addons[s].added)
    {
      var todo := addons.Keys;
      while todo != {}
        invariant todo <= addons.Keys
        invariant forall s :: s in addons ==> addons[s].data == old(addons[s].data) && addons[s].added == old(addons[s].added)
        invariant forall s :: s in addons && s !in todo ==> addons[s].sizeChanges == old(addons[s].sizeChanges) + 1
        invariant forall s :: s in todo ==> addons[s].sizeChanges == old(addons[s].sizeChanges)
        decreases todo
      {
        var s :| s in todo;
        addons[s].OnVolumeBoxSizeChange();
        todo := todo - {s};
      }
      change := None;
      assert Records(addons) == old(Records(addons));
    }

    /**
     * toBytes: id, box, change flag and change, the add-on count and entries
     * in slot order, the lock count and locks. Every add-on's class must be
     * registered; the source dereferences the lookup without a check.
     */
    method ToBytes(buf: PacketBuffer, reg: seq<AddonType>, slotCount: nat)
      requires Valid() && buf.Valid()
      requires AllRegistered(Records(addons), reg)
      modifies buf
      ensures buf.Valid() && buf.readerIndex == old(buf.readerIndex)
      ensures buf.data == old(buf.data) + VolumeBoxBytes(old(View()), reg, slotCount)
    {
      ghost var v := View();
      ghost var p1 := [PUuid(id)] + BoxBytes(box) + ChangePartBytes(change);
      ghost var p2 := [PInt(|v.addons|)] + AddonsFrom(v.addons, 0, slotCount, reg);
      ghost var p3 := [PInt(|locks|)] + LocksBytes(locks);
      buf.Write(PUuid(id));
      WriteBox(buf, box);
      WriteChangePart(buf, change);
      Append3(old(buf.data), [PUuid(id)], BoxBytes(box), ChangePartBytes(change));
      ghost var head := buf.data;
      WriteAddons(buf, addons, v.addons, reg, slotCount);
      WriteLocks(buf, locks);
      VolumeBoxBytesParts(v, reg, slotCount, p1, p2, p3);
      Append3(old(buf.data), p1, p2, p3);
    }

    /**
     * fromBytes: the change, then the add-on entries read into new add-ons,
     * merged so that a slot that stays keeps its add-on object and is fed the
     * new add-on's payload, a dropped slot goes and a new slot gets the new
     * add-on; then the lock list is cleared and refilled. A failure part way
     * leaves what was already assigned, as SyncFromBytes says. `feed` is what
     * the add-on classes' fromBytes does.
     */
    method FromBytes(buf: PacketBuffer, reg: seq<AddonType>, slotCount: nat, feed: Feeding) returns (ok: bool)
      requires Valid() && buf.Valid()
      modifies this, buf, addons.Values
      ensures Valid() && buf.Valid() && buf.data == old(buf.data)
      ensures var r := SyncFromBytes(old(buf.Remaining()), reg, slotCount);
        && View() == Synced(old(View()), r, feed)
        && (ok <==> r.rest.Some?)
        && (ok ==> buf.Remaining() == r.rest.value)
        && Counters(addons) == (if r.addons.Some? then SyncedCounters(old(Counters(addons)), r.addons.value)
                                else old(Counters(addons)))
      ensures forall s :: s in addons && s in old(addons) ==> addons[s] == old(addons[s])
      ensures forall s :: s in addons && s !in old(addons) ==> fresh(addons[s])
    {
      ok := ReadChange(buf);
      if ok {
        ok := ReadRest(buf, reg, slotCount, feed);
      }
    }

    /** The start of fromBytes: the change part, assigned once it is read. */
    method ReadChange(buf: PacketBuffer) returns (ok: bool)
      requires Valid() && buf.Valid()
      modifies this`change, buf
      ensures Valid() && buf.Valid() && buf.data == old(buf.data)
      ensures addons == old(addons) && Records(addons) == old(Records(addons)) && Counters(addons) == old(Counters(addons))
      ensures var p := ParseChangePart(old(buf.Remaining()));
        && (ok <==> p.Some?)
        && change == (if ok then p.value.0 else old(change))
        && (ok ==> buf.Remaining() == p.value.1)
    {
      ghost var records, counters := Records(addons), Counters(addons);
      var c := ReadChangePart(buf);
      assert Records(addons) == records && Counters(addons) == counters;
      ok := c.Some?;
      if ok {
        change := c.value;
      }
    }

    /** The end of fromBytes: the lock part, the list assigned once its count is read. */
    method ReadLocks(buf: PacketBuffer, slotCount: nat) returns (ok: bool)
      requires buf.Valid()
      modifies this`locks, buf
      ensures buf.Valid() && buf.data == old(buf.data)
      ensures addons == old(addons) && Records(addons) == old(Records(addons)) && Counters(addons) == old(Counters(addons))
      ensures var (ls, rest) := ParseLockPart(old(buf.Remaining()), slotCount);
        locks == ls && (ok <==> rest.Some?) && (ok ==> buf.Remaining() == rest.value)
    {
      var ls;
      ls, ok := ReadLockPart(buf, slotCount);
      locks := ls;
    }

    /** fromBytes after the change: the add-on part, then the lock part. */
    method ReadRest(buf: PacketBuffer, reg: seq<AddonType>, slotCount: nat, feed: Feeding) returns (ok: bool)
      requires Valid() && buf.Valid()
      modifies this`addons, this`locks, buf, addons.Values
      ensures Valid() && buf.Valid() && buf.data == old(buf.data)
      ensures var p := ParseAddonPart(old(buf.Remaining()), reg, slotCount);
        && (p.None? ==> !ok && locks == old(locks) && addons == old(addons)
                        && Records(addons) == old(Records(addons)) && Counters(addons) == old(Counters(addons)))
        && (p.Some? ==>
              && Records(addons) == SyncedAddons(old(Records(addons)), FreshAddons(p.value.0, feed), feed)
              && Counters(addons) == SyncedCounters(old(Counters(addons)), p.value.0)
              && var (ls, rest) := ParseLockPart(p.value.1, slotCount);
                 locks == ls && (ok <==> rest.Some?) && (ok ==> buf.Remaining() == rest.value))
      ensures forall s :: s in addons && s in old(addons) ==> addons[s] == old(addons[s])
      ensures forall s :: s in addons && s !in old(addons) ==> fresh(addons[s])
    {
      ok := ReadAddonPart(buf, reg, slotCount, feed);
      if ok {
        ok := ReadLocks(buf, slotCount);
      }
    }

    /**
     * The add-on part of fromBytes: the count and the entries, then, once
     * all of them are read, the merge into the present add-ons.
     */
    method ReadAddonPart(buf: PacketBuffer, reg: seq<AddonType>, slotCount: nat, feed: Feeding) returns (ok: bool)
      requires Valid() && buf.Valid()
      modifies this`addons, buf, addons.Values
      ensures Valid() && buf.Valid() && buf.data == old(buf.data)
      ensures var p := ParseAddonPart(old(buf.Remaining()), reg, slotCount);
        && (ok <==> p.Some?)
        && (!ok ==> addons == old(addons) && Records(addons) == old(Records(addons)) && Counters(addons) == old(Counters(addons)))
        && (ok ==> && buf.Remaining() == p.value.1
                   && Records(addons) == SyncedAddons(old(Records(addons)), FreshAddons(p.value.0, feed), feed)
                   && Counters(addons) == SyncedCounters(old(Counters(addons)), p.value.0))
      ensures forall s :: s in addons && s in old(addons) ==> addons[s] == old(addons[s])
      ensures forall s :: s in addons && s !in old(addons) ==> fresh(addons[s])
    {
      ghost var records, counters := Records(addons), Counters(addons);
      var incoming;
      incoming, ok := ReadIncoming(buf, reg, slotCount, feed);
      assert Records(addons) == records && Counters(addons) == counters;
      if ok {
        ghost var m := ParseAddonPart(old(buf.Remaining()), reg, slotCount).value.0;
        ghost var fed := Records(incoming);
        Merge(incoming, feed);
        SyncedCountersKeys(counters, fed, m);
      }
    }

    /**
     * The merge step of fromBytes: slots not decoded are dropped, decoded
     * slots not present are added, and every new add-on's payload is fed,
     * through a scratch buffer, to the add-on now in its slot.
     */
    method Merge(newAddons: map<nat, Addon>, feed: Feeding)
      requires Valid() && Injective(newAddons) && newAddons.Values !! addons.Values
      requires forall s :: s in newAddons ==> newAddons[s].added == 1 && newAddons[s].sizeChanges == 0
      modifies this`addons, addons.Values, newAddons.Values
      ensures Valid() && addons == Merged(old(addons), newAddons)
      ensures forall s :: s in addons && s !in old(addons) ==> addons[s] in newAddons.Values
      ensures Records(addons) == SyncedAddons(old(Records(addons)), old(Records(newAddons)), feed)
      ensures Counters(addons) == SyncedCounters(old(Counters(addons)), old(Records(newAddons)))
    {
      var next := MergeAddons(addons, newAddons, feed);
      label fed:
      addons := next;
      AddonsFrame@fed(next);
    }
  }

  /** What add-ons hold does not change while they are left alone. */
  twostate lemma AddonsFrame(m: map<nat, Addon>)
    requires unchanged(m.Values)
    ensures Records(m) == old(Records(m)) && Counters(m) == old(Counters(m))
  {
  }

  /** The add-ons of `cur` and `incoming` merged, then fed the new payloads. */
  method MergeAddons(cur: map<nat, Addon>, incoming: map<nat, Addon>, feed: Feeding) returns (next: map<nat, Addon>)
    requires Injective(cur) && Injective(incoming) && incoming.Values !! cur.Values
    requires forall s :: s in incoming ==> incoming[s].added == 1 && incoming[s].sizeChanges == 0
    modifies cur.Values, incoming.Values
    ensures Injective(next) && next == Merged(cur, incoming)
    ensures Records(next) == SyncedAddons(old(Records(cur)), old(Records(incoming)), feed)
    ensures Counters(next) == SyncedCounters(old(Counters(cur)), old(Records(incoming)))
  {
    ghost var held := Records(cur);
    ghost var counters := Counters(cur);
    ghost var payload := Records(incoming);
    MergedInjective(cur, incoming);
    next := Merged(cur, incoming);
    Feed(next, incoming, feed);
    SyncedPointwise(next, held, counters, payload, feed);
  }

  /** The counters after a sync depend on the decoded slots only. */
  lemma SyncedCountersKeys(cur: map<nat, (nat, nat)>, m1: map<nat, AddonRecord>, m2: map<nat, AddonRecord>)
    requires m1.Keys == m2.Keys
    ensures SyncedCounters(cur, m1) == SyncedCounters(cur, m2)
  {
  }

  /** The add-ons after a sync, slot by slot, give SyncedAddons and SyncedCounters. */
  lemma SyncedPointwise(now: map<nat, Addon>, cur: map<nat, AddonRecord>, counters: map<nat, (nat, nat)>,
                        m: map<nat, AddonRecord>, feed: Feeding)
    requires now.Keys == m.Keys && cur.Keys == counters.Keys
    requires forall s :: s in now ==> now[s].clazz == (if s in cur then cur[s] else m[s]).clazz
    requires forall s :: s in now ==> now[s].data == feed(now[s].clazz, (if s in cur then cur[s] else m[s]).data, m[s].data)
    requires forall s :: s in now ==> (now[s].added, now[s].sizeChanges) == if s in counters then counters[s] else (1, 0)
    ensures Records(now) == SyncedAddons(cur, m, feed) && Counters(now) == SyncedCounters(counters, m)
  {
    assert Records(now) == SyncedAddons(cur, m, feed);
  }

  /** The add-on part of fromBytes: the count, then that many entries read into new add-ons. */
  method ReadIncoming(buf: PacketBuffer, reg: seq<AddonType>, slotCount: nat, feed: Feeding)
    returns (incoming: map<nat, Addon>, ok: bool)
    requires buf.Valid()
    modifies buf
    ensures buf.Valid() && buf.data == old(buf.data)
    ensures Injective(incoming) && fresh(incoming.Values)
    ensures forall s :: s in incoming ==> incoming[s].added == 1 && incoming[s].sizeChanges == 0
    ensures var p := ParseAddonPart(old(buf.Remaining()), reg, slotCount);
      && (ok <==> p.Some?)
      && (ok ==> buf.Remaining() == p.value.1 && Records(incoming) == FreshAddons(p.value.0, feed))
  {
    var count := buf.ReadInt();
    if count.None? {
      return map[], false;
    }
    incoming, ok := ReadAddons(buf, Count(count.value), reg, slotCount, feed);
  }

  /** The end of fromBytes: the lock list is cleared, then the count and that many locks are read. */
  method ReadLockPart(buf: PacketBuffer, slotCount: nat) returns (ls: seq<Lock>, ok: bool)
    requires buf.Valid()
    modifies buf
    ensures buf.Valid() && buf.data == old(buf.data)
    ensures var (locks, rest) := ParseLockPart(old(buf.Remaining()), slotCount);
      ls == locks && (ok <==> rest.Some?) && (ok ==> buf.Remaining() == rest.value)
  {
    var count := buf.ReadInt();
    if count.None? {
      return [], false;
    }
    ls, ok := ReadLockList(buf, Count(count.value), slotCount);
  }

  /** The counters of each slot's add-on. */
  function Counters(m: map<nat, Addon>): map<nat, (nat, nat)>
    reads m.Values
  {
    map s | s in m :: (m[s].added, m[s].sizeChanges)
  }

  /** The map fromBytes leaves: the decoded slots, keeping the object of a slot that stays. */
  function Merged(cur: map<nat, Addon>, incoming: map<nat, Addon>): map<nat, Addon> {
    map s | s in incoming :: if s in cur then cur[s] else incoming[s]
  }

  /** Merging keeps slots apart, and a decoded add-on sits in its own slot or nowhere. */
  lemma MergedInjective(cur: map<nat, Addon>, incoming: map<nat, Addon>)
    requires Injective(cur) && Injective(incoming) && cur.Values !! incoming.Values
    ensures Injective(Merged(cur, incoming))
    ensures Merged(cur, incoming).Values <= cur.Values + incoming.Values
    ensures forall s, t :: s in incoming && t in incoming && incoming[s] == Merged(cur, incoming)[t] ==> s == t
  {
    var m := Merged(cur, incoming);
    forall s, t | s in m && t in m && s != t
      ensures m[s] != m[t]
    {
      if s in cur && t !in cur {
        assert m[s] in cur.Values && m[t] in incoming.Values;
      } else if s !in cur && t in cur {
        assert m[t] in cur.Values && m[s] in incoming.Values;
      }
    }
    forall a | a in m.Values
      ensures a in cur.Values + incoming.Values
    {
      var t :| t in m && m[t] == a;
      if t in cur {
        assert cur[t] in cur.Values;
      } else {
        assert incoming[t] in incoming.Values;
      }
    }
    forall s, t | s in incoming && t in incoming && t in cur
      ensures incoming[s] != m[t]
    {
      assert incoming[s] in incoming.Values && cur[t] in cur.Values;
    }
  }

  /** The copy loop of fromBytes: each slot's payload, through a scratch buffer, fed to `dst`'s add-on. */
  method Feed(dst: map<nat, Addon>, src: map<nat, Addon>, feed: Feeding)
    requires dst.Keys == src.Keys && Injective(dst)
    requires forall s, t :: s in src && t in dst && src[s] == dst[t] ==> s == t
    modifies dst.Values
    ensures forall s :: s in dst ==> dst[s].data == feed(dst[s].clazz, old(dst[s].data), old(src[s].data))
    ensures forall s :: s in dst ==> dst[s].added == old(dst[s].added) && dst[s].sizeChanges == old(dst[s].sizeChanges)
  {
    var todo := dst.Keys;
    while todo != {}
      invariant todo <= dst.Keys
      invariant forall s :: s in todo ==> src[s].data == old(src[s].data) && dst[s].data == old(dst[s].data)
      invariant forall s :: s in dst && s !in todo ==> dst[s].data == feed(dst[s].clazz, old(dst[s].data), old(src[s].data))
      invariant forall s :: s in dst ==> dst[s].added == old(dst[s].added) && dst[s].sizeChanges == old(dst[s].sizeChanges)
      decreases todo
    {
      var s :| s in todo;
      assert forall t :: t in todo && t != s ==> src[t] != dst[s] && dst[t] != dst[s];
      FeedOne(dst[s], src[s], feed);
      todo := todo - {s};
    }
  }

  /** One pass of the copy loop: `src` writes its payload to a scratch buffer, which `dst` reads. */
  method FeedOne(dst: Addon, src: Addon, feed: Feeding)
    modifies dst
    ensures dst.data == feed(dst.clazz, old(dst.data), old(src.data))
    ensures dst.added == old(dst.added) && dst.sizeChanges == old(dst.sizeChanges)
  {
    var scratch := new PacketBuffer.Empty();
    src.ToBytes(scratch);
    assert scratch.Remaining() == [PData(src.data)];
    var copied := dst.FromBytes(scratch, feed);
  }

  /** The entries toBytes writes for slots `from` up to `slotCount`, walking the slots in order. */
  function AddonsFrom(m: map<nat, AddonRecord>, from: nat, slotCount: nat, reg: seq<AddonType>): seq<Prim>
    requires AllRegistered(m, reg)
    decreases slotCount - from
  {
    if from >= slotCount then []
    else (if from in m then [PEnum(from), PString(ByClass(reg, m[from].clazz).value.name), PData(m[from].data)] else [])
         + AddonsFrom(m, from + 1, slotCount, reg)
  }

  /** Walking the slots writes exactly the entries of the slot-ordered key list. */
  lemma {:induction false} AddonsFromSlots(m: map<nat, AddonRecord>, from: nat, slotCount: nat, reg: seq<AddonType>)
    requires AllRegistered(m, reg)
    ensures AddonsFrom(m, from, slotCount, reg) == AddonsBytes(m, SlotsFrom(m.Keys, from, slotCount), reg)
    decreases slotCount - from
  {
    if from < slotCount {
      AddonsFromSlots(m, from + 1, slotCount, reg);
      var tail := SlotsFrom(m.Keys, from + 1, slotCount);
      if from in m {
        assert ([from] + tail)[1..] == tail;
      } else {
        assert SlotsFrom(m.Keys, from, slotCount) == tail;
      }
    }
  }

  /** The binary form in the pieces toBytes writes. */
  lemma VolumeBoxBytesParts(v: VolumeBoxRecord, reg: seq<AddonType>, slotCount: nat, p1: seq<Prim>, p2: seq<Prim>, p3: seq<Prim>)
    requires AllRegistered(v.addons, reg)
    requires p1 == [PUuid(v.id)] + BoxBytes(v.box) + ChangePartBytes(v.change)
    requires p2 == [PInt(|v.addons|)] + AddonsFrom(v.addons, 0, slotCount, reg)
    requires p3 == [PInt(|v.locks|)] + LocksBytes(v.locks)
    ensures VolumeBoxBytes(v, reg, slotCount) == p1 + p2 + p3
  {
    AddonsFromSlots(v.addons, 0, slotCount, reg);
    var c := ChangePartBytes(v.change);
    assert SyncBytes(v, reg, slotCount) == c + p2 + p3;
    assert VolumeBoxBytes(v, reg, slotCount) == [PUuid(v.id)] + BoxBytes(v.box) + (c + p2 + p3);
    Append3([PUuid(v.id)] + BoxBytes(v.box), c, p2, p3);
  }

  lemma Append3(a: seq<Prim>, b: seq<Prim>, c: seq<Prim>, d: seq<Prim>)
    ensures a + b + c + d == a + (b + c + d)
  {
  }

  /** The add-on part of toBytes: the count, then slot, type name and payload in slot order. */
  method WriteAddons(buf: PacketBuffer, addons: map<nat, Addon>, ghost m: map<nat, AddonRecord>, reg: seq<AddonType>, slotCount: nat)
    requires buf.Valid() && AllRegistered(m, reg)
    requires addons.Keys == m.Keys && forall s :: s in addons ==> addons[s].Record() == m[s]
    modifies buf
    ensures buf.Valid() && buf.readerIndex == old(buf.readerIndex)
    ensures buf.data == old(buf.data) + ([PInt(|m|)] + AddonsFrom(m, 0, slotCount, reg))
  {
    assert |m| == |addons|;
    buf.Write(PInt(|addons|));
    ghost var goal := buf.data + AddonsFrom(m, 0, slotCount, reg);
    var slot := 0;
    while slot < slotCount
      invariant slot <= slotCount && buf.Valid() && buf.readerIndex == old(buf.readerIndex)
      invariant buf.data + AddonsFrom(m, slot, slotCount, reg) == goal
    {
      WriteAddonAt(buf, addons, m, reg, slot, slotCount);
      slot := slot + 1;
    }
    assert buf.data + [] == buf.data;
  }

  /** The entry for `slot`, when it holds an add-on, leaving the later slots' entries still to write. */
  method WriteAddonAt(buf: PacketBuffer, addons: map<nat, Addon>, ghost m: map<nat, AddonRecord>, reg: seq<AddonType>,
                      slot: nat, slotCount: nat)
    requires buf.Valid() && AllRegistered(m, reg) && slot < slotCount
    requires addons.Keys == m.Keys && (slot in addons ==> addons[slot].Record() == m[slot])
    modifies buf
    ensures buf.Valid() && buf.readerIndex == old(buf.readerIndex)
    ensures buf.data + AddonsFrom(m, slot + 1, slotCount, reg) == old(buf.data) + AddonsFrom(m, slot, slotCount, reg)
  {
    ghost var tail := AddonsFrom(m, slot + 1, slotCount, reg);
    if slot in addons {
      ghost var entry := [PEnum(slot), PString(ByClass(reg, m[slot].clazz).value.name), PData(m[slot].data)];
      assert AddonsFrom(m, slot, slotCount, reg) == entry + tail;
      WriteEntry(buf, slot, ByClass(reg, addons[slot].clazz).value.name, addons[slot]);
      assert buf.data + tail == old(buf.data) + (entry + tail);
    } else {
      assert [] + tail == tail;
    }
  }

  /** One add-on entry of toBytes: its slot, its type's name, its payload. */
  method WriteEntry(buf: PacketBuffer, slot: nat, name: string, a: Addon)
    requires buf.Valid()
    modifies buf
    ensures buf.Valid() && buf.readerIndex == old(buf.readerIndex)
    ensures buf.data == old(buf.data) + [PEnum(slot), PString(name), PData(a.data)]
  {
    buf.Write(PEnum(slot));
    buf.Write(PString(name));
    a.ToBytes(buf);
  }

  /** Lock `i` of `locks`, leaving the remaining locks' bytes still to write. */
  method WriteNextLock(buf: PacketBuffer, locks: seq<Lock>, i: nat)
    requires buf.Valid() && i < |locks|
    modifies buf
    ensures buf.Valid() && buf.readerIndex == old(buf.readerIndex)
    ensures buf.data + LocksBytes(locks[i + 1..]) == old(buf.data) + LocksBytes(locks[i..])
  {
    assert locks[i..][1..] == locks[i + 1..];
    WriteLock(buf, locks[i]);
  }

  /** The lock part of toBytes: the count, then each lock. */
  method WriteLocks(buf: PacketBuffer, locks: seq<Lock>)
    requires buf.Valid()
    modifies buf
    ensures buf.Valid() && buf.readerIndex == old(buf.readerIndex)
    ensures buf.data == old(buf.data) + ([PInt(|locks|)] + LocksBytes(locks))
  {
    buf.Write(PInt(|locks|));
    ghost var goal := buf.data + LocksBytes(locks);
    assert goal == old(buf.data) + ([PInt(|locks|)] + LocksBytes(locks));
    var i := 0;
    while i < |locks|
      invariant i <= |locks| && buf.Valid() && buf.readerIndex == old(buf.readerIndex)
      invariant buf.data + LocksBytes(locks[i..]) == goal
    {
      WriteNextLock(buf, locks, i);
      i := i + 1;
    }
    assert locks[i..] == [];
    assert buf.data + LocksBytes(locks[i..]) == buf.data;
  }

  /** `n` locks in a row: the ones read before a failure, and whether all `n` were read. */
  method ReadLockList(buf: PacketBuffer, n: nat, slotCount: nat) returns (ls: seq<Lock>, ok: bool)
    requires buf.Valid()
    modifies buf
    ensures buf.Valid() && buf.data == old(buf.data)
    ensures ls == ParseLocksFrom(old(buf.Remaining()), n, slotCount).0
    ensures ok <==> ParseLocksFrom(old(buf.Remaining()), n, slotCount).1.Some?
    ensures ok ==> buf.Remaining() == ParseLocksFrom(old(buf.Remaining()), n, slotCount).1.value
  {
    ghost var start := buf.Remaining();
    ls := [];
    var i := 0;
    while i < n
      invariant i <= n && buf.Valid() && buf.data == old(buf.data)
      invariant ls + ParseLocksFrom(buf.Remaining(), n - i, slotCount).0 == ParseLocksFrom(start, n, slotCount).0
      invariant ParseLocksFrom(buf.Remaining(), n - i, slotCount).1 == ParseLocksFrom(start, n, slotCount).1
    {
      ghost var here := buf.Remaining();
      var l := ReadLock(buf, slotCount);
      LocksFromStep(here, n - i, slotCount, l, buf.Remaining());
      if l.None? {
        return ls, false;
      }
      assert ls + [l.value] + ParseLocksFrom(buf.Remaining(), n - i - 1, slotCount).0
          == ls + ([l.value] + ParseLocksFrom(buf.Remaining(), n - i - 1, slotCount).0);
      ls := ls + [l.value];
      i := i + 1;
    }
    ok := true;
  }

  /** One step of ParseLocksFrom, given what ParseLock read. */
  lemma LocksFromStep(s: seq<Prim>, n: nat, slotCount: nat, l: Option<Lock>, after: seq<Prim>)
    requires n > 0 && Consumed(l, ParseLock(s, slotCount), after)
    ensures l.None? ==> ParseLocksFrom(s, n, slotCount) == ([], None)
    ensures l.Some? ==> ParseLocksFrom(s, n, slotCount)
                        == ([l.value] + ParseLocksFrom(after, n - 1, slotCount).0, ParseLocksFrom(after, n - 1, slotCount).1)
  {
  }

  /** Change.toBytes behind its flag. */
  method WriteChangePart(buf: PacketBuffer, c: Option<Change>)
    requires buf.Valid()
    modifies buf
    ensures buf.Valid() && buf.data == old(buf.data) + ChangePartBytes(c) && buf.readerIndex == old(buf.readerIndex)
  {
    buf.Write(PBool(c.Some?));
    if c.Some? {
      buf.Write(PUuid(c.value.playerId));
      WriteBox(buf, c.value.oldBox);
      buf.Write(PPos(c.value.held));
      buf.Write(PDouble(c.value.dist));
      buf.Write(PBool(c.value.paused));
    }
  }

  /** Change(PacketBufferBC). */
  method ReadChange(buf: PacketBuffer) returns (r: Option<Change>)
    requires buf.Valid()
    modifies buf
    ensures buf.Valid() && buf.data == old(buf.data)
    ensures Consumed(r, ParseChange(old(buf.Remaining())), buf.Remaining())
    ensures r.Some? ==> Sorted(r.value.oldBox)
  {
    var player := buf.ReadUuid();
    if player.None? {
      return None;
    }
    var oldBox := ReadBox(buf);
    if oldBox.None? {
      return None;
    }
    var held := buf.ReadPos();
    if held.None? {
      return None;
    }
    var dist := buf.ReadDouble();
    if dist.None? {
      return None;
    }
    var paused := buf.ReadBool();
    if paused.None? {
      return None;
    }
    r := Some(Change(player.value, oldBox.value, held.value, dist.value, paused.value));
  }

  /** The change flag, then the change when it is set. */
  method ReadChangePart(buf: PacketBuffer) returns (r: Option<Option<Change>>)
    requires buf.Valid()
    modifies buf
    ensures buf.Valid() && buf.data == old(buf.data)
    ensures Consumed(r, ParseChangePart(old(buf.Remaining())), buf.Remaining())
    ensures r.Some? && r.value.Some? ==> Sorted(r.value.value.oldBox)
  {
    var flag := buf.ReadBool();
    if flag.None? {
      return None;
    }
    if !flag.value {
      return Some(None);
    }
    var c := ReadChange(buf);
    if c.None? {
      return None;
    }
    r := Some(c);
  }

  /** A fresh add-on in a new slot keeps the slots apart. */
  lemma InjectiveAdd(m: map<nat, Addon>, k: nat, a: Addon)
    requires Injective(m) && a !in m.Values
    ensures Injective(m[k := a]) && m[k := a].Values <= m.Values + {a}
  {
    var m' := m[k := a];
    forall s | s in m
      ensures m[s] != a
    {
      assert m[s] in m.Values;
    }
    forall o | o in m'.Values
      ensures o in m.Values + {a}
    {
      var s :| s in m' && m'[s] == o;
      if s != k {
        assert m[s] in m.Values;
      }
    }
  }

  /**
   * One entry of the add-on loop of fromBytes: the slot, the type name and,
   * when the name is registered, a new add-on, told it was added, that reads
   * its payload; `a` is null for an unregistered name.
   */
  method ReadAddonEntry(buf: PacketBuffer, reg: seq<AddonType>, slotCount: nat, feed: Feeding)
    returns (slot: nat, a: Addon?, ok: bool)
    requires buf.Valid()
    modifies buf
    ensures buf.Valid() && buf.data == old(buf.data)
    ensures ok <==> ParseAddonEntry(old(buf.Remaining()), reg, slotCount).Some?
    ensures ok ==>
      var ((sl, rec), rest) := ParseAddonEntry(old(buf.Remaining()), reg, slotCount).value;
      && slot == sl && buf.Remaining() == rest && (a == null <==> rec.None?)
      && (a != null ==> fresh(a) && a.Record() == FreshAddon(rec.value, feed) && a.added == 1 && a.sizeChanges == 0)
  {
    var s := buf.ReadEnum(slotCount);
    if s.None? {
      return 0, null, false;
    }
    slot := s.value;
    var name := buf.ReadString(MAX_STRING);
    if name.None? {
      return slot, null, false;
    }
    var t := ByName(reg, name.value);
    if t.None? {
      return slot, null, true;
    }
    var addon := new Addon(t.value);
    addon.OnAdded();
    ok := addon.FromBytes(buf, feed);
    a := if ok then addon else null;
  }

  /**
   * One pass of the add-on loop of fromBytes: the entry read is put in its
   * slot. `raw` are the entries decoded so far, of which `cur` holds the new
   * add-ons.
   */
  method ReadAddonInto(buf: PacketBuffer, cur: map<nat, Addon>, ghost raw: map<nat, AddonRecord>,
                       reg: seq<AddonType>, slotCount: nat, feed: Feeding)
    returns (next: map<nat, Addon>, ok: bool)
    requires buf.Valid() && Injective(cur) && Records(cur) == FreshAddons(raw, feed)
    modifies buf
    ensures buf.Valid() && buf.data == old(buf.data)
    ensures Injective(next) && fresh(next.Values - cur.Values)
    ensures forall s :: s in next ==> (s in cur && next[s] == cur[s]) || (next[s].added == 1 && next[s].sizeChanges == 0)
    ensures ok <==> ParseAddonEntry(old(buf.Remaining()), reg, slotCount).Some?
    ensures ok ==>
      var (e, rest) := ParseAddonEntry(old(buf.Remaining()), reg, slotCount).value;
      buf.Remaining() == rest && Records(next) == FreshAddons(WithEntry(raw, e), feed)
  {
    ghost var entry := ParseAddonEntry(buf.Remaining(), reg, slotCount);
    label start:
    var slot, a, read := ReadAddonEntry(buf, reg, slotCount, feed);
    AddonsFrame@start(cur);
    ok := read;
    next := cur;
    if read && a != null {
      ghost var e := entry.value.0;
      next := PutAddon(cur, raw, slot, a, e.1.value, feed);
      assert WithEntry(raw, e) == raw[slot := e.1.value];
    }
  }

  /** A new add-on, read from the entry `rec`, put in its slot. */
  method PutAddon(cur: map<nat, Addon>, ghost raw: map<nat, AddonRecord>, slot: nat, a: Addon,
                  ghost rec: AddonRecord, feed: Feeding) returns (next: map<nat, Addon>)
    requires Injective(cur) && a !in cur.Values
    requires Records(cur) == FreshAddons(raw, feed) && a.Record() == FreshAddon(rec, feed)
    ensures next == cur[slot := a] && Injective(next)
    ensures Records(next) == FreshAddons(raw[slot := rec], feed)
  {
    InjectiveAdd(cur, slot, a);
    next := cur[slot := a];
    RecordsUpdate(cur, slot, a);
    FreshAddonsUpdate(raw, slot, rec, feed);
  }

  lemma RecordsUpdate(m: map<nat, Addon>, k: nat, a: Addon)
    ensures Records(m[k := a]) == Records(m)[k := a.Record()]
  {
  }

  lemma FreshAddonsUpdate(m: map<nat, AddonRecord>, k: nat, a: AddonRecord, feed: Feeding)
    ensures FreshAddons(m[k := a], feed) == FreshAddons(m, feed)[k := FreshAddon(a, feed)]
  {
  }

  /**
   * The add-on loop of fromBytes: `n` entries read into a new map of new
   * add-ons, a later entry for a slot replacing an earlier one.
   */
  method ReadAddons(buf: PacketBuffer, n: nat, reg: seq<AddonType>, slotCount: nat, feed: Feeding)
    returns (newAddons: map<nat, Addon>, ok: bool)
    requires buf.Valid()
    modifies buf
    ensures buf.Valid() && buf.data == old(buf.data)
    ensures Injective(newAddons) && fresh(newAddons.Values)
    ensures forall s :: s in newAddons ==> newAddons[s].added == 1 && newAddons[s].sizeChanges == 0
    ensures var p := ParseAddons(old(buf.Remaining()), n, reg, slotCount, map[]);
      && (ok <==> p.Some?)
      && (ok ==> Records(newAddons) == FreshAddons(p.value.0, feed) && buf.Remaining() == p.value.1)
  {
    ghost var s0 := buf.Remaining();
    ghost var raw: map<nat, AddonRecord> := map[];
    newAddons := map[];
    assert Records(newAddons) == FreshAddons(raw, feed);
    var i := 0;
    while i < n
      invariant i <= n && buf.Valid() && buf.data == old(buf.data)
      invariant Injective(newAddons) && fresh(newAddons.Values)
      invariant forall s :: s in newAddons ==> newAddons[s].added == 1 && newAddons[s].sizeChanges == 0
      invariant Records(newAddons) == FreshAddons(raw, feed)
      invariant ParseAddons(s0, n, reg, slotCount, map[]) == ParseAddons(buf.Remaining(), n - i, reg, slotCount, raw)
    {
      ghost var here := buf.Remaining();
      ParseAddonsStep(here, n - i, reg, slotCount, raw);
      var next, read := ReadAddonInto(buf, newAddons, raw, reg, slotCount, feed);
      if !read {
        return newAddons, false;
      }
      raw := WithEntry(raw, ParseAddonEntry(here, reg, slotCount).value.0);
      newAddons := next;
      i := i + 1;
    }
    ok := true;
  }

  /** VolumeBox(World, PacketBufferBC): a new volume box from its id and box. */
  method ReadVolumeBox(buf: PacketBuffer) returns (r: Option<VolumeBox>)
    requires buf.Valid()
    modifies buf
    ensures buf.Valid() && buf.data == old(buf.data)
    ensures ParseHeader(old(buf.Remaining())).None? <==> r.None?
    ensures r.Some? ==>
      && fresh(r.value) && r.value.Valid()
      && var (h, rest) := ParseHeader(old(buf.Remaining())).value;
         r.value.View() == VolumeBoxRecord(h.0, h.1, None, map[], []) && buf.Remaining() == rest
  {
    var id := buf.ReadUuid();
    if id.None? {
      return None;
    }
    var box := ReadBox(buf);
    if box.None? {
      return None;
    }
    var vb := new VolumeBox.Of(id.value, box.value, None, map[], []);
    r := Some(vb);
  }

  /**
   * One pass of the add-on loop of the NBT constructor: a registered entry
   * becomes a new add-on that reads its payload and is put in its slot.
   */
  method LoadAddonInto(tag: Compound, cur: map<nat, Addon>, reg: seq<AddonType>, slotNames: seq<string>)
    returns (next: map<nat, Addon>, ok: bool)
    requires Injective(cur)
    ensures Injective(next) && fresh(next.Values - cur.Values)
    ensures forall s :: s in next ==> (s in cur && next[s] == cur[s]) || (next[s].added == 0 && next[s].sizeChanges == 0)
    ensures ok <==> AddonEntryFromNbt(tag, reg, slotNames).Some?
    ensures ok ==> Records(next) == WithEntry(Records(cur), AddonEntryFromNbt(tag, reg, slotNames).value)
  {
    next := cur;
    var t := ByName(reg, GetString(tag, "typeName"));
    if t.None? {
      return next, true;
    }
    ghost var before := Records(cur);
    var a := new Addon(t.value);
    a.ReadFromNbt(GetCompoundTag(tag, "data"));
    var slot := ReadEnum(GetTag(tag, "slot"), slotNames);
    if slot.None? {
      return next, false;
    }
    assert Records(cur) == before;
    InjectiveAdd(cur, slot.value, a);
    next := cur[slot.value := a];
    RecordsUpdate(cur, slot.value, a);
    ok := true;
  }

  /** The add-on loop of the NBT constructor, one new add-on per registered entry. */
  method LoadAddons(tags: seq<Compound>, reg: seq<AddonType>, slotNames: seq<string>)
    returns (objs: map<nat, Addon>, ok: bool)
    ensures Injective(objs) && fresh(objs.Values)
    ensures forall s :: s in objs ==> objs[s].added == 0 && objs[s].sizeChanges == 0
    ensures ok <==> AddonsFromNbt(tags, reg, slotNames, map[]).Some?
    ensures ok ==> Records(objs) == AddonsFromNbt(tags, reg, slotNames, map[]).value
  {
    objs := map[];
    var i := 0;
    while i < |tags|
      invariant i <= |tags|
      invariant Injective(objs) && fresh(objs.Values)
      invariant forall s :: s in objs ==> objs[s].added == 0 && objs[s].sizeChanges == 0
      invariant AddonsFromNbt(tags, reg, slotNames, map[]) == AddonsFromNbt(tags[i..], reg, slotNames, Records(objs))
    {
      AddonsFromNbtStep(tags[i..], reg, slotNames, Records(objs));
      assert tags[i..][1..] == tags[i + 1..];
      var next, read := LoadAddonInto(tags[i], objs, reg, slotNames);
      if !read {
        return objs, false;
      }
      objs := next;
      i := i + 1;
    }
    ok := true;
  }

  /**
   * VolumeBox(World, NBTTagCompound): a new volume box whose view is the
   * decoded record, with a new add-on object per decoded slot; None where
   * the source's constructor throws.
   */
  method LoadVolumeBox(nbt: Compound, reg: seq<AddonType>, slotNames: seq<string>, freshId: Uuid)
    returns (r: Option<VolumeBox>)
    ensures r.None? <==> VolumeBoxFromNbt(nbt, reg, slotNames, freshId).None?
    ensures r.Some? ==>
      && fresh(r.value) && fresh(r.value.addons.Values) && r.value.Valid()
      && r.value.View() == VolumeBoxFromNbt(nbt, reg, slotNames, freshId).value
      && forall s :: s in r.value.addons ==> r.value.addons[s].added == 0 && r.value.addons[s].sizeChanges == 0
  {
    var box := BoxFromNbt(GetCompoundTag(nbt, "box"));
    if box.None? {
      return None;
    }
    var change := if HasKey(nbt, "change") then ChangeFromNbt(GetCompoundTag(nbt, "change")) else None;
    if HasKey(nbt, "change") && change.None? {
      return None;
    }
    var objs, ok := LoadAddons(ReadCompoundList(GetTag(nbt, "addons")), reg, slotNames);
    if !ok {
      return None;
    }
    var vb := new VolumeBox.Of(StoredId(nbt, freshId), box.value, change, objs,
                               LocksFromNbt(ReadCompoundList(GetTag(nbt, "locks")), slotNames));
    r := Some(vb);
  }
}
