/**
 * WorldSavedDataVolumeBoxes: the per-world list of volume boxes. The list
 * is appended to and replaced; the tick walks it and updates each box in
 * place. `dirty` stands for the storage's save flag (set by the base
 * class's markDirty) and `sent` for the MessageVolumeBoxes broadcasts to the
 * dimension, each holding the boxes as they were when it was sent.
 */
module SavedData {
  import opened Wrappers
  import opened Values
  import opened Nbt
  import opened Boxes
  import opened Addons
  import opened Worlds
  import opened VolumeBoxData
  import opened VolumeBoxes
  import opened Ticks

  /** The add-on objects of a list of volume boxes. */
  function AddonObjects(bs: seq<VolumeBox>): set<Addon>
    reads bs
  {
    set b, a | b in bs && a in b.addons.Values :: a
  }

  /** The value of each box, in list order. */
  function ViewsOf(bs: seq<VolumeBox>): (r: seq<VolumeBoxRecord>)
    reads bs, AddonObjects(bs)
    ensures |r| == |bs| && forall i :: 0 <= i < |bs| ==> r[i] == bs[i].View()
  {
    if |bs| == 0 then []
    else
      assert AddonObjects(bs[1..]) <= AddonObjects(bs);
      [bs[0].View()] + ViewsOf(bs[1..])
  }

  /** A box added at the end adds its value at the end. */
  lemma ViewsOfAppend(bs: seq<VolumeBox>, b: VolumeBox)
    ensures ViewsOf(bs + [b]) == ViewsOf(bs) + [b.View()]
  {
  }

  /** The three first-match queries. */
  datatype Query = At(pos: Pos) | WithId(id: Uuid) | ChangedBy(player: Uuid)

  predicate Matches(b: VolumeBox, q: Query)
    reads b
  {
    match q
    case At(pos) => Contains(b.box, pos)
    case WithId(id) => b.id == id
    case ChangedBy(player) => b.change.Some? && b.change.value.playerId == player
  }

  /** Each box's compound, or None for a box with an unregistered add-on. */
  function EncodedBoxes(vs: seq<VolumeBoxRecord>, reg: seq<AddonType>, slotNames: seq<string>): (r: seq<Option<Compound>>)
    requires forall i :: 0 <= i < |vs| ==> WellFormed(vs[i], slotNames)
    ensures |r| == |vs|
  {
    if |vs| == 0 then []
    else EncodedBoxes(vs[..|vs| - 1], reg, slotNames) + [VolumeBoxToNbt(vs[|vs| - 1], reg, slotNames)]
  }

  /** Entry `i` of the encoded list is box `i` written on its own. */
  lemma {:induction false} EncodedBoxesAt(vs: seq<VolumeBoxRecord>, reg: seq<AddonType>, slotNames: seq<string>, i: nat)
    requires forall i :: 0 <= i < |vs| ==> WellFormed(vs[i], slotNames)
    requires i < |vs|
    ensures EncodedBoxes(vs, reg, slotNames)[i] == VolumeBoxToNbt(vs[i], reg, slotNames)
  {
    if i < |vs| - 1 {
      EncodedBoxesAt(vs[..|vs| - 1], reg, slotNames, i);
    }
  }

  /** All the values, when none is missing. */
  function AllPresent<T>(rs: seq<Option<T>>): Option<seq<T>> {
    if |rs| == 0 then Some([])
    else match rs[0]
      case None => None
      case Some(v) =>
        match AllPresent(rs[1..])
        case None => None
        case Some(vs) => Some([v] + vs)
  }

  /** AllPresent fails iff some value is missing, and otherwise lists the values in order. */
  lemma {:induction false} AllPresentIff<T>(rs: seq<Option<T>>)
    ensures AllPresent(rs).Some? <==> forall i :: 0 <= i < |rs| ==> rs[i].Some?
    ensures AllPresent(rs).Some? ==>
      |AllPresent(rs).value| == |rs| && forall i :: 0 <= i < |rs| ==> rs[i] == Some(AllPresent(rs).value[i])
  {
    if |rs| > 0 {
      AllPresentIff(rs[1..]);
      assert forall i :: 1 <= i < |rs| ==> rs[i] == rs[1..][i - 1];
    }
  }

  /** writeToNBT's list: each box's compound, or None when one of them has an unregistered add-on. */
  function BoxesToNbt(vs: seq<VolumeBoxRecord>, reg: seq<AddonType>, slotNames: seq<string>): Option<seq<Compound>>
    requires forall i :: 0 <= i < |vs| ==> WellFormed(vs[i], slotNames)
  {
    AllPresent(EncodedBoxes(vs, reg, slotNames))
  }

  /** Each entry of readFromNBT's list through the NBT constructor; entry `i` draws `ids(i)` when it stores no id. */
  function Decoded(tags: seq<Compound>, reg: seq<AddonType>, slotNames: seq<string>, ids: nat -> Uuid)
    : (r: seq<Option<VolumeBoxRecord>>)
    ensures |r| == |tags|
  {
    if |tags| == 0 then []
    else Decoded(tags[..|tags| - 1], reg, slotNames, ids) + [VolumeBoxFromNbt(tags[|tags| - 1], reg, slotNames, ids(|tags| - 1))]
  }

  /** Entry `i` of the decoded list is entry `i` of the stored list, read on its own. */
  lemma {:induction false} DecodedAt(tags: seq<Compound>, reg: seq<AddonType>, slotNames: seq<string>, ids: nat -> Uuid, i: nat)
    requires i < |tags|
    ensures Decoded(tags, reg, slotNames, ids)[i] == VolumeBoxFromNbt(tags[i], reg, slotNames, ids(i))
  {
    if i < |tags| - 1 {
      DecodedAt(tags[..|tags| - 1], reg, slotNames, ids, i);
    }
  }

  /**
   * The stream of decoded boxes up to the first one whose constructor
   * throws, and whether none did.
   */
  function UntilFailure<T>(rs: seq<Option<T>>): (seq<T>, bool) {
    if |rs| == 0 then ([], true)
    else match rs[0]
      case None => ([], false)
      case Some(v) =>
        var (vs, ok) := UntilFailure(rs[1..]);
        ([v] + vs, ok)
  }

  /** readFromNBT's list: the boxes read before the first failing entry, and whether every entry was read. */
  function BoxesFromNbt(tags: seq<Compound>, reg: seq<AddonType>, slotNames: seq<string>, ids: nat -> Uuid)
    : (seq<VolumeBoxRecord>, bool)
  {
    UntilFailure(Decoded(tags, reg, slotNames, ids))
  }

  /** The stored compound: the given one with the "volumeBoxes" list set. */
  function SavedNbt(nbt: Compound, cs: seq<Compound>): Compound {
    nbt["volumeBoxes" := WriteCompoundList(cs)]
  }

  /** Every box's value can be written and read back. */
  predicate Storable(vs: seq<VolumeBoxRecord>, reg: seq<AddonType>, slotNames: seq<string>) {
    forall i :: 0 <= i < |vs| ==> WellFormed(vs[i], slotNames) && AllRegistered(vs[i].addons, reg)
  }

  /** Writing fails iff some box has an add-on whose class is not registered; each box is written on its own. */
  lemma BoxesToNbtFails(vs: seq<VolumeBoxRecord>, reg: seq<AddonType>, slotNames: seq<string>)
    requires forall i :: 0 <= i < |vs| ==> WellFormed(vs[i], slotNames)
    ensures BoxesToNbt(vs, reg, slotNames).Some? <==> forall i :: 0 <= i < |vs| ==> AllRegistered(vs[i].addons, reg)
    ensures BoxesToNbt(vs, reg, slotNames).Some? ==>
      var cs := BoxesToNbt(vs, reg, slotNames).value;
      |cs| == |vs| && forall i :: 0 <= i < |vs| ==> VolumeBoxToNbt(vs[i], reg, slotNames) == Some(cs[i])
  {
    var rs := EncodedBoxes(vs, reg, slotNames);
    AllPresentIff(rs);
    forall i | 0 <= i < |vs|
      ensures rs[i] == VolumeBoxToNbt(vs[i], reg, slotNames)
      ensures rs[i].Some? <==> AllRegistered(vs[i].addons, reg)
    {
      EncodedBoxesAt(vs, reg, slotNames, i);
      VolumeBoxToNbtFails(vs[i], reg, slotNames);
    }
  }

  /** When every entry reads, all of them are read, in order. */
  lemma {:induction false} UntilFailureAll<T>(rs: seq<Option<T>>, vs: seq<T>)
    requires |rs| == |vs| && forall i :: 0 <= i < |rs| ==> rs[i] == Some(vs[i])
    ensures UntilFailure(rs) == (vs, true)
  {
    if |rs| > 0 {
      assert forall i :: 0 <= i < |rs| - 1 ==> rs[1..][i] == rs[i + 1];
      UntilFailureAll(rs[1..], vs[1..]);
      assert [vs[0]] + vs[1..] == vs;
    }
  }

  /** One entry of the stream: a failing entry ends it, a read one heads what follows. */
  lemma UntilFailureStep<T>(rs: seq<Option<T>>, i: nat)
    requires i < |rs|
    ensures rs[i].None? ==> UntilFailure(rs[i..]) == ([], false)
    ensures rs[i].Some? ==>
      UntilFailure(rs[i..]) == ([rs[i].value] + UntilFailure(rs[i + 1..]).0, UntilFailure(rs[i + 1..]).1)
  {
    assert rs[i..][0] == rs[i] && rs[i..][1..] == rs[i + 1..];
  }

  lemma ShiftOne<T>(a: seq<T>, v: T, c: seq<T>)
    ensures a + ([v] + c) == (a + [v]) + c
  {
  }

  /** A failing entry ends the read: the boxes before it are kept, in order, and the rest are not read. */
  lemma {:induction false} UntilFailurePrefix<T>(rs: seq<Option<T>>)
    ensures var (vs, ok) := UntilFailure(rs);
            && |vs| <= |rs|
            && (ok <==> |vs| == |rs|)
            && (forall i :: 0 <= i < |vs| ==> rs[i] == Some(vs[i]))
            && (!ok ==> rs[|vs|].None?)
  {
    if |rs| > 0 && rs[0].Some? {
      UntilFailurePrefix(rs[1..]);
      var (vs, ok) := UntilFailure(rs[1..]);
      assert forall i :: 1 <= i < |vs| + 1 ==> rs[i] == rs[1..][i - 1];
      assert forall i :: 1 <= i < |vs| + 1 ==> ([rs[0].value] + vs)[i] == vs[i - 1];
    }
  }

  /**
   * writeToNBT then readFromNBT: every box comes back, in order, with its
   * stored id, whatever ids the reader would draw.
   */
  lemma SavedNbtRoundTrip(vs: seq<VolumeBoxRecord>, nbt: Compound, reg: seq<AddonType>, slotNames: seq<string>, ids: nat -> Uuid)
    requires Storable(vs, reg, slotNames) && NamesDistinct(reg) && Distinct(slotNames)
    ensures BoxesToNbt(vs, reg, slotNames).Some?
    ensures var saved := SavedNbt(nbt, BoxesToNbt(vs, reg, slotNames).value);
            BoxesFromNbt(ReadCompoundList(GetTag(saved, "volumeBoxes")), reg, slotNames, ids) == (vs, true)
  {
    BoxesToNbtFails(vs, reg, slotNames);
    var cs := BoxesToNbt(vs, reg, slotNames).value;
    ReadWriteCompoundList(cs);
    var rs := Decoded(cs, reg, slotNames, ids);
    forall i | 0 <= i < |cs|
      ensures rs[i] == Some(vs[i])
    {
      DecodedAt(cs, reg, slotNames, ids, i);
      VolumeBoxNbtRoundTrip(vs[i], reg, slotNames, ids(i));
    }
    UntilFailureAll(rs, vs);
  }

  class WorldSavedDataVolumeBoxes {
    var volumeBoxes: seq<VolumeBox>
    var dirty: bool
    var sent: seq<seq<VolumeBoxRecord>>

    /** The boxes are valid and no box is listed twice. */
    ghost predicate Valid()
      reads this`volumeBoxes, volumeBoxes
    {
      && (forall i :: 0 <= i < |volumeBoxes| ==> volumeBoxes[i].Valid())
      && (forall i, j :: 0 <= i < j < |volumeBoxes| ==> volumeBoxes[i] != volumeBoxes[j])
    }

    function Views(): seq<VolumeBoxRecord>
      reads this`volumeBoxes, volumeBoxes, AddonObjects(volumeBoxes)
    {
      ViewsOf(volumeBoxes)
    }

    constructor ()
      ensures Valid() && volumeBoxes == [] && !dirty && sent == []
    {
      volumeBoxes := [];
      dirty := false;
      sent := [];
    }

    /** `r` is the first box in list order that answers `q`, or null when none does. */
    ghost predicate IsFirst(q: Query, r: VolumeBox?)
      reads this`volumeBoxes, volumeBoxes
    {
      if r == null then forall i :: 0 <= i < |volumeBoxes| ==> !Matches(volumeBoxes[i], q)
      else exists i :: 0 <= i < |volumeBoxes| && volumeBoxes[i] == r && Matches(r, q)
                       && forall j :: 0 <= j < i ==> !Matches(volumeBoxes[j], q)
    }

    /** The stream filter and findFirst the three queries share. */
    method Find(q: Query) returns (r: VolumeBox?)
      ensures IsFirst(q, r)
    {
      var i := 0;
      while i < |volumeBoxes|
        invariant i <= |volumeBoxes|
        invariant forall j :: 0 <= j < i ==> !Matches(volumeBoxes[j], q)
      {
        if Matches(volumeBoxes[i], q) {
          return volumeBoxes[i];
        }
        i := i + 1;
      }
      r := null;
    }

    /** getVolumeBoxAt. */
    method GetVolumeBoxAt(pos: Pos) returns (r: VolumeBox?)
      ensures IsFirst(At(pos), r)
    {
      r := Find(At(pos));
    }

    /** getVolumeBoxFromId. */
    method GetVolumeBoxFromId(id: Uuid) returns (r: VolumeBox?)
      ensures IsFirst(WithId(id), r)
    {
      r := Find(WithId(id));
    }

    /** getCurrentChanging: the first box whose change is the player's. */
    method GetCurrentChanging(player: Uuid) returns (r: VolumeBox?)
      ensures IsFirst(ChangedBy(player), r)
    {
      r := Find(ChangedBy(player));
    }

    /** addVolumeBox: one new one-block box at the end; `freshId` stands for UUID.randomUUID. */
    method AddVolumeBox(pos: Pos, freshId: Uuid)
      requires Valid()
      modifies this`volumeBoxes
      ensures Valid()
      ensures |volumeBoxes| == |old(volumeBoxes)| + 1 && volumeBoxes[..|old(volumeBoxes)|] == old(volumeBoxes)
      ensures fresh(volumeBoxes[|old(volumeBoxes)|])
      ensures Views() == old(Views()) + [VolumeBoxRecord(freshId, Make(pos, pos), None, map[], [])]
    {
      var b := new VolumeBox.At(freshId, pos);
      volumeBoxes := volumeBoxes + [b];
      assert volumeBoxes[..|old(volumeBoxes)|] == old(volumeBoxes);
    }

    /** markDirty: the storage's save flag is set and the boxes are broadcast. */
    method MarkDirty()
      modifies this`dirty, this`sent
      ensures dirty && sent == old(sent) + [Views()]
      ensures Views() == old(Views()) && Valid() == old(Valid())
    {
      ghost var now := Views();
      dirty, sent := true, sent + [Views()];
      assert ViewsOf(volumeBoxes) == now;
    }

    /**
     * tick: the first stage on every box with a change, the second on
     * every box, then markDirty once if either stage reported a change.
     */
    method Tick(world: World)
      requires Valid()
      modifies volumeBoxes, this`dirty, this`sent
      ensures Valid()
      ensures Views() == TickAll(old(Views()), world)
      ensures dirty == (old(dirty) || TickDirty(old(Views()), world))
      ensures sent == old(sent) + (if TickDirty(old(Views()), world) then [Views()] else [])
    {
      var changed := TickBoxes(volumeBoxes, world);
      if changed {
        MarkDirty();
      }
    }

    /**
     * readFromNBT: the list is cleared and refilled in stored order. Where
     * a box's constructor throws, the boxes read before it stay and `ok`
     * is false. Entry `k` draws `ids(k)` when it stores no id.
     */
    method ReadFromNbt(nbt: Compound, reg: seq<AddonType>, slotNames: seq<string>, ids: nat -> Uuid) returns (ok: bool)
      modifies this`volumeBoxes
      ensures Valid()
      ensures (Views(), ok) == BoxesFromNbt(ReadCompoundList(GetTag(nbt, "volumeBoxes")), reg, slotNames, ids)
    {
      var tags := ReadCompoundList(GetTag(nbt, "volumeBoxes"));
      ghost var rs := Decoded(tags, reg, slotNames, ids);
      ghost var goal := UntilFailure(rs);
      volumeBoxes := [];
      var i := 0;
      assert rs[0..] == rs && [] + goal.0 == goal.0;
      while i < |tags|
        invariant i <= |tags| && Valid()
        invariant goal == (Views() + UntilFailure(rs[i..]).0, UntilFailure(rs[i..]).1)
      {
        ghost var before := Views();
        UntilFailureStep(rs, i);
        label load:
        var b := LoadEntry(tags, i, reg, slotNames, ids, rs);
        ValidFrame@load(this);
        assert ViewsOf(volumeBoxes) == before;
        if b.None? {
          assert goal == (before + [], false) && before + [] == before;
          return false;
        }
        assert rs[i] == Some(b.value.View());
        Append(b.value);
        ShiftOne(before, b.value.View(), UntilFailure(rs[i + 1..]).0);
        i := i + 1;
      }
      assert goal == (Views() + [], true) && Views() + [] == Views();
      ok := true;
    }

    /** The invariant survives steps that leave the list and its boxes alone. */
    twostate lemma ValidFrame(d: WorldSavedDataVolumeBoxes)
      requires old(d.Valid()) && unchanged(d) && unchanged(old(d.volumeBoxes))
      ensures d.Valid()
    {
      assert forall i :: 0 <= i < |d.volumeBoxes| ==> d.volumeBoxes[i].Valid() by {
        forall i | 0 <= i < |d.volumeBoxes|
          ensures d.volumeBoxes[i].Valid()
        {
          assert old(d.volumeBoxes[i].Valid());
        }
      }
    }

    /** A box joins the end of the list. */
    method Append(b: VolumeBox)
      requires Valid() && b.Valid() && b !in volumeBoxes
      modifies this`volumeBoxes
      ensures Valid()
      ensures Views() == old(Views()) + [b.View()]
    {
      ghost var bs := volumeBoxes;
      ghost var before := Views();
      volumeBoxes := volumeBoxes + [b];
      assert ViewsOf(bs) == before;
      ViewsOfAppend(bs, b);
    }
  }

  /** The NBT constructor on entry `i` of readFromNBT's list. */
  method LoadEntry(tags: seq<Compound>, i: nat, reg: seq<AddonType>, slotNames: seq<string>, ids: nat -> Uuid,
                   ghost rs: seq<Option<VolumeBoxRecord>>)
    returns (b: Option<VolumeBox>)
    requires i < |tags| && rs == Decoded(tags, reg, slotNames, ids)
    ensures b.None? <==> rs[i].None?
    ensures b.Some? ==> fresh(b.value) && b.value.Valid() && b.value.View() == rs[i].value
  {
    DecodedAt(tags, reg, slotNames, ids, i);
    b := LoadVolumeBox(tags[i], reg, slotNames, ids(i));
  }

  /** writeToNBT; None where an add-on's class is not registered (the source dereferences null). */
  function WriteToNbt(data: WorldSavedDataVolumeBoxes, nbt: Compound, reg: seq<AddonType>, slotNames: seq<string>)
    : (r: Option<Compound>)
    reads data`volumeBoxes, data.volumeBoxes, AddonObjects(data.volumeBoxes)
    requires forall i :: 0 <= i < |data.Views()| ==> WellFormed(data.Views()[i], slotNames)
    ensures r.Some? <==> forall i :: 0 <= i < |data.Views()| ==> AllRegistered(data.Views()[i].addons, reg)
    ensures r.Some? ==> forall k :: k in nbt && k != "volumeBoxes" ==> k in r.value && r.value[k] == nbt[k]
  {
    BoxesToNbtFails(data.Views(), reg, slotNames);
    match BoxesToNbt(data.Views(), reg, slotNames)
    case None => None
    case Some(cs) => Some(SavedNbt(nbt, cs))
  }

  /** Both stages of tick over the list; `changed` is whether either reported a change. */
  method TickBoxes(bs: seq<VolumeBox>, world: World) returns (changed: bool)
    requires forall i :: 0 <= i < |bs| ==> bs[i].Valid()
    requires forall i, j :: 0 <= i < j < |bs| ==> bs[i] != bs[j]
    modifies bs
    ensures forall i :: 0 <= i < |bs| ==> bs[i].Valid()
    ensures ViewsOf(bs) == TickAll(old(ViewsOf(bs)), world)
    ensures changed == TickDirty(old(ViewsOf(bs)), world)
  {
    var ticked := TickChangesAll(bs, world);
    var pruned := PruneAllLocks(bs, world);
    changed := ticked || pruned;
  }

  /** The first stage done on a prefix: one more box. */
  lemma TickChangesNext(vs: seq<VolumeBoxRecord>, i: nat, world: World)
    requires i < |vs|
    ensures (TickChanges(vs[..i], world) + vs[i..])[i] == vs[i]
    ensures (TickChanges(vs[..i], world) + vs[i..])[i := TickChange(vs[i], world)] == TickChanges(vs[..i + 1], world) + vs[i + 1..]
    ensures AnyChangeDirty(vs[..i + 1], world) == (AnyChangeDirty(vs[..i], world) || ChangeDirty(vs[i], world))
  {
    assert vs[..i + 1][i] == vs[i];
    assert forall j :: 0 <= j < i ==> vs[..i + 1][j] == vs[..i][j];
  }

  /** The first stage done on no box, and on all of them. */
  lemma TickChangesEnds(vs: seq<VolumeBoxRecord>, world: World)
    ensures TickChanges(vs[..0], world) + vs[0..] == vs && !AnyChangeDirty(vs[..0], world)
    ensures TickChanges(vs[..|vs|], world) + vs[|vs|..] == TickChanges(vs, world)
    ensures AnyChangeDirty(vs[..|vs|], world) == AnyChangeDirty(vs, world)
  {
    assert vs[..|vs|] == vs;
  }

  /** The second stage done on a prefix: one more box. */
  lemma PruneAllNext(vs: seq<VolumeBoxRecord>, i: nat, world: World)
    requires i < |vs|
    ensures (PruneAll(vs[..i], world) + vs[i..])[i] == vs[i]
    ensures (PruneAll(vs[..i], world) + vs[i..])[i := PruneLocks(vs[i], world)] == PruneAll(vs[..i + 1], world) + vs[i + 1..]
    ensures AnyPruned(vs[..i + 1], world) == (AnyPruned(vs[..i], world) || LiveLocks(vs[i].locks, world) != vs[i].locks)
  {
    assert vs[..i + 1][i] == vs[i];
    assert forall j :: 0 <= j < i ==> vs[..i + 1][j] == vs[..i][j];
  }

  /** The second stage done on no box, and on all of them. */
  lemma PruneAllEnds(vs: seq<VolumeBoxRecord>, world: World)
    ensures PruneAll(vs[..0], world) + vs[0..] == vs && !AnyPruned(vs[..0], world)
    ensures PruneAll(vs[..|vs|], world) + vs[|vs|..] == PruneAll(vs, world)
    ensures AnyPruned(vs[..|vs|], world) == AnyPruned(vs, world)
  {
    assert vs[..|vs|] == vs;
  }

  /** The first stage of tick over the list, box by box. */
  method TickChangesAll(bs: seq<VolumeBox>, world: World) returns (changed: bool)
    requires forall i :: 0 <= i < |bs| ==> bs[i].Valid()
    requires forall i, j :: 0 <= i < j < |bs| ==> bs[i] != bs[j]
    modifies bs
    ensures forall i :: 0 <= i < |bs| ==> bs[i].Valid()
    ensures ViewsOf(bs) == TickChanges(old(ViewsOf(bs)), world)
    ensures changed == AnyChangeDirty(old(ViewsOf(bs)), world)
  {
    ghost var before := ViewsOf(bs);
    ghost var now := before;
    TickChangesEnds(before, world);
    changed := false;
    var i := 0;
    while i < |bs|
      invariant i <= |bs|
      invariant forall j :: 0 <= j < |bs| ==> bs[j].Valid()
      invariant ViewsOf(bs) == now && now == TickChanges(before[..i], world) + before[i..]
      invariant changed == AnyChangeDirty(before[..i], world)
    {
      var d;
      d, now := TickStep(bs, i, bs[i], world, before, now);
      changed := changed || d;
      i := i + 1;
    }
    TickChangesEnds(before, world);
  }

  /**
   * The first stage on the box at `k`, the boxes before it done: the other
   * boxes keep their values, and one more box is done.
   */
  method TickStep(bs: seq<VolumeBox>, k: nat, b: VolumeBox, world: World,
                  ghost before: seq<VolumeBoxRecord>, ghost now: seq<VolumeBoxRecord>)
    returns (changed: bool, ghost next: seq<VolumeBoxRecord>)
    requires k < |bs| == |before| && b == bs[k] && forall i :: 0 <= i < |bs| ==> bs[i].Valid()
    requires forall i, j :: 0 <= i < j < |bs| ==> bs[i] != bs[j]
    requires ViewsOf(bs) == now && now == TickChanges(before[..k], world) + before[k..]
    modifies b`box, b`change
    ensures forall i :: 0 <= i < |bs| ==> bs[i].Valid()
    ensures ViewsOf(bs) == next && next == TickChanges(before[..k + 1], world) + before[k + 1..]
    ensures AnyChangeDirty(before[..k + 1], world) == (AnyChangeDirty(before[..k], world) || changed)
  {
    TickChangesNext(before, k, world);
    changed := TickChangeAt(bs, k, b, world);
    next := now[k := b.View()];
    assert ViewsOf(bs) == next;
  }

  /** The second stage of tick over the list, box by box. */
  method PruneAllLocks(bs: seq<VolumeBox>, world: World) returns (pruned: bool)
    requires forall i :: 0 <= i < |bs| ==> bs[i].Valid()
    requires forall i, j :: 0 <= i < j < |bs| ==> bs[i] != bs[j]
    modifies bs
    ensures forall i :: 0 <= i < |bs| ==> bs[i].Valid()
    ensures ViewsOf(bs) == PruneAll(old(ViewsOf(bs)), world)
    ensures pruned == AnyPruned(old(ViewsOf(bs)), world)
  {
    ghost var before := ViewsOf(bs);
    ghost var now := before;
    PruneAllEnds(before, world);
    pruned := false;
    var i := 0;
    while i < |bs|
      invariant i <= |bs|
      invariant forall j :: 0 <= j < |bs| ==> bs[j].Valid()
      invariant ViewsOf(bs) == now && now == PruneAll(before[..i], world) + before[i..]
      invariant pruned == AnyPruned(before[..i], world)
    {
      var d;
      d, now := PruneStep(bs, i, bs[i], world, before, now);
      pruned := pruned || d;
      i := i + 1;
    }
    PruneAllEnds(before, world);
  }

  /**
   * The second stage on the box at `k`, the boxes before it done: the
   * other boxes keep their values, and one more box is done.
   */
  method PruneStep(bs: seq<VolumeBox>, k: nat, b: VolumeBox, world: World,
                   ghost before: seq<VolumeBoxRecord>, ghost now: seq<VolumeBoxRecord>)
    returns (pruned: bool, ghost next: seq<VolumeBoxRecord>)
    requires k < |bs| == |before| && b == bs[k] && forall i :: 0 <= i < |bs| ==> bs[i].Valid()
    requires forall i, j :: 0 <= i < j < |bs| ==> bs[i] != bs[j]
    requires ViewsOf(bs) == now && now == PruneAll(before[..k], world) + before[k..]
    modifies b`locks
    ensures forall i :: 0 <= i < |bs| ==> bs[i].Valid()
    ensures ViewsOf(bs) == next && next == PruneAll(before[..k + 1], world) + before[k + 1..]
    ensures AnyPruned(before[..k + 1], world) == (AnyPruned(before[..k], world) || pruned)
  {
    PruneAllNext(before, k, world);
    pruned := PruneLocksAt(bs, k, b, world);
    next := now[k := b.View()];
    assert ViewsOf(bs) == next;
  }

  /** The first stage on the box at `k` of a list of distinct boxes; the others keep their values. */
  method TickChangeAt(bs: seq<VolumeBox>, k: nat, b: VolumeBox, world: World) returns (changed: bool)
    requires k < |bs| && b == bs[k] && forall i :: 0 <= i < |bs| ==> bs[i].Valid()
    requires forall i, j :: 0 <= i < j < |bs| ==> bs[i] != bs[j]
    modifies b`box, b`change
    ensures forall i :: 0 <= i < |bs| ==> bs[i].Valid()
    ensures b.View() == TickChange(old(b.View()), world)
    ensures forall j :: 0 <= j < |bs| && j != k ==> bs[j].View() == old(bs[j].View())
    ensures changed == ChangeDirty(old(b.View()), world)
  {
    changed := TickChangeOf(b, world);
    forall j | 0 <= j < |bs| && j != k
      ensures bs[j].View() == old(bs[j].View())
    {
      assert bs[j] != b by { if j < k { } else { } }
    }
  }

  /** The second stage on the box at `k` of a list of distinct boxes; the others keep their values. */
  method PruneLocksAt(bs: seq<VolumeBox>, k: nat, b: VolumeBox, world: World) returns (pruned: bool)
    requires k < |bs| && b == bs[k] && forall i :: 0 <= i < |bs| ==> bs[i].Valid()
    requires forall i, j :: 0 <= i < j < |bs| ==> bs[i] != bs[j]
    modifies b`locks
    ensures forall i :: 0 <= i < |bs| ==> bs[i].Valid()
    ensures b.View() == PruneLocks(old(b.View()), world)
    ensures forall j :: 0 <= j < |bs| && j != k ==> bs[j].View() == old(bs[j].View())
    ensures pruned == (LiveLocks(old(b.locks), world) != old(b.locks))
  {
    pruned := PruneLocksOf(b, world);
    forall j | 0 <= j < |bs| && j != k
      ensures bs[j].View() == old(bs[j].View())
    {
      assert bs[j] != b by { if j < k { } else { } }
    }
  }

  /** The first stage on one box: pause it, or make it span the held corner and the looked-at block. */
  method TickChangeOf(b: VolumeBox, world: World) returns (changed: bool)
    requires b.Valid()
    modifies b`box, b`change
    ensures b.Valid() && b.View() == TickChange(old(b.View()), world)
    ensures changed == ChangeDirty(old(b.View()), world)
  {
    if b.change.None? {
      return false;
    }
    var c := b.change.value;
    var lookingAt := LookingAt(c, world);
    if lookingAt.None? {
      b.SetPaused(true);
      return true;
    }
    var oldBox := b.box;
    b.box := ExtendToEncompass(Make(c.held, c.held), lookingAt.value);
    changed := b.box != oldBox;
  }

  /** The second stage on one box: the locks whose cause no longer holds are removed. */
  method PruneLocksOf(b: VolumeBox, world: World) returns (pruned: bool)
    requires b.Valid()
    modifies b`locks
    ensures b.Valid() && b.View() == PruneLocks(old(b.View()), world)
    ensures pruned == (LiveLocks(old(b.locks), world) != old(b.locks))
  {
    var dead := DeadLocks(b.locks, world);
    RemoveDeadIsLive(b.locks, world);
    if dead != [] {
      b.locks := RemoveAll(b.locks, dead);
      return true;
    }
    return false;
  }

  /** The per-world storage slot the saved data is kept in (MapStorage). */
  class Storage {
    var instance: WorldSavedDataVolumeBoxes?

    ghost predicate Valid()
      reads this, instance, if instance != null then instance.volumeBoxes else []
    {
      instance != null ==> instance.Valid()
    }

    /** The boxes of the stored instance; none while nothing is stored. */
    function Views(): seq<VolumeBoxRecord>
      reads this, instance, if instance != null then instance.volumeBoxes else []
      reads if instance != null then AddonObjects(instance.volumeBoxes) else {}
    {
      if instance == null then [] else instance.Views()
    }

    constructor ()
      ensures instance == null
    {
      instance := null;
    }
  }

  /**
   * get: None on a client world, where the source throws; otherwise the
   * stored instance, or a new empty one that is stored.
   */
  method Get(world: World, storage: Storage) returns (r: Option<WorldSavedDataVolumeBoxes>)
    requires storage.Valid()
    modifies storage`instance
    ensures storage.Valid()
    ensures world.isRemote ==> r.None? && storage.instance == old(storage.instance)
    ensures !world.isRemote ==> storage.instance != null && r.Some? && r.value == storage.instance
    ensures !world.isRemote && old(storage.instance) != null ==> storage.instance == old(storage.instance)
    ensures !world.isRemote && old(storage.instance) == null ==>
      fresh(storage.instance) && storage.instance.volumeBoxes == [] && !storage.instance.dirty && storage.instance.sent == []
  {
    if world.isRemote {
      return None;
    }
    if storage.instance == null {
      var d := new WorldSavedDataVolumeBoxes();
      storage.instance := d;
    }
    r := Some(storage.instance);
  }
}
