/**
 * The add-on registry (AddonsRegistry.java) and the add-on objects a volume
 * box holds. Type names and classes are strings. The Addon class itself is
 * not part of this model: an add-on is reduced to its class, the payload it
 * stores, and counters of the two callbacks the volume box fires
 * (onAdded, onVolumeBoxSizeChange).
 */
module Addons {
  import opened Wrappers
  import opened Nbt
  import opened Packets

  /** AddonsRegistry.AddonType; `create` is `new Addon(clazz)`. */
  datatype AddonType = AddonType(name: string, clazz: string)

  /** The index of the first entry named `name`. */
  function IndexByName(reg: seq<AddonType>, name: string): (r: Option<nat>)
    ensures r.Some? ==> r.value < |reg| && reg[r.value].name == name
    ensures r.Some? ==> forall j :: 0 <= j < r.value ==> reg[j].name != name
    ensures r.None? ==> forall j :: 0 <= j < |reg| ==> reg[j].name != name
  {
    if |reg| == 0 then None
    else if reg[0].name == name then Some(0)
    else match IndexByName(reg[1..], name)
      case None => None
      case Some(i) => Some(i + 1)
  }

  /** The index of the first entry whose class is `clazz`. */
  function IndexByClass(reg: seq<AddonType>, clazz: string): (r: Option<nat>)
    ensures r.Some? ==> r.value < |reg| && reg[r.value].clazz == clazz
    ensures r.Some? ==> forall j :: 0 <= j < r.value ==> reg[j].clazz != clazz
    ensures r.None? ==> forall j :: 0 <= j < |reg| ==> reg[j].clazz != clazz
  {
    if |reg| == 0 then None
    else if reg[0].clazz == clazz then Some(0)
    else match IndexByClass(reg[1..], clazz)
      case None => None
      case Some(i) => Some(i + 1)
  }

  /** getAddonTypeByName: the first entry with that name, or null. */
  function ByName(reg: seq<AddonType>, name: string): Option<AddonType> {
    match IndexByName(reg, name)
    case None => None
    case Some(i) => Some(reg[i])
  }

  /** getAddonTypeByClass: the first entry with that class, or null. */
  function ByClass(reg: seq<AddonType>, clazz: string): Option<AddonType> {
    match IndexByClass(reg, clazz)
    case None => None
    case Some(i) => Some(reg[i])
  }

  predicate NamesDistinct(reg: seq<AddonType>) {
    forall i, j :: 0 <= i < j < |reg| ==> reg[i].name != reg[j].name
  }

  /** The registry after register(t): appended only when no entry has t's name. */
  function Registered(reg: seq<AddonType>, t: AddonType): seq<AddonType> {
    if ByName(reg, t.name).None? then reg + [t] else reg
  }

  /** Registration keeps names pairwise distinct and the existing entries in order. */
  lemma RegisterKeepsInvariant(reg: seq<AddonType>, t: AddonType)
    requires NamesDistinct(reg)
    ensures NamesDistinct(Registered(reg, t))
    ensures Registered(reg, t)[..|reg|] == reg
    ensures |Registered(reg, t)| <= |reg| + 1
  {
    var r := Registered(reg, t);
    if ByName(reg, t.name).None? {
      forall i, j | 0 <= i < j < |r|
        ensures r[i].name != r[j].name
      {
        if j == |reg| {
          assert reg[i].name != t.name;
        }
      }
    }
  }

  /** The first registration under a name wins; after register(t) that name is found. */
  lemma RegisterFirstWins(reg: seq<AddonType>, t: AddonType)
    ensures ByName(Registered(reg, t), t.name) ==
            if ByName(reg, t.name).Some? then ByName(reg, t.name) else Some(t)
  {
    if ByName(reg, t.name).None? {
      var r := reg + [t];
      var k := IndexByName(r, t.name);
      assert r[|reg|].name == t.name;
      assert k == Some(|reg|);
    }
  }

  /** Registering the same type twice is the same as registering it once. */
  lemma RegisterIdempotent(reg: seq<AddonType>, t: AddonType)
    ensures Registered(Registered(reg, t), t) == Registered(reg, t)
  {
    RegisterFirstWins(reg, t);
  }

  /** Other names are looked up as before, except a name that only t carries. */
  lemma RegisterOtherNames(reg: seq<AddonType>, t: AddonType, name: string)
    requires name != t.name
    ensures ByName(Registered(reg, t), name) == ByName(reg, name)
  {
    if ByName(reg, t.name).None? {
      var r := reg + [t];
      match IndexByName(reg, name)
      case None =>
        assert IndexByName(r, name).None?;
      case Some(i) =>
        assert r[i] == reg[i];
        assert IndexByName(r, name) == Some(i);
    }
  }

  /** Looking up the name of the entry found by class gives that same entry back. */
  lemma ByNameOfByClass(reg: seq<AddonType>, clazz: string)
    requires NamesDistinct(reg) && ByClass(reg, clazz).Some?
    ensures ByName(reg, ByClass(reg, clazz).value.name) == ByClass(reg, clazz)
  {
    var i := IndexByClass(reg, clazz).value;
    var k := IndexByName(reg, reg[i].name);
    assert k == Some(i);
  }

  /** AddonsRegistry.INSTANCE: the list of registered types. */
  class AddonsRegistry {
    var registry: seq<AddonType>

    ghost predicate Valid()
      reads this
    {
      NamesDistinct(registry)
    }

    constructor ()
      ensures Valid() && registry == []
    {
      registry := [];
    }

    /** register: appends unless getAddonTypeByName already finds the name. */
    method Register(t: AddonType)
      requires Valid()
      modifies this
      ensures Valid() && registry == Registered(old(registry), t)
    {
      RegisterKeepsInvariant(registry, t);
      if ByName(registry, t.name).None? {
        registry := registry + [t];
      }
    }
  }

  /** An add-on as a value: its class and the payload it stores. */
  datatype AddonRecord = AddonRecord(clazz: string, data: Compound)

  /**
   * What Addon.fromBytes makes of an add-on: `feed(clazz, held, read)` is
   * the payload an add-on of class `clazz` holds after reading `read` while
   * holding `held`. The add-on classes are not part of this model, so the
   * operations that feed add-ons take their behaviour as this parameter.
   */
  type Feeding = (string, Compound, Compound) -> Compound

  /** Add-ons whose fromBytes replaces what they hold by what they read. */
  ghost predicate Replaces(feed: Feeding) {
    forall c, held, read :: feed(c, held, read) == read
  }

  /**
   * An add-on object. Its state is the payload `data`, which toBytes and
   * writeToNBT write; fromBytes updates it as the class's `Feeding` says.
   * The counters record how often each volume-box callback fired.
   */
  class Addon {
    const clazz: string
    var data: Compound
    var added: nat
    var sizeChanges: nat

    /** AddonType.create: a new add-on of the type's class. */
    constructor (t: AddonType)
      ensures clazz == t.clazz && data == map[] && added == 0 && sizeChanges == 0
    {
      clazz := t.clazz;
      data := map[];
      added := 0;
      sizeChanges := 0;
    }

    function Record(): AddonRecord
      reads this
    {
      AddonRecord(clazz, data)
    }

    method OnAdded()
      modifies this
      ensures added == old(added) + 1 && data == old(data) && sizeChanges == old(sizeChanges)
    {
      added := added + 1;
    }

    method OnVolumeBoxSizeChange()
      modifies this
      ensures sizeChanges == old(sizeChanges) + 1 && data == old(data) && added == old(added)
    {
      sizeChanges := sizeChanges + 1;
    }

    method ToBytes(buf: PacketBuffer)
      requires buf.Valid()
      modifies buf
      ensures buf.Valid() && buf.data == old(buf.data) + [PData(data)] && buf.readerIndex == old(buf.readerIndex)
    {
      buf.Write(PData(data));
    }

    /** fromBytes: the payload read is fed to the add-on; nothing changes when the read fails. */
    method FromBytes(buf: PacketBuffer, feed: Feeding) returns (ok: bool)
      requires buf.Valid()
      modifies this, buf
      ensures buf.Valid() && buf.data == old(buf.data)
      ensures var p := ParseData(old(buf.Remaining()));
        && (ok <==> p.Some?)
        && (ok ==> data == feed(clazz, old(data), p.value.0) && buf.Remaining() == p.value.1)
        && (!ok ==> data == old(data))
      ensures added == old(added) && sizeChanges == old(sizeChanges)
    {
      var d := buf.ReadData();
      ok := d.Some?;
      if ok {
        data := feed(clazz, data, d.value);
      }
    }

    function WriteToNbt(): Compound
      reads this
    {
      data
    }

    method ReadFromNbt(nbt: Compound)
      modifies this
      ensures data == nbt && added == old(added) && sizeChanges == old(sizeChanges)
    {
      data := nbt;
    }
  }
}
