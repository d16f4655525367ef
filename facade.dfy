/**
 * FacadePluggable: a facade on a pipe side. The server holds the facade's
 * states and selects one lazily as the active state; the client only holds
 * the fields synced from it. The sync message is a short block id (0 for
 * none) and one flags byte: bit 7 transparent, bit 6 hollow, the low bits
 * the metadata.
 */
module Facades {
  import opened Wrappers
  import opened Values
  import opened ByteBufs

  /**
   * The block registry by numeric id: the block at index `i` has id `i + 1`;
   * id 0 stands for no block. Unregistered blocks have id -1.
   */
  datatype BlockRegistry = BlockRegistry(blocks: seq<Block>)

  /** Ids are unique and fit in an unsigned short. */
  predicate RegistryValid(reg: BlockRegistry) {
    && |reg.blocks| < 65536
    && Distinct(reg.blocks)
  }

  /** Block.getIdFromBlock. */
  function IdFromBlock(reg: BlockRegistry, b: Block): int {
    match IndexOf(reg.blocks, b)
    case None => -1
    case Some(k) => k + 1
  }

  /** Block.getBlockById, for a positive id; an id no block has gives None. */
  function BlockById(reg: BlockRegistry, id: int): Option<Block> {
    if 1 <= id <= |reg.blocks| then Some(reg.blocks[id - 1]) else None
  }

  /** A registered block's id is positive, fits in a short and names it again. */
  lemma BlockIdRoundTrip(reg: BlockRegistry, b: Block)
    requires RegistryValid(reg) && b in reg.blocks
    ensures 1 <= IdFromBlock(reg, b) < 65536
    ensures BlockById(reg, IdFromBlock(reg, b)) == Some(b)
  {
  }

  /** ItemFacade.FacadeState: the fields the facade reads from it. */
  datatype FacadeState = FacadeState(block: Option<Block>, metadata: int, transparent: bool, hollow: bool)

  /** What a client shows when nothing was synced. */
  const Unsynced := FacadeState(None, 0, false, false)

  const TransparentBit: bv8 := 0x80
  const HollowBit: bv8 := 0x40
  const MetaMask: bv8 := 0x0F

  /** prepareStates: an unset active state becomes the first state, when there is one. */
  function Prepared(active: Option<FacadeState>, states: Option<seq<FacadeState>>): Option<FacadeState> {
    if active.Some? then active
    else if states.Some? && |states.value| > 0 then Some(states.value[0])
    else None
  }

  /** The state the getters report: the active one when set, else the synced fields. */
  function Shown(active: Option<FacadeState>, synced: FacadeState): FacadeState {
    if active.Some? then active.value else synced
  }

  /** writeData's short: the active state's block id, or 0. */
  function WireId(active: Option<FacadeState>, reg: BlockRegistry): int {
    if active.None? || active.value.block.None? then 0 else IdFromBlock(reg, active.value.block.value)
  }

  /** writeData's flags, cut to 8 bits as writeByte does. */
  function FlagBits(active: Option<FacadeState>): bv8 {
    if active.None? then 0
    else (if active.value.transparent then TransparentBit else 0)
         | (if active.value.hollow then HollowBit else 0)
         | LowByte(active.value.metadata) as bv8
  }

  /** The flags as the byte written. */
  function WireFlags(active: Option<FacadeState>): byte {
    FlagBits(active) as byte
  }

  /** The bytes writeData appends. */
  function Encoded(active: Option<FacadeState>, reg: BlockRegistry): seq<byte> {
    ShortBytes(WireId(active, reg)) + [WireFlags(active)]
  }

  /** readData's fields from the id and the flags. */
  function Decoded(id: int, flags: byte, reg: BlockRegistry): (r: FacadeState)
    ensures 0 <= r.metadata < 16
    ensures id <= 0 ==> r.block.None?
  {
    var f := flags as bv8;
    FacadeState(if id > 0 then BlockById(reg, id) else None,
                (f & MetaMask) as int, f & TransparentBit != 0, f & HollowBit != 0)
  }

  /** The flags byte keeps transparent, hollow and a metadata below 16 apart. */
  lemma FlagsRoundTrip(s: FacadeState)
    requires 0 <= s.metadata < 16
    ensures var f := WireFlags(Some(s)) as bv8;
            (f & MetaMask) as int == s.metadata && (f & TransparentBit != 0) == s.transparent && (f & HollowBit != 0) == s.hollow
  {
    SmallMetadata(s.metadata);
    FlagBitsApart(LowByte(s.metadata) as bv8, s.transparent, s.hollow);
    ByteBits(FlagBits(Some(s)));
  }

  lemma SmallMetadata(n: int)
    requires 0 <= n < 16
    ensures LowByte(n) as bv8 as int == n && LowByte(n) as bv8 < 16
  {
    assert LowByte(n) as int == n;
  }

  lemma ByteBits(x: bv8)
    ensures (x as byte) as bv8 == x
  {
  }

  /** The two flag bits and four metadata bits do not overlap. */
  lemma FlagBitsApart(m: bv8, transparent: bool, hollow: bool)
    requires m < 16
    ensures var f := (if transparent then TransparentBit else 0) | (if hollow then HollowBit else 0) | m;
            f & MetaMask == m && (f & TransparentBit != 0) == transparent && (f & HollowBit != 0) == hollow
  {
  }

  /**
   * readData after writeData: the client receives the active state, for a
   * metadata below 16 and a block that is absent or registered; with no
   * active state it receives no block and all flags clear.
   */
  lemma SyncRoundTrip(active: Option<FacadeState>, reg: BlockRegistry)
    requires RegistryValid(reg)
    requires active.Some? ==> 0 <= active.value.metadata < 16
    requires active.Some? && active.value.block.Some? ==> active.value.block.value in reg.blocks
    ensures var e := Encoded(active, reg);
            |e| == 3 && Decoded(UnsignedShort(e[0], e[1]), e[2], reg) == if active.Some? then active.value else Unsynced
  {
    var id := WireId(active, reg);
    var e := Encoded(active, reg);
    assert e[0] == ShortBytes(id)[0] && e[1] == ShortBytes(id)[1] && e[2] == WireFlags(active);
    if active.Some? && active.value.block.Some? {
      BlockIdRoundTrip(reg, active.value.block.value);
    }
    UnsignedShortRoundTrip(id);
    DecodedWire(active, reg);
  }

  /** The id and the flags writeData produces decode to the state written. */
  lemma DecodedWire(active: Option<FacadeState>, reg: BlockRegistry)
    requires RegistryValid(reg)
    requires active.Some? ==> 0 <= active.value.metadata < 16
    requires active.Some? && active.value.block.Some? ==> active.value.block.value in reg.blocks
    ensures Decoded(WireId(active, reg), WireFlags(active), reg) == if active.Some? then active.value else Unsynced
  {
    if active.Some? {
      FlagsRoundTrip(active.value);
      if active.value.block.Some? {
        BlockIdRoundTrip(reg, active.value.block.value);
      }
    }
  }

  /** A metadata of 64 or more spills into the flag bits: a solid facade with metadata 64 arrives hollow. */
  lemma MetadataSpills(reg: BlockRegistry)
    ensures var e := Encoded(Some(FacadeState(None, 64, false, false)), reg);
            Decoded(UnsignedShort(e[0], e[1]), e[2], reg).hollow
  {
    assert LowByte(64) as bv8 == 64;
    assert WireFlags(Some(FacadeState(None, 64, false, false))) as bv8 == 64;
  }

  class FacadePluggable {
    var states: Option<seq<FacadeState>>
    var activeState: Option<FacadeState>
    // The fields a client receives.
    var block: Option<Block>
    var meta: int
    var transparent: bool
    var renderAsHollow: bool

    /** The synced fields as one state. */
    function Synced(): FacadeState
      reads this
    {
      FacadeState(block, meta, transparent, renderAsHollow)
    }

    /** FacadePluggable(states): the states are kept and the first becomes active. */
    constructor (states: seq<FacadeState>)
      ensures this.states == Some(states) && activeState == Prepared(None, Some(states)) && Synced() == Unsynced
    {
      this.states := Some(states);
      activeState := if |states| > 0 then Some(states[0]) else None;
      block := None;
      meta := 0;
      transparent := false;
      renderAsHollow := false;
    }

    /** FacadePluggable(): a client-side facade, waiting for its sync. */
    constructor Empty()
      ensures states.None? && activeState.None? && Synced() == Unsynced
    {
      states := None;
      activeState := None;
      block := None;
      meta := 0;
      transparent := false;
      renderAsHollow := false;
    }

    method PrepareStates()
      modifies this`activeState
      ensures activeState == Prepared(old(activeState), states)
    {
      if activeState.None? {
        activeState := if states.Some? && |states.value| > 0 then Some(states.value[0]) else None;
      }
    }

    /** setActiveState: an id outside the states leaves the active state as it was (null states throw). */
    method SetActiveState(id: int)
      requires states.Some?
      modifies this`activeState
      ensures 0 <= id < |states.value| ==> activeState == Some(states.value[id])
      ensures !(0 <= id < |states.value|) ==> activeState == old(activeState)
    {
      if 0 <= id < |states.value| {
        activeState := Some(states.value[id]);
      }
    }

    method GetCurrentBlock() returns (r: Option<Block>)
      modifies this`activeState
      ensures activeState == Prepared(old(activeState), states) && r == Shown(activeState, Synced()).block
    {
      PrepareStates();
      r := if activeState.None? then block else activeState.value.block;
    }

    method GetCurrentMetadata() returns (r: int)
      modifies this`activeState
      ensures activeState == Prepared(old(activeState), states) && r == Shown(activeState, Synced()).metadata
    {
      PrepareStates();
      r := if activeState.None? then meta else activeState.value.metadata;
    }

    method IsTransparent() returns (r: bool)
      modifies this`activeState
      ensures activeState == Prepared(old(activeState), states) && r == Shown(activeState, Synced()).transparent
    {
      PrepareStates();
      r := if activeState.None? then transparent else activeState.value.transparent;
    }

    method IsHollow() returns (r: bool)
      modifies this`activeState
      ensures activeState == Prepared(old(activeState), states) && r == Shown(activeState, Synced()).hollow
    {
      PrepareStates();
      r := if activeState.None? then renderAsHollow else activeState.value.hollow;
    }

    /** isBlocking: a facade blocks the pipe side unless it is hollow. */
    method IsBlocking() returns (r: bool)
      modifies this`activeState
      ensures activeState == Prepared(old(activeState), states) && r == !Shown(activeState, Synced()).hollow
    {
      var hollow := IsHollow();
      r := !hollow;
    }

    /** isSolidOnSide: the same rule as isBlocking. */
    method IsSolidOnSide() returns (r: bool)
      modifies this`activeState
      ensures activeState == Prepared(old(activeState), states) && r == !Shown(activeState, Synced()).hollow
    {
      var hollow := IsHollow();
      r := !hollow;
    }

    /** writeData: the active state (selected first) goes out as a short id and a flags byte. */
    method WriteData(buf: ByteBuf, reg: BlockRegistry)
      modifies this`activeState, buf`data
      ensures activeState == Prepared(old(activeState), states)
      ensures buf.data == old(buf.data) + Encoded(activeState, reg)
    {
      PrepareStates();
      if activeState.None? || activeState.value.block.None? {
        buf.WriteShort(0);
      } else {
        buf.WriteShort(IdFromBlock(reg, activeState.value.block.value));
      }
      ghost var written := buf.data;
      assert written == old(buf.data) + ShortBytes(WireId(activeState, reg));
      buf.WriteByte(WireFlags(activeState));
    }

    /** readData: the synced fields from a short id and a flags byte; a short read fails where the bytes run out. */
    method ReadData(buf: ByteBuf, reg: BlockRegistry) returns (ok: bool)
      requires buf.Valid()
      modifies this`block, this`meta, this`transparent, this`renderAsHollow, buf`readerIndex
      ensures buf.Valid()
      ensures var at := old(buf.readerIndex);
        && (ok <==> at + 3 <= |buf.data|)
        && (ok ==> Synced() == Decoded(UnsignedShort(buf.data[at], buf.data[at + 1]), buf.data[at + 2], reg)
                   && buf.readerIndex == at + 3)
        && (at + 2 == |buf.data| ==>
              && block == Decoded(UnsignedShort(buf.data[at], buf.data[at + 1]), 0, reg).block
              && meta == old(meta) && transparent == old(transparent) && renderAsHollow == old(renderAsHollow)
              && buf.readerIndex == at + 2)
        && (at + 2 > |buf.data| ==> Synced() == old(Synced()) && buf.readerIndex == at)
    {
      var id := buf.ReadUnsignedShort();
      if id.None? {
        return false;
      }
      block := if id.value > 0 then BlockById(reg, id.value) else None;
      var flags := buf.ReadUnsignedByte();
      if flags.None? {
        return false;
      }
      var f := flags.value as bv8;
      meta := (f & MetaMask) as int;
      transparent := f & TransparentBit != 0;
      renderAsHollow := f & HollowBit != 0;
      ok := true;
    }
  }

  /** requiresRenderUpdate: a re-render is needed iff any synced field differs. */
  function RequiresRenderUpdate(p: FacadePluggable, other: FacadePluggable): (r: bool)
    reads p, other
    ensures r <==> p.Synced() != other.Synced()
  {
    other.block != p.block || other.meta != p.meta || other.transparent != p.transparent || other.renderAsHollow != p.renderAsHollow
  }

  /** prepareStates never overwrites a set active state, picks the first state otherwise, and is idempotent. */
  lemma PreparedProperties(active: Option<FacadeState>, states: Option<seq<FacadeState>>)
    ensures active.Some? ==> Prepared(active, states) == active
    ensures active.None? ==> (Prepared(active, states).Some? <==> states.Some? && |states.value| > 0)
    ensures active.None? && Prepared(active, states).Some? ==> Prepared(active, states) == Some(states.value[0])
    ensures Prepared(Prepared(active, states), states) == Prepared(active, states)
  {
  }
}
