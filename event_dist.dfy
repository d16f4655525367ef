/**
 * BCCoreEventDist: the two world events the volume boxes listen to. A world
 * tick on the server ticks the world's saved data; a server player joining
 * a world resumes that player's paused changes.
 */
module EventDist {
  import opened Wrappers
  import opened Values
  import opened Boxes
  import opened Worlds
  import opened VolumeBoxData
  import opened VolumeBoxes
  import opened Ticks
  import opened SavedData

  /** The entity of an EntityJoinWorldEvent: its unique id, and whether it is a server-side player (EntityPlayerMP). */
  datatype Entity = Entity(id: Uuid, isServerPlayer: bool)

  /** The box has a paused change of this player. */
  predicate PausedFor(v: VolumeBoxRecord, player: Uuid) {
    v.change.Some? && v.change.value.paused && v.change.value.playerId == player
  }

  /** The box after the join rule for `player`. */
  function Resumed(v: VolumeBoxRecord, player: Uuid): VolumeBoxRecord {
    if PausedFor(v, player) then v.(change := Some(v.change.value.(paused := false))) else v
  }

  /** The join rule over the list, box by box. */
  function ResumedAll(vs: seq<VolumeBoxRecord>, player: Uuid): (r: seq<VolumeBoxRecord>)
    ensures |r| == |vs| && forall i :: 0 <= i < |vs| ==> r[i] == Resumed(vs[i], player)
  {
    seq(|vs|, i requires 0 <= i < |vs| => Resumed(vs[i], player))
  }

  /**
   * Resuming alters only the paused flag: afterwards a change is paused
   * iff it was paused and belongs to some other player.
   */
  lemma ResumeOnlyUnpauses(v: VolumeBoxRecord, player: Uuid)
    ensures var r := Resumed(v, player);
            && r.id == v.id && r.box == v.box && r.addons == v.addons && r.locks == v.locks
            && r.change.Some? == v.change.Some?
            && (r.change.Some? ==>
                  && r.change.value.playerId == v.change.value.playerId
                  && r.change.value.oldBox == v.change.value.oldBox
                  && r.change.value.held == v.change.value.held
                  && r.change.value.dist == v.change.value.dist
                  && (r.change.value.paused <==> v.change.value.paused && v.change.value.playerId != player))
  {
  }

  /** Boxes without a change, with a running change, or with another player's change are left untouched. */
  lemma ResumeLeavesOthers(v: VolumeBoxRecord, player: Uuid)
    requires v.change.None? || !v.change.value.paused || v.change.value.playerId != player
    ensures Resumed(v, player) == v
  {
  }

  /** A second join of the same player changes nothing more. */
  lemma ResumeIdempotent(vs: seq<VolumeBoxRecord>, player: Uuid)
    ensures ResumedAll(ResumedAll(vs, player), player) == ResumedAll(vs, player)
  {
  }

  /**
   * After the player rejoins, the next tick follows them again: when they
   * are in the world the change stays running and the box spans the held
   * corner and the looked-at block, where before the join it stayed paused.
   */
  lemma ResumeThenTick(v: VolumeBoxRecord, player: Uuid, world: World)
    requires PausedFor(v, player) && world.lookingAt(player, v.change.value.dist).Some?
    ensures TickChange(v, world) == v
    ensures var r := Resumed(v, player);
            && TickChange(r, world).change == r.change && !r.change.value.paused
            && TickChange(r, world).box == Make(v.change.value.held, world.lookingAt(player, v.change.value.dist).value)
  {
    PausedStaysPaused(v, world);
    var r := Resumed(v, player);
    TickFollowsPlayer(r, world, r.box, v.change.value.held);
  }

  /** The join rule done on a prefix: one more box. */
  lemma ResumedAllNext(vs: seq<VolumeBoxRecord>, i: nat, player: Uuid)
    requires i < |vs|
    ensures (ResumedAll(vs[..i], player) + vs[i..])[i] == vs[i]
    ensures (ResumedAll(vs[..i], player) + vs[i..])[i := Resumed(vs[i], player)] == ResumedAll(vs[..i + 1], player) + vs[i + 1..]
  {
    assert vs[..i + 1][i] == vs[i];
    assert forall j :: 0 <= j < i ==> vs[..i + 1][j] == vs[..i][j];
  }

  /** The join rule done on no box, and on all of them. */
  lemma ResumedAllEnds(vs: seq<VolumeBoxRecord>, player: Uuid)
    ensures ResumedAll(vs[..0], player) + vs[0..] == vs
    ensures ResumedAll(vs[..|vs|], player) + vs[|vs|..] == ResumedAll(vs, player)
  {
    assert vs[..|vs|] == vs;
  }

  /**
   * The join rule on the box at `k`, the boxes before it done: the other
   * boxes keep their values, and one more box is done.
   */
  method ResumeStep(bs: seq<VolumeBox>, k: nat, b: VolumeBox, player: Uuid,
                    ghost before: seq<VolumeBoxRecord>, ghost now: seq<VolumeBoxRecord>)
    returns (ghost next: seq<VolumeBoxRecord>)
    requires k < |bs| == |before| && b == bs[k] && forall i :: 0 <= i < |bs| ==> bs[i].Valid()
    requires forall i, j :: 0 <= i < j < |bs| ==> bs[i] != bs[j]
    requires ViewsOf(bs) == now && now == ResumedAll(before[..k], player) + before[k..]
    modifies b`change
    ensures forall i :: 0 <= i < |bs| ==> bs[i].Valid()
    ensures ViewsOf(bs) == next && next == ResumedAll(before[..k + 1], player) + before[k + 1..]
  {
    ResumedAllNext(before, k, player);
    ResumeAt(bs, k, b, player);
    next := now[k := b.View()];
    assert ViewsOf(bs) == next;
  }

  /** The join rule on the box at `k` of a list of distinct boxes; the others keep their values. */
  method ResumeAt(bs: seq<VolumeBox>, k: nat, b: VolumeBox, player: Uuid)
    requires k < |bs| && b == bs[k] && forall i :: 0 <= i < |bs| ==> bs[i].Valid()
    requires forall i, j :: 0 <= i < j < |bs| ==> bs[i] != bs[j]
    modifies b`change
    ensures forall i :: 0 <= i < |bs| ==> bs[i].Valid()
    ensures b.View() == Resumed(old(b.View()), player)
    ensures forall j :: 0 <= j < |bs| && j != k ==> bs[j].View() == old(bs[j].View())
  {
    if b.change.Some? && b.change.value.paused && b.change.value.playerId == player {
      b.SetPaused(false);
    }
    forall j | 0 <= j < |bs| && j != k
      ensures bs[j].View() == old(bs[j].View())
    {
      assert bs[j] != b by { if j < k { } else { } }
    }
  }

  /** The stream over the boxes' changes that unpauses the joining player's paused ones. */
  method ResumeChanges(bs: seq<VolumeBox>, player: Uuid)
    requires forall i :: 0 <= i < |bs| ==> bs[i].Valid()
    requires forall i, j :: 0 <= i < j < |bs| ==> bs[i] != bs[j]
    modifies bs
    ensures forall i :: 0 <= i < |bs| ==> bs[i].Valid()
    ensures ViewsOf(bs) == ResumedAll(old(ViewsOf(bs)), player)
  {
    ghost var before := ViewsOf(bs);
    ghost var now := before;
    ResumedAllEnds(before, player);
    var i := 0;
    while i < |bs|
      invariant i <= |bs|
      invariant forall j :: 0 <= j < |bs| ==> bs[j].Valid()
      invariant ViewsOf(bs) == now && now == ResumedAll(before[..i], player) + before[i..]
    {
      now := ResumeStep(bs, i, bs[i], player, before, now);
      i := i + 1;
    }
  }

  /**
   * onWorldTick: only a server-side world that has a server is ticked;
   * there the saved data is fetched (or created) and ticked.
   */
  method OnWorldTick(world: World, storage: Storage)
    requires storage.Valid()
    modifies storage`instance, storage.instance, if storage.instance != null then storage.instance.volumeBoxes else []
    ensures storage.Valid()
    ensures world.isRemote || !world.hasServer ==>
      && storage.instance == old(storage.instance) && storage.Views() == old(storage.Views())
      && (storage.instance != null ==> storage.instance.dirty == old(storage.instance.dirty)
                                       && storage.instance.sent == old(storage.instance.sent))
    ensures !world.isRemote && world.hasServer ==>
      && storage.instance != null
      && (old(storage.instance) != null ==> storage.instance == old(storage.instance))
      && storage.Views() == TickAll(old(storage.Views()), world)
      && storage.instance.dirty == (old(storage.instance != null && storage.instance.dirty) || TickDirty(old(storage.Views()), world))
      && storage.instance.sent == old(if storage.instance != null then storage.instance.sent else [])
                                  + (if TickDirty(old(storage.Views()), world) then [storage.Views()] else [])
  {
    if !world.isRemote && world.hasServer {
      ghost var before := storage.Views();
      ghost var wasDirty := storage.instance != null && storage.instance.dirty;
      ghost var wasSent := if storage.instance != null then storage.instance.sent else [];
      var data := Get(world, storage);
      assert data.value.Views() == before && data.value.dirty == wasDirty && data.value.sent == wasSent;
      data.value.Tick(world);
    }
  }

  /**
   * onEntityJoinWorld: for a server player, every paused change of theirs
   * is resumed; other entities change nothing. The delayed message with
   * the boxes sent to the player is not modelled.
   */
  method OnEntityJoinWorld(entity: Entity, world: World, storage: Storage)
    requires storage.Valid()
    modifies storage`instance, if storage.instance != null then storage.instance.volumeBoxes else []
    ensures storage.Valid()
    ensures !entity.isServerPlayer || world.isRemote ==>
      storage.instance == old(storage.instance) && storage.Views() == old(storage.Views())
    ensures entity.isServerPlayer && !world.isRemote ==>
      && storage.instance != null
      && (old(storage.instance) != null ==> storage.instance == old(storage.instance))
      && storage.Views() == ResumedAll(old(storage.Views()), entity.id)
  {
    if entity.isServerPlayer {
      var data := Get(world, storage);
      if data.Some? {
        ResumeChanges(data.value.volumeBoxes, entity.id);
      }
    }
  }
}
