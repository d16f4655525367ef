/**
 * What one server tick of WorldSavedDataVolumeBoxes does to the volume
 * boxes, on values. The tick has two stages: first every box with a change
 * follows its player (or is paused when the player cannot be found), then
 * every box drops the locks whose cause no longer holds. Either stage can
 * make the data dirty, and dirty data is saved and broadcast.
 */
module Ticks {
  import opened Wrappers
  import opened Values
  import opened Boxes
  import opened Locks
  import opened Worlds
  import opened VolumeBoxData

  /**
   * Change.getPlayer followed by the look ray: a paused change has no
   * player; otherwise the block the player looks at, `dist` away, or None
   * when the player is not in the world.
   */
  function LookingAt(c: Change, world: World): Option<Pos> {
    if c.paused then None else world.lookingAt(c.playerId, c.dist)
  }

  /**
   * The first stage on one box. Without a player the change is paused.
   * With one, the box is reset, extended to the held corner and then to
   * the looked-at block.
   */
  function TickChange(v: VolumeBoxRecord, world: World): VolumeBoxRecord {
    match v.change
    case None => v
    case Some(c) =>
      match LookingAt(c, world)
      case None => v.(change := Some(c.(paused := true)))
      case Some(p) => v.(box := ExtendToEncompass(Make(c.held, c.held), p))
  }

  /** The first stage marks the data dirty: a pause, or bounds that moved. */
  predicate ChangeDirty(v: VolumeBoxRecord, world: World) {
    v.change.Some? && (LookingAt(v.change.value, world).None? || TickChange(v, world).box != v.box)
  }

  /** The locks whose cause still holds, in their order. */
  function LiveLocks(ls: seq<Lock>, world: World): seq<Lock> {
    if |ls| == 0 then []
    else (if StillWorks(ls[0].cause, world) then [ls[0]] else []) + LiveLocks(ls[1..], world)
  }

  /** locksToRemove: the locks whose cause no longer holds, in their order. */
  function DeadLocks(ls: seq<Lock>, world: World): seq<Lock> {
    if |ls| == 0 then []
    else (if StillWorks(ls[0].cause, world) then [] else [ls[0]]) + DeadLocks(ls[1..], world)
  }

  /** List.removeAll: every element equal to one in `gone` is dropped. */
  function RemoveAll(ls: seq<Lock>, gone: seq<Lock>): seq<Lock> {
    if |ls| == 0 then []
    else (if ls[0] in gone then [] else [ls[0]]) + RemoveAll(ls[1..], gone)
  }

  /** The second stage on one box. */
  function PruneLocks(v: VolumeBoxRecord, world: World): VolumeBoxRecord {
    v.(locks := LiveLocks(v.locks, world))
  }

  function TickChanges(vs: seq<VolumeBoxRecord>, world: World): (r: seq<VolumeBoxRecord>)
    ensures |r| == |vs| && forall i :: 0 <= i < |vs| ==> r[i] == TickChange(vs[i], world)
  {
    seq(|vs|, i requires 0 <= i < |vs| => TickChange(vs[i], world))
  }

  function PruneAll(vs: seq<VolumeBoxRecord>, world: World): (r: seq<VolumeBoxRecord>)
    ensures |r| == |vs| && forall i :: 0 <= i < |vs| ==> r[i] == PruneLocks(vs[i], world)
  {
    seq(|vs|, i requires 0 <= i < |vs| => PruneLocks(vs[i], world))
  }

  predicate AnyChangeDirty(vs: seq<VolumeBoxRecord>, world: World) {
    exists i :: 0 <= i < |vs| && ChangeDirty(vs[i], world)
  }

  predicate AnyPruned(vs: seq<VolumeBoxRecord>, world: World) {
    exists i :: 0 <= i < |vs| && LiveLocks(vs[i].locks, world) != vs[i].locks
  }

  /** The boxes after a whole tick. */
  function TickAll(vs: seq<VolumeBoxRecord>, world: World): seq<VolumeBoxRecord> {
    PruneAll(TickChanges(vs, world), world)
  }

  /** A whole tick marks the data dirty. */
  predicate TickDirty(vs: seq<VolumeBoxRecord>, world: World) {
    AnyChangeDirty(vs, world) || AnyPruned(TickChanges(vs, world), world)
  }

  // ---------------------------------------------------------------------
  // The first stage.

  /** A change whose player cannot be found ends paused; box and locks stay; the data is dirty. */
  lemma TickPausesWithoutPlayer(v: VolumeBoxRecord, world: World)
    requires v.change.Some? && LookingAt(v.change.value, world).None?
    ensures TickChange(v, world) == v.(change := Some(v.change.value.(paused := true)))
    ensures TickChange(v, world).change.value.paused
    ensures ChangeDirty(v, world)
  {
  }

  /**
   * A change whose player is found makes the box the smallest one holding
   * the held corner and the looked-at block; the change itself stays, and
   * the data is dirty iff the bounds moved.
   */
  lemma TickFollowsPlayer(v: VolumeBoxRecord, world: World, c: Box, q: Pos)
    requires v.change.Some? && LookingAt(v.change.value, world).Some?
    ensures var p := LookingAt(v.change.value, world).value;
            var r := TickChange(v, world);
            && r == v.(box := Make(v.change.value.held, p))
            && Sorted(r.box) && Contains(r.box, v.change.value.held) && Contains(r.box, p)
            && (Contains(c, v.change.value.held) && Contains(c, p) && Contains(r.box, q) ==> Contains(c, q))
            && (ChangeDirty(v, world) <==> r.box != v.box)
  {
    var p := LookingAt(v.change.value, world).value;
    MakeIsSpan(v.change.value.held, p, c, q);
  }

  /** A paused change stays paused and keeps its box; it marks the data dirty on every tick. */
  lemma PausedStaysPaused(v: VolumeBoxRecord, world: World)
    requires v.change.Some? && v.change.value.paused
    ensures TickChange(v, world) == v && ChangeDirty(v, world)
  {
  }

  /** A box with no change is left alone by the first stage. */
  lemma NoChangeUntouched(v: VolumeBoxRecord, world: World)
    requires v.change.None?
    ensures TickChange(v, world) == v && !ChangeDirty(v, world)
  {
  }

  /** The first stage touches only the box and the change. */
  lemma TickChangeFrame(v: VolumeBoxRecord, world: World)
    ensures var r := TickChange(v, world);
            && r.id == v.id && r.addons == v.addons && r.locks == v.locks
            && (r.change.None? <==> v.change.None?)
            && (v.change.Some? ==> r.change.value.(paused := v.change.value.paused) == v.change.value)
  {
  }

  // ---------------------------------------------------------------------
  // The second stage.

  /** The kept locks are exactly the live ones. */
  lemma {:induction false} LiveLocksMembers(ls: seq<Lock>, world: World, l: Lock)
    ensures l in LiveLocks(ls, world) <==> l in ls && StillWorks(l.cause, world)
    ensures |LiveLocks(ls, world)| <= |ls|
  {
    if |ls| > 0 {
      LiveLocksMembers(ls[1..], world, l);
      assert ls == [ls[0]] + ls[1..];
    }
  }

  /** Keeping the live locks keeps their order: it distributes over concatenation. */
  lemma {:induction false} LiveLocksAppend(a: seq<Lock>, b: seq<Lock>, world: World)
    ensures LiveLocks(a + b, world) == LiveLocks(a, world) + LiveLocks(b, world)
  {
    if |a| == 0 {
      assert a + b == b;
    } else {
      assert (a + b)[1..] == a[1..] + b;
      LiveLocksAppend(a[1..], b, world);
    }
  }

  /** Nothing is dropped iff every cause still holds. */
  lemma {:induction false} LiveLocksAll(ls: seq<Lock>, world: World)
    ensures LiveLocks(ls, world) == ls <==> forall i :: 0 <= i < |ls| ==> StillWorks(ls[i].cause, world)
  {
    if |ls| > 0 {
      LiveLocksAll(ls[1..], world);
      LiveLocksMembers(ls[1..], world, ls[0]);
      if forall i :: 0 <= i < |ls| ==> StillWorks(ls[i].cause, world) {
        assert forall i :: 0 <= i < |ls[1..]| ==> StillWorks(ls[1..][i].cause, world) by {
          forall i | 0 <= i < |ls[1..]| ensures StillWorks(ls[1..][i].cause, world) {
            assert ls[1..][i] == ls[i + 1];
          }
        }
      }
    }
  }

  /**
   * What the source does, removing every lock equal to one of the dead
   * ones, is keeping the live ones; and there is something to remove iff
   * the live ones are not all of them.
   */
  lemma {:induction false} RemoveDeadIsLive(ls: seq<Lock>, world: World)
    ensures RemoveAll(ls, DeadLocks(ls, world)) == LiveLocks(ls, world)
    ensures DeadLocks(ls, world) == [] <==> LiveLocks(ls, world) == ls
  {
    RemoveDeadFrom(ls, ls, world);
    DeadNone(ls, world);
  }

  lemma {:induction false} RemoveDeadFrom(ls: seq<Lock>, all: seq<Lock>, world: World)
    requires forall l :: l in ls ==> l in all
    ensures RemoveAll(ls, DeadLocks(all, world)) == LiveLocks(ls, world)
  {
    if |ls| > 0 {
      DeadMembers(all, world, ls[0]);
      RemoveDeadFrom(ls[1..], all, world);
    }
  }

  lemma {:induction false} DeadMembers(ls: seq<Lock>, world: World, l: Lock)
    ensures l in DeadLocks(ls, world) <==> l in ls && !StillWorks(l.cause, world)
  {
    if |ls| > 0 {
      DeadMembers(ls[1..], world, l);
      assert ls == [ls[0]] + ls[1..];
    }
  }

  lemma DeadNone(ls: seq<Lock>, world: World)
    ensures DeadLocks(ls, world) == [] <==> LiveLocks(ls, world) == ls
  {
    LiveLocksAll(ls, world);
    if DeadLocks(ls, world) == [] {
      forall i | 0 <= i < |ls| ensures StillWorks(ls[i].cause, world) {
        DeadMembers(ls, world, ls[i]);
      }
    } else {
      var l := DeadLocks(ls, world)[0];
      DeadMembers(ls, world, l);
      var i :| 0 <= i < |ls| && ls[i] == l;
    }
  }

  /** Pruning twice prunes nothing more. */
  lemma {:induction false} LiveLocksIdempotent(ls: seq<Lock>, world: World)
    ensures LiveLocks(LiveLocks(ls, world), world) == LiveLocks(ls, world)
  {
    if |ls| > 0 {
      LiveLocksIdempotent(ls[1..], world);
      var tail := LiveLocks(ls[1..], world);
      if StillWorks(ls[0].cause, world) {
        var kept := [ls[0]] + tail;
        assert LiveLocks(ls, world) == kept;
        assert kept[0] == ls[0] && kept[1..] == tail;
      } else {
        assert LiveLocks(ls, world) == [] + tail == tail;
      }
    }
  }

  // ---------------------------------------------------------------------
  // A whole tick.

  /**
   * With no change in progress and every cause live, a tick leaves every
   * box as it was and does not mark the data dirty.
   */
  lemma QuietTick(vs: seq<VolumeBoxRecord>, world: World)
    requires forall i :: 0 <= i < |vs| ==> vs[i].change.None?
    requires forall i, k :: 0 <= i < |vs| && 0 <= k < |vs[i].locks| ==> StillWorks(vs[i].locks[k].cause, world)
    ensures TickAll(vs, world) == vs && !TickDirty(vs, world)
  {
    forall i | 0 <= i < |vs| ensures LiveLocks(vs[i].locks, world) == vs[i].locks {
      LiveLocksAll(vs[i].locks, world);
    }
    assert TickChanges(vs, world) == vs;
  }

  /** A tick keeps the boxes' ids, add-ons and order, and drops locks only. */
  lemma TickKeeps(vs: seq<VolumeBoxRecord>, world: World, i: nat, l: Lock)
    requires i < |vs|
    ensures |TickAll(vs, world)| == |vs|
    ensures TickAll(vs, world)[i].id == vs[i].id && TickAll(vs, world)[i].addons == vs[i].addons
    ensures l in TickAll(vs, world)[i].locks <==> l in vs[i].locks && StillWorks(l.cause, world)
  {
    LiveLocksMembers(vs[i].locks, world, l);
  }

  /** A second tick in the same world finds no dead lock. */
  lemma TickPrunesOnce(vs: seq<VolumeBoxRecord>, world: World)
    ensures !AnyPruned(TickChanges(TickAll(vs, world), world), world)
  {
    var once := TickAll(vs, world);
    forall i | 0 <= i < |once|
      ensures LiveLocks(TickChanges(once, world)[i].locks, world) == TickChanges(once, world)[i].locks
    {
      LiveLocksIdempotent(TickChanges(vs, world)[i].locks, world);
    }
  }
}
