/**
 * Engine: an engine's stored energy and the stage it puts the engine in,
 * by the fill ratio energy/maxEnergy in percent. Adding energy past the
 * capacity sets off an explosion, kept here as a count of explosion events.
 */
module Engines {
  import opened Values

  datatype EnergyStage = Blue | Green | Yellow | Red | Explosion

  /** The declaration order of the stages. */
  function Ordinal(s: EnergyStage): nat {
    match s
    case Blue => 0
    case Green => 1
    case Yellow => 2
    case Red => 3
    case Explosion => 4
  }

  /**
   * getEnergyStage on exact arithmetic. With a capacity of 0 the double
   * division gives -Infinity for negative energy (Blue), and +Infinity or
   * NaN otherwise, which fails every comparison (Explosion).
   */
  function Stage(energy: int, maxEnergy: int): EnergyStage {
    if maxEnergy == 0 then (if energy < 0 then Blue else Explosion)
    else
      var percent := energy as real / maxEnergy as real * 100.0;
      if percent <= 25.0 then Blue
      else if percent <= 50.0 then Green
      else if percent <= 75.0 then Yellow
      else if percent <= 100.0 then Red
      else Explosion
  }

  /** For a positive capacity, the percentage comparisons are comparisons of 4·energy with multiples of the capacity. */
  lemma PercentBelow(energy: int, maxEnergy: int, k: int)
    requires maxEnergy > 0
    ensures (energy as real / maxEnergy as real * 100.0 <= 25.0 * k as real) <==> 4 * energy <= k * maxEnergy
  {
    var r := energy as real / maxEnergy as real;
    assert r * maxEnergy as real == energy as real;
    if r * 100.0 <= 25.0 * k as real {
      assert 4.0 * r <= k as real;
      assert 4.0 * r * maxEnergy as real <= k as real * maxEnergy as real;
    } else {
      assert 4.0 * r > k as real;
      assert 4.0 * r * maxEnergy as real > k as real * maxEnergy as real;
    }
  }

  /**
   * The stage of a positive capacity, by quarters: Blue up to 25%, Green
   * up to 50%, Yellow up to 75%, Red up to 100%, each bound inclusive, and
   * Explosion exactly above the capacity.
   */
  lemma StageThresholds(energy: int, maxEnergy: int)
    requires maxEnergy > 0
    ensures Stage(energy, maxEnergy) == Blue <==> 4 * energy <= maxEnergy
    ensures Stage(energy, maxEnergy) == Green <==> maxEnergy < 4 * energy <= 2 * maxEnergy
    ensures Stage(energy, maxEnergy) == Yellow <==> 2 * maxEnergy < 4 * energy <= 3 * maxEnergy
    ensures Stage(energy, maxEnergy) == Red <==> 3 * maxEnergy < 4 * energy <= 4 * maxEnergy
    ensures Stage(energy, maxEnergy) == Explosion <==> energy > maxEnergy
  {
    PercentBelow(energy, maxEnergy, 1);
    PercentBelow(energy, maxEnergy, 2);
    PercentBelow(energy, maxEnergy, 3);
    PercentBelow(energy, maxEnergy, 4);
  }

  /** For a fixed positive capacity, more energy never lowers the stage. */
  lemma StageMonotone(e1: int, e2: int, maxEnergy: int)
    requires maxEnergy > 0 && e1 <= e2
    ensures Ordinal(Stage(e1, maxEnergy)) <= Ordinal(Stage(e2, maxEnergy))
  {
    StageThresholds(e1, maxEnergy);
    StageThresholds(e2, maxEnergy);
  }

  /** With no capacity, any energy that is not negative is an explosion. */
  lemma NoCapacity(energy: int)
    ensures Stage(energy, 0) == Explosion <==> energy >= 0
  {
  }

  class Engine {
    var maxEnergy: int
    var energy: int
    /** How many times createExplosion was called. */
    var explosions: nat

    ghost predicate Valid()
      reads this
    {
      IsInt32(maxEnergy) && IsInt32(energy)
    }

    /** Engine(tile): Java's defaults, no energy and no capacity. */
    constructor ()
      ensures Valid() && maxEnergy == 0 && energy == 0 && explosions == 0
    {
      maxEnergy := 0;
      energy := 0;
      explosions := 0;
    }

    function GetEnergyStage(): EnergyStage
      reads this
    {
      Stage(energy, maxEnergy)
    }

    /**
     * addEnergy: the energy goes up by `addition`, with Java's 32-bit
     * wrap-around, and an explosion follows iff the new stage is Explosion.
     */
    method AddEnergy(addition: int)
      requires Valid() && IsInt32(addition)
      modifies this`energy, this`explosions
      ensures Valid()
      ensures energy == Wrap32(old(energy) + addition)
      ensures explosions == old(explosions) + (if Stage(energy, maxEnergy) == Explosion then 1 else 0)
    {
      energy := Wrap32(energy + addition);
      if GetEnergyStage() == Explosion {
        explosions := explosions + 1;
      }
    }
  }

  /** Without overflow the energy goes up by exactly the addition. */
  lemma AddEnergyExact(energy: int, addition: int)
    requires IsInt32(energy + addition)
    ensures Wrap32(energy + addition) == energy + addition
  {
  }

  /** For a positive capacity, a call to addEnergy that does not overflow explodes iff the energy passes the capacity. */
  lemma AddEnergyExplodes(energy: int, addition: int, maxEnergy: int)
    requires maxEnergy > 0 && IsInt32(energy + addition)
    ensures Stage(Wrap32(energy + addition), maxEnergy) == Explosion <==> energy + addition > maxEnergy
  {
    AddEnergyExact(energy, addition);
    StageThresholds(energy + addition, maxEnergy);
  }
}
