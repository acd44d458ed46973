/**
 * The loot draw (src/gacha_system.cpp): one pool of module types per level,
 * a drop rate per module type, and a draw of three options from a pool.
 *
 * The weighted random draw is a nondeterministic choice of pool members;
 * the rates are kept and exposed through Weight, but the normalisation and
 * std::discrete_distribution are not part of this model.
 */
module Gacha {
  import opened Components

  /** The number of options a draw offers. */
  const NUM_OPTIONS: nat := 3

  /** The rate a module is drawn with: the one set for it, else 1.0. */
  function Weight(rates: map<ModuleType, real>, m: ModuleType): (w: real)
    ensures m in rates ==> w == rates[m]
    ensures m !in rates ==> w == 1.0
  {
    if m in rates then rates[m] else 1.0
  }

  /** The pools the constructor leaves: five levels, of which only 0 and 1 are filled. */
  function DefaultPools(): (p: seq<set<ModuleType>>)
    ensures |p| == 5
  {
    [{SIMPLE_CANNON, FAST_CANNON}, {SIMPLE_CANNON, FAST_CANNON, PLATFORM}, {}, {}, {}]
  }

  /** The rates the constructor sets. */
  function DefaultRates(): map<ModuleType, real>
  {
    map[STEERING_WHEEL := 0.0, HELPER_BUNNY := 0.0, EMPTY := 0.0,
        PLATFORM := 5.0, SIMPLE_CANNON := 100.0, FAST_CANNON := 50.0]
  }

  /**
   * With the constructor's rates, the steering wheel, the helper bunny and
   * the empty module weigh nothing; types given no rate weigh 1.0.
   */
  lemma DefaultWeights()
    ensures Weight(DefaultRates(), STEERING_WHEEL) == 0.0
    ensures Weight(DefaultRates(), HELPER_BUNNY) == 0.0
    ensures Weight(DefaultRates(), EMPTY) == 0.0
    ensures forall m :: m in {LASER_WEAPON, BUBBLE_MOD, HEAL} ==> Weight(DefaultRates(), m) == 1.0
    ensures forall m :: Weight(DefaultRates(), m) >= 0.0
  {
  }

  /** The pool a draw for `level` uses; a negative level wraps to a huge unsigned index and finds none. */
  function PoolOf(pools: seq<set<ModuleType>>, level: int): (r: set<ModuleType>)
    ensures (level < 0 || level >= |pools|) ==> r == {}
    ensures 0 <= level < |pools| ==> r == pools[level]
  {
    if 0 <= level < |pools| then pools[level] else {}
  }

  class GachaSystem {
    var levelModulePools: seq<set<ModuleType>>
    var moduleDropRates: map<ModuleType, real>

    constructor ()
      ensures levelModulePools == DefaultPools() && moduleDropRates == DefaultRates()
    {
      levelModulePools := [{}, {}, {}, {}, {}];
      moduleDropRates := map[];
      new;
      SetLevelPool(0, [SIMPLE_CANNON, FAST_CANNON]);
      SetLevelPool(1, [SIMPLE_CANNON, FAST_CANNON, PLATFORM]);
      SetDropRate(STEERING_WHEEL, 0.0);
      SetDropRate(HELPER_BUNNY, 0.0);
      SetDropRate(EMPTY, 0.0);
      SetDropRate(PLATFORM, 5.0);
      SetDropRate(SIMPLE_CANNON, 100.0);
      SetDropRate(FAST_CANNON, 50.0);
      assert (set m | m in [SIMPLE_CANNON, FAST_CANNON]) == {SIMPLE_CANNON, FAST_CANNON};
      assert (set m | m in [SIMPLE_CANNON, FAST_CANNON, PLATFORM]) == {SIMPLE_CANNON, FAST_CANNON, PLATFORM};
      assert levelModulePools == DefaultPools();
    }

    /**
     * setLevelPool: the pool list grows (with empty pools) to level + 1 when
     * it is too short, and that level's pool becomes the set of ms.
     */
    method SetLevelPool(level: int, ms: seq<ModuleType>)
      requires level >= 0
      modifies this
      ensures |levelModulePools| == if level < |old(levelModulePools)| then |old(levelModulePools)| else level + 1
      ensures levelModulePools[level] == set m | m in ms
      ensures forall k :: 0 <= k < |old(levelModulePools)| && k != level ==> levelModulePools[k] == old(levelModulePools)[k]
      ensures forall k :: |old(levelModulePools)| <= k < |levelModulePools| && k != level ==> levelModulePools[k] == {}
      ensures moduleDropRates == old(moduleDropRates)
    {
      if level >= |levelModulePools| {
        levelModulePools := levelModulePools + seq(level + 1 - |levelModulePools|, _ => {});
      }
      levelModulePools := levelModulePools[level := set m | m in ms];
    }

    /** setDropRate: the rate of that module is overwritten. */
    method SetDropRate(m: ModuleType, rate: real)
      modifies this
      ensures moduleDropRates == old(moduleDropRates)[m := rate]
      ensures levelModulePools == old(levelModulePools)
    {
      moduleDropRates := moduleDropRates[m := rate];
    }

    /**
     * getModuleOptions: nothing for a level without a pool or with an empty
     * one, else three draws from that pool (repeats allowed).
     */
    method GetModuleOptions(level: int) returns (options: seq<ModuleType>)
      ensures PoolOf(levelModulePools, level) == {} ==> options == []
      ensures PoolOf(levelModulePools, level) != {} ==>
                |options| == NUM_OPTIONS && forall k :: 0 <= k < |options| ==> options[k] in PoolOf(levelModulePools, level)
    {
      if level < 0 || level >= |levelModulePools| || levelModulePools[level] == {} {
        return [];
      }
      var pool := levelModulePools[level];
      options := [];
      var i := 0;
      while i < NUM_OPTIONS
        invariant 0 <= i <= NUM_OPTIONS
        invariant |options| == i
        invariant forall k :: 0 <= k < i ==> options[k] in pool
      {
        var m :| m in pool;
        options := options + [m];
        i := i + 1;
      }
    }

    /** displayGacha: draws the options for the level (the UI that shows them is not part of this model). */
    method DisplayGacha(level: int) returns (options: seq<ModuleType>)
      ensures options == [] <==> PoolOf(levelModulePools, level) == {}
      ensures forall k :: 0 <= k < |options| ==> options[k] in PoolOf(levelModulePools, level)
    {
      options := GetModuleOptions(level);
    }
  }
}
