/**
 * The spawn scheduler: three elapsed-time accumulators, one per kind of
 * object, and a spawn routine that picks one kind whose time has come,
 * takes the objects from the pool, resets that kind's accumulator and then
 * waits for a fixed cooldown.
 *
 * The routine's random numbers (`Random.Range`) are inputs of `Update`; the
 * pool the spawner asks is an `ObjectPooler`, and every request it makes is
 * recorded on `requests`.
 */
module Spawning {
  import opened Pooling
  import opened Coroutines

  /** `ObjectType`: the kinds of object the spawner schedules. */
  datatype ObjectType = Coin | PowerUp | Obstacle

  const POWER_UP_SPAWN_TIME: real := 5.0
  const OBSTACLE_SPAWN_TIME: real := 4.0
  const COIN_SPAWN_TIME: real := 2.0
  /** The `WaitForSeconds` at the end of the spawn routine. */
  const SPAWN_COOLDOWN: real := 2.0
  /** `Random.Range(3, 6)` draws from 3..5: the upper bound of the integer form is exclusive. */
  const MIN_COINS: int := 3
  const MAX_COINS: int := 5
  const COIN_SPACING: real := 1.5

  /** One `GetFromPool` call: which prefab, at which x. */
  datatype Request = Request(prefab: Prefab, x: real)

  /** The random numbers one spawn routine draws. */
  datatype Draws = Draws(pick: int, coinCount: int, variant: int)

  /** The position of a kind in the order the routine tests the accumulators. */
  function Rank(t: ObjectType): nat
  {
    match t
    case Coin => 0
    case PowerUp => 1
    case Obstacle => 2
  }

  /** The condition under which `Update` starts the spawn routine. */
  predicate AnyDue(coin: real, power: real, obstacle: real)
  {
    coin >= COIN_SPAWN_TIME || power >= POWER_UP_SPAWN_TIME || obstacle >= OBSTACLE_SPAWN_TIME
  }

  /**
   * `availableTypes`: the kinds whose accumulator has reached its threshold,
   * in the order Coin, PowerUp, Obstacle. It is empty exactly when the
   * routine would not have been started.
   */
  function Ready(coin: real, power: real, obstacle: real): (r: seq<ObjectType>)
    ensures Coin in r <==> coin >= COIN_SPAWN_TIME
    ensures PowerUp in r <==> power >= POWER_UP_SPAWN_TIME
    ensures Obstacle in r <==> obstacle >= OBSTACLE_SPAWN_TIME
    ensures forall i, j :: 0 <= i < j < |r| ==> Rank(r[i]) < Rank(r[j])
    ensures r != [] <==> AnyDue(coin, power, obstacle)
  {
    (if coin >= COIN_SPAWN_TIME then [Coin] else []) +
    (if power >= POWER_UP_SPAWN_TIME then [PowerUp] else []) +
    (if obstacle >= OBSTACLE_SPAWN_TIME then [Obstacle] else [])
  }

  /** Unity's integer `Random.Range(0, n)` can return `x`: below `n`, or 0 when `n` is 0. */
  predicate InRange(n: nat, x: int)
  {
    if n > 0 then 0 <= x < n else x == 0
  }

  /** What `Random.Range` can return for the draws of a routine that chooses from `ready`. */
  predicate DrawsFit(d: Draws, ready: seq<ObjectType>, powerUps: seq<Prefab>, obstacles: seq<Prefab>)
  {
    && (ready != [] ==> 0 <= d.pick < |ready|)
    && MIN_COINS <= d.coinCount <= MAX_COINS
    && (0 <= d.pick < |ready| && ready[d.pick] == PowerUp ==> InRange(|powerUps|, d.variant))
    && (0 <= d.pick < |ready| && ready[d.pick] == Obstacle ==> InRange(|obstacles|, d.variant))
  }

  /** The requests of a row of `count` coins: the i-th one 1.5·i to the right of `x`. */
  function CoinRow(coin: Prefab, x: real, count: nat): (r: seq<Request>)
    ensures |r| == count
    ensures forall i :: 0 <= i < count ==> r[i] == Request(coin, RowAt(x, COIN_SPACING, i))
  {
    if count == 0 then [] else CoinRow(coin, x, count - 1) + [Request(coin, RowAt(x, COIN_SPACING, count - 1))]
  }

  class ObjectSpawner {
    const pool: ObjectPooler
    const coinPrefab: Prefab
    const powerUpsPrefab: seq<Prefab>
    const obstaclePrefab: seq<Prefab>
    /** `objectSpawnPos.position.x` */
    const spawnX: real

    var timeUntilCoinSpawn: real
    var timeUntilPowerSpawn: real
    var timeUntilObstacleSpawn: real
    var isSpawning: bool
    var isGameRunning: bool
    /** The spawn routine, waiting out its cooldown. */
    var cooldown: Timer
    /** Every `GetFromPool` call made so far, oldest first. */
    var requests: seq<Request>

    /**
     * The pool is valid, the accumulators are never negative, the spawning
     * flag is up while the cooldown runs, and a routine can only be stuck
     * (flag up, no cooldown) if it indexed an empty prefab array.
     */
    ghost predicate Valid()
      reads this, pool
    {
      && pool.Valid()
      && timeUntilCoinSpawn >= 0.0 && timeUntilPowerSpawn >= 0.0 && timeUntilObstacleSpawn >= 0.0
      && (cooldown.Running? ==> isSpawning)
      && (isSpawning && cooldown == Stopped ==> powerUpsPrefab == [] || obstaclePrefab == [])
    }

    /** `Start`, with the field initialisers. */
    constructor (pool: ObjectPooler, coinPrefab: Prefab, powerUps: seq<Prefab>, obstacles: seq<Prefab>, spawnX: real)
      requires pool.Valid()
      ensures Valid()
      ensures this.pool == pool && this.coinPrefab == coinPrefab && this.spawnX == spawnX
      ensures powerUpsPrefab == powerUps && obstaclePrefab == obstacles
      ensures timeUntilCoinSpawn == 0.0 && timeUntilPowerSpawn == 0.0 && timeUntilObstacleSpawn == 0.0
      ensures !isSpawning && !isGameRunning && cooldown == Stopped && requests == []
    {
      this.pool, this.coinPrefab, this.spawnX := pool, coinPrefab, spawnX;
      powerUpsPrefab, obstaclePrefab := powerUps, obstacles;
      timeUntilCoinSpawn, timeUntilPowerSpawn, timeUntilObstacleSpawn := 0.0, 0.0, 0.0;
      isSpawning, isGameRunning, cooldown, requests := false, false, Stopped, [];
    }

    /** `OnGameStart` */
    method SetGameStatusOn()
      modifies this
      ensures isGameRunning
      ensures timeUntilCoinSpawn == old(timeUntilCoinSpawn) && timeUntilPowerSpawn == old(timeUntilPowerSpawn)
      ensures timeUntilObstacleSpawn == old(timeUntilObstacleSpawn)
      ensures isSpawning == old(isSpawning) && cooldown == old(cooldown) && requests == old(requests)
    {
      isGameRunning := true;
    }

    /** `OnGameOver`: stops the accumulation; the accumulators keep their values and a running cooldown goes on. */
    method SetGameStatusOff()
      modifies this
      ensures !isGameRunning
      ensures timeUntilCoinSpawn == old(timeUntilCoinSpawn) && timeUntilPowerSpawn == old(timeUntilPowerSpawn)
      ensures timeUntilObstacleSpawn == old(timeUntilObstacleSpawn)
      ensures isSpawning == old(isSpawning) && cooldown == old(cooldown) && requests == old(requests)
    {
      isGameRunning := false;
    }

    /**
     * One frame of `dt` seconds. Nothing happens unless the game runs and no
     * routine is in progress; otherwise every accumulator grows by `dt`, and
     * if one has reached its threshold the spawn routine runs up to its wait.
     */
    method Update(dt: real, d: Draws)
      requires Valid() && dt >= 0.0
      requires isGameRunning && !isSpawning ==>
                 DrawsFit(d, Ready(timeUntilCoinSpawn + dt, timeUntilPowerSpawn + dt, timeUntilObstacleSpawn + dt),
                          powerUpsPrefab, obstaclePrefab)
      modifies this, pool
      ensures Valid()
      ensures isGameRunning == old(isGameRunning)
      ensures !old(isGameRunning) || old(isSpawning) ==>
                && timeUntilCoinSpawn == old(timeUntilCoinSpawn) && timeUntilPowerSpawn == old(timeUntilPowerSpawn)
                && timeUntilObstacleSpawn == old(timeUntilObstacleSpawn)
                && isSpawning == old(isSpawning) && cooldown == old(cooldown) && requests == old(requests)
                && unchanged(pool)
      ensures old(isGameRunning) && !old(isSpawning) &&
              !AnyDue(old(timeUntilCoinSpawn) + dt, old(timeUntilPowerSpawn) + dt, old(timeUntilObstacleSpawn) + dt) ==>
                && timeUntilCoinSpawn == old(timeUntilCoinSpawn) + dt && timeUntilPowerSpawn == old(timeUntilPowerSpawn) + dt
                && timeUntilObstacleSpawn == old(timeUntilObstacleSpawn) + dt
                && !isSpawning && cooldown == old(cooldown) && requests == old(requests)
                && unchanged(pool)
      ensures old(isGameRunning) && !old(isSpawning) &&
              AnyDue(old(timeUntilCoinSpawn) + dt, old(timeUntilPowerSpawn) + dt, old(timeUntilObstacleSpawn) + dt) ==>
                RoutineRan(old(timeUntilCoinSpawn) + dt, old(timeUntilPowerSpawn) + dt, old(timeUntilObstacleSpawn) + dt,
                           d, old(requests), old(pool.State()))
    {
      if !isGameRunning {
        return;
      }
      if isSpawning {
        return;
      }
      timeUntilCoinSpawn := timeUntilCoinSpawn + dt;
      timeUntilPowerSpawn := timeUntilPowerSpawn + dt;
      timeUntilObstacleSpawn := timeUntilObstacleSpawn + dt;
      if AnyDue(timeUntilCoinSpawn, timeUntilPowerSpawn, timeUntilObstacleSpawn) {
        SpawnRoutine(d);
      }
    }

    /** The prefab array `SpawnSingle` draws from for a power-up or an obstacle. */
    function PrefabsOf(kind: ObjectType): seq<Prefab>
    {
      if kind == PowerUp then powerUpsPrefab else obstaclePrefab
    }

    /**
     * The state after the spawn routine ran from the accumulator values
     * `coin`, `power`, `obstacle` with the draws `d`: the flag is up, the
     * drawn kind was spawned, and the cooldown runs unless the spawn hit an
     * empty prefab array.
     */
    ghost predicate RoutineRan(coin: real, power: real, obstacle: real, d: Draws, before: seq<Request>, pool0: PoolState)
      reads this, pool
      requires DrawsFit(d, Ready(coin, power, obstacle), powerUpsPrefab, obstaclePrefab)
      requires AnyDue(coin, power, obstacle)
    {
      var kind := Ready(coin, power, obstacle)[d.pick];
      && isSpawning
      && Spawned(kind, d, coin, power, obstacle, before, pool0)
      && cooldown == (if kind == Coin || PrefabsOf(kind) != [] then Running(SPAWN_COOLDOWN) else Stopped)
    }

    /**
     * The state after the routine's `switch` spawned `kind` from the
     * accumulator values `coin`, `power`, `obstacle`, the requests `before`
     * and the pool state `pool0`: the kind's objects were taken from the pool
     * and requested and only its accumulator is back at 0; or, when the
     * kind's prefab array is empty, the out-of-range index stopped the
     * routine with nothing requested, nothing taken and nothing reset.
     */
    ghost predicate Spawned(kind: ObjectType, d: Draws, coin: real, power: real, obstacle: real,
                            before: seq<Request>, pool0: PoolState)
      reads this`timeUntilCoinSpawn, this`timeUntilPowerSpawn, this`timeUntilObstacleSpawn, this`requests, pool
      requires MIN_COINS <= d.coinCount
      requires kind != Coin && PrefabsOf(kind) != [] ==> 0 <= d.variant < |PrefabsOf(kind)|
    {
      var prefabs := PrefabsOf(kind);
      && (kind == Coin ==>
            && timeUntilCoinSpawn == 0.0 && timeUntilPowerSpawn == power && timeUntilObstacleSpawn == obstacle
            && requests == before + CoinRow(coinPrefab, spawnX, d.coinCount)
            && pool.State() == pool0.GetRow(coinPrefab, d.coinCount, spawnX, COIN_SPACING))
      && (kind != Coin && prefabs != [] ==>
            && timeUntilCoinSpawn == coin
            && timeUntilPowerSpawn == (if kind == PowerUp then 0.0 else power)
            && timeUntilObstacleSpawn == (if kind == Obstacle then 0.0 else obstacle)
            && requests == before + [Request(prefabs[d.variant], spawnX)]
            && pool.State() == pool0.Get(prefabs[d.variant], spawnX))
      && (kind != Coin && prefabs == [] ==>
            && timeUntilCoinSpawn == coin && timeUntilPowerSpawn == power && timeUntilObstacleSpawn == obstacle
            && requests == before && pool.State() == pool0)
    }

    /** `SpawnRoutine` up to its `WaitForSeconds`. */
    method SpawnRoutine(d: Draws)
      requires Valid() && !isSpawning
      requires AnyDue(timeUntilCoinSpawn, timeUntilPowerSpawn, timeUntilObstacleSpawn)
      requires DrawsFit(d, Ready(timeUntilCoinSpawn, timeUntilPowerSpawn, timeUntilObstacleSpawn), powerUpsPrefab, obstaclePrefab)
      modifies this, pool
      ensures Valid()
      ensures isGameRunning == old(isGameRunning)
      ensures RoutineRan(old(timeUntilCoinSpawn), old(timeUntilPowerSpawn), old(timeUntilObstacleSpawn), d,
                         old(requests), old(pool.State()))
    {
      isSpawning := true;
      var availableTypes := Ready(timeUntilCoinSpawn, timeUntilPowerSpawn, timeUntilObstacleSpawn);
      var selectedType := availableTypes[d.pick];
      var ok := SpawnSelected(selectedType, d);
      if ok {
        cooldown := Running(SPAWN_COOLDOWN);
      }
    }

    /** The routine's `switch`: spawns the selected kind; `ok` is false when its prefab array is empty. */
    method SpawnSelected(kind: ObjectType, d: Draws) returns (ok: bool)
      requires pool.Valid() && MIN_COINS <= d.coinCount <= MAX_COINS
      requires kind != Coin ==> InRange(|PrefabsOf(kind)|, d.variant)
      modifies this`requests, this`timeUntilCoinSpawn, this`timeUntilPowerSpawn, this`timeUntilObstacleSpawn, pool
      ensures pool.Valid()
      ensures ok <==> kind == Coin || PrefabsOf(kind) != []
      ensures Spawned(kind, d, old(timeUntilCoinSpawn), old(timeUntilPowerSpawn), old(timeUntilObstacleSpawn),
                      old(requests), old(pool.State()))
    {
      match kind {
        case Coin =>
          SpawnCoins(d.coinCount);
          timeUntilCoinSpawn := 0.0;
          ok := true;
        case PowerUp =>
          ok := SpawnSingle(powerUpsPrefab, d.variant);
          if !ok {
            return;  // the exception ends the coroutine here
          }
          timeUntilPowerSpawn := 0.0;
        case Obstacle =>
          ok := SpawnSingle(obstaclePrefab, d.variant);
          if !ok {
            return;  // the exception ends the coroutine here
          }
          timeUntilObstacleSpawn := 0.0;
      }
    }

    /** `dt` seconds of the routine's cooldown pass; when it is over the flag goes down. */
    method TickRoutine(dt: real)
      requires Valid() && dt >= 0.0
      modifies this
      ensures Valid()
      ensures cooldown == Advance(old(cooldown), dt)
      ensures isSpawning == (if old(cooldown).Running? then cooldown.Running? else old(isSpawning))
      ensures timeUntilCoinSpawn == old(timeUntilCoinSpawn) && timeUntilPowerSpawn == old(timeUntilPowerSpawn)
      ensures timeUntilObstacleSpawn == old(timeUntilObstacleSpawn)
      ensures isGameRunning == old(isGameRunning) && requests == old(requests)
    {
      if cooldown.Running? {
        cooldown := Advance(cooldown, dt);
        if cooldown == Stopped {
          isSpawning := false;
        }
      }
    }

    /**
     * `SpawnCoins`: `count` coins in a row from the spawn point, 1.5 apart.
     * The pool's new state is that of `count` successive `GetFromPool`
     * calls; `ObjectPooler.RowDraws` states it in closed form: the coin pool
     * hands out its idle coins from the front, then fresh ones, and they
     * become active in that order.
     */
    method SpawnCoins(count: int)
      requires pool.Valid() && MIN_COINS <= count <= MAX_COINS
      modifies this`requests, pool
      ensures pool.Valid()
      ensures requests == old(requests) + CoinRow(coinPrefab, spawnX, count)
      ensures pool.State() == old(pool.State()).GetRow(coinPrefab, count, spawnX, COIN_SPACING)
    {
      ghost var s0 := pool.State();
      var i := 0;
      while i < count
        invariant 0 <= i <= count
        invariant pool.Valid()
        invariant requests == old(requests) + CoinRow(coinPrefab, spawnX, i)
        invariant pool.State() == s0.GetRow(coinPrefab, i, spawnX, COIN_SPACING)
      {
        SpawnCoinAt(s0, old(requests), i);
        i := i + 1;
      }
    }

    /** One iteration of `SpawnCoins`' loop: the `i`-th coin of the row from the pool. */
    method SpawnCoinAt(ghost s0: PoolState, ghost r0: seq<Request>, i: nat)
      requires pool.Valid()
      requires pool.State() == s0.GetRow(coinPrefab, i, spawnX, COIN_SPACING)
      requires requests == r0 + CoinRow(coinPrefab, spawnX, i)
      modifies this`requests, pool
      ensures pool.Valid()
      ensures pool.State() == s0.GetRow(coinPrefab, i + 1, spawnX, COIN_SPACING)
      ensures requests == r0 + CoinRow(coinPrefab, spawnX, i + 1)
    {
      var x := RowAt(spawnX, COIN_SPACING, i);
      var _ := pool.GetFromPool(coinPrefab, x);
      requests := requests + [Request(coinPrefab, x)];
    }

    /**
     * `SpawnSingle`: one object of the prefab at index `index` at the spawn
     * point. With an empty array the index 0 is out of range: nothing is
     * requested and `ok` is false.
     */
    method SpawnSingle(prefabArray: seq<Prefab>, index: int) returns (ok: bool)
      requires pool.Valid() && InRange(|prefabArray|, index)
      modifies this`requests, pool
      ensures pool.Valid()
      ensures ok <==> prefabArray != []
      ensures ok ==> requests == old(requests) + [Request(prefabArray[index], spawnX)]
      ensures ok ==> pool.State() == old(pool.State()).Get(prefabArray[index], spawnX)
      ensures !ok ==> requests == old(requests) && unchanged(pool)
    {
      if index >= |prefabArray| {
        // IndexOutOfRangeException
        return false;
      }
      var _ := pool.GetFromPool(prefabArray[index], spawnX);
      requests := requests + [Request(prefabArray[index], spawnX)];
      return true;
    }
  }
}
