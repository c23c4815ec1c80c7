/**
 * The player's coin score, lives and shield.
 *
 * Events the component publishes are appended to `published`. The two
 * coroutines (`RunShield`, `RunScoreBooster`) are countdowns that `Tick`
 * advances by the frame time.
 */
module Player {
  import opened Events
  import opened Coroutines

  const START_LIVES: int := 3

  /** The events `ResetStats` publishes. */
  function ResetEvents(): seq<Event>
  {
    [CoinScoreChanged("0"), DistanceUpdated(0.0)]
  }

  class PlayerStats {
    var coinScore: int
    var distanceScore: real
    var playerLives: int
    var isShieldActive: bool
    var scoreBoosterMultiplier: real
    /** `shieldCoroutine` */
    var shieldTimer: Timer
    /** `scoreBoosterCoroutine` */
    var boosterTimer: Timer
    /** Every event published so far, oldest first. */
    var published: seq<Event>

    /**
     * Lives stay within 1..3 between events, the score is a C# `int`, the
     * shield is up exactly while its coroutine waits, and the multiplier and
     * the distance score keep their initial values.
     */
    ghost predicate Valid()
      reads this
    {
      && IsInt32(coinScore)
      && 1 <= playerLives <= START_LIVES
      && (isShieldActive <==> shieldTimer.Running?)
      && scoreBoosterMultiplier == 1.0
      && distanceScore == 0.0
    }

    /** The state `ResetStats` restores, apart from the trace. */
    ghost predicate IsReset()
      reads this
    {
      && coinScore == 0 && distanceScore == 0.0 && playerLives == START_LIVES
      && !isShieldActive && scoreBoosterMultiplier == 1.0
      && shieldTimer == Stopped && boosterTimer == Stopped
    }

    /** `Start`, with the field initialisers. */
    constructor ()
      ensures Valid() && IsReset()
      ensures published == []
    {
      coinScore, distanceScore, playerLives := 0, 0.0, START_LIVES;
      isShieldActive, scoreBoosterMultiplier := false, 1.0;
      shieldTimer, boosterTimer := Stopped, Stopped;
      published := [];
    }

    /** `OnCoinCollected`: adds `amount` with `int` wrap-around and publishes the new total as text. */
    method AddCoins(amount: int)
      requires Valid() && IsInt32(amount)
      modifies this
      ensures Valid()
      ensures coinScore == Wrap32(old(coinScore) + amount)
      ensures published == old(published) + [CoinScoreChanged(IntToString(coinScore))]
      ensures playerLives == old(playerLives) && isShieldActive == old(isShieldActive)
      ensures shieldTimer == old(shieldTimer) && boosterTimer == old(boosterTimer)
      ensures distanceScore == old(distanceScore) && scoreBoosterMultiplier == old(scoreBoosterMultiplier)
    {
      coinScore := Wrap32(coinScore + amount);
      published := published + [CoinScoreChanged(IntToString(coinScore))];
    }

    /**
     * `OnPlayerHitObstacle`: ignored under the shield; otherwise one life
     * less, published, and at zero lives `PlayerDied` (whose subscriber
     * `ResetStats` runs at once) followed by `GameOver`.
     */
    method UpdateLives()
      requires Valid()
      modifies this
      ensures Valid()
      ensures old(isShieldActive) ==> unchanged(this)
      ensures !old(isShieldActive) && old(playerLives) > 1 ==>
                && playerLives == old(playerLives) - 1
                && published == old(published) + [LifeUpdated(playerLives)]
                && coinScore == old(coinScore) && isShieldActive == old(isShieldActive)
                && shieldTimer == old(shieldTimer) && boosterTimer == old(boosterTimer)
      ensures !old(isShieldActive) && old(playerLives) <= 1 ==>
                && IsReset()
                && published == old(published) + [LifeUpdated(old(playerLives) - 1), PlayerDied] + ResetEvents() + [GameOver]
      ensures distanceScore == old(distanceScore) && scoreBoosterMultiplier == old(scoreBoosterMultiplier)
    {
      if isShieldActive {
        return;
      }
      playerLives := playerLives - 1;
      published := published + [LifeUpdated(playerLives)];
      if playerLives <= 0 {
        published := published + [PlayerDied];
        ResetStats();
        published := published + [GameOver];
      }
    }

    /**
     * `OnPowerupPicked`: (re)starts the coroutine of the picked kind, which
     * publishes its duration; a shield is raised at once.
     */
    method UpdatePowerUpStatus(data: PowerUpData)
      requires Valid()
      modifies this
      ensures Valid()
      ensures data.kind == ScoreBooster ==>
                && boosterTimer == Running(data.powerTimer)
                && published == old(published) + [ScoreBoostCollected(data.powerTimer)]
                && shieldTimer == old(shieldTimer) && isShieldActive == old(isShieldActive)
      ensures data.kind == Shield ==>
                && shieldTimer == Running(data.powerTimer) && isShieldActive
                && published == old(published) + [ShieldCollected(data.powerTimer)]
                && boosterTimer == old(boosterTimer)
      ensures coinScore == old(coinScore) && playerLives == old(playerLives)
      ensures distanceScore == old(distanceScore) && scoreBoosterMultiplier == old(scoreBoosterMultiplier)
    {
      match data.kind
      case ScoreBooster =>
        // StopCoroutine of the running booster, then StartCoroutine(RunScoreBooster(data))
        boosterTimer := Running(data.powerTimer);
        published := published + [ScoreBoostCollected(data.powerTimer)];
      case Shield =>
        // StopCoroutine of the running shield, then StartCoroutine(RunShield(data))
        isShieldActive := true;
        shieldTimer := Running(data.powerTimer);
        published := published + [ShieldCollected(data.powerTimer)];
    }

    /**
     * `dt` seconds pass: each waiting coroutine counts down, and one whose
     * wait is over runs to its end (`RunShield` lowers the shield).
     */
    method Tick(dt: real)
      requires Valid() && dt >= 0.0
      modifies this
      ensures Valid()
      ensures shieldTimer == Advance(old(shieldTimer), dt)
      ensures boosterTimer == Advance(old(boosterTimer), dt)
      ensures isShieldActive == shieldTimer.Running?
      ensures coinScore == old(coinScore) && playerLives == old(playerLives) && published == old(published)
      ensures distanceScore == old(distanceScore) && scoreBoosterMultiplier == old(scoreBoosterMultiplier)
    {
      shieldTimer := Advance(shieldTimer, dt);
      if shieldTimer == Stopped {
        isShieldActive := false;
      }
      boosterTimer := Advance(boosterTimer, dt);
    }

    /** `OnPlayerDied` / `OnGameRestart`: back to the starting values, both published, all coroutines stopped. */
    method ResetStats()
      modifies this
      ensures Valid() && IsReset()
      ensures published == old(published) + ResetEvents()
    {
      coinScore, distanceScore, playerLives := 0, 0.0, START_LIVES;
      isShieldActive, scoreBoosterMultiplier := false, 1.0;
      assert IntToString(coinScore) == "0";
      published := published + [CoinScoreChanged(IntToString(coinScore)), DistanceUpdated(distanceScore)];
      shieldTimer, boosterTimer := Stopped, Stopped;  // StopAllCoroutines
    }
  }

  /** Three coins of 1 from the start publish the totals "1", "2", "3". */
  method ThreeCoins() returns (trace: seq<Event>)
    ensures trace == [CoinScoreChanged("1"), CoinScoreChanged("2"), CoinScoreChanged("3")]
  {
    var stats := new PlayerStats();
    stats.AddCoins(1);
    stats.AddCoins(1);
    stats.AddCoins(1);
    assert IntToString(1) == "1" && IntToString(2) == "2" && IntToString(3) == "3";
    trace := stats.published;
  }

  /** Three unshielded hits from the start: two lives lost, then death, the reset and game over. */
  method ThreeHits() returns (trace: seq<Event>, lives: int)
    ensures trace == [LifeUpdated(2), LifeUpdated(1), LifeUpdated(0), PlayerDied,
                      CoinScoreChanged("0"), DistanceUpdated(0.0), GameOver]
    ensures lives == START_LIVES
  {
    var stats := new PlayerStats();
    stats.UpdateLives();
    stats.UpdateLives();
    stats.UpdateLives();
    trace, lives := stats.published, stats.playerLives;
  }

  /** A hit taken while a shield lasts costs nothing; once the shield's time is over, it costs a life. */
  method ShieldedHit(duration: real) returns (before: int, during: int, after: int)
    requires duration > 0.0
    ensures before == START_LIVES && during == START_LIVES && after == START_LIVES - 1
  {
    var stats := new PlayerStats();
    stats.UpdatePowerUpStatus(PowerUpData(duration, Shield));
    before := stats.playerLives;
    stats.Tick(duration / 2.0);
    stats.UpdateLives();
    during := stats.playerLives;
    stats.Tick(duration / 2.0);
    stats.UpdateLives();
    after := stats.playerLives;
  }

  /**
   * A second shield replaces the first rather than stacking: once the
   * second one's shorter duration has passed, the shield is down although
   * the first one's has not.
   */
  method ShieldsDoNotStack(first: real, second: real) returns (up: bool)
    requires 0.0 < second < first
    ensures !up
  {
    var stats := new PlayerStats();
    stats.UpdatePowerUpStatus(PowerUpData(first, Shield));
    stats.UpdatePowerUpStatus(PowerUpData(second, Shield));
    stats.Tick(second);
    up := stats.isShieldActive;
  }
}
