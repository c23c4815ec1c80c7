# Sandstorm Escape: a verified model of the game's state logic

Sandstorm Escape is a Unity endless runner. This project models, in Dafny,
the four components of the game whose state changes step by step and can be
stated without the engine:

- **`ObjectPooler`** (module `Pooling`, `object_pooler.dfy`). Each prefab
  has a FIFO queue of idle objects and a list of active objects. Objects are
  integer ids from a counter that stands in for `Instantiate`. Ghost fields
  record the prefab each object was made from and how many objects each
  prefab has ever had. The model proves conservation, FIFO reuse and that
  every object is in exactly one place.
- **`PlayerStats`** (module `Player`, `player_stats.dfy`). It covers coin
  score, lives, the shield and the two power-up coroutines. Events are
  appended to a trace. The `PlayerDied → ResetStats` subscription runs as a
  synchronous call.
- **`ObjectSpawner`** (module `Spawning`, `object_spawner.dfy`). It has
  three elapsed-time accumulators, the ready list, the
  selection, the reset of only the chosen timer, and the cooldown flag. It
  calls the pool model for each object it spawns. `Random.Range` results are
  inputs, constrained to the ranges Unity returns.
- **`WorldScroller`** (module `Scrolling`, `world_scroller.dfy`). A queue of
  ground segments moves left every frame, and the front segment is rotated
  behind the last one once it has left the screen. The scroll speed ramps
  up to a cap, the distance accumulates, and a score booster doubles the
  multiplier, with the latest booster winning. The queue, as a value, is a
  `Layout`: the segments front first, plus a map from segment to x. Each
  method is proved against functions on `Layout` (`Shift`, `Recycle`,
  `TryRecycle`), and lemmas prove what those functions keep (spacing,
  seams, order, membership).

Shared modules:

- `Events` (`events.dfy`): the event datatype, C#'s unchecked 32-bit `int`
  addition (`Wrap32`), and `int.ToString()`, with its round trip.
- `Coroutines` (`coroutines.dfy`): a coroutine waiting in
  `WaitForSeconds` is a countdown `Timer`, advanced by the frame time.
- `Sequences` (`sequences.dfy`): `NoDup`.

Conventions:

- Floats are modelled as exact reals.
- The frame time, the camera's viewport width and left edge, and random
  draws are parameters.
- A C# exception that ends a handler is modelled as the state it leaves
  behind:
  - An empty prefab array in `SpawnSingle`: nothing is requested, and the
    routine ends with `isSpawning` still set and no cooldown running, so
    the spawner never spawns again.
  - A lone segment in `RecycleSegment`: the segment is dequeued and never
    queued again.

Points of the code's behaviour worth noting:

- The C# `RecycleSegment` places the recycled segment `segmentWidth +
  pivotOffset` right of the last one. `RecycleGap` proves that the ground
  stays seamless exactly when `pivotOffset` is 0.
- In idle mode the C# `Update` still moves the ground, at the base speed,
  but counts no distance.
- The C# `RecycleSegment` throws when only one segment is queued, instead
  of rotating it.
- `EventManager` invokes the subscribed handlers one after another without
  isolating them, so an exception in one skips the rest.

## Model

| member | source | states |
|---|---|---|
| `Events.Wrap32` | Assets/Scripts/Player/PlayerStats.cs:34 | the stored `int` is in the 32-bit range, congruent to the exact sum modulo 2^32, and equal to it when the sum fits |
| `Events.NatToString` | Assets/Scripts/Player/PlayerStats.cs:35 | the text of a natural number is non-empty decimal digits with no leading zero |
| `Events.IntToString` | Assets/Scripts/Player/PlayerStats.cs:35 | `CoinScore.ToString()` is an optional minus sign, present exactly for a negative score, followed by digits with no leading zero |
| `Events.IntToStringRoundTrip` | Assets/Scripts/Player/PlayerStats.cs:35 | the text `CoinScore.ToString()` publishes reads back as the same integer |
| `Events.IntToStringInjective` | Assets/Scripts/Player/PlayerStats.cs:35 | different scores are published as different texts |
| `Coroutines.Advance` | Assets/Scripts/Player/PlayerStats.cs:81 | a wait is still running after `dt` more seconds exactly when it was running with more than `dt` left, and then `dt` less is left |
| `Coroutines.AdvanceTwice` | Assets/Scripts/Level/WorldScroller.cs:100 | two frames advance a wait by the sum of their times |
| `Pooling.IndexOf` | Assets/Scripts/Utilities/ObjectPooler.cs:77 | the index `List.Remove` removes at: an occurrence of the element with none before it |
| `Pooling.RemoveFirst` | Assets/Scripts/Utilities/ObjectPooler.cs:77 | `List.Remove` leaves a list without the element unchanged; otherwise it removes exactly one occurrence, the first, and keeps every other element in its order (one copy fewer in the multiset) |
| `Pooling.RemovedAfterHead` | Assets/Scripts/Utilities/ObjectPooler.cs:77 | when the head is not the element, removing the first occurrence from the tail removes the first occurrence of the whole list |
| `Pooling.Reverse` | Assets/Scripts/Utilities/ObjectPooler.cs:93-98 | the backward walk visits the list from its last element to its first |
| `Pooling.RemoveFirstOfNoDup` | Assets/Scripts/Utilities/ObjectPooler.cs:77 | `List.Remove` on a duplicate-free list removes exactly the given element and keeps the list duplicate-free |
| `Pooling.ReverseFacts` | Assets/Scripts/Utilities/ObjectPooler.cs:93-98 | the backward walk over a list yields the same elements and no duplicates |
| `Pooling.TableUpdate` | Assets/Scripts/Utilities/ObjectPooler.cs:46-101 | rearranging one prefab's objects within its queue and list keeps the every-object-in-one-place invariant |
| `Pooling.TableFresh` | Assets/Scripts/Utilities/ObjectPooler.cs:40-42 | enqueueing a freshly instantiated object keeps the invariant and adds one to its prefab's count |
| `Pooling.TableFreshRun` | Assets/Scripts/Utilities/ObjectPooler.cs:38-43 | enqueueing `n` fresh objects keeps the invariant and adds `n` to the prefab's count |
| `Pooling.TableNewPool` | Assets/Scripts/Utilities/ObjectPooler.cs:32-36 | an empty queue and list for a new prefab keep the invariant |
| `Pooling.Dequeued` | Assets/Scripts/Utilities/ObjectPooler.cs:61-65 | moving the front of a queue to the end of its prefab's active list keeps the invariant |
| `Pooling.Returned` | Assets/Scripts/Utilities/ObjectPooler.cs:75-79 | moving an active object to the tail of its own prefab's queue keeps the invariant; no other list holds the object |
| `Pooling.Cleared` | Assets/Scripts/Utilities/ObjectPooler.cs:88-101 | appending a list, reversed, to its own queue and clearing it keeps the invariant |
| `Pooling.PoolState.Supply` | Assets/Scripts/Utilities/ObjectPooler.cs:54-59 | the queue `Dequeue` takes from is never empty: a fresh object is instantiated when the idle queue is |
| `Pooling.RowAt` | Assets/Scripts/Level/ObjectSpawner.cs:98 | the x of the k-th object of a row, `x + k·step` (a definition; its meaning is carried by `CoinRow`, `GetRowDraws` and `RowPositions`) |
| `Pooling.Drawn` | Assets/Scripts/Utilities/ObjectPooler.cs:54-61 | successive `GetFromPool` calls hand out the idle objects front first, then one fresh id per call |
| `Pooling.Left` | Assets/Scripts/Utilities/ObjectPooler.cs:54-61 | what those calls leave in the idle queue (a definition; its meaning is stated by `LeftDrawn` and `GetRowDraws`) |
| `Pooling.LeftDrawn` | Assets/Scripts/Utilities/ObjectPooler.cs:54-61 | the idle objects handed out, followed by those left, are the old queue in order; once the queue is used up nothing is left |
| `Pooling.Made` | Assets/Scripts/Utilities/ObjectPooler.cs:54-61 | those calls instantiate exactly the objects the queue was short of, so idle plus handed out is conserved |
| `Pooling.DrawnStep` | Assets/Scripts/Utilities/ObjectPooler.cs:54-61 | one more call hands out the front of what is left, or a fresh object when nothing is |
| `Pooling.DrawnNoDup` | Assets/Scripts/Utilities/ObjectPooler.cs:54-61 | a row of calls never hands out the same object twice |
| `Pooling.GetRowDraws` | Assets/Scripts/Utilities/ObjectPooler.cs:46-67 | `n` calls on one prefab leave its queue without the handed-out objects, append them in order to its active list, place the k-th at the row's k-th position, and change no other prefab and no other object's position |
| `Pooling.DrewRowFirst` | Assets/Scripts/Utilities/ObjectPooler.cs:46-67 | the closed form for a row of one call |
| `Pooling.DrewRowNext` | Assets/Scripts/Utilities/ObjectPooler.cs:46-67 | one more call extends the closed form by one object |
| `Pooling.RowTakenNext` | Assets/Scripts/Utilities/ObjectPooler.cs:61-65 | one more call extends the queues, lists and id counter of the closed form |
| `Pooling.FrontIsNew` | Assets/Scripts/Utilities/ObjectPooler.cs:61-65 | after a row of calls the next object handed out is the row's next one and not already in the row |
| `Pooling.RowPositions` | Assets/Scripts/Utilities/ObjectPooler.cs:63 | placing a new object one step further keeps every other object's position |
| `Pooling.ConfiguredIsNamed` | Assets/Scripts/Utilities/ObjectPooler.cs:22-25 | the prefabs that get a pool are exactly those named in the configuration |
| `Pooling.ConfiguredSizeStep` | Assets/Scripts/Utilities/ObjectPooler.cs:22-25 | one more configuration entry adds its size to its prefab's idle count only |
| `Pooling.EnqueueBackward` | Assets/Scripts/Utilities/ObjectPooler.cs:93-98 | the `for` loop from the last index down appends the list to the queue in reverse order |
| `Pooling.ObjectPooler.constructor` | Assets/Scripts/Utilities/ObjectPooler.cs:18-28 | after `Awake` exactly the configured prefabs have pools, each with no active object and as many idle objects as the configuration asks for in total |
| `Pooling.ObjectPooler.InitializePool` | Assets/Scripts/Utilities/ObjectPooler.cs:30-44 | `size` fresh ids are appended to the prefab's queue (a new pool if needed); the queue is not cleared and the active list is untouched |
| `Pooling.ObjectPooler.EnsurePool` | Assets/Scripts/Utilities/ObjectPooler.cs:32-36 | a missing prefab gets an empty queue and list; an existing one keeps its own |
| `Pooling.ObjectPooler.AddIdle` | Assets/Scripts/Utilities/ObjectPooler.cs:38-43 | the loop appends the ids `nextId … nextId + size - 1` to the queue, nothing else changes |
| `Pooling.ObjectPooler.AddFreshIdle` | Assets/Scripts/Utilities/ObjectPooler.cs:40-42 | one fresh id at the queue's tail |
| `Pooling.ObjectPooler.GetFromPool` | Assets/Scripts/Utilities/ObjectPooler.cs:46-67 | never fails; returns the queue's front when there is one (FIFO), otherwise one fresh object; the new state is `Get`: that object leaves the queue, joins the end of the active list and gets the position, every other prefab and position is unchanged, and at most one object is created |
| `Pooling.ObjectPooler.Replenish` | Assets/Scripts/Utilities/ObjectPooler.cs:48-59 | an unknown prefab gets a pool, an empty queue one fresh object, and nothing else changes |
| `Pooling.ObjectPooler.Take` | Assets/Scripts/Utilities/ObjectPooler.cs:61-66 | `Dequeue`, then `Add` to the same prefab's active list and set the position |
| `Pooling.ObjectPooler.ReturnToPool` | Assets/Scripts/Utilities/ObjectPooler.cs:69-84 | a tracked object leaves the one list holding it and joins the tail of the same prefab's queue; an untracked one changes nothing and is exactly the warned case |
| `Pooling.ObjectPooler.MoveToQueue` | Assets/Scripts/Utilities/ObjectPooler.cs:75-79 | `Remove` from the list and `Enqueue` on that prefab's queue; no other list holds the object |
| `Pooling.ObjectPooler.ResetAll` | Assets/Scripts/Utilities/ObjectPooler.cs:86-102 | every active list ends empty and each prefab's queue gains its old list in reverse order; totals and keys are unchanged |
| `Pooling.ObjectPooler.ResetOne` | Assets/Scripts/Utilities/ObjectPooler.cs:88-101 | one iteration of the outer loop: this prefab's list reversed onto its queue, then cleared |
| `Pooling.ObjectPooler.AtMostOnePlace` | Assets/Scripts/Utilities/ObjectPooler.cs:46-101 | an object is in at most one prefab's pool, and never both idle and active |
| `Pooling.ObjectPooler.ExactlyOnePlace` | Assets/Scripts/Utilities/ObjectPooler.cs:38-101 | the objects in the pools are exactly those instantiated so far, and each lies in exactly one place: its own prefab's queue or its own prefab's active list |
| `Pooling.ObjectPooler.QueueFacts` | Assets/Scripts/Utilities/ObjectPooler.cs:54-65 | every idle queue holds distinct instantiated objects, and the object `GetFromPool` hands out is not already active |
| `Pooling.ObjectPooler.RowDraws` | Assets/Scripts/Utilities/ObjectPooler.cs:46-67 | from any reachable pooler, a row of `GetFromPool` calls on one prefab hands out the idle objects front first and then fresh ones, appends them in order to its active list at the row's positions, and changes no other prefab and no other object's position |
| `Pooling.ObjectPooler.Conservation` | Assets/Scripts/Utilities/ObjectPooler.cs:38-65 | a prefab's idle plus active objects are all the objects ever created for it |
| `Player.PlayerStats.constructor` | Assets/Scripts/Player/PlayerStats.cs:18-22 | coin score 0, distance 0, three lives, no shield, no coroutine, empty trace |
| `Player.PlayerStats.AddCoins` | Assets/Scripts/Player/PlayerStats.cs:32-36 | the score grows by the amount (with `int` wrap-around) and its text is published; nothing else changes |
| `Player.PlayerStats.UpdateLives` | Assets/Scripts/Player/PlayerStats.cs:43-56 | shielded, nothing changes; otherwise one life less and `LifeUpdated`; at zero lives `PlayerDied`, the reset's events, then `GameOver`, and lives stay within 1..3 |
| `Player.PlayerStats.UpdatePowerUpStatus` | Assets/Scripts/Player/PlayerStats.cs:58-92 | the picked kind's timer restarts with the new duration (latest wins) and its event is published; a shield is raised at once |
| `Player.PlayerStats.Tick` | Assets/Scripts/Player/PlayerStats.cs:81-91 | both waits advance by `dt`; the shield is up exactly while its wait lasts |
| `Player.PlayerStats.ResetStats` | Assets/Scripts/Player/PlayerStats.cs:94-104 | starting values, all coroutines stopped, then `CoinScoreChanged("0")` and `DistanceUpdated(0)` |
| `Player.ThreeCoins` | Assets/Scripts/Player/PlayerStats.cs:32-36 | three coins of 1 publish "1", "2", "3" |
| `Player.ThreeHits` | Assets/Scripts/Player/PlayerStats.cs:43-56 | three hits publish lives 2, 1, 0, `PlayerDied`, the reset's events and `GameOver`, and end with three lives |
| `Player.ShieldedHit` | Assets/Scripts/Player/PlayerStats.cs:45-46 | a hit during a shield costs no life; after its duration one does |
| `Player.ShieldsDoNotStack` | Assets/Scripts/Player/PlayerStats.cs:69-73 | a second shield's shorter duration ends the shield although the first one's has not passed |
| `Spawning.AnyDue` | Assets/Scripts/Level/ObjectSpawner.cs:39-41 | the routine's start condition: some accumulator reached its threshold (its meaning is stated by `Ready`) |
| `Spawning.Ready` | Assets/Scripts/Level/ObjectSpawner.cs:61-65 | the ready list holds exactly the kinds whose timer reached its threshold, in the order Coin, PowerUp, Obstacle, and is non-empty exactly when `Update` starts the routine |
| `Spawning.CoinRow` | Assets/Scripts/Level/ObjectSpawner.cs:96-99 | the i-th coin is requested 1.5·i right of the spawn point |
| `Spawning.ObjectSpawner.constructor` | Assets/Scripts/Level/ObjectSpawner.cs:15-20 | timers at 0, not spawning, not running |
| `Spawning.ObjectSpawner.SetGameStatusOn` | Assets/Scripts/Level/ObjectSpawner.cs:47-50 | running; the timers and the routine are untouched |
| `Spawning.ObjectSpawner.SetGameStatusOff` | Assets/Scripts/Level/ObjectSpawner.cs:52-55 | stopped; the accumulated timers are kept, not reset |
| `Spawning.ObjectSpawner.Update` | Assets/Scripts/Level/ObjectSpawner.cs:30-45 | nothing changes unless running and not spawning; then all three timers advance by the same `dt`, and the routine runs exactly when one reaches its threshold |
| `Spawning.ObjectSpawner.SpawnRoutine` | Assets/Scripts/Level/ObjectSpawner.cs:57-91 | the flag goes up, the chosen kind is spawned (requests and pool state as in `SpawnSelected`) and only its timer is reset, and a 2-second cooldown starts unless the prefab array was empty |
| `Spawning.ObjectSpawner.SpawnSelected` | Assets/Scripts/Level/ObjectSpawner.cs:69-85 | the `switch`: coins take a row of `count` objects from the coin pool (`GetRow`), a power-up or obstacle one object of the drawn prefab (`Get`), and only that kind's timer is reset; an empty prefab array requests nothing, takes nothing, resets nothing and reports failure |
| `Spawning.ObjectSpawner.TickRoutine` | Assets/Scripts/Level/ObjectSpawner.cs:88-90 | the flag stays up until the cooldown has fully passed |
| `Spawning.ObjectSpawner.SpawnCoins` | Assets/Scripts/Level/ObjectSpawner.cs:93-101 | `count` (3 to 5) coin requests 1.5 apart; the pool's new state is that of `count` successive `GetFromPool` calls at the row's positions (`GetRow`, whose contents `ObjectPooler.RowDraws` gives) |
| `Spawning.ObjectSpawner.SpawnCoinAt` | Assets/Scripts/Level/ObjectSpawner.cs:95-100 | one loop iteration: the row and the pool's state grow by one coin |
| `Spawning.ObjectSpawner.SpawnSingle` | Assets/Scripts/Level/ObjectSpawner.cs:103-107 | one request for the drawn prefab at the spawn point, and the pool's new state is one `GetFromPool` of that prefab; an empty array requests nothing and leaves the pool unchanged |
| `Scrolling.Ceil` | Assets/Scripts/Level/WorldScroller.cs:42 | `CeilToInt` returns the least integer not below its argument |
| `Scrolling.SegmentCount` | Assets/Scripts/Level/WorldScroller.cs:41-42 | at least the configured count, and enough segments to cover the viewport with one segment to spare; when it exceeds the configured count it is the least such count |
| `Scrolling.CeilCovers` | Assets/Scripts/Level/WorldScroller.cs:42 | any count above `CeilToInt(viewportWidth / segmentWidth)` covers the viewport with one segment to spare |
| `Scrolling.CeilCoversLeast` | Assets/Scripts/Level/WorldScroller.cs:42 | one segment fewer than `CeilToInt(viewportWidth / segmentWidth) + 1` does not cover the viewport with one to spare |
| `Scrolling.Ramp` | Assets/Scripts/Level/WorldScroller.cs:54 | the new speed never exceeds the cap, never falls when the rate is non-negative, and is the raised speed whenever that is below the cap and the cap otherwise |
| `Scrolling.Travel` | Assets/Scripts/Level/WorldScroller.cs:55 | a non-negative speed over a non-negative time covers a non-negative distance |
| `Scrolling.FrameMove` | Assets/Scripts/Level/WorldScroller.cs:50-64 | idle, the ground moves at the base speed whatever the ramped speed and multiplier; in a game at multiplier 1 it moves at the ramped speed; with non-negative inputs it never moves right |
| `Scrolling.Slot` | Assets/Scripts/Level/WorldScroller.cs:124-131 | with a non-negative width no spawn point is left of the first, and with a positive one every later point is strictly right of it |
| `Scrolling.SlotIsMultiple` | Assets/Scripts/Level/WorldScroller.cs:124-131 | the k-th spawn point is k widths right of the first |
| `Scrolling.FirstInactive` | Assets/Scripts/Level/WorldScroller.cs:160-166 | the search stops at the first inactive segment, all before it are active, and it reaches the end only when all are |
| `Scrolling.Shift` | Assets/Scripts/Level/WorldScroller.cs:66-67 | the translation keeps the queue and the set of placed segments |
| `Scrolling.ShiftKeepsGaps` | Assets/Scripts/Level/WorldScroller.cs:66-67 | every queued segment moves by the same amount, so no gap between neighbours changes |
| `Scrolling.ShiftKeepsShape` | Assets/Scripts/Level/WorldScroller.cs:66-67 | the ground is spaced, seamless and ordered after the translation exactly when it was before |
| `Scrolling.ShiftKeepsOrder` | Assets/Scripts/Level/WorldScroller.cs:66-67 | the translation keeps the left-to-right order, in both directions |
| `Scrolling.ShiftTwice` | Assets/Scripts/Level/WorldScroller.cs:66-67 | two translations are one by the sum of their distances |
| `Scrolling.Due` | Assets/Scripts/Level/WorldScroller.cs:77-80 | the recycle test: the front segment's right edge, `pivotOffset` aside, is left of the viewport's left edge (its effect is stated by `TryRecycle`) |
| `Scrolling.Recycle` | Assets/Scripts/Level/WorldScroller.cs:138-155 | every segment keeps a position; a lone segment is dropped from the queue and nothing moves |
| `Scrolling.TryRecycle` | Assets/Scripts/Level/WorldScroller.cs:72-82 | the check keeps every queued segment placed, changes nothing unless `Due` holds, and otherwise rotates a queue of two or more |
| `Scrolling.TryRecycleKeeps` | Assets/Scripts/Level/WorldScroller.cs:69-82 | a frame's recycle keeps the spacing, distinctness and the set of placed segments, and keeps the queue's length and members unless the queue held one segment |
| `Scrolling.RecycleRotates` | Assets/Scripts/Level/WorldScroller.cs:138-155 | with two or more segments the queue is rotated: same distinct segments, the old front last at the old tail's x plus width plus offset, every other segment where it was |
| `Scrolling.RecycleKeepsSpacing` | Assets/Scripts/Level/WorldScroller.cs:138-155 | a spaced queue stays spaced after a recycle |
| `Scrolling.RecycleGap` | Assets/Scripts/Level/WorldScroller.cs:138-155 | the new gap is width plus offset, so a seamless ground stays seamless exactly when `pivotOffset` is 0 |
| `Scrolling.RecycleKeepsOrder` | Assets/Scripts/Level/WorldScroller.cs:138-155 | with a positive width plus offset the queue stays ordered left to right |
| `Scrolling.SpacedIsOrdered` | Assets/Scripts/Level/WorldScroller.cs:121-155 | a spaced ground with positive gaps runs from left to right |
| `Scrolling.SpawnTiles` | Assets/Scripts/Level/WorldScroller.cs:121-135 | segments placed one width apart from the spawn point are seamless |
| `Scrolling.FirstFree` | Assets/Scripts/Level/WorldScroller.cs:125-127 | when exactly the pool's first segments are active, the search returns the next one |
| `Scrolling.WorldScroller.constructor` | Assets/Scripts/Level/WorldScroller.cs:32-46 | speed at its base, the count raised to cover the viewport, a pool of count + 1, its first segments queued one width apart and seamless |
| `Scrolling.WorldScroller.InitializeSegmentPool` | Assets/Scripts/Level/WorldScroller.cs:110-118 | `initialSegmentCount + 1` new inactive segments at the spawn point, appended to the pool |
| `Scrolling.WorldScroller.GetPooledSegment` | Assets/Scripts/Level/WorldScroller.cs:158-171 | the first inactive pool segment, otherwise a new active one at x = 0 appended to the pool |
| `Scrolling.WorldScroller.SpawnNext` | Assets/Scripts/Level/WorldScroller.cs:125-132 | the found segment is placed, activated and queued; the pool grows only when all were active |
| `Scrolling.WorldScroller.SpawnInitialSegments` | Assets/Scripts/Level/WorldScroller.cs:121-135 | `initialSegmentCount` distinct segments queued at the successive spawn points; other segments keep their positions; from an all-inactive pool they are the pool's first ones and the pool does not grow |
| `Scrolling.WorldScroller.Translate` | Assets/Scripts/Level/WorldScroller.cs:66-67 | the `foreach` moves every queued segment by the same distance |
| `Scrolling.WorldScroller.RecycleSegment` | Assets/Scripts/Level/WorldScroller.cs:138-155 | dequeue, then place behind the last segment and enqueue (`Recycle`) |
| `Scrolling.WorldScroller.TryRecycleSegment` | Assets/Scripts/Level/WorldScroller.cs:72-82 | recycles the front segment only, and only when its right edge is left of the viewport's left edge; an empty queue is a no-op |
| `Scrolling.WorldScroller.Update` | Assets/Scripts/Level/WorldScroller.cs:48-70 | in a game the speed ramps, the distance grows by speed·dt·multiplier and both are published; idle, nothing is counted or published and the ground moves at base speed; every segment moves alike and at most the front one is recycled; the invariant is kept |
| `Scrolling.WorldScroller.Scroll` | Assets/Scripts/Level/WorldScroller.cs:66-69 | the translation and the recycle keep the queue's invariant |
| `Scrolling.WorldScroller.SetGameStatusOn` | Assets/Scripts/Level/WorldScroller.cs:106 | game mode |
| `Scrolling.WorldScroller.SetGameStatusOff` | Assets/Scripts/Level/WorldScroller.cs:107 | idle mode |
| `Scrolling.WorldScroller.UpdateScoreBooster` | Assets/Scripts/Level/WorldScroller.cs:84-99 | any running booster is replaced by one of the new duration, and the multiplier is 2 |
| `Scrolling.WorldScroller.TickBooster` | Assets/Scripts/Level/WorldScroller.cs:100-103 | the wait advances by `dt`; the multiplier is 2 exactly while it lasts and 1 after |
| `Scrolling.WorldScroller.DeactivateQueue` | Assets/Scripts/Level/WorldScroller.cs:218-221 | exactly the queued segments are deactivated |
| `Scrolling.WorldScroller.ResetScroller` | Assets/Scripts/Level/WorldScroller.cs:212-226 | speed at base, distance 0, the old queue deactivated and the initial segments respawned one width apart and seamless; normally they are the pool's first ones and the pool does not grow |
| `Scrolling.IdleFrameRecycles` | Assets/Scripts/Level/WorldScroller.cs:48-70 | with the default settings, one idle frame moves the ground a width and rotates the front segment to the back, leaving the same layout |
| `Scrolling.BoostedGameFrame` | Assets/Scripts/Level/WorldScroller.cs:54-57 | one boosted game second ramps the speed to 5.1 and covers 10.2 |
| `Scrolling.BoostsDoNotStack` | Assets/Scripts/Level/WorldScroller.cs:84-103 | a second booster's shorter duration ends the boost although the first one's has not passed |

## Left out

- `EventManager`: the multicast dispatch and the subscriptions in each
  `Start`. Events are recorded on a trace, and subscribed handlers are
  called directly.
- UI, audio, the player's locomotion, the parallax scroller, the game
  manager and the interactables. They are engine glue or presentation.
- `PlayerStats.UpdateDistanceScore`: its accumulator is never read and its
  multiplier is never changed.
- Camera arithmetic: the viewport width and the left edge are parameters.
- y and z: the core only sets them, from the spawn points or from the previous segment. The model tracks x only.
- Float rounding: reals are exact.
- `WaitForSeconds`: it resumes on the first frame at or after the duration.
  The model resumes when the remaining time is used up within a tick.
- `WorldScroller.ValidateSegmentWidth`, `OnDrawGizmos`, `GetScrollSpeed`
  and `GetTotalDistance`: diagnostics and getters.
- The unused `isGameRunning` field of `WorldScroller`.
- Scrolling.WorldScroller.constructor: assumes `segmentWidth > 0`. The model
  does not cover the division by zero a zero width would cause.
- Scrolling.WorldScroller.GetPooledSegment: assumes the segment prefab is
  active, so a fresh segment counts as active. Only `SetActive` flags are
  modelled, not parents in the hierarchy.
- Scrolling.WorldScroller.SpawnInitialSegments: requires an empty queue.
  Both callers, `Start` and `ResetScroller`, call it with one.
- Scrolling.Recycle: with a single segment left, the C# `RecycleSegment`
  throws. The model states that effect: the segment leaves the queue and
  stays active. It does not require two segments.
- `ObjectPooler.ResetAll` has no caller in the repository. It is modelled
  all the same.
- The spawner's serialized spawn times are fixed at their initialisers.
  Inspector overrides are not modelled.
- Pooling.ObjectPooler.GetFromPool, ReturnToPool, InitializePool and
  ResetAll: the pooled objects' `SetActive` flags (ObjectPooler.cs lines 41,
  57, 62, 71 and 96) are not modelled; the state is the queues, the active
  lists and the positions. In particular the C# `ReturnToPool` deactivates
  even an object it does not track (line 71), which the model does not show.
- The `Debug.LogWarning` calls in `GetFromPool` and `ReturnToPool` are
  dropped; only the state changes around them are modelled.
- Events.IntToString: writes `-` for a negative value. The C# `ToString()`
  uses the current culture's `NegativeSign`, which the model does not cover.
