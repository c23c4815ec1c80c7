/**
 * The scrolling ground: a queue of segments translated left every frame,
 * whose front segment moves behind the last one once it has left the
 * screen; a scroll speed that ramps up to a maximum while the game runs;
 * the distance travelled; and a multiplier that a score booster doubles
 * for a while.
 *
 * Segments are integer ids numbered in the order `Instantiate` creates
 * them; only their x coordinate is modelled. The camera's viewport width
 * and left edge are inputs. Published events are appended to `published`.
 */
module Scrolling {
  import opened Events
  import opened Coroutines
  import opened Sequences

  type Segment = nat

  datatype ScrollMode = Idle | Game

  /** The component's serialized settings. */
  datatype Settings = Settings(
    baseScrollSpeed: real,
    speedIncreaseRate: real,
    maxScrollSpeed: real,
    segmentWidth: real,
    initialSegmentCount: int,
    pivotOffset: real,
    /** `segmentPos.position.x` */
    segmentPosX: real)

  /** The settings' initialisers, with the spawn point's x. */
  function Defaults(segmentPosX: real): Settings
  {
    Settings(5.0, 0.1, 15.0, 10.0, 3, 0.0, segmentPosX)
  }

  /** The multiplier while a score booster lasts. */
  const BOOSTED: real := 2.0

  /** `Mathf.Min` */
  function Min(a: real, b: real): real
  {
    if a <= b then a else b
  }

  /** `Mathf.Max` on integers. */
  function MaxInt(a: int, b: int): int
  {
    if a >= b then a else b
  }

  /** `Mathf.CeilToInt`: the least integer not below `x`. */
  function Ceil(x: real): (r: int)
    ensures r as real - 1.0 < x <= r as real
  {
    -((-x).Floor)
  }

  /** The speed after a game frame of `dt` seconds: raised by `rate * dt`, capped at `max`. */
  function Ramp(speed: real, rate: real, dt: real, max: real): (r: real)
    ensures r <= max
    ensures rate * dt >= 0.0 && speed <= max ==> speed <= r
    ensures speed + rate * dt <= max ==> r == speed + rate * dt
    ensures speed + rate * dt > max ==> r == max
  {
    Min(speed + rate * dt, max)
  }

  /**
   * How many segments `Start` spawns: as configured, but enough to cover the
   * viewport with one to spare, and when the configured count is raised, no
   * more than that.
   */
  function SegmentCount(configured: int, viewportWidth: real, segmentWidth: real): (n: int)
    requires segmentWidth > 0.0
    ensures n >= configured
    ensures (n as real) * segmentWidth >= viewportWidth + segmentWidth
    ensures n == configured || ((n - 1) as real) * segmentWidth < viewportWidth + segmentWidth
  {
    var n := MaxInt(configured, Ceil(viewportWidth / segmentWidth) + 1);
    CeilCovers(viewportWidth, segmentWidth, n);
    if n == configured then n else CeilCoversLeast(viewportWidth, segmentWidth, n); n
  }

  /** `n` segments with `n > CeilToInt(viewportWidth / segmentWidth)` cover the viewport with one to spare. */
  lemma CeilCovers(viewportWidth: real, segmentWidth: real, n: int)
    requires segmentWidth > 0.0 && n >= Ceil(viewportWidth / segmentWidth) + 1
    ensures (n as real) * segmentWidth >= viewportWidth + segmentWidth
  {
    var c := Ceil(viewportWidth / segmentWidth);
    assert (viewportWidth / segmentWidth) * segmentWidth == viewportWidth;
    assert ((n - 1) as real) * segmentWidth >= (c as real) * segmentWidth >= viewportWidth;
    assert (n as real) * segmentWidth == ((n - 1) as real) * segmentWidth + segmentWidth;
  }

  /** One segment fewer than `n = CeilToInt(viewportWidth / segmentWidth) + 1` no longer covers the viewport with one to spare. */
  lemma CeilCoversLeast(viewportWidth: real, segmentWidth: real, n: int)
    requires segmentWidth > 0.0 && n == Ceil(viewportWidth / segmentWidth) + 1
    ensures ((n - 1) as real) * segmentWidth < viewportWidth + segmentWidth
  {
    var c := n - 1;
    ScaleBelow(c as real - 1.0, viewportWidth / segmentWidth, segmentWidth);
    assert (viewportWidth / segmentWidth) * segmentWidth == viewportWidth;
    assert (c as real) * segmentWidth == (c as real - 1.0) * segmentWidth + segmentWidth;
  }

  /** Scaling by a positive width keeps a strict order. */
  lemma ScaleBelow(a: real, b: real, w: real)
    requires a < b && w > 0.0
    ensures a * w < b * w
  {
  }

  /** How far the ground travels at `speed` in `dt` seconds. */
  function Travel(speed: real, dt: real): (d: real)
    ensures speed >= 0.0 && dt >= 0.0 ==> d >= 0.0
  {
    speed * dt
  }

  /** The distance the ground moves in a frame: the ramped speed times the multiplier in a game, the base speed when idle. */
  function FrameMove(mode: ScrollMode, speed: real, baseSpeed: real, multiplier: real, dt: real): (d: real)
    ensures mode == Idle ==> d == Travel(baseSpeed, dt)
    ensures mode == Game && multiplier == 1.0 ==> d == Travel(speed, dt)
    ensures dt >= 0.0 && multiplier >= 0.0 && (if mode == Game then speed else baseSpeed) >= 0.0 ==> d >= 0.0
  {
    match mode
    case Game => var t := Travel(speed, dt); assert t >= 0.0 && multiplier >= 0.0 ==> t * multiplier >= 0.0; t * multiplier
    case Idle => Travel(baseSpeed, dt)
  }

  /** The x of the `k`th spawn point of `SpawnInitialSegments`: `k` widths right of `x0`. */
  function Slot(x0: real, k: nat, width: real): (r: real)
    ensures width >= 0.0 ==> x0 <= r
    ensures width > 0.0 && k > 0 ==> x0 < r
  {
    if k == 0 then x0 else Slot(x0, k - 1, width) + width
  }

  /** The spawn points are the multiples of the width from `x0`. */
  lemma {:induction false} SlotIsMultiple(x0: real, k: nat, width: real)
    ensures Slot(x0, k, width) == x0 + (k as real) * width
  {
    if k > 0 {
      SlotIsMultiple(x0, k - 1, width);
      assert (k as real) * width == ((k - 1) as real) * width + width;
    }
  }

  /**
   * Where `GetPooledSegment`'s search stops: the index of the first
   * segment of `pool` that is not active, or `|pool|` when all are.
   */
  function FirstInactive(pool: seq<Segment>, active: set<Segment>): (k: nat)
    ensures k <= |pool|
    ensures forall j :: 0 <= j < k ==> pool[j] in active
    ensures k < |pool| ==> pool[k] !in active
  {
    if pool == [] || pool[0] !in active then 0 else 1 + FirstInactive(pool[1..], active)
  }

  // ---------------------------------------------------------------------
  // The queue of visible segments and their positions, as values

  /** The visible segments, front first, and every segment's x. */
  datatype Layout = Layout(queue: seq<Segment>, x: map<Segment, real>)

  /** Every queued segment has a position. */
  predicate Placed(l: Layout)
  {
    forall s :: s in l.queue ==> s in l.x
  }

  /** How far the queued segment after the `i`th one is right of it. */
  function Gap(l: Layout, i: nat): real
    requires Placed(l) && i + 1 < |l.queue|
  {
    l.x[l.queue[i + 1]] - l.x[l.queue[i]]
  }

  /** Consecutive queued segments are `width` apart, or `width + offset` behind a recycled one. */
  predicate Spaced(l: Layout, width: real, offset: real)
  {
    Placed(l) && forall i: nat :: i + 1 < |l.queue| ==> Gap(l, i) == width || Gap(l, i) == width + offset
  }

  /** Consecutive queued segments are exactly `width` apart: the ground has no gap and no overlap. */
  predicate Tiled(l: Layout, width: real)
  {
    Placed(l) && forall i: nat :: i + 1 < |l.queue| ==> Gap(l, i) == width
  }

  /** The queue runs from left to right. */
  predicate Ordered(l: Layout)
  {
    Placed(l) && forall i, j :: 0 <= i < j < |l.queue| ==> l.x[l.queue[i]] < l.x[l.queue[j]]
  }

  /** `Update`'s translation: every queued segment moves `d` to the left, every other one stays. */
  function Shift(l: Layout, d: real): (r: Layout)
    ensures r.queue == l.queue && r.x.Keys == l.x.Keys
  {
    Layout(l.queue, map s | s in l.x :: if s in l.queue then l.x[s] - d else l.x[s])
  }

  /** `TryRecycleSegment`'s test: the front segment's right edge is left of the viewport's left edge. */
  predicate Due(l: Layout, width: real, offset: real, leftEdge: real)
  {
    |l.queue| > 0 && l.queue[0] in l.x && l.x[l.queue[0]] + width / 2.0 - offset < leftEdge
  }

  /**
   * `RecycleSegment`: the front segment is placed one width plus the
   * offset right of the last one and queued behind it. With no other
   * segment to follow, the C# `RecycleSegment` fails on an empty array
   * after the dequeue, so the front segment is dropped where it is.
   */
  function Recycle(l: Layout, width: real, offset: real): (r: Layout)
    requires Placed(l) && l.queue != []
    ensures Placed(r) && r.x.Keys == l.x.Keys
    ensures |l.queue| == 1 ==> r.queue == [] && r.x == l.x
  {
    var q := l.queue;
    if |q| == 1 then Layout([], l.x)
    else Layout(q[1..] + [q[0]], l.x[q[0] := l.x[q[|q| - 1]] + width + offset])
  }

  /** `TryRecycleSegment` on values. */
  function TryRecycle(l: Layout, width: real, offset: real, leftEdge: real): (r: Layout)
    requires Placed(l)
    ensures Placed(r)
    ensures !Due(l, width, offset, leftEdge) ==> r == l
    ensures Due(l, width, offset, leftEdge) && |l.queue| >= 2 ==> r.queue == l.queue[1..] + [l.queue[0]]
  {
    if Due(l, width, offset, leftEdge) then Recycle(l, width, offset) else l
  }

  /**
   * A frame's recycle keeps a spaced queue of distinct segments spaced and
   * distinct, moves no segment off the map, and keeps the queue's length
   * and members, except that a lone due segment is dropped.
   */
  lemma TryRecycleKeeps(l: Layout, width: real, offset: real, leftEdge: real)
    requires Placed(l) && NoDup(l.queue) && Spaced(l, width, offset)
    ensures var r := TryRecycle(l, width, offset, leftEdge);
      && Spaced(r, width, offset) && NoDup(r.queue) && r.x.Keys == l.x.Keys
      && (forall s :: s in r.queue ==> s in l.queue)
      && (|l.queue| != 1 ==> |r.queue| == |l.queue| && forall s :: s in l.queue ==> s in r.queue)
      && (|l.queue| == 1 ==> r == l || r.queue == [])
  {
    if Due(l, width, offset, leftEdge) {
      RecycleKeepsSpacing(l, width, offset);
      if |l.queue| >= 2 {
        RecycleRotates(l, width, offset);
      }
    }
  }

  /** Moving the ground moves every queued segment by the same amount, so no gap between them changes. */
  lemma ShiftKeepsGaps(l: Layout, d: real)
    requires Placed(l)
    ensures Placed(Shift(l, d))
    ensures forall i: nat :: i + 1 < |l.queue| ==> Gap(Shift(l, d), i) == Gap(l, i)
  {
    var r := Shift(l, d);
    forall i: nat | i + 1 < |l.queue|
      ensures Gap(r, i) == Gap(l, i)
    {
      assert r.x[l.queue[i]] == l.x[l.queue[i]] - d;
      assert r.x[l.queue[i + 1]] == l.x[l.queue[i + 1]] - d;
    }
  }

  /** Moving the ground keeps its spacing, its seams and its order, and so does moving it back. */
  lemma ShiftKeepsShape(l: Layout, d: real, width: real, offset: real)
    ensures Spaced(Shift(l, d), width, offset) <==> Spaced(l, width, offset)
    ensures Tiled(Shift(l, d), width) <==> Tiled(l, width)
    ensures Ordered(Shift(l, d)) <==> Ordered(l)
  {
    var r := Shift(l, d);
    assert Placed(r) <==> Placed(l);
    if Placed(l) {
      ShiftKeepsGaps(l, d);
    }
    ShiftKeepsOrder(l, d);
  }

  lemma ShiftKeepsOrder(l: Layout, d: real)
    ensures Ordered(Shift(l, d)) <==> Ordered(l)
  {
    var r := Shift(l, d);
    assert Placed(r) <==> Placed(l);
    if Placed(l) {
      forall i, j | 0 <= i < j < |l.queue|
        ensures r.x[r.queue[i]] - r.x[r.queue[j]] == l.x[l.queue[i]] - l.x[l.queue[j]]
      {
      }
    }
  }

  /** Moving by `a` and then by `b` is moving by `a + b`: how the frame time is split does not matter. */
  lemma ShiftTwice(l: Layout, a: real, b: real)
    ensures Shift(Shift(l, a), b) == Shift(l, a + b)
  {
    var two, one := Shift(Shift(l, a), b), Shift(l, a + b);
    forall s | s in l.x
      ensures two.x[s] == one.x[s]
    {
    }
    assert two.x == one.x;
  }

  /** A recycle that does not fail rotates the queue: the same distinct segments, the old front now last. */
  lemma RecycleRotates(l: Layout, width: real, offset: real)
    requires Placed(l) && NoDup(l.queue) && |l.queue| >= 2
    ensures var r := Recycle(l, width, offset);
      && |r.queue| == |l.queue| && NoDup(r.queue)
      && multiset(r.queue) == multiset(l.queue)
      && (forall s :: s in r.queue <==> s in l.queue)
      && r.queue[|r.queue| - 1] == l.queue[0]
      && r.x[l.queue[0]] == l.x[l.queue[|l.queue| - 1]] + width + offset
      && (forall s :: s in l.x && s != l.queue[0] ==> r.x[s] == l.x[s])
  {
    var q := l.queue;
    var r := Recycle(l, width, offset);
    assert q == [q[0]] + q[1..];
    assert multiset(r.queue) == multiset(q[1..]) + multiset{q[0]};
    assert forall s :: s in r.queue <==> s in multiset(r.queue);
  }

  /** Recycling keeps the spacing: the only new gap, behind the old last segment, is `width + offset`. */
  lemma RecycleKeepsSpacing(l: Layout, width: real, offset: real)
    requires Placed(l) && NoDup(l.queue) && l.queue != [] && Spaced(l, width, offset)
    ensures Spaced(Recycle(l, width, offset), width, offset)
  {
    var q := l.queue;
    var r := Recycle(l, width, offset);
    if |q| >= 2 {
      forall i | 0 <= i < |r.queue| - 1
        ensures Gap(r, i) == width || Gap(r, i) == width + offset
      {
        if i < |q| - 2 {
          assert r.queue[i] == q[i + 1] && r.queue[i + 1] == q[i + 2];
          assert q[0] != q[i + 1] && q[0] != q[i + 2];
          assert Gap(r, i) == Gap(l, i + 1);
        } else {
          assert r.queue[i] == q[|q| - 1] && r.queue[i + 1] == q[0];
          assert q[0] != q[|q| - 1];
        }
      }
    }
  }

  /**
   * The recycled segment lands `width + offset` right of the old last one;
   * so on a seamless ground recycling keeps it seamless exactly when the
   * pivot offset is 0, while `SpawnInitialSegments` spaces segments by the
   * width alone.
   */
  lemma RecycleGap(l: Layout, width: real, offset: real)
    requires Placed(l) && NoDup(l.queue) && |l.queue| >= 2 && Tiled(l, width)
    ensures var r := Recycle(l, width, offset);
      && r.x[l.queue[0]] - l.x[l.queue[|l.queue| - 1]] == width + offset
      && (Tiled(r, width) <==> offset == 0.0)
  {
    var q := l.queue;
    var r := Recycle(l, width, offset);
    var n := |q|;
    assert r.queue[n - 2] == q[n - 1] && r.queue[n - 1] == q[0];
    assert q[0] != q[n - 1];
    forall i | 0 <= i < n - 2
      ensures Gap(r, i) == width
    {
      assert r.queue[i] == q[i + 1] && r.queue[i + 1] == q[i + 2];
      assert q[0] != q[i + 1] && q[0] != q[i + 2];
      assert Gap(r, i) == Gap(l, i + 1);
    }
    assert Gap(r, n - 2) == width + offset;
  }

  /** With positive gaps the recycled segment lands right of all others, so the queue stays left to right. */
  lemma RecycleKeepsOrder(l: Layout, width: real, offset: real)
    requires Placed(l) && NoDup(l.queue) && l.queue != [] && Ordered(l) && width + offset > 0.0
    ensures Ordered(Recycle(l, width, offset))
  {
    var q := l.queue;
    var r := Recycle(l, width, offset);
    if |q| >= 2 {
      var n := |q|;
      forall i, j | 0 <= i < j < n
        ensures r.x[r.queue[i]] < r.x[r.queue[j]]
      {
        if j == n - 1 {
          assert r.queue[j] == q[0];
          assert r.queue[i] == q[i + 1] && q[0] != q[i + 1];
          if i + 1 < n - 1 {
            assert l.x[q[i + 1]] < l.x[q[n - 1]];
          }
        } else {
          assert r.queue[i] == q[i + 1] && r.queue[j] == q[j + 1];
          assert q[0] != q[i + 1] && q[0] != q[j + 1];
        }
      }
    }
  }

  /** Positive spacing orders the queue from left to right. */
  lemma SpacedIsOrdered(l: Layout, width: real, offset: real)
    requires Placed(l) && Spaced(l, width, offset) && width > 0.0 && width + offset > 0.0
    ensures Ordered(l)
  {
    forall i, j | 0 <= i < j < |l.queue|
      ensures l.x[l.queue[i]] < l.x[l.queue[j]]
    {
      SpacedStep(l, width, offset, i, j);
    }
  }

  /** One step of `SpacedIsOrdered`, by induction on the distance between the two indices. */
  lemma {:induction false} SpacedStep(l: Layout, width: real, offset: real, i: int, j: int)
    requires Placed(l) && Spaced(l, width, offset) && width > 0.0 && width + offset > 0.0
    requires 0 <= i < j < |l.queue|
    ensures l.x[l.queue[i]] < l.x[l.queue[j]]
    decreases j - i
  {
    assert Gap(l, j - 1) == width || Gap(l, j - 1) == width + offset;
    if j > i + 1 {
      SpacedStep(l, width, offset, i, j - 1);
    }
  }

  /** The segments of `spawned` sit at the successive spawn points from `x0`, shifted by `offset`. */
  predicate SpawnedAt(spawned: seq<Segment>, x: map<Segment, real>, x0: real, width: real, offset: real)
  {
    forall k :: 0 <= k < |spawned| ==> spawned[k] in x && x[spawned[k]] == Slot(x0, k, width) + offset
  }

  lemma SpawnedAtStep(spawned: seq<Segment>, x: map<Segment, real>, s: Segment, x0: real, width: real, offset: real)
    requires SpawnedAt(spawned, x, x0, width, offset) && s !in spawned
    ensures SpawnedAt(spawned + [s], x[s := Slot(x0, |spawned|, width) + offset], x0, width, offset)
  {
  }

  /** Segments placed as `SpawnInitialSegments` places them, one width apart, are seamless. */
  lemma SpawnTiles(l: Layout, x0: real, width: real, offset: real)
    requires SpawnedAt(l.queue, l.x, x0, width, offset)
    ensures Tiled(l, width) && Spaced(l, width, offset)
  {
    forall i | 0 <= i < |l.queue| - 1
      ensures Gap(l, i) == width
    {
      assert Slot(x0, i + 1, width) == Slot(x0, i, width) + width;
    }
  }

  /** Every segment of `before` outside `spawned` keeps its position in `x`. */
  predicate KeptOutside(before: map<Segment, real>, x: map<Segment, real>, spawned: seq<Segment>)
  {
    forall s :: s in before && s !in spawned ==> s in x && x[s] == before[s]
  }

  lemma KeptOutsideStep(before: map<Segment, real>, x: map<Segment, real>, spawned: seq<Segment>, s: Segment, v: real)
    requires KeptOutside(before, x, spawned)
    ensures KeptOutside(before, x[s := v], spawned + [s])
  {
  }

  /** `after` holds what `before` holds and the segments of `spawned`, and nothing else. */
  ghost predicate Grown(before: set<Segment>, after: set<Segment>, spawned: seq<Segment>)
  {
    forall s :: s in after <==> s in before || s in spawned
  }

  lemma GrownStep(before: set<Segment>, after: set<Segment>, spawned: seq<Segment>, s: Segment)
    requires Grown(before, after, spawned)
    ensures Grown(before, after + {s}, spawned + [s])
  {
  }

  /**
   * `s` lists the segments 0, 1, 2, … in order. The pool always does:
   * segments are numbered in the order they are instantiated, and each new
   * one is added at the pool's end.
   */
  predicate Counted(s: seq<Segment>)
  {
    forall k :: 0 <= k < |s| ==> s[k] == k
  }

  lemma CountedStep(s: seq<Segment>)
    requires Counted(s)
    ensures Counted(s + [|s|])
  {
  }

  /** When exactly the pool's first segments are active, the search for an inactive one stops right after them. */
  lemma FirstFree(pool: seq<Segment>, active: set<Segment>, spawned: seq<Segment>)
    requires Counted(pool) && Counted(spawned) && |spawned| < |pool|
    requires Grown({}, active, spawned)
    ensures FirstInactive(pool, active) == |spawned|
  {
    var i := |spawned|;
    assert forall k :: 0 <= k < i ==> spawned[k] != i;
    assert pool[i] !in active;
    assert forall j :: 0 <= j < i ==> pool[j] == spawned[j];
  }

  // ---------------------------------------------------------------------
  // The component

  class WorldScroller {
    const baseScrollSpeed: real
    const speedIncreaseRate: real
    const maxScrollSpeed: real
    const segmentWidth: real
    const pivotOffset: real
    const segmentPosX: real
    /** As configured, raised by `Start` to cover the viewport. */
    const initialSegmentCount: int

    var currentMode: ScrollMode
    /** Every segment instantiated, in creation order. */
    var segmentPool: seq<Segment>
    /** The segments whose `SetActive` flag is on. */
    var activeFlag: set<Segment>
    /** Each segment's x coordinate. */
    var segX: map<Segment, real>
    /** The visible segments, front first. */
    var activeSegments: seq<Segment>
    var currentScrollSpeed: real
    var totalDistance: real
    var scoreBoosterMultiplier: real
    /** `scoreBoosterCoroutine` */
    var booster: Timer
    /** Every event published so far, oldest first. */
    var published: seq<Event>

    ghost function Ground(): Layout
      reads this`activeSegments, this`segX
    {
      Layout(activeSegments, segX)
    }

    /**
     * The pool's bookkeeping: the pool lists the segments in creation
     * order, each of them has a position, only they can be active, and the
     * queue holds distinct active segments.
     */
    ghost predicate Stocked()
      reads this`segmentPool, this`activeFlag, this`segX, this`activeSegments
    {
      && Counted(segmentPool)
      && (forall s: Segment :: s in segX <==> s < |segmentPool|)
      && (forall s: Segment :: s in activeFlag ==> s < |segmentPool|)
      && NoDup(activeSegments)
      && (forall s :: s in activeSegments ==> s in activeFlag)
    }

    /** Exactly the queued segments are active, and the pool has its initial size. */
    ghost predicate Exact()
      reads this`segmentPool, this`activeFlag, this`activeSegments
    {
      && (forall s :: s in activeFlag <==> s in activeSegments)
      && |segmentPool| == MaxInt(initialSegmentCount + 1, 0)
    }

    /** Settings under which the speed stays between its base and its maximum. */
    predicate Steady()
    {
      baseScrollSpeed <= maxScrollSpeed && speedIncreaseRate >= 0.0
    }

    /**
     * Between frames: the bookkeeping holds; the queue is spaced; it keeps
     * `initialSegmentCount` segments (a lone segment is lost by the failing
     * recycle); unless that can happen, nothing but the queue is active and
     * the pool never grows; the multiplier is doubled exactly while a
     * booster runs; and the speed stays within its bounds.
     */
    ghost predicate Valid()
      reads this
    {
      && segmentWidth > 0.0
      && Stocked()
      && Spaced(Ground(), segmentWidth, pivotOffset)
      && (|activeSegments| == MaxInt(initialSegmentCount, 0) || (initialSegmentCount == 1 && activeSegments == []))
      && (initialSegmentCount != 1 ==> Exact())
      && scoreBoosterMultiplier == (if booster.Running? then BOOSTED else 1.0)
      && (Steady() ==> baseScrollSpeed <= currentScrollSpeed <= maxScrollSpeed)
    }

    /**
     * `Start`, with the field initialisers: the speed at its base, the
     * segment count raised to cover the viewport, a pool of one more
     * segment than that, and the pool's first segments spawned one width
     * apart from the spawn point.
     */
    constructor (settings: Settings, viewportWidth: real)
      requires settings.segmentWidth > 0.0
      ensures baseScrollSpeed == settings.baseScrollSpeed && speedIncreaseRate == settings.speedIncreaseRate
      ensures maxScrollSpeed == settings.maxScrollSpeed && segmentWidth == settings.segmentWidth
      ensures pivotOffset == settings.pivotOffset && segmentPosX == settings.segmentPosX
      ensures initialSegmentCount == SegmentCount(settings.initialSegmentCount, viewportWidth, settings.segmentWidth)
      ensures Valid() && Exact() && Tiled(Ground(), segmentWidth)
      ensures currentMode == Idle && currentScrollSpeed == baseScrollSpeed && totalDistance == 0.0
      ensures booster == Stopped && scoreBoosterMultiplier == 1.0 && published == []
      ensures |activeSegments| == MaxInt(initialSegmentCount, 0) && Counted(activeSegments)
      ensures SpawnedAt(activeSegments, segX, segmentPosX, segmentWidth, pivotOffset)
    {
      baseScrollSpeed, speedIncreaseRate, maxScrollSpeed := settings.baseScrollSpeed, settings.speedIncreaseRate, settings.maxScrollSpeed;
      segmentWidth, pivotOffset, segmentPosX := settings.segmentWidth, settings.pivotOffset, settings.segmentPosX;
      initialSegmentCount := SegmentCount(settings.initialSegmentCount, viewportWidth, settings.segmentWidth);
      currentMode := Idle;
      segmentPool, activeFlag, segX, activeSegments := [], {}, map[], [];
      currentScrollSpeed, totalDistance := settings.baseScrollSpeed, 0.0;
      scoreBoosterMultiplier, booster := 1.0, Stopped;
      published := [];
      new;
      InitializeSegmentPool();
      SpawnInitialSegments();
      SpawnTiles(Ground(), segmentPosX, segmentWidth, pivotOffset);
    }

    /** `InitializeSegmentPool`: `initialSegmentCount + 1` new inactive segments at the spawn point. */
    method InitializeSegmentPool()
      requires Stocked()
      modifies this`segmentPool, this`segX
      ensures Stocked()
      ensures |segmentPool| == |old(segmentPool)| + MaxInt(initialSegmentCount + 1, 0)
      ensures forall s :: s in segX ==> segX[s] == if s in old(segX) then old(segX)[s] else segmentPosX
    {
      var i := 0;
      while i < initialSegmentCount + 1
        invariant 0 <= i <= MaxInt(initialSegmentCount + 1, 0)
        invariant Stocked()
        invariant |segmentPool| == |old(segmentPool)| + i
        invariant forall s :: s in segX ==> segX[s] == if s in old(segX) then old(segX)[s] else segmentPosX
      {
        var segment := |segmentPool|;  // Instantiate at the spawn point, then SetActive(false)
        CountedStep(segmentPool);
        segX := segX[segment := segmentPosX];
        segmentPool := segmentPool + [segment];
        i := i + 1;
      }
    }

    /**
     * `GetPooledSegment`: the first pool segment that is not active; when
     * all are, a new one at x = 0, active like its prefab, added to the pool.
     */
    method GetPooledSegment() returns (segment: Segment)
      requires Stocked()
      modifies this`segmentPool, this`activeFlag, this`segX
      ensures Stocked()
      ensures segment < |segmentPool| && segment !in old(activeFlag)
      ensures var k := FirstInactive(old(segmentPool), old(activeFlag));
        if k < |old(segmentPool)| then
          && segment == old(segmentPool)[k]
          && segmentPool == old(segmentPool) && activeFlag == old(activeFlag) && segX == old(segX)
        else
          && segment == |old(segmentPool)|
          && segmentPool == old(segmentPool) + [segment] && activeFlag == old(activeFlag) + {segment}
          && segX == old(segX)[segment := 0.0]
    {
      var i := 0;
      while i < |segmentPool|
        invariant 0 <= i <= |segmentPool|
        invariant forall j :: 0 <= j < i ==> segmentPool[j] in activeFlag
      {
        if segmentPool[i] !in activeFlag {
          assert FirstInactive(segmentPool, activeFlag) == i;
          return segmentPool[i];
        }
        i := i + 1;
      }
      segment := i;  // Instantiate at Vector3.zero
      CountedStep(segmentPool);
      segX := segX[segment := 0.0];
      activeFlag := activeFlag + {segment};
      segmentPool := segmentPool + [segment];
    }

    /**
     * The body of `SpawnInitialSegments`' loop: the segment
     * `GetPooledSegment` returns, placed at `x`, activated and queued.
     */
    method SpawnNext(x: real) returns (segment: Segment)
      requires Stocked()
      modifies this`segmentPool, this`activeFlag, this`segX, this`activeSegments
      ensures Stocked()
      ensures segment !in old(activeFlag)
      ensures activeSegments == old(activeSegments) + [segment]
      ensures activeFlag == old(activeFlag) + {segment}
      ensures segX == old(segX)[segment := x]
      ensures |segmentPool| >= |old(segmentPool)|
      ensures FirstInactive(old(segmentPool), old(activeFlag)) < |old(segmentPool)| ==>
                segmentPool == old(segmentPool) && segment == FirstInactive(old(segmentPool), old(activeFlag))
    {
      segment := GetPooledSegment();
      segX := segX[segment := x];                    // spawnPos + Vector3.right * pivotOffset
      activeFlag := activeFlag + {segment};          // SetActive(true)
      activeSegments := activeSegments + [segment];  // Enqueue
    }

    /**
     * `SpawnInitialSegments`: `initialSegmentCount` segments from
     * `GetPooledSegment`, each activated, queued and placed one width right
     * of the previous one, from the spawn point plus the pivot offset.
     * Starting with nothing active and enough segments in the pool, they
     * are the pool's first ones and the pool does not grow.
     */
    method SpawnInitialSegments()
      requires Stocked() && activeSegments == []
      modifies this`segmentPool, this`activeFlag, this`segX, this`activeSegments
      ensures Stocked()
      ensures |activeSegments| == MaxInt(initialSegmentCount, 0)
      ensures SpawnedAt(activeSegments, segX, segmentPosX, segmentWidth, pivotOffset)
      ensures Grown(old(activeFlag), activeFlag, activeSegments)
      ensures KeptOutside(old(segX), segX, activeSegments)
      ensures |segmentPool| >= |old(segmentPool)|
      ensures old(activeFlag) == {} && |old(segmentPool)| >= initialSegmentCount ==>
                |segmentPool| == |old(segmentPool)| && Counted(activeSegments)
    {
      ghost var fromStart := activeFlag == {} && |segmentPool| >= initialSegmentCount;
      var spawnX := segmentPosX;
      var i := 0;
      while i < initialSegmentCount
        invariant 0 <= i <= MaxInt(initialSegmentCount, 0)
        invariant Stocked()
        invariant spawnX == Slot(segmentPosX, i, segmentWidth)
        invariant |activeSegments| == i
        invariant SpawnedAt(activeSegments, segX, segmentPosX, segmentWidth, pivotOffset)
        invariant Grown(old(activeFlag), activeFlag, activeSegments)
        invariant KeptOutside(old(segX), segX, activeSegments)
        invariant |segmentPool| >= |old(segmentPool)|
        invariant fromStart ==> |segmentPool| == |old(segmentPool)| && Counted(activeSegments)
      {
        if fromStart {
          FirstFree(segmentPool, activeFlag, activeSegments);
          CountedStep(activeSegments);
        }
        ghost var xBefore, activeBefore, queueBefore := segX, activeFlag, activeSegments;
        var segment := SpawnNext(spawnX + pivotOffset);
        SpawnedAtStep(queueBefore, xBefore, segment, segmentPosX, segmentWidth, pivotOffset);
        KeptOutsideStep(old(segX), xBefore, queueBefore, segment, spawnX + pivotOffset);
        GrownStep(old(activeFlag), activeBefore, queueBefore, segment);
        spawnX := spawnX + segmentWidth;
        i := i + 1;
      }
    }

    /** `Update`'s loop over the queue: every queued segment moves `move` to the left. */
    method Translate(move: real)
      requires NoDup(activeSegments) && Placed(Ground())
      modifies this`segX
      ensures Ground() == Shift(old(Ground()), move)
    {
      var i := 0;
      while i < |activeSegments|
        invariant 0 <= i <= |activeSegments|
        invariant segX.Keys == old(segX).Keys
        invariant forall s :: s in segX ==> segX[s] == if s in activeSegments[..i] then old(segX)[s] - move else old(segX)[s]
      {
        var segment := activeSegments[i];
        assert activeSegments[..i + 1] == activeSegments[..i] + [segment];
        segX := segX[segment := segX[segment] - move];
        i := i + 1;
      }
      assert activeSegments[..i] == activeSegments;
    }

    /** `RecycleSegment`: dequeues the front segment and, when another one is left, queues it behind the last. */
    method RecycleSegment()
      requires Placed(Ground()) && activeSegments != []
      modifies this`activeSegments, this`segX
      ensures Ground() == Recycle(old(Ground()), segmentWidth, pivotOffset)
    {
      var segment := activeSegments[0];
      activeSegments := activeSegments[1..];  // Dequeue
      if |activeSegments| > 0 {
        var last := activeSegments[|activeSegments| - 1];
        var newX := segX[last] + segmentWidth;
        newX := newX + pivotOffset;
        segX := segX[segment := newX];
        activeSegments := activeSegments + [segment];
      } else {
        // indexing the empty array at Count - 1 throws: the dequeued segment is not queued again
      }
    }

    /** `TryRecycleSegment`: recycles the front segment once its right edge has passed the viewport's left edge. */
    method TryRecycleSegment(leftEdge: real)
      requires Placed(Ground())
      modifies this`activeSegments, this`segX
      ensures Ground() == TryRecycle(old(Ground()), segmentWidth, pivotOffset, leftEdge)
    {
      if |activeSegments| == 0 {
        return;
      }
      var oldest := activeSegments[0];
      var segmentRightEdge := segX[oldest] + segmentWidth / 2.0 - pivotOffset;
      if segmentRightEdge < leftEdge {
        RecycleSegment();
      }
    }

    /**
     * `Update` for a frame of `dt` seconds: in a game the speed ramps up,
     * the distance grows by the boosted move and both are published; idle,
     * the ground moves at the base speed; then the queue moves left and its
     * front segment may be recycled.
     */
    method Update(dt: real, leftEdge: real)
      requires Valid() && dt >= 0.0
      modifies this`currentScrollSpeed, this`totalDistance, this`published, this`activeSegments, this`segX
      ensures Valid()
      ensures currentMode == Game ==>
                && currentScrollSpeed == Ramp(old(currentScrollSpeed), speedIncreaseRate, dt, maxScrollSpeed)
                && totalDistance == old(totalDistance) + Travel(currentScrollSpeed, dt) * scoreBoosterMultiplier
                && published == old(published) + [DistanceUpdated(totalDistance), WorldSpeedUpdate(Travel(currentScrollSpeed, dt))]
      ensures currentMode == Game && Steady() && baseScrollSpeed >= 0.0 ==> totalDistance >= old(totalDistance)
      ensures currentMode == Idle ==>
                currentScrollSpeed == old(currentScrollSpeed) && totalDistance == old(totalDistance) && published == old(published)
      ensures Ground() == TryRecycle(Shift(old(Ground()), FrameMove(currentMode, currentScrollSpeed, baseScrollSpeed, scoreBoosterMultiplier, dt)),
                                     segmentWidth, pivotOffset, leftEdge)
    {
      var moveDistance := 0.0;
      if currentMode == Game {
        currentScrollSpeed := Ramp(currentScrollSpeed, speedIncreaseRate, dt, maxScrollSpeed);
        moveDistance := Travel(currentScrollSpeed, dt) * scoreBoosterMultiplier;
        totalDistance := totalDistance + moveDistance;
        published := published + [DistanceUpdated(totalDistance), WorldSpeedUpdate(Travel(currentScrollSpeed, dt))];
      } else {
        moveDistance := Travel(baseScrollSpeed, dt);
      }
      Scroll(moveDistance, leftEdge);
    }

    /** The rest of `Update`: the queue moves `move` to the left and its front segment may be recycled. */
    method Scroll(move: real, leftEdge: real)
      requires Valid()
      modifies this`activeSegments, this`segX
      ensures Valid()
      ensures Ground() == TryRecycle(Shift(old(Ground()), move), segmentWidth, pivotOffset, leftEdge)
    {
      ghost var before := Ground();
      Translate(move);
      ShiftKeepsShape(before, move, segmentWidth, pivotOffset);
      ghost var moved := Ground();
      TryRecycleSegment(leftEdge);
      TryRecycleKeeps(moved, segmentWidth, pivotOffset, leftEdge);
    }

    /** Subscribed to the game start: the ground scrolls in game mode. */
    method SetGameStatusOn()
      requires Valid()
      modifies this`currentMode
      ensures Valid() && currentMode == Game
    {
      currentMode := Game;
    }

    /** Subscribed to the game over: the ground scrolls idle. */
    method SetGameStatusOff()
      requires Valid()
      modifies this`currentMode
      ensures Valid() && currentMode == Idle
    {
      currentMode := Idle;
    }

    /**
     * `UpdateScoreBooster`: any running booster coroutine is stopped and a
     * new one started, which doubles the multiplier and waits `duration`.
     */
    method UpdateScoreBooster(duration: real)
      requires Valid()
      modifies this`booster, this`scoreBoosterMultiplier
      ensures Valid()
      ensures booster == Running(duration) && scoreBoosterMultiplier == BOOSTED
    {
      booster := Running(duration);  // StopAllCoroutines, StartCoroutine
      scoreBoosterMultiplier := BOOSTED;
    }

    /** `dt` seconds pass for the booster coroutine; once its wait is over it restores the multiplier to 1. */
    method TickBooster(dt: real)
      requires Valid() && dt >= 0.0
      modifies this`booster, this`scoreBoosterMultiplier
      ensures Valid()
      ensures booster == Advance(old(booster), dt)
      ensures scoreBoosterMultiplier == if booster.Running? then BOOSTED else 1.0
    {
      booster := Advance(booster, dt);
      if booster == Stopped {
        scoreBoosterMultiplier := 1.0;
      }
    }

    /** `ResetScroller`'s loop: every queued segment is deactivated. */
    method DeactivateQueue()
      modifies this`activeFlag
      ensures forall s :: s in activeFlag <==> s in old(activeFlag) && s !in activeSegments
    {
      var i := 0;
      while i < |activeSegments|
        invariant 0 <= i <= |activeSegments|
        invariant forall s :: s in activeFlag <==> s in old(activeFlag) && s !in activeSegments[..i]
      {
        assert activeSegments[..i + 1] == activeSegments[..i] + [activeSegments[i]];
        activeFlag := activeFlag - {activeSegments[i]};  // SetActive(false)
        i := i + 1;
      }
      assert activeSegments[..i] == activeSegments;
    }

    /**
     * `ResetScroller`, on a restart: the speed back at its base, no
     * distance, the queued segments deactivated and the initial segments
     * spawned anew; the multiplier and the mode are kept. In a normal run
     * this reuses the pool's first segments.
     */
    method ResetScroller()
      requires Valid()
      modifies this`currentScrollSpeed, this`totalDistance, this`segmentPool, this`activeFlag, this`segX, this`activeSegments
      ensures Valid() && Tiled(Ground(), segmentWidth)
      ensures currentScrollSpeed == baseScrollSpeed && totalDistance == 0.0
      ensures |activeSegments| == MaxInt(initialSegmentCount, 0)
      ensures SpawnedAt(activeSegments, segX, segmentPosX, segmentWidth, pivotOffset)
      ensures KeptOutside(old(segX), segX, activeSegments)
      ensures forall s :: s in activeFlag <==> (s in old(activeFlag) && s !in old(activeSegments)) || s in activeSegments
      ensures |segmentPool| >= |old(segmentPool)|
      ensures initialSegmentCount != 1 ==> |segmentPool| == |old(segmentPool)| && Counted(activeSegments)
    {
      currentScrollSpeed := baseScrollSpeed;
      totalDistance := 0.0;
      DeactivateQueue();
      activeSegments := [];  // Clear
      SpawnInitialSegments();
      SpawnTiles(Ground(), segmentPosX, segmentWidth, pivotOffset);
    }
  }

  /**
   * With the default settings and a 20-wide viewport, one idle frame of
   * two seconds moves the three segments one width left and recycles the
   * front one: it lands behind the others and the layout looks as before.
   */
  method IdleFrameRecycles() returns (queue: seq<Segment>, xs: seq<real>)
    ensures queue == [1, 2, 0]
    ensures xs == [0.0, 10.0, 20.0]
  {
    var scroller := new WorldScroller(Defaults(0.0), 20.0);
    assert Ceil(20.0 / 10.0) == 2;
    assert scroller.activeSegments == [0, 1, 2];
    scroller.Update(2.0, -1.0);
    queue := scroller.activeSegments;
    xs := [scroller.segX[queue[0]], scroller.segX[queue[1]], scroller.segX[queue[2]]];
  }

  /** A game frame of one second under a booster covers twice the ramped speed. */
  method BoostedGameFrame() returns (distance: real, speed: real)
    ensures speed == 5.1 && distance == 10.2
  {
    var scroller := new WorldScroller(Defaults(0.0), 20.0);
    scroller.SetGameStatusOn();
    scroller.UpdateScoreBooster(3.0);
    scroller.Update(1.0, -100.0);
    distance, speed := scroller.totalDistance, scroller.currentScrollSpeed;
  }

  /**
   * A second booster replaces the first rather than stacking: once the
   * second one's shorter duration has passed, the multiplier is back to 1
   * although the first one's has not.
   */
  method BoostsDoNotStack(first: real, second: real) returns (multiplier: real)
    requires 0.0 < second < first
    ensures multiplier == 1.0
  {
    var scroller := new WorldScroller(Defaults(0.0), 20.0);
    scroller.UpdateScoreBooster(first);
    scroller.UpdateScoreBooster(second);
    scroller.TickBooster(second);
    multiplier := scroller.scoreBoosterMultiplier;
  }
}
