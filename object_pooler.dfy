/**
 * The per-prefab object pool of an endless runner.
 *
 * Every prefab key owns a FIFO queue of idle objects (`prefabPools`) and a
 * list of active objects (`activeObjects`). Game objects are integer ids
 * handed out by a counter (the engine's `Instantiate`); a queue's front is
 * index 0 of its sequence.
 */
module Pooling {
  import opened Sequences

  type Prefab = nat
  type Obj = nat

  /** One entry of the pool configuration read at start-up. */
  datatype PoolConfig = PoolConfig(prefab: Prefab, size: int)

  /** The ids `lo, lo + 1, ..., lo + n - 1`, in that order. */
  function Range(lo: nat, n: nat): (r: seq<Obj>)
    ensures |r| == n
    ensures forall i :: 0 <= i < n ==> r[i] == lo + i
  {
    if n == 0 then [] else Range(lo, n - 1) + [lo + n - 1]
  }

  /** The number of iterations of `for (int i = 0; i < size; i++)`. */
  function Iterations(size: int): nat
  {
    if size > 0 then size else 0
  }

  /** Where the first occurrence of `x` in `s` is. */
  function IndexOf<T(==)>(s: seq<T>, x: T): (i: nat)
    requires x in s
    ensures i < |s| && s[i] == x && x !in s[..i]
  {
    if s[0] == x then 0
    else
      assert x in s[1..] by {
        var k :| 0 <= k < |s| && s[k] == x;
        assert k > 0 && s[1..][k - 1] == x;
      }
      var j := IndexOf(s[1..], x);
      assert s[..j + 1] == [s[0]] + s[1..][..j];
      j + 1
  }

  /**
   * `List.Remove`: drops the first occurrence of `x`, if any, and keeps the
   * other elements in their order.
   */
  function RemoveFirst<T(==)>(s: seq<T>, x: T): (r: seq<T>)
    ensures x !in s ==> r == s
    ensures x in s ==> |r| == |s| - 1 && multiset(r) == multiset(s) - multiset{x}
    ensures x in s ==> forall k :: 0 <= k < |r| ==> r[k] == s[if k < IndexOf(s, x) then k else k + 1]
  {
    if s == [] then []
    else if s[0] == x then assert s == [s[0]] + s[1..]; s[1..]
    else
      var t := RemoveFirst(s[1..], x);
      assert s == [s[0]] + s[1..] && (x in s ==> x in s[1..]);
      assert multiset([s[0]] + t) == multiset{s[0]} + multiset(t);
      if x in s[1..] then RemovedAfterHead(s, x, t); [s[0]] + t else [s[0]] + t
  }

  /** Removing the first `x` from the tail of `s`, whose head is not `x`, removes the first `x` of `s`. */
  lemma RemovedAfterHead<T>(s: seq<T>, x: T, t: seq<T>)
    requires s != [] && s[0] != x && x in s[1..] && |t| == |s| - 2
    requires forall k :: 0 <= k < |t| ==> t[k] == s[1..][if k < IndexOf(s[1..], x) then k else k + 1]
    ensures x in s
    ensures forall k :: 0 <= k < |[s[0]] + t| ==> ([s[0]] + t)[k] == s[if k < IndexOf(s, x) then k else k + 1]
  {
    var j := IndexOf(s[1..], x);
    assert IndexOf(s, x) == j + 1;
    forall k | 0 <= k < |[s[0]] + t| ensures ([s[0]] + t)[k] == s[if k < j + 1 then k else k + 1] {
      if k > 0 {
        assert ([s[0]] + t)[k] == t[k - 1];
      }
    }
  }

  /** `s` read from its last element to its first. */
  function Reverse<T>(s: seq<T>): (r: seq<T>)
    ensures |r| == |s|
    ensures forall i :: 0 <= i < |s| ==> r[i] == s[|s| - 1 - i]
  {
    if s == [] then [] else [s[|s| - 1]] + Reverse(s[..|s| - 1])
  }

  /** Removing an element of a duplicate-free list removes exactly that element. */
  lemma RemoveFirstOfNoDup<T>(s: seq<T>, x: T)
    requires NoDup(s) && x in s
    ensures |RemoveFirst(s, x)| == |s| - 1
    ensures NoDup(RemoveFirst(s, x))
    ensures forall y :: y in RemoveFirst(s, x) <==> y in s && y != x
  {
    var r, i := RemoveFirst(s, x), IndexOf(s, x);
    forall a, b | 0 <= a < b < |r| ensures r[a] != r[b] {
      var a', b' := if a < i then a else a + 1, if b < i then b else b + 1;
      assert r[a] == s[a'] && r[b] == s[b'];
    }
    forall y ensures y in r <==> y in s && y != x {
      if y in r {
        var k :| 0 <= k < |r| && r[k] == y;
        var k' := if k < i then k else k + 1;
        assert s[k'] == y && k' != i;
      }
      if y in s && y != x {
        var k :| 0 <= k < |s| && s[k] == y;
        assert k != i;
        var k' := if k < i then k else k - 1;
        assert r[k'] == y;
      }
    }
  }

  /** Reversal keeps the elements and the absence of duplicates. */
  lemma ReverseFacts<T>(s: seq<T>)
    ensures forall y :: y in Reverse(s) <==> y in s
    ensures NoDup(s) ==> NoDup(Reverse(s))
  {
    var r := Reverse(s);
    forall y ensures y in r <==> y in s {
      if y in s {
        var k :| 0 <= k < |s| && s[k] == y;
        assert r[|s| - 1 - k] == y;
      }
    }
    if NoDup(s) {
      forall i, j | 0 <= i < j < |r| ensures r[i] != r[j] {
        assert r[i] == s[|s| - 1 - i] && r[j] == s[|s| - 1 - j];
      }
    }
  }

  /** The invariant of one prefab's queue and active list. */
  ghost predicate PoolInvariant(queue: seq<Obj>, active: seq<Obj>, total: nat, owner: map<Obj, Prefab>, p: Prefab)
  {
    && NoDup(queue)
    && NoDup(active)
    && (forall o :: o in queue ==> o !in active)
    && |queue| + |active| == total
    && (forall o :: o in queue ==> o in owner && owner[o] == p)
    && (forall o :: o in active ==> o in owner && owner[o] == p)
  }

  /**
   * The pool invariant over the whole table: the same keys in both
   * dictionaries, the objects instantiated so far are exactly the ids
   * below `next`, each from one prefab, each in at most one place of its
   * own prefab's pool and in at least one.
   */
  ghost predicate TableInvariant(pools: map<Prefab, seq<Obj>>, active: map<Prefab, seq<Obj>>,
                                 created: map<Prefab, nat>, owner: map<Obj, Prefab>, next: nat)
  {
    && pools.Keys == active.Keys == created.Keys
    && (forall o: Obj :: o in owner <==> o < next)
    && (forall o :: o in owner ==> owner[o] in pools && (o in pools[owner[o]] || o in active[owner[o]]))
    && (forall p {:trigger PoolInvariant(pools[p], active[p], created[p], owner, p)} :: p in pools ==> PoolInvariant(pools[p], active[p], created[p], owner, p))
  }

  /** Replacing one prefab's queue and list by a rearrangement of the same objects keeps the invariant. */
  lemma TableUpdate(pools: map<Prefab, seq<Obj>>, active: map<Prefab, seq<Obj>>,
                    created: map<Prefab, nat>, owner: map<Obj, Prefab>, next: nat,
                    p: Prefab, queue: seq<Obj>, list: seq<Obj>)
    requires TableInvariant(pools, active, created, owner, next)
    requires p in pools
    requires PoolInvariant(queue, list, created[p], owner, p)
    requires forall o :: o in pools[p] || o in active[p] ==> o in queue || o in list
    ensures TableInvariant(pools[p := queue], active[p := list], created, owner, next)
  {
    assert created == created[p := created[p]];
  }

  /** Enqueueing a freshly instantiated object keeps the invariant. */
  lemma TableFresh(pools: map<Prefab, seq<Obj>>, active: map<Prefab, seq<Obj>>,
                   created: map<Prefab, nat>, owner: map<Obj, Prefab>, next: nat, p: Prefab)
    requires TableInvariant(pools, active, created, owner, next)
    requires p in pools
    ensures TableInvariant(pools[p := pools[p] + [next]], active, created[p := created[p] + 1], owner[next := p], next + 1)
  {
    var pools', created', owner' := pools[p := pools[p] + [next]], created[p := created[p] + 1], owner[next := p];
    assert next !in owner;
    forall q | q in pools' ensures PoolInvariant(pools'[q], active[q], created'[q], owner', q) {
      assert PoolInvariant(pools[q], active[q], created[q], owner, q);
      assert next !in pools[q] && next !in active[q];
      assert forall o :: o in pools'[q] ==> o in pools[q] || (q == p && o == next);
      if q == p {
        assert NoDup(pools'[q]) by {
          forall i, j | 0 <= i < j < |pools'[q]| ensures pools'[q][i] != pools'[q][j] {
            if j == |pools[q]| {
              assert pools'[q][i] == pools[q][i];
            } else {
              assert pools'[q][i] == pools[q][i] && pools'[q][j] == pools[q][j];
            }
          }
        }
      }
    }
  }

  /** `owner` extended so that the ids `next, ..., next + n - 1` belong to `p`. */
  ghost function OwnRange(owner: map<Obj, Prefab>, next: nat, n: nat, p: Prefab): map<Obj, Prefab>
  {
    if n == 0 then owner else OwnRange(owner, next, n - 1, p)[next + n - 1 := p]
  }

  /** Enqueueing `n` freshly instantiated objects keeps the invariant. */
  lemma {:induction false} TableFreshRun(pools: map<Prefab, seq<Obj>>, active: map<Prefab, seq<Obj>>,
                                         created: map<Prefab, nat>, owner: map<Obj, Prefab>, next: nat,
                                         p: Prefab, n: nat)
    requires TableInvariant(pools, active, created, owner, next)
    requires p in pools
    ensures TableInvariant(pools[p := pools[p] + Range(next, n)], active, created[p := created[p] + n],
                           OwnRange(owner, next, n, p), next + n)
  {
    if n == 0 {
      assert pools[p] + Range(next, 0) == pools[p];
      assert pools[p := pools[p]] == pools && created[p := created[p]] == created;
    } else {
      TableFreshRun(pools, active, created, owner, next, p, n - 1);
      var pools', created' := pools[p := pools[p] + Range(next, n - 1)], created[p := created[p] + n - 1];
      TableFresh(pools', active, created', OwnRange(owner, next, n - 1, p), next + n - 1, p);
      assert pools'[p] + [next + n - 1] == pools[p] + Range(next, n) by {
        assert Range(next, n) == Range(next, n - 1) + [next + n - 1];
      }
      UpdateTwice(pools, p, pools[p] + Range(next, n - 1), pools[p] + Range(next, n));
      UpdateTwice(created, p, created[p] + n - 1, created[p] + n);
    }
  }

  /** Adding an empty pool for a new prefab keeps the invariant. */
  lemma TableNewPool(pools: map<Prefab, seq<Obj>>, active: map<Prefab, seq<Obj>>,
                     created: map<Prefab, nat>, owner: map<Obj, Prefab>, next: nat, p: Prefab)
    requires TableInvariant(pools, active, created, owner, next)
    requires p !in pools
    ensures TableInvariant(pools[p := []], active[p := []], created[p := 0], owner, next)
  {
  }

  /** The fields of a pooler at one moment. */
  datatype PoolState = PoolState(pools: map<Prefab, seq<Obj>>, active: map<Prefab, seq<Obj>>,
                                 positions: map<Obj, real>, next: nat)
  {
    function QueueOf(p: Prefab): seq<Obj>
    {
      if p in pools then pools[p] else []
    }

    function ActiveOf(p: Prefab): seq<Obj>
    {
      if p in active then active[p] else []
    }

    /** The queue `GetFromPool(p, _)` dequeues from: the idle queue, or one fresh object when it is empty. */
    function Supply(p: Prefab): (r: seq<Obj>)
      ensures r != []
    {
      if QueueOf(p) == [] then [next] else QueueOf(p)
    }

    /** The object `GetFromPool(p, _)` hands out. */
    function Front(p: Prefab): Obj
    {
      Supply(p)[0]
    }

    /** The state after `GetFromPool(p, x)`: the front object leaves the queue, becomes active and sits at `x`. */
    function Get(p: Prefab, x: real): PoolState
    {
      PoolState(pools[p := Supply(p)[1..]], active[p := ActiveOf(p) + [Front(p)]], positions[Front(p) := x],
                next + (if QueueOf(p) == [] then 1 else 0))
    }

    /** The state after `n` calls `GetFromPool(p, x)`, `GetFromPool(p, x + step)`, ... */
    function GetRow(p: Prefab, n: nat, x: real, step: real): PoolState
    {
      if n == 0 then this else GetRow(p, n - 1, x, step).Get(p, RowAt(x, step, n - 1))
    }
  }

  /** The k-th x position of a row that starts at `x` and advances by `step`. */
  function RowAt(x: real, step: real, k: nat): real
  {
    x + (k as real) * step
  }

  /**
   * The objects `n` successive `GetFromPool` calls on one prefab hand out,
   * starting from the idle queue `queue` and the fresh id `next`: the idle
   * objects from the front, then one fresh object per call once the queue is
   * empty.
   */
  function Drawn(queue: seq<Obj>, next: nat, n: nat): (r: seq<Obj>)
    ensures |r| == n
    ensures forall k :: 0 <= k < n && k < |queue| ==> r[k] == queue[k]
    ensures forall k :: |queue| <= k < n ==> r[k] == next + (k - |queue|)
  {
    if n <= |queue| then queue[..n] else queue + Range(next, n - |queue|)
  }

  /** The idle queue those `n` calls leave behind. */
  function Left(queue: seq<Obj>, n: nat): seq<Obj>
  {
    if n <= |queue| then queue[n..] else []
  }

  /** The idle objects handed out, followed by those left, are the old queue in order. */
  lemma LeftDrawn(queue: seq<Obj>, next: nat, n: nat)
    ensures n <= |queue| ==> Drawn(queue, next, n) + Left(queue, n) == queue
    ensures n >= |queue| ==> Drawn(queue, next, n)[..|queue|] == queue && Left(queue, n) == []
  {
  }

  /** How many objects those `n` calls instantiate. */
  function Made(queue: seq<Obj>, n: nat): (r: nat)
    ensures |queue| + r == |Left(queue, n)| + n
  {
    if n <= |queue| then 0 else n - |queue|
  }

  /** One more call hands out the front of what is left, or one fresh object when nothing is. */
  lemma DrawnStep(queue: seq<Obj>, next: nat, n: nat)
    ensures var rest := Left(queue, n);
            var supply := if rest == [] then [next + Made(queue, n)] else rest;
            && Drawn(queue, next, n + 1) == Drawn(queue, next, n) + [supply[0]]
            && Left(queue, n + 1) == supply[1..]
            && Made(queue, n + 1) == Made(queue, n) + (if rest == [] then 1 else 0)
  {
    if n < |queue| {
      assert queue[..n + 1] == queue[..n] + [queue[n]];
    } else if n == |queue| {
      assert queue[..n] == queue;
      assert Range(next, 1) == [next];
    } else {
      assert Range(next, n + 1 - |queue|) == Range(next, n - |queue|) + [next + n - |queue|];
    }
  }

  /** A duplicate-free queue of ids below `next`, followed by fresh ids, hands out no object twice. */
  lemma DrawnNoDup(queue: seq<Obj>, next: nat, n: nat)
    requires NoDup(queue) && forall o :: o in queue ==> o < next
    ensures NoDup(Drawn(queue, next, n))
  {
    var r := Drawn(queue, next, n);
    forall i, j | 0 <= i < j < n ensures r[i] != r[j] {
      if j < |queue| {
        assert r[i] == queue[i] && r[j] == queue[j];
      } else if i < |queue| {
        assert r[i] == queue[i] && queue[i] in queue;
      }
    }
  }

  /**
   * From `s0` to `s`, `n` (at least one) `GetFromPool` calls on prefab `p`
   * placed their objects at `x`, `x + step`, `x + 2·step`, ...: the prefab's
   * queue lost its front, its active list gained those objects in order,
   * fresh ids were used up as needed, and no other prefab and no other
   * object's position changed.
   */
  ghost predicate DrewRow(s0: PoolState, s: PoolState, p: Prefab, n: nat, x: real, step: real)
  {
    && RowTaken(s0, s, p, n)
    && RowPlaced(s0.positions, s.positions, Drawn(s0.QueueOf(p), s0.next, n), x, step)
  }

  /** The queues, active lists and fresh ids after a row of `n` calls on `p`. */
  ghost predicate RowTaken(s0: PoolState, s: PoolState, p: Prefab, n: nat)
  {
    var q := s0.QueueOf(p);
    && s.pools == s0.pools[p := Left(q, n)]
    && s.active == s0.active[p := s0.ActiveOf(p) + Drawn(q, s0.next, n)]
    && s.next == s0.next + Made(q, n)
  }

  /** The k-th object of `row` sits at the row's k-th position; the others kept their place from `ps0`. */
  ghost predicate RowPlaced(ps0: map<Obj, real>, ps: map<Obj, real>, row: seq<Obj>, x: real, step: real)
  {
    && (forall k :: 0 <= k < |row| ==> row[k] in ps && ps[row[k]] == RowAt(x, step, k))
    && (forall o :: o in ps0 && o !in row ==> o in ps && ps[o] == ps0[o])
  }

  /**
   * What a row of `GetFromPool` calls does, in closed form: when the queue
   * holds distinct ids below `next`, `GetRow` is `DrewRow`.
   */
  lemma {:induction false} GetRowDraws(s: PoolState, p: Prefab, n: nat, x: real, step: real)
    requires NoDup(s.QueueOf(p)) && forall o :: o in s.QueueOf(p) ==> o < s.next
    ensures n > 0 ==> DrewRow(s, s.GetRow(p, n, x, step), p, n, x, step)
  {
    if n == 1 {
      DrewRowFirst(s, p, x, step);
    } else if n > 1 {
      GetRowDraws(s, p, n - 1, x, step);
      DrewRowNext(s, s.GetRow(p, n - 1, x, step), p, n - 1, x, step);
    }
  }

  /** A row of one call. */
  lemma DrewRowFirst(s0: PoolState, p: Prefab, x: real, step: real)
    ensures DrewRow(s0, s0.GetRow(p, 1, x, step), p, 1, x, step)
  {
    var q, s' := s0.QueueOf(p), s0.GetRow(p, 1, x, step);
    assert s0.GetRow(p, 0, x, step) == s0;
    DrawnStep(q, s0.next, 0);
    assert Left(q, 0) == q && Made(q, 0) == 0 && Drawn(q, s0.next, 0) == [];
    assert Drawn(q, s0.next, 1) == [] + [s0.Front(p)] == [s0.Front(p)];
    RowPositions(s0.positions, s0.positions, s'.positions, [], s0.Front(p), x, step);
  }

  /** One more call after a row of `n` calls extends the row. */
  lemma DrewRowNext(s0: PoolState, s: PoolState, p: Prefab, n: nat, x: real, step: real)
    requires n > 0 && DrewRow(s0, s, p, n, x, step)
    requires NoDup(s0.QueueOf(p)) && forall o :: o in s0.QueueOf(p) ==> o < s0.next
    ensures DrewRow(s0, s.Get(p, RowAt(x, step, n)), p, n + 1, x, step)
  {
    var s' := s.Get(p, RowAt(x, step, n));
    FrontIsNew(s0, s, p, n);
    RowTakenNext(s0, s, p, n, RowAt(x, step, n));
    RowPositions(s0.positions, s.positions, s'.positions, Drawn(s0.QueueOf(p), s0.next, n), s.Front(p), x, step);
  }

  /** The queue and list part of one more call. */
  lemma RowTakenNext(s0: PoolState, s: PoolState, p: Prefab, n: nat, x: real)
    requires n > 0 && RowTaken(s0, s, p, n)
    requires Drawn(s0.QueueOf(p), s0.next, n + 1) == Drawn(s0.QueueOf(p), s0.next, n) + [s.Front(p)]
    requires s.Supply(p)[1..] == Left(s0.QueueOf(p), n + 1)
    requires s.next + (if s.QueueOf(p) == [] then 1 else 0) == s0.next + Made(s0.QueueOf(p), n + 1)
    ensures RowTaken(s0, s.Get(p, x), p, n + 1)
  {
    var q := s0.QueueOf(p);
    assert s.ActiveOf(p) + [s.Front(p)] == s0.ActiveOf(p) + Drawn(q, s0.next, n + 1);
  }

  /** After a row of `n` calls, the next call hands out the row's next object, one not yet in the row. */
  lemma FrontIsNew(s0: PoolState, s: PoolState, p: Prefab, n: nat)
    requires n > 0 && RowTaken(s0, s, p, n)
    requires NoDup(s0.QueueOf(p)) && forall o :: o in s0.QueueOf(p) ==> o < s0.next
    ensures Drawn(s0.QueueOf(p), s0.next, n + 1) == Drawn(s0.QueueOf(p), s0.next, n) + [s.Front(p)]
    ensures s.Front(p) !in Drawn(s0.QueueOf(p), s0.next, n)
    ensures s.Supply(p)[1..] == Left(s0.QueueOf(p), n + 1)
    ensures s.next + (if s.QueueOf(p) == [] then 1 else 0) == s0.next + Made(s0.QueueOf(p), n + 1)
    ensures s.ActiveOf(p) == s0.ActiveOf(p) + Drawn(s0.QueueOf(p), s0.next, n)
  {
    var q := s0.QueueOf(p);
    var row, row' := Drawn(q, s0.next, n), Drawn(q, s0.next, n + 1);
    DrawnStep(q, s0.next, n);
    assert s.QueueOf(p) == Left(q, n);
    DrawnNoDup(q, s0.next, n + 1);
    assert row'[n] == s.Front(p);
    forall k | 0 <= k < n ensures row[k] != s.Front(p) {
      assert row'[k] == row[k];
    }
  }

  /** Placing `obj`, new to the row, one step further keeps the row's positions and everyone else's. */
  lemma RowPositions(ps0: map<Obj, real>, ps: map<Obj, real>, ps': map<Obj, real>, row: seq<Obj>, obj: Obj, x: real, step: real)
    requires obj !in row
    requires RowPlaced(ps0, ps, row, x, step)
    requires ps' == ps[obj := RowAt(x, step, |row|)]
    ensures RowPlaced(ps0, ps', row + [obj], x, step)
  {
    forall k | 0 <= k < |row + [obj]| ensures (row + [obj])[k] in ps' && ps'[(row + [obj])[k]] == RowAt(x, step, k) {
      if k < |row| {
        assert (row + [obj])[k] == row[k] && row[k] != obj;
      }
    }
  }

  class ObjectPooler {
    /** Idle objects per prefab; index 0 is the front of the queue. */
    var prefabPools: map<Prefab, seq<Obj>>
    /** Active objects per prefab, in the order they were handed out. */
    var activeObjects: map<Prefab, seq<Obj>>
    /** The position last given to an object by `GetFromPool`. */
    var positions: map<Obj, real>
    /** The id the next `Instantiate` returns. */
    var nextId: nat
    /** The prefab each object was instantiated from. */
    ghost var owner: map<Obj, Prefab>
    /** How many objects were ever instantiated for each prefab. */
    ghost var created: map<Prefab, nat>

    ghost predicate Valid()
      reads this
    {
      TableInvariant(prefabPools, activeObjects, created, owner, nextId)
    }

    /** The pooler's fields as one value. */
    function State(): (s: PoolState)
      reads this
      ensures s.pools == prefabPools && s.active == activeObjects && s.positions == positions && s.next == nextId
    {
      PoolState(prefabPools, activeObjects, positions, nextId)
    }

    /** The idle queue of `p`, empty when `p` has no pool yet. */
    function QueueOf(p: Prefab): seq<Obj>
      reads this
    {
      if p in prefabPools then prefabPools[p] else []
    }

    /** The active list of `p`, empty when `p` has no pool yet. */
    function ActiveOf(p: Prefab): seq<Obj>
      reads this
    {
      if p in activeObjects then activeObjects[p] else []
    }

    /** How many objects were ever instantiated for `p`. */
    ghost function CreatedOf(p: Prefab): nat
      reads this
    {
      if p in created then created[p] else 0
    }

    /** The object lies in some prefab's active list. */
    ghost predicate IsTracked(obj: Obj)
      reads this
    {
      exists p :: p in activeObjects && obj in activeObjects[p]
    }

    /** `Awake`: one `InitializePool` per configured pool, in order. */
    constructor (pools: seq<PoolConfig>)
      ensures Valid()
      ensures prefabPools.Keys == Configured(pools)
      ensures forall p :: p in prefabPools ==> activeObjects[p] == [] && |prefabPools[p]| == ConfiguredSize(pools, p)
      ensures positions == map[]
    {
      prefabPools, activeObjects, positions, nextId := map[], map[], map[], 0;
      owner, created := map[], map[];
      new;
      assert TableInvariant(map[], map[], map[], map[], 0);
      var k := 0;
      while k < |pools|
        invariant 0 <= k <= |pools|
        invariant Valid()
        invariant prefabPools.Keys == Configured(pools[..k])
        invariant forall p :: p in prefabPools ==> activeObjects[p] == [] && |prefabPools[p]| == ConfiguredSize(pools[..k], p)
        invariant forall p :: p !in prefabPools ==> ConfiguredSize(pools[..k], p) == 0
        invariant positions == map[]
      {
        ConfiguredSizeStep(pools, k);
        InitializePool(pools[k].prefab, pools[k].size);
        k := k + 1;
      }
      assert pools[..k] == pools;
    }

    /** `Instantiate(prefab)`, `SetActive(false)` and `Enqueue`: one fresh idle object at the tail. */
    method AddFreshIdle(prefab: Prefab)
      requires Valid() && prefab in prefabPools
      modifies this
      ensures Valid()
      ensures prefabPools == old(prefabPools)[prefab := old(prefabPools)[prefab] + [old(nextId)]]
      ensures activeObjects == old(activeObjects) && positions == old(positions)
      ensures nextId == old(nextId) + 1
      ensures created == old(created)[prefab := old(created)[prefab] + 1]
    {
      TableFresh(prefabPools, activeObjects, created, owner, nextId, prefab);
      var obj := nextId;
      nextId := nextId + 1;
      owner := owner[obj := prefab];
      created := created[prefab := created[prefab] + 1];
      prefabPools := prefabPools[prefab := prefabPools[prefab] + [obj]];
    }

    /** The `ContainsKey` branch of `InitializePool`: an empty queue and list for a new prefab. */
    method EnsurePool(prefab: Prefab)
      requires Valid()
      modifies this
      ensures Valid()
      ensures prefabPools == old(prefabPools)[prefab := old(QueueOf(prefab))]
      ensures activeObjects == old(activeObjects)[prefab := old(ActiveOf(prefab))]
      ensures created == old(created)[prefab := old(CreatedOf(prefab))]
      ensures nextId == old(nextId) && positions == old(positions) && owner == old(owner)
    {
      if prefab !in prefabPools {
        TableNewPool(prefabPools, activeObjects, created, owner, nextId, prefab);
        prefabPools := prefabPools[prefab := []];
        activeObjects := activeObjects[prefab := []];
        created := created[prefab := 0];
      }
    }

    /** Creates the pool of a new prefab, then adds `size` fresh idle objects. */
    method InitializePool(prefab: Prefab, size: int)
      requires Valid()
      modifies this
      ensures Valid()
      ensures prefabPools == old(prefabPools)[prefab := old(QueueOf(prefab)) + Range(old(nextId), Iterations(size))]
      ensures activeObjects == old(activeObjects)[prefab := old(ActiveOf(prefab))]
      ensures created == old(created)[prefab := old(CreatedOf(prefab)) + Iterations(size)]
      ensures nextId == old(nextId) + Iterations(size)
      ensures positions == old(positions)
    {
      EnsurePool(prefab);
      AddIdle(prefab, size);
      UpdateTwice(old(prefabPools), prefab, old(QueueOf(prefab)), old(QueueOf(prefab)) + Range(old(nextId), Iterations(size)));
      UpdateTwice(old(created), prefab, old(CreatedOf(prefab)), old(CreatedOf(prefab)) + Iterations(size));
    }

    /** The `for` loop of `InitializePool`: `size` times `Instantiate`, `SetActive(false)`, `Enqueue`. */
    method AddIdle(prefab: Prefab, size: int)
      requires Valid() && prefab in prefabPools
      modifies this
      ensures Valid()
      ensures prefabPools == old(prefabPools)[prefab := old(prefabPools)[prefab] + Range(old(nextId), Iterations(size))]
      ensures activeObjects == old(activeObjects)
      ensures created == old(created)[prefab := old(created)[prefab] + Iterations(size)]
      ensures nextId == old(nextId) + Iterations(size)
      ensures positions == old(positions)
    {
      var queue := prefabPools[prefab];
      var id := nextId;
      var i := 0;
      while i < size
        invariant 0 <= i <= Iterations(size)
        invariant queue == prefabPools[prefab] + Range(nextId, i)
        invariant id == nextId + i
      {
        queue := queue + [id];  // Instantiate, SetActive(false), Enqueue
        id := id + 1;
        i := i + 1;
      }
      TableFreshRun(prefabPools, activeObjects, created, owner, nextId, prefab, i);
      prefabPools := prefabPools[prefab := queue];
      created := created[prefab := created[prefab] + i];
      owner := OwnRange(owner, nextId, i, prefab);
      nextId := id;
    }

    /**
     * Dequeues the front idle object of `prefab` (creating the pool and one
     * object first when needed), activates it at `position` and appends it to
     * the prefab's active list.
     */
    method GetFromPool(prefab: Prefab, position: real) returns (obj: Obj)
      requires Valid()
      modifies this
      ensures Valid()
      ensures obj == old(State()).Front(prefab)
      ensures State() == old(State()).Get(prefab, position)
      ensures created == old(created)[prefab := old(CreatedOf(prefab)) + old(Shortfall(prefab))]
    {
      if prefab in prefabPools {
        assert PoolInvariant(prefabPools[prefab], activeObjects[prefab], created[prefab], owner, prefab);
      }
      Replenish(prefab);
      obj := Take(prefab, position);
      UpdateTwice(old(prefabPools), prefab, old(State().Supply(prefab)), old(State().Supply(prefab))[1..]);
      UpdateTwice(old(activeObjects), prefab, old(ActiveOf(prefab)), old(ActiveOf(prefab)) + [obj]);
    }

    /** The first two steps of `GetFromPool`: a pool for an unknown prefab, then one fresh object for an empty queue. */
    method Replenish(prefab: Prefab)
      requires Valid()
      modifies this
      ensures Valid()
      ensures prefabPools == old(prefabPools)[prefab := old(State().Supply(prefab))]
      ensures activeObjects == old(activeObjects)[prefab := old(ActiveOf(prefab))]
      ensures created == old(created)[prefab := old(CreatedOf(prefab)) + old(Shortfall(prefab))]
      ensures nextId == old(nextId) + old(Shortfall(prefab))
      ensures positions == old(positions)
    {
      if prefab !in prefabPools {
        // Debug.LogWarning
        InitializePool(prefab, 1);
        assert old(QueueOf(prefab)) + Range(old(nextId), 1) == [old(nextId)];
      }
      if prefabPools[prefab] == [] {
        assert old(QueueOf(prefab)) + [old(nextId)] == [old(nextId)];
        AddFreshIdle(prefab);
      }
      if old(QueueOf(prefab)) != [] {
        assert old(prefabPools) == old(prefabPools)[prefab := old(QueueOf(prefab))];
        assert old(activeObjects) == old(activeObjects)[prefab := old(ActiveOf(prefab))];
        assert old(created) == old(created)[prefab := old(CreatedOf(prefab))];
      }
    }

    /** How many objects `GetFromPool` instantiates: one when the queue is empty, none otherwise. */
    function Shortfall(p: Prefab): nat
      reads this
    {
      if QueueOf(p) == [] then 1 else 0
    }

    /** The last steps of `GetFromPool`: `Dequeue`, `SetActive(true)`, set the position, `Add` to the active list. */
    method Take(prefab: Prefab, position: real) returns (obj: Obj)
      requires Valid() && prefab in prefabPools && prefabPools[prefab] != []
      modifies this
      ensures Valid()
      ensures obj == old(prefabPools)[prefab][0]
      ensures prefabPools == old(prefabPools)[prefab := old(prefabPools)[prefab][1..]]
      ensures activeObjects == old(activeObjects)[prefab := old(activeObjects)[prefab] + [obj]]
      ensures created == old(created) && nextId == old(nextId)
      ensures positions == old(positions)[obj := position]
    {
      Dequeued(prefabPools, activeObjects, created, owner, nextId, prefab);
      var queue, active := prefabPools[prefab], activeObjects[prefab];
      obj := queue[0];
      prefabPools := prefabPools[prefab := queue[1..]];
      positions := positions[obj := position];
      activeObjects := activeObjects[prefab := active + [obj]];
    }

    /**
     * Deactivates `obj`; when some active list holds it, moves it from that
     * list to the tail of the same prefab's queue. An untracked object only
     * causes a warning (`warned`).
     */
    method ReturnToPool(obj: Obj) returns (warned: bool)
      requires Valid()
      modifies this
      ensures Valid()
      ensures warned <==> !old(IsTracked(obj))
      ensures forall p :: p in old(activeObjects) && obj in old(activeObjects)[p] ==>
                activeObjects == old(activeObjects)[p := RemoveFirst(old(activeObjects)[p], obj)] &&
                prefabPools == old(prefabPools)[p := old(prefabPools)[p] + [obj]]
      ensures warned ==> activeObjects == old(activeObjects) && prefabPools == old(prefabPools)
      ensures nextId == old(nextId) && positions == old(positions) && created == old(created)
    {
      var keys := activeObjects.Keys;
      while keys != {}
        invariant keys <= activeObjects.Keys
        invariant forall p :: p in activeObjects && p !in keys ==> obj !in activeObjects[p]
        decreases keys
      {
        var p :| p in keys;
        if obj in activeObjects[p] {
          MoveToQueue(p, obj);
          warned := false;
          return;
        }
        keys := keys - {p};
      }
      warned := true;
    }

    /** The successful branch of `ReturnToPool`: `Remove` from the list, `Enqueue` on the same prefab's queue. */
    method MoveToQueue(p: Prefab, obj: Obj)
      requires Valid() && p in activeObjects && obj in activeObjects[p]
      modifies this
      ensures Valid()
      ensures activeObjects == old(activeObjects)[p := RemoveFirst(old(activeObjects)[p], obj)]
      ensures prefabPools == old(prefabPools)[p := old(prefabPools)[p] + [obj]]
      ensures nextId == old(nextId) && positions == old(positions) && created == old(created)
      ensures forall q :: q in old(activeObjects) && obj in old(activeObjects)[q] ==> q == p
    {
      Returned(prefabPools, activeObjects, created, owner, nextId, p, obj);
      var active, queue := activeObjects[p], prefabPools[p];
      activeObjects := activeObjects[p := RemoveFirst(active, obj)];
      prefabPools := prefabPools[p := queue + [obj]];
    }

    /**
     * Every active object of every prefab goes back to its prefab's queue,
     * each list enqueued from its last element to its first, and every
     * active list is cleared.
     */
    method ResetAll()
      requires Valid()
      modifies this
      ensures Valid()
      ensures activeObjects.Keys == old(activeObjects.Keys) && prefabPools.Keys == old(prefabPools.Keys)
      ensures forall p :: p in activeObjects ==>
                activeObjects[p] == [] && prefabPools[p] == old(prefabPools)[p] + Reverse(old(activeObjects)[p])
      ensures nextId == old(nextId) && positions == old(positions) && created == old(created)
    {
      var keys := activeObjects.Keys;
      while keys != {}
        invariant Valid()
        invariant keys <= activeObjects.Keys
        invariant activeObjects.Keys == old(activeObjects.Keys) && prefabPools.Keys == old(prefabPools.Keys)
        invariant forall p :: p in keys ==>
                    activeObjects[p] == old(activeObjects)[p] && prefabPools[p] == old(prefabPools)[p]
        invariant forall p :: p in activeObjects && p !in keys ==>
                    activeObjects[p] == [] && prefabPools[p] == old(prefabPools)[p] + Reverse(old(activeObjects)[p])
        invariant nextId == old(nextId) && positions == old(positions) && created == old(created)
        decreases keys
      {
        var p :| p in keys;
        ResetOne(p);
        keys := keys - {p};
      }
    }

    /** One iteration of `ResetAll`'s outer loop: the backward `for` loop over one list, then `Clear`. */
    method ResetOne(p: Prefab)
      requires Valid() && p in activeObjects
      modifies this
      ensures Valid()
      ensures activeObjects == old(activeObjects)[p := []]
      ensures prefabPools == old(prefabPools)[p := old(prefabPools)[p] + Reverse(old(activeObjects)[p])]
      ensures nextId == old(nextId) && positions == old(positions) && created == old(created)
    {
      var queue := EnqueueBackward(prefabPools[p], activeObjects[p]);
      Cleared(prefabPools, activeObjects, created, owner, nextId, p);
      prefabPools := prefabPools[p := queue];
      activeObjects := activeObjects[p := []];
    }

    /**
     * Whatever the history, an object lies in at most one place: one prefab,
     * and there either in the queue or in the active list.
     */
    lemma AtMostOnePlace(obj: Obj, p: Prefab, q: Prefab)
      requires Valid()
      requires p in prefabPools && (obj in prefabPools[p] || obj in activeObjects[p])
      requires q in prefabPools && (obj in prefabPools[q] || obj in activeObjects[q])
      ensures p == q
      ensures !(obj in prefabPools[p] && obj in activeObjects[p])
    {
      assert PoolInvariant(prefabPools[p], activeObjects[p], created[p], owner, p);
      assert PoolInvariant(prefabPools[q], activeObjects[q], created[q], owner, q);
    }

    /**
     * Every object instantiated so far, and no other id, lies in exactly one
     * place: the pool of the prefab it was made from, there either idle or
     * active, and in no other prefab's pool.
     */
    lemma ExactlyOnePlace(obj: Obj)
      requires Valid()
      ensures obj < nextId <==> exists p :: p in prefabPools && (obj in prefabPools[p] || obj in activeObjects[p])
      ensures obj < nextId ==>
                owner[obj] in prefabPools &&
                (obj in prefabPools[owner[obj]] <==> obj !in activeObjects[owner[obj]]) &&
                forall q :: q in prefabPools && (obj in prefabPools[q] || obj in activeObjects[q]) ==> q == owner[obj]
    {
      if obj < nextId {
        var p := owner[obj];
        assert PoolInvariant(prefabPools[p], activeObjects[p], created[p], owner, p);
        forall q | q in prefabPools && (obj in prefabPools[q] || obj in activeObjects[q]) ensures q == p {
          AtMostOnePlace(obj, p, q);
        }
      } else {
        forall p | p in prefabPools ensures obj !in prefabPools[p] && obj !in activeObjects[p] {
          assert PoolInvariant(prefabPools[p], activeObjects[p], created[p], owner, p);
        }
      }
    }

    /**
     * The idle queue of any prefab holds distinct ids below `nextId`, so the
     * closed form `GetRowDraws` applies to it, and the object `GetFromPool`
     * would hand out is not active already.
     */
    lemma QueueFacts(p: Prefab)
      requires Valid()
      ensures NoDup(State().QueueOf(p)) && forall o :: o in State().QueueOf(p) ==> o < nextId
      ensures State().Front(p) !in ActiveOf(p)
    {
      if p in prefabPools {
        assert PoolInvariant(prefabPools[p], activeObjects[p], created[p], owner, p);
      }
    }

    /**
     * From any reachable state, a row of `n` `GetFromPool` calls on `p` at
     * `x`, `x + step`, ... is `DrewRow`: the queue's front objects, then
     * fresh ones, become active in order at the row's positions, and no
     * other prefab and no other object's position changes.
     */
    lemma RowDraws(p: Prefab, n: nat, x: real, step: real)
      requires Valid()
      ensures n > 0 ==> DrewRow(State(), State().GetRow(p, n, x, step), p, n, x, step)
    {
      QueueFacts(p);
      GetRowDraws(State(), p, n, x, step);
    }

    /** Conservation: idle plus active objects of a prefab are all the objects ever made for it. */
    lemma Conservation(p: Prefab)
      requires Valid() && p in prefabPools
      ensures |prefabPools[p]| + |activeObjects[p]| == created[p]
    {
      assert PoolInvariant(prefabPools[p], activeObjects[p], created[p], owner, p);
    }
  }

  /**
   * The backward loop of `ResetAll`: `list[|list| - 1]`, ..., `list[0]`
   * enqueued on `queue` in that order.
   */
  method EnqueueBackward(queue: seq<Obj>, list: seq<Obj>) returns (r: seq<Obj>)
    ensures r == queue + Reverse(list)
  {
    r := queue;
    var i := |list| - 1;
    while i >= 0
      invariant -1 <= i < |list|
      invariant |r| == |queue| + |list| - 1 - i
      invariant r[..|queue|] == queue
      invariant forall k :: |queue| <= k < |r| ==> r[k] == list[|list| - 1 - (k - |queue|)]
    {
      r := r + [list[i]];  // SetActive(false), Enqueue
      i := i - 1;
    }
  }

  /** Moving the front of a non-empty queue to the end of the active list keeps the invariant. */
  lemma Dequeued(pools: map<Prefab, seq<Obj>>, active: map<Prefab, seq<Obj>>,
                 created: map<Prefab, nat>, owner: map<Obj, Prefab>, next: nat, p: Prefab)
    requires TableInvariant(pools, active, created, owner, next)
    requires p in pools && pools[p] != []
    ensures TableInvariant(pools[p := pools[p][1..]], active[p := active[p] + [pools[p][0]]], created, owner, next)
  {
    var queue, list, obj := pools[p], active[p], pools[p][0];
    assert PoolInvariant(queue, list, created[p], owner, p);
    assert queue == [obj] + queue[1..];
    assert forall o :: o in queue <==> o == obj || o in queue[1..];
    assert forall o :: o in list + [obj] <==> o in list || o == obj;
    assert NoDup(queue[1..]) by {
      forall i, j | 0 <= i < j < |queue[1..]| ensures queue[1..][i] != queue[1..][j] {
        assert queue[1..][i] == queue[i + 1] && queue[1..][j] == queue[j + 1];
      }
    }
    assert obj !in queue[1..] by {
      forall k | 0 <= k < |queue[1..]| ensures queue[1..][k] != obj {
        assert queue[1..][k] == queue[k + 1];
      }
    }
    assert NoDup(list + [obj]) by {
      forall i, j | 0 <= i < j < |list + [obj]| ensures (list + [obj])[i] != (list + [obj])[j] {
        assert (list + [obj])[i] == list[i];
      }
    }
    assert PoolInvariant(queue[1..], list + [obj], created[p], owner, p);
    TableUpdate(pools, active, created, owner, next, p, queue[1..], list + [obj]);
  }

  /** Moving an active object to the tail of its own queue keeps the invariant. */
  lemma Returned(pools: map<Prefab, seq<Obj>>, active: map<Prefab, seq<Obj>>,
                 created: map<Prefab, nat>, owner: map<Obj, Prefab>, next: nat, p: Prefab, obj: Obj)
    requires TableInvariant(pools, active, created, owner, next)
    requires p in active && obj in active[p]
    ensures TableInvariant(pools[p := pools[p] + [obj]], active[p := RemoveFirst(active[p], obj)], created, owner, next)
    ensures forall q :: q in active && obj in active[q] ==> q == p
  {
    var queue, list := pools[p], active[p];
    assert PoolInvariant(queue, list, created[p], owner, p);
    RemoveFirstOfNoDup(list, obj);
    assert forall o :: o in queue + [obj] <==> o in queue || o == obj;
    assert NoDup(queue + [obj]) by {
      forall i, j | 0 <= i < j < |queue + [obj]| ensures (queue + [obj])[i] != (queue + [obj])[j] {
        assert (queue + [obj])[i] == queue[i];
      }
    }
    assert PoolInvariant(queue + [obj], RemoveFirst(list, obj), created[p], owner, p);
    TableUpdate(pools, active, created, owner, next, p, queue + [obj], RemoveFirst(list, obj));
    forall q | q in active && obj in active[q] ensures q == p {
      assert PoolInvariant(pools[q], active[q], created[q], owner, q);
    }
  }

  /** Appending a list, reversed, to its own prefab's queue and clearing the list keeps the invariant. */
  lemma Cleared(pools: map<Prefab, seq<Obj>>, active: map<Prefab, seq<Obj>>,
                created: map<Prefab, nat>, owner: map<Obj, Prefab>, next: nat, p: Prefab)
    requires TableInvariant(pools, active, created, owner, next)
    requires p in active
    ensures TableInvariant(pools[p := pools[p] + Reverse(active[p])], active[p := []], created, owner, next)
  {
    var queue, list := pools[p], active[p];
    assert PoolInvariant(queue, list, created[p], owner, p);
    var back := Reverse(list);
    ReverseFacts(list);
    assert forall o :: o in queue + back <==> o in queue || o in back;
    assert NoDup(queue + back) by {
      forall i, j | 0 <= i < j < |queue + back| ensures (queue + back)[i] != (queue + back)[j] {
        if j < |queue| {
          assert (queue + back)[i] == queue[i] && (queue + back)[j] == queue[j];
        } else if i >= |queue| {
          assert (queue + back)[i] == back[i - |queue|] && (queue + back)[j] == back[j - |queue|];
        } else {
          assert (queue + back)[i] == queue[i];
          assert (queue + back)[j] == back[j - |queue|] && back[j - |queue|] in list;
        }
      }
    }
    assert PoolInvariant(queue + back, [], created[p], owner, p);
    TableUpdate(pools, active, created, owner, next, p, queue + back, []);
  }

  /** A second update of the same key overrides the first. */
  lemma UpdateTwice<K, V>(m: map<K, V>, k: K, a: V, b: V)
    ensures m[k := a][k := b] == m[k := b]
  {
  }

  /** The number of idle objects the configuration asks for `p`. */
  function ConfiguredSize(pools: seq<PoolConfig>, p: Prefab): nat
  {
    if pools == [] then 0
    else ConfiguredSize(pools[..|pools| - 1], p) +
         (if pools[|pools| - 1].prefab == p then Iterations(pools[|pools| - 1].size) else 0)
  }

  lemma ConfiguredSizeStep(pools: seq<PoolConfig>, k: nat)
    requires k < |pools|
    ensures forall p :: ConfiguredSize(pools[..k + 1], p) ==
                        ConfiguredSize(pools[..k], p) + (if pools[k].prefab == p then Iterations(pools[k].size) else 0)
    ensures Configured(pools[..k + 1]) == Configured(pools[..k]) + {pools[k].prefab}
  {
    assert pools[..k + 1][..k] == pools[..k];
    assert pools[..k + 1] == pools[..k] + [pools[k]];
  }

  /** The prefabs the configuration names. */
  function Configured(pools: seq<PoolConfig>): set<Prefab>
  {
    if pools == [] then {} else Configured(pools[..|pools| - 1]) + {pools[|pools| - 1].prefab}
  }

  /** `Configured` is the set of prefabs that occur in the configuration. */
  lemma {:induction false} ConfiguredIsNamed(pools: seq<PoolConfig>, p: Prefab)
    ensures p in Configured(pools) <==> exists c :: c in pools && c.prefab == p
  {
    if pools != [] {
      var init, last := pools[..|pools| - 1], pools[|pools| - 1];
      ConfiguredIsNamed(init, p);
      assert pools == init + [last];
      assert forall c :: c in pools <==> c in init || c == last;
    }
  }
}
