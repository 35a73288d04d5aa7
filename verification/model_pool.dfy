/** The pool of speech-recognition engines (src/asr/model_pool.py): how many
    engines fit in accelerator memory, and the bounded FIFO queue that hands
    them out and takes them back. Engines are identified by opaque handles;
    building them through the engine factory is outside the model. */
module ModelPool {
  import opened Base

  /** The fraction of free accelerator memory the pool may use. */
  const MemoryShare: real := 0.8

  // ---------------------------------------------------------------------
  // Sizing
  // ---------------------------------------------------------------------

  datatype SizingError = ZeroDivision

  /** Free accelerator memory in bytes, given the outcome of the device query;
      a failed query counts as no memory at all. */
  function AvailableMemory(query: Option<nat>): (bytes: nat)
    ensures query.None? ==> bytes == 0
    ensures query.Some? ==> bytes == query.value
  {
    match query
    case Some(free) => free
    case None => 0
  }

  /** Engines that fit in 80% of `available` bytes when each engine needs
      `modelMemoryBytes`, never fewer than one. Dividing by a zero footprint
      raises, which aborts start-up. */
  function PoolSize(available: nat, modelMemoryBytes: int): (r: Result<int, SizingError>)
    ensures r.Failure? <==> modelMemoryBytes == 0
    ensures r.Success? ==> r.value >= 1
  {
    if modelMemoryBytes == 0 then Failure(ZeroDivision)
    else
      var share := MemoryShare * (available as real);
      Success(Max(1, (share / (modelMemoryBytes as real)).Floor))
  }

  /** The whole start-up computation: query the device, then size the pool. */
  function ComputeModelPoolSize(query: Option<nat>, modelMemoryBytes: int): (r: Result<int, SizingError>)
    ensures r.Success? <==> modelMemoryBytes != 0
    ensures r.Success? ==> r.value >= 1
    ensures query.None? && modelMemoryBytes != 0 ==> r == Success(1)
  {
    PoolSize(AvailableMemory(query), modelMemoryBytes)
  }

  /** `floor` characterised by the interval it picks. */
  lemma FloorIs(x: real, q: int)
    requires q as real <= x < q as real + 1.0
    ensures x.Floor == q
  {
  }

  /** A proper fraction of a positive denominator lies in `[0, 1)`. */
  lemma FractionBelowOne(a: real, b: real)
    requires 0.0 <= a < b
    ensures 0.0 <= a / b < 1.0
  {
    assert (a / b) * b == a;
  }

  /** Splitting a quotient into its whole part and its remainder. */
  lemma QuotientSplit(n: nat, d: int)
    requires d > 0
    ensures (n as real) / (d as real) == ((n / d) as real) + ((n % d) as real) / (d as real)
  {
    var q := n / d;
    var rem := n % d;
    assert (n as real) == (d as real) * (q as real) + (rem as real);
  }

  /** For a positive footprint the real-valued formula agrees with an integer
      one: `max(1, floor(0.8 * M / F)) == max(1, (4 * M) div (5 * F))`. */
  lemma PoolSizeIsIntegerQuotient(available: nat, modelMemoryBytes: int)
    requires modelMemoryBytes > 0
    ensures PoolSize(available, modelMemoryBytes)
         == Success(Max(1, (4 * available) / (5 * modelMemoryBytes)))
  {
    var n := 4 * available;
    var d := 5 * modelMemoryBytes;
    var x := MemoryShare * (available as real) / (modelMemoryBytes as real);
    assert x == (n as real) / (d as real);
    QuotientSplit(n, d);
    FractionBelowOne((n % d) as real, d as real);
    FloorIs(x, n / d);
  }

  /** The worked examples: 10000 bytes free with a 2000-byte engine gives four
      engines; 1000 bytes free with a 10000-byte engine is clamped to one. */
  lemma PoolSizeExamples()
    ensures PoolSize(10000, 2000) == Success(4)
    ensures PoolSize(1000, 10000) == Success(1)
  {
    PoolSizeIsIntegerQuotient(10000, 2000);
    PoolSizeIsIntegerQuotient(1000, 10000);
  }

  /** More free memory never yields a smaller pool. */
  lemma PoolSizeMonotone(m1: nat, m2: nat, modelMemoryBytes: int)
    requires m1 <= m2
    requires modelMemoryBytes > 0
    ensures PoolSize(m1, modelMemoryBytes).value <= PoolSize(m2, modelMemoryBytes).value
  {
    var f := modelMemoryBytes as real;
    var x1 := MemoryShare * (m1 as real) / f;
    var x2 := MemoryShare * (m2 as real) / f;
    assert MemoryShare * (m1 as real) <= MemoryShare * (m2 as real);
    assert x1 <= x2;
  }

  // ---------------------------------------------------------------------
  // The pool
  // ---------------------------------------------------------------------

  /** An engine handle; the pool's construction numbers them `0, 1, ...`. */
  type Handle = nat

  /** An `asyncio.Queue` of handles with its `maxsize`, together with the set
      of handles currently held by callers and the handle the context-manager
      protocol last stored on the pool. */
  datatype Pool = Pool(queue: seq<Handle>, maxSize: int, out: set<Handle>, instance: Option<Handle>)

  datatype PoolError =
    | QueueFull     // `put_nowait` on a full queue
    | NoInstance    // `__aexit__` before any `__aenter__`

  datatype AcquireResult = Blocked | Acquired(handle: Handle, pool: Pool)

  /** `asyncio.Queue.full()`: a queue whose maxsize is zero or negative is
      unbounded and never full. */
  predicate Full(p: Pool) {
    p.maxSize > 0 && |p.queue| >= p.maxSize
  }

  predicate Distinct(s: seq<Handle>) {
    forall i, j :: 0 <= i < j < |s| ==> s[i] != s[j]
  }

  /** The pool's bookkeeping invariant: the capacity is positive, available
      plus checked-out handles make up the capacity, the queue holds no
      handle twice, and no handle is both queued and checked out. */
  predicate Valid(p: Pool) {
    && p.maxSize >= 1
    && |p.queue| + |p.out| == p.maxSize
    && Distinct(p.queue)
    && (forall i :: 0 <= i < |p.queue| ==> p.queue[i] !in p.out)
  }

  /** The constructor: a queue of `poolSize` fresh engines, none checked out. */
  function NewPool(poolSize: int): (p: Pool)
    ensures |p.queue| == Max(0, poolSize) && p.maxSize == poolSize
    ensures p.out == {} && p.instance == None
    ensures Distinct(p.queue)
    ensures poolSize >= 1 ==> Valid(p)
  {
    Pool(Span(0, Max(0, poolSize)), poolSize, {}, None)
  }

  /** `acquire`: take the handle at the front of the queue. On an empty queue
      the caller suspends, which the model reports as `Blocked`. */
  function Acquire(p: Pool): (r: AcquireResult)
    ensures r.Blocked? <==> |p.queue| == 0
    ensures r.Acquired? ==> r.handle == p.queue[0] && r.pool.queue == p.queue[1..]
    ensures r.Acquired? ==> r.pool.out == p.out + {r.handle}
    ensures r.Acquired? ==> r.pool.maxSize == p.maxSize && r.pool.instance == p.instance
    ensures r.Acquired? && Valid(p) ==> r.handle !in p.out && Valid(r.pool)
  {
    if |p.queue| == 0 then Blocked
    else
      var h := p.queue[0];
      var p' := p.(queue := p.queue[1..], out := p.out + {h});
      assert Valid(p) ==> |p'.out| == |p.out| + 1 by {
        if Valid(p) {
          assert h !in p.out;
        }
      }
      Acquired(h, p')
  }

  /** `release`: append the handle at the back of the queue; on a full queue
      `put_nowait` raises. */
  function Release(p: Pool, h: Handle): (r: Result<Pool, PoolError>)
    ensures r.Failure? <==> Full(p)
    ensures r.Failure? ==> r.error == QueueFull
    ensures r.Success? ==> r.value.queue == p.queue + [h] && r.value.out == p.out - {h}
    ensures r.Success? ==> r.value.maxSize == p.maxSize && r.value.instance == p.instance
    ensures Valid(p) && h in p.out ==> r.Success? && Valid(r.value)
  {
    if Full(p) then Failure(QueueFull)
    else
      var p' := p.(queue := p.queue + [h], out := p.out - {h});
      assert Valid(p) && h in p.out ==> Valid(p') by {
        if Valid(p) && h in p.out {
          assert h !in p.queue;
          assert |p'.out| == |p.out| - 1;
        }
      }
      Success(p')
  }

  /** A pool whose every handle is checked out makes the next caller wait. */
  lemma ExhaustedPoolBlocks(p: Pool)
    requires Valid(p) && |p.out| == p.maxSize
    ensures Acquire(p).Blocked?
  {
  }

  /** A handle returned by `acquire` is not held by anyone else. */
  lemma AcquiredHandleIsExclusive(p: Pool)
    requires Valid(p) && |p.queue| > 0
    ensures Acquire(p).Acquired?
    ensures Acquire(p).handle !in p.out
    ensures Acquire(p).handle !in Acquire(p).pool.queue
  {
  }

  /** `__aenter__`: acquire a handle and remember it on the pool. */
  function Enter(p: Pool): (r: AcquireResult)
    ensures r.Blocked? <==> |p.queue| == 0
    ensures r.Acquired? ==> r.pool.instance == Some(r.handle) && r.handle == p.queue[0]
    ensures r.Acquired? && Valid(p) ==> Valid(r.pool)
  {
    match Acquire(p)
    case Blocked => Blocked
    case Acquired(h, p') => Acquired(h, p'.(instance := Some(h)))
  }

  /** `__aexit__`: release the remembered handle. The remembered handle is not
      cleared afterwards. */
  function Exit(p: Pool): (r: Result<Pool, PoolError>)
    ensures p.instance.None? ==> r == Failure(NoInstance)
    ensures p.instance.Some? ==> r == Release(p, p.instance.value)
  {
    match p.instance
    case None => Failure(NoInstance)
    case Some(h) => Release(p, h)
  }

  /** A sequential `async with` block (enter, then exit) returns the pool to
      the state it started in, up to the order of the queue: the same handles
      are available, the same are checked out, and the capacity is unchanged. */
  lemma {:induction false} EnterThenExitRestores(p: Pool)
    requires Valid(p) && |p.queue| > 0
    ensures Enter(p).Acquired?
    ensures Exit(Enter(p).pool).Success?
    ensures multiset(Exit(Enter(p).pool).value.queue) == multiset(p.queue)
    ensures Exit(Enter(p).pool).value.out == p.out
    ensures Valid(Exit(Enter(p).pool).value)
  {
    var e := Enter(p);
    var h := e.handle;
    assert h == p.queue[0] && h !in p.out;
    assert Valid(e.pool) && h in e.pool.out;
    var x := Exit(e.pool);
    assert x == Release(e.pool, h);
    assert x.value.queue == p.queue[1..] + [h];
    assert p.queue == [h] + p.queue[1..];
    assert multiset(p.queue) == multiset([h]) + multiset(p.queue[1..]);
    assert x.value.out == (p.out + {h}) - {h};
    assert x.value.out == p.out;
  }
}
