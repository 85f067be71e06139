/**
 The values the queue control passes to and from Redis: store capacity, queue position
 and the counts of one rotation.
 */
module QueueModels {

  const USIZE_LIMIT: int := 0x1_0000_0000_0000_0000
  const ISIZE_LIMIT: int := 0x8000_0000_0000_0000

  /** A 64-bit unsigned and a 64-bit signed machine integer. */
  type usize = n: int | 0 <= n < USIZE_LIMIT
  type isize = n: int | -ISIZE_LIMIT <= n < ISIZE_LIMIT

  datatype Result<T> = Ok(value: T) | OutOfRange(given: int)

  datatype StoreCapacity = Sized(size: usize) | Unlimited

  /** The number written to the capacity key; the cast of a size wraps. */
  function ToIsize(c: StoreCapacity): (v: isize)
  {
    match c
    case Sized(n) => if n < ISIZE_LIMIT then n else n - USIZE_LIMIT
    case Unlimited => -1
  }

  /** The capacity read back from the key. */
  function FromIsize(v: isize): (r: Result<StoreCapacity>) {
    if v < -1 then OutOfRange(v)
    else if v == -1 then Ok(Unlimited)
    else Ok(Sized(v))
  }

  /** Which stored numbers are capacities, and what they mean: -1 is no limit, a number from 0 on is
      that size, anything below -1 is refused with the number given. */
  lemma FromIsizeIff(v: isize)
    ensures FromIsize(v).Ok? <==> v >= -1
    ensures FromIsize(v) == Ok(Unlimited) <==> v == -1
    ensures forall n: usize :: FromIsize(v) == Ok(Sized(n)) <==> v == n
    ensures v < -1 ==> FromIsize(v) == OutOfRange(v)
  {
  }

  /** A size is stored as itself if it fits a signed word, and otherwise as a negative number. */
  lemma StoredSize(n: usize)
    ensures n < ISIZE_LIMIT ==> ToIsize(Sized(n)) == n
    ensures n >= ISIZE_LIMIT ==> ToIsize(Sized(n)) < 0 && (ToIsize(Sized(n)) - n) % USIZE_LIMIT == 0
  {
    if n >= ISIZE_LIMIT { assert ToIsize(Sized(n)) - n == -1 * USIZE_LIMIT; }
  }

  /** A capacity survives being written and read exactly when its size fits a signed word. */
  lemma CapacityRoundTrip(c: StoreCapacity)
    ensures FromIsize(ToIsize(c)) == Ok(c) <==> (c.Sized? ==> c.size < ISIZE_LIMIT)
  {
    if c.Sized? && c.size >= ISIZE_LIMIT {
      assert ToIsize(c) < 0;
    }
  }

  /** The largest size wraps to -1 and comes back as "unlimited". */
  lemma CapacityWrapCounterexample()
    ensures FromIsize(ToIsize(Sized(USIZE_LIMIT - 1))) == Ok(Unlimited)
  {
  }

  datatype QueuePosition = NotPresent | Store | Queue(position: nat)

  /** Decode the pair returned by the id_position script. */
  function FromRedis(status: nat, position: nat): (p: QueuePosition) {
    if status == 0 then NotPresent
    else if status <= 2 then (if position == 0 then Store else Queue(position))
    else NotPresent
  }

  datatype QueueRotate = QueueRotate(queueExpired: nat, storeExpired: nat, promoted: nat)
}
