/** The conventional optional value, used for Go's nil pointers and absent map entries, and the step
    of a circular index. */
module Common {
  datatype Option<+T> = None | Some(value: T)

  /** The zero time.Time, midnight of 1 January of year 1, in nanoseconds since 1970. */
  const ZERO_TIME := -62_135_596_800_000_000_000

  lemma Wraps(x: nat, capacity: nat)
    requires x < capacity
    ensures (x + 1) % capacity == if x + 1 == capacity then 0 else x + 1
  {}
}
