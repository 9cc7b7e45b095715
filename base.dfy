/** Values shared by every part of the polling engine: JavaScript's
    `undefined` as an Option, the change event handed to listeners, and two
    small helpers over maps and sequences. */
module Base {

  /** A value that may be JavaScript's `undefined` (`None`). */
  datatype Option<+T> = None | Some(value: T)

  /** A listener callback, identified the way `indexOf` identifies it: by
      reference, so two registrations of one function have the same id. */
  type Callback = int

  /** The object `emit` passes to every listener. */
  datatype Event = Event(path: string, mtime: Option<int>, lastMtime: Option<int>)

  /** One call of one listener with one event. */
  datatype Delivery = Delivery(listener: Callback, event: Event)

  /** `m[k]` read the JavaScript way: a missing key reads as `undefined`. */
  function Lookup<K, V>(m: map<K, V>, k: K): (r: Option<V>)
    ensures r.Some? <==> k in m
    ensures r.Some? ==> r.value == m[k]
  {
    if k in m then Some(m[k]) else None
  }

  /** `(m[k] || 0)`: a counter that reads as 0 while the key is absent. */
  function CountOf<K>(m: map<K, nat>, k: K): (n: nat)
  {
    if k in m then m[k] else 0
  }

  /** `x` repeated `n` times. */
  function Repeat<T>(x: T, n: nat): (r: seq<T>)
    ensures |r| == n
    ensures forall i :: 0 <= i < n ==> r[i] == x
  {
    if n == 0 then [] else Repeat(x, n - 1) + [x]
  }
}
