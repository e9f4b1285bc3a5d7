/** Go's fixed-width integers, byte slices and error results, as the other modules use them. */
module GoTypes {

  type byte = x: int | 0 <= x < 256

  const TWO_31: int := 0x8000_0000
  const TWO_32: int := 0x1_0000_0000
  const TWO_63: int := 0x8000_0000_0000_0000
  const TWO_64: int := 0x1_0000_0000_0000_0000

  datatype Option<+T> = None | Some(value: T)

  datatype Result<+T, +E> = Ok(value: T) | Err(error: E)

  /** The value an int32 holds after arithmetic whose exact result is x. */
  function WrapInt32(x: int): (r: int)
    ensures -TWO_31 <= r < TWO_31 && (x - r) % TWO_32 == 0
    ensures -TWO_31 <= x < TWO_31 ==> r == x
  {
    var m := x % TWO_32;
    if m >= TWO_31 then m - TWO_32 else m
  }

  /** The int64 of a uint64. */
  function AsInt64(x: int): (r: int)
    requires 0 <= x < TWO_64
    ensures -TWO_63 <= r < TWO_63 && (r == x || r == x - TWO_64)
  {
    if x >= TWO_63 then x - TWO_64 else x
  }

  /** uint32 subtraction. */
  function SubUint32(a: int, b: int): (r: int)
    requires 0 <= a < TWO_32 && 0 <= b < TWO_32
    ensures 0 <= r < TWO_32 && (r == a - b || r == a - b + TWO_32)
  {
    (a - b) % TWO_32
  }

  /** uint64 subtraction. */
  function SubUint64(a: int, b: int): (r: int)
    requires 0 <= a < TWO_64 && 0 <= b < TWO_64
    ensures 0 <= r < TWO_64 && (r == a - b || r == a - b + TWO_64)
  {
    (a - b) % TWO_64
  }

  function Min(a: int, b: int): int {
    if a <= b then a else b
  }

  function Pow2(n: nat): (p: nat)
    ensures p >= 1
  {
    if n == 0 then 1 else 2 * Pow2(n - 1)
  }

  /** The parts of a stream laid end to end. */
  function Concat<T>(parts: seq<seq<T>>): seq<T> {
    if parts == [] then [] else Concat(parts[..|parts| - 1]) + parts[|parts| - 1]
  }

  lemma ConcatSnoc<T>(parts: seq<seq<T>>, part: seq<T>)
    ensures Concat(parts + [part]) == Concat(parts) + part
  {
    assert (parts + [part])[..|parts|] == parts;
  }

  lemma {:induction false} ConcatPrefix<T>(parts: seq<seq<T>>, k: nat)
    requires k <= |parts|
    ensures Concat(parts[..k]) <= Concat(parts)
  {
    if k < |parts| {
      var init := parts[..|parts| - 1];
      assert init[..k] == parts[..k];
      ConcatPrefix(init, k);
    } else {
      assert parts[..k] == parts;
    }
  }
}
