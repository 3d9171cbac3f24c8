/** Small shared vocabulary: an optional value, an octet and sequence reversal. */
module Common {

  /** A value that may be absent: the `None` of the Python code. */
  datatype Option<+T> = None | Some(value: T)

  /** One octet, as held in a Python `bytes` object. */
  newtype byte = x: int | 0 <= x < 256

  /** The reversal of `s`: its entries from last to first. */
  function Reversed<T>(s: seq<T>): (r: seq<T>)
    ensures |r| == |s|
    ensures forall i :: 0 <= i < |s| ==> r[i] == s[|s| - 1 - i]
  {
    if s == [] then [] else Reversed(s[1..]) + [s[0]]
  }
}
