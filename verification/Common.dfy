/** Types that several modules share. */
module Common {

  datatype Option<+T> = None | Some(value: T)

  type byte = x: int | 0 <= x < 256

  function Zeros(n: nat): (z: seq<byte>)
    ensures |z| == n && forall i :: 0 <= i < n ==> z[i] == 0
  {
    if n == 0 then [] else Zeros(n - 1) + [0]
  }
}
