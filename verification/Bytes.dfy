/** Octets as the C sources see them (`pj_uint8_t`, `unsigned char`). */
module Bytes {
  type byte = x: int | 0 <= x < 256

  // Code of the first occurrence of `c` in `s`, or |s| when there is none.
  function IndexOf<T(==)>(s: seq<T>, c: T): (k: nat)
    ensures k <= |s|
    ensures c !in s[..k]
    ensures k < |s| ==> s[k] == c
  {
    if s == [] || s[0] == c then 0 else 1 + IndexOf(s[1..], c)
  }

  function Repeat<T>(x: T, n: nat): (s: seq<T>)
    ensures |s| == n && forall i :: 0 <= i < n ==> s[i] == x
  {
    seq(n, _ => x)
  }

  lemma AppendAssociates<T>(x: seq<T>, y: seq<T>, z: seq<T>)
    ensures (x + y) + z == x + (y + z)
  {
  }

  // A buffer that holds the first `at` items of `all` takes the next piece.
  lemma WriteAdvances<T>(all: seq<T>, was: seq<T>, before: seq<T>, after: seq<T>, at: nat, piece: seq<T>, rest: seq<T>)
    requires at <= |all| && at + |piece| <= |was| && all[at..] == piece + rest
    requires before == all[..at] + was[at..]
    requires after == before[..at] + piece + before[at + |piece|..]
    ensures at + |piece| <= |all| && all[at + |piece|..] == rest
    ensures after == all[..at + |piece|] + was[at + |piece|..]
  {
    assert all == all[..at] + (piece + rest);
  }
}
