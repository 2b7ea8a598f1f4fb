/** Copying bytes, as far as the heaps need it. */
module Bytes {

  /** The n bytes from hi on in d' are those from lo on in d. */
  ghost predicate Same(d: seq<int>, d': seq<int>, lo: int, hi: int, n: int)
  {
    0 <= lo && lo + n <= |d| && 0 <= hi && hi + n <= |d'| && forall x :: hi <= x < hi + n ==> d'[x] == d[x - hi + lo]
  }

  /** Only the n bytes from lo on may differ. */
  ghost predicate SameBut(d: seq<int>, d': seq<int>, lo: int, n: int)
  {
    |d| == |d'| && forall x :: 0 <= x < |d| && !(lo <= x < lo + n) ==> d'[x] == d[x]
  }

  /** rt_memcpy between two places that do not overlap. */
  method Copy(data: array<int>, dst: int, src: int, n: nat)
    requires 0 <= src && src + n <= data.Length && 0 <= dst && dst + n <= data.Length && (src + n <= dst || dst + n <= src)
    modifies data
    ensures Same(old(data[..]), data[..], src, dst, n) && SameBut(old(data[..]), data[..], dst, n)
  {
    var i := 0;
    while i < n
      invariant 0 <= i <= n
      invariant forall x :: dst <= x < dst + i ==> data[x] == old(data[x - dst + src])
      invariant forall x :: 0 <= x < data.Length && !(dst <= x < dst + i) ==> data[x] == old(data[x])
    {
      assert data[src + i] == old(data[src + i]);
      data[dst + i] := data[src + i];
      i := i + 1;
    }
  }
}
