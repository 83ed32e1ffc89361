/** The branch-free search by which the PLE kernels find the request that owns a
    flattened token.  The loop runs a fixed number of halvings and has no exit
    test, so it may keep halving an interval that is already empty. */
module RequestSearch {

  /** Request boundaries: `qsl[r] .. qsl[r+1]` are the tokens of request `r`. */
  ghost predicate Boundaries(qsl: seq<int>) {
    && |qsl| >= 2
    && qsl[0] == 0
    && forall i, j :: 0 <= i <= j < |qsl| ==> qsl[i] <= qsl[j]
  }

  /** Python's `int.bit_length`. */
  function BitLength(n: nat): nat {
    if n == 0 then 0 else 1 + BitLength(n / 2)
  }

  /** The request whose (non-empty) range holds `t`. */
  ghost predicate Owns(qsl: seq<int>, r: int, t: int) {
    0 <= r < |qsl| - 1 && qsl[r] <= t < qsl[r + 1]
  }

  /** The kernel's loop.  `mid` may reach `numReqs + 1`; the masked load then
      yields 0. */
  method LocateRequest(qsl: seq<int>, t: nat, iters: nat) returns (r: int)
    requires Boundaries(qsl)
    requires iters >= BitLength(|qsl| - 1)
    ensures 0 <= r < |qsl| - 1
    ensures t < qsl[|qsl| - 1] ==> Owns(qsl, r, t)
    ensures t >= qsl[|qsl| - 1] ==> r == |qsl| - 2
  {
    var numReqs := |qsl| - 1;
    var lo, hi := 1, numReqs + 1;
    ghost var left: nat := numReqs;
    for i := 0 to iters
      invariant BitLength(left) <= if i <= BitLength(numReqs) then BitLength(numReqs) - i else 0
      invariant 1 <= hi <= numReqs + 1
      invariant hi <= numReqs ==> qsl[hi] > t
      invariant 1 <= lo
      invariant forall k :: 0 <= k < lo && k <= numReqs ==> qsl[k] <= t
      invariant lo <= hi || hi == numReqs + 1
      invariant hi - lo <= left
    {
      var mid := (lo + hi) / 2;
      var qmid := if mid <= numReqs then qsl[mid] else 0;
      var pred := qmid <= t;
      if pred {
        lo := mid + 1;
      } else {
        hi := mid;
      }
      left := left / 2;
    }
    r := if lo - 1 <= numReqs - 1 then lo - 1 else numReqs - 1;
  }

  /** Boundaries that never decrease give a token at most one owner, so the
      contract of `LocateRequest` leaves one possible answer. */
  lemma OwnerIsUnique(qsl: seq<int>, r1: int, r2: int, t: int)
    requires Boundaries(qsl) && Owns(qsl, r1, t) && Owns(qsl, r2, t)
    ensures r1 == r2
  {
  }
}
