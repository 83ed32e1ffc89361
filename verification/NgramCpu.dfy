/** The CPU path of the n-gram ids: tokens are packed into one row per request, each row is
    hashed in place, and every token's id is read back from its cell. */
module NgramCpu {
  import opened NgramIds
  import opened Words
  import RS = RequestSearch

  /** `searchsorted(right=True) - 1` over the first `n` boundaries. */
  function LastAtMost(qsl: seq<int>, n: nat, t: int): (i: int)
    requires n <= |qsl|
    ensures -1 <= i < n
    ensures i >= 0 ==> qsl[i] <= t
    ensures forall k :: i < k < n ==> qsl[k] > t
  {
    if n == 0 then -1 else if qsl[n - 1] <= t then n - 1 else LastAtMost(qsl, n - 1, t)
  }

  /** The clamped search. */
  function RequestOf(qsl: seq<int>, t: nat): (r: int)
    requires RS.Boundaries(qsl)
    ensures Located(qsl, r, t)
  {
    var i := LastAtMost(qsl, |qsl|, t);
    if i <= |qsl| - 2 then i else |qsl| - 2
  }

  /** Token `t` of the flattened input has a cell in row `r`. */
  ghost predicate HasCell(input: seq<Word>, qsl: seq<int>, r: int, c: nat, upTo: nat)
    requires 0 <= r < |qsl| && upTo <= |input|
  {
    0 <= qsl[r] + c < upTo && Located(qsl, r, qsl[r] + c)
  }

  /** What row `r` should hold: the request's tokens, then `eos`. */
  ghost function PackedRow(input: seq<Word>, qsl: seq<int>, r: int, eos: Word): (row: seq<Word>)
    requires 0 <= r < |qsl|
    ensures |row| == |input|
  {
    seq(|input|, c requires 0 <= c < |input| =>
      if HasCell(input, qsl, r, c, |input|) then input[qsl[r] + c] else eos)
  }

  /** Row `r` of the packed tokens. */
  function RowOf(packed: array2<Word>, r: nat): (row: seq<Word>)
    requires r < packed.Length0
    reads packed
    ensures |row| == packed.Length1
    ensures forall c :: 0 <= c < packed.Length1 ==> row[c] == packed[r, c]
  {
    seq(packed.Length1, c requires 0 <= c < packed.Length1 reads packed => packed[r, c])
  }

  /** Pack the tokens: every cell starts as `eos`, then each token goes to its own. */
  method Pack(input: seq<Word>, qsl: seq<int>, eos: Word) returns (packed: array2<Word>)
    requires RS.Boundaries(qsl)
    ensures fresh(packed) && packed.Length0 == |qsl| - 1 && packed.Length1 == |input|
    ensures forall r :: 0 <= r < packed.Length0 ==> RowOf(packed, r) == PackedRow(input, qsl, r, eos)
  {
    packed := new Word[|qsl| - 1, |input|]((_, _) => eos);
    for t := 0 to |input|
      invariant forall r, c :: 0 <= r < packed.Length0 && 0 <= c < packed.Length1 ==>
        packed[r, c] == if HasCell(input, qsl, r, c, t) then input[qsl[r] + c] else eos
    {
      var r := RequestOf(qsl, t);
      var column := t - qsl[r];
      packed[r, column] := input[t];
      forall q | Located(qsl, q, t)
        ensures q == r
      {
        LocatedIsUnique(qsl, q, r, t);
      }
    }
  }

  /** The packed row begins with what the kernel sees of any of its tokens. */
  lemma SeenIsPrefix(input: seq<Word>, qsl: seq<int>, ctx: seq<seq<Word>>, r: int, t: nat, eos: Word)
    requires RS.Boundaries(qsl) && Located(qsl, r, t) && t < |input| && r < |ctx|
    ensures var row, n := ctx[r] + PackedRow(input, qsl, r, eos), |ctx[r]| + (t - qsl[r]) + 1;
            n <= |row| && row[..n] == Seen(input, qsl, ctx, r, t)
  {
    var packed := PackedRow(input, qsl, r, eos);
    var n := t - qsl[r] + 1;
    assert qsl[r] >= 0;
    forall c | 0 <= c < n
      ensures packed[c] == input[qsl[r]..t + 1][c]
    {
      assert HasCell(input, qsl, r, c, |input|);
    }
    assert packed[..n] == input[qsl[r]..t + 1];
    assert (ctx[r] + packed)[..|ctx[r]| + n] == ctx[r] + packed[..n];
  }

  /** The id read from a packed cell is the kernel's id of the token. */
  lemma PackedIdIsKernelId(tab: Table, input: seq<Word>, qsl: seq<int>, ctx: seq<seq<Word>>, r: int, t: nat, g: nat)
    requires tab.Valid() && RS.Boundaries(qsl) && Located(qsl, r, t) && t < |input| && g < |tab.sizes|
    requires r < |ctx| && |ctx[r]| == tab.ContextLen()
    ensures tab.sizes[g] >= 1 && 2 <= Order(g, tab.headsPerNgram) <= |tab.mult|
    ensures CpuId(ctx[r] + PackedRow(input, qsl, r, tab.eos), tab.ContextLen() + t - qsl[r], tab.mult,
                  Order(g, tab.headsPerNgram), tab.sizes[g], tab.offsets[g], tab.eos) ==
            KernelId(Seen(input, qsl, ctx, r, t), tab.ContextLen() + t - qsl[r], tab.mult,
                     Order(g, tab.headsPerNgram), tab.sizes[g], tab.offsets[g], tab.eos)
  {
    tab.OrderInRange(g);
    var row, seen := ctx[r] + PackedRow(input, qsl, r, tab.eos), Seen(input, qsl, ctx, r, t);
    var pos, order := tab.ContextLen() + t - qsl[r], Order(g, tab.headsPerNgram);
    SeenIsPrefix(input, qsl, ctx, r, t, tab.eos);
    assert row == seen + row[pos + 1..];
    KernelAgreesWithCpu(row, pos, tab.mult, order, tab.sizes[g], tab.offsets[g], tab.eos);
    MixIsCausal(seen, row[pos + 1..], pos, tab.mult, order, |tab.mult| - 1, tab.eos);
  }

  /** The ids of one token: all heads hash its packed row at its column. */
  method PackedIds(tab: Table, input: seq<Word>, qsl: seq<int>, ctx: seq<seq<Word>>, packed: array2<Word>, t: nat)
      returns (r: int, ids: seq<int>)
    requires tab.Valid() && RS.Boundaries(qsl) && t < |input|
    requires |ctx| >= |qsl| - 1 && forall i :: 0 <= i < |ctx| ==> |ctx[i]| == tab.ContextLen()
    requires packed.Length0 == |qsl| - 1
    requires forall q :: 0 <= q < packed.Length0 ==> RowOf(packed, q) == PackedRow(input, qsl, q, tab.eos)
    ensures Located(qsl, r, t) && |ids| == |tab.sizes|
    ensures forall g :: 0 <= g < |ids| ==>
      ids[g] == KernelId(Seen(input, qsl, ctx, r, t), tab.ContextLen() + t - qsl[r], tab.mult,
                         Order(g, tab.headsPerNgram), tab.sizes[g], tab.offsets[g], tab.eos)
  {
    r := RequestOf(qsl, t);
    var row, pos := ctx[r] + RowOf(packed, r), tab.ContextLen() + t - qsl[r];
    ids := [];
    for g := 0 to |tab.sizes|
      invariant |ids| == g
      invariant forall h :: 0 <= h < g ==>
        ids[h] == KernelId(Seen(input, qsl, ctx, r, t), pos, tab.mult,
                           Order(h, tab.headsPerNgram), tab.sizes[h], tab.offsets[h], tab.eos)
    {
      PackedIdIsKernelId(tab, input, qsl, ctx, r, t, g);
      ids := ids + [CpuId(row, pos, tab.mult, Order(g, tab.headsPerNgram), tab.sizes[g], tab.offsets[g], tab.eos)];
    }
  }

  /** The whole CPU path: row `t` of `out` gets the ids the kernel gives token `t`. */
  method CpuIds(tab: Table, input: seq<Word>, qsl: seq<int>, ctx: seq<seq<Word>>, out: array2<int>)
    requires tab.Valid() && RS.Boundaries(qsl)
    requires |ctx| >= |qsl| - 1 && forall i :: 0 <= i < |ctx| ==> |ctx[i]| == tab.ContextLen()
    requires out.Length0 == |input| && out.Length1 == |tab.sizes|
    modifies out
    ensures forall t, r, g :: 0 <= t < |input| && Located(qsl, r, t) && 0 <= g < out.Length1 ==>
      out[t, g] == KernelId(Seen(input, qsl, ctx, r, t), tab.ContextLen() + t - qsl[r], tab.mult,
                            Order(g, tab.headsPerNgram), tab.sizes[g], tab.offsets[g], tab.eos)
  {
    var packed := Pack(input, qsl, tab.eos);
    for t := 0 to |input|
      invariant forall q :: 0 <= q < packed.Length0 ==> RowOf(packed, q) == PackedRow(input, qsl, q, tab.eos)
      invariant forall u, r, g :: 0 <= u < t && Located(qsl, r, u) && 0 <= g < out.Length1 ==>
        out[u, g] == KernelId(Seen(input, qsl, ctx, r, u), tab.ContextLen() + u - qsl[r], tab.mult,
                              Order(g, tab.headsPerNgram), tab.sizes[g], tab.offsets[g], tab.eos)
    {
      var r, ids := PackedIds(tab, input, qsl, ctx, packed, t);
      forall g | 0 <= g < out.Length1 {
        out[t, g] := ids[g];
      }
      forall q | Located(qsl, q, t)
        ensures q == r
      {
        LocatedIsUnique(qsl, q, r, t);
      }
    }
  }
}
