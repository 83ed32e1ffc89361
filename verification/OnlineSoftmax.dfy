/** One-query attention computed block by block with a running maximum, sum and
    accumulator, and its meaning: the softmax-weighted average of the value rows.
    Arithmetic is over reals; the exponential is any positive function that turns sums
    into products. */
module OnlineSoftmax {

  ghost predicate Positive(exp: real -> real, a: real) { exp(a) > 0.0 }

  ghost predicate SumToProduct(exp: real -> real, a: real, b: real) { exp(a + b) == exp(a) * exp(b) }

  ghost predicate IsExp(exp: real -> real) {
    && (forall a :: Positive(exp, a))
    && (forall a, b :: SumToProduct(exp, a, b))
  }

  /** A score or maximum: minus infinity, or a number. */
  datatype Ext = NegInf | Num(r: real)

  function MaxExt(a: Ext, b: Ext): (m: Ext)
    ensures m == a || m == b
    ensures a.Num? ==> m.Num? && m.r >= a.r
    ensures b.Num? ==> m.Num? && m.r >= b.r
  {
    if a.NegInf? then b
    else if b.NegInf? then a
    else if a.r >= b.r then a else b
  }

  /** exp(a - m); the exponential of minus infinity is 0.  `m` is a number here, so
      the undefined difference of two infinities never arises. */
  function ExpDiff(exp: real -> real, a: Ext, m: Ext): real
    requires m.Num?
  {
    if a.NegInf? then 0.0 else exp(a.r - m.r)
  }

  // ---------------------------------------------------------------- direct softmax

  /** Sum of exp(score) over positions lo..hi. */
  function Weight(exp: real -> real, scores: seq<real>, lo: nat, hi: nat): real
    requires lo <= hi <= |scores|
    decreases hi - lo
  {
    if lo == hi then 0.0 else Weight(exp, scores, lo, hi - 1) + exp(scores[hi - 1])
  }

  /** Sum of exp(score) * value over positions lo..hi. */
  function Weighted(exp: real -> real, scores: seq<real>, values: seq<real>, lo: nat, hi: nat): real
    requires lo <= hi <= |scores| && |values| == |scores|
    decreases hi - lo
  {
    if lo == hi then 0.0 else Weighted(exp, scores, values, lo, hi - 1) + exp(scores[hi - 1]) * values[hi - 1]
  }

  lemma {:induction false} WeightPositive(exp: real -> real, scores: seq<real>, lo: nat, hi: nat)
    requires IsExp(exp) && lo <= hi <= |scores|
    ensures if lo == hi then Weight(exp, scores, lo, hi) == 0.0 else Weight(exp, scores, lo, hi) > 0.0
    decreases hi - lo
  {
    if lo < hi {
      WeightPositive(exp, scores, lo, hi - 1);
      assert Positive(exp, scores[hi - 1]);
    }
  }

  /** Softmax attention of one output dimension: zero when nothing is selected. */
  function Attention(exp: real -> real, scores: seq<real>, values: seq<real>, lo: nat, hi: nat): real
    requires lo <= hi <= |scores| && |values| == |scores|
    requires lo < hi ==> Weight(exp, scores, lo, hi) != 0.0
  {
    if lo == hi then 0.0 else Weighted(exp, scores, values, lo, hi) / Weight(exp, scores, lo, hi)
  }

  // ------------------------------------------------------------------------ scores

  /** Inner product of the first `n` dimensions. */
  function Dot(a: seq<real>, b: seq<real>, n: nat): real
    requires n <= |a| && n <= |b|
  {
    if n == 0 then 0.0 else Dot(a, b, n - 1) + a[n - 1] * b[n - 1]
  }

  /** Scaled scores of a query against every key row. */
  function Scores(query: seq<real>, keys: seq<seq<real>>, scale: real): (s: seq<real>)
    requires forall i :: 0 <= i < |keys| ==> |keys[i]| == |query|
    ensures |s| == |keys|
  {
    seq(|keys|, i requires 0 <= i < |keys| => Dot(query, keys[i], |query|) * scale)
  }

  function Column(values: seq<seq<real>>, dims: nat, d: nat): (c: seq<real>)
    requires d < dims && forall i :: 0 <= i < |values| ==> |values[i]| == dims
    ensures |c| == |values|
  {
    seq(|values|, i requires 0 <= i < |values| => values[i][d])
  }

  lemma {:induction false} WeightSplits(exp: real -> real, scores: seq<real>, lo: nat, mid: nat, hi: nat)
    requires lo <= mid <= hi <= |scores|
    ensures Weight(exp, scores, lo, hi) == Weight(exp, scores, lo, mid) + Weight(exp, scores, mid, hi)
    decreases hi - mid
  {
    if mid < hi {
      WeightSplits(exp, scores, lo, mid, hi - 1);
    }
  }

  lemma {:induction false} WeightedSplits(exp: real -> real, scores: seq<real>, values: seq<real>,
                                         lo: nat, mid: nat, hi: nat)
    requires lo <= mid <= hi <= |scores| && |values| == |scores|
    ensures Weighted(exp, scores, values, lo, hi) ==
            Weighted(exp, scores, values, lo, mid) + Weighted(exp, scores, values, mid, hi)
    decreases hi - mid
  {
    if mid < hi {
      WeightedSplits(exp, scores, values, lo, mid, hi - 1);
    }
  }

  // -------------------------------------------------------- one block of the kernel

  /** Lanes of the block that starts at `start`: minus infinity past the range. */
  function Lanes(scores: seq<real>, start: nat, hi: nat, block: nat): (l: seq<Ext>)
    requires hi <= |scores|
    ensures |l| == block
  {
    seq(block, i requires 0 <= i < block => if start + i < hi then Num(scores[start + i]) else NegInf)
  }

  function Stop(start: nat, n: nat, hi: nat): nat { if start + n < hi then start + n else hi }

  method MaxLane(lanes: seq<Ext>) returns (m: Ext)
    ensures forall i :: 0 <= i < |lanes| && lanes[i].Num? ==> m.Num? && lanes[i].r <= m.r
    ensures m.Num? ==> m in lanes
  {
    m := NegInf;
    for i := 0 to |lanes|
      invariant forall k :: 0 <= k < i && lanes[k].Num? ==> m.Num? && lanes[k].r <= m.r
      invariant m.Num? ==> m in lanes
    {
      m := MaxExt(m, lanes[i]);
    }
  }

  function Probabilities(exp: real -> real, lanes: seq<Ext>, m: Ext): (p: seq<real>)
    requires m.Num?
    ensures |p| == |lanes|
  {
    seq(|lanes|, i requires 0 <= i < |lanes| => ExpDiff(exp, lanes[i], m))
  }

  function SumTo(p: seq<real>, n: nat): real
    requires n <= |p|
  {
    if n == 0 then 0.0 else SumTo(p, n - 1) + p[n - 1]
  }

  method Reduce(p: seq<real>) returns (sum: real)
    ensures sum == SumTo(p, |p|)
  {
    sum := 0.0;
    for i := 0 to |p|
      invariant sum == SumTo(p, i)
    {
      sum := sum + p[i];
    }
  }

  /** Lane-wise products with the masked value loads of one output dimension. */
  function LaneProducts(p: seq<real>, values: seq<real>, start: nat, hi: nat): (q: seq<real>)
    requires hi <= |values|
    ensures |q| == |p|
  {
    seq(|p|, i requires 0 <= i < |p| => p[i] * (if start + i < hi then values[start + i] else 0.0))
  }

  lemma ExpRestores(exp: real -> real, a: real, m: real)
    requires IsExp(exp)
    ensures exp(a - m) * exp(m) == exp(a)
  {
    assert SumToProduct(exp, a - m, m);
    assert (a - m) + m == a;
  }

  lemma Distribute(a: real, b: real, e: real)
    ensures (a + b) * e == a * e + b * e
  {
  }

  lemma AddScaled(a: real, b: real, e: real, x: real, y: real)
    requires a * e == x && b * e == y
    ensures (a + b) * e == x + y
  {
    Distribute(a, b, e);
  }

  lemma Regroup(p: real, v: real, e: real)
    ensures (p * v) * e == (p * e) * v
  {
  }

  lemma LaneProductRestores(exp: real -> real, score: real, value: real, m: real)
    requires IsExp(exp)
    ensures (exp(score - m) * value) * exp(m) == exp(score) * value
  {
    Regroup(exp(score - m), value, exp(m));
    ExpRestores(exp, score, m);
  }

  /** A lane, scaled back, is its position's share of the direct sum of weights. */
  ghost predicate WeightLane(exp: real -> real, scores: seq<real>, start: nat, hi: nat, p: seq<real>, e: real,
                             i: nat)
    requires hi <= |scores| && i < |p|
  {
    p[i] * e == if start + i < hi then exp(scores[start + i]) else 0.0
  }

  /** A lane product, scaled back, is its position's share of the direct weighted sum. */
  ghost predicate ValueLane(exp: real -> real, scores: seq<real>, values: seq<real>, start: nat, hi: nat,
                            q: seq<real>, e: real, i: nat)
    requires hi <= |scores| == |values| && i < |q|
  {
    q[i] * e == if start + i < hi then exp(scores[start + i]) * values[start + i] else 0.0
  }

  lemma LanesRestore(exp: real -> real, scores: seq<real>, values: seq<real>, start: nat, hi: nat,
                     block: nat, m: Ext)
    requires IsExp(exp) && start <= hi <= |scores| && |values| == |scores| && m.Num?
    ensures var p := Probabilities(exp, Lanes(scores, start, hi, block), m);
            var q := LaneProducts(p, values, start, hi);
            forall i :: 0 <= i < block ==>
              WeightLane(exp, scores, start, hi, p, exp(m.r), i) &&
              ValueLane(exp, scores, values, start, hi, q, exp(m.r), i)
  {
    var p := Probabilities(exp, Lanes(scores, start, hi, block), m);
    var q := LaneProducts(p, values, start, hi);
    forall i | 0 <= i < block
      ensures WeightLane(exp, scores, start, hi, p, exp(m.r), i)
      ensures ValueLane(exp, scores, values, start, hi, q, exp(m.r), i)
    {
      if start + i < hi {
        ExpRestores(exp, scores[start + i], m.r);
        LaneProductRestores(exp, scores[start + i], values[start + i], m.r);
      }
    }
  }

  lemma {:induction false} BlockWeight(exp: real -> real, scores: seq<real>, start: nat, hi: nat, p: seq<real>,
                                      e: real, n: nat)
    requires start <= hi <= |scores| && n <= |p|
    requires forall i :: 0 <= i < n ==> WeightLane(exp, scores, start, hi, p, e, i)
    ensures SumTo(p, n) * e == Weight(exp, scores, start, Stop(start, n, hi))
  {
    if n > 0 {
      BlockWeight(exp, scores, start, hi, p, e, n - 1);
      assert WeightLane(exp, scores, start, hi, p, e, n - 1);
      AddScaled(SumTo(p, n - 1), p[n - 1], e, Weight(exp, scores, start, Stop(start, n - 1, hi)),
                if start + (n - 1) < hi then exp(scores[start + (n - 1)]) else 0.0);
    }
  }

  lemma {:induction false} BlockWeighted(exp: real -> real, scores: seq<real>, values: seq<real>, start: nat,
                                        hi: nat, q: seq<real>, e: real, n: nat)
    requires start <= hi <= |scores| == |values| && n <= |q|
    requires forall i :: 0 <= i < n ==> ValueLane(exp, scores, values, start, hi, q, e, i)
    ensures SumTo(q, n) * e == Weighted(exp, scores, values, start, Stop(start, n, hi))
  {
    if n > 0 {
      BlockWeighted(exp, scores, values, start, hi, q, e, n - 1);
      assert ValueLane(exp, scores, values, start, hi, q, e, n - 1);
      AddScaled(SumTo(q, n - 1), q[n - 1], e, Weighted(exp, scores, values, start, Stop(start, n - 1, hi)),
                if start + (n - 1) < hi then exp(scores[start + (n - 1)]) * values[start + (n - 1)] else 0.0);
    }
  }

  /** `add`, scaled to the maximum `m`, stands for `more`. */
  ghost predicate Restores(exp: real -> real, m: real, add: real, more: real) {
    add * exp(m) == more
  }

  lemma BlockWeightSum(exp: real -> real, scores: seq<real>, start: nat, hi: nat, block: nat, m: Ext)
    requires IsExp(exp) && start <= hi <= |scores| && m.Num?
    ensures Restores(exp, m.r, SumTo(Probabilities(exp, Lanes(scores, start, hi, block), m), block),
                     Weight(exp, scores, start, Stop(start, block, hi)))
  {
    LanesRestore(exp, scores, scores, start, hi, block, m);
    BlockWeight(exp, scores, start, hi, Probabilities(exp, Lanes(scores, start, hi, block), m), exp(m.r), block);
  }

  lemma BlockValueSum(exp: real -> real, scores: seq<real>, values: seq<real>, start: nat, hi: nat, block: nat,
                      m: Ext)
    requires IsExp(exp) && start <= hi <= |scores| == |values| && m.Num?
    ensures var p := Probabilities(exp, Lanes(scores, start, hi, block), m);
            Restores(exp, m.r, SumTo(LaneProducts(p, values, start, hi), block),
                     Weighted(exp, scores, values, start, Stop(start, block, hi)))
  {
    LanesRestore(exp, scores, values, start, hi, block, m);
    var p := Probabilities(exp, Lanes(scores, start, hi, block), m);
    BlockWeighted(exp, scores, values, start, hi, LaneProducts(p, values, start, hi), exp(m.r), block);
  }

  /** `part`, scaled to the running maximum, stands for `whole`. */
  ghost predicate Scaled(exp: real -> real, max: Ext, part: real, whole: real) {
    if max.NegInf? then part == 0.0 && whole == 0.0 else part * exp(max.r) == whole
  }

  /** Rescaling to a new maximum and adding a block keeps the representation. */
  method Rescale(exp: real -> real, max: Ext, newMax: Ext, part: real, add: real, ghost whole: real, ghost more: real)
    returns (next: real)
    requires IsExp(exp) && newMax.Num? && Scaled(exp, max, part, whole)
    requires Restores(exp, newMax.r, add, more)
    ensures Scaled(exp, newMax, next, whole + more)
  {
    var f := ExpDiff(exp, max, newMax);
    next := part * f + add;
    if max.Num? {
      ExpRestores(exp, max.r, newMax.r);
      assert (part * f) * exp(newMax.r) == part * (f * exp(newMax.r));
    }
    AddScaled(part * f, add, exp(newMax.r), whole, more);
  }

  lemma QuotientOfScaled(e: real, sum: real, acc: real, w: real, ww: real)
    requires e > 0.0 && w > 0.0 && sum * e == w && acc * e == ww
    ensures sum > 0.0 && acc / sum == ww / w
  {
    if sum <= 0.0 {
      NonPositiveProduct(sum, e);
    }
    var q := acc / sum;
    assert q * sum == acc;
    assert (q * sum) * e == q * (sum * e);
    assert ww == q * w;
  }

  lemma NonPositiveProduct(a: real, e: real)
    requires a <= 0.0 && e > 0.0
    ensures a * e <= 0.0
  {
  }

  // ------------------------------------------------------------------- the kernel

  /** Running maximum over the positions already visited. */
  ghost predicate IsMax(scores: seq<real>, lo: nat, hi: nat, m: Ext)
    requires hi <= |scores|
  {
    && (lo < hi ==> m.Num?)
    && (forall i :: lo <= i < hi ==> m.Num? && scores[i] <= m.r)
    && (m.Num? ==> exists i :: lo <= i < hi && scores[i] == m.r)
  }

  /** The loop state stands for the direct sums over positions lo..hi. */
  ghost predicate Tracks(exp: real -> real, scores: seq<real>, values: seq<seq<real>>, dims: nat, lo: nat,
                         hi: nat, max: Ext, sum: real, acc: seq<real>)
    requires lo <= hi <= |scores| == |values| && forall i :: 0 <= i < |values| ==> |values[i]| == dims
  {
    && IsMax(scores, lo, hi, max)
    && Scaled(exp, max, sum, Weight(exp, scores, lo, hi))
    && |acc| == dims
    && forall d :: 0 <= d < dims ==> TracksDim(exp, scores, Column(values, dims, d), lo, hi, max, acc[d])
  }

  ghost predicate TracksDim(exp: real -> real, scores: seq<real>, column: seq<real>, lo: nat, hi: nat, max: Ext,
                            acc: real)
    requires lo <= hi <= |scores| == |column|
  {
    Scaled(exp, max, acc, Weighted(exp, scores, column, lo, hi))
  }

  /** The sum update of one block. */
  method AddWeights(exp: real -> real, scores: seq<real>, lo: nat, start: nat, hi: nat, block: nat,
                    max: Ext, newMax: Ext, sum: real) returns (newSum: real)
    requires IsExp(exp) && lo <= start < hi <= |scores| && newMax.Num?
    requires Scaled(exp, max, sum, Weight(exp, scores, lo, start))
    ensures Scaled(exp, newMax, newSum, Weight(exp, scores, lo, Stop(start, block, hi)))
  {
    var blockSum := Reduce(Probabilities(exp, Lanes(scores, start, hi, block), newMax));
    ghost var stop := Stop(start, block, hi);
    BlockWeightSum(exp, scores, start, hi, block, newMax);
    newSum := Rescale(exp, max, newMax, sum, blockSum, Weight(exp, scores, lo, start),
                      Weight(exp, scores, start, stop));
    WeightSplits(exp, scores, lo, start, stop);
  }

  /** The accumulator update of one block in one output dimension. */
  method AddValues(exp: real -> real, scores: seq<real>, column: seq<real>, lo: nat, start: nat, hi: nat,
                   block: nat, max: Ext, newMax: Ext, acc: real) returns (newAcc: real)
    requires IsExp(exp) && lo <= start < hi <= |scores| == |column| && newMax.Num?
    requires TracksDim(exp, scores, column, lo, start, max, acc)
    ensures TracksDim(exp, scores, column, lo, Stop(start, block, hi), newMax, newAcc)
  {
    var p := Probabilities(exp, Lanes(scores, start, hi, block), newMax);
    var add := Reduce(LaneProducts(p, column, start, hi));
    ghost var stop := Stop(start, block, hi);
    BlockValueSum(exp, scores, column, start, hi, block, newMax);
    newAcc := Rescale(exp, max, newMax, acc, add, Weighted(exp, scores, column, lo, start),
                      Weighted(exp, scores, column, start, stop));
    WeightedSplits(exp, scores, column, lo, start, stop);
  }

  /** The loop body: the maximum is a number afterwards. */
  method Block(exp: real -> real, scores: seq<real>, values: seq<seq<real>>, dims: nat, lo: nat, start: nat,
               hi: nat, block: nat, max: Ext, sum: real, acc: seq<real>)
    returns (newMax: Ext, newSum: real, newAcc: seq<real>)
    requires IsExp(exp) && block >= 1 && lo <= start < hi <= |scores| == |values|
    requires forall i :: 0 <= i < |values| ==> |values[i]| == dims
    requires Tracks(exp, scores, values, dims, lo, start, max, sum, acc)
    ensures newMax.Num?
    ensures Tracks(exp, scores, values, dims, lo, Stop(start, block, hi), newMax, newSum, newAcc)
  {
    var lanes := Lanes(scores, start, hi, block);
    var blockMax := MaxLane(lanes);
    newMax := MaxExt(max, blockMax);
    MaxGrows(scores, lo, start, hi, block, max, blockMax);
    newSum := AddWeights(exp, scores, lo, start, hi, block, max, newMax, sum);
    newAcc := [];
    for d := 0 to dims
      invariant |newAcc| == d
      invariant forall e :: 0 <= e < d ==>
        TracksDim(exp, scores, Column(values, dims, e), lo, Stop(start, block, hi), newMax, newAcc[e])
    {
      var a := AddValues(exp, scores, Column(values, dims, d), lo, start, hi, block, max, newMax, acc[d]);
      newAcc := newAcc + [a];
    }
  }

  /** The block loop over a non-empty range. */
  method BlockLoop(exp: real -> real, scores: seq<real>, values: seq<seq<real>>, dims: nat, lo: nat, hi: nat,
                   block: nat)
    returns (max: Ext, sum: real, acc: seq<real>)
    requires IsExp(exp) && block >= 1 && (lo < hi ==> hi <= |scores|) && |scores| == |values|
    requires forall i :: 0 <= i < |values| ==> |values[i]| == dims
    ensures |acc| == dims
    ensures lo < hi ==> max.Num? && Tracks(exp, scores, values, dims, lo, hi, max, sum, acc)
  {
    max := NegInf;
    sum := 0.0;
    acc := seq(dims, _ => 0.0);
    var start := lo;
    while start < hi
      invariant lo <= start && |acc| == dims
      invariant lo < hi ==> Tracks(exp, scores, values, dims, lo, Stop(start, 0, hi), max, sum, acc)
      decreases hi - start
    {
      max, sum, acc := Block(exp, scores, values, dims, lo, start, hi, block, max, sum, acc);
      start := start + block;
    }
  }

  lemma FinalDim(exp: real -> real, scores: seq<real>, column: seq<real>, lo: nat, hi: nat, max: Ext, sum: real,
                 acc: real)
    requires IsExp(exp) && lo < hi <= |scores| == |column| && max.Num?
    requires Scaled(exp, max, sum, Weight(exp, scores, lo, hi))
    requires TracksDim(exp, scores, column, lo, hi, max, acc)
    ensures sum > 0.0 && Weight(exp, scores, lo, hi) > 0.0
    ensures acc / sum == Attention(exp, scores, column, lo, hi)
  {
    WeightPositive(exp, scores, lo, hi);
    assert Positive(exp, max.r);
    QuotientOfScaled(exp(max.r), sum, acc, Weight(exp, scores, lo, hi), Weighted(exp, scores, column, lo, hi));
  }

  /** One (sequence, query head) program computes direct softmax attention over the
      selected rows, and zeros when none is selected. */
  method Attend(exp: real -> real, query: seq<real>, keys: seq<seq<real>>, values: seq<seq<real>>,
                scale: real, kvStart: nat, kvEnd: nat, block: nat) returns (output: seq<real>)
    requires IsExp(exp) && block >= 1
    requires (kvStart < kvEnd ==> kvEnd <= |keys|) && |keys| == |values|
    requires forall i :: 0 <= i < |keys| ==> |keys[i]| == |query|
    requires forall i :: 0 <= i < |values| ==> |values[i]| == |query|
    ensures |output| == |query|
    ensures kvEnd <= kvStart ==> forall d :: 0 <= d < |query| ==> output[d] == 0.0
    ensures kvStart < kvEnd ==>
      var s := Scores(query, keys, scale);
      Weight(exp, s, kvStart, kvEnd) > 0.0 &&
      forall d :: 0 <= d < |query| ==>
        output[d] == Attention(exp, s, Column(values, |query|, d), kvStart, kvEnd)
  {
    var dims := |query|;
    var scores := Scores(query, keys, scale);
    var max, sum, acc := BlockLoop(exp, scores, values, dims, kvStart, kvEnd, block);
    var valid := kvEnd > kvStart && sum > 0.0;
    output := [];
    if kvStart < kvEnd {
      WeightPositive(exp, scores, kvStart, kvEnd);
    }
    for d := 0 to dims
      invariant |output| == d
      invariant kvEnd <= kvStart ==> forall e :: 0 <= e < d ==> output[e] == 0.0
      invariant kvStart < kvEnd ==> forall e :: 0 <= e < d ==>
        output[e] == Attention(exp, scores, Column(values, dims, e), kvStart, kvEnd)
    {
      if kvStart < kvEnd {
        FinalDim(exp, scores, Column(values, dims, d), kvStart, kvEnd, max, sum, acc[d]);
      }
      var quotient := acc[d] / (if valid then sum else 1.0);
      output := output + [if valid then quotient else 0.0];
    }
  }

  lemma MaxGrows(scores: seq<real>, lo: nat, start: nat, hi: nat, block: nat, max: Ext, blockMax: Ext)
    requires lo <= start < hi <= |scores| && block >= 1
    requires IsMax(scores, lo, start, max)
    requires var l := Lanes(scores, start, hi, block);
             (forall i :: 0 <= i < |l| && l[i].Num? ==> blockMax.Num? && l[i].r <= blockMax.r) &&
             (blockMax.Num? ==> blockMax in l)
    ensures IsMax(scores, lo, Stop(start, block, hi), MaxExt(max, blockMax))
  {
    var l := Lanes(scores, start, hi, block);
    var stop := Stop(start, block, hi);
    var m := MaxExt(max, blockMax);
    assert l[0].Num?;
    forall i | lo <= i < stop
      ensures m.Num? && scores[i] <= m.r
    {
      if i >= start {
        assert l[i - start] == Num(scores[i]);
      }
    }
    var k :| 0 <= k < |l| && l[k] == blockMax;
    assert scores[start + k] == blockMax.r;
  }

  // ------------------------------------------------------------------ the launcher

  /** The key/value head that serves a query head. */
  function KvHead(head: nat, qHeads: nat, kvHeads: nat): nat
    requires kvHeads >= 1 && qHeads / kvHeads >= 1
  {
    head / (qHeads / kvHeads)
  }

  /** Accepted head counts: every query head has an existing key/value head, and each
      key/value head serves qHeads / kvHeads consecutive query heads. */
  lemma KvHeadInRange(head: nat, qHeads: nat, kvHeads: nat)
    requires kvHeads >= 1 && qHeads % kvHeads == 0 && head < qHeads
    ensures qHeads / kvHeads >= 1
    ensures var per := qHeads / kvHeads;
            var g := KvHead(head, qHeads, kvHeads);
            g < kvHeads && g * per <= head < (g + 1) * per
  {
    var per := qHeads / kvHeads;
    assert qHeads == per * kvHeads;
    PositiveFactor(per, kvHeads);
    var g := head / per;
    assert head == g * per + head % per;
    if g >= kvHeads {
      ScaleUp(kvHeads, g, per);
    }
    assert (g + 1) * per == g * per + per;
  }

  lemma PositiveFactor(a: nat, b: nat)
    requires a * b > 0
    ensures a > 0
  {
  }

  lemma ScaleUp(a: nat, b: nat, k: nat)
    requires a <= b
    ensures a * k <= b * k
  {
  }

  /** With one query row per sequence the packed offsets are the identity: the program
      of sequence `i` reads query row `i` and writes output row `i`. */
  lemma {:induction false} OneQueryEach(cuQ: seq<int>, i: nat)
    requires |cuQ| >= 1 && cuQ[0] == 0 && cuQ[|cuQ| - 1] == |cuQ| - 1 && i < |cuQ|
    requires forall k :: 0 <= k < |cuQ| - 1 ==> cuQ[k + 1] - cuQ[k] <= 1
    ensures cuQ[i] == i
  {
    StepsUp(cuQ, 0, i);
    StepsUp(cuQ, i, |cuQ| - 1);
  }

  lemma {:induction false} StepsUp(cuQ: seq<int>, i: nat, j: nat)
    requires i <= j < |cuQ|
    requires forall k :: 0 <= k < |cuQ| - 1 ==> cuQ[k + 1] - cuQ[k] <= 1
    ensures cuQ[j] - cuQ[i] <= j - i
    decreases j - i
  {
    if i < j {
      StepsUp(cuQ, i, j - 1);
      assert cuQ[(j - 1) + 1] - cuQ[j - 1] <= 1;
    }
  }

  function Head(rows: seq<seq<seq<real>>>, h: nat): (r: seq<seq<real>>)
    requires forall i :: 0 <= i < |rows| ==> h < |rows[i]|
    ensures |r| == |rows|
    ensures forall i :: 0 <= i < |r| ==> r[i] == rows[i][h]
  {
    seq(|rows|, i requires 0 <= i < |rows| => rows[i][h])
  }

  ghost predicate Tensor(t: seq<seq<seq<real>>>, heads: nat, dim: nat) {
    forall i :: 0 <= i < |t| ==> |t[i]| == heads && forall h :: 0 <= h < heads ==> |t[i][h]| == dim
  }

  /** What the launcher accepted. */
  ghost predicate LaunchOk(q: seq<seq<seq<real>>>, k: seq<seq<seq<real>>>, v: seq<seq<seq<real>>>,
                           qHeads: nat, kvHeads: nat, dim: nat, cuK: seq<nat>) {
    && kvHeads >= 1 && qHeads % kvHeads == 0
    && Tensor(q, qHeads, dim) && Tensor(k, kvHeads, dim) && Tensor(v, kvHeads, dim) && |k| == |v|
    && |cuK| == |q| + 1 && forall i :: 0 <= i < |cuK| ==> cuK[i] <= |k|
  }

  /** Direct softmax attention of query `i`, head `h`, over the key range of sequence `i`. */
  ghost function Expected(exp: real -> real, q: seq<seq<seq<real>>>, k: seq<seq<seq<real>>>,
                          v: seq<seq<seq<real>>>, qHeads: nat, kvHeads: nat, dim: nat, cuK: seq<nat>,
                          scale: real, i: nat, h: nat): (row: seq<real>)
    requires IsExp(exp) && LaunchOk(q, k, v, qHeads, kvHeads, dim, cuK) && i < |q| && h < qHeads
    ensures |row| == dim
  {
    KvHeadInRange(h, qHeads, kvHeads);
    var g := KvHead(h, qHeads, kvHeads);
    var s := Scores(q[i][h], Head(k, g), scale);
    var lo, hi := cuK[i], cuK[i + 1];
    if hi <= lo then seq(dim, _ => 0.0)
    else
      WeightPositive(exp, s, lo, hi);
      seq(dim, d requires 0 <= d < dim => Attention(exp, s, Column(Head(v, g), dim, d), lo, hi))
  }

  /** All (sequence, head) programs. */
  method Launch(exp: real -> real, q: seq<seq<seq<real>>>, k: seq<seq<seq<real>>>, v: seq<seq<seq<real>>>,
                qHeads: nat, kvHeads: nat, dim: nat, cuQ: seq<int>, cuK: seq<nat>, scale: real,
                output: array3<real>)
    requires IsExp(exp) && LaunchOk(q, k, v, qHeads, kvHeads, dim, cuK)
    requires |cuQ| == |q| + 1 && cuQ[0] == 0 && cuQ[|q|] == |q|
    requires forall i :: 0 <= i < |cuQ| - 1 ==> cuQ[i + 1] - cuQ[i] <= 1
    requires output.Length0 == |q| && output.Length1 == qHeads && output.Length2 == dim
    modifies output
    ensures forall i, h, d :: 0 <= i < |q| && 0 <= h < qHeads && 0 <= d < dim ==>
      output[i, h, d] == Expected(exp, q, k, v, qHeads, kvHeads, dim, cuK, scale, i, h)[d]
  {
    for i := 0 to |q|
      invariant forall a, b, d :: 0 <= a < i && 0 <= b < qHeads && 0 <= d < dim ==>
        output[a, b, d] == Expected(exp, q, k, v, qHeads, kvHeads, dim, cuK, scale, a, b)[d]
    {
      OneQueryEach(cuQ, i);
      for h := 0 to qHeads
        invariant forall a, b, d :: 0 <= a <= i && 0 <= b < qHeads && 0 <= d < dim && (a < i || b < h) ==>
          output[a, b, d] == Expected(exp, q, k, v, qHeads, kvHeads, dim, cuK, scale, a, b)[d]
      {
        var row := Program(exp, q, k, v, qHeads, kvHeads, dim, cuK, scale, i, cuQ[i], h);
        forall d | 0 <= d < dim {
          output[cuQ[i], h, d] := row[d];
        }
      }
    }
  }

  /** The program of sequence `i` and head `h`, which reads query row `queryIdx`. */
  method Program(exp: real -> real, q: seq<seq<seq<real>>>, k: seq<seq<seq<real>>>, v: seq<seq<seq<real>>>,
                 qHeads: nat, kvHeads: nat, dim: nat, cuK: seq<nat>, scale: real, i: nat, queryIdx: nat, h: nat)
    returns (row: seq<real>)
    requires IsExp(exp) && LaunchOk(q, k, v, qHeads, kvHeads, dim, cuK) && i < |q| && h < qHeads
    requires queryIdx == i
    ensures row == Expected(exp, q, k, v, qHeads, kvHeads, dim, cuK, scale, i, h)
  {
    KvHeadInRange(h, qHeads, kvHeads);
    var g := KvHead(h, qHeads, kvHeads);
    row := Attend(exp, q[queryIdx][h], Head(k, g), Head(v, g), scale, cuK[i], cuK[i + 1], 64);
  }

  // ------------------------------------------------------------------- the entry point

  /** A tensor argument.  With three dimensions its rows are [tokens, heads, dim]. */
  datatype Argument = Argument(rank: nat, tokens: nat, heads: nat, dim: nat, rows: seq<seq<seq<real>>>)

  ghost predicate Shaped(a: Argument) {
    a.rank == 3 ==> |a.rows| == a.tokens && Tensor(a.rows, a.heads, a.dim)
  }

  datatype Check = Accepted | BadRank | BadMaxSeqlenQ | KvShapesDiffer | HeadDimsDiffer | DivisionByZero
                 | HeadsNotDivisible | BadCuSeqlensQ | BadCuSeqlensK

  /** The calls that pass the shape checks. */
  predicate Acceptable(q: Argument, k: Argument, v: Argument, cuQ: seq<int>, cuK: seq<int>, maxSeqlenQ: int) {
    && q.rank == k.rank == v.rank == 3 && maxSeqlenQ == 1
    && v.tokens == k.tokens && v.heads == k.heads && v.dim == k.dim == q.dim
    && k.heads >= 1 && q.heads % k.heads == 0
    && |cuQ| == |cuK| == q.tokens + 1
  }

  /** What nobody checks about the packed offsets: one query to a sequence, and key ranges
      inside the keys. */
  predicate OffsetsInRange(cuQ: seq<int>, cuK: seq<int>, queries: nat, keys: nat) {
    && |cuQ| == |cuK| == queries + 1 && cuQ[0] == 0 && cuQ[queries] == queries
    && (forall i :: 0 <= i < queries ==> cuQ[i + 1] - cuQ[i] <= 1)
    && (forall i :: 0 <= i < |cuK| ==> 0 <= cuK[i] <= keys)
  }

  /** Key offsets that are in range, as naturals. */
  function Naturals(offsets: seq<int>): (n: seq<nat>)
    requires forall i :: 0 <= i < |offsets| ==> offsets[i] >= 0
    ensures |n| == |offsets| && forall i :: 0 <= i < |n| ==> n[i] == offsets[i]
  {
    seq(|offsets|, i requires 0 <= i < |offsets| => offsets[i])
  }

  /** The whole call: the shape checks in order, then the launch into a fresh output of the
      query's shape.  It is accepted exactly when the arguments are acceptable, and every
      cell of the output is then direct softmax attention. */
  method QsaAttention(exp: real -> real, q: Argument, k: Argument, v: Argument, cuQ: seq<int>, cuK: seq<int>,
                      maxSeqlenQ: int, scale: real)
      returns (c: Check, output: array3<real>)
    requires IsExp(exp) && Shaped(q) && Shaped(k) && Shaped(v)
    requires Acceptable(q, k, v, cuQ, cuK, maxSeqlenQ) ==> OffsetsInRange(cuQ, cuK, q.tokens, k.tokens)
    ensures c.Accepted? <==> Acceptable(q, k, v, cuQ, cuK, maxSeqlenQ)
    ensures c.BadRank? <==> !(q.rank == k.rank == v.rank == 3)
    ensures c.DivisionByZero? <==>
            q.rank == k.rank == v.rank == 3 && maxSeqlenQ == 1 && v.tokens == k.tokens && v.heads == k.heads == 0
            && v.dim == k.dim == q.dim
    ensures c.Accepted? ==>
              && fresh(output) && output.Length0 == q.tokens && output.Length1 == q.heads && output.Length2 == q.dim
              && LaunchOk(q.rows, k.rows, v.rows, q.heads, k.heads, q.dim, Naturals(cuK))
              && forall i, h, d :: 0 <= i < q.tokens && 0 <= h < q.heads && 0 <= d < q.dim ==>
                   output[i, h, d] ==
                   Expected(exp, q.rows, k.rows, v.rows, q.heads, k.heads, q.dim, Naturals(cuK), scale, i, h)[d]
  {
    output := new real[0, 0, 0];
    if q.rank != 3 || k.rank != 3 || v.rank != 3 {
      return BadRank, output;
    }
    if maxSeqlenQ != 1 {
      return BadMaxSeqlenQ, output;
    }
    if (v.tokens, v.heads, v.dim) != (k.tokens, k.heads, k.dim) {
      return KvShapesDiffer, output;
    }
    if k.dim != q.dim {
      return HeadDimsDiffer, output;
    }
    if k.heads == 0 {
      return DivisionByZero, output;
    }
    if q.heads % k.heads != 0 {
      return HeadsNotDivisible, output;
    }
    if |cuQ| != q.tokens + 1 {
      return BadCuSeqlensQ, output;
    }
    if |cuK| != q.tokens + 1 {
      return BadCuSeqlensK, output;
    }
    output := new real[q.tokens, q.heads, q.dim];
    Launch(exp, q.rows, k.rows, v.rows, q.heads, k.heads, q.dim, cuQ, Naturals(cuK), scale, output);
    c := Accepted;
  }
}
