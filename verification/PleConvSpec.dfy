/** What the dilated causal short convolution means on a whole token sequence, and
    what one chunk does to the rolling state window of a request (one channel). */
module PleConvSpec {

  datatype Mode = Decode | Spec | Prefill

  /** `k * d` by repeated addition; the proofs below never need more of a product. */
  function Times(k: nat, d: nat): nat {
    if k == 0 then 0 else Times(k - 1, d) + d
  }

  lemma {:induction false} TimesIsProduct(k: nat, d: nat)
    ensures Times(k, d) == k * d
  {
    if k > 0 {
      TimesIsProduct(k - 1, d);
      assert k * d == (k - 1) * d + d;
    }
  }

  /** `weights` holds the K taps of one channel. */
  datatype Filter = Filter(weights: seq<real>, dilation: nat) {
    predicate Valid() { |weights| >= 1 }

    /** Number of past inputs a token needs: (K - 1) * dilation. */
    function StateLen(): (n: nat)
      requires Valid()
    {
      Times(|weights| - 1, dilation)
    }

    /** Position, relative to the token, of tap `k`; the last tap is the token itself. */
    function Tap(k: nat): nat { Times(k, dilation) }
  }

  lemma {:induction false} ScaleIsMonotone(a: nat, b: nat, d: nat)
    requires a <= b
    ensures Times(a, d) <= Times(b, d)
  {
    if a < b {
      ScaleIsMonotone(a, b - 1, d);
    }
  }

  /** No tap lies beyond the token, and the last tap is the token. */
  lemma TapBound(f: Filter, k: nat)
    requires f.Valid() && k < |f.weights|
    ensures f.Tap(k) <= f.StateLen()
    ensures k == |f.weights| - 1 ==> f.Tap(k) == f.StateLen()
  {
    ScaleIsMonotone(k, |f.weights| - 1, f.dilation);
  }

  function Zeros(n: nat): (z: seq<real>)
    ensures |z| == n
  {
    seq(n, _ => 0.0)
  }

  /** Sum of the first `k` taps for the token whose oldest tap is `hist[p]`. */
  function Taps(f: Filter, hist: seq<real>, p: nat, k: nat): real
    requires f.Valid() && k <= |f.weights| && p + f.StateLen() < |hist|
  {
    if k == 0 then 0.0
    else
      TapBound(f, k - 1);
      Taps(f, hist, p, k - 1) + f.weights[k - 1] * hist[p + f.Tap(k - 1)]
  }

  /** The convolution output of the token at `hist[p + StateLen]`. */
  function Conv(f: Filter, hist: seq<real>, p: nat): real
    requires f.Valid() && p + f.StateLen() < |hist|
  {
    Taps(f, hist, p, |f.weights|)
  }

  /** Reference definition: position `p` of the convolution of the whole sequence `s`,
      with zeros before its first token. */
  function WholeConv(f: Filter, s: seq<real>, p: nat): real
    requires f.Valid() && p < |s|
  {
    Conv(f, Zeros(f.StateLen()) + s, p)
  }

  /** The taps of a token depend only on the stretch of history they lie in. */
  lemma {:induction false} TapsOfStretch(f: Filter, big: seq<real>, small: seq<real>, o: nat, p: nat, k: nat)
    requires f.Valid() && k <= |f.weights|
    requires p + f.StateLen() < |small| && o + |small| <= |big|
    requires big[o..o + |small|] == small
    ensures Taps(f, small, p, k) == Taps(f, big, o + p, k)
  {
    if k > 0 {
      TapBound(f, k - 1);
      TapsOfStretch(f, big, small, o, p, k - 1);
      assert small[p + f.Tap(k - 1)] == big[o..o + |small|][p + f.Tap(k - 1)];
    }
  }

  /** Causality: tokens after `p` never change output `p`. */
  lemma WholeConvIsCausal(f: Filter, s: seq<real>, more: seq<real>, p: nat)
    requires f.Valid() && p < |s|
    ensures WholeConv(f, s + more, p) == WholeConv(f, s, p)
  {
    var z := Zeros(f.StateLen());
    assert (z + (s + more))[0..|z + s|] == z + s;
    TapsOfStretch(f, z + (s + more), z + s, 0, p, |f.weights|);
  }

  // ---------------------------------------------------------------- one chunk
  // `L` is the filter's state length throughout.

  /** The history a kernel reads for a chunk: `L` state cells from offset `off`
      (zeros when the state must not be read), then the chunk itself. */
  function History(L: nat, window: seq<real>, off: nat, live: bool, chunk: seq<real>): (h: seq<real>)
    requires live ==> off + L <= |window|
    ensures |h| == L + |chunk|
  {
    (if live then window[off..off + L] else Zeros(L)) + chunk
  }

  /** Number of leading state cells that a chunk of `qlen` tokens rewrites. */
  function WriteCount(mode: Mode, L: nat, specQueryLen: nat, qlen: nat): nat {
    match mode
    case Decode => L
    case Prefill => if qlen == 0 then 0 else L
    case Spec =>
      var width := L + specQueryLen - 1;
      var filled := L + qlen - 1;
      if width < 0 || filled < 0 then 0 else if filled < width then filled else width
  }

  /** How far the kept window moves along the history. */
  function Shift(mode: Mode, qlen: nat): nat {
    if mode == Spec then 1 else qlen
  }

  /** The state window after the chunk: the simultaneous shift that the in-place
      loops must equal.  Cells past the rewritten part keep their contents. */
  function NextWindow(L: nat, mode: Mode, specQueryLen: nat, window: seq<real>, off: nat, live: bool,
                      chunk: seq<real>): (w: seq<real>)
    requires live ==> off + L <= |window|
    requires mode == Decode ==> |chunk| == 1
    ensures |w| == |window|
  {
    var h := History(L, window, off, live, chunk);
    var n := WriteCount(mode, L, specQueryLen, |chunk|);
    seq(|window|, i requires 0 <= i < |window| =>
      if i < n then h[Shift(mode, |chunk|) + i] else window[i])
  }

  /** One cell of the history, as the masked loads see it. */
  lemma HistoryCell(L: nat, window: seq<real>, off: nat, live: bool, chunk: seq<real>, at: nat)
    requires (live ==> off + L <= |window|) && at < L + |chunk|
    ensures History(L, window, off, live, chunk)[at] ==
            if at < L then (if live then window[off + at] else 0.0) else chunk[at - L]
  {
  }

  // ------------------------------------------------------- windows and sequences

  /** The last `L` inputs of `s` (zero padded). */
  function End(L: nat, s: seq<real>): (t: seq<real>)
    ensures |t| == L
  {
    (Zeros(L) + s)[|s|..]
  }

  /** `window`, read from `off`, is the end of `s`. */
  ghost predicate Remembers(L: nat, window: seq<real>, off: nat, s: seq<real>) {
    && off + L <= |window|
    && window[off..off + L] == End(L, s)
  }

  /** With a remembering window the chunk's history is the end of the whole history. */
  lemma HistoryIsSuffix(L: nat, window: seq<real>, off: nat, live: bool, s: seq<real>, chunk: seq<real>)
    requires if live then Remembers(L, window, off, s) else s == []
    ensures History(L, window, off, live, chunk) == (Zeros(L) + (s + chunk))[|s|..]
  {
    var z := Zeros(L);
    assert z + (s + chunk) == (z + s) + chunk;
    if !live {
      assert z + (s + chunk) == z + chunk;
    }
  }

  /** Every output of the chunk equals the whole-sequence convolution. */
  lemma ChunkOutput(f: Filter, window: seq<real>, off: nat, live: bool, s: seq<real>, chunk: seq<real>, j: nat)
    requires f.Valid() && (if live then Remembers(f.StateLen(), window, off, s) else s == [])
    requires j < |chunk|
    ensures Conv(f, History(f.StateLen(), window, off, live, chunk), j) == WholeConv(f, s + chunk, |s| + j)
  {
    HistoryIsSuffix(f.StateLen(), window, off, live, s, chunk);
    var whole := Zeros(f.StateLen()) + (s + chunk);
    var h := History(f.StateLen(), window, off, live, chunk);
    assert whole[|s|..|s| + |h|] == h;
    TapsOfStretch(f, whole, h, |s|, j, |f.weights|);
  }

  /** Read one cell per accepted token further on, the rewritten part of the window is
      the history moved by exactly the kept tokens. */
  lemma RewrittenCell(L: nat, mode: Mode, specQueryLen: nat, window: seq<real>, off: nat, live: bool,
                      chunk: seq<real>, kept: nat, i: nat)
    requires (live ==> off + L <= |window|) && (mode == Decode ==> |chunk| == 1)
    requires 1 <= kept <= |chunk| && i < L <= |window|
    requires if mode == Spec
             then |chunk| <= specQueryLen && L + specQueryLen - 1 <= |window|
             else kept == |chunk|
    ensures var noff := if mode == Spec then kept - 1 else 0;
            NextWindow(L, mode, specQueryLen, window, off, live, chunk)[noff + i] ==
            History(L, window, off, live, chunk)[kept + i]
  {
    var noff := if mode == Spec then kept - 1 else 0;
    assert noff + i < WriteCount(mode, L, specQueryLen, |chunk|);
    assert noff + i < |window|;
    assert Shift(mode, |chunk|) + (noff + i) == kept + i;
  }

  lemma RewrittenStretch(L: nat, mode: Mode, specQueryLen: nat, window: seq<real>, off: nat, live: bool,
                         chunk: seq<real>, kept: nat, noff: nat)
    requires (live ==> off + L <= |window|) && (mode == Decode ==> |chunk| == 1)
    requires 1 <= kept <= |chunk| && L <= |window|
    requires if mode == Spec
             then |chunk| <= specQueryLen && L + specQueryLen - 1 <= |window|
             else kept == |chunk|
    requires noff == if mode == Spec then kept - 1 else 0
    ensures noff + L <= |window|
    ensures NextWindow(L, mode, specQueryLen, window, off, live, chunk)[noff..noff + L] ==
            History(L, window, off, live, chunk)[kept..kept + L]
  {
    var a := NextWindow(L, mode, specQueryLen, window, off, live, chunk)[noff..noff + L];
    var b := History(L, window, off, live, chunk)[kept..kept + L];
    forall i | 0 <= i < L
      ensures a[i] == b[i]
    {
      RewrittenCell(L, mode, specQueryLen, window, off, live, chunk, kept, i);
    }
  }

  lemma SuffixOfKept(z: seq<real>, s: seq<real>, chunk: seq<real>, kept: nat)
    requires kept <= |chunk|
    ensures (z + (s + chunk))[|s|..][kept..kept + |z|] == (z + (s + chunk[..kept]))[|s| + kept..]
  {
    assert (z + (s + chunk))[..|z| + |s| + kept] == z + (s + chunk[..kept]);
  }

  /** The history, moved by the kept tokens, starts with the end of the kept sequence. */
  lemma KeptStretch(L: nat, window: seq<real>, off: nat, live: bool, s: seq<real>, chunk: seq<real>, kept: nat)
    requires if live then Remembers(L, window, off, s) else s == []
    requires kept <= |chunk|
    ensures History(L, window, off, live, chunk)[kept..kept + L] == End(L, s + chunk[..kept])
  {
    HistoryIsSuffix(L, window, off, live, s, chunk);
    SuffixOfKept(Zeros(L), s, chunk, kept);
  }

  /** After the chunk the window remembers the sequence extended by the kept tokens:
      all of them, or any accepted prefix of a speculative chunk. */
  lemma ChunkState(L: nat, mode: Mode, specQueryLen: nat, window: seq<real>, off: nat, live: bool,
                   s: seq<real>, chunk: seq<real>, kept: nat)
    requires if live then Remembers(L, window, off, s) else s == []
    requires 1 <= kept <= |chunk| && L <= |window|
    requires mode == Decode ==> |chunk| == 1
    requires if mode == Spec
             then |chunk| <= specQueryLen && L + specQueryLen - 1 <= |window|
             else kept == |chunk|
    ensures Remembers(L, NextWindow(L, mode, specQueryLen, window, off, live, chunk),
                      if mode == Spec then kept - 1 else 0, s + chunk[..kept])
  {
    var noff := if mode == Spec then kept - 1 else 0;
    RewrittenStretch(L, mode, specQueryLen, window, off, live, chunk, kept, noff);
    KeptStretch(L, window, off, live, s, chunk, kept);
  }

  /** The rollback offset of the kernels. */
  function SlotOffset(mode: Mode, numAcc: int, specQueryLen: nat): (off: nat)
    requires specQueryLen >= 1
    ensures off <= specQueryLen - 1
    ensures mode != Spec ==> off == 0
    ensures mode == Spec && 1 <= numAcc <= specQueryLen ==> off == numAcc - 1
  {
    if mode != Spec then 0
    else
      var back := if numAcc - 1 > 0 then numAcc - 1 else 0;
      if back < specQueryLen - 1 then back else specQueryLen - 1
  }

  /** Whole-sequence outputs of a chunk that follows `s`. */
  function WholeOutputs(f: Filter, s: seq<real>, chunk: seq<real>): (outs: seq<real>)
    requires f.Valid()
    ensures |outs| == |chunk|
  {
    seq(|chunk|, j requires 0 <= j < |chunk| => WholeConv(f, s + chunk, |s| + j))
  }

  /** Outputs of a chunk followed by outputs of the rest. */
  lemma WholeOutputsJoin(f: Filter, s: seq<real>, chunk: seq<real>, more: seq<real>)
    requires f.Valid()
    ensures WholeOutputs(f, s, chunk) + WholeOutputs(f, s + chunk, more) == WholeOutputs(f, s, chunk + more)
  {
    var joined := WholeOutputs(f, s, chunk) + WholeOutputs(f, s + chunk, more);
    assert s + (chunk + more) == (s + chunk) + more;
    forall p | 0 <= p < |joined|
      ensures joined[p] == WholeConv(f, s + (chunk + more), |s| + p)
    {
      if p < |chunk| {
        WholeConvIsCausal(f, s + chunk, more, |s| + p);
      }
    }
  }
}
