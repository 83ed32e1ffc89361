/** N-gram table ids: every head hashes the current token with up to order - 1
    predecessors.  Three definitions are related here: the GPU kernel, which walks
    predecessors across the chunk boundary; the CPU path, which shifts whole rows by
    segment; and the definition on the whole token sequence. */
module NgramIds {
  import opened Words
  import RS = RequestSearch

  // --------------------------------------------------------- predecessors of a token

  /** One of the `shift` tokens before position `pos` of `row` is `eos`. */
  ghost predicate Crosses(row: seq<Word>, pos: nat, shift: nat, eos: Word)
    requires shift <= pos < |row|
  {
    exists q :: pos - shift <= q < pos && row[q] == eos
  }

  /** Predecessor number `shift`, with everything at or before the nearest earlier
      `eos` replaced by `eos`. */
  ghost function Predecessor(row: seq<Word>, pos: nat, shift: nat, eos: Word): Word
    requires shift <= pos < |row|
  {
    if Crosses(row, pos, shift, eos) then eos else row[pos - shift]
  }

  /** The same on a whole sequence, whose first token is preceded by `eos` for ever. */
  ghost function WholePredecessor(s: seq<Word>, p: nat, shift: nat, eos: Word): Word
    requires p < |s|
  {
    if shift > p || (exists q :: p - shift <= q < p && s[q] == eos) then eos else s[p - shift]
  }

  function Fill(n: nat, w: Word): (f: seq<Word>)
    ensures |f| == n
  {
    seq(n, _ => w)
  }

  /** A saved context is the last `|ctx|` tokens before the chunk, `eos`-padded. */
  ghost predicate IsContext(ctx: seq<Word>, s: seq<Word>, eos: Word) {
    ctx == (Fill(|ctx|, eos) + s)[|s|..]
  }

  /** A chunk position sees through its saved context what the whole sequence holds. */
  lemma PredecessorAcrossChunks(ctx: seq<Word>, s: seq<Word>, chunk: seq<Word>, j: nat, shift: nat, eos: Word)
    requires IsContext(ctx, s, eos) && j < |chunk| && shift <= |ctx|
    ensures Predecessor(ctx + chunk, |ctx| + j, shift, eos) == WholePredecessor(s + chunk, |s| + j, shift, eos)
  {
    var row, whole := ctx + chunk, s + chunk;
    var pos, p := |ctx| + j, |s| + j;
    var d := |s| - |ctx|;
    forall q | pos - shift <= q <= pos
      ensures row[q] == if q + d >= 0 then whole[q + d] else eos
    {
      CellAcrossChunks(ctx, s, chunk, q, eos);
    }
    if shift > p {
      assert row[pos - shift] == eos;
    } else if w :| p - shift <= w < p && whole[w] == eos {
      assert row[w - d] == eos;
    }
  }

  lemma CellAcrossChunks(ctx: seq<Word>, s: seq<Word>, chunk: seq<Word>, q: nat, eos: Word)
    requires IsContext(ctx, s, eos) && q < |ctx| + |chunk|
    ensures var d := |s| - |ctx|;
            (ctx + chunk)[q] == if q + d >= 0 then (s + chunk)[q + d] else eos
  {
    if q < |ctx| {
      var f := Fill(|ctx|, eos) + s;
      assert ctx[q] == f[|s| + q];
    }
  }

  // --------------------------------------------------------------------------- hashes

  /** Hash of an n-gram of order `order` after `k` predecessors have been mixed in. */
  ghost function Mix(row: seq<Word>, pos: nat, mult: seq<Word>, order: nat, k: nat, eos: Word): Word
    requires k <= pos < |row| && k < |mult|
  {
    if k == 0 then Times(row[pos], mult[0])
    else Xor(Mix(row, pos, mult, order, k - 1, eos),
             if order > k then Times(Predecessor(row, pos, k, eos), mult[k]) else 0)
  }

  /** Order of head `g`. */
  function Order(g: nat, headsPerNgram: nat): nat
    requires headsPerNgram >= 1
  {
    g / headsPerNgram + 2
  }

  // ------------------------------------------------------------------- the CPU path

  /** Running maximum of the `eos` positions below `n`, or -1. */
  function LastEos(row: seq<Word>, n: nat, eos: Word): (m: int)
    requires n <= |row|
    ensures -1 <= m < n
    ensures m >= 0 ==> row[m] == eos
    ensures forall q :: m < q < n && q >= 0 ==> row[q] != eos
  {
    if n == 0 then -1 else if row[n - 1] == eos then n - 1 else LastEos(row, n - 1, eos)
  }

  /** A row shifted right by `shift`, with positions outside the token's segment
      replaced by `eos`. */
  function ShiftApply(row: seq<Word>, pos: nat, shift: nat, eos: Word): Word
    requires pos < |row|
  {
    if shift == 0 then row[pos]
    else
      var positionInSegment := pos - LastEos(row, pos, eos) - 1;
      if pos - shift >= 0 && positionInSegment >= shift then row[pos - shift] else eos
  }

  function CpuMix(row: seq<Word>, pos: nat, mult: seq<Word>, k: nat, eos: Word): Word
    requires pos < |row| && k < |mult|
  {
    if k == 0 then Times(ShiftApply(row, pos, 0, eos), mult[0])
    else Xor(CpuMix(row, pos, mult, k - 1, eos), Times(ShiftApply(row, pos, k, eos), mult[k]))
  }

  /** Id of a head of order `order` on the CPU path: floored remainder plus offset. */
  function CpuId(row: seq<Word>, pos: nat, mult: seq<Word>, order: nat, size: int, offset: int, eos: Word): int
    requires pos < |row| && 1 <= order <= |mult| && size >= 1
  {
    Signed(CpuMix(row, pos, mult, order - 1, eos)) % size + offset
  }

  /** The kernel's id: truncated remainder fixed up, after mixing every shift. */
  ghost function KernelId(row: seq<Word>, pos: nat, mult: seq<Word>, order: nat, size: int, offset: int,
                          eos: Word): (id: int)
    requires 1 <= |mult| <= pos + 1 && pos < |row| && size >= 1
    ensures offset <= id < offset + size
  {
    Slot(Signed(Mix(row, pos, mult, order, |mult| - 1, eos)), size) + offset
  }

  lemma {:induction false} KernelMixIsCpuMix(row: seq<Word>, pos: nat, mult: seq<Word>, order: nat, k: nat,
                                            eos: Word)
    requires k <= pos < |row| && k < |mult| && 1 <= order <= |mult|
    ensures Mix(row, pos, mult, order, k, eos) ==
            CpuMix(row, pos, mult, if k < order then k else order - 1, eos)
  {
    if k > 0 {
      KernelMixIsCpuMix(row, pos, mult, order, k - 1, eos);
      XorZero(Mix(row, pos, mult, order, k - 1, eos));
      if order > k {
        var last := LastEos(row, pos, eos);
        assert Crosses(row, pos, k, eos) <==> last >= pos - k;
      }
    }
  }

  /** GPU and CPU paths agree on every id. */
  lemma KernelAgreesWithCpu(row: seq<Word>, pos: nat, mult: seq<Word>, order: nat, size: int, offset: int,
                            eos: Word)
    requires 1 <= order <= |mult| <= pos + 1 && pos < |row| && size >= 1
    ensures KernelId(row, pos, mult, order, size, offset, eos) ==
            CpuId(row, pos, mult, order, size, offset, eos)
  {
    KernelMixIsCpuMix(row, pos, mult, order, |mult| - 1, eos);
    SlotIsFlooredRemainder(Signed(Mix(row, pos, mult, order, |mult| - 1, eos)), size);
  }

  // -------------------------------------------------------------- whole-sequence ids

  ghost function WholeMix(s: seq<Word>, p: nat, mult: seq<Word>, k: nat, eos: Word): Word
    requires p < |s| && k < |mult|
  {
    if k == 0 then Times(s[p], mult[0])
    else Xor(WholeMix(s, p, mult, k - 1, eos), Times(WholePredecessor(s, p, k, eos), mult[k]))
  }

  /** The id position `p` of the whole sequence should get. */
  ghost function WholeId(s: seq<Word>, p: nat, mult: seq<Word>, order: nat, size: int, offset: int,
                         eos: Word): int
    requires p < |s| && 1 <= order <= |mult| && size >= 1
  {
    Signed(WholeMix(s, p, mult, order - 1, eos)) % size + offset
  }

  lemma {:induction false} MixAcrossChunks(ctx: seq<Word>, s: seq<Word>, chunk: seq<Word>, j: nat, mult: seq<Word>,
                                          order: nat, k: nat, eos: Word)
    requires IsContext(ctx, s, eos) && j < |chunk| && k <= |ctx| && k < |mult| && 1 <= order <= |mult|
    ensures Mix(ctx + chunk, |ctx| + j, mult, order, k, eos) ==
            WholeMix(s + chunk, |s| + j, mult, if k < order then k else order - 1, eos)
  {
    if k > 0 {
      MixAcrossChunks(ctx, s, chunk, j, mult, order, k - 1, eos);
      XorZero(Mix(ctx + chunk, |ctx| + j, mult, order, k - 1, eos));
      PredecessorAcrossChunks(ctx, s, chunk, j, k, eos);
    }
  }

  /** Chunk invariance of n-gram ids. */
  lemma IdAcrossChunks(ctx: seq<Word>, s: seq<Word>, chunk: seq<Word>, j: nat, mult: seq<Word>,
                       order: nat, size: int, offset: int, eos: Word)
    requires IsContext(ctx, s, eos) && j < |chunk| && |mult| == |ctx| + 1 && 1 <= order <= |mult| && size >= 1
    ensures KernelId(ctx + chunk, |ctx| + j, mult, order, size, offset, eos) ==
            WholeId(s + chunk, |s| + j, mult, order, size, offset, eos)
  {
    MixAcrossChunks(ctx, s, chunk, j, mult, order, |mult| - 1, eos);
    SlotIsFlooredRemainder(Signed(Mix(ctx + chunk, |ctx| + j, mult, order, |mult| - 1, eos)), size);
  }

  /** Later tokens never change an id of the whole sequence. */
  lemma {:induction false} WholeMixIsCausal(s: seq<Word>, more: seq<Word>, p: nat, mult: seq<Word>, k: nat, eos: Word)
    requires p < |s| && k < |mult|
    ensures WholeMix(s + more, p, mult, k, eos) == WholeMix(s, p, mult, k, eos)
  {
    if k > 0 {
      WholeMixIsCausal(s, more, p, mult, k - 1, eos);
      assert forall q :: 0 <= q <= p ==> (s + more)[q] == s[q];
    }
  }

  // ------------------------------------------------------------ a run of chunks

  /** The context saved after a chunk: as many tokens as before, up to the chunk's last. */
  function NextContext(ctx: seq<Word>, chunk: seq<Word>): (next: seq<Word>)
    ensures |next| == |ctx|
  {
    (ctx + chunk)[|chunk|..]
  }

  /** It is the context of the sequence with the chunk. */
  lemma ContextAfterChunk(ctx: seq<Word>, s: seq<Word>, chunk: seq<Word>, eos: Word)
    requires IsContext(ctx, s, eos)
    ensures IsContext(NextContext(ctx, chunk), s + chunk, eos)
  {
    var f := Fill(|ctx|, eos);
    assert f + (s + chunk) == (f + s) + chunk;
  }

  function Joined(chunks: seq<seq<Word>>): seq<Word> {
    if chunks == [] then [] else Joined(chunks[..|chunks| - 1]) + chunks[|chunks| - 1]
  }

  /** The context of a request after its first chunks, starting from nothing but `eos`. */
  function SavedContext(length: nat, chunks: seq<seq<Word>>, eos: Word): (ctx: seq<Word>)
    ensures |ctx| == length
  {
    if chunks == [] then Fill(length, eos)
    else NextContext(SavedContext(length, chunks[..|chunks| - 1], eos), chunks[|chunks| - 1])
  }

  lemma {:induction false} SavedIsContext(length: nat, chunks: seq<seq<Word>>, eos: Word)
    ensures IsContext(SavedContext(length, chunks, eos), Joined(chunks), eos)
  {
    if chunks != [] {
      var n := |chunks| - 1;
      SavedIsContext(length, chunks[..n], eos);
      ContextAfterChunk(SavedContext(length, chunks[..n], eos), Joined(chunks[..n]), chunks[n], eos);
    }
  }

  lemma {:induction false} JoinedExtends(chunks: seq<seq<Word>>, n: nat)
    requires n <= |chunks|
    ensures |Joined(chunks[..n])| <= |Joined(chunks)| && Joined(chunks)[..|Joined(chunks[..n])|] == Joined(chunks[..n])
    decreases |chunks|
  {
    if n == |chunks| {
      assert chunks[..n] == chunks;
    } else {
      var shorter := chunks[..|chunks| - 1];
      JoinedExtends(shorter, n);
      assert shorter[..n] == chunks[..n];
    }
  }

  /** However a sequence is cut into chunks, an id computed from its chunk and the context
      saved before it is the id of the whole sequence. */
  lemma RunIdIsWholeId(chunks: seq<seq<Word>>, n: nat, j: nat, mult: seq<Word>, order: nat, size: int, offset: int,
                       eos: Word)
    requires n < |chunks| && j < |chunks[n]| && 1 <= order <= |mult| && size >= 1
    ensures |Joined(chunks[..n])| + j < |Joined(chunks)|
    ensures KernelId(SavedContext(|mult| - 1, chunks[..n], eos) + chunks[n], |mult| - 1 + j, mult, order, size, offset,
                     eos) ==
            WholeId(Joined(chunks), |Joined(chunks[..n])| + j, mult, order, size, offset, eos)
  {
    var s, all := Joined(chunks[..n]), Joined(chunks);
    SavedIsContext(|mult| - 1, chunks[..n], eos);
    IdAcrossChunks(SavedContext(|mult| - 1, chunks[..n], eos), s, chunks[n], j, mult, order, size, offset, eos);
    assert chunks[..n + 1][..n] == chunks[..n];
    JoinedExtends(chunks, n + 1);
    assert all == (s + chunks[n]) + all[|s + chunks[n]|..];
    WholeMixIsCausal(s + chunks[n], all[|s + chunks[n]|..], |s| + j, mult, order - 1, eos);
  }

  /** An id looks only backwards, so padding and later tokens never matter. */
  lemma {:induction false} MixIsCausal(row: seq<Word>, more: seq<Word>, pos: nat, mult: seq<Word>, order: nat,
                                      k: nat, eos: Word)
    requires k <= pos < |row| && k < |mult|
    ensures Mix(row + more, pos, mult, order, k, eos) == Mix(row, pos, mult, order, k, eos)
  {
    if k > 0 {
      MixIsCausal(row, more, pos, mult, order, k - 1, eos);
      assert forall q :: 0 <= q <= pos ==> (row + more)[q] == row[q];
      assert Crosses(row + more, pos, k, eos) <==> Crosses(row, pos, k, eos);
    }
  }

  // -------------------------------------------------------------------- the kernel

  /** Table layout of one layer. */
  datatype Table = Table(mult: seq<Word>, sizes: seq<int>, offsets: seq<int>, headsPerNgram: nat, eos: Word) {
    /** Number of predecessors a hash may use. */
    function ContextLen(): int { |mult| - 1 }

    ghost predicate Valid() {
      && |mult| >= 1 && headsPerNgram >= 1
      && |sizes| == |offsets| == ContextLen() * headsPerNgram
      && forall g :: 0 <= g < |sizes| ==> sizes[g] >= 1
    }

    /** Head `g` has an order between 2 and the n-gram size. */
    lemma OrderInRange(g: nat)
      requires Valid() && g < |sizes|
      ensures 2 <= Order(g, headsPerNgram) <= |mult|
    {
      var o := g / headsPerNgram;
      assert g == o * headsPerNgram + g % headsPerNgram;
      if o >= ContextLen() {
        Scale(ContextLen(), o, headsPerNgram);
      }
    }

    static lemma Scale(a: int, b: int, k: nat)
      requires a <= b
      ensures a * k <= b * k
    {
    }
  }

  /** The request a token is taken to belong to: the one whose range holds it, or the last
      one for a token past the end. */
  ghost predicate Located(qsl: seq<int>, r: int, t: int) {
    0 <= r < |qsl| - 1 && qsl[r] <= t && (r < |qsl| - 2 ==> t < qsl[r + 1])
  }

  lemma LocatedIsUnique(qsl: seq<int>, q: int, r: int, t: int)
    requires RS.Boundaries(qsl) && Located(qsl, q, t) && Located(qsl, r, t)
    ensures q == r
  {
  }

  /** What the kernel sees of a token: its request's context and the chunk so far. */
  ghost function Seen(input: seq<Word>, qsl: seq<int>, ctx: seq<seq<Word>>, r: int, t: nat): seq<Word>
    requires 0 <= r < |ctx| && r < |qsl| && t < |input| && 0 <= qsl[r] <= t
  {
    ctx[r] + input[qsl[r]..t + 1]
  }

  /** Mix a term into the heads whose order reaches back `shift` tokens. */
  function AddTerm(mixed: seq<Word>, headsPerNgram: nat, shift: nat, term: Word): (m: seq<Word>)
    requires headsPerNgram >= 1
    ensures |m| == |mixed|
    ensures forall g :: 0 <= g < |m| ==>
      m[g] == Xor(mixed[g], if Order(g, headsPerNgram) > shift then term else 0)
  {
    seq(|mixed|, g requires 0 <= g < |mixed| =>
      Xor(mixed[g], if Order(g, headsPerNgram) > shift then term else 0))
  }

  /** Where the kernel finds predecessor `shift`. */
  lemma SeenCell(input: seq<Word>, qsl: seq<int>, ctx: seq<seq<Word>>, r: int, t: nat, shift: nat)
    requires 0 <= r < |ctx| && r < |qsl| && t < |input| && 0 <= qsl[r] <= t && shift <= |ctx[r]|
    ensures var j := t - qsl[r];
            Seen(input, qsl, ctx, r, t)[|ctx[r]| + j - shift] ==
            if j >= shift then input[t - shift] else ctx[r][|ctx[r]| - shift + j]
  {
  }

  /** The tokens of request `r` in this launch. */
  function RequestTokens(input: seq<Word>, qsl: seq<int>, r: int): seq<Word>
    requires 0 <= r < |qsl| - 1
  {
    var end := if qsl[r + 1] < |input| then qsl[r + 1] else |input|;
    if 0 <= qsl[r] <= end then input[qsl[r]..end] else []
  }

  /** The id a head should give token `t` of request `r`, whose earlier tokens are `s`. */
  ghost function RequestId(tab: Table, input: seq<Word>, qsl: seq<int>, s: seq<Word>, r: int, t: nat, g: nat): int
    requires tab.Valid() && RS.Boundaries(qsl) && RS.Owns(qsl, r, t) && t < |input| && g < |tab.sizes|
  {
    tab.OrderInRange(g);
    WholeId(s + RequestTokens(input, qsl, r), |s| + t - qsl[r], tab.mult, Order(g, tab.headsPerNgram),
            tab.sizes[g], tab.offsets[g], tab.eos)
  }

  /** The kernel gives it that id when the context is the request's own. */
  lemma SeenIdIsRequestId(tab: Table, input: seq<Word>, qsl: seq<int>, ctx: seq<seq<Word>>, s: seq<Word>, r: int,
                          t: nat, g: nat)
    requires tab.Valid() && RS.Boundaries(qsl) && RS.Owns(qsl, r, t) && t < |input| && g < |tab.sizes|
    requires r < |ctx| && |ctx[r]| == tab.ContextLen() && IsContext(ctx[r], s, tab.eos)
    ensures tab.sizes[g] >= 1 && qsl[r] >= 0
    ensures KernelId(Seen(input, qsl, ctx, r, t), tab.ContextLen() + t - qsl[r], tab.mult,
                     Order(g, tab.headsPerNgram), tab.sizes[g], tab.offsets[g], tab.eos) ==
            RequestId(tab, input, qsl, s, r, t, g)
  {
    tab.OrderInRange(g);
    assert qsl[0] <= qsl[r];
    var chunk, tokens, order := input[qsl[r]..t + 1], RequestTokens(input, qsl, r), Order(g, tab.headsPerNgram);
    IdAcrossChunks(ctx[r], s, chunk, t - qsl[r], tab.mult, order, tab.sizes[g], tab.offsets[g], tab.eos);
    assert s + tokens == (s + chunk) + tokens[|chunk|..];
    WholeMixIsCausal(s + chunk, tokens[|chunk|..], |s| + t - qsl[r], tab.mult, order - 1, tab.eos);
  }

  /** One token program: find the request, mix predecessors newest first, and return the
      ids of all heads. */
  method TokenIds(tab: Table, input: seq<Word>, qsl: seq<int>, ctx: seq<seq<Word>>, iters: nat, t: nat)
    returns (r: int, ids: seq<int>)
    requires tab.Valid() && RS.Boundaries(qsl) && t < |input|
    requires |ctx| >= |qsl| - 1 && forall i :: 0 <= i < |ctx| ==> |ctx[i]| == tab.ContextLen()
    requires iters >= RS.BitLength(|qsl| - 1)
    ensures Located(qsl, r, t) && |ids| == |tab.sizes|
    ensures forall g :: 0 <= g < |ids| ==>
      ids[g] == KernelId(Seen(input, qsl, ctx, r, t), tab.ContextLen() + t - qsl[r], tab.mult,
                         Order(g, tab.headsPerNgram), tab.sizes[g], tab.offsets[g], tab.eos)
  {
    r := RS.LocateRequest(qsl, t, iters);
    var C := tab.ContextLen();
    var chunkPos := t - qsl[r];
    var heads := |tab.sizes|;
    ghost var row := Seen(input, qsl, ctx, r, t);
    ghost var pos := C + chunkPos;
    var mixed: seq<Word> := Fill(heads, Times(input[t], tab.mult[0]));
    var crossed := false;
    for shift := 1 to C + 1
      invariant |mixed| == heads
      invariant crossed <==> Crosses(row, pos, shift - 1, tab.eos)
      invariant forall g :: 0 <= g < heads ==>
        mixed[g] == Mix(row, pos, tab.mult, Order(g, tab.headsPerNgram), shift - 1, tab.eos)
    {
      var inStep := chunkPos >= shift;
      var ctxCol := C - shift + chunkPos;
      var candidate := if inStep then input[t - shift] else ctx[r][ctxCol];
      SeenCell(input, qsl, ctx, r, t, shift);
      candidate := if crossed then tab.eos else candidate;
      crossed := crossed || candidate == tab.eos;
      assert candidate == Predecessor(row, pos, shift, tab.eos);
      var term := Times(candidate, tab.mult[shift]);
      mixed := AddTerm(mixed, tab.headsPerNgram, shift, term);
    }
    ids := seq(heads, g requires 0 <= g < heads => Slot(Signed(mixed[g]), tab.sizes[g]) + tab.offsets[g]);
  }

  /** The launcher: row `t` of `out` gets the ids of token `t`.  Where the context of a
      request is that of its earlier tokens `whole[r]`, these are the ids of its whole
      sequence. */
  method ComputeIds(tab: Table, input: seq<Word>, qsl: seq<int>, ctx: seq<seq<Word>>, out: array2<int>,
                    ghost whole: seq<seq<Word>>)
    requires tab.Valid() && RS.Boundaries(qsl) && |whole| == |ctx|
    requires |ctx| >= |qsl| - 1 && forall i :: 0 <= i < |ctx| ==> |ctx[i]| == tab.ContextLen()
    requires out.Length0 == |input| && out.Length1 == |tab.sizes|
    modifies out
    ensures forall t, r, g :: 0 <= t < |input| && Located(qsl, r, t) && 0 <= g < out.Length1 ==>
      out[t, g] == KernelId(Seen(input, qsl, ctx, r, t), tab.ContextLen() + t - qsl[r], tab.mult,
                            Order(g, tab.headsPerNgram), tab.sizes[g], tab.offsets[g], tab.eos)
    ensures forall t, r, g :: (0 <= t < |input| && RS.Owns(qsl, r, t) && 0 <= g < out.Length1
                               && IsContext(ctx[r], whole[r], tab.eos)) ==>
      out[t, g] == RequestId(tab, input, qsl, whole[r], r, t, g)
    ensures forall t, g :: 0 <= t < |input| && 0 <= g < out.Length1 ==>
      tab.offsets[g] <= out[t, g] < tab.offsets[g] + tab.sizes[g]
  {
    var iters := RS.BitLength(|qsl| - 1);
    for t := 0 to |input|
      invariant forall u, r, g :: 0 <= u < t && Located(qsl, r, u) && 0 <= g < out.Length1 ==>
        out[u, g] == KernelId(Seen(input, qsl, ctx, r, u), tab.ContextLen() + u - qsl[r], tab.mult,
                              Order(g, tab.headsPerNgram), tab.sizes[g], tab.offsets[g], tab.eos)
      invariant forall u, g :: 0 <= u < t && 0 <= g < out.Length1 ==>
        tab.offsets[g] <= out[u, g] < tab.offsets[g] + tab.sizes[g]
    {
      var r, ids := TokenIds(tab, input, qsl, ctx, iters, t);
      forall g | 0 <= g < out.Length1 {
        out[t, g] := ids[g];
      }
      forall q | Located(qsl, q, t)
        ensures q == r
      {
        LocatedIsUnique(qsl, q, r, t);
      }
    }
    forall t: nat, r, g: nat | t < |input| && RS.Owns(qsl, r, t) && g < out.Length1
                               && IsContext(ctx[r], whole[r], tab.eos)
      ensures out[t, g] == RequestId(tab, input, qsl, whole[r], r, t, g)
    {
      SeenIdIsRequestId(tab, input, qsl, ctx, whole[r], r, t, g);
      assert Located(qsl, r, t);
    }
  }
}
