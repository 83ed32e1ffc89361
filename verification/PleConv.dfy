/** The short-convolution kernels: one program per token reads taps from the state
    pool or from the step's inputs, and a second kernel shifts the state in place
    (fused into the first for decode).  One channel; sums are over reals. */
module PleConv {
  import opened Options
  import opened PleConvSpec
  import RS = RequestSearch

  datatype Outcome = Done | WindowTooSmall | MissingArguments

  /** Arguments of one launch, as the kernels see them. */
  datatype Batch = Batch(mode: Mode, filter: Filter, specQueryLen: nat, qsl: seq<int>, stateIdx: seq<int>,
                         numAcc: seq<int>, hasInit: Option<seq<bool>>, tokenIdx: Option<seq<nat>>,
                         rows: nat, nullId: int)
  {
    function NumReqs(): nat { if mode == Decode then rows else |stateIdx| }

    /** Original row of logical row `t`. */
    function Tok(t: nat): nat
      requires tokenIdx.Some? ==> t < |tokenIdx.value|
    {
      if tokenIdx.Some? then tokenIdx.value[t] else t
    }

    predicate LayoutOk() {
      && filter.Valid() && specQueryLen >= 1 && (mode != Spec ==> specQueryLen == 1)
      && (tokenIdx.Some? ==> |tokenIdx.value| == rows)
      && NumReqs() <= |stateIdx|
      && (mode == Spec ==> |numAcc| >= NumReqs())
      && (hasInit.Some? ==> |hasInit.value| >= NumReqs())
      && (mode == Prefill ==> hasInit.Some?)
    }

    /** Request ranges: one row each for decode, `qsl` otherwise. */
    ghost predicate RangesOk() {
      mode != Decode ==> RS.Boundaries(qsl) && |qsl| == |stateIdx| + 1 && qsl[|qsl| - 1] <= rows
    }

    function Start(r: nat): int
      requires LayoutOk() && RangesOk() && r < NumReqs()
    {
      if mode == Decode then r else qsl[r]
    }

    function Len(r: nat): nat
      requires LayoutOk() && RangesOk() && r < NumReqs()
    {
      if mode == Decode then 1 else qsl[r + 1] - qsl[r]
    }

    /** Rows at or past this one belong to no request. */
    function Total(): nat
      requires LayoutOk() && RangesOk()
    {
      if mode == Decode then rows else qsl[|qsl| - 1]
    }

    predicate StateOk(r: nat)
      requires LayoutOk() && r < NumReqs()
    {
      stateIdx[r] != nullId
    }

    /** Whether the request's state may be read. */
    predicate Live(r: nat)
      requires LayoutOk() && r < NumReqs()
    {
      StateOk(r) && (mode == Spec || hasInit.None? || hasInit.value[r])
    }

    /** Whether the request's rows get an output: a speculative chunk needs no state. */
    predicate OutOk(r: nat)
      requires LayoutOk() && r < NumReqs()
    {
      mode == Spec || StateOk(r)
    }

    function Offset(r: nat): nat
      requires LayoutOk() && r < NumReqs()
    {
      SlotOffset(mode, if mode == Spec then numAcc[r] else 1, specQueryLen)
    }

    /** Every row names a distinct input and output row. */
    ghost predicate RowsOk(inputs: int, outputs: int)
      requires LayoutOk()
    {
      && (forall t :: 0 <= t < rows ==> Tok(t) < inputs && Tok(t) < outputs)
      && (forall t, u :: 0 <= t < u < rows ==> Tok(t) != Tok(u))
    }

    /** Live slots lie in the pool and no two requests share one. */
    ghost predicate SlotsOk(slots: int, width: int)
      requires LayoutOk()
    {
      && filter.StateLen() + specQueryLen - 1 <= width
      && (forall r :: 0 <= r < NumReqs() && StateOk(r) ==> 0 <= stateIdx[r] < slots)
      && (forall r, q :: 0 <= r < q < NumReqs() && StateOk(r) && StateOk(q) ==> stateIdx[r] != stateIdx[q])
    }

    ghost predicate Fits(inputs: int, outputs: int, slots: int, width: int) {
      LayoutOk() && RangesOk() && RowsOk(inputs, outputs) && SlotsOk(slots, width)
    }
  }

  /** The tokens of request `r`, in order. */
  ghost function Chunk(b: Batch, x: seq<real>, r: nat): (c: seq<real>)
    requires b.LayoutOk() && b.RangesOk() && r < b.NumReqs() && b.RowsOk(|x|, |x|)
    ensures |c| == b.Len(r)
  {
    RangeInRows(b, r);
    seq(b.Len(r), j requires 0 <= j < b.Len(r) => x[b.Tok(b.Start(r) + j)])
  }

  lemma RangeInRows(b: Batch, r: nat)
    requires b.LayoutOk() && b.RangesOk() && r < b.NumReqs()
    ensures 0 <= b.Start(r) && b.Start(r) + b.Len(r) <= b.Total() <= b.rows
  {
  }

  /** The state pool as a value: one window per slot. */
  ghost function Pool(state: array2<real>): (p: seq<seq<real>>)
    reads state
    ensures |p| == state.Length0
    ensures forall s :: 0 <= s < |p| ==> |p[s]| == state.Length1
    ensures forall s, w :: 0 <= s < |p| && 0 <= w < |p[s]| ==> p[s][w] == state[s, w]
  {
    seq(state.Length0, s requires 0 <= s < state.Length0 reads state =>
      seq(state.Length1, w requires 0 <= w < state.Length1 reads state => state[s, w]))
  }

  ghost predicate PoolFits(b: Batch, x: seq<real>, pool: seq<seq<real>>, width: nat) {
    && b.LayoutOk() && b.RangesOk() && b.RowsOk(|x|, |x|) && b.SlotsOk(|pool|, width)
    && forall s :: 0 <= s < |pool| ==> |pool[s]| == width
  }

  ghost function HistoryOf(b: Batch, x: seq<real>, pool: seq<seq<real>>, width: nat, r: nat): (h: seq<real>)
    requires PoolFits(b, x, pool, width) && r < b.NumReqs()
    ensures |h| == b.filter.StateLen() + b.Len(r)
  {
    History(b.filter.StateLen(), if b.StateOk(r) then pool[b.stateIdx[r]] else [], b.Offset(r), b.Live(r),
            Chunk(b, x, r))
  }

  /** What row `j` of request `r` adds to the residual. */
  ghost function Delta(b: Batch, x: seq<real>, pool: seq<seq<real>>, width: nat, silu: real -> real,
                       r: nat, j: nat): real
    requires PoolFits(b, x, pool, width) && r < b.NumReqs() && j < b.Len(r)
  {
    if b.OutOk(r) then silu(Conv(b.filter, HistoryOf(b, x, pool, width, r), j)) else 0.0
  }

  ghost function NextRow(b: Batch, x: seq<real>, pool: seq<seq<real>>, width: nat, r: nat): (w: seq<real>)
    requires PoolFits(b, x, pool, width) && r < b.NumReqs() && b.StateOk(r)
    ensures |w| == width
  {
    NextWindow(b.filter.StateLen(), b.mode, b.specQueryLen, pool[b.stateIdx[r]], b.Offset(r), b.Live(r),
               Chunk(b, x, r))
  }

  /** `now` is the pool after requests below `n` moved their own slots on, all from the
      windows in `pool`; no other slot changed. */
  ghost predicate PoolAfter(b: Batch, x: seq<real>, pool: seq<seq<real>>, width: nat, n: nat,
                            now: seq<seq<real>>)
    requires PoolFits(b, x, pool, width) && n <= b.NumReqs()
  {
    && |now| == |pool|
    && (forall r :: 0 <= r < n && b.StateOk(r) ==> now[b.stateIdx[r]] == NextRow(b, x, pool, width, r))
    && (forall s :: 0 <= s < |pool| && (forall r :: 0 <= r < n && b.StateOk(r) ==> b.stateIdx[r] != s)
          ==> now[s] == pool[s])
  }

  /** Requests from `n` on still find their own window. */
  lemma SlotNotYetMoved(b: Batch, x: seq<real>, pool: seq<seq<real>>, width: nat, n: nat,
                        now: seq<seq<real>>, r: nat)
    requires PoolFits(b, x, pool, width) && n <= r < b.NumReqs() && b.StateOk(r)
    requires PoolAfter(b, x, pool, width, n, now)
    ensures now[b.stateIdx[r]] == pool[b.stateIdx[r]]
  {
  }

  lemma MoveOneSlot(b: Batch, x: seq<real>, pool: seq<seq<real>>, width: nat, r: nat,
                    now: seq<seq<real>>, next: seq<seq<real>>)
    requires PoolFits(b, x, pool, width) && r < b.NumReqs()
    requires PoolAfter(b, x, pool, width, r, now)
    requires |next| == |now|
    requires if b.StateOk(r) then next == now[b.stateIdx[r] := NextRow(b, x, pool, width, r)] else next == now
    ensures PoolAfter(b, x, pool, width, r + 1, next)
  {
  }

  /** Cell `at` of the history of request `r`, as the kernels load it. */
  lemma LoadedCell(b: Batch, x: seq<real>, pool: seq<seq<real>>, width: nat, r: nat, at: nat)
    requires PoolFits(b, x, pool, width) && r < b.NumReqs() && at < b.filter.StateLen() + b.Len(r)
    ensures var L := b.filter.StateLen();
            HistoryOf(b, x, pool, width, r)[at] ==
            if at < L then (if b.Live(r) then pool[b.stateIdx[r]][b.Offset(r) + at] else 0.0)
            else Chunk(b, x, r)[at - L]
  {
    HistoryCell(b.filter.StateLen(), if b.StateOk(r) then pool[b.stateIdx[r]] else [], b.Offset(r), b.Live(r),
                Chunk(b, x, r), at);
  }

  /** One tap of the token at place `j` of request `r`: from the state when it lies
      before the chunk, from the step's inputs otherwise, 0 when masked off. */
  method LoadTap(b: Batch, x: seq<real>, state: array2<real>, r: nat, at: nat, outOk: bool) returns (tap: real)
    requires PoolFits(b, x, Pool(state), state.Length1) && r < b.NumReqs()
    requires outOk ==> at < b.filter.StateLen() + b.Len(r)
    ensures outOk ==> tap == HistoryOf(b, x, Pool(state), state.Length1, r)[at]
  {
    var L := b.filter.StateLen();
    if outOk {
      LoadedCell(b, x, Pool(state), state.Length1, r, at);
    }
    RangeInRows(b, r);
    var fromState := at < L;
    var stateTap := if b.Live(r) && fromState then state[b.stateIdx[r], at + b.Offset(r)] else 0.0;
    var inputTap := if outOk && !fromState then x[b.Tok(b.Start(r) + at - L)] else 0.0;
    tap := if fromState then stateTap else inputTap;
  }

  function AddScaled(acc: real, weight: real, tap: real): real { acc + weight * tap }

  lemma TapsStep(f: Filter, h: seq<real>, p: nat, k: nat, acc: real, tap: real)
    requires f.Valid() && k < |f.weights| && p + f.StateLen() < |h| && p + f.Tap(k) < |h|
    requires acc == Taps(f, h, p, k) && tap == h[p + f.Tap(k)]
    ensures AddScaled(acc, f.weights[k], tap) == Taps(f, h, p, k + 1)
  {
  }

  /** The tap loop of one token program: `j` is the token's place in its request. */
  method SumTaps(b: Batch, x: seq<real>, state: array2<real>, r: nat, j: nat, outOk: bool) returns (acc: real)
    requires PoolFits(b, x, Pool(state), state.Length1) && r < b.NumReqs()
    requires outOk ==> j < b.Len(r)
    ensures outOk ==> acc == Conv(b.filter, HistoryOf(b, x, Pool(state), state.Length1, r), j)
  {
    var f := b.filter;
    ghost var h := HistoryOf(b, x, Pool(state), state.Length1, r);
    acc := 0.0;
    for k := 0 to |f.weights|
      invariant outOk ==> acc == Taps(f, h, j, k)
    {
      TapBound(f, k);
      var tap := LoadTap(b, x, state, r, j + f.Tap(k), outOk);
      if outOk {
        TapsStep(f, h, j, k, acc, tap);
      }
      acc := AddScaled(acc, f.weights[k], tap);
    }
  }

  /** The state pool with only slot `slot` changed, below `n`, to the cells of `next`. */
  ghost predicate RowBeingWritten(state: array2<real>, before: seq<seq<real>>, slot: nat, next: seq<real>, n: nat)
    requires |before| == state.Length0 && forall s :: 0 <= s < |before| ==> |before[s]| == state.Length1
    requires |next| == state.Length1
    reads state
  {
    && (forall s, w :: 0 <= s < state.Length0 && 0 <= w < state.Length1 && s != slot ==>
          state[s, w] == before[s][w])
    && (slot < state.Length0 ==> forall w :: 0 <= w < state.Length1 ==>
          state[slot, w] == if w < n then next[w] else before[slot][w])
  }

  lemma RowWritten(state: array2<real>, before: seq<seq<real>>, slot: nat, next: seq<real>, n: nat)
    requires |before| == state.Length0 && slot < |before|
    requires forall s :: 0 <= s < |before| ==> |before[s]| == state.Length1
    requires |next| == state.Length1
    requires forall w :: n <= w < |next| ==> next[w] == before[slot][w]
    requires RowBeingWritten(state, before, slot, next, n)
    ensures Pool(state) == before[slot := next]
  {
    var now := Pool(state);
    forall s | 0 <= s < |before|
      ensures now[s] == before[slot := next][s]
    {
      if s == slot {
        assert now[s] == next;
      } else {
        assert now[s] == before[s];
      }
    }
  }

  /** One store of a state cell. */
  method StoreCell(state: array2<real>, slot: nat, i: nat, value: real,
                   ghost before: seq<seq<real>>, ghost next: seq<real>)
    requires |before| == state.Length0 && forall s :: 0 <= s < |before| ==> |before[s]| == state.Length1
    requires |next| == state.Length1 && slot < state.Length0 && i < state.Length1
    requires RowBeingWritten(state, before, slot, next, i) && value == next[i]
    modifies state
    ensures RowBeingWritten(state, before, slot, next, i + 1)
  {
    state[slot, i] := value;
  }

  /** Decode's fused update: one cell at a time, oldest first. */
  method ShiftInPlace(state: array2<real>, slot: nat, L: nat, hasInit: bool, input: real)
    requires slot < state.Length0 && L <= state.Length1
    modifies state
    ensures Pool(state) == old(Pool(state))[slot :=
              NextWindow(L, Decode, 1, old(Pool(state))[slot], 0, hasInit, [input])]
  {
    ghost var before := Pool(state);
    ghost var next := NextWindow(L, Decode, 1, before[slot], 0, hasInit, [input]);
    for i := 0 to L
      invariant RowBeingWritten(state, before, slot, next, i)
    {
      HistoryCell(L, before[slot], 0, hasInit, [input], 1 + i);
      var nextState := if i < L - 1 then (if hasInit then state[slot, i + 1] else 0.0) else input;
      RewrittenCell(L, Decode, 1, before[slot], 0, hasInit, [input], 1, i);
      StoreCell(state, slot, i, nextState, before, next);
    }
    RowWritten(state, before, slot, next, L);
  }

  /** The value cell `i` is to get: history cell `m`, a state cell not yet overwritten or
      an input of the chunk. */
  method LoadForStore(b: Batch, x: seq<real>, state: array2<real>, r: nat, i: nat, m: nat, doWrite: bool,
                      ghost before: seq<seq<real>>) returns (value: real)
    requires PoolFits(b, x, before, state.Length1) && |before| == state.Length0
    requires b.mode != Decode && r < b.NumReqs() && b.StateOk(r)
    requires i < m == Shift(b.mode, b.Len(r)) + i
    requires doWrite ==> i < WriteCount(b.mode, b.filter.StateLen(), b.specQueryLen, b.Len(r))
    requires RowBeingWritten(state, before, b.stateIdx[r], NextRow(b, x, before, state.Length1, r), i)
    ensures doWrite ==> value == NextRow(b, x, before, state.Length1, r)[i]
  {
    RangeInRows(b, r);
    var L := b.filter.StateLen();
    var fromState := m < L;
    var stateValue := if fromState && b.Live(r) then state[b.stateIdx[r], b.Offset(r) + m] else 0.0;
    var inputValue := if !fromState && doWrite then x[b.Tok(b.Start(r) + m - L)] else 0.0;
    value := if fromState then stateValue else inputValue;
    if doWrite {
      LoadedCell(b, x, before, state.Length1, r, m);
    }
  }

  /** The store loop of the write-back program: cells are rewritten in ascending order
      from cells further on, so none is read after it was overwritten. */
  method StoreWindow(b: Batch, x: seq<real>, state: array2<real>, r: nat)
    requires PoolFits(b, x, Pool(state), state.Length1)
    requires b.mode != Decode && r < b.NumReqs() && b.StateOk(r)
    requires b.mode == Prefill ==> b.Len(r) > 0
    modifies state
    ensures Pool(state) == old(Pool(state))[b.stateIdx[r] :=
              NextRow(b, x, old(Pool(state)), state.Length1, r)]
  {
    ghost var before := Pool(state);
    ghost var next := NextRow(b, x, before, state.Length1, r);
    RangeInRows(b, r);
    var sid := b.stateIdx[r];
    var L := b.filter.StateLen();
    var qlen := b.Len(r);
    var shift := if b.mode == Spec then 1 else qlen;
    var writeW := if b.mode == Spec then L + b.specQueryLen - 1 else L;
    ghost var n := WriteCount(b.mode, L, b.specQueryLen, qlen);
    for i := 0 to writeW
      invariant RowBeingWritten(state, before, sid, next, if i < n then i else n)
    {
      var m := shift + i;
      var doWrite := if b.mode == Spec then i < L + qlen - 1 else true;
      var value := LoadForStore(b, x, state, r, i, m, doWrite, before);
      if doWrite {
        StoreCell(state, sid, i, value, before, next);
      }
    }
    RowWritten(state, before, sid, next, n);
  }

  /** The write-back program of request `r` for prefill and speculative launches. */
  method WriteBack(b: Batch, x: seq<real>, state: array2<real>, r: nat, ghost pool: seq<seq<real>>)
    requires PoolFits(b, x, pool, state.Length1) && state.Length0 == |pool|
    requires b.mode != Decode && r < b.NumReqs()
    requires PoolAfter(b, x, pool, state.Length1, r, Pool(state))
    modifies state
    ensures PoolAfter(b, x, pool, state.Length1, r + 1, Pool(state))
  {
    ghost var before := Pool(state);
    if !b.StateOk(r) {
      MoveOneSlot(b, x, pool, state.Length1, r, before, before);
      return;
    }
    SlotNotYetMoved(b, x, pool, state.Length1, r, before, r);
    if b.mode == Prefill && b.Len(r) <= 0 {
      assert NextRow(b, x, pool, state.Length1, r) == before[b.stateIdx[r]];
      assert before[b.stateIdx[r] := before[b.stateIdx[r]]] == before;
    } else {
      StoreWindow(b, x, state, r);
    }
    MoveOneSlot(b, x, pool, state.Length1, r, before, Pool(state));
  }

  // ------------------------------------------------------------------ the launch

  /** Row `t` is a token of request `r`. */
  ghost predicate Holds(b: Batch, r: int, t: nat)
    requires b.LayoutOk() && b.RangesOk()
  {
    0 <= r < b.NumReqs() && b.Start(r) <= t < b.Start(r) + b.Len(r)
  }

  /** The residual row of logical row `t` has received exactly its output: that of its
      place in its request, or nothing for a padding row. */
  ghost predicate RowDone(b: Batch, x: seq<real>, pool: seq<seq<real>>, width: nat, silu: real -> real,
                          before: seq<real>, now: seq<real>, t: nat)
    requires PoolFits(b, x, pool, width) && t < b.rows && b.Tok(t) < |before| == |now|
  {
    && (forall r: nat :: Holds(b, r, t) ==>
          now[b.Tok(t)] == before[b.Tok(t)] + Delta(b, x, pool, width, silu, r, t - b.Start(r)))
    && (t >= b.Total() ==> now[b.Tok(t)] == before[b.Tok(t)])
  }

  /** Rows below `n` are done and nothing else in the residual changed. */
  ghost predicate RowsDone(b: Batch, x: seq<real>, pool: seq<seq<real>>, width: nat, silu: real -> real,
                           before: seq<real>, now: seq<real>, n: nat)
    requires PoolFits(b, x, pool, width) && b.RowsOk(|x|, |before|) && |before| == |now| && n <= b.rows
  {
    && (forall t :: 0 <= t < n ==> RowDone(b, x, pool, width, silu, before, now, t))
    && (forall i :: 0 <= i < |before| && (forall t :: 0 <= t < n ==> b.Tok(t) != i) ==> now[i] == before[i])
  }

  lemma OneMoreRow(b: Batch, x: seq<real>, pool: seq<seq<real>>, width: nat, silu: real -> real,
                   before: seq<real>, now: seq<real>, next: seq<real>, t: nat)
    requires PoolFits(b, x, pool, width) && b.RowsOk(|x|, |before|) && |before| == |now| && t < b.rows
    requires RowsDone(b, x, pool, width, silu, before, now, t)
    requires |next| == |now| && forall i :: 0 <= i < |now| && i != b.Tok(t) ==> next[i] == now[i]
    requires RowDone(b, x, pool, width, silu, before, next, t)
    ensures RowsDone(b, x, pool, width, silu, before, next, t + 1)
  {
    forall u | 0 <= u < t + 1
      ensures RowDone(b, x, pool, width, silu, before, next, u)
    {
      if u < t {
        assert RowDone(b, x, pool, width, silu, before, now, u);
        assert b.Tok(u) != b.Tok(t);
      }
    }
  }

  lemma OneHolder(b: Batch, r: nat, q: nat, t: nat)
    requires b.LayoutOk() && b.RangesOk() && Holds(b, r, t) && Holds(b, q, t)
    ensures r == q
  {
    if b.mode != Decode {
      RS.OwnerIsUnique(b.qsl, r, q, t);
    }
  }

  lemma SameHistory(b: Batch, x: seq<real>, pool: seq<seq<real>>, now: seq<seq<real>>, width: nat, r: nat)
    requires PoolFits(b, x, pool, width) && PoolFits(b, x, now, width) && r < b.NumReqs()
    requires b.StateOk(r) ==> now[b.stateIdx[r]] == pool[b.stateIdx[r]]
    ensures HistoryOf(b, x, now, width, r) == HistoryOf(b, x, pool, width, r)
  {
  }

  /** A program that has not moved its own slot reads the history of the state at entry. */
  lemma ReadsEntryHistory(b: Batch, x: seq<real>, pool: seq<seq<real>>, width: nat, n: nat, now: seq<seq<real>>,
                          r: nat)
    requires PoolFits(b, x, pool, width) && PoolFits(b, x, now, width) && n <= r < b.NumReqs()
    requires PoolAfter(b, x, pool, width, n, now)
    ensures HistoryOf(b, x, now, width, r) == HistoryOf(b, x, pool, width, r)
  {
    if b.StateOk(r) {
      SlotNotYetMoved(b, x, pool, width, n, now, r);
    }
    SameHistory(b, x, pool, now, width, r);
  }

  /** The request whose program this is. */
  method RowRequest(b: Batch, iters: nat, t: nat) returns (r: nat)
    requires b.LayoutOk() && b.RangesOk() && t < b.rows
    requires b.mode != Decode ==> iters >= RS.BitLength(|b.qsl| - 1)
    ensures r < b.NumReqs() && b.Start(r) <= t && (b.mode == Decode ==> r == t) && (t < b.Total() ==> Holds(b, r, t))
  {
    r := t;
    if b.mode != Decode {
      r := RS.LocateRequest(b.qsl, t, iters);
    }
  }

  /** SiLU of the taps of a real token, zero for a padding row. */
  method TokenOutput(b: Batch, x: seq<real>, state: array2<real>, silu: real -> real, r: nat, t: nat,
                     ghost pool: seq<seq<real>>) returns (y: real)
    requires PoolFits(b, x, pool, state.Length1) && PoolFits(b, x, Pool(state), state.Length1)
    requires r < b.NumReqs() && b.Start(r) <= t < b.rows && (t < b.Total() ==> Holds(b, r, t))
    requires HistoryOf(b, x, Pool(state), state.Length1, r) == HistoryOf(b, x, pool, state.Length1, r)
    ensures y == if t < b.Total() then Delta(b, x, pool, state.Length1, silu, r, t - b.Start(r)) else 0.0
  {
    var inRange := b.mode == Decode || t < b.qsl[|b.qsl| - 1];
    var outOk := inRange && b.OutOk(r);
    var acc := SumTaps(b, x, state, r, t - b.Start(r), outOk);
    y := if outOk then silu(acc) else 0.0;
  }

  /** First half of the token program: find the request, sum the taps, apply SiLU. */
  method RowOutput(b: Batch, x: seq<real>, state: array2<real>, silu: real -> real, iters: nat, t: nat,
                   ghost pool: seq<seq<real>>) returns (r: nat, y: real)
    requires PoolFits(b, x, pool, state.Length1) && state.Length0 == |pool| && t < b.rows
    requires b.mode != Decode ==> iters >= RS.BitLength(|b.qsl| - 1)
    requires PoolAfter(b, x, pool, state.Length1, if b.mode == Decode then t else 0, Pool(state))
    ensures r < b.NumReqs() && (b.mode == Decode ==> r == t)
    ensures t < b.Total() ==> Holds(b, r, t) && y == Delta(b, x, pool, state.Length1, silu, r, t - b.Start(r))
    ensures t >= b.Total() ==> y == 0.0
  {
    r := RowRequest(b, iters, t);
    ReadsEntryHistory(b, x, pool, state.Length1, if b.mode == Decode then t else 0, Pool(state), r);
    y := TokenOutput(b, x, state, silu, r, t, pool);
  }

  lemma RowIsDone(b: Batch, x: seq<real>, pool: seq<seq<real>>, width: nat, silu: real -> real,
                  before: seq<real>, now: seq<real>, t: nat, r: nat, y: real)
    requires PoolFits(b, x, pool, width) && t < b.rows && b.Tok(t) < |before| == |now|
    requires t < b.Total() ==> Holds(b, r, t) && y == Delta(b, x, pool, width, silu, r, t - b.Start(r))
    requires t >= b.Total() ==> y == 0.0
    requires now[b.Tok(t)] == before[b.Tok(t)] + y
    ensures RowDone(b, x, pool, width, silu, before, now, t)
  {
    forall q: nat | Holds(b, q, t)
      ensures now[b.Tok(t)] == before[b.Tok(t)] + Delta(b, x, pool, width, silu, q, t - b.Start(q))
    {
      RangeInRows(b, q);
      OneHolder(b, r, q, t);
    }
  }

  /** Second half, decode only: this request's window moves on by its token. */
  method MoveDecodedSlot(b: Batch, x: seq<real>, state: array2<real>, r: nat, ghost pool: seq<seq<real>>)
    requires PoolFits(b, x, pool, state.Length1) && state.Length0 == |pool|
    requires b.mode == Decode && r < b.NumReqs()
    requires PoolAfter(b, x, pool, state.Length1, r, Pool(state))
    modifies state
    ensures PoolAfter(b, x, pool, state.Length1, r + 1, Pool(state))
  {
    ghost var now := Pool(state);
    if b.StateOk(r) {
      SlotNotYetMoved(b, x, pool, state.Length1, r, now, r);
      ghost var chunk := Chunk(b, x, r);
      assert b.Start(r) + 0 == r && chunk[0] == x[b.Tok(r)];
      assert chunk == [x[b.Tok(r)]];
      ShiftInPlace(state, b.stateIdx[r], b.filter.StateLen(), b.Live(r), x[b.Tok(r)]);
    }
    MoveOneSlot(b, x, pool, state.Length1, r, now, Pool(state));
  }

  /** The token program: add the row's output to the residual and, for decode, move the
      state window on. */
  method ConvProgram(b: Batch, x: seq<real>, residual: array<real>, state: array2<real>, silu: real -> real,
                     iters: nat, t: nat, ghost pool: seq<seq<real>>)
    requires PoolFits(b, x, pool, state.Length1) && state.Length0 == |pool|
    requires t < b.rows && b.RowsOk(|x|, residual.Length)
    requires b.mode != Decode ==> iters >= RS.BitLength(|b.qsl| - 1)
    requires PoolAfter(b, x, pool, state.Length1, if b.mode == Decode then t else 0, Pool(state))
    modifies residual, state
    ensures PoolAfter(b, x, pool, state.Length1, if b.mode == Decode then t + 1 else 0, Pool(state))
    ensures forall i :: 0 <= i < residual.Length && i != b.Tok(t) ==> residual[i] == old(residual[i])
    ensures RowDone(b, x, pool, state.Length1, silu, old(residual[..]), residual[..], t)
  {
    var r, y := RowOutput(b, x, state, silu, iters, t, pool);
    residual[b.Tok(t)] := residual[b.Tok(t)] + y;
    RowIsDone(b, x, pool, state.Length1, silu, old(residual[..]), residual[..], t, r, y);
    if b.mode == Decode {
      MoveDecodedSlot(b, x, state, r, pool);
    }
  }

  /** The launcher.  Outputs and new windows are all computed from the inputs and from
      the windows the pool held at entry, whatever the order of rows and requests. */
  method Launch(inputs: seq<real>, residual: array<real>, state: array2<real>, filter: Filter,
                silu: real -> real, stateIdx: seq<int>, nullId: int, mode: Mode,
                qsl: Option<seq<int>>, numAcc: Option<seq<int>>, hasInit: Option<seq<bool>>,
                specQueryLen: nat, tokenIdx: Option<seq<nat>>) returns (outcome: Outcome)
    requires var b := MakeBatch(|inputs|, filter, stateIdx, nullId, mode, qsl, numAcc, hasInit, specQueryLen, tokenIdx);
             filter.Valid() && (Refusal(b, qsl, numAcc, hasInit, state.Length1).Done? ==>
               b.Fits(|inputs|, residual.Length, state.Length0, state.Length1) && b.RowsOk(|inputs|, |inputs|))
    modifies residual, state
    ensures var b := MakeBatch(|inputs|, filter, stateIdx, nullId, mode, qsl, numAcc, hasInit, specQueryLen, tokenIdx);
            && outcome == Refusal(b, qsl, numAcc, hasInit, state.Length1)
            && (outcome.Done? ==>
                 && RowsDone(b, inputs, old(Pool(state)), state.Length1, silu, old(residual[..]), residual[..], b.rows)
                 && PoolAfter(b, inputs, old(Pool(state)), state.Length1, b.NumReqs(), Pool(state)))
            && (!outcome.Done? ==> residual[..] == old(residual[..]) && Pool(state) == old(Pool(state)))
  {
    var b := MakeBatch(|inputs|, filter, stateIdx, nullId, mode, qsl, numAcc, hasInit, specQueryLen, tokenIdx);
    outcome := Refusal(b, qsl, numAcc, hasInit, state.Length1);
    if !outcome.Done? {
      return;
    }
    ghost var pool := Pool(state);
    ghost var before := residual[..];
    var iters := RS.BitLength(if |stateIdx| > 1 then |stateIdx| else 1);
    for t := 0 to b.rows
      invariant PoolAfter(b, inputs, pool, state.Length1, if mode == Decode then t else 0, Pool(state))
      invariant RowsDone(b, inputs, pool, state.Length1, silu, before, residual[..], t)
    {
      ghost var now := residual[..];
      ConvProgram(b, inputs, residual, state, silu, iters, t, pool);
      assert RowDone(b, inputs, pool, state.Length1, silu, before, residual[..], t) by {
        assert now[b.Tok(t)] == before[b.Tok(t)];
      }
      OneMoreRow(b, inputs, pool, state.Length1, silu, before, now, residual[..], t);
    }
    if mode != Decode {
      for r := 0 to b.NumReqs()
        invariant PoolAfter(b, inputs, pool, state.Length1, r, Pool(state))
        invariant RowsDone(b, inputs, pool, state.Length1, silu, before, residual[..], b.rows)
      {
        WriteBack(b, inputs, state, r, pool);
      }
    }
  }

  function OrEmpty<T>(o: Option<seq<T>>): seq<T> { if o.Some? then o.value else [] }

  /** The arguments the launcher hands to the kernels. */
  function MakeBatch(inputs: nat, filter: Filter, stateIdx: seq<int>, nullId: int, mode: Mode,
                     qsl: Option<seq<int>>, numAcc: Option<seq<int>>, hasInit: Option<seq<bool>>,
                     specQueryLen: nat, tokenIdx: Option<seq<nat>>): Batch
  {
    Batch(mode, filter, if mode == Spec then specQueryLen else 1, OrEmpty(qsl), stateIdx, OrEmpty(numAcc),
          if mode == Spec then None else hasInit, tokenIdx,
          if tokenIdx.Some? then |tokenIdx.value| else inputs, nullId)
  }

  /** The launcher's argument checks, in order. */
  function Refusal(b: Batch, qsl: Option<seq<int>>, numAcc: Option<seq<int>>, hasInit: Option<seq<bool>>,
                   width: nat): Outcome
    requires b.filter.Valid()
  {
    if width < b.filter.StateLen() + b.specQueryLen - 1 then WindowTooSmall
    else if b.mode == Spec && (qsl.None? || numAcc.None?) then MissingArguments
    else if b.mode == Prefill && (qsl.None? || hasInit.None?) then MissingArguments
    else Done
  }

  /** A launch on a slot that remembers the committed tokens `s`: every row of the request
      receives SiLU of the whole-sequence convolution, and the slot then remembers `s`
      with the kept tokens, one cell further on per accepted draft token after the first. */
  lemma LaunchIsWholeConv(b: Batch, x: seq<real>, pool: seq<seq<real>>, width: nat, silu: real -> real,
                          r: nat, s: seq<real>, kept: nat)
    requires PoolFits(b, x, pool, width) && r < b.NumReqs() && b.OutOk(r)
    requires if b.Live(r) then Remembers(b.filter.StateLen(), pool[b.stateIdx[r]], b.Offset(r), s) else s == []
    requires 1 <= kept <= b.Len(r)
    requires if b.mode == Spec then b.Len(r) <= b.specQueryLen else kept == b.Len(r)
    ensures forall j :: 0 <= j < b.Len(r) ==>
      Delta(b, x, pool, width, silu, r, j) == silu(WholeConv(b.filter, s + Chunk(b, x, r), |s| + j))
    ensures b.StateOk(r) ==>
      Remembers(b.filter.StateLen(), NextRow(b, x, pool, width, r), if b.mode == Spec then kept - 1 else 0,
                s + Chunk(b, x, r)[..kept])
  {
    var window := if b.StateOk(r) then pool[b.stateIdx[r]] else [];
    forall j | 0 <= j < b.Len(r)
      ensures Delta(b, x, pool, width, silu, r, j) == silu(WholeConv(b.filter, s + Chunk(b, x, r), |s| + j))
    {
      ChunkOutput(b.filter, window, b.Offset(r), b.Live(r), s, Chunk(b, x, r), j);
    }
    if b.StateOk(r) {
      ChunkState(b.filter.StateLen(), b.mode, b.specQueryLen, window, b.Offset(r), b.Live(r), s,
                 Chunk(b, x, r), kept);
    }
  }
}
