/** Whole runs of convolution launches on one request: what every launch reads, when that
    is the request's own tokens, and what is computed when it is not. */
module PleConvRuns {
  import opened PleConvSpec

  /** One kernel launch as one request sees it.  `accepted` is how many draft tokens the
      sampler kept afterwards; `flagged`: the launch is told which slots hold something. */
  datatype Step =
    | PrefillStep(chunk: seq<real>)
    | DecodeStep(token: real, flagged: bool)
    | SpecStep(draft: seq<real>, accepted: nat)
  {
    function Chunk(): seq<real> {
      match this
      case PrefillStep(c) => c
      case DecodeStep(x, _) => [x]
      case SpecStep(d, _) => d
    }

    function StepMode(): Mode {
      match this
      case PrefillStep(_) => Prefill
      case DecodeStep(_, _) => Decode
      case SpecStep(_, _) => Spec
    }

    /** Number of tokens that become part of the sequence. */
    function Kept(): nat { if SpecStep? then accepted else |Chunk()| }
  }

  /** A request's slot: its state window, whether it holds anything yet, and the number of
      tokens accepted from the previous launch, one unless that was a draft. */
  datatype Slot = Slot(window: seq<real>, live: bool, numAcc: nat)

  /** A launch with tokens for the request, and no more draft tokens than it was built for.
      Which mode follows which is left open: the kernels do not look at it. */
  predicate Launchable(step: Step, specQueryLen: nat) {
    1 <= |step.Chunk()| && (step.SpecStep? ==> |step.draft| <= specQueryLen && step.accepted <= |step.draft|)
  }

  predicate SlotFits(L: nat, slot: Slot, specQueryLen: nat) {
    specQueryLen >= 1 && slot.numAcc <= specQueryLen && L + specQueryLen - 1 <= |slot.window|
  }

  /** Whether the launch reads the window: a draft always does. */
  predicate ReadsState(slot: Slot, step: Step) {
    match step
    case PrefillStep(_) => slot.live
    case DecodeStep(_, flagged) => slot.live || !flagged
    case SpecStep(_, _) => true
  }

  function StepHistory(L: nat, specQueryLen: nat, slot: Slot, step: Step): (h: seq<real>)
    requires SlotFits(L, slot, specQueryLen)
    ensures |h| == L + |step.Chunk()|
  {
    History(L, slot.window, SlotOffset(step.StepMode(), slot.numAcc, specQueryLen), ReadsState(slot, step),
            step.Chunk())
  }

  function StepOutputs(f: Filter, specQueryLen: nat, slot: Slot, step: Step): (outs: seq<real>)
    requires f.Valid() && SlotFits(f.StateLen(), slot, specQueryLen)
    ensures |outs| == |step.Chunk()|
  {
    var h := StepHistory(f.StateLen(), specQueryLen, slot, step);
    seq(|step.Chunk()|, j requires 0 <= j < |step.Chunk()| => Conv(f, h, j))
  }

  function StepSlot(L: nat, specQueryLen: nat, slot: Slot, step: Step): (next: Slot)
    requires SlotFits(L, slot, specQueryLen) && Launchable(step, specQueryLen)
    ensures SlotFits(L, next, specQueryLen)
  {
    var off := SlotOffset(step.StepMode(), slot.numAcc, specQueryLen);
    Slot(NextWindow(L, step.StepMode(), specQueryLen, slot.window, off, ReadsState(slot, step), step.Chunk()),
         true,
         if step.SpecStep? then step.accepted else 1)
  }

  predicate AllLaunchable(steps: seq<Step>, specQueryLen: nat) {
    forall i :: 0 <= i < |steps| ==> Launchable(steps[i], specQueryLen)
  }

  /** Outputs of the kernels over a run, one sequence per launch. */
  function RunOutputs(f: Filter, specQueryLen: nat, slot: Slot, steps: seq<Step>): seq<seq<real>>
    requires f.Valid() && SlotFits(f.StateLen(), slot, specQueryLen) && AllLaunchable(steps, specQueryLen)
    decreases |steps|
  {
    if steps == [] then []
    else [StepOutputs(f, specQueryLen, slot, steps[0])] +
         RunOutputs(f, specQueryLen, StepSlot(f.StateLen(), specQueryLen, slot, steps[0]), steps[1..])
  }

  /** The part of a chunk that joins the sequence. */
  function KeptTokens(step: Step): seq<real> {
    if step.Kept() <= |step.Chunk()| then step.Chunk()[..step.Kept()] else []
  }

  /** The tokens of a run that survive: everything prefilled or decoded, and the accepted
      prefix of every draft. */
  function Committed(s: seq<real>, steps: seq<Step>): seq<real>
    decreases |steps|
  {
    if steps == [] then s else Committed(s + KeptTokens(steps[0]), steps[1..])
  }

  /** The outputs a run should have, computed from the committed tokens alone. */
  function ReferenceOutputs(f: Filter, s: seq<real>, steps: seq<Step>): seq<seq<real>>
    requires f.Valid()
    decreases |steps|
  {
    if steps == [] then []
    else [WholeOutputs(f, s, steps[0].Chunk())] + ReferenceOutputs(f, s + KeptTokens(steps[0]), steps[1..])
  }

  // ------------------------------------------------------------ what a launch reads

  /** What the window stands for: to a launch that reads it from its start, and to a draft,
      which reads it from the rollback offset.  `unused`: the slot is not marked as used. */
  datatype Memory = Memory(front: seq<real>, back: seq<real>, unused: bool)

  ghost predicate Represents(L: nat, specQueryLen: nat, slot: Slot, m: Memory)
    requires SlotFits(L, slot, specQueryLen)
  {
    && m.unused == !slot.live && Remembers(L, slot.window, 0, m.front)
    && Remembers(L, slot.window, SlotOffset(Spec, slot.numAcc, specQueryLen), m.back)
  }

  /** Every window stands for something, if only for its own cells. */
  function MemoryOf(L: nat, specQueryLen: nat, slot: Slot): (m: Memory)
    requires SlotFits(L, slot, specQueryLen)
    ensures Represents(L, specQueryLen, slot, m)
  {
    var off := SlotOffset(Spec, slot.numAcc, specQueryLen);
    EndOfItself(L, slot.window[..L]);
    EndOfItself(L, slot.window[off..off + L]);
    assert slot.window[0..L] == slot.window[..L];
    Memory(slot.window[..L], slot.window[off..off + L], !slot.live)
  }

  lemma EndOfItself(L: nat, s: seq<real>)
    requires |s| == L
    ensures End(L, s) == s
  {
  }

  /** The tokens that the launch takes for those before its chunk. */
  function ReadBy(m: Memory, step: Step): seq<real> {
    match step
    case PrefillStep(_) => if m.unused then [] else m.front
    case DecodeStep(_, flagged) => if m.unused && flagged then [] else m.front
    case SpecStep(_, _) => m.back
  }

  /** A draft leaves its first token at the front of the window, and the kept ones (at least
      the first) where the next draft reads. */
  function Grown(m: Memory, step: Step): Memory
    requires 1 <= |step.Chunk()| && (step.SpecStep? ==> step.accepted <= |step.draft|)
  {
    var r := ReadBy(m, step);
    match step
    case SpecStep(d, a) => Memory(r + d[..1], r + d[..if a >= 1 then a else 1], false)
    case _ => Memory(r + step.Chunk(), r + step.Chunk(), false)
  }

  /** The outputs of a run, computed from what its launches read. */
  function MemoryOutputs(f: Filter, specQueryLen: nat, m: Memory, steps: seq<Step>): seq<seq<real>>
    requires f.Valid() && AllLaunchable(steps, specQueryLen)
    decreases |steps|
  {
    if steps == [] then []
    else [WholeOutputs(f, ReadBy(m, steps[0]), steps[0].Chunk())] +
         MemoryOutputs(f, specQueryLen, Grown(m, steps[0]), steps[1..])
  }

  /** The launch finds in the window what the memory says it reads. */
  lemma ReadsMemory(L: nat, specQueryLen: nat, slot: Slot, m: Memory, step: Step)
    requires SlotFits(L, slot, specQueryLen) && Represents(L, specQueryLen, slot, m)
    ensures var off := SlotOffset(step.StepMode(), slot.numAcc, specQueryLen);
            if ReadsState(slot, step) then Remembers(L, slot.window, off, ReadBy(m, step)) else ReadBy(m, step) == []
  {
  }

  lemma StepOutputsAreRead(f: Filter, specQueryLen: nat, slot: Slot, m: Memory, step: Step)
    requires f.Valid() && SlotFits(f.StateLen(), slot, specQueryLen)
    requires Represents(f.StateLen(), specQueryLen, slot, m)
    ensures StepOutputs(f, specQueryLen, slot, step) == WholeOutputs(f, ReadBy(m, step), step.Chunk())
  {
    var outs, whole := StepOutputs(f, specQueryLen, slot, step), WholeOutputs(f, ReadBy(m, step), step.Chunk());
    var off := SlotOffset(step.StepMode(), slot.numAcc, specQueryLen);
    ReadsMemory(f.StateLen(), specQueryLen, slot, m, step);
    forall j | 0 <= j < |outs|
      ensures outs[j] == whole[j]
    {
      ChunkOutput(f, slot.window, off, ReadsState(slot, step), ReadBy(m, step), step.Chunk(), j);
    }
  }

  lemma StepKeepsMemory(L: nat, specQueryLen: nat, slot: Slot, m: Memory, step: Step)
    requires SlotFits(L, slot, specQueryLen) && Represents(L, specQueryLen, slot, m)
    requires Launchable(step, specQueryLen)
    ensures Represents(L, specQueryLen, StepSlot(L, specQueryLen, slot, step), Grown(m, step))
  {
    var mode, chunk, r := step.StepMode(), step.Chunk(), ReadBy(m, step);
    var off, live := SlotOffset(mode, slot.numAcc, specQueryLen), ReadsState(slot, step);
    ReadsMemory(L, specQueryLen, slot, m, step);
    if step.SpecStep? {
      ChunkState(L, mode, specQueryLen, slot.window, off, live, r, chunk, 1);
      ChunkState(L, mode, specQueryLen, slot.window, off, live, r, chunk,
                 if step.accepted >= 1 then step.accepted else 1);
    } else {
      ChunkState(L, mode, specQueryLen, slot.window, off, live, r, chunk, |chunk|);
      assert chunk[..|chunk|] == chunk;
    }
  }

  /** What every run computes, whatever launch follows whatever: each output is the
      convolution of the tokens its launch reads and its chunk.  A plain launch after a draft
      reads the draft's first token only; a draft reads as many as were kept. */
  lemma {:induction false} RunComputesWhatItReads(f: Filter, specQueryLen: nat, slot: Slot, m: Memory,
                                                 steps: seq<Step>)
    requires f.Valid() && SlotFits(f.StateLen(), slot, specQueryLen) && AllLaunchable(steps, specQueryLen)
    requires Represents(f.StateLen(), specQueryLen, slot, m)
    ensures RunOutputs(f, specQueryLen, slot, steps) == MemoryOutputs(f, specQueryLen, m, steps)
    decreases |steps|
  {
    if steps != [] {
      StepOutputsAreRead(f, specQueryLen, slot, m, steps[0]);
      StepKeepsMemory(f.StateLen(), specQueryLen, slot, m, steps[0]);
      RunComputesWhatItReads(f, specQueryLen, StepSlot(f.StateLen(), specQueryLen, slot, steps[0]),
                             Grown(m, steps[0]), steps[1..]);
    }
  }

  // ----------------------------------------------------- when that is the right thing

  /** Every launch reads tokens that end as the committed ones do. */
  predicate EndsAgree(L: nat, specQueryLen: nat, m: Memory, s: seq<real>, steps: seq<Step>)
    requires AllLaunchable(steps, specQueryLen)
    decreases |steps|
  {
    steps == [] ||
    (End(L, ReadBy(m, steps[0])) == End(L, s) &&
     EndsAgree(L, specQueryLen, Grown(m, steps[0]), s + KeptTokens(steps[0]), steps[1..]))
  }

  /** Outputs depend on the end of the tokens before the chunk only. */
  lemma SameEndSameOutputs(f: Filter, r: seq<real>, s: seq<real>, chunk: seq<real>)
    requires f.Valid() && End(f.StateLen(), r) == End(f.StateLen(), s)
    ensures WholeOutputs(f, r, chunk) == WholeOutputs(f, s, chunk)
  {
    var L := f.StateLen();
    var one, other := WholeOutputs(f, r, chunk), WholeOutputs(f, s, chunk);
    forall j | 0 <= j < |one|
      ensures one[j] == other[j]
    {
      ChunkOutput(f, End(L, r), 0, true, r, chunk, j);
      ChunkOutput(f, End(L, r), 0, true, s, chunk, j);
    }
  }

  lemma {:induction false} AgreeingRun(f: Filter, specQueryLen: nat, m: Memory, s: seq<real>, steps: seq<Step>)
    requires f.Valid() && AllLaunchable(steps, specQueryLen)
    requires EndsAgree(f.StateLen(), specQueryLen, m, s, steps)
    ensures MemoryOutputs(f, specQueryLen, m, steps) == ReferenceOutputs(f, s, steps)
    decreases |steps|
  {
    if steps != [] {
      SameEndSameOutputs(f, ReadBy(m, steps[0]), s, steps[0].Chunk());
      AgreeingRun(f, specQueryLen, Grown(m, steps[0]), s + KeptTokens(steps[0]), steps[1..]);
    }
  }

  /** The filter that picks out the input `L - i` tokens back. */
  function Picker(L: nat, i: nat): (f: Filter)
    requires i <= L
    ensures f.Valid() && f.dilation == 1 && |f.weights| == L + 1
  {
    Filter(seq(L + 1, k => if k == i then 1.0 else 0.0), 1)
  }

  lemma {:induction false} PickerTaps(L: nat, i: nat, h: seq<real>, p: nat, k: nat)
    requires i <= L && k <= L + 1 && Picker(L, i).StateLen() == L && p + L < |h|
    ensures Taps(Picker(L, i), h, p, k) == if i < k then h[p + i] else 0.0
  {
    if k > 0 {
      TimesIsProduct(k - 1, 1);
      PickerTaps(L, i, h, p, k - 1);
    }
  }

  /** Its output for the first token after `s` is cell `i` of the end of `s`. */
  lemma PickerPicks(L: nat, i: nat, s: seq<real>, chunk: seq<real>)
    requires i < L && |chunk| >= 1
    ensures Picker(L, i).StateLen() == L
    ensures WholeOutputs(Picker(L, i), s, chunk)[0] == End(L, s)[i]
  {
    TimesIsProduct(L, 1);
    var f, h := Picker(L, i), Zeros(L) + (s + chunk);
    PickerTaps(L, i, h, |s|, L + 1);
    assert WholeOutputs(f, s, chunk)[0] == WholeConv(f, s + chunk, |s|) == Taps(f, h, |s|, L + 1);
    assert h[|s| + i] == End(L, s)[i] by {
      assert h == (Zeros(L) + s) + chunk;
    }
  }

  /** A run that reads wrongly somewhere is told apart by some filter. */
  lemma {:induction false} DisagreeingRun(L: nat, specQueryLen: nat, m: Memory, s: seq<real>, steps: seq<Step>)
      returns (f: Filter)
    requires AllLaunchable(steps, specQueryLen) && !EndsAgree(L, specQueryLen, m, s, steps)
    ensures f.Valid() && f.StateLen() == L
    ensures MemoryOutputs(f, specQueryLen, m, steps) != ReferenceOutputs(f, s, steps)
    decreases |steps|
  {
    var r, chunk := ReadBy(m, steps[0]), steps[0].Chunk();
    if End(L, r) != End(L, s) {
      var i: nat :| i < L && End(L, r)[i] != End(L, s)[i];
      f := Picker(L, i);
      PickerPicks(L, i, r, chunk);
      PickerPicks(L, i, s, chunk);
      assert MemoryOutputs(f, specQueryLen, m, steps)[0] != ReferenceOutputs(f, s, steps)[0];
    } else {
      var next, t := Grown(m, steps[0]), s + KeptTokens(steps[0]);
      f := DisagreeingRun(L, specQueryLen, next, t, steps[1..]);
      assert MemoryOutputs(f, specQueryLen, m, steps)[1..] == MemoryOutputs(f, specQueryLen, next, steps[1..]);
      assert ReferenceOutputs(f, s, steps)[1..] == ReferenceOutputs(f, t, steps[1..]);
    }
  }

  /** The kernels compute the outputs of the committed tokens with every filter. */
  ghost predicate RightForAllFilters(L: nat, specQueryLen: nat, slot: Slot, s: seq<real>, steps: seq<Step>)
    requires SlotFits(L, slot, specQueryLen) && AllLaunchable(steps, specQueryLen)
  {
    forall f: Filter :: f.Valid() && f.StateLen() == L ==>
      RunOutputs(f, specQueryLen, slot, steps) == ReferenceOutputs(f, s, steps)
  }

  /** A run of launches, in any order of modes, computes the convolution of the committed
      tokens with every filter of that length if and only if every launch reads tokens that
      end as the committed ones do. */
  lemma RunIsRightIff(L: nat, specQueryLen: nat, slot: Slot, m: Memory, s: seq<real>, steps: seq<Step>)
    requires SlotFits(L, slot, specQueryLen) && AllLaunchable(steps, specQueryLen)
    requires Represents(L, specQueryLen, slot, m)
    ensures RightForAllFilters(L, specQueryLen, slot, s, steps) <==> EndsAgree(L, specQueryLen, m, s, steps)
  {
    if EndsAgree(L, specQueryLen, m, s, steps) {
      forall f: Filter | f.Valid() && f.StateLen() == L
        ensures RunOutputs(f, specQueryLen, slot, steps) == ReferenceOutputs(f, s, steps)
      {
        RunComputesWhatItReads(f, specQueryLen, slot, m, steps);
        AgreeingRun(f, specQueryLen, m, s, steps);
      }
    } else {
      var f := DisagreeingRun(L, specQueryLen, m, s, steps);
      RunComputesWhatItReads(f, specQueryLen, slot, m, steps);
    }
  }

  // --------------------------------------------------------- schedules that are safe

  /** The slot stands for the committed sequence `s`. */
  ghost predicate Tracks(L: nat, slot: Slot, s: seq<real>) {
    if slot.live then slot.numAcc >= 1 && Remembers(L, slot.window, slot.numAcc - 1, s)
    else s == [] && slot.numAcc == 1
  }

  /** The modes follow each other safely: a draft needs a slot in use, an unflagged decode
      too, every draft keeps at least its first token, and a plain launch comes after a draft
      only if exactly that one was kept. */
  predicate SafeOrder(unused: bool, kept: nat, steps: seq<Step>)
    decreases |steps|
  {
    steps == [] ||
    (match steps[0]
     case PrefillStep(_) => kept == 1 && SafeOrder(false, 1, steps[1..])
     case DecodeStep(_, flagged) => kept == 1 && (flagged || !unused) && SafeOrder(false, 1, steps[1..])
     case SpecStep(_, a) => !unused && a >= 1 && SafeOrder(false, a, steps[1..]))
  }

  lemma EndExtends(L: nat, r: seq<real>, s: seq<real>, more: seq<real>)
    requires End(L, r) == End(L, s)
    ensures End(L, r + more) == End(L, s + more)
  {
    EndAfter(L, r, more);
    EndAfter(L, s, more);
  }

  lemma EndAfter(L: nat, s: seq<real>, more: seq<real>)
    ensures End(L, s + more) == (End(L, s) + more)[|more|..]
  {
    assert Zeros(L) + (s + more) == (Zeros(L) + s) + more;
  }

  lemma {:induction false} SafeOrderAgrees(L: nat, specQueryLen: nat, m: Memory, kept: nat, s: seq<real>,
                                          steps: seq<Step>)
    requires AllLaunchable(steps, specQueryLen) && SafeOrder(m.unused, kept, steps)
    requires if m.unused then s == [] else End(L, m.back) == End(L, s)
    requires !m.unused && kept == 1 ==> End(L, m.front) == End(L, s)
    ensures EndsAgree(L, specQueryLen, m, s, steps)
    decreases |steps|
  {
    if steps != [] {
      var step := steps[0];
      assert Launchable(step, specQueryLen);
      var r, next := ReadBy(m, step), Grown(m, step);
      assert KeptTokens(step) == if step.SpecStep? then step.draft[..step.accepted] else step.Chunk();
      EndExtends(L, r, s, KeptTokens(step));
      if step.SpecStep? {
        EndExtends(L, r, s, step.draft[..1]);
        SafeOrderAgrees(L, specQueryLen, next, step.accepted, s + KeptTokens(step), steps[1..]);
      } else {
        SafeOrderAgrees(L, specQueryLen, next, 1, s + KeptTokens(step), steps[1..]);
      }
    }
  }

  /** Every launch of a run in a safe order yields, for every token of its chunk, the
      convolution of the whole sequence made of the tokens committed before it and this
      chunk.  The cells of the initial window beyond those read are arbitrary, so no output
      depends on an unwritten cell. */
  lemma RunIsWholeSequence(f: Filter, specQueryLen: nat, slot: Slot, s: seq<real>, steps: seq<Step>)
    requires f.Valid() && SlotFits(f.StateLen(), slot, specQueryLen) && Tracks(f.StateLen(), slot, s)
    requires AllLaunchable(steps, specQueryLen) && SafeOrder(!slot.live, slot.numAcc, steps)
    ensures RunOutputs(f, specQueryLen, slot, steps) == ReferenceOutputs(f, s, steps)
  {
    var L := f.StateLen();
    var m := MemoryOf(L, specQueryLen, slot);
    SafeOrderAgrees(L, specQueryLen, m, slot.numAcc, s, steps);
    RunComputesWhatItReads(f, specQueryLen, slot, m, steps);
    AgreeingRun(f, specQueryLen, m, s, steps);
  }

  // --------------------------------------------------- a plain launch after a draft

  /** The slot after a draft on a slot in use that stands for `s`. */
  function AfterDraft(L: nat, specQueryLen: nat, slot: Slot, draft: seq<real>, kept: nat): Slot
    requires SlotFits(L, slot, specQueryLen) && 1 <= kept <= |draft| <= specQueryLen
  {
    StepSlot(L, specQueryLen, slot, SpecStep(draft, kept))
  }

  lemma AfterDraftHolds(L: nat, specQueryLen: nat, slot: Slot, s: seq<real>, draft: seq<real>, kept: nat)
    requires SlotFits(L, slot, specQueryLen) && slot.live && Tracks(L, slot, s)
    requires 1 <= kept <= |draft| <= specQueryLen
    ensures var after := AfterDraft(L, specQueryLen, slot, draft, kept);
            && Tracks(L, after, s + draft[..kept]) && Remembers(L, after.window, 0, s + draft[..1])
            && Represents(L, specQueryLen, after, Memory(s + draft[..1], s + draft[..kept], false))
  {
    var m := MemoryOf(L, specQueryLen, slot).(back := s);
    StepKeepsMemory(L, specQueryLen, slot, m, SpecStep(draft, kept));
  }

  /** What it computes: whatever was kept, the convolution of the sequence with the draft's
      first token only. */
  lemma PlainAfterDraft(f: Filter, specQueryLen: nat, slot: Slot, s: seq<real>, draft: seq<real>, kept: nat,
                        step: Step)
    requires f.Valid() && SlotFits(f.StateLen(), slot, specQueryLen) && slot.live && Tracks(f.StateLen(), slot, s)
    requires 1 <= kept <= |draft| <= specQueryLen && !step.SpecStep?
    ensures StepOutputs(f, specQueryLen, AfterDraft(f.StateLen(), specQueryLen, slot, draft, kept), step) ==
            WholeOutputs(f, s + draft[..1], step.Chunk())
  {
    AfterDraftHolds(f.StateLen(), specQueryLen, slot, s, draft, kept);
    StepOutputsAreRead(f, specQueryLen, AfterDraft(f.StateLen(), specQueryLen, slot, draft, kept),
                       Memory(s + draft[..1], s + draft[..kept], false), step);
  }

  /** For one draft it is right with every filter exactly when the window, read from its
      start, remembers the committed tokens: when these end as they would with the draft's
      first token only. */
  lemma PlainAfterDraftIsRightIff(L: nat, specQueryLen: nat, slot: Slot, s: seq<real>, draft: seq<real>, kept: nat,
                                  step: Step)
    requires SlotFits(L, slot, specQueryLen) && slot.live && Tracks(L, slot, s)
    requires 1 <= kept <= |draft| <= specQueryLen && !step.SpecStep? && |step.Chunk()| >= 1
    ensures var after, t := AfterDraft(L, specQueryLen, slot, draft, kept), s + draft[..kept];
            && (RightForAllFilters(L, specQueryLen, after, t, [step]) <==> Remembers(L, after.window, 0, t))
            && (Remembers(L, after.window, 0, t) <==> End(L, s + draft[..1]) == End(L, t))
            && (kept == 1 ==> Remembers(L, after.window, 0, t))
  {
    var after, t := AfterDraft(L, specQueryLen, slot, draft, kept), s + draft[..kept];
    var m := Memory(s + draft[..1], t, false);
    AfterDraftHolds(L, specQueryLen, slot, s, draft, kept);
    RunIsRightIff(L, specQueryLen, after, m, t, [step]);
    assert EndsAgree(L, specQueryLen, Grown(m, step), t + KeptTokens(step), [step][1..]);
  }

  /** For every draft of that length it is right exactly when one token was kept, or the
      filter has no state: the guard a scheduler can check. */
  lemma PlainAfterDraftIsSafeIff(L: nat, length: nat, kept: nat)
    requires 1 <= kept <= length
    ensures (forall s: seq<real>, draft: seq<real> :: |draft| == length ==>
               End(L, s + draft[..1]) == End(L, s + draft[..kept])) <==> kept == 1 || L == 0
  {
    if kept != 1 && L != 0 {
      var draft := seq(length, i => i as real);
      assert End(L, [] + draft[..1])[L - 1] == 0.0;
      assert End(L, [] + draft[..kept])[L - 1] == (kept - 1) as real;
    }
  }

  /** It happens: two taps of which the older one counts, a window that holds 5, a draft 1, 2
      kept whole, and then 3.  The decode yields 1 where the sequence 5, 1, 2, 3 has 2. */
  lemma DecodeAfterDraftMisses()
    ensures var f, slot := Filter([1.0, 0.0], 1), Slot([5.0, 0.0], true, 1);
            && f.Valid() && f.StateLen() == 1 && SlotFits(1, slot, 2) && Tracks(1, slot, [5.0])
            && var after := AfterDraft(1, 2, slot, [1.0, 2.0], 2);
               && StepOutputs(f, 2, after, DecodeStep(3.0, true)) == [1.0]
               && WholeOutputs(f, [5.0, 1.0, 2.0], [3.0]) == [2.0]
  {
    var f, slot := Filter([1.0, 0.0], 1), Slot([5.0, 0.0], true, 1);
    assert Times(1, 1) == Times(0, 1) + 1 == 1;
    assert f.StateLen() == 1;
    assert slot.window[0..1] == [5.0] == End(1, [5.0]);
    PlainAfterDraft(f, 2, slot, [5.0], [1.0, 2.0], 2, DecodeStep(3.0, true));
    assert [5.0] + [1.0, 2.0][..1] == [5.0, 1.0];
    OlderTap(f, [5.0, 1.0], 3.0);
    OlderTap(f, [5.0, 1.0, 2.0], 3.0);
  }

  lemma OlderTap(f: Filter, s: seq<real>, x: real)
    requires f == Filter([1.0, 0.0], 1) && f.StateLen() == 1 && s != []
    ensures WholeOutputs(f, s, [x]) == [s[|s| - 1]]
  {
    var h := Zeros(1) + (s + [x]);
    assert Times(0, 1) == 0 && Times(1, 1) == 1;
    assert Taps(f, h, |s|, 0) == 0.0;
    assert Taps(f, h, |s|, 1) == h[|s|];
    assert WholeConv(f, s + [x], |s|) == Taps(f, h, |s|, 2) == h[|s|] == s[|s| - 1];
    assert WholeOutputs(f, s, [x])[0] == WholeConv(f, s + [x], |s|);
  }

  /** A draft reads the window of an unused slot too: it is right with every filter exactly
      when the cells it reads are zero. */
  lemma DraftOnUnusedSlotIsRightIff(L: nat, specQueryLen: nat, slot: Slot, draft: seq<real>, kept: nat)
    requires SlotFits(L, slot, specQueryLen) && !slot.live && 1 <= |draft| <= specQueryLen && kept <= |draft|
    ensures var off := SlotOffset(Spec, slot.numAcc, specQueryLen);
            RightForAllFilters(L, specQueryLen, slot, [], [SpecStep(draft, kept)]) <==>
            slot.window[off..off + L] == Zeros(L)
  {
    var m, step := MemoryOf(L, specQueryLen, slot), SpecStep(draft, kept);
    RunIsRightIff(L, specQueryLen, slot, m, [], [step]);
    assert EndsAgree(L, specQueryLen, Grown(m, step), [] + KeptTokens(step), [step][1..]);
    EndOfItself(L, m.back);
    EndOfItself(L, Zeros(L));
    assert End(L, []) == Zeros(L);
  }

  // ------------------------------------------------------------------ chunk invariance

  function Concat(parts: seq<seq<real>>): seq<real> {
    if parts == [] then [] else parts[0] + Concat(parts[1..])
  }

  predicate NoDrafts(steps: seq<Step>) {
    forall i :: 0 <= i < |steps| ==> !steps[i].SpecStep?
  }

  lemma {:induction false} CommittedExtends(s: seq<real>, steps: seq<Step>)
    ensures |s| <= |Committed(s, steps)| && Committed(s, steps)[..|s|] == s
    decreases |steps|
  {
    if steps != [] {
      var t := s + KeptTokens(steps[0]);
      CommittedExtends(t, steps[1..]);
      assert Committed(s, steps)[..|s|] == Committed(t, steps[1..])[..|t|][..|s|];
    }
  }

  lemma SplitTail(all: seq<real>, s: seq<real>, chunk: seq<real>)
    requires |s + chunk| <= |all| && all[..|s + chunk|] == s + chunk
    ensures all[|s|..] == chunk + all[|s + chunk|..]
  {
    assert all == (s + chunk) + all[|s + chunk|..];
  }

  /** Reference outputs of undrafted chunks, put end to end, are the outputs of the
      concatenated sequence. */
  lemma {:induction false} ReferenceIsChunkFree(f: Filter, s: seq<real>, steps: seq<Step>, all: seq<real>)
    requires f.Valid() && NoDrafts(steps) && all == Committed(s, steps)
    ensures |s| <= |all| && Concat(ReferenceOutputs(f, s, steps)) == WholeOutputs(f, s, all[|s|..])
    decreases |steps|
  {
    CommittedExtends(s, steps);
    if steps == [] {
      assert all[|s|..] == [];
    } else {
      var chunk := steps[0].Chunk();
      var t := s + chunk;
      assert KeptTokens(steps[0]) == chunk;
      ReferenceIsChunkFree(f, t, steps[1..], all);
      CommittedExtends(t, steps[1..]);
      SplitTail(all, s, chunk);
      WholeOutputsJoin(f, s, chunk, all[|t|..]);
    }
  }

  /** Chunk invariance: however a sequence is cut into prefill and flagged decode chunks, the
      outputs put end to end are the convolution of the whole sequence, and the first chunk
      may find any bytes in its slot. */
  lemma ChunkInvariance(f: Filter, garbage: seq<real>, steps: seq<Step>)
    requires f.Valid() && f.StateLen() <= |garbage| && AllLaunchable(steps, 1) && NoDrafts(steps)
    requires forall i :: 0 <= i < |steps| && steps[i].DecodeStep? ==> steps[i].flagged
    ensures Concat(RunOutputs(f, 1, Slot(garbage, false, 1), steps)) ==
            WholeOutputs(f, [], Committed([], steps))
  {
    NoDraftsIsSafe(true, steps);
    RunIsWholeSequence(f, 1, Slot(garbage, false, 1), [], steps);
    ReferenceIsChunkFree(f, [], steps, Committed([], steps));
    assert Committed([], steps)[0..] == Committed([], steps);
  }

  lemma {:induction false} NoDraftsIsSafe(unused: bool, steps: seq<Step>)
    requires NoDrafts(steps)
    requires forall i :: 0 <= i < |steps| && steps[i].DecodeStep? ==> steps[i].flagged
    ensures SafeOrder(unused, 1, steps)
    decreases |steps|
  {
    if steps != [] {
      NoDraftsIsSafe(false, steps[1..]);
    }
  }
}
