/** The KV-cache layout of the drafter's sliding-window layers: how their block is chosen,
    which layouts are accepted, and who shares which tensor. */
module DrafterLayout {
  import opened Arithmetic
  import opened Options

  type Name = string

  /** A sliding-window spec: tokens per block, real bytes per token, forced page size. */
  datatype Spec = Spec(blockSize: nat, bytesPerToken: nat, padded: Option<nat>)

  predicate Sized(s: Spec) { s.blockSize > 0 && s.bytesPerToken > 0 }

  function PageBytes(s: Spec): nat {
    if s.padded.Some? then s.padded.value else s.blockSize * s.bytesPerToken
  }

  const COMPACT_BLOCK: nat := 64

  /** The target model's side of the layout. */
  datatype Target = Target(mlaNames: seq<Name>, idxNames: seq<Name>, tailNames: seq<Name>,
                           mambaGroups: seq<seq<Name>>, mlaBlock: nat, mlaPage: nat, idxPage: nat)

  predicate TargetSized(t: Target) {
    && t.mlaBlock > 0 && t.mlaPage > 0 && t.mlaNames != []
    && (t.tailNames == [] || |t.tailNames| == |t.idxNames|)
  }

  // --------------------------------------------------------------- the group builder

  /** Bytes per token as the builder works them out; zero when a padded page is smaller
      than the block has tokens. */
  function PerToken(draft: Spec): nat
    requires Sized(draft)
  {
    PageBytes(draft) / draft.blockSize
  }

  /** Tokens that fill one MLA page, or zero. */
  function FitBlock(draft: Spec, t: Target): nat
    requires Sized(draft) && PerToken(draft) > 0
  {
    if t.mlaPage % PerToken(draft) == 0 then t.mlaPage / PerToken(draft) else 0
  }

  predicate ExactFit(draft: Spec, layers: nat, t: Target)
    requires Sized(draft) && PerToken(draft) > 0 && TargetSized(t)
  {
    var fit := FitBlock(draft, t);
    && fit > 0 && fit % 64 == 0 && (fit % t.mlaBlock == 0 || t.mlaBlock % fit == 0) && layers <= |t.mlaNames|
  }

  /** The spec given to every drafter layer. */
  function Rescaled(draft: Spec, layers: nat, t: Target): Spec
    requires Sized(draft) && PerToken(draft) > 0 && TargetSized(t)
  {
    if ExactFit(draft, layers, t) then draft.(blockSize := FitBlock(draft, t))
    else draft.(blockSize := COMPACT_BLOCK, padded := Some(t.mlaPage))
  }

  // -------------------------------------------------------------- layout validation

  /** A drafter group: its layers and their specs. */
  datatype Draft = Draft(names: seq<Name>, specs: seq<Spec>)

  predicate DraftShaped(d: Draft) {
    |d.names| == |d.specs| > 0 && forall i :: 0 <= i < |d.specs| ==> Sized(d.specs[i])
  }

  /** The checks of `_glm5_next_tensor_layout` on the drafter group. */
  predicate Accepted(d: Draft, t: Target)
    requires DraftShaped(d)
  {
    && (forall i :: 0 <= i < |d.specs| ==> PageBytes(d.specs[i]) == PageBytes(d.specs[0]))
    && ((exists i :: 0 <= i < |d.specs| && d.specs[i].padded.Some?) ==>
          forall i :: 0 <= i < |d.specs| ==>
            d.specs[i].blockSize == COMPACT_BLOCK && d.specs[i].padded == Some(t.mlaPage))
    && (PageBytes(d.specs[0]) == t.mlaPage ==> |d.names| <= |t.mlaNames|)
  }

  /** The group the builder appends; it divides by zero when the bytes per token come out
      as zero. */
  function Built(names: seq<Name>, draft: Spec, t: Target): Option<Draft>
    requires names != [] && Sized(draft) && TargetSized(t)
  {
    if PerToken(draft) == 0 then None
    else Some(Draft(names, seq(|names|, i requires 0 <= i < |names| => Rescaled(draft, |names|, t))))
  }

  lemma FitFillsPage(page: nat, perToken: nat)
    requires perToken > 0 && page % perToken == 0
    ensures (page / perToken) * perToken == page
  {
  }

  lemma UnpaddedPerToken(draft: Spec)
    requires Sized(draft) && draft.padded.None?
    ensures PerToken(draft) == draft.bytesPerToken
  {
    DivModOf(PageBytes(draft), draft.bytesPerToken, 0, draft.blockSize);
  }

  /** The builder makes the drafter's page the MLA page: really, when a plain spec fits
      exactly, and by padding when nothing fits.  Only a spec that comes padded to another
      page, and whose bytes per token fit, keeps its own. */
  lemma BuiltPageIsMlaPage(draft: Spec, layers: nat, t: Target)
    requires Sized(draft) && PerToken(draft) > 0 && TargetSized(t)
    ensures PageBytes(Rescaled(draft, layers, t)) == t.mlaPage <==>
            draft.padded.None? || !ExactFit(draft, layers, t) || draft.padded == Some(t.mlaPage)
    ensures draft.padded.None? && ExactFit(draft, layers, t) ==>
              var s := Rescaled(draft, layers, t);
              s.padded.None? && s.blockSize * s.bytesPerToken == t.mlaPage && Sized(s)
  {
    if draft.padded.None? {
      UnpaddedPerToken(draft);
      if ExactFit(draft, layers, t) {
        FitFillsPage(t.mlaPage, draft.bytesPerToken);
      }
    }
  }

  /** The built group is accepted exactly when there is an MLA tensor for every drafter
      layer and no padding of another block or page has survived an exact fit.  An accepted
      group shares the MLA tensors: the stand-alone tensors that the design text promises
      for more drafter layers are never reached from the builder. */
  lemma BuiltAcceptedIff(names: seq<Name>, draft: Spec, t: Target)
    requires names != [] && Sized(draft) && TargetSized(t)
    ensures Built(names, draft, t).None? <==> draft.padded.Some? && draft.padded.value < draft.blockSize
    ensures Built(names, draft, t).Some? ==>
              var d := Built(names, draft, t).value;
              && DraftShaped(d)
              && (Accepted(d, t) <==>
                    && |names| <= |t.mlaNames|
                    && (draft.padded.None? || !ExactFit(draft, |names|, t)
                        || (FitBlock(draft, t) == COMPACT_BLOCK && draft.padded == Some(t.mlaPage))))
              && (Accepted(d, t) || draft.padded.None? ==> Shared(d, t))
  {
    ZeroPerToken(draft);
    if Built(names, draft, t).Some? {
      BuiltPageIsMlaPage(draft, |names|, t);
      var d := Built(names, draft, t).value;
      assert d.specs[0] == Rescaled(draft, |names|, t);
    }
  }

  lemma ZeroPerToken(draft: Spec)
    requires Sized(draft)
    ensures PerToken(draft) == 0 <==> draft.padded.Some? && draft.padded.value < draft.blockSize
  {
    if draft.padded.None? {
      UnpaddedPerToken(draft);
    }
  }

  // ------------------------------------------------------------- tensors and bytes

  datatype Tensor = Tensor(size: nat, sharedBy: seq<Name>)

  /** The drafter rides the MLA tensors. */
  predicate Shared(d: Draft, t: Target)
    requires DraftShaped(d)
  {
    PageBytes(d.specs[0]) == t.mlaPage
  }

  function PerBlock(d: Draft, t: Target): nat
    requires DraftShaped(d)
  {
    |t.mlaNames| * t.mlaPage + |t.idxNames| * t.idxPage +
    (if Shared(d, t) then 0 else |d.names| * PageBytes(d.specs[0]))
  }

  /** `_pool_bytes_per_block`, accumulated. */
  method PoolBytesPerBlock(d: Draft, t: Target) returns (perBlock: nat)
    requires DraftShaped(d)
    ensures perBlock == PerBlock(d, t)
  {
    perBlock := |t.mlaNames| * t.mlaPage + |t.idxNames| * t.idxPage;
    if PageBytes(d.specs[0]) != t.mlaPage {
      perBlock := perBlock + |d.names| * PageBytes(d.specs[0]);
    }
  }

  /** The layers of the mamba groups that ride tensor `i`. */
  function MambaAt(groups: seq<seq<Name>>, i: nat): seq<Name> {
    if groups == [] then []
    else (if i < |groups[0]| then [groups[0][i]] else []) + MambaAt(groups[1..], i)
  }

  function MlaTensors(d: Draft, t: Target, blocks: nat): (r: seq<Tensor>)
    requires DraftShaped(d)
    ensures |r| == |t.mlaNames|
  {
    seq(|t.mlaNames|, i requires 0 <= i < |t.mlaNames| =>
      Tensor(t.mlaPage * blocks,
             [t.mlaNames[i]] + MambaAt(t.mambaGroups, i) +
             (if Shared(d, t) && i < |d.names| then [d.names[i]] else [])))
  }

  function IdxTensors(t: Target, blocks: nat): (r: seq<Tensor>)
    requires TargetSized(t)
    ensures |r| == |t.idxNames|
  {
    seq(|t.idxNames|, i requires 0 <= i < |t.idxNames| =>
      Tensor(t.idxPage * blocks, if t.tailNames != [] then [t.idxNames[i], t.tailNames[i]] else [t.idxNames[i]]))
  }

  function DraftTensors(d: Draft, t: Target, blocks: nat): (r: seq<Tensor>)
    requires DraftShaped(d)
    ensures |r| == if Shared(d, t) then 0 else |d.names|
  {
    if Shared(d, t) then []
    else seq(|d.names|, i requires 0 <= i < |d.names| => Tensor(PageBytes(d.specs[0]) * blocks, [d.names[i]]))
  }

  function Tensors(d: Draft, t: Target, blocks: nat): seq<Tensor>
    requires DraftShaped(d) && TargetSized(t)
  {
    MlaTensors(d, t, blocks) + IdxTensors(t, blocks) + DraftTensors(d, t, blocks)
  }

  function NumBlocks(d: Draft, t: Target, available: nat): nat
    requires DraftShaped(d) && TargetSized(t)
  {
    PerBlockPositive(d, t);
    available / PerBlock(d, t)
  }

  lemma PerBlockPositive(d: Draft, t: Target)
    requires DraftShaped(d) && TargetSized(t)
    ensures PerBlock(d, t) > 0
  {
    assert |t.mlaNames| * t.mlaPage >= t.mlaPage;
  }

  function Total(tensors: seq<Tensor>): nat {
    if tensors == [] then 0 else Total(tensors[..|tensors| - 1]) + tensors[|tensors| - 1].size
  }

  lemma {:induction false} TotalConcat(a: seq<Tensor>, b: seq<Tensor>)
    ensures Total(a + b) == Total(a) + Total(b)
    decreases |b|
  {
    if b == [] {
      assert a + b == a;
    } else {
      assert (a + b)[..|a + b| - 1] == a + b[..|b| - 1];
      TotalConcat(a, b[..|b| - 1]);
    }
  }

  lemma {:induction false} TotalEqual(tensors: seq<Tensor>, page: nat, blocks: nat)
    requires forall i :: 0 <= i < |tensors| ==> tensors[i].size == page * blocks
    ensures Total(tensors) == |tensors| * page * blocks
  {
    if tensors != [] {
      TotalEqual(tensors[..|tensors| - 1], page, blocks);
      OneMore(|tensors| - 1, page, blocks);
    }
  }

  lemma OneMore(n: nat, page: nat, blocks: nat)
    ensures (n + 1) * page * blocks == n * page * blocks + page * blocks
  {
    assert (n + 1) * page == n * page + page;
  }

  lemma Distribute(a: nat, b: nat, c: nat, blocks: nat)
    ensures (a + b + c) * blocks == a * blocks + b * blocks + c * blocks
  {
  }

  /** Conservation: the emitted tensors take exactly the pool's bytes per block for every
      block, and together fit the available memory. */
  lemma TensorsFillPool(d: Draft, t: Target, available: nat)
    requires DraftShaped(d) && TargetSized(t)
    ensures var blocks := NumBlocks(d, t, available);
            Total(Tensors(d, t, blocks)) == PerBlock(d, t) * blocks <= available
  {
    var blocks := NumBlocks(d, t, available);
    TotalIs(d, t, blocks);
    PerBlockPositive(d, t);
    Fits(available, PerBlock(d, t));
  }

  lemma TotalIs(d: Draft, t: Target, blocks: nat)
    requires DraftShaped(d) && TargetSized(t)
    ensures Total(Tensors(d, t, blocks)) == PerBlock(d, t) * blocks
  {
    var mla, idx, own := MlaTensors(d, t, blocks), IdxTensors(t, blocks), DraftTensors(d, t, blocks);
    TotalConcat(mla + idx, own);
    TotalConcat(mla, idx);
    TotalEqual(mla, t.mlaPage, blocks);
    TotalEqual(idx, t.idxPage, blocks);
    TotalEqual(own, PageBytes(d.specs[0]), blocks);
    PerBlockParts(d, t, |own|, blocks);
  }

  lemma PerBlockParts(d: Draft, t: Target, own: nat, blocks: nat)
    requires DraftShaped(d) && own == if Shared(d, t) then 0 else |d.names|
    ensures PerBlock(d, t) * blocks ==
            |t.mlaNames| * t.mlaPage * blocks + |t.idxNames| * t.idxPage * blocks + own * PageBytes(d.specs[0]) * blocks
  {
    assert own == 0 ==> own * PageBytes(d.specs[0]) == 0;
    Distribute(|t.mlaNames| * t.mlaPage, |t.idxNames| * t.idxPage, own * PageBytes(d.specs[0]), blocks);
  }

  lemma Fits(available: nat, perBlock: nat)
    requires perBlock > 0
    ensures perBlock * (available / perBlock) <= available
  {
  }

  /** All layer names are different: they are the keys of one dictionary. */
  predicate Distinct(d: Draft, t: Target) {
    && (forall i, j :: 0 <= i < j < |d.names| ==> d.names[i] != d.names[j])
    && (forall i :: 0 <= i < |d.names| ==>
          && d.names[i] !in t.mlaNames && d.names[i] !in t.idxNames && d.names[i] !in t.tailNames
          && (forall g :: 0 <= g < |t.mambaGroups| ==> d.names[i] !in t.mambaGroups[g]))
  }

  lemma {:induction false} NotMamba(groups: seq<seq<Name>>, i: nat, name: Name)
    requires forall g :: 0 <= g < |groups| ==> name !in groups[g]
    ensures name !in MambaAt(groups, i)
  {
    if groups != [] {
      NotMamba(groups[1..], i, name);
    }
  }

  /** The tensor a drafter layer belongs to. */
  function Home(d: Draft, t: Target, i: nat): nat
    requires DraftShaped(d)
  {
    if Shared(d, t) then i else |t.mlaNames| + |t.idxNames| + i
  }

  lemma OnlyInMla(d: Draft, t: Target, blocks: nat, i: nat, k: nat)
    requires DraftShaped(d) && Distinct(d, t) && i < |d.names| && k < |t.mlaNames|
    ensures d.names[i] in MlaTensors(d, t, blocks)[k].sharedBy <==> Shared(d, t) && k == i
  {
    NotMamba(t.mambaGroups, k, d.names[i]);
    assert t.mlaNames[k] in t.mlaNames;
  }

  lemma NotInIdx(d: Draft, t: Target, blocks: nat, i: nat, k: nat)
    requires TargetSized(t) && Distinct(d, t) && i < |d.names| && k < |t.idxNames|
    ensures d.names[i] !in IdxTensors(t, blocks)[k].sharedBy
  {
    assert t.idxNames[k] in t.idxNames;
    if t.tailNames != [] {
      assert t.tailNames[k] in t.tailNames;
    }
  }

  /** In every accepted layout each drafter layer is in exactly one tensor. */
  lemma InExactlyOneTensor(d: Draft, t: Target, blocks: nat, i: nat)
    requires DraftShaped(d) && TargetSized(t) && Accepted(d, t) && Distinct(d, t) && i < |d.names|
    ensures var tensors := Tensors(d, t, blocks);
            && Home(d, t, i) < |tensors|
            && (forall k :: 0 <= k < |tensors| ==> (d.names[i] in tensors[k].sharedBy <==> k == Home(d, t, i)))
  {
    var tensors := Tensors(d, t, blocks);
    var mla, idx := |t.mlaNames|, |t.idxNames|;
    forall k | 0 <= k < |tensors|
      ensures d.names[i] in tensors[k].sharedBy <==> k == Home(d, t, i)
    {
      if k < mla {
        OnlyInMla(d, t, blocks, i, k);
        assert tensors[k] == MlaTensors(d, t, blocks)[k];
      } else if k < mla + idx {
        NotInIdx(d, t, blocks, i, k - mla);
        assert tensors[k] == IdxTensors(t, blocks)[k - mla];
      } else {
        assert tensors[k] == DraftTensors(d, t, blocks)[k - mla - idx];
      }
    }
  }

  /** Without enough MLA tensors, a layer of a sharing drafter would be in none: the check
      on the layer count is what prevents it. */
  lemma TooManyLayersLosesOne(d: Draft, t: Target, blocks: nat)
    requires DraftShaped(d) && TargetSized(t) && Distinct(d, t) && Shared(d, t) && |d.names| > |t.mlaNames|
    ensures !Accepted(d, t)
    ensures forall k :: 0 <= k < |Tensors(d, t, blocks)| ==> d.names[|t.mlaNames|] !in Tensors(d, t, blocks)[k].sharedBy
  {
    var tensors, i := Tensors(d, t, blocks), |t.mlaNames|;
    forall k | 0 <= k < |tensors|
      ensures d.names[i] !in tensors[k].sharedBy
    {
      if k < |t.mlaNames| {
        OnlyInMla(d, t, blocks, i, k);
        assert tensors[k] == MlaTensors(d, t, blocks)[k];
      } else {
        NotInIdx(d, t, blocks, i, k - |t.mlaNames|);
        assert tensors[k] == IdxTensors(t, blocks)[k - |t.mlaNames|];
      }
    }
  }

  // ------------------------------------------------------------ where blocks land

  /** First byte of kernel block `j` of manager block `b` in the contiguous view. */
  function KernelStart(page: nat, kernelBytes: nat, b: nat, j: nat): nat { b * page + j * kernelBytes }

  /** Exact fit: however the backend splits the manager block, every kernel block lies
      inside the page of its own manager block. */
  lemma KernelBlockInPage(draft: Spec, layers: nat, t: Target, kernel: nat, b: nat, j: nat)
    requires Sized(draft) && PerToken(draft) > 0 && TargetSized(t)
    requires draft.padded.None? && ExactFit(draft, layers, t)
    requires kernel > 0 && FitBlock(draft, t) % kernel == 0 && j < FitBlock(draft, t) / kernel
    ensures var bytes := kernel * draft.bytesPerToken;
            var start := KernelStart(t.mlaPage, bytes, b, j);
            b * t.mlaPage <= start && start + bytes <= (b + 1) * t.mlaPage
  {
    BuiltPageIsMlaPage(draft, layers, t);
    UnpaddedPerToken(draft);
    var fit, per := FitBlock(draft, t), draft.bytesPerToken;
    var split := fit / kernel;
    MulStep(j, split, kernel * per);
    assert split * (kernel * per) == t.mlaPage by {
      assert split * kernel == fit;
      assert split * (kernel * per) == (split * kernel) * per;
    }
  }

  /** So kernel blocks of different manager blocks never overlap, whoever of the tensor's
      owners they belong to. */
  lemma DistinctBlocksDisjoint(page: nat, b: nat, c: nat, x: nat, y: nat)
    requires b != c
    requires b * page <= x < (b + 1) * page && c * page <= y < (c + 1) * page
    ensures x != y
  {
    if b < c {
      MulStep(b, c, page);
    } else {
      MulStep(c, b, page);
    }
  }

  /** The multiples of 64 that the exact fit insists on are divisible by every kernel block
      the sliding-window backends use. */
  lemma FitBlockSplits(fit: nat, kernel: nat)
    requires fit % 64 == 0 && kernel in {16, 32, 64}
    ensures fit % kernel == 0
  {
    Halves(fit);
    assert kernel == 16 || kernel == 32 || kernel == 64;
  }

  lemma Halves(fit: nat)
    requires fit % 64 == 0
    ensures fit % 32 == 0 && fit % 16 == 0
  {
  }

  /** Padded slot-share uses the strided view: one stride of a page per kernel block.  Its
      last kernel block ends inside the tensor if and only if the kernel block is the
      manager block, provided the 64 tokens' real bytes fit a page. */
  lemma PaddedFitsIff(page: nat, perToken: nat, kernel: nat, blocks: nat)
    requires kernel in {16, 32, 64} && blocks > 0 && perToken > 0 && COMPACT_BLOCK * perToken <= page
    ensures var count := blocks * (COMPACT_BLOCK / kernel);
            (count - 1) * page + kernel * perToken <= blocks * page <==> kernel == COMPACT_BLOCK
  {
    var split := COMPACT_BLOCK / kernel;
    if kernel == 64 {
      assert blocks * page == (blocks - 1) * page + page;
    } else {
      assert split >= 2;
      assert blocks * split >= blocks + 1 by {
        assert blocks * split >= blocks * 2;
      }
      var count := blocks * split;
      assert (count - 1) * page >= blocks * page by {
        assert (count - 1 - blocks) * page >= 0;
      }
    }
  }

  /** The deployed geometry, 656 bytes of MLA and 4096 bytes of drafter per token, never
      fits exactly, at no MLA block: the fitting block and the MLA block stand as 41 to 256,
      so neither divides the other.  (The design text names a block at which it fits.) */
  lemma DeployedGeometryNeverFits(draft: Spec, layers: nat, t: Target)
    requires Sized(draft) && TargetSized(t) && PerToken(draft) == 4096
    requires t.mlaPage == 656 * t.mlaBlock
    ensures !ExactFit(draft, layers, t)
  {
    if ExactFit(draft, layers, t) {
      FitFillsPage(t.mlaPage, PerToken(draft));
      RatioNeverDivides(FitBlock(draft, t), t.mlaBlock);
    }
  }

  lemma RatioNeverDivides(fit: nat, block: nat)
    requires fit > 0 && block > 0 && fit * 256 == block * 41
    ensures fit % block != 0 && block % fit != 0
  {
    Quotient(fit, block);
    NotMultiple(block, fit / block, 256, 41);
    Quotient(block, fit);
    NotMultiple(fit, block / fit, 41, 256);
  }

  /** `p * (d * k) == q * d` has no solution when `p` does not divide `q`. */
  lemma NotMultiple(d: nat, k: nat, p: nat, q: nat)
    requires d > 0 && (p, q) in {(256, 41), (41, 256)}
    ensures p * (k * d) != q * d
  {
    if p * (k * d) == q * d {
      assert (p * k) * d == q * d;
      if p * k < q {
        MulStep(p * k, q, d);
      } else if q < p * k {
        MulStep(q, p * k, d);
      }
    }
  }
}
