/** Workflow graphs: nodes keyed 1, 2, ... in the order they were added, inputs that are
    output slots of other nodes, and what flows along them. */
module Graphs {
  import opened Options

  /** Slot `slot` of node `node`; keys start at 1. */
  datatype Edge = Edge(node: nat, slot: nat)

  datatype Loaded = ModelFile | ClipFile | VaeFile | AudioVaeFile | UpscalerFile

  /** The node classes of the video lane with their linked inputs, then those of the image
      edit lane. */
  datatype Node =
    | Loader(what: Loaded)
    | TextEncode(clip: Edge)
    | Conditioning(positive: Edge, negative: Edge)
    | EmptyVideo
    | LoadImage
    | Preprocess(image: Edge)
    | ImgToVideoInplace(vae: Edge, image: Edge, latent: Edge)
    | AddGuide(positive: Edge, negative: Edge, vae: Edge, latent: Edge, image: Edge)
    | LoadAudio
    | AudioEncode(loaded: Edge, audioVae: Edge)
    | SolidMask
    | SetNoiseMask(samples: Edge, mask: Edge)
    | ReferenceAudio(model: Edge, positive: Edge, negative: Edge, loaded: Edge, audioVae: Edge)
    | EmptyAudio(audioVae: Edge)
    | ConcatAV(video: Edge, audio: Edge)
    | Scheduler(latent: Edge)
    | ManualSigmas
    | Guider(model: Edge, positive: Edge, negative: Edge)
    | Noise
    | SamplerSelect
    | Sample(noise: Edge, guider: Edge, sampler: Edge, sigmas: Edge, latent: Edge)
    | SeparateAV(av: Edge)
    | CropGuides(positive: Edge, negative: Edge, latent: Edge)
    | Upsampler(samples: Edge, upscaler: Edge, vae: Edge)
    | LoraModel(model: Edge)
    | DecodeTiled(samples: Edge, vae: Edge)
    | AudioDecode(samples: Edge, audioVae: Edge)
    | CreateVideo(images: Edge, audio: Edge)
    | QwenEncode(clip: Edge, vae: Edge, reference: Option<Edge>)
    | JoinAlpha(image: Edge, alpha: Edge)
    | EmptyImage
    | KSampler(model: Edge, positive: Edge, negative: Edge, latent: Edge)
    | Decode(samples: Edge, vae: Edge)
    /** A node of any other class, as its linked inputs. */
    | Other(links: seq<Edge>)

  function Links(n: Node): seq<Edge> {
    match n
    case Loader(_) => []
    case TextEncode(clip) => [clip]
    case Conditioning(p, q) => [p, q]
    case EmptyVideo => []
    case LoadImage => []
    case Preprocess(image) => [image]
    case ImgToVideoInplace(vae, image, latent) => [vae, image, latent]
    case AddGuide(p, q, vae, latent, image) => [p, q, vae, latent, image]
    case LoadAudio => []
    case AudioEncode(loaded, vae) => [loaded, vae]
    case SolidMask => []
    case SetNoiseMask(samples, mask) => [samples, mask]
    case ReferenceAudio(model, p, q, loaded, vae) => [model, p, q, loaded, vae]
    case EmptyAudio(vae) => [vae]
    case ConcatAV(video, audio) => [video, audio]
    case Scheduler(latent) => [latent]
    case ManualSigmas => []
    case Guider(model, p, q) => [model, p, q]
    case Noise => []
    case SamplerSelect => []
    case Sample(noise, guider, sampler, sigmas, latent) => [noise, guider, sampler, sigmas, latent]
    case SeparateAV(av) => [av]
    case CropGuides(p, q, latent) => [p, q, latent]
    case Upsampler(samples, upscaler, vae) => [samples, upscaler, vae]
    case LoraModel(model) => [model]
    case DecodeTiled(samples, vae) => [samples, vae]
    case AudioDecode(samples, vae) => [samples, vae]
    case CreateVideo(images, audio) => [images, audio]
    case QwenEncode(clip, vae, reference) => [clip, vae] + (if reference.Some? then [reference.value] else [])
    case JoinAlpha(image, alpha) => [image, alpha]
    case EmptyImage => []
    case KSampler(model, p, q, latent) => [model, p, q, latent]
    case Decode(samples, vae) => [samples, vae]
    case Other(links) => links
  }

  // ------------------------------------------------------------- shape of a graph

  /** Every link names an existing node. */
  predicate Closed(nodes: seq<Node>) {
    forall k, e :: 0 <= k < |nodes| && e in Links(nodes[k]) ==> 1 <= e.node <= |nodes|
  }

  /** Every link goes to an earlier node. */
  predicate Backward(nodes: seq<Node>) {
    forall k, e :: 0 <= k < |nodes| && e in Links(nodes[k]) ==> 1 <= e.node <= k
  }

  function RankOf(rank: seq<nat>, key: nat): nat {
    if 1 <= key <= |rank| then rank[key - 1] else 0
  }

  /** Along every link the rank falls, so there is no cycle. */
  predicate Ranked(nodes: seq<Node>, rank: seq<nat>) {
    && |rank| == |nodes| && Closed(nodes)
    && (forall k, e :: 0 <= k < |nodes| && e in Links(nodes[k]) ==> RankOf(rank, e.node) < rank[k])
  }

  ghost predicate Acyclic(nodes: seq<Node>) {
    exists rank :: Ranked(nodes, rank)
  }

  /** Node `a` links to node `b`. */
  predicate LinksTo(nodes: seq<Node>, a: nat, b: nat) {
    1 <= a <= |nodes| && exists e :: e in Links(nodes[a - 1]) && e.node == b
  }

  /** A path of links, as keys. */
  predicate Path(nodes: seq<Node>, path: seq<nat>) {
    forall i {:trigger LinksTo(nodes, path[i - 1], path[i])} :: 0 < i < |path| ==> LinksTo(nodes, path[i - 1], path[i])
  }

  lemma LinkLowersRank(nodes: seq<Node>, rank: seq<nat>, a: nat, b: nat)
    requires Ranked(nodes, rank) && LinksTo(nodes, a, b)
    ensures RankOf(rank, b) < RankOf(rank, a)
  {
    var e :| e in Links(nodes[a - 1]) && e.node == b;
  }

  lemma PathLowersRank(nodes: seq<Node>, rank: seq<nat>, path: seq<nat>, j: nat)
    requires Ranked(nodes, rank) && Path(nodes, path) && 0 < j < |path|
    ensures RankOf(rank, path[j]) < RankOf(rank, path[j - 1])
  {
    assert LinksTo(nodes, path[j - 1], path[j]);
    LinkLowersRank(nodes, rank, path[j - 1], path[j]);
  }

  /** What a rank is worth: it falls along every path, so no path comes back to where it
      started. */
  lemma {:induction false} RankFallsAlongPath(nodes: seq<Node>, rank: seq<nat>, path: seq<nat>, i: nat, j: nat)
    requires Ranked(nodes, rank) && Path(nodes, path) && i < j < |path|
    ensures RankOf(rank, path[j]) < RankOf(rank, path[i])
    decreases j - i
  {
    PathLowersRank(nodes, rank, path, j);
    if i < j - 1 {
      RankFallsAlongPath(nodes, rank, path, i, j - 1);
    }
  }

  lemma NoCycle(nodes: seq<Node>, path: seq<nat>, i: nat, j: nat)
    requires Acyclic(nodes) && Path(nodes, path) && i < j < |path|
    ensures path[i] != path[j]
  {
    var rank :| Ranked(nodes, rank);
    RankFallsAlongPath(nodes, rank, path, i, j);
  }

  lemma BackwardIsAcyclic(nodes: seq<Node>)
    requires Backward(nodes)
    ensures Closed(nodes) && Acyclic(nodes)
  {
    var rank := seq(|nodes|, k => k);
    assert Ranked(nodes, rank);
  }

  /** Adding a node that links to nodes already there keeps every link going back. */
  lemma BackwardAppends(nodes: seq<Node>, n: Node)
    requires Backward(nodes) && forall e :: e in Links(n) ==> 1 <= e.node <= |nodes|
    ensures Backward(nodes + [n])
  {
  }

  function Top(rank: seq<nat>): (n: nat)
    ensures forall i :: 0 <= i < |rank| ==> rank[i] < n
    ensures n > 0
  {
    if rank == [] then 1
    else
      var n := Top(rank[..|rank| - 1]);
      if rank[|rank| - 1] < n then n else rank[|rank| - 1] + 1
  }

  /** The same of a graph that is closed and acyclic in any other way. */
  lemma AcyclicAppends(nodes: seq<Node>, n: Node)
    requires Closed(nodes) && Acyclic(nodes) && forall e :: e in Links(n) ==> 1 <= e.node <= |nodes|
    ensures Closed(nodes + [n]) && Acyclic(nodes + [n])
  {
    var rank :| Ranked(nodes, rank);
    var more := rank + [Top(rank)];
    forall k, e | 0 <= k < |nodes + [n]| && e in Links((nodes + [n])[k])
      ensures 1 <= e.node <= |nodes| && RankOf(more, e.node) < more[k]
    {
      if k < |nodes| {
        assert RankOf(rank, e.node) < rank[k];
      }
    }
    assert Ranked(nodes + [n], more);
  }

  /** Adds whose links go to results: of the nodes there at the start, or of earlier adds. */
  predicate LinkToResults(start: seq<Node>, adds: seq<Node>) {
    forall k, e :: 0 <= k < |adds| && e in Links(adds[k]) ==> 1 <= e.node <= |start| + k
  }

  /** Whatever a builder adds, with nodes of any class: as long as it links to results it
      has, a closed and acyclic graph stays so, and one that links back only still does. */
  lemma {:induction false} AddsKeepAcyclic(start: seq<Node>, adds: seq<Node>)
    requires Closed(start) && Acyclic(start) && LinkToResults(start, adds)
    ensures Closed(start + adds) && Acyclic(start + adds)
    ensures Backward(start) ==> Backward(start + adds)
    decreases |adds|
  {
    if adds == [] {
      assert start + adds == start;
    } else {
      var n := |adds| - 1;
      AddsKeepAcyclic(start, adds[..n]);
      assert start + adds == (start + adds[..n]) + [adds[n]];
      AcyclicAppends(start + adds[..n], adds[n]);
      if Backward(start) {
        BackwardAppends(start + adds[..n], adds[n]);
      }
    }
  }

  /** From an empty graph: no path of links comes back to where it started. */
  lemma BuiltByAddsIsAcyclic(adds: seq<Node>, path: seq<nat>, i: nat, j: nat)
    requires LinkToResults([], adds)
    ensures Backward(adds) && Closed(adds) && Acyclic(adds)
    ensures Path(adds, path) && i < j < |path| ==> path[i] != path[j]
  {
    BackwardIsAcyclic([]);
    AddsKeepAcyclic([], adds);
    assert [] + adds == adds;
    if Path(adds, path) && i < j < |path| {
      NoCycle(adds, path, i, j);
    }
  }

  /** Giving node `a` one more link, to the later node `b`, keeps the graph closed and
      acyclic when none of the nodes after `a` up to `b` links to `a`. */
  lemma BackPatch(nodes: seq<Node>, patched: seq<Node>, a: nat, b: nat, slot: nat)
    requires Backward(nodes) && 1 <= a < b <= |nodes|
    requires forall k, e :: a <= k < b && e in Links(nodes[k]) ==> e.node != a
    requires |patched| == |nodes| && Links(patched[a - 1]) == Links(nodes[a - 1]) + [Edge(b, slot)]
    requires forall k :: 0 <= k < |nodes| && k != a - 1 ==> patched[k] == nodes[k]
    ensures Closed(patched) && Acyclic(patched)
  {
    assert Ranked(patched, PatchRank(|nodes|, a, b)) by {
      PatchIsRanked(nodes, patched, a, b, slot);
    }
  }

  lemma PatchIsRanked(nodes: seq<Node>, patched: seq<Node>, a: nat, b: nat, slot: nat)
    requires Backward(nodes) && 1 <= a < b <= |nodes|
    requires forall k, e :: a <= k < b && e in Links(nodes[k]) ==> e.node != a
    requires |patched| == |nodes| && Links(patched[a - 1]) == Links(nodes[a - 1]) + [Edge(b, slot)]
    requires forall k :: 0 <= k < |nodes| && k != a - 1 ==> patched[k] == nodes[k]
    ensures Ranked(patched, PatchRank(|nodes|, a, b))
  {
    var rank := PatchRank(|nodes|, a, b);
    forall k, e | 0 <= k < |patched| && e in Links(patched[k])
      ensures 1 <= e.node <= |patched| && RankOf(rank, e.node) < rank[k]
    {
      assert forall f :: f in Links(nodes[k]) ==> 1 <= f.node <= k;
      if k == a - 1 {
        PatchedLinkFalls(nodes, Links(nodes[k]), a, b, slot, k, e);
      } else {
        OldLinkFalls(Links(nodes[k]), a, b, |nodes|, k, e);
      }
    }
  }

  lemma PatchedLinkFalls(nodes: seq<Node>, links: seq<Edge>, a: nat, b: nat, slot: nat, k: nat, e: Edge)
    requires 1 <= a < b <= |nodes| && k == a - 1 && e in links + [Edge(b, slot)]
    requires forall f :: f in links ==> 1 <= f.node <= k
    ensures 1 <= e.node <= |nodes| && RankOf(PatchRank(|nodes|, a, b), e.node) < PatchRank(|nodes|, a, b)[k]
  {
    assert e in links || e == Edge(b, slot);
  }

  /** Node `a` moves up to just after node `b`. */
  function PatchRank(n: nat, a: nat, b: nat): (rank: seq<nat>)
    ensures |rank| == n
    ensures forall k :: 0 <= k < n ==> rank[k] == if k + 1 == a then 2 * b + 1 else 2 * (k + 1)
  {
    seq(n, k requires 0 <= k < n => if k + 1 == a then 2 * b + 1 else 2 * (k + 1))
  }

  lemma OldLinkFalls(links: seq<Edge>, a: nat, b: nat, n: nat, k: nat, e: Edge)
    requires 1 <= a < b <= n && k < n && k + 1 != a && e in links
    requires forall f :: f in links ==> 1 <= f.node <= k
    requires a <= k < b ==> e.node != a
    ensures 1 <= e.node <= n && RankOf(PatchRank(n, a, b), e.node) < PatchRank(n, a, b)[k]
  {
  }

  // -------------------------------------------------------- what flows along a link

  /** `guides` counts the reference frames appended to a latent and announced by its
      conditioning. */
  datatype Sig = Bad | Model | Clip | Vae | AudioVae | Upscaler | Image | Wave | Mask | Seed | SamplerName | Schedule
               | Cond(guides: nat) | Video(guides: nat) | AudioLatent | AV(guides: nat) | Guidance(guides: nat) | Movie

  /** Types of the output slots of the nodes so far. */
  type Types = map<Edge, Sig>

  function TypeAt(types: Types, e: Edge): Sig {
    if e in types then types[e] else Bad
  }

  function LoadedType(what: Loaded): Sig {
    match what
    case ModelFile => Model
    case ClipFile => Clip
    case VaeFile => Vae
    case AudioVaeFile => AudioVae
    case UpscalerFile => Upscaler
  }

  /** A pair of conditionings that announce the same number of guides. */
  predicate Conds(ts: Types, p: Edge, q: Edge) {
    TypeAt(ts, p).Cond? && TypeAt(ts, q) == TypeAt(ts, p)
  }

  /** Output types of a node of the video lane, or nothing when an input does not fit.
      Guides are added to and cropped from a video-only latent that carries as many as the
      conditioning announces, and the upsampler and the decoder take a latent without
      guides only. */
  function Outputs(n: Node, ts: Types): Option<seq<Sig>> {
    match n
    case Loader(what) => Some([LoadedType(what)])
    case TextEncode(clip) => if TypeAt(ts, clip).Clip? then Some([Cond(0)]) else None
    case Conditioning(p, q) => if Conds(ts, p, q) then Some([TypeAt(ts, p), TypeAt(ts, q)]) else None
    case EmptyVideo => Some([Video(0)])
    case LoadImage => Some([Image, Mask])
    case Preprocess(image) => if TypeAt(ts, image).Image? then Some([Image]) else None
    case ImgToVideoInplace(vae, image, latent) =>
      if TypeAt(ts, vae).Vae? && TypeAt(ts, image).Image? && TypeAt(ts, latent).Video?
      then Some([TypeAt(ts, latent)]) else None
    case AddGuide(p, q, vae, latent, image) =>
      if Conds(ts, p, q) && TypeAt(ts, vae).Vae? && TypeAt(ts, image).Image?
         && TypeAt(ts, latent) == Video(TypeAt(ts, p).guides)
      then var n := TypeAt(ts, p).guides + 1; Some([Cond(n), Cond(n), Video(n)]) else None
    case LoadAudio => Some([Wave])
    case AudioEncode(loaded, vae) =>
      if TypeAt(ts, loaded).Wave? && TypeAt(ts, vae).AudioVae? then Some([AudioLatent]) else None
    case SolidMask => Some([Mask])
    case SetNoiseMask(samples, mask) =>
      if TypeAt(ts, samples).AudioLatent? && TypeAt(ts, mask).Mask? then Some([AudioLatent]) else None
    case ReferenceAudio(model, p, q, loaded, vae) =>
      if TypeAt(ts, model).Model? && Conds(ts, p, q) && TypeAt(ts, loaded).Wave? && TypeAt(ts, vae).AudioVae?
      then Some([Model, TypeAt(ts, p), TypeAt(ts, q)]) else None
    case EmptyAudio(vae) => if TypeAt(ts, vae).AudioVae? then Some([AudioLatent]) else None
    case ConcatAV(video, audio) =>
      if TypeAt(ts, video).Video? && TypeAt(ts, audio).AudioLatent? then Some([AV(TypeAt(ts, video).guides)]) else None
    case Scheduler(latent) => if TypeAt(ts, latent).Video? then Some([Schedule]) else None
    case ManualSigmas => Some([Schedule])
    case Guider(model, p, q) =>
      if TypeAt(ts, model).Model? && Conds(ts, p, q) then Some([Guidance(TypeAt(ts, p).guides)]) else None
    case Noise => Some([Seed])
    case SamplerSelect => Some([SamplerName])
    case Sample(noise, guider, sampler, sigmas, latent) =>
      if TypeAt(ts, noise).Seed? && TypeAt(ts, sampler).SamplerName? && TypeAt(ts, sigmas).Schedule?
         && TypeAt(ts, guider).Guidance? && TypeAt(ts, latent) == AV(TypeAt(ts, guider).guides)
      then Some([TypeAt(ts, latent)]) else None
    case SeparateAV(av) => if TypeAt(ts, av).AV? then Some([Video(TypeAt(ts, av).guides), AudioLatent]) else None
    case CropGuides(p, q, latent) =>
      if Conds(ts, p, q) && TypeAt(ts, latent) == Video(TypeAt(ts, p).guides)
      then Some([Cond(0), Cond(0), Video(0)]) else None
    case Upsampler(samples, upscaler, vae) =>
      if TypeAt(ts, samples) == Video(0) && TypeAt(ts, upscaler).Upscaler? && TypeAt(ts, vae).Vae?
      then Some([Video(0)]) else None
    case LoraModel(model) => if TypeAt(ts, model).Model? then Some([Model]) else None
    case DecodeTiled(samples, vae) =>
      if TypeAt(ts, samples) == Video(0) && TypeAt(ts, vae).Vae? then Some([Image]) else None
    case AudioDecode(samples, vae) =>
      if TypeAt(ts, samples).AudioLatent? && TypeAt(ts, vae).AudioVae? then Some([Wave]) else None
    case CreateVideo(images, audio) =>
      if TypeAt(ts, images).Image? && TypeAt(ts, audio).Wave? then Some([Movie]) else None
    case _ => None
  }

  /** The slots of a node have these types; no node here has more than three. */
  ghost predicate Holds(types: Types, key: nat, slots: seq<Sig>) {
    && (|slots| > 0 ==> TypeAt(types, Edge(key, 0)) == slots[0])
    && (|slots| > 1 ==> TypeAt(types, Edge(key, 1)) == slots[1])
    && (|slots| > 2 ==> TypeAt(types, Edge(key, 2)) == slots[2])
  }

  /** A typed slot of the node is one of its first `n`. */
  ghost predicate SlotAmong(types: Types, e: Edge, key: nat, n: nat) {
    e in types && e.node == key ==> e.slot < n
  }

  ghost predicate NoMore(types: Types, key: nat, n: nat) {
    forall e: Edge {:trigger SlotAmong(types, e, key, n)} :: SlotAmong(types, e, key, n)
  }

  /** Node `k` fits its inputs, which come from earlier nodes, and exactly its slots have the
      types that follow. */
  ghost predicate NodeTyped(nodes: seq<Node>, types: Types, k: nat)
    requires k < |nodes|
  {
    && Outputs(nodes[k], types).Some?
    && Holds(types, k + 1, Outputs(nodes[k], types).value)
    && NoMore(types, k + 1, |Outputs(nodes[k], types).value|)
    && (forall e :: e in Links(nodes[k]) ==> 1 <= e.node <= k)
  }

  ghost predicate Typing(nodes: seq<Node>, types: Types) {
    && (forall k {:trigger NodeTyped(nodes, types, k)} :: 0 <= k < |nodes| ==> NodeTyped(nodes, types, k))
    && (forall e: Edge {:trigger KnownFrom(types, e, |nodes|)} :: KnownFrom(types, e, |nodes|))
  }

  /** A typed slot belongs to one of the first `n` nodes. */
  ghost predicate KnownFrom(types: Types, e: Edge, n: nat) {
    e in types ==> 1 <= e.node <= n && types[e] != Bad
  }

  /** A typed graph is closed and acyclic, with links to earlier nodes only. */
  lemma TypedIsBackward(nodes: seq<Node>, types: Types)
    requires Typing(nodes, types)
    ensures Backward(nodes) && Closed(nodes) && Acyclic(nodes)
  {
    forall k, e | 0 <= k < |nodes| && e in Links(nodes[k])
      ensures 1 <= e.node <= k
    {
      assert NodeTyped(nodes, types, k);
    }
    BackwardIsAcyclic(nodes);
  }

  // ------------------------------------------------------- guides, by the links alone

  /** The input of a node whose guides an output slot hands on; the other outputs have
      none. */
  function Source(n: Node, slot: nat): Option<Edge> {
    match n
    case Conditioning(p, q) => Some(if slot == 0 then p else q)
    case ImgToVideoInplace(_, _, latent) => Some(latent)
    case AddGuide(p, q, _, latent, _) => Some(if slot == 0 then p else if slot == 1 then q else latent)
    case ReferenceAudio(_, p, q, _, _) => if slot == 0 then None else Some(if slot == 1 then p else q)
    case ConcatAV(video, _) => Some(video)
    case Guider(_, p, _) => Some(p)
    case Sample(_, _, _, _, latent) => Some(latent)
    case SeparateAV(av) => if slot == 0 then Some(av) else None
    case CropGuides(_, _, latent) => if slot == 2 then Some(latent) else None
    case Upsampler(samples, _, _) => Some(samples)
    case _ => None
  }

  function Less(a: nat, b: nat): nat {
    if a <= b then 0 else a - b
  }

  /** The count on an earlier link. */
  function Before(nodes: seq<Node>, from: nat, e: Edge): nat
    decreases from, 0
  {
    if e.node < from then Carried(nodes, e) else 0
  }

  /** Reference frames that a conditioning or guider announces, or that a latent holds,
      followed back from node to node without any typing: a guide node adds one, a crop takes
      off as many as its conditioning announces. */
  function Carried(nodes: seq<Node>, e: Edge): nat
    decreases e.node, 1
  {
    if !(1 <= e.node <= |nodes|) then 0
    else
      var n := nodes[e.node - 1];
      match Source(n, e.slot)
      case None => 0
      case Some(f) =>
        Less(Before(nodes, e.node, f) + (if n.AddGuide? then 1 else 0),
             if n.CropGuides? then Before(nodes, e.node, n.positive) else 0)
  }

  /** The guide count a type states. */
  function Stated(t: Sig): Option<nat> {
    match t
    case Cond(n) => Some(n)
    case Video(n) => Some(n)
    case AV(n) => Some(n)
    case Guidance(n) => Some(n)
    case _ => None
  }

  /** The type of a link states what the link carries. */
  ghost predicate StatesCarried(nodes: seq<Node>, types: Types, e: Edge) {
    Stated(TypeAt(types, e)).Some? ==> Carried(nodes, e) == Stated(TypeAt(types, e)).value
  }

  /** The count a slot of node `n` states follows from the counts its inputs state. */
  predicate Flows(n: Node, ts: Types, slot: nat, stated: nat) {
    match Source(n, slot)
    case None => stated == 0
    case Some(f) =>
      && Stated(TypeAt(ts, f)).Some? && (n.CropGuides? ==> Stated(TypeAt(ts, n.positive)).Some?)
      && stated == Less(Stated(TypeAt(ts, f)).value + (if n.AddGuide? then 1 else 0),
                        if n.CropGuides? then Stated(TypeAt(ts, n.positive)).value else 0)
  }

  lemma SlotFlows(n: Node, ts: Types, slot: nat)
    requires Outputs(n, ts).Some? && slot < |Outputs(n, ts).value| && Stated(Outputs(n, ts).value[slot]).Some?
    ensures Flows(n, ts, slot, Stated(Outputs(n, ts).value[slot]).value)
  {
  }

  lemma SourceIsLink(n: Node, slot: nat)
    ensures Source(n, slot).Some? ==> Source(n, slot).value in Links(n)
    ensures n.CropGuides? ==> n.positive in Links(n)
  {
  }

  lemma TypedSlot(nodes: seq<Node>, types: Types, e: Edge)
    requires Typing(nodes, types) && e in types
    ensures 1 <= e.node <= |nodes|
    ensures var n := nodes[e.node - 1];
            && Outputs(n, types).Some? && e.slot < |Outputs(n, types).value|
            && TypeAt(types, e) == Outputs(n, types).value[e.slot]
            && forall f :: f in Links(n) ==> f.node < e.node
  {
    assert KnownFrom(types, e, |nodes|);
    assert NodeTyped(nodes, types, e.node - 1);
    var n := nodes[e.node - 1];
    assert SlotAmong(types, e, e.node, |Outputs(n, types).value|);
    SlotsAreGood(n, types);
  }

  lemma TypedFlow(nodes: seq<Node>, types: Types, e: Edge)
    requires Typing(nodes, types) && Stated(TypeAt(types, e)).Some?
    ensures 1 <= e.node <= |nodes|
    ensures var n := nodes[e.node - 1];
            && Flows(n, types, e.slot, Stated(TypeAt(types, e)).value)
            && (Source(n, e.slot).Some? ==> Source(n, e.slot).value.node < e.node)
            && (n.CropGuides? ==> n.positive.node < e.node)
  {
    TypedSlot(nodes, types, e);
    SlotFlows(nodes[e.node - 1], types, e.slot);
    SourceIsLink(nodes[e.node - 1], e.slot);
  }

  /** Soundness of the typing: in a typed graph the guide count of every typed link is the
      number of guides counted along the links. */
  lemma {:induction false} TypesStateCarried(nodes: seq<Node>, types: Types, e: Edge)
    requires Typing(nodes, types)
    ensures StatesCarried(nodes, types, e)
    decreases e.node
  {
    if Stated(TypeAt(types, e)).Some? {
      TypedFlow(nodes, types, e);
      var n := nodes[e.node - 1];
      if Source(n, e.slot).Some? {
        TypesStateCarried(nodes, types, Source(n, e.slot).value);
        if n.CropGuides? {
          TypesStateCarried(nodes, types, n.positive);
        }
      }
    }
  }

  /** What the guides of node `k` must be for the video to come out right: none where the
      latent is upscaled or decoded, a crop told of exactly those in its latent, a sampler
      guided by exactly those in its latent. */
  predicate GuidesInOrder(nodes: seq<Node>, k: nat)
    requires k < |nodes|
  {
    match nodes[k]
    case Upsampler(samples, _, _) => Carried(nodes, samples) == 0
    case DecodeTiled(samples, _) => Carried(nodes, samples) == 0
    case CropGuides(p, q, latent) =>
      && Carried(nodes, p) == Carried(nodes, q) == Carried(nodes, latent)
      && Carried(nodes, Edge(k + 1, 0)) == Carried(nodes, Edge(k + 1, 1)) == Carried(nodes, Edge(k + 1, 2)) == 0
    case AddGuide(p, q, _, latent, _) => Carried(nodes, p) == Carried(nodes, q) == Carried(nodes, latent)
    case Sample(_, guider, _, _, latent) => Carried(nodes, guider) == Carried(nodes, latent)
    case _ => true
  }

  /** The same of the counts the types state. */
  predicate StatedInOrder(n: Node, ts: Types) {
    match n
    case Upsampler(samples, _, _) => Stated(TypeAt(ts, samples)) == Some(0)
    case DecodeTiled(samples, _) => Stated(TypeAt(ts, samples)) == Some(0)
    case CropGuides(p, q, latent) => StatedAlike(ts, p, q) && StatedAlike(ts, p, latent)
    case AddGuide(p, q, _, latent, _) => StatedAlike(ts, p, q) && StatedAlike(ts, p, latent)
    case Sample(_, guider, _, _, latent) => StatedAlike(ts, guider, latent)
    case _ => true
  }

  predicate StatedAlike(ts: Types, e: Edge, f: Edge) {
    Stated(TypeAt(ts, e)).Some? && Stated(TypeAt(ts, f)) == Stated(TypeAt(ts, e))
  }

  lemma FittingIsInOrder(n: Node, ts: Types)
    requires Outputs(n, ts).Some?
    ensures StatedInOrder(n, ts)
  {
  }

  lemma NodeInOrder(nodes: seq<Node>, types: Types, k: nat)
    requires Typing(nodes, types) && k < |nodes|
    ensures StatedInOrder(nodes[k], types)
    ensures nodes[k].CropGuides? ==> nodes[k].positive.node <= k && nodes[k].latent.node <= k
  {
    assert NodeTyped(nodes, types, k);
    FittingIsInOrder(nodes[k], types);
    SourceIsLink(nodes[k], 2);
  }

  /** Every node of a typed graph has its guides in order. */
  lemma GuidesAreCropped(nodes: seq<Node>, types: Types, k: nat)
    requires Typing(nodes, types) && k < |nodes|
    ensures GuidesInOrder(nodes, k)
  {
    NodeInOrder(nodes, types, k);
    match nodes[k]
    case Upsampler(samples, _, _) => TypesStateCarried(nodes, types, samples);
    case DecodeTiled(samples, _) => TypesStateCarried(nodes, types, samples);
    case CropGuides(p, q, latent) => CarriedAlike(nodes, types, p, q, latent);
    case AddGuide(p, q, _, latent, _) => CarriedAlike(nodes, types, p, q, latent);
    case Sample(_, guider, _, _, latent) => CarriedAlike(nodes, types, guider, guider, latent);
    case _ =>
  }

  lemma CarriedAlike(nodes: seq<Node>, types: Types, e: Edge, f: Edge, g: Edge)
    requires Typing(nodes, types) && StatedAlike(types, e, f) && StatedAlike(types, e, g)
    ensures Carried(nodes, e) == Carried(nodes, f) == Carried(nodes, g)
  {
    TypesStateCarried(nodes, types, e);
    TypesStateCarried(nodes, types, f);
    TypesStateCarried(nodes, types, g);
  }

  /** Node `a` has a guide node at or before it, along links. */
  ghost predicate GuideBehind(nodes: seq<Node>, a: nat) {
    exists path ::
      && |path| > 0 && path[0] == a && Path(nodes, path)
      && 1 <= path[|path| - 1] <= |nodes| && nodes[path[|path| - 1] - 1].AddGuide?
  }

  lemma GuideFurtherBehind(nodes: seq<Node>, a: nat, e: Edge)
    requires 1 <= a <= |nodes| && e in Links(nodes[a - 1]) && GuideBehind(nodes, e.node)
    ensures GuideBehind(nodes, a)
  {
    var path :|
      && |path| > 0 && path[0] == e.node && Path(nodes, path)
      && 1 <= path[|path| - 1] <= |nodes| && nodes[path[|path| - 1] - 1].AddGuide?;
    var longer := [a] + path;
    assert LinksTo(nodes, a, e.node);
    forall i | 0 < i < |longer|
      ensures LinksTo(nodes, longer[i - 1], longer[i])
    {
      if i > 1 {
        var j := i - 1;
        assert LinksTo(nodes, path[j - 1], path[j]);
      }
    }
    assert longer[|longer| - 1] == path[|path| - 1];
  }

  /** In any list of nodes, typed or not, a link carries a guide only if links lead back from
      it to a guide node. */
  lemma {:induction false} GuidesComeFromGuideNodes(nodes: seq<Node>, e: Edge)
    requires Carried(nodes, e) > 0
    ensures GuideBehind(nodes, e.node)
    decreases e.node
  {
    var n := nodes[e.node - 1];
    if n.AddGuide? {
      assert Path(nodes, [e.node]) && [e.node][0] == e.node;
    } else {
      var f := Source(n, e.slot).value;
      assert f in Links(n) && Carried(nodes, f) > 0 && f.node < e.node;
      GuidesComeFromGuideNodes(nodes, f);
      GuideFurtherBehind(nodes, e.node, f);
    }
  }

  // --------------------------------------------------------------- building up types

  /** Types seen earlier are still there. */
  ghost predicate Extends(before: Types, now: Types) {
    forall e: Edge :: TypeAt(before, e) != Bad ==> TypeAt(now, e) == TypeAt(before, e)
  }

  lemma TypedLinksAreKnown(n: Node, types: Types)
    requires Outputs(n, types).Some?
    ensures forall e :: e in Links(n) ==> TypeAt(types, e) != Bad
  {
  }

  lemma OutputsStay(n: Node, before: Types, now: Types)
    requires Outputs(n, before).Some? && Extends(before, now)
    ensures Outputs(n, now) == Outputs(n, before)
  {
    TypedLinksAreKnown(n, before);
    forall e | e in Links(n)
      ensures TypeAt(now, e) == TypeAt(before, e)
    {
    }
  }

  /** The types once a node with these slots is added under `key`. */
  ghost function Grown(types: Types, key: nat, slots: seq<Sig>): Types
    requires 1 <= |slots| <= 3
  {
    if |slots| == 1 then types[Edge(key, 0) := slots[0]]
    else if |slots| == 2 then types[Edge(key, 0) := slots[0]][Edge(key, 1) := slots[1]]
    else types[Edge(key, 0) := slots[0]][Edge(key, 1) := slots[1]][Edge(key, 2) := slots[2]]
  }

  /** Slots of the first `n` nodes are typed only if they were before. */
  ghost predicate Settled(before: Types, now: Types, n: nat) {
    forall e: Edge {:trigger KnownFrom(before, e, n)} :: e in now && e.node <= n ==> e in before
  }

  lemma GrownExtends(types: Types, n: nat, m: nat, slots: seq<Sig>)
    requires m == n + 1
    requires 1 <= |slots| <= 3 && forall i :: 0 <= i < |slots| ==> slots[i] != Bad
    requires forall e: Edge :: KnownFrom(types, e, n)
    ensures var now := Grown(types, m, slots);
            && Extends(types, now) && Holds(now, m, slots) && (forall e: Edge :: KnownFrom(now, e, m))
            && Settled(types, now, n) && NoMore(now, m, |slots|)
  {
    var now := Grown(types, m, slots);
    forall e: Edge
      ensures KnownFrom(now, e, m) && (e in types ==> e in now && now[e] == types[e])
      ensures (e in now && e.node <= n ==> e in types) && SlotAmong(now, e, m, |slots|)
    {
      assert KnownFrom(types, e, n);
    }
  }

  lemma OldNodeStays(nodes: seq<Node>, n: Node, types: Types, now: Types, k: nat)
    requires k < |nodes| && NodeTyped(nodes, types, k) && Extends(types, now) && Settled(types, now, |nodes|)
    ensures NodeTyped(nodes + [n], now, k)
  {
    OutputsStay(nodes[k], types, now);
    SlotsAreGood(nodes[k], types);
    HoldsStays(types, now, k + 1, Outputs(nodes[k], types).value);
    NoMoreStays(types, now, |nodes|, k + 1, |Outputs(nodes[k], types).value|);
  }

  lemma NoMoreStays(before: Types, now: Types, n: nat, key: nat, slots: nat)
    requires NoMore(before, key, slots) && Settled(before, now, n) && key <= n
    ensures NoMore(now, key, slots)
  {
    forall e: Edge
      ensures SlotAmong(now, e, key, slots)
    {
      assert SlotAmong(before, e, key, slots);
      var known := KnownFrom(before, e, n);
    }
  }

  lemma NewNodeTyped(nodes: seq<Node>, n: Node, types: Types, now: Types)
    requires Outputs(n, types).Some? && Extends(types, now) && Holds(now, |nodes| + 1, Outputs(n, types).value)
    requires NoMore(now, |nodes| + 1, |Outputs(n, types).value|)
    requires forall e: Edge :: KnownFrom(types, e, |nodes|)
    ensures NodeTyped(nodes + [n], now, |nodes|)
  {
    OutputsStay(n, types, now);
    TypedLinksAreKnown(n, types);
    forall e | e in Links(n)
      ensures 1 <= e.node <= |nodes|
    {
      assert KnownFrom(types, e, |nodes|);
    }
  }

  lemma AddKeepsTyping(nodes: seq<Node>, types: Types, n: Node)
    requires Typing(nodes, types) && Outputs(n, types).Some?
    ensures 1 <= |Outputs(n, types).value| <= 3
    ensures var slots := Outputs(n, types).value; var now := Grown(types, |nodes| + 1, slots);
            Typing(nodes + [n], now) && Extends(types, now) && Holds(now, |nodes| + 1, slots)
  {
    SlotsAreGood(n, types);
    var slots := Outputs(n, types).value;
    var now, more := Grown(types, |nodes| + 1, slots), nodes + [n];
    GrownExtends(types, |nodes|, |more|, slots);
    NewNodeTyped(nodes, n, types, now);
    forall k | 0 <= k < |more|
      ensures NodeTyped(more, now, k)
    {
      if k < |nodes| {
        assert NodeTyped(nodes, types, k);
        OldNodeStays(nodes, n, types, now, k);
      }
    }
  }

  lemma SlotsAreGood(n: Node, types: Types)
    requires Outputs(n, types).Some?
    ensures 1 <= |Outputs(n, types).value| <= 3
    ensures forall i :: 0 <= i < |Outputs(n, types).value| ==> Outputs(n, types).value[i] != Bad
  {
  }

  lemma HoldsStays(before: Types, now: Types, key: nat, slots: seq<Sig>)
    requires Holds(before, key, slots) && Extends(before, now)
    requires forall i :: 0 <= i < |slots| ==> slots[i] != Bad
    ensures Holds(now, key, slots)
  {
  }

  /** How many nodes of the classes that decide what a video graph does. */
  datatype Tally = Tally(frames: nat, guides: nat, crops: nat, samples: nat, upsamplers: nat, references: nat,
                         encoders: nat, schedulers: nat, sigmas: nat, loras: nat, decoders: nat)

  const NOTHING := Tally(0, 0, 0, 0, 0, 0, 0, 0, 0, 0, 0)

  function One(n: Node): Tally {
    match n
    case ImgToVideoInplace(_, _, _) => NOTHING.(frames := 1)
    case AddGuide(_, _, _, _, _) => NOTHING.(guides := 1)
    case CropGuides(_, _, _) => NOTHING.(crops := 1)
    case Sample(_, _, _, _, _) => NOTHING.(samples := 1)
    case Upsampler(_, _, _) => NOTHING.(upsamplers := 1)
    case ReferenceAudio(_, _, _, _, _) => NOTHING.(references := 1)
    case AudioEncode(_, _) => NOTHING.(encoders := 1)
    case Scheduler(_) => NOTHING.(schedulers := 1)
    case ManualSigmas => NOTHING.(sigmas := 1)
    case LoraModel(_) => NOTHING.(loras := 1)
    case DecodeTiled(_, _) => NOTHING.(decoders := 1)
    case _ => NOTHING
  }

  function Plus(a: Tally, b: Tally): Tally {
    Tally(a.frames + b.frames, a.guides + b.guides, a.crops + b.crops, a.samples + b.samples,
          a.upsamplers + b.upsamplers, a.references + b.references, a.encoders + b.encoders,
          a.schedulers + b.schedulers, a.sigmas + b.sigmas, a.loras + b.loras, a.decoders + b.decoders)
  }

  /** `now` counts these nodes more than `before`, and no others. */
  predicate Rises(before: Tally, now: Tally,
                  nameonly frames: nat := 0, nameonly guides: nat := 0, nameonly crops: nat := 0,
                  nameonly samples: nat := 0, nameonly upsamplers: nat := 0, nameonly references: nat := 0,
                  nameonly encoders: nat := 0, nameonly schedulers: nat := 0, nameonly sigmas: nat := 0,
                  nameonly loras: nat := 0, nameonly decoders: nat := 0) {
    && now.frames == before.frames + frames && now.guides == before.guides + guides
    && now.crops == before.crops + crops && now.samples == before.samples + samples
    && now.upsamplers == before.upsamplers + upsamplers && now.references == before.references + references
    && now.encoders == before.encoders + encoders && now.schedulers == before.schedulers + schedulers
    && now.sigmas == before.sigmas + sigmas && now.loras == before.loras + loras
    && now.decoders == before.decoders + decoders
  }

  function TallyOf(nodes: seq<Node>): Tally {
    if nodes == [] then NOTHING else Plus(TallyOf(nodes[..|nodes| - 1]), One(nodes[|nodes| - 1]))
  }

  predicate Tallies(nodes: seq<Node>, t: Tally) {
    t == TallyOf(nodes)
  }

  /** The tally counts the nodes (said so that only a mention of `Tallies` brings it up). */
  ghost predicate Counted(nodes: seq<Node>, tally: Tally) {
    forall t {:trigger Tallies(nodes, t)} :: t == tally ==> Tallies(nodes, t)
  }

  lemma TallyGrows(nodes: seq<Node>, tally: Tally, n: Node)
    requires Counted(nodes, tally)
    ensures Counted(nodes + [n], Plus(tally, One(n)))
  {
    assert Tallies(nodes, tally);
    assert (nodes + [n])[..|nodes|] == nodes && (nodes + [n])[|nodes|] == n;
  }

  lemma PlusNothing(t: Tally, u: Tally)
    ensures u == NOTHING ==> Plus(t, u) == t
  {
  }

  class Graph {
    var nodes: seq<Node>
    ghost var types: Types
    ghost var tally: Tally

    ghost predicate Valid()
      reads this
    {
      && Typing(nodes, types)
      && Counted(nodes, tally)
    }

    constructor ()
      ensures Valid() && nodes == [] && tally == NOTHING
    {
      nodes := [];
      types := map[];
      tally := NOTHING;
    }

    /** The new node's key is the number of nodes; the result is its first slot. */
    method Add(n: Node) returns (e: Edge)
      requires Valid() && Outputs(n, types).Some?
      modifies this
      ensures Valid() && nodes == old(nodes) + [n] && e == Edge(|nodes|, 0)
      ensures Extends(old(types), types) && Holds(types, e.node, Outputs(n, old(types)).value)
      ensures tally == if One(n) == NOTHING then old(tally) else Plus(old(tally), One(n))
    {
      TallyGrows(nodes, tally, n);
      PlusNothing(tally, One(n));
      tally := Plus(tally, One(n));
      AddKeepsTyping(nodes, types, n);
      types := Grown(types, |nodes| + 1, Outputs(n, types).value);
      nodes := nodes + [n];
      e := Edge(|nodes|, 0);
    }
  }
}
