/** The builders of two workflow graphs: the two-stage video lane with its guide and audio
    branches, and the image edit lane that patches a link back into an earlier node. */
module WorkflowBuilders {
  import opened Options
  import opened Graphs

  /** The branches of the video lane: a first image, a last image, a supplied audio clip
      with or without its voice reference, and the full checkpoint. */
  datatype Request = Request(image: bool, last: bool, audio: bool, voice: bool, full: bool)

  function Bit(b: bool): (n: nat)
    ensures n <= 1
  {
    if b then 1 else 0
  }

  /** Edges the stages hand on. */
  datatype Loaders = Loaders(model: Edge, clip: Edge, vae: Edge, audioVae: Edge)

  ghost predicate LoadersTyped(ts: Types, l: Loaders) {
    TypeAt(ts, l.model).Model? && TypeAt(ts, l.clip).Clip? && TypeAt(ts, l.vae).Vae? && TypeAt(ts, l.audioVae).AudioVae?
  }

  ghost predicate Paired(ts: Types, pos: Edge, neg: Edge, latent: Edge, guides: nat) {
    TypeAt(ts, pos) == Cond(guides) && TypeAt(ts, neg) == Cond(guides) && TypeAt(ts, latent) == Video(guides)
  }

  method Load(g: Graph) returns (l: Loaders)
    requires g.Valid()
    modifies g
    ensures g.Valid() && LoadersTyped(g.types, l)
    ensures g.tally == old(g.tally)
  {
    var model := g.Add(Loader(ModelFile));
    var clip := g.Add(Loader(ClipFile));
    var vae := g.Add(Loader(VaeFile));
    var audioVae := g.Add(Loader(AudioVaeFile));
    l := Loaders(model, clip, vae, audioVae);
  }

  method Prompt(g: Graph, clip: Edge) returns (pos: Edge, neg: Edge)
    requires g.Valid() && TypeAt(g.types, clip).Clip?
    modifies g
    ensures g.Valid() && Extends(old(g.types), g.types)
    ensures TypeAt(g.types, pos) == Cond(0) && TypeAt(g.types, neg) == Cond(0)
    ensures g.tally == old(g.tally)
  {
    pos := g.Add(TextEncode(clip));
    neg := g.Add(TextEncode(clip));
    var cond := g.Add(Conditioning(pos, neg));
    pos, neg := cond, Edge(cond.node, 1);
  }

  /** Conditioning, empty latent and first frame. */
  method Begin(g: Graph, l: Loaders, withImage: bool)
      returns (pos: Edge, neg: Edge, latent: Edge, image: Option<Edge>)
    requires g.Valid() && LoadersTyped(g.types, l)
    modifies g
    ensures g.Valid() && Extends(old(g.types), g.types) && Paired(g.types, pos, neg, latent, 0)
    ensures image.Some? <==> withImage
    ensures image.Some? ==> TypeAt(g.types, image.value).Image?
    ensures Rises(old(g.tally), g.tally, frames := Bit(withImage))
  {
    pos, neg := Prompt(g, l.clip);
    latent := g.Add(EmptyVideo);
    image := None;
    if withImage {
      var first := g.Add(LoadImage);
      first := g.Add(Preprocess(first));
      image := Some(first);
      latent := g.Add(ImgToVideoInplace(l.vae, first, latent));
    }
  }

  /** Pin the last frame: one more guide on the conditioning and on the latent. */
  method Guide(g: Graph, l: Loaders, pos0: Edge, neg0: Edge, latent0: Edge, endpoint: Option<Edge>)
      returns (pos: Edge, neg: Edge, latent: Edge)
    requires g.Valid() && LoadersTyped(g.types, l) && Paired(g.types, pos0, neg0, latent0, 0)
    requires endpoint.Some? ==> TypeAt(g.types, endpoint.value).Image?
    modifies g
    ensures g.Valid() && Extends(old(g.types), g.types)
    ensures Paired(g.types, pos, neg, latent, Bit(endpoint.Some?))
    ensures Rises(old(g.tally), g.tally, guides := Bit(endpoint.Some?))
  {
    pos, neg, latent := pos0, neg0, latent0;
    if endpoint.Some? {
      var guide := g.Add(AddGuide(pos, neg, l.vae, latent, endpoint.value));
      pos, neg, latent := guide, Edge(guide.node, 1), Edge(guide.node, 2);
    }
  }

  /** The audio latent, and the model and conditioning after an optional voice reference. */
  method Audio(g: Graph, l: Loaders, r: Request, pos0: Edge, neg0: Edge, ghost guides: nat)
      returns (model: Edge, pos: Edge, neg: Edge, audio: Edge, loaded: Option<Edge>)
    requires g.Valid() && LoadersTyped(g.types, l)
    requires TypeAt(g.types, pos0) == Cond(guides) && TypeAt(g.types, neg0) == Cond(guides)
    modifies g
    ensures g.Valid() && Extends(old(g.types), g.types)
    ensures TypeAt(g.types, model).Model? && TypeAt(g.types, audio).AudioLatent?
    ensures TypeAt(g.types, pos) == Cond(guides) && TypeAt(g.types, neg) == Cond(guides)
    ensures loaded.Some? <==> r.audio
    ensures loaded.Some? ==> TypeAt(g.types, loaded.value).Wave?
    ensures Rises(old(g.tally), g.tally, references := Bit(r.audio && r.voice), encoders := Bit(r.audio))
  {
    model, pos, neg, loaded := l.model, pos0, neg0, None;
    if r.audio {
      var wave := g.Add(LoadAudio);
      loaded := Some(wave);
      audio := g.Add(AudioEncode(wave, l.audioVae));
      var quiet := g.Add(SolidMask);
      audio := g.Add(SetNoiseMask(audio, quiet));
      if r.voice {
        var guided := g.Add(ReferenceAudio(model, pos, neg, wave, l.audioVae));
        model, pos, neg := Edge(guided.node, 0), Edge(guided.node, 1), Edge(guided.node, 2);
      }
    } else {
      audio := g.Add(EmptyAudio(l.audioVae));
    }
  }

  /** The given schedule, or fixed sigmas. */
  method ScheduleOr(g: Graph, given: Option<Edge>) returns (schedule: Edge)
    requires g.Valid() && (given.Some? ==> TypeAt(g.types, given.value).Schedule?)
    modifies g
    ensures g.Valid() && Extends(old(g.types), g.types) && TypeAt(g.types, schedule).Schedule?
    ensures Rises(old(g.tally), g.tally, sigmas := 1 - Bit(given.Some?))
    ensures given.Some? ==> schedule == given.value
  {
    if given.Some? {
      schedule := given.value;
    } else {
      schedule := g.Add(ManualSigmas);
    }
  }

  /** `Graph.advanced`. */
  method Advanced(g: Graph, model: Edge, pos: Edge, neg: Edge, av: Edge, given: Option<Edge>, ghost guides: nat)
      returns (sampled: Edge)
    requires g.Valid() && TypeAt(g.types, model).Model? && TypeAt(g.types, av) == AV(guides)
    requires TypeAt(g.types, pos) == Cond(guides) && TypeAt(g.types, neg) == Cond(guides)
    requires given.Some? ==> TypeAt(g.types, given.value).Schedule?
    modifies g
    ensures g.Valid() && Extends(old(g.types), g.types) && TypeAt(g.types, sampled) == AV(guides)
    ensures Rises(old(g.tally), g.tally, samples := 1, sigmas := 1 - Bit(given.Some?))
  {
    var guider, noise, sampler := Guided(g, model, pos, neg, guides);
    var schedule := ScheduleOr(g, given);
    sampled := g.Add(Sample(noise, guider, sampler, schedule, av));
  }

  method Guided(g: Graph, model: Edge, pos: Edge, neg: Edge, ghost guides: nat)
      returns (guider: Edge, noise: Edge, sampler: Edge)
    requires g.Valid() && TypeAt(g.types, model).Model?
    requires TypeAt(g.types, pos) == Cond(guides) && TypeAt(g.types, neg) == Cond(guides)
    modifies g
    ensures g.Valid() && Extends(old(g.types), g.types) && g.tally == old(g.tally)
    ensures TypeAt(g.types, guider) == Guidance(guides) && TypeAt(g.types, noise).Seed?
    ensures TypeAt(g.types, sampler).SamplerName?
  {
    guider := g.Add(Guider(model, pos, neg));
    noise, sampler := Seeded(g);
  }

  method Seeded(g: Graph) returns (noise: Edge, sampler: Edge)
    requires g.Valid()
    modifies g
    ensures g.Valid() && Extends(old(g.types), g.types) && g.tally == old(g.tally)
    ensures TypeAt(g.types, noise).Seed? && TypeAt(g.types, sampler).SamplerName?
  {
    noise := g.Add(Noise);
    sampler := g.Add(SamplerSelect);
  }

  /** A sampled joint latent taken apart again: slot 0 is the video, slot 1 the audio. */
  method Separated(g: Graph, sampled: Edge, ghost guides: nat) returns (separate: Edge)
    requires g.Valid() && TypeAt(g.types, sampled) == AV(guides)
    modifies g
    ensures g.Valid() && Extends(old(g.types), g.types)
    ensures TypeAt(g.types, separate) == Video(guides) && TypeAt(g.types, Edge(separate.node, 1)).AudioLatent?
    ensures g.tally == old(g.tally)
  {
    separate := g.Add(SeparateAV(sampled));
  }

  /** Crop the guides of a latent, when any were added. */
  method Crop(g: Graph, pos0: Edge, neg0: Edge, latent0: Edge, cropping: bool)
      returns (pos: Edge, neg: Edge, latent: Edge)
    requires g.Valid() && Paired(g.types, pos0, neg0, latent0, Bit(cropping))
    modifies g
    ensures g.Valid() && Extends(old(g.types), g.types) && Paired(g.types, pos, neg, latent, 0)
    ensures Rises(old(g.tally), g.tally, crops := Bit(cropping))
  {
    pos, neg, latent := pos0, neg0, latent0;
    if cropping {
      var cropped := g.Add(CropGuides(pos, neg, latent));
      pos, neg, latent := cropped, Edge(cropped.node, 1), Edge(cropped.node, 2);
    }
  }

  /** Upscale the video latent and set the first frame again. */
  method Upscale(g: Graph, l: Loaders, video: Edge, image: Option<Edge>) returns (upscaled: Edge)
    requires g.Valid() && LoadersTyped(g.types, l) && TypeAt(g.types, video) == Video(0)
    requires image.Some? ==> TypeAt(g.types, image.value).Image?
    modifies g
    ensures g.Valid() && Extends(old(g.types), g.types) && TypeAt(g.types, upscaled) == Video(0)
    ensures Rises(old(g.tally), g.tally, frames := Bit(image.Some?), upsamplers := 1)
  {
    var upscaler := g.Add(Loader(UpscalerFile));
    upscaled := g.Add(Upsampler(video, upscaler, l.vae));
    if image.Some? {
      upscaled := g.Add(ImgToVideoInplace(l.vae, image.value, upscaled));
    }
  }

  /** The supplied waveform, or the decoded one. */
  method Sound(g: Graph, audioVae: Edge, audio: Edge, loaded: Option<Edge>) returns (sound: Edge)
    requires g.Valid() && TypeAt(g.types, audioVae).AudioVae? && TypeAt(g.types, audio).AudioLatent?
    requires loaded.Some? ==> TypeAt(g.types, loaded.value).Wave?
    modifies g
    ensures g.Valid() && Extends(old(g.types), g.types) && TypeAt(g.types, sound).Wave?
    ensures g.tally == old(g.tally)
    ensures loaded.Some? ==> sound == loaded.value
  {
    if loaded.Some? {
      sound := loaded.value;
    } else {
      sound := g.Add(AudioDecode(audio, audioVae));
    }
  }

  method Muxed(g: Graph, frames: Edge, sound: Edge) returns (out: Edge)
    requires g.Valid() && TypeAt(g.types, frames).Image? && TypeAt(g.types, sound).Wave?
    modifies g
    ensures g.Valid() && TypeAt(g.types, out).Movie? && g.tally == old(g.tally)
    ensures g.nodes != [] && out == Edge(|g.nodes|, 0) && g.nodes[out.node - 1] == CreateVideo(frames, sound)
  {
    out := g.Add(CreateVideo(frames, sound));
  }

  /** Decode both streams into the movie. */
  method Decoded(g: Graph, l: Loaders, video: Edge, audio: Edge, loaded: Option<Edge>) returns (out: Edge)
    requires g.Valid() && LoadersTyped(g.types, l)
    requires TypeAt(g.types, video) == Video(0) && TypeAt(g.types, audio).AudioLatent?
    requires loaded.Some? ==> TypeAt(g.types, loaded.value).Wave?
    modifies g
    ensures g.Valid() && TypeAt(g.types, out).Movie?
    ensures Rises(old(g.tally), g.tally, decoders := 1)
    ensures g.nodes != [] && out == Edge(|g.nodes|, 0) && g.nodes[out.node - 1].CreateVideo?
    ensures loaded.Some? ==> g.nodes[out.node - 1].audio == loaded.value
  {
    var frames := g.Add(DecodeTiled(video, l.vae));
    var sound := Sound(g, l.audioVae, audio, loaded);
    out := Muxed(g, frames, sound);
  }

  /** What the first stage hands to the second. */
  datatype Half = Half(model: Edge, pos: Edge, neg: Edge, separate: Edge, image: Option<Edge>, endpoint: Option<Edge>,
                       loaded: Option<Edge>)

  ghost predicate HalfTyped(ts: Types, h: Half, last: bool) {
    && TypeAt(ts, h.model).Model? && Paired(ts, h.pos, h.neg, h.separate, Bit(last))
    && TypeAt(ts, Edge(h.separate.node, 1)).AudioLatent?
    && (h.image.Some? ==> TypeAt(ts, h.image.value).Image?)
    && (h.endpoint.Some? ==> TypeAt(ts, h.endpoint.value).Image?) && (h.endpoint.Some? <==> last)
    && (h.loaded.Some? ==> TypeAt(ts, h.loaded.value).Wave?)
  }

  /** The endpoint image, when there is one. */
  method Endpoint(g: Graph, last: bool) returns (endpoint: Option<Edge>)
    requires g.Valid()
    modifies g
    ensures g.Valid() && Extends(old(g.types), g.types) && (endpoint.Some? <==> last)
    ensures endpoint.Some? ==> TypeAt(g.types, endpoint.value).Image?
    ensures g.tally == old(g.tally)
  {
    endpoint := None;
    if last {
      var e := g.Add(LoadImage);
      endpoint := Some(e);
    }
  }

  /** First stage, at half size. */
  method StageOne(g: Graph, l: Loaders, r: Request) returns (h: Half)
    requires g.Valid() && LoadersTyped(g.types, l)
    modifies g
    ensures g.Valid() && Extends(old(g.types), g.types) && HalfTyped(g.types, h, r.last)
    ensures (h.image.Some? <==> r.image) && (h.loaded.Some? <==> r.audio)
    ensures Rises(old(g.tally), g.tally, frames := Bit(r.image), guides := Bit(r.last), samples := 1,
                  references := Bit(r.audio && r.voice), encoders := Bit(r.audio),
                  schedulers := Bit(r.full), sigmas := 1 - Bit(r.full))
  {
    var pos, neg, latent, image := Begin(g, l, r.image);
    var endpoint := Endpoint(g, r.last);
    pos, neg, latent := Guide(g, l, pos, neg, latent, endpoint);
    h := SampleOne(g, l, r, pos, neg, latent, image, endpoint);
  }

  /** The joint latent, and the full checkpoint's schedule from its video part. */
  method Joined(g: Graph, latent: Edge, audio: Edge, full: bool, ghost guides: nat)
      returns (av: Edge, schedule: Option<Edge>)
    requires g.Valid() && TypeAt(g.types, latent) == Video(guides) && TypeAt(g.types, audio).AudioLatent?
    modifies g
    ensures g.Valid() && Extends(old(g.types), g.types) && TypeAt(g.types, av) == AV(guides)
    ensures schedule.Some? ==> TypeAt(g.types, schedule.value).Schedule?
    ensures Rises(old(g.tally), g.tally, schedulers := Bit(full))
    ensures schedule.Some? <==> full
  {
    av := g.Add(ConcatAV(latent, audio));
    schedule := None;
    if full {
      var s := g.Add(Scheduler(latent));
      schedule := Some(s);
    }
  }

  /** Audio, joint latent and first sampling. */
  method SampleOne(g: Graph, l: Loaders, r: Request, pos0: Edge, neg0: Edge, latent: Edge, image: Option<Edge>,
                   endpoint: Option<Edge>)
      returns (h: Half)
    requires g.Valid() && LoadersTyped(g.types, l) && Paired(g.types, pos0, neg0, latent, Bit(r.last))
    requires (image.Some? ==> TypeAt(g.types, image.value).Image?) && (endpoint.Some? <==> r.last)
    requires endpoint.Some? ==> TypeAt(g.types, endpoint.value).Image?
    modifies g
    ensures g.Valid() && Extends(old(g.types), g.types) && HalfTyped(g.types, h, r.last)
    ensures h.image == image && (h.loaded.Some? <==> r.audio)
    ensures Rises(old(g.tally), g.tally, samples := 1, references := Bit(r.audio && r.voice),
                  encoders := Bit(r.audio), schedulers := Bit(r.full), sigmas := 1 - Bit(r.full))
  {
    ghost var guides := Bit(r.last);
    var model, pos, neg, audio, loaded := Audio(g, l, r, pos0, neg0, guides);
    var av, schedule := Joined(g, latent, audio, r.full, guides);
    var sampled := Advanced(g, model, pos, neg, av, schedule, guides);
    var separate := Separated(g, sampled, guides);
    h := Half(model, pos, neg, separate, image, endpoint, loaded);
  }

  method CropAndUpscale(g: Graph, l: Loaders, h: Half, last: bool) returns (pos: Edge, neg: Edge, upscaled: Edge)
    requires g.Valid() && LoadersTyped(g.types, l) && HalfTyped(g.types, h, last)
    modifies g
    ensures g.Valid() && Extends(old(g.types), g.types) && Paired(g.types, pos, neg, upscaled, 0)
    ensures Rises(old(g.tally), g.tally, frames := Bit(h.image.Some?), crops := Bit(last), upsamplers := 1)
  {
    var video;
    pos, neg, video := Crop(g, h.pos, h.neg, h.separate, last);
    upscaled := Upscale(g, l, video, h.image);
  }

  /** Crop, upscale and guide again. */
  method Refine(g: Graph, l: Loaders, h: Half, last: bool) returns (pos: Edge, neg: Edge, av: Edge)
    requires g.Valid() && LoadersTyped(g.types, l) && HalfTyped(g.types, h, last)
    modifies g
    ensures g.Valid() && Extends(old(g.types), g.types)
    ensures var guides := Bit(last);
            TypeAt(g.types, pos) == Cond(guides) == TypeAt(g.types, neg) && TypeAt(g.types, av) == AV(guides)
    ensures Rises(old(g.tally), g.tally, frames := Bit(h.image.Some?), guides := Bit(last), crops := Bit(last),
                  upsamplers := 1)
  {
    var upscaled;
    pos, neg, upscaled := CropAndUpscale(g, l, h, last);
    pos, neg, upscaled := Guide(g, l, pos, neg, upscaled, h.endpoint);
    av := g.Add(ConcatAV(upscaled, Edge(h.separate.node, 1)));
  }

  /** The refinement adapter of the full checkpoint, and the second sampling. */
  method SampleTwo(g: Graph, model0: Edge, pos: Edge, neg: Edge, av: Edge, full: bool, ghost guides: nat)
      returns (separate: Edge)
    requires g.Valid() && TypeAt(g.types, model0).Model? && TypeAt(g.types, av) == AV(guides)
    requires TypeAt(g.types, pos) == Cond(guides) && TypeAt(g.types, neg) == Cond(guides)
    modifies g
    ensures g.Valid() && Extends(old(g.types), g.types)
    ensures TypeAt(g.types, separate) == Video(guides) && TypeAt(g.types, Edge(separate.node, 1)).AudioLatent?
    ensures Rises(old(g.tally), g.tally, samples := 1, sigmas := 1, loras := Bit(full))
  {
    var model := model0;
    if full {
      model := g.Add(LoraModel(model));
    }
    var sampled := Advanced(g, model, pos, neg, av, None, guides);
    separate := Separated(g, sampled, guides);
  }

  /** Second stage: refine, sample and crop again. */
  method StageTwo(g: Graph, l: Loaders, r: Request, h: Half) returns (video: Edge, audio: Edge)
    requires g.Valid() && LoadersTyped(g.types, l) && HalfTyped(g.types, h, r.last)
    modifies g
    ensures g.Valid() && Extends(old(g.types), g.types)
    ensures TypeAt(g.types, video) == Video(0) && TypeAt(g.types, audio).AudioLatent?
    ensures Rises(old(g.tally), g.tally, frames := Bit(h.image.Some?), guides := Bit(r.last),
                  crops := 2 * Bit(r.last), samples := 1, upsamplers := 1, sigmas := 1,
                  loras := Bit(r.full))
  {
    var pos, neg, av := Refine(g, l, h, r.last);
    var separate := SampleTwo(g, h.model, pos, neg, av, r.full, Bit(r.last));
    pos, neg, video := Crop(g, pos, neg, separate, r.last);
    audio := Edge(separate.node, 1);
  }

  /** What the whole video lane is made of, from the counts of images `i`, endpoints `l`,
      voice references `v`, supplied sounds `s` and full checkpoints `f`. */
  predicate MadeOf(i: nat, l: nat, v: nat, s: nat, f: nat, tally: Tally) {
    f <= 1 && Rises(NOTHING, tally, frames := 2 * i, guides := 2 * l, crops := 2 * l, samples := 2, upsamplers := 1,
                    references := v, encoders := s, schedulers := f, sigmas := 2 - f, loras := f,
                    decoders := 1)
  }

  predicate Wanted(r: Request, tally: Tally) {
    MadeOf(Bit(r.image), Bit(r.last), Bit(r.audio && r.voice), Bit(r.audio), Bit(r.full), tally)
  }

  lemma StagesAddUp(i: nat, l: nat, v: nat, s: nat, f: nat, a: Tally, b: Tally, c: Tally)
    requires f <= 1
    requires Rises(NOTHING, a, frames := i, guides := l, samples := 1, references := v, encoders := s,
                   schedulers := f, sigmas := 1 - f)
    requires Rises(a, b, frames := i, guides := l, crops := 2 * l, samples := 1, upsamplers := 1, sigmas := 1,
                   loras := f)
    requires Rises(b, c, decoders := 1)
    ensures MadeOf(i, l, v, s, f, c)
  {
  }

  method Build(g: Graph, r: Request) returns (out: Edge)
    requires g.Valid() && g.tally == NOTHING
    modifies g
    ensures g.Valid() && TypeAt(g.types, out).Movie? && Wanted(r, g.tally)
  {
    var l := Load(g);
    var h := StageOne(g, l, r);
    ghost var first := g.tally;
    var video, audio := StageTwo(g, l, r, h);
    ghost var second := g.tally;
    out := Decoded(g, l, video, audio, h.loaded);
    StagesAddUp(Bit(r.image), Bit(r.last), Bit(r.audio && r.voice), Bit(r.audio), Bit(r.full), first, second, g.tally);
  }

  /** The whole video lane.  On every branch the graph is well typed, so it is closed and
      acyclic, and no guide reaches the upsampler or the decoder; it samples twice, upscales
      and decodes once, and guides and crops as often as there are endpoints to hold. */
  method Ltx(r: Request) returns (nodes: seq<Node>, ghost types: Types, out: Edge)
    ensures Typing(nodes, types) && TypeAt(types, out).Movie?
    ensures Backward(nodes) && Closed(nodes) && Acyclic(nodes)
    ensures forall k :: 0 <= k < |nodes| ==> GuidesInOrder(nodes, k)
    ensures Wanted(r, TallyOf(nodes))
  {
    var g := new Graph();
    out := Build(g, r);
    nodes, types := g.nodes, g.types;
    TypedIsBackward(nodes, types);
    forall k | 0 <= k < |nodes|
      ensures GuidesInOrder(nodes, k)
    {
      GuidesAreCropped(nodes, types, k);
    }
    CountedIsWanted(r, nodes, g.tally);
  }

  lemma CountedIsWanted(r: Request, nodes: seq<Node>, tally: Tally)
    requires Counted(nodes, tally) && Wanted(r, tally)
    ensures Wanted(r, TallyOf(nodes))
  {
    assert Tallies(nodes, tally);
  }

  // ----------------------------------------------------------------- image edit lane

  const ENCODER := QwenEncode(Edge(2, 0), Edge(3, 0), None)
  const LINKED := QwenEncode(Edge(2, 0), Edge(3, 0), Some(Edge(6, 0)))

  /** Loaders and text encoder. */
  method QwenStart() returns (nodes: seq<Node>)
    ensures Backward(nodes) && |nodes| == 4 && nodes[3] == ENCODER
  {
    nodes := [Loader(ModelFile), Loader(ClipFile), Loader(VaeFile)];
    BackwardAppends(nodes, QwenEncode(Edge(2, 0), Edge(3, 0), None));
    nodes := nodes + [QwenEncode(Edge(2, 0), Edge(3, 0), None)];
  }

  /** Sampling and decoding. */
  method QwenFinish(start: seq<Node>, latent: Edge) returns (nodes: seq<Node>, ghost tail: seq<Node>)
    requires |start| >= 4
    ensures nodes == start + tail && |tail| == 2
    ensures tail == [KSampler(Edge(1, 0), Edge(4, 0), Edge(4, 1), latent), Decode(Edge(|start| + 1, 0), Edge(3, 0))]
  {
    var encode := Edge(4, 0);
    var sample := KSampler(Edge(1, 0), encode, Edge(encode.node, 1), latent);
    nodes := start + [sample];
    var decode := Decode(Edge(|nodes|, 0), Edge(3, 0));
    nodes := nodes + [decode];
    tail := [sample, decode];
  }

  lemma FinishGoesBack(start: seq<Node>, tail: seq<Node>, latent: Edge)
    requires Backward(start) && |start| >= 4 && |tail| == 2 && 1 <= latent.node <= |start|
    requires Links(tail[0]) == [Edge(1, 0), Edge(4, 0), Edge(4, 1), latent]
    requires Links(tail[1]) == [Edge(|start| + 1, 0), Edge(3, 0)]
    ensures Backward(start + tail)
  {
    BackwardAppends(start, tail[0]);
    BackwardAppends(start + [tail[0]], tail[1]);
    assert start + tail == start + [tail[0]] + [tail[1]];
  }

  /** The reference image after the encoder, and the encoder's inputs patched in place. */
  method WithReference(start: seq<Node>) returns (nodes: seq<Node>, ghost plain: seq<Node>)
    requires Backward(start) && |start| == 4 && start[3] == ENCODER
    ensures |nodes| == |plain| == 6 && nodes == plain[3 := LINKED] && Backward(plain) && plain[3] == ENCODER
    ensures plain[4] == LoadImage && plain[5] == JoinAlpha(Edge(5, 0), Edge(5, 1))
  {
    BackwardAppends(start, LoadImage);
    nodes := start + [LoadImage];
    var image := Edge(|nodes|, 0);
    BackwardAppends(nodes, JoinAlpha(image, Edge(image.node, 1)));
    nodes := nodes + [JoinAlpha(image, Edge(image.node, 1))];
    plain := nodes;
    var rgba := Edge(|nodes|, 0);
    nodes := nodes[3 := QwenEncode(Edge(2, 0), Edge(3, 0), Some(rgba))];
  }

  lemma PatchedHasNoCycle(plain: seq<Node>, patched: seq<Node>)
    requires Backward(plain) && |plain| >= 6 && plain[3] == ENCODER && patched == plain[3 := LINKED]
    requires Links(plain[4]) == [] && Links(plain[5]) == [Edge(5, 0), Edge(5, 1)]
    ensures Closed(patched) && Acyclic(patched) && !Backward(patched)
  {
    BackPatch(plain, patched, 4, 6, 0);
    assert Edge(6, 0) in Links(patched[3]);
  }

  /** With a reference: the encoder reads the image and the mask that were added after it,
      and the sampler starts from the encoder's own latent. */
  method QwenEdit() returns (nodes: seq<Node>)
    ensures Closed(nodes) && Acyclic(nodes) && !Backward(nodes) && |nodes| == 8
    ensures nodes[3] == LINKED && nodes[4] == LoadImage && nodes[5] == JoinAlpha(Edge(5, 0), Edge(5, 1))
    ensures nodes[6] == KSampler(Edge(1, 0), Edge(4, 0), Edge(4, 1), Edge(4, 2))
    ensures nodes[7] == Decode(Edge(7, 0), Edge(3, 0))
  {
    var start := QwenStart();
    ghost var plain, tail;
    start, plain := WithReference(start);
    nodes, tail := QwenFinish(start, Edge(4, 2));
    FinishGoesBack(plain, tail, Edge(4, 2));
    assert nodes == (plain + tail)[3 := LINKED];
    PatchedHasNoCycle(plain + tail, nodes);
  }

  /** Without one: an empty latent. */
  method QwenText() returns (nodes: seq<Node>)
    ensures Backward(nodes) && Closed(nodes) && Acyclic(nodes) && |nodes| == 7
    ensures nodes[3] == ENCODER && nodes[4] == EmptyImage
    ensures nodes[5] == KSampler(Edge(1, 0), Edge(4, 0), Edge(4, 1), Edge(5, 0))
    ensures nodes[6] == Decode(Edge(6, 0), Edge(3, 0))
  {
    var start := QwenStart();
    BackwardAppends(start, EmptyImage);
    start := start + [EmptyImage];
    ghost var tail;
    nodes, tail := QwenFinish(start, Edge(|start|, 0));
    FinishGoesBack(start, tail, Edge(|start|, 0));
    BackwardIsAcyclic(nodes);
  }

  /** The edit lane: the text encoder is added first, then patched with the reference image
      that is built after it.  With a reference the graph has a forward link, and still no
      cycle; without one every link goes back. */
  method QwenImage21(withImage: bool) returns (nodes: seq<Node>, out: Edge)
    ensures Closed(nodes) && Acyclic(nodes) && out == Edge(|nodes|, 0)
    ensures Backward(nodes) <==> !withImage
    ensures |nodes| == (if withImage then 8 else 7) && nodes[3] == if withImage then LINKED else ENCODER
    ensures nodes[|nodes| - 1] == Decode(Edge(|nodes| - 1, 0), Edge(3, 0))
  {
    if withImage {
      nodes := QwenEdit();
    } else {
      nodes := QwenText();
    }
    out := Edge(|nodes|, 0);
  }

  // ----------------------------------------------------------- the last node of a graph

  /** `build_graph`: whatever lane built the graph, its output node is added last and reads
      the lane's result. */
  method Saved(nodes: seq<Node>, result: Edge) returns (all: seq<Node>, output: Edge)
    requires Closed(nodes) && Acyclic(nodes) && 1 <= result.node <= |nodes|
    ensures all == nodes + [Other([result])] && output == Edge(|all|, 0)
    ensures Closed(all) && Acyclic(all) && (Backward(nodes) ==> Backward(all))
    ensures LinksTo(all, output.node, result.node)
  {
    AddsKeepAcyclic(nodes, [Other([result])]);
    all := nodes + [Other([result])];
    output := Edge(|all|, 0);
    assert result in Links(all[|all| - 1]);
  }

  /** The whole video graph and the whole edit graph, output node included. */
  method VideoGraph(r: Request) returns (nodes: seq<Node>, output: Edge)
    ensures Closed(nodes) && Acyclic(nodes) && Backward(nodes) && output == Edge(|nodes|, 0)
  {
    ghost var types;
    var out;
    nodes, types, out := Ltx(r);
    TypedSlot(nodes, types, out);
    nodes, output := Saved(nodes, out);
  }

  method EditGraph(withImage: bool) returns (nodes: seq<Node>, output: Edge)
    ensures Closed(nodes) && Acyclic(nodes) && output == Edge(|nodes|, 0)
  {
    var out;
    nodes, out := QwenImage21(withImage);
    nodes, output := Saved(nodes, out);
  }
}
