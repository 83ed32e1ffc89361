/** One streamed response of the audio server: a producer on the worker thread, a bounded
    queue, and a consumer on the event loop that may be cancelled, or never started. */
module AudioStream {
  import opened Options

  /** PCM bytes of one chunk; the model may yield empty ones. */
  type Pcm = seq<nat>

  datatype Item = Chunk(pcm: Pcm) | Fault | End

  const CAPACITY: nat := 4

  /** What the model's generator yields before it returns or raises. */
  datatype Script = Script(yielded: seq<Pcm>, raises: bool)

  /** Chunks worth sending. */
  function Audible(yielded: seq<Pcm>): seq<Pcm> {
    if yielded == [] then []
    else
      var last := yielded[|yielded| - 1];
      Audible(yielded[..|yielded| - 1]) + (if last == [] then [] else [last])
  }

  function Chunks(pcms: seq<Pcm>): (items: seq<Item>)
    ensures |items| == |pcms|
  {
    seq(|pcms|, i requires 0 <= i < |pcms| => Chunk(pcms[i]))
  }

  /** Everything the job puts into the queue when nobody stops it. */
  function Items(script: Script): seq<Item> {
    Chunks(Audible(script.yielded)) + (if script.raises then [Fault] else []) + [End]
  }

  /** The producer at item `next`: about to look at the stop event, or inside the timed
      put.  `Done`: the job has returned. */
  datatype Producer = Looking(next: nat) | Putting(next: nat) | Done

  datatype Consumer = Unstarted | Reading | Finished | Raised | Cancelled | Dropped

  datatype State = State(producer: Producer, queue: seq<Item>, stopped: bool, consumer: Consumer, received: seq<Pcm>)

  const START := State(Looking(0), [], false, Unstarted, [])

  /** `Drop`: the response is abandoned before its body is first iterated, so the consumer's
      clean-up never runs. */
  datatype Label = Look | Put | TimeOut | Begin | Get | Cancel | Drop

  function Apply(script: Script, s: State, l: Label): Option<State> {
    match l
    case Look =>
      if !s.producer.Looking? then None
      else Some(s.(producer := if s.stopped then Done else Putting(s.producer.next)))
    case Put =>
      if !s.producer.Putting? || |s.queue| >= CAPACITY || s.producer.next >= |Items(script)| then None
      else
        var next := s.producer.next + 1;
        Some(s.(queue := s.queue + [Items(script)[s.producer.next]],
                producer := if next == |Items(script)| then Done else Looking(next)))
    case TimeOut =>
      if s.producer.Putting? && |s.queue| >= CAPACITY then Some(s.(producer := Looking(s.producer.next))) else None
    case Begin => if s.consumer.Unstarted? then Some(s.(consumer := Reading)) else None
    case Get =>
      if !s.consumer.Reading? || s.queue == [] then None
      else
        var rest := s.(queue := s.queue[1..]);
        Some(match s.queue[0]
             case Chunk(pcm) => rest.(received := s.received + [pcm])
             case Fault => rest.(consumer := Raised, stopped := true)
             case End => rest.(consumer := Finished, stopped := true))
    case Cancel => if s.consumer.Reading? then Some(s.(consumer := Cancelled, stopped := true)) else None
    case Drop => if s.consumer.Unstarted? then Some(s.(consumer := Dropped)) else None
  }

  // ------------------------------------------------------------------- the invariant

  /** Items put so far. */
  function PutCount(script: Script, s: State): nat {
    match s.producer
    case Looking(n) => n
    case Putting(n) => n
    case Done => |Items(script)|
  }

  /** What the consumer took out, in order. */
  function Taken(s: State): seq<Item> {
    Chunks(s.received) + (match s.consumer
                          case Finished => [End]
                          case Raised => [Fault]
                          case _ => [])
  }

  /** What was taken followed by what is queued is what was produced, up to the producer's
      position; a producer that gave up early did so because it was stopped. */
  predicate Inv(script: Script, s: State) {
    && Taken(s) + s.queue <= Items(script)
    && (!s.producer.Done? ==> Taken(s) + s.queue == Items(script)[..|Taken(s) + s.queue|]
                              && |Taken(s) + s.queue| == PutCount(script, s) < |Items(script)|)
    && (s.producer.Done? && !s.stopped ==> Taken(s) + s.queue == Items(script))
    && |s.queue| <= CAPACITY
    && (s.stopped <==> (s.consumer.Finished? || s.consumer.Raised? || s.consumer.Cancelled?))
    && (s.consumer.Unstarted? || s.consumer.Dropped? ==> s.received == [])
  }

  lemma ChunksExtend(pcms: seq<Pcm>, pcm: Pcm)
    ensures Chunks(pcms + [pcm]) == Chunks(pcms) + [Chunk(pcm)]
  {
  }

  lemma PutKeeps(script: Script, s: State)
    requires Inv(script, s) && Apply(script, s, Put).Some?
    ensures Inv(script, Apply(script, s, Put).value)
  {
    var items, n := Items(script), s.producer.next;
    var s' := Apply(script, s, Put).value;
    assert Taken(s) + (s.queue + [items[n]]) == (Taken(s) + s.queue) + [items[n]];
    assert items[..n] + [items[n]] == items[..n + 1];
    assert items[..|items|] == items;
  }

  lemma GetKeeps(script: Script, s: State)
    requires Inv(script, s) && Apply(script, s, Get).Some?
    ensures Inv(script, Apply(script, s, Get).value)
  {
    var s' := Apply(script, s, Get).value;
    if s.queue[0].Chunk? {
      ChunksExtend(s.received, s.queue[0].pcm);
    }
    assert s.queue == [s.queue[0]] + s.queue[1..];
    assert Taken(s') + s'.queue == Taken(s) + s.queue by {
      assert Taken(s') == Taken(s) + [s.queue[0]];
    }
  }

  lemma OtherKeeps(script: Script, s: State, l: Label)
    requires Inv(script, s) && Apply(script, s, l).Some? && !l.Put? && !l.Get?
    ensures Inv(script, Apply(script, s, l).value)
  {
    var s' := Apply(script, s, l).value;
    assert Taken(s') == Taken(s) && s'.queue == s.queue;
  }

  lemma StepKeepsInv(script: Script, s: State, l: Label)
    requires Inv(script, s) && Apply(script, s, l).Some?
    ensures Inv(script, Apply(script, s, l).value)
  {
    match l
    case Put => PutKeeps(script, s);
    case Get => GetKeeps(script, s);
    case _ => OtherKeeps(script, s, l);
  }

  function RunFrom(script: Script, s: State, labels: seq<Label>): Option<State>
    decreases |labels|
  {
    if labels == [] then Some(s)
    else
      match Apply(script, s, labels[0])
      case None => None
      case Some(next) => RunFrom(script, next, labels[1..])
  }

  lemma {:induction false} RunKeepsInv(script: Script, s: State, labels: seq<Label>)
    requires Inv(script, s) && RunFrom(script, s, labels).Some?
    ensures Inv(script, RunFrom(script, s, labels).value)
    decreases |labels|
  {
    if labels != [] {
      StepKeepsInv(script, s, labels[0]);
      RunKeepsInv(script, Apply(script, s, labels[0]).value, labels[1..]);
    }
  }

  ghost predicate Reachable(script: Script, s: State) {
    exists labels :: RunFrom(script, START, labels) == Some(s)
  }

  lemma ReachableInv(script: Script, s: State)
    requires Reachable(script, s)
    ensures Inv(script, s)
  {
    var labels :| RunFrom(script, START, labels) == Some(s);
    assert Chunks([]) == [];
    assert Taken(START) + START.queue == [] == Items(script)[..0];
    RunKeepsInv(script, START, labels);
  }

  // ---------------------------------------------------------------------- results

  /** The items are the audible chunks, then something that is not a chunk. */
  lemma ItemsShape(script: Script)
    ensures var items, all := Items(script), Audible(script.yielded);
            && |items| > |all| && (forall i :: 0 <= i < |all| ==> items[i] == Chunk(all[i]))
            && items[|all|] == if script.raises then Fault else End
  {
  }

  /** Chunks at the front of the item list are the audible chunks. */
  lemma PrefixOfChunks(script: Script, received: seq<Pcm>)
    requires Chunks(received) <= Items(script)
    ensures received <= Audible(script.yielded)
  {
    ItemsShape(script);
    assert forall i :: 0 <= i < |received| ==> Items(script)[i] == Chunk(received[i]);
  }

  /** A list of chunks and one closing item, at the front of the items, is all of them up to
      that item. */
  lemma ClosedPrefix(script: Script, received: seq<Pcm>, last: Item)
    requires Chunks(received) + [last] <= Items(script) && !last.Chunk?
    ensures received == Audible(script.yielded) && (last.Fault? <==> script.raises)
  {
    var items := Items(script);
    var taken := Chunks(received) + [last];
    assert Chunks(received) <= items by {
      assert Chunks(received) == taken[..|received|];
    }
    PrefixOfChunks(script, received);
    ItemsShape(script);
    assert items[|received|] == taken[|received|] == last;
    assert |received| >= |Audible(script.yielded)|;
    assert received == Audible(script.yielded);
  }

  /** In every interleaving of producer and consumer, the consumer has received a prefix of
      the audible chunks in order; a body that ends normally carried all of them and the
      generator did not raise; a body that raises carried all that came before the
      exception. */
  lemma StreamIsFaithful(script: Script, s: State)
    requires Reachable(script, s)
    ensures s.received <= Audible(script.yielded)
    ensures s.consumer.Finished? ==> s.received == Audible(script.yielded) && !script.raises
    ensures s.consumer.Raised? ==> s.received == Audible(script.yielded) && script.raises
  {
    ReachableInv(script, s);
    var items := Items(script);
    var taken := Taken(s);
    assert taken <= items by {
      assert taken == (taken + s.queue)[..|taken|];
    }
    if s.consumer.Finished? {
      ClosedPrefix(script, s.received, End);
    } else if s.consumer.Raised? {
      ClosedPrefix(script, s.received, Fault);
    } else {
      assert taken == Chunks(s.received);
      PrefixOfChunks(script, s.received);
    }
  }

  /** Memory stays bounded: at most four items are ever queued, and the producer is at most
      that far ahead of the consumer. */
  lemma Backpressure(script: Script, s: State)
    requires Reachable(script, s)
    ensures |s.queue| <= CAPACITY
    ensures !s.producer.Done? ==> PutCount(script, s) <= |s.received| + 1 + CAPACITY
  {
    ReachableInv(script, s);
  }

  // -------------------------------------------------- when does the job return?

  /** A dropped response whose items do not fit the queue keeps its producer, and with it
      the worker thread and the lease, for good. */
  predicate Wedged(script: Script, s: State) {
    s.consumer.Dropped? && !s.producer.Done? && |Items(script)| > CAPACITY
  }

  lemma WedgedStep(script: Script, s: State, l: Label)
    requires Inv(script, s) && Wedged(script, s) && Apply(script, s, l).Some?
    ensures Wedged(script, Apply(script, s, l).value)
  {
    assert Taken(s) == [];
  }

  lemma {:induction false} WedgedForever(script: Script, s: State, labels: seq<Label>)
    requires Inv(script, s) && Wedged(script, s) && RunFrom(script, s, labels).Some?
    ensures !RunFrom(script, s, labels).value.producer.Done?
    decreases |labels|
  {
    if labels != [] {
      WedgedStep(script, s, labels[0]);
      StepKeepsInv(script, s, labels[0]);
      WedgedForever(script, Apply(script, s, labels[0]).value, labels[1..]);
    }
  }

  /** Some continuation lets the job return. */
  ghost predicate CanReturn(script: Script, s: State) {
    exists labels ::
      RunFrom(script, s, labels).Some? && RunFrom(script, s, labels).value.producer.Done?
  }

  lemma ReturnLater(script: Script, s: State, l: Label)
    requires Apply(script, s, l).Some? && CanReturn(script, Apply(script, s, l).value)
    ensures CanReturn(script, s)
  {
    var next := Apply(script, s, l).value;
    var labels :| RunFrom(script, next, labels).Some? && RunFrom(script, next, labels).value.producer.Done?;
    assert ([l] + labels)[1..] == labels;
    assert RunFrom(script, s, [l] + labels) == RunFrom(script, next, labels);
  }

  lemma ReturnedAlready(script: Script, s: State)
    requires s.producer.Done?
    ensures CanReturn(script, s)
  {
    assert RunFrom(script, s, []) == Some(s);
  }

  lemma StoppedReturns(script: Script, s: State)
    requires Inv(script, s) && s.stopped
    ensures CanReturn(script, s)
  {
    match s.producer {
      case Done => ReturnedAlready(script, s);
      case Looking(n) =>
        ReturnedAlready(script, s.(producer := Done));
        ReturnLater(script, s, Look);
      case Putting(n) =>
        var l := if |s.queue| < CAPACITY then Put else TimeOut;
        var next := Apply(script, s, l).value;
        StepKeepsInv(script, s, l);
        if next.producer.Looking? {
          ReturnedAlready(script, next.(producer := Done));
          ReturnLater(script, next, Look);
        } else {
          ReturnedAlready(script, next);
        }
        ReturnLater(script, s, l);
    }
  }

  /** A consumer that reads, or can still begin to, can always stop the job. */
  lemma ReadingReturns(script: Script, s: State)
    requires Inv(script, s) && (s.consumer.Reading? || s.consumer.Unstarted?)
    ensures CanReturn(script, s)
  {
    var s1 := s.(consumer := Reading);
    if s.consumer.Unstarted? {
      StepKeepsInv(script, s, Begin);
    } else {
      assert s1 == s;
    }
    StepKeepsInv(script, s1, Cancel);
    StoppedReturns(script, Apply(script, s1, Cancel).value);
    ReturnLater(script, s1, Cancel);
    if s.consumer.Unstarted? {
      ReturnLater(script, s, Begin);
    }
  }

  lemma {:induction false} DroppedFits(script: Script, s: State)
    requires Inv(script, s) && s.consumer.Dropped? && |Items(script)| <= CAPACITY
    ensures CanReturn(script, s)
    decreases |Items(script)| - PutCount(script, s), if s.producer.Looking? then 1 else 0
  {
    assert Taken(s) == [];
    match s.producer {
      case Done => ReturnedAlready(script, s);
      case Looking(n) =>
        StepKeepsInv(script, s, Look);
        DroppedFits(script, Apply(script, s, Look).value);
        ReturnLater(script, s, Look);
      case Putting(n) =>
        StepKeepsInv(script, s, Put);
        DroppedFits(script, Apply(script, s, Put).value);
        ReturnLater(script, s, Put);
    }
  }

  /** From every reachable state the job can still return, and the lease be freed, exactly
      when it is not wedged: the one way to lose it is to drop a response of four or more
      audible chunks (three, if the generator raises) before its body is first read. */
  lemma JobCanReturnIff(script: Script, s: State)
    requires Reachable(script, s)
    ensures CanReturn(script, s) <==> !Wedged(script, s)
    ensures |Items(script)| > CAPACITY <==> |Audible(script.yielded)| + (if script.raises then 1 else 0) >= 4
  {
    ReachableInv(script, s);
    if Wedged(script, s) {
      forall labels | RunFrom(script, s, labels).Some?
        ensures !RunFrom(script, s, labels).value.producer.Done?
      {
        WedgedForever(script, s, labels);
      }
    } else if s.stopped {
      StoppedReturns(script, s);
    } else if s.consumer.Dropped? {
      if s.producer.Done? {
        ReturnedAlready(script, s);
      } else {
        DroppedFits(script, s);
      }
    } else {
      ReadingReturns(script, s);
    }
  }

  /** It happens: whatever the script, dropping the response at once wedges the job exactly
      when its items do not fit the queue. */
  lemma DroppedAtOnce(script: Script)
    ensures var end := RunFrom(script, START, [Drop]);
            end.Some? && Reachable(script, end.value) && (Wedged(script, end.value) <==> |Items(script)| > CAPACITY)
  {
    assert [Drop][1..] == [];
    var end := START.(consumer := Dropped);
    assert RunFrom(script, end, []) == Some(end);
  }
}
