/** The streaming stop guard: client stop strings stay dormant until the text generated so
    far contains the end-of-reasoning marker, found incrementally, chunk by chunk. */
module StopGuard {
  import opened Options

  /** The marker stands at `i`. */
  predicate At(text: string, marker: string, i: nat) {
    i + |marker| <= |text| && text[i..i + |marker|] == marker
  }

  ghost predicate Contains(text: string, marker: string) {
    exists i: nat :: At(text, marker, i)
  }

  /** `str.find`: the least occurrence at or after `start`. */
  function Find(text: string, marker: string, start: nat): (r: Option<nat>)
    ensures r.Some? ==> r.value >= start && At(text, marker, r.value)
    ensures r.Some? ==> forall j: nat :: start <= j < r.value ==> !At(text, marker, j)
    ensures r.None? ==> forall j: nat :: start <= j ==> !At(text, marker, j)
    decreases |text| - start
  {
    if start + |marker| > |text| then None
    else if At(text, marker, start) then Some(start)
    else Find(text, marker, start + 1)
  }

  /** The first occurrence in the whole text. */
  predicate First(text: string, marker: string, i: nat) {
    At(text, marker, i) && forall j: nat :: j < i ==> !At(text, marker, j)
  }

  /** The marker used: the configured one, or the default when that is absent or empty. */
  function EndMarker(configured: Option<string>): (m: string)
    ensures m != []
    ensures configured.Some? && configured.value != [] ==> m == configured.value
  {
    if configured.Some? && configured.value != "" then configured.value else "</think>"
  }

  /** Where the search of one chunk starts: far enough back for a marker that straddles
      the offset. */
  function WindowStart(marker: string, offset: nat): nat {
    if offset + 1 >= |marker| then offset + 1 - |marker| else 0
  }

  /** Verdict of one stop check: whether client stops may fire, and from which offset. */
  datatype Verdict = Verdict(active: bool, offset: nat)

  class Detokenizer {
    const marker: string
    const guarded: bool
    var closed: bool
    var outputText: string

    constructor (configured: Option<string>, guard: bool)
      ensures marker == EndMarker(configured) && guarded == guard && !closed && outputText == ""
    {
      marker := EndMarker(configured);
      guarded := guard;
      closed := false;
      outputText := "";
    }

    /** One chunk is appended and checked; `offset` is where the check may start. */
    method Update(chunk: string, offset: nat) returns (v: Verdict)
      modifies this
      ensures outputText == old(outputText) + chunk
      ensures (closed, v) == Checked(marker, guarded, old(closed), outputText, offset)
    {
      outputText := outputText + chunk;
      var from := offset;
      if guarded && !closed {
        var window := if offset + 1 >= |marker| then offset - (|marker| - 1) else 0;
        var idx := Find(outputText, marker, window);
        if idx.Some? {
          closed := true;
          from := if offset >= idx.value + |marker| then offset else idx.value + |marker|;
        }
      }
      v := Verdict(!guarded || closed, from);
    }
  }

  /** What one stop check does: new `closed` flag and verdict. */
  function Checked(marker: string, guarded: bool, closed: bool, text: string, offset: nat): (bool, Verdict) {
    if !guarded || closed then (closed, Verdict(true, offset))
    else
      var idx := Find(text, marker, WindowStart(marker, offset));
      if idx.None? then (false, Verdict(false, offset))
      else
        var end := idx.value + |marker|;
        (true, Verdict(true, if offset >= end then offset else end))
  }

  // ----------------------------------------------------------- streams of chunks

  function Text(chunks: seq<string>): string {
    if chunks == [] then "" else Text(chunks[..|chunks| - 1]) + chunks[|chunks| - 1]
  }

  /** The guard's flag after the chunks, each checked from its own offset. */
  function ClosedAfter(marker: string, chunks: seq<string>, offsets: seq<nat>): bool
    requires |offsets| == |chunks|
  {
    if chunks == [] then false
    else
      var n := |chunks| - 1;
      Checked(marker, true, ClosedAfter(marker, chunks[..n], offsets[..n]), Text(chunks), offsets[n]).0
  }

  /** The verdict on the last chunk. */
  function LastVerdict(marker: string, chunks: seq<string>, offsets: seq<nat>): Verdict
    requires |offsets| == |chunks| > 0
  {
    var n := |chunks| - 1;
    Checked(marker, true, ClosedAfter(marker, chunks[..n], offsets[..n]), Text(chunks), offsets[n]).1
  }

  /** The offset of each chunk is the length of the text before it. */
  predicate PlainOffsets(chunks: seq<string>, offsets: seq<nat>) {
    && |offsets| == |chunks|
    && (forall i :: 0 <= i < |chunks| ==> offsets[i] == |Text(chunks[..i])|)
  }

  /** No chunk is checked from past the end of the text before it. */
  predicate EarlyOffsets(chunks: seq<string>, offsets: seq<nat>) {
    && |offsets| == |chunks|
    && (forall i :: 0 <= i < |chunks| ==> offsets[i] <= |Text(chunks[..i])|)
  }

  lemma EarlyPrefix(chunks: seq<string>, offsets: seq<nat>, n: nat)
    requires EarlyOffsets(chunks, offsets) && n <= |chunks|
    ensures EarlyOffsets(chunks[..n], offsets[..n])
  {
    forall i | 0 <= i < n
      ensures offsets[..n][i] <= |Text(chunks[..n][..i])|
    {
      assert chunks[..n][..i] == chunks[..i];
    }
  }

  /** Appending keeps occurrences, and adds none that end inside the old text. */
  lemma Appended(text: string, chunk: string, marker: string, i: nat)
    ensures At(text, marker, i) ==> At(text + chunk, marker, i)
    ensures At(text + chunk, marker, i) && i + |marker| <= |text| ==> At(text, marker, i)
  {
    if i + |marker| <= |text| {
      assert (text + chunk)[i..i + |marker|] == text[i..i + |marker|];
    }
  }

  /** One check of an open guard closes it exactly when an occurrence ends past the
      offset. */
  lemma ClosesIff(marker: string, text: string, offset: nat)
    requires marker != []
    ensures Checked(marker, true, false, text, offset).0 <==>
            exists i: nat :: At(text, marker, i) && i + |marker| > offset
  {
    var window := WindowStart(marker, offset);
    var idx := Find(text, marker, window);
    if idx.Some? {
      assert At(text, marker, idx.value) && idx.value + |marker| > offset;
    }
  }

  ghost predicate EndsPast(text: string, marker: string, offset: nat) {
    exists i: nat :: At(text, marker, i) && i + |marker| > offset
  }

  /** The check of this chunk sees the marker: an occurrence in the text so far ends past
      the chunk's offset. */
  ghost predicate SeenBy(marker: string, chunks: seq<string>, offsets: seq<nat>, n: nat) {
    n < |chunks| == |offsets| && EndsPast(Text(chunks[..n + 1]), marker, offsets[n])
  }

  /** For any chunks and any offsets at all, the guard is closed exactly when the check of
      some chunk saw the marker. */
  lemma {:induction false} ClosedIffSeen(marker: string, chunks: seq<string>, offsets: seq<nat>)
    requires marker != [] && |offsets| == |chunks|
    ensures ClosedAfter(marker, chunks, offsets) <==> exists n :: SeenBy(marker, chunks, offsets, n)
    decreases |chunks|
  {
    if chunks != [] {
      var last := |chunks| - 1;
      var before, earlier := chunks[..last], offsets[..last];
      ClosedIffSeen(marker, before, earlier);
      ClosesIff(marker, Text(chunks), offsets[last]);
      assert chunks[..last + 1] == chunks;
      forall n: nat | n < last
        ensures SeenBy(marker, before, earlier, n) <==> SeenBy(marker, chunks, offsets, n)
      {
        assert before[..n + 1] == chunks[..n + 1];
      }
      assert SeenBy(marker, chunks, offsets, last) <==> Checked(marker, true, false, Text(chunks), offsets[last]).0;
      if n: nat :| SeenBy(marker, before, earlier, n) {
        assert SeenBy(marker, chunks, offsets, n);
      }
    }
  }

  /** For every division of the output into chunks, and offsets never past the text that
      was there before, the guard is closed exactly when the whole text so far contains the
      marker. */
  lemma {:induction false} GuardIsWholeTextSearch(marker: string, chunks: seq<string>, offsets: seq<nat>)
    requires marker != [] && EarlyOffsets(chunks, offsets)
    ensures ClosedAfter(marker, chunks, offsets) <==> Contains(Text(chunks), marker)
  {
    if chunks == [] {
      forall i: nat
        ensures !At("", marker, i)
      {
      }
    } else {
      var n := |chunks| - 1;
      var before, chunk := Text(chunks[..n]), chunks[n];
      EarlyPrefix(chunks, offsets, n);
      GuardIsWholeTextSearch(marker, chunks[..n], offsets[..n]);
      ClosesIff(marker, Text(chunks), offsets[n]);
      NewOrOld(marker, before, chunk);
    }
  }

  lemma NewOrOld(marker: string, before: string, chunk: string)
    ensures Contains(before + chunk, marker) <==>
            Contains(before, marker) || exists i: nat :: At(before + chunk, marker, i) && i + |marker| > |before|
  {
    if Contains(before, marker) {
      var i: nat :| At(before, marker, i);
      Appended(before, chunk, marker, i);
    }
    if Contains(before + chunk, marker) {
      var i: nat :| At(before + chunk, marker, i);
      Appended(before, chunk, marker, i);
    }
  }

  /** How the output is cut does not matter. */
  lemma DivisionDoesNotMatter(marker: string, chunks: seq<string>, offsets: seq<nat>,
                              others: seq<string>, otherOffsets: seq<nat>)
    requires marker != [] && EarlyOffsets(chunks, offsets) && EarlyOffsets(others, otherOffsets)
    requires Text(chunks) == Text(others)
    ensures ClosedAfter(marker, chunks, offsets) == ClosedAfter(marker, others, otherOffsets)
  {
    GuardIsWholeTextSearch(marker, chunks, offsets);
    GuardIsWholeTextSearch(marker, others, otherOffsets);
  }

  /** Stops are active exactly once the marker is in the text, and are then never checked
      from before the end of its first occurrence; in the chunk that closes the guard the
      check starts exactly there. */
  lemma StopsStartAfterMarker(marker: string, chunks: seq<string>, offsets: seq<nat>)
    requires marker != [] && PlainOffsets(chunks, offsets) && chunks != []
    ensures var v := LastVerdict(marker, chunks, offsets);
            && (v.active <==> Contains(Text(chunks), marker))
            && (v.active ==> exists i: nat :: First(Text(chunks), marker, i) && i + |marker| <= v.offset)
            && (v.active && !Contains(Text(chunks[..|chunks| - 1]), marker) ==>
                  exists i: nat :: First(Text(chunks), marker, i) && v.offset == i + |marker|)
  {
    var n := |chunks| - 1;
    var before, chunk := Text(chunks[..n]), chunks[n];
    var text := Text(chunks);
    EarlyPrefix(chunks, offsets, n);
    GuardIsWholeTextSearch(marker, chunks[..n], offsets[..n]);
    GuardIsWholeTextSearch(marker, chunks, offsets);
    if Contains(before, marker) {
      var i := FirstIn(before, marker);
      FirstStays(before, chunk, marker, i);
    } else if LastVerdict(marker, chunks, offsets).active {
      var idx := Find(text, marker, WindowStart(marker, |before|)).value;
      NothingEarlier(marker, before, chunk);
      assert First(text, marker, idx);
    }
  }

  lemma FirstIn(text: string, marker: string) returns (i: nat)
    requires Contains(text, marker)
    ensures First(text, marker, i)
  {
    i := Find(text, marker, 0).value;
  }

  lemma FirstStays(before: string, chunk: string, marker: string, i: nat)
    requires First(before, marker, i)
    ensures First(before + chunk, marker, i) && i + |marker| <= |before|
  {
    Appended(before, chunk, marker, i);
    forall j: nat | j < i
      ensures !At(before + chunk, marker, j)
    {
      Appended(before, chunk, marker, j);
    }
  }

  /** While the old text has no marker, no occurrence starts before the search window. */
  lemma NothingEarlier(marker: string, before: string, chunk: string)
    requires marker != [] && !Contains(before, marker)
    ensures forall j: nat :: j < WindowStart(marker, |before|) ==> !At(before + chunk, marker, j)
  {
    forall j: nat | j < WindowStart(marker, |before|)
      ensures !At(before + chunk, marker, j)
    {
      Appended(before, chunk, marker, j);
    }
  }

  // ---------------------------------------------------- offsets moved further on

  /** An offset moved past the old text (the minimum-token rule moves it inside a chunk)
      loses the marker exactly when every new occurrence ends at or before it. */
  lemma MissesIff(marker: string, before: string, chunk: string, offset: nat)
    requires marker != [] && !Contains(before, marker) && Contains(before + chunk, marker)
    ensures !Checked(marker, true, false, before + chunk, offset).0 <==>
            forall i: nat :: At(before + chunk, marker, i) ==> i + |marker| <= offset
  {
    ClosesIff(marker, before + chunk, offset);
  }

  /** No offset at or before the old text's end ever loses it. */
  lemma EarlyOffsetNeverMisses(marker: string, before: string, chunk: string, offset: nat)
    requires marker != [] && !Contains(before, marker) && offset <= |before|
    ensures Checked(marker, true, false, before + chunk, offset).0 <==> Contains(before + chunk, marker)
  {
    ClosesIff(marker, before + chunk, offset);
    NewOrOld(marker, before, chunk);
  }

  /** A marker that ends inside the minimum-token stretch is lost for good: later text
      without a marker of its own never closes the guard. */
  lemma LostForGood(marker: string, text: string, more: string)
    requires marker != [] && |marker| <= |text|
    requires forall i: nat :: At(text + more, marker, i) ==> i + |marker| <= |text|
    ensures !Checked(marker, true, false, text, |text|).0
    ensures !Checked(marker, true, false, text + more, |text|).0
  {
    ClosesIff(marker, text, |text|);
    ClosesIff(marker, text + more, |text|);
  }

  /** An output that closes its reasoning within the minimum-token stretch and then
      answers: client stops stay dormant although the text holds the marker. */
  lemma LostMarker()
    ensures var text := "</think> Question:";
            Contains(text, "</think>") && !Checked("</think>", true, false, text, 8).0
  {
    var marker, answer := "</think>", " Question:";
    var text := marker + answer;
    assert text == "</think> Question:";
    assert At(text, marker, 0);
    forall i: nat | At(text, marker, i)
      ensures i + |marker| <= 8
    {
      assert text[i..i + |marker|][0] == text[i] == '<';
    }
    LostForGood(marker, marker, answer);
  }
}
