/** The single-pack installer, and what the composed installer has to do with running it
    once per pack. */
module OverlayPack {
  import opened Options
  import opened OverlayStack

  predicate ItemKnown(hash: Bytes -> Digest, files: Files, item: Item) {
    DigestOf(hash, Read(files, item.target)) in {item.base, Some(item.sha)}
  }

  /** Every entry passes its checks. */
  predicate PackOk(hash: Bytes -> Digest, files: Files, items: seq<Item>) {
    forall i :: 0 <= i < |items| ==> Sound(hash, items[i]) && ItemKnown(hash, files, items[i])
  }

  function PackChanges(files: Files, items: seq<Item>): (c: seq<Change>)
    ensures |c| == |items|
  {
    seq(|items|, i requires 0 <= i < |items| =>
      Change(items[i].target, Read(files, items[i].target), items[i].payload))
  }

  /** The validating loop: read-only. */
  method ValidatePack(hash: Bytes -> Digest, items: seq<Item>, files: Files) returns (r: Result<seq<Change>>)
    ensures r.Ok? <==> PackOk(hash, files, items)
    ensures r.Ok? ==> r.value == PackChanges(files, items)
  {
    var changes: seq<Change> := [];
    for i := 0 to |items|
      invariant changes == PackChanges(files, items)[..i]
      invariant forall j :: 0 <= j < i ==> Sound(hash, items[j]) && ItemKnown(hash, files, items[j])
    {
      var item := items[i];
      if hash(item.payload) != item.sha {
        return Err(ChecksumMismatch);
      }
      if !item.parses {
        return Err(SyntaxError);
      }
      var before := Read(files, item.target);
      var actual := if before.Some? then Some(hash(before.value)) else None;
      if actual != item.base && actual != Some(item.sha) {
        return Err(UnknownSource);
      }
      changes := changes + [Change(item.target, before, item.payload)];
    }
    return Ok(changes);
  }

  /** The files after a complete run on a pack that passed. */
  function PackResult(files: Files, items: seq<Item>): Files {
    Written(files, PackChanges(files, items), |items|)
  }

  /** The last payload of a chain that differs from what the file held at validation. */
  function LastWrite(before: Option<Bytes>, chain: seq<Item>): Option<Bytes> {
    if chain == [] then before
    else
      var last := chain[|chain| - 1].payload;
      if before != Some(last) then Some(last) else LastWrite(before, chain[..|chain| - 1])
  }

  /** A pack leaves in each target the last payload that differs from what validation
      saw: a file that validation found final is written back by an earlier entry. */
  lemma {:induction false} PackAt(files: Files, items: seq<Item>, n: nat, t: Path)
    requires n <= |items|
    ensures Read(Written(files, PackChanges(files, items), n), t) == LastWrite(Read(files, t), Chain(items[..n], t))
    decreases n
  {
    if n > 0 {
      var last := items[n - 1];
      assert items[..n][..n - 1] == items[..n - 1];
      PackAt(files, items, n - 1, t);
      var chain := Chain(items[..n - 1], t);
      if last.target == t {
        assert (chain + [last])[..|chain|] == chain;
      } else {
        assert chain + [] == chain;
      }
    }
  }

  lemma PackResultAt(files: Files, items: seq<Item>, t: Path)
    ensures Read(PackResult(files, items), t) == LastWrite(Read(files, t), Chain(items, t))
  {
    PackAt(files, items, |items|, t);
    assert items[..|items|] == items;
  }

  /** The file already holds the chain's last payload, and an earlier entry of the same
      pack has another one. */
  predicate WritesBack(before: Option<Bytes>, chain: seq<Item>) {
    && chain != [] && before == Some(chain[|chain| - 1].payload)
    && (exists i :: 0 <= i < |chain| && before != Some(chain[i].payload))
  }

  lemma {:induction false} AllEqualMeansNoWrite(before: Option<Bytes>, chain: seq<Item>)
    ensures LastWrite(before, chain) == before <==>
            forall i :: 0 <= i < |chain| ==> before == Some(chain[i].payload)
  {
    if chain != [] {
      var shorter := chain[..|chain| - 1];
      AllEqualMeansNoWrite(before, shorter);
      if before == Some(chain[|chain| - 1].payload) {
        if forall i :: 0 <= i < |shorter| ==> before == Some(shorter[i].payload) {
          forall i | 0 <= i < |chain|
            ensures before == Some(chain[i].payload)
          {
            if i < |shorter| {
              assert shorter[i] == chain[i];
            }
          }
        } else {
          var i :| 0 <= i < |shorter| && before != Some(shorter[i].payload);
          assert chain[i] == shorter[i];
        }
      }
    }
  }

  lemma EndsFinalIff(before: Option<Bytes>, chain: seq<Item>)
    requires chain != []
    ensures LastWrite(before, chain) == Some(chain[|chain| - 1].payload) <==> !WritesBack(before, chain)
  {
    AllEqualMeansNoWrite(before, chain);
  }

  // ------------------------------------------------ one run per pack, and the stack

  lemma {:induction false} ChainConcat(p: seq<Item>, q: seq<Item>, t: Path)
    ensures Chain(p + q, t) == Chain(p, t) + Chain(q, t)
    decreases |q|
  {
    if q == [] {
      assert p + q == p;
    } else {
      assert (p + q)[..|p + q| - 1] == p + q[..|q| - 1];
      ChainConcat(p, q[..|q| - 1], t);
    }
  }

  /** Running the single-pack installer on the baseline, then on the upgrade. */
  predicate SequentialOk(hash: Bytes -> Digest, files: Files, baseline: seq<Item>, upgrade: seq<Item>) {
    PackOk(hash, files, baseline) && PackOk(hash, PackResult(files, baseline), upgrade)
  }

  function SequentialResult(files: Files, baseline: seq<Item>, upgrade: seq<Item>): Files {
    PackResult(PackResult(files, baseline), upgrade)
  }

  lemma FirstLinkAccepted(hash: Bytes -> Digest, items: seq<Item>, st: Stack, t: Path, d: Option<Digest>)
    requires Compose(hash, items) == Ok(st) && t in st.entries
    requires var chain := Chain(items, t); chain != [] && d in {chain[0].base, Some(chain[0].sha)}
    ensures d in st.entries[t].allowed
  {
    ComposeMeaning(hash, items);
    var chain := Chain(items, t);
    assert Some(chain[0].sha) in (set i | 0 <= i < |chain| :: Some(chain[i].sha));
  }

  lemma ChainHeadKnown(hash: Bytes -> Digest, files: Files, items: seq<Item>, t: Path)
    requires PackOk(hash, files, items) && Chain(items, t) != []
    ensures ItemKnown(hash, files, Chain(items, t)[0]) && Chain(items, t)[0].target == t
  {
    ChainIsFromItems(items, t, 0);
  }

  lemma TargetAccepted(hash: Bytes -> Digest, files: Files, baseline: seq<Item>, upgrade: seq<Item>, st: Stack, t: Path)
    requires SequentialOk(hash, files, baseline, upgrade) && Compose(hash, baseline + upgrade) == Ok(st)
    requires t in st.entries && Chain(baseline + upgrade, t) != []
    ensures Known(hash, st, files, t)
  {
    ChainConcat(baseline, upgrade, t);
    if Chain(baseline, t) != [] {
      ChainHeadKnown(hash, files, baseline, t);
    } else {
      PackResultAt(files, baseline, t);
      ChainHeadKnown(hash, PackResult(files, baseline), upgrade, t);
    }
    FirstLinkAccepted(hash, baseline + upgrade, st, t, DigestOf(hash, Read(files, t)));
  }

  /** Whatever the two single-pack runs accept, the composed installer accepts. */
  lemma StackAcceptsSequential(hash: Bytes -> Digest, files: Files, baseline: seq<Item>, upgrade: seq<Item>, st: Stack)
    requires SequentialOk(hash, files, baseline, upgrade) && Compose(hash, baseline + upgrade) == Ok(st)
    ensures AllKnown(hash, st, files)
  {
    ComposeMeaning(hash, baseline + upgrade);
    forall t | t in st.entries
      ensures Known(hash, st, files, t)
    {
      TargetAccepted(hash, files, baseline, upgrade, st, t);
    }
  }

  /** Where the two single-pack runs would end on bytes other than the final ones. */
  predicate Reverts(files: Files, baseline: seq<Item>, upgrade: seq<Item>, t: Path) {
    if Chain(upgrade, t) != [] then WritesBack(Read(PackResult(files, baseline), t), Chain(upgrade, t))
    else WritesBack(Read(files, t), Chain(baseline, t))
  }

  lemma FinalAt(hash: Bytes -> Digest, items: seq<Item>, st: Stack, files: Files, t: Path)
    requires Compose(hash, items) == Ok(st)
    ensures var chain := Chain(items, t);
            Read(files + Finals(st), t) == if chain == [] then Read(files, t) else Some(chain[|chain| - 1].payload)
  {
    ComposeMeaning(hash, items);
  }

  /** What both runs leave, as one chain each. */
  lemma SequentialAt(before: Option<Bytes>, mid: Option<Bytes>, first: seq<Item>, second: seq<Item>)
    requires mid == LastWrite(before, first)
    ensures var both := first + second;
            LastWrite(mid, second) == (if both == [] then before else Some(both[|both| - 1].payload)) <==>
            !(if second != [] then WritesBack(mid, second) else WritesBack(before, first))
  {
    if second != [] {
      EndsFinalIff(mid, second);
    } else if first != [] {
      EndsFinalIff(before, first);
    }
  }

  lemma StackIsSequentialAt(hash: Bytes -> Digest, files: Files, baseline: seq<Item>, upgrade: seq<Item>, st: Stack,
                            t: Path)
    requires Compose(hash, baseline + upgrade) == Ok(st)
    ensures Read(SequentialResult(files, baseline, upgrade), t) == Read(files + Finals(st), t) <==>
            !Reverts(files, baseline, upgrade, t)
  {
    var mid := PackResult(files, baseline);
    FinalAt(hash, baseline + upgrade, st, files, t);
    ChainConcat(baseline, upgrade, t);
    PackResultAt(files, baseline, t);
    PackResultAt(mid, upgrade, t);
    SequentialAt(Read(files, t), Read(mid, t), Chain(baseline, t), Chain(upgrade, t));
  }

  /** For a compatible chain, the composed installer ends exactly where running the packs
      one after the other ends, if and only if no pack writes one of its own targets
      back. */
  lemma StackIsSequentialIff(hash: Bytes -> Digest, files: Files, baseline: seq<Item>, upgrade: seq<Item>, st: Stack)
    requires SequentialOk(hash, files, baseline, upgrade) && Compose(hash, baseline + upgrade) == Ok(st)
    ensures Attempt(hash, st, files, |st.order|) == SequentialResult(files, baseline, upgrade) <==>
            forall t: Path :: !Reverts(files, baseline, upgrade, t)
  {
    StackAcceptsSequential(hash, files, baseline, upgrade, st);
    CompleteRun(st, files);
    var sequential := SequentialResult(files, baseline, upgrade);
    forall t: Path
      ensures Read(sequential, t) == Read(files + Finals(st), t) <==> !Reverts(files, baseline, upgrade, t)
    {
      StackIsSequentialAt(hash, files, baseline, upgrade, st, t);
    }
    if forall t: Path :: !Reverts(files, baseline, upgrade, t) {
      SameReads(sequential, files + Finals(st));
    }
  }

  /** A manifest names each target once. */
  predicate NamesOnce(items: seq<Item>) {
    forall i, j :: 0 <= i < j < |items| ==> items[i].target != items[j].target
  }

  lemma {:induction false} NoChain(items: seq<Item>, t: Path)
    requires forall i :: 0 <= i < |items| ==> items[i].target != t
    ensures Chain(items, t) == []
  {
    if items != [] {
      NoChain(items[..|items| - 1], t);
    }
  }

  lemma {:induction false} NamedOnceChain(items: seq<Item>, t: Path)
    requires NamesOnce(items)
    ensures |Chain(items, t)| <= 1
  {
    if items != [] {
      if items[|items| - 1].target == t {
        NoChain(items[..|items| - 1], t);
      } else {
        NamedOnceChain(items[..|items| - 1], t);
      }
    }
  }

  lemma OneLinkStays(before: Option<Bytes>, chain: seq<Item>)
    requires |chain| <= 1
    ensures !WritesBack(before, chain)
  {
  }

  lemma NamedOnceNeverReverts(files: Files, baseline: seq<Item>, upgrade: seq<Item>, t: Path)
    requires NamesOnce(baseline) && NamesOnce(upgrade)
    ensures !Reverts(files, baseline, upgrade, t)
  {
    NamedOnceChain(baseline, t);
    NamedOnceChain(upgrade, t);
    OneLinkStays(Read(files, t), Chain(baseline, t));
    OneLinkStays(Read(PackResult(files, baseline), t), Chain(upgrade, t));
  }

  /** With manifests that name each target once, the composed installer is sequential
      application. */
  lemma StackIsSequential(hash: Bytes -> Digest, files: Files, baseline: seq<Item>, upgrade: seq<Item>, st: Stack)
    requires SequentialOk(hash, files, baseline, upgrade) && Compose(hash, baseline + upgrade) == Ok(st)
    requires NamesOnce(baseline) && NamesOnce(upgrade)
    ensures Attempt(hash, st, files, |st.order|) == SequentialResult(files, baseline, upgrade)
  {
    StackIsSequentialIff(hash, files, baseline, upgrade, st);
    forall t: Path
      ensures !Reverts(files, baseline, upgrade, t)
    {
      NamedOnceNeverReverts(files, baseline, upgrade, t);
    }
  }

  const TARGET := Path("ple.py")
  const OLD := Bytes("old")
  const NEW := Bytes("new")

  /** Digest of this example: the bytes themselves. */
  function Plain(b: Bytes): Digest { Digest(b.text) }

  const THERE := Item(TARGET, NEW, Plain(NEW), Some(Plain(OLD)), true)
  const BACK := Item(TARGET, OLD, Plain(OLD), Some(Plain(NEW)), true)

  /** A manifest that names a file twice, there and back. */
  const THERE_AND_BACK := [THERE, BACK]

  lemma OldIsNotNew()
    ensures OLD != NEW
  {
    assert OLD.text[0] != NEW.text[0];
  }

  lemma ThereAndBackComposes(st: Stack)
    requires st == Stack([TARGET], map[TARGET := Entry(OLD, {Some(Plain(OLD)), Some(Plain(NEW))})])
    ensures Compose(Plain, THERE_AND_BACK) == Ok(st)
  {
    var st1 := Stack([TARGET], map[TARGET := Entry(NEW, {Some(Plain(OLD)), Some(Plain(NEW))})]);
    assert [] + [TARGET] == [TARGET] && [] + [THERE] == [THERE];
    assert Compose(Plain, []) == Ok(EMPTY);
    assert Add(Plain, EMPTY, THERE) == Ok(st1);
    ComposeSnoc(Plain, [], THERE);
    assert Add(Plain, st1, BACK) == Ok(st) by {
      var both := {Some(Plain(OLD)), Some(Plain(NEW))};
      assert both + {Some(Plain(OLD))} == both;
      assert st1.entries[TARGET := Entry(OLD, both)] == map[TARGET := Entry(OLD, both)];
      assert Plain(BACK.payload) == BACK.sha && BACK.base == Some(Plain(NEW));
    }
    ComposeSnoc(Plain, [THERE], BACK);
    assert [THERE] + [BACK] == THERE_AND_BACK;
  }

  lemma ThereAndBackWrites(files: Files)
    requires files == map[TARGET := OLD]
    ensures PackOk(Plain, files, THERE_AND_BACK) && PackResult(files, THERE_AND_BACK) == map[TARGET := NEW]
  {
    OldIsNotNew();
    var changes := PackChanges(files, THERE_AND_BACK);
    assert changes[0] == Change(TARGET, Some(OLD), NEW) && changes[1] == Change(TARGET, Some(OLD), OLD);
    assert Written(files, changes, 0) == files;
    assert Written(files, changes, 1) == files[TARGET := NEW] == map[TARGET := NEW];
  }

  /** A manifest that names a target twice makes the two installers disagree: on the final
      bytes, the single-pack run writes the earlier entry's payload and stops there. */
  lemma NamedTwiceDiffers(st: Stack)
    requires Compose(Plain, THERE_AND_BACK + []) == Ok(st)
    ensures var files := map[TARGET := OLD];
            && SequentialOk(Plain, files, THERE_AND_BACK, [])
            && SequentialResult(files, THERE_AND_BACK, []) == map[TARGET := NEW]
            && files + Finals(st) == files
            && Attempt(Plain, st, files, |st.order|) == files
  {
    var files := map[TARGET := OLD];
    assert THERE_AND_BACK + [] == THERE_AND_BACK;
    ThereAndBackComposes(Stack([TARGET], map[TARGET := Entry(OLD, {Some(Plain(OLD)), Some(Plain(NEW))})]));
    ThereAndBackWrites(files);
    assert Known(Plain, st, files, TARGET);
    CompleteRun(st, files);
  }

  /** Why the stack is composed: after a complete run, starting over pack by pack is
      refused wherever the upgrade rebuilt a baseline target, while the composed
      installer accepts its own result and leaves it alone. */
  lemma RestartNeedsTheStack(hash: Bytes -> Digest, files: Files, baseline: seq<Item>, upgrade: seq<Item>,
                             st: Stack, i: nat)
    requires Compose(hash, baseline + upgrade) == Ok(st) && i < |baseline|
    requires var final := files + Finals(st);
             baseline[i].target in st.entries &&
             Some(hash(st.entries[baseline[i].target].payload)) !in {baseline[i].base, Some(baseline[i].sha)}
    ensures var final := files + Finals(st);
            && !PackOk(hash, final, baseline)
            && AllKnown(hash, st, final)
            && Attempt(hash, st, final, |st.order|) == final
  {
    var final := files + Finals(st);
    assert !ItemKnown(hash, final, baseline[i]);
    ComposedIsSound(hash, baseline + upgrade);
    forall t | t in st.entries
      ensures Known(hash, st, final, t)
    {
    }
    CompleteRun(st, final);
    assert final + Finals(st) == final;
  }
}
