/** The overlay installers: whole-file source overlays guarded by digests.  `Stack` is
    the composed installer (both packs at once, restartable), `Pack` the single-pack
    installer it composes.  Files are a map; the digest is any function of the bytes. */
module OverlayStack {
  import opened Options

  datatype Result<+T> = Ok(value: T) | Err(error: Error)
  datatype Error = ChecksumMismatch | SyntaxError | IncompatibleChain | UnknownSource | ChangedDuringValidation

  datatype Path = Path(name: string)
  datatype Bytes = Bytes(text: string)
  datatype Digest = Digest(hex: string)
  type Files = map<Path, Bytes>

  /** One manifest entry with the overlay file it names.  `base` is `None` for a file that
      the pinned revision does not have; `parses`: the overlay is well-formed Python. */
  datatype Item = Item(target: Path, payload: Bytes, sha: Digest, base: Option<Digest>, parses: bool)

  function Read(files: Files, target: Path): Option<Bytes> {
    if target in files then Some(files[target]) else None
  }

  function DigestOf(hash: Bytes -> Digest, data: Option<Bytes>): Option<Digest> {
    if data.Some? then Some(hash(data.value)) else None
  }

  // ------------------------------------------------------------- composing the packs

  datatype Entry = Entry(payload: Bytes, allowed: set<Option<Digest>>)

  /** A dictionary in insertion order. */
  datatype Stack = Stack(order: seq<Path>, entries: map<Path, Entry>)

  const EMPTY := Stack([], map[])

  /** The keys, each once. */
  predicate WellKeyed(st: Stack) {
    && (forall i :: 0 <= i < |st.order| ==> st.order[i] in st.entries)
    && (forall i, j :: 0 <= i < j < |st.order| ==> st.order[i] != st.order[j])
    && (forall t :: t in st.entries ==> t in st.order)
  }

  function Add(hash: Bytes -> Digest, st: Stack, item: Item): Result<Stack> {
    if hash(item.payload) != item.sha then Err(ChecksumMismatch)
    else if !item.parses then Err(SyntaxError)
    else if item.target in st.entries then
      var previous := st.entries[item.target];
      if item.base != Some(hash(previous.payload)) then Err(IncompatibleChain)
      else Ok(st.(entries := st.entries[item.target := Entry(item.payload, previous.allowed + {Some(item.sha)})]))
    else
      Ok(Stack(st.order + [item.target],
               st.entries[item.target := Entry(item.payload, {item.base, Some(item.sha)})]))
  }

  function Compose(hash: Bytes -> Digest, items: seq<Item>): (r: Result<Stack>)
    ensures r.Ok? ==> WellKeyed(r.value)
  {
    if items == [] then Ok(EMPTY)
    else
      match Compose(hash, items[..|items| - 1])
      case Err(e) => Err(e)
      case Ok(st) => Add(hash, st, items[|items| - 1])
  }

  /** Composition stops at the first error. */
  lemma {:induction false} ErrorPersists(hash: Bytes -> Digest, prefix: seq<Item>, items: seq<Item>)
    requires prefix <= items && Compose(hash, prefix).Err?
    ensures Compose(hash, items) == Compose(hash, prefix)
  {
    if |prefix| < |items| {
      ErrorPersists(hash, prefix, items[..|items| - 1]);
    } else {
      assert prefix == items;
    }
  }

  lemma ComposeSnoc(hash: Bytes -> Digest, done: seq<Item>, item: Item)
    requires Compose(hash, done).Ok?
    ensures Compose(hash, done + [item]) == Add(hash, Compose(hash, done).value, item)
  {
    assert (done + [item])[..|done|] == done;
  }

  lemma NextSlice(done: seq<Item>, pack: seq<Item>, i: nat)
    requires i < |pack|
    ensures done + pack[..i + 1] == (done + pack[..i]) + [pack[i]] && done + pack[..i + 1] <= done + pack
  {
  }

  lemma ComposeNext(hash: Bytes -> Digest, done: seq<Item>, pack: seq<Item>, i: nat)
    requires i < |pack| && Compose(hash, done + pack[..i]).Ok?
    ensures Compose(hash, done + pack[..i + 1]) == Add(hash, Compose(hash, done + pack[..i]).value, pack[i])
    ensures done + pack[..i + 1] <= done + pack
  {
    NextSlice(done, pack, i);
    ComposeSnoc(hash, done + pack[..i], pack[i]);
  }

  /** The inner loop: one manifest after what was composed so far. */
  method ComposePack(hash: Bytes -> Digest, done: seq<Item>, start: Stack, pack: seq<Item>) returns (r: Result<Stack>)
    requires Compose(hash, done) == Ok(start)
    ensures r == Compose(hash, done + pack)
  {
    var st := start;
    assert done + pack[..0] == done;
    for i := 0 to |pack|
      invariant Compose(hash, done + pack[..i]) == Ok(st)
    {
      var next := Add(hash, st, pack[i]);
      ComposeNext(hash, done, pack, i);
      if next.Err? {
        ErrorPersists(hash, done + pack[..i + 1], done + pack);
        return next;
      }
      st := next.value;
    }
    assert pack[..|pack|] == pack;
    return Ok(st);
  }

  /** The loop over both manifests. */
  method ComposePacks(hash: Bytes -> Digest, baseline: seq<Item>, upgrade: seq<Item>) returns (r: Result<Stack>)
    ensures r == Compose(hash, baseline + upgrade)
  {
    assert [] + baseline == baseline;
    r := ComposePack(hash, [], EMPTY, baseline);
    if r.Err? {
      ErrorPersists(hash, baseline, baseline + upgrade);
      return;
    }
    r := ComposePack(hash, baseline, r.value, upgrade);
  }

  // ---------------------------------------------- what a composed stack means

  /** The items that name a target, in order. */
  function Chain(items: seq<Item>, target: Path): seq<Item> {
    if items == [] then []
    else
      var last := items[|items| - 1];
      Chain(items[..|items| - 1], target) + (if last.target == target then [last] else [])
  }

  predicate Sound(hash: Bytes -> Digest, item: Item) {
    hash(item.payload) == item.sha && item.parses
  }

  /** Each link was made for the bytes the link before it installs. */
  predicate Linked(hash: Bytes -> Digest, chain: seq<Item>) {
    forall i :: 0 < i < |chain| ==> chain[i].base == Some(hash(chain[i - 1].payload))
  }

  ghost predicate Compatible(hash: Bytes -> Digest, items: seq<Item>) {
    && (forall i :: 0 <= i < |items| ==> Sound(hash, items[i]))
    && (forall t: Path :: Linked(hash, Chain(items, t)))
  }

  /** The entry a non-empty chain must get: the last payload; pristine bytes and the bytes
      of every link are accepted. */
  predicate EntryOf(e: Entry, chain: seq<Item>)
    requires |chain| > 0
  {
    && e.payload == chain[|chain| - 1].payload
    && e.allowed == {chain[0].base} + (set i | 0 <= i < |chain| :: Some(chain[i].sha))
  }

  ghost predicate StackOf(st: Stack, items: seq<Item>) {
    && WellKeyed(st)
    && (forall t :: t in st.entries <==> Chain(items, t) != [])
    && (forall t :: t in st.entries ==> EntryOf(st.entries[t], Chain(items, t)))
  }

  lemma EntryExtends(e: Entry, chain: seq<Item>, item: Item)
    requires |chain| > 0 && EntryOf(e, chain)
    ensures EntryOf(Entry(item.payload, e.allowed + {Some(item.sha)}), chain + [item])
  {
    var longer := chain + [item];
    var shas := set i | 0 <= i < |chain| :: Some(chain[i].sha);
    var more := set i | 0 <= i < |longer| :: Some(longer[i].sha);
    forall x | x in shas
      ensures x in more
    {
      var i :| 0 <= i < |chain| && x == Some(chain[i].sha);
      assert longer[i] == chain[i];
    }
    assert longer[|chain|] == item && Some(item.sha) in more;
    assert more == shas + {Some(item.sha)};
  }

  lemma EntryBegins(item: Item)
    ensures EntryOf(Entry(item.payload, {item.base, Some(item.sha)}), [item])
  {
    assert (set i | 0 <= i < |[item]| :: Some([item][i].sha)) == {Some([item][0].sha)};
  }

  lemma LinkedExtends(hash: Bytes -> Digest, chain: seq<Item>, item: Item)
    requires Linked(hash, chain)
    ensures Linked(hash, chain + [item]) <==>
            (chain != [] ==> item.base == Some(hash(chain[|chain| - 1].payload)))
  {
    var longer := chain + [item];
    if chain != [] && Linked(hash, longer) {
      assert longer[|chain|].base == Some(hash(longer[|chain| - 1].payload));
    }
  }

  lemma LinkedShrinks(hash: Bytes -> Digest, chain: seq<Item>, item: Item)
    requires Linked(hash, chain + [item])
    ensures Linked(hash, chain)
  {
    forall i | 0 < i < |chain|
      ensures chain[i].base == Some(hash(chain[i - 1].payload))
    {
      assert (chain + [item])[i] == chain[i] && (chain + [item])[i - 1] == chain[i - 1];
    }
  }

  lemma AddMeaning(hash: Bytes -> Digest, st: Stack, items: seq<Item>, item: Item)
    requires StackOf(st, items) && Add(hash, st, item).Ok?
    ensures StackOf(Add(hash, st, item).value, items + [item])
  {
    var st' := Add(hash, st, item).value;
    var more := items + [item];
    assert more[..|more| - 1] == items;
    var chain := Chain(items, item.target);
    assert Chain(more, item.target) == chain + [item];
    if item.target in st.entries {
      EntryExtends(st.entries[item.target], chain, item);
    } else {
      assert chain + [item] == [item];
      EntryBegins(item);
    }
    forall t | t in st'.entries
      ensures Chain(more, t) != [] && EntryOf(st'.entries[t], Chain(more, t))
    {
      if t != item.target {
        assert Chain(more, t) == Chain(items, t) + [];
        assert Chain(items, t) + [] == Chain(items, t);
      }
    }
    forall t | Chain(more, t) != []
      ensures t in st'.entries
    {
      if t != item.target {
        assert Chain(items, t) + [] == Chain(items, t);
      }
    }
  }

  /** Adding an item fails exactly when the item is unsound or does not extend the chain
      of its target. */
  lemma AddSucceedsIff(hash: Bytes -> Digest, st: Stack, items: seq<Item>, item: Item)
    requires StackOf(st, items) && Compatible(hash, items)
    ensures Add(hash, st, item).Ok? <==> Compatible(hash, items + [item])
  {
    var more := items + [item];
    assert more[..|more| - 1] == items;
    var chain := Chain(items, item.target);
    assert Chain(more, item.target) == chain + [item];
    LinkedExtends(hash, chain, item);
    assert Add(hash, st, item).Ok? <==> Sound(hash, item) && Linked(hash, chain + [item]);
    if Sound(hash, item) && Linked(hash, chain + [item]) {
      forall t: Path
        ensures Linked(hash, Chain(more, t))
      {
        if t != item.target {
          assert Chain(more, t) == Chain(items, t) + [];
          assert Chain(items, t) + [] == Chain(items, t);
        }
      }
    }
    if Compatible(hash, more) {
      assert Sound(hash, more[|items|]);
      assert Linked(hash, Chain(more, item.target));
    }
  }

  lemma CompatibleShrinks(hash: Bytes -> Digest, items: seq<Item>, item: Item)
    requires Compatible(hash, items + [item])
    ensures Compatible(hash, items)
  {
    var more := items + [item];
    assert more[..|more| - 1] == items;
    forall i | 0 <= i < |items|
      ensures Sound(hash, items[i])
    {
      assert more[i] == items[i];
    }
    forall t: Path
      ensures Linked(hash, Chain(items, t))
    {
      assert Linked(hash, Chain(more, t));
      if t == item.target {
        LinkedShrinks(hash, Chain(items, t), item);
      } else {
        assert Chain(items, t) + [] == Chain(items, t);
      }
    }
  }

  /** Composition succeeds exactly when every overlay is sound and every target's chain is
      linked; the stack then maps each target to the last payload of its chain and accepts
      its pristine bytes and the bytes of every link. */
  lemma {:induction false} ComposeMeaning(hash: Bytes -> Digest, items: seq<Item>)
    ensures Compose(hash, items).Ok? <==> Compatible(hash, items)
    ensures Compose(hash, items).Ok? ==> StackOf(Compose(hash, items).value, items)
  {
    if items != [] {
      var shorter, last := items[..|items| - 1], items[|items| - 1];
      assert items == shorter + [last];
      ComposeMeaning(hash, shorter);
      if Compose(hash, shorter).Ok? {
        var st := Compose(hash, shorter).value;
        AddSucceedsIff(hash, st, shorter, last);
        if Add(hash, st, last).Ok? {
          AddMeaning(hash, st, shorter, last);
        }
      } else if Compatible(hash, items) {
        CompatibleShrinks(hash, shorter, last);
      }
    }
  }

  // --------------------------------------------------- validate all, then write

  datatype Change = Change(target: Path, before: Option<Bytes>, payload: Bytes)

  predicate Known(hash: Bytes -> Digest, st: Stack, files: Files, target: Path)
    requires target in st.entries
  {
    DigestOf(hash, Read(files, target)) in st.entries[target].allowed
  }

  ghost predicate AllKnown(hash: Bytes -> Digest, st: Stack, files: Files) {
    forall t :: t in st.entries ==> Known(hash, st, files, t)
  }

  /** The changes a validated stack asks for, one per target. */
  function ChangesOf(st: Stack, files: Files): (c: seq<Change>)
    requires WellKeyed(st)
    ensures |c| == |st.order|
  {
    seq(|st.order|, i requires 0 <= i < |st.order| =>
      Change(st.order[i], Read(files, st.order[i]), st.entries[st.order[i]].payload))
  }

  /** First loop of the installer: read-only. */
  method Validate(hash: Bytes -> Digest, st: Stack, files: Files) returns (r: Result<seq<Change>>)
    requires WellKeyed(st)
    ensures r.Ok? <==> AllKnown(hash, st, files)
    ensures r.Ok? ==> r.value == ChangesOf(st, files)
    ensures r.Err? ==> r.error == UnknownSource
  {
    var changes: seq<Change> := [];
    for i := 0 to |st.order|
      invariant changes == ChangesOf(st, files)[..i]
      invariant forall j :: 0 <= j < i ==> Known(hash, st, files, st.order[j])
    {
      var target := st.order[i];
      var before := Read(files, target);
      if DigestOf(hash, before) !in st.entries[target].allowed {
        assert !Known(hash, st, files, target);
        return Err(UnknownSource);
      }
      changes := changes + [Change(target, before, st.entries[target].payload)];
    }
    return Ok(changes);
  }

  predicate Unchanged(files: Files, changes: seq<Change>) {
    forall i :: 0 <= i < |changes| ==> Read(files, changes[i].target) == changes[i].before
  }

  function WriteOne(files: Files, c: Change): Files {
    if c.before != Some(c.payload) then files[c.target := c.payload] else files
  }

  /** The files once the first `n` changes have been gone through. */
  function Written(files: Files, changes: seq<Change>, n: nat): Files
    requires n <= |changes|
  {
    if n == 0 then files else WriteOne(Written(files, changes, n - 1), changes[n - 1])
  }

  /** The installed source tree. */
  class Tree {
    var files: Files

    constructor (initial: Files)
      ensures files == initial
    {
      files := initial;
    }

    /** Second and third loop: re-check that nothing moved since validation, then write.
        The process may die once `budget` changes have been gone through. */
    method Commit(changes: seq<Change>, budget: nat) returns (r: Result<bool>)
      modifies this
      ensures r.Err? <==> !Unchanged(old(files), changes)
      ensures r.Err? ==> r.error == ChangedDuringValidation && files == old(files)
      ensures r.Ok? ==> files == Written(old(files), changes, if budget < |changes| then budget else |changes|)
      ensures r.Ok? ==> (r.value <==> budget >= |changes|)
    {
      for i := 0 to |changes|
        invariant forall j :: 0 <= j < i ==> Read(files, changes[j].target) == changes[j].before
        invariant files == old(files)
      {
        if Read(files, changes[i].target) != changes[i].before {
          return Err(ChangedDuringValidation);
        }
      }
      for i := 0 to |changes|
        invariant i <= budget
        invariant files == Written(old(files), changes, i)
      {
        if i == budget {
          return Ok(false);
        }
        var c := changes[i];
        if c.before != Some(c.payload) {
          files := files[c.target := c.payload];
        }
      }
      return Ok(true);
    }

    /** The whole `apply`: compose both packs, validate, and unless this is a dry run
        re-check and write.  `others` is what other processes do to the tree after the
        validation; the process may die once `budget` changes have been gone through. */
    method Apply(hash: Bytes -> Digest, baseline: seq<Item>, upgrade: seq<Item>, dryRun: bool,
                 others: Files -> Files, budget: nat)
        returns (r: Result<Report>)
      modifies this
      ensures var composed := Compose(hash, baseline + upgrade);
              match composed
              case Err(e) => r == Err(e) && files == old(files)
              case Ok(st) =>
                if !AllKnown(hash, st, old(files)) then r == Err(UnknownSource) && files == old(files)
                else if dryRun then r == Ok(Report(|st.order|, false, true)) && files == old(files)
                else
                  var now := others(old(files));
                  if forall t :: t in st.entries ==> Read(now, t) == Read(old(files), t) then
                    && r == Ok(Report(|st.order|, true, budget >= |st.order|))
                    && files == Attempt(hash, st, now, budget)
                  else r == Err(ChangedDuringValidation) && files == now
    {
      var composed := ComposePacks(hash, baseline, upgrade);
      if composed.Err? {
        return Err(composed.error);
      }
      var st := composed.value;
      var changes := Validate(hash, st, files);
      if changes.Err? {
        return Err(changes.error);
      }
      if dryRun {
        return Ok(Report(|changes.value|, false, true));
      }
      ghost var was := files;
      files := others(files);
      RecheckIsAboutTargets(hash, st, was, files);
      var written := Commit(changes.value, budget);
      r := match written case Err(e) => Err(e) case Ok(complete) => Ok(Report(|changes.value|, true, complete));
    }
  }

  /** What `apply` reports, and whether it got to report it. */
  datatype Report = Report(verified: nat, applied: bool, complete: bool)

  /** The re-check passes exactly when no target was touched; then the changes are still
      those of the files as they are now, and the files are still accepted. */
  lemma RecheckIsAboutTargets(hash: Bytes -> Digest, st: Stack, files: Files, now: Files)
    requires WellKeyed(st) && AllKnown(hash, st, files)
    ensures Unchanged(now, ChangesOf(st, files)) <==> forall t :: t in st.entries ==> Read(now, t) == Read(files, t)
    ensures Unchanged(now, ChangesOf(st, files)) ==>
              ChangesOf(st, now) == ChangesOf(st, files) && AllKnown(hash, st, now)
  {
    var changes := ChangesOf(st, files);
    if Unchanged(now, changes) {
      forall t | t in st.entries
        ensures Read(now, t) == Read(files, t)
      {
        var i :| 0 <= i < |st.order| && st.order[i] == t;
        assert changes[i].target == t;
      }
      forall t | t in st.entries
        ensures Known(hash, st, now, t)
      {
        assert Known(hash, st, files, t);
      }
    }
  }

  // ------------------------------------------------------------ crash safety

  /** What every target should hold in the end. */
  function Finals(st: Stack): Files {
    map t | t in st.entries :: st.entries[t].payload
  }

  /** Going through the first `n` changes leaves those targets final and everything else
      as it was. */
  lemma {:induction false} WrittenAt(st: Stack, files: Files, n: nat, t: Path)
    requires WellKeyed(st) && n <= |st.order|
    ensures Read(Written(files, ChangesOf(st, files), n), t) ==
            if t in st.order[..n] then Some(st.entries[t].payload) else Read(files, t)
  {
    if n > 0 {
      var last := st.order[n - 1];
      assert st.order[..n] == st.order[..n - 1] + [last];
      assert last !in st.order[..n - 1];
      WrittenAt(st, files, n - 1, t);
      WrittenAt(st, files, n - 1, last);
    }
  }

  lemma SameReads(f: Files, g: Files)
    requires forall t: Path :: Read(f, t) == Read(g, t)
    ensures f == g
  {
    assert forall t: Path :: (t in f <==> t in g) by {
      forall t: Path
        ensures t in f <==> t in g
      {
        assert Read(f, t) == Read(g, t);
      }
    }
    forall t | t in f
      ensures f[t] == g[t]
    {
      assert Read(f, t) == Read(g, t);
    }
  }

  /** A complete run overlays the final files and changes nothing else. */
  lemma CompleteRun(st: Stack, files: Files)
    requires WellKeyed(st)
    ensures Written(files, ChangesOf(st, files), |st.order|) == files + Finals(st)
  {
    var g := Written(files, ChangesOf(st, files), |st.order|);
    assert st.order[..|st.order|] == st.order;
    forall t: Path
      ensures Read(g, t) == Read(files + Finals(st), t)
    {
      WrittenAt(st, files, |st.order|, t);
    }
    SameReads(g, files + Finals(st));
  }

  /** One run of the installer that dies after `budget` changes; a refused run writes
      nothing. */
  ghost function Attempt(hash: Bytes -> Digest, st: Stack, files: Files, budget: nat): Files
    requires WellKeyed(st)
  {
    if AllKnown(hash, st, files) then
      Written(files, ChangesOf(st, files), if budget < |st.order| then budget else |st.order|)
    else files
  }

  /** Every final payload is itself an accepted version. */
  predicate FinalsAccepted(hash: Bytes -> Digest, st: Stack) {
    forall t :: t in st.entries ==> Some(hash(st.entries[t].payload)) in st.entries[t].allowed
  }

  /** After an interrupted run every target holds what it held or its final bytes. */
  lemma AttemptAt(hash: Bytes -> Digest, st: Stack, files: Files, budget: nat, t: Path)
    requires WellKeyed(st)
    ensures var g := Attempt(hash, st, files, budget);
            || Read(g, t) == Read(files, t)
            || (t in st.entries && Read(g, t) == Some(st.entries[t].payload))
  {
    if AllKnown(hash, st, files) {
      WrittenAt(st, files, if budget < |st.order| then budget else |st.order|, t);
    }
  }

  lemma AttemptKeepsGoal(hash: Bytes -> Digest, st: Stack, files: Files, budget: nat)
    requires WellKeyed(st) && FinalsAccepted(hash, st) && AllKnown(hash, st, files)
    ensures AllKnown(hash, st, Attempt(hash, st, files, budget))
    ensures Attempt(hash, st, files, budget) + Finals(st) == files + Finals(st)
  {
    var g := Attempt(hash, st, files, budget);
    forall t | t in st.entries
      ensures Known(hash, st, g, t)
    {
      AttemptAt(hash, st, files, budget, t);
      assert Known(hash, st, files, t);
    }
    forall t: Path
      ensures Read(g + Finals(st), t) == Read(files + Finals(st), t)
    {
      AttemptAt(hash, st, files, budget, t);
    }
    SameReads(g + Finals(st), files + Finals(st));
  }

  /** Any number of runs, each cut off anywhere. */
  ghost function Attempts(hash: Bytes -> Digest, st: Stack, files: Files, budgets: seq<nat>): Files
    requires WellKeyed(st)
    decreases |budgets|
  {
    if budgets == [] then files
    else Attempts(hash, st, Attempt(hash, st, files, budgets[0]), budgets[1..])
  }

  lemma {:induction false} AttemptsKeepGoal(hash: Bytes -> Digest, st: Stack, files: Files, budgets: seq<nat>)
    requires WellKeyed(st) && FinalsAccepted(hash, st) && AllKnown(hash, st, files)
    ensures AllKnown(hash, st, Attempts(hash, st, files, budgets))
    ensures Attempts(hash, st, files, budgets) + Finals(st) == files + Finals(st)
    decreases |budgets|
  {
    if budgets != [] {
      AttemptKeepsGoal(hash, st, files, budgets[0]);
      AttemptsKeepGoal(hash, st, Attempt(hash, st, files, budgets[0]), budgets[1..]);
    }
  }

  lemma ComposedIsSound(hash: Bytes -> Digest, items: seq<Item>)
    requires Compose(hash, items).Ok?
    ensures FinalsAccepted(hash, Compose(hash, items).value)
  {
    ComposeMeaning(hash, items);
    var st := Compose(hash, items).value;
    forall t | t in st.entries
      ensures Some(hash(st.entries[t].payload)) in st.entries[t].allowed
    {
      var chain := Chain(items, t);
      ChainIsFromItems(items, t, |chain| - 1);
      assert Some(chain[|chain| - 1].sha) in (set i | 0 <= i < |chain| :: Some(chain[i].sha));
    }
  }

  lemma {:induction false} ChainIsFromItems(items: seq<Item>, t: Path, i: nat)
    requires i < |Chain(items, t)|
    ensures Chain(items, t)[i] in items && Chain(items, t)[i].target == t
  {
    var shorter := items[..|items| - 1];
    if i < |Chain(shorter, t)| {
      ChainIsFromItems(shorter, t, i);
    }
  }

  /** Crash safety.  If every target holds some version of its chain, then after any
      number of runs cut off between any two writes, the next complete run is accepted
      and ends with every target final and every other file untouched. */
  lemma RestartConverges(hash: Bytes -> Digest, items: seq<Item>, files: Files, budgets: seq<nat>)
    requires Compose(hash, items).Ok?
    requires AllKnown(hash, Compose(hash, items).value, files)
    ensures var st := Compose(hash, items).value;
            var left := Attempts(hash, st, files, budgets);
            && AllKnown(hash, st, left)
            && (forall budget :: budget >= |st.order| ==> Attempt(hash, st, left, budget) == files + Finals(st))
  {
    ComposedIsSound(hash, items);
    var st := Compose(hash, items).value;
    AttemptsKeepGoal(hash, st, files, budgets);
    CompleteRun(st, Attempts(hash, st, files, budgets));
  }

  /** One unknown target and no run ever writes anything. */
  lemma {:induction false} UnknownMeansNoWrite(hash: Bytes -> Digest, st: Stack, files: Files, budgets: seq<nat>)
    requires WellKeyed(st) && !AllKnown(hash, st, files)
    ensures Attempts(hash, st, files, budgets) == files
    decreases |budgets|
  {
    if budgets != [] {
      UnknownMeansNoWrite(hash, st, files, budgets[1..]);
    }
  }

  lemma SameGoal(st: Stack, files: Files, target: Path, torn: Bytes)
    requires target in st.entries
    ensures files[target := torn] + Finals(st) == files + Finals(st)
  {
  }

  lemma TornKnownIff(hash: Bytes -> Digest, st: Stack, files: Files, target: Path, torn: Bytes)
    requires AllKnown(hash, st, files) && target in st.entries
    ensures AllKnown(hash, st, files[target := torn]) <==> Some(hash(torn)) in st.entries[target].allowed
  {
    var left := files[target := torn];
    forall t | t in st.entries && t != target
      ensures Known(hash, st, left, t)
    {
      assert Known(hash, st, files, t);
    }
    assert Known(hash, st, left, target) <==> Some(hash(torn)) in st.entries[target].allowed;
  }

  /** A crash inside a write is different: the torn bytes decide.  Later runs reach the
      end exactly when the torn bytes happen to be an accepted version of that target; if
      they are not, no later run repairs it. */
  lemma TornWrite(hash: Bytes -> Digest, items: seq<Item>, files: Files, target: Path, torn: Bytes, budgets: seq<nat>)
    requires Compose(hash, items).Ok?
    requires AllKnown(hash, Compose(hash, items).value, files) && target in Compose(hash, items).value.entries
    ensures var st := Compose(hash, items).value;
            var left := Attempts(hash, st, files[target := torn], budgets);
            if Some(hash(torn)) in st.entries[target].allowed
            then Attempt(hash, st, left, |st.order|) == files + Finals(st)
            else left == files[target := torn]
  {
    var st := Compose(hash, items).value;
    TornKnownIff(hash, st, files, target, torn);
    if Some(hash(torn)) in st.entries[target].allowed {
      RestartConverges(hash, items, files[target := torn], budgets);
      SameGoal(st, files, target, torn);
    } else {
      UnknownMeansNoWrite(hash, st, files[target := torn], budgets);
    }
  }

  /** It happens: a file torn half-way through its new text is refused by every later run,
      although its old text and its new one would have been accepted. */
  lemma TornStaysTorn(budgets: seq<nat>)
    ensures var hash := (b: Bytes) => Digest(b.text);
            var target, old', torn := Path("layer.py"), Bytes("old"), Bytes("ne");
            var items := [Item(target, Bytes("new"), Digest("new"), Some(Digest("old")), true)];
            && Compose(hash, items).Ok? && AllKnown(hash, Compose(hash, items).value, map[target := old'])
            && Attempts(hash, Compose(hash, items).value, map[target := torn], budgets) == map[target := torn]
  {
    var hash := (b: Bytes) => Digest(b.text);
    var target, torn := Path("layer.py"), Bytes("ne");
    var items := [Item(target, Bytes("new"), Digest("new"), Some(Digest("old")), true)];
    assert items[..0] == [] && Compose(hash, []) == Ok(EMPTY);
    var st := Compose(hash, items).value;
    assert st == Stack([target], map[target := Entry(Bytes("new"), {Some(Digest("old")), Some(Digest("new"))})]);
    assert |"ne"| == 2 && |"new"| == 3;
    assert !Known(hash, st, map[target := torn], target);
    UnknownMeansNoWrite(hash, st, map[target := torn], budgets);
  }
}
