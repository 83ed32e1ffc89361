/** The memory-mapped n-gram table: row shards found in the checkpoint's headers, and the
    address arithmetic that turns a flat row id into bytes of one shard. */
module ShardedTable {
  import opened Arithmetic
  import opened Options

  datatype Result<+T> = Ok(value: T) | Err(error: Error)
  datatype Error =
    UnsupportedDtype | SizeMismatch | ShardTwice | NoShards | NotContiguous | Disagree | Unequal

  type Byte = bv8

  datatype Dtype = F8_E4M3 | F8_E5M2 | BF16 | F16 | F32 | OtherDtype

  function DtypeBytes(d: Dtype): Option<nat> {
    match d
    case F8_E4M3 => Some(1)
    case F8_E5M2 => Some(1)
    case BF16 => Some(2)
    case F16 => Some(2)
    case F32 => Some(4)
    case OtherDtype => None
  }

  /** A shard tensor of the wanted layer as a header describes it, with its data offsets
      counted from the start of the file. */
  datatype Tensor = Tensor(number: nat, file: nat, begin: nat, end: nat, rows: nat, width: nat, dtype: Dtype)

  datatype Shard = Shard(file: nat, off: nat, rows: nat, rowBytes: nat, dtype: Dtype)

  datatype Table = Table(shards: seq<Shard>, rowBytes: nat, shardRows: nat)

  function ShardOf(t: Tensor): Result<Shard> {
    if DtypeBytes(t.dtype).None? then Err(UnsupportedDtype)
    else
      var rowBytes := t.width * DtypeBytes(t.dtype).value;
      if t.end - t.begin != t.rows * rowBytes then Err(SizeMismatch)
      else Ok(Shard(t.file, t.begin, t.rows, rowBytes, t.dtype))
  }

  /** Every tensor describes a shard, and their numbers are 0, 1, ... in some order. */
  predicate Numbered(tensors: seq<Tensor>) {
    && (forall i :: 0 <= i < |tensors| ==> ShardOf(tensors[i]).Ok? && tensors[i].number < |tensors|)
    && (forall i, j :: 0 <= i < j < |tensors| ==> tensors[i].number != tensors[j].number)
  }

  /** The shards in number order. */
  predicate Ordered(shards: seq<Shard>, tensors: seq<Tensor>) {
    && |shards| == |tensors|
    && (forall i :: 0 <= i < |tensors| ==>
          tensors[i].number < |shards| && ShardOf(tensors[i]) == Ok(shards[tensors[i].number]))
  }

  predicate Uniform(shards: seq<Shard>) {
    && shards != []
    && (forall i :: 0 <= i < |shards| ==>
          shards[i].rowBytes == shards[0].rowBytes && shards[i].dtype == shards[0].dtype)
    && (forall i :: 0 <= i < |shards| - 1 ==> shards[i].rows == shards[0].rows)
  }

  predicate WellFormed(t: Table) {
    Uniform(t.shards) && t.rowBytes == t.shards[0].rowBytes && t.shardRows == t.shards[0].rows
  }

  function Numbers(n: nat): (s: set<nat>)
    ensures |s| == n && forall i: nat :: i in s <==> i < n
  {
    if n == 0 then {} else Numbers(n - 1) + {n - 1}
  }

  lemma {:induction false} SubsetCard(a: set<nat>, b: set<nat>)
    requires a <= b
    ensures |a| <= |b| && (|a| == |b| ==> a == b)
    decreases |a|
  {
    if a != {} {
      var x :| x in a;
      SubsetCard(a - {x}, b - {x});
      assert b == (b - {x}) + {x} && a == (a - {x}) + {x};
    }
  }

  /** A dictionary of `n` numbered shards has the keys 0 .. n-1 exactly when it has all of
      them, or none beyond. */
  lemma KeysAreNumbers(keys: set<nat>)
    ensures (forall i: nat :: i < |keys| ==> i in keys) <==> (forall i :: i in keys ==> i < |keys|)
  {
    if forall i: nat :: i < |keys| ==> i in keys {
      SubsetCard(Numbers(|keys|), keys);
    }
    if forall i :: i in keys ==> i < |keys| {
      SubsetCard(keys, Numbers(|keys|));
    }
  }

  /** First loop of the constructor: the shard dictionary. */
  method Collect(tensors: seq<Tensor>) returns (r: Result<map<nat, Shard>>)
    ensures r.Ok? <==>
            && (forall i :: 0 <= i < |tensors| ==> ShardOf(tensors[i]).Ok?)
            && (forall i, j :: 0 <= i < j < |tensors| ==> tensors[i].number != tensors[j].number)
    ensures r.Ok? ==> |r.value| == |tensors|
    ensures r.Ok? ==> forall i :: 0 <= i < |tensors| ==>
              tensors[i].number in r.value && ShardOf(tensors[i]) == Ok(r.value[tensors[i].number])
    ensures r.Ok? ==> forall k :: k in r.value ==> exists i :: 0 <= i < |tensors| && tensors[i].number == k
  {
    var shards: map<nat, Shard> := map[];
    for i := 0 to |tensors|
      invariant |shards| == i
      invariant forall j :: 0 <= j < i ==>
                  tensors[j].number in shards && ShardOf(tensors[j]) == Ok(shards[tensors[j].number])
      invariant forall j, k :: 0 <= j < k < i ==> tensors[j].number != tensors[k].number
      invariant forall k :: k in shards ==> exists j :: 0 <= j < i && tensors[j].number == k
    {
      var shard := ShardOf(tensors[i]);
      if shard.Err? {
        return Err(shard.error);
      }
      if tensors[i].number in shards {
        return Err(ShardTwice);
      }
      shards := shards[tensors[i].number := shard.value];
    }
    return Ok(shards);
  }

  /** The constructor's checks: it accepts exactly the complete, distinct, contiguous sets
      of shards of one width and type in which all shards but the last have as many rows
      as the first.  The last may have fewer, or more. */
  method Open(tensors: seq<Tensor>) returns (r: Result<Table>)
    ensures r.Ok? ==> WellFormed(r.value) && Numbered(tensors) && Ordered(r.value.shards, tensors)
    ensures r.Err? ==> !exists shards :: Numbered(tensors) && Ordered(shards, tensors) && Uniform(shards)
  {
    var collected := Collect(tensors);
    if collected.Err? {
      return Err(collected.error);
    }
    var shards := collected.value;
    if |shards| == 0 {
      return Err(NoShards);
    }
    KeysAreNumbers(shards.Keys);
    assert |shards.Keys| == |tensors|;
    if !(forall i :: 0 <= i < |shards| ==> i in shards) {
      return Err(NotContiguous);
    }
    var ordered := seq(|shards|, i requires 0 <= i < |shards| && i in shards => shards[i]);
    assert Ordered(ordered, tensors);
    if exists i :: 0 <= i < |ordered| &&
         (ordered[i].rowBytes != ordered[0].rowBytes || ordered[i].dtype != ordered[0].dtype) {
      OrderedUnique(ordered, tensors);
      return Err(Disagree);
    }
    for i := 0 to |ordered| - 1
      invariant forall j :: 0 <= j < i ==> ordered[j].rows == ordered[0].rows
    {
      if ordered[i].rows != ordered[0].rows {
        OrderedUnique(ordered, tensors);
        return Err(Unequal);
      }
    }
    return Ok(Table(ordered, ordered[0].rowBytes, ordered[0].rows));
  }

  /** The numbers determine the order. */
  lemma OrderedUnique(shards: seq<Shard>, tensors: seq<Tensor>)
    requires Ordered(shards, tensors) && Numbered(tensors)
    ensures forall others :: Ordered(others, tensors) ==> others == shards
  {
    forall others | Ordered(others, tensors)
      ensures others == shards
    {
      forall k | 0 <= k < |shards|
        ensures others[k] == shards[k]
      {
        var i := TensorNumbered(tensors, k);
      }
    }
  }

  lemma TensorNumbered(tensors: seq<Tensor>, k: nat) returns (i: nat)
    requires Numbered(tensors) && k < |tensors|
    ensures i < |tensors| && tensors[i].number == k
  {
    var keys := NumbersOf(tensors);
    KeysAreNumbers(keys);
    assert k in keys;
    i :| 0 <= i < |tensors| && tensors[i].number == k;
  }

  lemma {:induction false} NumbersOf(tensors: seq<Tensor>) returns (keys: set<nat>)
    requires forall i, j :: 0 <= i < j < |tensors| ==> tensors[i].number != tensors[j].number
    ensures |keys| == |tensors|
    ensures forall k :: k in keys <==> exists i :: 0 <= i < |tensors| && tensors[i].number == k
  {
    if tensors == [] {
      keys := {};
    } else {
      var n := |tensors| - 1;
      var rest := NumbersOf(tensors[..n]);
      keys := rest + {tensors[n].number};
      forall k
        ensures k in keys <==> exists i :: 0 <= i < |tensors| && tensors[i].number == k
      {
        if k in rest {
          var i :| 0 <= i < n && tensors[..n][i].number == k;
          assert tensors[i].number == k;
        }
        if i :| 0 <= i < |tensors| && tensors[i].number == k {
          if i < n {
            assert tensors[..n][i].number == k;
          }
        }
      }
    }
  }

  // ------------------------------------------------------------- rows and addresses

  /** File contents by file number. */
  type Disk = nat -> seq<Byte>

  /** The file holds all of the shard's data. */
  predicate Holds(disk: Disk, s: Shard) {
    s.off + s.rows * s.rowBytes <= |disk(s.file)|
  }

  ghost predicate AllHeld(disk: Disk, shards: seq<Shard>) {
    forall i :: 0 <= i < |shards| ==> Holds(disk, shards[i])
  }

  lemma RowEnds(rows: nat, l: nat, rb: nat)
    requires l < rows
    ensures l * rb + rb <= rows * rb
  {
    MulStep(l, rows, rb);
  }

  /** Row `l` of one shard. */
  function ShardRow(disk: Disk, s: Shard, l: nat): (row: seq<Byte>)
    requires Holds(disk, s) && l < s.rows
    ensures |row| == s.rowBytes
  {
    RowEnds(s.rows, l, s.rowBytes);
    disk(s.file)[s.off + l * s.rowBytes..s.off + l * s.rowBytes + s.rowBytes]
  }

  /** All rows of the concatenated shards: the table as one tensor. */
  ghost function FlatRows(disk: Disk, shards: seq<Shard>): (rows: seq<seq<Byte>>)
    requires AllHeld(disk, shards)
  {
    if shards == [] then []
    else
      var n := |shards| - 1;
      FlatRows(disk, shards[..n])
      + seq(shards[n].rows, l requires 0 <= l < shards[n].rows => ShardRow(disk, shards[n], l))
  }

  /** A Python list index. */
  function ListIndex(n: nat, s: int): Option<nat> {
    if 0 <= s < n then Some(s) else if s < 0 <= s + n then Some(s + n) else None
  }

  /** Where `_gather_chunk` reads row `id`: shard and row within it; `None` when the
      arithmetic raises. */
  function Locate(t: Table, id: int): Option<(nat, nat)> {
    if t.shardRows == 0 then None
    else
      var s := ListIndex(|t.shards|, id / t.shardRows);
      if s.None? then None else Some((s.value, id % t.shardRows))
  }

  /** The positional read of one row; `None` on an index error or a short read. */
  function ReadRow(disk: Disk, t: Table, id: int): (row: Option<seq<Byte>>)
    ensures row.Some? ==> |row.value| == t.rowBytes
  {
    var at := Locate(t, id);
    if at.None? || at.value.0 >= |t.shards| then None
    else
      var s := t.shards[at.value.0];
      var from := s.off + at.value.1 * t.rowBytes;
      if from + t.rowBytes > |disk(s.file)| then None
      else Some(disk(s.file)[from..from + t.rowBytes])
  }

  function RowsTotal(shards: seq<Shard>): nat {
    if shards == [] then 0 else RowsTotal(shards[..|shards| - 1]) + shards[|shards| - 1].rows
  }

  lemma {:induction false} FlatLength(disk: Disk, shards: seq<Shard>)
    requires AllHeld(disk, shards)
    ensures |FlatRows(disk, shards)| == RowsTotal(shards)
  {
    if shards != [] {
      FlatLength(disk, shards[..|shards| - 1]);
    }
  }

  /** Equal shards: the total of the first `n`. */
  lemma {:induction false} EqualTotal(shards: seq<Shard>, n: nat, rows: nat)
    requires n <= |shards| && forall i :: 0 <= i < n ==> shards[i].rows == rows
    ensures RowsTotal(shards[..n]) == n * rows
  {
    if n > 0 {
      assert shards[..n][..n - 1] == shards[..n - 1];
      EqualTotal(shards, n - 1, rows);
      assert (n - 1) * rows + rows == n * rows;
    }
  }

  lemma TotalIs(t: Table)
    requires WellFormed(t)
    ensures var n := |t.shards| - 1; RowsTotal(t.shards) == n * t.shardRows + t.shards[n].rows
  {
    var n := |t.shards| - 1;
    EqualTotal(t.shards, n, t.shardRows);
  }

  /** Row `l` of shard `s` is flat row `s * shardRows + l`. */
  lemma {:induction false} FlatRowIs(disk: Disk, t: Table, n: nat, s: nat, l: nat)
    requires WellFormed(t) && AllHeld(disk, t.shards)
    requires s < n <= |t.shards| && l < t.shards[s].rows
    ensures AllHeld(disk, t.shards[..n])
    ensures s * t.shardRows + l < |FlatRows(disk, t.shards[..n])|
    ensures FlatRows(disk, t.shards[..n])[s * t.shardRows + l] == ShardRow(disk, t.shards[s], l)
    decreases n
  {
    var shorter := t.shards[..n - 1];
    assert t.shards[..n][..n - 1] == shorter;
    if s < n - 1 {
      FlatRowIs(disk, t, n - 1, s, l);
    } else {
      EqualTotal(t.shards, n - 1, t.shardRows);
      FlatLength(disk, shorter);
    }
  }

  /** The last shard is no longer than the others. */
  predicate LastFits(t: Table)
    requires t.shards != []
  {
    t.shards[|t.shards| - 1].rows <= t.shardRows
  }

  /** The arithmetic finds every row of the concatenated table. */
  lemma ReadsFlatRow(disk: Disk, t: Table, id: nat)
    requires WellFormed(t) && AllHeld(disk, t.shards) && LastFits(t)
    requires id < |FlatRows(disk, t.shards)|
    ensures ReadRow(disk, t, id) == Some(FlatRows(disk, t.shards)[id])
  {
    var n := |t.shards| - 1;
    FlatLength(disk, t.shards);
    TotalIs(t);
    SplitId(id, t.shardRows, n, t.shards[n].rows);
    var s, l := id / t.shardRows, id % t.shardRows;
    assert t.shards[..|t.shards|] == t.shards;
    FlatRowIs(disk, t, |t.shards|, s, l);
    RowEnds(t.shards[s].rows, l, t.rowBytes);
  }

  lemma SplitId(id: nat, sr: nat, n: nat, last: nat)
    requires id < n * sr + last && last <= sr
    ensures sr > 0
    ensures 0 <= id / sr <= n && 0 <= id % sr < sr && id == (id / sr) * sr + id % sr
    ensures id / sr == n ==> id % sr < last
  {
    assert n * 0 == 0;
    if sr > 0 {
      Quotient(id, sr);
      if id / sr > n {
        MulStep(n, id / sr, sr);
      }
    }
  }

  /** A longer last shard puts row `n * shardRows` past the shard list. */
  lemma LongLastShardMisses(disk: Disk, t: Table)
    requires WellFormed(t) && AllHeld(disk, t.shards) && !LastFits(t)
    ensures var id := |t.shards| * t.shardRows;
            id < |FlatRows(disk, t.shards)| && ReadRow(disk, t, id).None?
  {
    var n := |t.shards| - 1;
    FlatLength(disk, t.shards);
    TotalIs(t);
    var id := |t.shards| * t.shardRows;
    assert id == n * t.shardRows + t.shardRows;
    if t.shardRows > 0 {
      DivModOf(id, |t.shards|, 0, t.shardRows);
    }
  }

  /** The sharded reads agree with the concatenated table on every row of an accepted table
      exactly when its last shard is no longer than the others; the constructor does not
      check that. */
  lemma FlatIndexingIff(disk: Disk, t: Table)
    requires WellFormed(t) && AllHeld(disk, t.shards)
    ensures (forall id: nat :: id < |FlatRows(disk, t.shards)| ==>
               ReadRow(disk, t, id) == Some(FlatRows(disk, t.shards)[id]))
            <==> LastFits(t)
  {
    if LastFits(t) {
      forall id: nat | id < |FlatRows(disk, t.shards)|
        ensures ReadRow(disk, t, id) == Some(FlatRows(disk, t.shards)[id])
      {
        ReadsFlatRow(disk, t, id);
      }
    } else {
      LongLastShardMisses(disk, t);
    }
  }

  /** The constructor accepts such a table: two shards of one and two rows. */
  lemma LongLastShardIsAccepted()
    ensures var tensors := [Tensor(0, 0, 0, 1, 1, 1, F8_E4M3), Tensor(1, 0, 1, 3, 2, 1, F8_E4M3)];
            var t := Table([Shard(0, 0, 1, 1, F8_E4M3), Shard(0, 1, 2, 1, F8_E4M3)], 1, 1);
            Numbered(tensors) && Ordered(t.shards, tensors) && WellFormed(t) && !LastFits(t)
  {
  }
}
