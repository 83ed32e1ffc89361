/** Gathering rows of the sharded table into the staging buffer: one worker per chunk of
    ids, all writing the same flat buffer.  Here the chunks run one after the other. */
module ShardedGather {
  import opened Arithmetic
  import opened Options
  import opened ShardedTable

  /** The rows of a list of ids, one after the other. */
  function Bytes(disk: Disk, t: Table, ids: seq<int>): (b: seq<Byte>)
    requires Readable(disk, t, ids)
  {
    if ids == [] then []
    else
      var n := |ids| - 1;
      Bytes(disk, t, ids[..n]) + ReadRow(disk, t, ids[n]).value
  }

  predicate Readable(disk: Disk, t: Table, ids: seq<int>) {
    forall k :: 0 <= k < |ids| ==> ReadRow(disk, t, ids[k]).Some?
  }

  lemma {:induction false} BytesLength(disk: Disk, t: Table, ids: seq<int>)
    requires Readable(disk, t, ids)
    ensures |Bytes(disk, t, ids)| == |ids| * t.rowBytes
  {
    if ids != [] {
      BytesLength(disk, t, ids[..|ids| - 1]);
      RowAddress(0, |ids| - 1, t.rowBytes);
    }
  }

  lemma RowAddress(start: nat, k: nat, rb: nat)
    ensures (start + k) * rb == start * rb + k * rb
    ensures (k + 1) * rb == k * rb + rb
  {
  }

  lemma {:induction false} BytesConcat(disk: Disk, t: Table, a: seq<int>, b: seq<int>)
    requires Readable(disk, t, a) && Readable(disk, t, b)
    ensures Readable(disk, t, a + b)
    ensures Bytes(disk, t, a + b) == Bytes(disk, t, a) + Bytes(disk, t, b)
    decreases |b|
  {
    if b == [] {
      assert a + b == a;
    } else {
      assert (a + b)[..|a + b| - 1] == a + b[..|b| - 1];
      BytesConcat(disk, t, a, b[..|b| - 1]);
    }
  }

  lemma SliceMiddle(p: seq<Byte>, q: seq<Byte>, r: seq<Byte>)
    ensures (p + q + r)[|p|..|p| + |q|] == q
  {
  }

  lemma RowAfterOthers(disk: Disk, t: Table, ids: seq<int>, k: nat)
    requires Readable(disk, t, ids) && k < |ids|
    ensures var b, lo := Bytes(disk, t, ids), |Bytes(disk, t, ids[..k])|;
            lo + t.rowBytes <= |b| && b[lo..lo + t.rowBytes] == ReadRow(disk, t, ids[k]).value
  {
    var rest := ids[k + 1..];
    NextRow(disk, t, ids, k);
    BytesConcat(disk, t, ids[..k + 1], rest);
    assert ids == ids[..k + 1] + rest;
    SliceMiddle(Bytes(disk, t, ids[..k]), ReadRow(disk, t, ids[k]).value, Bytes(disk, t, rest));
  }

  /** Row `k` of the gathered bytes is the row of id `k`. */
  lemma RowOfBytes(disk: Disk, t: Table, ids: seq<int>, k: nat)
    requires Readable(disk, t, ids) && k < |ids|
    ensures var b, lo := Bytes(disk, t, ids), k * t.rowBytes;
            lo + t.rowBytes <= |b| && b[lo..lo + t.rowBytes] == ReadRow(disk, t, ids[k]).value
  {
    BytesLength(disk, t, ids[..k]);
    RowAfterOthers(disk, t, ids, k);
  }

  // ----------------------------------------------------------------- one chunk

  /** `preadv` into one row of the buffer. */
  method ReadInto(row: seq<Byte>, staging: array<Byte>, dst: nat)
    requires dst + |row| <= staging.Length
    modifies staging
    ensures staging[..] == old(staging[..])[..dst] + row + old(staging[..])[dst + |row|..]
  {
    for b := 0 to |row|
      invariant staging[..] == old(staging[..])[..dst] + row[..b] + old(staging[..])[dst + b..]
    {
      staging[dst + b] := row[b];
    }
  }

  /** Read the rows of `ids` into staging rows `start`, `start + 1`, ...; fails at the
      first id whose read fails. */
  method GatherChunk(disk: Disk, t: Table, ids: seq<int>, staging: array<Byte>, start: nat) returns (ok: bool)
    requires start * t.rowBytes + |ids| * t.rowBytes <= staging.Length
    modifies staging
    ensures ok <==> Readable(disk, t, ids)
    ensures ok ==> |Bytes(disk, t, ids)| == |ids| * t.rowBytes
    ensures ok ==> staging[..] == Placed(old(staging[..]), start * t.rowBytes, Bytes(disk, t, ids))
  {
    var rb := t.rowBytes;
    ghost var lo := start * rb;
    ghost var was := staging[..];
    assert ids[..0] == [] && was == Placed(was, lo, []);
    for k := 0 to |ids|
      invariant Readable(disk, t, ids[..k])
      invariant lo + |Bytes(disk, t, ids[..k])| <= |was| == staging.Length
      invariant staging[..] == Placed(was, lo, Bytes(disk, t, ids[..k]))
    {
      var row := ReadRow(disk, t, ids[k]);
      if row.None? {
        return false;
      }
      RowPlace(disk, t, ids, start, k);
      NextRow(disk, t, ids, k);
      ReadInto(row.value, staging, (start + k) * rb);
      PlacedNext(was, lo, Bytes(disk, t, ids[..k]), row.value);
    }
    assert ids[..|ids|] == ids;
    BytesLength(disk, t, ids);
    return true;
  }

  /** Row `k` of the chunk goes right after the rows before it. */
  lemma RowPlace(disk: Disk, t: Table, ids: seq<int>, start: nat, k: nat)
    requires k < |ids| && Readable(disk, t, ids[..k])
    ensures (start + k) * t.rowBytes == start * t.rowBytes + |Bytes(disk, t, ids[..k])|
    ensures |Bytes(disk, t, ids[..k])| + t.rowBytes <= |ids| * t.rowBytes
  {
    BytesLength(disk, t, ids[..k]);
    RowAddress(start, k, t.rowBytes);
    RowEnds(|ids|, k, t.rowBytes);
  }

  lemma NextRow(disk: Disk, t: Table, ids: seq<int>, k: nat)
    requires k < |ids| && Readable(disk, t, ids[..k]) && ReadRow(disk, t, ids[k]).Some?
    ensures Readable(disk, t, ids[..k + 1])
    ensures Bytes(disk, t, ids[..k + 1]) == Bytes(disk, t, ids[..k]) + ReadRow(disk, t, ids[k]).value
  {
    assert ids[..k + 1][..k] == ids[..k];
  }

  /** A buffer with `bytes` written at `lo`. */
  function Placed(buffer: seq<Byte>, lo: nat, bytes: seq<Byte>): (r: seq<Byte>)
    requires lo + |bytes| <= |buffer|
    ensures |r| == |buffer|
  {
    buffer[..lo] + bytes + buffer[lo + |bytes|..]
  }

  lemma PlacedNext(buffer: seq<Byte>, lo: nat, bytes: seq<Byte>, more: seq<Byte>)
    requires lo + |bytes| + |more| <= |buffer|
    ensures Placed(Placed(buffer, lo, bytes), lo + |bytes|, more) == Placed(buffer, lo, bytes + more)
  {
  }

  // ------------------------------------------------------------- the whole gather

  datatype Outcome = Gathered | Failed | BadChunkSize

  /** `gather_cpu`, the chunks one after the other.  The staging buffer may be longer than
      the rows asked for, and keeps its old content there. */
  method GatherCpu(disk: Disk, t: Table, ids: seq<int>, staging: array<Byte>, chunk: int) returns (r: Outcome)
    requires |ids| * t.rowBytes <= staging.Length
    modifies staging
    ensures r.BadChunkSize? <==> chunk == 0 && ids != []
    ensures r.Failed? <==> 0 <= chunk && !r.BadChunkSize? && !Readable(disk, t, ids)
    ensures r.Gathered? && (chunk > 0 || ids == []) ==>
              Readable(disk, t, ids) && |Bytes(disk, t, ids)| <= staging.Length &&
              staging[..] == Placed(old(staging[..]), 0, Bytes(disk, t, ids))
    ensures chunk < 0 ==> staging[..] == old(staging[..])
  {
    var n := |ids|;
    if n == 0 {
      return Gathered;
    }
    if n <= chunk {
      var ok := GatherChunk(disk, t, ids, staging, 0);
      return if ok then Gathered else Failed;
    }
    if chunk == 0 {
      return BadChunkSize;
    }
    if chunk < 0 {
      return Gathered;
    }
    ghost var was := staging[..];
    var a := 0;
    assert ids[..0] == [] && Placed(was, 0, []) == was;
    while a < n
      invariant 0 <= a <= n && Readable(disk, t, ids[..a]) && staging.Length == |was|
      invariant |Bytes(disk, t, ids[..a])| == a * t.rowBytes <= |was|
      invariant staging[..] == Placed(was, 0, Bytes(disk, t, ids[..a]))
      decreases n - a
    {
      var b := if a + chunk < n then a + chunk else n;
      ChunkFits(a, b, n, t.rowBytes);
      var ok := GatherChunk(disk, t, ids[a..b], staging, a);
      if !ok {
        PartUnreadable(disk, t, ids, a, b);
        return Failed;
      }
      ChunkDone(disk, t, ids, a, b);
      PlacedNext(was, 0, Bytes(disk, t, ids[..a]), Bytes(disk, t, ids[a..b]));
      a := b;
    }
    assert ids[..n] == ids;
    return Gathered;
  }

  lemma PartUnreadable(disk: Disk, t: Table, ids: seq<int>, a: nat, b: nat)
    requires a <= b <= |ids| && !Readable(disk, t, ids[a..b])
    ensures !Readable(disk, t, ids)
  {
    var part := ids[a..b];
    var k :| 0 <= k < |part| && ReadRow(disk, t, part[k]).None?;
    assert ids[a + k] == part[k];
  }

  lemma ChunkDone(disk: Disk, t: Table, ids: seq<int>, a: nat, b: nat)
    requires a <= b <= |ids| && Readable(disk, t, ids[..a]) && Readable(disk, t, ids[a..b])
    ensures Readable(disk, t, ids[..b])
    ensures Bytes(disk, t, ids[..b]) == Bytes(disk, t, ids[..a]) + Bytes(disk, t, ids[a..b])
  {
    BytesConcat(disk, t, ids[..a], ids[a..b]);
    assert ids[..b] == ids[..a] + ids[a..b];
  }

  lemma ChunkFits(a: nat, b: nat, n: nat, rb: nat)
    requires a <= b <= n
    ensures a * rb + (b - a) * rb == b * rb <= n * rb
  {
    if b < n {
      MulStep(b, n, rb);
    }
  }

  /** For an accepted table whose last shard fits, every list of row ids of the
      concatenated table is gathered, and staging row `k` is row `ids[k]` of it. */
  lemma GatherIsFlatIndexing(disk: Disk, t: Table, ids: seq<int>, k: nat)
    requires WellFormed(t) && AllHeld(disk, t.shards) && LastFits(t)
    requires forall j :: 0 <= j < |ids| ==> 0 <= ids[j] < |FlatRows(disk, t.shards)|
    requires k < |ids|
    ensures Readable(disk, t, ids)
    ensures var b, lo := Bytes(disk, t, ids), k * t.rowBytes;
            lo + t.rowBytes <= |b| && b[lo..lo + t.rowBytes] == FlatRows(disk, t.shards)[ids[k]]
  {
    forall j | 0 <= j < |ids|
      ensures ReadRow(disk, t, ids[j]) == Some(FlatRows(disk, t.shards)[ids[j]])
    {
      ReadsFlatRow(disk, t, ids[j]);
    }
    RowOfBytes(disk, t, ids, k);
  }
}
