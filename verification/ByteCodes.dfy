/** Unsigned integers as bytes, both byte orders. */
module ByteCodes {

  type Byte = b: int | 0 <= b < 256

  function Pow256(n: nat): (p: nat)
    ensures p > 0
  {
    if n == 0 then 1 else 256 * Pow256(n - 1)
  }

  function Little(s: seq<Byte>): (n: nat) {
    if s == [] then 0 else s[0] + 256 * Little(s[1..])
  }

  function Big(s: seq<Byte>): (n: nat) {
    if s == [] then 0 else Big(s[..|s| - 1]) * 256 + s[|s| - 1]
  }

  function LittleBytes(n: nat, width: nat): (s: seq<Byte>)
    ensures |s| == width
  {
    if width == 0 then [] else [n % 256] + LittleBytes(n / 256, width - 1)
  }

  function BigBytes(n: nat, width: nat): (s: seq<Byte>)
    ensures |s| == width
  {
    if width == 0 then [] else BigBytes(n / 256, width - 1) + [n % 256]
  }

  lemma {:induction false} LittleRoundTrip(n: nat, width: nat)
    requires n < Pow256(width)
    ensures Little(LittleBytes(n, width)) == n
  {
    if width > 0 {
      LittleRoundTrip(n / 256, width - 1);
      assert LittleBytes(n, width)[1..] == LittleBytes(n / 256, width - 1);
    }
  }

  lemma {:induction false} BigRoundTrip(n: nat, width: nat)
    requires n < Pow256(width)
    ensures Big(BigBytes(n, width)) == n
  {
    if width > 0 {
      BigRoundTrip(n / 256, width - 1);
      assert BigBytes(n, width)[..width - 1] == BigBytes(n / 256, width - 1);
    }
  }

  lemma {:induction false} LittleBound(s: seq<Byte>)
    ensures Little(s) < Pow256(|s|)
  {
    if s != [] {
      LittleBound(s[1..]);
    }
  }

  lemma {:induction false} BigBound(s: seq<Byte>)
    ensures Big(s) < Pow256(|s|)
  {
    if s != [] {
      BigBound(s[..|s| - 1]);
    }
  }

  /** Bytes are what their value encodes to: the other half of the round trip. */
  lemma {:induction false} LittleBytesOf(s: seq<Byte>)
    ensures LittleBytes(Little(s), |s|) == s
  {
    if s != [] {
      LittleBytesOf(s[1..]);
      assert (s[0] + 256 * Little(s[1..])) / 256 == Little(s[1..]);
      assert s == [s[0]] + s[1..];
    }
  }

  lemma WidthsAre()
    ensures Pow256(2) == 0x1_0000 && Pow256(3) == 0x100_0000 && Pow256(4) == 0x1_0000_0000
    ensures Pow256(8) == 0x1_0000_0000_0000_0000
  {
    assert Pow256(1) == 256;
    assert Pow256(2) == 0x1_0000;
    assert Pow256(3) == 0x100_0000;
    assert Pow256(4) == 0x1_0000_0000;
    assert Pow256(5) == 0x100_0000_0000;
    assert Pow256(6) == 0x1_0000_0000_0000;
    assert Pow256(7) == 0x100_0000_0000_0000;
  }

  // ----------------------------------------------------------------- stretches of bytes

  lemma Within(raw: seq<Byte>, body: nat, size: nat, lo: nat, hi: nat)
    requires lo <= hi <= size && body + size <= |raw|
    ensures raw[body..body + size][lo..hi] == raw[body + lo..body + hi]
  {
    var inner, outer := raw[body..body + size][lo..hi], raw[body + lo..body + hi];
    assert |inner| == |outer|;
    forall k | 0 <= k < |inner|
      ensures inner[k] == outer[k]
    {
    }
  }

  lemma Suffix(raw: seq<Byte>, at: nat, lo: nat, hi: nat)
    requires at <= |raw| && lo <= hi <= |raw[at..]|
    ensures raw[at..][lo..hi] == raw[at + lo..at + hi]
  {
    assert raw[at..|raw|] == raw[at..];
    Within(raw, at, |raw| - at, lo, hi);
  }

  lemma Regroup(one: seq<Byte>, rest: seq<Byte>, trailing: seq<Byte>)
    ensures (one + rest) + trailing == one + (rest + trailing)
  {
  }
}
