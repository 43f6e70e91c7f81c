/** Machine bytes and the two integer layouts the program uses: host-endian
    (little-endian) C structs on disk and big-endian fields on the wire. */
module Bytes {

  type byte = x: int | 0 <= x < 256
  type u16 = x: int | 0 <= x < 0x1_0000
  type u32 = x: int | 0 <= x < 0x1_0000_0000
  type u64 = x: int | 0 <= x < 0x1_0000_0000_0000_0000

  datatype Option<+T> = None | Some(value: T)

  function Min(a: nat, b: nat): nat {
    if a <= b then a else b
  }

  function Zeros(n: nat): (z: seq<byte>)
    ensures |z| == n && forall k :: 0 <= k < n ==> z[k] == 0
  {
    seq(n, _ => 0)
  }

  // ---- little-endian struct fields ----

  function Pow256(w: nat): (p: nat)
    ensures p > 0
  {
    if w == 0 then 1 else 256 * Pow256(w - 1)
  }

  /** The low `w` bytes of `n`, least significant first. */
  function LE(n: nat, w: nat): (b: seq<byte>)
    ensures |b| == w
  {
    if w == 0 then [] else [n % 256] + LE(n / 256, w - 1)
  }

  function FromLE(b: seq<byte>): nat {
    if b == [] then 0 else b[0] + 256 * FromLE(b[1..])
  }

  lemma {:induction false} LERoundTrip(n: nat, w: nat)
    requires n < Pow256(w)
    ensures FromLE(LE(n, w)) == n
  {
    if w > 0 {
      LERoundTrip(n / 256, w - 1);
      assert LE(n, w)[1..] == LE(n / 256, w - 1);
    }
  }

  lemma {:induction false} FromLEZeros(n: nat)
    ensures FromLE(Zeros(n)) == 0
  {
    if n > 0 {
      FromLEZeros(n - 1);
      assert Zeros(n)[1..] == Zeros(n - 1);
    }
  }

  lemma PowersOf256()
    ensures Pow256(4) == 0x1_0000_0000
    ensures Pow256(8) == 0x1_0000_0000_0000_0000
  {
    assert Pow256(2) == 0x1_0000;
    assert Pow256(3) == 0x100_0000;
    assert Pow256(5) == 0x100_0000_0000;
    assert Pow256(6) == 0x1_0000_0000_0000;
    assert Pow256(7) == 0x100_0000_0000_0000;
  }

  // ---- structs: a list of field widths and a list of field values ----

  function Width(ws: seq<nat>): nat {
    if ws == [] then 0 else ws[0] + Width(ws[1..])
  }

  ghost predicate Fits(ws: seq<nat>, vs: seq<nat>) {
    |ws| == |vs| && forall i :: 0 <= i < |ws| ==> vs[i] < Pow256(ws[i])
  }

  function Pack(ws: seq<nat>, vs: seq<nat>): (b: seq<byte>)
    requires |ws| == |vs|
    ensures |b| == Width(ws)
  {
    if ws == [] then [] else LE(vs[0], ws[0]) + Pack(ws[1..], vs[1..])
  }

  function Unpack(ws: seq<nat>, b: seq<byte>): (vs: seq<nat>)
    requires Width(ws) <= |b|
    ensures |vs| == |ws|
  {
    if ws == [] then []
    else [FromLE(b[..ws[0]])] + Unpack(ws[1..], b[ws[0]..])
  }

  lemma PrefixSplit(a: seq<byte>, b: seq<byte>, c: seq<byte>)
    ensures ((a + b) + c)[..|a|] == a && ((a + b) + c)[|a|..] == b + c
  {
  }

  /** A packed struct followed by anything at all reads back field by field. */
  lemma {:induction false} PackRoundTrip(ws: seq<nat>, vs: seq<nat>, rest: seq<byte>)
    requires Fits(ws, vs)
    ensures Unpack(ws, Pack(ws, vs) + rest) == vs
  {
    if ws != [] {
      var head := LE(vs[0], ws[0]);
      var tail := Pack(ws[1..], vs[1..]);
      PrefixSplit(head, tail, rest);
      LERoundTrip(vs[0], ws[0]);
      PackRoundTrip(ws[1..], vs[1..], rest);
      var b := Pack(ws, vs) + rest;
      assert b == (head + tail) + rest;
      assert Unpack(ws, b) == [vs[0]] + vs[1..];
    }
  }

  /** A zero-filled struct reads back as zero in every field. */
  lemma {:induction false} UnpackZeros(ws: seq<nat>, n: nat)
    requires Width(ws) <= n
    ensures forall i :: 0 <= i < |ws| ==> Unpack(ws, Zeros(n))[i] == 0
  {
    if ws != [] {
      assert Zeros(n)[..ws[0]] == Zeros(ws[0]);
      assert Zeros(n)[ws[0]..] == Zeros(n - ws[0]);
      FromLEZeros(ws[0]);
      UnpackZeros(ws[1..], n - ws[0]);
    }
  }

  /** Unpacking looks at the first Width(ws) bytes only. */
  lemma {:induction false} UnpackPrefix(ws: seq<nat>, b: seq<byte>, n: nat)
    requires Width(ws) <= n <= |b|
    ensures Unpack(ws, b[..n]) == Unpack(ws, b)
  {
    if ws != [] {
      assert b[..n][..ws[0]] == b[..ws[0]];
      assert b[..n][ws[0]..] == b[ws[0]..][..n - ws[0]];
      UnpackPrefix(ws[1..], b[ws[0]..], n - ws[0]);
    }
  }
}
