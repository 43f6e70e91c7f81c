/** The block device: an array of fixed-size blocks of bytes, written and read
    in whole blocks. */
module Device {
  import opened Bytes

  type Block = seq<byte>
  type Disk = seq<Block>

  ghost predicate Formed(d: Disk, bs: nat) {
    forall b :: 0 <= b < |d| ==> |d[b]| == bs
  }

  function Join(blocks: seq<Block>): seq<byte> {
    if blocks == [] then [] else blocks[0] + Join(blocks[1..])
  }

  lemma BlockStep(n: nat, bs: nat)
    requires n > 0
    ensures n * bs == bs + (n - 1) * bs
  {
  }

  /** Cuts exactly `n` blocks' worth of bytes into blocks. */
  function Split(bytes: seq<byte>, bs: nat, n: nat): (blocks: seq<Block>)
    requires |bytes| == n * bs
    ensures |blocks| == n
    ensures Formed(blocks, bs)
    decreases n
  {
    if n == 0 then []
    else
      BlockStep(n, bs);
      [bytes[..bs]] + Split(bytes[bs..], bs, n - 1)
  }

  lemma {:induction false} JoinSplit(bytes: seq<byte>, bs: nat, n: nat)
    requires |bytes| == n * bs
    ensures Join(Split(bytes, bs, n)) == bytes
    decreases n
  {
    if n == 0 {
      assert |bytes| == 0;
    } else {
      BlockStep(n, bs);
      JoinSplit(bytes[bs..], bs, n - 1);
      var blocks := Split(bytes, bs, n);
      assert blocks[0] == bytes[..bs];
      assert blocks[1..] == Split(bytes[bs..], bs, n - 1);
      assert Join(blocks) == bytes[..bs] + bytes[bs..];
    }
  }

  lemma {:induction false} JoinLength(blocks: seq<Block>, bs: nat)
    requires Formed(blocks, bs)
    ensures |Join(blocks)| == |blocks| * bs
  {
    if blocks != [] {
      assert Formed(blocks[1..], bs);
      JoinLength(blocks[1..], bs);
      BlockStep(|blocks|, bs);
    }
  }

  /** The bytes of blocks [t, t + n). */
  function Read(d: Disk, t: nat, n: nat): seq<byte>
    requires t + n <= |d|
  {
    Join(d[t..t + n])
  }

  /** Replaces the blocks from `t` on. */
  function Write(d: Disk, t: nat, blocks: seq<Block>): (d': Disk)
    requires t + |blocks| <= |d|
    ensures |d'| == |d|
    ensures forall b :: 0 <= b < |d| && !(t <= b < t + |blocks|) ==> d'[b] == d[b]
    ensures forall b :: t <= b < t + |blocks| ==> d'[b] == blocks[b - t]
  {
    d[..t] + blocks + d[t + |blocks|..]
  }

  /** A write of whole blocks reads back, whatever was there before. */
  lemma ReadBack(d: Disk, t: nat, bytes: seq<byte>, bs: nat, n: nat)
    requires |bytes| == n * bs && t + n <= |d|
    ensures Read(Write(d, t, Split(bytes, bs, n)), t, n) == bytes
  {
    JoinSplit(bytes, bs, n);
    assert Write(d, t, Split(bytes, bs, n))[t..t + n] == Split(bytes, bs, n);
  }

  /** Two disks that agree on a range read the same there. */
  lemma ReadFrame(d: Disk, d': Disk, t: nat, n: nat)
    requires t + n <= |d| && |d'| == |d|
    requires forall b :: t <= b < t + n ==> d'[b] == d[b]
    ensures Read(d', t, n) == Read(d, t, n)
  {
    assert d'[t..t + n] == d[t..t + n];
  }

  lemma WriteFormed(d: Disk, t: nat, blocks: seq<Block>, bs: nat)
    requires Formed(d, bs) && Formed(blocks, bs) && t + |blocks| <= |d|
    ensures Formed(Write(d, t, blocks), bs)
  {
  }
}
