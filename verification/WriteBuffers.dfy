/** The write buffers of main.c as objects: bytes in place, one owner each. */
module WriteBuffers {
  import opened Bytes
  import opened Record
  import opened Capture

  /** struct write_buf. `recs` and `chunk` are bookkeeping. */
  class WriteBuf {
    const data: array<byte>
    var used: nat
    var inFlight: bool
    var target: nat
    ghost var recs: seq<Record>
    ghost var chunk: nat

    ghost function View(): Buf
      reads this, data
    {
      Buf(data[..], used, inFlight, target, recs, chunk)
    }

    /** spdk_dma_zmalloc of one buffer. */
    constructor ()
      ensures fresh(data) && View() == Buf(Zeros(MAX_WRITE_CHUNK_BYTES), 0, false, 0, [], 0)
    {
      data := new byte[MAX_WRITE_CHUNK_BYTES](_ => 0);
      used, inFlight, target, recs, chunk := 0, false, 0, [], 0;
      new;
      assert data[..] == Zeros(MAX_WRITE_CHUNK_BYTES);
    }

    /** memcpy into the buffer. */
    method Copy(off: nat, bytes: seq<byte>)
      requires off + |bytes| <= data.Length
      modifies data
      ensures data[..] == Stored(old(data[..]), off, bytes)
    {
      forall k | 0 <= k < |bytes| {
        data[off + k] := bytes[k];
      }
      assert data[..off] == old(data[..])[..off];
      assert data[off..off + |bytes|] == bytes;
      assert data[off + |bytes|..] == old(data[..])[off + |bytes|..];
    }

    /** Zeroes everything from `used` up to the chunk size. */
    method PadTo(size: nat)
      requires used <= size <= data.Length
      modifies data
      ensures data[..] == Pad(old(data[..]), used, size)
    {
      if used < size {
        Copy(used, Zeros(size - used));
      }
    }

    /** A record header and its payload behind what is already there. */
    method AppendRecord(seqNo: nat, tsc: nat, payload: seq<byte>)
      requires used + RECORD_HDR + |payload| <= data.Length
      modifies this, data
      ensures var rec := Record(seqNo, tsc, payload);
              View() == old(View()).(data := Stored(old(data[..]), old(used), Encode(rec)),
                                     used := old(used) + RECORD_HDR + |payload|,
                                     recs := old(recs) + [rec])
    {
      ghost var was := data[..];
      var header := EncodeHeader(Record(seqNo, tsc, payload));
      Copy(used, header);
      Copy(used + RECORD_HDR, payload);
      StoredNext(was, used, header, payload);
      used := used + RECORD_HDR + |payload|;
      recs := recs + [Record(seqNo, tsc, payload)];
    }
  }

  /** Two adjacent stores are one. */
  lemma StoredNext(data: seq<byte>, off: nat, x: seq<byte>, y: seq<byte>)
    requires off + |x| + |y| <= |data|
    ensures Stored(Stored(data, off, x), off + |x|, y) == Stored(data, off, x + y)
  {
    var mid := Stored(data, off, x);
    assert mid[..off + |x|] == data[..off] + x;
    assert mid[off + |x| + |y|..] == data[off + |x| + |y|..];
  }

  ghost function Objects(bs: seq<WriteBuf>): set<object> {
    (set b: WriteBuf | b in bs :: b as object) + (set b: WriteBuf | b in bs :: b.data as object)
  }

  lemma AllInObjects(bs: seq<WriteBuf>)
    ensures forall b :: b in bs ==> b in Objects(bs)
  {
  }

  lemma InObjects(bs: seq<WriteBuf>, i: nat)
    requires i < |bs|
    ensures bs[i] in Objects(bs) && bs[i].data in Objects(bs)
  {
    var b := bs[i];
    assert b in bs;
  }

  ghost function Views(bs: seq<WriteBuf>): (r: seq<Buf>)
    reads Objects(bs)
    ensures |r| == |bs| && forall i :: 0 <= i < |bs| ==> r[i] == bs[i].View()
  {
    if bs == [] then [] else TailObjects(bs); [bs[0].View()] + Views(bs[1..])
  }

  lemma TailObjects(bs: seq<WriteBuf>)
    requires bs != []
    ensures bs[0] in Objects(bs) && bs[0].data in Objects(bs) && Objects(bs[1..]) <= Objects(bs)
  {
    InObjects(bs, 0);
    forall o | o in Objects(bs[1..]) ensures o in Objects(bs) {
      var i :| 0 <= i < |bs[1..]| && (o == bs[1..][i] || o == bs[1..][i].data);
      InObjects(bs, i + 1);
    }
  }

  /** No two buffers share memory. */
  ghost predicate Separate(bs: seq<WriteBuf>) {
    forall i, j :: 0 <= i < j < |bs| ==> bs[i] != bs[j] && bs[i].data != bs[j].data
  }

  /** A change to buffer i alone. */
  lemma OneBuffer(was: seq<Buf>, now: seq<Buf>, i: nat)
    requires i < |was| == |now|
    requires forall j :: 0 <= j < |was| && j != i ==> now[j] == was[j]
    ensures now == was[i := now[i]]
  {
  }
}
