/** The write chunk size: clamping, rounding to the device's write unit, and the
    live setter. */
module Tuning {
  import opened Bytes
  import opened Capture

  function Clamp(requested: nat): (c: nat)
    ensures MIN_WRITE_CHUNK_BYTES <= c <= MAX_WRITE_CHUNK_BYTES
    ensures MIN_WRITE_CHUNK_BYTES <= requested <= MAX_WRITE_CHUNK_BYTES ==> c == requested
  {
    if requested < MIN_WRITE_CHUNK_BYTES then MIN_WRITE_CHUNK_BYTES
    else if requested > MAX_WRITE_CHUNK_BYTES then MAX_WRITE_CHUNK_BYTES
    else requested
  }

  function RoundToUnit(unit: nat, size: nat): nat
    requires unit > 0
  {
    (size + unit - 1) / unit * unit
  }

  /** chrono_round_write_chunk; the 32-bit sum does not wrap for such units. */
  function RoundWriteChunk(unit: nat, requested: nat): nat
    requires 0 < unit <= 0x8000_0000
  {
    RoundToUnit(unit, Clamp(requested))
  }

  ghost predicate IsMultiple(x: nat, unit: nat) {
    exists k: nat :: x == k * unit
  }

  lemma DivideUp(c: nat, unit: nat)
    requires unit > 0
    ensures var k := (c + unit - 1) / unit;
            c <= k * unit < c + unit
  {
    var x := c + unit - 1;
    var k, r := x / unit, x % unit;
    assert x == k * unit + r && 0 <= r < unit;
  }

  lemma Monotone(a: nat, b: nat, unit: nat)
    requires a <= b
    ensures a * unit <= b * unit
  {
  }

  lemma Successor(k: nat, unit: nat)
    ensures (k + 1) * unit == k * unit + unit
  {
  }

  lemma MultipleStep(k: nat, m: nat, unit: nat)
    requires k < m
    ensures k * unit + unit <= m * unit
  {
    Monotone(k + 1, m, unit);
    Successor(k, unit);
  }

  /** The result is the least multiple of the unit at or above the clamped request. */
  lemma RoundIsLeast(unit: nat, requested: nat, other: nat)
    requires 0 < unit <= 0x8000_0000
    ensures var r := RoundWriteChunk(unit, requested);
            && IsMultiple(r, unit) && Clamp(requested) <= r
            && (IsMultiple(other, unit) && Clamp(requested) <= other ==> r <= other)
  {
    var c := Clamp(requested);
    var k := (c + unit - 1) / unit;
    DivideUp(c, unit);
    assert RoundWriteChunk(unit, requested) == k * unit;
    if IsMultiple(other, unit) && c <= other {
      var m: nat :| other == m * unit;
      if m < k {
        MultipleStep(m, k, unit);
        assert false;
      }
      if k < m {
        MultipleStep(k, m, unit);
      }
    }
  }

  /** Rounding a rounded size changes nothing. */
  lemma RoundIsIdempotent(unit: nat, requested: nat)
    requires 0 < unit <= 0x8000_0000
    ensures RoundWriteChunk(unit, RoundWriteChunk(unit, requested)) == RoundWriteChunk(unit, requested)
  {
    hide RoundWriteChunk;
    var r := RoundWriteChunk(unit, requested);
    var r2 := RoundWriteChunk(unit, r);
    RoundIsLeast(unit, requested, r2);
    RoundIsLeast(unit, r, r);
  }

  /** Every request stays within the buffers exactly if the unit divides the
      maximum; otherwise asking for the maximum overshoots it. */
  lemma RoundStaysWithinIff(unit: nat)
    requires 0 < unit <= 0x8000_0000
    ensures (forall requested: nat ::
               MIN_WRITE_CHUNK_BYTES <= RoundWriteChunk(unit, requested) <= MAX_WRITE_CHUNK_BYTES)
            <==> IsMultiple(MAX_WRITE_CHUNK_BYTES, unit)
  {
    hide RoundWriteChunk;
    if IsMultiple(MAX_WRITE_CHUNK_BYTES, unit) {
      forall requested: nat
        ensures MIN_WRITE_CHUNK_BYTES <= RoundWriteChunk(unit, requested) <= MAX_WRITE_CHUNK_BYTES
      {
        RoundIsLeast(unit, requested, MAX_WRITE_CHUNK_BYTES);
      }
    } else {
      RoundIsLeast(unit, MAX_WRITE_CHUNK_BYTES, 0);
      assert RoundWriteChunk(unit, MAX_WRITE_CHUNK_BYTES) > MAX_WRITE_CHUNK_BYTES;
    }
  }

  // ---- the live setters ----

  /** daemon_set_write_chunk_bytes on a configuration; None is -EINVAL. */
  function WithChunk(c: Config, unit: nat, bytes: nat): Option<Config>
    requires 0 < unit <= 0x8000_0000 && c.bs > 0
  {
    if bytes < MIN_WRITE_CHUNK_BYTES || bytes > MAX_WRITE_CHUNK_BYTES then None
    else
      var size := RoundWriteChunk(unit, bytes);
      Some(c.(bufSize := size, bufBlocks := size / c.bs))
  }

  /** daemon_set_write_buf_count. */
  function WithBuffers(c: Config, count: nat): Option<Config> {
    if count < 1 || count > MAX_WRITE_BUFFERS then None else Some(c.(bufCount := count))
  }

  /** A write unit is whole blocks, and 2 MiB is whole write units. */
  ghost predicate UnitOk(c: Config, unit: nat) {
    && 0 < unit <= 0x8000_0000
    && IsMultiple(unit, c.bs) && IsMultiple(MAX_WRITE_CHUNK_BYTES, unit)
  }

  lemma MultipleOfMultiple(x: nat, unit: nat, bs: nat)
    requires IsMultiple(x, unit) && IsMultiple(unit, bs)
    ensures IsMultiple(x, bs)
  {
    var k: nat :| x == k * unit;
    var m: nat :| unit == m * bs;
    assert x == (k * m) * bs;
  }

  lemma ExactQuotient(x: nat, bs: nat)
    requires bs > 0 && IsMultiple(x, bs)
    ensures x / bs * bs == x
  {
    var k: nat :| x == k * bs;
    DivideUp(x, bs);
    var q, r := x / bs, x % bs;
    assert x == q * bs + r;
    if q < k {
      MultipleStep(q, k, bs);
    } else if k < q {
      MultipleStep(k, q, bs);
    }
  }

  /** A changed chunk size is whole blocks again: buf_size_blocks times the
      block size is buf_size. */
  lemma WithChunkKeepsConfig(c: Config, unit: nat, bytes: nat)
    requires ConfigOk(c) && UnitOk(c, unit)
    ensures var r := WithChunk(c, unit, bytes);
            r.Some? ==> ConfigOk(r.value) && r.value.bs == c.bs && r.value.numBlocks == c.numBlocks
  {
    hide RoundWriteChunk;
    if WithChunk(c, unit, bytes).Some? {
      var size := RoundWriteChunk(unit, bytes);
      RoundStaysWithinIff(unit);
      RoundIsLeast(unit, bytes, 0);
      MultipleOfMultiple(size, unit, c.bs);
      ExactQuotient(size, c.bs);
      assert size / c.bs > 0;
    }
  }
}
