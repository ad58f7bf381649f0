/** The DMA engine's memory copy, done in blocks of 64 bytes through one buffer. */
module Dma {
  import opened ByteSeq

  const BLOCK_SIZE: nat := 64

  predicate Fits(size: nat, src: nat, dst: nat, len: nat) { src + len <= size && dst + len <= size }

  /** One read transaction followed by one write transaction. */
  function CopyOnce(m: Bytes, src: nat, dst: nat, n: nat): (r: Bytes)
    requires Fits(|m|, src, dst, n)
    ensures |r| == |m|
    ensures forall a {:trigger r[a]} :: 0 <= a < |m| ==> r[a] == if dst <= a < dst + n then m[src + a - dst] else m[a]
  {
    Splice(m, dst, m[src..src + n])
  }

  /** The whole transfer, block after block. */
  function Memcpy(m: Bytes, src: nat, dst: nat, n: nat): (r: Bytes)
    requires Fits(|m|, src, dst, n)
    ensures |r| == |m|
    decreases n
  {
    if n > BLOCK_SIZE then Memcpy(CopyOnce(m, src, dst, BLOCK_SIZE), src + BLOCK_SIZE, dst + BLOCK_SIZE, n - BLOCK_SIZE)
    else CopyOnce(m, src, dst, n)
  }

  /** Nothing outside the destination changes. */
  lemma {:induction false} OutsideUnchanged(m: Bytes, src: nat, dst: nat, n: nat, a: nat)
    requires Fits(|m|, src, dst, n) && a < |m| && !(dst <= a < dst + n)
    ensures Memcpy(m, src, dst, n)[a] == m[a]
    decreases n
  {
    if n > BLOCK_SIZE {
      OutsideUnchanged(CopyOnce(m, src, dst, BLOCK_SIZE), src + BLOCK_SIZE, dst + BLOCK_SIZE, n - BLOCK_SIZE, a);
    }
  }

  predicate Safe(src: nat, dst: nat, len: nat) { dst <= src || src + len <= dst || len <= 64 }

  lemma {:induction false} ByteArrives(m: Bytes, src: nat, dst: nat, n: nat, a: nat)
    requires Fits(|m|, src, dst, n) && Safe(src, dst, n) && dst <= a < dst + n
    ensures Memcpy(m, src, dst, n)[a] == m[src + a - dst]
    decreases n
  {
    if n > BLOCK_SIZE {
      var m' := CopyOnce(m, src, dst, BLOCK_SIZE);
      if a < dst + BLOCK_SIZE {
        OutsideUnchanged(m', src + BLOCK_SIZE, dst + BLOCK_SIZE, n - BLOCK_SIZE, a);
      } else {
        ByteArrives(m', src + BLOCK_SIZE, dst + BLOCK_SIZE, n - BLOCK_SIZE, a);
      }
    }
  }

  lemma {:induction false} MemcpyCopies(m: Bytes, src: nat, dst: nat, n: nat)
    requires Fits(|m|, src, dst, n) && Safe(src, dst, n)
    ensures Memcpy(m, src, dst, n) == CopyOnce(m, src, dst, n)
  {
    var r, c := Memcpy(m, src, dst, n), CopyOnce(m, src, dst, n);
    forall a | 0 <= a < |m|
      ensures r[a] == c[a]
    {
      if dst <= a < dst + n {
        ByteArrives(m, src, dst, n, a);
      } else {
        OutsideUnchanged(m, src, dst, n, a);
      }
    }
  }

  /** A source byte that no earlier block has overwritten arrives unchanged. */
  lemma {:induction false} UnwrittenArrives(m: Bytes, src: nat, dst: nat, n: nat, j: nat)
    requires Fits(|m|, src, dst, n) && j < n && (src + j < dst || j < BLOCK_SIZE)
    ensures Memcpy(m, src, dst, n)[dst + j] == m[src + j]
    decreases n
  {
    if n > BLOCK_SIZE {
      var m' := CopyOnce(m, src, dst, BLOCK_SIZE);
      if j < BLOCK_SIZE {
        OutsideUnchanged(m', src + BLOCK_SIZE, dst + BLOCK_SIZE, n - BLOCK_SIZE, dst + j);
      } else {
        UnwrittenArrives(m', src + BLOCK_SIZE, dst + BLOCK_SIZE, n - BLOCK_SIZE, j - BLOCK_SIZE);
      }
    }
  }

  /** The first destination byte that an unsafe transfer takes from an already overwritten source byte. */
  function FirstStale(src: nat, dst: nat): nat
    requires src < dst
  {
    if dst - src < BLOCK_SIZE then BLOCK_SIZE else dst - src
  }

  /** An unsafe transfer puts an older byte there, whatever the memory holds. */
  lemma {:induction false} UnsafeIsStale(m: Bytes, src: nat, dst: nat, n: nat)
    requires Fits(|m|, src, dst, n) && !Safe(src, dst, n)
    ensures var i := FirstStale(src, dst); i < n && Memcpy(m, src, dst, n)[dst + i] == m[src + i - (dst - src)]
  {
    var i := FirstStale(src, dst);
    var m' := CopyOnce(m, src, dst, BLOCK_SIZE);
    assert m'[src + i] == m[src + i - (dst - src)];
    UnwrittenArrives(m', src + BLOCK_SIZE, dst + BLOCK_SIZE, n - BLOCK_SIZE, i - BLOCK_SIZE);
  }

  lemma {:induction false} UnsafeFails(size: nat, src: nat, dst: nat, n: nat) returns (m: Bytes)
    requires Fits(size, src, dst, n) && !Safe(src, dst, n)
    ensures |m| == size && Memcpy(m, src, dst, n) != CopyOnce(m, src, dst, n)
  {
    var i := FirstStale(src, dst);
    m := seq(size, a => if a == src + i then 1 else 0);
    UnsafeIsStale(m, src, dst, n);
    assert CopyOnce(m, src, dst, n)[dst + i] == m[src + i] == 1;
    assert Memcpy(m, src, dst, n)[dst + i] == 0;
  }

  /** The transfer is a correct copy of every memory if and only if the destination does not start inside the source
      after its first byte, or one block does it all. */
  lemma {:induction false} MemcpyCorrectIff(size: nat, src: nat, dst: nat, n: nat)
    requires Fits(size, src, dst, n)
    ensures (forall m: Bytes | |m| == size :: Memcpy(m, src, dst, n) == CopyOnce(m, src, dst, n))
            <==> Safe(src, dst, n)
  {
    if Safe(src, dst, n) {
      forall m: Bytes | |m| == size
        ensures Memcpy(m, src, dst, n) == CopyOnce(m, src, dst, n)
      {
        MemcpyCopies(m, src, dst, n);
      }
    } else {
      var m := UnsafeFails(size, src, dst, n);
    }
  }

  /** The memory behind the engine's bus socket. */
  class Memory {
    var bytes: Bytes

    constructor (bytes: Bytes)
      ensures this.bytes == bytes
    {
      this.bytes := bytes;
    }
  }

  class SimpleDma {
    const buffer: array<Byte>
    const memory: Memory
    var src: nat
    var dst: nat
    var len: nat

    constructor (memory: Memory)
      ensures buffer.Length == BLOCK_SIZE && fresh(buffer) && this.memory == memory
    {
      buffer := new Byte[BLOCK_SIZE];
      this.memory := memory;
      src, dst, len := 0, 0, 0;
    }

    method ReadTransaction(at: nat, n: nat)
      requires n <= buffer.Length && at + n <= |memory.bytes|
      modifies buffer
      ensures buffer[..n] == memory.bytes[at..at + n]
    {
      for i := 0 to n
        invariant forall j :: 0 <= j < i ==> buffer[j] == memory.bytes[at + j]
      {
        buffer[i] := memory.bytes[at + i];
      }
    }

    method WriteTransaction(at: nat, n: nat)
      requires n <= buffer.Length && at + n <= |memory.bytes|
      modifies memory
      ensures memory.bytes == Splice(old(memory.bytes), at, buffer[..n])
    {
      memory.bytes := Splice(memory.bytes, at, buffer[..n]);
    }

    /** Read n bytes at src + off into the buffer, then write them at dst + off. */
    method CopyBlock(off: nat, n: nat)
      requires n <= buffer.Length && Fits(|memory.bytes|, src + off, dst + off, n)
      modifies memory, buffer
      ensures memory.bytes == CopyOnce(old(memory.bytes), src + off, dst + off, n)
    {
      ReadTransaction(src + off, n);
      WriteTransaction(dst + off, n);
    }

    method PerformMemcpy()
      requires buffer.Length == BLOCK_SIZE && Fits(|memory.bytes|, src, dst, len)
      modifies memory, buffer
      ensures memory.bytes == Memcpy(old(memory.bytes), src, dst, len)
    {
      var n := len;
      var off := 0;
      while n > buffer.Length
        invariant 0 <= n && off + n == len && |memory.bytes| == |old(memory.bytes)|
        invariant Memcpy(memory.bytes, src + off, dst + off, n) == Memcpy(old(memory.bytes), src, dst, len)
      {
        CopyBlock(off, buffer.Length);
        n := n - buffer.Length;
        off := off + buffer.Length;
      }
      CopyBlock(off, n);
    }
  }
}
