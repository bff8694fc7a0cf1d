/** The bounded ring buffer between the sample producer and the storage
    writer (src/fifo_buffer.c over the fifo_buffer_t of inc/fifo_buffer.h).
    The mutex only serialises the two threads; in this sequential model
    taking and releasing it changes nothing and is left out. The binary
    semaphore data_available is its count, 0 or 1. */
module FifoBuffer {
  import opened NeuralRecord
  import opened Errno

  /** FIFO_BUFFER_SIZE */
  const CAPACITY: nat := 300

  function Min(a: nat, b: nat): nat {
    if a <= b then a else b
  }

  /** The slot k places after slot base, going round the ring. For a base
      inside the ring and k at most one lap this is (base + k) % CAPACITY,
      the source's wrap, written without the modulus. */
  function Slot(base: nat, k: nat): (i: nat)
    requires base < CAPACITY && k <= CAPACITY
    ensures i < CAPACITY
  {
    if base + k < CAPACITY then base + k else base + k - CAPACITY
  }

  /** Slot is the source's (index + k) % FIFO_BUFFER_SIZE. */
  lemma SlotIsMod(base: nat, k: nat)
    requires base < CAPACITY && k <= CAPACITY
    ensures Slot(base, k) == (base + k) % CAPACITY
  {
    if base + k < CAPACITY {
      DivModUnique(base + k, CAPACITY, 0, base + k);
    } else {
      DivModUnique(base + k, CAPACITY, 1, base + k - CAPACITY);
    }
  }

  /** The n records stored in buf from slot h onwards, wrapping round the ring. */
  ghost function Window(buf: seq<NeuralData>, h: nat, n: nat): (w: seq<NeuralData>)
    requires |buf| == CAPACITY && h < CAPACITY && n <= CAPACITY
    ensures |w| == n
  {
    if n == 0 then [] else Window(buf, h, n - 1) + [buf[Slot(h, n - 1)]]
  }

  /** Element k of a window is the record k slots after its start. */
  lemma {:induction false} WindowAt(buf: seq<NeuralData>, h: nat, n: nat, k: nat)
    requires |buf| == CAPACITY && h < CAPACITY && k < n <= CAPACITY
    ensures Window(buf, h, n)[k] == buf[Slot(h, k)]
  {
    if k < n - 1 {
      WindowAt(buf, h, n - 1, k);
    }
  }

  /** A window splits at any point into a shorter window and the window
      that starts where it ends. */
  lemma WindowSplit(buf: seq<NeuralData>, h: nat, n: nat, m: nat)
    requires |buf| == CAPACITY && h < CAPACITY && m <= n <= CAPACITY
    ensures Window(buf, h, n)[..m] == Window(buf, h, m)
    ensures Window(buf, h, n)[m..] == Window(buf, Slot(h, m), n - m)
  {
    forall k | 0 <= k < m
      ensures Window(buf, h, n)[k] == Window(buf, h, m)[k]
    {
      WindowAt(buf, h, n, k);
      WindowAt(buf, h, m, k);
    }
    forall k | m <= k < n
      ensures Window(buf, h, n)[k] == Window(buf, Slot(h, m), n - m)[k - m]
    {
      WindowAt(buf, h, n, k);
      WindowAt(buf, Slot(h, m), n - m, k - m);
    }
  }

  /** Storing x in the first free slot extends the window by x. */
  lemma WindowAppend(buf: seq<NeuralData>, h: nat, n: nat, x: NeuralData)
    requires |buf| == CAPACITY && h < CAPACITY && n < CAPACITY
    ensures Window(buf[Slot(h, n) := x], h, n + 1) == Window(buf, h, n) + [x]
  {
    var buf' := buf[Slot(h, n) := x];
    forall k | 0 <= k < n
      ensures Window(buf', h, n)[k] == Window(buf, h, n)[k]
    {
      WindowAt(buf', h, n, k);
      WindowAt(buf, h, n, k);
    }
  }

  class Fifo {
    var buffer: array<NeuralData>
    var head: nat
    var tail: nat
    var size: nat
    /** Count of the data_available semaphore (initial 0, limit 1). */
    var dataAvailable: nat

    ghost predicate Valid()
      reads this
    {
      buffer.Length == CAPACITY &&
      head < CAPACITY && tail < CAPACITY && size <= CAPACITY &&
      tail == Slot(head, size) &&
      dataAvailable <= 1
    }

    /** The queued records, oldest first. */
    ghost function Contents(): (c: seq<NeuralData>)
      requires Valid()
      reads this, buffer
      ensures |c| == size
    {
      Window(buffer[..], head, size)
    }

    /** init_fifo_buffer: empty queue, semaphore created with count 0 and limit 1. */
    constructor Init()
      ensures Valid() && fresh(buffer)
      ensures head == 0 && tail == 0 && size == 0 && dataAvailable == 0
      ensures Contents() == []
    {
      buffer := new NeuralData[CAPACITY];
      head, tail, size := 0, 0, 0;
      dataAvailable := 0;
    }

    /** read_from_fifo_buffer: copies up to maxSize records, oldest first, into
        dst[start..] and removes them from the queue. */
    method Read(dst: array<NeuralData>, start: nat, maxSize: nat) returns (n: nat)
      requires Valid()
      requires dst != buffer && start + maxSize <= dst.Length
      modifies this, dst
      ensures Valid() && buffer == old(buffer)
      ensures n == Min(maxSize, old(size))
      ensures forall i :: start <= i < start + n ==> dst[i] == old(Contents())[i - start]
      ensures forall i :: 0 <= i < dst.Length && !(start <= i < start + n) ==> dst[i] == old(dst[i])
      ensures Contents() == old(Contents())[n..]
      ensures size == old(size) - n && head == Slot(old(head), n) && tail == old(tail)
      ensures dataAvailable == old(dataAvailable)
    {
      ghost var queue := Contents();
      n := CopyOut(dst, start, maxSize);
      WindowSplit(buffer[..], head, size, n);
      head, size := Slot(head, n), size - n;
      assert Contents() == queue[n..];
    }

    /** The copying loop of read_from_fifo_buffer: up to maxSize queued
        records, oldest first, into dst[start..]; the queue itself is left
        for the caller to advance. */
    method CopyOut(dst: array<NeuralData>, start: nat, maxSize: nat) returns (n: nat)
      requires Valid()
      requires dst != buffer && start + maxSize <= dst.Length
      modifies dst
      ensures n == Min(maxSize, size)
      ensures forall i :: start <= i < start + n ==> dst[i] == Contents()[i - start]
      ensures forall i :: 0 <= i < dst.Length && !(start <= i < start + n) ==> dst[i] == old(dst[i])
    {
      ghost var orig, ring := dst[..], buffer[..];
      var h, sz := head, size;
      n := 0;
      while n < maxSize && sz > 0
        invariant n <= maxSize && n <= size && sz == size - n && h == Slot(head, n)
        invariant forall i :: start <= i < start + n ==> dst[i] == ring[Slot(head, i - start)]
        invariant forall i :: 0 <= i < dst.Length && !(start <= i < start + n) ==> dst[i] == orig[i]
        decreases sz
      {
        dst[start + n] := buffer[h];
        h := Slot(h, 1);
        sz := sz - 1;
        n := n + 1;
      }
      assert buffer[..] == ring;
      forall i | start <= i < start + n
        ensures dst[i] == Window(ring, head, size)[i - start]
      {
        WindowAt(ring, head, size, i - start);
      }
    }

    /** k_sem_take on data_available with a timeout. Nothing else runs in a
        sequential model, so it fails with -EAGAIN exactly when no data has
        been signalled; either way the count is 0 afterwards. */
    method TakeDataAvailable() returns (ret: int)
      requires Valid()
      modifies this`dataAvailable
      ensures Valid() && dataAvailable == 0
      ensures ret == if old(dataAvailable) > 0 then 0 else -EAGAIN
    {
      if dataAvailable > 0 {
        dataAvailable := dataAvailable - 1;
        ret := 0;
      } else {
        ret := -EAGAIN;
      }
    }

    /** write_to_fifo_buffer: stores as many leading records of data as there
        is room for, at the tail, then gives data_available whatever was stored. */
    method Write(data: seq<NeuralData>) returns (n: nat)
      requires Valid()
      modifies this, buffer
      ensures Valid() && buffer == old(buffer)
      ensures n == Min(|data|, CAPACITY - old(size))
      ensures Contents() == old(Contents()) + data[..n]
      ensures size == old(size) + n && tail == Slot(old(tail), n) && head == old(head)
      ensures dataAvailable == 1
    {
      ghost var queue := Contents();
      var t, sz := tail, size;
      n := 0;
      while n < |data| && sz < CAPACITY
        modifies buffer
        invariant n <= |data| && sz == size + n <= CAPACITY && t == Slot(head, sz)
        invariant Window(buffer[..], head, sz) == queue + data[..n]
        decreases CAPACITY - sz
      {
        ghost var before := buffer[..];
        buffer[t] := data[n];
        assert buffer[..] == before[Slot(head, sz) := data[n]];
        WindowAppend(before, head, sz, data[n]);
        t := Slot(t, 1);
        sz := sz + 1;
        n := n + 1;
        assert data[..n] == data[..n - 1] + [data[n - 1]];
      }
      tail, size := t, sz;
      dataAvailable := 1;
    }
  }
}
