/**
 The ring buffer of the blocking queue, and the FIFO sequence it stands for. `TryPush` and
 `TryPop` are one pass through the guarded section: they report that the caller has to wait.
 The waiting itself is in module QueueMonitor.
 */
module BlockQueue {
  import opened Wrappers

  /** What `front` finds at index `m_front`, which is not the index of the oldest element. */
  datatype FrontResult<+T> = Empty | OutOfBounds | Read(value: T)

  lemma ModWrap(x: int, n: int)
    requires 0 <= x < 2 * n
    ensures x % n == if x < n then x else x - n
  {
    if x >= n { assert x == 1 * n + (x - n); }
  }

  lemma WrapCongruent(front: int, size: int, back: int, n: int)
    requires n > 0 && (back == front + size || back == front + size - n)
    ensures (front + size - back) % n == 0
  {
    if back != front + size { assert front + size - back == 1 * n; }
  }

  class RingBuffer<T(0)> {
    var data: array<T>
    var size: int
    var maxSize: int
    var front: int
    var back: int
    ghost var contents: seq<T>  // oldest first

    /** The index that lies `k` places after index `m_front`, around the end of the array. */
    function After(k: int): int
      reads this
    {
      if front + k < maxSize then front + k else front + k - maxSize
    }

    ghost predicate Valid()
      reads this, data
    {
      && 0 < maxSize == data.Length && 0 <= size <= maxSize
      && -1 <= front < maxSize && back == After(size)
      && |contents| == size && forall i | 0 <= i < size :: contents[i] == data[After(i + 1)]
    }

    constructor (capacity: int)
      requires capacity > 0
      ensures Valid() && fresh(data) && maxSize == capacity && contents == [] && front == -1
    {
      maxSize, size, front, back := capacity, 0, -1, -1;
      data := new T[capacity];
      contents := [];
    }

    /** `push` from the lock to the wait or the return; false where the caller has to wait. */
    method TryPush(item: T) returns (done: bool)
      requires Valid()
      modifies this`size, this`back, this`contents, data
      ensures Valid() && (done <==> old(size) < maxSize)
      ensures contents == if done then old(contents) + [item] else old(contents)
      ensures done ==> back == (old(back) + 1) % maxSize && (front + size - back) % maxSize == 0
    {
      if size >= maxSize {
        return false;
      }
      ModWrap(back + 1, maxSize);
      back := (back + 1) % maxSize;
      data[back] := item;
      size := size + 1;
      contents := contents + [item];
      WrapCongruent(front, size, back, maxSize);
      return true;
    }

    /** `pop` from the lock to the wait or the return; None where the caller has to wait. */
    method TryPop() returns (r: Option<T>)
      requires Valid()
      modifies this`size, this`front, this`contents
      ensures Valid()
      ensures old(contents) == [] ==> r == None && contents == []
      ensures old(contents) != [] ==> r == Some(old(contents)[0]) && contents == old(contents)[1..]
      ensures (front + size - back) % maxSize == 0
    {
      if size == 0 {
        WrapCongruent(front, size, back, maxSize);
        return None;
      }
      ModWrap(front + 1, maxSize);
      front := (front + 1) % maxSize;
      r := Some(data[front]);
      size := size - 1;
      contents := contents[1..];
      WrapCongruent(front, size, back, maxSize);
    }

    /** The newest element. */
    method Back() returns (r: Option<T>)
      requires Valid()
      ensures r == if contents == [] then None else Some(contents[|contents| - 1])
    {
      if size == 0 {
        return None;
      }
      r := Some(data[back]);
    }

    /**
     `front` as written. It never reads the slot of the oldest element, unless there is one
     slot only: from a full queue it reads the newest, and before the first pop it reads
     before the array.
     */
    method Front() returns (r: FrontResult<T>)
      requires Valid()
      ensures r == Empty <==> contents == []
      ensures r == OutOfBounds <==> contents != [] && front == -1
      ensures contents != [] && front >= 0 ==> r == Read(data[front]) && (maxSize > 1 ==> front != After(1))
      ensures contents != [] && front >= 0 && size == maxSize ==> r == Read(contents[size - 1])
    {
      if size == 0 {
        return Empty;
      }
      if front == -1 {
        return OutOfBounds;
      }
      r := Read(data[front]);
    }

    method Clear()
      requires Valid()
      modifies this`size, this`front, this`back, this`contents
      ensures Valid() && contents == [] && front == -1
    {
      size, front, back := 0, -1, -1;
      contents := [];
    }
  }

  /** The constructor's check: a size that is not positive is refused with an exception. */
  method Create<T(0)>(maxSize: int) returns (q: Option<RingBuffer<T>>)
    ensures q.Some? <==> maxSize > 0
    ensures q.Some? ==> fresh(q.value) && fresh(q.value.data) && q.value.Valid() &&
                        q.value.contents == [] && q.value.maxSize == maxSize
  {
    if maxSize <= 0 {
      return None;
    }
    var ring := new RingBuffer(maxSize);
    q := Some(ring);
  }

  // ---------- whole runs ----------

  datatype Op<+T> = Push(item: T) | Pop | Wipe

  /** What a queue of the given capacity returns and keeps; None where the caller has to wait. */
  function Fifo<T>(capacity: nat, held: seq<T>, op: Op<T>): (seq<T>, Option<T>) {
    match op
    case Push(item) => if |held| >= capacity then (held, None) else (held + [item], Some(item))
    case Pop => if held == [] then (held, None) else (held[1..], Some(held[0]))
    case Wipe => ([], None)
  }

  /** The results of the operations in order, and what is left. */
  function FifoRun<T>(capacity: nat, held: seq<T>, ops: seq<Op<T>>): (seq<T>, seq<Option<T>>) {
    if ops == [] then (held, [])
    else
      var last := |ops| - 1;
      var (before, results) := FifoRun(capacity, held, ops[..last]);
      var (after, result) := Fifo(capacity, before, ops[last]);
      (after, results + [result])
  }

  /** Any run of operations on the ring buffer does what the sequence does. */
  method Run<T(0)>(q: RingBuffer<T>, ops: seq<Op<T>>) returns (results: seq<Option<T>>)
    requires q.Valid()
    modifies q, q.data
    ensures q.Valid() && q.maxSize == old(q.maxSize)
    ensures (q.contents, results) == FifoRun(q.maxSize, old(q.contents), ops)
  {
    results := [];
    for k := 0 to |ops|
      invariant q.Valid() && q.maxSize == old(q.maxSize) && q.data == old(q.data)
      invariant (q.contents, results) == FifoRun(q.maxSize, old(q.contents), ops[..k])
    {
      assert ops[..k + 1][..k] == ops[..k];
      match ops[k]
      case Push(item) =>
        var done := q.TryPush(item);
        results := results + [if done then Some(item) else None];
      case Pop =>
        var r := q.TryPop();
        results := results + [r];
      case Wipe =>
        q.Clear();
        results := results + [None];
    }
    assert ops[..|ops|] == ops;
  }

  /** The item that a push put in, or that a pop took out; empty for the other kind. */
  function Moves<T>(op: Op<T>, result: Option<T>, pushes: bool): seq<T> {
    if result.Some? && op.Push? == pushes then [result.value] else []
  }

  /** The items that the pushes of a run put in, or those that its pops took out. */
  function Moved<T>(ops: seq<Op<T>>, results: seq<Option<T>>, pushes: bool): seq<T>
    requires |ops| == |results|
  {
    if ops == [] then []
    else
      var last := |ops| - 1;
      Moved(ops[..last], results[..last], pushes) + Moves(ops[last], results[last], pushes)
  }

  lemma FifoStepConserves<T>(capacity: nat, held: seq<T>, op: Op<T>)
    requires !op.Wipe?
    ensures var (after, result) := Fifo(capacity, held, op);
            && Moves(op, result, false) + after == held + Moves(op, result, true)
            && (|held| <= capacity ==> |after| <= capacity)
  {
  }

  lemma Reassociate<T>(out: seq<T>, o: seq<T>, after: seq<T>, before: seq<T>, i: seq<T>, held: seq<T>, put: seq<T>)
    requires o + after == before + i && out + before == held + put
    ensures (out + o) + after == held + (put + i)
  {
    assert (out + o) + after == out + (o + after);
    assert out + (before + i) == (out + before) + i;
    assert (held + put) + i == held + (put + i);
  }

  /**
   Main result: over any run of pushes and pops, what comes out followed by what is left is
   what was there at first followed by what went in, in that order.
   */
  lemma {:induction false} FifoConserves<T>(capacity: nat, held: seq<T>, ops: seq<Op<T>>)
    requires forall k | 0 <= k < |ops| :: !ops[k].Wipe?
    ensures |FifoRun(capacity, held, ops).1| == |ops|
    ensures var (left, results) := FifoRun(capacity, held, ops);
            Moved(ops, results, false) + left == held + Moved(ops, results, true)
    ensures |held| <= capacity ==> |FifoRun(capacity, held, ops).0| <= capacity
  {
    if ops != [] {
      var last := |ops| - 1;
      var op := ops[last];
      FifoConserves(capacity, held, ops[..last]);
      var (before, results) := FifoRun(capacity, held, ops[..last]);
      var (after, result) := Fifo(capacity, before, op);
      FifoStepConserves(capacity, before, op);
      assert (results + [result])[..last] == results;
      Reassociate(Moved(ops[..last], results, false), Moves(op, result, false), after, before,
                  Moves(op, result, true), held, Moved(ops[..last], results, true));
    }
  }
}
