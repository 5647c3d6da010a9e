/** The receive and transmit buffer queues that share one pool
    (mvirt-net/src/virtqueue.rs). */
module BufferPool {
  import opened Basics

  /** The ids a queue owns are `first` up to `first + count`; each is either
      available or out, that is, handed to the caller and not yet returned. */
  datatype Queue = Queue(first: nat, count: nat, available: seq<nat>, out: set<nat>)

  predicate Owns(q: Queue, id: nat) {
    q.first <= id < q.first + q.count
  }

  predicate NoRepeats(ids: seq<nat>) {
    forall i, j :: 0 <= i < j < |ids| ==> ids[i] != ids[j]
  }

  ghost predicate Partitioned(q: Queue) {
    && NoRepeats(q.available)
    && (forall id :: id in q.available ==> id !in q.out)
    && (forall id :: Owns(q, id) <==> id in q.available || id in q.out)
  }

  function NewQueue(first: nat, count: nat): Queue {
    Queue(first, count, seq(count, i requires 0 <= i => first + i), {})
  }

  /** Nothing happens to an empty queue; otherwise the oldest id goes out. */
  function Pop(q: Queue): Queue {
    if q.available == [] then q
    else q.(available := q.available[1..], out := q.out + {q.available[0]})
  }

  function Push(q: Queue, id: nat): Queue {
    q.(available := q.available + [id], out := q.out - {id})
  }

  lemma NewIsPartitioned(first: nat, count: nat)
    ensures Partitioned(NewQueue(first, count))
  {
    var q := NewQueue(first, count);
    forall id: nat | Owns(q, id) ensures id in q.available {
      assert q.available[id - first] == id;
    }
  }

  lemma PopKeepsPartition(q: Queue)
    requires Partitioned(q)
    ensures Partitioned(Pop(q))
  {
    if q.available != [] {
      assert q.available == [q.available[0]] + q.available[1..];
    }
  }

  /** A return keeps the partition exactly when the id was out of this queue. */
  lemma PushKeepsPartitionIff(q: Queue, id: nat)
    requires Partitioned(q)
    ensures Partitioned(Push(q, id)) <==> id in q.out
  {
    var r := Push(q, id);
    assert id in r.available && r.available[|q.available|] == id;
    if id !in q.out && Owns(q, id) {
      var i :| 0 <= i < |q.available| && q.available[i] == id;
      assert r.available[i] == r.available[|q.available|];
    }
  }

  // --------------------------------------------------------------- the pool

  datatype Pool = Pool(rx: Queue, tx: Queue)

  datatype Step = PopRx | PopTx | PushRx(id: nat) | PushTx(id: nat)

  function NewPool(rx: nat, tx: nat): Pool {
    Pool(NewQueue(0, rx), NewQueue(rx, tx))
  }

  function Next(p: Pool, s: Step): Pool {
    match s
    case PopRx => p.(rx := Pop(p.rx))
    case PopTx => p.(tx := Pop(p.tx))
    case PushRx(id) => p.(rx := Push(p.rx, id))
    case PushTx(id) => p.(tx := Push(p.tx, id))
  }

  function Run(p: Pool, steps: seq<Step>): Pool
    decreases |steps|
  {
    if steps == [] then p else Next(Run(p, steps[..|steps| - 1]), steps[|steps| - 1])
  }

  /** Every return gives back an id that is out of the same queue. */
  predicate Disciplined(p: Pool, steps: seq<Step>)
    decreases |steps|
  {
    if steps == [] then true
    else
      var before, s := steps[..|steps| - 1], steps[|steps| - 1];
      && Disciplined(p, before)
      && (s.PushRx? ==> s.id in Run(p, before).rx.out)
      && (s.PushTx? ==> s.id in Run(p, before).tx.out)
  }

  ghost predicate Sound(p: Pool, rx: nat, tx: nat) {
    && Partitioned(p.rx) && p.rx.first == 0 && p.rx.count == rx
    && Partitioned(p.tx) && p.tx.first == rx && p.tx.count == tx
  }

  /** Whatever the interleaving of the two queues. */
  lemma {:induction false} RunsAreSound(rx: nat, tx: nat, steps: seq<Step>)
    requires Disciplined(NewPool(rx, tx), steps)
    ensures Sound(Run(NewPool(rx, tx), steps), rx, tx)
    decreases |steps|
  {
    if steps == [] {
      NewIsPartitioned(0, rx);
      NewIsPartitioned(rx, tx);
    } else {
      var before, s := steps[..|steps| - 1], steps[|steps| - 1];
      RunsAreSound(rx, tx, before);
      var p := Run(NewPool(rx, tx), before);
      PopKeepsPartition(p.rx);
      PopKeepsPartition(p.tx);
      if s.PushRx? { PushKeepsPartitionIff(p.rx, s.id); }
      if s.PushTx? { PushKeepsPartitionIff(p.tx, s.id); }
    }
  }

  // ------------------------------------------------------------ order of reuse

  /** The ids that a run takes out of one queue, and those that it returns. */
  function Taken(q: Queue, steps: seq<Option<nat>>): seq<nat>
    decreases |steps|
  {
    if steps == [] then []
    else
      var before, s := steps[..|steps| - 1], steps[|steps| - 1];
      var here := Turn(q, before);
      Taken(q, before) + (if s.None? && here.available != [] then [here.available[0]] else [])
  }

  function Returned(steps: seq<Option<nat>>): seq<nat>
    decreases |steps|
  {
    if steps == [] then []
    else Returned(steps[..|steps| - 1]) + (if steps[|steps| - 1].Some? then [steps[|steps| - 1].value] else [])
  }

  /** A run of one queue: `None` takes a buffer, `Some(id)` returns one. */
  function Turn(q: Queue, steps: seq<Option<nat>>): Queue
    decreases |steps|
  {
    if steps == [] then q
    else
      var here, s := Turn(q, steps[..|steps| - 1]), steps[|steps| - 1];
      if s.None? then Pop(here) else Push(here, s.value)
  }

  /** Buffers are reused in the order in which they came back. */
  lemma {:induction false} ReusedInOrder(q: Queue, steps: seq<Option<nat>>)
    ensures q.available + Returned(steps) == Taken(q, steps) + Turn(q, steps).available
    decreases |steps|
  {
    if steps == [] {
      assert Taken(q, steps) == [] && Returned(steps) == [];
    } else {
      var n := |steps| - 1;
      ReusedInOrder(q, steps[..n]);
      var here := Turn(q, steps[..n]);
      var back, gone := Returned(steps[..n]), Taken(q, steps[..n]);
      if steps[n].Some? {
        var id := steps[n].value;
        assert q.available + (back + [id]) == (q.available + back) + [id];
        assert gone + (here.available + [id]) == (gone + here.available) + [id];
      } else if here.available != [] {
        assert gone + here.available == (gone + [here.available[0]]) + here.available[1..];
      }
    }
  }

  // ----------------------------------------------------------- byte ranges

  predicate InUse(p: Pool, id: nat) {
    id in p.rx.out || id in p.tx.out
  }

  lemma {:induction false} ProductMonotone(a: nat, b: nat, size: nat)
    requires a <= b
    ensures a * size <= b * size
    decreases b
  {
    if a < b {
      ProductMonotone(a, b - 1, size);
      assert b * size == (b - 1) * size + size;
    }
  }

  /** All buffers that are out at once lie inside the pool and do not overlap. */
  lemma BuffersAreDisjoint(rx: nat, tx: nat, steps: seq<Step>, size: nat, poolSize: nat, i: nat, j: nat)
    requires Disciplined(NewPool(rx, tx), steps) && (rx + tx) * size <= poolSize
    requires var p := Run(NewPool(rx, tx), steps); InUse(p, i) && InUse(p, j) && i < j
    ensures i * size + size <= j * size && j * size + size <= poolSize
  {
    var p := Run(NewPool(rx, tx), steps);
    RunsAreSound(rx, tx, steps);
    assert Owns(p.rx, i) || Owns(p.tx, i);
    assert Owns(p.rx, j) || Owns(p.tx, j);
    ProductMonotone(i + 1, j, size);
    ProductMonotone(j + 1, rx + tx, size);
    assert (i + 1) * size == i * size + size && (j + 1) * size == j * size + size;
  }

  /** The registration index is the id cut to 16 bits. */
  function BufIndex(id: nat): nat {
    id % 0x1_0000
  }

  /** Indices tell all buffers apart exactly when there are at most 65536. */
  lemma IndicesDistinctIff(total: nat)
    ensures (forall i, j :: 0 <= i < j < total ==> BufIndex(i) != BufIndex(j)) <==> total <= 0x1_0000
  {
    if total > 0x1_0000 {
      assert BufIndex(0) == BufIndex(0x1_0000);
    }
  }

  // --------------------------------------------------------- the queue object

  datatype DescriptorChain = DescriptorChain(chainId: nat, offset: nat, len: nat, bufIndex: nat)

  class SimpleQueue {
    const first: nat
    const count: nat
    const bufferSize: nat
    var available: seq<nat>
    ghost var out: set<nat>

    ghost function Model(): Queue
      reads this
    {
      Queue(first, count, available, out)
    }

    constructor (first: nat, count: nat, bufferSize: nat)
      ensures Model() == NewQueue(first, count) && Partitioned(Model()) && this.bufferSize == bufferSize
    {
      this.first, this.count, this.bufferSize := first, count, bufferSize;
      available := seq(count, i requires 0 <= i => first + i);
      out := {};
      new;
      NewIsPartitioned(first, count);
    }

    /** A buffer of this queue that nobody else holds, or nothing if all are out. */
    method PopAvailable() returns (chain: Option<DescriptorChain>)
      requires Partitioned(Model())
      modifies `available, `out
      ensures Model() == Pop(old(Model())) && Partitioned(Model())
      ensures chain.None? <==> old(available) == []
      ensures chain.Some? ==>
        var id := chain.value.chainId;
        && Owns(Model(), id) && id !in old(out) && id in out
        && chain.value == DescriptorChain(id, id * bufferSize, bufferSize % 0x1_0000_0000, BufIndex(id))
    {
      PopKeepsPartition(Model());
      if available == [] {
        return None;
      }
      var id := available[0];
      available := available[1..];
      out := out + {id};
      return Some(DescriptorChain(id, id * bufferSize, bufferSize % 0x1_0000_0000, id % 0x1_0000));
    }

    method PushUsed(id: nat)
      modifies `available, `out
      ensures Model() == Push(old(Model()), id)
      ensures old(Partitioned(Model())) ==> (Partitioned(Model()) <==> id in old(out))
    {
      if Partitioned(Model()) {
        PushKeepsPartitionIff(Model(), id);
      }
      available := available + [id];
      out := out - {id};
    }
  }
}
