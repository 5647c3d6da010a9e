/** The batcher between the log API and the store (mvirt-log/src/batcher.rs). */
module Batcher {
  import opened Basics
  import opened LogTime
  import opened LogStore

  const BATCH_SIZE: nat := 100

  /** What a poll of the channel yields while it is open; after the last poll the
      channel is closed. A timeout ends a batch that has begun; the wait for a
      batch's first entry has no timeout and passes over it. */
  datatype Poll = Arrived(entry: LogEntry) | TimedOut

  function Received(polls: seq<Poll>): seq<LogEntry>
    decreases |polls|
  {
    if polls == [] then []
    else
      var n := |polls| - 1;
      Received(polls[..n]) + (if polls[n].Arrived? then [polls[n].entry] else [])
  }

  /** What the replica reads for the n-th entry it stamps: the clock, which may
      fail, and 128 random bits. */
  datatype Reading = Reading(now: Option<int>, random: nat)

  /** Timestamp, unless the sender set one, and id. */
  function Stamp(c: Codec, e: LogEntry, r: Reading): LogEntry
    requires IsI64(e.timestampNs) && (r.now.Some? ==> IsI64(r.now.value))
  {
    var at := if e.timestampNs == 0 && r.now.Some? then r.now.value else e.timestampNs;
    e.(timestampNs := at, id := c.show(Key(at, r.random)))
  }

  ghost predicate Stampable(entries: seq<LogEntry>, readings: nat -> Reading) {
    && (forall e :: e in entries ==> IsI64(e.timestampNs))
    && (forall n: nat :: readings(n).now.Some? ==> IsI64(readings(n).now.value))
  }

  /** When an entry counts as sent: the sender's time, else the replica's. */
  function SentAt(e: LogEntry, r: Reading): int {
    if e.timestampNs != 0 then e.timestampNs else r.now.GetOr(0)
  }

  /** What becomes of an entry on its way to the store: its content is as the
      sender wrote it, and its id shows the millisecond and the random bits. */
  predicate Relayed(c: Codec, sent: LogEntry, r: Reading, stored: LogEntry)
    requires IsI64(SentAt(sent, r))
  {
    && stored.message == sent.message && stored.level == sent.level && stored.component == sent.component
    && stored.relatedObjectIds == sent.relatedObjectIds
    && stored.timestampNs == SentAt(sent, r)
    && stored.id == c.show(Key(SentAt(sent, r), r.random))
  }

  /** The same for a list of entries, in the order in which they were sent. */
  ghost predicate AllRelayed(c: Codec, sent: seq<LogEntry>, readings: nat -> Reading, stored: seq<LogEntry>)
    requires Stampable(sent, readings)
  {
    && |stored| == |sent|
    && forall i :: 0 <= i < |sent| ==> Relayed(c, sent[i], readings(i), stored[i])
  }

  /** Stamping entries that start at position `from` of everything received. */
  function StampAll(c: Codec, entries: seq<LogEntry>, readings: nat -> Reading, from: nat): (r: seq<LogEntry>)
    requires Stampable(entries, readings)
    ensures |r| == |entries|
    ensures forall i :: 0 <= i < |r| ==> r[i] == Stamp(c, entries[i], readings(from + i))
  {
    seq(|entries|, i requires 0 <= i < |entries| => Stamp(c, entries[i], readings(from + i)))
  }

  /** Entries are relayed exactly if they are stamped. */
  lemma RelayedIsStamped(c: Codec, sent: seq<LogEntry>, readings: nat -> Reading, stored: seq<LogEntry>)
    requires Stampable(sent, readings)
    ensures AllRelayed(c, sent, readings, stored) <==> stored == StampAll(c, sent, readings, 0)
  {
    hide Key;
    var all := StampAll(c, sent, readings, 0);
    forall i | 0 <= i < |sent| ensures Relayed(c, sent[i], readings(i), all[i]) {
    }
    if AllRelayed(c, sent, readings, stored) {
      forall i | 0 <= i < |sent| ensures stored[i] == all[i] {
        assert Relayed(c, sent[i], readings(i), stored[i]);
      }
    }
  }

  function Concat(batches: seq<seq<LogEntry>>): seq<LogEntry>
    decreases |batches|
  {
    if batches == [] then [] else Concat(batches[..|batches| - 1]) + batches[|batches| - 1]
  }

  // ------------------------------------------------------------ the main loop

  lemma ReceivedStep(polls: seq<Poll>, i: nat)
    requires i < |polls|
    ensures Received(polls[..i + 1])
            == Received(polls[..i]) + (if polls[i].Arrived? then [polls[i].entry] else [])
  {
    assert polls[..i + 1][..i] == polls[..i];
  }

  /** Wait for the first entry, then grow the batch until it is full, a poll
      times out or the channel closes, and no longer. */
  method FormBatch(polls: seq<Poll>, from: nat) returns (batch: seq<LogEntry>, next: nat)
    requires from <= |polls|
    ensures from <= next <= |polls| && |batch| <= 100
    ensures Received(polls[..next]) == Received(polls[..from]) + batch
    ensures batch == [] ==> next == |polls|
    ensures batch != [] ==> from < next
    ensures |batch| < 100 && next < |polls| ==> polls[next - 1].TimedOut?
    ensures forall i :: from <= i < next - 1 && polls[i].Arrived? ==> polls[i + 1].Arrived? || i + 1 == next - 1
  {
    batch, next := [], from;
    while next < |polls| && polls[next].TimedOut?
      invariant from <= next <= |polls|
      invariant Received(polls[..next]) == Received(polls[..from])
      invariant forall i :: from <= i < next ==> polls[i].TimedOut?
    {
      ReceivedStep(polls, next);
      next := next + 1;
    }
    if next == |polls| {
      return;
    }
    ReceivedStep(polls, next);
    ghost var start := next;
    batch, next := [polls[next].entry], next + 1;
    while |batch| < BATCH_SIZE && next < |polls|
      invariant from <= start < next <= |polls| && 0 < |batch| <= BATCH_SIZE
      invariant forall i :: from <= i < start ==> polls[i].TimedOut?
      invariant forall i :: start <= i < next ==> polls[i].Arrived?
      invariant Received(polls[..next]) == Received(polls[..from]) + batch
      decreases |polls| - next
    {
      ReceivedStep(polls, next);
      next := next + 1;
      if polls[next - 1].TimedOut? {
        break;
      }
      batch := batch + [polls[next - 1].entry];
    }
  }

  /** The entries of a batch get their timestamp and id in place. */
  method StampBatch(c: Codec, batch0: seq<LogEntry>, readings: nat -> Reading, from: nat)
    returns (batch: seq<LogEntry>)
    requires Stampable(batch0, readings)
    ensures batch == StampAll(c, batch0, readings, from)
    ensures |batch| == |batch0|
    ensures forall i :: 0 <= i < |batch| ==> Relayed(c, batch0[i], readings(from + i), batch[i])
  {
    batch := batch0;
    for i := 0 to |batch|
      invariant |batch| == |batch0|
      invariant forall j :: 0 <= j < i ==> batch[j] == Stamp(c, batch0[j], readings(from + j))
      invariant forall j :: i <= j < |batch| ==> batch[j] == batch0[j]
    {
      var e := batch[i];
      assert e in batch0;
      if e.timestampNs == 0 {
        var now := readings(from + i).now;
        if now.Some? {
          e := e.(timestampNs := now.value);
        }
      }
      batch := batch[i := e.(id := c.show(FromParts(Millis(e.timestampNs), readings(from + i).random)))];
    }
    hide Key;
    assert forall i :: 0 <= i < |batch| ==> batch0[i] in batch0;
  }

  lemma StampAllAppend(c: Codec, a: seq<LogEntry>, b: seq<LogEntry>, readings: nat -> Reading)
    requires Stampable(a + b, readings)
    ensures Stampable(a, readings) && Stampable(b, readings)
    ensures StampAll(c, a + b, readings, 0) == StampAll(c, a, readings, 0) + StampAll(c, b, readings, |a|)
  {
    hide Stamp;
    assert forall e :: e in a ==> e in a + b;
    assert forall e :: e in b ==> e in a + b;
  }

  lemma {:induction false} ReceivedPrefix(polls: seq<Poll>, i: nat)
    requires i <= |polls|
    ensures Received(polls[..i]) <= Received(polls)
    decreases |polls|
  {
    if i == |polls| {
      assert polls[..i] == polls;
    } else {
      ReceivedPrefix(polls[..|polls| - 1], i);
      assert polls[..|polls| - 1][..i] == polls[..i];
    }
  }

  /** Whatever the timing, the batches have 1 to 100 entries, and one after the
      other they are exactly what was received, in order. */
  method RunLoop(c: Codec, polls: seq<Poll>, readings: nat -> Reading) returns (flushed: seq<seq<LogEntry>>)
    requires Stampable(Received(polls), readings)
    ensures forall b :: b in flushed ==> 1 <= |b| <= 100
    ensures AllRelayed(c, Received(polls), readings, Concat(flushed))
  {
    flushed := [];
    var next, seen := 0, 0;
    ghost var done: seq<LogEntry> := [];
    while next < |polls|
      invariant 0 <= next <= |polls| && done == Received(polls[..next]) && seen == |done|
      invariant forall b :: b in flushed ==> 1 <= |b| <= BATCH_SIZE
      invariant Stampable(done, readings) && Concat(flushed) == StampAll(c, done, readings, 0)
      decreases |polls| - next
    {
      var batch, after := FormBatch(polls, next);
      if batch == [] {
        next := after;
        break;
      }
      ReceivedPrefix(polls, after);
      assert forall e :: e in done + batch ==> e in Received(polls);
      StampAllAppend(c, done, batch, readings);
      var stamped := StampBatch(c, batch, readings, seen);
      assert (flushed + [stamped])[..|flushed|] == flushed;
      flushed := flushed + [stamped];
      done, seen := done + batch, seen + |batch|;
      next := after;
    }
    assert polls[..|polls|] == polls;
    RelayedIsStamped(c, Received(polls), readings, Concat(flushed));
  }

  // ---------------------------------------------------- batching is invisible

  lemma {:induction false} BatchesLikeOneByOne(c: Codec, s: Store, batches: seq<seq<LogEntry>>)
    requires Parses(c, Concat(batches))
    ensures AppendAll(c, s, batches) == InsertAll(c, s, Concat(batches))
    decreases |batches|
  {
    if batches != [] {
      var n := |batches| - 1;
      InsertAllAppend(c, s, Concat(batches[..n]), batches[n]);
      BatchesLikeOneByOne(c, s, batches[..n]);
    }
  }

  /** Text and key determine each other, for the 128-bit keys there are. */
  ghost predicate CodecRoundTrips(c: Codec) {
    forall k: nat | k < MILLIS * RANDOM :: c.parse(c.show(k)) == Some(k)
  }

  lemma KeyFits(ns: int, random: nat)
    requires IsI64(ns)
    ensures Key(ns, random) < MILLIS * RANDOM
  {
    var ms := Millis(ns) % MILLIS;
    assert ms * RANDOM <= (MILLIS - 1) * RANDOM;
  }

  lemma StampedParses(c: Codec, entries: seq<LogEntry>, readings: nat -> Reading)
    requires CodecRoundTrips(c) && Stampable(entries, readings)
    ensures Parses(c, StampAll(c, entries, readings, 0))
    ensures forall i :: 0 <= i < |entries| ==>
      var e := StampAll(c, entries, readings, 0)[i];
      IsI64(e.timestampNs) && c.parse(e.id) == Some(Key(e.timestampNs, readings(i).random))
  {
    hide Key;
    forall i | 0 <= i < |entries|
      ensures var e := StampAll(c, entries, readings, 0)[i];
        IsI64(e.timestampNs) && c.parse(e.id) == Some(Key(e.timestampNs, readings(i).random))
    {
      var e := StampAll(c, entries, readings, 0)[i];
      assert entries[i] in entries;
      KeyFits(e.timestampNs, readings(i).random);
    }
  }

  /** Two timings of the same entries lead to the same three tables: the ones of
      storing the relayed entries one at a time. */
  lemma TimingIsInvisible(c: Codec, s: Store, p: seq<Poll>, q: seq<Poll>, readings: nat -> Reading,
                          a: seq<seq<LogEntry>>, b: seq<seq<LogEntry>>)
    requires CodecRoundTrips(c) && Received(p) == Received(q) && Stampable(Received(p), readings)
    requires AllRelayed(c, Received(p), readings, Concat(a)) && AllRelayed(c, Received(q), readings, Concat(b))
    ensures Parses(c, Concat(a))
    ensures AppendAll(c, s, a) == AppendAll(c, s, b) == InsertAll(c, s, Concat(a))
  {
    RelayedIsStamped(c, Received(p), readings, Concat(a));
    RelayedIsStamped(c, Received(q), readings, Concat(b));
    StampedParses(c, Received(p), readings);
    BatchesLikeOneByOne(c, s, a);
    BatchesLikeOneByOne(c, s, b);
  }

  /** From the sender to a query: with distinct keys, every received entry that a
      query covers by its time and its objects is found, as it was sent. */
  lemma ReceivedIsFound(c: Codec, polls: seq<Poll>, readings: nat -> Reading, batches: seq<seq<LogEntry>>, i: nat,
                        subject: Option<string>, start: Option<int>, end: Option<int>, limit: nat)
    requires CodecRoundTrips(c) && Stampable(Received(polls), readings) && i < |Received(polls)|
    requires AllRelayed(c, Received(polls), readings, Concat(batches))
    requires FreshKeys(c, EmptyStore, Concat(batches))
    requires var e := Received(polls)[i];
      && IsBound(start) && IsBound(end) && SameSide(start.GetOr(0), end.GetOr(I64_MAX))
      && start.GetOr(0) <= SentAt(e, readings(i)) <= end.GetOr(I64_MAX)
      && (subject.Some? ==> subject.value in e.relatedObjectIds)
    requires |Matching(AppendAll(c, EmptyStore, batches), subject, MinKey(start), MaxKey(end))| <= limit
    ensures exists x :: Relayed(c, Received(polls)[i], readings(i), x)
                        && x in Answer(AppendAll(c, EmptyStore, batches), subject, MinKey(start), MaxKey(end), limit)
  {
    hide Key, MinKey, MaxKey, StampAll, Answer, Matching, Append, InsertAll;
    var all := Concat(batches);
    RelayedIsStamped(c, Received(polls), readings, all);
    StampedParses(c, Received(polls), readings);
    BatchesLikeOneByOne(c, EmptyStore, batches);
    FreshBatchKeepsIndex(c, EmptyStore, all);
    assert Relayed(c, Received(polls)[i], readings(i), all[i]);
    var k := Key(all[i].timestampNs, readings(i).random);
    InsertAllRows(c, EmptyStore, all, k);
    QueryMissesNothing(InsertAll(c, EmptyStore, all), subject, start, end, limit, k, readings(i).random);
  }
}
