/** The log store: one table of entries by key and two index tables
    (mvirt-log/src/storage.rs). */
module LogStore {
  import opened Basics
  import opened LogTime

  datatype LogEntry = LogEntry(
    id: string, timestampNs: int, message: string, level: int, component: string,
    relatedObjectIds: seq<string>)

  /** ULID text to key, and back. */
  datatype Codec = Codec(parse: string -> Option<nat>, show: nat -> string)

  datatype Store = Store(
    logs: map<nat, LogEntry>, byObject: set<(string, nat)>, byComponent: set<(string, int, nat)>)

  const EmptyStore := Store(map[], {}, {})

  // ----------------------------------------------------------------- append

  predicate Parses(c: Codec, entries: seq<LogEntry>) {
    forall i :: 0 <= i < |entries| ==> c.parse(entries[i].id).Some?
  }

  function ObjectRows(e: LogEntry, key: nat): set<(string, nat)> {
    set o | o in e.relatedObjectIds :: (o, key)
  }

  function Insert(s: Store, key: nat, e: LogEntry): Store {
    Store(s.logs[key := e], s.byObject + ObjectRows(e, key), s.byComponent + {(e.component, e.level, key)})
  }

  function InsertAll(c: Codec, s: Store, entries: seq<LogEntry>): Store
    requires Parses(c, entries)
    decreases |entries|
  {
    if entries == [] then s
    else
      var n := |entries| - 1;
      Insert(InsertAll(c, s, entries[..n]), c.parse(entries[n].id).value, entries[n])
  }

  /** `LogStateMachine::apply`: a batch with a bad id is dropped whole, and the
      answer is the same either way. */
  function Append(c: Codec, s: Store, entries: seq<LogEntry>): Store {
    if Parses(c, entries) then InsertAll(c, s, entries) else s
  }

  lemma {:induction false} InsertAllAppend(c: Codec, s: Store, a: seq<LogEntry>, b: seq<LogEntry>)
    requires Parses(c, a + b)
    ensures Parses(c, a) && Parses(c, b)
    ensures InsertAll(c, s, a + b) == InsertAll(c, InsertAll(c, s, a), b)
    decreases |b|
  {
    hide Insert;
    assert forall i :: 0 <= i < |a| ==> (a + b)[i] == a[i];
    assert forall i :: 0 <= i < |b| ==> (a + b)[|a| + i] == b[i];
    if b == [] {
      assert a + b == a;
    } else {
      var n := |b| - 1;
      assert (a + b)[..|a + b| - 1] == a + b[..n] && (a + b)[|a + b| - 1] == b[n];
      InsertAllAppend(c, s, a, b[..n]);
    }
  }

  // ------------------------------------------------------------- the indexes

  /** The object index holds exactly the pairs of the stored entries. */
  ghost predicate ObjectIndexExact(s: Store) {
    forall o, k :: (o, k) in s.byObject <==> k in s.logs && o in s.logs[k].relatedObjectIds
  }

  /** Every index row leads to an entry. */
  ghost predicate IndexLeadsSomewhere(s: Store) {
    forall o, k :: (o, k) in s.byObject ==> k in s.logs
  }

  /** Overwriting an entry leaves behind the index rows of objects that only the
      old one names. */
  predicate LeavesStale(s: Store, key: nat, e: LogEntry) {
    key in s.logs && exists o :: o in s.logs[key].relatedObjectIds && o !in e.relatedObjectIds
  }

  lemma InsertedPairs(s: Store, key: nat, e: LogEntry, o: string, k: nat)
    ensures (o, k) in Insert(s, key, e).byObject
            <==> (o, k) in s.byObject || (k == key && o in e.relatedObjectIds)
  {
  }

  lemma InsertKeepsIndexIff(s: Store, key: nat, e: LogEntry)
    requires ObjectIndexExact(s)
    ensures ObjectIndexExact(Insert(s, key, e)) <==> !LeavesStale(s, key, e)
  {
    var t := Insert(s, key, e);
    forall o, k ensures (o, k) in t.byObject <==> (o, k) in s.byObject || (k == key && o in e.relatedObjectIds) {
      InsertedPairs(s, key, e, o, k);
    }
    hide Insert, ObjectRows;
    assert t.logs == s.logs[key := e] by { InsertedRow(s, key, e); }
    if LeavesStale(s, key, e) {
      var o :| o in s.logs[key].relatedObjectIds && o !in e.relatedObjectIds;
      assert (o, key) in s.byObject;
    }
  }

  lemma InsertedRow(s: Store, key: nat, e: LogEntry)
    ensures Insert(s, key, e).logs == s.logs[key := e]
  {
  }

  lemma {:induction false} IndexKeepsLeading(c: Codec, s: Store, entries: seq<LogEntry>)
    requires Parses(c, entries) && IndexLeadsSomewhere(s)
    ensures IndexLeadsSomewhere(InsertAll(c, s, entries))
    decreases |entries|
  {
    if entries != [] {
      IndexKeepsLeading(c, s, entries[..|entries| - 1]);
    }
  }

  /** The ids parse to keys that are new and differ from each other. */
  ghost predicate FreshKeys(c: Codec, s: Store, entries: seq<LogEntry>) {
    && Parses(c, entries)
    && (forall i :: 0 <= i < |entries| ==> c.parse(entries[i].id).value !in s.logs)
    && (forall i, j :: 0 <= i < j < |entries| ==> c.parse(entries[i].id) != c.parse(entries[j].id))
  }

  lemma {:induction false} InsertAllRows(c: Codec, s: Store, entries: seq<LogEntry>, k: nat)
    requires FreshKeys(c, s, entries)
    ensures k in InsertAll(c, s, entries).logs <==>
      k in s.logs || exists i :: 0 <= i < |entries| && c.parse(entries[i].id) == Some(k)
    ensures k in s.logs ==> InsertAll(c, s, entries).logs[k] == s.logs[k]
    ensures forall i :: 0 <= i < |entries| && c.parse(entries[i].id) == Some(k) ==>
      InsertAll(c, s, entries).logs[k] == entries[i]
    decreases |entries|
  {
    if entries != [] {
      var n := |entries| - 1;
      var key := c.parse(entries[n].id).value;
      InsertAllRows(c, s, entries[..n], k);
      InsertedRow(InsertAll(c, s, entries[..n]), key, entries[n]);
      assert forall i :: 0 <= i < n ==> entries[..n][i] == entries[i];
      hide Insert;
    }
  }

  /** Fresh batches keep the object index exact. */
  lemma {:induction false} FreshBatchKeepsIndex(c: Codec, s: Store, entries: seq<LogEntry>)
    requires FreshKeys(c, s, entries) && ObjectIndexExact(s)
    ensures ObjectIndexExact(InsertAll(c, s, entries))
    decreases |entries|
  {
    if entries != [] {
      var n := |entries| - 1;
      var key := c.parse(entries[n].id).value;
      assert forall i :: 0 <= i < n ==> entries[..n][i] == entries[i];
      FreshBatchKeepsIndex(c, s, entries[..n]);
      InsertAllRows(c, s, entries[..n], key);
      InsertKeepsIndexIff(InsertAll(c, s, entries[..n]), key, entries[n]);
    }
  }

  // ------------------------------------------------------------------ queries

  predicate LeqNat(a: nat, b: nat) {
    a <= b
  }

  function Ascend(keys: set<nat>): (q: seq<nat>)
    ensures Ascending(q, LeqNat)
    ensures forall k :: k in q <==> k in keys
    ensures |q| == |keys|
  {
    Scan(keys, LeqNat)
  }

  /** Entries under these keys, skipping keys that have none. */
  function Rows(s: Store, keys: seq<nat>): seq<LogEntry>
    decreases |keys|
  {
    if keys == [] then []
    else
      var n := |keys| - 1;
      Rows(s, keys[..n]) + (if keys[n] in s.logs then [s.logs[keys[n]]] else [])
  }

  function Take<T>(q: seq<T>, limit: nat): seq<T> {
    if |q| <= limit then q else q[..limit]
  }

  /** What a query should return: the first `limit` entries, in key order, whose
      key is in range and which name the object, if one is given. */
  function Matching(s: Store, subject: Option<string>, lo: nat, hi: nat): set<nat> {
    set k | k in s.logs && lo <= k <= hi && (subject.None? || subject.value in s.logs[k].relatedObjectIds)
  }

  function Expected(s: Store, subject: Option<string>, lo: nat, hi: nat, limit: nat): seq<LogEntry> {
    Take(Rows(s, Ascend(Matching(s, subject, lo, hi))), limit)
  }

  lemma {:induction false} RowsPrefix(s: Store, keys: seq<nat>, i: nat)
    requires i <= |keys|
    ensures |Rows(s, keys[..i])| <= |Rows(s, keys)|
    ensures Rows(s, keys)[..|Rows(s, keys[..i])|] == Rows(s, keys[..i])
    decreases |keys|
  {
    if i == |keys| {
      assert keys[..i] == keys;
    } else {
      var n := |keys| - 1;
      RowsPrefix(s, keys[..n], i);
      assert keys[..n][..i] == keys[..i];
    }
  }

  lemma {:induction false} RowsContain(s: Store, keys: seq<nat>, k: nat)
    requires k in keys && k in s.logs
    ensures s.logs[k] in Rows(s, keys)
    decreases |keys|
  {
    var n := |keys| - 1;
    if keys[n] != k {
      assert k in keys[..n];
      RowsContain(s, keys[..n], k);
    }
  }

  lemma {:induction false} RowsSize(s: Store, keys: seq<nat>)
    ensures |Rows(s, keys)| <= |keys|
    decreases |keys|
  {
    if keys != [] {
      RowsSize(s, keys[..|keys| - 1]);
    }
  }

  /** The index rows a query for one object walks through. */
  function Indexed(s: Store, subject: string, lo: nat, hi: nat): set<nat> {
    set p | p in s.byObject && p.0 == subject && lo <= p.1 <= hi :: p.1
  }

  /** What the code returns: through the index for an object, else by a scan. */
  function Answer(s: Store, subject: Option<string>, lo: nat, hi: nat, limit: nat): seq<LogEntry> {
    var keys := if subject.Some? then Indexed(s, subject.value, lo, hi) else Matching(s, None, lo, hi);
    Take(Rows(s, Ascend(keys)), limit)
  }

  /** The index agrees with the scan. */
  lemma AnswerIsExpected(s: Store, subject: Option<string>, lo: nat, hi: nat, limit: nat)
    requires ObjectIndexExact(s)
    ensures Answer(s, subject, lo, hi, limit) == Expected(s, subject, lo, hi, limit)
  {
    if subject.Some? {
      var a, b := Indexed(s, subject.value, lo, hi), Matching(s, subject, lo, hi);
      forall k: nat ensures k in a <==> k in b {
        assert k in a <==> (subject.value, k) in s.byObject && lo <= k <= hi;
      }
      assert a == b;
    }
  }

  lemma {:induction false} RowsAt(s: Store, keys: seq<nat>)
    requires forall k :: k in keys ==> k in s.logs
    ensures |Rows(s, keys)| == |keys|
    ensures forall i :: 0 <= i < |keys| ==> Rows(s, keys)[i] == s.logs[keys[i]]
    decreases |keys|
  {
    if keys != [] {
      var n := |keys| - 1;
      assert keys[n] in keys && forall k :: k in keys[..n] ==> k in keys;
      RowsAt(s, keys[..n]);
    }
  }

  /** The keys of the entries in range that name the object, in ascending order. */
  ghost predicate Lists(s: Store, subject: Option<string>, lo: nat, hi: nat, keys: seq<nat>) {
    && (forall i, j :: 0 <= i < j < |keys| ==> keys[i] < keys[j])
    && (forall k :: k in keys <==>
          k in s.logs && lo <= k <= hi && (subject.Some? ==> subject.value in s.logs[k].relatedObjectIds))
  }

  lemma AscendLists(s: Store, subject: Option<string>, lo: nat, hi: nat)
    ensures Lists(s, subject, lo, hi, Ascend(Matching(s, subject, lo, hi)))
  {
    var keys := Ascend(Matching(s, subject, lo, hi));
    forall i, j | 0 <= i < j < |keys| ensures keys[i] < keys[j] {
      assert LeqNat(keys[i], keys[j]) && keys[i] != keys[j];
    }
  }

  lemma FirstRows(s: Store, keys: seq<nat>, limit: nat)
    requires forall k :: k in keys ==> k in s.logs
    ensures |Take(Rows(s, keys), limit)| == if |keys| <= limit then |keys| else limit
    ensures forall i :: 0 <= i < |Take(Rows(s, keys), limit)| ==>
      keys[i] in keys && Take(Rows(s, keys), limit)[i] == s.logs[keys[i]]
  {
    RowsAt(s, keys);
    hide Rows;
  }

  /** An answer holds the entries of the first matching keys, as many as the limit
      allows. */
  lemma AnswerIsFirstMatches(s: Store, subject: Option<string>, lo: nat, hi: nat, limit: nat)
    returns (keys: seq<nat>)
    requires ObjectIndexExact(s)
    ensures Lists(s, subject, lo, hi, keys)
    ensures var answer := Answer(s, subject, lo, hi, limit);
      && |answer| == (if |keys| <= limit then |keys| else limit)
      && forall i :: 0 <= i < |answer| ==> keys[i] in s.logs && answer[i] == s.logs[keys[i]]
  {
    hide ObjectIndexExact, Answer, Rows, Ascend, Take;
    AnswerIsExpected(s, subject, lo, hi, limit);
    AscendLists(s, subject, lo, hi);
    keys := Ascend(Matching(s, subject, lo, hi));
    hide Matching;
    FirstRows(s, keys, limit);
  }

  /** Every entry whose timestamp lies between two bounds on one side of the
      epoch, and which names the object if one is given, is among the results as
      long as the limit leaves room for all that match. */
  lemma QueryMissesNothing(s: Store, subject: Option<string>, start: Option<int>, end: Option<int>, limit: nat,
                           k: nat, random: nat)
    requires ObjectIndexExact(s) && k in s.logs && IsBound(start) && IsBound(end)
    requires IsI64(s.logs[k].timestampNs) && k == Key(s.logs[k].timestampNs, random)
    requires start.GetOr(0) <= s.logs[k].timestampNs <= end.GetOr(I64_MAX)
    requires SameSide(start.GetOr(0), end.GetOr(I64_MAX))
    requires subject.Some? ==> subject.value in s.logs[k].relatedObjectIds
    requires |Matching(s, subject, MinKey(start), MaxKey(end))| <= limit
    ensures s.logs[k] in Answer(s, subject, MinKey(start), MaxKey(end), limit)
  {
    var lo, hi := MinKey(start), MaxKey(end);
    NoneMissedIff(start, end);
    assert InRange(start, end, s.logs[k].timestampNs, random);
    hide MinKey, MaxKey, Key;
    AnswerIsExpected(s, subject, lo, hi, limit);
    var keys := Ascend(Matching(s, subject, lo, hi));
    assert k in Matching(s, subject, lo, hi);
    RowsContain(s, keys, k);
    RowsSize(s, keys);
  }

  // ------------------------------------------------------- lists of batches

  /** The store after a list of batches, bad ones included. */
  function AppendAll(c: Codec, s: Store, batches: seq<seq<LogEntry>>): Store
    decreases |batches|
  {
    if batches == [] then s
    else Append(c, AppendAll(c, s, batches[..|batches| - 1]), batches[|batches| - 1])
  }

  /** The entries of the batches that are not dropped. */
  function Accepted(c: Codec, batches: seq<seq<LogEntry>>): (r: seq<LogEntry>)
    ensures Parses(c, r)
    decreases |batches|
  {
    if batches == [] then []
    else
      var last := batches[|batches| - 1];
      Accepted(c, batches[..|batches| - 1]) + (if Parses(c, last) then last else [])
  }

  lemma {:induction false} AppendAllIsInsertAll(c: Codec, s: Store, batches: seq<seq<LogEntry>>)
    ensures AppendAll(c, s, batches) == InsertAll(c, s, Accepted(c, batches))
    decreases |batches|
  {
    if batches != [] {
      hide InsertAll, Insert;
      var n := |batches| - 1;
      AppendAllIsInsertAll(c, s, batches[..n]);
      if Parses(c, batches[n]) {
        InsertAllAppend(c, s, Accepted(c, batches[..n]), batches[n]);
      } else {
        assert Accepted(c, batches[..n]) + [] == Accepted(c, batches[..n]);
      }
    }
  }

  /** After any list of batches, bad ones included, whose accepted keys are fresh,
      every query equals the scan of the full log filtered by object and range. */
  lemma QueriesAgreeWithScan(c: Codec, batches: seq<seq<LogEntry>>, subject: Option<string>, lo: nat, hi: nat,
                             limit: nat)
    requires FreshKeys(c, EmptyStore, Accepted(c, batches))
    ensures var s := AppendAll(c, EmptyStore, batches);
      ObjectIndexExact(s) && Answer(s, subject, lo, hi, limit) == Expected(s, subject, lo, hi, limit)
  {
    hide InsertAll, Answer, Expected;
    AppendAllIsInsertAll(c, EmptyStore, batches);
    FreshBatchKeepsIndex(c, EmptyStore, Accepted(c, batches));
    AnswerIsExpected(AppendAll(c, EmptyStore, batches), subject, lo, hi, limit);
  }

  // ---------------------------------------------------------- the log manager

  class LogManager {
    var logs: map<nat, LogEntry>
    var byObject: set<(string, nat)>
    var byComponent: set<(string, int, nat)>

    function Value(): Store
      reads this
    {
      Store(logs, byObject, byComponent)
    }

    constructor ()
      ensures Value() == EmptyStore
    {
      logs, byObject, byComponent := map[], {}, {};
    }

    /** Tables are written in one transaction: a bad id on the way drops it. */
    method AppendBatch(c: Codec, entries: seq<LogEntry>) returns (ok: bool)
      modifies this
      ensures ok == Parses(c, entries)
      ensures Value() == Append(c, old(Value()), entries)
    {
      var logs', objects, components := logs, byObject, byComponent;
      for i := 0 to |entries|
        invariant Parses(c, entries[..i])
        invariant Store(logs', objects, components) == InsertAll(c, Value(), entries[..i])
        invariant Value() == old(Value())
      {
        var e := entries[i];
        var ulid := c.parse(e.id);
        if ulid.None? {
          return false;
        }
        var key := ulid.value;
        ghost var indexed := objects;
        assert entries[..i + 1][..i] == entries[..i];
        logs' := logs'[key := e];
        for j := 0 to |e.relatedObjectIds|
          invariant objects == indexed + set o | o in e.relatedObjectIds[..j] :: (o, key)
        {
          objects := objects + {(e.relatedObjectIds[j], key)};
          assert e.relatedObjectIds[..j + 1] == e.relatedObjectIds[..j] + [e.relatedObjectIds[j]];
        }
        assert e.relatedObjectIds[..|e.relatedObjectIds|] == e.relatedObjectIds;
        components := components + {(e.component, e.level, key)};
      }
      assert entries[..|entries|] == entries;
      logs, byObject, byComponent := logs', objects, components;
      return true;
    }

    method Query(subject: Option<string>, startNs: Option<int>, endNs: Option<int>, limit: nat)
      returns (results: seq<LogEntry>)
      requires IsBound(startNs) && IsBound(endNs)
      ensures results == Answer(Value(), subject, MinKey(startNs), MaxKey(endNs), limit)
    {
      var lo, hi := MinKey(startNs), MaxKey(endNs);
      hide MinKey, MaxKey;
      if subject.Some? {
        results := Collect(Ascend(set p | p in byObject && p.0 == subject.value && lo <= p.1 <= hi :: p.1), limit);
      } else {
        results := Collect(Ascend(Matching(Value(), None, lo, hi)), limit);
      }
    }

    /** The loop over a range, stopped by the limit. */
    method Collect(range: seq<nat>, limit: nat) returns (results: seq<LogEntry>)
      ensures results == Take(Rows(Value(), range), limit)
    {
      results := [];
      for i := 0 to |range|
        invariant results == Rows(Value(), range[..i])
        invariant |results| <= limit
      {
        if |results| >= limit {
          RowsPrefix(Value(), range, i);
          return;
        }
        if range[i] in logs {
          results := results + [logs[range[i]]];
        }
        assert range[..i + 1][..i] == range[..i];
      }
      assert range[..|range|] == range;
    }
  }
}
