/** The request cache: because a hit never promotes its entry, the LRU cache is a
    first-in first-out window over the committed requests. */
module ReplayWindow {
  import opened Basics
  import opened Types
  import opened ControlPlane

  /** The requests committed along a run, oldest first. */
  function CommitLog(env: Env, s: State, q: seq<Input>): seq<Entry>
    decreases |q|
  {
    if q == [] then []
    else
      var p := q[..|q| - 1];
      var i := q[|q| - 1];
      var here := RunFrom(env, s, p);
      CommitLog(env, s, p)
      + (if Commits(env, here, i) then [Entry(i.cmd.requestId, Apply(env, here, i).response)] else [])
  }

  /** The last thousand entries. */
  function Window(log: seq<Entry>): seq<Entry> {
    if |log| <= 1000 then log else log[|log| - 1000..]
  }

  lemma {:induction false} PeekAbsent(cache: Cache, id: string)
    ensures Peek(cache, id).None? <==> forall k :: 0 <= k < |cache| ==> cache[k].id != id
  {
    if cache != [] {
      PeekAbsent(cache[1..], id);
      if Peek(cache, id).None? {
        forall k | 0 <= k < |cache| ensures cache[k].id != id {
          if k > 0 { assert cache[k] == cache[1..][k - 1]; }
        }
      } else if cache[0].id != id {
        var k :| 0 <= k < |cache[1..]| && cache[1..][k].id == id;
        assert cache[k + 1].id == id;
      }
    }
  }

  predicate DistinctIds(cache: Cache) {
    forall i, j :: 0 <= i < j < |cache| ==> cache[i].id != cache[j].id
  }

  lemma {:induction false} PeekFinds(cache: Cache, k: nat)
    requires DistinctIds(cache) && k < |cache|
    ensures Peek(cache, cache[k].id) == Some(cache[k].response)
  {
    if k > 0 {
      assert cache[0].id != cache[k].id;
      assert cache[1..][k - 1] == cache[k];
      PeekFinds(cache[1..], k - 1);
    }
  }

  /** Storing under a known id replaces its entry and makes it the newest. */
  lemma {:induction false} PutKnown(a: seq<Entry>, e: Entry, b: seq<Entry>, r: Response)
    requires forall k :: 0 <= k < |a| ==> a[k].id != e.id
    ensures Put(a + [e] + b, e.id, r) == a + b + [Entry(e.id, r)]
  {
    RemoveFirst(a, e, b);
    PeekAbsent(a + [e] + b, e.id);
    assert (a + [e] + b)[|a|].id == e.id;
  }

  lemma {:induction false} RemoveFirst(a: seq<Entry>, e: Entry, b: seq<Entry>)
    requires forall k :: 0 <= k < |a| ==> a[k].id != e.id
    ensures Remove(a + [e] + b, e.id) == a + b
    decreases |a|
  {
    var cache := a + [e] + b;
    if a == [] {
      assert cache[1..] == b && a + b == b;
    } else {
      RemoveFirst(a[1..], e, b);
      assert cache[1..] == a[1..] + [e] + b && cache[0] == a[0];
      assert a + b == [a[0]] + (a[1..] + b);
    }
  }

  lemma WindowStep(log: seq<Entry>, e: Entry)
    requires Peek(Window(log), e.id).None?
    ensures Put(Window(log), e.id, e.response) == Window(log + [e])
  {
  }

  lemma WindowWhole(log: seq<Entry>)
    requires |log| <= Capacity
    ensures Window(log) == log
  {
  }

  /** One step appends its request to the log exactly when it commits. */
  lemma ApplyIsWindowed(env: Env, s: State, i: Input, log: seq<Entry>)
    requires s.cache == Window(log)
    ensures var r := Apply(env, s, i);
      r.state.cache == Window(if Commits(env, s, i) then log + [Entry(i.cmd.requestId, r.response)] else log)
  {
    hide Handle;
    var r := Apply(env, s, i);
    if Commits(env, s, i) {
      WindowStep(log, Entry(i.cmd.requestId, r.response));
    }
  }

  /** After any run the cache holds the last thousand committed requests, in
      commit order. */
  lemma {:induction false} CacheIsWindow(env: Env, s: State, q: seq<Input>)
    requires |s.cache| <= Capacity
    ensures RunFrom(env, s, q).cache == Window(s.cache + CommitLog(env, s, q))
    decreases |q|
  {
    hide Handle, Apply, Commits, Window, Put;
    if q == [] {
      WindowWhole(s.cache);
      assert s.cache + [] == s.cache;
    } else {
      var p := q[..|q| - 1];
      CacheIsWindow(env, s, p);
      var log := s.cache + CommitLog(env, s, p);
      var i := q[|q| - 1];
      var here := RunFrom(env, s, p);
      ApplyIsWindowed(env, here, i, log);
      if Commits(env, here, i) {
        var e := Entry(i.cmd.requestId, Apply(env, here, i).response);
        assert log + [e] == s.cache + (CommitLog(env, s, p) + [e]);
      } else {
        assert CommitLog(env, s, p) + [] == CommitLog(env, s, p);
      }
    }
  }

  /** The last entry of a window is found in every window fewer than `Capacity`
      entries later, and is gone `Capacity` entries later. */
  lemma EntryInWindow(old': seq<Entry>, e: Entry, later: seq<Entry>)
    requires DistinctIds(Window(old' + [e] + later))
    ensures |later| < Capacity ==> Peek(Window(old' + [e] + later), e.id) == Some(e.response)
  {
    if |later| < Capacity {
      var log := old' + [e] + later;
      var k := |Window(log)| - |later| - 1;
      assert Window(log)[k] == log[|old'|] == e;
      PeekFinds(Window(log), k);
    }
  }

  lemma ApplyKeepsDistinct(env: Env, s: State, i: Input)
    requires DistinctIds(s.cache)
    ensures DistinctIds(Apply(env, s, i).state.cache)
  {
    hide Handle;
    PeekAbsent(s.cache, i.cmd.requestId);
  }

  lemma {:induction false} RunKeepsDistinct(env: Env, s: State, q: seq<Input>)
    requires DistinctIds(s.cache)
    ensures DistinctIds(RunFrom(env, s, q).cache)
    decreases |q|
  {
    hide Handle, Apply, DistinctIds;
    if q != [] {
      var p := q[..|q| - 1];
      RunKeepsDistinct(env, s, p);
      ApplyKeepsDistinct(env, RunFrom(env, s, p), q[|q| - 1]);
    }
  }

  /** Ids logged while the cache still holds `id` differ from it. */
  lemma {:induction false} NotLoggedAgain(env: Env, s: State, q: seq<Input>, before: seq<Entry>, e: Entry)
    requires s.cache == Window(before + [e]) && DistinctIds(s.cache)
    requires |CommitLog(env, s, q)| <= Capacity
    ensures forall k :: 0 <= k < |CommitLog(env, s, q)| ==> CommitLog(env, s, q)[k].id != e.id
    decreases |q|
  {
    hide Handle, Apply;
    if q != [] {
      var p := q[..|q| - 1];
      var here := RunFrom(env, s, p);
      NotLoggedAgain(env, s, p, before, e);
      if Commits(env, here, q[|q| - 1]) {
        HeldWithin(env, s, p, before, e);
      }
    }
  }

  lemma HeldWithin(env: Env, s: State, q: seq<Input>, before: seq<Entry>, e: Entry)
    requires s.cache == Window(before + [e]) && DistinctIds(s.cache)
    requires |CommitLog(env, s, q)| < Capacity
    ensures Peek(RunFrom(env, s, q).cache, e.id) == Some(e.response)
  {
    hide Handle, Apply;
    var log := CommitLog(env, s, q);
    CacheIsWindow(env, s, q);
    RunKeepsDistinct(env, s, q);
    WindowAppend(before + [e], log);
    EntryInWindow(before, e, log);
  }

  /** A window over a window is a window over the whole. */
  lemma WindowAppend(a: seq<Entry>, b: seq<Entry>)
    ensures Window(Window(a) + b) == Window(a + b)
  {
  }

  /** Once a request has committed, every command with its id is answered from
      the cache, emits nothing and changes nothing until a thousand further
      requests have committed; at the thousandth the id is forgotten. */
  lemma ReplaysUntilThousandLater(env: Env, s: State, i: Input, q: seq<Input>, j: Input)
    requires |s.cache| <= Capacity && DistinctIds(s.cache) && Commits(env, s, i)
    requires j.cmd.requestId == i.cmd.requestId
    ensures var first := Apply(env, s, i);
      var later := RunFrom(env, first.state, q);
      var n := |CommitLog(env, first.state, q)|;
      && (n < 1000 ==> Apply(env, later, j) == Reply(later, first.response, []))
      && (n == 1000 ==> Executes(later, j))
  {
    hide Handle;
    var first := Apply(env, s, i);
    var e := Entry(i.cmd.requestId, first.response);
    var later := RunFrom(env, first.state, q);
    var log := CommitLog(env, first.state, q);
    WindowWhole(s.cache);
    ApplyIsWindowed(env, s, i, s.cache);
    ApplyKeepsDistinct(env, s, i);
    if |log| < Capacity {
      HeldWithin(env, first.state, q, s.cache, e);
    } else if |log| == Capacity {
      NotLoggedAgain(env, first.state, q, s.cache, e);
      CacheIsWindow(env, first.state, q);
      assert Window(first.state.cache + log) == log;
      PeekAbsent(later.cache, e.id);
    }
  }
}
