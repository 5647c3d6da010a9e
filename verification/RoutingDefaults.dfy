/** When every reactor ends up with the manager's default: exactly when the
    default is settled, judged over all choices the reactor's own hash maps could
    have made on the way. */
module RoutingDefaults {
  import opened Basics
  import opened Routing
  import opened RoutingProtocol

  /** The same run, except for the choices made by the reactor of peer `k`. */
  ghost predicate Alike(steps: seq<Step>, other: seq<Step>, k: nat) {
    && |steps| == |other|
    && forall i :: 0 <= i < |steps| ==>
         other[i] == steps[i] || (steps[i].Deliver? && other[i].Deliver? && steps[i].peer == other[i].peer == k)
  }

  ghost predicate AlikeWorlds(w: World, v: World, k: nat) {
    && v.manager == w.manager && |v.peers| == |w.peers|
    && forall j :: 0 <= j < |w.peers| ==>
         v.peers[j] == if j == k then w.peers[j].(copy := v.peers[j].copy) else w.peers[j]
  }

  lemma NextAlike(w: World, v: World, s: Step, r: Step, k: nat)
    requires AlikeWorlds(w, v, k)
    requires r == s || (s.Deliver? && r.Deliver? && s.peer == r.peer == k)
    ensures AlikeWorlds(Next(w, s), Next(v, r), k)
  {
    hide ApplyUpdate, Receive, Repeat, Encode;
  }

  lemma {:induction false} RunsAlike(steps: seq<Step>, other: seq<Step>, k: nat)
    requires Alike(steps, other, k)
    ensures AlikeWorlds(Run(steps), Run(other), k)
    ensures Settled(steps, k) == Settled(other, k)
    decreases |steps|
  {
    hide Next, AlikeWorlds, StaysSettled;
    if steps == [] {
      StartAlike(k);
    } else {
      var n := |steps| - 1;
      RunsAlike(steps[..n], other[..n], k);
      NextAlike(Run(steps[..n]), Run(other[..n]), steps[n], other[n], k);
      SameShape(Run(steps[..n]), Run(other[..n]), k);
      SameShape(Next(Run(steps[..n]), steps[n]), Next(Run(other[..n]), other[n]), k);
    }
  }

  lemma StartAlike(k: nat)
    ensures AlikeWorlds(Start, Start, k)
  {
  }

  lemma SameShape(w: World, v: World, k: nat)
    requires AlikeWorlds(w, v, k)
    ensures v.manager == w.manager && |v.peers| == |w.peers|
    ensures k < |w.peers| ==>
      && v.peers[k].pending == w.peers[k].pending && v.peers[k].open == w.peers[k].open
      && v.peers[k].times == w.peers[k].times
  {
  }

  // ------------------------------------------------------- possible defaults

  ghost predicate EndsWith(other: seq<Step>, k: nat, picks: seq<Uuid>, d: Uuid)
  {
    var w := Run(other);
    && k < |w.peers| && |picks| == |w.peers[k].pending|
    && Settle(w.peers[k].copy, w.peers[k].pending, picks).default == Some(d)
  }

  /** With other choices, the reactor drains to default `d`. */
  ghost predicate Possible(steps: seq<Step>, k: nat, d: Uuid) {
    exists other, picks :: Alike(steps, other, k) && EndsWith(other, k, picks, d)
  }

  lemma AlikeItself(steps: seq<Step>, k: nat)
    ensures Alike(steps, steps, k)
  {
  }

  lemma AlikeNext(steps: seq<Step>, other: seq<Step>, s: Step, r: Step, k: nat)
    requires Alike(steps, other, k)
    requires r == s || (s.Deliver? && r.Deliver? && s.peer == r.peer == k)
    ensures Alike(steps + [s], other + [r], k)
    ensures Run(steps + [s]) == Next(Run(steps), s) && Run(other + [r]) == Next(Run(other), r)
  {
    hide Next;
    assert (steps + [s])[..|steps|] == steps && (other + [r])[..|other|] == other;
  }

  /** Where the default is settled, the manager's is possible. */
  lemma SettledIsPossible(steps: seq<Step>, k: nat)
    requires k < |Run(steps).peers| && Run(steps).peers[k].open && Settled(steps, k)
    requires Run(steps).manager.default.Some?
    ensures Possible(steps, k, Run(steps).manager.default.value)
  {
    RunsStayInStep(steps, k);
    AlikeItself(steps, k);
    var p := Run(steps).peers[k];
    var picks := seq(|p.pending|, _ => "");
    assert InStep(Run(steps).manager, p, true, picks);
    assert EndsWith(steps, k, picks, Run(steps).manager.default.value);
  }

  /** Delivered messages, whichever way, and steps of others change nothing. */
  lemma PossibleStays(steps: seq<Step>, s: Step, k: nat, d: Uuid)
    requires k < |Run(steps).peers| && Run(steps).peers[k].open && Possible(steps, k, d)
    requires !s.Mutate? || Refused(Run(steps).manager, s.update)
    ensures Next(Run(steps), s).peers[k].open ==> Possible(steps + [s], k, d)
  {
    hide Alike, AlikeWorlds, Settled, Run, Receive, Settle, ApplyUpdate, Send;
    var other, picks :| Alike(steps, other, k) && EndsWith(other, k, picks, d);
    RunsAlike(steps, other, k);
    SameShape(Run(steps), Run(other), k);
    var p := Run(other).peers[k];
    if s.Deliver? && s.peer == k && p.pending != [] {
      var r := Deliver(k, picks[0]);
      AlikeNext(steps, other, s, r, k);
      SettleFirst(p.copy, p.pending, picks);
      assert EndsWith(other + [r], k, picks[1..], d);
    } else {
      AlikeNext(steps, other, s, s, k);
      assert EndsWith(other + [s], k, picks, d);
    }
  }

  /** After a broadcast every choice from every possible default is possible. */
  lemma PossibleMoves(steps: seq<Step>, u: RouteUpdate, pick: Uuid, k: nat, d: Uuid, q: Uuid, e: Uuid)
    requires k < |Run(steps).peers| && Run(steps).peers[k].open && Possible(steps, k, d)
    requires !Refused(Run(steps).manager, u)
    requires ApplyUpdate(u, Tables(Run(steps).manager.tables, Some(d)), q).default == Some(e)
    ensures Possible(steps + [Mutate(u, pick)], k, e)
  {
    hide Alike, AlikeWorlds, Settled, Run, Settle, ApplyUpdate, Consistent;
    var other, picks :| Alike(steps, other, k) && EndsWith(other, k, picks, d);
    RunsAlike(steps, other, k);
    SameShape(Run(steps), Run(other), k);
    RunsStayInStep(other, k);
    AlikeNext(steps, other, Mutate(u, pick), Mutate(u, pick), k);
    var p := Run(other).peers[k];
    assert InStep(Run(other).manager, p, Settled(other, k), picks);
    var more := picks + seq(p.times, _ => q);
    assert more[..|picks|] == picks;
    SettleSent(p, u, more);
    assert Settle(p.copy, p.pending, picks) == Tables(Run(steps).manager.tables, Some(d));
    assert EndsWith(other + [Mutate(u, pick)], k, more, e);
  }

  // ------------------------------------------------------------ the converse

  /** The manager's default is possible, and another one too if it is unsettled. */
  ghost predicate Doubtful(steps: seq<Step>, k: nat) {
    var d := Run(steps).manager.default;
    && (d.Some? ==> Possible(steps, k, d.value))
    && (!Settled(steps, k) ==> exists e :: d != Some(e) && Possible(steps, k, e) && e in Run(steps).manager.tables)
  }

  lemma AnotherKey(keys: set<Uuid>, d: Uuid) returns (e: Uuid)
    requires |keys| >= 2
    ensures e in keys && e != d
  {
    if keys - {d} == {} {
      SubsetSize(keys, {d});
    }
    e :| e in keys - {d};
  }

  /** An update that settles nothing leaves two possible defaults. */
  lemma MutateKeepsDoubt(steps: seq<Step>, u: RouteUpdate, pick: Uuid, k: nat)
    requires k < |Run(steps).peers| && Run(steps).peers[k].open && Doubtful(steps, k)
    requires !Refused(Run(steps).manager, u) && Consistent(Run(steps).manager)
    requires var m := Run(steps).manager;
      !StaysSettled(m, u, ApplyUpdate(u, m, pick), Settled(steps, k))
    ensures var after := ApplyUpdate(u, Run(steps).manager, pick);
      && after.default.Some? && Possible(steps + [Mutate(u, pick)], k, after.default.value)
      && exists e :: after.default != Some(e) && e in after.tables && Possible(steps + [Mutate(u, pick)], k, e)
  {
    var m := Run(steps).manager;
    var after := ApplyUpdate(u, m, pick);
    hide Possible, Settled, Run;
    UpdateKeepsConsistent(u, m, pick);
    assert m.default.Some?;
    var d := m.default.value;
    assert m == Tables(m.tables, Some(d));
    PossibleMoves(steps, u, pick, k, d, pick, after.default.value);
    assert |after.tables.Keys| == |after.tables|;
    if Ambiguous(u, m) {
      var e := AnotherKey(after.tables.Keys, after.default.value);
      PossibleMoves(steps, u, pick, k, d, e, e);
    } else {
      var e :| m.default != Some(e) && Possible(steps, k, e) && e in m.tables;
      assert after.default == m.default;
      if u == DeleteTable(e) {
        var f := AnotherKey(after.tables.Keys, d);
        PossibleMoves(steps, u, pick, k, e, f, f);
      } else {
        PossibleMoves(steps, u, pick, k, e, pick, e);
      }
    }
  }

  lemma OtherStepKeepsDoubt(steps: seq<Step>, s: Step, k: nat)
    requires k < |Run(steps).peers| && Run(steps).peers[k].open && Doubtful(steps, k)
    requires !s.Mutate? || Refused(Run(steps).manager, s.update)
    requires Next(Run(steps), s).peers[k].open && Run(steps + [s]) == Next(Run(steps), s)
    requires !Settled(steps + [s], k) ==> !Settled(steps, k)
    ensures Doubtful(steps + [s], k)
  {
    hide Possible, Settled, Run;
    var d := Run(steps).manager.default;
    if d.Some? { PossibleStays(steps, s, k, d.value); }
    if !Settled(steps, k) {
      var e :| d != Some(e) && Possible(steps, k, e) && e in Run(steps).manager.tables;
      PossibleStays(steps, s, k, e);
    }
  }

  lemma {:induction false} RunsStayDoubtful(steps: seq<Step>, k: nat)
    requires k < |Run(steps).peers| && Run(steps).peers[k].open
    ensures Doubtful(steps, k)
    decreases |steps|
  {
    if Settled(steps, k) {
      if Run(steps).manager.default.Some? { SettledIsPossible(steps, k); }
    } else {
      var n := |steps| - 1;
      var before, s := steps[..n], steps[n];
      assert steps == before + [s];
      OpenBefore(Run(before), s, k);
      RunsStayDoubtful(before, k);
      RunsStayInStep(before, k);
      hide Possible;
      if s.Mutate? && !Refused(Run(before).manager, s.update) {
        MutateKeepsDoubt(before, s.update, s.pick, k);
      } else {
        OtherStepKeepsDoubt(before, s, k);
      }
    }
  }

  lemma OpenBefore(w: World, s: Step, k: nat)
    requires k < |w.peers| && k < |Next(w, s).peers| && Next(w, s).peers[k].open
    ensures w.peers[k].open
  {
    hide ApplyUpdate, Receive;
  }

  /** The reactor of an open channel drains to the manager's default whatever
      choices its hash maps make, if and only if the default is settled. */
  lemma DefaultsAgreeIff(steps: seq<Step>, k: nat)
    requires k < |Run(steps).peers| && Run(steps).peers[k].open
    ensures (forall d :: Possible(steps, k, d) ==> Run(steps).manager.default == Some(d)) <==> Settled(steps, k)
  {
    if Settled(steps, k) {
      forall d | Possible(steps, k, d) ensures Run(steps).manager.default == Some(d) {
        var other, picks :| Alike(steps, other, k) && EndsWith(other, k, picks, d);
        RunsAlike(steps, other, k);
        SameShape(Run(steps), Run(other), k);
        RunsStayInStep(other, k);
        assert InStep(Run(other).manager, Run(other).peers[k], true, picks);
      }
    } else {
      RunsStayDoubtful(steps, k);
    }
  }
}
