/** The broadcast protocol: a manager owns the tables, every reactor folds the
    messages of its own FIFO channel into a local copy. */
module RoutingProtocol {
  import opened Basics
  import opened Routing

  datatype Message = Direct(update: RouteUpdate) | Wrapped(command: ReactorCommand)

  /** A registered reactor and its channel. `times` says how often the manager
      holds its sender; it forgets senders whose channel it finds closed. */
  datatype Peer = Peer(commands: bool, copy: Tables, pending: seq<Message>, open: bool, times: nat)

  datatype World = World(manager: Tables, peers: seq<Peer>)

  const Start := World(NoTables, [])

  /** `Again` registers another clone of a sender the manager has seen. */
  datatype Step =
    | Register(commands: bool)
    | Again(peer: nat)
    | Mutate(update: RouteUpdate, pick: Uuid)
    | Deliver(peer: nat, pick: Uuid)
    | Close(peer: nat)

  function Encode(commands: bool, u: RouteUpdate): Message {
    if commands then Wrapped(ToCommand(u)) else Direct(u)
  }

  function Receive(t: Tables, m: Message, pick: Uuid): Tables {
    match m
    case Direct(u) => ApplyUpdate(u, t, pick)
    case Wrapped(c) => Obey(c, t, pick)
  }

  function Repeat(m: Message, n: nat): seq<Message> {
    seq(n, _ => m)
  }

  /** `send` on every sender of one channel: a closed one fails and is dropped. */
  function Send(p: Peer, u: RouteUpdate): Peer {
    if p.open then p.(pending := p.pending + Repeat(Encode(p.commands, u), p.times))
    else p.(times := 0)
  }

  function Broadcast(peers: seq<Peer>, u: RouteUpdate): seq<Peer> {
    seq(|peers|, k requires 0 <= k < |peers| => Send(peers[k], u))
  }

  /** A route for a table the manager does not have. */
  predicate Refused(t: Tables, u: RouteUpdate) {
    u.AddRoute? && u.id !in t.tables
  }

  function Next(w: World, s: Step): World {
    match s
    case Register(commands) => w.(peers := w.peers + [Peer(commands, w.manager, [], true, 1)])
    case Again(k) =>
      if k >= |w.peers| then w else w.(peers := w.peers[k := w.peers[k].(times := w.peers[k].times + 1)])
    case Mutate(u, pick) =>
      if Refused(w.manager, u) then w else World(ApplyUpdate(u, w.manager, pick), Broadcast(w.peers, u))
    case Deliver(k, pick) =>
      if k >= |w.peers| || !w.peers[k].open || w.peers[k].pending == [] then w
      else w.(peers := w.peers[k := Take(w.peers[k], pick)])
    case Close(k) =>
      if k >= |w.peers| then w else w.(peers := w.peers[k := w.peers[k].(open := false)])
  }

  /** The reactor takes one message off its channel. */
  function Take(p: Peer, pick: Uuid): Peer
    requires p.pending != []
  {
    p.(copy := Receive(p.copy, p.pending[0], pick), pending := p.pending[1..])
  }

  function Run(steps: seq<Step>): World
    decreases |steps|
  {
    if steps == [] then Start else Next(Run(steps[..|steps| - 1]), steps[|steps| - 1])
  }

  // ------------------------------------------------------------- settling

  /** The copy after the pending messages, with the choices made on the way. */
  function Settle(t: Tables, pending: seq<Message>, picks: seq<Uuid>): Tables
    requires |picks| == |pending|
    decreases |pending|
  {
    if pending == [] then t
    else
      var n := |pending| - 1;
      Receive(Settle(t, pending[..n], picks[..n]), pending[n], picks[n])
  }

  lemma {:induction false} SettleAppend(t: Tables, a: seq<Message>, b: seq<Message>, p: seq<Uuid>, q: seq<Uuid>)
    requires |p| == |a| && |q| == |b|
    ensures Settle(t, a + b, p + q) == Settle(Settle(t, a, p), b, q)
    decreases |b|
  {
    hide Receive;
    if b == [] {
      assert a + b == a && p + q == p;
    } else {
      var n := |b| - 1;
      assert (a + b)[..|a| + n] == a + b[..n] && (p + q)[..|a| + n] == p + q[..n];
      SettleAppend(t, a, b[..n], p, q[..n]);
    }
  }

  lemma SettleOne(t: Tables, m: Message, pick: Uuid)
    ensures Settle(t, [m], [pick]) == Receive(t, m, pick)
  {
    assert [m][..0] == [] && [pick][..0] == [];
  }

  lemma SettleFirst(t: Tables, pending: seq<Message>, picks: seq<Uuid>)
    requires |picks| == |pending| > 0
    ensures Settle(t, pending, picks) == Settle(Receive(t, pending[0], picks[0]), pending[1..], picks[1..])
  {
    hide Receive;
    assert pending == [pending[0]] + pending[1..] && picks == [picks[0]] + picks[1..];
    SettleAppend(t, [pending[0]], pending[1..], [picks[0]], picks[1..]);
    SettleOne(t, pending[0], picks[0]);
  }

  /** Both channel kinds carry the same meaning. */
  lemma EncodingIsFaithful(commands: bool, u: RouteUpdate, t: Tables, pick: Uuid)
    ensures Receive(t, Encode(commands, u), pick) == ApplyUpdate(u, t, pick)
  {
  }

  /** However often a sender is registered, its reactor ends up the same. */
  lemma {:induction false} SettleRepeated(t: Tables, commands: bool, u: RouteUpdate, n: nat, picks: seq<Uuid>)
    requires Consistent(t) && |picks| == n > 0
    ensures Settle(t, Repeat(Encode(commands, u), n), picks) == ApplyUpdate(u, t, picks[0])
    decreases n
  {
    var m := Encode(commands, u);
    hide Receive, Encode, Consistent, ApplyUpdate;
    var q := Repeat(m, n);
    assert q[..n - 1] == Repeat(m, n - 1);
    if n == 1 {
      EncodingIsFaithful(commands, u, t, picks[0]);
    } else {
      SettleRepeated(t, commands, u, n - 1, picks[..n - 1]);
      EncodingIsFaithful(commands, u, ApplyUpdate(u, t, picks[0]), picks[n - 1]);
      UpdateTwice(u, t, picks[0], picks[n - 1]);
    }
  }

  lemma SettleSent(p: Peer, u: RouteUpdate, picks: seq<Uuid>)
    requires p.open && p.times > 0 && |picks| == |p.pending| + p.times
    requires Consistent(Settle(p.copy, p.pending, picks[..|p.pending|]))
    ensures |Send(p, u).pending| == |picks|
    ensures Settle(p.copy, Send(p, u).pending, picks)
            == ApplyUpdate(u, Settle(p.copy, p.pending, picks[..|p.pending|]), picks[|p.pending|])
  {
    hide Settle, Encode, Consistent, ApplyUpdate;
    var n := |p.pending|;
    assert picks == picks[..n] + picks[n..];
    SettleAppend(p.copy, p.pending, Repeat(Encode(p.commands, u), p.times), picks[..n], picks[n..]);
    SettleRepeated(Settle(p.copy, p.pending, picks[..n]), p.commands, u, p.times, picks[n..]);
  }

  // ---------------------------------------------------------------- settled

  /** Since peer `k` registered, or since the last moment at which the default
      was beyond doubt, the manager has made no ambiguous choice. */
  ghost predicate Settled(steps: seq<Step>, k: nat)
    decreases |steps|
  {
    if steps == [] then true
    else
      var before := steps[..|steps| - 1];
      var s := steps[|steps| - 1];
      var w := Run(before);
      if k >= |w.peers| then true
      else if !s.Mutate? then Settled(before, k)
      else StaysSettled(w.manager, s.update, Next(w, s).manager, Settled(before, k))
  }

  ghost predicate StaysSettled(before: Tables, u: RouteUpdate, after: Tables, settled: bool) {
    || |after.tables| <= 1
    || (u.SetDefaultTable? && u.id in before.tables)
    || (settled && !Ambiguous(u, before))
  }

  /** Delivering the pending messages, with whatever choices, ends in the
      manager's tables, and in its default too once that is settled. */
  ghost predicate InStep(manager: Tables, p: Peer, settled: bool, picks: seq<Uuid>)
    requires |picks| == |p.pending|
  {
    var end := Settle(p.copy, p.pending, picks);
    Consistent(end) && end.tables == manager.tables && (settled ==> end.default == manager.default)
  }

  ghost predicate PeerInStep(manager: Tables, p: Peer, settled: bool) {
    && Consistent(p.copy)
    && (p.open ==> p.times > 0)
    && (p.open ==> forall picks: seq<Uuid> | |picks| == |p.pending| :: InStep(manager, p, settled, picks))
  }

  lemma SameDefault(t: Tables, u: Tables)
    requires Consistent(t) && Consistent(u) && t.tables == u.tables && |t.tables| <= 1
    ensures t == u
  {
    if t.default.Some? {
      SubsetSize({t.default.value, u.default.value}, t.tables.Keys);
      assert |t.tables.Keys| == |t.tables|;
    }
  }

  /** One update keeps a settled copy in step, whatever either side chooses. */
  lemma UpdateInStep(u: RouteUpdate, end: Tables, manager: Tables, p: Uuid, q: Uuid, settled: bool)
    requires Consistent(end) && Consistent(manager) && end.tables == manager.tables
    requires settled ==> end.default == manager.default
    ensures var a, b := ApplyUpdate(u, end, p), ApplyUpdate(u, manager, q);
      && Consistent(a) && Consistent(b) && a.tables == b.tables
      && (StaysSettled(manager, u, b, settled) ==> a.default == b.default)
  {
    UpdateKeepsConsistent(u, end, p);
    UpdateKeepsConsistent(u, manager, q);
    TablesIgnoreDefault(u, end, manager, p, q);
    var a, b := ApplyUpdate(u, end, p), ApplyUpdate(u, manager, q);
    if |b.tables| <= 1 {
      SameDefault(a, b);
    } else if settled && !Ambiguous(u, manager) {
      assert end == manager;
      ChoiceFreeIff(u, manager);
    }
  }

  /** With at most one table there is no doubt about the default. */
  lemma FewTablesSettle(manager: Tables, p: Peer, settled: bool)
    requires Consistent(manager) && |manager.tables| <= 1 && PeerInStep(manager, p, settled)
    ensures PeerInStep(manager, p, true)
  {
    if p.open {
      forall picks: seq<Uuid> | |picks| == |p.pending| ensures InStep(manager, p, true, picks) {
        assert InStep(manager, p, settled, picks);
        SameDefault(Settle(p.copy, p.pending, picks), manager);
      }
    }
  }

  lemma SendInStep(manager: Tables, p: Peer, u: RouteUpdate, pick: Uuid, settled: bool)
    requires Consistent(manager) && PeerInStep(manager, p, settled)
    ensures var after := ApplyUpdate(u, manager, pick);
      PeerInStep(after, Send(p, u), StaysSettled(manager, u, after, settled))
  {
    hide Consistent, StaysSettled, ApplyUpdate, Settle, Repeat, Encode;
    var after, q := ApplyUpdate(u, manager, pick), Send(p, u);
    var now := StaysSettled(manager, u, after, settled);
    if p.open {
      forall picks: seq<Uuid> | |picks| == |q.pending| ensures InStep(after, q, now, picks) {
        var n := |p.pending|;
        RepeatSize(Encode(p.commands, u), p.times);
        assert InStep(manager, p, settled, picks[..n]);
        SettleSent(p, u, picks);
        UpdateInStep(u, Settle(p.copy, p.pending, picks[..n]), manager, picks[n], pick, settled);
      }
    }
  }

  lemma RepeatSize(m: Message, n: nat)
    ensures |Repeat(m, n)| == n
  {
  }

  lemma DeliverInStep(manager: Tables, p: Peer, pick: Uuid, settled: bool)
    requires PeerInStep(manager, p, settled) && p.open && p.pending != []
    requires Consistent(Receive(p.copy, p.pending[0], pick))
    ensures PeerInStep(manager, Take(p, pick), settled)
  {
    hide Consistent, Receive;
    var q := Take(p, pick);
    forall picks: seq<Uuid> | |picks| == |q.pending| ensures InStep(manager, q, settled, picks) {
      assert InStep(manager, p, settled, [pick] + picks);
      SettleFirst(p.copy, p.pending, [pick] + picks);
      assert ([pick] + picks)[1..] == picks;
    }
  }

  lemma ReceiveKeepsConsistent(t: Tables, m: Message, pick: Uuid)
    requires Consistent(t)
    ensures Consistent(Receive(t, m, pick))
  {
    match m
    case Direct(u) => UpdateKeepsConsistent(u, t, pick);
    case Wrapped(Shutdown) =>
    case Wrapped(CmdCreateTable(id, name)) => UpdateKeepsConsistent(CreateTable(id, name), t, pick);
    case Wrapped(CmdDeleteTable(id)) => UpdateKeepsConsistent(DeleteTable(id), t, pick);
    case Wrapped(CmdAddRoute(id, prefix, target)) => UpdateKeepsConsistent(AddRoute(id, prefix, target), t, pick);
    case Wrapped(CmdRemoveRoute(id, prefix)) => UpdateKeepsConsistent(RemoveRoute(id, prefix), t, pick);
    case Wrapped(CmdSetDefaultTable(id)) => UpdateKeepsConsistent(SetDefaultTable(id), t, pick);
  }

  lemma NextStaysInStep(w: World, s: Step, k: nat, settled: bool)
    requires Consistent(w.manager)
    requires k < |w.peers| ==> PeerInStep(w.manager, w.peers[k], settled)
    ensures Consistent(Next(w, s).manager)
    ensures k < |Next(w, s).peers| ==>
      PeerInStep(Next(w, s).manager, Next(w, s).peers[k],
        if k >= |w.peers| then true
        else if !s.Mutate? then settled
        else StaysSettled(w.manager, s.update, Next(w, s).manager, settled))
  {
    hide Consistent, ApplyUpdate, Receive;
    match s
    case Register(_) =>
    case Again(j) =>
      if j == k < |w.peers| && w.peers[k].open {
        var p := w.peers[k];
        forall picks: seq<Uuid> | |picks| == |p.pending|
          ensures InStep(w.manager, p.(times := p.times + 1), settled, picks)
        {
          assert InStep(w.manager, p, settled, picks);
        }
      }
    case Mutate(u, pick) =>
      UpdateKeepsConsistent(u, w.manager, pick);
      if k < |w.peers| {
        SendInStep(w.manager, w.peers[k], u, pick, settled);
        if |w.manager.tables| <= 1 { FewTablesSettle(w.manager, w.peers[k], settled); }
      }
    case Deliver(j, pick) =>
      if j == k < |w.peers| && w.peers[k].open && w.peers[k].pending != [] {
        ReceiveKeepsConsistent(w.peers[k].copy, w.peers[k].pending[0], pick);
        DeliverInStep(w.manager, w.peers[k], pick, settled);
      }
    case Close(_) =>
  }

  /** What every run of the protocol keeps, peer by peer. */
  lemma {:induction false} RunsStayInStep(steps: seq<Step>, k: nat)
    ensures Consistent(Run(steps).manager)
    ensures k < |Run(steps).peers| ==> PeerInStep(Run(steps).manager, Run(steps).peers[k], Settled(steps, k))
    decreases |steps|
  {
    if steps != [] {
      hide Next, PeerInStep, Consistent, StaysSettled;
      var before, s := steps[..|steps| - 1], steps[|steps| - 1];
      RunsStayInStep(before, k);
      NextStaysInStep(Run(before), s, k, Settled(before, k));
    }
  }

  /** A reactor that has drained its channel routes by the manager's tables. */
  lemma DrainedCopyIsCurrent(steps: seq<Step>, k: nat)
    requires var w := Run(steps); k < |w.peers| && w.peers[k].open && w.peers[k].pending == []
    ensures var w := Run(steps);
      w.peers[k].copy.tables == w.manager.tables && (Settled(steps, k) ==> w.peers[k].copy == w.manager)
  {
    RunsStayInStep(steps, k);
    assert InStep(Run(steps).manager, Run(steps).peers[k], Settled(steps, k), []);
  }
}
