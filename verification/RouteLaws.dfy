/** What updates mean for single routes: after any run of the protocol a route is
    the one that the last accepted update about it says, in the manager and in
    every reactor that has drained its channel. */
module RouteLaws {
  import opened Basics
  import opened Routing
  import opened RoutingProtocol

  function RouteAt(t: Tables, id: Uuid, prefix: IpPrefix): Option<RouteTarget> {
    if id !in t.tables then None
    else if prefix.V4? then
      if prefix.net in t.tables[id].ipv4 then Some(t.tables[id].ipv4[prefix.net]) else None
    else if prefix.net in t.tables[id].ipv6 then Some(t.tables[id].ipv6[prefix.net])
    else None
  }

  /** An update is about one route, or about all routes of the table that it creates
      or deletes. */
  predicate Concerns(u: RouteUpdate, id: Uuid, prefix: IpPrefix) {
    match u
    case CreateTable(i, _) => i == id
    case DeleteTable(i) => i == id
    case AddRoute(i, p, _) => i == id && p == prefix
    case RemoveRoute(i, p) => i == id && p == prefix
    case SetDefaultTable(_) => false
  }

  /** What it says about them: all but an added route are absent. */
  function Says(u: RouteUpdate): Option<RouteTarget> {
    if u.AddRoute? then Some(u.target) else None
  }

  /** A route is accepted for a table that exists; everything else always is. */
  predicate Lands(t: Tables, u: RouteUpdate) {
    u.AddRoute? ==> u.id in t.tables
  }

  lemma UpdateSetsRoute(u: RouteUpdate, t: Tables, pick: Uuid, id: Uuid, prefix: IpPrefix)
    requires Lands(t, u)
    ensures RouteAt(ApplyUpdate(u, t, pick), id, prefix)
            == if Concerns(u, id, prefix) then Says(u) else RouteAt(t, id, prefix)
  {
    hide NextKey;
  }

  predicate Creates(u: RouteUpdate, id: Uuid) {
    u.CreateTable? && u.id == id
  }

  predicate Deletes(u: RouteUpdate, id: Uuid) {
    u.DeleteTable? && u.id == id
  }

  /** Which tables there are and what they are called. */
  lemma UpdateSetsTable(u: RouteUpdate, t: Tables, pick: Uuid, id: Uuid)
    ensures var after := ApplyUpdate(u, t, pick);
      && (id in after.tables <==> Creates(u, id) || (id in t.tables && !Deletes(u, id)))
      && (id in after.tables ==>
            after.tables[id].name == if Creates(u, id) then u.name else t.tables[id].name)
  {
    hide NextKey;
  }

  /** After the default is deleted: any table that is left. */
  predicate Successor(next: Option<Uuid>, left: set<Uuid>, pick: Uuid) {
    match next
    case None => left == {}
    case Some(id) => id in left && (pick in left ==> id == pick)
  }

  /** Which table is the default: the one that was set, else the first one, else
      another one that is left when it is deleted. */
  lemma UpdateSetsDefault(u: RouteUpdate, t: Tables, pick: Uuid)
    requires Consistent(t)
    ensures var after := ApplyUpdate(u, t, pick).default;
      match u
      case SetDefaultTable(id) => after == if id in t.tables then Some(id) else t.default
      case CreateTable(id, _) => after == if t.tables.Keys == {} then Some(id) else t.default
      case DeleteTable(id) =>
        if t.default == Some(id) then Successor(after, t.tables.Keys - {id}, pick) else after == t.default
      case _ => after == t.default
  {
    if u.DeleteTable? {
      assert (t.tables - {u.id}).Keys == t.tables.Keys - {u.id};
    }
  }

  /** What a mutation means for every route of the manager. */
  lemma MutateSetsRoute(w: World, u: RouteUpdate, pick: Uuid, id: Uuid, prefix: IpPrefix)
    ensures RouteAt(Next(w, Mutate(u, pick)).manager, id, prefix)
            == if Lands(w.manager, u) && Concerns(u, id, prefix) then Says(u) else RouteAt(w.manager, id, prefix)
  {
    hide ApplyUpdate, Broadcast;
    if Lands(w.manager, u) { UpdateSetsRoute(u, w.manager, pick, id, prefix); }
  }

  // ------------------------------------------------------------------ over runs

  /** The updates that the manager has accepted along a run. */
  function Accepted(steps: seq<Step>): seq<RouteUpdate>
    decreases |steps|
  {
    if steps == [] then []
    else
      var before, s := steps[..|steps| - 1], steps[|steps| - 1];
      Accepted(before)
      + (if s.Mutate? && Lands(Run(before).manager, s.update) then [s.update] else [])
  }

  predicate Silent(log: seq<RouteUpdate>, from: nat, id: Uuid, prefix: IpPrefix) {
    forall i :: from <= i < |log| ==> !Concerns(log[i], id, prefix)
  }

  /** The route is the one of the last update about it, if there is any. */
  ghost predicate LastWord(log: seq<RouteUpdate>, id: Uuid, prefix: IpPrefix, route: Option<RouteTarget>) {
    && (Silent(log, 0, id, prefix) ==> route.None?)
    && (forall j :: 0 <= j < |log| && Concerns(log[j], id, prefix) && Silent(log, j + 1, id, prefix) ==>
          route == Says(log[j]))
  }

  lemma LastWordNext(log: seq<RouteUpdate>, u: RouteUpdate, id: Uuid, prefix: IpPrefix, route: Option<RouteTarget>)
    requires LastWord(log, id, prefix, route)
    ensures LastWord(log + [u], id, prefix, if Concerns(u, id, prefix) then Says(u) else route)
  {
    hide Concerns, Says;
    var longer := log + [u];
    assert longer[|log|] == u;
    assert forall i :: 0 <= i < |log| ==> longer[i] == log[i];
    if Concerns(u, id, prefix) {
      forall j | 0 <= j <= |log| ensures !Silent(longer, j, id, prefix) {
        assert Concerns(longer[|log|], id, prefix);
      }
    } else {
      forall j | 0 <= j <= |log| ensures Silent(longer, j, id, prefix) ==> Silent(log, j, id, prefix) {
        if Silent(longer, j, id, prefix) {
          assert forall i :: j <= i < |log| ==> longer[i] == log[i];
        }
      }
    }
  }

  lemma {:induction false} ManagerHasLastWord(steps: seq<Step>, id: Uuid, prefix: IpPrefix)
    ensures LastWord(Accepted(steps), id, prefix, RouteAt(Run(steps).manager, id, prefix))
    decreases |steps|
  {
    if steps != [] {
      hide LastWord, RouteAt, Broadcast, ApplyUpdate;
      var before, s := steps[..|steps| - 1], steps[|steps| - 1];
      ManagerHasLastWord(before, id, prefix);
      var t := Run(before).manager;
      if s.Mutate? && Lands(t, s.update) {
        UpdateSetsRoute(s.update, t, s.pick, id, prefix);
        LastWordNext(Accepted(before), s.update, id, prefix, RouteAt(t, id, prefix));
      } else {
        assert Accepted(before) + [] == Accepted(before);
      }
    } else {
      assert Accepted(steps) == [];
    }
  }

  /** The same holds of a reactor that has drained its channel. */
  lemma ReactorHasLastWord(steps: seq<Step>, k: nat, id: Uuid, prefix: IpPrefix)
    requires var w := Run(steps); k < |w.peers| && w.peers[k].open && w.peers[k].pending == []
    ensures LastWord(Accepted(steps), id, prefix, RouteAt(Run(steps).peers[k].copy, id, prefix))
  {
    hide LastWord, Run, Accepted;
    ManagerHasLastWord(steps, id, prefix);
    DrainedCopyIsCurrent(steps, k);
  }

  /** A step that neither sets a default nor deletes this table. */
  predicate Spares(s: Step, id: Uuid) {
    !(s.Mutate? && (s.update.SetDefaultTable? || Deletes(s.update, id)))
  }

  lemma RunNext(steps: seq<Step>, s: Step)
    ensures Run(steps + [s]) == Next(Run(steps), s)
  {
    assert (steps + [s])[..|steps|] == steps;
  }

  lemma SparedDefault(w: World, s: Step, id: Uuid)
    requires Consistent(w.manager) && w.manager.default == Some(id) && Spares(s, id)
    ensures Next(w, s).manager.default == Some(id)
  {
    hide ApplyUpdate, Broadcast;
    if s.Mutate? { UpdateSetsDefault(s.update, w.manager, s.pick); }
  }

  /** A default that was set stands until another is set or the table is deleted. */
  lemma {:induction false} DefaultStands(a: seq<Step>, id: Uuid, pick: Uuid, b: seq<Step>)
    requires id in Run(a).manager.tables && forall i :: 0 <= i < |b| ==> Spares(b[i], id)
    ensures Run(a + [Mutate(SetDefaultTable(id), pick)] + b).manager.default == Some(id)
    decreases |b|
  {
    hide Run, ApplyUpdate, Broadcast, Consistent, Spares, PeerInStep;
    var start := a + [Mutate(SetDefaultTable(id), pick)];
    if b == [] {
      assert start + b == start;
      RunNext(a, Mutate(SetDefaultTable(id), pick));
      RunsStayInStep(a, 0);
      UpdateSetsDefault(SetDefaultTable(id), Run(a).manager, pick);
    } else {
      var n := |b| - 1;
      DefaultStands(a, id, pick, b[..n]);
      assert start + b == start + b[..n] + [b[n]];
      RunNext(start + b[..n], b[n]);
      RunsStayInStep(start + b[..n], 0);
      hide Next;
      SparedDefault(Run(start + b[..n]), b[n], id);
    }
  }
}
