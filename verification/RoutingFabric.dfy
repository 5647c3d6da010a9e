/** A manager with its reactors as objects in one heap. Every operation is a step
    of the protocol, so what every run of the protocol keeps holds of the objects. */
module RoutingFabric {
  import opened Basics
  import opened Routing
  import opened RoutingProtocol
  import opened RoutingManager

  lemma RunNext(steps: seq<Step>, s: Step)
    ensures Run(steps + [s]) == Next(Run(steps), s)
  {
    assert (steps + [s])[..|steps|] == steps;
  }

  lemma NothingSent(queue: seq<Message>, open: bool, m: Message)
    ensures Sent(queue, open, 0, m) == queue && queue + Repeat(m, 0) == queue
  {
  }

  class Fabric {
    const manager: RoutingManager
    var reactors: seq<Reactor>
    ghost var steps: seq<Step>

    /** Reactors share neither channels nor tables. */
    ghost predicate Apart()
      reads this
    {
      && (forall i :: 0 <= i < |reactors| ==> reactors[i].local != manager.tables)
      && (forall i, j :: 0 <= i < j < |reactors| ==>
            reactors[i].channel != reactors[j].channel && reactors[i].local != reactors[j].local)
    }

    ghost function Objects(): set<object>
      reads this
    {
      {manager, manager.tables}
      + (set r | r in reactors :: r.channel) + (set r | r in reactors :: r.local)
    }

    ghost function PeerAt(k: nat): Peer
      requires k < |reactors|
      reads this, Objects()
    {
      reactors[k].View(manager.Held(reactors[k].channel))
    }

    ghost predicate Shows(w: World)
      reads this, Objects()
    {
      && w.manager == manager.tables.Value() && |w.peers| == |reactors|
      && forall k :: 0 <= k < |reactors| ==> w.peers[k] == PeerAt(k)
    }

    /** The objects are in a state the protocol can reach. */
    ghost predicate Valid()
      reads this, Objects()
    {
      && Apart() && manager.Valid()
      && Shows(Run(steps))
    }

    constructor ()
      ensures Valid() && fresh(manager) && fresh(manager.tables) && reactors == []
    {
      manager := new RoutingManager();
      reactors, steps := [], [];
    }

    /** A new reactor, with a channel of its own and a copy of the tables. */
    method Join(commands: bool)
      requires Valid()
      modifies `reactors, `steps, manager
      ensures Valid() && steps == old(steps) + [Register(commands)]
      ensures |reactors| == |old(reactors)| + 1 && reactors[..|old(reactors)|] == old(reactors)
    {
      hide Run, CountTo, Consistent;
      var channel := new Channel(commands);
      var copy;
      if commands {
        copy := manager.RegisterCommandChannel(channel);
      } else {
        copy := manager.RegisterReactor(channel);
      }
      var reactor := new Reactor(channel, copy);
      ghost var held := old(if commands then manager.commandSenders else manager.updateSenders);
      CountAppend(held, channel, channel);
      Counted(held, channel);
      forall k | 0 <= k < |reactors|
        ensures manager.Held(reactors[k].channel) == old(manager.Held(reactors[k].channel))
      {
        CountAppend(held, channel, reactors[k].channel);
      }
      reactors := reactors + [reactor];
      steps := steps + [Register(commands)];
      RunNext(old(steps), Register(commands));
    }

    /** A clone of a known sender is registered; the extra copy is not used. */
    method JoinAgain(k: nat)
      requires Valid() && k < |reactors|
      modifies `steps, manager
      ensures Valid() && steps == old(steps) + [Again(k)]
    {
      hide Run, CountTo, Consistent;
      var channel := reactors[k].channel;
      if channel.commands {
        var _ := manager.RegisterCommandChannel(channel);
      } else {
        var _ := manager.RegisterReactor(channel);
      }
      forall j | 0 <= j < |reactors|
        ensures manager.Held(reactors[j].channel) == old(manager.Held(reactors[j].channel)) + if j == k then 1 else 0
      {
        CountAppend(old(manager.commandSenders), channel, reactors[j].channel);
        CountAppend(old(manager.updateSenders), channel, reactors[j].channel);
      }
      steps := steps + [Again(k)];
      RunNext(old(steps), Again(k));
    }

    method Mutate(u: RouteUpdate, pick: Uuid)
      requires Valid()
      modifies `steps, manager, manager.tables, manager.updateSenders`queue, manager.commandSenders`queue
      ensures Valid() && steps == old(steps) + [RoutingProtocol.Mutate(u, pick)]
    {
      hide Run, CountTo, OpenTo, Consistent, ApplyUpdate, Encode, Repeat;
      ghost var refused := Refused(manager.tables.Value(), u);
      manager.Mutate(u, pick);
      if !refused {
        forall k | 0 <= k < |reactors| ensures PeerAt(k) == Send(old(PeerAt(k)), u) {
          ghost var ch := reactors[k].channel;
          OpenToCount(old(manager.updateSenders), |old(manager.updateSenders)|, ch);
          OpenToCount(old(manager.commandSenders), |old(manager.commandSenders)|, ch);
          Counted(old(manager.updateSenders), ch);
          Counted(old(manager.commandSenders), ch);
          NothingSent(old(ch.queue), ch.open, Encode(ch.commands, u));
        }
      }
      steps := steps + [RoutingProtocol.Mutate(u, pick)];
      RunNext(old(steps), RoutingProtocol.Mutate(u, pick));
    }

    method Deliver(k: nat, pick: Uuid)
      requires Valid() && k < |reactors|
      modifies `steps, reactors[k].channel`queue, reactors[k].local
      ensures Valid() && steps == old(steps) + [RoutingProtocol.Deliver(k, pick)]
    {
      hide Run, CountTo, Consistent, Receive;
      reactors[k].ReceiveOne(pick);
      steps := steps + [RoutingProtocol.Deliver(k, pick)];
      RunNext(old(steps), RoutingProtocol.Deliver(k, pick));
    }

    /** The reactor goes away; the manager notices at the next broadcast. */
    method Close(k: nat)
      requires Valid() && k < |reactors|
      modifies `steps, reactors[k].channel`open
      ensures Valid() && steps == old(steps) + [RoutingProtocol.Close(k)]
    {
      hide Run, CountTo, Consistent;
      reactors[k].channel.open := false;
      steps := steps + [RoutingProtocol.Close(k)];
      RunNext(old(steps), RoutingProtocol.Close(k));
    }

    /** What holds of a reactor in a reachable state. */
    lemma InStepWithManager(k: nat)
      requires Valid() && k < |reactors| && reactors[k].channel.open
      ensures forall picks: seq<Uuid> | |picks| == |reactors[k].channel.queue| ::
        InStep(manager.tables.Value(), PeerAt(k), Settled(steps, k), picks)
      ensures reactors[k].channel.queue == [] ==> reactors[k].local.tables == manager.tables.tables
    {
      RunsStayInStep(steps, k);
      if reactors[k].channel.queue == [] {
        DrainedCopyIsCurrent(steps, k);
      }
    }
  }
}
