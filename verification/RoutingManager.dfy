/** The objects behind the protocol: routing tables updated in place and the
    manager that sends every change to its registered channels. */
module RoutingManager {
  import opened Basics
  import opened Routing
  import opened RoutingProtocol

  class RoutingTables {
    var tables: map<Uuid, LpmTable>
    var default: Option<Uuid>

    function Value(): Tables
      reads this
    {
      Tables(tables, default)
    }

    constructor ()
      ensures Value() == NoTables
    {
      tables, default := map[], None;
    }

    constructor Clone(from: Tables)
      ensures Value() == from
    {
      tables, default := from.tables, from.default;
    }

    method AddTable(table: LpmTable)
      modifies this
      ensures Value() == Routing.AddTable(old(Value()), table)
    {
      tables := tables[table.id := table];
      if default.None? {
        default := Some(table.id);
      }
    }

    method SetDefault(id: Uuid)
      modifies `default
      ensures Value() == Routing.SetDefault(old(Value()), id)
    {
      if id in tables {
        default := Some(id);
      }
    }

    method RemoveTable(id: Uuid, pick: Uuid) returns (removed: Option<LpmTable>)
      modifies this
      ensures Value() == Routing.RemoveTable(old(Value()), id, pick)
      ensures removed == if id in old(tables) then Some(old(tables)[id]) else None
    {
      removed := if id in tables then Some(tables[id]) else None;
      tables := tables - {id};
      if default == Some(id) {
        default := NextKey(tables.Keys, pick);
      }
    }

    method Apply(u: RouteUpdate, pick: Uuid)
      modifies this
      ensures Value() == ApplyUpdate(u, old(Value()), pick)
    {
      match u {
        case CreateTable(id, name) =>
          AddTable(LpmTable(id, name, map[], map[]));
        case DeleteTable(id) =>
          var _ := RemoveTable(id, pick);
        case AddRoute(id, prefix, target) =>
          if id in tables {
            tables := tables[id := InsertRoute(tables[id], prefix, target)];
          }
        case RemoveRoute(id, prefix) =>
          if id in tables {
            tables := tables[id := DropRoute(tables[id], prefix)];
          }
        case SetDefaultTable(id) =>
          SetDefault(id);
      }
    }

    /** What the reactor loop does on a command. */
    method Do(c: ReactorCommand, pick: Uuid)
      modifies this
      ensures Value() == Obey(c, old(Value()), pick)
    {
      match c {
        case Shutdown =>
        case CmdCreateTable(id, name) =>
          AddTable(LpmTable(id, name, map[], map[]));
        case CmdDeleteTable(id) =>
          var _ := RemoveTable(id, pick);
        case CmdAddRoute(id, prefix, target) =>
          if id in tables {
            tables := tables[id := InsertRoute(tables[id], prefix, target)];
          }
        case CmdRemoveRoute(id, prefix) =>
          if id in tables {
            tables := tables[id := DropRoute(tables[id], prefix)];
          }
        case CmdSetDefaultTable(id) =>
          SetDefault(id);
      }
    }
  }

  /** An mpsc channel of either kind; sending fails once the receiver is gone. */
  class Channel {
    const commands: bool
    var queue: seq<Message>
    var open: bool

    constructor (commands: bool)
      ensures this.commands == commands && queue == [] && open
    {
      this.commands, queue, open := commands, [], true;
    }

    method Send(m: Message) returns (ok: bool)
      modifies `queue
      ensures ok == open
      ensures queue == Sent(old(queue), open, 1, m)
    {
      if open {
        queue := queue + [m];
      }
      return open;
    }
  }

  /** What a channel holds after `n` sends. */
  function Sent(queue: seq<Message>, open: bool, n: nat, m: Message): seq<Message> {
    if open then queue + Repeat(m, n) else queue
  }

  lemma SentNext(queue: seq<Message>, open: bool, n: nat, m: Message)
    ensures Sent(Sent(queue, open, n, m), open, 1, m) == Sent(queue, open, n + 1, m)
    ensures Sent(queue, open, 0, m) == queue
  {
  }

  /** How often a channel is among the first `n` senders. */
  function CountTo(senders: seq<Channel>, n: nat, ch: Channel): nat
    requires n <= |senders|
  {
    if n == 0 then 0 else CountTo(senders, n - 1, ch) + if senders[n - 1] == ch then 1 else 0
  }

  function Count(senders: seq<Channel>, ch: Channel): nat {
    CountTo(senders, |senders|, ch)
  }

  lemma {:induction false} CountedTo(senders: seq<Channel>, n: nat, ch: Channel)
    requires n <= |senders|
    ensures CountTo(senders, n, ch) > 0 <==> exists i :: 0 <= i < n && senders[i] == ch
  {
    if n > 0 {
      CountedTo(senders, n - 1, ch);
      assert senders[n - 1] in senders;
    }
  }

  lemma Counted(senders: seq<Channel>, ch: Channel)
    ensures Count(senders, ch) > 0 <==> ch in senders
  {
    CountedTo(senders, |senders|, ch);
  }

  lemma {:induction false} CountPrefix(a: seq<Channel>, b: seq<Channel>, n: nat, ch: Channel)
    requires n <= |a| && n <= |b| && forall i :: 0 <= i < n ==> a[i] == b[i]
    ensures CountTo(a, n, ch) == CountTo(b, n, ch)
  {
    if n > 0 {
      CountPrefix(a, b, n - 1, ch);
    }
  }

  lemma CountAppend(senders: seq<Channel>, more: Channel, ch: Channel)
    ensures Count(senders + [more], ch) == Count(senders, ch) + if more == ch then 1 else 0
  {
    CountPrefix(senders, senders + [more], |senders|, ch);
  }

  /** Of the first `n` senders those whose channel is open, in order. */
  function OpenTo(senders: seq<Channel>, n: nat): seq<Channel>
    requires n <= |senders|
    reads senders`open
  {
    if n == 0 then []
    else OpenTo(senders, n - 1) + if senders[n - 1].open then [senders[n - 1]] else []
  }

  function OpenOnes(senders: seq<Channel>): seq<Channel>
    reads senders`open
  {
    OpenTo(senders, |senders|)
  }

  lemma {:induction false} OpenToWereThere(senders: seq<Channel>, n: nat)
    requires n <= |senders|
    ensures forall ch :: ch in OpenTo(senders, n) ==> ch in senders
  {
    if n > 0 {
      OpenToWereThere(senders, n - 1);
    }
  }

  lemma {:induction false} OpenToCount(senders: seq<Channel>, n: nat, ch: Channel)
    requires n <= |senders|
    ensures Count(OpenTo(senders, n), ch) == if ch.open then CountTo(senders, n, ch) else 0
  {
    if n > 0 {
      OpenToCount(senders, n - 1, ch);
      CountAppend(OpenTo(senders, n - 1), senders[n - 1], ch);
      assert OpenTo(senders, n - 1) + [] == OpenTo(senders, n - 1);
    }
  }

  /** `senders.retain(|s| s.send(m).is_ok())`: a channel gets the message as often
      as its sender is listed. */
  method SendAll(senders: seq<Channel>, m: Message) returns (kept: seq<Channel>)
    modifies senders`queue
    ensures kept == OpenOnes(senders)
    ensures forall ch :: ch in senders ==> ch.queue == Sent(old(ch.queue), ch.open, Count(senders, ch), m)
  {
    kept := [];
    forall j | 0 <= j < |senders|
      ensures senders[j].queue == Sent(senders[j].queue, senders[j].open, CountTo(senders, 0, senders[j]), m)
    {
      SentNext(senders[j].queue, senders[j].open, 0, m);
    }
    hide Sent;
    for i := 0 to |senders|
      invariant kept == OpenTo(senders, i)
      invariant forall j :: 0 <= j < |senders| ==>
        senders[j].queue == Sent(old(senders[j].queue), senders[j].open, CountTo(senders, i, senders[j]), m)
    {
      SentNext(old(senders[i].queue), senders[i].open, CountTo(senders, i, senders[i]), m);
      var ok := senders[i].Send(m);
      if ok {
        kept := kept + [senders[i]];
      }
    }
  }

  class RoutingManager {
    const tables: RoutingTables
    var updateSenders: seq<Channel>
    var commandSenders: seq<Channel>

    ghost predicate Valid()
      reads this, tables
    {
      && (forall ch :: ch in updateSenders ==> !ch.commands)
      && (forall ch :: ch in commandSenders ==> ch.commands)
      && Consistent(tables.Value())
    }

    /** How often the manager holds the sender of a channel. */
    ghost function Held(ch: Channel): nat
      reads this
    {
      if ch.commands then Count(commandSenders, ch) else Count(updateSenders, ch)
    }

    constructor ()
      ensures Valid() && fresh(tables) && tables.Value() == NoTables
      ensures updateSenders == [] && commandSenders == []
    {
      tables := new RoutingTables();
      updateSenders, commandSenders := [], [];
    }

    /** The new reactor starts from a copy of the current tables. A sender that is
        held already is held once more. */
    method RegisterReactor(sender: Channel) returns (copy: RoutingTables)
      requires Valid() && !sender.commands
      modifies `updateSenders
      ensures Valid() && updateSenders == old(updateSenders) + [sender]
      ensures fresh(copy) && copy.Value() == tables.Value()
    {
      updateSenders := updateSenders + [sender];
      copy := new RoutingTables.Clone(tables.Value());
    }

    method RegisterCommandChannel(sender: Channel) returns (copy: RoutingTables)
      requires Valid() && sender.commands
      modifies `commandSenders
      ensures Valid() && commandSenders == old(commandSenders) + [sender]
      ensures fresh(copy) && copy.Value() == tables.Value()
    {
      commandSenders := commandSenders + [sender];
      copy := new RoutingTables.Clone(tables.Value());
    }

    method Broadcast(u: RouteUpdate)
      requires Valid()
      modifies `updateSenders, `commandSenders, updateSenders`queue, commandSenders`queue
      ensures Valid()
      ensures updateSenders == old(OpenOnes(updateSenders)) && commandSenders == old(OpenOnes(commandSenders))
      ensures forall ch :: ch in old(updateSenders) || ch in old(commandSenders) ==>
        ch.queue == Sent(old(ch.queue), ch.open, old(Held(ch)), Encode(ch.commands, u))
    {
      OpenToWereThere(updateSenders, |updateSenders|);
      OpenToWereThere(commandSenders, |commandSenders|);
      hide Consistent, OpenTo, Sent, CountTo;
      updateSenders := SendAll(updateSenders, Direct(u));
      commandSenders := SendAll(commandSenders, Wrapped(ToCommand(u)));
    }

    /** The five mutators: apply locally, then broadcast. A route for a missing
        table is refused and not sent. */
    method Mutate(u: RouteUpdate, pick: Uuid)
      requires Valid()
      modifies `updateSenders, `commandSenders, tables, updateSenders`queue, commandSenders`queue
      ensures Valid()
      ensures tables.Value() == if Refused(old(tables.Value()), u) then old(tables.Value())
                                else ApplyUpdate(u, old(tables.Value()), pick)
      ensures Refused(old(tables.Value()), u) ==>
        && updateSenders == old(updateSenders) && commandSenders == old(commandSenders)
        && (forall ch :: ch in updateSenders || ch in commandSenders ==> ch.queue == old(ch.queue))
      ensures !Refused(old(tables.Value()), u) ==>
        && updateSenders == old(OpenOnes(updateSenders)) && commandSenders == old(OpenOnes(commandSenders))
        && (forall ch :: ch in old(updateSenders) || ch in old(commandSenders) ==>
              ch.queue == Sent(old(ch.queue), ch.open, old(Held(ch)), Encode(ch.commands, u)))
    {
      if Refused(tables.Value(), u) {
        return;
      }
      hide OpenTo, Sent, Encode, CountTo, Consistent, ApplyUpdate;
      UpdateKeepsConsistent(u, tables.Value(), pick);
      tables.Apply(u, pick);
      Broadcast(u);
    }
  }

  // --------------------------------------------------- manager and reactors

  /** A reactor: the receiving end of its channel, and its copy of the tables. */
  class Reactor {
    const channel: Channel
    const local: RoutingTables

    constructor (channel: Channel, local: RoutingTables)
      ensures this.channel == channel && this.local == local
    {
      this.channel, this.local := channel, local;
    }

    ghost function View(times: nat): Peer
      reads channel, local
    {
      Peer(channel.commands, local.Value(), channel.queue, channel.open, times)
    }

    /** The receive loop takes one message, if there is one. */
    method ReceiveOne(pick: Uuid)
      modifies channel`queue, local
      ensures forall n ::
        View(n) == if old(View(n)).open && old(View(n)).pending != [] then Take(old(View(n)), pick) else old(View(n))
    {
      if channel.open && channel.queue != [] {
        var m := channel.queue[0];
        channel.queue := channel.queue[1..];
        match m {
          case Direct(u) => local.Apply(u, pick);
          case Wrapped(c) => local.Do(c, pick);
        }
      }
    }
  }
}
