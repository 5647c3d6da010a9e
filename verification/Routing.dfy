/** Routing tables and the updates broadcast for them (mvirt-net/src/routing.rs).
    The prefix trie of one table is a plain map from prefix to target. */
module Routing {
  import opened Basics

  type Uuid = string

  datatype Net = Net(address: nat, length: nat)

  datatype IpPrefix = V4(net: Net) | V6(net: Net)

  datatype RouteTarget =
    | Reactor(id: nat) | Vhost(uuid: Uuid) | Tun(ifIndex: nat)
    | Custom(targetType: nat, data: seq<nat>) | Drop

  datatype LpmTable = LpmTable(id: Uuid, name: string, ipv4: map<Net, RouteTarget>, ipv6: map<Net, RouteTarget>)

  datatype Tables = Tables(tables: map<Uuid, LpmTable>, default: Option<Uuid>)

  const NoTables := Tables(map[], None)

  datatype RouteUpdate =
    | CreateTable(id: Uuid, name: string)
    | DeleteTable(id: Uuid)
    | AddRoute(id: Uuid, prefix: IpPrefix, target: RouteTarget)
    | RemoveRoute(id: Uuid, prefix: IpPrefix)
    | SetDefaultTable(id: Uuid)

  // ------------------------------------------------------------- operations

  /** `keys().next()` of a hash map: any key may come first, so the choice is a
      parameter. A choice that is not a key stands for the first one in order. */
  function NextKey(keys: set<Uuid>, pick: Uuid): (k: Option<Uuid>)
    ensures k.None? <==> keys == {}
    ensures k.Some? ==> k.value in keys
    ensures pick in keys ==> k == Some(pick)
  {
    if pick in keys then Some(pick) else FirstKey(keys)
  }

  function AddTable(t: Tables, table: LpmTable): Tables {
    Tables(t.tables[table.id := table], if t.default.None? then Some(table.id) else t.default)
  }

  function SetDefault(t: Tables, id: Uuid): Tables {
    if id in t.tables then t.(default := Some(id)) else t
  }

  function RemoveTable(t: Tables, id: Uuid, pick: Uuid): Tables {
    var rest := t.tables - {id};
    Tables(rest, if t.default == Some(id) then NextKey(rest.Keys, pick) else t.default)
  }

  function InsertRoute(table: LpmTable, prefix: IpPrefix, target: RouteTarget): LpmTable {
    match prefix
    case V4(net) => table.(ipv4 := table.ipv4[net := target])
    case V6(net) => table.(ipv6 := table.ipv6[net := target])
  }

  function DropRoute(table: LpmTable, prefix: IpPrefix): LpmTable {
    match prefix
    case V4(net) => table.(ipv4 := table.ipv4 - {net})
    case V6(net) => table.(ipv6 := table.ipv6 - {net})
  }

  /** `RouteUpdate::apply`. */
  function ApplyUpdate(u: RouteUpdate, t: Tables, pick: Uuid): Tables {
    match u
    case CreateTable(id, name) => AddTable(t, LpmTable(id, name, map[], map[]))
    case DeleteTable(id) => RemoveTable(t, id, pick)
    case AddRoute(id, prefix, target) =>
      if id in t.tables then t.(tables := t.tables[id := InsertRoute(t.tables[id], prefix, target)]) else t
    case RemoveRoute(id, prefix) =>
      if id in t.tables then t.(tables := t.tables[id := DropRoute(t.tables[id], prefix)]) else t
    case SetDefaultTable(id) => SetDefault(t, id)
  }

  /** The default is set exactly when there is a table, and then names one. */
  ghost predicate Consistent(t: Tables) {
    && (t.default.None? <==> t.tables.Keys == {})
    && (t.default.Some? ==> t.default.value in t.tables)
    && (forall k :: k in t.tables ==> t.tables[k].id == k)
  }

  lemma UpdateKeepsConsistent(u: RouteUpdate, t: Tables, pick: Uuid)
    requires Consistent(t)
    ensures Consistent(ApplyUpdate(u, t, pick))
  {
    var after := ApplyUpdate(u, t, pick);
    if u.DeleteTable? && t.default.Some? && t.default != Some(u.id) {
      assert t.default.value in after.tables.Keys;
    } else if u.CreateTable? || u.id in after.tables {
      assert u.id in after.tables.Keys;
    }
  }

  /** The table map never depends on the default or on the choice of a new one. */
  lemma TablesIgnoreDefault(u: RouteUpdate, a: Tables, b: Tables, p: Uuid, q: Uuid)
    requires a.tables == b.tables
    ensures ApplyUpdate(u, a, p).tables == ApplyUpdate(u, b, q).tables
  {
  }

  /** An update that arrives twice in a row does nothing the second time. */
  lemma UpdateTwice(u: RouteUpdate, t: Tables, p: Uuid, q: Uuid)
    requires Consistent(t)
    ensures ApplyUpdate(u, ApplyUpdate(u, t, p), q) == ApplyUpdate(u, t, p)
  {
    var once := ApplyUpdate(u, t, p);
    match u
    case CreateTable(id, name) => assert once.tables[id := LpmTable(id, name, map[], map[])] == once.tables;
    case DeleteTable(id) => assert once.tables - {id} == once.tables;
    case AddRoute(id, prefix, target) => if id in t.tables { InsertTwice(t.tables[id], prefix, target); }
    case RemoveRoute(id, prefix) => if id in t.tables { DropTwice(t.tables[id], prefix); }
    case SetDefaultTable(id) =>
  }

  lemma InsertTwice(table: LpmTable, prefix: IpPrefix, target: RouteTarget)
    ensures InsertRoute(InsertRoute(table, prefix, target), prefix, target) == InsertRoute(table, prefix, target)
  {
  }

  lemma DropTwice(table: LpmTable, prefix: IpPrefix)
    ensures DropRoute(DropRoute(table, prefix), prefix) == DropRoute(table, prefix)
  {
    assert table.ipv4 - {prefix.net} - {prefix.net} == table.ipv4 - {prefix.net};
    assert table.ipv6 - {prefix.net} - {prefix.net} == table.ipv6 - {prefix.net};
  }

  // ------------------------------------------------- the choice of a default

  /** Deletes the default while two or more tables stay. */
  predicate Ambiguous(u: RouteUpdate, t: Tables) {
    u.DeleteTable? && t.default == Some(u.id) && |t.tables - {u.id}| >= 2
  }

  ghost predicate ChoiceFree(u: RouteUpdate, t: Tables) {
    forall p, q :: ApplyUpdate(u, t, p) == ApplyUpdate(u, t, q)
  }

  lemma SingleKey(keys: set<Uuid>, p: Uuid, q: Uuid)
    requires |keys| <= 1
    ensures NextKey(keys, p) == NextKey(keys, q)
  {
    if keys != {} {
      var a, b := NextKey(keys, p).value, NextKey(keys, q).value;
      SubsetSize({a, b}, keys);
    }
  }

  /** An update has one outcome exactly when it is not ambiguous. */
  lemma ChoiceFreeIff(u: RouteUpdate, t: Tables)
    ensures ChoiceFree(u, t) <==> !Ambiguous(u, t)
  {
    if Ambiguous(u, t) {
      var rest := (t.tables - {u.id}).Keys;
      assert |rest| == |t.tables - {u.id}|;
      var p :| p in rest;
      assert rest == {p} + (rest - {p});
      var q :| q in rest - {p};
      assert ApplyUpdate(u, t, p) != ApplyUpdate(u, t, q);
    } else if u.DeleteTable? && t.default == Some(u.id) {
      forall p, q ensures ApplyUpdate(u, t, p) == ApplyUpdate(u, t, q) {
        assert |(t.tables - {u.id}).Keys| == |t.tables - {u.id}|;
        SingleKey((t.tables - {u.id}).Keys, p, q);
      }
    }
  }

  // ------------------------------------------------------- command channels

  datatype ReactorCommand =
    | Shutdown
    | CmdCreateTable(id: Uuid, name: string)
    | CmdDeleteTable(id: Uuid)
    | CmdAddRoute(id: Uuid, prefix: IpPrefix, target: RouteTarget)
    | CmdRemoveRoute(id: Uuid, prefix: IpPrefix)
    | CmdSetDefaultTable(id: Uuid)

  /** `route_update_to_command`. */
  function ToCommand(u: RouteUpdate): ReactorCommand {
    match u
    case CreateTable(id, name) => CmdCreateTable(id, name)
    case DeleteTable(id) => CmdDeleteTable(id)
    case AddRoute(id, prefix, target) => CmdAddRoute(id, prefix, target)
    case RemoveRoute(id, prefix) => CmdRemoveRoute(id, prefix)
    case SetDefaultTable(id) => CmdSetDefaultTable(id)
  }

  /** What the reactor loop does to its tables on a command. */
  function Obey(c: ReactorCommand, t: Tables, pick: Uuid): Tables {
    match c
    case Shutdown => t
    case CmdCreateTable(id, name) => AddTable(t, LpmTable(id, name, map[], map[]))
    case CmdDeleteTable(id) => RemoveTable(t, id, pick)
    case CmdAddRoute(id, prefix, target) =>
      if id !in t.tables then t
      else t.(tables := t.tables[id := InsertRoute(t.tables[id], prefix, target)])
    case CmdRemoveRoute(id, prefix) =>
      if id !in t.tables then t
      else t.(tables := t.tables[id := DropRoute(t.tables[id], prefix)])
    case CmdSetDefaultTable(id) => SetDefault(t, id)
  }
}
