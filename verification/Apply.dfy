// Apply: the kernel's routing tables, the Gateway cache, and the writing of
// one WAN's default routes into a Group's table.
module Apply {
  import opened Basics
  import opened Config

  // A default route out of an interface; no Gateway means scope link.
  datatype Route = Route(ifindex: int, gateway: Option<Address>)

  // One table: at most one default per Family.
  type Table = map<Family, Route>

  type Tables = map<int, Table>

  function TableOf(routes: Tables, table: int): Table {
    if table in routes then routes[table] else map[]
  }

  // An entry that holds None is a scope-link default.
  type Gateways = map<(string, Family), Option<Address>>

  // The exact route a WAN calls for, None while its Gateway is unknown.
  function RouteFor(wan: WanConfig, gws: Gateways, indexOf: string -> int, f: Family): Option<Route> {
    if wan.pointToPoint then Some(Route(indexOf(wan.iface), None))
    else if (wan.iface, f) in gws && gws[(wan.iface, f)].Some?
    then Some(Route(indexOf(wan.iface), gws[(wan.iface, f)]))
    else None
  }

  // An explicit Family list limits the write; an empty one means every probed Family.
  predicate InScope(wan: WanConfig, families: seq<Family>, f: Family) {
    wan.Probes(f) && (families == [] || f in families)
  }

  predicate Holds(t: Table, f: Family, r: Option<Route>) {
    r.Some? ==> f in t && t[f] == r.value
  }

  predicate SameSlot(t: Table, t': Table, f: Family) {
    (f in t <==> f in t') && (f in t ==> t[f] == t'[f])
  }

  // What an Apply may have done to its table: slots out of scope or without a
  // Gateway are untouched; success leaves the exact route in every other;
  // failure promises nothing about those.
  ghost predicate Applied(wans: map<string, WanConfig>, gws: Gateways, indexOf: string -> int,
                          selection: string, families: seq<Family>, t: Table, t': Table, ok: bool)
  {
    if selection in wans then
      forall f: Family :: SlotWritten(wans[selection], gws, indexOf, InScope(wans[selection], families, f), f, t, t', ok)
    else
      !ok && t' == t
  }

  // The same, part way: the listed Families have been tried.
  ghost predicate Written(wan: WanConfig, gws: Gateways, indexOf: string -> int, tried: seq<Family>,
                          t: Table, t': Table, ok: bool)
  {
    forall f: Family :: SlotWritten(wan, gws, indexOf, wan.Probes(f) && f in tried, f, t, t', ok)
  }

  // One slot: written if due and its route is known, else untouched.
  ghost predicate SlotWritten(wan: WanConfig, gws: Gateways, indexOf: string -> int, due: bool, f: Family,
                              t: Table, t': Table, ok: bool)
  {
    var route := RouteFor(wan, gws, indexOf, f);
    if due && route.Some? then ok ==> Holds(t', f, route) else SameSlot(t, t', f)
  }

  ghost predicate OneWritten(wan: WanConfig, gws: Gateways, indexOf: string -> int, f: Family, t: Table, t': Table, ok: bool) {
    && (forall g: Family :: g != f ==> SameSlot(t, t', g))
    && SlotWritten(wan, gws, indexOf, true, f, t, t', ok)
  }

  // What an Apply did to one Family's slot, spelled out: nothing if the WAN does
  // not probe the Family, the list leaves it out, or its Gateway is needed and
  // unknown; else on success the scope-link route of a point-to-point WAN, or
  // the route through the Gateway.
  lemma AppliedInFull(wans: map<string, WanConfig>, gws: Gateways, indexOf: string -> int,
                      selection: string, families: seq<Family>, t: Table, t': Table, ok: bool, f: Family)
    requires Applied(wans, gws, indexOf, selection, families, t, t', ok) && selection in wans
    ensures var wan := wans[selection];
            var targets, known := if f == V4 then wan.targetsV4 else wan.targetsV6, (wan.iface, f) in gws && gws[(wan.iface, f)] != None;
            if targets == [] || (families != [] && f !in families) || (!wan.pointToPoint && !known)
            then (f in t <==> f in t') && (f in t ==> t[f] == t'[f])
            else ok ==> f in t' && t'[f] == Route(indexOf(wan.iface), if wan.pointToPoint then None else gws[(wan.iface, f)])
  {
    assert SlotWritten(wans[selection], gws, indexOf, InScope(wans[selection], families, f), f, t, t', ok);
  }

  lemma WrittenNext(wan: WanConfig, gws: Gateways, indexOf: string -> int, tried: seq<Family>, f: Family,
                    t0: Table, t: Table, t': Table, ok: bool, next: bool)
    requires wan.Probes(f)
    requires Written(wan, gws, indexOf, tried, t0, t, ok)
    requires OneWritten(wan, gws, indexOf, f, t, t', next)
    ensures Written(wan, gws, indexOf, tried + [f], t0, t', ok && next)
  {
    forall g: Family ensures SlotWritten(wan, gws, indexOf, wan.Probes(g) && g in tried + [f], g, t0, t', ok && next) {
      assert SlotWritten(wan, gws, indexOf, wan.Probes(g) && g in tried, g, t0, t, ok);
      assert g != f ==> SameSlot(t, t', g);
    }
  }

  // Trying its Families leaves those whose Gateway is unknown alone.
  lemma UnknownLeft(wan: WanConfig, gws: Gateways, indexOf: string -> int, tried: seq<Family>,
                    t: Table, t': Table, ok: bool, f: Family)
    requires Written(wan, gws, indexOf, tried, t, t', ok)
    requires !wan.pointToPoint && ((wan.iface, f) !in gws || gws[(wan.iface, f)] == None)
    ensures SameSlot(t, t', f)
  {
    assert SlotWritten(wan, gws, indexOf, wan.Probes(f) && f in tried, f, t, t', ok);
  }

  // A record of what was asked for, Group by Group.
  type Log<T> = map<string, seq<T>>

  function LogOf<T>(log: Log<T>, g: string): seq<T> {
    if g in log then log[g] else []
  }

  // The kernel. Any lookup or write may fail unless it is reliable; a failed
  // write may leave anything in its own slot.
  class Kernel {
    const indexOf: string -> int
    var reliable: bool
    var routes: Tables
    // The WANs whose conntrack entries each Group asked to flush.
    var flushes: Log<string>

    constructor (indexOf: string -> int)
      ensures this.indexOf == indexOf && routes == map[] && flushes == map[] && !reliable
    {
      this.indexOf := indexOf;
      reliable, routes, flushes := false, map[], map[];
    }

    method IfIndex(iface: string) returns (index: Option<int>)
      ensures index.Some? ==> index.value == indexOf(iface)
      ensures reliable ==> index.Some?
    {
      index := Some(indexOf(iface));
      if !reliable {
        if * {
          index := None;
        }
      }
    }

    method WriteRoute(table: int, f: Family, r: Route) returns (ok: bool)
      modifies this`routes
      ensures reliable ==> ok
      ensures forall t :: t != table ==> TableOf(routes, t) == old(TableOf(routes, t))
      ensures forall g: Family :: g != f ==> SameSlot(old(TableOf(routes, table)), TableOf(routes, table), g)
      ensures ok ==> Holds(TableOf(routes, table), f, Some(r))
    {
      ok := true;
      var left: Option<Route> := Some(r);
      if !reliable {
        if * {
          ok, left := false, *;
        }
      }
      var was := TableOf(routes, table);
      routes := routes[table := match left
                                case Some(route) => was[f := route]
                                case None => was - {f}];
    }

    // Best effort: the request is on record, whatever becomes of it.
    method FlushConntrack(g: string, wan: string)
      modifies this`flushes
      ensures flushes == old(flushes)[g := LogOf(old(flushes), g) + [wan]]
    {
      flushes := flushes[g := LogOf(flushes, g) + [wan]];
    }
  }

  // The kernel's main-table defaults, as last observed.
  class GatewayCache {
    var entries: Gateways

    constructor ()
      ensures entries == map[]
    {
      entries := map[];
    }

    method Set(iface: string, f: Family, gw: Option<Address>)
      modifies this
      ensures entries == old(entries)[(iface, f) := gw]
    {
      entries := entries[(iface, f) := gw];
    }

    method Clear(iface: string, f: Family)
      modifies this
      ensures entries == old(entries) - {(iface, f)}
    {
      entries := entries - {(iface, f)};
    }

    // The entry, which may itself be None, and whether there is one.
    function Get(iface: string, f: Family): (entry: (Option<Address>, bool))
      reads this
      ensures entry.1 <==> (iface, f) in entries
      ensures entry.0.Some? ==> entry.1 && entries[(iface, f)] == entry.0
      ensures entry.1 ==> entry.0 == entries[(iface, f)]
    {
      if (iface, f) in entries then (entries[(iface, f)], true) else (None, false)
    }
  }

  // What the Groups share to write their routes.
  class Applier {
    const wans: map<string, WanConfig>
    const kernel: Kernel
    const gateways: GatewayCache

    constructor (wans: map<string, WanConfig>, kernel: Kernel, gateways: GatewayCache)
      ensures this.wans == wans && this.kernel == kernel && this.gateways == gateways
    {
      this.wans, this.kernel, this.gateways := wans, kernel, gateways;
    }

    method ApplyRoutes(table: int, selection: string, families: seq<Family>) returns (ok: bool)
      modifies kernel`routes
      ensures forall t :: t != table ==> TableOf(kernel.routes, t) == old(TableOf(kernel.routes, t))
      ensures Applied(wans, gateways.entries, kernel.indexOf, selection, families,
                      old(TableOf(kernel.routes, table)), TableOf(kernel.routes, table), ok)
      ensures kernel.reliable && selection in wans ==> ok
      ensures forall f: Family ::
                selection in wans && !wans[selection].pointToPoint
                && ((wans[selection].iface, f) !in gateways.entries || gateways.entries[(wans[selection].iface, f)] == None)
                ==> SameSlot(old(TableOf(kernel.routes, table)), TableOf(kernel.routes, table), f)
    {
      if selection !in wans {
        return false;
      }
      var wan := wans[selection];
      var index := kernel.IfIndex(wan.iface);
      if index == None {
        return false;
      }
      var fams := if families == [] then wan.Families() else families;
      var failed := 0;
      ghost var t0 := TableOf(kernel.routes, table);
      for i := 0 to |fams|
        invariant failed >= 0 && (kernel.reliable ==> failed == 0)
        invariant forall t :: t != table ==> TableOf(kernel.routes, t) == old(TableOf(kernel.routes, t))
        invariant Written(wan, gateways.entries, kernel.indexOf, fams[..i], t0, TableOf(kernel.routes, table), failed == 0)
      {
        assert fams[..i+1] == fams[..i] + [fams[i]];
        if wan.Probes(fams[i]) {
          ghost var t, ok := TableOf(kernel.routes, table), failed == 0;
          var hardFailure := WriteOne(table, wan, index.value, fams[i]);
          WrittenNext(wan, gateways.entries, kernel.indexOf, fams[..i], fams[i], t0, t, TableOf(kernel.routes, table),
                      ok, !hardFailure);
          if hardFailure {
            failed := failed + 1;
          }
        }
      }
      assert fams[..|fams|] == fams;
      ok := failed == 0;
      forall f: Family
        | !wan.pointToPoint && ((wan.iface, f) !in gateways.entries || gateways.entries[(wan.iface, f)] == None)
        ensures SameSlot(t0, TableOf(kernel.routes, table), f)
      {
        UnknownLeft(wan, gateways.entries, kernel.indexOf, fams, t0, TableOf(kernel.routes, table), ok, f);
      }
    }

    // One Family's route: written, skipped for want of a Gateway, or a hard failure.
    method WriteOne(table: int, wan: WanConfig, index: int, f: Family) returns (hardFailure: bool)
      requires index == kernel.indexOf(wan.iface)
      modifies kernel`routes
      ensures forall t :: t != table ==> TableOf(kernel.routes, t) == old(TableOf(kernel.routes, t))
      ensures OneWritten(wan, gateways.entries, kernel.indexOf, f,
                         old(TableOf(kernel.routes, table)), TableOf(kernel.routes, table), !hardFailure)
      ensures kernel.reliable ==> !hardFailure
      ensures !wan.pointToPoint && ((wan.iface, f) !in gateways.entries || gateways.entries[(wan.iface, f)] == None) ==>
                !hardFailure && kernel.routes == old(kernel.routes)
    {
      var route;
      if wan.pointToPoint {
        route := Route(index, None);
      } else {
        var entry := gateways.Get(wan.iface, f);
        if !entry.1 || entry.0 == None {
          return false;
        }
        route := Route(index, entry.0);
      }
      var ok := kernel.WriteRoute(table, f, route);
      hardFailure := !ok;
    }
  }
}
