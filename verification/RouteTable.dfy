// Reading a route dump: which default each watched interface and Family
// would use, and what one notification says about it.
module RouteTable {
  import opened Basics
  import opened Failover

  const MAIN_TABLE: int := 254

  datatype Nexthop = Nexthop(link: int, hops: int, gateway: Option<Address>)

  // A destination prefix; a missing address also means the default.
  datatype Prefix = NoAddress | Prefix(ones: nat, unspecified: bool)

  // A route as the kernel lists it. The flags can differ between two readings
  // of one route.
  datatype Route = Route(family: Family, table: int, dst: Option<Prefix>, tos: int, metric: int,
                         link: int, gateway: Option<Address>, multipath: seq<Nexthop>, flags: int)

  predicate IsDefault(r: Route) {
    match r.dst
    case None => true
    case Some(NoAddress) => true
    case Some(Prefix(ones, unspecified)) => ones == 0 && unspecified
  }

  // One and the same default, flags aside.
  predicate SameDefault(a: Route, b: Route) {
    && IsDefault(a) && IsDefault(b)
    && a.family == b.family && a.table == b.table && a.tos == b.tos
    && a.metric == b.metric && a.link == b.link && a.gateway == b.gateway
    && a.multipath == b.multipath
  }

  // An interface's routes of one Family.
  type Key = (string, Family)

  // The link names, and the watched ones; None watches every interface.
  datatype Watch = Watch(names: int -> Option<string>, interfaces: Option<set<string>>)
  {
    predicate Watches(iface: string) {
      interfaces.None? || iface in interfaces.value
    }

    // The watched interface behind a link index.
    function IfaceOf(link: int): Option<string> {
      var name := names(link);
      if name.Some? && Watches(name.value) then name else None
    }
  }

  // A single-path route is its own only next-hop.
  function Nexthops(r: Route): seq<Nexthop> {
    if r.multipath == [] then [Nexthop(r.link, 0, r.gateway)] else r.multipath
  }

  // The first listed next-hop on an interface.
  function FirstOn(w: Watch, nexthops: seq<Nexthop>, iface: string): Option<Nexthop> {
    if nexthops == [] then None
    else if w.IfaceOf(nexthops[0].link) == Some(iface) then Some(nexthops[0])
    else FirstOn(w, nexthops[1..], iface)
  }

  // What a route offers an interface and Family.
  datatype Offered = Offered(metric: int, gateway: Option<Address>)

  function OfferOf(w: Watch, r: Route, k: Key): Option<Offered> {
    if r.table == MAIN_TABLE && IsDefault(r) && r.family == k.1 then
      match FirstOn(w, Nexthops(r), k.0)
      case None => None
      case Some(nh) => Some(Offered(r.metric, nh.gateway))
    else None
  }

  predicate Touches(w: Watch, r: Route, k: Key) {
    OfferOf(w, r, k).Some?
  }

  // A default's destination is missing, has no address, or is all-zero with no
  // prefix bits.
  lemma DefaultInFull(r: Route)
    ensures IsDefault(r) <==> r.dst == None || r.dst == Some(NoAddress) || r.dst == Some(Prefix(0, true))
  {
    match r.dst {
      case None =>
      case Some(NoAddress) =>
      case Some(Prefix(ones, unspecified)) =>
        assert r.dst == Some(Prefix(0, true)) <==> ones == 0 && unspecified;
    }
  }

  // The offer of a single-path route, spelled out: a main-table default, its
  // destination missing, without an address, or all-zero with no prefix bits,
  // offers its Gateway and metric to the interface behind its link, if watched,
  // in its Family, and to no other key.
  lemma SinglePathOffer(w: Watch, r: Route, k: Key)
    requires r.multipath == []
    ensures var name := w.names(r.link);
            var there := r.table == 254
                         && (r.dst == None || r.dst == Some(NoAddress) || r.dst == Some(Prefix(0, true)))
                         && r.family == k.1 && name == Some(k.0) && (w.interfaces == None || k.0 in w.interfaces.value);
            OfferOf(w, r, k) == if there then Some(Offered(r.metric, r.gateway)) else None
  {
    DefaultInFull(r);
    assert FirstOn(w, Nexthops(r)[1..], k.0) == None;
  }

  // A multipath route offers each watched interface the Gateway of the first
  // next-hop listed on it, under the same conditions, and nothing otherwise.
  lemma MultipathOffer(w: Watch, r: Route, k: Key) returns (i: nat)
    requires r.multipath != []
    ensures var able := r.table == 254 && (r.dst == None || r.dst == Some(NoAddress) || r.dst == Some(Prefix(0, true)))
                        && r.family == k.1 && (w.interfaces == None || k.0 in w.interfaces.value);
            && i <= |r.multipath| && (forall j :: 0 <= j < i ==> w.names(r.multipath[j].link) != Some(k.0))
            && (i < |r.multipath| ==> w.names(r.multipath[i].link) == Some(k.0))
            && OfferOf(w, r, k) == if able && i < |r.multipath| then Some(Offered(r.metric, r.multipath[i].gateway)) else None
  {
    DefaultInFull(r);
    i := FirstNamed(w, r.multipath, k.0);
  }

  lemma {:induction false} FirstNamed(w: Watch, nexthops: seq<Nexthop>, iface: string) returns (i: nat)
    ensures i <= |nexthops| && (forall j :: 0 <= j < i ==> w.names(nexthops[j].link) != Some(iface))
    ensures i < |nexthops| ==> w.names(nexthops[i].link) == Some(iface)
    ensures FirstOn(w, nexthops, iface)
            == if i < |nexthops| && (w.interfaces == None || iface in w.interfaces.value) then Some(nexthops[i]) else None
  {
    if nexthops == [] {
      i := 0;
    } else if w.names(nexthops[0].link) == Some(iface) {
      i := FirstNamed(w, nexthops[1..], iface);
      assert !w.Watches(iface) ==> FirstOn(w, nexthops[1..], iface) == None;
      i := 0;
    } else {
      i := FirstNamed(w, nexthops[1..], iface);
      assert forall j :: 0 < j < |nexthops| ==> nexthops[j] == nexthops[1..][j-1];
      i := i + 1;
    }
  }

  // Two listings are one default when both are defaults and they differ at most
  // in how the destination is written and in the flags.
  lemma SameDefaultInFull(a: Route, b: Route)
    ensures SameDefault(a, b)
            <==> a.dst in {None, Some(NoAddress), Some(Prefix(0, true))} && b.dst in {None, Some(NoAddress), Some(Prefix(0, true))}
                 && a.(dst := None, flags := 0) == b.(dst := None, flags := 0)
  {
  }

  function Offers(w: Watch, routes: seq<Route>, k: Key): seq<Offered> {
    if routes == [] then []
    else
      var o := OfferOf(w, routes[0], k);
      (if o.Some? then [o.value] else []) + Offers(w, routes[1..], k)
  }

  // The offer with the least metric; an earlier one wins a tie.
  function Best(offers: seq<Offered>): (b: Offered)
    requires offers != []
  {
    if |offers| == 1 then offers[0]
    else
      var last, b := offers[|offers|-1], Best(offers[..|offers|-1]);
      if last.metric < b.metric then last else b
  }

  ghost predicate IsPreferred(offers: seq<Offered>, i: int) {
    && 0 <= i < |offers|
    && (forall j :: 0 <= j < i ==> offers[i].metric < offers[j].metric)
    && (forall j :: i < j < |offers| ==> offers[i].metric <= offers[j].metric)
  }

  lemma {:induction false} BestIsPreferred(offers: seq<Offered>) returns (i: nat)
    requires offers != []
    ensures IsPreferred(offers, i) && offers[i] == Best(offers)
  {
    if |offers| == 1 {
      i := 0;
    } else {
      var n := |offers| - 1;
      i := BestIsPreferred(offers[..n]);
      if offers[n].metric < offers[i].metric {
        i := n;
      }
    }
  }

  // The Gateway of the preferred default; None when there is no default, and
  // Some(None) for a scope-link one.
  function Preferred(w: Watch, routes: seq<Route>, k: Key): Option<Option<Address>> {
    var offers := Offers(w, routes, k);
    if offers == [] then None else Some(Best(offers).gateway)
  }

  // A table of one single-path route: its Gateway is the preferred one there.
  lemma PreferredOfOne(w: Watch, r: Route, k: Key)
    requires r.multipath == []
    ensures var there := r.table == 254
                         && (r.dst == None || r.dst == Some(NoAddress) || r.dst == Some(Prefix(0, true)))
                         && r.family == k.1 && w.names(r.link) == Some(k.0) && (w.interfaces == None || k.0 in w.interfaces.value);
            Preferred(w, [r], k) == if there then Some(r.gateway) else None
  {
    SinglePathOffer(w, r, k);
    OneOffer(w, r, k);
  }

  // ---- Leaving out one route

  predicate Listed(routes: seq<Route>, r: Route) {
    exists i :: 0 <= i < |routes| && SameDefault(routes[i], r)
  }

  function Without(routes: seq<Route>, r: Route): seq<Route> {
    if routes == [] then []
    else if SameDefault(routes[0], r) then routes[1..]
    else [routes[0]] + Without(routes[1..], r)
  }

  function Leaving(routes: seq<Route>, deleted: Option<Route>): seq<Route> {
    if deleted.Some? then Without(routes, deleted.value) else routes
  }

  ghost predicate Distinct(routes: seq<Route>) {
    forall i, j :: 0 <= i < j < |routes| ==> !SameDefault(routes[i], routes[j])
  }

  function Drop(routes: seq<Route>, i: int): seq<Route>
    requires 0 <= i < |routes|
  {
    routes[..i] + routes[i+1..]
  }

  lemma {:induction false} OffersConcat(w: Watch, a: seq<Route>, b: seq<Route>, k: Key)
    ensures Offers(w, a + b, k) == Offers(w, a, k) + Offers(w, b, k)
  {
    if a == [] {
      assert a + b == b;
    } else {
      OffersConcat(w, a[1..], b, k);
      assert (a + b)[1..] == a[1..] + b;
      var o := OfferOf(w, a[0], k);
      var head := if o.Some? then [o.value] else [];
      assert Offers(w, a + b, k) == head + Offers(w, a[1..] + b, k);
      assert head + (Offers(w, a[1..], k) + Offers(w, b, k)) == (head + Offers(w, a[1..], k)) + Offers(w, b, k);
    }
  }

  lemma OneOffer(w: Watch, r: Route, k: Key)
    ensures Offers(w, [r], k) == if Touches(w, r, k) then [OfferOf(w, r, k).value] else []
  {
    assert [r][1..] == [];
  }

  // A route that does not touch k can come, go or change unseen at k.
  lemma OffersAround(w: Watch, a: seq<Route>, r: Route, b: seq<Route>, k: Key)
    requires !Touches(w, r, k)
    ensures Offers(w, a + [r] + b, k) == Offers(w, a + b, k)
  {
    OffersConcat(w, a + [r], b, k);
    OffersConcat(w, a, [r], k);
    OffersConcat(w, a, b, k);
    OneOffer(w, r, k);
  }

  lemma {:induction false} WithoutUnlisted(routes: seq<Route>, r: Route)
    requires !Listed(routes, r)
    ensures Without(routes, r) == routes
  {
    if routes != [] {
      assert forall i :: 0 <= i < |routes[1..]| ==> routes[1..][i] == routes[i+1];
      WithoutUnlisted(routes[1..], r);
    }
  }

  // Leaving out a route changes nothing where it offers nothing.
  lemma {:induction false} WithoutElsewhere(w: Watch, routes: seq<Route>, r: Route, k: Key)
    requires !Touches(w, r, k)
    ensures Offers(w, Without(routes, r), k) == Offers(w, routes, k)
  {
    if routes != [] {
      if !SameDefault(routes[0], r) {
        WithoutElsewhere(w, routes[1..], r, k);
        assert ([routes[0]] + Without(routes[1..], r))[1..] == Without(routes[1..], r);
      }
    }
  }

  lemma DistinctRest(routes: seq<Route>, i: int)
    requires Distinct(routes) && 0 < i < |routes|
    ensures Distinct(routes[1..]) && !SameDefault(routes[0], routes[i])
  {
    var rest := routes[1..];
    forall a, b | 0 <= a < b < |rest| ensures !SameDefault(rest[a], rest[b]) {
      assert rest[a] == routes[a+1] && rest[b] == routes[b+1];
    }
  }

  lemma DropLater(routes: seq<Route>, i: int)
    requires 0 < i < |routes|
    ensures Drop(routes, i) == [routes[0]] + Drop(routes[1..], i - 1)
  {
    assert routes[..i] == [routes[0]] + routes[1..][..i-1];
    assert routes[i+1..] == routes[1..][i..];
  }

  // Among distinct routes, leaving one out drops its one listing.
  lemma {:induction false} WithoutDrops(routes: seq<Route>, r: Route, i: int)
    requires Distinct(routes) && 0 <= i < |routes| && SameDefault(routes[i], r)
    ensures Without(routes, r) == Drop(routes, i)
  {
    if i == 0 {
      assert Drop(routes, 0) == routes[1..];
    } else {
      DistinctRest(routes, i);
      WithoutDrops(routes[1..], r, i - 1);
      DropLater(routes, i);
    }
  }

  lemma DropUnlists(routes: seq<Route>, r: Route, i: int)
    requires Distinct(routes) && 0 <= i < |routes| && SameDefault(routes[i], r)
    ensures Distinct(Drop(routes, i)) && !Listed(Drop(routes, i), r)
  {
    var rest := Drop(routes, i);
    assert forall j :: 0 <= j < |rest| ==> rest[j] == routes[if j < i then j else j + 1];
  }

  // ---- Dumps

  function OfFamily(routes: seq<Route>, f: Family): seq<Route> {
    if routes == [] then []
    else
      var rest := OfFamily(routes[1..], f);
      if routes[0].family == f then [routes[0]] + rest else rest
  }

  // A complete dump of one Family: its routes in order, whatever their flags.
  ghost predicate DumpOf(routes: seq<Route>, f: Family, dump: seq<Route>) {
    var mine := OfFamily(routes, f);
    |dump| == |mine| && forall i :: 0 <= i < |dump| ==> dump[i] == mine[i].(flags := dump[i].flags)
  }

  lemma {:induction false} FamilyOffers(w: Watch, routes: seq<Route>, k: Key)
    ensures Offers(w, OfFamily(routes, k.1), k) == Offers(w, routes, k)
  {
    if routes != [] {
      FamilyOffers(w, routes[1..], k);
      assert routes[0].family == k.1 ==> OfFamily(routes, k.1)[1..] == OfFamily(routes[1..], k.1);
    }
  }

  lemma {:induction false} FamilyWithout(routes: seq<Route>, f: Family, r: Route)
    requires r.family == f
    ensures OfFamily(Without(routes, r), f) == Without(OfFamily(routes, f), r)
  {
    if routes != [] {
      FamilyWithout(routes[1..], f, r);
      if !SameDefault(routes[0], r) {
        assert ([routes[0]] + Without(routes[1..], r))[1..] == Without(routes[1..], r);
        if routes[0].family == f {
          assert OfFamily(routes, f)[1..] == OfFamily(routes[1..], f);
        }
      } else {
        assert OfFamily(routes, f)[1..] == OfFamily(routes[1..], f);
      }
    }
  }

  ghost predicate Reflagged(a: seq<Route>, b: seq<Route>) {
    |a| == |b| && forall i :: 0 <= i < |a| ==> a[i] == b[i].(flags := a[i].flags)
  }

  lemma {:induction false} FlagsOfferNothing(w: Watch, a: seq<Route>, b: seq<Route>, k: Key)
    requires Reflagged(a, b)
    ensures Offers(w, a, k) == Offers(w, b, k)
  {
    if a != [] {
      FlagsOfferNothing(w, a[1..], b[1..], k);
      assert OfferOf(w, a[0], k) == OfferOf(w, b[0], k);
    }
  }

  lemma {:induction false} ReflaggedWithout(a: seq<Route>, b: seq<Route>, r: Route)
    requires Reflagged(a, b)
    ensures Reflagged(Without(a, r), Without(b, r))
  {
    if a != [] {
      assert SameDefault(a[0], r) <==> SameDefault(b[0], r);
      ReflaggedWithout(a[1..], b[1..], r);
    }
  }

  // A dump shows at k what the whole table does, with or without a route.
  lemma DumpShows(w: Watch, routes: seq<Route>, dump: seq<Route>, deleted: Option<Route>, k: Key)
    requires DumpOf(routes, k.1, dump)
    requires deleted.Some? ==> deleted.value.family == k.1
    ensures Offers(w, Leaving(dump, deleted), k) == Offers(w, Leaving(routes, deleted), k)
  {
    var mine := OfFamily(routes, k.1);
    if deleted.Some? {
      ReflaggedWithout(dump, mine, deleted.value);
      FlagsOfferNothing(w, Without(dump, deleted.value), Without(mine, deleted.value), k);
      FamilyWithout(routes, k.1, deleted.value);
      FamilyOffers(w, Without(routes, deleted.value), k);
    } else {
      FlagsOfferNothing(w, dump, mine, k);
      FamilyOffers(w, routes, k);
    }
  }

  // ---- What a reading reports

  // A snapshot: one Add for each interface and Family with a default.
  ghost predicate IsSelection(w: Watch, routes: seq<Route>, events: seq<RouteEvent>) {
    && (forall i, j :: 0 <= i < j < |events| ==> EventKey(events[i]) != EventKey(events[j]))
    && (forall i :: 0 <= i < |events| ==>
          events[i].isAdd && Preferred(w, routes, EventKey(events[i])) == Some(events[i].gateway))
    && (forall k: Key :: Preferred(w, routes, k).Some? ==> ListsKey(events, k))
  }

  predicate ListsKey(events: seq<RouteEvent>, k: Key) {
    exists i :: 0 <= i < |events| && EventKey(events[i]) == k
  }

  function EventKey(e: RouteEvent): Key {
    (e.iface, e.family)
  }

  // One reading: an Add of the preferred default, or a Del when none is left.
  ghost predicate IsReading(w: Watch, routes: seq<Route>, k: Key, e: RouteEvent) {
    && EventKey(e) == k
    && match Preferred(w, routes, k)
       case None => !e.isAdd
       case Some(gw) => e.isAdd && e.gateway == gw
  }
}
