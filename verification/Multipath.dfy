// Next-hops of IPv6 defaults: the kernel takes each once per table and metric,
// and a multipath default can lose one of them.
module Multipath {
  import opened Basics
  import opened RouteTable

  // ---- One pool

  // One next-hop, its weight aside.
  predicate SameHop(a: Nexthop, b: Nexthop) {
    a.link == b.link && a.gateway == b.gateway
  }

  predicate HasHop(r: Route, nh: Nexthop) {
    exists i :: 0 <= i < |Nexthops(r)| && SameHop(Nexthops(r)[i], nh)
  }

  // IPv6 defaults of one table and metric, whose next-hops the kernel pools.
  predicate SamePool(a: Route, b: Route) {
    && a.family == V6 && b.family == V6 && IsDefault(a) && IsDefault(b)
    && a.table == b.table && a.metric == b.metric
  }

  predicate SharesHop(a: Route, b: Route) {
    SamePool(a, b) && exists i :: 0 <= i < |Nexthops(a)| && HasHop(b, Nexthops(a)[i])
  }

  predicate DistinctHops(r: Route) {
    forall i, j :: 0 <= i < j < |Nexthops(r)| ==> !SameHop(Nexthops(r)[i], Nexthops(r)[j])
  }

  // IPv6 takes a next-hop once per pool, whichever routes carry it.
  ghost predicate Admitted(routes: seq<Route>) {
    && (forall i, j :: 0 <= i < |routes| && 0 <= j < |routes| && i != j ==> !SharesHop(routes[i], routes[j]))
    && (forall i :: 0 <= i < |routes| && routes[i].family == V6 ==> DistinctHops(routes[i]))
  }

  // r is d, or carries all its next-hops.
  predicate Renews(r: Route, d: Route) {
    SameDefault(r, d) || Carries(r, d)
  }

  predicate Carries(r: Route, d: Route) {
    SamePool(r, d) && forall i :: 0 <= i < |Nexthops(d)| ==> HasHop(r, Nexthops(d)[i])
  }

  predicate Relisted(routes: seq<Route>, d: Route) {
    exists i :: 0 <= i < |routes| && Renews(routes[i], d)
  }

  lemma SameCarries(r: Route, d: Route)
    requires SameDefault(r, d) && r.family == V6
    ensures Carries(r, d)
  {
    forall i | 0 <= i < |Nexthops(d)| ensures HasHop(r, Nexthops(d)[i]) {
      assert SameHop(Nexthops(r)[i], Nexthops(d)[i]);
    }
  }

  // A route that carries another shares with it.
  lemma CarriesShares(r: Route, d: Route)
    requires Carries(r, d)
    ensures SharesHop(d, r)
  {
    assert HasHop(r, Nexthops(d)[0]);
  }

  lemma {:induction false} FirstOnFinds(w: Watch, nexthops: seq<Nexthop>, iface: string)
    ensures FirstOn(w, nexthops, iface).Some? <==> exists i :: 0 <= i < |nexthops| && w.IfaceOf(nexthops[i].link) == Some(iface)
  {
    if nexthops != [] {
      FirstOnFinds(w, nexthops[1..], iface);
      assert forall i :: 0 <= i < |nexthops| - 1 ==> nexthops[1..][i] == nexthops[i+1];
    }
  }

  // What renews a route touches wherever it did.
  lemma RenewsTouches(w: Watch, r: Route, d: Route, k: Key)
    requires Renews(r, d) && Touches(w, d, k)
    ensures Touches(w, r, k)
  {
    if !SameDefault(r, d) {
      FirstOnFinds(w, Nexthops(d), k.0);
      FirstOnFinds(w, Nexthops(r), k.0);
      var i :| 0 <= i < |Nexthops(d)| && w.IfaceOf(Nexthops(d)[i].link) == Some(k.0);
      assert HasHop(r, Nexthops(d)[i]);
    }
  }

  lemma DropIsAdmitted(routes: seq<Route>, at: nat)
    requires Admitted(routes) && at < |routes|
    ensures Admitted(Drop(routes, at))
  {
    var rest := Drop(routes, at);
    assert forall j :: 0 <= j < |rest| ==> rest[j] == routes[if j < at then j else j + 1];
  }

  // A route is gone once dropped: nothing left renews it.
  lemma DropRenewsNot(routes: seq<Route>, at: nat, d: Route)
    requires Distinct(routes) && Admitted(routes) && at < |routes| && (IsDefault(d) ==> SameDefault(routes[at], d))
    ensures !Relisted(Drop(routes, at), d)
  {
    var rest := Drop(routes, at);
    forall j | 0 <= j < |rest| ensures !Renews(rest[j], d) {
      var i := if j < at then j else j + 1;
      assert rest[j] == routes[i];
      assert if i < at then !SameDefault(routes[i], routes[at]) else !SameDefault(routes[at], routes[i]);
      if Carries(routes[i], d) {
        CarriesShares(routes[i], d);
        assert Nexthops(d) == Nexthops(routes[at]);
        assert SharesHop(routes[at], routes[i]);
      }
    }
  }

  // ---- A multipath route that loses a next-hop

  function HopsBut(r: Route, j: nat): seq<Nexthop>
    requires j < |r.multipath|
  {
    r.multipath[..j] + r.multipath[j+1..]
  }

  // What is left; a single next-hop is listed as a single-path route.
  function Shrunk(r: Route, j: nat): Route
    requires j < |r.multipath|
  {
    var rest := HopsBut(r, j);
    if |rest| == 1 then r.(multipath := [], link := rest[0].link, gateway := rest[0].gateway) else r.(multipath := rest)
  }

  // The next-hop that went, as the deletion describes it.
  function HopRoute(r: Route, j: nat): Route
    requires j < |r.multipath|
  {
    r.(multipath := [], link := r.multipath[j].link, gateway := r.multipath[j].gateway)
  }

  lemma ShrunkHops(r: Route, j: nat, i: nat)
    requires j < |r.multipath| && |r.multipath| >= 2 && i < |Nexthops(Shrunk(r, j))|
    ensures |Nexthops(Shrunk(r, j))| == |r.multipath| - 1
    ensures SameHop(Nexthops(Shrunk(r, j))[i], r.multipath[if i < j then i else i + 1])
  {
  }

  lemma {:induction false} FirstOnBut(w: Watch, r: Route, j: nat, iface: string)
    requires j < |r.multipath| && w.IfaceOf(r.multipath[j].link) != Some(iface)
    ensures FirstOn(w, HopsBut(r, j), iface) == FirstOn(w, r.multipath, iface)
  {
    FirstOnAround(w, r.multipath[..j], r.multipath[j], r.multipath[j+1..], iface);
    assert r.multipath == r.multipath[..j] + [r.multipath[j]] + r.multipath[j+1..];
  }

  lemma {:induction false} FirstOnAround(w: Watch, a: seq<Nexthop>, nh: Nexthop, b: seq<Nexthop>, iface: string)
    requires w.IfaceOf(nh.link) != Some(iface)
    ensures FirstOn(w, a + b, iface) == FirstOn(w, a + [nh] + b, iface)
  {
    if a == [] {
      assert a + b == b && (a + [nh] + b)[1..] == b;
    } else {
      FirstOnAround(w, a[1..], nh, b, iface);
      assert (a + b)[1..] == a[1..] + b && (a + [nh] + b)[1..] == a[1..] + [nh] + b;
    }
  }

  // Where the lost next-hop was not, the route offers what it did.
  lemma ShrunkElsewhere(w: Watch, r: Route, j: nat, k: Key)
    requires j < |r.multipath| && |r.multipath| >= 2 && !Touches(w, HopRoute(r, j), k)
    ensures OfferOf(w, Shrunk(r, j), k) == OfferOf(w, r, k)
  {
    if r.table == MAIN_TABLE && IsDefault(r) && r.family == k.1 {
      var hop := Nexthops(HopRoute(r, j));
      assert hop[1..] == [];
      FirstOnBut(w, r, j, k.0);
      var rest := HopsBut(r, j);
      if |rest| == 1 {
        assert rest[1..] == [] && Nexthops(Shrunk(r, j))[1..] == [];
      }
    }
  }

  // What carries the rest carried it all; nothing carries what went.
  lemma ShrunkRenews(routes: seq<Route>, at: nat, j: nat, d: Route)
    requires at < |routes| && j < |routes[at].multipath| && |routes[at].multipath| >= 2 && routes[at].family == V6
    requires Relisted(routes[at := Shrunk(routes[at], j)], d)
    ensures Relisted(routes, d)
  {
    var r, now := routes[at], routes[at := Shrunk(routes[at], j)];
    var i :| 0 <= i < |now| && Renews(now[i], d);
    if i == at {
      if SameDefault(now[i], d) {
        SameCarries(now[i], d);
      }
      forall h | 0 <= h < |Nexthops(d)| ensures HasHop(r, Nexthops(d)[h]) {
        var m :| 0 <= m < |Nexthops(now[i])| && SameHop(Nexthops(now[i])[m], Nexthops(d)[h]);
        ShrunkHops(r, j, m);
        assert SameHop(Nexthops(r)[if m < j then m else m + 1], Nexthops(d)[h]);
      }
      assert Renews(routes[i], d);
    } else {
      assert Renews(routes[i], d);
    }
  }

  lemma ShrunkShares(r: Route, j: nat, o: Route)
    requires j < |r.multipath| && |r.multipath| >= 2
    ensures SharesHop(Shrunk(r, j), o) ==> SharesHop(r, o)
    ensures SharesHop(o, Shrunk(r, j)) ==> SharesHop(o, r)
  {
    var now := Shrunk(r, j);
    if SharesHop(now, o) {
      var i :| 0 <= i < |Nexthops(now)| && HasHop(o, Nexthops(now)[i]);
      ShrunkHops(r, j, i);
      assert HasHop(o, Nexthops(r)[if i < j then i else i + 1]);
    }
    if SharesHop(o, now) {
      var i :| 0 <= i < |Nexthops(o)| && HasHop(now, Nexthops(o)[i]);
      var m :| 0 <= m < |Nexthops(now)| && SameHop(Nexthops(now)[m], Nexthops(o)[i]);
      ShrunkHops(r, j, m);
      assert SameHop(Nexthops(r)[if m < j then m else m + 1], Nexthops(o)[i]);
      assert HasHop(r, Nexthops(o)[i]);
    }
  }

  lemma ShrunkIsAdmitted(routes: seq<Route>, at: nat, j: nat)
    requires Distinct(routes) && Admitted(routes) && at < |routes| && routes[at].family == V6
    requires j < |routes[at].multipath| && |routes[at].multipath| >= 2
    ensures Distinct(routes[at := Shrunk(routes[at], j)]) && Admitted(routes[at := Shrunk(routes[at], j)])
  {
    var r, now := routes[at], routes[at := Shrunk(routes[at], j)];
    forall a, b | 0 <= a < |now| && 0 <= b < |now| && a != b ensures !SharesHop(now[a], now[b]) {
      assert !SharesHop(routes[a], routes[b]);
      if a == at || b == at {
        ShrunkShares(r, j, if a == at then now[b] else now[a]);
      }
    }
    assert DistinctHops(now[at]) by {
      forall a, b | 0 <= a < b < |Nexthops(now[at])| ensures !SameHop(Nexthops(now[at])[a], Nexthops(now[at])[b]) {
        ShrunkHops(r, j, a);
        ShrunkHops(r, j, b);
        assert DistinctHops(r) && Nexthops(r) == r.multipath;
        assert !SameHop(Nexthops(r)[if a < j then a else a + 1], Nexthops(r)[if b < j then b else b + 1]);
      }
    }
    forall a, b | 0 <= a < b < |now| ensures !SameDefault(now[a], now[b]) {
      assert !SameDefault(routes[a], routes[b]);
      if (a == at || b == at) && SameDefault(now[a], now[b]) {
        SameCarries(now[a], now[b]);
        CarriesShares(now[a], now[b]);
      }
    }
  }

  // The next-hop that went is nowhere left.
  lemma HopIsGone(routes: seq<Route>, at: nat, j: nat, d: Route)
    requires Admitted(routes) && at < |routes| && routes[at].family == V6
    requires j < |routes[at].multipath| && |routes[at].multipath| >= 2
    requires d == HopRoute(routes[at], j).(flags := d.flags)
    ensures !Relisted(routes[at := Shrunk(routes[at], j)], d)
  {
    var r, now := routes[at], routes[at := Shrunk(routes[at], j)];
    forall i | 0 <= i < |now| ensures !Renews(now[i], d) {
      if Renews(now[i], d) {
        if SameDefault(now[i], d) {
          SameCarries(now[i], d);
        }
        assert HasHop(now[i], Nexthops(d)[0]) && SameHop(Nexthops(d)[0], r.multipath[j]);
        if i == at {
          var m :| 0 <= m < |Nexthops(now[i])| && SameHop(Nexthops(now[i])[m], Nexthops(d)[0]);
          ShrunkHops(r, j, m);
          assert DistinctHops(r) && Nexthops(r) == r.multipath;
          var o := if m < j then m else m + 1;
          assert SameHop(Nexthops(r)[o], Nexthops(r)[j]);
          assert false;
        } else {
          assert HasHop(now[i], Nexthops(r)[j]);
          assert SharesHop(routes[at], routes[i]);
          assert false;
        }
      }
    }
  }
}
