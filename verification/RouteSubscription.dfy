// The route subscriber's reading of dumps and notifications, in place over
// its interface cache.
module RouteSubscription {
  import opened Basics
  import opened Failover
  import opened RouteTable

  const RTM_NEWROUTE: int := 24
  const RTM_DELROUTE: int := 25

  datatype Update = Update(kind: int, route: Route)

  // One next-hop of one default, with the route's metric.
  datatype Candidate = Candidate(event: RouteEvent, metric: int)
  {
    function Key(): RouteTable.Key {
      EventKey(event)
    }
  }

  predicate Names(candidates: seq<Candidate>, k: Key) {
    exists i :: 0 <= i < |candidates| && candidates[i].Key() == k
  }

  // One candidate per key the next-hops seen reach, the first one's.
  ghost predicate Folds(w: Watch, r: Route, isAdd: bool, nexthops: seq<Nexthop>, candidates: seq<Candidate>) {
    && (forall i, j :: 0 <= i < j < |candidates| ==> candidates[i].Key() != candidates[j].Key())
    && (forall i :: 0 <= i < |candidates| ==>
          && candidates[i].event.isAdd == isAdd && candidates[i].event.family == r.family && candidates[i].metric == r.metric
          && var nh := FirstOn(w, nexthops, candidates[i].event.iface);
             nh.Some? && nh.value.gateway == candidates[i].event.gateway)
    && (forall iface :: FirstOn(w, nexthops, iface).Some? ==> Names(candidates, (iface, r.family)))
  }

  // Exactly the keys the route touches, each once, with what it offers there.
  ghost predicate AreCandidates(w: Watch, r: Route, isAdd: bool, candidates: seq<Candidate>) {
    && (forall i, j :: 0 <= i < j < |candidates| ==> candidates[i].Key() != candidates[j].Key())
    && (forall i :: 0 <= i < |candidates| ==>
          && candidates[i].event.isAdd == isAdd
          && OfferOf(w, r, candidates[i].Key()) == Some(Offered(candidates[i].metric, candidates[i].event.gateway)))
    && (forall k: Key :: Touches(w, r, k) ==> Names(candidates, k))
  }

  lemma {:induction false} FirstOnNext(w: Watch, seen: seq<Nexthop>, nh: Nexthop, iface: string)
    ensures FirstOn(w, seen + [nh], iface)
            == if FirstOn(w, seen, iface).Some? then FirstOn(w, seen, iface)
               else if w.IfaceOf(nh.link) == Some(iface) then Some(nh) else None
  {
    if seen != [] {
      assert (seen + [nh])[1..] == seen[1..] + [nh];
      FirstOnNext(w, seen[1..], nh, iface);
    } else {
      assert FirstOn(w, [nh][1..], iface) == None;
    }
  }

  lemma FoldNext(w: Watch, r: Route, isAdd: bool, seen: seq<Nexthop>, nh: Nexthop, candidates: seq<Candidate>,
                 candidates': seq<Candidate>)
    requires Folds(w, r, isAdd, seen, candidates)
    requires var name := w.IfaceOf(nh.link);
             candidates' == if name.None? || Names(candidates, (name.value, r.family)) then candidates
                            else candidates + [Candidate(RouteEvent(isAdd, name.value, r.family, nh.gateway), r.metric)]
    ensures Folds(w, r, isAdd, seen + [nh], candidates')
  {
    forall iface
      ensures FirstOn(w, seen, iface).Some? ==> FirstOn(w, seen + [nh], iface) == FirstOn(w, seen, iface)
      ensures FirstOn(w, seen + [nh], iface).Some? ==> Names(candidates', (iface, r.family))
    {
      FirstOnNext(w, seen, nh, iface);
      if Names(candidates, (iface, r.family)) {
        var i :| 0 <= i < |candidates| && candidates[i].Key() == (iface, r.family);
        assert candidates'[i] == candidates[i];
      } else if w.IfaceOf(nh.link) == Some(iface) {
        assert candidates'[|candidates|].Key() == (iface, r.family);
      }
    }
    if w.IfaceOf(nh.link).Some? {
      FirstOnNext(w, seen, nh, w.IfaceOf(nh.link).value);
    }
  }

  lemma FoldedAreCandidates(w: Watch, r: Route, isAdd: bool, candidates: seq<Candidate>)
    requires r.table == MAIN_TABLE && IsDefault(r)
    requires Folds(w, r, isAdd, Nexthops(r), candidates)
    ensures AreCandidates(w, r, isAdd, candidates)
  {
    forall k: Key | Touches(w, r, k) ensures Names(candidates, k) {
      assert FirstOn(w, Nexthops(r), k.0).Some?;
    }
  }

  // What a single-path route comes to: one candidate, or none.
  lemma SinglePathCandidates(w: Watch, r: Route, isAdd: bool, candidates: seq<Candidate>)
    requires AreCandidates(w, r, isAdd, candidates) && r.multipath == []
    ensures var name := w.names(r.link);
            candidates == if r.table == 254
                             && (r.dst == None || r.dst == Some(NoAddress) || r.dst == Some(Prefix(0, true)))
                             && name.Some? && (w.interfaces == None || name.value in w.interfaces.value)
                          then [Candidate(RouteEvent(isAdd, name.value, r.family, r.gateway), r.metric)]
                          else []
  {
    forall k: Key ensures Touches(w, r, k) ==> w.names(r.link) == Some(k.0) && r.family == k.1 {
      SinglePathOffer(w, r, k);
    }
    if w.names(r.link).Some? {
      var k := (w.names(r.link).value, r.family);
      SinglePathOffer(w, r, k);
      if Touches(w, r, k) {
        assert Names(candidates, k);
      }
    }
    if candidates != [] {
      var k := candidates[0].Key();
      assert Touches(w, r, k);
      SinglePathOffer(w, r, k);
      if |candidates| > 1 {
        assert Touches(w, r, candidates[1].Key());
        assert false;
      }
    }
  }

  // ---- Selecting over a dump

  // What has been offered at k, part way through a route's candidates: those
  // done count it, the others do not yet.
  function OfferedSoFar(w: Watch, before: seq<Route>, after: seq<Route>, done: seq<Candidate>, k: Key): seq<Offered> {
    Offers(w, if Names(done, k) then after else before, k)
  }

  ghost predicate Tracks(w: Watch, before: seq<Route>, after: seq<Route>, done: seq<Candidate>,
                         selected: seq<RouteEvent>, metrics: map<Key, int>, index: map<Key, int>)
  {
    && (forall k: Key :: k in index <==> OfferedSoFar(w, before, after, done, k) != [])
    && (forall k :: k in index ==> TracksAt(OfferedSoFar(w, before, after, done, k), selected, metrics, index, k))
    && Indexed(selected, index)
  }

  ghost predicate TracksAt(offers: seq<Offered>, selected: seq<RouteEvent>, metrics: map<Key, int>, index: map<Key, int>, k: Key) {
    && k in index && k in metrics && 0 <= index[k] < |selected|
    && EventKey(selected[index[k]]) == k && selected[index[k]].isAdd
    && offers != [] && Best(offers) == Offered(metrics[k], selected[index[k]].gateway)
  }

  lemma OfferNext(w: Watch, before: seq<Route>, r: Route, k: Key)
    ensures Offers(w, before + [r], k)
            == Offers(w, before, k) + if Touches(w, r, k) then [OfferOf(w, r, k).value] else []
  {
    OffersConcat(w, before, [r], k);
    OneOffer(w, r, k);
  }

  // Once every candidate of a route is done, so is the route.
  lemma RouteDone(w: Watch, before: seq<Route>, r: Route, isAdd: bool, candidates: seq<Candidate>,
                  selected: seq<RouteEvent>, metrics: map<Key, int>, index: map<Key, int>)
    requires AreCandidates(w, r, isAdd, candidates)
    requires Tracks(w, before, before + [r], candidates, selected, metrics, index)
    ensures Tracks(w, before + [r], [], [], selected, metrics, index)
  {
    forall k: Key
      ensures OfferedSoFar(w, before + [r], [], [], k) == OfferedSoFar(w, before, before + [r], candidates, k)
    {
      if !Names(candidates, k) {
        OfferNext(w, before, r, k);
      }
    }
  }

  lemma RouteBegun(w: Watch, before: seq<Route>, r: Route, selected: seq<RouteEvent>, metrics: map<Key, int>, index: map<Key, int>)
    requires Tracks(w, before, [], [], selected, metrics, index)
    ensures Tracks(w, before, before + [r], [], selected, metrics, index)
  {
    forall k: Key ensures OfferedSoFar(w, before, before + [r], [], k) == OfferedSoFar(w, before, [], [], k) {
    }
  }

  // One candidate folded into the selection.
  function SelectedAfter(selected: seq<RouteEvent>, metrics: map<Key, int>, index: map<Key, int>, c: Candidate): seq<RouteEvent> {
    var k := c.Key();
    if k !in index then selected + [c.event]
    else if k in metrics && c.metric < metrics[k] && 0 <= index[k] < |selected| then selected[index[k] := c.event]
    else selected
  }

  function MetricsAfter(metrics: map<Key, int>, index: map<Key, int>, c: Candidate): map<Key, int> {
    var k := c.Key();
    if k in index && k in metrics && c.metric >= metrics[k] then metrics else metrics[k := c.metric]
  }

  function IndexAfter(selected: seq<RouteEvent>, index: map<Key, int>, c: Candidate): map<Key, int> {
    if c.Key() in index then index else index[c.Key() := |selected|]
  }

  lemma NamesNext(candidates: seq<Candidate>, j: nat, k: Key)
    requires j < |candidates|
    ensures Names(candidates[..j+1], k) <==> Names(candidates[..j], k) || candidates[j].Key() == k
  {
    var now, next := candidates[..j], candidates[..j+1];
    if Names(now, k) {
      var i :| 0 <= i < |now| && now[i].Key() == k;
      assert next[i].Key() == k;
    }
    assert next[j] == candidates[j];
  }

  // The candidate's own key: one more offer, kept if it beats the best so far.
  lemma CandidateHere(was: seq<Offered>, now: seq<Offered>, selected: seq<RouteEvent>, metrics: map<Key, int>,
                      index: map<Key, int>, c: Candidate)
    requires now == was + [Offered(c.metric, c.event.gateway)] && c.event.isAdd
    requires c.Key() in index <==> was != []
    requires c.Key() in index ==> TracksAt(was, selected, metrics, index, c.Key())
    ensures TracksAt(now, SelectedAfter(selected, metrics, index, c), MetricsAfter(metrics, index, c),
                     IndexAfter(selected, index, c), c.Key())
  {
    assert now[..|now|-1] == was;
  }

  // Every other key: nothing moves.
  lemma CandidateElsewhere(offers: seq<Offered>, selected: seq<RouteEvent>, metrics: map<Key, int>,
                           index: map<Key, int>, c: Candidate, k: Key)
    requires k != c.Key() && TracksAt(offers, selected, metrics, index, k)
    requires c.Key() in index ==> 0 <= index[c.Key()] < |selected| && EventKey(selected[index[c.Key()]]) == c.Key()
    ensures TracksAt(offers, SelectedAfter(selected, metrics, index, c), MetricsAfter(metrics, index, c),
                     IndexAfter(selected, index, c), k)
  {
  }

  // A candidate not yet done offers its key one thing more.
  lemma CandidateOffers(w: Watch, before: seq<Route>, r: Route, candidates: seq<Candidate>, j: nat, k: Key)
    requires AreCandidates(w, r, true, candidates) && j < |candidates|
    ensures var was, now := OfferedSoFar(w, before, before + [r], candidates[..j], k), OfferedSoFar(w, before, before + [r], candidates[..j+1], k);
            now == if k == candidates[j].Key() then was + [Offered(candidates[j].metric, candidates[j].event.gateway)] else was
  {
    NamesNext(candidates, j, k);
    if k == candidates[j].Key() {
      assert !Names(candidates[..j], k);
      OfferNext(w, before, r, k);
    }
  }

  lemma CandidateKey(w: Watch, before: seq<Route>, r: Route, candidates: seq<Candidate>, j: nat,
                     selected: seq<RouteEvent>, metrics: map<Key, int>, index: map<Key, int>, k: Key)
    requires AreCandidates(w, r, true, candidates) && j < |candidates|
    requires Tracks(w, before, before + [r], candidates[..j], selected, metrics, index)
    ensures var c := candidates[j];
            var offers := OfferedSoFar(w, before, before + [r], candidates[..j+1], k);
            && (k in IndexAfter(selected, index, c) <==> offers != [])
            && (offers != [] ==> TracksAt(offers, SelectedAfter(selected, metrics, index, c),
                                          MetricsAfter(metrics, index, c), IndexAfter(selected, index, c), k))
  {
    var c := candidates[j];
    var was, now := OfferedSoFar(w, before, before + [r], candidates[..j], k), OfferedSoFar(w, before, before + [r], candidates[..j+1], k);
    CandidateOffers(w, before, r, candidates, j, k);
    if k == c.Key() {
      CandidateHere(was, now, selected, metrics, index, c);
    } else if k in index {
      CandidateElsewhere(was, selected, metrics, index, c, k);
    }
  }

  // Each event selected stays indexed under its key.
  ghost predicate Indexed(selected: seq<RouteEvent>, index: map<Key, int>) {
    forall i :: 0 <= i < |selected| ==> EventKey(selected[i]) in index && index[EventKey(selected[i])] == i
  }

  lemma CandidateIndexed(selected: seq<RouteEvent>, metrics: map<Key, int>, index: map<Key, int>, c: Candidate)
    requires Indexed(selected, index)
    requires c.Key() in index ==> 0 <= index[c.Key()] < |selected| && EventKey(selected[index[c.Key()]]) == c.Key()
    ensures Indexed(SelectedAfter(selected, metrics, index, c), IndexAfter(selected, index, c))
  {
  }

  lemma CandidateDone(w: Watch, before: seq<Route>, r: Route, candidates: seq<Candidate>, j: nat,
                      selected: seq<RouteEvent>, metrics: map<Key, int>, index: map<Key, int>)
    requires AreCandidates(w, r, true, candidates) && j < |candidates|
    requires Tracks(w, before, before + [r], candidates[..j], selected, metrics, index)
    ensures var c := candidates[j];
            Tracks(w, before, before + [r], candidates[..j+1], SelectedAfter(selected, metrics, index, c),
                   MetricsAfter(metrics, index, c), IndexAfter(selected, index, c))
  {
    var c := candidates[j];
    CandidateIndexed(selected, metrics, index, c);
    forall k: Key
      ensures var offers := OfferedSoFar(w, before, before + [r], candidates[..j+1], k);
              && (k in IndexAfter(selected, index, c) <==> offers != [])
              && (offers != [] ==> TracksAt(offers, SelectedAfter(selected, metrics, index, c),
                                            MetricsAfter(metrics, index, c), IndexAfter(selected, index, c), k))
    {
      CandidateKey(w, before, r, candidates, j, selected, metrics, index, k);
    }
  }

  lemma TrackedIsSelection(w: Watch, routes: seq<Route>, selected: seq<RouteEvent>, metrics: map<Key, int>, index: map<Key, int>)
    requires Tracks(w, routes, [], [], selected, metrics, index)
    ensures IsSelection(w, routes, selected)
  {
    forall k: Key
      ensures k in index ==> Preferred(w, routes, k) == Some(selected[index[k]].gateway) && selected[index[k]].isAdd
      ensures Preferred(w, routes, k).Some? ==> ListsKey(selected, k)
    {
      assert OfferedSoFar(w, routes, [], [], k) == Offers(w, routes, k);
      if k in index {
        assert TracksAt(Offers(w, routes, k), selected, metrics, index, k);
        assert EventKey(selected[index[k]]) == k;
      }
    }
  }

  // The first match is what leaving a route out drops.
  lemma {:induction false} FirstMatchDropped(routes: seq<Route>, r: Route, i: int)
    requires 0 <= i < |routes| && SameDefault(routes[i], r)
    requires forall j :: 0 <= j < i ==> !SameDefault(routes[j], r)
    ensures Without(routes, r) == Drop(routes, i)
  {
    if i > 0 {
      FirstMatchDropped(routes[1..], r, i - 1);
      assert Drop(routes, i) == [routes[0]] + Drop(routes[1..], i - 1);
    }
  }

  class RouteSubscriber {
    const watch: Watch
    var ifaceCache: map<int, string>

    // The cache never disagrees with the lookup.
    ghost predicate Valid()
      reads this
    {
      forall link :: link in ifaceCache ==> watch.names(link) == Some(ifaceCache[link])
    }

    constructor (watch: Watch)
      ensures Valid() && this.watch == watch
    {
      this.watch := watch;
      ifaceCache := map[];
    }

    method ResolveIface(link: int) returns (name: Option<string>)
      requires Valid()
      modifies this
      ensures Valid()
      ensures name == watch.names(link)
    {
      if link in ifaceCache {
        return Some(ifaceCache[link]);
      }
      name := watch.names(link);
      if name.Some? {
        ifaceCache := ifaceCache[link := name.value];
      }
    }

    // The candidates of a notification about a main-table default.
    method HandleUpdate(upd: Update) returns (candidates: seq<Candidate>)
      requires Valid()
      modifies this
      ensures Valid()
      ensures upd.kind !in {24, 25} ==> candidates == []
      ensures upd.kind in {24, 25} ==> AreCandidates(watch, upd.route, upd.kind == 24, candidates)
    {
      candidates := [];
      if upd.kind != RTM_NEWROUTE && upd.kind != RTM_DELROUTE {
        return;
      }
      if upd.route.table != MAIN_TABLE || !IsDefault(upd.route) {
        return;
      }
      var isAdd := upd.kind == RTM_NEWROUTE;
      var nexthops := Nexthops(upd.route);
      for i := 0 to |nexthops|
        invariant Valid()
        invariant Folds(watch, upd.route, isAdd, nexthops[..i], candidates)
      {
        assert nexthops[..i+1] == nexthops[..i] + [nexthops[i]];
        ghost var was := candidates;
        var name := ResolveIface(nexthops[i].link);
        if name.Some? && watch.Watches(name.value) && !Names(candidates, (name.value, upd.route.family)) {
          var event := RouteEvent(isAdd, name.value, upd.route.family, nexthops[i].gateway);
          candidates := candidates + [Candidate(event, upd.route.metric)];
        }
        FoldNext(watch, upd.route, isAdd, nexthops[..i], nexthops[i], was, candidates);
      }
      assert nexthops[..|nexthops|] == nexthops;
      FoldedAreCandidates(watch, upd.route, isAdd, candidates);
    }

    // One Add per interface and Family of a dump, its preferred default's.
    method SelectDefaults(routes: seq<Route>) returns (selected: seq<RouteEvent>)
      requires Valid()
      modifies this
      ensures Valid()
      ensures IsSelection(watch, routes, selected)
    {
      selected := [];
      var metrics: map<Key, int> := map[];
      var index: map<Key, int> := map[];
      for n := 0 to |routes|
        invariant Valid()
        invariant Tracks(watch, routes[..n], [], [], selected, metrics, index)
      {
        assert routes[..n+1] == routes[..n] + [routes[n]];
        selected, metrics, index := SelectRoute(routes[..n], routes[n], selected, metrics, index);
      }
      assert routes[..|routes|] == routes;
      TrackedIsSelection(watch, routes, selected, metrics, index);
    }

    method SelectRoute(ghost before: seq<Route>, r: Route, selected: seq<RouteEvent>, metrics: map<Key, int>, index: map<Key, int>)
      returns (selected': seq<RouteEvent>, metrics': map<Key, int>, index': map<Key, int>)
      requires Valid() && Tracks(watch, before, [], [], selected, metrics, index)
      modifies this
      ensures Valid()
      ensures Tracks(watch, before + [r], [], [], selected', metrics', index')
    {
      selected', metrics', index' := selected, metrics, index;
      var candidates := HandleUpdate(Update(RTM_NEWROUTE, r));
      RouteBegun(watch, before, r, selected, metrics, index);
      assert candidates[..0] == [];
      for j := 0 to |candidates|
        invariant Valid()
        invariant Tracks(watch, before, before + [r], candidates[..j], selected', metrics', index')
      {
        CandidateDone(watch, before, r, candidates, j, selected', metrics', index');
        selected', metrics', index' := SelectCandidate(candidates[j], selected', metrics', index');
      }
      assert candidates[..|candidates|] == candidates;
      RouteDone(watch, before, r, true, candidates, selected', metrics', index');
    }

    method SelectCandidate(c: Candidate, selected: seq<RouteEvent>, metrics: map<Key, int>, index: map<Key, int>)
      returns (selected': seq<RouteEvent>, metrics': map<Key, int>, index': map<Key, int>)
      requires c.Key() in index ==> c.Key() in metrics && 0 <= index[c.Key()] < |selected|
      ensures selected' == SelectedAfter(selected, metrics, index, c)
      ensures metrics' == MetricsAfter(metrics, index, c)
      ensures index' == IndexAfter(selected, index, c)
    {
      selected', metrics', index' := selected, metrics, index;
      var key := c.Key();
      if key !in index {
        index' := index[key := |selected|];
        metrics' := metrics[key := c.metric];
        selected' := selected + [c.event];
      } else if c.metric < metrics[key] {
        metrics' := metrics[key := c.metric];
        selected' := selected[index[key] := c.event];
      }
    }

    // Both Families' dumps, one Add for each key that has a default.
    method ReadSnapshot(v4: seq<Route>, v6: seq<Route>) returns (snapshot: seq<RouteEvent>)
      requires Valid()
      requires BothFamilies(v4, v6)
      modifies this
      ensures Valid()
      ensures IsSelection(watch, v4 + v6, snapshot)
    {
      var first := SelectDefaults(v4);
      var second := SelectDefaults(v6);
      snapshot := first + second;
      JoinedSelections(watch, v4, v6, first, second);
    }

    // The present default of ev's key, leaving out a route just deleted; None
    // if the dump failed.
    method ReconcileVia(listing: Option<seq<Route>>, ev: RouteEvent, deleted: Option<Route>) returns (r: Option<RouteEvent>)
      requires Valid()
      modifies this
      ensures Valid()
      ensures r.None? <==> listing.None?
      ensures listing.Some? ==> IsReading(watch, Leaving(listing.value, deleted), EventKey(ev), r.value)
    {
      if listing == None {
        return None;
      }
      var routes := listing.value;
      if deleted.Some? {
        routes := LeaveOut(routes, deleted.value);
      }
      var selected := SelectDefaults(routes);
      for i := 0 to |selected|
        invariant !ListsKey(selected[..i], EventKey(ev))
        invariant Valid() && IsSelection(watch, routes, selected)
      {
        if EventKey(selected[i]) == EventKey(ev) {
          return Some(selected[i]);
        }
      }
      assert selected[..|selected|] == selected;
      r := Some(ev.(isAdd := false));
    }
  }

  method LeaveOut(routes: seq<Route>, r: Route) returns (rest: seq<Route>)
    ensures rest == Without(routes, r)
  {
    for i := 0 to |routes|
      invariant forall j :: 0 <= j < i ==> !SameDefault(routes[j], r)
    {
      if SameDefault(routes[i], r) {
        FirstMatchDropped(routes, r, i);
        return routes[..i] + routes[i+1..];
      }
    }
    WithoutUnlisted(routes, r);
    rest := routes;
  }

  lemma {:induction false} OtherFamilyOffersNothing(w: Watch, routes: seq<Route>, k: Key)
    requires forall i :: 0 <= i < |routes| ==> routes[i].family != k.1
    ensures Offers(w, routes, k) == []
  {
    if routes != [] {
      OtherFamilyOffersNothing(w, routes[1..], k);
    }
  }

  ghost predicate BothFamilies(v4: seq<Route>, v6: seq<Route>) {
    && (forall i :: 0 <= i < |v4| ==> v4[i].family == V4)
    && (forall i :: 0 <= i < |v6| ==> v6[i].family == V6)
  }

  lemma PreferredSplits(w: Watch, v4: seq<Route>, v6: seq<Route>, k: Key)
    requires BothFamilies(v4, v6)
    ensures Preferred(w, v4 + v6, k) == Preferred(w, if k.1 == V4 then v4 else v6, k)
    ensures Preferred(w, if k.1 == V4 then v6 else v4, k) == None
  {
    OffersConcat(w, v4, v6, k);
    OtherFamilyOffersNothing(w, if k.1 == V4 then v6 else v4, k);
    assert Offers(w, v4 + v6, k) == Offers(w, if k.1 == V4 then v4 else v6, k);
  }

  // Each event of one part is about that part's Family.
  lemma PartSelects(w: Watch, v4: seq<Route>, v6: seq<Route>, f: Family, part: seq<RouteEvent>, i: nat)
    requires BothFamilies(v4, v6) && IsSelection(w, if f == V4 then v4 else v6, part) && i < |part|
    ensures part[i].family == f && part[i].isAdd
    ensures Preferred(w, v4 + v6, EventKey(part[i])) == Some(part[i].gateway)
  {
    PreferredSplits(w, v4, v6, EventKey(part[i]));
  }

  lemma JoinedLists(first: seq<RouteEvent>, second: seq<RouteEvent>, k: Key)
    requires ListsKey(first, k) || ListsKey(second, k)
    ensures ListsKey(first + second, k)
  {
    if i :| 0 <= i < |first| && EventKey(first[i]) == k {
      assert EventKey((first + second)[i]) == k;
    } else {
      var j :| 0 <= j < |second| && EventKey(second[j]) == k;
      assert EventKey((first + second)[|first| + j]) == k;
    }
  }

  lemma JoinedSelections(w: Watch, v4: seq<Route>, v6: seq<Route>, first: seq<RouteEvent>, second: seq<RouteEvent>)
    requires BothFamilies(v4, v6)
    requires IsSelection(w, v4, first) && IsSelection(w, v6, second)
    ensures IsSelection(w, v4 + v6, first + second)
  {
    var all := first + second;
    forall i | 0 <= i < |all|
      ensures all[i].isAdd && Preferred(w, v4 + v6, EventKey(all[i])) == Some(all[i].gateway)
      ensures all[i].family == if i < |first| then V4 else V6
    {
      if i < |first| {
        PartSelects(w, v4, v6, V4, first, i);
      } else {
        PartSelects(w, v4, v6, V6, second, i - |first|);
      }
    }
    forall k: Key | Preferred(w, v4 + v6, k).Some? ensures ListsKey(all, k) {
      PreferredSplits(w, v4, v6, k);
      JoinedLists(first, second, k);
    }
  }
}
