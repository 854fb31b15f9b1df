// Route discovery as a protocol. The kernel changes its table one mutation at
// a time and notifies each; the subscriber subscribes, reads a snapshot, then
// rereads whatever a notification touches. Any interleaving is allowed, and
// an IPv4 delete notifies before it unlinks.
module RouteDiscovery {
  import opened Basics
  import Apply
  import opened Failover
  import opened RouteTable
  import opened Multipath

  datatype Note = Note(isAdd: bool, route: Route)

  // The mutation in flight under the kernel's lock: a deletion notified but
  // still listed, or a change made but not yet notified.
  datatype Rtnl = Free | Unlinking(route: Route) | Unsent(note: Note)

  datatype Phase = Subscribed | V4Read | Running

  datatype Work = Idle | Reading(note: Note, todo: seq<string>)

  // shown is what the events so far tell a consumer: the Gateways.
  datatype World = World(routes: seq<Route>, rtnl: Rtnl, queue: seq<Note>, phase: Phase, work: Work, shown: Apply.Gateways)

  datatype Action =
    | Insert(at: nat, route: Route, flags: int)
    | Replace(at: nat, route: Route, flags: int)
    | BeginDelete(at: nat, flags: int)
    | EndDelete
    | Unlink(at: nat, flags: int)
    | Shrink(at: nat, hop: nat, flags: int)
    | Send
    | ReadFamily(dump: seq<Route>, events: seq<RouteEvent>)
    | Take(todo: seq<string>)
    | ReadKey(dump: seq<Route>, event: RouteEvent)
    | Finish

  function Inserted(routes: seq<Route>, at: nat, r: Route): seq<Route>
    requires at <= |routes|
  {
    routes[..at] + [r] + routes[at..]
  }

  // The routes that count: a route being deleted no longer does.
  function Effective(s: World): seq<Route> {
    if s.rtnl.Unlinking? then Without(s.routes, s.rtnl.route) else s.routes
  }

  function Deleted(n: Note): Option<Route> {
    if n.isAdd then None else Some(n.route)
  }

  function NextFamily(p: Phase): Family {
    if p == Subscribed then V4 else V6
  }

  ghost predicate Next(w: Watch, s: World, a: Action, s': World) {
    match a
    // A mutation needs the lock. Replacing a route keeps it on its interfaces,
    // and IPv6 refuses a next-hop it already has at that metric.
    case Insert(at, r, flags) =>
      && s.rtnl.Free? && at <= |s.routes| && !Listed(s.routes, r) && Admitted(Inserted(s.routes, at, r))
      && s' == s.(routes := Inserted(s.routes, at, r), rtnl := Unsent(Note(true, r.(flags := flags))))
    case Replace(at, r, flags) =>
      && s.rtnl.Free? && at < |s.routes| && Distinct(s.routes[at := r]) && Admitted(s.routes[at := r])
      && (forall k: Key :: Touches(w, s.routes[at], k) ==> Touches(w, r, k))
      && s' == s.(routes := s.routes[at := r], rtnl := Unsent(Note(true, r.(flags := flags))))
    // IPv4 notifies a default's deletion, then unlinks it; IPv6 unlinks first.
    // For a route that is no default the order shows nowhere.
    case BeginDelete(at, flags) =>
      && s.rtnl.Free? && at < |s.routes| && s.routes[at].family == V4 && IsDefault(s.routes[at])
      && var r := s.routes[at].(flags := flags);
         s' == s.(rtnl := Unlinking(r), queue := s.queue + [Note(false, r)])
    case EndDelete =>
      && s.rtnl.Unlinking?
      && s' == s.(routes := Without(s.routes, s.rtnl.route), rtnl := Free)
    case Unlink(at, flags) =>
      && s.rtnl.Free? && at < |s.routes| && (s.routes[at].family == V6 || !IsDefault(s.routes[at]))
      && s' == s.(routes := Drop(s.routes, at), rtnl := Unsent(Note(false, s.routes[at].(flags := flags))))
    // IPv6 takes one next-hop off a multipath route and notifies that one.
    case Shrink(at, hop, flags) =>
      && s.rtnl.Free? && at < |s.routes| && s.routes[at].family == V6
      && |s.routes[at].multipath| >= 2 && hop < |s.routes[at].multipath|
      && s' == s.(routes := s.routes[at := Shrunk(s.routes[at], hop)],
                  rtnl := Unsent(Note(false, HopRoute(s.routes[at], hop).(flags := flags))))
    case Send =>
      && s.rtnl.Unsent?
      && s' == s.(rtnl := Free, queue := s.queue + [s.rtnl.note])
    // The subscriber: a snapshot of each Family in turn, then one
    // notification at a time.
    case ReadFamily(dump, events) =>
      && s.phase != Running
      && DumpOf(s.routes, NextFamily(s.phase), dump) && IsSelection(w, dump, events)
      && s' == s.(phase := if s.phase == Subscribed then V4Read else Running, shown := LearnedAlong(s.shown, events))
    case Take(todo) =>
      && s.phase == Running && s.work.Idle? && s.queue != []
      && (forall iface :: iface in todo <==> Touches(w, s.queue[0].route, (iface, s.queue[0].route.family)))
      && s' == s.(queue := s.queue[1..], work := Reading(s.queue[0], todo))
    case ReadKey(dump, event) =>
      && s.work.Reading? && s.work.todo != []
      && var k := (s.work.todo[0], s.work.note.route.family);
         DumpOf(s.routes, k.1, dump) && IsReading(w, Leaving(dump, Deleted(s.work.note)), k, event)
         && s' == s.(shown := Learned(s.shown, event), work := s.work.(todo := s.work.todo[1..]))
    case Finish =>
      && s.work.Reading? && s.work.todo == []
      && s' == s.(work := Idle)
  }

  // A fresh subscription: nothing queued, no deletion half done.
  ghost predicate Initial(s: World) {
    && Distinct(s.routes) && Admitted(s.routes) && !s.rtnl.Unlinking?
    && (s.rtnl.Unsent? && !s.rtnl.note.isAdd ==> !Relisted(s.routes, s.rtnl.note.route))
    && s.queue == [] && s.phase == Subscribed && s.work.Idle? && s.shown == map[]
  }

  ghost predicate IsRun(w: Watch, trace: seq<World>, actions: seq<Action>) {
    && |trace| == |actions| + 1 && Initial(trace[0])
    && forall i :: 0 <= i < |actions| ==> Next(w, trace[i], actions[i], trace[i+1])
  }

  // ---- The claim

  predicate Read(p: Phase, f: Family) {
    p == Running || (p == V4Read && f == V4)
  }

  // k shows the preferred default of the routes that count.
  predicate UpToDate(w: Watch, s: World, k: Key) {
    Preferred(w, Effective(s), k) == if k in s.shown then Some(s.shown[k]) else None
  }

  // Something still to be processed touches k.
  predicate Pending(w: Watch, s: World, k: Key) {
    || (exists i :: 0 <= i < |s.queue| && Touches(w, s.queue[i].route, k))
    || (s.rtnl.Unsent? && Touches(w, s.rtnl.note.route, k))
    || (s.work.Reading? && k.1 == s.work.note.route.family && k.0 in s.work.todo)
  }

  // ---- The invariant

  // Every notification not fully processed, oldest first.
  function Notes(s: World): seq<Note> {
    (if s.work.Reading? then [s.work.note] else []) + s.queue + (if s.rtnl.Unsent? then [s.rtnl.note] else [])
  }

  predicate TouchedLater(w: Watch, notes: seq<Note>, i: int, k: Key) {
    exists j :: i < j < |notes| && 0 <= j && Touches(w, notes[j].route, k)
  }

  // Wherever d was, a later notification has the routes read again.
  ghost predicate CoveredLater(w: Watch, notes: seq<Note>, i: int, d: Route) {
    forall k: Key :: Touches(w, d, k) ==> TouchedLater(w, notes, i, k)
  }

  // Leaving out a deleted route is harmless: nothing of it is listed, it is
  // going, or later notifications cover it.
  ghost predicate Explained(w: Watch, routes: seq<Route>, rtnl: Rtnl, notes: seq<Note>, i: int)
    requires 0 <= i < |notes|
  {
    var d := notes[i].route;
    || notes[i].isAdd
    || !Relisted(routes, d)
    || (rtnl.Unlinking? && SameDefault(rtnl.route, d))
    || CoveredLater(w, notes, i, d)
  }

  ghost predicate DeletesExplained(w: Watch, routes: seq<Route>, rtnl: Rtnl, notes: seq<Note>) {
    forall i :: 0 <= i < |notes| ==> Explained(w, routes, rtnl, notes, i)
  }

  // A deletion in flight is the last thing notified.
  predicate DeletionIsLast(s: World) {
    s.rtnl.Unlinking? ==>
      && Listed(s.routes, s.rtnl.route)
      && (s.queue != [] ==> s.queue[|s.queue|-1] == Note(false, s.rtnl.route))
      && (s.queue == [] ==> s.phase == Running && (s.work.Reading? ==> s.work.note == Note(false, s.rtnl.route)))
  }

  predicate WorkFits(w: Watch, s: World) {
    s.work.Reading? ==>
      && s.phase == Running
      && forall iface :: iface in s.work.todo ==> Touches(w, s.work.note.route, (iface, s.work.note.route.family))
  }

  ghost predicate Visible(w: Watch, s: World) {
    forall k: Key :: if Read(s.phase, k.1) then UpToDate(w, s, k) || Pending(w, s, k) else k !in s.shown
  }

  ghost predicate Inv(w: Watch, s: World) {
    && Distinct(s.routes) && Admitted(s.routes)
    && DeletionIsLast(s)
    && WorkFits(w, s)
    && DeletesExplained(w, s.routes, s.rtnl, Notes(s))
    && Visible(w, s)
  }

  // ---- Deletions stay explained

  lemma InsertedIsDistinct(routes: seq<Route>, at: nat, r: Route)
    requires Distinct(routes) && at <= |routes| && !Listed(routes, r)
    ensures Distinct(Inserted(routes, at, r))
  {
    var now := Inserted(routes, at, r);
    forall i, j | 0 <= i < j < |now| ensures !SameDefault(now[i], now[j]) {
      assert i < at ==> now[i] == routes[i];
      assert i > at ==> now[i] == routes[i-1];
      assert j < at ==> now[j] == routes[j];
      assert j > at ==> now[j] == routes[j-1];
    }
  }

  // A change that lists at most one new route, and notifies it.
  lemma AddingKeepsExplained(w: Watch, routes: seq<Route>, routes': seq<Route>, notes: seq<Note>, r: Route)
    requires DeletesExplained(w, routes, Free, notes)
    requires forall d :: Relisted(routes', d) ==> Relisted(routes, d) || Renews(r, d)
    ensures DeletesExplained(w, routes', Unsent(Note(true, r)), notes + [Note(true, r)])
  {
    var notes' := notes + [Note(true, r)];
    forall i | 0 <= i < |notes| ensures Explained(w, routes', Unsent(Note(true, r)), notes', i) {
      assert Explained(w, routes, Free, notes, i);
      LaterStill(w, notes, Note(true, r), i, notes[i].route);
      if Renews(r, notes[i].route) {
        RenewalCovers(w, notes, Note(true, r), i, notes[i].route);
      }
    }
  }

  // A notification of what renews d touches wherever d was.
  lemma RenewalCovers(w: Watch, notes: seq<Note>, n: Note, i: int, d: Route)
    requires 0 <= i < |notes| && Renews(n.route, d)
    ensures CoveredLater(w, notes + [n], i, d)
  {
    forall k: Key | Touches(w, d, k) ensures TouchedLater(w, notes + [n], i, k) {
      RenewsTouches(w, n.route, d, k);
      assert Touches(w, (notes + [n])[|notes|].route, k);
    }
  }

  lemma LaterStill(w: Watch, notes: seq<Note>, n: Note, i: int, d: Route)
    requires 0 <= i < |notes|
    ensures CoveredLater(w, notes, i, d) ==> CoveredLater(w, notes + [n], i, d)
  {
    forall k: Key | TouchedLater(w, notes, i, k) ensures TouchedLater(w, notes + [n], i, k) {
      var j :| i < j < |notes| && 0 <= j && Touches(w, notes[j].route, k);
      assert (notes + [n])[j] == notes[j];
    }
  }

  // A deletion notified, once unlinked or while unlinking.
  lemma DeletingKeepsExplained(w: Watch, routes: seq<Route>, routes': seq<Route>, rtnl': Rtnl, notes: seq<Note>, r: Route)
    requires DeletesExplained(w, routes, Free, notes)
    requires forall d :: Relisted(routes', d) ==> Relisted(routes, d)
    requires !Relisted(routes', r) || (rtnl'.Unlinking? && SameDefault(rtnl'.route, r))
    ensures DeletesExplained(w, routes', rtnl', notes + [Note(false, r)])
  {
    var notes' := notes + [Note(false, r)];
    forall i | 0 <= i < |notes'| ensures Explained(w, routes', rtnl', notes', i) {
      if i < |notes| {
        assert Explained(w, routes, Free, notes, i);
        LaterStill(w, notes, Note(false, r), i, notes[i].route);
      }
    }
  }

  lemma UnlinkedKeepsExplained(w: Watch, routes: seq<Route>, routes': seq<Route>, r: Route, notes: seq<Note>)
    requires DeletesExplained(w, routes, Unlinking(r), notes)
    requires forall d :: Relisted(routes', d) ==> Relisted(routes, d)
    requires forall d :: SameDefault(r, d) ==> !Relisted(routes', d)
    ensures DeletesExplained(w, routes', Free, notes)
  {
    forall i | 0 <= i < |notes| ensures Explained(w, routes', Free, notes, i) {
      assert Explained(w, routes, Unlinking(r), notes, i);
    }
  }

  lemma FinishedKeepsExplained(w: Watch, routes: seq<Route>, rtnl: Rtnl, n: Note, notes: seq<Note>)
    requires DeletesExplained(w, routes, rtnl, [n] + notes)
    ensures DeletesExplained(w, routes, rtnl, notes)
  {
    forall i | 0 <= i < |notes| ensures Explained(w, routes, rtnl, notes, i) {
      assert Explained(w, routes, rtnl, [n] + notes, i + 1);
      assert ([n] + notes)[i + 1] == notes[i];
      forall k: Key | TouchedLater(w, [n] + notes, i + 1, k) ensures TouchedLater(w, notes, i, k) {
        var j :| i + 1 < j < |[n] + notes| && 0 <= j && Touches(w, ([n] + notes)[j].route, k);
        assert Touches(w, notes[j - 1].route, k);
      }
    }
  }

  lemma InsertedLists(routes: seq<Route>, at: nat, r: Route, d: Route)
    requires at <= |routes|
    ensures Relisted(Inserted(routes, at, r), d) ==> Relisted(routes, d) || Renews(r, d)
  {
    var now := Inserted(routes, at, r);
    if i :| 0 <= i < |now| && Renews(now[i], d) {
      assert i < at ==> now[i] == routes[i];
      assert i > at ==> now[i] == routes[i-1];
    }
  }

  lemma ReplacedLists(routes: seq<Route>, at: nat, r: Route, d: Route)
    requires at < |routes|
    ensures Relisted(routes[at := r], d) ==> Relisted(routes, d) || Renews(r, d)
  {
    var now := routes[at := r];
    if i :| 0 <= i < |now| && Renews(now[i], d) {
      assert i != at ==> now[i] == routes[i];
    }
  }

  lemma DroppedLists(routes: seq<Route>, at: nat, d: Route)
    requires at < |routes|
    ensures Relisted(Drop(routes, at), d) ==> Relisted(routes, d)
  {
    var now := Drop(routes, at);
    if i :| 0 <= i < |now| && Renews(now[i], d) {
      assert now[i] == routes[if i < at then i else i + 1];
    }
  }

  // What renews a route's flags renews the route.
  lemma FlagsRenew(r: Route, flags: int, d: Route)
    ensures Renews(r, d) <==> Renews(r.(flags := flags), d)
  {
    assert Nexthops(r.(flags := flags)) == Nexthops(r);
    assert forall nh :: HasHop(r, nh) <==> HasHop(r.(flags := flags), nh);
  }

  // ---- What a mutation does at a key it does not touch

  lemma InsertedElsewhere(w: Watch, routes: seq<Route>, at: nat, r: Route, k: Key)
    requires at <= |routes| && !Touches(w, r, k)
    ensures Preferred(w, Inserted(routes, at, r), k) == Preferred(w, routes, k)
  {
    OffersAround(w, routes[..at], r, routes[at..], k);
    assert routes[..at] + routes[at..] == routes;
  }

  lemma DroppedElsewhere(w: Watch, routes: seq<Route>, at: nat, k: Key)
    requires at < |routes| && !Touches(w, routes[at], k)
    ensures Preferred(w, Drop(routes, at), k) == Preferred(w, routes, k)
  {
    OffersAround(w, routes[..at], routes[at], routes[at+1..], k);
    assert routes[..at] + [routes[at]] + routes[at+1..] == routes;
  }

  lemma ReplacedElsewhere(w: Watch, routes: seq<Route>, at: nat, r: Route, k: Key)
    requires at < |routes| && !Touches(w, routes[at], k) && !Touches(w, r, k)
    ensures Preferred(w, routes[at := r], k) == Preferred(w, routes, k)
  {
    OffersAround(w, routes[..at], routes[at], routes[at+1..], k);
    OffersAround(w, routes[..at], r, routes[at+1..], k);
    assert routes[..at] + [routes[at]] + routes[at+1..] == routes;
    assert routes[..at] + [r] + routes[at+1..] == routes[at := r];
  }

  // ---- Kernel steps

  // Nothing shown and nothing read: what counts moves only where a
  // notification says so.
  lemma KernelKeepsVisible(w: Watch, s: World, s': World)
    requires Visible(w, s) && s'.phase == s.phase && s'.work == s.work && s'.shown == s.shown
    requires forall k: Key :: Pending(w, s, k) ==> Pending(w, s', k)
    requires forall k: Key :: Pending(w, s', k) || Preferred(w, Effective(s'), k) == Preferred(w, Effective(s), k)
    ensures Visible(w, s')
  {
  }

  lemma QueueGrows(w: Watch, s: World, n: Note, s': World)
    requires s'.queue == s.queue + [n] && s'.work == s.work && (s.rtnl.Unsent? ==> n == s.rtnl.note)
    ensures forall k: Key :: Pending(w, s, k) ==> Pending(w, s', k)
    ensures forall k: Key :: Touches(w, n.route, k) ==> Pending(w, s', k)
  {
    forall k: Key
      ensures Touches(w, n.route, k) ==> Pending(w, s', k)
      ensures Pending(w, s, k) ==> Pending(w, s', k)
    {
      if Touches(w, n.route, k) {
        assert s'.queue[|s.queue|] == n;
      }
      if i :| 0 <= i < |s.queue| && Touches(w, s.queue[i].route, k) {
        assert s'.queue[i] == s.queue[i];
      }
    }
  }

  lemma InsertKeeps(w: Watch, s: World, at: nat, r: Route, flags: int, s': World)
    requires Inv(w, s) && Next(w, s, Insert(at, r, flags), s')
    ensures Inv(w, s')
  {
    var sent := r.(flags := flags);
    InsertedIsDistinct(s.routes, at, r);
    forall d ensures Relisted(s'.routes, d) ==> Relisted(s.routes, d) || Renews(sent, d) {
      InsertedLists(s.routes, at, r, d);
      FlagsRenew(r, flags, d);
    }
    AddingKeepsExplained(w, s.routes, s'.routes, Notes(s), sent);
    assert Notes(s') == Notes(s) + [Note(true, sent)];
    forall k: Key ensures Pending(w, s', k) || Preferred(w, Effective(s'), k) == Preferred(w, Effective(s), k) {
      if !Touches(w, r, k) {
        InsertedElsewhere(w, s.routes, at, r, k);
      }
    }
    KernelKeepsVisible(w, s, s');
  }

  lemma ReplaceKeeps(w: Watch, s: World, at: nat, r: Route, flags: int, s': World)
    requires Inv(w, s) && Next(w, s, Replace(at, r, flags), s')
    ensures Inv(w, s')
  {
    var sent := r.(flags := flags);
    forall d ensures Relisted(s'.routes, d) ==> Relisted(s.routes, d) || Renews(sent, d) {
      ReplacedLists(s.routes, at, r, d);
      FlagsRenew(r, flags, d);
    }
    AddingKeepsExplained(w, s.routes, s'.routes, Notes(s), sent);
    assert Notes(s') == Notes(s) + [Note(true, sent)];
    forall k: Key ensures Pending(w, s', k) || Preferred(w, Effective(s'), k) == Preferred(w, Effective(s), k) {
      if !Touches(w, r, k) {
        ReplacedElsewhere(w, s.routes, at, r, k);
      }
    }
    KernelKeepsVisible(w, s, s');
  }

  lemma BeginDeleteKeeps(w: Watch, s: World, at: nat, flags: int, s': World)
    requires Inv(w, s) && Next(w, s, BeginDelete(at, flags), s')
    ensures Inv(w, s')
  {
    var r := s.routes[at].(flags := flags);
    assert SameDefault(s.routes[at], r);
    DeletingKeepsExplained(w, s.routes, s'.routes, s'.rtnl, Notes(s), r);
    assert Notes(s') == Notes(s) + [Note(false, r)];
    QueueGrows(w, s, Note(false, r), s');
    forall k: Key ensures Pending(w, s', k) || Preferred(w, Effective(s'), k) == Preferred(w, Effective(s), k) {
      if !Touches(w, r, k) {
        WithoutElsewhere(w, s.routes, r, k);
      }
    }
    KernelKeepsVisible(w, s, s');
  }

  lemma EndDeleteKeeps(w: Watch, s: World, s': World)
    requires Inv(w, s) && Next(w, s, EndDelete, s')
    ensures Inv(w, s')
  {
    var r := s.rtnl.route;
    var at :| 0 <= at < |s.routes| && SameDefault(s.routes[at], r);
    WithoutDrops(s.routes, r, at);
    DropUnlists(s.routes, r, at);
    DropIsAdmitted(s.routes, at);
    forall d
      ensures Relisted(s'.routes, d) ==> Relisted(s.routes, d)
      ensures SameDefault(r, d) ==> !Relisted(s'.routes, d)
    {
      DroppedLists(s.routes, at, d);
      if SameDefault(r, d) {
        DropRenewsNot(s.routes, at, d);
      }
    }
    UnlinkedKeepsExplained(w, s.routes, s'.routes, r, Notes(s));
    assert Notes(s') == Notes(s);
    KernelKeepsVisible(w, s, s');
  }

  lemma UnlinkKeeps(w: Watch, s: World, at: nat, flags: int, s': World)
    requires Inv(w, s) && Next(w, s, Unlink(at, flags), s')
    ensures Inv(w, s')
  {
    var r := s.routes[at].(flags := flags);
    DropIsDistinct(s.routes, at);
    DropIsAdmitted(s.routes, at);
    forall d ensures Relisted(s'.routes, d) ==> Relisted(s.routes, d) {
      DroppedLists(s.routes, at, d);
    }
    DropRenewsNot(s.routes, at, r);
    DeletingKeepsExplained(w, s.routes, s'.routes, s'.rtnl, Notes(s), r);
    assert Notes(s') == Notes(s) + [Note(false, r)];
    forall k: Key ensures Pending(w, s', k) || Preferred(w, Effective(s'), k) == Preferred(w, Effective(s), k) {
      if !Touches(w, r, k) {
        DroppedElsewhere(w, s.routes, at, k);
      }
    }
    KernelKeepsVisible(w, s, s');
  }

  lemma ShrinkKeeps(w: Watch, s: World, at: nat, hop: nat, flags: int, s': World)
    requires Inv(w, s) && Next(w, s, Shrink(at, hop, flags), s')
    ensures Inv(w, s')
  {
    var gone := HopRoute(s.routes[at], hop).(flags := flags);
    ShrunkIsAdmitted(s.routes, at, hop);
    forall d ensures Relisted(s'.routes, d) ==> Relisted(s.routes, d) {
      if Relisted(s'.routes, d) {
        ShrunkRenews(s.routes, at, hop, d);
      }
    }
    HopIsGone(s.routes, at, hop, gone);
    DeletingKeepsExplained(w, s.routes, s'.routes, s'.rtnl, Notes(s), gone);
    assert Notes(s') == Notes(s) + [Note(false, gone)];
    forall k: Key ensures Pending(w, s', k) || Preferred(w, Effective(s'), k) == Preferred(w, Effective(s), k) {
      if !Touches(w, gone, k) {
        ShrunkElsewhere(w, s.routes[at], hop, k);
        SameOfferSameOffers(w, s.routes, at, Shrunk(s.routes[at], hop), k);
      }
    }
    KernelKeepsVisible(w, s, s');
  }

  lemma OffersInThree(w: Watch, a: seq<Route>, r: Route, b: seq<Route>, k: Key)
    ensures Offers(w, a + [r] + b, k)
            == Offers(w, a, k) + (if Touches(w, r, k) then [OfferOf(w, r, k).value] else []) + Offers(w, b, k)
  {
    OffersConcat(w, a + [r], b, k);
    OffersConcat(w, a, [r], k);
    OneOffer(w, r, k);
  }

  lemma SameOfferSameOffers(w: Watch, routes: seq<Route>, at: nat, r: Route, k: Key)
    requires at < |routes| && OfferOf(w, r, k) == OfferOf(w, routes[at], k)
    ensures Offers(w, routes[at := r], k) == Offers(w, routes, k)
  {
    OffersInThree(w, routes[..at], routes[at], routes[at+1..], k);
    OffersInThree(w, routes[..at], r, routes[at+1..], k);
    assert routes[..at] + [routes[at]] + routes[at+1..] == routes;
    assert routes[..at] + [r] + routes[at+1..] == routes[at := r];
  }

  lemma DropIsDistinct(routes: seq<Route>, at: nat)
    requires Distinct(routes) && at < |routes|
    ensures Distinct(Drop(routes, at))
  {
    var rest := Drop(routes, at);
    assert forall j :: 0 <= j < |rest| ==> rest[j] == routes[if j < at then j else j + 1];
  }

  lemma SendKeeps(w: Watch, s: World, s': World)
    requires Inv(w, s) && Next(w, s, Send, s')
    ensures Inv(w, s')
  {
    assert Notes(s') == Notes(s);
    forall i | 0 <= i < |Notes(s)| ensures Explained(w, s'.routes, s'.rtnl, Notes(s'), i) {
      assert Explained(w, s.routes, s.rtnl, Notes(s), i);
    }
    QueueGrows(w, s, s.rtnl.note, s');
    KernelKeepsVisible(w, s, s');
  }

  // ---- Subscriber steps

  // A snapshot's events set its own keys and leave the others alone.
  lemma {:induction false} KeySet(gws: Apply.Gateways, events: seq<RouteEvent>, i: nat)
    requires i < |events| && forall j :: i < j < |events| ==> EventKey(events[j]) != EventKey(events[i])
    ensures EventKey(events[i]) in LearnedAlong(gws, events)
    ensures LearnedAlong(gws, events)[EventKey(events[i])] == events[i].gateway
  {
    if i < |events| - 1 {
      KeySet(gws, events[..|events|-1], i);
      assert EventKey(events[|events|-1]) != EventKey(events[i]);
    }
  }

  lemma {:induction false} KeyKept(gws: Apply.Gateways, events: seq<RouteEvent>, k: Key)
    requires !ListsKey(events, k)
    ensures SameAt(gws, LearnedAlong(gws, events), k)
  {
    if events != [] {
      var rest := events[..|events|-1];
      assert EventKey(events[|events|-1]) != k;
      assert !ListsKey(rest, k) by {
        assert forall i :: 0 <= i < |rest| ==> rest[i] == events[i];
      }
      KeyKept(gws, rest, k);
    }
  }

  predicate SameAt(a: Apply.Gateways, b: Apply.Gateways, k: Key) {
    (k in a <==> k in b) && (k in a ==> a[k] == b[k])
  }

  lemma {:induction false} FamilyIsOfFamily(routes: seq<Route>, f: Family)
    ensures forall i :: 0 <= i < |OfFamily(routes, f)| ==> OfFamily(routes, f)[i].family == f
  {
    if routes != [] {
      FamilyIsOfFamily(routes[1..], f);
    }
  }

  lemma {:induction false} OnlyItsFamily(w: Watch, dump: seq<Route>, f: Family, k: Key)
    requires k.1 != f && forall i :: 0 <= i < |dump| ==> dump[i].family == f
    ensures Preferred(w, dump, k) == None
  {
    if dump != [] {
      OnlyItsFamily(w, dump[1..], f, k);
    }
  }

  // A Family read with nothing shown before shows its preferred defaults; the
  // other Family is left alone.
  lemma SnapshotShows(w: Watch, routes: seq<Route>, dump: seq<Route>, f: Family, gws: Apply.Gateways, events: seq<RouteEvent>, k: Key)
    requires DumpOf(routes, f, dump) && IsSelection(w, dump, events)
    requires k.1 == f ==> k !in gws
    ensures var gws' := LearnedAlong(gws, events);
            if k.1 == f then Preferred(w, routes, k) == if k in gws' then Some(gws'[k]) else None
            else SameAt(gws, gws', k)
  {
    if k.1 == f {
      DumpShows(w, routes, dump, None, k);
    } else {
      FamilyIsOfFamily(routes, f);
      OnlyItsFamily(w, dump, f, k);
    }
    if ListsKey(events, k) {
      var i :| 0 <= i < |events| && EventKey(events[i]) == k;
      KeySet(gws, events, i);
    } else {
      KeyKept(gws, events, k);
    }
  }

  lemma ReadFamilyKeeps(w: Watch, s: World, dump: seq<Route>, events: seq<RouteEvent>, s': World)
    requires Inv(w, s) && Next(w, s, ReadFamily(dump, events), s')
    ensures Inv(w, s')
  {
    var f := NextFamily(s.phase);
    assert Notes(s') == Notes(s) && Effective(s') == Effective(s);
    forall k: Key
      ensures if Read(s'.phase, k.1) then UpToDate(w, s', k) || Pending(w, s', k) else k !in s'.shown
    {
      SnapshotShows(w, s.routes, dump, f, s.shown, events, k);
      assert Pending(w, s, k) ==> Pending(w, s', k);
      if k.1 == f && s.rtnl.Unlinking? {
        if Touches(w, s.rtnl.route, k) {
          assert Touches(w, s'.queue[|s'.queue|-1].route, k);
        } else {
          WithoutElsewhere(w, s.routes, s.rtnl.route, k);
        }
      }
    }
  }

  lemma TakeKeeps(w: Watch, s: World, todo: seq<string>, s': World)
    requires Inv(w, s) && Next(w, s, Take(todo), s')
    ensures Inv(w, s')
  {
    assert s.queue == [s.queue[0]] + s.queue[1..];
    assert Notes(s') == Notes(s);
    forall k: Key ensures Pending(w, s, k) ==> Pending(w, s', k) {
      if i :| 0 <= i < |s.queue| && Touches(w, s.queue[i].route, k) {
        assert i > 0 ==> Touches(w, s'.queue[i-1].route, k);
      }
    }
    KernelKeepsVisible(w, s.(work := s'.work, queue := s'.queue), s');
  }

  lemma FinishKeeps(w: Watch, s: World, s': World)
    requires Inv(w, s) && Next(w, s, Finish, s')
    ensures Inv(w, s')
  {
    assert Notes(s) == [s.work.note] + Notes(s');
    FinishedKeepsExplained(w, s.routes, s.rtnl, s.work.note, Notes(s'));
    forall k: Key ensures Pending(w, s, k) ==> Pending(w, s', k) {
    }
  }

  // The reading a notification prompts, compared with the routes that count.
  lemma ReadingIsCurrent(w: Watch, s: World, k: Key)
    requires Inv(w, s) && s.work.Reading? && Touches(w, s.work.note.route, k)
    ensures Pending(w, s.(work := Idle), k)
            || Offers(w, Leaving(s.routes, Deleted(s.work.note)), k) == Offers(w, Effective(s), k)
  {
    var n := s.work.note;
    assert Notes(s)[0] == n;
    assert Explained(w, s.routes, s.rtnl, Notes(s), 0);
    if s.rtnl.Unlinking? {
      var r := s.rtnl.route;
      if s.queue != [] && Touches(w, r, k) {
        assert Touches(w, s.queue[|s.queue|-1].route, k);
        return;
      }
      if s.queue == [] {
        return;
      }
      WithoutElsewhere(w, s.routes, r, k);
    }
    if !n.isAdd {
      if CoveredLater(w, Notes(s), 0, n.route) {
        LaterNoteIsPending(w, s, k);
      } else {
        UnrenewedIsUnlisted(s.routes, n.route);
        WithoutUnlisted(s.routes, n.route);
      }
    }
  }

  lemma UnrenewedIsUnlisted(routes: seq<Route>, d: Route)
    requires !Relisted(routes, d)
    ensures !Listed(routes, d)
  {
    if i :| 0 <= i < |routes| && SameDefault(routes[i], d) {
      assert Renews(routes[i], d);
    }
  }

  // What covers a deletion later is still to come.
  lemma LaterNoteIsPending(w: Watch, s: World, k: Key)
    requires s.work.Reading? && TouchedLater(w, Notes(s), 0, k)
    ensures Pending(w, s.(work := Idle), k)
  {
    var notes := Notes(s);
    var j :| 0 < j < |notes| && Touches(w, notes[j].route, k);
    if j <= |s.queue| {
      assert s.queue[j - 1] == notes[j];
    } else {
      assert s.rtnl.note == notes[j];
    }
  }

  // Reading one interface leaves the others as they were.
  lemma ReadElsewhere(w: Watch, s: World, event: RouteEvent, s': World, k: Key)
    requires s.work.Reading? && s.work.todo != [] && k != (s.work.todo[0], s.work.note.route.family)
    requires EventKey(event) == (s.work.todo[0], s.work.note.route.family)
    requires s' == s.(shown := Learned(s.shown, event), work := s.work.(todo := s.work.todo[1..]))
    ensures UpToDate(w, s, k) ==> UpToDate(w, s', k)
    ensures Pending(w, s, k) ==> Pending(w, s', k)
  {
    assert SameAt(s.shown, s'.shown, k);
    assert s.work.todo == [s.work.todo[0]] + s.work.todo[1..];
  }

  lemma ReadKeyKeeps(w: Watch, s: World, dump: seq<Route>, event: RouteEvent, s': World)
    requires Inv(w, s) && Next(w, s, ReadKey(dump, event), s')
    ensures Inv(w, s')
  {
    var read := (s.work.todo[0], s.work.note.route.family);
    assert read.0 in s.work.todo;
    assert Notes(s') == Notes(s) && Effective(s') == Effective(s);
    DumpShows(w, s.routes, dump, Deleted(s.work.note), read);
    ReadingIsCurrent(w, s, read);
    assert Pending(w, s.(work := Idle), read) ==> Pending(w, s', read);
    forall k: Key ensures UpToDate(w, s', k) || Pending(w, s', k) {
      if k != read {
        ReadElsewhere(w, s, event, s', k);
      }
    }
  }

  lemma StepKeeps(w: Watch, s: World, a: Action, s': World)
    requires Inv(w, s) && Next(w, s, a, s')
    ensures Inv(w, s')
  {
    match a {
      case Insert(at, r, flags) => InsertKeeps(w, s, at, r, flags, s');
      case Replace(at, r, flags) => ReplaceKeeps(w, s, at, r, flags, s');
      case BeginDelete(at, flags) => BeginDeleteKeeps(w, s, at, flags, s');
      case EndDelete => EndDeleteKeeps(w, s, s');
      case Unlink(at, flags) => UnlinkKeeps(w, s, at, flags, s');
      case Shrink(at, hop, flags) => ShrinkKeeps(w, s, at, hop, flags, s');
      case Send => SendKeeps(w, s, s');
      case ReadFamily(dump, events) => ReadFamilyKeeps(w, s, dump, events, s');
      case Take(todo) => TakeKeeps(w, s, todo, s');
      case ReadKey(dump, event) => ReadKeyKeeps(w, s, dump, event, s');
      case Finish => FinishKeeps(w, s, s');
    }
  }

  lemma {:induction false} RunsKeep(w: Watch, trace: seq<World>, actions: seq<Action>, i: nat)
    requires IsRun(w, trace, actions) && i < |trace|
    ensures Inv(w, trace[i])
  {
    if i > 0 {
      RunsKeep(w, trace, actions, i - 1);
      StepKeeps(w, trace[i-1], actions[i-1], trace[i]);
    }
  }

  // In every reachable state, once its Family has been read, each interface
  // either shows the preferred default of the routes that count, or
  // something still to be processed touches it.
  lemma DiscoveryIsNeverStale(w: Watch, trace: seq<World>, actions: seq<Action>, i: nat, k: Key)
    requires IsRun(w, trace, actions) && i < |trace| && Read(trace[i].phase, k.1)
    ensures UpToDate(w, trace[i], k) || Pending(w, trace[i], k)
  {
    RunsKeep(w, trace, actions, i);
  }

  // Drained, it shows exactly the preferred default, and nothing where there
  // is none.
  lemma DrainedDiscoveryIsExact(w: Watch, trace: seq<World>, actions: seq<Action>, i: nat, k: Key)
    requires IsRun(w, trace, actions) && i < |trace| && trace[i].phase == Running
    requires trace[i].queue == [] && trace[i].work.Idle? && !trace[i].rtnl.Unsent?
    ensures k in trace[i].shown <==> Offers(w, Effective(trace[i]), k) != []
    ensures k in trace[i].shown ==>
              exists j :: IsPreferred(Offers(w, Effective(trace[i]), k), j)
                          && Offers(w, Effective(trace[i]), k)[j].gateway == trace[i].shown[k]
  {
    DiscoveryIsNeverStale(w, trace, actions, i, k);
    var offers := Offers(w, Effective(trace[i]), k);
    if offers != [] {
      var j := BestIsPreferred(offers);
    }
  }
}
