// Link discovery: the subscriber's state map updated in place, and the
// protocol of subscribe, snapshot, reread. A kernel change happens first and
// is notified some time later; several changes may share a notification.
module LinkDiscovery {
  import opened Basics
  import opened HealthSpec

  const RTM_NEWLINK: int := 16
  const RTM_DELLINK: int := 17
  const IFF_LOWER_UP: bv32 := 0x10000

  // A link as the kernel has it.
  datatype Link = Link(flags: bv32, operstate: Operstate)

  datatype Update = Update(kind: int, name: string, link: Link)

  datatype LinkState = LinkState(carrier: Carrier, operstate: Operstate)

  // Only the physical signal counts, not the administrative flag.
  function CarrierFromFlags(flags: bv32): Carrier {
    if flags & IFF_LOWER_UP != 0 then CarrierUp else CarrierDown
  }

  function StateOf(link: Link): LinkState {
    LinkState(CarrierFromFlags(link.flags), link.operstate)
  }

  // How a vanished link is reported.
  const GONE := LinkState(CarrierDown, OPER_NOT_PRESENT)

  predicate Watches(interfaces: Option<set<string>>, name: string) {
    interfaces.None? || name in interfaces.value
  }

  function EventFor(name: string, s: LinkState): LinkEvent {
    LinkEvent(name, s.carrier, s.operstate)
  }

  // A reading of one watched link: what state becomes and the event due.
  function StateAfter(state: map<string, LinkState>, name: string, link: Option<Link>): map<string, LinkState> {
    match link
    case None => state - {name}
    case Some(l) => state[name := StateOf(l)]
  }

  function Reported(link: Option<Link>): LinkState {
    if link.Some? then StateOf(link.value) else GONE
  }

  function EventDue(state: map<string, LinkState>, name: string, link: Option<Link>): Option<LinkEvent> {
    if name in state && state[name] == Reported(link) then None
    else if name !in state && link.None? then None
    else Some(EventFor(name, Reported(link)))
  }

  function ReadingOf(upd: Update): Option<Link> {
    if upd.kind == RTM_DELLINK then None else Some(upd.link)
  }

  class LinkSubscriber {
    const interfaces: Option<set<string>>
    var state: map<string, LinkState>

    constructor (interfaces: Option<set<string>>)
      ensures this.interfaces == interfaces && state == map[]
    {
      this.interfaces := interfaces;
      state := map[];
    }

    method HandleUpdate(upd: Update) returns (ev: Option<LinkEvent>)
      modifies this
      ensures !Watches(interfaces, upd.name) ==> state == old(state) && ev == None
      ensures Watches(interfaces, upd.name) ==>
                && state == StateAfter(old(state), upd.name, ReadingOf(upd))
                && ev == EventDue(old(state), upd.name, ReadingOf(upd))
      ensures Watches(interfaces, upd.name) && upd.kind == 17 ==>
                && upd.name !in state
                && (ev.Some? ==> ev.value == LinkEvent(upd.name, CarrierDown, 1))
      ensures Watches(interfaces, upd.name) && upd.kind != 17 ==>
                && upd.name in state && state[upd.name].operstate == upd.link.operstate
                && state[upd.name].carrier == (if upd.link.flags & 0x10000 != 0 then CarrierUp else CarrierDown)
                && (ev.Some? ==> ev.value == LinkEvent(upd.name, state[upd.name].carrier, upd.link.operstate))
                && (ev.None? <==> upd.name in old(state) && old(state)[upd.name] == state[upd.name])
    {
      var name := upd.name;
      if !Watches(interfaces, name) {
        return None;
      }
      var deleted := upd.kind == RTM_DELLINK;
      var carrier, operstate := CarrierDown, OPER_NOT_PRESENT;
      if !deleted {
        carrier, operstate := CarrierFromFlags(upd.link.flags), upd.link.operstate;
      }
      var seen := name in state;
      var same := seen && state[name].carrier == carrier && state[name].operstate == operstate;
      if deleted && !seen {
        assert state == state - {name};
        return None;
      }
      if deleted {
        state := state - {name};
      } else if !same {
        state := state[name := LinkState(carrier, operstate)];
      }
      assert same && !deleted ==> state == state[name := state[name]];
      if same {
        return None;
      }
      ev := Some(LinkEvent(name, carrier, operstate));
    }

    // The links of a complete dump, in listed order.
    method ReadSnapshot(links: seq<(string, Link)>) returns (snapshot: seq<LinkEvent>)
      modifies this
      ensures (state, snapshot) == SnapshotOf(interfaces, old(state), links)
    {
      snapshot := [];
      for i := 0 to |links|
        invariant (state, snapshot) == SnapshotOf(interfaces, old(state), links[..i])
      {
        assert links[..i+1][..i] == links[..i];
        var ev := HandleUpdate(Update(RTM_NEWLINK, links[i].0, links[i].1));
        if ev.Some? {
          snapshot := snapshot + [ev.value];
        }
      }
      assert links[..|links|] == links;
    }

    // A notification is an invalidation: the link is read again, and a
    // missing one reads as deleted. None if the read failed.
    method Reconcile(name: string, read: Option<Option<Link>>) returns (ok: bool, ev: Option<LinkEvent>)
      modifies this
      ensures ok <==> !Watches(interfaces, name) || read.Some?
      ensures !ok || !Watches(interfaces, name) ==> state == old(state) && ev == None
      ensures ok && Watches(interfaces, name) ==>
                state == StateAfter(old(state), name, read.value) && ev == EventDue(old(state), name, read.value)
    {
      if !Watches(interfaces, name) {
        return true, None;
      }
      if read == None {
        return false, None;
      }
      ok := true;
      match read.value {
        case None => ev := HandleUpdate(Update(RTM_DELLINK, name, Link(0, 0)));
        case Some(link) => ev := HandleUpdate(Update(RTM_NEWLINK, name, link));
      }
    }
  }

  function SnapshotOf(interfaces: Option<set<string>>, state: map<string, LinkState>, links: seq<(string, Link)>)
    : (map<string, LinkState>, seq<LinkEvent>)
  {
    if links == [] then (state, [])
    else
      var (s, events) := SnapshotOf(interfaces, state, links[..|links|-1]);
      var (name, link) := links[|links|-1];
      if !Watches(interfaces, name) then (s, events)
      else
        var ev := EventDue(s, name, Some(link));
        (StateAfter(s, name, Some(link)), if ev.Some? then events + [ev.value] else events)
  }

  // ---- The protocol

  // unsent holds the links changed and not yet notified; current is the
  // notification being served, and emitted every event so far.
  datatype World = World(links: map<string, Link>, unsent: set<string>, queue: seq<string>, started: bool,
                         current: Option<string>, state: map<string, LinkState>, emitted: seq<LinkEvent>)

  datatype Action =
    | Change(name: string, link: Option<Link>)
    | Send(name: string)
    | Snapshot(dump: seq<(string, Link)>)
    | Take
    | Reread

  function Lookup(links: map<string, Link>, name: string): Option<Link> {
    if name in links then Some(links[name]) else None
  }

  // Every link once, in any order.
  ghost predicate DumpOf(links: map<string, Link>, dump: seq<(string, Link)>) {
    && (forall i, j :: 0 <= i < j < |dump| ==> dump[i].0 != dump[j].0)
    && (forall i :: 0 <= i < |dump| ==> dump[i].0 in links && links[dump[i].0] == dump[i].1)
    && (forall n :: n in links ==> Dumped(dump, n))
  }

  predicate Dumped(dump: seq<(string, Link)>, n: string) {
    exists i :: 0 <= i < |dump| && dump[i].0 == n
  }

  ghost predicate Next(interfaces: Option<set<string>>, s: World, a: Action, s': World) {
    match a
    case Change(name, link) =>
      s' == s.(links := if link.Some? then s.links[name := link.value] else s.links - {name}, unsent := s.unsent + {name})
    case Send(name) =>
      name in s.unsent && s' == s.(unsent := s.unsent - {name}, queue := s.queue + [name])
    case Snapshot(dump) =>
      && !s.started && DumpOf(s.links, dump)
      && var (state, events) := SnapshotOf(interfaces, map[], dump);
         s' == s.(started := true, state := state, emitted := events)
    case Take =>
      && s.started && s.current.None? && s.queue != []
      && s' == s.(queue := s.queue[1..], current := Some(s.queue[0]))
    case Reread =>
      && s.current.Some?
      && var name := s.current.value;
         var link := Lookup(s.links, name);
         var ev := EventDue(s.state, name, link);
         if Watches(interfaces, name)
         then s' == s.(current := None, state := StateAfter(s.state, name, link),
                       emitted := if ev.Some? then s.emitted + [ev.value] else s.emitted)
         else s' == s.(current := None)
  }

  // A fresh subscription; changes may already be waiting to be notified.
  predicate Initial(s: World) {
    s.queue == [] && !s.started && s.current.None? && s.state == map[] && s.emitted == []
  }

  ghost predicate IsRun(interfaces: Option<set<string>>, trace: seq<World>, actions: seq<Action>) {
    && |trace| == |actions| + 1 && Initial(trace[0])
    && forall i :: 0 <= i < |actions| ==> Next(interfaces, trace[i], actions[i], trace[i+1])
  }

  function LastFor(events: seq<LinkEvent>, name: string): Option<LinkEvent> {
    if events == [] then None
    else if events[|events|-1].name == name then Some(events[|events|-1])
    else LastFor(events[..|events|-1], name)
  }

  // A change to this link is still to be notified, queued or being served.
  predicate Pending(s: World, name: string) {
    name in s.unsent || name in s.queue || s.current == Some(name)
  }

  // The last event tells what the kernel has; a link never seen, or gone,
  // reads as absent.
  predicate Shows(links: map<string, Link>, emitted: seq<LinkEvent>, name: string) {
    var last := LastFor(emitted, name);
    if name in links then last == Some(EventFor(name, StateOf(links[name])))
    else last == None || last == Some(EventFor(name, GONE))
  }

  // No event repeats the one before it for its link, except that a link
  // re-created as it was reported gone is reported again.
  ghost predicate NoRepeats(events: seq<LinkEvent>) {
    forall i :: 0 <= i < |events| && LastFor(events[..i], events[i].name) == Some(events[i])
             ==> events[i] == EventFor(events[i].name, GONE)
  }

  // state is what the events say, link by link.
  predicate Agrees(state: map<string, LinkState>, events: seq<LinkEvent>, name: string) {
    var last := LastFor(events, name);
    if name in state then last == Some(EventFor(name, state[name]))
    else last == None || last == Some(EventFor(name, GONE))
  }

  predicate Synced(links: map<string, Link>, state: map<string, LinkState>, name: string) {
    if name in links then name in state && state[name] == StateOf(links[name]) else name !in state
  }

  ghost predicate Coherent(state: map<string, LinkState>, events: seq<LinkEvent>) {
    NoRepeats(events) && forall n :: Agrees(state, events, n)
  }

  ghost predicate Inv(interfaces: Option<set<string>>, s: World) {
    && Coherent(s.state, s.emitted)
    && (s.started ==> forall n :: Watches(interfaces, n) ==> Synced(s.links, s.state, n) || Pending(s, n))
    && (!s.started ==> s.current.None? && s.state == map[] && s.emitted == [])
  }

  // One more event: the last for its link, no one else's.
  lemma LastAfter(events: seq<LinkEvent>, e: LinkEvent, name: string)
    ensures LastFor(events + [e], name) == if e.name == name then Some(e) else LastFor(events, name)
  {
    assert (events + [e])[..|events|] == events;
  }

  // Reading one link keeps state and events in step and repeats nothing.
  lemma ReadingKeeps(state: map<string, LinkState>, events: seq<LinkEvent>, name: string, link: Option<Link>)
    requires Coherent(state, events)
    ensures var ev := EventDue(state, name, link);
            Coherent(StateAfter(state, name, link), if ev.Some? then events + [ev.value] else events)
  {
    var ev := EventDue(state, name, link);
    assert Agrees(state, events, name);
    if ev.Some? {
      var events' := events + [ev.value];
      forall n ensures Agrees(StateAfter(state, name, link), events', n) {
        assert Agrees(state, events, n);
        LastAfter(events, ev.value, n);
      }
      forall i | 0 <= i < |events'| && LastFor(events'[..i], events'[i].name) == Some(events'[i])
        ensures events'[i] == EventFor(events'[i].name, GONE)
      {
        assert events'[..i] == events[..i];
      }
    } else {
      forall n ensures Agrees(StateAfter(state, name, link), events, n) {
        assert Agrees(state, events, n);
      }
    }
  }

  lemma {:induction false} SnapshotIsCoherent(interfaces: Option<set<string>>, dump: seq<(string, Link)>)
    ensures Coherent(SnapshotOf(interfaces, map[], dump).0, SnapshotOf(interfaces, map[], dump).1)
  {
    if dump != [] {
      var n := |dump| - 1;
      SnapshotIsCoherent(interfaces, dump[..n]);
      var (state, events) := SnapshotOf(interfaces, map[], dump[..n]);
      ReadingKeeps(state, events, dump[n].0, Some(dump[n].1));
    }
  }

  // The last listing of a watched link is what state holds.
  lemma {:induction false} SnapshotReads(interfaces: Option<set<string>>, dump: seq<(string, Link)>, i: nat)
    requires i < |dump| && Watches(interfaces, dump[i].0)
    requires forall j :: i < j < |dump| ==> dump[i].0 != dump[j].0
    ensures var state := SnapshotOf(interfaces, map[], dump).0;
            dump[i].0 in state && state[dump[i].0] == StateOf(dump[i].1)
  {
    var n := |dump| - 1;
    if i < n {
      SnapshotReads(interfaces, dump[..n], i);
      assert dump[i].0 != dump[n].0;
    }
  }

  lemma {:induction false} SnapshotReadsOnly(interfaces: Option<set<string>>, dump: seq<(string, Link)>, name: string)
    requires name in SnapshotOf(interfaces, map[], dump).0
    ensures Dumped(dump, name)
  {
    var n := |dump| - 1;
    if dump[n].0 != name {
      SnapshotReadsOnly(interfaces, dump[..n], name);
      var i :| 0 <= i < n && dump[..n][i].0 == name;
      assert dump[i].0 == name;
    }
  }

  lemma SnapshotKeeps(interfaces: Option<set<string>>, s: World, dump: seq<(string, Link)>, s': World)
    requires Inv(interfaces, s) && Next(interfaces, s, Snapshot(dump), s')
    ensures Inv(interfaces, s')
  {
    SnapshotIsCoherent(interfaces, dump);
    forall n | Watches(interfaces, n) ensures Synced(s'.links, s'.state, n) {
      if n in s'.links {
        assert Dumped(dump, n);
        var i :| 0 <= i < |dump| && dump[i].0 == n;
        SnapshotReads(interfaces, dump, i);
      } else if n in s'.state {
        SnapshotReadsOnly(interfaces, dump, n);
      }
    }
  }

  lemma RereadKeeps(interfaces: Option<set<string>>, s: World, s': World)
    requires Inv(interfaces, s) && Next(interfaces, s, Reread, s')
    ensures Inv(interfaces, s')
  {
    var name := s.current.value;
    ReadingKeeps(s.state, s.emitted, name, Lookup(s.links, name));
    forall n | Watches(interfaces, n) ensures Synced(s'.links, s'.state, n) || Pending(s', n) {
    }
  }

  lemma StepKeeps(interfaces: Option<set<string>>, s: World, a: Action, s': World)
    requires Inv(interfaces, s) && Next(interfaces, s, a, s')
    ensures Inv(interfaces, s')
  {
    match a {
      case Change(name, _) =>
        forall n | s.started && Watches(interfaces, n) ensures Synced(s'.links, s'.state, n) || Pending(s', n) {
          assert n != name ==> (Synced(s.links, s.state, n) ==> Synced(s'.links, s'.state, n));
        }
      case Send(name) =>
        assert s'.queue[|s.queue|] == name;
      case Snapshot(dump) => SnapshotKeeps(interfaces, s, dump, s');
      case Take =>
        assert s.queue == [s.queue[0]] + s.queue[1..];
      case Reread => RereadKeeps(interfaces, s, s');
    }
  }

  lemma {:induction false} RunsKeep(interfaces: Option<set<string>>, trace: seq<World>, actions: seq<Action>, i: nat)
    requires IsRun(interfaces, trace, actions) && i < |trace|
    ensures Inv(interfaces, trace[i])
  {
    if i > 0 {
      RunsKeep(interfaces, trace, actions, i - 1);
      StepKeeps(interfaces, trace[i-1], actions[i-1], trace[i]);
    }
  }

  // No change is ever missed: once started, each watched link's last event
  // tells the kernel's state, or a change to it is still to be served.
  lemma DiscoveryMissesNothing(interfaces: Option<set<string>>, trace: seq<World>, actions: seq<Action>, i: nat, name: string)
    requires IsRun(interfaces, trace, actions) && i < |trace| && trace[i].started && Watches(interfaces, name)
    ensures Shows(trace[i].links, trace[i].emitted, name) || Pending(trace[i], name)
  {
    RunsKeep(interfaces, trace, actions, i);
    assert Agrees(trace[i].state, trace[i].emitted, name);
  }

  // The same, spelled out: once nothing about a watched link is under way, its
  // last event has the kernel's operstate, and carrier up exactly if
  // IFF_LOWER_UP is set; for a link the kernel does not have there is no event,
  // or the last one says carrier down and operstate 1, not present.
  lemma LinksInFull(interfaces: Option<set<string>>, trace: seq<World>, actions: seq<Action>, i: nat, name: string)
    requires IsRun(interfaces, trace, actions) && i < |trace| && trace[i].started
    requires interfaces == None || name in interfaces.value
    requires name !in trace[i].unsent && name !in trace[i].queue && trace[i].current != Some(name)
    ensures (forall j :: 0 <= j < |trace[i].emitted| ==> trace[i].emitted[j].name != name)
            || exists j :: 0 <= j < |trace[i].emitted| && trace[i].emitted[j].name == name
                           && (forall l :: j < l < |trace[i].emitted| ==> trace[i].emitted[l].name != name)
                           && trace[i].emitted[j]
                              == if name in trace[i].links
                                 then var link := trace[i].links[name];
                                      LinkEvent(name, if link.flags & 0x10000 != 0 then CarrierUp else CarrierDown, link.operstate)
                                 else LinkEvent(name, CarrierDown, 1)
    ensures name in trace[i].links ==> exists j :: 0 <= j < |trace[i].emitted| && trace[i].emitted[j].name == name
  {
    DiscoveryMissesNothing(interfaces, trace, actions, i, name);
    LastIsLast(trace[i].emitted, name);
  }

  lemma {:induction false} LastIsLast(events: seq<LinkEvent>, name: string)
    ensures LastFor(events, name) == None <==> forall j :: 0 <= j < |events| ==> events[j].name != name
    ensures LastFor(events, name).Some? ==>
              exists j :: 0 <= j < |events| && events[j].name == name && LastFor(events, name) == Some(events[j])
                          && forall l :: j < l < |events| ==> events[l].name != name
  {
    if events != [] {
      var rest := events[..|events|-1];
      LastIsLast(rest, name);
      assert forall j :: 0 <= j < |rest| ==> rest[j] == events[j];
      if events[|events|-1].name != name && LastFor(rest, name).Some? {
        var j :| 0 <= j < |rest| && rest[j].name == name && LastFor(rest, name) == Some(rest[j])
                 && forall l :: j < l < |rest| ==> rest[l].name != name;
        assert events[j] == rest[j];
      }
    }
  }

  // Events for one link change, unless a link comes back as it was reported gone.
  lemma EventsAreChanges(interfaces: Option<set<string>>, trace: seq<World>, actions: seq<Action>, i: nat)
    requires IsRun(interfaces, trace, actions) && i < |trace|
    ensures NoRepeats(trace[i].emitted)
  {
    RunsKeep(interfaces, trace, actions, i);
  }
}
