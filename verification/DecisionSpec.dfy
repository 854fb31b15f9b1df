// A Group's Decision as a value: pending and committed Selections, due
// Repairs, and what one call does to them for a given Apply outcome.
module DecisionSpec {
  import opened Basics
  import opened Config
  import opened Selector
  import opened Apply

  // The kinds of Selection change; NoEvent when nothing moved.
  datatype Event = EventUp | EventDown | EventSwitch | NoEvent

  datatype Commit = Commit(before: Active, after: Active, at: nat)
  {
    function Event(): Event {
      if !before.has && after.has then EventUp
      else if before.has && !after.has then EventDown
      else if before.has && after.has && before.wan != after.wan then EventSwitch
      else NoEvent
    }
  }

  // The Group's fields, and a record of its past: every commit, how many
  // pending targets were superseded, how often Apply was called. A
  // selectionSince of 0 is the zero time.
  datatype GroupView = GroupView(selection: Active, selectionSince: nat, decisionsTotal: nat,
                                 pending: Option<Active>, repairDue: bool,
                                 commits: seq<Commit>, superseded: nat, applies: nat)

  const NEW_GROUP := GroupView(NO_ACTIVE, 0, 0, None, false, [], 0, 0)

  function Intent(v: GroupView): Active {
    if v.pending.Some? then v.pending.value else v.selection
  }

  // The three ways an event reaches a Group.
  datatype Call = Recompute(target: Active) | ProbeOf(wan: string) | RouteObserved(wan: string, family: Family)

  // The Apply a call makes; no Families means every probed one.
  datatype ApplyCall = ApplyCall(wan: string, families: seq<Family>)

  // Apply's outcome and the time of a commit, chosen by the environment.
  datatype Outcome = Outcome(ok: bool, at: nat)

  function CommitApply(target: Active): Option<ApplyCall> {
    if target.has then Some(ApplyCall(target.wan, [])) else None
  }

  function ApplyOf(v: GroupView, c: Call): Option<ApplyCall> {
    match c
    case Recompute(target) => if target == Intent(v) then None else CommitApply(target)
    case ProbeOf(wan) =>
      if v.pending.Some? then
        if v.pending.value.has && v.pending.value.wan == wan then CommitApply(v.pending.value) else None
      else if v.repairDue && v.selection.wan == wan then Some(ApplyCall(v.selection.wan, []))
      else None
    case RouteObserved(wan, f) =>
      if !Intent(v).has || Intent(v).wan != wan then None
      else if v.pending.Some? then CommitApply(v.pending.value)
      else Some(ApplyCall(v.selection.wan, if v.repairDue then [] else [f]))
  }

  function Committed(v: GroupView, o: Outcome): GroupView
    requires v.pending.Some?
  {
    var next := v.pending.value;
    var tried := if next.has then v.(applies := v.applies + 1) else v;
    if next.has && !o.ok then tried
    else
      var c := Commit(v.selection, next, o.at);
      tried.(selection := next, pending := None, repairDue := false, commits := v.commits + [c],
             selectionSince := if c.Event() != NoEvent then o.at else v.selectionSince)
  }

  function Refreshed(v: GroupView, o: Outcome): GroupView {
    v.(applies := v.applies + 1, repairDue := !o.ok)
  }

  function After(v: GroupView, c: Call, o: Outcome): GroupView {
    match c
    case Recompute(target) =>
      if target == Intent(v) then v
      else Committed(v.(pending := Some(target), decisionsTotal := v.decisionsTotal + 1,
                        superseded := v.superseded + if v.pending.Some? then 1 else 0), o)
    case ProbeOf(wan) =>
      if v.pending.Some? then
        if v.pending.value.has && v.pending.value.wan == wan then Committed(v, o) else v
      else if v.repairDue && v.selection.wan == wan then Refreshed(v, o)
      else v
    case RouteObserved(wan, f) =>
      if !Intent(v).has || Intent(v).wan != wan then v
      else if v.pending.Some? then Committed(v, o)
      else Refreshed(v, o)
  }

  // What an Apply reads: the configured WANs, the Gateway cache, the
  // interface indexes, and whether the kernel can fail at all.
  datatype World = World(wans: map<string, WanConfig>, gateways: Gateways, indexOf: string -> int, reliable: bool)

  // The kernel's part of a call: its Group's table, as the one Apply allows.
  ghost predicate TableWritten(w: World, a: Option<ApplyCall>, t: Table, t': Table, ok: bool) {
    match a
    case None => t' == t
    case Some(call) =>
      && Applied(w.wans, w.gateways, w.indexOf, call.wan, call.families, t, t', ok)
      && (w.reliable && call.wan in w.wans ==> ok)
  }

  // The commit a call made, if it made one.
  function CommitMade(v: GroupView, v': GroupView): Option<Commit> {
    if |v'.commits| > |v.commits| then Some(v'.commits[|v'.commits| - 1]) else None
  }

  // What State shows of a Group.
  datatype GroupState = GroupState(strategy: string, selection: Option<string>, selectionSince: Option<nat>,
                                   decisionsTotal: nat)

  function GroupStateOf(g: GroupConfig, v: GroupView): GroupState {
    GroupState(g.strategy, if v.selection.has then Some(v.selection.wan) else None,
               if v.selectionSince != 0 then Some(v.selectionSince) else None, v.decisionsTotal)
  }
}
