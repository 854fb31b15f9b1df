// What a Group's past commits determine: its Selection, its Hooks, the WANs
// whose conntrack was flushed and the vacated WAN. Proved for one commit,
// hence for every run.
module GroupHistory {
  import opened Basics
  import opened Config
  import opened Selector
  import opened Apply
  import opened DecisionSpec
  import opened Failover

  predicate Normal(a: Active) {
    a.has || a == NO_ACTIVE
  }

  // The Selection the commits end on.
  function SelectionAfter(commits: seq<Commit>): Active {
    if commits == [] then NO_ACTIVE else commits[|commits|-1].after
  }

  // Each commit starts where the one before it ended.
  ghost predicate Chained(commits: seq<Commit>) {
    forall i :: 0 <= i < |commits| ==>
      Normal(commits[i].after) && commits[i].before == SelectionAfter(commits[..i])
  }

  // The committed WANs in order, the "none" commits removed.
  function WansOf(commits: seq<Commit>): seq<string> {
    if commits == [] then []
    else
      var c := commits[|commits|-1];
      WansOf(commits[..|commits|-1]) + if c.after.has then [c.after.wan] else []
  }

  // The WANs left between consecutive distinct entries.
  function Departures(wans: seq<string>): seq<string> {
    if |wans| < 2 then []
    else
      var n := |wans|;
      Departures(wans[..n-1]) + if wans[n-2] != wans[n-1] then [wans[n-2]] else []
  }

  // One Hook per commit that changed the Selection, its Gateways left blank.
  function HooksOf(wans: map<string, WanConfig>, g: GroupConfig, commits: seq<Commit>): seq<Hook> {
    if commits == [] then []
    else
      var c := commits[|commits|-1];
      HooksOf(wans, g, commits[..|commits|-1]) + if c.Event() != NoEvent then [HookFacts(wans, g, c)] else []
  }

  // Hooks without the Gateways they show.
  function Blank(hooks: seq<Hook>): (blank: seq<Hook>)
    ensures |blank| == |hooks|
    ensures forall i :: 0 <= i < |hooks| ==> blank[i] == hooks[i].(gateways := NO_GATEWAYS)
  {
    seq(|hooks|, i requires 0 <= i < |hooks| => hooks[i].(gateways := NO_GATEWAYS))
  }

  function LastWan(commits: seq<Commit>): Option<Active> {
    var wans := WansOf(commits);
    if wans == [] then None else Some(Active(wans[|wans|-1], true))
  }

  // The commits chain to the Selection, and the Hooks tell them.
  ghost predicate Told(wans: map<string, WanConfig>, g: GroupConfig, commits: seq<Commit>, selection: Active, since: nat,
                       hooks: seq<Hook>)
  {
    && Chained(commits) && selection == SelectionAfter(commits)
    && Blank(hooks) == HooksOf(wans, g, commits)
    && since == (if hooks == [] then 0 else hooks[|hooks|-1].at)
  }

  // The flushes and the vacated WAN follow the WANs committed to.
  ghost predicate TrafficFollowed(wans: map<string, WanConfig>, commits: seq<Commit>, selection: Active,
                                  flushed: seq<string>, vacated: Option<Active>)
  {
    && (forall w :: w in WansOf(commits) ==> w in wans)
    && flushed == Departures(WansOf(commits))
    && vacated == (if selection.has then None else LastWan(commits))
    && (selection.has ==> LastWan(commits) == Some(selection))
  }

  // The Group's whole past, read off its commits.
  ghost predicate Past(wans: map<string, WanConfig>, g: GroupConfig, s: Slice) {
    var v := s.group;
    && Told(wans, g, v.commits, v.selection, v.selectionSince, s.hooks)
    && TrafficFollowed(wans, v.commits, v.selection, s.flushed, s.vacated)
    && v.decisionsTotal == |v.commits| + v.superseded + (if v.pending.Some? then 1 else 0)
  }

  lemma ToldGrows(wans: map<string, WanConfig>, gws: Gateways, g: GroupConfig, commits: seq<Commit>, selection: Active,
                  since: nat, hooks: seq<Hook>, c: Commit)
    requires Told(wans, g, commits, selection, since, hooks) && c.before == selection && Normal(c.after)
    ensures Told(wans, g, commits + [c], c.after, if c.Event() != NoEvent then c.at else since,
                 if c.Event() != NoEvent then hooks + [HookOf(wans, gws, g, c)] else hooks)
  {
    ChainGrows(commits, c);
    HooksGrow(wans, gws, g, hooks, commits, c, if c.Event() != NoEvent then hooks + [HookOf(wans, gws, g, c)] else hooks);
  }

  lemma TrafficGrows(wans: map<string, WanConfig>, commits: seq<Commit>, selection: Active, flushed: seq<string>,
                     vacated: Option<Active>, c: Commit)
    requires TrafficFollowed(wans, commits, selection, flushed, vacated)
    requires c.before == selection && (c.after.has ==> c.after.wan in wans)
    ensures var flush := FlushFor(vacated, c);
            TrafficFollowed(wans, commits + [c], c.after,
                            if flush.Some? && flush.value in wans then flushed + [flush.value] else flushed,
                            VacatedAfter(vacated, c))
  {
    FlushGrows(wans, commits, selection, vacated, c, commits + [c]);
  }

  // Publishing one more commit keeps the past readable off the commits.
  lemma {:induction false} PastGrows(wans: map<string, WanConfig>, gws: Gateways, g: GroupConfig, s: Slice, c: Commit, s': Slice)
    requires Past(wans, g, s)
    requires c.before == s.group.selection && Normal(c.after) && (c.after.has ==> c.after.wan in wans)
    requires s'.group.commits == s.group.commits + [c] && s'.group.selection == c.after
    requires s'.group.selectionSince == if c.Event() != NoEvent then c.at else s.group.selectionSince
    requires s'.group.decisionsTotal == |s'.group.commits| + s'.group.superseded && s'.group.pending.None?
    requires s' == PublishedSlice(wans, gws, g, s.(group := s'.group, table := s'.table), c)
    ensures Past(wans, g, s')
  {
    ToldGrows(wans, gws, g, s.group.commits, s.group.selection, s.group.selectionSince, s.hooks, c);
    TrafficGrows(wans, s.group.commits, s.group.selection, s.flushed, s.vacated, c);
  }

  // One commit more is told by one Hook more, if it changed the Selection.
  lemma HooksGrow(wans: map<string, WanConfig>, gws: Gateways, g: GroupConfig, hooks: seq<Hook>, commits: seq<Commit>,
                  c: Commit, hooks': seq<Hook>)
    requires Blank(hooks) == HooksOf(wans, g, commits)
    requires hooks' == if c.Event() != NoEvent then hooks + [HookOf(wans, gws, g, c)] else hooks
    ensures Blank(hooks') == HooksOf(wans, g, commits + [c])
    ensures c.Event() != NoEvent ==> hooks' != [] && hooks'[|hooks'|-1].at == c.at
  {
    assert (commits + [c])[..|commits|] == commits;
    if c.Event() != NoEvent {
      assert Blank(hooks') == Blank(hooks) + [HookFacts(wans, g, c)];
    } else {
      assert HooksOf(wans, g, commits) + [] == HooksOf(wans, g, commits);
    }
  }

  lemma ChainGrows(commits: seq<Commit>, c: Commit)
    requires Chained(commits) && Normal(c.after) && c.before == SelectionAfter(commits)
    ensures Chained(commits + [c])
  {
    var commits' := commits + [c];
    assert commits'[..|commits|] == commits;
    forall i | 0 <= i < |commits'|
      ensures Normal(commits'[i].after) && commits'[i].before == SelectionAfter(commits'[..i])
    {
      if i < |commits| {
        assert commits'[..i] == commits[..i];
        assert commits'[i] == commits[i];
      }
    }
  }

  // A commit flushes the departed WAN, if one departs, and remembers the
  // vacated one.
  lemma FlushGrows(wans: map<string, WanConfig>, commits: seq<Commit>, selection: Active, vacated: Option<Active>,
                   c: Commit, commits': seq<Commit>)
    requires commits' == commits + [c]
    requires forall w :: w in WansOf(commits) ==> w in wans
    requires c.before == selection && (c.after.has ==> c.after.wan in wans)
    requires vacated == (if selection.has then None else LastWan(commits))
    requires selection.has ==> LastWan(commits) == Some(selection)
    ensures forall w :: w in WansOf(commits') ==> w in wans
    ensures VacatedAfter(vacated, c) == (if c.after.has then None else LastWan(commits'))
    ensures c.after.has ==> LastWan(commits') == Some(Active(c.after.wan, true))
    ensures var flush := FlushFor(vacated, c);
            && (flush.Some? ==> flush.value in wans)
            && Departures(WansOf(commits')) == Departures(WansOf(commits)) + if flush.Some? then [flush.value] else []
  {
    var ws, ws' := WansOf(commits), WansOf(commits');
    assert commits'[..|commits|] == commits;
    assert ws' == if c.after.has then ws + [c.after.wan] else ws;
    if ws != [] {
      assert ws[|ws|-1] in ws;
      if c.after.has {
        assert ws'[..|ws'|-1] == ws;
      }
    }
  }

  // Hooks form a chain from none: each starts at the WAN the last one ended
  // on, and none leaves the Selection as it was.
  ghost predicate HooksChain(hooks: seq<Hook>) {
    && (forall i :: 0 <= i < |hooks| ==> hooks[i].event != NoEvent)
    && (hooks != [] ==> hooks[0].wanOld == NO_ACTIVE.wan)
    && (forall i :: 0 < i < |hooks| ==> hooks[i].wanOld == hooks[i-1].wanNew)
  }

  // The Hooks tell the chain of Selections, up to this one.
  ghost predicate TellsUpTo(hooks: seq<Hook>, selection: Active) {
    && HooksChain(hooks)
    && selection.wan == (if hooks == [] then NO_ACTIVE.wan else hooks[|hooks|-1].wanNew)
    && (selection.has <==> hooks != [] && hooks[|hooks|-1].event != EventDown)
  }

  lemma BlankTells(hooks: seq<Hook>, selection: Active)
    requires TellsUpTo(Blank(hooks), selection)
    ensures TellsUpTo(hooks, selection)
  {
    assert forall i :: 0 <= i < |hooks| ==> Blank(hooks)[i].wanOld == hooks[i].wanOld;
  }

  lemma ChainPrefix(commits: seq<Commit>)
    requires Chained(commits) && commits != []
    ensures Chained(commits[..|commits|-1])
  {
    var rest := commits[..|commits|-1];
    forall i | 0 <= i < |rest|
      ensures Normal(rest[i].after) && rest[i].before == SelectionAfter(rest[..i])
    {
      assert rest[..i] == commits[..i];
      assert rest[i] == commits[i];
    }
  }

  lemma HookExtends(wans: map<string, WanConfig>, g: GroupConfig, hooks: seq<Hook>, c: Commit)
    requires TellsUpTo(hooks, c.before) && Normal(c.before) && Normal(c.after)
    ensures TellsUpTo(hooks + if c.Event() != NoEvent then [HookFacts(wans, g, c)] else [], c.after)
  {
    if c.Event() == NoEvent {
      assert hooks + [] == hooks;
      assert c.after.has == c.before.has && c.after.wan == c.before.wan;
    } else {
      var hooks' := hooks + [HookFacts(wans, g, c)];
      assert forall i :: 0 <= i < |hooks| ==> hooks'[i] == hooks[i];
    }
  }

  lemma {:induction false} HooksFormAChain(wans: map<string, WanConfig>, g: GroupConfig, commits: seq<Commit>)
    requires Chained(commits)
    ensures TellsUpTo(HooksOf(wans, g, commits), SelectionAfter(commits))
    ensures Normal(SelectionAfter(commits))
  {
    if commits != [] {
      var n := |commits| - 1;
      ChainPrefix(commits);
      HooksFormAChain(wans, g, commits[..n]);
      HookExtends(wans, g, HooksOf(wans, g, commits[..n]), commits[n]);
    }
  }

  // The positions at which the sequence moves to another WAN.
  function StepsOf(wans: seq<string>): seq<int> {
    if |wans| < 2 then []
    else
      var n := |wans|;
      StepsOf(wans[..n-1]) + if wans[n-2] != wans[n-1] then [n-1] else []
  }

  // Steps are taken at these positions, each leaving the WAN departed from.
  ghost predicate TakenAt(wans: seq<string>, steps: seq<int>, left: seq<string>) {
    && |left| == |steps|
    && forall k :: 0 <= k < |steps| ==>
         0 < steps[k] < |wans| && wans[steps[k] - 1] != wans[steps[k]] && left[k] == wans[steps[k] - 1]
  }

  ghost predicate InOrder(steps: seq<int>) {
    forall k, l :: 0 <= k < l < |steps| ==> steps[k] < steps[l]
  }

  ghost predicate NoneMissed(wans: seq<string>, steps: seq<int>) {
    forall i :: 0 < i < |wans| && wans[i-1] != wans[i] ==> i in steps
  }

  lemma OneMoreTaken(wans: seq<string>, steps: seq<int>, left: seq<string>)
    requires |wans| >= 2 && TakenAt(wans[..|wans|-1], steps, left) && InOrder(steps)
    ensures TakenAt(wans, steps, left)
    ensures var n := |wans|;
            wans[n-2] != wans[n-1] ==> TakenAt(wans, steps + [n-1], left + [wans[n-2]]) && InOrder(steps + [n-1])
  {
  }

  lemma NoneMissedNext(wans: seq<string>, steps: seq<int>)
    requires |wans| >= 2 && NoneMissed(wans[..|wans|-1], steps)
    ensures var n := |wans|; NoneMissed(wans, if wans[n-2] != wans[n-1] then steps + [n-1] else steps)
  {
    var n := |wans|;
    var steps' := if wans[n-2] != wans[n-1] then steps + [n-1] else steps;
    forall i | 0 < i < n && wans[i-1] != wans[i] ensures i in steps' {
      if i < n - 1 {
        assert wans[..n-1][i-1] != wans[..n-1][i];
        assert i in steps;
      } else {
        assert steps'[|steps|] == i;
      }
    }
  }

  // Every departure is a step between two different neighbours, in order, and
  // every such step is one departure: nothing is flushed twice or missed.
  lemma {:induction false} DeparturesCountSteps(wans: seq<string>)
    ensures TakenAt(wans, StepsOf(wans), Departures(wans))
    ensures InOrder(StepsOf(wans)) && NoneMissed(wans, StepsOf(wans))
  {
    if |wans| >= 2 {
      var n := |wans|;
      var steps, left := StepsOf(wans[..n-1]), Departures(wans[..n-1]);
      DeparturesCountSteps(wans[..n-1]);
      OneMoreTaken(wans, steps, left);
      NoneMissedNext(wans, steps);
      assert steps + [] == steps && left + [] == left;
    }
  }
}
