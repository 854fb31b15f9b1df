// WAN Health as a value, from the thresholds of one Family up to every WAN,
// and the value each event leaves.
module HealthSpec {
  import opened Basics
  import opened Config
  import opened Measurements

  datatype Carrier = CarrierUnknown | CarrierDown | CarrierUp

  // The kernel's IF_OPER_* values that decide anything here.
  type Operstate = int
  const OPER_UNKNOWN: Operstate := 0
  const OPER_NOT_PRESENT: Operstate := 1
  const OPER_DOWN: Operstate := 2
  const OPER_LOWER_LAYER_DOWN: Operstate := 3
  const OPER_UP: Operstate := 6

  // Operstates beyond the seven known ones are shown as unknown.
  function KnownOperstate(o: Operstate): Operstate {
    if OPER_UNKNOWN <= o <= OPER_UP then o else OPER_UNKNOWN
  }

  datatype LinkEvent = LinkEvent(name: string, carrier: Carrier, operstate: Operstate)

  // ---- Hysteresis

  datatype HystView = HystView(healthyCount: nat, unhealthyCount: nat, healthy: bool, up: nat, down: nat)

  function FreshHysteresis(up: int, down: int): HystView {
    HystView(0, 0, false, if up < 1 then 1 else up, if down < 1 then 1 else down)
  }

  function Observed(h: HystView, good: bool): HystView {
    if good then
      h.(unhealthyCount := 0, healthyCount := h.healthyCount + 1,
         healthy := h.healthy || h.healthyCount + 1 >= h.up)
    else
      h.(healthyCount := 0, unhealthyCount := h.unhealthyCount + 1,
         healthy := h.healthy && h.unhealthyCount + 1 < h.down)
  }

  function Seeded(h: HystView, good: bool): HystView {
    h.(healthyCount := 0, unhealthyCount := 0, healthy := good)
  }

  // ---- Thresholds

  function MsToMicros(ms: int): nat {
    (if ms < 0 then 0 else ms) * 1000
  }

  function LossOf(s: FamilyStats): real {
    if s.exactLoss.Some? then s.exactLoss.value else 0.0
  }

  function RttOf(s: FamilyStats): nat {
    if s.rttMicros.Some? then s.rttMicros.value else 0
  }

  // Which pair of thresholds applies depends on the verdict held so far.
  predicate Passes(prev: bool, s: FamilyStats, t: Thresholds) {
    if prev then LossOf(s) < t.lossPctDown as real / 100.0 && RttOf(s) < MsToMicros(t.rttMsDown)
    else LossOf(s) <= t.lossPctUp as real / 100.0 && RttOf(s) <= MsToMicros(t.rttMsUp)
  }

  // ---- One Family

  datatype FamilyView = FamilyView(stats: FamilyStats, hyst: HystView, healthy: bool, cooked: bool)

  function FoldedFamily(f: FamilyView, t: Thresholds): FamilyView {
    var raw := Passes(f.healthy || !f.cooked, f.stats, t);
    var h := if f.cooked then Observed(f.hyst, raw) else Seeded(f.hyst, raw);
    f.(hyst := h, cooked := true, healthy := h.healthy)
  }

  // A result leaves an uncooked Family's verdict alone until its Window fills.
  function ProbedFamily(f: FamilyView, s: FamilyStats, t: Thresholds): FamilyView {
    var stored := f.(stats := s);
    if f.cooked || s.windowFilled then FoldedFamily(stored, t) else stored
  }

  predicate Votes(f: FamilyView) {
    !f.cooked || f.healthy
  }

  // ---- One WAN

  datatype WanView = WanView(cfg: WanConfig, carrier: Carrier, operstate: Operstate,
                             families: map<Family, FamilyView>)

  // Either signal up, unless one of them says down.
  predicate LinkUp(carrier: Carrier, operstate: Operstate) {
    && carrier != CarrierDown
    && operstate !in {OPER_DOWN, OPER_LOWER_LAYER_DOWN, OPER_NOT_PRESENT}
    && (carrier == CarrierUp || operstate == OPER_UP)
  }

  predicate FamiliesAgree(policy: Policy, families: map<Family, FamilyView>) {
    && families != map[]
    && if policy == AnyFamily then exists f :: f in families && Votes(families[f])
       else forall f :: f in families ==> Votes(families[f])
  }

  predicate WanHealthy(w: WanView) {
    LinkUp(w.carrier, w.operstate) && FamiliesAgree(w.cfg.policy, w.families)
  }

  function ProbedWan(w: WanView, f: Family, s: FamilyStats): WanView
    requires f in w.families
  {
    var stored := StoredWan(w, f, s);
    if w.families[f].cooked || s.windowFilled then FoldedWan(stored, f) else stored
  }

  function StoredWan(w: WanView, f: Family, s: FamilyStats): WanView
    requires f in w.families
  {
    w.(families := w.families[f := w.families[f].(stats := s)])
  }

  function FoldedWan(w: WanView, f: Family): WanView
    requires f in w.families
  {
    w.(families := w.families[f := FoldedFamily(w.families[f], w.cfg.thresholds)])
  }

  function LinkedWan(w: WanView, e: LinkEvent): WanView {
    if w.cfg.iface == e.name then w.(carrier := e.carrier, operstate := e.operstate) else w
  }

  // ---- Every WAN

  type HealthView = map<string, WanView>

  function Probed(h: HealthView, r: ProbeResult): HealthView {
    if r.wan in h && r.family in h[r.wan].families
    then h[r.wan := ProbedWan(h[r.wan], r.family, r.stats)]
    else h
  }

  function Linked(h: HealthView, e: LinkEvent): HealthView {
    map n | n in h :: LinkedWan(h[n], e)
  }

  function HealthySet(h: HealthView): set<string> {
    set n | n in h && WanHealthy(h[n])
  }

  // The WANs whose Health differs between two views.
  function Flips(h: HealthView, h': HealthView): set<string> {
    set n | n in h && n in h' && WanHealthy(h[n]) != WanHealthy(h'[n])
  }

  // A WAN seen without the statistics: everything Health is decided on.
  datatype Verdict = Verdict(healthy: bool, cooked: bool)
  datatype Publics = Publics(carrier: Carrier, operstate: Operstate, verdicts: map<Family, Verdict>)

  function PublicsOf(w: WanView): Publics {
    Publics(w.carrier, w.operstate,
            map f | f in w.families :: Verdict(w.families[f].healthy, w.families[f].cooked))
  }

  // Some WAN's published facts differ between two views.
  predicate Transition(h: HealthView, h': HealthView) {
    exists n :: n in h && n in h' && PublicsOf(h[n]) != PublicsOf(h'[n])
  }

  // The report of one event: the flipped WANs, and whether there is a
  // transition.
  datatype Change = Change(flipped: seq<string>, republish: bool)

  ghost function ChangeOf(w: WanView, w': WanView): Change {
    Change(if WanHealthy(w) != WanHealthy(w') then [w.cfg.name] else [], PublicsOf(w) != PublicsOf(w'))
  }

  // A fold changes what is published exactly when the Family was uncooked or
  // its verdict moved.
  lemma FoldPublics(w: WanView, f: Family)
    requires f in w.families
    ensures var g := FoldedFamily(w.families[f], w.cfg.thresholds);
            (PublicsOf(FoldedWan(w, f)) != PublicsOf(w))
            <==> (!w.families[f].cooked || g.healthy != w.families[f].healthy)
  {
    var g := FoldedFamily(w.families[f], w.cfg.thresholds);
    var p, p' := PublicsOf(w), PublicsOf(FoldedWan(w, f));
    assert p.verdicts[f] == Verdict(w.families[f].healthy, w.families[f].cooked);
    assert p'.verdicts[f] == Verdict(g.healthy, true);
    if w.families[f].cooked && g.healthy == w.families[f].healthy {
      assert p'.verdicts == p.verdicts;
    }
  }

  // Statistics alone move neither Health nor anything published.
  lemma StatsArePrivate(w: WanView, f: Family, s: FamilyStats)
    requires f in w.families
    ensures PublicsOf(StoredWan(w, f, s)) == PublicsOf(w) && WanHealthy(StoredWan(w, f, s)) == WanHealthy(w)
  {
    var w' := StoredWan(w, f, s);
    assert PublicsOf(w').verdicts == PublicsOf(w).verdicts;
    SamePublicsSameHealth(w, w');
  }

  // So what a probe result changes is what its fold changes, and nothing
  // without one.
  lemma ProbedChange(w: WanView, f: Family, s: FamilyStats)
    requires f in w.families
    ensures var stored := StoredWan(w, f, s);
            ChangeOf(w, ProbedWan(w, f, s)) == if w.families[f].cooked || s.windowFilled then ChangeOf(stored, FoldedWan(stored, f))
                                               else Change([], false)
  {
    StatsArePrivate(w, f, s);
  }

  // Replacing one WAN's view: what flips and what is to be published.
  lemma OneWanChanges(h: HealthView, n: string, w': WanView)
    requires n in h
    ensures Flips(h, h[n := w']) == if WanHealthy(h[n]) != WanHealthy(w') then {n} else {}
    ensures Transition(h, h[n := w']) <==> PublicsOf(h[n]) != PublicsOf(w')
  {
    var h' := h[n := w'];
    assert h'[n] == w';
    assert forall m :: m in h && m != n ==> h'[m] == h[m];
  }

  // The flipped WANs, each listed, and the published transitions, both exact.
  ghost predicate Reports(flipped: seq<string>, republish: bool, h: HealthView, h': HealthView) {
    && (forall n :: n in flipped <==> n in Flips(h, h'))
    && (republish <==> Transition(h, h'))
  }

  // A link event folded into every WAN but those still to do.
  ghost function LinkedSome(h: HealthView, e: LinkEvent, todo: set<string>): HealthView {
    map n | n in h :: if n in todo then h[n] else LinkedWan(h[n], e)
  }

  ghost predicate LinkProgress(h: HealthView, e: LinkEvent, todo: set<string>,
                               flipped: seq<string>, republish: bool, h': HealthView)
  {
    h' == LinkedSome(h, e, todo) && Reports(flipped, republish, h, h')
  }

  lemma NothingLinked(h: HealthView, e: LinkEvent)
    ensures LinkProgress(h, e, h.Keys, [], false, h)
  {
  }

  lemma LinkedAll(h: HealthView, e: LinkEvent)
    ensures LinkedSome(h, e, {}) == Linked(h, e)
  {
  }

  // Folding into one more WAN is one update.
  lemma LinkedSomeNext(h: HealthView, e: LinkEvent, todo: set<string>, n: string)
    requires n in h && n in todo
    ensures LinkedSome(h, e, todo).Keys == h.Keys && LinkedSome(h, e, todo)[n] == h[n]
    ensures LinkedSome(h, e, todo)[n := LinkedWan(h[n], e)] == LinkedSome(h, e, todo - {n})
  {
    var some, more := LinkedSome(h, e, todo)[n := LinkedWan(h[n], e)], LinkedSome(h, e, todo - {n});
    assert some.Keys == more.Keys;
    assert forall m :: m in more ==> more[m] == some[m];
  }

  // One more view moved adds its own flip, if it flipped, and no other.
  lemma FlipsNext(h: HealthView, some: HealthView, n: string, w: WanView)
    requires n in h && some.Keys == h.Keys && some[n] == h[n]
    ensures Flips(h, some[n := w]) == Flips(h, some) + if WanHealthy(w) != WanHealthy(h[n]) then {n} else {}
  {
    var more := some[n := w];
    forall m ensures m in Flips(h, more) <==> m in Flips(h, some) || (m == n && WanHealthy(w) != WanHealthy(h[n])) {
      assert m in h && m != n ==> more[m] == some[m];
    }
  }

  lemma TransitionNext(h: HealthView, some: HealthView, n: string, w: WanView)
    requires n in h && some.Keys == h.Keys && some[n] == h[n]
    ensures Transition(h, some[n := w]) <==> Transition(h, some) || PublicsOf(w) != PublicsOf(h[n])
  {
    var more := some[n := w];
    assert more[n] == w;
    assert forall m :: m in h && m != n ==> more[m] == some[m];
  }

  lemma LinkedOneMore(h: HealthView, e: LinkEvent, todo: set<string>, n: string, flipped: seq<string>, republish: bool)
    requires n in h && n in todo
    requires Reports(flipped, republish, h, LinkedSome(h, e, todo))
    ensures LinkedSome(h, e, todo)[n] == h[n]
    ensures LinkedSome(h, e, todo)[n := LinkedWan(h[n], e)] == LinkedSome(h, e, todo - {n})
    ensures Reports(if WanHealthy(LinkedWan(h[n], e)) != WanHealthy(h[n]) then flipped + [n] else flipped,
                    republish || PublicsOf(LinkedWan(h[n], e)) != PublicsOf(h[n]),
                    h, LinkedSome(h, e, todo - {n}))
  {
    LinkedSomeNext(h, e, todo, n);
    FlipsNext(h, LinkedSome(h, e, todo), n, LinkedWan(h[n], e));
    TransitionNext(h, LinkedSome(h, e, todo), n, LinkedWan(h[n], e));
  }

  function ColdStats(targets: seq<string>): FamilyStats {
    FamilyStats(None, None, false,
                seq(|targets|, i requires 0 <= i < |targets| => TargetStats(targets[i], None, None)))
  }

  function ColdFamily(cfg: WanConfig, f: Family): FamilyView {
    FamilyView(ColdStats(cfg.Targets(f)), FreshHysteresis(cfg.consecutiveUp, cfg.consecutiveDown), false, false)
  }

  function ColdWan(cfg: WanConfig): WanView {
    WanView(cfg, CarrierUnknown, OPER_UNKNOWN, map f: Family | cfg.Probes(f) :: ColdFamily(cfg, f))
  }

  function ColdHealth(cfgs: map<string, WanConfig>): HealthView {
    map n | n in cfgs :: ColdWan(cfgs[n])
  }

  // Cold Health: the link unknown, one unhealthy and unseeded Family for each
  // that has Targets, no data for any of them.
  lemma ColdInFull(cfgs: map<string, WanConfig>, n: string, f: Family)
    requires n in cfgs
    ensures ColdHealth(cfgs).Keys == cfgs.Keys
    ensures var w, targets := ColdHealth(cfgs)[n], if f == V4 then cfgs[n].targetsV4 else cfgs[n].targetsV6;
            && w.cfg == cfgs[n] && w.carrier == CarrierUnknown && w.operstate == 0
            && (f in w.families <==> targets != [])
            && (targets != [] ==>
                  var v := w.families[f];
                  && !v.healthy && !v.cooked && v.stats.rttMicros == None && v.stats.exactLoss == None && !v.stats.windowFilled
                  && |v.stats.perTarget| == |targets|
                  && forall i :: 0 <= i < |targets| ==> v.stats.perTarget[i] == TargetStats(targets[i], None, None))
  {
  }

  // No flip goes unpublished: Health is decided on published facts alone.
  lemma FlipsArePublished(h: HealthView, h': HealthView)
    requires h.Keys == h'.Keys && forall n :: n in h ==> h[n].cfg == h'[n].cfg
    requires Flips(h, h') != {}
    ensures Transition(h, h')
  {
    var n :| n in Flips(h, h');
    if PublicsOf(h[n]) == PublicsOf(h'[n]) {
      SamePublicsSameHealth(h[n], h'[n]);
    }
  }

  lemma SamePublicsSameHealth(w: WanView, w': WanView)
    requires w.cfg == w'.cfg && PublicsOf(w) == PublicsOf(w')
    ensures WanHealthy(w) == WanHealthy(w')
  {
    var p, p' := PublicsOf(w).verdicts, PublicsOf(w').verdicts;
    assert w.families.Keys == p.Keys == p'.Keys == w'.families.Keys;
    forall f | f in w.families ensures Votes(w.families[f]) == Votes(w'.families[f]) {
      assert p[f] == p'[f];
    }
    assert w.families == map[] <==> w.families.Keys == {};
    assert w'.families == map[] <==> w'.families.Keys == {};
  }

  // ---- What State shows of a WAN

  datatype FamilyState = FamilyState(healthy: bool, stats: FamilyStats, targets: seq<string>)

  datatype WanState = WanState(iface: string, carrier: Carrier, operstate: Operstate, healthy: bool,
                               families: map<Family, FamilyState>)

  function WanStateOf(w: WanView): WanState {
    WanState(w.cfg.iface, w.carrier, KnownOperstate(w.operstate), WanHealthy(w),
             map f | f in w.families :: FamilyState(w.families[f].healthy, w.families[f].stats, w.cfg.Targets(f)))
  }

  function HealthSnapshot(h: HealthView): map<string, WanState> {
    map n | n in h :: WanStateOf(h[n])
  }
}
