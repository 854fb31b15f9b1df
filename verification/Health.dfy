// WAN Health as the daemon keeps it: objects updated in place by probe
// results and link events, each method tied to HealthSpec.
module Health {
  import opened Basics
  import opened Sorting
  import opened Config
  import opened Selector
  import opened Measurements
  import opened HealthSpec

  class Hysteresis {
    var healthyCount: nat
    var unhealthyCount: nat
    var healthy: bool
    const consecutiveUp: nat
    const consecutiveDown: nat

    ghost function View(): HystView
      reads this
    {
      HystView(healthyCount, unhealthyCount, healthy, consecutiveUp, consecutiveDown)
    }

    constructor (up: int, down: int)
      ensures View() == FreshHysteresis(up, down)
      ensures !healthy && healthyCount == 0 && unhealthyCount == 0
      ensures (up >= 1 ==> consecutiveUp == up) && (up < 1 ==> consecutiveUp == 1)
      ensures (down >= 1 ==> consecutiveDown == down) && (down < 1 ==> consecutiveDown == 1)
    {
      healthyCount, unhealthyCount, healthy := 0, 0, false;
      consecutiveUp := if up < 1 then 1 else up;
      consecutiveDown := if down < 1 then 1 else down;
    }

    method Observe(observedHealthy: bool) returns (verdict: bool)
      modifies this
      ensures View() == Observed(old(View()), observedHealthy)
      ensures verdict == View().healthy
    {
      if observedHealthy {
        unhealthyCount := 0;
        healthyCount := healthyCount + 1;
        if !healthy && healthyCount >= consecutiveUp {
          healthy := true;
        }
      } else {
        healthyCount := 0;
        unhealthyCount := unhealthyCount + 1;
        if healthy && unhealthyCount >= consecutiveDown {
          healthy := false;
        }
      }
      verdict := healthy;
    }

    method Seed(observedHealthy: bool) returns (verdict: bool)
      modifies this
      ensures View() == Seeded(old(View()), observedHealthy)
      ensures verdict == View().healthy
    {
      healthy := observedHealthy;
      healthyCount := 0;
      unhealthyCount := 0;
      verdict := healthy;
    }
  }

  // One (WAN, Family): latest statistics, Hysteresis and verdict.
  class FamilyHealth {
    var stats: FamilyStats
    const hyst: Hysteresis
    var healthy: bool
    var cooked: bool

    ghost function View(): FamilyView
      reads this, hyst
    {
      FamilyView(stats, hyst.View(), healthy, cooked)
    }

    constructor (cfg: WanConfig, f: Family)
      ensures View() == ColdFamily(cfg, f)
      ensures fresh(hyst)
    {
      stats := ColdStats(cfg.Targets(f));
      hyst := new Hysteresis(cfg.consecutiveUp, cfg.consecutiveDown);
      healthy, cooked := false, false;
    }

    // One observation of the stored statistics, a seeding one if it is the
    // first; republish says whether the published verdict differs.
    method Fold(t: Thresholds) returns (republish: bool)
      modifies this, hyst
      ensures View() == FoldedFamily(old(View()), t)
      ensures republish == (!old(cooked) || healthy != old(healthy))
    {
      var raw := Passes(healthy || !cooked, stats, t);
      var stable;
      if cooked {
        stable := hyst.Observe(raw);
      } else {
        stable := hyst.Seed(raw);
      }
      republish := !cooked || stable != healthy;
      cooked := true;
      healthy := stable;
    }
  }

  class Wan {
    const cfg: WanConfig
    var carrier: Carrier
    var operstate: Operstate
    const families: map<Family, FamilyHealth>

    ghost const repr: set<object>
    ghost var view: WanView

    // This WAN's objects, no two Families sharing one, hold what view says.
    ghost predicate Valid()
      reads this, repr
    {
      && this in repr
      && (forall f :: f in families ==> families[f] in repr && families[f].hyst in repr)
      && (forall f, g :: f in families && g in families && f != g ==>
            families[f] != families[g] && families[f].hyst != families[g].hyst)
      && view.cfg == cfg && view.carrier == carrier && view.operstate == operstate
      && view.families.Keys == families.Keys
      && (forall f :: f in families ==> families[f].View() == view.families[f])
    }

    constructor (cfg: WanConfig)
      ensures Valid() && fresh(repr)
      ensures view == ColdWan(cfg)
      ensures this.cfg == cfg
    {
      var fams: map<Family, FamilyHealth> := map[];
      ghost var objects: set<object> := {};
      if cfg.Probes(V4) {
        var f4 := new FamilyHealth(cfg, V4);
        fams := fams[V4 := f4];
        objects := objects + {f4, f4.hyst};
      }
      if cfg.Probes(V6) {
        var f6 := new FamilyHealth(cfg, V6);
        fams := fams[V6 := f6];
        objects := objects + {f6, f6.hyst};
      }
      this.cfg := cfg;
      carrier, operstate := CarrierUnknown, OPER_UNKNOWN;
      families := fams;
      repr := objects + {this};
      view := ColdWan(cfg);
    }

    function CarrierReady(): (up: bool)
      reads this
      ensures up == LinkUp(carrier, operstate)
      ensures carrier == CarrierDown || operstate in {1, 2, 3} ==> !up
      ensures carrier != CarrierDown && operstate !in {1, 2, 3} ==> (up <==> carrier == CarrierUp || operstate == 6)
    {
      if carrier == CarrierDown then false
      else if operstate == OPER_DOWN || operstate == OPER_LOWER_LAYER_DOWN || operstate == OPER_NOT_PRESENT then false
      else carrier == CarrierUp || operstate == OPER_UP
    }

    method CombineFamilies() returns (agree: bool)
      requires Valid()
      ensures agree == FamiliesAgree(cfg.policy, view.families)
    {
      if |families| == 0 {
        return false;
      }
      ghost var votes := set f | f in view.families && Votes(view.families[f]);
      var count := 0;
      var todo := families.Keys;
      ghost var counted: set<Family> := {};
      while todo != {}
        invariant todo <= families.Keys && counted <= votes
        invariant forall f :: f in votes && f !in todo ==> f in counted
        invariant counted !! todo
        invariant count == |counted|
        decreases todo
      {
        var f :| f in todo;
        todo := todo - {f};
        if !families[f].cooked || families[f].healthy {
          count := count + 1;
          counted := counted + {f};
        }
      }
      assert counted == votes;
      if missing :| missing in families.Keys && missing !in votes {
        SmallerSet(votes, families.Keys, missing);
      } else {
        assert votes == families.Keys;
      }
      agree := if cfg.policy == AnyFamily then count > 0 else count == |families|;
      if votes != {} {
        var f :| f in votes;
      }
    }

    method Healthy() returns (h: bool)
      requires Valid()
      ensures h == WanHealthy(view)
    {
      if CarrierReady() {
        h := CombineFamilies();
      } else {
        h := false;
      }
    }

    method State() returns (s: WanState)
      requires Valid()
      ensures s == WanStateOf(view)
    {
      var h := Healthy();
      s := WanState(cfg.iface, carrier, KnownOperstate(operstate), h,
                    map f | f in families :: FamilyState(families[f].healthy, families[f].stats, cfg.Targets(f)));
    }

    // Folds a link event for this WAN's interface.
    method SetLink(e: LinkEvent) returns (flipped: bool, republish: bool)
      requires Valid()
      modifies this
      ensures Valid() && view == old(view).(carrier := e.carrier, operstate := e.operstate)
      ensures flipped == (WanHealthy(view) != WanHealthy(old(view)))
      ensures republish == (PublicsOf(view) != PublicsOf(old(view)))
    {
      var prev := Healthy();
      republish := e.carrier != carrier || e.operstate != operstate;
      carrier := e.carrier;
      operstate := e.operstate;
      view := view.(carrier := e.carrier, operstate := e.operstate);
      var now := Healthy();
      flipped := now != prev;
    }

    // Stores a result's statistics; a cooked Family, or a full Window, folds.
    method Absorb(f: Family, s: FamilyStats) returns (c: Change)
      requires Valid() && f in families
      modifies this, families[f], families[f].hyst
      ensures Valid() && view == ProbedWan(old(view), f, s)
      ensures c == ChangeOf(old(view), view)
    {
      ProbedChange(view, f, s);
      Store(f, s);
      if families[f].cooked || s.windowFilled {
        c := Fold(f);
      } else {
        c := Change([], false);
      }
    }

    method Store(f: Family, s: FamilyStats)
      requires Valid() && f in families
      modifies this, families[f]
      ensures Valid() && view == StoredWan(old(view), f, s)
      ensures families[f].cooked == old(view).families[f].cooked
    {
      families[f].stats := s;
      assert families[f].View() == view.families[f].(stats := s);
      view := view.(families := view.families[f := families[f].View()]);
    }

    method FoldOne(f: Family) returns (republish: bool)
      requires Valid() && f in families
      modifies this, families[f], families[f].hyst
      ensures Valid() && view == FoldedWan(old(view), f)
      ensures republish == (PublicsOf(view) != PublicsOf(old(view)))
    {
      FoldPublics(view, f);
      republish := FoldStored(f);
    }

    method FoldStored(f: Family) returns (republish: bool)
      requires Valid() && f in families
      modifies this, families[f], families[f].hyst
      ensures Valid() && view == FoldedWan(old(view), f)
      ensures republish == (!old(view).families[f].cooked || view.families[f].healthy != old(view).families[f].healthy)
    {
      republish := families[f].Fold(cfg.thresholds);
      view := view.(families := view.families[f := families[f].View()]);
    }

    // Folds the statistics already stored in one Family.
    method Fold(f: Family) returns (c: Change)
      requires Valid() && f in families
      modifies this, families[f], families[f].hyst
      ensures Valid() && view == FoldedWan(old(view), f)
      ensures c == ChangeOf(old(view), view)
    {
      var prev := Healthy();
      var republish := FoldOne(f);
      var now := Healthy();
      c := Change(if now != prev then [cfg.name] else [], republish);
    }
  }

  // All WAN objects by name. view is what they hold.
  class Wans {
    const byName: map<string, Wan>
    ghost const repr: set<object>
    ghost var view: HealthView

    // One WAN's object is the named one, among ours.
    ghost predicate Wired(n: string) {
      n in byName && byName[n].cfg.name == n && byName[n] in repr && byName[n].repr <= repr
    }

    // No two WANs share an object.
    ghost predicate Shape() {
      && (forall n {:trigger Wired(n)} :: n in byName ==> Wired(n))
      && (forall n, m {:trigger Wired(n), Wired(m)} :: n in byName && m in byName && n != m ==> byName[n].repr !! byName[m].repr)
      && this !in repr
    }

    // One WAN's object holds what the view says.
    ghost predicate Mirrored(n: string)
      reads this, repr
    {
      Wired(n) && n in view && byName[n].Valid() && byName[n].view == view[n]
    }

    ghost predicate Valid()
      reads this, repr
    {
      && Shape()
      && view.Keys == byName.Keys
      && forall n {:trigger Mirrored(n)} :: n in byName ==> Mirrored(n)
    }

    // Cold Health for every configured WAN.
    constructor (cfgs: map<string, WanConfig>)
      requires forall n :: n in cfgs ==> cfgs[n].name == n
      ensures Valid() && fresh(repr)
      ensures view == ColdHealth(cfgs)
    {
      var wans: map<string, Wan> := map[];
      ghost var objects: set<object> := {};
      var todo := cfgs.Keys;
      while todo != {}
        invariant todo <= cfgs.Keys && wans.Keys == cfgs.Keys - todo
        invariant fresh(objects)
        invariant forall n :: n in wans ==>
          wans[n].Valid() && wans[n].cfg == cfgs[n] && wans[n].view == ColdWan(cfgs[n])
          && wans[n] in objects && wans[n].repr <= objects
        invariant forall n, m :: n in wans && m in wans && n != m ==> wans[n].repr !! wans[m].repr
        decreases todo
      {
        var n :| n in todo;
        todo := todo - {n};
        var w := new Wan(cfgs[n]);
        objects := objects + w.repr;
        wans := wans[n := w];
      }
      byName := wans;
      repr := objects;
      view := ColdHealth(cfgs);
      new;
      forall n | n in byName ensures Mirrored(n) {
        assert byName[n].view == ColdWan(cfgs[n]);
      }
    }

    // One result taken in; what it flipped and published is reported exactly.
    method Probe(r: ProbeResult) returns (c: Change)
      requires Valid()
      modifies this, repr
      ensures Valid()
      ensures view == Probed(old(view), r)
      ensures Reports(c.flipped, c.republish, old(view), view)
    {
      if r.wan !in byName {
        return Change([], false);
      }
      assert Mirrored(r.wan);
      if r.family !in byName[r.wan].families {
        return Change([], false);
      }
      c := ProbeOne(r.wan, r.family, r.stats);
      OneWanChanges(old(view), r.wan, view[r.wan]);
    }

    method ProbeOne(n: string, f: Family, s: FamilyStats) returns (c: Change)
      requires Valid() && n in byName && f in byName[n].families
      modifies this, repr
      ensures Valid()
      ensures f in old(view)[n].families
      ensures view == old(view)[n := ProbedWan(old(view)[n], f, s)]
      ensures c == ChangeOf(old(view)[n], view[n])
    {
      assert Mirrored(n);
      c := byName[n].Absorb(f, s);
      view := view[n := byName[n].view];
      OthersMirrored(n);
    }

    // Objects of one WAN changed: the others still mirror the view.
    twostate lemma OthersMirrored(n: string)
      requires old(Valid()) && n in byName && n in view
      requires view == old(view)[n := byName[n].view] && byName[n].Valid()
      requires forall o :: o in repr && o !in byName[n].repr ==> unchanged(o)
      ensures forall m {:trigger Mirrored(m)} :: m in byName ==> Mirrored(m)
    {
      assert old(Mirrored(n));
      forall m | m in byName ensures Mirrored(m) {
        assert old(Mirrored(m));
        assert Wired(m) && Wired(n);
      }
    }

    // One link event taken in; the report is exact for the WANs together.
    method Link(e: LinkEvent) returns (c: Change)
      requires Valid()
      modifies this, repr
      ensures Valid()
      ensures view == Linked(old(view), e)
      ensures Reports(c.flipped, c.republish, old(view), view)
      ensures Sorted(c.flipped, NameLeq)
    {
      var flipped, republish := LinkEach(e);
      SortedReport(flipped, republish, old(view), view);
      c := Change(Sort(flipped, NameLeq), republish);
    }

    method LinkEach(e: LinkEvent) returns (flipped: seq<string>, republish: bool)
      requires Valid()
      modifies this, repr
      ensures Valid()
      ensures view == Linked(old(view), e)
      ensures Reports(flipped, republish, old(view), view)
    {
      flipped, republish := [], false;
      var todo := byName.Keys;
      ghost var h := view;
      NothingLinked(h, e);
      while todo != {}
        invariant Valid() && todo <= h.Keys
        invariant LinkProgress(h, e, todo, flipped, republish, view)
        decreases todo
      {
        var n :| n in todo;
        flipped, republish := LinkNext(n, e, flipped, republish, h, todo);
        todo := todo - {n};
      }
      LinkedAll(h, e);
    }

    method LinkNext(n: string, e: LinkEvent, flipped: seq<string>, republish: bool, ghost h: HealthView, ghost todo: set<string>)
      returns (flipped': seq<string>, republish': bool)
      requires Valid() && n in h && n in todo
      requires LinkProgress(h, e, todo, flipped, republish, view)
      modifies this, repr
      ensures Valid()
      ensures LinkProgress(h, e, todo - {n}, flipped', republish', view)
    {
      LinkedOneMore(h, e, todo, n, flipped, republish);
      var flip, moved := LinkOne(n, e);
      flipped' := if flip then flipped + [n] else flipped;
      republish' := republish || moved;
    }

    method LinkOne(n: string, e: LinkEvent) returns (flipped: bool, republish: bool)
      requires Valid() && n in byName
      modifies this, repr
      ensures Valid()
      ensures view == old(view)[n := LinkedWan(old(view)[n], e)]
      ensures flipped == (WanHealthy(view[n]) != WanHealthy(old(view)[n]))
      ensures republish == (PublicsOf(view[n]) != PublicsOf(old(view)[n]))
    {
      assert Mirrored(n);
      if byName[n].cfg.iface != e.name {
        assert view == view[n := view[n]];
        return false, false;
      }
      flipped, republish := byName[n].SetLink(e);
      view := view[n := byName[n].view];
      OthersMirrored(n);
    }

    // Membership in the healthy set, hence false for a name not configured.
    method Healthy(name: string) returns (h: bool)
      requires Valid()
      ensures h <==> name in HealthySet(view)
    {
      if name !in byName {
        return false;
      }
      assert Mirrored(name);
      h := byName[name].Healthy();
    }

    // What State shows of each WAN.
    method Snapshot() returns (out: map<string, WanState>)
      requires Valid()
      ensures out == HealthSnapshot(view)
    {
      out := map[];
      var todo := byName.Keys;
      while todo != {}
        invariant todo <= byName.Keys && out.Keys == byName.Keys - todo
        invariant forall n :: n in out ==> out[n] == WanStateOf(view[n])
        decreases todo
      {
        var n :| n in todo;
        todo := todo - {n};
        assert Mirrored(n);
        var s := byName[n].State();
        out := out[n := s];
      }
    }

    // A full, ordered listing of g's Members as view judges them.
    method MemberHealthOf(g: GroupConfig) returns (out: seq<MemberHealth>)
      requires Valid() && KeyedByWan(g.members)
      ensures Lists(g.members, HealthySet(view), out)
      ensures Sorted(out, ByName)
    {
      ghost var healthy := HealthySet(view);
      var list: seq<MemberHealth> := [];
      var todo := g.members.Keys;
      while todo != {}
        invariant todo <= g.members.Keys
        invariant forall i :: 0 <= i < |list| ==>
          && list[i].member.wan in g.members && g.members[list[i].member.wan] == list[i].member
          && (list[i].healthy <==> list[i].member.wan in healthy)
        invariant forall w :: w in g.members ==> w in todo || Names(list, w)
        decreases todo
      {
        var w :| w in todo;
        todo := todo - {w};
        var h := Healthy(w);
        NamesGrow(list, MemberHealth(g.members[w], h));
        list := list + [MemberHealth(g.members[w], h)];
      }
      ByNameIsLinear();
      SortSorts(list, ByName);
      out := Sort(list, ByName);
      PermutedListing(g.members, healthy, list, out);
    }
  }

  lemma SortedReport(flipped: seq<string>, republish: bool, h: HealthView, h': HealthView)
    requires Reports(flipped, republish, h, h')
    ensures Sorted(Sort(flipped, NameLeq), NameLeq)
    ensures Reports(Sort(flipped, NameLeq), republish, h, h')
  {
    NamesAreLinear();
    SortSorts(flipped, NameLeq);
    var sorted := Sort(flipped, NameLeq);
    forall n ensures n in sorted <==> n in flipped {
      assert n in multiset(sorted) <==> n in multiset(flipped);
    }
  }

  predicate Names(list: seq<MemberHealth>, w: string) {
    exists i :: 0 <= i < |list| && list[i].member.wan == w
  }

  lemma NamesGrow(list: seq<MemberHealth>, m: MemberHealth)
    ensures Names(list + [m], m.member.wan)
    ensures forall w :: Names(list, w) ==> Names(list + [m], w)
  {
    assert (list + [m])[|list|] == m;
    forall w | Names(list, w) ensures Names(list + [m], w) {
      var i :| 0 <= i < |list| && list[i].member.wan == w;
      assert (list + [m])[i] == list[i];
    }
  }

  predicate ByName(a: MemberHealth, b: MemberHealth) {
    NameLeq(a.member.wan, b.member.wan)
  }

  lemma NamesAreLinear()
    ensures LinearOrder(NameLeq)
  {
    forall a, b ensures NameLeq(a, b) || NameLeq(b, a) {
      NameLeqTotal(a, b);
    }
    forall a, b, c | NameLeq(a, b) && NameLeq(b, c) ensures NameLeq(a, c) {
      NameLeqTransitive(a, b, c);
    }
  }

  lemma ByNameIsLinear()
    ensures LinearOrder(ByName)
  {
    forall a: MemberHealth, b: MemberHealth ensures ByName(a, b) || ByName(b, a) {
      NameLeqTotal(a.member.wan, b.member.wan);
    }
    forall a: MemberHealth, b: MemberHealth, c: MemberHealth | ByName(a, b) && ByName(b, c) ensures ByName(a, c) {
      NameLeqTransitive(a.member.wan, b.member.wan, c.member.wan);
    }
  }

  lemma PermutedListing(members: map<string, Member>, healthy: set<string>, list: seq<MemberHealth>, out: seq<MemberHealth>)
    requires Lists(members, healthy, list) && multiset(out) == multiset(list)
    ensures Lists(members, healthy, out)
  {
    forall i | 0 <= i < |out| ensures out[i] in list {
      assert out[i] in multiset(out);
    }
    forall w | w in members ensures exists i :: 0 <= i < |out| && out[i].member.wan == w {
      var j :| 0 <= j < |list| && list[j].member.wan == w;
      assert list[j] in multiset(list);
      assert list[j] in out;
    }
  }

  lemma SmallerSet<T>(a: set<T>, b: set<T>, x: T)
    requires a <= b && x in b && x !in a
    ensures |a| < |b|
  {
    SubsetCard(a, b - {x});
  }
}
