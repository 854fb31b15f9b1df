// The validated configuration, reduced to what failover reads.
module Config {
  import opened Basics
  import opened Selector

  datatype Thresholds = Thresholds(lossPctDown: int, lossPctUp: int, rttMsDown: int, rttMsUp: int)

  // The value and ordering checks of the loader.
  predicate ValidThresholds(t: Thresholds) {
    0 <= t.lossPctUp < t.lossPctDown <= 100 && 0 < t.rttMsUp < t.rttMsDown
  }

  datatype Policy = AllFamilies | AnyFamily

  datatype WanConfig = WanConfig(name: string, iface: string, pointToPoint: bool,
                                 targetsV4: seq<string>, targetsV6: seq<string>,
                                 thresholds: Thresholds,
                                 consecutiveUp: int, consecutiveDown: int, policy: Policy)
  {
    function Targets(f: Family): seq<string> {
      if f == V4 then targetsV4 else targetsV6
    }

    // The Families a WAN probes: those with a Target.
    predicate Probes(f: Family) {
      |Targets(f)| > 0
    }

    // The same, as the list callers iterate, v4 first.
    function Families(): (fams: seq<Family>)
      ensures forall f :: f in fams <==> Probes(f)
    {
      (if Probes(V4) then [V4] else []) + (if Probes(V6) then [V6] else [])
    }
  }

  datatype DaemonConfig = DaemonConfig(wans: map<string, WanConfig>, groups: map<string, GroupConfig>)
  {
    // What the loader checks of WANs and Groups, and, for table numbers, what
    // the NixOS module checks.
    ghost predicate Valid() {
      && (forall w {:trigger wans[w]} :: w in wans ==> wans[w].name == w)
      && (forall g {:trigger groups[g]} :: g in groups ==>
            && groups[g].name == g
            && groups[g].strategy == PRIMARY_BACKUP
            && KeyedByWan(groups[g].members)
            && groups[g].members.Keys <= wans.Keys)
      && (forall g, k {:trigger Declares(g), Declares(k)} :: Declares(g) && Declares(k) && g != k ==>
            groups[g].table != groups[k].table)
    }

    predicate Declares(g: string) {
      g in groups
    }
  }
}
