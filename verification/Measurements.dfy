// What a probe cycle reports: per-Target and per-Family statistics. Losses
// are rationals and kept as reals; None stands for no data.
module Measurements {
  import opened Basics

  datatype TargetStats = TargetStats(target: string, rttMicros: Option<nat>, exactLoss: Option<real>)

  datatype FamilyStats = FamilyStats(rttMicros: Option<nat>, exactLoss: Option<real>,
                                     windowFilled: bool, perTarget: seq<TargetStats>)

  datatype ProbeResult = ProbeResult(wan: string, family: Family, stats: FamilyStats)
}
