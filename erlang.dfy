/** The queueing functions of the Erlang library (`src/lib/erlang`), which
    is not part of this model. The components receive them as a record of
    function values, so every statement proved about a component holds
    whatever the library computes, or names the property of the library it
    relies on. */
module Erlang {

  datatype Library = Library(
    /** `calculateEffectiveVolume(volume, outOfOffice, inOffice, billableBreak)` */
    effectiveVolume: (real, real, real, real) -> real,
    /** `erlangAgents(target, serviceTime, trafficIntensity, aht)` */
    agents: (real, real, real, real) -> real,
    /** `calculateSLA(volume, aht, serviceTime, agents)`, a fraction */
    sla: (real, real, real, real) -> real,
    /** `erlangUtilization(trafficIntensity, agents)`, a fraction */
    utilization: (real, real) -> real,
    /** `calculateVariance(rostered, required)` */
    variance: (real, real) -> real,
    /** `calculateCallTrend(effectiveVolume, volume)` */
    callTrend: (real, real) -> real,
    /** `calculateInflux(volume, hours)` */
    influx: (real, real) -> real,
    /** `calculateAgentDistributionRatio(agents, totalAgents)` */
    distributionRatio: (real, real) -> real)

  /** The service level the library reports is a fraction in [0, 1]. */
  ghost predicate SlaIsFraction(lib: Library)
  {
    forall v, a, t, n :: 0.0 <= lib.sla(v, a, t, n) <= 1.0
  }

  /** The utilisation the library reports is a fraction in [0, 1]. */
  ghost predicate UtilizationIsFraction(lib: Library)
  {
    forall t, n :: 0.0 <= lib.utilization(t, n) <= 1.0
  }

  /** The effective volume of a non-negative volume is non-negative. */
  ghost predicate EffectiveVolumeNonNegative(lib: Library)
  {
    forall v, o, i, b :: v >= 0.0 ==> lib.effectiveVolume(v, o, i, b) >= 0.0
  }

  /** The variance the library reports is rostered minus required. */
  ghost predicate VarianceIsDifference(lib: Library)
  {
    forall r, q :: lib.variance(r, q) == r - q
  }
}
