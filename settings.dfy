/** The configuration the input screen collects and the calculations read,
    and the roster shrinkage applied to it. */
module Settings {

  /** The forecast horizon in weeks, planned AHT in seconds, SLA target in
      percent, service time in seconds, and the three shrinkage
      percentages. */
  datatype Config = Config(
    weeks: Weeks,
    plannedAHT: real,
    slaTarget: real,
    serviceTime: real,
    inOfficeShrinkage: real,
    outOfOfficeShrinkage: real,
    billableBreak: real)

  /** The forecast horizon: 4, 8 or 12 weeks. */
  type Weeks = w: int | w == 4 || w == 8 || w == 12 witness 4

  function TotalDays(weeks: Weeks): nat { weeks * 7 }

  predicate IsPercent(p: real) { 0.0 <= p <= 100.0 }

  /** A head count after out-of-office, in-office and billable-break
      shrinkage: `raw * (1 - o/100) * (1 - i/100) * (1 - b/100)`. */
  function Shrunk(raw: real, cfg: Config): real
  {
    raw * Remaining(cfg.outOfOfficeShrinkage) * Remaining(cfg.inOfficeShrinkage) * Remaining(cfg.billableBreak)
  }

  /** Without shrinkage the head count is unchanged. */
  lemma ShrunkWithoutShrinkage(raw: real, cfg: Config)
    requires cfg.outOfOfficeShrinkage == 0.0 && cfg.inOfficeShrinkage == 0.0 && cfg.billableBreak == 0.0
    ensures Shrunk(raw, cfg) == raw
  {
  }

  /** A shrinkage of 100% in any one category leaves nobody. */
  lemma ShrunkFullShrinkage(raw: real, cfg: Config)
    requires cfg.outOfOfficeShrinkage == 100.0 || cfg.inOfficeShrinkage == 100.0 || cfg.billableBreak == 100.0
    ensures Shrunk(raw, cfg) == 0.0
  {
  }

  /** The factor a shrinkage percentage leaves, `1 - p/100`. */
  function Remaining(p: real): real { 1.0 - p / 100.0 }

  lemma RemainingIsFraction(p: real)
    requires IsPercent(p)
    ensures 0.0 <= Remaining(p) <= 1.0
  {
  }

  /** Scaling by a factor in [0, 1] keeps a non-negative value between 0
      and itself. */
  lemma ScaleDown(x: real, f: real)
    requires x >= 0.0 && 0.0 <= f <= 1.0
    ensures 0.0 <= x * f <= x
  {
    assert x * f <= x * 1.0;
  }

  /** With percentages between 0 and 100, shrinkage keeps a non-negative
      head count between 0 and its raw value. */
  lemma ShrunkBounds(raw: real, cfg: Config)
    requires raw >= 0.0
    requires IsPercent(cfg.outOfOfficeShrinkage) && IsPercent(cfg.inOfficeShrinkage) && IsPercent(cfg.billableBreak)
    ensures 0.0 <= Shrunk(raw, cfg) <= raw
  {
    var f1, f2, f3 := Remaining(cfg.outOfOfficeShrinkage), Remaining(cfg.inOfficeShrinkage), Remaining(cfg.billableBreak);
    RemainingIsFraction(cfg.outOfOfficeShrinkage);
    RemainingIsFraction(cfg.inOfficeShrinkage);
    RemainingIsFraction(cfg.billableBreak);
    ScaleDownThrice(raw, f1, f2, f3);
    assert Shrunk(raw, cfg) == raw * f1 * f2 * f3;
  }

  lemma ScaleDownThrice(x: real, f1: real, f2: real, f3: real)
    requires x >= 0.0 && 0.0 <= f1 <= 1.0 && 0.0 <= f2 <= 1.0 && 0.0 <= f3 <= 1.0
    ensures 0.0 <= x * f1 * f2 * f3 <= x
  {
    ScaleDown(x, f1);
    ScaleDown(x * f1, f2);
    ScaleDown(x * f1 * f2, f3);
  }

  /** Shrinkage is monotone in the raw head count. */
  lemma ShrunkMonotone(raw1: real, raw2: real, cfg: Config)
    requires raw1 <= raw2
    requires IsPercent(cfg.outOfOfficeShrinkage) && IsPercent(cfg.inOfficeShrinkage) && IsPercent(cfg.billableBreak)
    ensures Shrunk(raw1, cfg) <= Shrunk(raw2, cfg)
  {
    ShrunkBounds(raw2 - raw1, cfg);
    var f1, f2, f3 := Remaining(cfg.outOfOfficeShrinkage), Remaining(cfg.inOfficeShrinkage), Remaining(cfg.billableBreak);
    assert (raw2 - raw1) * f1 * f2 * f3 == raw2 * f1 * f2 * f3 - raw1 * f1 * f2 * f3;
  }
}
