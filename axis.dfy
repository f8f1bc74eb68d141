/**
 * `axis_helper.h`: the axis identifiers and the choice of configuration
 * record for an axis.
 */
module Axis {
  import opened Config
  import opened Wrappers

  /** `Axis_t`: the enumeration's values, kept as integers because callers pass any value. */
  type AxisId = int

  const Tilt: AxisId := 1
  const Pan: AxisId := 2
  const Both: AxisId := 3

  /** The axes that have a configuration record. */
  predicate IsSingle(axis: AxisId) {
    axis == Tilt || axis == Pan
  }

  /**
   * `GetAxisCfg`: TILT selects `axis1_cfg` and PAN selects `axis2_cfg`;
   * every other value, BOTH included, yields NULL.
   */
  function GetAxisCfg(cfg: Config, axis: AxisId): (r: Option<AxisConfig>)
    ensures r.Some? <==> IsSingle(axis)
  {
    if axis == Tilt then Some(cfg.axis1)
    else if axis == Pan then Some(cfg.axis2)
    else None
  }

  /** The record of an axis that has one. */
  function AxisCfg(cfg: Config, axis: AxisId): AxisConfig
    requires IsSingle(axis)
  {
    GetAxisCfg(cfg, axis).value
  }

  /** TILT reads the first record and PAN the second, whatever the records' names say. */
  lemma AxisSelection(cfg: Config)
    ensures AxisCfg(cfg, Tilt) == cfg.axis1 && AxisCfg(cfg, Pan) == cfg.axis2
    ensures GetAxisCfg(cfg, Both) == None
  {}
}
