/** The constants of the contracts. Amounts are in wei, ratios and rates in 18 or more decimals. */
module Protocol {

  const DECIMAL_PRECISION: nat := 1000000000000000000
  const RATE_PRECISION: nat := 1000000000000000000000000000
  const NICR_PRECISION: nat := 100000000000000000000

  const MCR: nat := 1100000000000000000
  const HCR: nat := 1300000000000000000
  const LIQUIDATION_PENALTY: nat := 1050000000000000000
  const LIQUIDATION_PENALTY_REDIST: nat := 1100000000000000000
  const PERCENT_DIVISOR: nat := 200

  const LUSD_GAS_COMPENSATION: nat := 200000000000000000000
  const MIN_NET_DEBT: nat := 1800000000000000000000
  const MIN_LUSD_IN_SP: nat := 1000000000000000000
}
