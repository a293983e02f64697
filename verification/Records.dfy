/**
 * The inputs of the Credit Limit. Identifiers are strings already in lower case,
 * amounts and times are unsigned integers of any size.
 */
module Records {
  type Id = string

  /** One committed Settlement. firstDeliveryAt is 0 when no Metered Delivery was recorded. */
  datatype SettlementRecord = SettlementRecord(
    serviceId: Id, asset: Id, amount: nat, settledAt: nat, firstDeliveryAt: nat, curated: bool, bonded: bool)

  datatype BondEntry = BondEntry(serviceId: Id, asset: Id, amount: nat)

  /** Past this many records a history is refused. */
  const MAX_HISTORY := 512
  /** Past this many counterparties a history is refused. */
  const MAX_COUNTERPARTIES := 32
}
