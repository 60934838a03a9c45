/**
 * Identifiers and timestamps. Database ids are allocated in insertion order, so
 * a collection's natural order is ascending id. Times (`Date.now()`, a mail's
 * date) are opaque values supplied by the caller.
 */
module Ids {
  type RfpId = nat
  type VendorId = nat
  type ProposalId = nat
  type Time = int
}
