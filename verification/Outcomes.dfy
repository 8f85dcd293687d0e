/** The authority outcomes shared by classification, WorkOrders and tools (src/shared/runtimeTypes.ts). */
module Outcomes {
  datatype Outcome = Act | ActAndReport | Escalate | SetupRequired | CapabilityMissing | Refuse
}
