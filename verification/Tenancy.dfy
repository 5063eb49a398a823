/** Tenants and their plans, which limit requests, tasks and streams alike. */
module Tenancy {
  type TenantId = nat

  datatype TenantPlan = Trial | Entry | Pro | Enterprise
}
