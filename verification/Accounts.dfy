// Customer accounts and the plan catalogue their quotas are copied from.
module Accounts {
  datatype AccountStatus = Active | Suspended | PastDue
  datatype PlanId = Free | Pro | ProDouble | Business

  datatype Account = Account(status: AccountStatus, plan: PlanId, maxProducts: int, rateLimitRpm: int,
      monthlyTxQuota: int)

  // normalizePlanId: `paid` is an old name of `pro`, and anything unknown is `free`.
  function NormalizePlanId(value: string): PlanId {
    if value == "paid" || value == "pro" then Pro
    else if value == "pro_double" then ProDouble
    else if value == "business" then Business
    else Free
  }

  function WithPlan(account: Account, plan: PlanId): Account {
    match plan
    case Free => account.(plan := plan, maxProducts := 2, rateLimitRpm := 30, monthlyTxQuota := 5_000)
    case Pro => account.(plan := plan, maxProducts := 2, rateLimitRpm := 600, monthlyTxQuota := 100_000)
    case ProDouble => account.(plan := plan, maxProducts := 10, rateLimitRpm := 1_200, monthlyTxQuota := 200_000)
    case Business => account.(plan := plan, maxProducts := 20, rateLimitRpm := 3_000, monthlyTxQuota := 1_000_000)
  }

  // The plan catalogue: products, requests a minute, transactions a month.
  lemma Catalogue(account: Account, plan: PlanId)
    ensures var after := WithPlan(account, plan);
            && after.status == account.status && after.plan == plan
            && (after.maxProducts, after.rateLimitRpm, after.monthlyTxQuota)
            == match plan
               case Free => (2, 30, 5_000)
               case Pro => (2, 600, 100_000)
               case ProDouble => (10, 1_200, 200_000)
               case Business => (20, 3_000, 1_000_000)
    ensures NewAccount(plan) == WithPlan(account, plan).(status := Active)
  {
  }

  lemma PlanNames(value: string)
    ensures match value
            case "paid" => NormalizePlanId(value) == Pro
            case "pro" => NormalizePlanId(value) == Pro
            case "pro_double" => NormalizePlanId(value) == ProDouble
            case "business" => NormalizePlanId(value) == Business
            case _ => NormalizePlanId(value) == Free
  {
  }

  function NewAccount(plan: PlanId): Account {
    WithPlan(Account(Active, plan, 0, 0, 0), plan)
  }
}
