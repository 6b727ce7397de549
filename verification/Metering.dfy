// Metering of billed transactions: the monthly counter of each account and the rate window that
// every metered call passes first, over arbitrary serial runs of calls and account changes.
module Metering {
  import opened Accounts
  import opened Options
  import opened FixedWindow

  datatype Call = Call(accountId: string, count: Option<int>, now: int, periodKey: string)

  datatype Outcome =
    | BadCount
    | NotFound
    | Forbidden
    | RateLimited
    | QuotaExceeded(used: nat)
    | Metered(monthlyTxUsed: nat)

  // The account table, the rate windows in memory and the usage rows by account and period.
  datatype Ledger = Ledger(accounts: map<string, Account>, rateWindows: Windows, usage: map<(string, string), nat>)

  const EMPTY := Ledger(map[], map[], map[])

  function Requested(call: Call): int {
    if call.count.Some? then call.count.value else 1
  }

  function TxCount(s: Ledger, accountId: string, periodKey: string): nat {
    if (accountId, periodKey) in s.usage then s.usage[(accountId, periodKey)] else 0
  }

  // The request the limiter sees, when the call gets that far.
  function LimiterRequest(s: Ledger, call: Call): Option<Request> {
    var count := Requested(call);
    if count < 1 || call.accountId !in s.accounts || !s.accounts[call.accountId].status.Active? then None
    else Some(Request(call.accountId, call.now, count, s.accounts[call.accountId].rateLimitRpm))
  }

  function Metering(s: Ledger, call: Call): (Ledger, Outcome) {
    var count := Requested(call);
    if count < 1 then (s, BadCount)
    else if call.accountId !in s.accounts then (s, NotFound)
    else
      var account := s.accounts[call.accountId];
      if !account.status.Active? then (s, Forbidden)
      else
        var (windows, ok) := Admit(s.rateWindows, Request(call.accountId, call.now, count, account.rateLimitRpm),
            RATE_WINDOW_MS);
        var s' := s.(rateWindows := windows);
        var used := TxCount(s, call.accountId, call.periodKey);
        if !ok then (s', RateLimited)
        else if used + count > account.monthlyTxQuota then (s', QuotaExceeded(used))
        else (s'.(usage := s.usage[(call.accountId, call.periodKey) := used + count]), Metered(used + count))
  }

  class Meter {
    var accounts: map<string, Account>
    var usagePeriods: map<(string, string), nat>
    const limiter: AccountRateLimiter

    ghost function Books(): Ledger
      reads this, limiter
    {
      Ledger(accounts, limiter.rateWindows, usagePeriods)
    }

    constructor ()
      ensures Books() == EMPTY && fresh(limiter)
    {
      accounts, usagePeriods := map[], map[];
      limiter := new AccountRateLimiter();
    }

    // meter
    method Meter(call: Call) returns (outcome: Outcome)
      modifies this, limiter
      ensures (Books(), outcome) == Metering(old(Books()), call)
    {
      var count := 1;
      if call.count.Some? {
        count := call.count.value;
      }
      if count < 1 {
        return BadCount;
      }
      if call.accountId !in accounts {
        return NotFound;
      }
      var account := accounts[call.accountId];
      if account.status != Active {
        return Forbidden;
      }
      var ok := limiter.AssertRateLimit(call.accountId, account.rateLimitRpm, count, call.now);
      if !ok {
        return RateLimited;
      }
      var row := (call.accountId, call.periodKey);
      var txCount := 0;
      if row in usagePeriods {
        txCount := usagePeriods[row];
      }
      if txCount + count > account.monthlyTxQuota {
        return QuotaExceeded(txCount);
      }
      txCount := txCount + count;
      usagePeriods := usagePeriods[row := txCount];
      return Metered(txCount);
    }
  }

  // ---- Runs ----

  // A metered call, or any change to an account: plan, quota or status.
  datatype Op = Use(call: Call) | Change(accountId: string, account: Account)

  function Perform(s: Ledger, op: Op): Ledger {
    match op
    case Use(call) => Metering(s, call).0
    case Change(id, account) => s.(accounts := s.accounts[id := account])
  }

  function Run(ops: seq<Op>): Ledger {
    if ops == [] then EMPTY else Perform(Run(ops[..|ops| - 1]), ops[|ops| - 1])
  }

  // What the last call of a run was answered.
  function Answer(ops: seq<Op>, call: Call): Outcome {
    Metering(Run(ops), call).1
  }

  // Units accepted for an account in a period.
  function Accepted(ops: seq<Op>, accountId: string, periodKey: string): nat {
    if ops == [] then 0
    else
      var init, op := ops[..|ops| - 1], ops[|ops| - 1];
      Accepted(init, accountId, periodKey) +
      if op.Use? && op.call.accountId == accountId && op.call.periodKey == periodKey && Answer(init, op.call).Metered?
      then Requested(op.call) else 0
  }

  // Units accepted, or refused only by the monthly quota, for an account at times in [lo, hi).
  function Passed(ops: seq<Op>, accountId: string, lo: int, hi: int): nat {
    if ops == [] then 0
    else
      var init, op := ops[..|ops| - 1], ops[|ops| - 1];
      Passed(init, accountId, lo, hi) +
      if op.Use? && op.call.accountId == accountId && lo <= op.call.now < hi &&
         (Answer(init, op.call).Metered? || Answer(init, op.call).QuotaExceeded?)
      then Requested(op.call) else 0
  }

  function LimiterRequests(ops: seq<Op>): seq<Request> {
    if ops == [] then []
    else
      var init, op := ops[..|ops| - 1], ops[|ops| - 1];
      var request := if op.Use? then LimiterRequest(Run(init), op.call) else None;
      LimiterRequests(init) + if request.Some? then [request.value] else []
  }

  predicate ClockRuns(ops: seq<Op>) {
    forall i, j | 0 <= i < j < |ops| && ops[i].Use? && ops[j].Use? :: ops[i].call.now <= ops[j].call.now
  }

  // Every usage row is the sum of the counts accepted into it.
  lemma {:induction false} UsageIsAccepted(ops: seq<Op>, accountId: string, periodKey: string)
    ensures TxCount(Run(ops), accountId, periodKey) == Accepted(ops, accountId, periodKey)
  {
    hide Admit;
    if ops != [] {
      UsageIsAccepted(ops[..|ops| - 1], accountId, periodKey);
    }
  }

  // The rate windows are those of the limiter run on the calls that reach it.
  lemma {:induction false} WindowsAreLimiter(ops: seq<Op>)
    ensures Run(ops).rateWindows == After(LimiterRequests(ops), RATE_WINDOW_MS)
  {
    hide Admit, Passed;
    if ops != [] {
      var init, op := ops[..|ops| - 1], ops[|ops| - 1];
      WindowsAreLimiter(init);
      if op.Use? && LimiterRequest(Run(init), op.call).Some? {
        AfterSnoc(LimiterRequests(init), LimiterRequest(Run(init), op.call).value, RATE_WINDOW_MS);
      } else {
        assert LimiterRequests(ops) == LimiterRequests(init);
      }
    }
  }

  // What the limiter let through is what was accepted or refused by the quota.
  lemma {:induction false} PassedIsAdmitted(ops: seq<Op>, accountId: string, lo: int, hi: int)
    ensures Passed(ops, accountId, lo, hi) == Units(LimiterRequests(ops), accountId, lo, hi, RATE_WINDOW_MS)
  {
    hide Admit, After, Units;
    if ops == [] {
      NoUnits(accountId, lo, hi);
    } else {
      var init, op := ops[..|ops| - 1], ops[|ops| - 1];
      PassedIsAdmitted(init, accountId, lo, hi);
      WindowsAreLimiter(init);
      if op.Use? && LimiterRequest(Run(init), op.call).Some? {
        UnitsSnoc(LimiterRequests(init), LimiterRequest(Run(init), op.call).value, accountId, RATE_WINDOW_MS);
      } else {
        assert LimiterRequests(ops) == LimiterRequests(init);
      }
    }
  }

  lemma NoUnits(accountId: string, lo: int, hi: int)
    ensures Units([], accountId, lo, hi, RATE_WINDOW_MS) == 0
  {
  }

  // ---- What a run guarantees ----

  // No limit above `limit` at any call that reaches the limiter.
  predicate LimitsBelow(ops: seq<Op>, limit: nat) {
    forall i | 0 <= i < |LimiterRequests(ops)| :: LimiterRequests(ops)[i].limit <= limit
  }

  lemma {:induction false} RequestsOrderly(ops: seq<Op>, limit: nat)
    requires ClockRuns(ops) && LimitsBelow(ops, limit)
    ensures Orderly(LimiterRequests(ops), limit, 0)
    ensures LimiterRequests(ops) != [] ==>
              exists i :: 0 <= i < |ops| && ops[i].Use? &&
                  ops[i].call.now == LimiterRequests(ops)[|LimiterRequests(ops)| - 1].time
  {
    hide Metering;
    if ops != [] {
      var init, op := ops[..|ops| - 1], ops[|ops| - 1];
      var before, all := LimiterRequests(init), LimiterRequests(ops);
      assert forall i | 0 <= i < |before| :: all[i] == before[i];
      RequestsOrderly(init, limit);
      if |all| > |before| {
        assert op.Use? && all[|before|].time == op.call.now;
        if before != [] {
          var i :| 0 <= i < |init| && init[i].Use? && init[i].call.now == before[|before| - 1].time;
          assert ops[i] == init[i];
        }
      } else if before != [] {
        var i :| 0 <= i < |init| && init[i].Use? && init[i].call.now == before[|before| - 1].time;
        assert ops[i] == init[i];
      }
    }
  }

  // Over every serial run: a usage row is the sum of what was accepted into it; the counter of a
  // rate window is what was accepted or refused by the quota since it opened; and no interval of one
  // window length accepts more than twice the largest rate limit in force.
  lemma MeteringConserves(ops: seq<Op>, accountId: string, periodKey: string, limit: nat, lo: int)
    requires ClockRuns(ops) && LimitsBelow(ops, limit)
    ensures TxCount(Run(ops), accountId, periodKey) == Accepted(ops, accountId, periodKey)
    ensures accountId in Run(ops).rateWindows ==>
              var w := Run(ops).rateWindows[accountId];
              w.count == Passed(ops, accountId, w.start, w.start + 60_000)
    ensures Passed(ops, accountId, lo, lo + 60_000) <= 2 * limit
  {
    hide Run, LimiterRequests, Units, After, Passed;
    UsageIsAccepted(ops, accountId, periodKey);
    WindowsAreLimiter(ops);
    RequestsOrderly(ops, limit);
    SlidingBound(LimiterRequests(ops), accountId, RATE_WINDOW_MS, limit, 0);
    PassedIsAdmitted(ops, accountId, lo, lo + RATE_WINDOW_MS);
    assert InWindow(LimiterRequests(ops), accountId, lo, RATE_WINDOW_MS) <= 2 * limit;
    if accountId in Run(ops).rateWindows {
      var w := Run(ops).rateWindows[accountId];
      PassedIsAdmitted(ops, accountId, w.start, w.start + RATE_WINDOW_MS);
    }
  }

  lemma {:induction false} LimitsBounded(rs: seq<Request>) returns (limit: nat)
    ensures forall i | 0 <= i < |rs| :: rs[i].limit <= limit
  {
    limit := 0;
    if rs != [] {
      limit := LimitsBounded(rs[..|rs| - 1]);
      if limit < rs[|rs| - 1].limit {
        limit := rs[|rs| - 1].limit;
      }
    }
  }

  lemma LargestLimit(ops: seq<Op>) returns (limit: nat)
    ensures LimitsBelow(ops, limit)
  {
    limit := LimitsBounded(LimiterRequests(ops));
  }

  // The start of the window a call at `now` falls in.
  function WindowStart(ops: seq<Op>, accountId: string, now: int): int {
    Current(Run(ops).rateWindows, accountId, now, RATE_WINDOW_MS).start
  }

  // A call is accepted exactly when its count is positive, its account is active and the count fits
  // both beside what passed in the current window and beside what was accepted this month, against
  // the limits in force; the answer is the new monthly total. So no acceptance ends above the quota.
  lemma AcceptedExactly(ops: seq<Op>, call: Call)
    requires ClockRuns(ops + [Use(call)])
    ensures var used := Accepted(ops, call.accountId, call.periodKey);
            var start := WindowStart(ops, call.accountId, call.now);
            var accounts := Run(ops).accounts;
            Answer(ops, call).Metered? <==>
              && Requested(call) >= 1
              && call.accountId in accounts && accounts[call.accountId].status.Active?
              && Passed(ops, call.accountId, start, start + 60_000)
                  + Requested(call) <= accounts[call.accountId].rateLimitRpm
              && used + Requested(call) <= accounts[call.accountId].monthlyTxQuota
    ensures Answer(ops, call).Metered? ==>
              var total := Accepted(ops + [Use(call)], call.accountId, call.periodKey);
              && Answer(ops, call).monthlyTxUsed == total
              && call.accountId in Run(ops).accounts && total <= Run(ops).accounts[call.accountId].monthlyTxQuota
  {
    hide Run, Passed, Metering, WindowStart, ClockRuns;
    assert (ops + [Use(call)])[..|ops|] == ops;
    AnswerExactly(ops, call);
  }

  // Which answer a call gets, decided by the history and the limits in force: the first of these that
  // holds.
  lemma AnswerExactly(ops: seq<Op>, call: Call)
    requires ClockRuns(ops + [Use(call)])
    ensures var accounts, answer := Run(ops).accounts, Answer(ops, call);
            var count := if call.count.Some? then call.count.value else 1;
            var used := Accepted(ops, call.accountId, call.periodKey);
            var start := WindowStart(ops, call.accountId, call.now);
            if count < 1 then answer == BadCount
            else if call.accountId !in accounts then answer == NotFound
            else if accounts[call.accountId].status != Active then answer == Forbidden
            else if Passed(ops, call.accountId, start, start + 60_000) + count > accounts[call.accountId].rateLimitRpm
              then answer == RateLimited
            else if used + count > accounts[call.accountId].monthlyTxQuota then answer == QuotaExceeded(used)
            else answer == Metered(used + count)
  {
    hide Run, Units, After, Admit, LimitsBelow, Passed, LimiterRequests, ClockRuns;
    UsageIsAccepted(ops, call.accountId, call.periodKey);
    if LimiterRequest(Run(ops), call).Some? {
      AdmittedExactly(ops, call);
    }
  }

  // The limiter lets a call through exactly when its count fits beside what passed in its window.
  lemma AdmittedExactly(ops: seq<Op>, call: Call)
    requires ClockRuns(ops + [Use(call)]) && LimiterRequest(Run(ops), call).Some?
    ensures var request, start := LimiterRequest(Run(ops), call).value, WindowStart(ops, call.accountId, call.now);
            Admit(Run(ops).rateWindows, request, RATE_WINDOW_MS).1 <==>
            Passed(ops, call.accountId, start, start + 60_000) + request.count <= request.limit
  {
    hide Run, Units, After, Admit, LimitsBelow, Passed, LimiterRequests;
    var all := ops + [Use(call)];
    var limit := LargestLimit(all);
    assert all[..|ops|] == ops;
    WindowsAreLimiter(ops);
    RequestsOrderly(all, limit);
    LimiterRequestsSnoc(ops, call);
    RefusedOnlyWhenFull(LimiterRequests(ops), LimiterRequest(Run(ops), call).value, RATE_WINDOW_MS, limit, 0);
    var start := WindowStart(ops, call.accountId, call.now);
    PassedIsAdmitted(ops, call.accountId, start, start + RATE_WINDOW_MS);
  }

  lemma LimiterRequestsSnoc(ops: seq<Op>, call: Call)
    requires LimiterRequest(Run(ops), call).Some?
    ensures LimiterRequests(ops + [Use(call)]) == LimiterRequests(ops) + [LimiterRequest(Run(ops), call).value]
  {
    hide Run, LimiterRequest;
    assert (ops + [Use(call)])[..|ops|] == ops;
  }
}
