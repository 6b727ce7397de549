// Metered calls that overlap: a call awaits the database between reading the account, reading the usage
// row and saving it. The rate limit, which lives in memory, holds under any overlap; the monthly counter
// loses exactly what is saved over a row that has changed since it was read.
module MeteringOverlaps {
  import opened Accounts
  import opened Options
  import opened FixedWindow
  import opened M = Metering

  type UsageKey = (string, string)

  // How far a call is: the account read; the rate limit passed; the usage row read and the quota passed.
  datatype Stage =
    | Limiting(request: Request, row: UsageKey, quota: int)
    | Counting(row: UsageKey, count: nat, quota: int)
    | Booking(row: UsageKey, count: nat, quota: int, read: Option<nat>)

  // `booked` adds up the counts of all saves that went through; `asked` lists the requests the limiter
  // saw.
  datatype World = World(
    ledger: Ledger,
    flight: map<nat, Stage>,
    booked: map<UsageKey, nat>,
    asked: seq<Request>)

  const EMPTY_WORLD := World(EMPTY, map[], map[], [])

  datatype Step =
    | ChangeAccount(accountId: string, account: Account)
    | Start(use: nat, call: Call)
    | Advance(use: nat)

  function Used(s: Ledger, row: UsageKey): Option<nat> {
    if row in s.usage then Some(s.usage[row]) else None
  }

  function OrZero(n: Option<nat>): nat {
    if n.Some? then n.value else 0
  }

  function Counter(w: World, row: UsageKey): nat {
    OrZero(Used(w.ledger, row))
  }

  function Booked(w: World, row: UsageKey): nat {
    if row in w.booked then w.booked[row] else 0
  }

  function Put(flight: map<nat, Stage>, use: nat, stage: Option<Stage>): map<nat, Stage> {
    if stage.Some? then flight[use := stage.value] else flight - {use}
  }

  function Started(s: Ledger, call: Call): Option<Stage> {
    var request := LimiterRequest(s, call);
    if request.None? then None
    else Some(Limiting(request.value, (call.accountId, call.periodKey), s.accounts[call.accountId].monthlyTxQuota))
  }

  // The save of a usage row. A row that was missing is inserted, which fails when another call has
  // inserted it in the meantime; one that was there is updated to what was read and the count.
  predicate SaveFails(w: World, row: UsageKey, read: Option<nat>) {
    read.None? && row in w.ledger.usage
  }

  function Saved(w: World, row: UsageKey, count: nat, read: Option<nat>): World {
    w.(ledger := w.ledger.(usage := w.ledger.usage[row := OrZero(read) + count]),
       booked := w.booked[row := Booked(w, row) + count])
  }

  // The next part of a call, up to its next await.
  function Advanced(w: World, use: nat, stage: Stage): World {
    match stage
    case Limiting(request, row, quota) =>
      var (windows, ok) := Admit(w.ledger.rateWindows, request, RATE_WINDOW_MS);
      w.(ledger := w.ledger.(rateWindows := windows), asked := w.asked + [request],
         flight := Put(w.flight, use, if ok then Some(Counting(row, request.count, quota)) else None))
    case Counting(row, count, quota) =>
      var read := Used(w.ledger, row);
      var fits := OrZero(read) + count <= quota;
      w.(flight := Put(w.flight, use, if fits then Some(Booking(row, count, quota, read)) else None))
    case Booking(row, count, _, read) =>
      var rest := w.(flight := w.flight - {use});
      if SaveFails(w, row, read) then rest else Saved(rest, row, count, read)
  }

  function Next(w: World, step: Step): World {
    match step
    case ChangeAccount(id, account) => w.(ledger := w.ledger.(accounts := w.ledger.accounts[id := account]))
    case Start(use, call) =>
      if use in w.flight then w else w.(flight := Put(w.flight, use, Started(w.ledger, call)))
    case Advance(use) => if use in w.flight then Advanced(w, use, w.flight[use]) else w
  }

  function Run(w: World, steps: seq<Step>): World {
    if steps == [] then w else Next(Run(w, steps[..|steps| - 1]), steps[|steps| - 1])
  }

  // ---- What every step keeps ----

  // A pending save read no more than has been booked, and what it is to write is within the quota.
  predicate StageOk(w: World, stage: Stage) {
    stage.Booking? ==>
      && OrZero(stage.read) <= Booked(w, stage.row)
      && OrZero(stage.read) + stage.count <= stage.quota
      && (stage.read.Some? ==> stage.row in w.ledger.usage)
  }

  ghost predicate WorldOk(w: World) {
    && (forall row :: Counter(w, row) <= Booked(w, row))
    && (forall row | row !in w.ledger.usage :: Booked(w, row) == 0)
    && (forall use | use in w.flight :: StageOk(w, w.flight[use]))
    && w.ledger.rateWindows == After(w.asked, RATE_WINDOW_MS)
  }

  // What is pending stays in order while rows and what is booked on them only grow.
  lemma StageKept(w: World, after: World, stage: Stage)
    requires StageOk(w, stage)
    requires forall row :: Booked(w, row) <= Booked(after, row)
    requires forall row | row in w.ledger.usage :: row in after.ledger.usage
    ensures StageOk(after, stage)
  {
  }

  lemma SaveKeeps(w: World, row: UsageKey, count: nat, read: Option<nat>)
    requires WorldOk(w) && OrZero(read) <= Booked(w, row)
    ensures WorldOk(Saved(w, row, count, read))
  {
    hide After;
    var after := Saved(w, row, count, read);
    assert forall other :: Booked(after, other) == Booked(w, other) + if other == row then count else 0;
    forall use | use in w.flight ensures StageOk(after, w.flight[use]) {
      StageKept(w, after, w.flight[use]);
    }
  }

  lemma Rerouted(w: World, use: nat, stage: Option<Stage>)
    requires WorldOk(w) && (stage.Some? ==> StageOk(w, stage.value))
    ensures WorldOk(w.(flight := Put(w.flight, use, stage)))
  {
    hide After;
    var after := w.(flight := Put(w.flight, use, stage));
    assert forall row :: Booked(after, row) == Booked(w, row) && Counter(after, row) == Counter(w, row);
    forall u | u in after.flight ensures StageOk(after, after.flight[u]) {
      StageKept(w, after, after.flight[u]);
    }
  }

  lemma LimiterKeeps(w: World, request: Request)
    requires WorldOk(w)
    ensures WorldOk(w.(ledger := w.ledger.(rateWindows := Admit(w.ledger.rateWindows, request, RATE_WINDOW_MS).0),
                       asked := w.asked + [request]))
  {
    AfterSnoc(w.asked, request, RATE_WINDOW_MS);
    hide After, Admit;
    var after := w.(ledger := w.ledger.(rateWindows := Admit(w.ledger.rateWindows, request, RATE_WINDOW_MS).0),
                    asked := w.asked + [request]);
    assert forall row :: Booked(after, row) == Booked(w, row) && Counter(after, row) == Counter(w, row);
    forall use | use in w.flight ensures StageOk(after, w.flight[use]) {
      StageKept(w, after, w.flight[use]);
    }
  }

  lemma AccountKeeps(w: World, accountId: string, account: Account)
    requires WorldOk(w)
    ensures WorldOk(Next(w, ChangeAccount(accountId, account)))
  {
    hide After;
    var after := Next(w, ChangeAccount(accountId, account));
    assert forall row :: Booked(after, row) == Booked(w, row) && Counter(after, row) == Counter(w, row);
    forall use | use in w.flight ensures StageOk(after, w.flight[use]) {
      StageKept(w, after, w.flight[use]);
    }
  }

  // Under any overlap the counter of a row never exceeds what was booked on it, and the rate windows
  // are those of a limiter that saw the calls one by one.
  lemma StepKeepsInv(w: World, step: Step)
    requires WorldOk(w)
    ensures WorldOk(Next(w, step))
  {
    hide WorldOk, Started, Admit;
    match step {
      case ChangeAccount(id, account) => AccountKeeps(w, id, account);
      case Start(use, call) =>
        StartsUnbooked(w, call);
        Rerouted(w, use, Started(w.ledger, call));
      case Advance(use) =>
        if use in w.flight {
          AdvanceKeeps(w, use);
        }
    }
  }

  lemma StartsUnbooked(w: World, call: Call)
    ensures Started(w.ledger, call).Some? ==> StageOk(w, Started(w.ledger, call).value)
  {
  }

  lemma AdvanceKeeps(w: World, use: nat)
    requires WorldOk(w) && use in w.flight
    ensures WorldOk(Next(w, Advance(use)))
  {
    var stage := w.flight[use];
    assert StageOk(w, stage);
    CountWithin(w, stage);
    hide WorldOk, Admit;
    match stage {
      case Limiting(request, row, quota) =>
        var (windows, ok) := Admit(w.ledger.rateWindows, request, RATE_WINDOW_MS);
        LimiterKeeps(w, request);
        Rerouted(w.(ledger := w.ledger.(rateWindows := windows), asked := w.asked + [request]), use,
                 if ok then Some(Counting(row, request.count, quota)) else None);
      case Counting(row, count, quota) =>
        var read := Used(w.ledger, row);
        Rerouted(w, use, if OrZero(read) + count <= quota then Some(Booking(row, count, quota, read)) else None);
      case Booking(row, count, _, read) =>
        Rerouted(w, use, None);
        SaveKeeps(w.(flight := w.flight - {use}), row, count, read);
    }
  }

  lemma CountWithin(w: World, stage: Stage)
    requires WorldOk(w)
    ensures stage.Counting? ==> OrZero(Used(w.ledger, stage.row)) <= Booked(w, stage.row)
  {
    hide After;
    assert stage.Counting? ==> Counter(w, stage.row) <= Booked(w, stage.row);
  }

  lemma {:induction false} RunKeepsInv(steps: seq<Step>)
    ensures WorldOk(Run(EMPTY_WORLD, steps))
  {
    hide Next, WorldOk;
    if steps == [] {
      assert WorldOk(EMPTY_WORLD) by { EmptyOk(); }
    } else {
      RunKeepsInv(steps[..|steps| - 1]);
      StepKeepsInv(Run(EMPTY_WORLD, steps[..|steps| - 1]), steps[|steps| - 1]);
    }
  }

  lemma EmptyOk()
    ensures WorldOk(EMPTY_WORLD)
  {
  }

  // So whatever overlaps, no interval of one window length lets through more than twice the limit.
  lemma RateBound(steps: seq<Step>, accountId: string, limit: nat, lo: int)
    requires Orderly(Run(EMPTY_WORLD, steps).asked, limit, 0)
    ensures var w := Run(EMPTY_WORLD, steps);
            && InWindow(w.asked, accountId, lo, 60_000) <= 2 * limit
            && (accountId in w.ledger.rateWindows ==>
                  var window := w.ledger.rateWindows[accountId];
                  window.count == InWindow(w.asked, accountId, window.start, 60_000) <= limit)
  {
    RunKeepsInv(steps);
    hide Run;
    SlidingBound(Run(EMPTY_WORLD, steps).asked, accountId, RATE_WINDOW_MS, limit, 0);
  }

  // ---- Exactly when a save loses counts ----

  // What was booked on a row and is missing from its counter.
  function Lost(w: World, row: UsageKey): int {
    Booked(w, row) - Counter(w, row)
  }

  // A save that updates a row loses what was added to the row since it read it, and gives back what was
  // lost from it; a save that inserts a row loses nothing and fails if the row is there.
  lemma SaveExact(w: World, use: nat, other: UsageKey)
    requires WorldOk(w) && use in w.flight && w.flight[use].Booking?
    ensures var after := Next(w, Advance(use));
            var Booking(row, count, quota, read) := w.flight[use];
            && (SaveFails(w, row, read) ==> after.ledger == w.ledger && after.booked == w.booked)
            && (!SaveFails(w, row, read) ==>
                  && Counter(after, row) == OrZero(read) + count <= quota
                  && Booked(after, row) == Booked(w, row) + count
                  && Lost(after, row) == Lost(w, row) + Counter(w, row) - OrZero(read))
            && (other != row ==>
                  Used(after.ledger, other) == Used(w.ledger, other) && Booked(after, other) == Booked(w, other))
  {
  }

  // The row is not as the save read it.
  predicate Outdated(w: World, step: Step, row: UsageKey) {
    && step.Advance? && step.use in w.flight
    && match w.flight[step.use]
       case Booking(r, _, _, Some(read)) => r == row && read != Counter(w, row)
       case _ => false
  }

  // A counter that is what was booked stays so through every step but exactly such a save.
  lemma StepCountsExact(w: World, step: Step, row: UsageKey)
    requires WorldOk(w) && Lost(w, row) == 0
    ensures Lost(Next(w, step), row) == 0 <==> !Outdated(w, step, row)
  {
    hide After, Admit;
    match step {
      case Advance(use) =>
        if use in w.flight && w.flight[use].Booking? {
          SaveExact(w, use, row);
        }
      case _ => {}
    }
  }

  predicate NoneOutdated(steps: seq<Step>, row: UsageKey) {
    forall i | 0 <= i < |steps| :: !Outdated(Run(EMPTY_WORLD, steps[..i]), steps[i], row)
  }

  // Over every run without such a save the counter is the sum of what was booked.
  lemma {:induction false} RunCounts(steps: seq<Step>, row: UsageKey)
    requires NoneOutdated(steps, row)
    ensures Counter(Run(EMPTY_WORLD, steps), row) == Booked(Run(EMPTY_WORLD, steps), row)
  {
    hide Next, WorldOk, Outdated;
    if steps != [] {
      var init := steps[..|steps| - 1];
      assert forall i | 0 <= i < |init| :: init[i] == steps[i] && init[..i] == steps[..i];
      RunCounts(init, row);
      RunKeepsInv(init);
      StepCountsExact(Run(EMPTY_WORLD, init), steps[|steps| - 1], row);
    }
  }

  // And no save of it books past the quota the call read with the account.
  lemma BookedWithinQuota(steps: seq<Step>, use: nat)
    requires steps != [] && steps[|steps| - 1] == Advance(use)
    requires var w := Run(EMPTY_WORLD, steps[..|steps| - 1]); use in w.flight && w.flight[use].Booking?
    requires NoneOutdated(steps, Run(EMPTY_WORLD, steps[..|steps| - 1]).flight[use].row)
    ensures var stage := Run(EMPTY_WORLD, steps[..|steps| - 1]).flight[use];
            var w, after := Run(EMPTY_WORLD, steps[..|steps| - 1]), Run(EMPTY_WORLD, steps);
            Booked(after, stage.row) <= stage.quota || after.ledger == w.ledger
  {
    var init := steps[..|steps| - 1];
    var w := Run(EMPTY_WORLD, init);
    RunKeepsInv(init);
    RunCounts(steps, w.flight[use].row);
    hide WorldOk, NoneOutdated;
    SaveExact(w, use, w.flight[use].row);
  }

  // ---- A call by itself ----

  lemma RunSnoc(w: World, steps: seq<Step>, step: Step)
    ensures Run(w, steps + [step]) == Next(Run(w, steps), step)
  {
    assert (steps + [step])[..|steps|] == steps;
  }

  function Steps(use: nat, call: Call): seq<Step> {
    [Start(use, call)] + [Advance(use)] + [Advance(use)] + [Advance(use)]
  }

  // With nothing in between, the parts of a call do what the whole call does.
  lemma StagedMetering(w: World, use: nat, call: Call)
    requires use !in w.flight
    ensures Run(w, Steps(use, call)).ledger == Metering(w.ledger, call).0
  {
    var s := [Start(use, call)];
    assert [] + s == s && Run(w, []) == w;
    hide Next;
    RunSnoc(w, [], Start(use, call));
    RunSnoc(w, s, Advance(use));
    RunSnoc(w, s + [Advance(use)], Advance(use));
    RunSnoc(w, s + [Advance(use)] + [Advance(use)], Advance(use));
    hide Run;
    if LimiterRequest(w.ledger, call).Some? {
      StartsLimiting(w, use, call);
      LimitedCall(w.(flight := w.flight[use := Started(w.ledger, call).value]), use);
    } else {
      NothingStarts(w, use, call);
    }
  }

  lemma StartsLimiting(w: World, use: nat, call: Call)
    requires use !in w.flight && LimiterRequest(w.ledger, call).Some?
    ensures Next(w, Start(use, call)) == w.(flight := w.flight[use := Started(w.ledger, call).value])
  {
  }

  lemma NothingStarts(w: World, use: nat, call: Call)
    requires use !in w.flight && LimiterRequest(w.ledger, call).None?
    ensures Next(w, Start(use, call)) == w == Next(w, Advance(use))
    ensures Metering(w.ledger, call).0 == w.ledger
  {
    assert w.flight - {use} == w.flight;
  }

  // What a call that has read its account does to the tables when nothing comes in between.
  lemma LimitedCall(w: World, use: nat)
    requires use in w.flight && w.flight[use].Limiting?
    ensures var Limiting(request, row, quota) := w.flight[use];
            var (windows, ok) := Admit(w.ledger.rateWindows, request, RATE_WINDOW_MS);
            var total := OrZero(Used(w.ledger, row)) + request.count;
            Next(Next(Next(w, Advance(use)), Advance(use)), Advance(use)).ledger
            == w.ledger.(rateWindows := windows,
                         usage := if ok && total <= quota then w.ledger.usage[row := total] else w.ledger.usage)
  {
    hide Admit;
  }

  // ---- A run that passes the quota ----

  const TIGHT := Account(Active, Free, 0, 3, 2)

  function OneMore(id: string): Call {
    Call(id, None, 0, "2026-01")
  }

  function Base(id: string): seq<Step> {
    [ChangeAccount(id, TIGHT)] + [Start(0, OneMore(id))] + [Advance(0)] + [Advance(0)] + [Advance(0)]
  }

  // A first call of an account that may make two a month, and then two that overlap.
  function Overlapping(id: string): seq<Step> {
    Base(id) + [Start(1, OneMore(id))] + [Start(2, OneMore(id))]
      + [Advance(1)] + [Advance(2)] + [Advance(1)] + [Advance(2)] + [Advance(1)] + [Advance(2)]
  }

  // The world with `n` requests let through, a counter that reads `counter`, and `booked` booked.
  function At(id: string, n: nat, counter: Option<nat>, booked: nat, flight: map<nat, Stage>): World {
    var row := (id, "2026-01");
    World(Ledger(map[id := TIGHT], if n == 0 then map[] else map[id := Window(0, n)],
                 if counter.Some? then map[row := counter.value] else map[]),
          flight, if counter.Some? then map[row := booked] else map[],
          seq(n, _ => Request(id, 0, 1, 3)))
  }

  lemma StepsAt(id: string, n: nat, counter: Option<nat>, booked: nat, flight: map<nat, Stage>, use: nat)
    ensures var w, row := At(id, n, counter, booked, flight), (id, "2026-01");
            && (use !in flight ==>
                  Next(w, Start(use, OneMore(id)))
                  == w.(flight := flight[use := Limiting(Request(id, 0, 1, 3), row, 2)]))
            && (use in flight && flight[use] == Limiting(Request(id, 0, 1, 3), row, 2) && n < 3 ==>
                  Next(w, Advance(use)) == At(id, n + 1, counter, booked, flight[use := Counting(row, 1, 2)]))
            && (use in flight && flight[use] == Counting(row, 1, 2) && OrZero(counter) < 2 ==>
                  Next(w, Advance(use)) == w.(flight := flight[use := Booking(row, 1, 2, counter)]))
  {
    assert seq(n, _ => Request(id, 0, 1, 3)) + [Request(id, 0, 1, 3)] == seq(n + 1, _ => Request(id, 0, 1, 3));
  }
  lemma SavesAt(id: string, n: nat, counter: Option<nat>, booked: nat, flight: map<nat, Stage>, use: nat)
    requires use in flight && flight[use].Booking? && flight[use].row == (id, "2026-01") && flight[use].count == 1
    requires flight[use].read.None? <==> counter.None?
    requires counter.None? ==> booked == 0
    ensures Next(At(id, n, counter, booked, flight), Advance(use))
         == At(id, n, Some(OrZero(flight[use].read) + 1), booked + 1, flight - {use})
  {
  }

  lemma BaseRun(id: string)
    ensures Run(EMPTY_WORLD, Base(id)) == At(id, 1, Some(1), 1, map[])
  {
    var row := (id, "2026-01");
    var s := [ChangeAccount(id, TIGHT)];
    var f0: map<nat, Stage> := map[];
    var f1 := f0[0 := Limiting(Request(id, 0, 1, 3), row, 2)];
    var f2, f3 := f1[0 := Counting(row, 1, 2)], f1[0 := Counting(row, 1, 2)][0 := Booking(row, 1, 2, None)];
    assert [] + s == s && Run(EMPTY_WORLD, []) == EMPTY_WORLD;
    RunSnoc(EMPTY_WORLD, [], s[0]);
    FirstAccount(id);
    StepsAt(id, 0, None, 0, f0, 0);
    StepsAt(id, 0, None, 0, f1, 0);
    StepsAt(id, 1, None, 0, f2, 0);
    SavesAt(id, 1, None, 0, f3, 0);
    SameAt(id, 0, None, 0, f0, f1);
    SameAt(id, 1, None, 0, f2, f3);
    assert f3 - {0} == f0;
    hide Run, Next, At;
    RunSnoc(EMPTY_WORLD, s, Start(0, OneMore(id)));
    RunSnoc(EMPTY_WORLD, s + [Start(0, OneMore(id))], Advance(0));
    RunSnoc(EMPTY_WORLD, s + [Start(0, OneMore(id))] + [Advance(0)], Advance(0));
    RunSnoc(EMPTY_WORLD, s + [Start(0, OneMore(id))] + [Advance(0)] + [Advance(0)], Advance(0));
  }

  lemma FirstAccount(id: string)
    ensures Next(EMPTY_WORLD, ChangeAccount(id, TIGHT)) == At(id, 0, None, 0, map[])
  {
  }

  lemma SameAt(id: string, n: nat, counter: Option<nat>, booked: nat, flight: map<nat, Stage>, to: map<nat, Stage>)
    ensures At(id, n, counter, booked, flight).(flight := to) == At(id, n, counter, booked, to)
  {
  }

  // Both calls read the counter before either saves it: three are booked on a quota of two, and the
  // counter says two.
  lemma LostCountReachable(id: string)
    ensures var w, row := Run(EMPTY_WORLD, Overlapping(id)), (id, "2026-01");
            && w.ledger.accounts == map[id := TIGHT]
            && Booked(w, row) == 3 > TIGHT.monthlyTxQuota == Counter(w, row)
  {
    hide Run, Next;
    BaseRun(id);
    OverlappingRun(id);
    OverlapEnds(id);
  }

  function Eight(w: World, id: string): World {
    var started := Next(Next(w, Start(1, OneMore(id))), Start(2, OneMore(id)));
    Next(Next(Next(Next(Next(Next(started, Advance(1)), Advance(2)), Advance(1)), Advance(2)), Advance(1)), Advance(2))
  }

  lemma OverlapEnds(id: string)
    ensures exists flight :: Eight(At(id, 1, Some(1), 1, map[]), id) == At(id, 3, Some(2), 3, flight)
  {
    hide Next, At;
    var row := (id, "2026-01");
    var limiting, counting := Limiting(Request(id, 0, 1, 3), row, 2), Counting(row, 1, 2);
    var booking := Booking(row, 1, 2, Some(1));
    var f0: map<nat, Stage> := map[];
    var f1, f2 := f0[1 := limiting], f0[1 := limiting][2 := limiting];
    var f3, f4 := f2[1 := counting], f2[1 := counting][2 := counting];
    var f5, f6 := f4[1 := booking], f4[1 := booking][2 := booking];
    StepsAt(id, 1, Some(1), 1, f0, 1);
    SameAt(id, 1, Some(1), 1, f0, f1);
    StepsAt(id, 1, Some(1), 1, f1, 2);
    SameAt(id, 1, Some(1), 1, f1, f2);
    StepsAt(id, 1, Some(1), 1, f2, 1);
    StepsAt(id, 2, Some(1), 1, f3, 2);
    StepsAt(id, 3, Some(1), 1, f4, 1);
    SameAt(id, 3, Some(1), 1, f4, f5);
    StepsAt(id, 3, Some(1), 1, f5, 2);
    SameAt(id, 3, Some(1), 1, f5, f6);
    SavesAt(id, 3, Some(1), 1, f6, 1);
    SavesAt(id, 3, Some(2), 2, f6 - {1}, 2);
  }

  lemma OverlappingRun(id: string)
    ensures Run(EMPTY_WORLD, Overlapping(id)) == Eight(Run(EMPTY_WORLD, Base(id)), id)
  {
    hide Run, Next;
    var s1 := Base(id) + [Start(1, OneMore(id))];
    var s2 := s1 + [Start(2, OneMore(id))];
    var s3, s4 := s2 + [Advance(1)], s2 + [Advance(1)] + [Advance(2)];
    var s5, s6 := s4 + [Advance(1)], s4 + [Advance(1)] + [Advance(2)];
    RunSnoc(EMPTY_WORLD, Base(id), Start(1, OneMore(id)));
    RunSnoc(EMPTY_WORLD, s1, Start(2, OneMore(id)));
    RunSnoc(EMPTY_WORLD, s2, Advance(1));
    RunSnoc(EMPTY_WORLD, s3, Advance(2));
    RunSnoc(EMPTY_WORLD, s4, Advance(1));
    RunSnoc(EMPTY_WORLD, s5, Advance(2));
    RunSnoc(EMPTY_WORLD, s6, Advance(1));
    RunSnoc(EMPTY_WORLD, s6 + [Advance(1)], Advance(2));
  }
}
