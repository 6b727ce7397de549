// Runs of calls on the verifier's store: the two maps answer like the history at every moment, no
// request is handed out twice, and what is attached stays attached.
module PendingProofRuns {
  import Index = InvitationIndex
  import opened Options
  import opened PendingProofStore

  // One call on the store. Times are the clock readings it makes.
  datatype Call =
    | AddCall(id: string, proof: Proof, t0: int, t1: int)
    | FindCall(id: string, now: int)
    | InvitationCall(id: string, t0: int, t1: int)
    | TakeCall(oob: string, t0: int, t1: int)
    | AttachCall(id: string, exchange: string, now: int)
    | MarkCall(id: string, message: string, now: int)

  // What each call does to the maps, and what `take` hands out.
  function Next(s: Maps, c: Call): Maps {
    match c
    case AddCall(id, p, t0, _) => WithAdded(Purged(s, t0), id, p)
    case FindCall(_, now) => Purged(s, now)
    case InvitationCall(_, t0, _) => Purged(s, t0)
    case TakeCall(oob, t0, t1) => WithTaken(Purged(s, t0), oob, t1).0
    case AttachCall(id, exchange, _) => WithAttached(s, id, exchange)
    case MarkCall(id, message, _) => WithMarked(s, id, message)
  }

  function HandsOut(s: Maps, c: Call): Option<string> {
    if c.TakeCall? then WithTaken(Purged(s, c.t0), c.oob, c.t1).1 else None
  }

  function States(calls: seq<Call>): Maps {
    if calls == [] then Maps(map[], map[]) else Next(States(calls[..|calls| - 1]), calls[|calls| - 1])
  }

  // What `take` hands out as call number `n`.
  function HandedOut(calls: seq<Call>, n: nat): Option<string>
    requires n < |calls|
  {
    HandsOut(States(calls[..n]), calls[n])
  }

  lemma StatesStep(calls: seq<Call>, k: nat)
    requires k < |calls|
    ensures States(calls[..k + 1]) == Next(States(calls[..k]), calls[k])
  {
    assert calls[..k + 1][..k] == calls[..k];
  }

  // Identifiers are drawn fresh.
  ghost predicate FreshIds(calls: seq<Call>) {
    forall i, j | 0 <= i < j < |calls| && calls[i].AddCall? && calls[j].AddCall? :: calls[i].id != calls[j].id
  }

  // ---- No request is handed out twice, whatever the clock does and whoever shares an invitation ----

  // The step on the index that a call amounts to.
  function IndexStep(s: Maps, c: Call): Index.Step {
    match c
    case AddCall(id, p, t0, _) => Index.Put(DueOobs(s.byPendingId, t0), p.outOfBandId, id)
    case FindCall(_, now) => Index.Purge(DueOobs(s.byPendingId, now))
    case InvitationCall(_, t0, _) => Index.Purge(DueOobs(s.byPendingId, t0))
    case TakeCall(oob, t0, _) => Index.Use(DueOobs(s.byPendingId, t0), oob)
    case AttachCall(_, _, _) => Index.Purge({})
    case MarkCall(_, _, _) => Index.Purge({})
  }

  lemma IndexStepCorrect(s: Maps, c: Call)
    ensures Next(s, c).byOutOfBandId == Index.Next(s.byOutOfBandId, IndexStep(s, c))
    ensures IndexStep(s, c).Put? ==> c.AddCall? && c.id == IndexStep(s, c).id
    ensures HandsOut(s, c).Some? ==> Index.Found(s.byOutOfBandId, IndexStep(s, c)) == HandsOut(s, c)
  {
    hide DueOobs, PurgedEntries;
    assert s.byOutOfBandId - {} == s.byOutOfBandId;
  }

  // Over every sequence of calls on the store, with no order of the clock and no distinct
  // invitations asked for: `take` hands no request out twice.
  lemma HandedOutOnce(calls: seq<Call>, a: nat, b: nat, id: string)
    requires FreshIds(calls) && a < b < |calls|
    requires HandedOut(calls, a) == Some(id)
    ensures HandedOut(calls, b) != Some(id)
  {
    hide Next, HandsOut, IndexStep;
    assert States(calls[..0]).byOutOfBandId == map[];
    hide States;
    var indexes := seq(|calls| + 1, n requires 0 <= n <= |calls| => States(calls[..n]).byOutOfBandId);
    var steps := seq(|calls|, n requires 0 <= n < |calls| => IndexStep(States(calls[..n]), calls[n]));
    forall k | 0 <= k < |steps| ensures indexes[k + 1] == Index.Next(indexes[k], steps[k])
      ensures HandedOut(calls, k).Some? ==> Index.Found(indexes[k], steps[k]) == HandedOut(calls, k)
      ensures steps[k].Put? ==> calls[k].AddCall? && calls[k].id == steps[k].id
    {
      StatesStep(calls, k);
      IndexStepCorrect(States(calls[..k]), calls[k]);
    }
    if HandedOut(calls, b) == Some(id) {
      Index.FoundOnce(indexes, steps, a, b, id);
    }
  }

  // A due request stored under this invitation.
  ghost predicate DueSharer(s: Maps, oob: string, t: int) {
    exists x | x in s.byPendingId :: Due(s.byPendingId[x], t) && s.byPendingId[x].outOfBandId == oob
  }

  // A call leaves an invitation leading to the request it leads to if and only if it neither uses it,
  // nor adds another request under it, nor purges while a due request is stored under it.
  lemma InvitationKeptExactly(s: Maps, c: Call, oob: string, id: string)
    requires oob in s.byOutOfBandId && s.byOutOfBandId[oob] == id
    ensures (oob in Next(s, c).byOutOfBandId && Next(s, c).byOutOfBandId[oob] == id) <==>
      match c
      case AddCall(x, p, t0, _) => if p.outOfBandId == oob then x == id else !DueSharer(s, oob, t0)
      case FindCall(_, now) => !DueSharer(s, oob, now)
      case InvitationCall(_, t0, _) => !DueSharer(s, oob, t0)
      case TakeCall(used, t0, _) => used != oob && !DueSharer(s, oob, t0)
      case AttachCall(_, _, _) => true
      case MarkCall(_, _, _) => true
  {
    hide Due, PurgedEntries;
    if c.AddCall? || c.InvitationCall? || c.TakeCall? {
      DueSharerIndexed(s, oob, c.t0);
    } else if c.FindCall? {
      DueSharerIndexed(s, oob, c.now);
    }
  }

  lemma DueSharerIndexed(s: Maps, oob: string, t: int)
    ensures DueSharer(s, oob, t) <==> oob in DueOobs(s.byPendingId, t)
  {
    hide Due;
    if x :| x in s.byPendingId && Due(s.byPendingId[x], t) && s.byPendingId[x].outOfBandId == oob {
      assert x in s.byPendingId.Keys;
    }
  }

  // ---- What is attached stays attached ----

  predicate Reports(c: Call, id: string) {
    (c.AttachCall? || c.MarkCall?) && c.id == id
  }

  // The request is stored with this exchange attached.
  predicate SentAs(s: Maps, id: string, exchange: string) {
    && id in s.byPendingId && exchange != ""
    && s.byPendingId[id].status.RequestSent? && s.byPendingId[id].proofExchangeRecordId == Some(exchange)
  }

  predicate SettledIn(s: Maps, id: string) {
    id in s.byPendingId && Settled(s.byPendingId[id])
  }

  lemma PurgeKeepsSettled(s: Maps, id: string, t: int)
    requires SettledIn(s, id)
    ensures id in Purged(s, t).byPendingId && Purged(s, t).byPendingId[id] == s.byPendingId[id]
  {
    hide DueOobs;
  }

  lemma SettledLater(p: Proof, message: string, exchange: string)
    ensures Settled(WithError(p, message)) == Settled(p)
    ensures exchange != "" ==> Settled(SentWith(p, exchange))
  {
  }

  lemma CallKeepsSettled(s: Maps, c: Call, id: string)
    requires SettledIn(s, id) && (c.AddCall? ==> c.id != id) && (c.AttachCall? ==> c.exchange != "")
    ensures SettledIn(Next(s, c), id)
  {
    PurgeKeepsSettled(s, id, FirstReading(c));
    var p := s.byPendingId[id];
    SettledLater(p, EXPIRED, "");
    if c.AttachCall? {
      SettledLater(p, "", c.exchange);
    } else if c.MarkCall? {
      SettledLater(p, c.message, "");
    }
    hide Purged, Settled, WithError, SentWith;
  }

  lemma CallKeepsSent(s: Maps, c: Call, id: string, exchange: string)
    requires SentAs(s, id, exchange) && (c.AddCall? ==> c.id != id) && !Reports(c, id)
    ensures SentAs(Next(s, c), id, exchange)
  {
    forall t ensures id in Purged(s, t).byPendingId && Purged(s, t).byPendingId[id] == s.byPendingId[id] {
      PurgeKeepsSettled(s, id, t);
    }
    hide Purged;
  }

  lemma {:induction false} StoredWereAdded(calls: seq<Call>, id: string)
    requires id in States(calls).byPendingId
    ensures exists k | 0 <= k < |calls| :: calls[k].AddCall? && calls[k].id == id
  {
    var init, last := calls[..|calls| - 1], calls[|calls| - 1];
    if last.AddCall? && last.id == id {
      assert calls[|calls| - 1] == last;
    } else {
      CallAddsNothing(States(init), last, id);
      StoredWereAdded(init, id);
      var k :| 0 <= k < |init| && init[k].AddCall? && init[k].id == id;
      assert calls[k] == init[k];
    }
  }

  lemma CallAddsNothing(s: Maps, c: Call, id: string)
    requires id in Next(s, c).byPendingId && !(c.AddCall? && c.id == id)
    ensures id in s.byPendingId
  {
    hide DueOobs, Dropped, Touched;
  }

  lemma NeverAddedAgain(calls: seq<Call>, a: nat, id: string)
    requires FreshIds(calls) && a <= |calls| && id in States(calls[..a]).byPendingId
    ensures forall n | a <= n < |calls| && calls[n].AddCall? :: calls[n].id != id
  {
    hide States;
    StoredWereAdded(calls[..a], id);
    var k :| 0 <= k < a && calls[..a][k].AddCall? && calls[..a][k].id == id;
    assert calls[k] == calls[..a][k];
  }

  lemma AttachSettles(s: Maps, c: Call)
    requires c.AttachCall? && c.id in s.byPendingId && c.exchange != ""
    ensures SentAs(Next(s, c), c.id, c.exchange) && SettledIn(Next(s, c), c.id)
  {
  }

  lemma {:induction false} StaysSettled(calls: seq<Call>, a: nat, b: nat, id: string)
    requires FreshIds(calls) && a < b <= |calls|
    requires forall k | a <= k < b && calls[k].AttachCall? :: calls[k].exchange != ""
    requires calls[a].AttachCall? && calls[a].id == id && id in States(calls[..a]).byPendingId
    ensures SettledIn(States(calls[..b]), id)
  {
    hide States, Next, FreshIds, SettledIn, SentAs;
    StatesStep(calls, b - 1);
    if b == a + 1 {
      AttachSettles(States(calls[..a]), calls[a]);
    } else {
      StaysSettled(calls, a, b - 1, id);
      NeverAddedAgain(calls, a, id);
      CallKeepsSettled(States(calls[..b - 1]), calls[b - 1], id);
    }
  }

  // Once an exchange is attached to a stored request, every later lookup finds the request, with an
  // exchange, whatever the clock does.
  lemma AttachedForever(calls: seq<Call>, a: nat, b: nat, id: string, now: int)
    requires FreshIds(calls) && a < b <= |calls|
    requires forall k | a <= k < b && calls[k].AttachCall? :: calls[k].exchange != ""
    requires calls[a].AttachCall? && calls[a].id == id && id in States(calls[..a]).byPendingId
    ensures Lookup(States(calls[..b]), id, now).Some? && Settled(Lookup(States(calls[..b]), id, now).value)
  {
    hide States, FreshIds, Settled, Purged;
    StaysSettled(calls, a, b, id);
    PurgeKeepsSettled(States(calls[..b]), id, now);
  }

  // ---- The maps and the history, over runs ----

  function After(log: Log, c: Call): Log {
    match c
    case AddCall(id, p, t0, t1) => Added(log, id, p, t0, t1)
    case FindCall(_, now) => Sweep(log, now)
    case InvitationCall(_, t0, t1) => Sweep(log, t0).(now := t1)
    case TakeCall(oob, t0, t1) => Taken(log, oob, t0, t1)
    case AttachCall(id, exchange, now) => Attached(log, id, exchange, now)
    case MarkCall(id, message, now) => Marked(log, id, message, now)
  }

  function History(calls: seq<Call>): Log {
    if calls == [] then EmptyLog else After(History(calls[..|calls| - 1]), calls[|calls| - 1])
  }

  function FirstReading(c: Call): int {
    match c
    case AddCall(_, _, t0, _) => t0
    case FindCall(_, now) => now
    case InvitationCall(_, t0, _) => t0
    case TakeCall(_, t0, _) => t0
    case AttachCall(_, _, now) => now
    case MarkCall(_, _, now) => now
  }

  function LastReading(c: Call): int {
    match c
    case AddCall(_, _, _, t1) => t1
    case FindCall(_, now) => now
    case InvitationCall(_, _, t1) => t1
    case TakeCall(_, _, t1) => t1
    case AttachCall(_, _, now) => now
    case MarkCall(_, _, now) => now
  }

  // The clock, in milliseconds of the epoch, does not run back.
  predicate Ordered(calls: seq<Call>) {
    && (forall k | 0 <= k < |calls| :: 0 <= FirstReading(calls[k]) <= LastReading(calls[k]))
    && (forall i, j | 0 <= i < j < |calls| :: LastReading(calls[i]) <= FirstReading(calls[j]))
  }

  // A new request takes a fresh id and a fresh invitation and starts out pending; an exchange id that
  // is attached is a text.
  ghost predicate Allowed(log: Log, c: Call) {
    && (c.AddCall? ==>
          && c.proof.status.Pending? && c.proof.proofExchangeRecordId.None?
          && Unused(log, c.id, c.proof.outOfBandId))
    && (c.AttachCall? ==> c.exchange != "")
  }

  ghost predicate Run(calls: seq<Call>) {
    && Ordered(calls)
    && forall k | 0 <= k < |calls| :: Allowed(History(calls[..k]), calls[k])
  }

  lemma RunStep(calls: seq<Call>, n: nat)
    requires Run(calls) && n < |calls|
    ensures Allowed(History(calls[..n]), calls[n]) && 0 <= FirstReading(calls[n]) <= LastReading(calls[n])
    ensures n > 0 ==> LastReading(calls[n - 1]) <= FirstReading(calls[n])
    ensures History(calls[..n + 1]) == After(History(calls[..n]), calls[n])
  {
    assert calls[..n + 1][..n] == calls[..n];
  }

  lemma CallAgrees(s: Maps, log: Log, c: Call)
    requires Agrees(s, log) && Allowed(log, c) && log.now <= FirstReading(c) <= LastReading(c)
    ensures Agrees(Next(s, c), After(log, c)) && After(log, c).now == LastReading(c)
  {
    hide Agrees, Purged, WithAdded, WithTaken, WithAttached, WithMarked, Unused, Alive, Seen;
    match c {
      case AddCall(id, p, t0, t1) => AddCallAgrees(s, log, id, p, t0, t1);
      case FindCall(_, now) => PurgeAgrees(s, log, now);
      case InvitationCall(_, t0, t1) =>
        PurgeAgrees(s, log, t0);
        WaitAgrees(Purged(s, t0), Sweep(log, t0), t1);
      case TakeCall(oob, t0, t1) => TakeCallAgrees(s, log, oob, t0, t1);
      case AttachCall(id, exchange, now) => AttachCallAgrees(s, log, id, exchange, now);
      case MarkCall(id, message, now) => MarkCallAgrees(s, log, id, message, now);
    }
  }

  lemma NothingYet(calls: seq<Call>)
    ensures Agrees(States(calls[..0]), History(calls[..0])) && History(calls[..0]).now == 0
  {
  }

  // At every moment of every such run the two maps tell the history's story.
  lemma {:induction false} RunAgrees(calls: seq<Call>, n: nat)
    requires Run(calls) && n <= |calls|
    ensures Agrees(States(calls[..n]), History(calls[..n]))
    ensures History(calls[..n]).now == if n == 0 then 0 else LastReading(calls[n - 1])
  {
    hide Agrees, Allowed, Next, After, States, History, Run, FirstReading, LastReading;
    if n == 0 {
      NothingYet(calls);
    } else {
      RunAgrees(calls, n - 1);
      RunStep(calls, n - 1);
      StatesStep(calls, n - 1);
      CallAgrees(States(calls[..n - 1]), History(calls[..n - 1]), calls[n - 1]);
    }
  }

  // So every lookup finds a request if and only if an exchange is attached or the grace period after
  // its expiry is not over, and every invitation message is served if and only if it is not expired.
  lemma LookupExact(calls: seq<Call>, n: nat, id: string, t0: int, t1: int)
    requires Run(calls) && n <= |calls| && 0 <= t0 <= t1 && (n > 0 ==> LastReading(calls[n - 1]) <= t0)
    ensures var log := History(calls[..n]);
            && (Lookup(States(calls[..n]), id, t0).Some? <==> Findable(log, id, t0))
            && Served(States(calls[..n]), id, t0, t1) ==
               if id in log.items && t1 < log.items[id].proof.expiresAt then Some(log.items[id].proof.invitationMessage)
               else None
  {
    hide Agrees, States, History, Run, LastReading, Lookup, Served, Findable;
    RunAgrees(calls, n);
    LookupAgrees(States(calls[..n]), History(calls[..n]), id, t0);
    ServedAgrees(States(calls[..n]), History(calls[..n]), id, t0, t1);
  }

  // ---- The first use of an invitation ----

  // A call that leaves request `id` waiting: it neither uses its invitation nor reports on it.
  predicate LeavesWaiting(c: Call, id: string, oob: string) {
    !(c.TakeCall? && c.oob == oob) && !Reports(c, id)
  }

  // Request `id` is waiting, or a purge has already found it expired.
  predicate Waiting(log: Log, id: string, oob: string, expiresAt: int, now: int) {
    id in log.items &&
    var e := log.items[id];
    && e.proof.outOfBandId == oob && e.proof.expiresAt == expiresAt && !e.taken
    && (if e.lapsed then expiresAt <= now else e.proof.status.Pending?)
    && (e.proof.status.Pending? ==> !Settled(e.proof))
  }

  lemma NewlyAdded(log: Log, c: Call)
    requires Allowed(log, c) && c.AddCall?
    ensures Waiting(After(log, c), c.id, c.proof.outOfBandId, c.proof.expiresAt, LastReading(c))
  {
  }

  lemma CallLeavesWaiting(log: Log, c: Call, id: string, oob: string, expiresAt: int, now: int)
    requires Waiting(log, id, oob, expiresAt, now) && Allowed(log, c) && LeavesWaiting(c, id, oob)
    requires now <= FirstReading(c) <= LastReading(c)
    ensures Waiting(After(log, c), id, oob, expiresAt, LastReading(c))
  {
    hide Alive;
  }

  lemma {:induction false} WaitsUntilTaken(calls: seq<Call>, a: nat, b: nat, id: string, oob: string, expiresAt: int)
    requires Run(calls) && a < b <= |calls|
    requires calls[a].AddCall? && calls[a].id == id
    requires calls[a].proof.outOfBandId == oob && calls[a].proof.expiresAt == expiresAt
    requires forall k | a < k < b :: LeavesWaiting(calls[k], id, oob)
    ensures Waiting(History(calls[..b]), id, oob, expiresAt, LastReading(calls[b - 1]))
  {
    hide After, Allowed, LeavesWaiting, Waiting, History, Run, FirstReading, LastReading;
    RunStep(calls, b - 1);
    if a + 1 < b {
      WaitsUntilTaken(calls, a, b - 1, id, oob, expiresAt);
      CallLeavesWaiting(History(calls[..b - 1]), calls[b - 1], id, oob, expiresAt, LastReading(calls[b - 2]));
    } else {
      NewlyAdded(History(calls[..a]), calls[a]);
    }
  }

  lemma TakeOfWaiting(log: Log, id: string, oob: string, expiresAt: int, now: int, t: int)
    requires Waiting(log, id, oob, expiresAt, now) && now <= t
    ensures Owns(log, id, oob) && (Takeable(log.items[id], t) <==> t < expiresAt)
  {
  }

  // In every run, the first use of an invitation makes the maps hand its request out if and only if
  // the request has not expired by then (unless an outcome was reported for it before it was used).
  lemma FirstTake(calls: seq<Call>, a: nat, b: nat, id: string, p: Proof)
    requires Run(calls) && a < b < |calls|
    requires calls[a].AddCall? && calls[a].id == id && calls[a].proof == p
    requires forall k | a < k < b :: LeavesWaiting(calls[k], id, p.outOfBandId)
    requires calls[b].TakeCall? && calls[b].oob == p.outOfBandId
    ensures HandedOut(calls, b) == Some(id) <==> calls[b].t1 < p.expiresAt
  {
    hide After, Allowed, LeavesWaiting, Waiting, History, Run, Agrees, States, Takeable, Owns, WithTaken, Purged;
    WaitsUntilTaken(calls, a, b, id, p.outOfBandId, p.expiresAt);
    RunAgrees(calls, b);
    RunStep(calls, b);
    var log, c := History(calls[..b]), calls[b];
    TakeOfWaiting(log, id, c.oob, p.expiresAt, LastReading(calls[b - 1]), c.t1);
    TakeCallAgrees(States(calls[..b]), log, c.oob, c.t0, c.t1);
  }
}
