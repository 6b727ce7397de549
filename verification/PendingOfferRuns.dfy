// Runs of calls on the issuer's store: the two maps answer like the history at every moment, and no
// offer is handed out twice.
module PendingOfferRuns {
  import Index = InvitationIndex
  import opened Options
  import opened PendingOfferStore

  // One call on the store. Times are the clock readings it makes.
  datatype Call =
    | AddCall(id: string, offer: Offer, t0: int, t1: int)
    | InvitationCall(id: string, t0: int, t1: int)
    | TakeCall(oob: string, t0: int, t1: int)

  // What each call does to the maps, and what `take` hands out.
  function Next(s: Maps, c: Call): Maps {
    match c
    case AddCall(id, offer, t0, _) => WithAdded(Purged(s, t0), id, offer)
    case InvitationCall(_, t0, _) => Purged(s, t0)
    case TakeCall(oob, t0, t1) => WithTaken(Purged(s, t0), oob, t1).0
  }

  function HandsOut(s: Maps, c: Call): Option<string> {
    if c.TakeCall? then WithTaken(Purged(s, c.t0), c.oob, c.t1).1 else None
  }

  function States(calls: seq<Call>): Maps {
    if calls == [] then Maps(map[], map[]) else Next(States(calls[..|calls| - 1]), calls[|calls| - 1])
  }

  // What `take` hands out as call number `n`.
  function HandedOut(calls: seq<Call>, n: nat): Option<string>
    requires n < |calls|
  {
    HandsOut(States(calls[..n]), calls[n])
  }

  // ---- No offer is handed out twice, whatever the clock does and whoever shares an invitation ----

  ghost predicate FreshIds(calls: seq<Call>) {
    forall i, j | 0 <= i < j < |calls| && calls[i].AddCall? && calls[j].AddCall? :: calls[i].id != calls[j].id
  }

  // The step on the index that a call amounts to.
  function IndexStep(s: Maps, c: Call): Index.Step {
    var dropped := ExpiredOobs(s.byPendingId, s.byPendingId.Keys, c.t0);
    match c
    case AddCall(id, offer, _, _) => Index.Put(dropped, offer.outOfBandId, id)
    case InvitationCall(_, _, _) => Index.Purge(dropped)
    case TakeCall(oob, _, _) => Index.Use(dropped, oob)
  }

  lemma CallStep(calls: seq<Call>, k: nat)
    requires k < |calls|
    ensures States(calls[..k + 1]) == Next(States(calls[..k]), calls[k])
    ensures var s, c := States(calls[..k]), calls[k];
            && States(calls[..k + 1]).byOutOfBandId == Index.Next(s.byOutOfBandId, IndexStep(s, c))
            && (IndexStep(s, c).Put? ==> c.AddCall? && c.id == IndexStep(s, c).id)
            && (HandsOut(s, c).Some? ==> Index.Found(s.byOutOfBandId, IndexStep(s, c)) == HandsOut(s, c))
  {
    hide ExpiredOobs, Unexpired;
    assert calls[..k + 1][..k] == calls[..k];
  }

  // Over every sequence of calls on the store: `take` hands no offer out twice.
  lemma HandedOutOnce(calls: seq<Call>, a: nat, b: nat, id: string)
    requires FreshIds(calls) && a < b < |calls|
    requires HandedOut(calls, a) == Some(id)
    ensures HandedOut(calls, b) != Some(id)
  {
    hide Next, HandsOut, IndexStep;
    assert States(calls[..0]).byOutOfBandId == map[];
    hide States;
    var indexes := seq(|calls| + 1, n requires 0 <= n <= |calls| => States(calls[..n]).byOutOfBandId);
    var steps := seq(|calls|, n requires 0 <= n < |calls| => IndexStep(States(calls[..n]), calls[n]));
    forall k | 0 <= k < |steps| ensures indexes[k + 1] == Index.Next(indexes[k], steps[k])
      ensures HandedOut(calls, k).Some? ==> Index.Found(indexes[k], steps[k]) == HandedOut(calls, k)
      ensures steps[k].Put? ==> calls[k].AddCall? && calls[k].id == steps[k].id
    {
      CallStep(calls, k);
    }
    if HandedOut(calls, b) == Some(id) {
      Index.FoundOnce(indexes, steps, a, b, id);
    }
  }

  // ---- The maps and the history, over runs ----

  function After(log: Log, c: Call): Log {
    match c
    case AddCall(id, offer, t0, t1) => Added(log, id, offer, t0, t1)
    case InvitationCall(_, t0, t1) => Sweep(log, t0).(now := t1)
    case TakeCall(oob, t0, t1) => Taken(log, oob, t0, t1)
  }

  function History(calls: seq<Call>): Log {
    if calls == [] then Log(map[], 0) else After(History(calls[..|calls| - 1]), calls[|calls| - 1])
  }

  // A new offer takes a fresh id and a fresh invitation and is not consumed.
  ghost predicate Allowed(log: Log, c: Call) {
    c.AddCall? ==> !c.offer.consumed && Unused(log, c.id, c.offer.outOfBandId)
  }

  // The clock, in milliseconds of the epoch, does not run back.
  ghost predicate Run(calls: seq<Call>) {
    && (forall k | 0 <= k < |calls| :: 0 <= calls[k].t0 <= calls[k].t1)
    && (forall i, j | 0 <= i < j < |calls| :: calls[i].t1 <= calls[j].t0)
    && forall k | 0 <= k < |calls| :: Allowed(History(calls[..k]), calls[k])
  }

  lemma RunStep(calls: seq<Call>, n: nat)
    requires Run(calls) && n < |calls|
    ensures Allowed(History(calls[..n]), calls[n]) && 0 <= calls[n].t0 <= calls[n].t1
    ensures n > 0 ==> calls[n - 1].t1 <= calls[n].t0
    ensures History(calls[..n + 1]) == After(History(calls[..n]), calls[n])
  {
    assert calls[..n + 1][..n] == calls[..n];
  }

  lemma CallAgrees(s: Maps, log: Log, c: Call)
    requires Agrees(s, log) && Allowed(log, c) && log.now <= c.t0 <= c.t1
    ensures Agrees(Next(s, c), After(log, c)) && After(log, c).now == c.t1
  {
    hide Agrees, Purged, WithAdded, WithTaken, Unused;
    match c {
      case AddCall(id, offer, t0, t1) => AddCallAgrees(s, log, id, offer, t0, t1);
      case InvitationCall(_, t0, t1) =>
        PurgeAgrees(s, log, t0);
        WaitAgrees(Purged(s, t0), Sweep(log, t0), t1);
      case TakeCall(oob, t0, t1) => TakeCallAgrees(s, log, oob, t0, t1);
    }
  }

  lemma NothingYet(calls: seq<Call>)
    ensures Agrees(States(calls[..0]), History(calls[..0])) && History(calls[..0]).now == 0
  {
  }

  // At every moment of every such run the two maps tell the history's story.
  lemma {:induction false} RunAgrees(calls: seq<Call>, n: nat)
    requires Run(calls) && n <= |calls|
    ensures Agrees(States(calls[..n]), History(calls[..n]))
    ensures History(calls[..n]).now == if n == 0 then 0 else calls[n - 1].t1
  {
    hide Agrees, Allowed, Next, After, States, History, Run, IndexStep, HandsOut;
    if n == 0 {
      NothingYet(calls);
    } else {
      RunAgrees(calls, n - 1);
      RunStep(calls, n - 1);
      CallStep(calls, n - 1);
      CallAgrees(States(calls[..n - 1]), History(calls[..n - 1]), calls[n - 1]);
    }
  }

  // So every invitation message is served if and only if it is not expired.
  lemma ServedExact(calls: seq<Call>, n: nat, id: string, t0: int, t1: int)
    requires Run(calls) && n <= |calls| && 0 <= t0 <= t1 && (n > 0 ==> calls[n - 1].t1 <= t0)
    ensures var log := History(calls[..n]);
            Served(States(calls[..n]), id, t0, t1) ==
            if id in log.items && t1 < log.items[id].offer.expiresAt
                then Some(log.items[id].offer.invitationMessage) else None
  {
    hide Agrees, States, History, Run, Served;
    RunAgrees(calls, n);
    ServedAgrees(States(calls[..n]), History(calls[..n]), id, t0, t1);
  }

  // Offer `id` is in the history and its invitation has not been used.
  predicate Waiting(log: Log, id: string, oob: string, expiresAt: int) {
    && id in log.items && !log.items[id].taken
    && log.items[id].offer.outOfBandId == oob && log.items[id].offer.expiresAt == expiresAt
  }

  lemma CallLeavesWaiting(log: Log, c: Call, id: string, oob: string, expiresAt: int)
    requires Allowed(log, c)
    requires if c.AddCall? && c.id == id then c.offer.outOfBandId == oob && c.offer.expiresAt == expiresAt
             else Waiting(log, id, oob, expiresAt) && !(c.TakeCall? && c.oob == oob)
    ensures Waiting(After(log, c), id, oob, expiresAt)
  {
  }

  lemma {:induction false} WaitsUntilTaken(calls: seq<Call>, a: nat, b: nat, id: string, oob: string, expiresAt: int)
    requires Run(calls) && a < b <= |calls|
    requires calls[a].AddCall? && calls[a].id == id
    requires calls[a].offer.outOfBandId == oob && calls[a].offer.expiresAt == expiresAt
    requires forall k | a < k < b :: !(calls[k].TakeCall? && calls[k].oob == oob)
    ensures Waiting(History(calls[..b]), id, oob, expiresAt)
  {
    hide After, Waiting, History, Run;
    RunStep(calls, b - 1);
    if a + 1 < b {
      WaitsUntilTaken(calls, a, b - 1, id, oob, expiresAt);
      assert id in History(calls[..b - 1]).items by { WaitingStored(History(calls[..b - 1]), id, oob, expiresAt); }
    }
    CallLeavesWaiting(History(calls[..b - 1]), calls[b - 1], id, oob, expiresAt);
  }

  lemma WaitingStored(log: Log, id: string, oob: string, expiresAt: int)
    requires Waiting(log, id, oob, expiresAt)
    ensures id in log.items && Owns(log, id, oob)
    ensures forall t :: Takeable(log.items[id], t) <==> t < expiresAt
  {
  }

  // In every run, the first use of an invitation makes the maps hand its offer out if and only if the
  // offer has not expired by then.
  lemma FirstTake(calls: seq<Call>, a: nat, b: nat, id: string, offer: Offer)
    requires Run(calls) && a < b < |calls|
    requires calls[a].AddCall? && calls[a].id == id && calls[a].offer == offer
    requires forall k | a < k < b :: !(calls[k].TakeCall? && calls[k].oob == offer.outOfBandId)
    requires calls[b].TakeCall? && calls[b].oob == offer.outOfBandId
    ensures HandedOut(calls, b) == Some(id) <==> calls[b].t1 < offer.expiresAt
  {
    hide After, Allowed, Waiting, History, Run, Agrees, States, Takeable, Owns, WithTaken, Purged;
    WaitsUntilTaken(calls, a, b, id, offer.outOfBandId, offer.expiresAt);
    RunAgrees(calls, b);
    RunStep(calls, b);
    var log, c := History(calls[..b]), calls[b];
    WaitingStored(log, id, c.oob, offer.expiresAt);
    TakeCallAgrees(States(calls[..b]), log, c.oob, c.t0, c.t1);
  }
}
