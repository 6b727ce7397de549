// What the wallet that asked for a proof reads about its request over every run of the service, in the
// texts it is answered with.
module DidcommReports {
  import opened Options
  import opened DidcommDriver
  import opened PendingProofRuns
  import opened PendingProofStore

  // ---- A request that nothing was reported on ----

  // The request is stored as it was added, or marked as expired; it is there for 300 seconds after its
  // expiry.
  predicate Unreported(s: Maps, id: string, p: Proof, now: int) {
    && (now < p.expiresAt + 300_000 ==> id in s.byPendingId)
    && (id in s.byPendingId ==>
          || s.byPendingId[id] == p
          || (p.expiresAt <= now && s.byPendingId[id] == Expired(p)))
  }

  function Expired(p: Proof): Proof {
    p.(status := Error, errorMessage := Some("Pending request expirado"))
  }

  lemma PurgeUnreported(s: Maps, id: string, p: Proof, now: int, t: int)
    requires Unreported(s, id, p, now) && now <= t && p.status.Pending? && p.proofExchangeRecordId.None?
    ensures Unreported(Purged(s, t), id, p, t)
  {
    hide DueOobs;
  }

  lemma CallUnreported(s: Maps, c: Call, id: string, p: Proof, now: int)
    requires Unreported(s, id, p, now) && p.status.Pending? && p.proofExchangeRecordId.None?
    requires now <= FirstReading(c) <= LastReading(c)
    requires !Reports(c, id) && !(c.AddCall? && c.id == id)
    ensures Unreported(Next(s, c), id, p, LastReading(c))
  {
    PurgeUnreported(s, id, p, now, FirstReading(c));
    hide Purged;
  }

  lemma AddUnreported(s: Maps, c: Call)
    requires c.AddCall?
    ensures Unreported(Next(s, c), c.id, c.proof, LastReading(c))
  {
    hide Purged;
  }

  lemma {:induction false} StaysUnreported(calls: seq<Call>, a: nat, b: nat, id: string)
    requires FreshIds(calls) && Ordered(calls) && a < b <= |calls|
    requires calls[a].AddCall? && calls[a].id == id
    requires calls[a].proof.status.Pending? && calls[a].proof.proofExchangeRecordId.None?
    requires forall k | a < k < b :: !Reports(calls[k], id)
    ensures Unreported(States(calls[..b]), id, calls[a].proof, LastReading(calls[b - 1]))
  {
    hide States, Next, Unreported, Reports, FirstReading, LastReading;
    StatesStep(calls, b - 1);
    if b == a + 1 {
      AddUnreported(States(calls[..a]), calls[a]);
    } else {
      StaysUnreported(calls, a, b - 1, id);
      CallUnreported(States(calls[..b - 1]), calls[b - 1], id, calls[a].proof, LastReading(calls[b - 2]));
    }
  }

  // In every run of the service a request that nothing was reported on reads "pending" until it expires,
  // as it was added; then, for 300 seconds, "error" with the message that it has expired; and after that
  // it is not found.
  lemma UnreportedReads(calls: seq<Call>, a: nat, b: nat, id: string, now: int)
    requires FreshIds(calls) && Ordered(calls) && a < b <= |calls|
    requires calls[a].AddCall? && calls[a].id == id
    requires calls[a].proof.status.Pending? && calls[a].proof.proofExchangeRecordId.None?
    requires forall k | a < k < b :: !Reports(calls[k], id)
    requires LastReading(calls[b - 1]) <= now
    ensures var p, found := calls[a].proof, Lookup(States(calls[..b]), id, now);
            && (found.Some? <==> now < p.expiresAt + 300_000)
            && forall r, details | found.Some? && Reported(r, found.value, details) ::
                 && r.status == (if now < p.expiresAt then "pending" else "error")
                 && r.errorMessage == (if now < p.expiresAt then p.errorMessage else Some("Pending request expirado"))
                 && r.proofExchangeRecordId.None? && r.proof.None? && r.expiresAt == p.expiresAt
  {
    StaysUnreported(calls, a, b, id);
    var s := States(calls[..b]);
    hide States, FreshIds, Ordered, LastReading;
    UnreportedLookup(s, id, calls[a].proof, LastReading(calls[b - 1]), now);
  }

  lemma UnreportedLookup(s: Maps, id: string, p: Proof, now: int, t: int)
    requires Unreported(s, id, p, now) && now <= t && p.status.Pending? && p.proofExchangeRecordId.None?
    ensures Lookup(s, id, t) == if t < p.expiresAt then Some(p)
                                else if t < p.expiresAt + 300_000 then Some(Expired(p)) else None
  {
    hide DueOobs;
  }

  // ---- A request that failed ----

  // The request is stored as failed with this message, or dropped.
  predicate FailedWith(s: Maps, id: string, message: string) {
    id in s.byPendingId ==>
      && s.byPendingId[id].status == Error && s.byPendingId[id].errorMessage == Some(message)
      && !Settled(s.byPendingId[id])
  }

  lemma CallKeepsFailed(s: Maps, c: Call, id: string, message: string)
    requires FailedWith(s, id, message) && !Reports(c, id) && !(c.AddCall? && c.id == id)
    ensures FailedWith(Next(s, c), id, message)
  {
    hide DueOobs;
  }

  lemma {:induction false} StaysFailed(calls: seq<Call>, source: map<nat, nat>, a: nat, b: nat, id: string)
    requires Driven(calls, source) && a < b <= |calls|
    requires calls[a].MarkCall? && calls[a].id == id && id in States(calls[..a]).byPendingId
    requires !Settled(States(calls[..a]).byPendingId[id])
    ensures FailedWith(States(calls[..b]), id, calls[a].message)
  {
    hide States, Next, Driven, FreshIds, FailedWith, HandedOut, Settled, Reports;
    StatesStep(calls, b - 1);
    if b == a + 1 {
      MarkFails(States(calls[..a]), calls[a]);
    } else {
      assert FreshIds(calls) by { DrivenFresh(calls, source); }
      assert Reports(calls[a], id) by { MarkReports(calls[a]); }
      StaysFailed(calls, source, a, b - 1, id);
      NeverAddedAgain(calls, a, id);
      ReportedOnce(calls, source, a, b - 1, id);
      CallKeepsFailed(States(calls[..b - 1]), calls[b - 1], id, calls[a].message);
    }
  }

  lemma DrivenFresh(calls: seq<Call>, source: map<nat, nat>)
    requires Driven(calls, source)
    ensures FreshIds(calls)
  {
  }

  lemma MarkReports(c: Call)
    requires c.MarkCall?
    ensures Reports(c, c.id)
  {
  }

  lemma MarkFails(s: Maps, c: Call)
    requires c.MarkCall? && c.id in s.byPendingId && !Settled(s.byPendingId[c.id])
    ensures FailedWith(Next(s, c), c.id, c.message)
  {
  }

  // In every run of the service, whatever the clock does: a request marked as failed reads "error", with
  // the message it was marked with, as long as it is found.
  lemma FailedReads(calls: seq<Call>, source: map<nat, nat>, a: nat, b: nat, id: string, now: int)
    requires Driven(calls, source) && a < b <= |calls|
    requires calls[a].MarkCall? && calls[a].id == id && id in States(calls[..a]).byPendingId
    requires !Settled(States(calls[..a]).byPendingId[id])
    ensures var found := Lookup(States(calls[..b]), id, now);
            forall r, details | found.Some? && Reported(r, found.value, details) ::
              r.status == "error" && r.errorMessage == Some(calls[a].message) && !Present(r.proofExchangeRecordId)
  {
    StaysFailed(calls, source, a, b, id);
    hide States, Driven, Purged;
    PurgeKeepsFailed(States(calls[..b]), id, calls[a].message, now);
  }

  lemma PurgeKeepsFailed(s: Maps, id: string, message: string, t: int)
    requires FailedWith(s, id, message)
    ensures FailedWith(Purged(s, t), id, message)
  {
    hide DueOobs;
  }
}
