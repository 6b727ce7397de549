// The verifier service that drives the store of pending proof requests: it takes a request when the
// connection of its invitation is ready, sends it, and records the outcome.
module DidcommDriver {
  import opened Options
  import opened PendingProofRuns
  import opened PendingProofStore

  // What requestProof gives back; None when it throws.
  datatype ProofResult = ProofResult(error: Option<string>, proofExchangeRecordId: Option<string>)

  // State of the exchange as the agent knows it; `proof` stands for the verification result, the
  // connection, the request and the presentation, which are handed on as they are.
  datatype Details = Details(state: string, errorMessage: Option<string>, proof: string)

  datatype Report = Report(
    status: string, expiresAt: int, proofExchangeRecordId: Option<string>, errorMessage: Option<string>,
    proof: Option<string>)

  function StatusName(status: Status): string {
    match status
    case Pending => "pending"
    case RequestSent => "request-sent"
    case Error => "error"
  }

  class DidCommService {
    const pendingProofs: PendingDidCommProofStore

    constructor (pendingProofs: PendingDidCommProofStore)
      ensures this.pendingProofs == pendingProofs
    {
      this.pendingProofs := pendingProofs;
    }

    // onConnectionReady. `result` is what requestProof answers if it is called; t0, t1, t2 are the
    // clock readings of the take and of the recording.
    method OnConnectionReady(outOfBandId: Option<string>, result: Option<ProofResult>, t0: int, t1: int, t2: int)
      returns (requested: Option<string>)
      requires pendingProofs.Valid()
      modifies pendingProofs
      ensures pendingProofs.Valid()
      ensures old(pendingProofs.orderly) && old(pendingProofs.log).now <= t0 <= t1 <= t2 ==> pendingProofs.orderly
      ensures !Present(outOfBandId) ==> requested.None? && pendingProofs.log == old(pendingProofs.log)
      ensures Present(outOfBandId) ==>
                var taken := Taken(old(pendingProofs.log), outOfBandId.value, t0, t1);
                && (pendingProofs.orderly ==>
                      forall x | Owns(old(pendingProofs.log), x, outOfBandId.value) ::
                        requested == Some(x) <==> Takeable(old(pendingProofs.log).items[x], t1))
                && pendingProofs.log ==
                   if requested.None? || result.None? then taken
                   else if Present(result.value.error) || !Present(result.value.proofExchangeRecordId)
                   then Marked(taken, requested.value,
                               if result.value.error.Some? then result.value.error.value
                               else "Auto-request sin proofExchangeRecordId", t2)
                   else Attached(taken, requested.value, result.value.proofExchangeRecordId.value, t2)
    {
      if !Present(outOfBandId) {
        return None;
      }
      requested := pendingProofs.Take(outOfBandId.value, t0, t1);
      if requested.None? || result.None? {
        return;
      }
      if Present(result.value.error) || !Present(result.value.proofExchangeRecordId) {
        pendingProofs.MarkError(requested.value, FailureMessage(result.value), t2);
        return;
      }
      pendingProofs.AttachProofExchange(requested.value, result.value.proofExchangeRecordId.value, t2);
    }

    // getRequestByPendingId; None is the 404 answer.
    method GetRequestByPendingId(walletId: string, id: string, details: Option<Details>, now: int)
        returns (r: Option<Report>)
      requires pendingProofs.Valid()
      modifies pendingProofs
      ensures pendingProofs.Valid() && pendingProofs.State() == Purged(old(pendingProofs.State()), now)
      ensures pendingProofs.log == Sweep(old(pendingProofs.log), now)
      ensures old(pendingProofs.orderly) && old(pendingProofs.log).now <= now ==> pendingProofs.orderly
      ensures var found := Lookup(old(pendingProofs.State()), id, now);
              && (r.Some? <==> found.Some? && found.value.walletId == walletId)
              && (r.Some? ==> Reported(r.value, found.value, details))
      ensures pendingProofs.orderly ==>
                var log := old(pendingProofs.log);
                r.Some? <==> Findable(log, id, now) && log.items[id].proof.walletId == walletId
    {
      var pending := pendingProofs.FindByPendingRequestId(id, now);
      if pending.None? || pending.value.walletId != walletId {
        return None;
      }
      var p := pending.value;
      var base := Report(StatusName(p.status), p.expiresAt, p.proofExchangeRecordId, p.errorMessage, None);
      if !Present(p.proofExchangeRecordId) {
        return Some(base);
      }
      if details.None? {
        var missing := "Proof exchange '" + p.proofExchangeRecordId.value + "' no encontrado";
        return Some(base.(
          status := "error",
          errorMessage := if p.errorMessage.Some? then p.errorMessage else Some(missing)));
      }
      var d := details.value;
      return Some(base.(
        status := if d.state == "done" then "done" else if d.state == "abandoned"
            then "error" else StatusName(p.status),
        errorMessage := if d.errorMessage.Some? then d.errorMessage else p.errorMessage,
        proof := Some(d.proof)));
    }
  }

  // `result.error ?? …`: an empty error text is kept.
  function FailureMessage(result: ProofResult): string {
    if result.error.Some? then result.error.value else "Auto-request sin proofExchangeRecordId"
  }

  // What a report may be taken to mean. Without an exchange it is the stored state. With one, `done`
  // and the proof come from the agent, and an abandoned or unknown exchange reads as an error.
  predicate Reported(r: Report, p: Proof, details: Option<Details>) {
    && r.expiresAt == p.expiresAt && r.proofExchangeRecordId == p.proofExchangeRecordId
    && (r.proof.Some? <==> Settled(p) && details.Some?)
    && (r.proof.Some? ==> r.proof.value == details.value.proof)
    && (r.status == "done" <==> Settled(p) && details.Some? && details.value.state == "done")
    && (Settled(p) && (details.None? || details.value.state == "abandoned") ==> r.status == "error")
    && (!Settled(p) || (details.Some? && details.value.state !in {"done", "abandoned"}) ==>
        r.status == StatusName(p.status))
    && (!Settled(p) ==> r.errorMessage == p.errorMessage)
    && (Settled(p) && details.Some? && details.value.errorMessage.Some? ==>
        r.errorMessage == details.value.errorMessage)
    && (Settled(p) && p.errorMessage.Some? && (details.None? || details.value.errorMessage.None?) ==>
        r.errorMessage == p.errorMessage)
    && (Settled(p) && details.None? && p.errorMessage.None? ==>
          r.errorMessage == Some("Proof exchange '" + p.proofExchangeRecordId.value + "' no encontrado"))
    && (Settled(p) && details.Some? && details.value.errorMessage.None? && p.errorMessage.None? ==>
          r.errorMessage.None?)
  }

  // ---- Every run of the service ----

  // Every report on a request follows a handing out of that request, and no two reports follow the
  // same one; `source` says which. Other calls may come in between, as the remote request takes time.
  ghost predicate Driven(calls: seq<Call>, source: map<nat, nat>) {
    && FreshIds(calls)
    && (forall k | 0 <= k < |calls| && (calls[k].AttachCall? || calls[k].MarkCall?) ::
          k in source && source[k] < k && HandedOut(calls, source[k]) == Some(calls[k].id))
    && (forall j, k | j in source && k in source && j != k :: source[j] != source[k])
    && (forall k | 0 <= k < |calls| && calls[k].AttachCall? :: calls[k].exchange != "")
  }

  lemma SourceOf(calls: seq<Call>, source: map<nat, nat>, k: nat, id: string)
    requires Driven(calls, source) && k < |calls| && Reports(calls[k], id)
    ensures k in source && source[k] < k && HandedOut(calls, source[k]) == Some(id)
  {
    hide HandedOut, FreshIds;
  }

  // So a request is reported on once.
  lemma ReportedOnce(calls: seq<Call>, source: map<nat, nat>, j: nat, k: nat, id: string)
    requires Driven(calls, source) && j < k < |calls| && Reports(calls[j], id)
    ensures !Reports(calls[k], id)
  {
    hide HandedOut, FreshIds, Reports;
    if Reports(calls[k], id) {
      SourceOf(calls, source, j, id);
      SourceOf(calls, source, k, id);
      if source[j] < source[k] {
        HandedOutOnce(calls, source[j], source[k], id);
      } else {
        HandedOutOnce(calls, source[k], source[j], id);
      }
    }
  }

  lemma {:induction false} StaysSent(calls: seq<Call>, source: map<nat, nat>, a: nat, b: nat, id: string)
    requires Driven(calls, source) && a < b <= |calls|
    requires calls[a].AttachCall? && calls[a].id == id && id in States(calls[..a]).byPendingId
    ensures SentAs(States(calls[..b]), id, calls[a].exchange)
  {
    hide States, Next, FreshIds, SentAs, Reports, HandedOut;
    StatesStep(calls, b - 1);
    if b == a + 1 {
      AttachSettles(States(calls[..a]), calls[a]);
    } else {
      StaysSent(calls, source, a, b - 1, id);
      NeverAddedAgain(calls, a, id);
      assert Reports(calls[a], id) by { AttachReports(calls[a]); }
      ReportedOnce(calls, source, a, b - 1, id);
      CallKeepsSent(States(calls[..b - 1]), calls[b - 1], id, calls[a].exchange);
    }
  }

  lemma AttachReports(c: Call)
    requires c.AttachCall?
    ensures Reports(c, c.id)
  {
  }

  // In every run of the service: once the exchange of a request is recorded, every later query of the
  // maps finds the request with that same exchange, whatever else happens and whatever the clock
  // does; and what it reports is `request-sent`, or what the agent knows of the exchange.
  lemma ExchangeStable(calls: seq<Call>, source: map<nat, nat>, a: nat, b: nat, id: string, now: int)
    requires Driven(calls, source) && a < b <= |calls|
    requires calls[a].AttachCall? && calls[a].id == id && id in States(calls[..a]).byPendingId
    ensures var found := Lookup(States(calls[..b]), id, now);
            && found.Some?
            && found.value.status.RequestSent? && found.value.proofExchangeRecordId == Some(calls[a].exchange)
            && forall r, details :: Reported(r, found.value, details) ==>
                 && r.proofExchangeRecordId == Some(calls[a].exchange)
                 && r.status == if details.None? || details.value.state == "abandoned" then "error"
                                else if details.value.state == "done" then "done" else "request-sent"
  {
    hide States, Driven, Purged;
    StaysSent(calls, source, a, b, id);
    PurgeKeepsSettled(States(calls[..b]), id, now);
  }
}
