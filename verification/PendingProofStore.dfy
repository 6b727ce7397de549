// The verifier's in-memory store of pending proof requests: two maps, lazily purged. It is proved to
// answer like a plain history in which nothing is ever deleted.
module PendingProofStore {
  import opened Options

  const GRACE_MS: int := 300_000
  const EXPIRED: string := "Pending request expirado"

  datatype Status = Pending | RequestSent | Error

  datatype Proof = Proof(
    walletId: string, outOfBandId: string, presentationDefinition: string, invitationMessage: string,
    status: Status, proofExchangeRecordId: Option<string>, errorMessage: Option<string>, expiresAt: int)

  // `if (pending.proofExchangeRecordId)`
  predicate Settled(p: Proof) { Present(p.proofExchangeRecordId) }

  predicate Due(p: Proof, now: int) { p.expiresAt <= now && !Settled(p) }

  function WithError(p: Proof, message: string): Proof {
    p.(status := Error, errorMessage := Some(message))
  }

  // What a purge does to an entry it leaves in place, and which entries it deletes.
  function Touched(p: Proof, now: int): Proof {
    if Due(p, now) && p.status.Pending? then WithError(p, EXPIRED) else p
  }

  predicate Dropped(p: Proof, now: int) {
    Due(p, now) && Touched(p, now).status.Error? && p.expiresAt + GRACE_MS <= now
  }

  function PurgedEntries(m: map<string, Proof>, now: int): map<string, Proof> {
    map id | id in m && !Dropped(m[id], now) :: Touched(m[id], now)
  }

  datatype Maps = Maps(byPendingId: map<string, Proof>, byOutOfBandId: map<string, string>)

  // The out-of-band ids whose index entry a purge deletes, when it has visited `ids`.
  function DueAmong(m: map<string, Proof>, ids: set<string>, now: int): set<string> {
    set id | id in ids && id in m && Due(m[id], now) :: m[id].outOfBandId
  }

  function DueOobs(m: map<string, Proof>, now: int): set<string> { DueAmong(m, m.Keys, now) }

  lemma DueAmongStep(m: map<string, Proof>, ids: set<string>, id: string, now: int)
    requires id in m && id !in ids
    ensures DueAmong(m, ids + {id}, now)
         == DueAmong(m, ids, now) + (if Due(m[id], now) then {m[id].outOfBandId} else {})
  {
    var more := ids + {id};
    forall x | x in more && x in m && Due(m[x], now)
      ensures m[x].outOfBandId in DueAmong(m, ids, now) + (if Due(m[id], now) then {m[id].outOfBandId} else {})
    {
      assert x == id || x in ids;
    }
    if Due(m[id], now) {
      assert id in more && m[id].outOfBandId in DueAmong(m, more, now);
    }
  }

  // ---- The history ----

  // One request as the history knows it. `seen` is the time of the latest purge since it was added;
  // `lapsed`: some purge found it expired with no proof exchange; `taken`: its invitation was used.
  datatype Item = Item(proof: Proof, taken: bool, lapsed: bool, seen: Option<int>)

  datatype Log = Log(items: map<string, Item>, now: int)

  const EmptyLog := Log(map[], 0)

  // Still to be found: a proof exchange is attached, or no purge came 300 seconds after expiry.
  predicate Alive(e: Item) {
    Settled(e.proof) || e.seen.None? || e.seen.value < e.proof.expiresAt + GRACE_MS
  }

  function Seen(e: Item, t: int): Item {
    Item(Touched(e.proof, t), e.taken, e.lapsed || Due(e.proof, t), Some(t))
  }

  function Sweep(log: Log, t: int): Log {
    Log(map id | id in log.items :: Seen(log.items[id], t), t)
  }

  function Changed(log: Log, id: string, p: Proof, t: int): Log
    requires id in log.items
  {
    Log(log.items[id := log.items[id].(proof := p)], t)
  }

  function Added(log: Log, id: string, p: Proof, t0: int, t1: int): Log {
    var swept := Sweep(log, t0);
    Log(swept.items[id := Item(p, false, false, None)], t1)
  }

  function Attached(log: Log, id: string, exchange: string, t: int): Log {
    if id in log.items && Alive(log.items[id]) then
      Changed(log, id, log.items[id].proof.(status := RequestSent, proofExchangeRecordId := Some(exchange)), t)
    else log.(now := t)
  }

  function Marked(log: Log, id: string, message: string, t: int): Log {
    if id in log.items && Alive(log.items[id]) then Changed(log, id, WithError(log.items[id].proof, message), t)
    else log.(now := t)
  }

  // The answer a lookup at time `now` should give.
  predicate Findable(log: Log, id: string, now: int) {
    id in log.items &&
    (Settled(log.items[id].proof) || now < log.items[id].proof.expiresAt + 300_000)
  }

  // Neither the identifier nor the invitation of a new request was seen before.
  ghost predicate Unused(log: Log, id: string, oob: string) {
    id !in log.items && forall x | x in log.items :: log.items[x].proof.outOfBandId != oob
  }

  // The request the invitation `oob` belongs to; there is at most one.
  ghost predicate Owns(log: Log, id: string, oob: string) {
    id in log.items && log.items[id].proof.outOfBandId == oob
  }

  // The answer `take` should give about request `id` at time `t`: not used before, still waiting
  // (nothing attached, no error reported), and not expired.
  predicate Takeable(e: Item, t: int) {
    !e.taken && !e.lapsed && e.proof.status.Pending? && t < e.proof.expiresAt
  }

  function TakenItem(e: Item, t: int): Item {
    if !e.taken && !e.lapsed && e.proof.status.Pending? && e.proof.expiresAt <= t
    then e.(taken := true, proof := WithError(e.proof, EXPIRED))
    else e.(taken := true)
  }

  function Use(swept: Log, oob: string, t: int): Log {
    Log(map id | id in swept.items ::
          if swept.items[id].proof.outOfBandId == oob then TakenItem(swept.items[id], t) else swept.items[id], t)
  }

  function Taken(log: Log, oob: string, t0: int, t1: int): Log { Use(Sweep(log, t0), oob, t1) }

  // ---- The store and the history tell the same story ----

  ghost predicate DistinctOobs(log: Log) {
    forall a, b | a in log.items && b in log.items &&
        log.items[a].proof.outOfBandId == log.items[b].proof.outOfBandId :: a == b
  }

  predicate ItemOk(e: Item, now: int) {
    && (e.proof.status.RequestSent? ==> Settled(e.proof))
    && (e.seen.Some? ==> e.seen.value <= now)
    && (!Alive(e) ==> e.lapsed)
    && (e.lapsed ==> e.proof.expiresAt <= now && !e.proof.status.Pending?)
  }

  ghost predicate LogOk(log: Log) {
    DistinctOobs(log) && forall id | id in log.items :: ItemOk(log.items[id], log.now)
  }

  // The first map holds what is alive.
  ghost predicate EntriesAgree(byPendingId: map<string, Proof>, log: Log) {
    && (forall id | id in byPendingId ::
        id in log.items && Alive(log.items[id]) && byPendingId[id] == log.items[id].proof)
    && (forall id | id in log.items && Alive(log.items[id]) :: id in byPendingId)
  }

  // The second map leads to what is neither taken nor lapsed.
  ghost predicate IndexAgrees(byOutOfBandId: map<string, string>, log: Log) {
    && (forall oob | oob in byOutOfBandId :: Owns(log, byOutOfBandId[oob], oob))
    && (forall id | id in log.items ::
          log.items[id].proof.outOfBandId in byOutOfBandId <==> !log.items[id].taken && !log.items[id].lapsed)
  }

  ghost predicate Agrees(s: Maps, log: Log) {
    LogOk(log) && EntriesAgree(s.byPendingId, log) && IndexAgrees(s.byOutOfBandId, log)
  }

  lemma SeenOk(e: Item, now: int, t: int)
    requires ItemOk(e, now) && now <= t
    ensures ItemOk(Seen(e, t), t)
    ensures Alive(Seen(e, t)) <==> Alive(e) && !Dropped(e.proof, t)
    ensures Seen(e, t).lapsed <==> e.lapsed || (Alive(e) && Due(e.proof, t))
    ensures Seen(e, t).proof == Touched(e.proof, t) && Seen(e, t).taken == e.taken
    ensures Seen(e, t).proof.outOfBandId == e.proof.outOfBandId
  {
  }

  lemma SweepOk(log: Log, t: int)
    requires LogOk(log) && log.now <= t
    ensures LogOk(Sweep(log, t))
  {
    hide ItemOk, Seen;
    forall id | id in log.items
      ensures ItemOk(Sweep(log, t).items[id], t) &&
          Sweep(log, t).items[id].proof.outOfBandId == log.items[id].proof.outOfBandId
    {
      SeenOk(log.items[id], log.now, t);
    }
  }

  lemma PurgedEntriesAgree(byPendingId: map<string, Proof>, log: Log, t: int)
    requires LogOk(log) && EntriesAgree(byPendingId, log) && log.now <= t
    ensures EntriesAgree(PurgedEntries(byPendingId, t), Sweep(log, t))
  {
    hide ItemOk, Seen, Alive, Dropped, Touched;
    forall id | id in log.items
      ensures Alive(Sweep(log, t).items[id]) <==> Alive(log.items[id]) && !Dropped(log.items[id].proof, t)
      ensures Sweep(log, t).items[id].proof == Touched(log.items[id].proof, t)
    {
      SeenOk(log.items[id], log.now, t);
    }
  }

  lemma DueOobsOwned(byPendingId: map<string, Proof>, log: Log, id: string, t: int)
    requires LogOk(log) && EntriesAgree(byPendingId, log) && id in log.items
    ensures log.items[id].proof.outOfBandId in DueOobs(byPendingId, t) <==>
        Alive(log.items[id]) && Due(log.items[id].proof, t)
  {
    hide ItemOk, Alive, Due;
    var oob := log.items[id].proof.outOfBandId;
    if oob in DueOobs(byPendingId, t) {
      var other :| other in byPendingId && Due(byPendingId[other], t) && byPendingId[other].outOfBandId == oob;
      assert other == id;
    }
    if Alive(log.items[id]) && Due(log.items[id].proof, t) {
      assert id in byPendingId.Keys;
    }
  }

  lemma PurgedIndexAgrees(s: Maps, log: Log, t: int)
    requires Agrees(s, log) && log.now <= t
    ensures IndexAgrees(s.byOutOfBandId - DueOobs(s.byPendingId, t), Sweep(log, t))
  {
    hide ItemOk, Seen, Alive, Due, DueOobs, EntriesAgree;
    forall id | id in log.items
      ensures Sweep(log, t).items[id].proof.outOfBandId == log.items[id].proof.outOfBandId
      ensures Sweep(log, t).items[id].taken == log.items[id].taken
      ensures Sweep(log, t).items[id].lapsed <==>
        log.items[id].lapsed || log.items[id].proof.outOfBandId in DueOobs(s.byPendingId, t)
    {
      SeenOk(log.items[id], log.now, t);
      DueOobsOwned(s.byPendingId, log, id, t);
    }
  }

  lemma PurgeAgrees(s: Maps, log: Log, t: int)
    requires Agrees(s, log) && log.now <= t
    ensures Agrees(Purged(s, t), Sweep(log, t))
  {
    SweepOk(log, t);
    PurgedEntriesAgree(s.byPendingId, log, t);
    PurgedIndexAgrees(s, log, t);
  }

  lemma AddedLogOk(log: Log, id: string, p: Proof, t: int)
    requires LogOk(log) && log.now <= t && Unused(log, id, p.outOfBandId)
    requires p.status.Pending? && p.proofExchangeRecordId.None?
    ensures LogOk(Log(log.items[id := Item(p, false, false, None)], t))
  {
    hide Alive;
    forall x | x in log.items ensures ItemOk(log.items[x], t) {
      Later(log.items[x], log.now, t);
    }
    NewItem(p, t);
  }

  lemma NewItem(p: Proof, t: int)
    requires p.status.Pending?
    ensures ItemOk(Item(p, false, false, None), t) && Alive(Item(p, false, false, None))
  {
  }

  lemma Later(e: Item, now: int, t: int)
    requires ItemOk(e, now) && now <= t
    ensures ItemOk(e, t)
  {
  }

  lemma AddAgrees(s: Maps, log: Log, id: string, p: Proof, t: int)
    requires Agrees(s, log) && log.now <= t && Unused(log, id, p.outOfBandId)
    requires p.status.Pending? && p.proofExchangeRecordId.None?
    ensures Agrees(WithAdded(s, id, p), Log(log.items[id := Item(p, false, false, None)], t))
  {
    AddedLogOk(log, id, p, t);
    NewItem(p, t);
    hide LogOk, ItemOk, Alive;
    var after := Log(log.items[id := Item(p, false, false, None)], t);
    assert EntriesAgree(s.byPendingId[id := p], after);
    assert IndexAgrees(s.byOutOfBandId[p.outOfBandId := id], after) by {
      AddedIndexAgrees(s.byOutOfBandId, log, id, p, t);
    }
  }

  lemma AddedIndexAgrees(index: map<string, string>, log: Log, id: string, p: Proof, t: int)
    requires IndexAgrees(index, log) && Unused(log, id, p.outOfBandId)
    ensures IndexAgrees(index[p.outOfBandId := id], Log(log.items[id := Item(p, false, false, None)], t))
  {
  }

  predicate StatusChange(p: Proof, p': Proof) {
    && p'.outOfBandId == p.outOfBandId && p'.expiresAt == p.expiresAt
    && !p'.status.Pending? && (Settled(p) ==> Settled(p')) && (p'.status.RequestSent? ==> Settled(p'))
  }

  lemma ChangedItemOk(e: Item, now: int, p: Proof, t: int)
    requires ItemOk(e, now) && now <= t && StatusChange(e.proof, p) && Alive(e)
    ensures ItemOk(e.(proof := p), t) && Alive(e.(proof := p))
  {
  }

  lemma ChangedLogOk(log: Log, id: string, p: Proof, t: int)
    requires LogOk(log) && log.now <= t && id in log.items && ItemOk(log.items[id].(proof := p), t)
    requires p.outOfBandId == log.items[id].proof.outOfBandId
    ensures LogOk(Changed(log, id, p, t))
  {
    hide ItemOk;
    forall x | x in log.items ensures ItemOk(log.items[x], t) {
      Later(log.items[x], log.now, t);
    }
  }

  lemma ChangedIndexAgrees(index: map<string, string>, log: Log, id: string, p: Proof, t: int)
    requires IndexAgrees(index, log) && id in log.items && p.outOfBandId == log.items[id].proof.outOfBandId
    ensures IndexAgrees(index, Changed(log, id, p, t))
  {
  }

  // A change of status of a request the store still holds.
  lemma ChangeAgrees(s: Maps, log: Log, id: string, p: Proof, t: int)
    requires Agrees(s, log) && log.now <= t && id in s.byPendingId && StatusChange(s.byPendingId[id], p)
    ensures Agrees(s.(byPendingId := s.byPendingId[id := p]), Changed(log, id, p, t))
  {
    hide Alive, StatusChange, IndexAgrees, DistinctOobs, Changed, ItemOk;
    ChangeKeepsInvitation(s.byPendingId[id], p);
    assert id in log.items && Alive(log.items[id]) && log.items[id].proof == s.byPendingId[id] &&
        ItemOk(log.items[id], log.now);
    hide LogOk, EntriesAgree;
    ChangedItemOk(log.items[id], log.now, p, t);
    ChangedLogOk(log, id, p, t);
    ChangedEntriesAgree(s.byPendingId, log, id, p, t);
    ChangedIndexAgrees(s.byOutOfBandId, log, id, p, t);
  }

  lemma ChangeKeepsInvitation(p: Proof, p': Proof)
    requires StatusChange(p, p')
    ensures p'.outOfBandId == p.outOfBandId
  {
  }

  lemma ChangedEntriesAgree(m: map<string, Proof>, log: Log, id: string, p: Proof, t: int)
    requires EntriesAgree(m, log) && id in m && id in log.items && Alive(log.items[id].(proof := p))
    ensures EntriesAgree(m[id := p], Changed(log, id, p, t))
  {
    hide Alive;
  }

  lemma WaitAgrees(s: Maps, log: Log, t: int)
    requires Agrees(s, log) && log.now <= t
    ensures Agrees(s, log.(now := t))
  {
    hide Alive, ItemOk;
    forall x | x in log.items ensures ItemOk(log.items[x], t) {
      Later(log.items[x], log.now, t);
    }
  }

  lemma NothingDue(m: map<string, Proof>, ids: set<string>, now: int)
    requires ids == {}
    ensures DueAmong(m, ids, now) == {}
  {
  }

  // The entries of a purge of `m` that has still to visit `rest`.
  ghost predicate Partway(m: map<string, Proof>, rest: set<string>, current: map<string, Proof>, now: int) {
    && (forall id | id in rest :: id in m && id in current && current[id] == m[id])
    && (forall id | id in m && id !in rest :: id in current <==> !Dropped(m[id], now))
    && (forall id | id in current :: id in m && (id !in rest ==> current[id] == Touched(m[id], now)))
  }

  lemma PartwayStart(m: map<string, Proof>, now: int)
    ensures Partway(m, m.Keys, m, now)
  {
  }

  lemma PartwayEnd(m: map<string, Proof>, current: map<string, Proof>, now: int)
    requires Partway(m, {}, current, now)
    ensures current == PurgedEntries(m, now)
  {
    hide Dropped, Touched;
  }

  // What the body of the loop does to the entry it visits.
  lemma PartwayStep(m: map<string, Proof>, rest: set<string>, current: map<string, Proof>, id: string, now: int)
    requires Partway(m, rest, current, now) && id in rest
    ensures id in current && current[id] == m[id]
    ensures Due(m[id], now) <==> !(m[id].expiresAt > now || Settled(m[id]))
    ensures var p := m[id];
            var error := if p.status.Pending? then WithError(p, EXPIRED) else p;
            Partway(m, rest - {id},
                    if !Due(p, now) then current
                    else if error.status.Error? && p.expiresAt + GRACE_MS <= now then current - {id}
                    else current[id := error], now)
  {
    PurgeCases(m[id], now);
    hide Due, Dropped, Touched, WithError;
  }

  lemma PurgeCases(p: Proof, now: int)
    ensures Due(p, now) <==> !(p.expiresAt > now || Settled(p))
    ensures !Due(p, now) ==> Touched(p, now) == p && !Dropped(p, now)
    ensures Due(p, now) ==> Touched(p, now) == if p.status.Pending? then WithError(p, EXPIRED) else p
    ensures Due(p, now) ==> (Dropped(p, now) <==> Touched(p, now).status.Error? && p.expiresAt + GRACE_MS <= now)
  {
  }

  // ---- The two maps ----

  function Purged(s: Maps, now: int): Maps {
    Maps(PurgedEntries(s.byPendingId, now), s.byOutOfBandId - DueOobs(s.byPendingId, now))
  }

  function WithAdded(s: Maps, id: string, p: Proof): Maps {
    Maps(s.byPendingId[id := p], s.byOutOfBandId[p.outOfBandId := id])
  }

  function SentWith(p: Proof, exchange: string): Proof {
    p.(status := RequestSent, proofExchangeRecordId := Some(exchange))
  }

  function WithAttached(s: Maps, id: string, exchange: string): Maps {
    if id !in s.byPendingId then s
    else s.(byPendingId := s.byPendingId[id := SentWith(s.byPendingId[id], exchange)])
  }

  function WithMarked(s: Maps, id: string, message: string): Maps {
    if id !in s.byPendingId then s else s.(byPendingId := s.byPendingId[id := WithError(s.byPendingId[id], message)])
  }

  // `take` after its purge: the maps, and the request handed out.
  function WithTaken(s: Maps, oob: string, t: int): (Maps, Option<string>) {
    if oob !in s.byOutOfBandId then (s, None)
    else
      var id := s.byOutOfBandId[oob];
      var s' := s.(byOutOfBandId := s.byOutOfBandId - {oob});
      if id !in s.byPendingId || !s.byPendingId[id].status.Pending? then (s', None)
      else if s.byPendingId[id].expiresAt <= t then (WithMarked(s', id, EXPIRED), None)
      else (s', Some(id))
  }

  lemma TakenItemOk(e: Item, now: int, t: int)
    requires ItemOk(e, now) && now <= t
    ensures ItemOk(TakenItem(e, t), t) && (Alive(TakenItem(e, t)) <==> Alive(e))
    ensures TakenItem(e, t).proof.outOfBandId == e.proof.outOfBandId
    ensures TakenItem(e, t).lapsed == e.lapsed && TakenItem(e, t).taken
    ensures TakenItem(e, t).proof ==
      if !e.taken && !e.lapsed && e.proof.status.Pending? && e.proof.expiresAt <= t
          then WithError(e.proof, EXPIRED) else e.proof
    ensures !e.lapsed ==> Alive(e)
  {
  }

  lemma UseOk(swept: Log, oob: string, t: int)
    requires LogOk(swept) && swept.now <= t
    ensures LogOk(Use(swept, oob, t))
  {
    hide TakenItem;
    forall id | id in swept.items
      ensures ItemOk(Use(swept, oob, t).items[id], t)
      ensures Use(swept, oob, t).items[id].proof.outOfBandId == swept.items[id].proof.outOfBandId
    {
      TakenItemOk(swept.items[id], swept.now, t);
    }
  }

  lemma UnindexedUsed(s: Maps, swept: Log, oob: string, t: int, x: string)
    requires LogOk(swept) && IndexAgrees(s.byOutOfBandId, swept) && swept.now <= t && oob !in s.byOutOfBandId &&
        x in swept.items
    ensures var e, u := swept.items[x], Use(swept, oob, t).items[x];
      u.proof == e.proof && (Alive(u) <==> Alive(e)) && (u.taken || u.lapsed <==> e.taken || e.lapsed)
    ensures Owns(swept, x, oob) ==> swept.items[x].taken || swept.items[x].lapsed
  {
    hide ItemOk, Alive;
    TakenItemOk(swept.items[x], swept.now, t);
  }

  // A history that differs only in which requests of no index entry are taken or lapsed.
  lemma SameStory(s: Maps, log: Log, log': Log)
    requires EntriesAgree(s.byPendingId, log) && IndexAgrees(s.byOutOfBandId, log)
    requires log'.items.Keys == log.items.Keys
    requires forall x | x in log.items ::
               && log'.items[x].proof == log.items[x].proof && (Alive(log'.items[x]) <==> Alive(log.items[x]))
               && (log'.items[x].taken || log'.items[x].lapsed <==> log.items[x].taken || log.items[x].lapsed)
    ensures EntriesAgree(s.byPendingId, log') && IndexAgrees(s.byOutOfBandId, log')
  {
    hide Alive;
  }

  // Using an invitation whose index entry is gone changes nothing but the history's `taken` mark.
  lemma UnindexedTake(s: Maps, swept: Log, oob: string, t: int)
    requires Agrees(s, swept) && swept.now <= t && oob !in s.byOutOfBandId
    ensures Agrees(s, Use(swept, oob, t))
    ensures forall x | Owns(swept, x, oob) :: swept.items[x].taken || swept.items[x].lapsed
  {
    UseOk(swept, oob, t);
    var used := Use(swept, oob, t);
    assert used.items.Keys == swept.items.Keys;
    hide Alive, Use, LogOk, EntriesAgree, IndexAgrees;
    forall x | x in swept.items
      ensures used.items[x].proof == swept.items[x].proof && (Alive(used.items[x]) <==> Alive(swept.items[x]))
      ensures used.items[x].taken || used.items[x].lapsed <==> swept.items[x].taken || swept.items[x].lapsed
      ensures Owns(swept, x, oob) ==> swept.items[x].taken || swept.items[x].lapsed
    {
      UnindexedUsed(s, swept, oob, t, x);
    }
    SameStory(s, swept, used);
  }

  lemma UsedIndexAgrees(byOutOfBandId: map<string, string>, swept: Log, oob: string, t: int)
    requires LogOk(swept) && IndexAgrees(byOutOfBandId, swept) && swept.now <= t
    ensures IndexAgrees(byOutOfBandId - {oob}, Use(swept, oob, t))
  {
    hide TakenItem, ItemOk;
    forall x | x in swept.items ensures
      var e, u := swept.items[x], Use(swept, oob, t).items[x];
      && u.proof.outOfBandId == e.proof.outOfBandId && u.lapsed == e.lapsed
      && u.taken == (e.taken || e.proof.outOfBandId == oob)
    {
      TakenItemOk(swept.items[x], swept.now, t);
    }
  }

  lemma UsedEntriesAgree(byPendingId: map<string, Proof>, swept: Log, id: string, oob: string, t: int)
    requires LogOk(swept) && EntriesAgree(byPendingId, swept) && swept.now <= t
    requires Owns(swept, id, oob) && id in byPendingId && !swept.items[id].taken && !swept.items[id].lapsed
    ensures EntriesAgree(if byPendingId[id].status.Pending? && byPendingId[id].expiresAt <= t
                         then byPendingId[id := WithError(byPendingId[id], EXPIRED)]
                             else byPendingId, Use(swept, oob, t))
  {
    hide TakenItem, ItemOk, Alive, WithError;
    var used := Use(swept, oob, t);
    forall x | x in swept.items
      ensures (Alive(used.items[x]) <==> Alive(swept.items[x]))
      ensures used.items[x].proof == if x == id && byPendingId[id].status.Pending? && byPendingId[id].expiresAt <= t
                                     then WithError(swept.items[x].proof, EXPIRED) else swept.items[x].proof
    {
      TakenItemOk(swept.items[x], swept.now, t);
      assert swept.items[x].proof.outOfBandId == oob ==> x == id;
    }
    assert byPendingId[id] == swept.items[id].proof;
    hide Use, LogOk;
  }

  lemma IndexedTake(s: Maps, swept: Log, oob: string, t: int)
    requires Agrees(s, swept) && swept.now <= t && oob in s.byOutOfBandId
    ensures var id := s.byOutOfBandId[oob];
      && id in s.byPendingId && Owns(swept, id, oob) && !swept.items[id].lapsed && !swept.items[id].taken
      && s.byPendingId[id] == swept.items[id].proof
      && Agrees(Maps(if s.byPendingId[id].status.Pending? && s.byPendingId[id].expiresAt <= t
                     then s.byPendingId[id := WithError(s.byPendingId[id], EXPIRED)] else s.byPendingId,
                     s.byOutOfBandId - {oob}), Use(swept, oob, t))
  {
    var id := s.byOutOfBandId[oob];
    assert Owns(swept, id, oob);
    TakenItemOk(swept.items[id], swept.now, t);
    assert id in s.byPendingId;
    hide TakenItem, ItemOk, Alive, LogOk, Use;
    UseOk(swept, oob, t);
    UsedIndexAgrees(s.byOutOfBandId, swept, oob, t);
    UsedEntriesAgree(s.byPendingId, swept, id, oob, t);
  }

  // `take` after its purge: what it hands out and what it leaves.
  lemma UseAgrees(s: Maps, swept: Log, oob: string, t: int)
    requires Agrees(s, swept) && swept.now <= t
    ensures Agrees(WithTaken(s, oob, t).0, Use(swept, oob, t))
    ensures forall x | Owns(swept, x, oob) :: WithTaken(s, oob, t).1 == Some(x) <==> Takeable(swept.items[x], t)
    ensures WithTaken(s, oob, t).1.Some? ==> Owns(swept, WithTaken(s, oob, t).1.value, oob)
  {
    if oob in s.byOutOfBandId {
      IndexedTake(s, swept, oob, t);
      UniqueOwner(swept, s.byOutOfBandId[oob], oob);
    } else {
      UnindexedTake(s, swept, oob, t);
    }
    hide Agrees, Use;
  }

  lemma UniqueOwner(log: Log, id: string, oob: string)
    requires LogOk(log) && Owns(log, id, oob)
    ensures forall x | Owns(log, x, oob) :: x == id
  {
  }

  lemma SweptTakeable(log: Log, oob: string, t0: int, t1: int)
    requires LogOk(log) && log.now <= t0 <= t1
    ensures forall x :: Owns(Sweep(log, t0), x, oob) <==> Owns(log, x, oob)
    ensures forall x | Owns(log, x, oob) :: Takeable(Sweep(log, t0).items[x], t1) <==> Takeable(log.items[x], t1)
  {
    hide ItemOk, Alive, Dropped, DistinctOobs;
  }

  // ---- Each call keeps the two in step ----

  lemma AddCallAgrees(s: Maps, log: Log, id: string, p: Proof, t0: int, t1: int)
    requires Agrees(s, log) && log.now <= t0 <= t1 && Unused(log, id, p.outOfBandId)
    requires p.status.Pending? && p.proofExchangeRecordId.None?
    ensures Agrees(WithAdded(Purged(s, t0), id, p), Added(log, id, p, t0, t1))
  {
    hide Agrees, Seen, Purged, WithAdded;
    PurgeAgrees(s, log, t0);
    assert Unused(Sweep(log, t0), id, p.outOfBandId) by { SweptUnused(log, id, p.outOfBandId, t0); }
    AddAgrees(Purged(s, t0), Sweep(log, t0), id, p, t1);
  }

  lemma SweptUnused(log: Log, id: string, oob: string, t: int)
    requires Unused(log, id, oob)
    ensures Unused(Sweep(log, t), id, oob)
  {
  }

  lemma TakeCallAgrees(s: Maps, log: Log, oob: string, t0: int, t1: int)
    requires Agrees(s, log) && log.now <= t0 <= t1
    ensures Agrees(WithTaken(Purged(s, t0), oob, t1).0, Taken(log, oob, t0, t1))
    ensures var handed := WithTaken(Purged(s, t0), oob, t1).1;
            && (forall x | Owns(log, x, oob) :: handed == Some(x) <==> Takeable(log.items[x], t1))
            && (handed.Some? ==> Owns(log, handed.value, oob))
  {
    PurgeAgrees(s, log, t0);
    SweptTakeable(log, oob, t0, t1);
    hide Agrees, Sweep, Purged, WithTaken, Use, Takeable, Owns;
    UseAgrees(Purged(s, t0), Sweep(log, t0), oob, t1);
  }

  lemma AttachCallAgrees(s: Maps, log: Log, id: string, exchange: string, t: int)
    requires Agrees(s, log) && log.now <= t && exchange != ""
    ensures Agrees(WithAttached(s, id, exchange), Attached(log, id, exchange, t))
  {
    hide LogOk, IndexAgrees, Alive;
    if id in s.byPendingId {
      ChangeAgrees(s, log, id, SentWith(s.byPendingId[id], exchange), t);
    } else {
      WaitAgrees(s, log, t);
    }
  }

  lemma MarkCallAgrees(s: Maps, log: Log, id: string, message: string, t: int)
    requires Agrees(s, log) && log.now <= t
    ensures Agrees(WithMarked(s, id, message), Marked(log, id, message, t))
  {
    hide LogOk, IndexAgrees, Alive;
    if id in s.byPendingId {
      ChangeAgrees(s, log, id, WithError(s.byPendingId[id], message), t);
    } else {
      WaitAgrees(s, log, t);
    }
  }

  // A lookup at `now`.
  function Lookup(s: Maps, id: string, now: int): Option<Proof> {
    var purged := Purged(s, now).byPendingId;
    if id in purged then Some(purged[id]) else None
  }

  lemma LookupAgrees(s: Maps, log: Log, id: string, now: int)
    requires Agrees(s, log) && log.now <= now
    ensures Lookup(s, id, now).Some? <==> Findable(log, id, now)
    ensures Lookup(s, id, now).Some? ==> Lookup(s, id, now).value == Touched(log.items[id].proof, now)
  {
    PurgeAgrees(s, log, now);
    hide Purged, LogOk, IndexAgrees, Dropped, Touched;
    if id in log.items {
      FoundItem(log.items[id], log.now, now);
    }
  }

  lemma FoundItem(e: Item, now: int, t: int)
    requires now <= t
    ensures Alive(Seen(e, t)) <==> Settled(e.proof) || t < e.proof.expiresAt + GRACE_MS
    ensures Seen(e, t).proof == Touched(e.proof, t)
  {
  }

  // The invitation message served after a purge at `t0`, at time `t1`.
  function Served(s: Maps, id: string, t0: int, t1: int): Option<string> {
    var found := Lookup(s, id, t0);
    if found.Some? && t1 < found.value.expiresAt then Some(found.value.invitationMessage) else None
  }

  lemma ServedAgrees(s: Maps, log: Log, id: string, t0: int, t1: int)
    requires Agrees(s, log) && log.now <= t0 <= t1
    ensures Served(s, id, t0, t1)
         == if id in log.items && t1 < log.items[id].proof.expiresAt
             then Some(log.items[id].proof.invitationMessage) else None
  {
    LookupAgrees(s, log, id, t0);
    hide Agrees, Lookup;
  }

  class PendingDidCommProofStore {
    var byPendingId: map<string, Proof>
    var byOutOfBandId: map<string, string>
    ghost var log: Log
    // So far the clock never ran back, identifiers and invitations of new requests were unused, and
    // no empty exchange id was attached.
    ghost var orderly: bool

    function State(): Maps
      reads this
    {
      Maps(byPendingId, byOutOfBandId)
    }

    ghost predicate Valid()
      reads this
    {
      orderly ==> Agrees(State(), log)
    }

    constructor ()
      ensures Valid() && orderly && log == EmptyLog && State() == Maps(map[], map[])
    {
      byPendingId, byOutOfBandId, log, orderly := map[], map[], EmptyLog, true;
    }

    // The loop of purgeExpired over the two maps.
    method PurgeMaps(now: int)
      modifies this`byPendingId, this`byOutOfBandId
      ensures State() == Purged(old(State()), now)
    {
      hide Due, Dropped, Touched, DueAmong, Partway;
      ghost var m := byPendingId;
      var rest := byPendingId.Keys;
      NothingDue(m, m.Keys - rest, now);
      PartwayStart(m, now);
      while rest != {}
        invariant rest <= m.Keys
        invariant Partway(m, rest, byPendingId, now)
        invariant byOutOfBandId == old(byOutOfBandId) - DueAmong(m, m.Keys - rest, now)
        decreases rest
      {
        var id :| id in rest;
        PartwayStep(m, rest, byPendingId, id, now);
        DueAmongStep(m, m.Keys - rest, id, now);
        assert m.Keys - (rest - {id}) == m.Keys - rest + {id};
        rest := rest - {id};
        ghost var before := byPendingId;
        var pending := byPendingId[id];
        if pending.expiresAt > now || Settled(pending) {
          continue;
        }
        if pending.status.Pending? {
          pending := WithError(pending, EXPIRED);
          byPendingId := byPendingId[id := pending];
        }
        assert byPendingId == before[id := pending];
        byOutOfBandId := byOutOfBandId - {pending.outOfBandId};
        if pending.status.Error? && pending.expiresAt + GRACE_MS <= now {
          byPendingId := byPendingId - {id};
          assert byPendingId == before - {id};
        }
      }
      assert m.Keys - rest == m.Keys;
      PartwayEnd(m, byPendingId, now);
    }

    // purgeExpired
    method PurgeExpired(now: int)
      requires Valid()
      modifies this
      ensures Valid() && orderly == (old(orderly) && old(log).now <= now) && log == Sweep(old(log), now)
      ensures State() == Purged(old(State()), now)
    {
      hide Agrees, Purged, Sweep;
      PurgeMaps(now);
      orderly := orderly && log.now <= now;
      if orderly {
        PurgeAgrees(old(State()), log, now);
      }
      log := Sweep(log, now);
    }

    // add; `id` is the UUID drawn for the request.
    method Add(id: string, walletId: string, outOfBandId: string, presentationDefinition: string,
        invitationMessage: string,
               expiresInSeconds: int, t0: int, t1: int) returns (pending: Proof)
      requires Valid()
      modifies this
      ensures Valid() && orderly == (old(orderly) && old(log).now <= t0 <= t1 && Unused(old(log), id, outOfBandId))
      ensures log == Added(old(log), id, pending, t0, t1)
      ensures pending == Proof(walletId, outOfBandId, presentationDefinition, invitationMessage, Pending, None, None,
                               t1 + expiresInSeconds * 1000)
      ensures State() == WithAdded(Purged(old(State()), t0), id, pending)
    {
      hide Agrees, Purged, Sweep, Unused;
      PurgeExpired(t0);
      pending := Proof(walletId, outOfBandId, presentationDefinition, invitationMessage, Pending, None, None,
                       t1 + expiresInSeconds * 1000);
      orderly := orderly && t0 <= t1 && Unused(old(log), id, outOfBandId);
      if orderly {
        AddCallAgrees(old(State()), old(log), id, pending, t0, t1);
      }
      byPendingId := byPendingId[id := pending];
      byOutOfBandId := byOutOfBandId[outOfBandId := id];
      log := Log(log.items[id := Item(pending, false, false, None)], t1);
    }

    // findByPendingRequestId: found exactly when a proof exchange is attached or the grace period is
    // not over.
    method FindByPendingRequestId(id: string, now: int) returns (r: Option<Proof>)
      requires Valid()
      modifies this
      ensures Valid() && orderly == (old(orderly) && old(log).now <= now) && log == Sweep(old(log), now)
      ensures State() == Purged(old(State()), now) && r == Lookup(old(State()), id, now)
      ensures orderly ==> (r.Some? <==> Findable(old(log), id, now))
      ensures orderly && r.Some? ==> r.value == Touched(old(log).items[id].proof, now)
    {
      hide Agrees, Purged, Sweep, Findable, Touched;
      PurgeExpired(now);
      r := if id in byPendingId then Some(byPendingId[id]) else None;
      if orderly {
        LookupAgrees(old(State()), old(log), id, now);
      }
    }

    // findInvitationMessage: served exactly until expiry, taken or not.
    method FindInvitationMessage(id: string, t0: int, t1: int) returns (r: Option<string>)
      requires Valid()
      modifies this
      ensures Valid() && orderly == (old(orderly) && old(log).now <= t0 <= t1) && log == Sweep(old(log), t0).(now := t1)
      ensures State() == Purged(old(State()), t0) && r == Served(old(State()), id, t0, t1)
      ensures orderly ==>
                r == if id in old(log).items && t1 < old(log).items[id].proof.expiresAt
                     then Some(old(log).items[id].proof.invitationMessage) else None
    {
      hide Agrees, Purged;
      PurgeExpired(t0);
      orderly := orderly && t0 <= t1;
      if orderly {
        WaitAgrees(State(), log, t1);
        ServedAgrees(old(State()), old(log), id, t0, t1);
      }
      log := log.(now := t1);
      if id !in byPendingId { return None; }
      var pending := byPendingId[id];
      if pending.expiresAt <= t1 { return None; }
      return Some(pending.invitationMessage);
    }

    // take
    method Take(outOfBandId: string, t0: int, t1: int) returns (id: Option<string>)
      requires Valid()
      modifies this
      ensures Valid() && orderly == (old(orderly) && old(log).now <= t0 <= t1) &&
          log == Taken(old(log), outOfBandId, t0, t1)
      ensures (State(), id) == WithTaken(Purged(old(State()), t0), outOfBandId, t1)
      ensures orderly && id.Some? ==> Owns(old(log), id.value, outOfBandId)
      ensures orderly ==> forall x | Owns(old(log), x, outOfBandId) :: id == Some(x) <==>
          Takeable(old(log).items[x], t1)
    {
      hide Agrees, Purged, Taken, Takeable, Owns, Sweep;
      PurgeExpired(t0);
      orderly := orderly && t0 <= t1;
      if orderly {
        TakeCallAgrees(old(State()), old(log), outOfBandId, t0, t1);
      }
      log := Taken(old(log), outOfBandId, t0, t1);
      id := None;
      if outOfBandId !in byOutOfBandId { return; }
      var pendingRequestId := byOutOfBandId[outOfBandId];
      byOutOfBandId := byOutOfBandId - {outOfBandId};
      if pendingRequestId !in byPendingId { return; }
      var pending := byPendingId[pendingRequestId];
      if !pending.status.Pending? { return; }
      if pending.expiresAt <= t1 {
        byPendingId := byPendingId[pendingRequestId := WithError(pending, EXPIRED)];
        return;
      }
      id := Some(pendingRequestId);
    }

    // attachProofExchange
    method AttachProofExchange(id: string, exchange: string, now: int)
      requires Valid()
      modifies this
      ensures Valid() && orderly == (old(orderly) && old(log).now <= now && exchange != "")
      ensures log == Attached(old(log), id, exchange, now)
      ensures State() == WithAttached(old(State()), id, exchange)
    {
      hide Agrees, Attached;
      orderly := orderly && log.now <= now && exchange != "";
      if orderly {
        AttachCallAgrees(State(), log, id, exchange, now);
      }
      log := Attached(log, id, exchange, now);
      if id !in byPendingId { return; }
      var pending := byPendingId[id];
      byPendingId := byPendingId[id := pending.(status := RequestSent, proofExchangeRecordId := Some(exchange))];
    }

    // markError
    method MarkError(id: string, message: string, now: int)
      requires Valid()
      modifies this
      ensures Valid() && orderly == (old(orderly) && old(log).now <= now)
      ensures log == Marked(old(log), id, message, now)
      ensures State() == WithMarked(old(State()), id, message)
    {
      hide Agrees, Marked;
      orderly := orderly && log.now <= now;
      if orderly {
        MarkCallAgrees(State(), log, id, message, now);
      }
      log := Marked(log, id, message, now);
      if id !in byPendingId { return; }
      byPendingId := byPendingId[id := WithError(byPendingId[id], message)];
    }
  }
}
