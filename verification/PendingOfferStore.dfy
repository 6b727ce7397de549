// The issuer's in-memory store of pending credential offers. Expired offers are deleted at once; it
// is proved to answer like a history in which nothing is deleted.
module PendingOfferStore {
  import opened Options

  datatype Offer = Offer(walletId: string, outOfBandId: string, credential: string, invitationMessage: string,
                         consumed: bool, expiresAt: int)

  datatype Maps = Maps(byPendingId: map<string, Offer>, byOutOfBandId: map<string, string>)

  function Unexpired(m: map<string, Offer>, now: int): map<string, Offer> {
    map id | id in m && m[id].expiresAt > now :: m[id]
  }

  function ExpiredOobs(m: map<string, Offer>, ids: set<string>, now: int): set<string> {
    set id | id in ids && id in m && m[id].expiresAt <= now :: m[id].outOfBandId
  }

  lemma ExpiredOobsStep(m: map<string, Offer>, ids: set<string>, id: string, now: int)
    requires id in m && id !in ids
    ensures ExpiredOobs(m, ids + {id}, now)
         == ExpiredOobs(m, ids, now) + (if m[id].expiresAt <= now then {m[id].outOfBandId} else {})
  {
    var more := ids + {id};
    forall x | x in more && x in m && m[x].expiresAt <= now
      ensures m[x].outOfBandId in ExpiredOobs(m, ids, now)
          + (if m[id].expiresAt <= now then {m[id].outOfBandId} else {})
    {
      assert x == id || x in ids;
    }
    if m[id].expiresAt <= now {
      assert id in more && m[id].outOfBandId in ExpiredOobs(m, more, now);
    }
  }

  // ---- The history: every offer ever added, whether it was handed out, and the last purge since ----

  datatype Item = Item(offer: Offer, taken: bool, seen: Option<int>)
  datatype Log = Log(items: map<string, Item>, now: int)

  predicate Alive(e: Item) { e.seen.None? || e.seen.value < e.offer.expiresAt }

  function Sweep(log: Log, t: int): Log {
    Log(map id | id in log.items :: log.items[id].(seen := Some(t)), t)
  }

  function Added(log: Log, id: string, offer: Offer, t0: int, t1: int): Log {
    Log(Sweep(log, t0).items[id := Item(offer, false, None)], t1)
  }

  // Using an invitation at time `t`, in the history just after the purge that `take` starts with.
  function Use(swept: Log, oob: string, t: int): Log {
    Log(map id | id in swept.items ::
          var e := swept.items[id];
          if e.offer.outOfBandId != oob then e
          else Item(e.offer.(consumed := e.offer.consumed || (!e.taken && t < e.offer.expiresAt)), true, e.seen), t)
  }

  function Taken(log: Log, oob: string, t0: int, t1: int): Log { Use(Sweep(log, t0), oob, t1) }

  // Neither the identifier nor the invitation of a new offer was seen before.
  ghost predicate Unused(log: Log, id: string, oob: string) {
    id !in log.items && forall x | x in log.items :: log.items[x].offer.outOfBandId != oob
  }

  ghost predicate Owns(log: Log, id: string, oob: string) {
    id in log.items && log.items[id].offer.outOfBandId == oob
  }

  ghost predicate DistinctOobs(log: Log) {
    forall a, b | a in log.items && b in log.items &&
        log.items[a].offer.outOfBandId == log.items[b].offer.outOfBandId :: a == b
  }

  predicate ItemOk(e: Item, now: int) {
    && (e.seen.Some? ==> e.seen.value <= now)
    && (e.offer.consumed ==> e.taken)
  }

  ghost predicate LogOk(log: Log) {
    DistinctOobs(log) && forall id | id in log.items :: ItemOk(log.items[id], log.now)
  }

  // The first map holds what no purge has found expired.
  ghost predicate EntriesAgree(byPendingId: map<string, Offer>, log: Log) {
    && (forall id | id in byPendingId ::
        id in log.items && Alive(log.items[id]) && byPendingId[id] == log.items[id].offer)
    && (forall id | id in log.items && Alive(log.items[id]) :: id in byPendingId)
  }

  // The second map leads to what is neither used nor found expired.
  ghost predicate IndexAgrees(byOutOfBandId: map<string, string>, log: Log) {
    && (forall oob | oob in byOutOfBandId :: Owns(log, byOutOfBandId[oob], oob))
    && (forall id | id in log.items ::
          log.items[id].offer.outOfBandId in byOutOfBandId <==> !log.items[id].taken && Alive(log.items[id]))
  }

  ghost predicate Agrees(s: Maps, log: Log) {
    LogOk(log) && EntriesAgree(s.byPendingId, log) && IndexAgrees(s.byOutOfBandId, log)
  }

  // The answer `take` should give about an offer.
  predicate Takeable(e: Item, t: int) { !e.taken && t < e.offer.expiresAt }

  // ---- The two maps ----

  function Purged(s: Maps, now: int): Maps {
    Maps(Unexpired(s.byPendingId, now), s.byOutOfBandId - ExpiredOobs(s.byPendingId, s.byPendingId.Keys, now))
  }

  function WithAdded(s: Maps, id: string, offer: Offer): Maps {
    Maps(s.byPendingId[id := offer], s.byOutOfBandId[offer.outOfBandId := id])
  }

  // `take` after its purge: the maps, and the offer handed out.
  function WithTaken(s: Maps, oob: string, t: int): (Maps, Option<string>) {
    if oob !in s.byOutOfBandId then (s, None)
    else
      var id := s.byOutOfBandId[oob];
      var s' := s.(byOutOfBandId := s.byOutOfBandId - {oob});
      if id !in s.byPendingId || s.byPendingId[id].consumed || s.byPendingId[id].expiresAt <= t then (s', None)
      else (s'.(byPendingId := s.byPendingId[id := s.byPendingId[id].(consumed := true)]), Some(id))
  }

  // ---- Purging ----

  lemma ExpiredOobsOwned(byPendingId: map<string, Offer>, log: Log, id: string, t: int)
    requires LogOk(log) && EntriesAgree(byPendingId, log) && id in log.items
    ensures log.items[id].offer.outOfBandId in ExpiredOobs(byPendingId, byPendingId.Keys, t)
       <==> Alive(log.items[id]) && log.items[id].offer.expiresAt <= t
  {
    hide Alive, ItemOk;
    var oob := log.items[id].offer.outOfBandId;
    if oob in ExpiredOobs(byPendingId, byPendingId.Keys, t) {
      var other :| other in byPendingId && byPendingId[other].expiresAt <= t && byPendingId[other].outOfBandId == oob;
      assert other == id;
    }
    if Alive(log.items[id]) && log.items[id].offer.expiresAt <= t {
      assert id in byPendingId.Keys;
    }
  }

  lemma SeenItem(e: Item, now: int, t: int)
    requires ItemOk(e, now) && now <= t
    ensures ItemOk(e.(seen := Some(t)), t)
    ensures Alive(e.(seen := Some(t))) <==> t < e.offer.expiresAt
    ensures !Alive(e) ==> e.offer.expiresAt <= t
  {
  }

  lemma SweepOk(log: Log, t: int)
    requires LogOk(log) && log.now <= t
    ensures LogOk(Sweep(log, t))
  {
    hide Alive;
  }

  lemma PurgedEntriesAgree(m: map<string, Offer>, log: Log, t: int)
    requires LogOk(log) && EntriesAgree(m, log) && log.now <= t
    ensures EntriesAgree(Unexpired(m, t), Sweep(log, t))
  {
    hide Alive, ItemOk, DistinctOobs;
    forall id | id in log.items
      ensures Alive(Sweep(log, t).items[id]) <==> Alive(log.items[id]) && log.items[id].offer.expiresAt > t
    {
      SeenItem(log.items[id], log.now, t);
    }
  }

  lemma PurgedIndexAgrees(s: Maps, log: Log, t: int)
    requires Agrees(s, log) && log.now <= t
    ensures IndexAgrees(s.byOutOfBandId - ExpiredOobs(s.byPendingId, s.byPendingId.Keys, t), Sweep(log, t))
  {
    hide ExpiredOobs, Alive, ItemOk, EntriesAgree;
    forall id | id in log.items
      ensures Alive(Sweep(log, t).items[id]) <==>
              Alive(log.items[id]) && log.items[id].offer.outOfBandId !in ExpiredOobs(s.byPendingId,
                  s.byPendingId.Keys, t)
    {
      SeenItem(log.items[id], log.now, t);
      ExpiredOobsOwned(s.byPendingId, log, id, t);
    }
  }

  lemma PurgeAgrees(s: Maps, log: Log, t: int)
    requires Agrees(s, log) && log.now <= t
    ensures Agrees(Purged(s, t), Sweep(log, t))
  {
    SweepOk(log, t);
    PurgedEntriesAgree(s.byPendingId, log, t);
    PurgedIndexAgrees(s, log, t);
  }

  lemma WaitAgrees(s: Maps, log: Log, t: int)
    requires Agrees(s, log) && log.now <= t
    ensures Agrees(s, log.(now := t))
  {
    hide Alive;
  }

  // ---- Adding ----

  lemma AddedIndexAgrees(index: map<string, string>, log: Log, id: string, offer: Offer, t: int)
    requires IndexAgrees(index, log) && Unused(log, id, offer.outOfBandId)
    ensures IndexAgrees(index[offer.outOfBandId := id], Log(log.items[id := Item(offer, false, None)], t))
  {
  }

  lemma AddedEntriesAgree(m: map<string, Offer>, log: Log, id: string, offer: Offer, t: int)
    requires EntriesAgree(m, log) && id !in log.items
    ensures EntriesAgree(m[id := offer], Log(log.items[id := Item(offer, false, None)], t))
  {
  }

  lemma AddedLogOk(log: Log, id: string, offer: Offer, t: int)
    requires LogOk(log) && log.now <= t && Unused(log, id, offer.outOfBandId) && !offer.consumed
    ensures LogOk(Log(log.items[id := Item(offer, false, None)], t))
  {
  }

  lemma AddCallAgrees(s: Maps, log: Log, id: string, offer: Offer, t0: int, t1: int)
    requires Agrees(s, log) && log.now <= t0 <= t1 && Unused(log, id, offer.outOfBandId) && !offer.consumed
    ensures Agrees(WithAdded(Purged(s, t0), id, offer), Added(log, id, offer, t0, t1))
  {
    PurgeAgrees(s, log, t0);
    assert Unused(Sweep(log, t0), id, offer.outOfBandId);
    hide Unexpired, ExpiredOobs, Sweep, LogOk, EntriesAgree, IndexAgrees;
    assert Sweep(log, t0).now == t0 by { SweptNow(log, t0); }
    AddedLogOk(Sweep(log, t0), id, offer, t1);
    AddedEntriesAgree(Purged(s, t0).byPendingId, Sweep(log, t0), id, offer, t1);
    AddedIndexAgrees(Purged(s, t0).byOutOfBandId, Sweep(log, t0), id, offer, t1);
  }

  lemma SweptNow(log: Log, t: int)
    ensures Sweep(log, t).now == t
  {
  }

  // ---- Taking ----

  lemma UseItem(swept: Log, oob: string, t: int, x: string)
    requires LogOk(swept) && swept.now <= t && x in swept.items
    ensures var e, u := swept.items[x], Use(swept, oob, t).items[x];
      && ItemOk(u, t) && (Alive(u) <==> Alive(e)) && u.offer.outOfBandId == e.offer.outOfBandId
      && (u.taken <==> e.taken || e.offer.outOfBandId == oob)
      && u.offer == if e.offer.outOfBandId == oob && Takeable(e, t) then e.offer.(consumed := true) else e.offer
  {
  }

  lemma UseOk(swept: Log, oob: string, t: int)
    requires LogOk(swept) && swept.now <= t
    ensures LogOk(Use(swept, oob, t))
  {
    hide ItemOk, Alive;
    var used := Use(swept, oob, t);
    forall x | x in swept.items
      ensures ItemOk(used.items[x], t) && used.items[x].offer.outOfBandId == swept.items[x].offer.outOfBandId
    {
      UseItem(swept, oob, t, x);
    }
  }

  lemma UsedIndexAgrees(index: map<string, string>, swept: Log, oob: string, t: int)
    requires LogOk(swept) && IndexAgrees(index, swept) && swept.now <= t
    ensures IndexAgrees(index - {oob}, Use(swept, oob, t))
  {
    hide ItemOk, Alive, Takeable;
    forall x | x in swept.items ensures
      var e, u := swept.items[x], Use(swept, oob, t).items[x];
      (Alive(u) <==> Alive(e)) && u.offer.outOfBandId == e.offer.outOfBandId &&
          (u.taken <==> e.taken || e.offer.outOfBandId == oob)
    {
      UseItem(swept, oob, t, x);
    }
  }

  // The owner of the invitation, if it is takeable, is consumed; all other entries stay.
  lemma UsedEntriesAgree(m: map<string, Offer>, swept: Log, oob: string, t: int, id: Option<string>)
    requires LogOk(swept) && EntriesAgree(m, swept) && swept.now <= t
    requires id.Some? ==> id.value in m && Owns(swept, id.value, oob) && Takeable(swept.items[id.value], t)
    requires forall x | Owns(swept, x, oob) && Takeable(swept.items[x], t) && Alive(swept.items[x]) :: id == Some(x)
    requires forall x | x in swept.items && !Alive(swept.items[x]) :: swept.items[x].offer.expiresAt <= t
    ensures EntriesAgree(if id.Some? then m[id.value := m[id.value].(consumed := true)] else m, Use(swept, oob, t))
  {
    hide ItemOk, Alive;
    var used := Use(swept, oob, t);
    forall x | x in swept.items
      ensures Alive(used.items[x]) <==> Alive(swept.items[x])
      ensures used.items[x].offer == if id == Some(x)
          then swept.items[x].offer.(consumed := true) else swept.items[x].offer
    {
      UseItem(swept, oob, t, x);
    }
    hide Use, LogOk;
  }

  // An index entry leads to an offer that is stored and unused.
  lemma IndexedOffer(s: Maps, swept: Log, oob: string)
    requires Agrees(s, swept) && oob in s.byOutOfBandId
    ensures var id := s.byOutOfBandId[oob];
      && id in s.byPendingId && Owns(swept, id, oob) && !swept.items[id].taken && !s.byPendingId[id].consumed
      && s.byPendingId[id] == swept.items[id].offer && (forall x | Owns(swept, x, oob) :: x == id)
  {
    hide Alive;
    var id := s.byOutOfBandId[oob];
    assert Owns(swept, id, oob) && swept.items[id].offer.outOfBandId in s.byOutOfBandId;
  }

  lemma UnindexedOffer(s: Maps, swept: Log, oob: string, t: int, x: string)
    requires Agrees(s, swept) && oob !in s.byOutOfBandId && Owns(swept, x, oob)
    requires !Alive(swept.items[x]) ==> swept.items[x].offer.expiresAt <= t
    ensures swept.items[x].taken || !Alive(swept.items[x])
    ensures !Takeable(swept.items[x], t)
  {
    hide Alive;
  }

  // `take` after its purge: what it hands out and what it leaves.
  lemma UseAgrees(s: Maps, swept: Log, oob: string, t: int)
    requires Agrees(s, swept) && swept.now <= t
    requires forall x | x in swept.items && !Alive(swept.items[x]) :: swept.items[x].offer.expiresAt <= t
    ensures Agrees(WithTaken(s, oob, t).0, Use(swept, oob, t))
    ensures forall x | Owns(swept, x, oob) :: WithTaken(s, oob, t).1 == Some(x) <==> Takeable(swept.items[x], t)
    ensures WithTaken(s, oob, t).1.Some? ==> Owns(swept, WithTaken(s, oob, t).1.value, oob)
  {
    hide Alive, ItemOk, Use;
    UseOk(swept, oob, t);
    UsedIndexAgrees(s.byOutOfBandId, swept, oob, t);
    if oob in s.byOutOfBandId {
      IndexedOffer(s, swept, oob);
    } else {
      forall x | Owns(swept, x, oob) ensures !Takeable(swept.items[x], t) {
        UnindexedOffer(s, swept, oob, t, x);
      }
      assert s.byOutOfBandId - {oob} == s.byOutOfBandId;
    }
    hide IndexAgrees, DistinctOobs;
    UsedEntriesAgree(s.byPendingId, swept, oob, t, WithTaken(s, oob, t).1);
  }

  lemma SweptItems(log: Log, oob: string, t0: int, t1: int)
    requires LogOk(log) && log.now <= t0 <= t1
    ensures forall x :: Owns(log, x, oob) <==> Owns(Sweep(log, t0), x, oob)
    ensures forall x | Owns(log, x, oob) :: Takeable(Sweep(log, t0).items[x], t1) <==> Takeable(log.items[x], t1)
    ensures forall x | x in Sweep(log, t0).items && !Alive(Sweep(log, t0).items[x]) ::
        Sweep(log, t0).items[x].offer.expiresAt <= t1
  {
    hide ItemOk, DistinctOobs;
  }

  lemma TakeCallAgrees(s: Maps, log: Log, oob: string, t0: int, t1: int)
    requires Agrees(s, log) && log.now <= t0 <= t1
    ensures Agrees(WithTaken(Purged(s, t0), oob, t1).0, Taken(log, oob, t0, t1))
    ensures var handed := WithTaken(Purged(s, t0), oob, t1).1;
            && (forall x | Owns(log, x, oob) :: handed == Some(x) <==> Takeable(log.items[x], t1))
            && (handed.Some? ==> Owns(log, handed.value, oob))
  {
    PurgeAgrees(s, log, t0);
    SweptItems(log, oob, t0, t1);
    SweptNow(log, t0);
    hide Agrees, Sweep, Purged, WithTaken, Use, Takeable, Owns, Alive;
    UseAgrees(Purged(s, t0), Sweep(log, t0), oob, t1);
  }

  // ---- Serving the invitation ----

  // The invitation message served after a purge at `t0`, at time `t1`.
  function Served(s: Maps, id: string, t0: int, t1: int): Option<string> {
    var m := Purged(s, t0).byPendingId;
    if id in m && t1 < m[id].expiresAt then Some(m[id].invitationMessage) else None
  }

  lemma ServedAgrees(s: Maps, log: Log, id: string, t0: int, t1: int)
    requires Agrees(s, log) && log.now <= t0 <= t1
    ensures Served(s, id, t0, t1)
         == if id in log.items && t1 < log.items[id].offer.expiresAt
             then Some(log.items[id].offer.invitationMessage) else None
  {
    hide IndexAgrees, DistinctOobs, ExpiredOobs;
    if id in log.items {
      SeenItem(log.items[id], log.now, t0);
    }
  }

  lemma NothingExpired(m: map<string, Offer>, ids: set<string>, now: int)
    requires ids == {}
    ensures ExpiredOobs(m, ids, now) == {}
  {
  }

  class PendingDidCommOfferStore {
    var byPendingId: map<string, Offer>
    var byOutOfBandId: map<string, string>
    ghost var log: Log
    // So far the clock never ran back, and identifiers and invitations of new offers were unused.
    ghost var orderly: bool

    function State(): Maps
      reads this
    {
      Maps(byPendingId, byOutOfBandId)
    }

    ghost predicate Valid()
      reads this
    {
      orderly ==> Agrees(State(), log)
    }

    constructor ()
      ensures Valid() && orderly && log == Log(map[], 0) && State() == Maps(map[], map[])
    {
      byPendingId, byOutOfBandId, log, orderly := map[], map[], Log(map[], 0), true;
    }

    // The loop of purgeExpired over the two maps.
    method PurgeMaps(now: int)
      modifies this`byPendingId, this`byOutOfBandId
      ensures State() == Purged(old(State()), now)
    {
      hide ExpiredOobs;
      ghost var m := byPendingId;
      var rest := byPendingId.Keys;
      assert ExpiredOobs(m, m.Keys - rest, now) == {} by { NothingExpired(m, m.Keys - rest, now); }
      while rest != {}
        invariant rest <= m.Keys
        invariant byPendingId == map id | id in m && (id in rest || m[id].expiresAt > now) :: m[id]
        invariant byOutOfBandId == old(byOutOfBandId) - ExpiredOobs(m, m.Keys - rest, now)
        decreases rest
      {
        var id :| id in rest;
        var pending := byPendingId[id];
        ExpiredOobsStep(m, m.Keys - rest, id, now);
        assert m.Keys - (rest - {id}) == m.Keys - rest + {id};
        rest := rest - {id};
        if pending.expiresAt > now { continue; }
        byOutOfBandId := byOutOfBandId - {pending.outOfBandId};
        byPendingId := byPendingId - {id};
      }
      assert m.Keys - rest == m.Keys;
      assert byPendingId == Unexpired(m, now);
    }

    // purgeExpired
    method PurgeExpired(now: int)
      requires Valid()
      modifies this
      ensures Valid() && orderly == (old(orderly) && old(log).now <= now) && log == Sweep(old(log), now)
      ensures State() == Purged(old(State()), now)
    {
      hide Agrees, Purged, Sweep;
      PurgeMaps(now);
      orderly := orderly && log.now <= now;
      if orderly {
        PurgeAgrees(old(State()), log, now);
      }
      log := Sweep(log, now);
    }

    // add; `id` is the UUID drawn for the offer.
    method Add(id: string, walletId: string, outOfBandId: string, credential: string, invitationMessage: string,
               expiresInSeconds: int, t0: int, t1: int) returns (pending: Offer)
      requires Valid()
      modifies this
      ensures Valid() && orderly == (old(orderly) && old(log).now <= t0 <= t1 && Unused(old(log), id, outOfBandId))
      ensures log == Added(old(log), id, pending, t0, t1)
      ensures pending == Offer(walletId, outOfBandId, credential, invitationMessage, false, t1
          + expiresInSeconds * 1000)
      ensures State() == WithAdded(Purged(old(State()), t0), id, pending)
    {
      hide Agrees, Purged, Sweep, Unused;
      PurgeExpired(t0);
      pending := Offer(walletId, outOfBandId, credential, invitationMessage, false, t1 + expiresInSeconds * 1000);
      orderly := orderly && t0 <= t1 && Unused(old(log), id, outOfBandId);
      if orderly {
        AddCallAgrees(old(State()), old(log), id, pending, t0, t1);
      }
      byPendingId := byPendingId[id := pending];
      byOutOfBandId := byOutOfBandId[outOfBandId := id];
      log := Log(log.items[id := Item(pending, false, None)], t1);
    }

    // findInvitationMessage: served exactly until expiry, handed out or not.
    method FindInvitationMessage(id: string, t0: int, t1: int) returns (r: Option<string>)
      requires Valid()
      modifies this
      ensures Valid() && orderly == (old(orderly) && old(log).now <= t0 <= t1) && log == Sweep(old(log), t0).(now := t1)
      ensures State() == Purged(old(State()), t0) && r == Served(old(State()), id, t0, t1)
      ensures orderly ==>
                r == if id in old(log).items && t1 < old(log).items[id].offer.expiresAt
                     then Some(old(log).items[id].offer.invitationMessage) else None
    {
      hide Agrees, Purged;
      PurgeExpired(t0);
      orderly := orderly && t0 <= t1;
      if orderly {
        WaitAgrees(State(), log, t1);
        ServedAgrees(old(State()), old(log), id, t0, t1);
      }
      log := log.(now := t1);
      if id !in byPendingId { return None; }
      var pending := byPendingId[id];
      if pending.expiresAt <= t1 { return None; }
      return Some(pending.invitationMessage);
    }

    // take: hands the offer of an invitation out exactly when it was not used before and the offer
    // has not expired.
    method Take(outOfBandId: string, t0: int, t1: int) returns (id: Option<string>)
      requires Valid()
      modifies this
      ensures Valid() && orderly == (old(orderly) && old(log).now <= t0 <= t1) &&
          log == Taken(old(log), outOfBandId, t0, t1)
      ensures (State(), id) == WithTaken(Purged(old(State()), t0), outOfBandId, t1)
      ensures orderly && id.Some? ==> Owns(old(log), id.value, outOfBandId)
      ensures orderly ==> forall x | Owns(old(log), x, outOfBandId) :: id == Some(x) <==>
          Takeable(old(log).items[x], t1)
    {
      hide Agrees, Purged, Taken, Takeable, Owns, Sweep;
      PurgeExpired(t0);
      orderly := orderly && t0 <= t1;
      if orderly {
        TakeCallAgrees(old(State()), old(log), outOfBandId, t0, t1);
      }
      log := Taken(old(log), outOfBandId, t0, t1);
      id := None;
      if outOfBandId !in byOutOfBandId { return; }
      var pendingOfferId := byOutOfBandId[outOfBandId];
      byOutOfBandId := byOutOfBandId - {outOfBandId};
      if pendingOfferId !in byPendingId || byPendingId[pendingOfferId].consumed { return; }
      var pending := byPendingId[pendingOfferId];
      if pending.expiresAt <= t1 { return; }
      byPendingId := byPendingId[pendingOfferId := pending.(consumed := true)];
      id := Some(pendingOfferId);
    }
  }
}
