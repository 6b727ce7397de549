// What single calls on a status list leave behind, and the indices that offers get one after the other.
module StatusListOffers {
  import opened Options
  import opened StatusList
  import opened StatusListRuns

  // ---- One call ----

  // The first entry that reads 0, from an index on.
  predicate IsFirstFree(entries: seq<nat>, from: nat, r: Option<nat>) {
    match r
    case Some(i) => from <= i < |entries| && entries[i] == 0 && forall j | from <= j < i :: entries[j] != 0
    case None => forall j | from <= j < |entries| :: entries[j] != 0
  }

  // What an allocation on its own leaves behind. The list is created first when there is none. The index
  // is the first free one from a preferred index on; else the cursor's; else the first free one.
  lemma AllocationEffect(s: Store, list: ListKey, credentialId: Option<string>, preferred: Option<int>)
    ensures var row := if list in s.lists then s.lists[list] else ListRow(1, seq(16384, _ => 0), 0, 0);
            var (after, r) := Allocate(s, list, credentialId, preferred);
            var choice := if r.Ok? then Some(r.value) else None;
            && (r.Ok? ==>
                  && r.value < |row.entries|
                  && after.lists
                  == s.lists[list := row.(entries := row.entries[r.value := 0], nextIndex := r.value + 1)]
                  && (if credentialId.Some? && credentialId.value != ""
                      then
                        && AuditKey(list, r.value) !in s.audit
                        && after.audit == s.audit[AuditKey(list, r.value) := AuditRow(credentialId, None, None)]
                      else after.audit == s.audit))
            && (r.Err? ==> after.lists == s.lists[list := row] && after.audit == s.audit)
            && (r == Err(NoFreeIndex) || r.Ok? ==>
                  if preferred.Some? && 0 <= preferred.value < |row.entries|
                  then IsFirstFree(row.entries, preferred.value, choice)
                  else if row.nextIndex < |row.entries| then r == Ok(row.nextIndex)
                  else IsFirstFree(row.entries, 0, choice))
            && (r.Err? && r.error != NoFreeIndex ==>
                  && r.error == CredentialAlreadyRevoked && credentialId.Some? && credentialId.value != ""
                  && exists i: nat | i < |row.entries| :: AuditKey(list, i) in s.audit)
  {
    AllocateExactly(s, list, credentialId, preferred);
    assert list in s.lists ==> s.lists[list := s.lists[list]] == s.lists;
  }

  // The read half of an allocation needs the list.
  lemma AllocationNeedsList(s: Store, list: ListKey, credentialId: Option<string>, preferred: Option<int>)
    ensures PlanAllocation(s, list, credentialId, preferred) == Err(StatusListNotFound) <==> list !in s.lists
  {
  }

  // What a revocation on its own leaves behind.
  lemma RevocationEffect(s: Store, list: ListKey, index: int, reason: Option<string>, who: Option<string>)
    ensures var (after, r) := Revoke(s, list, index, reason, who);
            if list !in s.lists then (after, r) == (s, Err(StatusListNotFound))
            else if !(0 <= index < |s.lists[list].entries|) then (after, r) == (s, Err(IndexOutOfBounds))
            else
              var row, key := s.lists[list], AuditKey(list, index);
              var was := if key in s.audit then s.audit[key] else AuditRow(None, None, None);
              && r == Ok(1)
              && after.lists
              == s.lists[list := row.(entries := row.entries[index := 1], revokedCount := row.revokedCount + 1)]
              && after.audit == s.audit[key := AuditRow(
                                                 was.credentialId,
                                                 if reason.Some? then reason else was.reason,
                                                 if who.Some? then who else was.revokedBy)]
  {
  }

  // ---- One call after another ----

  // After a successful allocation the next one that follows the cursor gets the next index, if there is
  // one and it has no audit row.
  lemma NextFollows(s: Store, list: ListKey, credentialId: Option<string>, preferred: Option<int>,
      next: Option<string>)
    ensures var (after, r) := Allocate(s, list, credentialId, preferred);
            r.Ok? && r.value + 1 < |after.lists[list].entries| && AuditKey(list, r.value + 1) !in s.audit ==>
              Allocate(after, list, next, None).1 == Ok(r.value + 1)
  {
    AllocationEffect(s, list, credentialId, preferred);
    var (after, r) := Allocate(s, list, credentialId, preferred);
    AllocateExactly(after, list, next, None);
    hide Allocate;
  }

  // A list of this capacity on which the first n indices have been offered and nothing else was done.
  ghost predicate Offered(s: Store, list: ListKey, capacity: nat, n: nat) {
    && list in s.lists && n <= capacity
    && s.lists[list].entries == seq(capacity, _ => 0) && s.lists[list].nextIndex == n
    && forall i: nat :: AuditKey(list, i) in s.audit <==> i < n
  }

  lemma OfferStep(s: Store, list: ListKey, capacity: nat, n: nat, credentialId: string)
    requires Offered(s, list, capacity, n) && credentialId != ""
    ensures var (after, r) := Allocate(s, list, Some(credentialId), None);
            && Offered(after, list, capacity, if n < capacity then n + 1 else n)
            && r == if n < capacity then Ok(n)
                    else if capacity == 0 then Err(NoFreeIndex) else Err(CredentialAlreadyRevoked)
  {
    AllocateExactly(s, list, Some(credentialId), None);
    AllocationEffect(s, list, Some(credentialId), None);
    hide Allocate;
    if n < capacity {
      assert seq(capacity, _ => 0)[n := 0] == seq(capacity, _ => 0);
    }
  }

  lemma {:induction false} ServeOffers(s: Store, list: ListKey, capacity: nat, calls: seq<IssuerCall>)
    requires Offered(s, list, capacity, 0)
    requires forall i | 0 <= i < |calls| :: calls[i].OfferCall? && calls[i].credentialId != ""
    ensures Offered(Serve(s, list, calls), list, capacity, if |calls| <= capacity then |calls| else capacity)
  {
    hide Allocate, Offered;
    if calls != [] {
      var n := |calls| - 1;
      ServeOffers(s, list, capacity, calls[..n]);
      OfferStep(Serve(s, list, calls[..n]), list, capacity, if n <= capacity then n else capacity,
                calls[n].credentialId);
    }
  }

  // From a list just created, offers with a credential id get the indices 0, 1, 2 and so on up to the
  // capacity; every later one fails.
  lemma OffersCountUp(s: Store, list: ListKey, bits: nat, capacity: nat, calls: seq<IssuerCall>,
      credentialId: string)
    requires list !in s.lists && (forall k | k in s.audit :: k.list != list) && credentialId != ""
    requires forall i | 0 <= i < |calls| :: calls[i].OfferCall? && calls[i].credentialId != ""
    ensures Allocate(Serve(Created(s, list, bits, capacity), list, calls), list, Some(credentialId), None).1
         == if |calls| < capacity then Ok(|calls|)
            else if capacity == 0 then Err(NoFreeIndex) else Err(CredentialAlreadyRevoked)
  {
    assert Offered(Created(s, list, bits, capacity), list, capacity, 0);
    hide Allocate, Created, Offered;
    ServeOffers(Created(s, list, bits, capacity), list, capacity, calls);
    OfferStep(Serve(Created(s, list, bits, capacity), list, calls), list, capacity,
              if |calls| <= capacity then |calls| else capacity, credentialId);
  }

  // The same for a list that the first offer creates, which has room for 16384.
  lemma FirstOfferCreates(s: Store, list: ListKey, credentialId: Option<string>)
    requires list !in s.lists
    ensures Allocate(s, list, credentialId, None) == Allocate(Created(s, list, 1, 16384), list, credentialId, None)
  {
  }
}
