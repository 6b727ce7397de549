// The status list of a credential type: its table rows, the two halves of each operation (read,
// then transaction), and the service methods that run them back to back.
module StatusList {
  import opened Options

  // Section 7.1 of the IETF Token Status List draft.
  const STATUS_TYPE_VALID: nat := 0
  const STATUS_TYPE_INVALID: nat := 1

  const DEFAULT_CAPACITY: nat := 16384
  const DEFAULT_BITS: nat := 1

  // (wallet_id, vct) is a unique key of status_lists and stands for the row's id.
  datatype ListKey = ListKey(walletId: string, vct: string)

  // `entries` is the decompressed list; the capacity is its length.
  datatype ListRow = ListRow(bits: nat, entries: seq<nat>, nextIndex: nat, revokedCount: nat)

  datatype AuditKey = AuditKey(list: ListKey, index: nat)
  datatype AuditRow = AuditRow(credentialId: Option<string>, reason: Option<string>, revokedBy: Option<string>)

  datatype Store = Store(lists: map<ListKey, ListRow>, audit: map<AuditKey, AuditRow>)

  datatype Failure = StatusListNotFound | NoFreeIndex | IndexOutOfBounds | CredentialAlreadyRevoked | NoSuchList
  datatype Result<+T> = Ok(value: T) | Err(error: Failure)

  datatype Write = Allocation(credentialId: Option<string>) | Revocation(reason: Option<string>,
      revokedBy: Option<string>)

  // An operation between its read and its transaction: the row as read and what will be written.
  datatype Plan = Plan(list: ListKey, read: ListRow, index: nat, entries: seq<nat>, nextIndex: nat, write: Write)

  function FirstFree(entries: seq<nat>, from: nat): (r: Option<nat>)
    ensures r.Some? ==> from <= r.value < |entries| && entries[r.value] == STATUS_TYPE_VALID
    ensures r.Some? ==> forall i | from <= i < r.value :: entries[i] != STATUS_TYPE_VALID
    ensures r.None? ==> forall i | from <= i < |entries| :: entries[i] != STATUS_TYPE_VALID
    decreases |entries| - from
  {
    if from >= |entries| then None
    else if entries[from] == STATUS_TYPE_VALID then Some(from)
    else FirstFree(entries, from + 1)
  }

  predicate InRange(row: ListRow, preferred: Option<int>) {
    preferred.Some? && 0 <= preferred.value < |row.entries|
  }

  // The index allocateIndex chooses; `preferred` is any number the caller sends. With a preferred index
  // in range it is the first VALID one from there on; otherwise the cursor's, whatever stands there;
  // and when the cursor has run out, the first VALID one of the list.
  function ChooseIndex(row: ListRow, preferred: Option<int>): (r: Option<nat>)
    ensures r.Some? ==> r.value < |row.entries|
    ensures InRange(row, preferred) ==> r == FirstFree(row.entries, preferred.value)
    ensures !InRange(row, preferred) && row.nextIndex < |row.entries| ==> r == Some(row.nextIndex)
    ensures !InRange(row, preferred) && row.nextIndex >= |row.entries| ==> r == FirstFree(row.entries, 0)
  {
    if preferred.Some? && 0 <= preferred.value < |row.entries| then
      if row.entries[preferred.value] == STATUS_TYPE_VALID then Some(preferred.value)
      else FirstFree(row.entries, preferred.value + 1)
    else if row.nextIndex < |row.entries| then Some(row.nextIndex)
    else FirstFree(row.entries, 0)
  }

  function PlanAllocation(s: Store, list: ListKey, credentialId: Option<string>, preferred: Option<int>): Result<Plan> {
    if list !in s.lists then Err(StatusListNotFound)
    else
      var row := s.lists[list];
      match ChooseIndex(row, preferred)
      case None => Err(NoFreeIndex)
      case Some(i) => Ok(Plan(list, row, i, row.entries[i := STATUS_TYPE_VALID], i + 1, Allocation(credentialId)))
  }

  // revoke, up to the transaction.
  function PlanRevocation(s: Store, list: ListKey, index: int, reason: Option<string>,
      who: Option<string>): Result<Plan> {
    if list !in s.lists then Err(StatusListNotFound)
    else
      var row := s.lists[list];
      if index < 0 || index >= |row.entries| then Err(IndexOutOfBounds)
      else Ok(Plan(list, row, index, row.entries[index := STATUS_TYPE_INVALID], row.nextIndex, Revocation(reason, who)))
  }

  // ---- Statements of the transactions ----

  function Updated(s: Store, list: ListKey, entries: seq<nat>, nextIndex: nat): Store {
    if list !in s.lists then s
    else s.(lists := s.lists[list := s.lists[list].(entries := entries, nextIndex := nextIndex)])
  }

  function Incremented(s: Store, list: ListKey): Store {
    if list !in s.lists then s
    else s.(lists := s.lists[list := s.lists[list].(revokedCount := s.lists[list].revokedCount + 1)])
  }

  // INSERT into the audit table: UNIQUE (status_list_id, index), foreign key to the list.
  function Inserted(s: Store, k: AuditKey, row: AuditRow): Result<Store> {
    if k.list !in s.lists then Err(NoSuchList)
    else if k in s.audit then Err(CredentialAlreadyRevoked)
    else Ok(s.(audit := s.audit[k := row]))
  }

  // COALESCE(new, old)
  function Coalesce(a: Option<string>, b: Option<string>): Option<string> { if a.Some? then a else b }

  function Completed(s: Store, k: AuditKey, reason: Option<string>, who: Option<string>): Store {
    if k !in s.audit then s
    else s.(audit := s.audit[k := s.audit[k].(reason := Coalesce(reason, s.audit[k].reason),
                                              revokedBy := Coalesce(who, s.audit[k].revokedBy))])
  }

  // The whole transaction of a plan.
  function Commit(s: Store, p: Plan): Result<Store> {
    var s1 := Updated(s, p.list, p.entries, p.nextIndex);
    var k := AuditKey(p.list, p.index);
    match p.write
    case Allocation(credentialId) =>
      if Present(credentialId) then Inserted(s1, k, AuditRow(credentialId, None, None)) else Ok(s1)
    case Revocation(reason, who) =>
      var s2 := Incremented(s1, p.list);
      if k in s2.audit then Ok(Completed(s2, k, reason, who)) else Inserted(s2, k, AuditRow(None, reason, who))
  }

  function Created(s: Store, list: ListKey, bits: nat, capacity: nat): Store {
    if list in s.lists then s
    else s.(lists := s.lists[list := ListRow(bits, seq(capacity, _ => STATUS_TYPE_VALID), 0, 0)])
  }

  // One allocation, or one revocation, with nothing else going on. The second part is what is returned.
  function Allocate(s: Store, list: ListKey, credentialId: Option<string>, preferred: Option<int>): (Store,
      Result<nat>) {
    var s0 := Created(s, list, DEFAULT_BITS, DEFAULT_CAPACITY);
    match PlanAllocation(s0, list, credentialId, preferred)
    case Err(e) => (s0, Err(e))
    case Ok(p) =>
      match Commit(s0, p)
      case Err(e) => (s0, Err(e))
      case Ok(s1) => (s1, Ok(p.index))
  }

  function Revoke(s: Store, list: ListKey, index: int, reason: Option<string>, who: Option<string>): (Store,
      Result<nat>) {
    match PlanRevocation(s, list, index, reason, who)
    case Err(e) => (s, Err(e))
    case Ok(p) =>
      match Commit(s, p)
      case Err(e) => (s, Err(e))
      case Ok(s1) => (s1, Ok(STATUS_TYPE_INVALID))
  }

  // ---- The service over its tables ----

  class StatusListStorage {
    var lists: map<ListKey, ListRow>
    var audit: map<AuditKey, AuditRow>

    constructor ()
      ensures State() == Store(map[], map[])
    {
      lists, audit := map[], map[];
    }

    function State(): Store
      reads this
    {
      Store(lists, audit)
    }

    method Create(list: ListKey, bits: nat, capacity: nat)
      modifies this
      ensures State() == Created(old(State()), list, bits, capacity)
    {
      if list !in lists {
        lists := lists[list := ListRow(bits, seq(capacity, _ => STATUS_TYPE_VALID), 0, 0)];
      }
    }

    method UpdateCompressedBitstring(list: ListKey, entries: seq<nat>, nextIndex: nat)
      modifies this
      ensures State() == Updated(old(State()), list, entries, nextIndex)
    {
      if list in lists {
        lists := lists[list := lists[list].(entries := entries, nextIndex := nextIndex)];
      }
    }

    method IncrementRevokedCount(list: ListKey)
      modifies this
      ensures State() == Incremented(old(State()), list)
    {
      if list in lists {
        lists := lists[list := lists[list].(revokedCount := lists[list].revokedCount + 1)];
      }
    }

    method SaveRevocation(k: AuditKey, row: AuditRow) returns (failed: Option<Failure>)
      modifies this
      ensures failed == if k.list !in old(lists) then Some(NoSuchList)
                        else if k in old(audit) then Some(CredentialAlreadyRevoked) else None
      ensures match Inserted(old(State()), k, row)
              case Ok(s) => failed.None? && State() == s
              case Err(e) => failed == Some(e) && State() == old(State())
    {
      if k.list !in lists { return Some(NoSuchList); }
      if k in audit { return Some(CredentialAlreadyRevoked); }
      audit := audit[k := row];
      failed := None;
    }

    method UpdateRevocation(k: AuditKey, reason: Option<string>, who: Option<string>)
      modifies this
      ensures State() == Completed(old(State()), k, reason, who)
    {
      if k in audit {
        audit := audit[k := audit[k].(reason := Coalesce(reason, audit[k].reason), revokedBy :=
            Coalesce(who, audit[k].revokedBy))];
      }
    }

    // withTransaction around an allocation or a revocation: BEGIN, the statements, then COMMIT, or
    // ROLLBACK of everything when one of them fails.
    method RunTransaction(p: Plan) returns (failed: Option<Failure>)
      modifies this
      ensures match Commit(old(State()), p)
              case Ok(s) => failed.None? && State() == s
              case Err(e) => failed == Some(e) && State() == old(State())
    {
      var savedLists, savedAudit := lists, audit;
      failed := None;
      var k := AuditKey(p.list, p.index);
      UpdateCompressedBitstring(p.list, p.entries, p.nextIndex);
      match p.write {
        case Allocation(credentialId) =>
          if Present(credentialId) {
            failed := SaveRevocation(k, AuditRow(credentialId, None, None));
          }
        case Revocation(reason, who) =>
          IncrementRevokedCount(p.list);
          if k in audit {
            UpdateRevocation(k, reason, who);
          } else {
            failed := SaveRevocation(k, AuditRow(None, reason, who));
          }
      }
      if failed.Some? {
        lists, audit := savedLists, savedAudit;
      }
    }

    // findFreeIndex
    method FindFreeIndex(entries: seq<nat>, fromIndex: nat) returns (r: Option<nat>)
      ensures r == FirstFree(entries, fromIndex)
    {
      var i := fromIndex;
      while i < |entries|
        invariant fromIndex <= i
        invariant FirstFree(entries, fromIndex) == FirstFree(entries, i)
      {
        if entries[i] == STATUS_TYPE_VALID { return Some(i); }
        i := i + 1;
      }
      return None;
    }

    // allocateIndex
    method AllocateIndex(list: ListKey, credentialId: Option<string>, preferredIndex: Option<int>)
        returns (r: Result<nat>)
      modifies this
      ensures (State(), r) == Allocate(old(State()), list, credentialId, preferredIndex)
    {
      Create(list, DEFAULT_BITS, DEFAULT_CAPACITY);
      var statusList := lists[list];
      var entries := statusList.entries;
      var capacity := |entries|;
      var index: nat;
      if preferredIndex.Some? && 0 <= preferredIndex.value < capacity {
        if entries[preferredIndex.value] == STATUS_TYPE_VALID {
          index := preferredIndex.value;
        } else {
          var freeIndex := FindFreeIndex(entries, preferredIndex.value + 1);
          if freeIndex.None? { return Err(NoFreeIndex); }
          index := freeIndex.value;
        }
      } else {
        index := statusList.nextIndex;
        if index >= capacity {
          var freeIndex := FindFreeIndex(entries, 0);
          if freeIndex.None? { return Err(NoFreeIndex); }
          index := freeIndex.value;
        }
      }
      entries := entries[index := STATUS_TYPE_VALID];
      var failed := RunTransaction(Plan(list, statusList, index, entries, index + 1, Allocation(credentialId)));
      r := if failed.Some? then Err(failed.value) else Ok(index);
    }

    // revoke
    method RevokeIndex(list: ListKey, index: int, reason: Option<string>, revokedBy: Option<string>)
        returns (r: Result<nat>)
      modifies this
      ensures (State(), r) == Revoke(old(State()), list, index, reason, revokedBy)
    {
      if list !in lists { return Err(StatusListNotFound); }
      var statusList := lists[list];
      if index < 0 || index >= |statusList.entries| { return Err(IndexOutOfBounds); }
      var entries := statusList.entries[index := STATUS_TYPE_INVALID];
      var failed := RunTransaction(Plan(list, statusList, index, entries, statusList.nextIndex,
          Revocation(reason, revokedBy)));
      r := if failed.Some? then Err(failed.value) else Ok(STATUS_TYPE_INVALID);
    }

    // getStatus
    method GetStatus(list: ListKey, index: int) returns (r: Result<nat>)
      ensures list !in lists ==> r == Err(StatusListNotFound)
      ensures list in lists && !(0 <= index < |lists[list].entries|) ==> r == Err(IndexOutOfBounds)
      ensures list in lists && 0 <= index < |lists[list].entries| ==> r == Ok(lists[list].entries[index])
    {
      if list !in lists { return Err(StatusListNotFound); }
      var statusList := lists[list];
      if index < 0 || index >= |statusList.entries| { return Err(IndexOutOfBounds); }
      return Ok(statusList.entries[index]);
    }
  }
}
