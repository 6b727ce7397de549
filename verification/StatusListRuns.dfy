// The status list protocol under interleaving: every operation reads the list first and writes the
// whole list back later, while other operations run in between.
module StatusListRuns {
  import opened Options
  import opened StatusList

  datatype Step =
    | CreateList(list: ListKey, bits: nat, capacity: nat)
    | BeginAllocate(op: nat, list: ListKey, credentialId: Option<string>, preferred: Option<int>)
    | BeginRevoke(op: nat, list: ListKey, index: int, reason: Option<string>, revokedBy: Option<string>)
    | CommitOp(op: nat)
    | Abandon(op: nat)

  // `granted` logs the indices returned by successful allocations that carry a credential id.
  datatype World = World(store: Store, flight: map<nat, Plan>, granted: seq<AuditKey>)

  const EmptyWorld := World(Store(map[], map[]), map[], [])

  function Begin(w: World, op: nat, plan: Result<Plan>): World {
    match plan
    case Ok(p) => w.(flight := w.flight[op := p])
    case Err(_) => w.(flight := w.flight - {op})
  }

  function Granted(w: World, p: Plan): seq<AuditKey> {
    if p.write.Allocation? && Present(p.write.credentialId) then w.granted + [AuditKey(p.list, p.index)]
    else w.granted
  }

  function Next(w: World, step: Step): World {
    match step
    case CreateList(list, bits, capacity) => w.(store := Created(w.store, list, bits, capacity))
    case BeginAllocate(op, list, credentialId, preferred) =>
      Begin(w, op, PlanAllocation(w.store, list, credentialId, preferred))
    case BeginRevoke(op, list, index, reason, who) =>
      Begin(w, op, PlanRevocation(w.store, list, index, reason, who))
    case Abandon(op) => w.(flight := w.flight - {op})
    case CommitOp(op) =>
      if op !in w.flight then w
      else
        var p := w.flight[op];
        match Commit(w.store, p)
        case Err(_) => w.(flight := w.flight - {op})
        case Ok(s) => World(s, w.flight - {op}, Granted(w, p))
  }

  function Run(w: World, steps: seq<Step>): World {
    if steps == [] then w else Next(Run(w, steps[..|steps| - 1]), steps[|steps| - 1])
  }

  // ---- What every step keeps ----

  function CountInvalid(entries: seq<nat>): nat {
    if entries == [] then 0
    else (if entries[0] == STATUS_TYPE_INVALID then 1 else 0) + CountInvalid(entries[1..])
  }

  lemma {:induction false} CountUpdate(entries: seq<nat>, i: nat, v: nat)
    requires i < |entries|
    ensures CountInvalid(entries[i := v]) + (if entries[i] == STATUS_TYPE_INVALID then 1 else 0)
         == CountInvalid(entries) + (if v == STATUS_TYPE_INVALID then 1 else 0)
  {
    var changed := entries[i := v];
    if i == 0 {
      assert changed[1..] == entries[1..];
    } else {
      assert changed[1..] == entries[1..][i - 1 := v];
      CountUpdate(entries[1..], i - 1, v);
    }
  }

  lemma {:induction false} CountAllValid(entries: seq<nat>)
    requires forall i | 0 <= i < |entries| :: entries[i] == STATUS_TYPE_VALID
    ensures CountInvalid(entries) == 0
  {
    if entries != [] {
      CountAllValid(entries[1..]);
    }
  }

  // Each index INVALID in `entries`, except possibly `but`, has an audit row.
  predicate Audited(s: Store, list: ListKey, entries: seq<nat>, but: Option<nat>) {
    forall i | 0 <= i < |entries| && entries[i] == STATUS_TYPE_INVALID && but != Some(i) :: AuditKey(list, i) in s.audit
  }

  predicate ListOk(s: Store, list: ListKey)
    requires list in s.lists
  {
    Audited(s, list, s.lists[list].entries, None) && CountInvalid(s.lists[list].entries) <= s.lists[list].revokedCount
  }

  // A pending write is harmless: committing it now would leave the list in order.
  predicate PlanOk(s: Store, p: Plan) {
    && p.list in s.lists
    && |p.entries| == |s.lists[p.list].entries|
    && p.index < |p.entries|
    && p.entries[p.index] == (if p.write.Revocation? then STATUS_TYPE_INVALID else STATUS_TYPE_VALID)
    && Audited(s, p.list, p.entries, Some(p.index))
    && CountInvalid(p.entries) <= s.lists[p.list].revokedCount + (if p.write.Revocation? then 1 else 0)
  }

  predicate StoreOk(s: Store) {
    && (forall list | list in s.lists :: ListOk(s, list))
    && (forall k | k in s.audit :: k.list in s.lists && k.index < |s.lists[k.list].entries|)
  }

  predicate Distinct(ks: seq<AuditKey>) {
    forall i, j | 0 <= i < j < |ks| :: ks[i] != ks[j]
  }

  predicate Inv(w: World) {
    && StoreOk(w.store)
    && (forall op | op in w.flight :: PlanOk(w.store, w.flight[op]))
    && (forall i | 0 <= i < |w.granted| :: w.granted[i] in w.store.audit)
    && Distinct(w.granted)
  }

  // The store only grows: audit rows stay, capacities are fixed, the counter never falls.
  predicate Grows(s: Store, t: Store) {
    && (forall k | k in s.audit :: k in t.audit)
    && (forall list | list in s.lists ::
          list in t.lists && |t.lists[list].entries| == |s.lists[list].entries| &&
          t.lists[list].revokedCount >= s.lists[list].revokedCount)
  }

  lemma PlanOkMonotone(s: Store, t: Store, p: Plan)
    requires Grows(s, t) && PlanOk(s, p)
    ensures PlanOk(t, p)
  {
  }

  lemma PlannedAllocationOk(s: Store, list: ListKey, credentialId: Option<string>, preferred: Option<int>)
    requires StoreOk(s)
    ensures var r := PlanAllocation(s, list, credentialId, preferred); r.Ok? ==> PlanOk(s, r.value)
  {
    var r := PlanAllocation(s, list, credentialId, preferred);
    if r.Ok? {
      assert ListOk(s, list);
      CountUpdate(s.lists[list].entries, r.value.index, STATUS_TYPE_VALID);
    }
  }

  lemma PlannedRevocationOk(s: Store, list: ListKey, index: int, reason: Option<string>, who: Option<string>)
    requires StoreOk(s)
    ensures var r := PlanRevocation(s, list, index, reason, who); r.Ok? ==> PlanOk(s, r.value)
  {
    var r := PlanRevocation(s, list, index, reason, who);
    if r.Ok? {
      assert ListOk(s, list);
      CountUpdate(s.lists[list].entries, r.value.index, STATUS_TYPE_INVALID);
    }
  }

  // What a successful transaction changes: the whole list, the counter, and at most one audit row.
  lemma CommitShape(s: Store, p: Plan)
    requires p.list in s.lists && Commit(s, p).Ok?
    ensures var t, k := Commit(s, p).value, AuditKey(p.list, p.index);
      var bump := if p.write.Revocation? then 1 else 0;
      var row := s.lists[p.list];
      && t.lists == s.lists[p.list := ListRow(row.bits, p.entries, p.nextIndex, row.revokedCount + bump)]
      && (t.audit.Keys == s.audit.Keys || t.audit.Keys == s.audit.Keys + {k})
      && (p.write.Revocation? || Present(p.write.credentialId) ==> k in t.audit)
      && (p.write.Allocation? && Present(p.write.credentialId) ==> k !in s.audit)
  {
  }

  lemma CommitLists(s: Store, p: Plan)
    requires StoreOk(s) && PlanOk(s, p) && Commit(s, p).Ok?
    ensures forall list | list in Commit(s, p).value.lists :: ListOk(Commit(s, p).value, list)
  {
    hide Commit;
    CommitShape(s, p);
    var t := Commit(s, p).value;
    assert forall k | k in s.audit :: k in t.audit.Keys;
    forall list | list in t.lists ensures ListOk(t, list) {
      if list != p.list {
        assert ListOk(s, list);
      }
    }
  }

  lemma CommitGrows(s: Store, p: Plan)
    requires StoreOk(s) && PlanOk(s, p) && Commit(s, p).Ok?
    ensures Grows(s, Commit(s, p).value)
    ensures forall k | k in Commit(s, p).value.audit ::
              k.list in Commit(s, p).value.lists && k.index < |Commit(s, p).value.lists[k.list].entries|
  {
    hide Commit, ListOk, CountInvalid, Audited;
    CommitShape(s, p);
    var t := Commit(s, p).value;
    assert forall k | k in s.audit :: k in t.audit.Keys;
    forall k | k in t.audit ensures k.list in t.lists && k.index < |t.lists[k.list].entries| {
      assert k in t.audit.Keys;
    }
  }

  lemma CommitOk(s: Store, p: Plan)
    requires StoreOk(s) && PlanOk(s, p) && Commit(s, p).Ok?
    ensures Grows(s, Commit(s, p).value) && StoreOk(Commit(s, p).value)
    ensures p.write.Allocation? && Present(p.write.credentialId) ==>
      AuditKey(p.list, p.index) !in s.audit && AuditKey(p.list, p.index) in Commit(s, p).value.audit
  {
    CommitLists(s, p);
    CommitGrows(s, p);
    CommitShape(s, p);
    hide Commit, Grows, ListOk;
  }

  // Once the store has grown in good order, everything in flight and every grant is still in order.
  lemma GrowthKeepsInv(w: World, t: Store)
    requires Inv(w) && Grows(w.store, t) && StoreOk(t)
    ensures Inv(w.(store := t))
  {
    hide PlanOk, StoreOk;
    forall op | op in w.flight ensures PlanOk(t, w.flight[op]) {
      PlanOkMonotone(w.store, t, w.flight[op]);
    }
  }

  lemma CreateOk(s: Store, list: ListKey, bits: nat, capacity: nat)
    requires StoreOk(s)
    ensures Grows(s, Created(s, list, bits, capacity)) && StoreOk(Created(s, list, bits, capacity))
  {
    var t := Created(s, list, bits, capacity);
    forall l | l in t.lists ensures ListOk(t, l) {
      if l in s.lists {
        assert ListOk(s, l);
      } else {
        CountAllValid(t.lists[l].entries);
      }
    }
  }

  lemma DropKeepsInv(w: World, op: nat)
    requires Inv(w)
    ensures Inv(w.(flight := w.flight - {op}))
  {
    hide PlanOk, StoreOk, Distinct;
  }

  // A grant whose audit row was written just now differs from all earlier grants.
  lemma GrantKeepsInv(w: World, before: Store, k: AuditKey)
    requires Inv(w) && k !in before.audit && k in w.store.audit
    requires forall i | 0 <= i < |w.granted| :: w.granted[i] in before.audit
    ensures Inv(w.(granted := w.granted + [k]))
  {
    hide PlanOk, StoreOk;
  }

  lemma CommitKeepsInv(w: World, op: nat)
    requires Inv(w) && op in w.flight && Commit(w.store, w.flight[op]).Ok?
    ensures var t := Commit(w.store, w.flight[op]).value;
      Grows(w.store, t) && Inv(World(t, w.flight - {op}, Granted(w, w.flight[op])))
  {
    var p := w.flight[op];
    CommitOk(w.store, p);
    hide PlanOk, StoreOk, Commit, Grows, Distinct;
    var t := Commit(w.store, p).value;
    GrowthKeepsInv(w, t);
    DropKeepsInv(w.(store := t), op);
    if p.write.Allocation? && Present(p.write.credentialId) {
      GrantKeepsInv(w.(store := t, flight := w.flight - {op}), w.store, AuditKey(p.list, p.index));
    }
  }

  lemma BeginKeepsInv(w: World, op: nat, plan: Result<Plan>)
    requires Inv(w) && (plan.Ok? ==> PlanOk(w.store, plan.value))
    ensures Inv(Begin(w, op, plan)) && Begin(w, op, plan).store == w.store
  {
    hide PlanOk, StoreOk, Distinct;
  }

  lemma GrowsItself(s: Store)
    ensures Grows(s, s)
  {
  }

  lemma StepKeepsInv(w: World, step: Step)
    requires Inv(w)
    ensures Inv(Next(w, step)) && Grows(w.store, Next(w, step).store)
  {
    hide Inv, PlanOk, Commit, PlanAllocation, PlanRevocation, Begin, Grows, Created, Granted;
    assert StoreOk(w.store) by { InvStore(w); }
    hide StoreOk;
    GrowsItself(w.store);
    match step {
      case CreateList(list, bits, capacity) =>
        CreateOk(w.store, list, bits, capacity);
        GrowthKeepsInv(w, Created(w.store, list, bits, capacity));
      case BeginAllocate(op, list, credentialId, preferred) =>
        PlannedAllocationOk(w.store, list, credentialId, preferred);
        BeginKeepsInv(w, op, PlanAllocation(w.store, list, credentialId, preferred));
      case BeginRevoke(op, list, index, reason, who) =>
        PlannedRevocationOk(w.store, list, index, reason, who);
        BeginKeepsInv(w, op, PlanRevocation(w.store, list, index, reason, who));
      case Abandon(op) => DropKeepsInv(w, op);
      case CommitOp(op) =>
        DropKeepsInv(w, op);
        if op in w.flight && Commit(w.store, w.flight[op]).Ok? {
          CommitKeepsInv(w, op);
        }
    }
  }

  lemma InvStore(w: World)
    requires Inv(w)
    ensures StoreOk(w.store)
  {
  }

  lemma {:induction false} RunKeepsInv(w: World, steps: seq<Step>)
    requires Inv(w)
    ensures Inv(Run(w, steps)) && Grows(w.store, Run(w, steps).store)
  {
    if steps != [] {
      RunKeepsInv(w, steps[..|steps| - 1]);
      StepKeepsInv(Run(w, steps[..|steps| - 1]), steps[|steps| - 1]);
    }
  }

  // Under every interleaving, an index stored as INVALID has an audit row, and the number of
  // INVALID entries never exceeds the revocation counter.
  lemma RevocationsAccounted(steps: seq<Step>, list: ListKey)
    requires list in Run(EmptyWorld, steps).store.lists
    ensures var s := Run(EmptyWorld, steps).store;
      && (forall i | 0 <= i < |s.lists[list].entries| && s.lists[list].entries[i] == STATUS_TYPE_INVALID ::
          AuditKey(list, i) in s.audit)
      && CountInvalid(s.lists[list].entries) <= s.lists[list].revokedCount
  {
    RunKeepsInv(EmptyWorld, steps);
    assert ListOk(Run(EmptyWorld, steps).store, list);
  }

  // ---- Indices handed out ----

  function GrantsOn(granted: seq<AuditKey>, list: ListKey): seq<nat> {
    if granted == [] then []
    else
      var last := granted[|granted| - 1];
      GrantsOn(granted[..|granted| - 1], list) + (if last.list == list then [last.index] else [])
  }

  lemma {:induction false} GrantsOnMembers(granted: seq<AuditKey>, list: ListKey)
    ensures forall x | x in GrantsOn(granted, list) :: AuditKey(list, x) in granted
  {
    if granted != [] {
      GrantsOnMembers(granted[..|granted| - 1], list);
      assert granted == granted[..|granted| - 1] + [granted[|granted| - 1]];
    }
  }

  lemma {:induction false} GrantsOnDistinct(granted: seq<AuditKey>, list: ListKey)
    requires Distinct(granted)
    ensures forall i, j | 0 <= i < j < |GrantsOn(granted, list)| ::
        GrantsOn(granted, list)[i] != GrantsOn(granted, list)[j]
  {
    if granted != [] {
      var init, last := granted[..|granted| - 1], granted[|granted| - 1];
      GrantsOnDistinct(init, list);
      GrantsOnMembers(init, list);
      assert last !in init;
      assert last.list == list ==> last == AuditKey(list, last.index);
    }
  }

  lemma {:induction false} DistinctBelow(xs: seq<nat>, n: nat)
    requires forall i, j | 0 <= i < j < |xs| :: xs[i] != xs[j]
    requires forall i | 0 <= i < |xs| :: xs[i] < n
    ensures |xs| <= n
  {
    if xs != [] {
      assert xs[0] < n;
      if n - 1 in xs {
        var k :| 0 <= k < |xs| && xs[k] == n - 1;
        DistinctBelow(xs[..k] + xs[k + 1..], n - 1);
      } else {
        DistinctBelow(xs, n - 1);
      }
    }
  }

  // Under every interleaving, allocations that carry a credential id get pairwise distinct indices
  // below the capacity, so no more than `capacity` of them ever succeed on a list.
  lemma GrantsDistinct(steps: seq<Step>, list: ListKey)
    requires list in Run(EmptyWorld, steps).store.lists
    ensures var w := Run(EmptyWorld, steps);
            var g := GrantsOn(w.granted, list);
            var capacity := |w.store.lists[list].entries|;
      && Distinct(w.granted)
      && (forall i | 0 <= i < |g| :: g[i] < capacity)
      && |g| <= capacity
  {
    var w := Run(EmptyWorld, steps);
    RunKeepsInv(EmptyWorld, steps);
    var g := GrantsOn(w.granted, list);
    GrantsOnDistinct(w.granted, list);
    GrantsOnMembers(w.granted, list);
    forall i | 0 <= i < |g| ensures g[i] < |w.store.lists[list].entries| {
      assert g[i] in g && AuditKey(list, g[i]) in w.store.audit;
    }
    DistinctBelow(g, |w.store.lists[list].entries|);
  }

  // ---- Revocations are permanent when operations on a list do not overlap ----

  // A pending write changes one entry of the list it read.
  predicate Derived(p: Plan) {
    && p.index < |p.read.entries|
    && p.entries == p.read.entries[p.index := if p.write.Revocation? then STATUS_TYPE_INVALID else STATUS_TYPE_VALID]
  }

  predicate Credentialed(p: Plan) { p.write.Allocation? ==> Present(p.write.credentialId) }

  // No transaction on the list has run since this operation read it.
  predicate UpToDate(w: World, op: nat) {
    op in w.flight && w.flight[op].list in w.store.lists ==> w.flight[op].read == w.store.lists[w.flight[op].list]
  }

  predicate Careful(w: World, step: Step) {
    && (step.BeginAllocate? ==> Present(step.credentialId))
    && (step.CommitOp? ==> UpToDate(w, step.op))
  }

  // Operations on one list never overlap, and every allocation carries a credential id.
  predicate Disciplined(steps: seq<Step>) {
    forall k | 0 <= k < |steps| :: Careful(Run(EmptyWorld, steps[..k]), steps[k])
  }

  predicate Revoked(s: Store, list: ListKey, i: nat) {
    list in s.lists && i < |s.lists[list].entries| && s.lists[list].entries[i] == STATUS_TYPE_INVALID
  }

  predicate CarefulFlight(w: World) {
    forall op | op in w.flight :: Derived(w.flight[op]) && Credentialed(w.flight[op])
  }

  lemma PlansDerived(s: Store, list: ListKey, credentialId: Option<string>, preferred: Option<int>, index: int,
                     reason: Option<string>, who: Option<string>)
    ensures var a := PlanAllocation(s, list, credentialId, preferred);
      a.Ok? ==> Derived(a.value) && (Present(credentialId) ==> Credentialed(a.value))
    ensures var r := PlanRevocation(s, list, index, reason, who); r.Ok? ==> Derived(r.value) && Credentialed(r.value)
  {
  }

  lemma CommitKeepsRevoked(s: Store, p: Plan, list: ListKey, i: nat)
    requires StoreOk(s) && PlanOk(s, p) && Commit(s, p).Ok?
    requires Derived(p) && Credentialed(p) && p.read == s.lists[p.list]
    requires Revoked(s, list, i)
    ensures Revoked(Commit(s, p).value, list, i)
  {
    hide Commit;
    CommitShape(s, p);
    assert ListOk(s, list);
    assert AuditKey(list, i) in s.audit;
  }

  lemma CarefulStep(w: World, step: Step, list: ListKey, i: nat)
    requires Inv(w) && CarefulFlight(w) && Careful(w, step)
    ensures CarefulFlight(Next(w, step))
    ensures Revoked(w.store, list, i) ==> Revoked(Next(w, step).store, list, i)
  {
    hide PlanOk, StoreOk, Derived, Credentialed, PlanAllocation, PlanRevocation, Commit;
    match step
    case BeginAllocate(op, l, credentialId, preferred) =>
      PlansDerived(w.store, l, credentialId, preferred, 0, None, None);
    case BeginRevoke(op, l, index, reason, who) =>
      PlansDerived(w.store, l, None, None, index, reason, who);
    case CommitOp(op) =>
      if op in w.flight && Commit(w.store, w.flight[op]).Ok? && Revoked(w.store, list, i) {
        assert w.flight[op].list in w.store.lists by { PlanListExists(w.store, w.flight[op]); }
        CommitKeepsRevoked(w.store, w.flight[op], list, i);
      }
    case _ =>
  }

  lemma PlanListExists(s: Store, p: Plan)
    requires PlanOk(s, p)
    ensures p.list in s.lists
  {
  }

  lemma RunStep(steps: seq<Step>, n: nat)
    requires n < |steps|
    ensures Run(EmptyWorld, steps[..n + 1]) == Next(Run(EmptyWorld, steps[..n]), steps[n])
  {
    assert steps[..n + 1][..n] == steps[..n];
  }

  lemma {:induction false} CarefulRun(steps: seq<Step>, n: nat)
    requires Disciplined(steps) && n <= |steps|
    ensures Inv(Run(EmptyWorld, steps[..n])) && CarefulFlight(Run(EmptyWorld, steps[..n]))
  {
    RunKeepsInv(EmptyWorld, steps[..n]);
    hide Inv, Careful, CarefulFlight, Next;
    if n > 0 {
      CarefulRun(steps, n - 1);
      RunStep(steps, n - 1);
      CarefulStep(Run(EmptyWorld, steps[..n - 1]), steps[n - 1], ListKey("", ""), 0);
    } else {
      assert CarefulFlight(EmptyWorld) by { EmptyFlight(); }
    }
  }

  lemma EmptyFlight()
    ensures CarefulFlight(EmptyWorld)
  {
  }

  // In every disciplined run an index that reads INVALID at some moment reads INVALID ever after,
  // although the cursor path of an allocation writes VALID without looking at the entry.
  lemma {:induction false} RevokedForever(steps: seq<Step>, a: nat, b: nat, list: ListKey, i: nat)
    requires Disciplined(steps) && a <= b <= |steps|
    requires Revoked(Run(EmptyWorld, steps[..a]).store, list, i)
    ensures Revoked(Run(EmptyWorld, steps[..b]).store, list, i)
  {
    hide Inv, Careful, CarefulFlight, Revoked, Run, Next;
    if a < b {
      RevokedForever(steps, a, b - 1, list, i);
      CarefulRun(steps, b - 1);
      RunStep(steps, b - 1);
      CarefulStep(Run(EmptyWorld, steps[..b - 1]), steps[b - 1], list, i);
    }
  }

  // ---- Where permanence ends ----

  function RevocationPlan(s: Store, list: ListKey, index: nat, reason: Option<string>, who: Option<string>): Plan
    requires list in s.lists && index < |s.lists[list].entries|
  {
    var row := s.lists[list];
    Plan(list, row, index, row.entries[index := STATUS_TYPE_INVALID], row.nextIndex, Revocation(reason, who))
  }

  lemma RevocationBegins(w: World, op: nat, list: ListKey, index: nat, reason: Option<string>, who: Option<string>)
    requires list in w.store.lists && index < |w.store.lists[list].entries|
    ensures Next(w, BeginRevoke(op, list, index, reason, who))
         == w.(flight := w.flight[op := RevocationPlan(w.store, list, index, reason, who)])
  {
  }

  lemma RevocationCommits(w: World, op: nat)
    requires op in w.flight && w.flight[op].list in w.store.lists && w.flight[op].write.Revocation?
    ensures var p, after := w.flight[op], Next(w, CommitOp(op));
            var row := w.store.lists[p.list];
            && after.store.lists == w.store.lists[p.list :=
                ListRow(row.bits, p.entries, p.nextIndex, row.revokedCount + 1)]
            && after.store.audit.Keys == w.store.audit.Keys + {AuditKey(p.list, p.index)}
            && after.flight == w.flight - {op} && after.granted == w.granted
  {
  }

  // The commit of an allocation fails if and only if it carries a credential whose index is taken.
  predicate IndexTaken(s: Store, p: Plan)
    requires p.write.Allocation?
  {
    Present(p.write.credentialId) && AuditKey(p.list, p.index) in s.audit
  }

  lemma AllocationCommits(w: World, op: nat)
    requires op in w.flight && w.flight[op].list in w.store.lists && w.flight[op].write.Allocation?
    ensures var p, after := w.flight[op], Next(w, CommitOp(op));
            var row := w.store.lists[p.list];
            if IndexTaken(w.store, p) then after.store == w.store && after.granted == w.granted
            else
              && after.store.lists
              == w.store.lists[p.list := ListRow(row.bits, p.entries, p.nextIndex, row.revokedCount)]
              && (forall k | k in w.store.audit :: k in after.store.audit)
              && after.granted == Granted(w, p)
  {
  }

  // An allocation that has already read the list, credential or not, undoes a revocation made before it
  // commits if and only if it commits: the revoked index reads as it did when the allocation read the
  // list.
  lemma OverlapUndoesRevocation(w: World, a: nat, r: nat, i: nat, reason: Option<string>, who: Option<string>)
    requires Inv(w) && a in w.flight && r != a && w.flight[a].write.Allocation?
    requires i < |w.flight[a].entries| && i != w.flight[a].index && w.flight[a].entries[i] != STATUS_TYPE_INVALID
    ensures var p := w.flight[a];
      var revoked := Next(Next(w, BeginRevoke(r, p.list, i, reason, who)), CommitOp(r));
      var after := Next(revoked, CommitOp(a));
      && Revoked(revoked.store, p.list, i)
      && (Revoked(after.store, p.list, i) <==> IndexTaken(w.store, p))
      && after.granted == (if IndexTaken(w.store, p) then w.granted else Granted(w, p))
      && AuditKey(p.list, i) in after.store.audit
  {
    var p := w.flight[a];
    FlightShape(w, a);
    hide Inv, PlanOk, Next, Granted, Commit;
    RevocationBegins(w, r, p.list, i, reason, who);
    var w1 := Next(w, BeginRevoke(r, p.list, i, reason, who));
    RevocationCommits(w1, r);
    var w2 := Next(w1, CommitOp(r));
    AllocationCommits(w2, a);
    assert AuditKey(p.list, i) in w2.store.audit.Keys;
    assert IndexTaken(w2.store, p) <==> IndexTaken(w.store, p);
    assert Granted(w2, p) == Granted(w, p) by { SameGranted(w, w2, p); }
  }

  lemma FlightShape(w: World, op: nat)
    requires Inv(w) && op in w.flight
    ensures w.flight[op].list in w.store.lists
    ensures |w.flight[op].entries| == |w.store.lists[w.flight[op].list].entries|
  {
    assert PlanOk(w.store, w.flight[op]);
  }

  lemma SameGranted(w: World, v: World, p: Plan)
    requires w.granted == v.granted
    ensures Granted(w, p) == Granted(v, p)
  {
  }

  // The allocation that overwrites a revoked entry: no credential id, and the cursor stands on it.
  predicate CursorOverRevoked(row: ListRow, credentialId: Option<string>, preferred: Option<int>) {
    && !Present(credentialId)
    && !(preferred.Some? && 0 <= preferred.value < |row.entries|)
    && row.nextIndex < |row.entries|
    && row.entries[row.nextIndex] == STATUS_TYPE_INVALID
  }

  // An allocation on its own keeps every revocation of its list if and only if it is not of that kind.
  lemma AllocationKeepsRevokedExactly(s: Store, list: ListKey, credentialId: Option<string>, preferred: Option<int>)
    requires StoreOk(s) && list in s.lists
    ensures (forall i: nat | Revoked(s, list, i) :: Revoked(Allocate(s, list, credentialId, preferred).0, list, i))
       <==> !CursorOverRevoked(s.lists[list], credentialId, preferred)
  {
    var row := s.lists[list];
    var plan := PlanAllocation(s, list, credentialId, preferred);
    if plan.Ok? && Commit(s, plan.value).Ok? {
      CommitShape(s, plan.value);
      assert ListOk(s, list);
      assert Derived(plan.value);
      assert row.entries[plan.value.index] == STATUS_TYPE_INVALID && !Present(credentialId)
        <==> CursorOverRevoked(row, credentialId, preferred);
      if CursorOverRevoked(row, credentialId, preferred) {
        assert Revoked(s, list, row.nextIndex);
      }
    }
  }

  // Such a state is reached by revoking index 0 of a new list before anything was allocated.
  lemma RevokeThenAllocateWithoutCredential(list: ListKey, bits: nat, capacity: nat)
    requires capacity > 0
    ensures var revoked := Revoke(Created(EmptyWorld.store, list, bits, capacity), list, 0, None, None).0;
      Revoked(revoked, list, 0) && !Revoked(Allocate(revoked, list, None, None).0, list, 0)
  {
  }

  // ---- Exactly which commits lose a revocation ----

  // Nothing has been revoked behind the back of this pending write: each index INVALID now was
  // INVALID when the operation read the list, but for the index it writes itself.
  predicate SeesRevocations(s: Store, p: Plan)
    requires p.list in s.lists
  {
    forall i | 0 <= i < |s.lists[p.list].entries| && s.lists[p.list].entries[i] == STATUS_TYPE_INVALID ::
      if i == p.index then p.write.Revocation? else i < |p.read.entries| && p.read.entries[i] == STATUS_TYPE_INVALID
  }

  ghost predicate KeepsRevoked(s: Store, t: Store) {
    forall list, i: nat | Revoked(s, list, i) :: Revoked(t, list, i)
  }

  lemma CommitKeepsRevokedExactly(s: Store, p: Plan)
    requires PlanOk(s, p) && Derived(p) && Commit(s, p).Ok?
    ensures KeepsRevoked(s, Commit(s, p).value) <==> SeesRevocations(s, p)
  {
    hide Commit;
    CommitShape(s, p);
    var t := Commit(s, p).value;
    assert t.lists[p.list].entries == p.entries;
    if !SeesRevocations(s, p) {
      var i: nat :| i < |s.lists[p.list].entries| && s.lists[p.list].entries[i] == STATUS_TYPE_INVALID &&
        !(if i == p.index then p.write.Revocation?
            else i < |p.read.entries| && p.read.entries[i] == STATUS_TYPE_INVALID);
      assert Revoked(s, p.list, i) && !Revoked(t, p.list, i);
    }
  }

  predicate DerivedFlight(w: World) {
    forall op | op in w.flight :: Derived(w.flight[op])
  }

  lemma StepDerived(w: World, step: Step)
    requires DerivedFlight(w)
    ensures DerivedFlight(Next(w, step))
  {
    hide Derived, PlanAllocation, PlanRevocation, Commit;
    match step {
      case BeginAllocate(op, l, credentialId, preferred) =>
          PlansDerived(w.store, l, credentialId, preferred, 0, None, None);
      case BeginRevoke(op, l, index, reason, who) => PlansDerived(w.store, l, None, None, index, reason, who);
      case _ => {}
    }
  }

  lemma {:induction false} RunDerived(steps: seq<Step>)
    ensures DerivedFlight(Run(EmptyWorld, steps))
  {
    hide DerivedFlight, Next;
    if steps == [] {
      assert DerivedFlight(EmptyWorld) by { NothingInFlight(); }
    } else {
      RunDerived(steps[..|steps| - 1]);
      StepDerived(Run(EmptyWorld, steps[..|steps| - 1]), steps[|steps| - 1]);
    }
  }

  lemma NothingInFlight()
    ensures DerivedFlight(EmptyWorld)
  {
  }

  // After every run, overlapping or not: a commit keeps every revocation if and only if it fails or
  // nothing was revoked since its operation read the list. Allocations and revocations alike.
  lemma CommitExact(steps: seq<Step>, op: nat)
    requires op in Run(EmptyWorld, steps).flight
    ensures var w := Run(EmptyWorld, steps);
            var p := w.flight[op];
            && p.list in w.store.lists
            && (KeepsRevoked(w.store, Next(w, CommitOp(op)).store) <==>
                Commit(w.store, p).Err? || SeesRevocations(w.store, p))
  {
    hide StoreOk, Derived, SeesRevocations, Commit, Run;
    EmptyOk();
    RunKeepsInv(EmptyWorld, steps);
    RunDerived(steps);
    var w := Run(EmptyWorld, steps);
    var p := w.flight[op];
    PlanListExists(w.store, p);
    if Commit(w.store, p).Ok? {
      CommitKeepsRevokedExactly(w.store, p);
    }
  }

  lemma EmptyOk()
    ensures Inv(EmptyWorld)
  {
  }

  // A run in which a revocation loses another: both read the list before either commits.
  lemma RevocationsOverlap(list: ListKey, bits: nat, capacity: nat)
    requires capacity >= 2
    ensures var steps := [CreateList(list, bits, capacity), BeginRevoke(0, list, 0, None, None),
                          BeginRevoke(1, list, 1, None, None), CommitOp(0), CommitOp(1)];
            var before, after := Run(EmptyWorld, steps[..4]).store, Run(EmptyWorld, steps).store;
            && Revoked(before, list, 0)
            && !Revoked(after, list, 0) && Revoked(after, list, 1)
            && AuditKey(list, 0) in after.audit && after.lists[list].revokedCount == 2
  {
    var steps := [CreateList(list, bits, capacity), BeginRevoke(0, list, 0, None, None),
                  BeginRevoke(1, list, 1, None, None), CommitOp(0), CommitOp(1)];
    RunStep(steps, 0);
    RunStep(steps, 1);
    RunStep(steps, 2);
    RunStep(steps, 3);
    RunStep(steps, 4);
    hide Run, Next;
    assert steps[..0] == [] && steps[..5] == steps;
    NoSteps();
    var w1 := Run(EmptyWorld, steps[..1]);
    assert w1 == World(Created(EmptyWorld.store, list, bits, capacity), map[], []) by {
      ListCreated(list, bits, capacity);
    }
    RevocationBegins(w1, 0, list, 0, None, None);
    RevocationBegins(Run(EmptyWorld, steps[..2]), 1, list, 1, None, None);
    RevocationCommits(Run(EmptyWorld, steps[..3]), 0);
    RevocationCommits(Run(EmptyWorld, steps[..4]), 1);
    assert AuditKey(list, 0) in Run(EmptyWorld, steps).store.audit.Keys;
  }

  lemma NoSteps()
    ensures Run(EmptyWorld, []) == EmptyWorld
  {
  }

  lemma ListCreated(list: ListKey, bits: nat, capacity: nat)
    ensures Next(EmptyWorld, CreateList(list, bits, capacity))
         == World(Created(EmptyWorld.store, list, bits, capacity), map[], [])
  {
  }

  // ---- Exactly which allocations succeed ----

  // An allocation on its own succeeds if and only if there is an index to choose and, with a
  // credential id, no audit row for it yet. A failed one changes nothing but the creation of the list.
  lemma AllocateExactly(s: Store, list: ListKey, credentialId: Option<string>, preferred: Option<int>)
    ensures var s0 := Created(s, list, DEFAULT_BITS, DEFAULT_CAPACITY);
            var choice := ChooseIndex(s0.lists[list], preferred);
            var (after, r) := Allocate(s, list, credentialId, preferred);
            && (r.Ok? <==> choice.Some? && (Present(credentialId) ==> AuditKey(list, choice.value) !in s.audit))
            && (if r.Ok? then r.value == choice.value else after == s0)
  {
    var s0 := Created(s, list, DEFAULT_BITS, DEFAULT_CAPACITY);
    var plan := PlanAllocation(s0, list, credentialId, preferred);
    if plan.Ok? {
      assert Updated(s0, list, plan.value.entries, plan.value.nextIndex).audit == s.audit;
    }
  }

  // The cursor stands on an index that has an audit row.
  predicate Stuck(s: Store, list: ListKey) {
    && list in s.lists && s.lists[list].nextIndex < |s.lists[list].entries|
    && AuditKey(list, s.lists[list].nextIndex) in s.audit
  }

  // What an issuer does with a list: every allocation carries a credential id and follows the cursor.
  datatype IssuerCall = OfferCall(credentialId: string) | RevokeCall(index: int, reason: Option<string>,
      revokedBy: Option<string>)

  function Serve(s: Store, list: ListKey, calls: seq<IssuerCall>): Store {
    if calls == [] then s
    else
      var before := Serve(s, list, calls[..|calls| - 1]);
      match calls[|calls| - 1]
      case OfferCall(credentialId) => Allocate(before, list, Some(credentialId), None).0
      case RevokeCall(index, reason, who) => Revoke(before, list, index, reason, who).0
  }

  lemma StuckStays(s: Store, list: ListKey, index: int, reason: Option<string>, who: Option<string>)
    requires Stuck(s, list)
    ensures Stuck(Revoke(s, list, index, reason, who).0, list)
  {
    var plan := PlanRevocation(s, list, index, reason, who);
    if plan.Ok? {
      RevocationCommits(World(s, map[0 := plan.value], []), 0);
    }
  }

  // Once the cursor stands on an index with an audit row, no offer ever gets an index again, whatever
  // else is offered and revoked, and offers change nothing.
  lemma {:induction false} StuckForever(s: Store, list: ListKey, calls: seq<IssuerCall>, credentialId: string)
    requires Stuck(s, list) && credentialId != ""
    requires forall i | 0 <= i < |calls| && calls[i].OfferCall? :: calls[i].credentialId != ""
    ensures var after := Serve(s, list, calls);
            && Stuck(after, list)
            && Allocate(after, list, Some(credentialId), None) == (after, Err(CredentialAlreadyRevoked))
  {
    hide Allocate, Revoke, Stuck;
    if calls != [] {
      var init, last := calls[..|calls| - 1], calls[|calls| - 1];
      StuckForever(s, list, init, credentialId);
      if last.OfferCall? {
        StuckOffer(Serve(s, list, init), list, last.credentialId);
      } else {
        StuckStays(Serve(s, list, init), list, last.index, last.reason, last.revokedBy);
      }
    }
    StuckOffer(Serve(s, list, calls), list, credentialId);
  }

  lemma StuckOffer(s: Store, list: ListKey, credentialId: string)
    requires Stuck(s, list) && credentialId != ""
    ensures Allocate(s, list, Some(credentialId), None) == (s, Err(CredentialAlreadyRevoked))
  {
    AllocateExactly(s, list, Some(credentialId), None);
  }

  // A revocation sticks the cursor of a working list if and only if it revokes the very index the
  // cursor stands on, as revoking index 0 of a new list does.
  lemma RevocationSticksExactly(s: Store, list: ListKey, index: int, reason: Option<string>, who: Option<string>)
    requires list in s.lists && s.lists[list].nextIndex < |s.lists[list].entries| && !Stuck(s, list)
    ensures Stuck(Revoke(s, list, index, reason, who).0, list) <==> index == s.lists[list].nextIndex
  {
  }
}
