// The product quota of an account: which products a plan change keeps, when the number of active
// products can pass the quota, and what a failed creation leaves behind.
module ProductQuota {
  import A = Accounts
  import opened Options
  import opened Tables
  import opened Products
  import opened ProductRuns
  import opened ProductTables

  function Differs(id: nat): nat -> bool {
    (x: nat) => x != id
  }

  ghost predicate Increasing(ids: seq<nat>) {
    forall i, j | 0 <= i < j < |ids| :: ids[i] < ids[j]
  }

  // ---- The active products of an account under each change of the table ----

  lemma {:induction false} ActiveOwned(products: seq<Product>, accountId: string, i: nat) returns (j: nat)
    requires i < |ActiveIds(products, accountId)|
    ensures j < |products| && products[j].id == ActiveIds(products, accountId)[i]
    ensures products[j].accountId == accountId && !products[j].archived
  {
    var init := products[..|products| - 1];
    if i < |ActiveIds(init, accountId)| {
      j := ActiveOwned(init, accountId, i);
    } else {
      j := |init|;
    }
  }

  lemma {:induction false} ActiveIncreasing(products: seq<Product>, accountId: string)
    requires Pairwise(ProductPair, products)
    ensures Increasing(ActiveIds(products, accountId))
  {
    if products != [] {
      var init, last := products[..|products| - 1], products[|products| - 1];
      ActiveIncreasing(init, accountId);
      var ids := ActiveIds(init, accountId);
      forall i | 0 <= i < |ids| ensures ids[i] < last.id {
        var j := ActiveOwned(init, accountId, i);
        assert ProductPair(products[j], products[|products| - 1]);
      }
    }
  }

  lemma ActiveSnoc(products: seq<Product>, accountId: string, row: Product)
    ensures ActiveIds(products + [row], accountId)
         == if row.accountId == accountId && !row.archived
             then ActiveIds(products, accountId) + [row.id] else ActiveIds(products, accountId)
  {
    assert (products + [row])[..|products|] == products;
  }

  lemma {:induction false} ActiveArchived(products: seq<Product>, accountId: string, id: nat)
    ensures ActiveIds(Updated(Archiving(id), products), accountId)
        == Selected(Differs(id), ActiveIds(products, accountId))
  {
    hide Selected, ActiveIds;
    if products == [] {
      EmptyTable(accountId, id);
    } else {
      var init, last := products[..|products| - 1], products[|products| - 1];
      assert products == init + [last];
      ActiveArchived(init, accountId, id);
      SelectedSnoc(Differs(id), ActiveIds(init, accountId), last.id);
      ActiveSnoc(init, accountId, last);
      assert Updated(Archiving(id), products) == Updated(Archiving(id), init) + [Archiving(id)(last)];
      ActiveSnoc(Updated(Archiving(id), init), accountId, Archiving(id)(last));
    }
  }

  lemma {:induction false} ActiveDeleted(products: seq<Product>, accountId: string, id: nat)
    ensures ActiveIds(Selected(OtherProduct(id), products), accountId)
        == Selected(Differs(id), ActiveIds(products, accountId))
  {
    hide Selected, ActiveIds;
    if products == [] {
      EmptyTable(accountId, id);
    } else {
      var init, last := products[..|products| - 1], products[|products| - 1];
      assert products == init + [last];
      ActiveDeleted(init, accountId, id);
      SelectedSnoc(Differs(id), ActiveIds(init, accountId), last.id);
      SelectedSnoc(OtherProduct(id), init, last);
      ActiveSnoc(init, accountId, last);
      ActiveSnoc(Selected(OtherProduct(id), init), accountId, last);
    }
  }

  lemma EmptyTable(accountId: string, id: nat)
    ensures Updated(Archiving(id), []) == Selected(OtherProduct(id), []) == []
    ensures ActiveIds([], accountId) == Selected(Differs(id), []) == []
  {
  }

  lemma {:induction false} SelectedConcat<T>(keep: T -> bool, a: seq<T>, b: seq<T>)
    ensures Selected(keep, a + b) == Selected(keep, a) + Selected(keep, b)
  {
    if b == [] {
      assert a + b == a;
    } else {
      var init, last := b[..|b| - 1], b[|b| - 1];
      assert a + b == (a + init) + [last] && b == init + [last];
      SelectedConcat(keep, a, init);
      SelectedSnoc(keep, a + init, last);
    }
  }

  lemma DropHead(id: nat, b: seq<nat>)
    requires forall i | 0 <= i < |b| :: b[i] != id
    ensures Selected(Differs(id), [id] + b) == b
  {
    SelectedConcat(Differs(id), [id], b);
    SelectedAll(Differs(id), b);
    var none := Selected(Differs(id), [id]);
    assert none == [];
    assert none + b == b;
  }

  lemma DropOne(a: seq<nat>, id: nat, b: seq<nat>, all: seq<nat>)
    requires forall i | 0 <= i < |a| :: a[i] != id
    requires forall i | 0 <= i < |b| :: b[i] != id
    requires all == a + ([id] + b)
    ensures Selected(Differs(id), all) == a + b
  {
    hide Selected;
    DropHead(id, b);
    SelectedAll(Differs(id), a);
    SelectedConcat(Differs(id), a, [id] + b);
  }

  // ---- Plan changes ----

  // An active product belongs to one account only.
  lemma OtherAccount(products: seq<Product>, accountId: string, other: string, id: nat)
    requires Pairwise(ProductPair, products) && other != accountId
    requires exists i | 0 <= i < |ActiveIds(products, accountId)| :: ActiveIds(products, accountId)[i] == id
    ensures Selected(Differs(id), ActiveIds(products, other)) == ActiveIds(products, other)
  {
    hide Selected, ActiveIds;
    var at :| 0 <= at < |ActiveIds(products, accountId)| && ActiveIds(products, accountId)[at] == id;
    var k := ActiveOwned(products, accountId, at);
    var ids := ActiveIds(products, other);
    forall i | 0 <= i < |ids| ensures ids[i] != id {
      var j := ActiveOwned(products, other, i);
      assert j < k ==> ProductPair(products[j], products[k]);
      assert k < j ==> ProductPair(products[k], products[j]);
    }
    SelectedAll(Differs(id), ids);
  }

  lemma ArchiveOne(db: Db, accountId: string, other: string, a: seq<nat>, id: nat, b: seq<nat>)
    requires Inv(db) && ActiveIds(db.products, accountId) == a + ([id] + b) && other != accountId
    ensures ActiveIds(ArchiveRows(db, id).products, accountId) == a + b
    ensures ActiveIds(ArchiveRows(db, id).products, other) == ActiveIds(db.products, other)
  {
    hide Updated, Selected, ActiveIds, Fresh, Linked, Pairwise;
    var ids := ActiveIds(db.products, accountId);
    ActiveIncreasing(db.products, accountId);
    assert ids[|a|] == id;
    assert forall i | 0 <= i < |a| :: ids[i] == a[i] && ids[i] < ids[|a|];
    assert forall i | 0 <= i < |b| :: ids[|a| + 1 + i] == b[i] && ids[|a|] < ids[|a| + 1 + i];
    DropOne(a, id, b, ids);
    ActiveArchived(db.products, accountId, id);
    ActiveArchived(db.products, other, id);
    OtherAccount(db.products, accountId, other, id);
  }

  // Archiving a stretch of the active products one by one leaves the rest, in order, and no other
  // account is touched.
  lemma {:induction false} ArchiveStretch(db: Db, accountId: string, other: string, a: seq<nat>, ids: seq<nat>,
      b: seq<nat>)
    requires Inv(db) && ActiveIds(db.products, accountId) == a + ids + b && other != accountId
    ensures ActiveIds(ArchiveAll(db, ids).products, accountId) == a + b
    ensures ActiveIds(ArchiveAll(db, ids).products, other) == ActiveIds(db.products, other)
  {
    hide ActiveIds, Inv, ArchiveRows;
    if ids == [] {
      assert a + ids + b == a + b;
    } else {
      var init, last := ids[..|ids| - 1], ids[|ids| - 1];
      assert a + ids + b == a + init + ([last] + b);
      ArchiveStretch(db, accountId, other, a, init, [last] + b);
      ArchiveAllKeeps(db, init, NoneDue());
      ArchiveOne(ArchiveAll(db, init), accountId, other, a, last, b);
    }
  }

  // The resources after those of the listed products are suspended.
  predicate SuspendedExactly(before: seq<Resource>, after: seq<Resource>, productIds: seq<nat>) {
    && |after| == |before|
    && forall i | 0 <= i < |after| ::
         after[i] == if before[i].productId in productIds then before[i].(status := Suspended) else before[i]
  }

  lemma {:induction false} ArchiveAllResources(db: Db, ids: seq<nat>)
    ensures SuspendedExactly(db.resources, ArchiveAll(db, ids).resources, ids)
  {
    if ids != [] {
      ArchiveAllResources(db, ids[..|ids| - 1]);
    }
  }

  // Enforcing any quota keeps exactly the oldest active products, as many as it allows and none if it is
  // not positive, in order; it leaves the other accounts alone; and it suspends the resources of what it
  // archives and no others.
  lemma EnforceKeepsOldest(db: Db, accountId: string, maxProducts: int, other: string)
    requires Inv(db) && other != accountId
    ensures var before, after := ActiveIds(db.products, accountId), EnforceQuota(db, accountId, maxProducts);
            var n := if maxProducts <= 0 then 0 else if |before| < maxProducts then |before| else maxProducts;
            && ActiveIds(after.products, accountId) == before[..n]
            && ActiveIds(after.products, other) == ActiveIds(db.products, other)
            && after.accounts == db.accounts
            && SuspendedExactly(db.resources, after.resources, before[n..])
  {
    hide ActiveIds, Inv, ArchiveAll, SuspendedExactly;
    var ids := ActiveIds(db.products, accountId);
    var extras := SliceFrom(ids, maxProducts);
    var n := |ids| - |extras|;
    assert extras == ids[n..] && ids == ids[..n] + extras + [];
    ArchiveStretch(db, accountId, other, ids[..n], extras, []);
    ArchiveAllKeeps(db, extras, NoneDue());
    ArchiveAllResources(db, extras);
  }

  // A plan change keeps exactly the oldest active products, as many as the plan allows, in order; it
  // leaves the other accounts alone; and it suspends the resources of what it archives and no others.
  lemma PlanKeepsOldest(db: Db, accountId: string, plan: A.PlanId, other: string)
    requires Inv(db) && accountId in db.accounts && other != accountId
    ensures var before, after := ActiveIds(db.products, accountId), ChangePlan(db, accountId, plan);
            var max := A.NewAccount(plan).maxProducts;
            var n := if |before| < max then |before| else max;
            && ActiveIds(after.products, accountId) == before[..n]
            && ActiveIds(after.products, other) == ActiveIds(db.products, other)
            && after.accounts == db.accounts[accountId := A.WithPlan(db.accounts[accountId], plan)]
            && |ActiveIds(after.products, accountId)| == n <= after.accounts[accountId].maxProducts == max
            && SuspendedExactly(db.resources, after.resources, before[n..])
  {
    hide ActiveIds, Inv, EnforceQuota, SuspendedExactly;
    var account := A.WithPlan(db.accounts[accountId], plan);
    AccountChanged(db, accountId, account, NoneDue());
    EnforceKeepsOldest(db.(accounts := db.accounts[accountId := account]), accountId, account.maxProducts, other);
  }

  // ---- The bound ----

  ghost predicate WithinQuota(db: Db, accountId: string) {
    accountId in db.accounts ==> |ActiveIds(db.products, accountId)| <= db.accounts[accountId].maxProducts
  }

  // What takes an account past its quota when a call goes on.
  predicate Exceeds(db: Db, stage: Stage, accountId: string) {
    match stage
    // A creation that counted the active products when there was room, and writes its row now.
    case Counted(input) =>
      && input.accountId == accountId && accountId in db.accounts
      && |ActiveIds(db.products, accountId)| >= db.accounts[accountId].maxProducts
    // An account written back, as it was read or with a smaller plan or quota.
    case Changing(id, account, _) => id == accountId && account.maxProducts < |ActiveIds(db.products, accountId)|
    // A product written back as active after it was archived and others took its place.
    case Patching(productId) => Reactivates(db, productId, accountId)
    case _ => false
  }

  predicate StepExceeds(w: World, step: Step, accountId: string) {
    || (Advancing(w, step).Some? && Exceeds(w.db, Advancing(w, step).value, accountId))
    || (step.Do? && Undercuts(w.db, step.op, accountId))
  }

  // An override of the quota below the number of active products.
  predicate Undercuts(db: Db, op: Op, accountId: string) {
    && op.SetQuota? && op.accountId == accountId && accountId in db.accounts
    && op.maxProducts < |ActiveIds(db.products, accountId)|
  }

  predicate Reactivates(db: Db, productId: nat, accountId: string) {
    && accountId in db.accounts && |ActiveIds(db.products, accountId)| >= db.accounts[accountId].maxProducts
    && Inactive(db.products, accountId, productId)
  }

  // Writing a product back as active adds one active product if it had been archived, and none if not.
  lemma {:induction false} ActiveRestored(products: seq<Product>, accountId: string, id: nat)
    requires Pairwise(ProductPair, products)
    ensures var before, after := ActiveIds(products, accountId), ActiveIds(Updated(Restoring(id), products), accountId);
            |after| == |before| + if Inactive(products, accountId, id) then 1 else 0
  {
    hide ActiveIds, Pairwise, Updated;
    var after := Updated(Restoring(id), products);
    if products == [] {
      assert after == [];
    } else {
      var init, last := products[..|products| - 1], products[|products| - 1];
      assert products == init + [last];
      assert after == Updated(Restoring(id), init) + [Restoring(id)(last)];
      ActiveSnoc(init, accountId, last);
      ActiveSnoc(Updated(Restoring(id), init), accountId, Restoring(id)(last));
      PairwiseInit(ProductPair, init, last);
      ActiveRestored(init, accountId, id);
      assert Inactive(products, accountId, id) <==>
        Inactive(init, accountId, id) || (last.id == id && last.archived && last.accountId == accountId) by {
        if Inactive(init, accountId, id) {
          var j :| 0 <= j < |init| && init[j].id == id && init[j].archived && init[j].accountId == accountId;
          assert products[j] == init[j];
        }
      }
    }
  }

  predicate Inactive(products: seq<Product>, accountId: string, id: nat) {
    exists j | 0 <= j < |products| ::
      products[j].id == id && products[j].archived && products[j].accountId == accountId
  }

  lemma SavedShorter(db: Db, save: Save, accountId: string)
    ensures |ActiveIds(Saved(db, save).products, accountId)| <= |ActiveIds(db.products, accountId)|
  {
    hide ActiveIds, Selected, Updated;
    ActiveArchived(db.products, accountId, save.id);
    SelectedMembers(Differs(save.id), ActiveIds(db.products, accountId));
  }

  lemma SelectedShorter(db: Db, accountId: string, id: nat)
    ensures |ActiveIds(ArchiveRows(db, id).products, accountId)| <= |ActiveIds(db.products, accountId)|
    ensures |ActiveIds(DeleteProduct(db, id).products, accountId)| <= |ActiveIds(db.products, accountId)|
  {
    hide ActiveIds, Selected, Updated;
    ActiveArchived(db.products, accountId, id);
    ActiveDeleted(db.products, accountId, id);
    SelectedMembers(Differs(id), ActiveIds(db.products, accountId));
  }

  lemma CreationQuota(db: Db, input: Input, provisioned: bool, accountId: string)
    requires WithinQuota(db, accountId)
    ensures WithinQuota(Create(db, input, provisioned).0, accountId)
  {
    hide ActiveIds, First, ValidWalletId, Selected, Updated;
    ActiveSnoc(db.products, accountId, Product(db.nextId, input.accountId, false));
    var (db1, r) := Begin(db, input);
    if r.Created? {
      SelectedShorter(db1, accountId, r.productId);
    }
  }

  lemma NewAccountEmpty(db: Db, accountId: string)
    requires Inv(db) && accountId !in db.accounts
    ensures ActiveIds(db.products, accountId) == []
  {
    hide ActiveIds;
    if ActiveIds(db.products, accountId) != [] {
      var j := ActiveOwned(db.products, accountId, 0);
    }
  }

  lemma OpQuota(db: Db, op: Op, accountId: string)
    requires Inv(db) && WithinQuota(db, accountId)
    ensures WithinQuota(Perform(db, op), accountId) <==> !Undercuts(db, op, accountId)
  {
    hide Inv, ActiveIds, ArchiveAll, Create, ArchiveRows, First;
    match op {
      case OpenAccount(id, plan) =>
        if accountId !in db.accounts {
          NewAccountEmpty(db, accountId);
        }
      case SetPlan(id, plan) =>
        if id in db.accounts {
          var other := if id == accountId then accountId + "." else accountId;
          PlanKeepsOldest(db, id, plan, other);
        }
      case CreateProduct(input, provisioned) => CreationQuota(db, input, provisioned, accountId);
      case ArchiveProduct(_, productId) =>
        SelectedShorter(db, accountId, productId);
        ArchiveRowsAccounts(db, productId);
      case _ => {}
    }
  }

  // The number of active products stays within the quota through every step but three: a write of the
  // account below that number, a creation that counted before others filled the quota, and a patch that
  // read its product before it was archived and others took its place.
  lemma StepQuotaExact(w: World, step: Step, accountId: string)
    requires WorldOk(w) && WithinQuota(w.db, accountId)
    ensures WithinQuota(Next(w, step).db, accountId) <==> !StepExceeds(w, step, accountId)
  {
    hide Inv, ActiveIds, Perform, DeleteProduct, First, Refusal, Updated, Advanced, Started, Reactivates;
    match step {
      case Do(op) => OpQuota(w.db, op, accountId);
      case Advance(call) =>
        if call in w.flight {
          AdvancedQuota(w.db, w.flight[call], accountId);
        }
      case Complete(call, provisioned) =>
        if call in w.flight && w.flight[call].HasKey? {
          SelectedShorter(w.db, accountId, w.flight[call].productId);
          DeletionAccounts(w.db, w.flight[call].productId);
        }
      case _ => {}
    }
  }

  lemma AdvancedQuota(db: Db, stage: Stage, accountId: string)
    requires Inv(db) && StageOk(db, stage) && WithinQuota(db, accountId)
    ensures WithinQuota(Advanced(db, stage).0, accountId) <==> !Exceeds(db, stage, accountId)
  {
    hide Inv, ActiveIds, First, Refusal, Updated, NoResource, OwnsResource, Saved, Inactive;
    match stage {
      case Counted(input) => ActiveSnoc(db.products, accountId, Product(db.nextId, input.accountId, false));
      case Saving(saves) =>
        if saves != [] {
          SavedShorter(db, saves[0], accountId);
          SavedAccounts(db, saves[0]);
        }
      case ToArchive(id) =>
        SavedShorter(db, SaveProduct(id), accountId);
        SavedAccounts(db, SaveProduct(id));
      case Patching(id) => PatchQuota(db, id, accountId);
      case _ => {}
    }
  }

  lemma PatchQuota(db: Db, id: nat, accountId: string)
    requires Inv(db) && WithinQuota(db, accountId)
    ensures WithinQuota(Restored(db, id), accountId) <==> !Reactivates(db, id, accountId)
  {
    hide ActiveIds, Linked, Pairwise, Updated, Inactive;
    ActiveRestored(db.products, accountId, id);
  }

  lemma SavedAccounts(db: Db, save: Save)
    ensures Saved(db, save).accounts == db.accounts
  {
  }

  lemma DeletionAccounts(db: Db, productId: nat)
    ensures DeleteProduct(db, productId).accounts == db.accounts
  {
  }

  lemma ArchiveRowsAccounts(db: Db, productId: nat)
    ensures ArchiveRows(db, productId).accounts == db.accounts
  {
  }

  ghost predicate NoneExceeds(steps: seq<Step>, accountId: string) {
    forall i | 0 <= i < |steps| ::
      !StepExceeds(Run(EMPTY_WORLD, steps[..i]), steps[i], accountId)
  }

  lemma NoneExceedsPrefix(steps: seq<Step>, accountId: string)
    requires NoneExceeds(steps, accountId) && steps != []
    ensures NoneExceeds(steps[..|steps| - 1], accountId)
    ensures !StepExceeds(Run(EMPTY_WORLD, steps[..|steps| - 1]), steps[|steps| - 1], accountId)
  {
    hide Run, StepExceeds;
    var init := steps[..|steps| - 1];
    assert forall i | 0 <= i < |init| :: init[i] == steps[i] && init[..i] == steps[..i];
  }

  // Over every run without these three the bound holds, and a plan change by itself restores it after any
  // run.
  lemma {:induction false} RunWithinQuota(steps: seq<Step>, accountId: string)
    requires NoneExceeds(steps, accountId)
          || (steps != [] && exists plan :: steps[|steps| - 1] == Do(SetPlan(accountId, plan)))
    ensures WithinQuota(Run(EMPTY_WORLD, steps).db, accountId)
  {
    hide Next, WorldOk, ActiveIds, StepExceeds;
    EmptyWorldOk();
    if steps != [] {
      var init, step := steps[..|steps| - 1], steps[|steps| - 1];
      RunKeepsWorld(EMPTY_WORLD, init);
      if plan :| step == Do(SetPlan(accountId, plan)) {
        PlanStepRestores(Run(EMPTY_WORLD, init), accountId, plan);
      } else {
        NoneExceedsPrefix(steps, accountId);
        RunWithinQuota(init, accountId);
        StepQuotaExact(Run(EMPTY_WORLD, init), step, accountId);
      }
    }
  }

  lemma PlanStepRestores(w: World, accountId: string, plan: A.PlanId)
    requires WorldOk(w)
    ensures WithinQuota(Next(w, Do(SetPlan(accountId, plan))).db, accountId)
  {
    hide Inv, ActiveIds, Perform, StageOk;
    PlanRestoresQuota(w.db, accountId, plan);
  }

  lemma PlanRestoresQuota(db: Db, accountId: string, plan: A.PlanId)
    requires Inv(db)
    ensures WithinQuota(Perform(db, SetPlan(accountId, plan)), accountId)
  {
    hide Inv, ActiveIds, ArchiveAll, EnforceQuota, A.WithPlan;
    if accountId in db.accounts {
      PlanKeepsOldest(db, accountId, plan, accountId + ".");
    }
  }

  // ---- Failed creations ----

  predicate Admitted(db: Db, accountId: string) {
    && accountId in db.accounts
    && db.accounts[accountId].status.Active?
    && |ActiveIds(db.products, accountId)| < db.accounts[accountId].maxProducts
  }

  predicate Taken(db: Db, input: Input) {
    exists i | 0 <= i < |db.resources| ::
        db.resources[i].service == input.service && db.resources[i].walletId == input.walletId
  }

  // A creation whose provisioning fails is undone completely by deleting the product row: the
  // cascades remove exactly what was added.
  lemma RollbackRestores(db: Db, input: Input)
    requires Inv(db)
    ensures var (db1, r) := Begin(db, input);
            r.Created? ==> SameTables(Finish(db1, r.productId, r.resourceId, false), db)
  {
    hide Selected, Updated, First, Linked, Pairwise, ActiveIds, ValidWalletId;
    var (db1, r) := Begin(db, input);
    if r.Created? {
      var id := r.productId;
      SelectedSnoc(OtherProduct(id), db.products, db1.products[|db.products|]);
      SelectedAll(OtherProduct(id), db.products);
      SelectedSnoc(NotOf(id), db.resources, db1.resources[|db.resources|]);
      SelectedAll(NotOf(id), db.resources);
      KeysRestored(db, id, db1.resources[|db.resources|], db1.apiKeys[|db.apiKeys|]);
    }
  }

  lemma KeysRestored(db: Db, id: nat, resource: Resource, key: ApiKey)
    requires Fresh(db) && id == db.nextId && resource.productId == id && resource.id == id + 1 == key.resourceId
    ensures Selected(KeyOfOther(db.resources + [resource], id), db.apiKeys + [key]) == db.apiKeys
  {
    hide Selected;
    var resources := db.resources + [resource];
    assert forall i | 0 <= i < |db.resources| :: resources[i] == db.resources[i];
    assert resources[|db.resources|] == resource;
    SelectedSnoc(KeyOfOther(resources, id), db.apiKeys, key);
    SelectedAll(KeyOfOther(resources, id), db.apiKeys);
  }

  // A creation succeeds exactly when the account may create, the wallet id is well formed and free,
  // and the remote service answers. A refused one leaves the tables as they were unless the account
  // was admitted and the wallet id was malformed or taken: those two are detected after the product
  // row is written and outside the rollback, so an active product without a resource stays behind
  // and counts against the quota.
  lemma CreateExact(db: Db, input: Input, provisioned: bool)
    requires Inv(db)
    ensures var (after, r) := Create(db, input, provisioned);
            && (r.Created? <==>
                  && Admitted(db, input.accountId)
                  && ValidWalletId(input.walletId) && !Taken(db, input) && provisioned)
            && (r.Refused? ==>
                  (SameTables(after, db) <==>
                   !Admitted(db, input.accountId) || (ValidWalletId(input.walletId) && !Taken(db, input))))
            && (r.Refused? && !SameTables(after, db) ==>
                  && ActiveIds(after.products, input.accountId) == ActiveIds(db.products, input.accountId) + [db.nextId]
                  && after.resources == db.resources && after.apiKeys == db.apiKeys)
  {
    hide Inv, ActiveIds, ValidWalletId, Finish;
    RollbackRestores(db, input);
    ActiveSnoc(db.products, input.accountId, Product(db.nextId, input.accountId, false));
    assert Taken(db, input) <==> First(Bound(input.service, input.walletId), db.resources).Some?;
    assert |db.products + [Product(db.nextId, input.accountId, false)]| == |db.products| + 1;
  }
}
