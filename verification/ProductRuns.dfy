// Runs of the billing service in which calls overlap. The code awaits the database between reading
// and writing, so a call is split at its reads and writes and anything may come between two of them. A
// row that is saved is written back as it was read but for what the call changes in it; a save of a row
// that has been deleted changes nothing.
module ProductRuns {
  import A = Accounts
  import opened Options
  import opened Tables
  import opened Products
  import opened ProductTables

  // What a call does to the account it has read.
  datatype Change = NewStatus(status: A.AccountStatus) | NewQuota(maxProducts: int) | NewPlan(plan: A.PlanId)

  function Changed(account: A.Account, change: Change): A.Account {
    match change
    case NewStatus(status) => account.(status := status)
    case NewQuota(n) => account.(maxProducts := n)
    case NewPlan(plan) => A.WithPlan(account, plan)
  }

  // How far a call has come.
  datatype Stage =
    // createProduct: the account is read, the active products counted, the rows written one by one.
    | Admitting(input: Input, maxProducts: int)
    | Counted(input: Input)
    | HasProduct(input: Input, productId: nat)
    | HasResource(productId: nat, resourceId: nat)
    | HasKey(productId: nat, resourceId: nat)
    // rotateApiKey: the unrevoked keys are read, then revoked one by one, then the new key is written.
    | Rotating(resource: nat, left: seq<nat>)
    // validateApiKey: the row of the key is read unrevoked and written back with the time of its use.
    | Using(key: nat)
    // setPlan, setQuota, setAccountStatus: the account is read and written back; a plan change goes on
    // to read the products past the quota with their resources, and to save these rows one by one.
    | Changing(accountId: string, account: A.Account, enforce: bool)
    | Enforcing(accountId: string, maxProducts: int)
    | Saving(saves: seq<Save>)
    // archiveProduct: the product is read active and saved archived, then its resources are read and
    // saved one by one.
    | ToArchive(product: nat)
    | ToList(product: nat)
    // patchProduct: the product is read active and written back.
    | Patching(product: nat)

  datatype World = World(db: Db, flight: map<nat, Stage>)

  const EMPTY_WORLD := World(EMPTY, map[])

  datatype Step =
    | Do(op: Op)
    | StartCreation(call: nat, input: Input)
    | StartRotation(call: nat, resourceId: nat)
    | StartUse(call: nat, apiKey: nat, service: Service, walletId: Option<string>)
    | StartChange(call: nat, accountId: string, change: Change)
    | StartArchiving(call: nat, accountId: string, productId: nat)
    | StartPatch(call: nat, accountId: string, productId: nat)
    | Advance(call: nat)
    | Complete(call: nat, provisioned: bool)

  // What the first read of a call comes to; None when the call ends there.
  function Started(db: Db, step: Step): Option<Stage> {
    match step
    case StartCreation(_, input) =>
      if input.accountId !in db.accounts || !db.accounts[input.accountId].status.Active? then None
      else Some(Admitting(input, db.accounts[input.accountId].maxProducts))
    case StartRotation(_, resourceId) =>
      if First(ResourceIs(resourceId), db.resources).None? then None
      else Some(Rotating(resourceId, LiveKeys(db.apiKeys, resourceId)))
    case StartUse(_, key, service, walletId) =>
      if Validate(db, Some(key), service, walletId).Valid? then Some(Using(key)) else None
    case StartChange(_, accountId, change) =>
      if accountId !in db.accounts then None
      else Some(Changing(accountId, Changed(db.accounts[accountId], change), change.NewPlan?))
    case StartArchiving(_, accountId, productId) =>
      if First(OwnedActive(accountId, productId), db.products).None? then None else Some(ToArchive(productId))
    case StartPatch(_, accountId, productId) =>
      if First(OwnedActive(accountId, productId), db.products).None? then None else Some(Patching(productId))
    case _ => None
  }

  // The saves of the resources of a product, and those of surplus products with their resources.
  function ResourceSaves(resources: seq<Resource>, productId: nat): seq<Save> {
    if resources == [] then []
    else
      var last, before := resources[|resources| - 1], ResourceSaves(resources[..|resources| - 1], productId);
      if last.productId == productId then before + [SaveResource(last.id)] else before
  }

  function SurplusSaves(resources: seq<Resource>, ids: seq<nat>): seq<Save> {
    if ids == [] then []
    else
      var last := ids[|ids| - 1];
      SurplusSaves(resources, ids[..|ids| - 1]) + [SaveProduct(last)] + ResourceSaves(resources, last)
  }

  // The next read or write of a call: the tables after it and how far the call is then; None when it has
  // ended. A write that refers to a resource that is gone fails and ends the call.
  function Advanced(db: Db, stage: Stage): (Db, Option<Stage>) {
    match stage
    case Admitting(input, maxProducts) =>
      (db, if |ActiveIds(db.products, input.accountId)| >= maxProducts then None else Some(Counted(input)))
    case Counted(input) => (AddProduct(db, input.accountId), Some(HasProduct(input, db.nextId)))
    case HasProduct(input, productId) =>
      if Refusal(db, input.service, input.walletId).Some? then (db, None)
      else (AddResource(db, productId, input.service, input.walletId), Some(HasResource(productId, db.nextId)))
    case HasResource(productId, resourceId) => (AddKey(db, resourceId), Some(HasKey(productId, resourceId)))
    case HasKey(_, _) => (db, Some(stage))
    case Rotating(resourceId, left) =>
      if First(ResourceIs(resourceId), db.resources).None? then (db, None)
      else if left != [] then (Revoke(db, left[0]), Some(Rotating(resourceId, left[1..])))
      else (AddKey(db, resourceId), None)
    case Using(key) => (Revive(db, key), None)
    case Changing(accountId, account, enforce) =>
      (WithAccount(db, accountId, account), if enforce then Some(Enforcing(accountId, account.maxProducts)) else None)
    case Enforcing(accountId, maxProducts) =>
      (db, Some(Saving(SurplusSaves(db.resources, SliceFrom(ActiveIds(db.products, accountId), maxProducts)))))
    case Saving(saves) => if saves == [] then (db, None) else (Saved(db, saves[0]), Some(Saving(saves[1..])))
    case ToArchive(productId) => (Saved(db, SaveProduct(productId)), Some(ToList(productId)))
    case ToList(productId) => (db, Some(Saving(ResourceSaves(db.resources, productId))))
    case Patching(productId) => (Restored(db, productId), None)
  }

  function Put(flight: map<nat, Stage>, call: nat, stage: Option<Stage>): map<nat, Stage> {
    if stage.Some? then flight[call := stage.value] else flight - {call}
  }

  function Next(w: World, step: Step): World {
    match step
    case Do(op) => w.(db := Perform(w.db, op))
    case Advance(call) =>
      if call !in w.flight then w
      else
        var (db, stage) := Advanced(w.db, w.flight[call]);
        World(db, Put(w.flight, call, stage))
    case Complete(call, provisioned) =>
      if call !in w.flight || !w.flight[call].HasKey? then w
      else
        World(Finish(w.db, w.flight[call].productId, w.flight[call].resourceId, provisioned), w.flight - {call})
    case _ => if step.call in w.flight then w else w.(flight := Put(w.flight, step.call, Started(w.db, step)))
  }

  function Run(w: World, steps: seq<Step>): World {
    if steps == [] then w else Next(Run(w, steps[..|steps| - 1]), steps[|steps| - 1])
  }

  // ---- What is in flight fits the tables ----

  predicate NoResource(db: Db, productId: nat) {
    forall i | 0 <= i < |db.resources| :: db.resources[i].productId != productId
  }

  predicate OwnsResource(db: Db, productId: nat, resourceId: nat) {
    exists i | 0 <= i < |db.resources| :: db.resources[i].id == resourceId && db.resources[i].productId == productId
  }

  // The calls that have written a product.
  predicate HasId(stage: Stage) {
    stage.HasProduct? || stage.HasResource? || stage.HasKey?
  }

  predicate StageOk(db: Db, stage: Stage) {
    match stage
    case Admitting(input, _) => input.accountId in db.accounts
    case Counted(input) => input.accountId in db.accounts
    case HasProduct(_, id) => id < db.nextId && First(ProductIs(id), db.products).Some? && NoResource(db, id)
    case HasResource(id, resourceId) => id < db.nextId && OwnsResource(db, id, resourceId)
    case HasKey(id, resourceId) => id < db.nextId && OwnsResource(db, id, resourceId)
    case Changing(accountId, _, _) => accountId in db.accounts
    case _ => true
  }

  predicate SameProduct(a: Stage, b: Stage) {
    HasId(a) && HasId(b) && a.productId == b.productId
  }

  ghost predicate WorldOk(w: World) {
    && Inv(w.db)
    && (forall c | c in w.flight :: StageOk(w.db, w.flight[c]))
    && (forall c, d | c in w.flight && d in w.flight && c != d :: !SameProduct(w.flight[c], w.flight[d]))
  }

  // What happens elsewhere leaves the rows of a product in place.
  ghost predicate Undisturbed(before: Db, after: Db, productId: nat) {
    && (First(ProductIs(productId), before.products).Some? ==> First(ProductIs(productId), after.products).Some?)
    && (NoResource(before, productId) ==> NoResource(after, productId))
    && forall id | OwnsResource(before, productId, id) :: OwnsResource(after, productId, id)
  }

  lemma SameRows(before: Db, after: Db, productId: nat)
    requires before.products == after.products && before.resources == after.resources
    ensures Undisturbed(before, after, productId)
  {
    hide First;
    assert forall id :: OwnsResource(before, productId, id) == OwnsResource(after, productId, id);
  }

  lemma Twice(a: Db, b: Db, c: Db, productId: nat)
    requires Undisturbed(a, b, productId) && Undisturbed(b, c, productId)
    ensures Undisturbed(a, c, productId)
  {
    hide First, NoResource, OwnsResource;
  }

  lemma ArchivingElsewhere(db: Db, id: nat, productId: nat)
    ensures Undisturbed(db, ArchiveRows(db, id), productId)
  {
    hide First, Selected;
    FirstUpdated(ProductIs(productId), Archiving(id), db.products);
    var after := ArchiveRows(db, id);
    assert forall i | 0 <= i < |db.resources| ::
        after.resources[i].id == db.resources[i].id && after.resources[i].productId == db.resources[i].productId;
  }

  lemma {:induction false} ArchivingAllElsewhere(db: Db, ids: seq<nat>, productId: nat)
    ensures Undisturbed(db, ArchiveAll(db, ids), productId)
  {
    hide Undisturbed, ArchiveRows;
    if ids == [] {
      SameRows(db, db, productId);
    } else {
      ArchivingAllElsewhere(db, ids[..|ids| - 1], productId);
      ArchivingElsewhere(ArchiveAll(db, ids[..|ids| - 1]), ids[|ids| - 1], productId);
      Twice(db, ArchiveAll(db, ids[..|ids| - 1]), ArchiveAll(db, ids), productId);
    }
  }

  lemma InsertionsElsewhere(db: Db, accountId: string, other: nat, service: Service, walletId: string, productId: nat)
    ensures Undisturbed(db, AddProduct(db, accountId), productId)
    ensures other != productId ==> Undisturbed(db, AddResource(db, other, service, walletId), productId)
    ensures Undisturbed(db, AddKey(db, other), productId)
  {
    hide First;
    FirstSnoc(ProductIs(productId), db.products, Product(db.nextId, accountId, false));
    SameRows(db, AddKey(db, other), productId);
    var after := AddResource(db, other, service, walletId);
    assert after.resources[|db.resources|] == Resource(db.nextId, other, service, walletId, Pending);
    assert forall i | 0 <= i < |db.resources| :: after.resources[i] == db.resources[i];
  }

  lemma DeletionElsewhere(db: Db, other: nat, productId: nat)
    requires other != productId
    ensures Undisturbed(db, DeleteProduct(db, other), productId)
  {
    hide First, Selected;
    FirstSelected(ProductIs(productId), OtherProduct(other), db.products);
    SelectedMembers(NotOf(other), db.resources);
  }

  lemma FinishElsewhere(db: Db, other: nat, resourceId: nat, provisioned: bool, productId: nat)
    requires other != productId
    ensures Undisturbed(db, Finish(db, other, resourceId, provisioned), productId)
    ensures Finish(db, other, resourceId, provisioned).accounts == db.accounts
    ensures Finish(db, other, resourceId, provisioned).nextId == db.nextId
  {
    hide First, Selected;
    DeletionElsewhere(db, other, productId);
    var after := db.(resources := Updated(Activating(resourceId), db.resources));
    assert forall i | 0 <= i < |db.resources| ::
        after.resources[i].id == db.resources[i].id && after.resources[i].productId == db.resources[i].productId;
  }

  // A creation that runs by itself touches only the product it creates.
  lemma CreationElsewhere(db: Db, input: Input, provisioned: bool, productId: nat)
    requires productId < db.nextId
    ensures var after := Create(db, input, provisioned).0;
            Undisturbed(db, after, productId) && after.accounts == db.accounts && db.nextId <= after.nextId
  {
    hide Undisturbed, Selected, First, ValidWalletId, Finish, ActiveIds;
    var id := db.nextId;
    var db1 := AddProduct(db, input.accountId);
    var db2 := AddResource(db1, id, input.service, input.walletId);
    var db3 := AddKey(db2, db2.nextId - 1);
    SameRows(db, db, productId);
    InsertionsElsewhere(db, input.accountId, id, input.service, input.walletId, productId);
    InsertionsElsewhere(db1, input.accountId, id, input.service, input.walletId, productId);
    InsertionsElsewhere(db2, input.accountId, db2.nextId - 1, input.service, input.walletId, productId);
    Twice(db, db1, db2, productId);
    Twice(db, db2, db3, productId);
    FinishElsewhere(db3, id, id + 1, provisioned, productId);
    Twice(db, db3, Finish(db3, id, id + 1, provisioned), productId);
  }

  lemma OpElsewhere(db: Db, op: Op, productId: nat)
    requires Inv(db)
    ensures productId < db.nextId ==> Undisturbed(db, Perform(db, op), productId)
    ensures db.nextId <= Perform(db, op).nextId
    ensures forall id | id in db.accounts :: id in Perform(db, op).accounts
  {
    hide Undisturbed, Inv, Create, ArchiveAll, First, A.WithPlan, ActiveIds, SliceFrom;
    match op {
      case SetPlan(id, plan) =>
        if id !in db.accounts {
          SameRows(db, db, productId);
        } else {
          var account := A.WithPlan(db.accounts[id], plan);
          var db1 := WithAccount(db, id, account);
          var extras := SliceFrom(ActiveIds(db.products, id), account.maxProducts);
          AccountChanged(db, id, account, NoneDue());
          ArchiveAllKeeps(db1, extras, NoneDue());
          SameRows(db, db1, productId);
          ArchivingAllElsewhere(db1, extras, productId);
          Twice(db, db1, ArchiveAll(db1, extras), productId);
        }
      case CreateProduct(input, provisioned) =>
        if productId < db.nextId {
          CreationElsewhere(db, input, provisioned, productId);
        } else {
          CreationGrows(db, input, provisioned);
        }
      case ArchiveProduct(_, id) =>
        SameRows(db, db, productId);
        ArchivingElsewhere(db, id, productId);
      case _ => SameRows(db, Perform(db, op), productId);
    }
  }

  lemma CreationGrows(db: Db, input: Input, provisioned: bool)
    ensures var after := Create(db, input, provisioned).0;
            after.accounts == db.accounts && db.nextId <= after.nextId
  {
    hide ValidWalletId, ActiveIds, Selected, First, Updated;
  }

  lemma StageKept(before: Db, after: Db, stage: Stage)
    requires StageOk(before, stage) && before.nextId <= after.nextId
    requires forall id | id in before.accounts :: id in after.accounts
    requires HasId(stage) ==> Undisturbed(before, after, stage.productId)
    ensures StageOk(after, stage)
  {
    hide First, NoResource, OwnsResource;
  }

  // ---- Every step keeps the tables in order ----

  lemma DoKeeps(w: World, op: Op)
    requires WorldOk(w)
    ensures WorldOk(Next(w, Do(op)))
  {
    hide Inv, Perform, StageOk, Undisturbed;
    OpKeeps(w.db, op, NoneDue());
    OpElsewhere(w.db, op, 0);
    forall c | c in w.flight ensures StageOk(Perform(w.db, op), w.flight[c]) {
      var stage := w.flight[c];
      if HasId(stage) {
        OpElsewhere(w.db, op, stage.productId);
        StageInRange(w.db, stage);
      }
      StageKept(w.db, Perform(w.db, op), stage);
    }
  }

  lemma StageInRange(db: Db, stage: Stage)
    requires StageOk(db, stage)
    ensures HasId(stage) ==> stage.productId < db.nextId
  {
    hide First, NoResource, OwnsResource;
  }

  // A step of one call: the others stay as they are.
  lemma CallStep(w: World, call: nat, db: Db, stage: Option<Stage>)
    requires WorldOk(w) && Inv(db) && w.db.nextId <= db.nextId
    requires forall id | id in w.db.accounts :: id in db.accounts
    requires forall c | c in w.flight && c != call && HasId(w.flight[c]) :: Undisturbed(w.db, db, w.flight[c].productId)
    requires stage.Some? ==>
               && StageOk(db, stage.value)
               && forall c | c in w.flight && c != call :: !SameProduct(w.flight[c], stage.value)
    ensures WorldOk(World(db, Put(w.flight, call, stage)))
  {
    hide Inv, StageOk, Undisturbed;
    forall c | c in w.flight && c != call ensures StageOk(db, w.flight[c]) {
      StageKept(w.db, db, w.flight[c]);
    }
  }

  // What a step of a call does to the rows of a product that is not its own.
  lemma AdvancedElsewhere(db: Db, stage: Stage, productId: nat)
    requires Inv(db) && StageOk(db, stage) && (HasId(stage) ==> stage.productId != productId)
    ensures Undisturbed(db, Advanced(db, stage).0, productId)
    ensures db.nextId <= Advanced(db, stage).0.nextId
    ensures forall id | id in db.accounts :: id in Advanced(db, stage).0.accounts
  {
    hide Undisturbed, Inv, First, Refusal, ActiveIds, ArchiveAll, NoResource, OwnsResource, SliceFrom;
    SameRows(db, db, productId);
    match stage {
      case Counted(input) => InsertionsElsewhere(db, input.accountId, 0, Issuer, "", productId);
      case HasProduct(input, id) => InsertionsElsewhere(db, "", id, input.service, input.walletId, productId);
      case Saving(saves) =>
        if saves != [] {
          SaveElsewhere(db, saves[0], productId);
        }
      case ToArchive(id) => SaveElsewhere(db, SaveProduct(id), productId);
      case Patching(id) => PatchElsewhere(db, id, productId);
      case _ => PlainElsewhere(db, stage, productId);
    }
  }

  lemma SaveElsewhere(db: Db, save: Save, productId: nat)
    ensures Undisturbed(db, Saved(db, save), productId)
  {
    hide First, Updated;
    FirstUpdated(ProductIs(productId), Archiving(save.id), db.products);
    var after := Saved(db, SaveResource(save.id));
    assert forall i | 0 <= i < |db.resources| ::
        after.resources[i].id == db.resources[i].id && after.resources[i].productId == db.resources[i].productId;
  }

  lemma PatchElsewhere(db: Db, id: nat, productId: nat)
    ensures Undisturbed(db, Restored(db, id), productId)
  {
    hide First, Updated;
    FirstUpdated(ProductIs(productId), Restoring(id), db.products);
  }

  lemma PlainElsewhere(db: Db, stage: Stage, productId: nat)
    requires !stage.Counted? && !stage.HasProduct? && !stage.Saving? && !stage.ToArchive? && !stage.Patching?
    requires StageOk(db, stage)
    ensures Undisturbed(db, Advanced(db, stage).0, productId)
    ensures db.nextId <= Advanced(db, stage).0.nextId
    ensures forall id | id in db.accounts :: id in Advanced(db, stage).0.accounts
  {
    hide Undisturbed, First, ActiveIds, Updated, NoResource, OwnsResource;
    SameRows(db, Advanced(db, stage).0, productId);
  }

  lemma AdvancedInv(db: Db, stage: Stage)
    requires Inv(db) && StageOk(db, stage)
    ensures Inv(Advanced(db, stage).0)
  {
    hide Inv, First, Refusal, ActiveIds;
    match stage {
      case Counted(input) => ProductAdded(db, input.accountId, NoneDue());
      case HasProduct(input, productId) =>
        if Refusal(db, input.service, input.walletId).None? {
          ResourceAdded(db, productId, input.service, input.walletId, NoneDue());
        }
      case HasResource(productId, resourceId) =>
        OwnedResourceFound(db, productId, resourceId);
        KeyAdded(db, resourceId, NoneDue());
      case Rotating(resourceId, left) =>
        if First(ResourceIs(resourceId), db.resources).Some? {
          if left != [] {
            RevokeKeeps(db, left[0]);
          } else {
            KeyAdded(db, resourceId, NoneDue());
          }
        }
      case Using(key) => RevivedInv(db, key);
      case Changing(accountId, account, _) => AccountChanged(db, accountId, account, NoneDue());
      case Saving(saves) =>
        if saves != [] {
          SavedInv(db, saves[0]);
        }
      case ToArchive(productId) => SavedInv(db, SaveProduct(productId));
      case Patching(productId) => RestoredInv(db, productId);
      case _ => {}
    }
  }

  // How far a call is after a step fits the tables after it.
  lemma AdvancedOk(db: Db, stage: Stage)
    requires Inv(db) && StageOk(db, stage)
    ensures var (after, next) := Advanced(db, stage);
            next.Some? ==>
              && StageOk(after, next.value)
              && (HasId(next.value) ==>
                    if HasId(stage) then next.value.productId == stage.productId else next.value.productId == db.nextId)
  {
    hide Inv, Refusal, ActiveIds, Updated;
    match stage {
      case Counted(input) =>
        ProductAdded(db, input.accountId, NoneDue());
        NewProductBare(db, input.accountId);
      case HasProduct(input, productId) =>
        var after := AddResource(db, productId, input.service, input.walletId);
        assert after.resources[|db.resources|].id == db.nextId;
        assert OwnsResource(after, productId, db.nextId);
      case _ => {}
    }
  }

  lemma AdvanceKeeps(w: World, call: nat)
    requires WorldOk(w) && call in w.flight
    ensures WorldOk(Next(w, Advance(call)))
  {
    hide Inv, Undisturbed, StageOk, Advanced;
    var stage := w.flight[call];
    var (after, next) := Advanced(w.db, stage);
    AdvancedInv(w.db, stage);
    AdvancedOk(w.db, stage);
    StageInRange(w.db, stage);
    AdvancedElsewhere(w.db, stage, if HasId(stage) then stage.productId + 1 else 0);
    forall c | c in w.flight && c != call && HasId(w.flight[c])
      ensures Undisturbed(w.db, after, w.flight[c].productId) && w.flight[c].productId < w.db.nextId {
      assert !SameProduct(stage, w.flight[c]);
      StageInRange(w.db, w.flight[c]);
      AdvancedElsewhere(w.db, stage, w.flight[c].productId);
    }
    CallStep(w, call, after, next);
  }

  lemma NewProductBare(db: Db, accountId: string)
    requires Inv(db)
    ensures NoResource(AddProduct(db, accountId), db.nextId)
  {
    hide Linked, Pairwise;
  }

  lemma OwnedResourceFound(db: Db, productId: nat, resourceId: nat)
    requires OwnsResource(db, productId, resourceId)
    ensures First(ResourceIs(resourceId), db.resources).Some?
  {
  }

  lemma CompleteKeeps(w: World, call: nat, provisioned: bool)
    requires WorldOk(w) && call in w.flight && w.flight[call].HasKey?
    ensures WorldOk(Next(w, Complete(call, provisioned)))
  {
    hide Inv, Undisturbed, StageOk, Finish;
    var stage := w.flight[call];
    var after := Finish(w.db, stage.productId, stage.resourceId, provisioned);
    FinishKeeps(w.db, stage.productId, stage.resourceId, provisioned);
    FinishElsewhere(w.db, stage.productId, stage.resourceId, provisioned, stage.productId + 1);
    forall c | c in w.flight && c != call && HasId(w.flight[c])
      ensures Undisturbed(w.db, after, w.flight[c].productId) {
      assert !SameProduct(w.flight[call], w.flight[c]);
      FinishElsewhere(w.db, stage.productId, stage.resourceId, provisioned, w.flight[c].productId);
    }
    CallStep(w, call, after, None);
  }

  lemma StartKeeps(w: World, call: nat, stage: Option<Stage>)
    requires WorldOk(w) && call !in w.flight
    requires stage.Some? ==> StageOk(w.db, stage.value) && !HasId(stage.value)
    ensures WorldOk(w.(flight := Put(w.flight, call, stage)))
  {
    hide Inv, StageOk, Undisturbed;
    forall c | c in w.flight && HasId(w.flight[c]) ensures Undisturbed(w.db, w.db, w.flight[c].productId) {
      SameRows(w.db, w.db, w.flight[c].productId);
    }
    CallStep(w, call, w.db, stage);
  }

  lemma StartedOk(db: Db, step: Step)
    ensures Started(db, step).Some? ==> StageOk(db, Started(db, step).value) && !HasId(Started(db, step).value)
  {
    hide First, Validate;
  }

  lemma StepKeepsInv(w: World, step: Step)
    requires WorldOk(w)
    ensures WorldOk(Next(w, step))
  {
    hide WorldOk, Started, Perform, Advanced, Finish;
    match step {
      case Do(op) => DoKeeps(w, op);
      case Advance(call) =>
        if call in w.flight {
          AdvanceKeeps(w, call);
        }
      case Complete(call, provisioned) =>
        if call in w.flight && w.flight[call].HasKey? {
          CompleteKeeps(w, call, provisioned);
        }
      case _ =>
        if step.call !in w.flight {
          StartedOk(w.db, step);
          StartKeeps(w, step.call, Started(w.db, step));
        }
    }
  }

  lemma {:induction false} RunKeepsWorld(w: World, steps: seq<Step>)
    requires WorldOk(w)
    ensures WorldOk(Run(w, steps))
  {
    hide Next, WorldOk;
    if steps != [] {
      RunKeepsWorld(w, steps[..|steps| - 1]);
      StepKeepsInv(Run(w, steps[..|steps| - 1]), steps[|steps| - 1]);
    }
  }

  lemma EmptyWorldOk()
    ensures WorldOk(EMPTY_WORLD) && Settled(EMPTY_WORLD) && OneLive(EMPTY_WORLD.db)
  {
    EmptyInv();
  }

  // In every reachable database, whatever overlaps: identifiers are never reused, rows refer to
  // existing rows, a product has at most one resource, and (service, walletId) is unique.
  lemma RunKeepsInv(steps: seq<Step>)
    ensures Inv(Run(EMPTY_WORLD, steps).db)
  {
    EmptyWorldOk();
    RunKeepsWorld(EMPTY_WORLD, steps);
    hide Inv, Run;
  }

  // ---- Exactly which steps break what ----

  // The stage of the call that a step advances.
  function Advancing(w: World, step: Step): Option<Stage> {
    if step.Advance? && step.call in w.flight then Some(w.flight[step.call]) else None
  }

  // The call is yet to suspend the resource.
  predicate Awaits(stage: Stage, resourceId: nat, productId: nat) {
    match stage
    case ToList(id) => id == productId
    case Saving(saves) => SaveResource(resourceId) in saves
    case _ => false
  }

  function DueIn(flight: map<nat, Stage>): Due {
    (resourceId: nat, productId: nat) => exists c | c in flight :: Awaits(flight[c], resourceId, productId)
  }

  // The resources of archived products are suspended, or a call in flight is yet to suspend them.
  ghost predicate Settled(w: World) {
    SuspendedBut(w.db, DueIn(w.flight))
  }

  // A resource row written for a product that was archived after its row was written, and whose
  // resources have been listed for suspension.
  predicate LateResource(w: World, step: Step) {
    match Advancing(w, step)
    case Some(HasProduct(input, productId)) =>
      && Refusal(w.db, input.service, input.walletId).None? && IsArchived(w.db, productId)
      && !DueIn(w.flight)(w.db.nextId, productId)
    case _ => false
  }

  // A provisioning that succeeds for a product archived in the meantime.
  predicate LateFinish(w: World, step: Step) {
    && step.Complete? && step.call in w.flight && w.flight[step.call].HasKey?
    && LateActivation(w.db, w.flight[step.call].resourceId, step.provisioned, DueIn(w.flight))
  }

  // The enforcement of a quota that archives a product whose resource was written after the enforcement
  // read the product, so that nothing will suspend it.
  predicate LateArchiving(w: World, step: Step) {
    match Advancing(w, step)
    case Some(Saving(saves)) =>
      saves != [] && saves[0].SaveProduct? && LateSave(w.db, saves[0].id, DueIn(w.flight))
    case _ => false
  }

  lemma Widened(db: Db, due: Due, more: Due)
    requires SuspendedBut(db, due) && forall r, p :: due(r, p) ==> more(r, p)
    ensures SuspendedBut(db, more)
  {
  }

  // What is due is what the other calls are to do and what this call is.
  lemma DueSplit(flight: map<nat, Stage>, call: nat, r: nat, p: nat)
    ensures DueIn(flight)(r, p) <==> DueIn(flight - {call})(r, p) || (call in flight && Awaits(flight[call], r, p))
  {
    hide Awaits;
    var others := flight - {call};
    if c :| c in flight && Awaits(flight[c], r, p) {
      assert c != call ==> c in others && others[c] == flight[c];
    }
    if c :| c in others && Awaits(others[c], r, p) {
      assert c in flight && others[c] == flight[c];
    }
  }

  lemma DueAfter(flight: map<nat, Stage>, call: nat, stage: Option<Stage>)
    requires call in flight
    ensures forall r, p :: DueIn(Put(flight, call, stage))(r, p) <==>
        DueIn(flight - {call})(r, p) || (stage.Some? && Awaits(stage.value, r, p))
    ensures forall r, p :: DueIn(flight)(r, p) <==> DueIn(flight - {call})(r, p) || Awaits(flight[call], r, p)
  {
    hide Awaits, DueIn;
    assert Put(flight, call, stage) - {call} == flight - {call};
    forall r, p
      ensures DueIn(Put(flight, call, stage))(r, p) <==>
              DueIn(flight - {call})(r, p) || (stage.Some? && Awaits(stage.value, r, p)) {
      DueSplit(Put(flight, call, stage), call, r, p);
    }
    forall r, p ensures DueIn(flight)(r, p) <==> DueIn(flight - {call})(r, p) || Awaits(flight[call], r, p) {
      DueSplit(flight, call, r, p);
    }
  }

  // A resource with an archived product is suspended or due; what breaks it is exactly a creation that
  // goes on after its product was archived, by writing its resource or by a provisioning that succeeds,
  // and an enforcement of a quota that read the product before it had its resource.
  lemma StepArchivedExact(w: World, step: Step)
    requires WorldOk(w) && Settled(w)
    ensures Settled(Next(w, step)) <==> !LateResource(w, step) && !LateFinish(w, step) && !LateArchiving(w, step)
  {
    hide SuspendedBut, Inv, LateActivation, IsArchived, First, Refusal, Started, Advanced, StageOk, Awaits, LateSave;
    match step {
      case Do(op) => OpKeeps(w.db, op, DueIn(w.flight));
      case Advance(call) =>
        if call in w.flight {
          AdvanceArchived(w, call);
        }
      case Complete(call, provisioned) =>
        if call in w.flight && w.flight[call].HasKey? {
          FinishArchived(w.db, w.flight[call].productId, w.flight[call].resourceId, provisioned, DueIn(w.flight));
          assert forall r, p :: !Awaits(w.flight[call], r, p) by { AwaitsNothing(w.db, w.flight[call]); }
          SameDue(w, call, None, Finish(w.db, w.flight[call].productId, w.flight[call].resourceId, provisioned));
        }
      case _ =>
        if step.call !in w.flight {
          StartSettled(w, step.call, step);
        }
    }
  }

  // A call that awaits nothing before and after leaves what is due.
  lemma SameDue(w: World, call: nat, stage: Option<Stage>, db: Db)
    requires call in w.flight && forall r, p :: !Awaits(w.flight[call], r, p)
    requires stage.Some? ==> forall r, p :: !Awaits(stage.value, r, p)
    ensures SuspendedBut(db, DueIn(Put(w.flight, call, stage))) <==> SuspendedBut(db, DueIn(w.flight))
  {
    hide SuspendedBut, Awaits, DueIn;
    DueAfter(w.flight, call, stage);
    var due, next := DueIn(w.flight), DueIn(Put(w.flight, call, stage));
    if SuspendedBut(db, due) {
      Widened(db, due, next);
    }
    if SuspendedBut(db, next) {
      Widened(db, next, due);
    }
  }

  lemma StartSettled(w: World, call: nat, step: Step)
    requires call !in w.flight && Settled(w)
    ensures Settled(w.(flight := Put(w.flight, call, Started(w.db, step))))
  {
    var after := Put(w.flight, call, Started(w.db, step));
    hide SuspendedBut, Started, Awaits;
    assert forall c | c in w.flight :: c in after && after[c] == w.flight[c];
    Widened(w.db, DueIn(w.flight), DueIn(after));
  }

  lemma AdvanceArchived(w: World, call: nat)
    requires WorldOk(w) && Settled(w) && call in w.flight
    ensures Settled(Next(w, Advance(call))) <==>
            !LateResource(w, Advance(call)) && !LateArchiving(w, Advance(call))
  {
    var stage := w.flight[call];
    AdvanceEnds(w, call);
    hide SuspendedBut, Inv, IsArchived, First, Refusal, Advanced, StageOk, DueIn, Awaits, LateSave, Next, Put;
    if stage.Saving? || stage.ToArchive? || stage.ToList? || stage.Enforcing? {
      ArchivingSettled(w, call);
    } else {
      AdvancedArchived(w.db, stage, DueIn(w.flight));
      AwaitsNothing(w.db, stage);
      SameDue(w, call, Advanced(w.db, stage).1, Advanced(w.db, stage).0);
    }
  }

  lemma AdvanceEnds(w: World, call: nat)
    requires call in w.flight
    ensures var (db, stage) := Advanced(w.db, w.flight[call]);
            Next(w, Advance(call)) == World(db, Put(w.flight, call, stage))
  {
    hide Advanced;
  }

  lemma AwaitsNothing(db: Db, stage: Stage)
    requires !stage.Saving? && !stage.ToArchive? && !stage.ToList? && !stage.Enforcing?
    ensures forall r, p :: !Awaits(stage, r, p)
    ensures Advanced(db, stage).1.Some? ==> forall r, p :: !Awaits(Advanced(db, stage).1.value, r, p)
  {
    hide First, Refusal, ActiveIds, AddProduct, AddResource, AddKey, Revoke, Revive;
  }

  lemma AdvancedArchived(db: Db, stage: Stage, due: Due)
    requires Inv(db) && StageOk(db, stage) && SuspendedBut(db, due)
    requires !stage.Saving? && !stage.ToArchive? && !stage.ToList? && !stage.Enforcing?
    ensures SuspendedBut(Advanced(db, stage).0, due) <==>
            !(stage.HasProduct? && Refusal(db, stage.input.service, stage.input.walletId).None? &&
              IsArchived(db, stage.productId) && !due(db.nextId, stage.productId))
  {
    hide SuspendedBut, Inv, IsArchived, First, Refusal, ActiveIds;
    match stage {
      case Counted(input) => ProductAdded(db, input.accountId, due);
      case HasProduct(input, productId) =>
        if Refusal(db, input.service, input.walletId).None? {
          ResourceAdded(db, productId, input.service, input.walletId, due);
        }
      case HasResource(productId, resourceId) =>
        OwnedResourceFound(db, productId, resourceId);
        KeyAdded(db, resourceId, due);
      case Rotating(_, _) => KeysOnly(db, Advanced(db, stage).0, due);
      case Using(_) => KeysOnly(db, Advanced(db, stage).0, due);
      case Changing(accountId, account, _) => AccountChanged(db, accountId, account, due);
      case Patching(productId) => ProductRestored(db, productId, due);
      case _ => {}
    }
  }

  lemma {:induction false} Listed(resources: seq<Resource>, productId: nat, i: nat)
    requires i < |resources| && resources[i].productId == productId
    ensures SaveResource(resources[i].id) in ResourceSaves(resources, productId)
  {
    if i < |resources| - 1 {
      Listed(resources[..|resources| - 1], productId, i);
    }
  }

  // The resources of a product are due from its archiving on, first all of them and then those listed.
  lemma ListingSettled(db: Db, productId: nat, others: Due, due: Due, next: Due)
    requires SuspendedBut(db, due) && forall r, p :: due(r, p) ==> others(r, p) || p == productId
    requires forall r, p :: others(r, p) || SaveResource(r) in ResourceSaves(db.resources, productId) ==> next(r, p)
    ensures SuspendedBut(db, next)
  {
    forall i | 0 <= i < |db.resources| && db.resources[i].productId == productId
      ensures next(db.resources[i].id, productId) {
      Listed(db.resources, productId, i);
    }
    hide ResourceSaves;
  }

  // The steps of an archiving: only the save of a product can leave a resource behind.
  lemma ArchivingSettled(w: World, call: nat)
    requires call in w.flight && Settled(w)
    requires var stage := w.flight[call]; stage.Saving? || stage.ToArchive? || stage.ToList? || stage.Enforcing?
    ensures Settled(Next(w, Advance(call))) <==> !LateArchiving(w, Advance(call))
  {
    var stage, to := w.flight[call], Advanced(w.db, w.flight[call]).1;
    var due, next, others := DueIn(w.flight), DueIn(Put(w.flight, call, to)), DueIn(w.flight - {call});
    DueAfter(w.flight, call, to);
    AdvanceEnds(w, call);
    hide SuspendedBut, DueIn, Advanced, LateSave, Put, Awaits, Next;
    StageSettled(w.db, stage, due, others, next);
  }

  lemma StageSettled(db: Db, stage: Stage, due: Due, others: Due, next: Due)
    requires stage.Saving? || stage.ToArchive? || stage.ToList? || stage.Enforcing?
    requires SuspendedBut(db, due)
    requires forall r, p :: due(r, p) <==> others(r, p) || Awaits(stage, r, p)
    requires var to := Advanced(db, stage).1;
             forall r, p :: next(r, p) <==> others(r, p) || (to.Some? && Awaits(to.value, r, p))
    ensures SuspendedBut(Advanced(db, stage).0, next) <==>
            !(stage.Saving? && stage.saves != [] && stage.saves[0].SaveProduct? && LateSave(db, stage.saves[0].id, due))
  {
    hide SuspendedBut, First, ActiveIds, ResourceSaves, SurplusSaves, SliceFrom, Saved, LateSave;
    match stage {
      case Enforcing(_, _) => Widened(db, due, next);
      case ToList(productId) => ListingSettled(db, productId, others, due, next);
      case ToArchive(productId) =>
        Widened(db, due, next);
        ProductSaved(db, productId, next);
        NothingLate(db, productId, next);
      case Saving(saves) =>
        if saves == [] {
          Widened(db, due, next);
        } else {
          SavingSettled(db, saves, due, others, next);
        }
    }
  }

  lemma NothingLate(db: Db, productId: nat, due: Due)
    requires forall r :: due(r, productId)
    ensures !LateSave(db, productId, due)
  {
  }

  lemma SavingSettled(db: Db, saves: seq<Save>, due: Due, others: Due, next: Due)
    requires SuspendedBut(db, due) && saves != []
    requires forall r, p :: due(r, p) <==> others(r, p) || SaveResource(r) in saves
    requires forall r, p :: next(r, p) <==> others(r, p) || SaveResource(r) in saves[1..]
    ensures SuspendedBut(Saved(db, saves[0]), next) <==> !(saves[0].SaveProduct? && LateSave(db, saves[0].id, due))
  {
    assert saves == [saves[0]] + saves[1..];
    hide SuspendedBut, Saved, First;
    match saves[0] {
      case SaveProduct(id) =>
        assert forall r, p :: due(r, p) <==> next(r, p);
        Widened(db, due, next);
        ProductSaved(db, id, next);
      case SaveResource(id) => ResourceSaved(db, id, due, next);
    }
  }

  // A key written for a resource that has a live one: the first key of a creation, or the new key of a
  // rotation. Or a key row written back as unrevoked after the key was revoked and another given out.
  predicate LateKey(w: World, step: Step) {
    match Advancing(w, step)
    case Some(HasResource(_, resourceId)) => HasLiveKey(w.db, resourceId)
    case Some(Rotating(resourceId, left)) =>
      left == [] && First(ResourceIs(resourceId), w.db.resources).Some? && HasLiveKey(w.db, resourceId)
    case Some(Using(key)) => RevivesBeside(w.db, key)
    case _ => false
  }

  // A resource has at most one unrevoked key, and exactly these steps break it.
  lemma StepOneLiveExact(w: World, step: Step)
    requires WorldOk(w) && OneLive(w.db)
    ensures OneLive(Next(w, step).db) <==> !LateKey(w, step)
  {
    hide OneLive, Inv, HasLiveKey, RevivesBeside, First, Started, Advanced;
    match step {
      case Do(op) => OpKeeps(w.db, op, NoneDue());
      case Advance(call) =>
        if call in w.flight {
          AdvancedOneLive(w.db, w.flight[call]);
        }
      case Complete(call, provisioned) =>
        if call in w.flight && w.flight[call].HasKey? {
          FinishKeeps(w.db, w.flight[call].productId, w.flight[call].resourceId, provisioned);
        }
      case _ => {}
    }
  }

  lemma AdvancedOneLive(db: Db, stage: Stage)
    requires Inv(db) && StageOk(db, stage) && OneLive(db)
    ensures OneLive(Advanced(db, stage).0) <==>
            match stage
            case HasResource(_, resourceId) => !HasLiveKey(db, resourceId)
            case Rotating(resourceId, left) =>
              !(left == [] && First(ResourceIs(resourceId), db.resources).Some? && HasLiveKey(db, resourceId))
            case Using(key) => !RevivesBeside(db, key)
            case _ => true
  {
    hide Pairwise, Linked, HasLiveKey, RevivesBeside, First, Refusal, ActiveIds, ArchiveAll, Updated;
    match stage {
      case HasResource(productId, resourceId) =>
        OwnedResourceFound(db, productId, resourceId);
        KeyAdded(db, resourceId, NoneDue());
      case Rotating(resourceId, left) =>
        if First(ResourceIs(resourceId), db.resources).Some? {
          if left != [] {
            RevokeKeeps(db, left[0]);
          } else {
            KeyAdded(db, resourceId, NoneDue());
          }
        }
      case Using(key) => RevivedOneLive(db, key);
      case _ => {}
    }
  }

  // No call goes on behind what these steps would break.
  predicate NoneLate(steps: seq<Step>) {
    forall i | 0 <= i < |steps| ::
      var w := Run(EMPTY_WORLD, steps[..i]);
      !LateResource(w, steps[i]) && !LateFinish(w, steps[i]) && !LateArchiving(w, steps[i]) && !LateKey(w, steps[i])
  }

  // Every operation runs by itself.
  predicate Serial(steps: seq<Step>) {
    forall i | 0 <= i < |steps| :: steps[i].Do?
  }

  lemma {:induction false} SerialNoneLate(steps: seq<Step>)
    requires Serial(steps)
    ensures NoneLate(steps) && Run(EMPTY_WORLD, steps).flight == map[]
  {
    hide Run, LateActivation, LateSave, IsArchived, HasLiveKey, RevivesBeside, Refusal, First, DueIn;
    SerialGrounded(EMPTY_WORLD, steps);
  }

  lemma {:induction false} SerialGrounded(w: World, steps: seq<Step>)
    requires Serial(steps) && w.flight == map[]
    ensures Run(w, steps).flight == map[]
  {
    hide Perform;
    if steps != [] {
      SerialGrounded(w, steps[..|steps| - 1]);
    }
  }

  // With no archiving in flight, settled means that the resources of archived products are suspended.
  lemma SettledGrounded(w: World)
    requires Settled(w) && forall c | c in w.flight :: !w.flight[c].Saving? && !w.flight[c].ToList?
    ensures ArchivedSuspended(w.db)
  {
    Widened(w.db, DueIn(w.flight), NoneDue());
  }

  // So every run without a late step has both, and every serial run ends with all resources of archived
  // products suspended.
  lemma {:induction false} RunArchivedSuspended(steps: seq<Step>)
    requires Serial(steps) || NoneLate(steps)
    ensures Settled(Run(EMPTY_WORLD, steps)) && OneLive(Run(EMPTY_WORLD, steps).db)
    ensures Serial(steps) ==> ArchivedSuspended(Run(EMPTY_WORLD, steps).db)
  {
    hide Next, WorldOk, Settled, SuspendedBut, ArchivedSuspended, OneLive;
    hide LateResource, LateFinish, LateArchiving, LateKey;
    if Serial(steps) {
      SerialNoneLate(steps);
    }
    EmptyWorldOk();
    if steps != [] {
      var init, step := steps[..|steps| - 1], steps[|steps| - 1];
      assert steps[..|steps| - 1] == init;
      NoneLatePrefix(steps);
      RunArchivedSuspended(init);
      RunKeepsWorld(EMPTY_WORLD, init);
      StepArchivedExact(Run(EMPTY_WORLD, init), step);
      StepOneLiveExact(Run(EMPTY_WORLD, init), step);
    }
    if Serial(steps) {
      SettledGrounded(Run(EMPTY_WORLD, steps));
    }
  }

  lemma NoneLatePrefix(steps: seq<Step>)
    requires NoneLate(steps) && steps != []
    ensures NoneLate(steps[..|steps| - 1])
    ensures var w := Run(EMPTY_WORLD, steps[..|steps| - 1]);
            var step := steps[|steps| - 1];
            !LateResource(w, step) && !LateFinish(w, step) && !LateArchiving(w, step) && !LateKey(w, step)
  {
    hide Run, LateResource, LateFinish, LateArchiving, LateKey;
    var init := steps[..|steps| - 1];
    assert forall i | 0 <= i < |init| :: init[i] == steps[i] && init[..i] == steps[..i];
  }
}
