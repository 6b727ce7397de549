// What the operations on the billing tables keep, one by one.
module ProductTables {
  import A = Accounts
  import opened Options
  import opened Tables
  import opened Products

  predicate ProductPair(a: Product, b: Product) {
    a.id < b.id
  }

  // One resource a product, and (service, walletId) unique.
  predicate ResourcePair(a: Resource, b: Resource) {
    a.id < b.id && a.productId != b.productId && !(a.service == b.service && a.walletId == b.walletId)
  }

  predicate KeyPair(a: ApiKey, b: ApiKey) {
    a.id < b.id
  }

  ghost predicate Fresh(db: Db) {
    && (forall i | 0 <= i < |db.products| :: db.products[i].id < db.nextId)
    && (forall i | 0 <= i < |db.resources| :: db.resources[i].id < db.nextId && db.resources[i].productId < db.nextId)
    && (forall i | 0 <= i < |db.apiKeys| :: db.apiKeys[i].id < db.nextId && db.apiKeys[i].resourceId < db.nextId)
  }

  ghost predicate Inv(db: Db) {
    && Fresh(db)
    && Linked(db)
    && Pairwise(ProductPair, db.products)
    && Pairwise(ResourcePair, db.resources)
    && Pairwise(KeyPair, db.apiKeys)
  }

  // Which resources a call under way is still to suspend, by their id and the id of their product.
  type Due = (nat, nat) -> bool

  function NoneDue(): Due {
    (resourceId: nat, productId: nat) => false
  }

  // The resources of archived products are suspended, but for those that are due to be.
  ghost predicate SuspendedBut(db: Db, due: Due) {
    forall i, j | 0 <= i < |db.resources| && 0 <= j < |db.products| ::
      db.products[j].archived && db.resources[i].productId == db.products[j].id ==>
        db.resources[i].status.Suspended? || due(db.resources[i].id, db.resources[i].productId)
  }

  ghost predicate ArchivedSuspended(db: Db) {
    SuspendedBut(db, NoneDue())
  }

  // At most one unrevoked key a resource.
  predicate LivePair(a: ApiKey, b: ApiKey) {
    a.resourceId == b.resourceId ==> a.revoked || b.revoked
  }

  ghost predicate OneLive(db: Db) {
    Pairwise(LivePair, db.apiKeys)
  }

  predicate IsArchived(db: Db, productId: nat) {
    exists j | 0 <= j < |db.products| :: db.products[j].id == productId && db.products[j].archived
  }

  predicate HasLiveKey(db: Db, resourceId: nat) {
    exists i | 0 <= i < |db.apiKeys| :: db.apiKeys[i].resourceId == resourceId && !db.apiKeys[i].revoked
  }

  // ---- Archiving ----

  lemma LinksArchived(db: Db, id: nat)
    requires Linked(db)
    ensures Linked(ArchiveRows(db, id))
  {
    hide First, Selected;
    var after := ArchiveRows(db, id);
    forall i | 0 <= i < |after.resources| ensures First(ProductIs(after.resources[i].productId), after.products).Some? {
      assert after.resources[i].productId == db.resources[i].productId;
      FirstUpdated(ProductIs(db.resources[i].productId), Archiving(id), db.products);
    }
    forall i | 0 <= i < |db.apiKeys| ensures First(ResourceIs(db.apiKeys[i].resourceId), after.resources).Some? {
      FirstUpdated(ResourceIs(db.apiKeys[i].resourceId), Suspending(id), db.resources);
    }
  }

  lemma ArchiveRowsKeeps(db: Db, id: nat, due: Due)
    requires Inv(db)
    ensures Inv(ArchiveRows(db, id)) && ArchiveRows(db, id).apiKeys == db.apiKeys
    ensures SuspendedBut(db, due) ==> SuspendedBut(ArchiveRows(db, id), due)
  {
    hide First, Selected, Updated, Linked;
    LinksArchived(db, id);
    UpdatedPairwise(Archiving(id), ProductPair, db.products);
    UpdatedPairwise(Suspending(id), ResourcePair, db.resources);
  }

  lemma {:induction false} ArchiveAllKeeps(db: Db, ids: seq<nat>, due: Due)
    requires Inv(db)
    ensures Inv(ArchiveAll(db, ids)) && ArchiveAll(db, ids).apiKeys == db.apiKeys
    ensures SuspendedBut(db, due) ==> SuspendedBut(ArchiveAll(db, ids), due)
    ensures ArchiveAll(db, ids).accounts == db.accounts && ArchiveAll(db, ids).nextId == db.nextId
  {
    hide Inv, SuspendedBut;
    if ids != [] {
      ArchiveAllKeeps(db, ids[..|ids| - 1], due);
      ArchiveRowsKeeps(ArchiveAll(db, ids[..|ids| - 1]), ids[|ids| - 1], due);
    }
  }

  // ---- Insertions ----

  lemma LinksProduct(db: Db, row: Product)
    requires Linked(db) && row.accountId in db.accounts
    ensures Linked(db.(products := db.products + [row], nextId := db.nextId + 1))
    ensures First(ProductIs(row.id), db.products + [row]).Some?
  {
    hide First, Selected;
    forall i | 0 <= i < |db.resources| ensures First(ProductIs(db.resources[i].productId), db.products + [row]).Some? {
      FirstSnoc(ProductIs(db.resources[i].productId), db.products, row);
    }
    FirstSnoc(ProductIs(row.id), db.products, row);
  }

  lemma ProductAdded(db: Db, accountId: string, due: Due)
    requires Inv(db) && accountId in db.accounts
    ensures Inv(AddProduct(db, accountId))
    ensures SuspendedBut(db, due) ==> SuspendedBut(AddProduct(db, accountId), due)
    ensures First(ProductIs(db.nextId), AddProduct(db, accountId).products).Some?
  {
    hide First, Selected, Linked;
    LinksProduct(db, Product(db.nextId, accountId, false));
    SnocPairwise(ProductPair, db.products, Product(db.nextId, accountId, false));
  }

  lemma LinksResource(db: Db, productId: nat, service: Service, walletId: string)
    requires Linked(db) && First(ProductIs(productId), db.products).Some?
    ensures Linked(AddResource(db, productId, service, walletId))
    ensures First(ResourceIs(db.nextId), AddResource(db, productId, service, walletId).resources).Some?
  {
    hide First, Selected;
    var row := Resource(db.nextId, productId, service, walletId, Pending);
    forall i | 0 <= i < |db.apiKeys| ensures First(ResourceIs(db.apiKeys[i].resourceId), db.resources + [row]).Some? {
      FirstSnoc(ResourceIs(db.apiKeys[i].resourceId), db.resources, row);
    }
    FirstSnoc(ResourceIs(db.nextId), db.resources, row);
  }

  lemma ResourcePairs(db: Db, productId: nat, service: Service, walletId: string)
    requires Pairwise(ResourcePair, db.resources) && Fresh(db) && Refusal(db, service, walletId).None?
    requires forall i | 0 <= i < |db.resources| :: db.resources[i].productId != productId
    ensures Pairwise(ResourcePair, AddResource(db, productId, service, walletId).resources)
  {
    hide ValidWalletId;
    SnocPairwise(ResourcePair, db.resources, Resource(db.nextId, productId, service, walletId, Pending));
  }

  lemma ResourceArchived(db: Db, productId: nat, service: Service, walletId: string, due: Due)
    requires SuspendedBut(db, due)
    ensures SuspendedBut(AddResource(db, productId, service, walletId), due) <==>
            !IsArchived(db, productId) || due(db.nextId, productId)
  {
    var after := AddResource(db, productId, service, walletId);
    assert after.resources[|db.resources|] == Resource(db.nextId, productId, service, walletId, Pending);
    assert forall i | 0 <= i < |db.resources| :: after.resources[i] == db.resources[i];
  }

  // A resource is added in good order to a product without one; an archived product is thereby left
  // with a resource that is not suspended.
  lemma ResourceAdded(db: Db, productId: nat, service: Service, walletId: string, due: Due)
    requires Inv(db) && First(ProductIs(productId), db.products).Some? && productId < db.nextId
    requires forall i | 0 <= i < |db.resources| :: db.resources[i].productId != productId
    requires Refusal(db, service, walletId).None?
    ensures Inv(AddResource(db, productId, service, walletId))
    ensures SuspendedBut(db, due) ==>
              (SuspendedBut(AddResource(db, productId, service, walletId), due) <==>
               !IsArchived(db, productId) || due(db.nextId, productId))
  {
    hide Pairwise, Linked, Refusal, First, SuspendedBut, IsArchived;
    LinksResource(db, productId, service, walletId);
    ResourcePairs(db, productId, service, walletId);
    if SuspendedBut(db, due) {
      ResourceArchived(db, productId, service, walletId, due);
    }
  }

  // A key is added in good order; it is the only live one of its resource if there was none.
  lemma KeyAdded(db: Db, resourceId: nat, due: Due)
    requires Inv(db) && First(ResourceIs(resourceId), db.resources).Some?
    ensures Inv(AddKey(db, resourceId))
    ensures SuspendedBut(db, due) ==> SuspendedBut(AddKey(db, resourceId), due)
    ensures OneLive(db) ==> (OneLive(AddKey(db, resourceId)) <==> !HasLiveKey(db, resourceId))
  {
    hide Selected, ResourcesLinked, Pairwise, HasLiveKey, SuspendedBut;
    assert resourceId < db.nextId;
    hide First;
    var key := ApiKey(db.nextId, resourceId, false);
    SnocPairwise(KeyPair, db.apiKeys, key);
    assert AddKey(db, resourceId).apiKeys[|db.apiKeys|] == key;
    if SuspendedBut(db, due) {
      KeysOnly(db, AddKey(db, resourceId), due);
    }
    if OneLive(db) {
      KeyLive(db, resourceId);
    }
  }

  lemma KeyLive(db: Db, resourceId: nat)
    requires OneLive(db)
    ensures OneLive(AddKey(db, resourceId)) <==> !HasLiveKey(db, resourceId)
  {
    var key, after := ApiKey(db.nextId, resourceId, false), AddKey(db, resourceId);
    if HasLiveKey(db, resourceId) {
      var i :| 0 <= i < |db.apiKeys| && db.apiKeys[i].resourceId == resourceId && !db.apiKeys[i].revoked;
      assert !LivePair(after.apiKeys[i], after.apiKeys[|db.apiKeys|]);
    } else {
      SnocPairwise(LivePair, db.apiKeys, key);
    }
  }

  // ---- Deletion ----

  lemma ResourcesLinkedDeleted(products: seq<Product>, resources: seq<Resource>, productId: nat)
    requires ResourcesLinked(products, resources)
    ensures ResourcesLinked(Selected(OtherProduct(productId), products), Selected(NotOf(productId), resources))
  {
    hide First;
    var after := Selected(NotOf(productId), resources);
    SelectedMembers(NotOf(productId), resources);
    forall i | 0 <= i < |after|
        ensures First(ProductIs(after[i].productId), Selected(OtherProduct(productId), products)).Some? {
      var j :| 0 <= j < |resources| && resources[j] == after[i];
      FirstSelected(ProductIs(resources[j].productId), OtherProduct(productId), products);
    }
  }

  lemma KeysLinkedDeleted(resources: seq<Resource>, apiKeys: seq<ApiKey>, productId: nat)
    requires KeysLinked(resources, apiKeys)
    ensures KeysLinked(Selected(NotOf(productId), resources), Selected(KeyOfOther(resources, productId), apiKeys))
  {
    hide First;
    var after := Selected(KeyOfOther(resources, productId), apiKeys);
    SelectedMembers(KeyOfOther(resources, productId), apiKeys);
    forall i | 0 <= i < |after|
        ensures First(ResourceIs(after[i].resourceId), Selected(NotOf(productId), resources)).Some? {
      var j :| 0 <= j < |apiKeys| && apiKeys[j] == after[i];
      FirstSelected(ResourceIs(apiKeys[j].resourceId), NotOf(productId), resources);
    }
  }

  lemma LinksDeleted(db: Db, productId: nat)
    requires Linked(db)
    ensures Linked(DeleteProduct(db, productId))
  {
    hide ResourcesLinked, KeysLinked;
    ResourcesLinkedDeleted(db.products, db.resources, productId);
    KeysLinkedDeleted(db.resources, db.apiKeys, productId);
    var after := Selected(OtherProduct(productId), db.products);
    SelectedMembers(OtherProduct(productId), db.products);
    forall i | 0 <= i < |after| ensures after[i].accountId in db.accounts {
      var j :| 0 <= j < |db.products| && db.products[j] == after[i];
    }
  }

  lemma FreshDeleted(db: Db, productId: nat)
    requires Fresh(db)
    ensures Fresh(DeleteProduct(db, productId))
  {
    hide Selected;
    SelectedMembers(OtherProduct(productId), db.products);
    SelectedMembers(NotOf(productId), db.resources);
    SelectedMembers(KeyOfOther(db.resources, productId), db.apiKeys);
  }

  lemma ArchivedDeleted(db: Db, productId: nat, due: Due)
    requires SuspendedBut(db, due)
    ensures SuspendedBut(DeleteProduct(db, productId), due)
  {
    hide Selected;
    SelectedMembers(OtherProduct(productId), db.products);
    SelectedMembers(NotOf(productId), db.resources);
  }

  lemma DeleteKeeps(db: Db, productId: nat, due: Due)
    requires Inv(db)
    ensures Inv(DeleteProduct(db, productId))
    ensures SuspendedBut(db, due) ==> SuspendedBut(DeleteProduct(db, productId), due)
    ensures OneLive(db) ==> OneLive(DeleteProduct(db, productId))
  {
    hide Linked, Fresh, Pairwise, Selected, SuspendedBut;
    LinksDeleted(db, productId);
    FreshDeleted(db, productId);
    SelectedPairwise(OtherProduct(productId), ProductPair, db.products);
    SelectedPairwise(NotOf(productId), ResourcePair, db.resources);
    SelectedPairwise(KeyOfOther(db.resources, productId), KeyPair, db.apiKeys);
    if OneLive(db) {
      SelectedPairwise(KeyOfOther(db.resources, productId), LivePair, db.apiKeys);
    }
    if SuspendedBut(db, due) {
      ArchivedDeleted(db, productId, due);
    }
  }

  // ---- Keys ----

  lemma LinksRotated(db: Db, resourceId: nat)
    requires Linked(db)
    ensures Linked(Rotate(db, resourceId).0)
  {
    hide First, Selected, ResourcesLinked;
    if First(ResourceIs(resourceId), db.resources).Some? {
      var after := Rotate(db, resourceId).0;
      forall i | 0 <= i < |after.apiKeys| ensures First(ResourceIs(after.apiKeys[i].resourceId), db.resources).Some? {
        if i < |db.apiKeys| {
          assert after.apiKeys[i] == RevokingAll(resourceId)(db.apiKeys[i]);
        }
      }
    }
  }

  lemma RotateKeeps(db: Db, resourceId: nat)
    requires Inv(db)
    ensures Inv(Rotate(db, resourceId).0)
    ensures OneLive(db) ==> OneLive(Rotate(db, resourceId).0)
  {
    hide Selected, Linked, Updated;
    LinksRotated(db, resourceId);
    if First(ResourceIs(resourceId), db.resources).Some? {
      var revoked := Updated(RevokingAll(resourceId), db.apiKeys);
      var key := ApiKey(db.nextId, resourceId, false);
      UpdatedPairwise(RevokingAll(resourceId), KeyPair, db.apiKeys);
      SnocPairwise(KeyPair, revoked, key);
      assert resourceId < db.nextId;
      if OneLive(db) {
        UpdatedPairwise(RevokingAll(resourceId), LivePair, db.apiKeys);
        SnocPairwise(LivePair, revoked, key);
      }
    }
  }

  lemma RevokeKeeps(db: Db, keyId: nat)
    requires Inv(db)
    ensures Inv(Revoke(db, keyId))
    ensures OneLive(db) ==> OneLive(Revoke(db, keyId))
  {
    hide First, Selected, Updated, Pairwise, ResourcesLinked;
    UpdatedPairwise(Revoking(keyId), KeyPair, db.apiKeys);
    if OneLive(db) {
      UpdatedPairwise(Revoking(keyId), LivePair, db.apiKeys);
    }
  }

  // A revoked key that has a live one beside it.
  predicate RevivesBeside(db: Db, keyId: nat) {
    exists i, j | 0 <= i < |db.apiKeys| && 0 <= j < |db.apiKeys| ::
      && db.apiKeys[i].id == keyId && db.apiKeys[i].revoked
      && db.apiKeys[j].resourceId == db.apiKeys[i].resourceId && !db.apiKeys[j].revoked
  }

  lemma RevivedInv(db: Db, keyId: nat)
    requires Inv(db)
    ensures Inv(Revive(db, keyId))
  {
    hide First, Selected, Updated, Pairwise, ResourcesLinked;
    UpdatedPairwise(Reviving(keyId), KeyPair, db.apiKeys);
  }

  // Writing a key row back as unrevoked leaves two live keys of a resource exactly when the row was
  // revoked in the meantime and the resource has another live key.
  lemma RevivedOneLive(db: Db, keyId: nat)
    requires Pairwise(KeyPair, db.apiKeys) && OneLive(db)
    ensures OneLive(Revive(db, keyId)) <==> !RevivesBeside(db, keyId)
  {
    var before, after := db.apiKeys, Revive(db, keyId).apiKeys;
    hide Updated;
    if RevivesBeside(db, keyId) {
      var i, j :| 0 <= i < |before| && 0 <= j < |before| && before[i].id == keyId && before[i].revoked &&
                  before[j].resourceId == before[i].resourceId && !before[j].revoked;
      assert after[i] == before[i].(revoked := false) && after[j].resourceId == before[j].resourceId;
      assert !after[j].revoked && i != j;
      assert i < j ==> !LivePair(after[i], after[j]);
      assert j < i ==> !LivePair(after[j], after[i]);
    } else {
      forall i, j | 0 <= i < j < |after| ensures LivePair(after[i], after[j]) {
        assert LivePair(before[i], before[j]) && KeyPair(before[i], before[j]);
        assert after[i] == Reviving(keyId)(before[i]) && after[j] == Reviving(keyId)(before[j]);
      }
    }
  }

  // ---- Rows saved one at a time ----

  // The save of a row read earlier: a product as archived, or a resource as suspended.
  datatype Save = SaveProduct(id: nat) | SaveResource(id: nat)

  function SuspendingOne(resourceId: nat): Resource -> Resource {
    (r: Resource) => if r.id == resourceId then r.(status := Suspended) else r
  }

  // What is left of a product row that was read as active when it is written back.
  function Restoring(productId: nat): Product -> Product {
    (p: Product) => if p.id == productId then p.(archived := false) else p
  }

  function Saved(db: Db, save: Save): Db {
    match save
    case SaveProduct(id) => db.(products := Updated(Archiving(id), db.products))
    case SaveResource(id) => db.(resources := Updated(SuspendingOne(id), db.resources))
  }

  function Restored(db: Db, productId: nat): Db {
    db.(products := Updated(Restoring(productId), db.products))
  }

  lemma LinksSaved(db: Db, f: Product -> Product, g: Resource -> Resource)
    requires Linked(db)
    requires forall p :: f(p).id == p.id && f(p).accountId == p.accountId
    requires forall r :: g(r).id == r.id && g(r).productId == r.productId
    ensures Linked(db.(products := Updated(f, db.products)))
    ensures Linked(db.(resources := Updated(g, db.resources)))
  {
    hide First, Selected;
    var products, resources := Updated(f, db.products), Updated(g, db.resources);
    forall i | 0 <= i < |db.resources| ensures First(ProductIs(db.resources[i].productId), products).Some? {
      FirstUpdated(ProductIs(db.resources[i].productId), f, db.products);
    }
    forall i | 0 <= i < |resources| ensures First(ProductIs(resources[i].productId), db.products).Some? {
      assert resources[i] == g(db.resources[i]);
    }
    forall i | 0 <= i < |db.apiKeys| ensures First(ResourceIs(db.apiKeys[i].resourceId), resources).Some? {
      FirstUpdated(ResourceIs(db.apiKeys[i].resourceId), g, db.resources);
    }
  }

  lemma SavedInv(db: Db, save: Save)
    requires Inv(db)
    ensures Inv(Saved(db, save))
  {
    hide First, Selected, Updated, Linked, Pairwise;
    LinksSaved(db, Archiving(save.id), SuspendingOne(save.id));
    UpdatedPairwise(Archiving(save.id), ProductPair, db.products);
    UpdatedPairwise(SuspendingOne(save.id), ResourcePair, db.resources);
  }

  lemma RestoredInv(db: Db, productId: nat)
    requires Inv(db)
    ensures Inv(Restored(db, productId))
  {
    hide First, Selected, Updated, Linked, Pairwise;
    LinksSaved(db, Restoring(productId), SuspendingOne(0));
    UpdatedPairwise(Restoring(productId), ProductPair, db.products);
  }

  // A product saved as archived while one of its resources is neither suspended nor due to be.
  predicate LateSave(db: Db, productId: nat, due: Due) {
    && First(ProductIs(productId), db.products).Some?
    && exists i | 0 <= i < |db.resources| ::
         && db.resources[i].productId == productId && !db.resources[i].status.Suspended?
         && !due(db.resources[i].id, productId)
  }

  lemma ProductSaved(db: Db, productId: nat, due: Due)
    requires SuspendedBut(db, due)
    ensures SuspendedBut(Saved(db, SaveProduct(productId)), due) <==> !LateSave(db, productId, due)
  {
    hide First, Updated;
    var after := Saved(db, SaveProduct(productId)).products;
    assert forall j | 0 <= j < |after| :: after[j] == Archiving(productId)(db.products[j]);
    if LateSave(db, productId, due) {
      var i :| 0 <= i < |db.resources| && db.resources[i].productId == productId &&
               !db.resources[i].status.Suspended? && !due(db.resources[i].id, productId);
      var j := FirstAt(ProductIs(productId), db.products);
      assert after[j].archived;
    }
  }

  // A resource saved as suspended is no longer due.
  lemma ResourceSaved(db: Db, resourceId: nat, due: Due, rest: Due)
    requires SuspendedBut(db, due)
    requires forall r, p :: due(r, p) && r != resourceId ==> rest(r, p)
    ensures SuspendedBut(Saved(db, SaveResource(resourceId)), rest)
  {
    hide Updated;
    var after := Saved(db, SaveResource(resourceId)).resources;
    assert forall i | 0 <= i < |after| :: after[i] == SuspendingOne(resourceId)(db.resources[i]);
  }

  lemma ProductRestored(db: Db, productId: nat, due: Due)
    requires SuspendedBut(db, due)
    ensures SuspendedBut(Restored(db, productId), due)
  {
    hide Updated;
    var after := Restored(db, productId).products;
    assert forall j | 0 <= j < |after| :: after[j] == Restoring(productId)(db.products[j]);
  }

  lemma KeysOnly(before: Db, after: Db, due: Due)
    requires before.products == after.products && before.resources == after.resources && SuspendedBut(before, due)
    ensures SuspendedBut(after, due)
  {
  }

  // ---- The end of a creation ----

  lemma LinksActivated(db: Db, resourceId: nat)
    requires Linked(db)
    ensures Linked(db.(resources := Updated(Activating(resourceId), db.resources)))
  {
    hide First, Selected;
    var after := Updated(Activating(resourceId), db.resources);
    forall i | 0 <= i < |after| ensures First(ProductIs(after[i].productId), db.products).Some? {
      assert after[i].productId == db.resources[i].productId;
    }
    forall i | 0 <= i < |db.apiKeys| ensures First(ResourceIs(db.apiKeys[i].resourceId), after).Some? {
      FirstUpdated(ResourceIs(db.apiKeys[i].resourceId), Activating(resourceId), db.resources);
    }
  }

  lemma FinishKeeps(db: Db, productId: nat, resourceId: nat, provisioned: bool)
    requires Inv(db)
    ensures Inv(Finish(db, productId, resourceId, provisioned))
    ensures OneLive(db) ==> OneLive(Finish(db, productId, resourceId, provisioned))
  {
    hide First, Selected, Updated, Linked;
    DeleteKeeps(db, productId, NoneDue());
    LinksActivated(db, resourceId);
    UpdatedPairwise(Activating(resourceId), ResourcePair, db.resources);
  }

  // A provisioning that succeeds for a product that is archived, when nothing will suspend its resource.
  predicate LateActivation(db: Db, resourceId: nat, provisioned: bool, due: Due) {
    && provisioned
    && exists i | 0 <= i < |db.resources| ::
        && db.resources[i].id == resourceId && IsArchived(db, db.resources[i].productId)
        && !due(resourceId, db.resources[i].productId)
  }

  lemma FinishArchived(db: Db, productId: nat, resourceId: nat, provisioned: bool, due: Due)
    requires Inv(db) && SuspendedBut(db, due)
    ensures SuspendedBut(Finish(db, productId, resourceId, provisioned), due) <==>
            !LateActivation(db, resourceId, provisioned, due)
  {
    hide Selected, Updated, Linked, DeleteProduct, LateActivation, SuspendedBut, Pairwise, Fresh;
    DeleteKeeps(db, productId, due);
    if provisioned {
      if First(ResourceIs(resourceId), db.resources).Some? {
        ActivationArchived(db, resourceId, due);
      } else {
        NothingActivated(db, resourceId, due);
      }
    } else {
      NotLate(db, resourceId, due);
    }
  }

  lemma NotLate(db: Db, resourceId: nat, due: Due)
    ensures !LateActivation(db, resourceId, false, due)
  {
  }

  lemma NothingActivated(db: Db, resourceId: nat, due: Due)
    requires First(ResourceIs(resourceId), db.resources).None?
    ensures !LateActivation(db, resourceId, true, due)
  {
    hide IsArchived;
  }

  lemma ActivationArchived(db: Db, resourceId: nat, due: Due)
    requires SuspendedBut(db, due)
    ensures SuspendedBut(db.(resources := Updated(Activating(resourceId), db.resources)), due)
       <==> !LateActivation(db, resourceId, true, due)
  {
    hide First, Updated;
    var after := Updated(Activating(resourceId), db.resources);
    if LateActivation(db, resourceId, true, due) {
      var i :| 0 <= i < |db.resources| && db.resources[i].id == resourceId &&
               IsArchived(db, db.resources[i].productId) && !due(resourceId, db.resources[i].productId);
      var j :| 0 <= j < |db.products| && db.products[j].id == db.resources[i].productId && db.products[j].archived;
      assert after[i] == db.resources[i].(status := Active);
    } else {
      forall i, j | 0 <= i < |after| && 0 <= j < |db.products| && db.products[j].archived &&
                    after[i].productId == db.products[j].id
        ensures after[i].status.Suspended? || due(after[i].id, after[i].productId) {
        assert after[i] == Activating(resourceId)(db.resources[i]);
      }
    }
  }

  // ---- Whole operations ----

  lemma AccountChanged(db: Db, accountId: string, account: A.Account, due: Due)
    requires Inv(db)
    ensures Inv(db.(accounts := db.accounts[accountId := account]))
    ensures SuspendedBut(db, due) ==> SuspendedBut(db.(accounts := db.accounts[accountId := account]), due)
  {
    hide Pairwise, ResourcesLinked, KeysLinked;
  }

  lemma PlanKeeps(db: Db, accountId: string, plan: A.PlanId, due: Due)
    requires Inv(db)
    ensures Inv(ChangePlan(db, accountId, plan)) && ChangePlan(db, accountId, plan).apiKeys == db.apiKeys
    ensures SuspendedBut(db, due) ==> SuspendedBut(ChangePlan(db, accountId, plan), due)
  {
    hide Inv, SuspendedBut, ArchiveAll, ActiveIds;
    if accountId in db.accounts {
      var account := A.WithPlan(db.accounts[accountId], plan);
      AccountChanged(db, accountId, account, due);
      ArchiveAllKeeps(db.(accounts := db.accounts[accountId := account]),
                      SliceFrom(ActiveIds(db.products, accountId), account.maxProducts), due);
    }
  }

  // The local part of a creation with nothing in between.
  lemma BeginKeeps(db: Db, input: Input, due: Due)
    requires Inv(db)
    ensures var (after, r) := Begin(db, input);
            && Inv(after)
            && (SuspendedBut(db, due) ==>
                SuspendedBut(after, due) && (r.Created? ==> !LateActivation(after, r.resourceId, true, due)))
            && (OneLive(db) ==> OneLive(after))
  {
    hide Linked, Selected, ActiveIds, ValidWalletId, SuspendedBut, Pairwise, First;
    if Admission(db, input.accountId).None? {
      var id := db.nextId;
      var db1 := AddProduct(db, input.accountId);
      ProductAdded(db, input.accountId, due);
      if Refusal(db1, input.service, input.walletId).None? {
        var db2 := AddResource(db1, id, input.service, input.walletId);
        ResourceAdded(db1, id, input.service, input.walletId, due);
        LinkedTables(db1);
        LinksResource(db1, id, input.service, input.walletId);
        KeyAdded(db2, db2.nextId - 1, due);
        FreshProductActive(db, input, due);
      }
    }
  }

  lemma LinkedTables(db: Db)
    requires Inv(db)
    ensures Linked(db)
  {
  }

  lemma FreshProductActive(db: Db, input: Input, due: Due)
    requires Inv(db) && input.accountId in db.accounts
    ensures var db1 := AddProduct(db, input.accountId);
            var db2 := AddResource(db1, db.nextId, input.service, input.walletId);
            && !IsArchived(db1, db.nextId) && !HasLiveKey(db2, db1.nextId)
            && !LateActivation(AddKey(db2, db1.nextId), db1.nextId, true, due)
  {
    hide Linked, Pairwise;
    var db1 := AddProduct(db, input.accountId);
    var db2 := AddResource(db1, db.nextId, input.service, input.walletId);
    assert forall j | 0 <= j < |db.products| :: db1.products[j] == db.products[j];
    assert forall i | 0 <= i < |db.resources| :: db2.resources[i] == db.resources[i];
    assert !IsArchived(db1, db.nextId);
  }

  lemma CreateKeeps(db: Db, input: Input, provisioned: bool, due: Due)
    requires Inv(db)
    ensures var after := Create(db, input, provisioned).0;
            && Inv(after) && (SuspendedBut(db, due) ==> SuspendedBut(after, due)) && (OneLive(db) ==> OneLive(after))
  {
    hide Inv, SuspendedBut, OneLive, Begin, Finish, IsArchived;
    BeginKeeps(db, input, due);
    var (db1, r) := Begin(db, input);
    if r.Created? {
      FinishKeeps(db1, r.productId, r.resourceId, provisioned);
      if SuspendedBut(db, due) {
        FinishArchived(db1, r.productId, r.resourceId, provisioned, due);
      }
    }
  }

  // An operation of the service that runs by itself.
  datatype Op =
    | OpenAccount(accountId: string, plan: A.PlanId)
    | SetPlan(accountId: string, plan: A.PlanId)
    | SetQuota(accountId: string, maxProducts: int)
    | SetStatus(accountId: string, accountStatus: A.AccountStatus)
    | CreateProduct(input: Input, provisioned: bool)
    | ArchiveProduct(accountId: string, productId: nat)
    | RotateApiKey(resourceId: nat)
    | RevokeApiKey(keyId: nat)

  function WithAccount(db: Db, accountId: string, account: A.Account): Db {
    db.(accounts := db.accounts[accountId := account])
  }

  function Perform(db: Db, op: Op): Db {
    match op
    case OpenAccount(id, plan) => if id in db.accounts then db else WithAccount(db, id, A.NewAccount(plan))
    case SetPlan(id, plan) => ChangePlan(db, id, plan)
    case SetQuota(id, n) => if id !in db.accounts then db else WithAccount(db, id, db.accounts[id].(maxProducts := n))
    case SetStatus(id, status) => if id !in db.accounts
        then db else WithAccount(db, id, db.accounts[id].(status := status))
    case CreateProduct(input, provisioned) => Create(db, input, provisioned).0
    case ArchiveProduct(id, productId) => Archive(db, id, productId)
    case RotateApiKey(resourceId) => Rotate(db, resourceId).0
    case RevokeApiKey(keyId) => Revoke(db, keyId)
  }

  // Every operation by itself keeps all of it.
  lemma OpKeeps(db: Db, op: Op, due: Due)
    requires Inv(db)
    ensures Inv(Perform(db, op))
    ensures SuspendedBut(db, due) ==> SuspendedBut(Perform(db, op), due)
    ensures OneLive(db) ==> OneLive(Perform(db, op))
  {
    hide Inv, SuspendedBut, Pairwise, ChangePlan, Create, ArchiveRows, A.WithPlan, First;
    match op {
      case OpenAccount(id, plan) => AccountChanged(db, id, A.NewAccount(plan), due);
      case SetPlan(id, plan) => PlanKeeps(db, id, plan, due);
      case SetQuota(id, n) =>
        if id in db.accounts {
          AccountChanged(db, id, db.accounts[id].(maxProducts := n), due);
        }
      case SetStatus(id, status) =>
        if id in db.accounts {
          AccountChanged(db, id, db.accounts[id].(status := status), due);
        }
      case CreateProduct(input, provisioned) => CreateKeeps(db, input, provisioned, due);
      case ArchiveProduct(_, productId) => ArchiveRowsKeeps(db, productId, due);
      case RotateApiKey(resourceId) =>
        RotateKeeps(db, resourceId);
        if SuspendedBut(db, due) {
          KeysOnly(db, Rotate(db, resourceId).0, due);
        }
      case RevokeApiKey(keyId) =>
        RevokeKeeps(db, keyId);
        if SuspendedBut(db, due) {
          KeysOnly(db, Revoke(db, keyId), due);
        }
    }
  }

  lemma EmptyInv()
    ensures Inv(EMPTY) && ArchivedSuspended(EMPTY) && OneLive(EMPTY)
  {
  }
}
