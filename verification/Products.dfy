// Products of a customer account: a product owns one issuer or verifier resource and its API keys.
// Creation with remote provisioning, archiving, plan changes, key rotation and key validation.
module Products {
  import A = Accounts
  import opened Options
  import opened Tables

  datatype Service = Issuer | Verifier
  datatype ResourceStatus = Pending | Active | Suspended

  datatype Product = Product(id: nat, accountId: string, archived: bool)
  datatype Resource = Resource(id: nat, productId: nat, service: Service, walletId: string, status: ResourceStatus)
  // `id` also stands for the raw key and its hash: the key a client presents is one of these.
  datatype ApiKey = ApiKey(id: nat, resourceId: nat, revoked: bool)

  // Rows are kept in order of creation and `nextId` is never used before.
  datatype Db = Db(
    accounts: map<string, A.Account>,
    products: seq<Product>,
    resources: seq<Resource>,
    apiKeys: seq<ApiKey>,
    nextId: nat)

  const EMPTY := Db(map[], [], [], [], 0)

  predicate SameTables(a: Db, b: Db) {
    a.(nextId := 0) == b.(nextId := 0)
  }

  datatype Failure = NotFound | AccountInactive | QuotaReached | BadWalletId | Conflict | ProvisionFailed

  datatype Creation = Created(productId: nat, resourceId: nat, apiKey: nat) | Refused(failure: Failure)

  datatype Input = Input(accountId: string, service: Service, walletId: string)

  // ---- Row conditions and updates ----

  function Archiving(productId: nat): Product -> Product {
    (p: Product) => if p.id == productId then p.(archived := true) else p
  }

  function Suspending(productId: nat): Resource -> Resource {
    (r: Resource) => if r.productId == productId then r.(status := Suspended) else r
  }

  function Activating(resourceId: nat): Resource -> Resource {
    (r: Resource) => if r.id == resourceId then r.(status := Active) else r
  }

  function RevokingAll(resourceId: nat): ApiKey -> ApiKey {
    (k: ApiKey) => if k.resourceId == resourceId then k.(revoked := true) else k
  }

  function Revoking(keyId: nat): ApiKey -> ApiKey {
    (k: ApiKey) => if k.id == keyId then k.(revoked := true) else k
  }

  function ProductIs(id: nat): Product -> bool {
    (p: Product) => p.id == id
  }

  function ResourceIs(id: nat): Resource -> bool {
    (r: Resource) => r.id == id
  }

  function Bound(service: Service, walletId: string): Resource -> bool {
    (r: Resource) => r.service == service && r.walletId == walletId
  }

  function OwnedActive(accountId: string, id: nat): Product -> bool {
    (p: Product) => p.id == id && p.accountId == accountId && !p.archived
  }

  // Ids of the active products of an account, oldest first.
  function ActiveIds(products: seq<Product>, accountId: string): (r: seq<nat>) {
    if products == [] then []
    else
      var last := products[|products| - 1];
      var before := ActiveIds(products[..|products| - 1], accountId);
      if last.accountId == accountId && !last.archived then before + [last.id] else before
  }

  predicate AlphaNumeric(c: char) {
    'a' <= c <= 'z' || 'A' <= c <= 'Z' || '0' <= c <= '9'
  }

  predicate ValidWalletId(s: string) {
    && s != [] && AlphaNumeric(s[0])
    && forall i | 0 < i < |s| :: AlphaNumeric(s[i]) || s[i] == '.' || s[i] == '_' || s[i] == '-'
  }

  // ---- Operations on the database ----

  // Archive one product and suspend its resources.
  function ArchiveRows(db: Db, productId: nat): Db {
    db.(products := Updated(Archiving(productId), db.products),
        resources := Updated(Suspending(productId), db.resources))
  }

  function ArchiveAll(db: Db, ids: seq<nat>): Db {
    if ids == [] then db else ArchiveRows(ArchiveAll(db, ids[..|ids| - 1]), ids[|ids| - 1])
  }

  // slice(Math.max(0, n))
  function SliceFrom(ids: seq<nat>, n: int): seq<nat> {
    if n <= 0 then ids else if n >= |ids| then [] else ids[n..]
  }

  function EnforceQuota(db: Db, accountId: string, maxProducts: int): Db {
    ArchiveAll(db, SliceFrom(ActiveIds(db.products, accountId), maxProducts))
  }

  function ChangePlan(db: Db, accountId: string, plan: A.PlanId): Db {
    if accountId !in db.accounts then db
    else
      var account := A.WithPlan(db.accounts[accountId], plan);
      EnforceQuota(db.(accounts := db.accounts[accountId := account]), accountId, account.maxProducts)
  }

  function Archive(db: Db, accountId: string, productId: nat): Db {
    if First(OwnedActive(accountId, productId), db.products).None? then db else ArchiveRows(db, productId)
  }

  // The checks createProduct starts with; None admits the creation.
  function Admission(db: Db, accountId: string): Option<Failure> {
    if accountId !in db.accounts then Some(NotFound)
    else if !db.accounts[accountId].status.Active? then Some(AccountInactive)
    else if |ActiveIds(db.products, accountId)| >= db.accounts[accountId].maxProducts then Some(QuotaReached)
    else None
  }

  function AddProduct(db: Db, accountId: string): Db {
    db.(products := db.products + [Product(db.nextId, accountId, false)], nextId := db.nextId + 1)
  }

  // Why createResourceInternal refuses; the unique constraint makes the check and the insertion one.
  function Refusal(db: Db, service: Service, walletId: string): Option<Failure> {
    if !ValidWalletId(walletId) then Some(BadWalletId)
    else if First(Bound(service, walletId), db.resources).Some? then Some(Conflict)
    else None
  }

  function AddResource(db: Db, productId: nat, service: Service, walletId: string): Db {
    db.(resources := db.resources + [Resource(db.nextId, productId, service, walletId, Pending)],
        nextId := db.nextId + 1)
  }

  function AddKey(db: Db, resourceId: nat): Db {
    db.(apiKeys := db.apiKeys + [ApiKey(db.nextId, resourceId, false)], nextId := db.nextId + 1)
  }

  // createResourceInternal: the resource of a product and its first key.
  function CreateResource(db: Db, productId: nat, service: Service, walletId: string): (Db, Creation) {
    match Refusal(db, service, walletId)
    case Some(failure) => (db, Refused(failure))
    case None =>
      (AddKey(AddResource(db, productId, service, walletId), db.nextId), Created(productId, db.nextId, db.nextId + 1))
  }

  // Everything createProduct does before it contacts the remote service, with nothing in between.
  function Begin(db: Db, input: Input): (Db, Creation) {
    match Admission(db, input.accountId)
    case Some(failure) => (db, Refused(failure))
    case None => CreateResource(AddProduct(db, input.accountId), db.nextId, input.service, input.walletId)
  }

  function OtherProduct(id: nat): Product -> bool {
    (p: Product) => p.id != id
  }

  function NotOf(productId: nat): Resource -> bool {
    (r: Resource) => r.productId != productId
  }

  function KeyOfOther(resources: seq<Resource>, productId: nat): ApiKey -> bool {
    (k: ApiKey) => forall i | 0 <= i < |resources| && resources[i].id == k.resourceId ::
        resources[i].productId != productId
  }

  // DELETE of a product row, with the cascades of the foreign keys.
  function DeleteProduct(db: Db, productId: nat): Db {
    db.(products := Selected(OtherProduct(productId), db.products),
        resources := Selected(NotOf(productId), db.resources),
        apiKeys := Selected(KeyOfOther(db.resources, productId), db.apiKeys))
  }

  // What follows the answer of the remote service.
  function Finish(db: Db, productId: nat, resourceId: nat, provisioned: bool): Db {
    if provisioned && First(ResourceIs(resourceId), db.resources).Some?
    then db.(resources := Updated(Activating(resourceId), db.resources))
    else DeleteProduct(db, productId)
  }

  function Create(db: Db, input: Input, provisioned: bool): (Db, Creation) {
    var (db1, begun) := Begin(db, input);
    if begun.Refused? then (db1, begun)
    else (Finish(db1, begun.productId, begun.resourceId, provisioned), if provisioned
        then begun else Refused(ProvisionFailed))
  }

  function Rotate(db: Db, resourceId: nat): (Db, Option<nat>) {
    if First(ResourceIs(resourceId), db.resources).None? then (db, None)
    else
      (db.(apiKeys := Updated(RevokingAll(resourceId), db.apiKeys) + [ApiKey(db.nextId, resourceId, false)],
           nextId := db.nextId + 1),
       Some(db.nextId))
  }

  function Revoke(db: Db, keyId: nat): Db {
    db.(apiKeys := Updated(Revoking(keyId), db.apiKeys))
  }

  // What is left of a key row that was read as unrevoked when it is written back.
  function Reviving(keyId: nat): ApiKey -> ApiKey {
    (k: ApiKey) => if k.id == keyId then k.(revoked := false) else k
  }

  function Revive(db: Db, keyId: nat): Db {
    db.(apiKeys := Updated(Reviving(keyId), db.apiKeys))
  }

  // Ids of the unrevoked keys of a resource.
  function LiveKeys(apiKeys: seq<ApiKey>, resourceId: nat): seq<nat> {
    if apiKeys == [] then []
    else
      var last, before := apiKeys[|apiKeys| - 1], LiveKeys(apiKeys[..|apiKeys| - 1], resourceId);
      if last.resourceId == resourceId && !last.revoked then before + [last.id] else before
  }

  datatype Verdict =
    | MissingKey
    | InvalidKey
    | InactiveAccount
    | ArchivedProduct
    | SuspendedResource
    | WrongService
    | WrongWallet
    | Valid(accountId: string, productId: nat, resourceId: nat)

  function Unrevoked(key: nat): ApiKey -> bool {
    (k: ApiKey) => k.id == key && !k.revoked
  }

  // Every row refers to rows that exist, as the foreign keys of the schema demand.
  ghost predicate Linked(db: Db) {
    && (forall i | 0 <= i < |db.products| :: db.products[i].accountId in db.accounts)
    && ResourcesLinked(db.products, db.resources)
    && KeysLinked(db.resources, db.apiKeys)
  }

  ghost predicate ResourcesLinked(products: seq<Product>, resources: seq<Resource>) {
    forall i | 0 <= i < |resources| :: First(ProductIs(resources[i].productId), products).Some?
  }

  ghost predicate KeysLinked(resources: seq<Resource>, apiKeys: seq<ApiKey>) {
    forall i | 0 <= i < |apiKeys| :: First(ResourceIs(apiKeys[i].resourceId), resources).Some?
  }

  ghost predicate PrimaryKeys(db: Db) {
    && (forall i, j | 0 <= i < j < |db.products| :: db.products[i].id != db.products[j].id)
    && (forall i, j | 0 <= i < j < |db.resources| :: db.resources[i].id != db.resources[j].id)
    && (forall i, j | 0 <= i < j < |db.apiKeys| :: db.apiKeys[i].id != db.apiKeys[j].id)
  }

  // The checks of validateApiKey. A row that refers to nothing, which the foreign keys exclude, makes
  // the key invalid.
  function Validate(db: Db, apiKey: Option<nat>, service: Service, walletId: Option<string>): Verdict {
    if apiKey.None? then MissingKey
    else
      var key := First(Unrevoked(apiKey.value), db.apiKeys);
      var resource := if key.None? then None else First(ResourceIs(key.value.resourceId), db.resources);
      var product := if resource.None? then None else First(ProductIs(resource.value.productId), db.products);
      if product.None? || product.value.accountId !in db.accounts then InvalidKey
      else if !db.accounts[product.value.accountId].status.Active? then InactiveAccount
      else if product.value.archived then ArchivedProduct
      else if resource.value.status.Suspended? then SuspendedResource
      else if resource.value.service != service then WrongService
      else if walletId.Some? && walletId.value != "" && walletId.value != resource.value.walletId then WrongWallet
      else Valid(product.value.accountId, product.value.id, resource.value.id)
  }

  // The rows that justify serving a key: the key itself, unrevoked; its resource, not suspended, for
  // the service and the wallet id asked for; its product, not archived, of an active account.
  ghost predicate ServedBy(db: Db, apiKey: Option<nat>, service: Service, walletId: Option<string>, i: nat, j: nat,
      k: nat) {
    && i < |db.apiKeys| && j < |db.resources| && k < |db.products|
    && var key, resource, product := db.apiKeys[i], db.resources[j], db.products[k];
    && apiKey == Some(key.id) && !key.revoked
    && resource.id == key.resourceId && !resource.status.Suspended? && resource.service == service
    && (walletId.None? || walletId.value == "" || walletId.value == resource.walletId)
    && product.id == resource.productId && !product.archived
    && product.accountId in db.accounts && db.accounts[product.accountId].status.Active?
  }

  // A key is served if and only if there are such rows, and the answer names them.
  lemma ValidExactly(db: Db, apiKey: Option<nat>, service: Service, walletId: Option<string>)
    requires PrimaryKeys(db)
    ensures var verdict := Validate(db, apiKey, service, walletId);
            && (verdict.Valid? <==>
                  exists i: nat, j: nat, k: nat :: ServedBy(db, apiKey, service, walletId, i, j, k))
            && (forall i: nat, j: nat, k: nat | ServedBy(db, apiKey, service, walletId, i, j, k) ::
                  verdict == Valid(db.products[k].accountId, db.products[k].id, db.resources[j].id))
  {
    hide First;
    var verdict := Validate(db, apiKey, service, walletId);
    if verdict.Valid? {
      var i, j, k := KeyRows(db, apiKey, service, walletId);
    }
    forall i: nat, j: nat, k: nat | ServedBy(db, apiKey, service, walletId, i, j, k)
      ensures verdict == Valid(db.products[k].accountId, db.products[k].id, db.resources[j].id) {
      FirstUnique(Unrevoked(db.apiKeys[i].id), db.apiKeys, i);
      FirstUnique(ResourceIs(db.resources[j].id), db.resources, j);
      FirstUnique(ProductIs(db.products[k].id), db.products, k);
    }
  }

  // The rows by which a key is served.
  lemma KeyRows(db: Db, apiKey: Option<nat>, service: Service, walletId: Option<string>)
    returns (i: nat, j: nat, k: nat)
    requires Validate(db, apiKey, service, walletId).Valid?
    ensures ServedBy(db, apiKey, service, walletId, i, j, k)
    ensures Validate(db, apiKey, service, walletId)
         == Valid(db.products[k].accountId, db.products[k].id, db.resources[j].id)
  {
    hide First;
    i := FirstAt(Unrevoked(apiKey.value), db.apiKeys);
    j := FirstAt(ResourceIs(db.apiKeys[i].resourceId), db.resources);
    k := FirstAt(ProductIs(db.resources[j].productId), db.products);
  }

  // ---- The service ----

  class BillingService {
    var accounts: map<string, A.Account>
    var products: seq<Product>
    var resources: seq<Resource>
    var apiKeys: seq<ApiKey>
    var nextId: nat

    ghost function Tables(): Db
      reads this
    {
      Db(accounts, products, resources, apiKeys, nextId)
    }

    constructor ()
      ensures Tables() == EMPTY
    {
      accounts, products, resources, apiKeys, nextId := map[], [], [], [], 0;
    }

    // setPlan
    method SetPlan(accountId: string, planInput: string) returns (ok: bool)
      modifies this
      ensures Tables() == ChangePlan(old(Tables()), accountId, A.NormalizePlanId(planInput))
      ensures ok <==> accountId in old(accounts)
    {
      if accountId !in accounts {
        return false;
      }
      var account := A.WithPlan(accounts[accountId], A.NormalizePlanId(planInput));
      accounts := accounts[accountId := account];
      EnforceProductQuota(accountId, account.maxProducts);
      return true;
    }

    method FindActive(accountId: string) returns (ids: seq<nat>)
      ensures ids == ActiveIds(products, accountId)
    {
      ids := [];
      for i := 0 to |products|
        invariant ids == ActiveIds(products[..i], accountId)
      {
        assert products[..i + 1][..i] == products[..i];
        if products[i].accountId == accountId && !products[i].archived {
          ids := ids + [products[i].id];
        }
      }
      assert products[..|products|] == products;
    }

    // enforceProductQuota
    method EnforceProductQuota(accountId: string, maxProducts: int)
      modifies this
      ensures Tables() == EnforceQuota(old(Tables()), accountId, maxProducts)
    {
      hide Updated, ActiveIds;
      var found := FindActive(accountId);
      var extras := SliceFrom(found, maxProducts);
      for i := 0 to |extras|
        invariant Tables() == ArchiveAll(old(Tables()), extras[..i])
      {
        assert extras[..i + 1][..i] == extras[..i];
        SaveArchived(extras[i]);
        SuspendResources(extras[i]);
      }
      assert extras[..|extras|] == extras;
    }

    method SaveArchived(productId: nat)
      modifies this`products
      ensures products == Updated(Archiving(productId), old(products))
    {
      for i := 0 to |products|
        invariant |products| == |old(products)|
        invariant forall j | 0 <= j < |products| ::
                    products[j] == if j < i then Archiving(productId)(old(products)[j]) else old(products)[j]
      {
        if products[i].id == productId {
          products := products[i := products[i].(archived := true)];
        }
      }
    }

    method SuspendResources(productId: nat)
      modifies this`resources
      ensures resources == Updated(Suspending(productId), old(resources))
    {
      for i := 0 to |resources|
        invariant |resources| == |old(resources)|
        invariant forall j | 0 <= j < |resources| ::
                    resources[j] == if j < i then Suspending(productId)(old(resources)[j]) else old(resources)[j]
      {
        if resources[i].productId == productId {
          resources := resources[i := resources[i].(status := Suspended)];
        }
      }
    }

    // archiveProduct
    method ArchiveProduct(accountId: string, productId: nat) returns (ok: bool)
      modifies this
      ensures Tables() == Archive(old(Tables()), accountId, productId)
      ensures !ok ==> Tables() == old(Tables())
      ensures ok <==> exists k | 0 <= k < |old(products)| ::
                        && old(products)[k].id == productId && old(products)[k].accountId == accountId
                        && !old(products)[k].archived
    {
      if First(OwnedActive(accountId, productId), products).None? {
        return false;
      }
      SaveArchived(productId);
      SuspendResources(productId);
      return true;
    }

    // createProduct; `provisioned` is the answer of the remote service.
    method CreateProduct(input: Input, provisioned: bool) returns (r: Creation)
      modifies this
      ensures (Tables(), r) == Create(old(Tables()), input, provisioned)
    {
      hide Updated, Selected, First, ActiveIds, Finish;
      if input.accountId !in accounts {
        return Refused(NotFound);
      }
      var account := accounts[input.accountId];
      if account.status != A.Active {
        return Refused(AccountInactive);
      }
      var active := FindActive(input.accountId);
      if |active| >= account.maxProducts {
        return Refused(QuotaReached);
      }
      var productId := nextId;
      products, nextId := products + [Product(productId, input.accountId, false)], nextId + 1;
      assert Tables() == old(Tables()).(products := products, nextId := nextId);
      r := CreateResourceInternal(productId, input.service, input.walletId);
      assert (Tables(), r) == Begin(old(Tables()), input);
      if r.Refused? {
        return;
      }
      CompleteProvisioning(productId, r.resourceId, provisioned);
      if !provisioned {
        r := Refused(ProvisionFailed);
      }
    }

    // The try block and its rollback: a resource that is gone counts as a failure.
    method CompleteProvisioning(productId: nat, resourceId: nat, provisioned: bool)
      modifies this
      ensures Tables() == Finish(old(Tables()), productId, resourceId, provisioned)
    {
      if provisioned && First(ResourceIs(resourceId), resources).Some? {
        MarkResourceActive(resourceId);
      } else {
        Delete(productId);
      }
    }

    // createResourceInternal
    method CreateResourceInternal(productId: nat, service: Service, walletId: string) returns (r: Creation)
      modifies this
      ensures (Tables(), r) == CreateResource(old(Tables()), productId, service, walletId)
    {
      if !ValidWalletId(walletId) {
        return Refused(BadWalletId);
      }
      if First(Bound(service, walletId), resources).Some? {
        return Refused(Conflict);
      }
      var resource := Resource(nextId, productId, service, walletId, Pending);
      resources, nextId := resources + [resource], nextId + 1;
      var key := ApiKey(nextId, resource.id, false);
      apiKeys, nextId := apiKeys + [key], nextId + 1;
      return Created(productId, resource.id, key.id);
    }

    // markResourceActive
    method MarkResourceActive(resourceId: nat)
      modifies this`resources
      ensures resources == Updated(Activating(resourceId), old(resources))
    {
      for i := 0 to |resources|
        invariant |resources| == |old(resources)|
        invariant forall j | 0 <= j < |resources| ::
                    resources[j] == if j < i then Activating(resourceId)(old(resources)[j]) else old(resources)[j]
      {
        if resources[i].id == resourceId {
          resources := resources[i := resources[i].(status := Active)];
        }
      }
    }

    method Delete(productId: nat)
      modifies this`products, this`resources, this`apiKeys
      ensures Tables() == DeleteProduct(old(Tables()), productId)
    {
      apiKeys := Selected(KeyOfOther(resources, productId), apiKeys);
      resources := Selected(NotOf(productId), resources);
      products := Selected(OtherProduct(productId), products);
    }

    // rotateApiKey
    method RotateApiKey(resourceId: nat) returns (apiKey: Option<nat>)
      modifies this
      ensures (Tables(), apiKey) == Rotate(old(Tables()), resourceId)
    {
      if First(ResourceIs(resourceId), resources).None? {
        return None;
      }
      for i := 0 to |apiKeys|
        invariant |apiKeys| == |old(apiKeys)|
        invariant forall j | 0 <= j < |apiKeys| ::
                    apiKeys[j] == if j < i then RevokingAll(resourceId)(old(apiKeys)[j]) else old(apiKeys)[j]
        invariant Tables() == old(Tables()).(apiKeys := apiKeys)
      {
        if apiKeys[i].resourceId == resourceId && !apiKeys[i].revoked {
          apiKeys := apiKeys[i := apiKeys[i].(revoked := true)];
        }
      }
      assert apiKeys == Updated(RevokingAll(resourceId), old(apiKeys));
      apiKey := Some(nextId);
      apiKeys, nextId := apiKeys + [ApiKey(nextId, resourceId, false)], nextId + 1;
    }

    // validateApiKey: serves a key exactly when the rows that justify it are there.
    method ValidateApiKey(apiKey: Option<nat>, service: Service, walletId: Option<string>) returns (verdict: Verdict)
      requires Linked(Tables()) && PrimaryKeys(Tables())
      ensures verdict == Validate(Tables(), apiKey, service, walletId)
      ensures verdict.Valid? <==>
          exists i: nat, j: nat, k: nat :: ServedBy(Tables(), apiKey, service, walletId, i, j, k)
      ensures forall i: nat, j: nat, k: nat | ServedBy(Tables(), apiKey, service, walletId, i, j, k) ::
                verdict == Valid(products[k].accountId, products[k].id, resources[j].id)
    {
      ValidExactly(Tables(), apiKey, service, walletId);
      hide ServedBy, PrimaryKeys, First;
      if apiKey.None? {
        return MissingKey;
      }
      var found := First(Unrevoked(apiKey.value), apiKeys);
      if found.None? {
        return InvalidKey;
      }
      var resource := First(ResourceIs(found.value.resourceId), resources).value;
      var product := First(ProductIs(resource.productId), products).value;
      if accounts[product.accountId].status != A.Active {
        return InactiveAccount;
      }
      if product.archived {
        return ArchivedProduct;
      }
      if resource.status == Suspended {
        return SuspendedResource;
      }
      if resource.service != service {
        return WrongService;
      }
      if walletId.Some? && walletId.value != "" && walletId.value != resource.walletId {
        return WrongWallet;
      }
      return Valid(product.accountId, product.id, resource.id);
    }
  }
}
