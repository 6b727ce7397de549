// Who may do what to which product, and which answer a refused call gets, said outright.
module ProductOwners {
  import A = Accounts
  import opened Options
  import opened Tables
  import opened Products
  import opened ProductKeys
  import opened ProductQuota
  import opened ProductRuns
  import opened ProductTables

  // ---- Ownership ----

  // An account may archive or patch a product if it is its own and active.
  predicate Owns(db: Db, accountId: string, productId: nat) {
    exists k | 0 <= k < |db.products| ::
      db.products[k].id == productId && db.products[k].accountId == accountId && !db.products[k].archived
  }

  lemma OwnedFound(db: Db, accountId: string, productId: nat)
    ensures First(OwnedActive(accountId, productId), db.products).Some? <==> Owns(db, accountId, productId)
  {
    if First(OwnedActive(accountId, productId), db.products).Some? {
      var k := FirstAt(OwnedActive(accountId, productId), db.products);
    }
  }

  // An archiving changes the tables if and only if the product is the account's own and active; then the
  // product is archived, its resources are suspended, and nothing else changes.
  lemma ArchiveExactly(db: Db, accountId: string, productId: nat)
    requires Inv(db)
    ensures var after := Archive(db, accountId, productId);
            && (after != db <==> Owns(db, accountId, productId))
            && after == db.(products := after.products, resources := after.resources)
            && |after.products| == |db.products| && |after.resources| == |db.resources|
            && (Owns(db, accountId, productId) ==>
                  && (forall k | 0 <= k < |db.products| ::
                        after.products[k] == if db.products[k].id == productId
                                             then Product(productId, accountId, true) else db.products[k])
                  && (forall k | 0 <= k < |db.resources| ::
                        after.resources[k] == if db.resources[k].productId == productId
                                              then db.resources[k].(status := Suspended) else db.resources[k]))
  {
    hide Linked, Updated, Fresh;
    OwnedFound(db, accountId, productId);
    if Owns(db, accountId, productId) {
      var k :| 0 <= k < |db.products| && db.products[k].id == productId && db.products[k].accountId == accountId &&
               !db.products[k].archived;
      var after := Archive(db, accountId, productId);
      assert after.products[k].archived;
      forall j | 0 <= j < |db.products| && db.products[j].id == productId ensures j == k {
        assert j < k ==> ProductPair(db.products[j], db.products[k]);
        assert k < j ==> ProductPair(db.products[k], db.products[j]);
      }
    }
  }

  // An archiving or a patch that is split at its reads and writes begins in exactly that case.
  lemma StartsIfOwned(db: Db, call: nat, accountId: string, productId: nat)
    ensures Started(db, StartArchiving(call, accountId, productId))
         == if Owns(db, accountId, productId) then Some(ToArchive(productId)) else None
    ensures Started(db, StartPatch(call, accountId, productId))
         == if Owns(db, accountId, productId) then Some(Patching(productId)) else None
  {
    OwnedFound(db, accountId, productId);
    hide First;
  }

  // ---- Creations ----

  // The rows of the active products of an account.
  ghost function ActiveRows(products: seq<Product>, accountId: string): set<nat> {
    set k: nat | k < |products| && products[k].accountId == accountId && !products[k].archived
  }

  lemma {:induction false} ActiveCounted(products: seq<Product>, accountId: string)
    ensures |ActiveIds(products, accountId)| == |ActiveRows(products, accountId)|
  {
    var rows := ActiveRows(products, accountId);
    if products == [] {
      assert rows == {};
    } else {
      var n := |products| - 1;
      var last := products[n];
      ActiveCounted(products[..n], accountId);
      assert rows == ActiveRows(products[..n], accountId)
          + if last.accountId == accountId && !last.archived then {n} else {};
    }
  }

  // By their codes: a digit, an upper case letter or a lower case letter.
  predicate LetterOrDigit(code: int) {
    48 <= code <= 57 || 65 <= code <= 90 || 97 <= code <= 122
  }

  // A wallet id: letters, digits and, but for the first character, hyphens, dots and underscores.
  predicate WellFormed(walletId: string) {
    && walletId != "" && LetterOrDigit(walletId[0] as int)
    && forall i | 0 <= i < |walletId| ::
         LetterOrDigit(walletId[i] as int) || walletId[i] as int in {45, 46, 95}
  }

  lemma WellFormedExactly(walletId: string)
    ensures ValidWalletId(walletId) <==> WellFormed(walletId)
  {
  }

  // What a creation by itself is answered: the first refusal in this order, or the new product with its
  // resource and the key of it.
  lemma CreationAnswer(db: Db, input: Input, provisioned: bool)
    ensures var answer := Create(db, input, provisioned).1;
            if input.accountId !in db.accounts then answer == Refused(NotFound)
            else if db.accounts[input.accountId].status != A.Active then answer == Refused(AccountInactive)
            else if |ActiveRows(db.products, input.accountId)| >= db.accounts[input.accountId].maxProducts
              then answer == Refused(QuotaReached)
            else if !WellFormed(input.walletId) then answer == Refused(BadWalletId)
            else if Taken(db, input) then answer == Refused(Conflict)
            else if !provisioned then answer == Refused(ProvisionFailed)
            else answer == Created(db.nextId, db.nextId + 1, db.nextId + 2)
  {
    ActiveCounted(db.products, input.accountId);
    WellFormedExactly(input.walletId);
    hide ActiveIds, ActiveRows, ValidWalletId, WellFormed, Finish;
    assert Taken(db, input)
      <==> First(Bound(input.service, input.walletId), db.resources).Some?;
  }

  // ---- Keys ----

  // What the use of a key is answered: the key must be given, have an unrevoked row, and then pass these
  // checks in this order on its resource, product and account.
  lemma KeyAnswer(db: Db, key: nat, service: Service, walletId: Option<string>)
    requires Inv(db)
    ensures Validate(db, None, service, walletId) == MissingKey
    ensures (forall i | 0 <= i < |db.apiKeys| && db.apiKeys[i].id == key :: db.apiKeys[i].revoked) ==>
              Validate(db, Some(key), service, walletId) == InvalidKey
    ensures forall i, j, k |
              && 0 <= i < |db.apiKeys| && db.apiKeys[i].id == key && !db.apiKeys[i].revoked
              && 0 <= j < |db.resources| && db.resources[j].id == db.apiKeys[i].resourceId
              && 0 <= k < |db.products| && db.products[k].id == db.resources[j].productId ::
              var resource, product, verdict :=
                db.resources[j], db.products[k], Validate(db, Some(key), service, walletId);
              && product.accountId in db.accounts
              && if db.accounts[product.accountId].status != A.Active then verdict == InactiveAccount
                 else if product.archived then verdict == ArchivedProduct
                 else if resource.status == Suspended then verdict == SuspendedResource
                 else if resource.service != service then verdict == WrongService
                 else if walletId.Some? && walletId.value != "" && walletId.value != resource.walletId
                   then verdict == WrongWallet
                 else verdict == Valid(product.accountId, product.id, resource.id)
  {
    hide First, ResourcesLinked, KeysLinked, Fresh, Pairwise;
    UniqueRows(db);
    forall i, j, k |
      && 0 <= i < |db.apiKeys| && db.apiKeys[i].id == key && !db.apiKeys[i].revoked
      && 0 <= j < |db.resources| && db.resources[j].id == db.apiKeys[i].resourceId
      && 0 <= k < |db.products| && db.products[k].id == db.resources[j].productId
      ensures First(Unrevoked(key), db.apiKeys) == Some(db.apiKeys[i])
      ensures First(ResourceIs(db.apiKeys[i].resourceId), db.resources) == Some(db.resources[j])
      ensures First(ProductIs(db.resources[j].productId), db.products) == Some(db.products[k]) {
      FirstUnique(Unrevoked(key), db.apiKeys, i);
      FirstUnique(ResourceIs(db.resources[j].id), db.resources, j);
      FirstUnique(ProductIs(db.products[k].id), db.products, k);
    }
  }
  // A rotation revokes the keys of its resource and no others, and adds one live key; without the
  // resource it does nothing.
  lemma RotationEffect(db: Db, resourceId: nat)
    ensures var (after, key) := Rotate(db, resourceId);
            if forall j | 0 <= j < |db.resources| :: db.resources[j].id != resourceId then (after, key) == (db, None)
            else
              && key == Some(db.nextId) && after == db.(apiKeys := after.apiKeys, nextId := db.nextId + 1)
              && |after.apiKeys| == |db.apiKeys| + 1
              && after.apiKeys[|db.apiKeys|] == ApiKey(db.nextId, resourceId, false)
              && forall i | 0 <= i < |db.apiKeys| ::
                   after.apiKeys[i] == if db.apiKeys[i].resourceId == resourceId
                                       then db.apiKeys[i].(revoked := true) else db.apiKeys[i]
  {
  }

  // A revocation by id revokes that key and no other.
  lemma RevocationEffect(db: Db, key: nat)
    ensures var after := Revoke(db, key);
            && after == db.(apiKeys := after.apiKeys) && |after.apiKeys| == |db.apiKeys|
            && forall i | 0 <= i < |db.apiKeys| ::
                 after.apiKeys[i] == if db.apiKeys[i].id == key then db.apiKeys[i].(revoked := true) else db.apiKeys[i]
  {
  }

  // ---- Accounts ----

  // A change of status, of the product quota or of the plan changes just that; only a plan brings its
  // own limits.
  lemma ChangeEffect(account: A.Account, status: A.AccountStatus, maxProducts: int, plan: A.PlanId)
    ensures Changed(account, NewStatus(status)) == account.(status := status)
    ensures Changed(account, NewQuota(maxProducts)) == account.(maxProducts := maxProducts)
    ensures Changed(account, NewPlan(plan)).status == account.status && Changed(account, NewPlan(plan)).plan == plan
    ensures Changed(account, NewPlan(A.Business))
         == A.Account(account.status, A.Business, 20, 3_000, 1_000_000)
  {
  }
}
