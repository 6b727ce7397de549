// Runs that show what overlapping calls can break.
module ProductOverlaps {
  import A = Accounts
  import opened Options
  import opened Tables
  import opened Products
  import opened ProductKeys
  import opened ProductQuota
  import opened ProductRuns
  import opened ProductStages
  import opened ProductTables

  // ---- One creation and something else ----

  const WALLET := "w"
  const FIRST := [ApiKey(2, 1, false)]
  const REVOKED := [ApiKey(2, 1, true)]

  function Opened(id: string): Db {
    Db(map[id := A.NewAccount(A.Free)], [], [], [], 0)
  }

  function WithProduct(id: string): Db {
    Opened(id).(products := [Product(0, id, false)], nextId := 1)
  }

  function WithResource(id: string, service: Service): Db {
    WithProduct(id).(resources := [Resource(1, 0, service, WALLET, Pending)], nextId := 2)
  }

  function WithKey(id: string, service: Service): Db {
    WithResource(id, service).(apiKeys := [ApiKey(2, 1, false)], nextId := 3)
  }

  function Tenant(id: string, service: Service, keys: seq<ApiKey>, nextId: nat): Db {
    var resource := Resource(1, 0, service, WALLET, Active);
    Db(map[id := A.NewAccount(A.Free)], [Product(0, id, false)], [resource], keys, nextId)
  }

  function ToProduct(id: string, service: Service): seq<Step> {
    [Do(OpenAccount(id, A.Free))] + [StartCreation(0, Input(id, service, WALLET))] + [Advance(0)] + [Advance(0)]
  }

  function ToResource(id: string, service: Service): seq<Step> { ToProduct(id, service) + [Advance(0)] }

  function ToKey(id: string, service: Service): seq<Step> { ToResource(id, service) + [Advance(0)] }

  function ToTenant(id: string, service: Service): seq<Step> { ToKey(id, service) + [Complete(0, true)] }

  lemma AccountOpens(id: string)
    ensures Next(EMPTY_WORLD, Do(OpenAccount(id, A.Free))) == World(Opened(id), map[])
  {
  }

  lemma CreationStarts(input: Input, flight: map<nat, Stage>, call: nat)
    requires call !in flight
    ensures Next(World(Opened(input.accountId), flight), StartCreation(call, input))
         == World(Opened(input.accountId), flight[call := Admitting(input, A.NewAccount(A.Free).maxProducts)])
  {
  }

  lemma CreationCounts(input: Input, flight: map<nat, Stage>, call: nat)
    requires call in flight && flight[call] == Admitting(input, A.NewAccount(A.Free).maxProducts)
    ensures Next(World(Opened(input.accountId), flight), Advance(call))
         == World(Opened(input.accountId), flight[call := Counted(input)])
  {
    assert ActiveIds([], input.accountId) == [];
  }

  lemma CreationAdvances(id: string, service: Service)
    ensures var input := Input(id, service, WALLET);
            && Next(World(Opened(id), map[0 := Counted(input)]), Advance(0))
            == World(WithProduct(id), map[0 := HasProduct(input, 0)])
            && Next(World(WithProduct(id), map[0 := HasProduct(input, 0)]), Advance(0))
            == World(WithResource(id, service), map[0 := HasResource(0, 1)])
            && Next(World(WithResource(id, service), map[0 := HasResource(0, 1)]), Advance(0))
            == World(WithKey(id, service), map[0 := HasKey(0, 1)])
  {
    assert ValidWalletId(WALLET);
  }

  lemma CreationCompletes(id: string, service: Service)
    ensures Next(World(WithKey(id, service), map[0 := HasKey(0, 1)]), Complete(0, true))
         == World(Tenant(id, service, FIRST, 3), map[])
  {
    TenantActive(id, service);
    hide Finish, WithKey, Tenant;
    var one: map<nat, Stage> := map[0 := HasKey(0, 1)];
    assert one - {0} == map[];
  }

  lemma TenantActive(id: string, service: Service)
    ensures Finish(WithKey(id, service), 0, 1, true) == Tenant(id, service, FIRST, 3)
  {
    assert ResourceIs(1)(WithKey(id, service).resources[0]);
  }

  lemma CreationUnderWay(id: string, service: Service)
    ensures var input := Input(id, service, WALLET);
            && Run(EMPTY_WORLD, ToProduct(id, service)) == World(WithProduct(id), map[0 := HasProduct(input, 0)])
            && Run(EMPTY_WORLD, ToResource(id, service))
            == World(WithResource(id, service), map[0 := HasResource(0, 1)])
            && Run(EMPTY_WORLD, ToKey(id, service)) == World(WithKey(id, service), map[0 := HasKey(0, 1)])
            && Run(EMPTY_WORLD, ToTenant(id, service)) == World(Tenant(id, service, FIRST, 3), map[])
  {
    var input := Input(id, service, WALLET);
    var none: map<nat, Stage> := map[];
    var admitting := Admitting(input, A.NewAccount(A.Free).maxProducts);
    assert none[0 := admitting] == map[0 := admitting];
    assert none[0 := admitting][0 := Counted(input)] == map[0 := Counted(input)];
    AccountOpens(id);
    CreationStarts(input, none, 0);
    CreationCounts(input, none[0 := admitting], 0);
    CreationAdvances(id, service);
    CreationCompletes(id, service);
    hide Next, Opened, WithProduct, WithResource, WithKey, Tenant;
    var s1 := [Do(OpenAccount(id, A.Free))];
    var s2 := s1 + [StartCreation(0, input)];
    var s3 := s2 + [Advance(0)];
    assert [] + s1 == s1 && Run(EMPTY_WORLD, []) == EMPTY_WORLD;
    RunSnoc(EMPTY_WORLD, [], Do(OpenAccount(id, A.Free)));
    RunSnoc(EMPTY_WORLD, s1, StartCreation(0, input));
    RunSnoc(EMPTY_WORLD, s2, Advance(0));
    RunSnoc(EMPTY_WORLD, s3, Advance(0));
    RunSnoc(EMPTY_WORLD, ToProduct(id, service), Advance(0));
    RunSnoc(EMPTY_WORLD, ToResource(id, service), Advance(0));
    RunSnoc(EMPTY_WORLD, ToKey(id, service), Complete(0, true));
  }

  lemma ArchivesZero(db: Db, id: string)
    requires db.products == [Product(0, id, false)]
    ensures Perform(db, ArchiveProduct(id, 0)).products == [Product(0, id, true)]
    ensures |Perform(db, ArchiveProduct(id, 0)).resources| == |db.resources|
    ensures forall i | 0 <= i < |db.resources| ::
              Perform(db, ArchiveProduct(id, 0)).resources[i] == Suspending(0)(db.resources[i])
  {
    assert OwnedActive(id, 0)(db.products[0]);
  }

  // A product archived while its tenant is being provisioned ends up with an active resource.
  lemma LateFinishReachable(id: string, service: Service)
    ensures var steps := ToKey(id, service) + [Do(ArchiveProduct(id, 0))] + [Complete(0, true)];
            !ArchivedSuspended(Run(EMPTY_WORLD, steps).db)
  {
    CreationUnderWay(id, service);
    var s := ToKey(id, service) + [Do(ArchiveProduct(id, 0))];
    RunSnoc(EMPTY_WORLD, ToKey(id, service), Do(ArchiveProduct(id, 0)));
    RunSnoc(EMPTY_WORLD, s, Complete(0, true));
    ArchivesZero(WithKey(id, service), id);
    var w := Run(EMPTY_WORLD, s);
    EmptyWorldOk();
    RunKeepsWorld(EMPTY_WORLD, s);
    assert w.db.products[0].archived && w.db.resources[0].id == 1 && w.db.resources[0].productId == 0;
    assert IsArchived(w.db, 0) && LateFinish(w, Complete(0, true));
    OnlyResourceSuspended(w.db);
    hide Run, Next, WorldOk, LateFinish;
    StepArchivedExact(w, Complete(0, true));
  }

  lemma OnlyResourceSuspended(db: Db)
    requires forall i | 0 <= i < |db.resources| :: db.resources[i].status.Suspended?
    ensures ArchivedSuspended(db)
  {
  }

  // A product archived before its resource row is written ends up with a pending resource.
  lemma LateResourceReachable(id: string, service: Service)
    ensures var steps := ToProduct(id, service) + [Do(ArchiveProduct(id, 0))] + [Advance(0)];
            !ArchivedSuspended(Run(EMPTY_WORLD, steps).db)
  {
    CreationUnderWay(id, service);
    var s := ToProduct(id, service) + [Do(ArchiveProduct(id, 0))];
    RunSnoc(EMPTY_WORLD, ToProduct(id, service), Do(ArchiveProduct(id, 0)));
    RunSnoc(EMPTY_WORLD, s, Advance(0));
    ArchivedBare(id, service);
    var w := Run(EMPTY_WORLD, s);
    EmptyWorldOk();
    RunKeepsWorld(EMPTY_WORLD, s);
    hide Run, Next, WorldOk, LateResource, ArchivedSuspended;
    StepArchivedExact(w, Advance(0));
  }

  lemma ArchivedBare(id: string, service: Service)
    ensures var flight: map<nat, Stage> := map[0 := HasProduct(Input(id, service, WALLET), 0)];
            var w := Next(World(WithProduct(id), flight), Do(ArchiveProduct(id, 0)));
            ArchivedSuspended(w.db) && LateResource(w, Advance(0))
  {
    ArchivesZero(WithProduct(id), id);
    hide Perform;
    var db := Perform(WithProduct(id), ArchiveProduct(id, 0));
    assert db.products[0].archived && ValidWalletId(WALLET);
  }

  lemma RotatesOne(db: Db)
    requires |db.resources| == 1 && db.resources[0].id == 1 && db.apiKeys == [] && db.nextId == 2
    ensures Perform(db, RotateApiKey(1)).apiKeys == [ApiKey(2, 1, false)]
    ensures OneLive(Perform(db, RotateApiKey(1)))
  {
    assert ResourceIs(1)(db.resources[0]);
  }

  // A rotation before the first key is written leaves the resource with two live keys.
  lemma LateKeyReachable(id: string, service: Service)
    ensures var steps := ToResource(id, service) + [Do(RotateApiKey(1))] + [Advance(0)];
            !OneLive(Run(EMPTY_WORLD, steps).db)
  {
    CreationUnderWay(id, service);
    var s := ToResource(id, service) + [Do(RotateApiKey(1))];
    RunSnoc(EMPTY_WORLD, ToResource(id, service), Do(RotateApiKey(1)));
    RunSnoc(EMPTY_WORLD, s, Advance(0));
    var w := Run(EMPTY_WORLD, s);
    RotatesOne(WithResource(id, service));
    hide Perform;
    assert w.db.apiKeys[0].resourceId == 1 && HasLiveKey(w.db, 1);
    assert LateKey(w, Advance(0));
    hide HasLiveKey;
    EmptyWorldOk();
    RunKeepsWorld(EMPTY_WORLD, s);
    hide Run, Next, WorldOk, LateKey;
    StepOneLiveExact(w, Advance(0));
  }

  lemma CountedAdvances(w: World, call: nat, input: Input)
    requires call in w.flight && w.flight[call] == Counted(input)
    ensures Next(w, Advance(call))
         == World(AddProduct(w.db, input.accountId), w.flight[call := HasProduct(input, w.db.nextId)])
  {
  }

  function Counting(input: Input): seq<Step> {
    [Do(OpenAccount(input.accountId, A.Free))]
      + [StartCreation(0, input)] + [StartCreation(1, input)] + [StartCreation(2, input)]
      + [Advance(0)] + [Advance(1)] + [Advance(2)]
  }

  lemma ThreeStart(input: Input, steps: seq<Step>)
    requires steps == [Do(OpenAccount(input.accountId, A.Free))]
                      + [StartCreation(0, input)] + [StartCreation(1, input)] + [StartCreation(2, input)]
    ensures var admitting := Admitting(input, A.NewAccount(A.Free).maxProducts);
            var none: map<nat, Stage> := map[];
            Run(EMPTY_WORLD, steps)
            == World(Opened(input.accountId), none[0 := admitting][1 := admitting][2 := admitting])
  {
    var none: map<nat, Stage> := map[];
    var admitting := Admitting(input, A.NewAccount(A.Free).maxProducts);
    AccountOpens(input.accountId);
    CreationStarts(input, none, 0);
    CreationStarts(input, none[0 := admitting], 1);
    CreationStarts(input, none[0 := admitting][1 := admitting], 2);
    var s1 := [Do(OpenAccount(input.accountId, A.Free))];
    var s2 := s1 + [StartCreation(0, input)];
    var s3 := s2 + [StartCreation(1, input)];
    OneStep(EMPTY_WORLD, Do(OpenAccount(input.accountId, A.Free)));
    hide Run, Next, Opened;
    RunSnoc(EMPTY_WORLD, s1, StartCreation(0, input));
    RunSnoc(EMPTY_WORLD, s2, StartCreation(1, input));
    RunSnoc(EMPTY_WORLD, s3, StartCreation(2, input));
  }

  lemma ThreeCount(input: Input)
    ensures var w := Run(EMPTY_WORLD, Counting(input));
            && w.db == Opened(input.accountId)
            && w.flight.Keys == {0, 1, 2} && forall call | call in w.flight :: w.flight[call] == Counted(input)
  {
    var none: map<nat, Stage> := map[];
    var admitting, counted := Admitting(input, A.NewAccount(A.Free).maxProducts), Counted(input);
    var f := none[0 := admitting][1 := admitting][2 := admitting];
    var s := [Do(OpenAccount(input.accountId, A.Free))]
             + [StartCreation(0, input)] + [StartCreation(1, input)] + [StartCreation(2, input)];
    ThreeStart(input, s);
    CreationCounts(input, f, 0);
    CreationCounts(input, f[0 := counted], 1);
    CreationCounts(input, f[0 := counted][1 := counted], 2);
    hide Run, Next, Opened;
    RunSnoc(EMPTY_WORLD, s, Advance(0));
    RunSnoc(EMPTY_WORLD, s + [Advance(0)], Advance(1));
    RunSnoc(EMPTY_WORLD, s + [Advance(0)] + [Advance(1)], Advance(2));
  }

  // Three creations that count before any of them writes.
  function Crowding(input: Input): seq<Step> {
    Counting(input) + [Advance(0)] + [Advance(1)] + [Advance(2)]
  }

  function Crowded(id: string): Db {
    var products := [] + [Product(0, id, false)] + [Product(1, id, false)] + [Product(2, id, false)];
    Opened(id).(products := products, nextId := 3)
  }

  lemma CrowdedRun(input: Input)
    ensures var w := Run(EMPTY_WORLD, Crowding(input));
            && w.db == Crowded(input.accountId)
            && w.flight.Keys == {0, 1, 2} && w.flight[2] == HasProduct(input, 2)
  {
    ThreeCount(input);
    ThreeProducts(input.accountId);
    hide Run, Next, Opened, AddProduct, Counting, Crowded;
    var s := Counting(input);
    var w := Run(EMPTY_WORLD, s);
    CountedAdvances(w, 0, input);
    RunSnoc(EMPTY_WORLD, s, Advance(0));
    var w1 := Next(w, Advance(0));
    CountedAdvances(w1, 1, input);
    RunSnoc(EMPTY_WORLD, s + [Advance(0)], Advance(1));
    var w2 := Next(w1, Advance(1));
    CountedAdvances(w2, 2, input);
    RunSnoc(EMPTY_WORLD, s + [Advance(0)] + [Advance(1)], Advance(2));
  }

  lemma ThreeProducts(id: string)
    ensures AddProduct(AddProduct(AddProduct(Opened(id), id), id), id) == Crowded(id)
    ensures AddProduct(AddProduct(Opened(id), id), id).nextId == 2
  {
  }

  lemma CrowdedActive(id: string)
    ensures ActiveIds(Crowded(id).products, id) == [0, 1, 2]
  {
    hide ActiveIds;
    assert ActiveIds([], id) == [] by { NoneActive(id); }
    ActiveSnoc([], id, Product(0, id, false));
    ActiveSnoc([] + [Product(0, id, false)], id, Product(1, id, false));
    ActiveSnoc([] + [Product(0, id, false)] + [Product(1, id, false)], id, Product(2, id, false));
  }

  // It takes an account past its two products.
  lemma QuotaOverlapReachable(id: string, service: Service)
    ensures !WithinQuota(Run(EMPTY_WORLD, Crowding(Input(id, service, WALLET))).db, id)
  {
    CrowdedRun(Input(id, service, WALLET));
    CrowdedActive(id);
    hide Run, Crowding, ActiveIds;
  }

  // A change of plan that reads the surplus product before its resource is written, and archives it
  // after, leaves it with a pending resource.
  lemma LateArchivingReachable(id: string, service: Service)
    ensures var steps := Crowding(Input(id, service, WALLET)) + [StartChange(3, id, NewPlan(A.Free))]
                         + [Advance(3)] + [Advance(3)] + [Advance(2)] + [Advance(3)];
            !ArchivedSuspended(Run(EMPTY_WORLD, steps).db)
  {
    var input := Input(id, service, WALLET);
    var s := Crowding(input);
    CrowdedRun(input);
    hide Run, Next, Crowding, Crowded, ArchivedSuspended;
    var s1 := s + [StartChange(3, id, NewPlan(A.Free))];
    RunSnoc(EMPTY_WORLD, s, StartChange(3, id, NewPlan(A.Free)));
    RunSnoc(EMPTY_WORLD, s1, Advance(3));
    RunSnoc(EMPTY_WORLD, s1 + [Advance(3)], Advance(3));
    RunSnoc(EMPTY_WORLD, s1 + [Advance(3)] + [Advance(3)], Advance(2));
    RunSnoc(EMPTY_WORLD, s1 + [Advance(3)] + [Advance(3)] + [Advance(2)], Advance(3));
    var flight := Run(EMPTY_WORLD, s).flight;
    SurplusRead(id, flight);
    SurplusArchivedLate(input, flight[3 := Saving([SaveProduct(2)])]);
  }

  lemma SurplusRead(id: string, flight: map<nat, Stage>)
    requires 3 !in flight
    ensures Next(Next(Next(World(Crowded(id), flight), StartChange(3, id, NewPlan(A.Free))), Advance(3)), Advance(3))
         == World(Crowded(id), flight[3 := Saving([SaveProduct(2)])])
  {
    var w, account := World(Crowded(id), flight), A.NewAccount(A.Free);
    CrowdedActive(id);
    PlanRead(w, 3, id, A.Free);
    PlanAdvances(w.db, flight, 3, id, account);
    hide Next, ActiveIds;
    assert SurplusSaves([], [2]) == [SaveProduct(2)];
    assert WithAccount(w.db, id, account) == w.db;
  }

  lemma SurplusArchivedLate(input: Input, flight: map<nat, Stage>)
    requires 2 in flight && flight[2] == HasProduct(input, 2) && input.walletId == WALLET
    requires 3 in flight && flight[3] == Saving([SaveProduct(2)])
    ensures !ArchivedSuspended(Next(Next(World(Crowded(input.accountId), flight), Advance(2)), Advance(3)).db)
  {
    var db := AddResource(Crowded(input.accountId), 2, input.service, WALLET);
    assert ValidWalletId(WALLET);
    var after := Saved(db, SaveProduct(2));
    assert after.products[2].archived && after.resources[0].productId == after.products[2].id;
    assert !ArchivedSuspended(after);
    hide ArchivedSuspended, Saved;
    assert Next(World(Crowded(input.accountId), flight), Advance(2)).db == db;
  }

  // A patch that read a product before it was archived and its creation that ends after bring it back.
  lemma ReopenedReachable(id: string, service: Service)
    ensures var steps := ToKey(id, service) + [StartPatch(1, id, 0)] + [Do(ArchiveProduct(id, 0))] + [Advance(1)]
                         + [Complete(0, true)];
            Validate(Run(EMPTY_WORLD, steps).db, Some(2), service, Some(WALLET)) == Valid(id, 0, 1)
  {
    CreationUnderWay(id, service);
    var s := ToKey(id, service);
    var s1 := s + [StartPatch(1, id, 0)];
    RunSnoc(EMPTY_WORLD, s, StartPatch(1, id, 0));
    RunSnoc(EMPTY_WORLD, s1, Do(ArchiveProduct(id, 0)));
    RunSnoc(EMPTY_WORLD, s1 + [Do(ArchiveProduct(id, 0))], Advance(1));
    RunSnoc(EMPTY_WORLD, s1 + [Do(ArchiveProduct(id, 0))] + [Advance(1)], Complete(0, true));
    TenantServes(id, service, FIRST, 3, 0);
    hide Run, ToKey, Validate;
    PatchedBack(id, service);
  }

  function Shelved(id: string, service: Service, archived: bool): Db {
    var resource := Resource(1, 0, service, WALLET, Suspended);
    WithKey(id, service).(products := [Product(0, id, archived)], resources := [resource])
  }

  lemma ShelvedTables(id: string, service: Service)
    ensures Perform(WithKey(id, service), ArchiveProduct(id, 0)) == Shelved(id, service, true)
    ensures Restored(Shelved(id, service, true), 0) == Shelved(id, service, false)
    ensures Finish(Shelved(id, service, false), 0, 1, true) == Tenant(id, service, FIRST, 3)
  {
    ArchivesZero(WithKey(id, service), id);
    assert ResourceIs(1)(Shelved(id, service, false).resources[0]);
    assert OwnedActive(id, 0)(WithKey(id, service).products[0]);
  }

  lemma PatchedBack(id: string, service: Service)
    ensures var w := World(WithKey(id, service), map[0 := HasKey(0, 1)]);
            Next(Next(Next(Next(w, StartPatch(1, id, 0)), Do(ArchiveProduct(id, 0))), Advance(1)), Complete(0, true)).db
            == Tenant(id, service, FIRST, 3)
  {
    ShelvedTables(id, service);
    var w := World(WithKey(id, service), map[0 := HasKey(0, 1)]);
    PatchStarts(w, id);
    var flight := w.flight[1 := Patching(0)];
    PatchEnds(World(Shelved(id, service, true), flight), 1, 0);
    CreationFinishes(World(Shelved(id, service, false), flight - {1}), 0, 0, 1);
    hide Perform, Restored, Finish, WithKey, Shelved, Tenant, Advanced;
    assert Next(World(WithKey(id, service), flight), Do(ArchiveProduct(id, 0)))
        == World(Shelved(id, service, true), flight);
    hide Next;
  }

  lemma PatchEnds(w: World, call: nat, productId: nat)
    requires call in w.flight && w.flight[call] == Patching(productId)
    ensures Next(w, Advance(call)) == World(Restored(w.db, productId), w.flight - {call})
  {
    hide Restored;
  }

  lemma CreationFinishes(w: World, call: nat, productId: nat, resourceId: nat)
    requires call in w.flight && w.flight[call] == HasKey(productId, resourceId)
    ensures Next(w, Complete(call, true)) == World(Finish(w.db, productId, resourceId, true), w.flight - {call})
  {
    hide Finish;
  }

  lemma PatchStarts(w: World, id: string)
    requires w.db.products == [Product(0, id, false)] && 1 !in w.flight
    ensures Next(w, StartPatch(1, id, 0)) == w.(flight := w.flight[1 := Patching(0)])
  {
    assert OwnedActive(id, 0)(w.db.products[0]);
  }

  lemma NoneActive(id: string)
    ensures ActiveIds([], id) == []
  {
  }

  // An account may reach the wallet id it already uses: the next creation under it is admitted, fails
  // and leaves a product behind.
  lemma TakenReachable(id: string, service: Service, provisioned: bool)
    ensures var input := Input(id, service, WALLET);
            var db := Run(EMPTY_WORLD, ToTenant(id, service)).db;
            && Admitted(db, id) && Taken(db, input)
            && var (after, r) := Create(db, input, provisioned);
               r == Refused(Conflict) && |ActiveIds(after.products, id)| == |ActiveIds(db.products, id)| + 1
  {
    var input := Input(id, service, WALLET);
    CreationUnderWay(id, service);
    EmptyWorldOk();
    RunKeepsInv(ToTenant(id, service));
    OneProduct(id, service);
    hide Run, WorldOk, Inv, Tenant;
    var db := Run(EMPTY_WORLD, ToTenant(id, service)).db;
    CreateExact(db, input, provisioned);
    RefusedAsTaken(db, input, provisioned);
  }

  lemma OneProduct(id: string, service: Service)
    ensures var db := Tenant(id, service, FIRST, 3);
            Admitted(db, id) && Taken(db, Input(id, service, WALLET))
  {
    var db := Tenant(id, service, FIRST, 3);
    assert db.resources[0].service == service && db.resources[0].walletId == WALLET;
  }

  lemma RefusedAsTaken(db: Db, input: Input, provisioned: bool)
    requires Admitted(db, input.accountId) && Taken(db, input) && ValidWalletId(input.walletId)
    ensures Create(db, input, provisioned).1 == Refused(Conflict)
  {
    hide ActiveIds, ValidWalletId;
    assert AddProduct(db, input.accountId).resources == db.resources;
  }

  // ---- Overlapping calls on the keys of one resource ----

  lemma TenantStarts(id: string, service: Service, keys: seq<ApiKey>, nextId: nat, flight: map<nat, Stage>, call: nat)
    requires call !in flight
    ensures var db := Tenant(id, service, keys, nextId);
            Next(World(db, flight), StartRotation(call, 1))
            == World(db, flight[call := Rotating(1, LiveKeys(keys, 1))])
  {
    hide LiveKeys;
    assert ResourceIs(1)(Tenant(id, service, keys, nextId).resources[0]);
  }

  lemma TenantRevokes(id: string, service: Service, keys: seq<ApiKey>, nextId: nat, flight: map<nat, Stage>, call: nat,
      left: seq<nat>)
    requires call in flight && flight[call] == Rotating(1, left) && left != []
    ensures Next(World(Tenant(id, service, keys, nextId), flight), Advance(call))
         == World(Tenant(id, service, Updated(Revoking(left[0]), keys), nextId),
                  flight[call := Rotating(1, left[1..])])
  {
    hide Updated;
    assert ResourceIs(1)(Tenant(id, service, keys, nextId).resources[0]);
  }

  lemma TenantInserts(id: string, service: Service, keys: seq<ApiKey>, nextId: nat, flight: map<nat, Stage>, call: nat)
    requires call in flight && flight[call] == Rotating(1, [])
    ensures Next(World(Tenant(id, service, keys, nextId), flight), Advance(call))
         == World(Tenant(id, service, keys + [ApiKey(nextId, 1, false)], nextId + 1), flight - {call})
  {
    assert ResourceIs(1)(Tenant(id, service, keys, nextId).resources[0]);
  }

  lemma TenantServes(id: string, service: Service, keys: seq<ApiKey>, nextId: nat, i: nat)
    requires i < |keys| && keys[i].resourceId == 1 && !keys[i].revoked
    requires forall j | 0 <= j < |keys| && keys[j].id == keys[i].id :: j == i
    ensures Validate(Tenant(id, service, keys, nextId), Some(keys[i].id), service, Some(WALLET)) == Valid(id, 0, 1)
  {
    var db := Tenant(id, service, keys, nextId);
    hide First;
    FirstUnique(Unrevoked(keys[i].id), keys, i);
    FirstUnique(ResourceIs(1), db.resources, 0);
    FirstUnique(ProductIs(0), db.products, 0);
  }

  lemma TenantTwoLive(id: string, service: Service, keys: seq<ApiKey>, nextId: nat, i: nat, j: nat)
    requires i < j < |keys| && keys[i].resourceId == keys[j].resourceId && !keys[i].revoked && !keys[j].revoked
    ensures !OneLive(Tenant(id, service, keys, nextId))
  {
    assert !LivePair(keys[i], keys[j]);
  }

  lemma KeyTables()
    ensures LiveKeys(FIRST, 1) == [2]
    ensures Updated(Revoking(2), FIRST) == REVOKED
    ensures Updated(Revoking(2), REVOKED + [ApiKey(3, 1, false)]) == REVOKED + [ApiKey(3, 1, false)]
    ensures Updated(Reviving(2), REVOKED) == FIRST
    ensures Updated(Reviving(2), REVOKED + [ApiKey(3, 1, false)]) == FIRST + [ApiKey(3, 1, false)]
  {
  }

  // Two rotations of one resource that both read its key before either writes.
  function TwoRotations(id: string, service: Service): seq<Step> {
    ToTenant(id, service) + [StartRotation(1, 1)] + [StartRotation(2, 1)]
      + [Advance(1)] + [Advance(1)] + [Advance(2)] + [Advance(2)]
  }

  lemma TwoRotationsRun(id: string, service: Service)
    ensures Run(EMPTY_WORLD, TwoRotations(id, service))
         == World(Tenant(id, service, REVOKED + [ApiKey(3, 1, false)] + [ApiKey(4, 1, false)], 5), map[])
  {
    CreationUnderWay(id, service);
    KeyTables();
    hide Run, Next, Tenant, ToTenant, LiveKeys, Updated;
    var s := ToTenant(id, service);
    var s1 := s + [StartRotation(1, 1)];
    var s2 := s1 + [StartRotation(2, 1)];
    RunSnoc(EMPTY_WORLD, s, StartRotation(1, 1));
    RunSnoc(EMPTY_WORLD, s1, StartRotation(2, 1));
    RunSnoc(EMPTY_WORLD, s2, Advance(1));
    RunSnoc(EMPTY_WORLD, s2 + [Advance(1)], Advance(1));
    RunSnoc(EMPTY_WORLD, s2 + [Advance(1)] + [Advance(1)], Advance(2));
    RunSnoc(EMPTY_WORLD, s2 + [Advance(1)] + [Advance(1)] + [Advance(2)], Advance(2));
    var none: map<nat, Stage> := map[];
    var f1 := none[1 := Rotating(1, [2])];
    var f2 := f1[2 := Rotating(1, [2])];
    var f3 := f2[1 := Rotating(1, [])];
    var f4: map<nat, Stage> := map[2 := Rotating(1, [2])];
    var f5: map<nat, Stage> := map[2 := Rotating(1, [])];
    var third := REVOKED + [ApiKey(3, 1, false)];
    assert [2][1..] == [];
    TenantStarts(id, service, FIRST, 3, none, 1);
    TenantStarts(id, service, FIRST, 3, f1, 2);
    TenantRevokes(id, service, FIRST, 3, f2, 1, [2]);
    TenantInserts(id, service, REVOKED, 3, f3, 1);
    assert f3 - {1} == f4 && f4[2 := Rotating(1, [])] == f5 && f5 - {2} == map[];
    TenantRevokes(id, service, third, 4, f4, 2, [2]);
    TenantInserts(id, service, third, 4, f5, 2);
  }

  // Two overlapping rotations leave the resource with two live keys: the key of the first is still
  // served after the second has returned.
  lemma TwoRotationsReachable(id: string, service: Service)
    ensures var db := Run(EMPTY_WORLD, TwoRotations(id, service)).db;
            && !OneLive(db)
            && Validate(db, Some(3), service, Some(WALLET)) == Valid(id, 0, 1)
            && Validate(db, Some(4), service, Some(WALLET)) == Valid(id, 0, 1)
  {
    TwoRotationsRun(id, service);
    var keys := REVOKED + [ApiKey(3, 1, false)] + [ApiKey(4, 1, false)];
    hide Run, TwoRotations, Validate, Tenant, OneLive;
    TenantServes(id, service, keys, 5, 1);
    TenantServes(id, service, keys, 5, 2);
    TenantTwoLive(id, service, keys, 5, 1, 2);
  }

  // A use of a key that reads its row before the key is revoked and writes it after.
  function UseAround(id: string, service: Service, op: Op): seq<Step> {
    ToTenant(id, service) + [StartUse(1, 2, service, Some(WALLET))] + [Do(op)] + [Advance(1)]
  }

  lemma TenantUsed(id: string, service: Service)
    ensures var db := Tenant(id, service, FIRST, 3);
            Next(World(db, map[]), StartUse(1, 2, service, Some(WALLET))) == World(db, map[1 := Using(2)])
  {
    TenantServes(id, service, FIRST, 3, 0);
    hide Validate, Tenant;
    var none: map<nat, Stage> := map[];
    assert none[1 := Using(2)] == map[1 := Using(2)];
  }

  lemma TenantWritesBack(id: string, service: Service, keys: seq<ApiKey>, nextId: nat)
    ensures Next(World(Tenant(id, service, keys, nextId), map[1 := Using(2)]), Advance(1))
         == World(Tenant(id, service, Updated(Reviving(2), keys), nextId), map[])
  {
    hide Updated;
    var one: map<nat, Stage> := map[1 := Using(2)];
    assert one - {1} == map[];
  }

  lemma UseAroundRun(id: string, service: Service, op: Op, keys: seq<ApiKey>, nextId: nat)
    requires Perform(Tenant(id, service, FIRST, 3), op) == Tenant(id, service, keys, nextId)
    ensures Run(EMPTY_WORLD, UseAround(id, service, op))
         == World(Tenant(id, service, Updated(Reviving(2), keys), nextId), map[])
  {
    CreationUnderWay(id, service);
    TenantUsed(id, service);
    TenantWritesBack(id, service, keys, nextId);
    hide Run, Tenant, ToTenant, Updated, Perform, Validate, Advanced;
    var s := ToTenant(id, service);
    RunSnoc(EMPTY_WORLD, s, StartUse(1, 2, service, Some(WALLET)));
    RunSnoc(EMPTY_WORLD, s + [StartUse(1, 2, service, Some(WALLET))], Do(op));
    RunSnoc(EMPTY_WORLD, s + [StartUse(1, 2, service, Some(WALLET))] + [Do(op)], Advance(1));
  }

  lemma RevokedTenant(id: string, service: Service)
    ensures Perform(Tenant(id, service, FIRST, 3), RevokeApiKey(2)) == Tenant(id, service, REVOKED, 3)
    ensures Perform(Tenant(id, service, FIRST, 3), RotateApiKey(1))
         == Tenant(id, service, REVOKED + [ApiKey(3, 1, false)], 4)
  {
    assert ResourceIs(1)(Tenant(id, service, FIRST, 3).resources[0]);
  }

  // A use of a key that overlaps its revocation brings the key back.
  lemma RevivedReachable(id: string, service: Service)
    ensures Validate(Run(EMPTY_WORLD, UseAround(id, service, RevokeApiKey(2))).db, Some(2), service, Some(WALLET))
         == Valid(id, 0, 1)
  {
    RevokedTenant(id, service);
    KeyTables();
    hide Run, UseAround, Validate, Perform, Updated, Tenant;
    UseAroundRun(id, service, RevokeApiKey(2), REVOKED, 3);
    TenantServes(id, service, FIRST, 3, 0);
  }

  // One that overlaps a rotation leaves the resource with the old key beside the new one.
  lemma RevivedBesideReachable(id: string, service: Service)
    ensures var db := Run(EMPTY_WORLD, UseAround(id, service, RotateApiKey(1))).db;
            !OneLive(db) && Validate(db, Some(2), service, Some(WALLET)) == Valid(id, 0, 1)
  {
    RotatedAround(id, service);
    var keys := FIRST + [ApiKey(3, 1, false)];
    hide Run, UseAround, Validate, Tenant, OneLive;
    TenantTwoLive(id, service, keys, 4, 0, 1);
    TenantServes(id, service, keys, 4, 0);
  }

  lemma RotatedAround(id: string, service: Service)
    ensures Run(EMPTY_WORLD, UseAround(id, service, RotateApiKey(1)))
         == World(Tenant(id, service, FIRST + [ApiKey(3, 1, false)], 4), map[])
  {
    RevokedTenant(id, service);
    KeyTables();
    hide Run, UseAround, Perform, Updated, Tenant;
    UseAroundRun(id, service, RotateApiKey(1), REVOKED + [ApiKey(3, 1, false)], 4);
  }

  // ---- Overlapping changes of an account ----

  // A change of status that read the account before a change of plan undoes the change of plan.
  lemma LostPlanReachable(id: string, plan: A.PlanId, status: A.AccountStatus)
    ensures var steps := [Do(OpenAccount(id, A.Free))] + [StartChange(0, id, NewStatus(status))]
                         + [Do(SetPlan(id, plan))] + [Advance(0)];
            Run(EMPTY_WORLD, steps).db.accounts == map[id := A.NewAccount(A.Free).(status := status)]
  {
    var s1 := [Do(OpenAccount(id, A.Free))];
    var s2 := s1 + [StartChange(0, id, NewStatus(status))];
    var s3 := s2 + [Do(SetPlan(id, plan))];
    RunSnoc(EMPTY_WORLD, [], Do(OpenAccount(id, A.Free)));
    assert [] + s1 == s1 && Run(EMPTY_WORLD, []) == EMPTY_WORLD;
    RunSnoc(EMPTY_WORLD, s1, StartChange(0, id, NewStatus(status)));
    RunSnoc(EMPTY_WORLD, s2, Do(SetPlan(id, plan)));
    RunSnoc(EMPTY_WORLD, s3, Advance(0));
    hide Run;
    assert ActiveIds([], id) == [];
    var account := A.NewAccount(A.Free).(status := status);
    assert Next(World(Opened(id), map[]), StartChange(0, id, NewStatus(status))).flight
        == map[0 := Changing(id, account, false)];
  }
}
