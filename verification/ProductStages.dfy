// The stages of a call, one after the other with nothing in between, do what the whole operation does.
module ProductStages {
  import A = Accounts
  import opened Options
  import opened Tables
  import opened Products
  import opened ProductKeys
  import opened ProductQuota
  import opened ProductRuns
  import opened ProductTables

  lemma RunSnoc(w: World, steps: seq<Step>, step: Step)
    ensures Run(w, steps + [step]) == Next(Run(w, steps), step)
  {
    assert (steps + [step])[..|steps|] == steps;
  }

  function CreationSteps(call: nat, input: Input, provisioned: bool): seq<Step> {
    [StartCreation(call, input)] + [Advance(call)] + [Advance(call)] + [Advance(call)] + [Advance(call)]
      + [Complete(call, provisioned)]
  }

  function FourTimes(w: World, call: nat): World {
    Next(Next(Next(Next(w, Advance(call)), Advance(call)), Advance(call)), Advance(call))
  }

  lemma RunCreation(w: World, call: nat, input: Input, provisioned: bool)
    ensures Run(w, CreationSteps(call, input, provisioned))
         == Next(FourTimes(Next(w, StartCreation(call, input)), call), Complete(call, provisioned))
  {
    var s1 := [StartCreation(call, input)];
    var s2 := s1 + [Advance(call)];
    var s3 := s2 + [Advance(call)];
    var s4 := s3 + [Advance(call)];
    var s5 := s4 + [Advance(call)];
    hide Next;
    assert [] + s1 == s1 && Run(w, []) == w;
    RunSnoc(w, [], StartCreation(call, input));
    RunSnoc(w, s1, Advance(call));
    RunSnoc(w, s2, Advance(call));
    RunSnoc(w, s3, Advance(call));
    RunSnoc(w, s4, Advance(call));
    RunSnoc(w, s5, Complete(call, provisioned));
  }

  // With nothing in between, the stages of a creation do what the whole operation does, refusals and
  // rollback included.
  lemma StagedCreation(w: World, call: nat, input: Input, provisioned: bool)
    requires call !in w.flight
    ensures Run(w, CreationSteps(call, input, provisioned)).db == Create(w.db, input, provisioned).0
  {
    RunCreation(w, call, input, provisioned);
    hide Run, Refusal, Finish, ActiveIds, AddProduct, AddResource, AddKey;
    CreationEnds(w, call, input, provisioned);
  }

  lemma CreationEnds(w: World, call: nat, input: Input, provisioned: bool)
    requires call !in w.flight
    ensures Next(FourTimes(Next(w, StartCreation(call, input)), call), Complete(call, provisioned)).db
         == Create(w.db, input, provisioned).0
  {
    hide Refusal, Finish, ActiveIds;
  }

  // ---- A rotation by itself ----

  function Marking(ids: seq<nat>): ApiKey -> ApiKey {
    (k: ApiKey) => if k.id in ids then k.(revoked := true) else k
  }

  function Advances(call: nat, n: nat): seq<Step> {
    seq(n, _ => Advance(call))
  }

  function RotationSteps(call: nat, resourceId: nat, n: nat): seq<Step> {
    [StartRotation(call, resourceId)] + Advances(call, n) + [Advance(call)]
  }

  // How far a rotation is when it has revoked n of the keys it found.
  function Midway(w: World, call: nat, resourceId: nat, n: nat): World
    requires n <= |LiveKeys(w.db.apiKeys, resourceId)|
  {
    var found := LiveKeys(w.db.apiKeys, resourceId);
    World(w.db.(apiKeys := Updated(Marking(found[..n]), w.db.apiKeys)),
          w.flight[call := Rotating(resourceId, found[n..])])
  }

  lemma MarksOne(keys: seq<ApiKey>, ids: seq<nat>, id: nat)
    ensures Updated(Revoking(id), Updated(Marking(ids), keys)) == Updated(Marking(ids + [id]), keys)
  {
  }

  lemma MarksNone(keys: seq<ApiKey>)
    ensures Updated(Marking([]), keys) == keys
  {
  }

  lemma RotationAdvances(w: World, call: nat, resourceId: nat, n: nat)
    requires First(ResourceIs(resourceId), w.db.resources).Some? && n < |LiveKeys(w.db.apiKeys, resourceId)|
    ensures Next(Midway(w, call, resourceId, n), Advance(call)) == Midway(w, call, resourceId, n + 1)
  {
    hide First, LiveKeys, Updated;
    var found := LiveKeys(w.db.apiKeys, resourceId);
    MarksOne(w.db.apiKeys, found[..n], found[n]);
    assert found[..n] + [found[n]] == found[..n + 1] && found[n..][1..] == found[n + 1..];
  }

  lemma MidwayStarts(w: World, call: nat, resourceId: nat)
    requires call !in w.flight && First(ResourceIs(resourceId), w.db.resources).Some?
    ensures Next(w, StartRotation(call, resourceId)) == Midway(w, call, resourceId, 0)
  {
    StepSnapshots(w, call, resourceId);
    MarksNone(w.db.apiKeys);
    hide First, LiveKeys, Updated, Next;
    var found := LiveKeys(w.db.apiKeys, resourceId);
    assert found[..0] == [] && found[0..] == found;
  }

  lemma {:induction false} RunMidway(w: World, call: nat, resourceId: nat, n: nat)
    requires call !in w.flight && First(ResourceIs(resourceId), w.db.resources).Some?
    requires n <= |LiveKeys(w.db.apiKeys, resourceId)|
    ensures Run(w, [StartRotation(call, resourceId)] + Advances(call, n)) == Midway(w, call, resourceId, n)
  {
    hide First, LiveKeys, Next, Midway, Run;
    if n == 0 {
      MidwayStarts(w, call, resourceId);
      OneStep(w, StartRotation(call, resourceId));
      assert [StartRotation(call, resourceId)] + Advances(call, 0) == [StartRotation(call, resourceId)];
    } else {
      RunMidway(w, call, resourceId, n - 1);
      RotationAdvances(w, call, resourceId, n - 1);
      var before := [StartRotation(call, resourceId)] + Advances(call, n - 1);
      assert [StartRotation(call, resourceId)] + Advances(call, n) == before + [Advance(call)];
      RunSnoc(w, before, Advance(call));
    }
  }

  lemma {:induction false} LiveKeysOwned(keys: seq<ApiKey>, resourceId: nat, id: nat) returns (i: nat)
    requires id in LiveKeys(keys, resourceId)
    ensures i < |keys| && keys[i].id == id && keys[i].resourceId == resourceId && !keys[i].revoked
  {
    var init := keys[..|keys| - 1];
    if id in LiveKeys(init, resourceId) {
      i := LiveKeysOwned(init, resourceId, id);
    } else {
      i := |init|;
    }
  }

  lemma MarkedAll(db: Db, resourceId: nat)
    requires Inv(db)
    ensures Updated(Marking(LiveKeys(db.apiKeys, resourceId)), db.apiKeys)
         == Updated(RevokingAll(resourceId), db.apiKeys)
  {
    hide Updated, Linked, Fresh, Pairwise, LiveKeys;
    var found := LiveKeys(db.apiKeys, resourceId);
    forall i | 0 <= i < |db.apiKeys| ensures Marking(found)(db.apiKeys[i]) == RevokingAll(resourceId)(db.apiKeys[i]) {
      var key := db.apiKeys[i];
      if key.resourceId == resourceId && !key.revoked {
        LiveKeysExact(db.apiKeys, resourceId, i);
      } else if key.id in found {
        var j := LiveKeysOwned(db.apiKeys, resourceId, key.id);
        KeyRowUnique(db, i);
      }
    }
  }

  // With nothing in between, the stages of a rotation do what the whole operation does.
  lemma StagedRotation(w: World, call: nat, resourceId: nat)
    requires WorldOk(w) && call !in w.flight
    ensures Run(w, RotationSteps(call, resourceId, |LiveKeys(w.db.apiKeys, resourceId)|)).db
         == Rotate(w.db, resourceId).0
  {
    var n := |LiveKeys(w.db.apiKeys, resourceId)|;
    var steps := [StartRotation(call, resourceId)] + Advances(call, n);
    RunSnoc(w, steps, Advance(call));
    hide Run, Next, LiveKeys, First, WorldOk, Rotate;
    if First(ResourceIs(resourceId), w.db.resources).Some? {
      RunMidway(w, call, resourceId, n);
      RotationFinishes(w, call, resourceId);
    } else {
      NothingToRotate(w, call, resourceId, n);
      NothingStarts(w, call, resourceId);
    }
  }

  lemma RotationFinishes(w: World, call: nat, resourceId: nat)
    requires WorldOk(w) && First(ResourceIs(resourceId), w.db.resources).Some?
    ensures Next(Midway(w, call, resourceId, |LiveKeys(w.db.apiKeys, resourceId)|), Advance(call)).db
         == Rotate(w.db, resourceId).0
  {
    WorldInv(w);
    MarkedAll(w.db, resourceId);
    MidwayEnds(w, call, resourceId);
    hide LiveKeys, First, WorldOk, Updated, Next, Inv, Midway;
    InsertionEnds(Midway(w, call, resourceId, |LiveKeys(w.db.apiKeys, resourceId)|), call, resourceId);
  }

  lemma MidwayEnds(w: World, call: nat, resourceId: nat)
    ensures var found := LiveKeys(w.db.apiKeys, resourceId);
            Midway(w, call, resourceId, |found|)
            == World(w.db.(apiKeys := Updated(Marking(found), w.db.apiKeys)),
                     w.flight[call := Rotating(resourceId, [])])
  {
    hide LiveKeys, Updated;
    var found := LiveKeys(w.db.apiKeys, resourceId);
    assert found[..|found|] == found && found[|found|..] == [];
  }

  lemma InsertionEnds(w: World, call: nat, resourceId: nat)
    requires call in w.flight && w.flight[call] == Rotating(resourceId, [])
    requires First(ResourceIs(resourceId), w.db.resources).Some?
    ensures Next(w, Advance(call)).db == AddKey(w.db, resourceId)
  {
    hide First;
  }

  lemma NothingStarts(w: World, call: nat, resourceId: nat)
    requires call !in w.flight && First(ResourceIs(resourceId), w.db.resources).None?
    ensures Next(w, StartRotation(call, resourceId)) == w == Next(w, Advance(call))
    ensures Rotate(w.db, resourceId).0 == w.db
  {
    hide First, LiveKeys;
    assert w.flight - {call} == w.flight;
  }

  lemma {:induction false} NothingToRotate(w: World, call: nat, resourceId: nat, n: nat)
    requires call !in w.flight && First(ResourceIs(resourceId), w.db.resources).None?
    ensures Run(w, [StartRotation(call, resourceId)] + Advances(call, n)) == w
  {
    NothingStarts(w, call, resourceId);
    hide First, Next, Run;
    if n == 0 {
      OneStep(w, StartRotation(call, resourceId));
      assert [StartRotation(call, resourceId)] + Advances(call, 0) == [StartRotation(call, resourceId)];
    } else {
      NothingToRotate(w, call, resourceId, n - 1);
      var before := [StartRotation(call, resourceId)] + Advances(call, n - 1);
      assert [StartRotation(call, resourceId)] + Advances(call, n) == before + [Advance(call)];
      RunSnoc(w, before, Advance(call));
    }
  }

  // ---- Rows saved one after the other ----

  lemma {:induction false} RunConcat(w: World, a: seq<Step>, b: seq<Step>)
    ensures Run(w, a + b) == Run(Run(w, a), b)
  {
    hide Next;
    if b == [] {
      assert a + b == a;
    } else {
      var init, last := b[..|b| - 1], b[|b| - 1];
      assert a + b == (a + init) + [last];
      RunConcat(w, a, init);
      RunSnoc(w, a + init, last);
    }
  }

  function SaveAll(db: Db, saves: seq<Save>): Db {
    if saves == [] then db else Saved(SaveAll(db, saves[..|saves| - 1]), saves[|saves| - 1])
  }

  // How far the saves of a call are when n of them are done.
  function Halfway(w: World, call: nat, saves: seq<Save>, n: nat): World
    requires n <= |saves|
  {
    World(SaveAll(w.db, saves[..n]), w.flight[call := Saving(saves[n..])])
  }

  lemma SaveAdvances(w: World, call: nat, saves: seq<Save>, n: nat)
    requires n < |saves|
    ensures Next(Halfway(w, call, saves, n), Advance(call)) == Halfway(w, call, saves, n + 1)
  {
    hide Saved;
    assert saves[..n + 1][..n] == saves[..n] && saves[n..][1..] == saves[n + 1..];
  }

  lemma {:induction false} RunSaves(w: World, call: nat, saves: seq<Save>, n: nat)
    requires n <= |saves|
    ensures Run(Halfway(w, call, saves, 0), Advances(call, n)) == Halfway(w, call, saves, n)
  {
    hide Next, Halfway, Run;
    if n == 0 {
      RunNothing(Halfway(w, call, saves, 0));
      assert Advances(call, 0) == [];
    } else {
      RunSaves(w, call, saves, n - 1);
      SaveAdvances(w, call, saves, n - 1);
      assert Advances(call, n) == Advances(call, n - 1) + [Advance(call)];
      RunSnoc(Halfway(w, call, saves, 0), Advances(call, n - 1), Advance(call));
    }
  }

  lemma RunNothing(w: World)
    ensures Run(w, []) == w
  {
  }

  lemma SavesEnd(w: World, call: nat, saves: seq<Save>)
    ensures Run(w.(flight := w.flight[call := Saving(saves)]), Advances(call, |saves|)).db == SaveAll(w.db, saves)
  {
    RunSaves(w, call, saves, |saves|);
    hide Run;
    assert saves[..0] == [] && saves[0..] == saves && saves[..|saves|] == saves;
  }

  // The rows after a number of saves.
  lemma {:induction false} SaveAllRows(db: Db, saves: seq<Save>)
    ensures var after := SaveAll(db, saves);
            && after.accounts == db.accounts && after.apiKeys == db.apiKeys && after.nextId == db.nextId
            && |after.products| == |db.products| && |after.resources| == |db.resources|
            && (forall i | 0 <= i < |db.products| ::
                  after.products[i] == if SaveProduct(db.products[i].id) in saves
                                       then db.products[i].(archived := true) else db.products[i])
            && (forall i | 0 <= i < |db.resources| ::
                  after.resources[i] == if SaveResource(db.resources[i].id) in saves
                                        then db.resources[i].(status := Suspended) else db.resources[i])
  {
    if saves != [] {
      hide Updated;
      var init, last := saves[..|saves| - 1], saves[|saves| - 1];
      assert saves == init + [last];
      SaveAllRows(db, init);
    }
  }

  lemma {:induction false} ListedOnly(resources: seq<Resource>, productId: nat, save: Save)
    requires save in ResourceSaves(resources, productId)
    ensures save.SaveResource? && exists i ::
        0 <= i < |resources| && resources[i].id == save.id && resources[i].productId == productId
  {
    var init, last := resources[..|resources| - 1], resources[|resources| - 1];
    if save in ResourceSaves(init, productId) {
      ListedOnly(init, productId, save);
      var i :| 0 <= i < |init| && init[i].id == save.id && init[i].productId == productId;
      assert resources[i] == init[i];
    } else {
      assert resources[|resources| - 1] == last;
    }
  }

  lemma ListedExactly(db: Db, productId: nat, i: nat)
    requires Inv(db) && i < |db.resources|
    ensures SaveResource(db.resources[i].id) in ResourceSaves(db.resources, productId)
       <==> db.resources[i].productId == productId
  {
    hide ResourceSaves, Linked, Fresh;
    if db.resources[i].productId == productId {
      Listed(db.resources, productId, i);
    }
    if SaveResource(db.resources[i].id) in ResourceSaves(db.resources, productId) {
      ListedOnly(db.resources, productId, SaveResource(db.resources[i].id));
      var id := db.resources[i].id;
      var j :| 0 <= j < |db.resources| && db.resources[j].id == id && db.resources[j].productId == productId;
      assert i < j ==> ResourcePair(db.resources[i], db.resources[j]);
      assert j < i ==> ResourcePair(db.resources[j], db.resources[i]);
    }
  }

  lemma {:induction false} SurplusExactly(db: Db, ids: seq<nat>, i: nat)
    requires Inv(db)
    ensures i < |db.resources| ==>
              (SaveResource(db.resources[i].id) in SurplusSaves(db.resources, ids) <==>
               db.resources[i].productId in ids)
    ensures forall id :: SaveProduct(id) in SurplusSaves(db.resources, ids) <==> id in ids
  {
    hide Inv, ResourceSaves;
    if ids != [] {
      var init, last := ids[..|ids| - 1], ids[|ids| - 1];
      assert ids == init + [last];
      SurplusExactly(db, init, i);
      if i < |db.resources| {
        ListedExactly(db, last, i);
      }
      forall id | SaveProduct(id) in ResourceSaves(db.resources, last) ensures false {
        ListedOnly(db.resources, last, SaveProduct(id));
      }
    }
  }

  lemma {:induction false} ArchiveAllRows(db: Db, ids: seq<nat>)
    ensures var after := ArchiveAll(db, ids);
            && after.accounts == db.accounts && after.apiKeys == db.apiKeys && after.nextId == db.nextId
            && |after.products| == |db.products| && |after.resources| == |db.resources|
            && (forall i | 0 <= i < |db.products| ::
                  after.products[i] == if db.products[i].id in ids
                                       then db.products[i].(archived := true) else db.products[i])
            && (forall i | 0 <= i < |db.resources| ::
                  after.resources[i] == if db.resources[i].productId in ids
                                        then db.resources[i].(status := Suspended) else db.resources[i])
  {
    if ids != [] {
      hide Updated;
      var init, last := ids[..|ids| - 1], ids[|ids| - 1];
      assert ids == init + [last];
      ArchiveAllRows(db, init);
    }
  }

  // Saving the surplus products and their resources one by one archives them all.
  lemma SurplusArchived(db: Db, ids: seq<nat>)
    requires Inv(db)
    ensures SaveAll(db, SurplusSaves(db.resources, ids)) == ArchiveAll(db, ids)
  {
    hide Inv, SurplusSaves, SaveAll, ArchiveAll;
    var saves := SurplusSaves(db.resources, ids);
    SaveAllRows(db, saves);
    ArchiveAllRows(db, ids);
    forall i | 0 <= i < |db.resources| ensures SaveAll(db, saves).resources[i] == ArchiveAll(db, ids).resources[i] {
      SurplusExactly(db, ids, i);
    }
    SurplusExactly(db, ids, |db.resources|);
    assert SaveAll(db, saves).products == ArchiveAll(db, ids).products;
  }

  // ---- A change of plan, an archiving, a use of a key ----

  function PlanSteps(w: World, call: nat, accountId: string, plan: A.PlanId): seq<Step> {
    var max := A.NewAccount(plan).maxProducts;
    var saves := SurplusSaves(w.db.resources, SliceFrom(ActiveIds(w.db.products, accountId), max));
    [StartChange(call, accountId, NewPlan(plan))] + [Advance(call)] + [Advance(call)] + Advances(call, |saves|)
  }

  lemma StagedPlan(w: World, call: nat, accountId: string, plan: A.PlanId)
    requires WorldOk(w) && call !in w.flight && accountId in w.db.accounts
    ensures Run(w, PlanSteps(w, call, accountId, plan)).db == ChangePlan(w.db, accountId, plan)
  {
    var account := A.WithPlan(w.db.accounts[accountId], plan);
    var db := WithAccount(w.db, accountId, account);
    var ids := SliceFrom(ActiveIds(w.db.products, accountId), account.maxProducts);
    var saves := SurplusSaves(w.db.resources, ids);
    WorldInv(w);
    PlanMax(w.db.accounts[accountId], plan);
    hide WorldOk, Inv, SurplusSaves, ArchiveAll, SliceFrom, ActiveIds, A.WithPlan, A.NewAccount;
    AccountChanged(w.db, accountId, account, NoneDue());
    SurplusArchived(db, ids);
    PlanWritten(w, call, accountId, plan);
    SavesAfter(w, [StartChange(call, accountId, NewPlan(plan))] + [Advance(call)] + [Advance(call)], call, saves, db);
  }

  lemma PlanMax(account: A.Account, plan: A.PlanId)
    ensures A.WithPlan(account, plan).maxProducts == A.NewAccount(plan).maxProducts
  {
  }

  lemma SavesAfter(w: World, steps: seq<Step>, call: nat, saves: seq<Save>, db: Db)
    requires Run(w, steps) == World(db, w.flight[call := Saving(saves)])
    ensures Run(w, steps + Advances(call, |saves|)).db == SaveAll(db, saves)
  {
    hide Run;
    RunConcat(w, steps, Advances(call, |saves|));
    SavesEnd(World(db, w.flight), call, saves);
  }

  lemma PlanWritten(w: World, call: nat, accountId: string, plan: A.PlanId)
    requires call !in w.flight && accountId in w.db.accounts
    ensures var account := A.WithPlan(w.db.accounts[accountId], plan);
            var db := WithAccount(w.db, accountId, account);
            var ids := SliceFrom(ActiveIds(w.db.products, accountId), account.maxProducts);
            Run(w, [StartChange(call, accountId, NewPlan(plan))] + [Advance(call)] + [Advance(call)])
            == World(db, w.flight[call := Saving(SurplusSaves(w.db.resources, ids))])
  {
    var account := A.WithPlan(w.db.accounts[accountId], plan);
    var s1 := [StartChange(call, accountId, NewPlan(plan))];
    OneStep(w, s1[0]);
    RunSnoc(w, s1, Advance(call));
    RunSnoc(w, s1 + [Advance(call)], Advance(call));
    PlanRead(w, call, accountId, plan);
    PlanAdvances(w.db, w.flight, call, accountId, account);
    hide Run, Next, SurplusSaves, SliceFrom, ActiveIds, A.WithPlan, WithAccount;
  }

  lemma PlanRead(w: World, call: nat, accountId: string, plan: A.PlanId)
    requires call !in w.flight && accountId in w.db.accounts
    ensures Next(w, StartChange(call, accountId, NewPlan(plan)))
         == w.(flight := w.flight[call := Changing(accountId, A.WithPlan(w.db.accounts[accountId], plan), true)])
  {
    hide A.WithPlan;
  }

  lemma PlanAdvances(db: Db, flight: map<nat, Stage>, call: nat, accountId: string, account: A.Account)
    ensures var after := WithAccount(db, accountId, account);
            var ids := SliceFrom(ActiveIds(db.products, accountId), account.maxProducts);
            Next(Next(World(db, flight[call := Changing(accountId, account, true)]), Advance(call)), Advance(call))
            == World(after, flight[call := Saving(SurplusSaves(db.resources, ids))])
  {
    hide SurplusSaves, SliceFrom, ActiveIds;
    var after := WithAccount(db, accountId, account);
    assert Next(World(db, flight[call := Changing(accountId, account, true)]), Advance(call))
        == World(after, flight[call := Enforcing(accountId, account.maxProducts)]);
  }

  // A change of status or quota: reading the account and writing it.
  lemma StagedChange(w: World, call: nat, accountId: string, change: Change)
    requires call !in w.flight && !change.NewPlan?
    ensures Run(w, [StartChange(call, accountId, change)] + [Advance(call)]).db
         == Perform(w.db, if change.NewStatus? then SetStatus(accountId, change.status)
                          else SetQuota(accountId, change.maxProducts))
  {
    var s := [StartChange(call, accountId, change)];
    OneStep(w, s[0]);
    RunSnoc(w, s, Advance(call));
    hide Run;
  }

  function ArchivingSteps(w: World, call: nat, accountId: string, productId: nat): seq<Step> {
    [StartArchiving(call, accountId, productId)] + [Advance(call)] + [Advance(call)]
      + Advances(call, |ResourceSaves(w.db.resources, productId)|)
  }

  lemma StagedArchiving(w: World, call: nat, accountId: string, productId: nat)
    requires WorldOk(w) && call !in w.flight && First(OwnedActive(accountId, productId), w.db.products).Some?
    ensures Run(w, ArchivingSteps(w, call, accountId, productId)).db == Archive(w.db, accountId, productId)
  {
    var saves := ResourceSaves(w.db.resources, productId);
    var db := Saved(w.db, SaveProduct(productId));
    WorldInv(w);
    ArchivingListed(w, call, accountId, productId);
    ListedSuspended(w.db, productId);
    hide Run, WorldOk, Inv, ResourceSaves, SaveAll, First, ArchiveRows, Saved;
    SavesAfter(w, [StartArchiving(call, accountId, productId)] + [Advance(call)] + [Advance(call)], call, saves, db);
  }

  lemma ArchivingListed(w: World, call: nat, accountId: string, productId: nat)
    requires call !in w.flight && First(OwnedActive(accountId, productId), w.db.products).Some?
    ensures Run(w, [StartArchiving(call, accountId, productId)] + [Advance(call)] + [Advance(call)])
         == World(Saved(w.db, SaveProduct(productId)),
                  w.flight[call := Saving(ResourceSaves(w.db.resources, productId))])
  {
    var s1 := [StartArchiving(call, accountId, productId)];
    OneStep(w, s1[0]);
    RunSnoc(w, s1, Advance(call));
    RunSnoc(w, s1 + [Advance(call)], Advance(call));
    ArchivingAdvances(w.db, w.flight, call, productId);
    ArchivingRead(w, call, accountId, productId);
    hide Run, ResourceSaves, First, Saved;
    hide Next;
  }

  lemma ArchivingRead(w: World, call: nat, accountId: string, productId: nat)
    requires call !in w.flight && First(OwnedActive(accountId, productId), w.db.products).Some?
    ensures Next(w, StartArchiving(call, accountId, productId)) == w.(flight := w.flight[call := ToArchive(productId)])
  {
    hide First;
  }

  lemma ArchivingAdvances(db: Db, flight: map<nat, Stage>, call: nat, productId: nat)
    ensures Next(Next(World(db, flight[call := ToArchive(productId)]), Advance(call)), Advance(call))
         == World(Saved(db, SaveProduct(productId)), flight[call := Saving(ResourceSaves(db.resources, productId))])
  {
    hide ResourceSaves, Updated;
    assert Next(World(db, flight[call := ToArchive(productId)]), Advance(call))
        == World(Saved(db, SaveProduct(productId)), flight[call := ToList(productId)]);
  }

  lemma ListedSuspended(db: Db, productId: nat)
    requires Inv(db)
    ensures SaveAll(Saved(db, SaveProduct(productId)), ResourceSaves(db.resources, productId))
         == ArchiveRows(db, productId)
  {
    var saved, saves := Saved(db, SaveProduct(productId)), ResourceSaves(db.resources, productId);
    hide Inv, ResourceSaves, SaveAll;
    SaveAllRows(saved, saves);
    var after, whole := SaveAll(saved, saves), ArchiveRows(db, productId);
    forall i | 0 <= i < |db.resources| ensures after.resources[i] == whole.resources[i] {
      ListedExactly(db, productId, i);
    }
    forall i | 0 <= i < |db.products| ensures after.products[i] == saved.products[i] {
      if SaveProduct(saved.products[i].id) in saves {
        ListedOnly(db.resources, productId, SaveProduct(saved.products[i].id));
      }
    }
    assert after.products == saved.products == whole.products;
  }

  // A use of a key that nothing overlaps leaves the tables as they are.
  lemma StagedUse(w: World, call: nat, apiKey: nat, service: Service, walletId: Option<string>)
    requires WorldOk(w) && call !in w.flight
    ensures Run(w, [StartUse(call, apiKey, service, walletId)] + [Advance(call)]).db == w.db
  {
    var s := [StartUse(call, apiKey, service, walletId)];
    OneStep(w, s[0]);
    RunSnoc(w, s, Advance(call));
    WorldInv(w);
    UseEnds(w, call, apiKey, service, walletId);
    hide Run, Next, WorldOk, Validate, Revive, Inv;
    if Validate(w.db, Some(apiKey), service, walletId).Valid? {
      var i, j, k := KeyRows(w.db, Some(apiKey), service, walletId);
      LiveStays(w.db, i);
    }
  }

  lemma UseEnds(w: World, call: nat, apiKey: nat, service: Service, walletId: Option<string>)
    requires call !in w.flight
    ensures Next(Next(w, StartUse(call, apiKey, service, walletId)), Advance(call)).db
         == if Validate(w.db, Some(apiKey), service, walletId).Valid? then Revive(w.db, apiKey) else w.db
  {
    hide Validate, Revive;
  }

  lemma LiveStays(db: Db, i: nat)
    requires Inv(db) && i < |db.apiKeys| && !db.apiKeys[i].revoked
    ensures Revive(db, db.apiKeys[i].id) == db
  {
    KeyRowUnique(db, i);
    hide Inv, Updated;
    var id, keys := db.apiKeys[i].id, db.apiKeys;
    forall j | 0 <= j < |keys| ensures Reviving(id)(keys[j]) == keys[j] {
      assert keys[j].id == id ==> j == i;
    }
    assert Updated(Reviving(id), keys) == keys;
  }
}
