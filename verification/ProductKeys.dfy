// API keys over runs of overlapping calls: when a revoked key stays refused, what a rotation revokes and
// what it leaves, and that archived products never come back.
module ProductKeys {
  import A = Accounts
  import opened Options
  import opened Tables
  import opened Products
  import opened ProductRuns
  import opened ProductTables

  // No row accepts this key any more, and none will be given its id.
  ghost predicate Dead(db: Db, key: nat) {
    key < db.nextId && forall i | 0 <= i < |db.apiKeys| :: db.apiKeys[i].id == key ==> db.apiKeys[i].revoked
  }

  // The row of the key has been deleted, with its product.
  ghost predicate NoRow(db: Db, key: nat) {
    key < db.nextId && forall i | 0 <= i < |db.apiKeys| :: db.apiKeys[i].id != key
  }

  // The key belongs to the resource, or its row is gone.
  ghost predicate KeyOf(db: Db, key: nat, resourceId: nat) {
    && key < db.nextId
    && forall i | 0 <= i < |db.apiKeys| :: db.apiKeys[i].id == key ==> db.apiKeys[i].resourceId == resourceId
  }

  // A product that is archived or deleted.
  ghost predicate Gone(db: Db, productId: nat) {
    && productId < db.nextId
    && forall i | 0 <= i < |db.products| :: db.products[i].id == productId ==> db.products[i].archived
  }

  // What holds of a key, and of a product, after a change given that it held before.
  ghost predicate KeyKept(before: Db, after: Db, key: nat) {
    && (Dead(before, key) ==> Dead(after, key))
    && (NoRow(before, key) ==> NoRow(after, key))
    && (forall id :: KeyOf(before, key, id) ==> KeyOf(after, key, id))
  }

  ghost predicate Kept(before: Db, after: Db, key: nat, productId: nat) {
    KeyKept(before, after, key) && (Gone(before, productId) ==> Gone(after, productId))
  }

  // ---- All of it is kept by every operation ----

  lemma ArchiveRowsFinal(db: Db, id: nat, key: nat, productId: nat)
    ensures Kept(db, ArchiveRows(db, id), key, productId)
  {
  }

  lemma {:induction false} ArchiveAllFinal(db: Db, ids: seq<nat>, key: nat, productId: nat)
    ensures Kept(db, ArchiveAll(db, ids), key, productId)
  {
    hide Dead, NoRow, KeyOf, Gone, ArchiveRows;
    if ids != [] {
      ArchiveAllFinal(db, ids[..|ids| - 1], key, productId);
      ArchiveRowsFinal(ArchiveAll(db, ids[..|ids| - 1]), ids[|ids| - 1], key, productId);
    }
  }

  lemma InsertionsFinal(db: Db, accountId: string, id: nat, service: Service, walletId: string, key: nat,
      productId: nat)
    ensures Kept(db, AddProduct(db, accountId), key, productId)
    ensures Kept(db, AddResource(db, id, service, walletId), key, productId)
    ensures Kept(db, AddKey(db, id), key, productId)
  {
  }

  lemma BeginFinal(db: Db, input: Input, key: nat, productId: nat)
    ensures Kept(db, Begin(db, input).0, key, productId)
  {
    hide Admission, Refusal, Dead, NoRow, KeyOf, Gone;
    var id := db.nextId;
    var db1 := AddProduct(db, input.accountId);
    var db2 := AddResource(db1, id, input.service, input.walletId);
    InsertionsFinal(db, input.accountId, id, input.service, input.walletId, key, productId);
    InsertionsFinal(db1, input.accountId, id, input.service, input.walletId, key, productId);
    InsertionsFinal(db2, input.accountId, db2.nextId - 1, input.service, input.walletId, key, productId);
  }

  lemma FinishFinal(db: Db, id: nat, resourceId: nat, provisioned: bool, key: nat, productId: nat)
    ensures Kept(db, Finish(db, id, resourceId, provisioned), key, productId)
  {
    hide First, Selected, Updated;
    SelectedMembers(OtherProduct(id), db.products);
    SelectedMembers(KeyOfOther(db.resources, id), db.apiKeys);
  }

  lemma KeyOpsFinal(db: Db, id: nat, key: nat, productId: nat)
    ensures Kept(db, Rotate(db, id).0, key, productId)
    ensures Kept(db, Revoke(db, id), key, productId)
    ensures id != key || !Dead(db, key) || NoRow(db, key) ==> Kept(db, Revive(db, id), key, productId)
  {
    hide First;
  }

  lemma SavesFinal(db: Db, save: Save, key: nat, productId: nat)
    ensures Kept(db, Saved(db, save), key, productId)
  {
  }

  lemma PatchFinal(db: Db, id: nat, key: nat, productId: nat)
    ensures KeyKept(db, Restored(db, id), key)
    ensures id != productId ==> Kept(db, Restored(db, id), key, productId)
  {
  }

  lemma OpFinal(db: Db, op: Op, key: nat, productId: nat)
    ensures Kept(db, Perform(db, op), key, productId)
  {
    hide Begin, Finish, ArchiveRows, ArchiveAll, Rotate, Revoke, ActiveIds, First;
    match op {
      case SetPlan(id, plan) =>
        if id in db.accounts {
          var account := A.WithPlan(db.accounts[id], plan);
          var extras := SliceFrom(ActiveIds(db.products, id), account.maxProducts);
          ArchiveAllFinal(WithAccount(db, id, account), extras, key, productId);
        }
      case CreateProduct(input, provisioned) =>
        BeginFinal(db, input, key, productId);
        var (db1, r) := Begin(db, input);
        if r.Created? {
          FinishFinal(db1, r.productId, r.resourceId, provisioned, key, productId);
        }
      case ArchiveProduct(_, id) => ArchiveRowsFinal(db, id, key, productId);
      case RotateApiKey(id) => KeyOpsFinal(db, id, key, productId);
      case RevokeApiKey(id) => KeyOpsFinal(db, id, key, productId);
      case _ => {}
    }
  }

  // ---- Steps of overlapping calls ----

  // The row of the key is written back as it was read before its revocation.
  predicate WritesBack(w: World, step: Step, key: nat) {
    Advancing(w, step) == Some(Using(key)) && exists i | 0 <= i < |w.db.apiKeys| :: w.db.apiKeys[i].id == key
  }

  lemma AdvancedFinal(db: Db, stage: Stage, key: nat, productId: nat)
    requires stage == Using(key) && Dead(db, key) ==> NoRow(db, key)
    ensures KeyKept(db, Advanced(db, stage).0, key)
    ensures stage != Patching(productId) ==> Kept(db, Advanced(db, stage).0, key, productId)
  {
    hide AddProduct, AddResource, AddKey, Refusal, Revoke, Revive, Saved, Restored, ActiveIds, First;
    match stage {
      case Counted(input) => InsertionsFinal(db, input.accountId, 0, input.service, input.walletId, key, productId);
      case HasProduct(input, id) => InsertionsFinal(db, "", id, input.service, input.walletId, key, productId);
      case HasResource(_, id) => InsertionsFinal(db, "", id, Issuer, "", key, productId);
      case Rotating(id, left) =>
        InsertionsFinal(db, "", id, Issuer, "", key, productId);
        if left != [] {
          KeyOpsFinal(db, left[0], key, productId);
        }
      case Using(id) => KeyOpsFinal(db, id, key, productId);
      case Saving(saves) =>
        if saves != [] {
          SavesFinal(db, saves[0], key, productId);
        }
      case ToArchive(id) => SavesFinal(db, SaveProduct(id), key, productId);
      case Patching(id) => PatchFinal(db, id, key, productId);
      case _ => {}
    }
  }

  // A product stays archived but for a patch that read it before and writes it back as active.
  lemma StepGone(w: World, step: Step, productId: nat)
    requires Gone(w.db, productId) && Advancing(w, step) != Some(Patching(productId))
    ensures Gone(Next(w, step).db, productId)
  {
    hide Perform, Finish, Dead, NoRow, Gone, Advanced, Started;
    match step {
      case Do(op) => OpFinal(w.db, op, 0, productId);
      case Advance(call) =>
        if call in w.flight {
          var stage := w.flight[call];
          AdvancedFinal(w.db, stage, if stage.Using? then stage.key + 1 else 0, productId);
        }
      case Complete(call, provisioned) =>
        if call in w.flight && w.flight[call].HasKey? {
          FinishFinal(w.db, w.flight[call].productId, w.flight[call].resourceId, provisioned, 0, productId);
        }
      case _ => {}
    }
  }

  // A dead key stays dead through every step but one: a use of the key that read its row before the
  // revocation writes the row back.
  lemma StepDeadExact(w: World, step: Step, key: nat)
    requires Dead(w.db, key)
    ensures Dead(Next(w, step).db, key) <==> !WritesBack(w, step, key)
  {
    StepKept(w, step, key);
    hide Next, Revive;
    if WritesBack(w, step, key) {
      UseAdvances(w, step.call, key);
      var i := UseRevives(w.db, key);
    }
  }

  lemma StepKept(w: World, step: Step, key: nat)
    ensures !WritesBack(w, step, key) ==> KeyKept(w.db, Next(w, step).db, key)
  {
    hide Perform, Finish, Gone, Advanced, Started;
    if !WritesBack(w, step, key) {
      match step {
        case Do(op) => OpFinal(w.db, op, key, 0);
        case Advance(call) =>
          if call in w.flight {
            assert w.flight[call] == Using(key) && Dead(w.db, key) ==> NoRow(w.db, key);
            AdvancedFinal(w.db, w.flight[call], key, 0);
          }
        case Complete(call, provisioned) =>
          if call in w.flight && w.flight[call].HasKey? {
            FinishFinal(w.db, w.flight[call].productId, w.flight[call].resourceId, provisioned, key, 0);
          }
        case _ => {}
      }
    }
  }

  lemma UseAdvances(w: World, call: nat, key: nat)
    requires call in w.flight && w.flight[call] == Using(key)
    ensures Next(w, Advance(call)).db == Revive(w.db, key)
  {
  }

  lemma UseRevives(db: Db, key: nat) returns (i: nat)
    requires key < db.nextId && !NoRow(db, key)
    ensures i < |Revive(db, key).apiKeys|
    ensures Revive(db, key).apiKeys[i].id == key && !Revive(db, key).apiKeys[i].revoked
  {
    i :| i < |db.apiKeys| && db.apiKeys[i].id == key;
    assert Revive(db, key).apiKeys[i] == Reviving(key)(db.apiKeys[i]);
  }

  // ---- Runs ----

  // A use of the key has read its row and not yet written it back.
  ghost predicate InUse(w: World, key: nat) {
    exists c | c in w.flight :: w.flight[c] == Using(key)
  }

  lemma DeadIsInvalid(db: Db, key: nat, service: Service, walletId: Option<string>)
    requires Dead(db, key)
    ensures Validate(db, Some(key), service, walletId) == InvalidKey
  {
  }

  // While a key is dead no use of it begins.
  lemma NoNewUse(w: World, step: Step, key: nat)
    requires Dead(w.db, key) && !InUse(w, key)
    ensures !InUse(Next(w, step), key)
  {
    hide Validate, First, Perform, Finish, Refusal, ActiveIds, AddProduct, AddResource, AddKey, Revoke, Revive;
    match step {
      case StartUse(_, apiKey, service, walletId) => DeadIsInvalid(w.db, key, service, walletId);
      case _ => {}
    }
  }

  // Nothing in flight can bring the key back.
  ghost predicate Final(w: World, key: nat) {
    Dead(w.db, key) && (InUse(w, key) ==> NoRow(w.db, key))
  }

  lemma {:induction false} RunFinal(w: World, steps: seq<Step>, key: nat)
    requires Final(w, key)
    ensures Final(Run(w, steps), key)
  {
    hide Next, Dead, NoRow, Gone, Advancing, InUse;
    if steps != [] {
      RunFinal(w, steps[..|steps| - 1], key);
      var before, step := Run(w, steps[..|steps| - 1]), steps[|steps| - 1];
      NoWriteBack(before, step, key);
      StepKept(before, step, key);
      if !InUse(before, key) {
        NoNewUse(before, step, key);
      }
    }
  }

  lemma NoWriteBack(w: World, step: Step, key: nat)
    requires Final(w, key)
    ensures !WritesBack(w, step, key)
  {
  }

  // A dead key is refused after every further run if and only if no use of it is in flight that could
  // still write its row back.
  lemma DeadForeverExactly(w: World, key: nat)
    requires WorldOk(w) && Dead(w.db, key)
    ensures RefusedForever(w, key) <==> Final(w, key)
  {
    hide WorldOk, Validate, Dead, Run, NoRow;
    if Final(w, key) {
      forall steps, service, walletId ensures Validate(Run(w, steps).db, Some(key), service, walletId) == InvalidKey {
        RunFinal(w, steps, key);
        DeadIsInvalid(Run(w, steps).db, key, service, walletId);
      }
    } else {
      NotForever(w, key);
    }
  }

  ghost predicate RefusedForever(w: World, key: nat) {
    forall steps, service, walletId :: Validate(Run(w, steps).db, Some(key), service, walletId) == InvalidKey
  }

  lemma NotForever(w: World, key: nat)
    requires WorldOk(w) && Dead(w.db, key) && !Final(w, key)
    ensures !RefusedForever(w, key)
  {
    hide WorldOk, Validate, Run, NoRow, Next;
    var c :| c in w.flight && w.flight[c] == Using(key);
    OneStep(w, Advance(c));
    UseAdvances(w, c, key);
    StepKeepsInv(w, Advance(c));
    WorldLinked(Next(w, Advance(c)));
    RevivedIsNotInvalid(w.db, key, Issuer, None);
    assert Validate(Run(w, [Advance(c)]).db, Some(key), Issuer, None) != InvalidKey;
  }

  lemma OneStep(w: World, step: Step)
    ensures Run(w, [step]) == Next(w, step)
  {
    assert [step][..0] == [] && Run(w, []) == w;
  }

  lemma WorldLinked(w: World)
    requires WorldOk(w)
    ensures Linked(w.db)
  {
  }

  lemma RevivedIsNotInvalid(db: Db, key: nat, service: Service, walletId: Option<string>)
    requires key < db.nextId && !NoRow(db, key) && Linked(Revive(db, key))
    ensures Validate(Revive(db, key), Some(key), service, walletId) != InvalidKey
  {
    hide Linked, NoRow, Revive;
    var i := UseRevives(db, key);
    LiveIsKnown(Revive(db, key), i, service, walletId);
  }

  // An unrevoked key of linked tables is known: at most its account, product or resource is in the way.
  lemma LiveIsKnown(db: Db, i: nat, service: Service, walletId: Option<string>)
    requires Linked(db) && i < |db.apiKeys| && !db.apiKeys[i].revoked
    ensures Validate(db, Some(db.apiKeys[i].id), service, walletId) != InvalidKey
  {
    hide First;
    var k := FirstAt(Unrevoked(db.apiKeys[i].id), db.apiKeys);
    var j := FirstAt(ResourceIs(db.apiKeys[k].resourceId), db.resources);
    var p := FirstAt(ProductIs(db.resources[j].productId), db.products);
  }

  // A key revoked by id is refused for ever after, whatever happens next, if and only if no use of it is
  // in flight (or its row is gone).
  lemma RevokedForever(w: World, key: nat)
    requires WorldOk(w) && key < w.db.nextId
    ensures RefusedForever(Next(w, Do(RevokeApiKey(key))), key) <==> !InUse(w, key) || NoRow(w.db, key)
  {
    var next := Next(w, Do(RevokeApiKey(key)));
    StepKeepsInv(w, Do(RevokeApiKey(key)));
    RevokedIsDead(w.db, key);
    hide Next, WorldOk, Dead, NoRow, Validate, Run;
    assert next.flight == w.flight && next.db == Revoke(w.db, key) by { StepRevokes(w, key); }
    DeadForeverExactly(next, key);
  }

  lemma RevokedIsDead(db: Db, key: nat)
    requires key < db.nextId
    ensures Dead(Revoke(db, key), key)
    ensures NoRow(Revoke(db, key), key) <==> NoRow(db, key)
  {
    var after := Revoke(db, key).apiKeys;
    assert forall i | 0 <= i < |after| :: after[i] == Revoking(key)(db.apiKeys[i]) && after[i].id == db.apiKeys[i].id;
  }

  lemma StepRevokes(w: World, key: nat)
    ensures Next(w, Do(RevokeApiKey(key))) == w.(db := Revoke(w.db, key))
  {
  }

  // ---- Rotations in stages ----

  // The key is dead, or a rotation in flight is still to revoke it.
  ghost predicate Covered(w: World, call: nat, key: nat) {
    || Dead(w.db, key)
    || (call in w.flight && w.flight[call].Rotating? && key in w.flight[call].left
        && KeyOf(w.db, key, w.flight[call].resource))
  }

  lemma {:induction false} LiveKeysExact(apiKeys: seq<ApiKey>, resourceId: nat, i: nat)
    requires i < |apiKeys| && apiKeys[i].resourceId == resourceId && !apiKeys[i].revoked
    ensures apiKeys[i].id in LiveKeys(apiKeys, resourceId)
  {
    if i < |apiKeys| - 1 {
      LiveKeysExact(apiKeys[..|apiKeys| - 1], resourceId, i);
    }
  }

  lemma RotationStarts(w: World, call: nat, resourceId: nat, i: nat)
    requires WorldOk(w) && call !in w.flight && i < |w.db.apiKeys| && w.db.apiKeys[i].resourceId == resourceId
    ensures Covered(Next(w, StartRotation(call, resourceId)), call, w.db.apiKeys[i].id)
  {
    KeyInRange(w, i);
    WorldInv(w);
    KeyHasResource(w.db, i);
    StepSnapshots(w, call, resourceId);
    hide LiveKeys, WorldOk, First, Next, Inv;
    KeyRowUnique(w.db, i);
    if !w.db.apiKeys[i].revoked {
      LiveKeysExact(w.db.apiKeys, resourceId, i);
    }
  }

  lemma KeyHasResource(db: Db, i: nat)
    requires Inv(db) && i < |db.apiKeys|
    ensures First(ResourceIs(db.apiKeys[i].resourceId), db.resources).Some?
  {
    hide First, Pairwise, ResourcesLinked, Fresh;
  }

  lemma StepSnapshots(w: World, call: nat, resourceId: nat)
    requires call !in w.flight && First(ResourceIs(resourceId), w.db.resources).Some?
    ensures Next(w, StartRotation(call, resourceId))
         == w.(flight := w.flight[call := Rotating(resourceId, LiveKeys(w.db.apiKeys, resourceId))])
  {
    hide First, LiveKeys;
  }

  lemma KeyRowUnique(db: Db, i: nat)
    requires Inv(db) && i < |db.apiKeys|
    ensures forall j | 0 <= j < |db.apiKeys| && db.apiKeys[j].id == db.apiKeys[i].id :: j == i
  {
    forall j | 0 <= j < |db.apiKeys| && db.apiKeys[j].id == db.apiKeys[i].id ensures j == i {
      assert i < j ==> KeyPair(db.apiKeys[i], db.apiKeys[j]);
      assert j < i ==> KeyPair(db.apiKeys[j], db.apiKeys[i]);
    }
  }

  lemma StepCovers(w: World, step: Step, call: nat, key: nat)
    requires WorldOk(w) && key < w.db.nextId && Covered(w, call, key) && !WritesBack(w, step, key)
    ensures Covered(Next(w, step), call, key)
  {
    hide WritesBack, Dead, Perform, Finish, Inv, StageOk, Validate;
    StepKept(w, step, key);
    if !Dead(w.db, key) && step == Advance(call) {
      CoveredAdvances(w, call, key);
    }
  }

  lemma CoveredAdvances(w: World, call: nat, key: nat)
    requires WorldOk(w) && key < w.db.nextId && call in w.flight
    requires w.flight[call].Rotating? && key in w.flight[call].left && KeyOf(w.db, key, w.flight[call].resource)
    ensures Covered(Next(w, Advance(call)), call, key)
  {
    hide First, Pairwise, ResourcesLinked, StageOk;
    var left := w.flight[call].left;
    assert key == left[0] || key in left[1..];
  }

  // No step of the run writes the row of the key back.
  ghost predicate NeverWrittenBack(w: World, steps: seq<Step>, key: nat) {
    forall i | 0 <= i < |steps| :: !WritesBack(Run(w, steps[..i]), steps[i], key)
  }

  lemma {:induction false} RunCovers(w: World, steps: seq<Step>, call: nat, key: nat)
    requires WorldOk(w) && key < w.db.nextId && Covered(w, call, key) && NeverWrittenBack(w, steps, key)
    ensures Covered(Run(w, steps), call, key) && key < Run(w, steps).db.nextId
  {
    hide Next, WorldOk, Covered, WritesBack;
    if steps != [] {
      var init, step := steps[..|steps| - 1], steps[|steps| - 1];
      assert forall i | 0 <= i < |init| :: init[i] == steps[i] && init[..i] == steps[..i];
      RunCovers(w, init, call, key);
      RunKeepsWorld(w, init);
      StepCovers(Run(w, init), step, call, key);
      IdsGrow(Run(w, init), step);
    }
  }

  lemma IdsGrow(w: World, step: Step)
    requires WorldOk(w)
    ensures w.db.nextId <= Next(w, step).db.nextId
  {
    hide Perform, Finish, Advanced, Started, Undisturbed;
    match step {
      case Do(op) => OpElsewhere(w.db, op, 0);
      case Advance(call) =>
        if call in w.flight {
          var stage := w.flight[call];
          AdvancedElsewhere(w.db, stage, if HasId(stage) then stage.productId + 1 else 0);
        }
      case Complete(call, provisioned) =>
        if call in w.flight && w.flight[call].HasKey? {
          var stage := w.flight[call];
          FinishElsewhere(w.db, stage.productId, stage.resourceId, provisioned, stage.productId + 1);
        }
      case _ => {}
    }
  }

  // Every key the resource has when a rotation begins is refused as soon as the rotation has come to it,
  // whatever else happens, unless a use of that key writes its row back.
  lemma RotationRevokes(w: World, call: nat, resourceId: nat, i: nat, steps: seq<Step>, service: Service,
      walletId: Option<string>)
    requires WorldOk(w) && call !in w.flight && i < |w.db.apiKeys| && w.db.apiKeys[i].resourceId == resourceId
    requires NeverWrittenBack(Next(w, StartRotation(call, resourceId)), steps, w.db.apiKeys[i].id)
    ensures var after := Run(Next(w, StartRotation(call, resourceId)), steps);
            || Validate(after.db, Some(w.db.apiKeys[i].id), service, walletId) == InvalidKey
            || (call in after.flight && after.flight[call].Rotating? && w.db.apiKeys[i].id in after.flight[call].left)
  {
    var key, start := w.db.apiKeys[i].id, Next(w, StartRotation(call, resourceId));
    StepKeepsInv(w, StartRotation(call, resourceId));
    IdsGrow(w, StartRotation(call, resourceId));
    RotationStarts(w, call, resourceId, i);
    KeyInRange(w, i);
    hide Next, WorldOk, Validate, Run, NeverWrittenBack, Dead;
    RunCovers(start, steps, call, key);
    if Dead(Run(start, steps).db, key) {
      DeadIsInvalid(Run(start, steps).db, key, service, walletId);
    }
  }

  lemma KeyInRange(w: World, i: nat)
    requires WorldOk(w) && i < |w.db.apiKeys|
    ensures w.db.apiKeys[i].id < w.db.nextId
  {
  }

  // A rotation leaves every other key as it is, one that was written since it began included: what is
  // left to revoke never grows, and at the end the live keys are those it left and its own.
  lemma RotationSpares(w: World, call: nat, i: nat)
    requires WorldOk(w) && call in w.flight && w.flight[call].Rotating? && i < |w.db.apiKeys|
    requires w.db.apiKeys[i].id !in w.flight[call].left
    ensures var after := Next(w, Advance(call));
            && i < |after.db.apiKeys| && after.db.apiKeys[i] == w.db.apiKeys[i]
            && (call in after.flight ==>
                  after.flight[call].Rotating? && w.db.apiKeys[i].id !in after.flight[call].left)
  {
    hide First, WorldOk;
  }

  lemma RotationEnds(db: Db, resourceId: nat)
    requires First(ResourceIs(resourceId), db.resources).Some?
    ensures LiveKeys(Advanced(db, Rotating(resourceId, [])).0.apiKeys, resourceId)
         == LiveKeys(db.apiKeys, resourceId) + [db.nextId]
  {
    hide First;
    assert (db.apiKeys + [ApiKey(db.nextId, resourceId, false)])[..|db.apiKeys|] == db.apiKeys;
  }

  // After a rotation by itself every earlier key of the resource is refused for ever if and only if no
  // use of it is in flight.
  lemma RotatedForever(w: World, resourceId: nat, i: nat)
    requires WorldOk(w) && i < |w.db.apiKeys| && w.db.apiKeys[i].resourceId == resourceId
    ensures var key := w.db.apiKeys[i].id;
            RefusedForever(Next(w, Do(RotateApiKey(resourceId))), key) <==> !InUse(w, key)
  {
    var next, key := Next(w, Do(RotateApiKey(resourceId))), w.db.apiKeys[i].id;
    StepKeepsInv(w, Do(RotateApiKey(resourceId)));
    StepRotates(w, resourceId);
    WorldInv(w);
    hide WorldOk, Dead, Next, Rotate, Inv, RefusedForever, NoRow;
    DeadAfterRotation(w.db, resourceId, i);
    DeadForeverExactly(next, key);
  }

  lemma WorldInv(w: World)
    requires WorldOk(w)
    ensures Inv(w.db)
  {
  }

  lemma StepRotates(w: World, resourceId: nat)
    ensures Next(w, Do(RotateApiKey(resourceId))) == w.(db := Rotate(w.db, resourceId).0)
  {
  }

  lemma DeadAfterRotation(db: Db, resourceId: nat, i: nat)
    requires Inv(db) && i < |db.apiKeys| && db.apiKeys[i].resourceId == resourceId
    ensures Dead(Rotate(db, resourceId).0, db.apiKeys[i].id)
    ensures !NoRow(Rotate(db, resourceId).0, db.apiKeys[i].id)
  {
    hide ResourcesLinked, First, Updated;
    var after := Rotate(db, resourceId).0;
    assert First(ResourceIs(resourceId), db.resources).Some?;
    hide KeysLinked;
    assert after.apiKeys[i] == RevokingAll(resourceId)(db.apiKeys[i]);
    KeyRowUnique(db, i);
    forall j | 0 <= j < |after.apiKeys| && after.apiKeys[j].id == db.apiKeys[i].id ensures after.apiKeys[j].revoked {
      assert j < |db.apiKeys|;
      assert after.apiKeys[j] == RevokingAll(resourceId)(db.apiKeys[j]);
    }
  }

  // ---- Archived products ----

  // An archived product can be served again only if two calls under way come together: a patch that read
  // it before, and its own creation. Without the first it stays archived, without the second its
  // resources stay suspended.
  ghost predicate Shut(w: World, productId: nat) {
    || (Gone(w.db, productId) && !BeingPatched(w, productId))
    || (productId < w.db.nextId && AllSuspended(w.db, productId) && !BeingCreated(w, productId))
  }

  ghost predicate BeingPatched(w: World, productId: nat) {
    exists c | c in w.flight :: w.flight[c] == Patching(productId)
  }

  ghost predicate BeingCreated(w: World, productId: nat) {
    exists c | c in w.flight :: HasId(w.flight[c]) && w.flight[c].productId == productId
  }

  ghost predicate AllSuspended(db: Db, productId: nat) {
    forall i | 0 <= i < |db.resources| :: db.resources[i].productId == productId ==> db.resources[i].status.Suspended?
  }

  // While a product is archived no patch of it begins.
  lemma NoNewPatch(w: World, step: Step, productId: nat)
    requires Gone(w.db, productId) && !BeingPatched(w, productId)
    ensures !BeingPatched(Next(w, step), productId)
  {
    hide Validate, First, Perform, Finish, Refusal, ActiveIds, AddProduct, AddResource, AddKey, Revoke, Revive, Saved;
    match step {
      case StartPatch(_, accountId, id) =>
        if First(OwnedActive(accountId, id), w.db.products).Some? {
          var j := FirstAt(OwnedActive(accountId, id), w.db.products);
        }
      case _ => {}
    }
  }

  lemma {:induction false} ArchiveAllSuspended(db: Db, ids: seq<nat>, productId: nat)
    requires AllSuspended(db, productId)
    ensures AllSuspended(ArchiveAll(db, ids), productId)
  {
    if ids != [] {
      ArchiveAllSuspended(db, ids[..|ids| - 1], productId);
    }
  }

  ghost predicate OfOther(db: Db, resourceId: nat, productId: nat) {
    forall i | 0 <= i < |db.resources| && db.resources[i].id == resourceId :: db.resources[i].productId != productId
  }

  lemma FinishSuspended(db: Db, id: nat, resourceId: nat, provisioned: bool, productId: nat)
    requires AllSuspended(db, productId)
    requires OfOther(db, resourceId, productId)
    ensures AllSuspended(Finish(db, id, resourceId, provisioned), productId)
  {
    hide First, Selected;
    SelectedMembers(NotOf(id), db.resources);
  }

  lemma CreationSuspended(db: Db, input: Input, provisioned: bool, productId: nat)
    requires Inv(db) && productId < db.nextId && AllSuspended(db, productId)
    ensures AllSuspended(Create(db, input, provisioned).0, productId)
  {
    hide Finish, Linked, Pairwise, ActiveIds, ValidWalletId, First;
    var (db1, r) := Begin(db, input);
    if r.Created? {
      FinishSuspended(db1, r.productId, r.resourceId, provisioned, productId);
    }
  }

  lemma OpSuspended(db: Db, op: Op, productId: nat)
    requires Inv(db) && productId < db.nextId && AllSuspended(db, productId)
    ensures AllSuspended(Perform(db, op), productId)
  {
    hide Inv, Create, ArchiveAll, ActiveIds, SliceFrom, First;
    match op {
      case SetPlan(id, plan) =>
        if id in db.accounts {
          var account := A.WithPlan(db.accounts[id], plan);
          var extras := SliceFrom(ActiveIds(db.products, id), account.maxProducts);
          ArchiveAllSuspended(WithAccount(db, id, account), extras, productId);
        }
      case CreateProduct(input, provisioned) => CreationSuspended(db, input, provisioned, productId);
      case _ => {}
    }
  }

  lemma AdvancedSuspended(db: Db, stage: Stage, productId: nat)
    requires AllSuspended(db, productId) && !(HasId(stage) && stage.productId == productId)
    ensures AllSuspended(Advanced(db, stage).0, productId)
  {
    hide First, Refusal, ActiveIds, SliceFrom, ResourceSaves, SurplusSaves;
  }

  lemma OwnedElsewhere(db: Db, id: nat, resourceId: nat, productId: nat)
    requires Inv(db) && OwnsResource(db, id, resourceId) && id != productId
    ensures OfOther(db, resourceId, productId)
  {
    hide Linked, Fresh;
    var j :| 0 <= j < |db.resources| && db.resources[j].id == resourceId && db.resources[j].productId == id;
    forall i | 0 <= i < |db.resources| && db.resources[i].id == resourceId ensures i == j {
      assert i < j ==> ResourcePair(db.resources[i], db.resources[j]);
      assert j < i ==> ResourcePair(db.resources[j], db.resources[i]);
    }
  }

  // While the resources of a product are suspended and its creation is over, they stay suspended.
  lemma StepSuspended(w: World, step: Step, productId: nat)
    requires WorldOk(w) && productId < w.db.nextId && AllSuspended(w.db, productId) && !BeingCreated(w, productId)
    ensures AllSuspended(Next(w, step).db, productId)
  {
    hide Inv, Perform, Finish, Advanced, Started, AllSuspended, Undisturbed;
    match step {
      case Do(op) => OpSuspended(w.db, op, productId);
      case Advance(call) =>
        if call in w.flight {
          AdvancedSuspended(w.db, w.flight[call], productId);
        }
      case Complete(call, provisioned) =>
        if call in w.flight && w.flight[call].HasKey? {
          var stage := w.flight[call];
          assert StageOk(w.db, stage);
          OwnedElsewhere(w.db, stage.productId, stage.resourceId, productId);
          FinishSuspended(w.db, stage.productId, stage.resourceId, provisioned, productId);
        }
      case _ => {}
    }
  }

  // No creation begins for a product that is there.
  lemma NoNewCreation(w: World, step: Step, productId: nat)
    requires WorldOk(w) && productId < w.db.nextId && !BeingCreated(w, productId)
    ensures !BeingCreated(Next(w, step), productId)
  {
    hide Inv, Perform, Finish, Advanced, Started, StageOk, HasId;
    match step {
      case Do(_) => {}
      case Complete(_, _) => {}
      case Advance(call) =>
        if call in w.flight {
          AdvancedOk(w.db, w.flight[call]);
        }
      case _ => StartedOk(w.db, step);
    }
  }

  lemma StepShut(w: World, step: Step, productId: nat)
    requires WorldOk(w) && Shut(w, productId)
    ensures Shut(Next(w, step), productId)
  {
    IdsGrow(w, step);
    hide WorldOk, Next, Gone, AllSuspended, BeingCreated;
    if Gone(w.db, productId) && !BeingPatched(w, productId) {
      NoNewPatch(w, step, productId);
      StepGone(w, step, productId);
    } else {
      NoNewCreation(w, step, productId);
      StepSuspended(w, step, productId);
    }
  }

  lemma {:induction false} RunShut(w: World, steps: seq<Step>, productId: nat)
    requires WorldOk(w) && Shut(w, productId)
    ensures Shut(Run(w, steps), productId)
  {
    hide Next, Shut, WorldOk;
    if steps != [] {
      RunShut(w, steps[..|steps| - 1], productId);
      RunKeepsWorld(w, steps[..|steps| - 1]);
      StepShut(Run(w, steps[..|steps| - 1]), steps[|steps| - 1], productId);
    }
  }

  lemma ShutIsRefused(w: World, productId: nat, apiKey: Option<nat>, service: Service, walletId: Option<string>)
    requires Shut(w, productId)
    ensures var v := Validate(w.db, apiKey, service, walletId);
            v.Valid? ==> v.productId != productId
  {
    hide First;
    if Validate(w.db, apiKey, service, walletId).Valid? {
      var i, j, k := KeyRows(w.db, apiKey, service, walletId);
    }
  }

  // A product that is shut is never served again, whatever happens next.
  lemma ShutForever(w: World, productId: nat, steps: seq<Step>, apiKey: Option<nat>, service: Service,
      walletId: Option<string>)
    requires WorldOk(w) && Shut(w, productId)
    ensures var v := Validate(Run(w, steps).db, apiKey, service, walletId);
            v.Valid? ==> v.productId != productId
  {
    hide WorldOk, Shut, Validate, Run;
    RunShut(w, steps, productId);
    ShutIsRefused(Run(w, steps), productId, apiKey, service, walletId);
  }

  // An archived product is never served again, not even when its creation was still in flight, unless a
  // patch of it is in flight as well.
  lemma ArchivedForever(w: World, accountId: string, productId: nat, steps: seq<Step>,
                        apiKey: Option<nat>, service: Service, walletId: Option<string>)
    requires WorldOk(w) && First(OwnedActive(accountId, productId), w.db.products).Some?
    requires !(BeingPatched(w, productId) && BeingCreated(w, productId))
    ensures var after := Run(Next(w, Do(ArchiveProduct(accountId, productId))), steps).db;
            var v := Validate(after, apiKey, service, walletId);
            v.Valid? ==> v.productId != productId
  {
    var next := Next(w, Do(ArchiveProduct(accountId, productId)));
    StepKeepsInv(w, Do(ArchiveProduct(accountId, productId)));
    WorldInv(w);
    StepArchives(w, accountId, productId);
    hide WorldOk, Next, First, Archive, Validate, Run, Inv;
    GoneAfterArchiving(w.db, accountId, productId);
    ShutForever(next, productId, steps, apiKey, service, walletId);
  }

  lemma StepArchives(w: World, accountId: string, productId: nat)
    ensures Next(w, Do(ArchiveProduct(accountId, productId))) == w.(db := Archive(w.db, accountId, productId))
  {
  }

  lemma GoneAfterArchiving(db: Db, accountId: string, productId: nat)
    requires Inv(db) && First(OwnedActive(accountId, productId), db.products).Some?
    ensures Gone(Archive(db, accountId, productId), productId)
    ensures AllSuspended(Archive(db, accountId, productId), productId)
  {
    var k := FirstAt(OwnedActive(accountId, productId), db.products);
    hide First, Linked, Pairwise;
    assert db.products[k].id == productId;
  }

  lemma UniqueRows(db: Db)
    requires Inv(db)
    ensures PrimaryKeys(db)
  {
    hide Linked;
    assert forall i, j | 0 <= i < j < |db.products| :: ProductPair(db.products[i], db.products[j]);
    assert forall i, j | 0 <= i < j < |db.resources| :: ResourcePair(db.resources[i], db.resources[j]);
    assert forall i, j | 0 <= i < j < |db.apiKeys| :: KeyPair(db.apiKeys[i], db.apiKeys[j]);
  }

  // A key row with its resource and its product: the key is served exactly when it is unrevoked, the
  // account is active, the product is not archived, the resource is not suspended, and the service
  // and the wallet id asked for are the resource's own.
  lemma ValidateExact(db: Db, i: nat, j: nat, k: nat, service: Service, walletId: Option<string>)
    requires Inv(db)
    requires i < |db.apiKeys| && j < |db.resources| && k < |db.products|
    requires db.apiKeys[i].resourceId == db.resources[j].id && db.resources[j].productId == db.products[k].id
    ensures var key, resource, product := db.apiKeys[i], db.resources[j], db.products[k];
            var verdict := Validate(db, Some(key.id), service, walletId);
            && (verdict.Valid? ==> verdict == Valid(product.accountId, product.id, resource.id))
            && (verdict.Valid? <==>
                  && !key.revoked
                  && product.accountId in db.accounts && db.accounts[product.accountId].status.Active?
                  && !product.archived && !resource.status.Suspended?
                  && resource.service == service && walletId in {None, Some(""), Some(resource.walletId)})
  {
    hide Validate, First, Pairwise, Linked, Fresh;
    UniqueRows(db);
    var key, resource, product := db.apiKeys[i], db.resources[j], db.products[k];
    ValidExactly(db, Some(key.id), service, walletId);
    if Validate(db, Some(key.id), service, walletId).Valid? {
      var a: nat, b: nat, c: nat :| ServedBy(db, Some(key.id), service, walletId, a, b, c);
      assert a == i && b == j && c == k;
    } else {
      assert !ServedBy(db, Some(key.id), service, walletId, i, j, k);
    }
  }

  lemma CreatedRows(db: Db, input: Input)
    ensures var (after, r) := Create(db, input, true);
            r.Created? ==>
              && after.accounts == db.accounts && Admission(db, input.accountId).None?
              && after.products == db.products + [Product(r.productId, input.accountId, false)]
              && |after.resources| == |db.resources| + 1
              && after.resources[|db.resources|]
                  == Resource(r.resourceId, r.productId, input.service, input.walletId, Active)
              && after.apiKeys == db.apiKeys + [ApiKey(r.apiKey, r.resourceId, false)]
  {
    hide Admission, Refusal, Selected;
    var (db1, r) := Begin(db, input);
    if r.Created? {
      assert db1.resources[|db.resources|]
          == Resource(r.resourceId, r.productId, input.service, input.walletId, Pending);
      assert First(ResourceIs(r.resourceId), db1.resources).Some?;
    }
  }

  // A product just created can be used at once, with the key that was returned.
  lemma CreatedIsUsable(db: Db, input: Input)
    requires Inv(db)
    ensures var (after, r) := Create(db, input, true);
            r.Created? ==>
              Validate(after, Some(r.apiKey), input.service, Some(input.walletId))
                == Valid(input.accountId, r.productId, r.resourceId)
  {
    hide Inv, Linked, Validate, Create, First, ActiveIds;
    var (after, r) := Create(db, input, true);
    if r.Created? {
      CreateKeeps(db, input, true, NoneDue());
      CreatedRows(db, input);
      ValidateExact(after, |db.apiKeys|, |db.resources|, |db.products|, input.service, Some(input.walletId));
    }
  }

  // A rotation replaces the key: the new one is judged as any key of the resource.
  lemma RotatedKeyServed(db: Db, j: nat, k: nat, service: Service, walletId: Option<string>)
    requires Inv(db) && j < |db.resources| && k < |db.products| && db.resources[j].productId == db.products[k].id
    ensures var (after, key) := Rotate(db, db.resources[j].id);
            var resource, product := db.resources[j], db.products[k];
            key.Some? &&
            (Validate(after, key, service, walletId).Valid? <==>
               && product.accountId in db.accounts && db.accounts[product.accountId].status.Active?
               && !product.archived && !resource.status.Suspended?
               && resource.service == service && walletId in {None, Some(""), Some(resource.walletId)})
  {
    hide Linked, Validate, Updated, Pairwise;
    RotateKeeps(db, db.resources[j].id);
    var (after, key) := Rotate(db, db.resources[j].id);
    ValidateExact(after, |db.apiKeys|, j, k, service, walletId);
  }
}
