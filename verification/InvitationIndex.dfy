// The index from invitations to pending entries that both in-memory stores keep: whatever else a
// store does, an entry leaves the index when it is handed out and never comes back.
module InvitationIndex {
  import opened Options

  type Index = map<string, string>

  // What one call on a store does to its index: it drops the invitations its purge finds expired,
  // and then adds an entry, or uses an invitation, or does no more.
  datatype Step =
    | Purge(dropped: set<string>)
    | Put(dropped: set<string>, oob: string, id: string)
    | Use(dropped: set<string>, oob: string)

  function Next(index: Index, step: Step): Index {
    match step
    case Purge(dropped) => index - dropped
    case Put(dropped, oob, id) => (index - dropped)[oob := id]
    case Use(dropped, oob) => index - dropped - {oob}
  }

  // The entry an invitation leads to when it is used.
  function Found(index: Index, step: Step): Option<string> {
    if step.Use? && step.oob in index && step.oob !in step.dropped then Some(index[step.oob]) else None
  }

  // The index before each step and after the last one.
  ghost predicate Trace(indexes: seq<Index>, steps: seq<Step>) {
    && |indexes| == |steps| + 1 && indexes[0] == map[]
    && forall k | 0 <= k < |steps| :: indexes[k + 1] == Next(indexes[k], steps[k])
  }

  // Identifiers of new entries are fresh; invitations may be shared and come in any order.
  ghost predicate FreshIds(steps: seq<Step>) {
    forall i, j | 0 <= i < j < |steps| && steps[i].Put? && steps[j].Put? :: steps[i].id != steps[j].id
  }

  // One of the first `n` steps put `id` in the index under `oob`.
  ghost predicate PutBefore(steps: seq<Step>, n: nat, id: string, oob: string) {
    exists k | 0 <= k < n && k < |steps| :: steps[k] == Put(steps[k].dropped, oob, id)
  }

  predicate Absent(index: Index, id: string) {
    forall oob | oob in index :: index[oob] != id
  }

  lemma {:induction false} IndexedWerePut(indexes: seq<Index>, steps: seq<Step>, n: nat)
    requires Trace(indexes, steps) && n <= |steps|
    ensures forall oob | oob in indexes[n] :: PutBefore(steps, n, indexes[n][oob], oob)
  {
    if n > 0 {
      IndexedWerePut(indexes, steps, n - 1);
      assert indexes[n] == Next(indexes[n - 1], steps[n - 1]);
      forall oob | oob in indexes[n] ensures PutBefore(steps, n, indexes[n][oob], oob) {
        if steps[n - 1].Put? && steps[n - 1].oob == oob {
          assert steps[n - 1] == Put(steps[n - 1].dropped, oob, indexes[n][oob]);
        } else {
          assert PutBefore(steps, n - 1, indexes[n - 1][oob], oob);
        }
      }
    }
  }

  // An entry found is then in the index no more.
  lemma FoundLeaves(indexes: seq<Index>, steps: seq<Step>, n: nat, id: string)
    requires Trace(indexes, steps) && FreshIds(steps) && n < |steps|
    requires Found(indexes[n], steps[n]) == Some(id)
    ensures Absent(indexes[n + 1], id) && PutBefore(steps, n, id, steps[n].oob)
  {
    IndexedWerePut(indexes, steps, n);
    assert indexes[n + 1] == Next(indexes[n], steps[n]);
    var k :| 0 <= k < n && steps[k] == Put(steps[k].dropped, steps[n].oob, id);
    forall oob | oob in indexes[n + 1] ensures indexes[n][oob] != id {
      assert PutBefore(steps, n, indexes[n][oob], oob);
      var j :| 0 <= j < n && steps[j] == Put(steps[j].dropped, oob, indexes[n][oob]);
      assert j != k;
    }
  }

  lemma {:induction false} StaysAbsent(indexes: seq<Index>, steps: seq<Step>, a: nat, b: nat, id: string, oob: string)
    requires Trace(indexes, steps) && FreshIds(steps) && a <= b <= |steps|
    requires Absent(indexes[a], id) && PutBefore(steps, a, id, oob)
    ensures Absent(indexes[b], id)
  {
    if a < b {
      StaysAbsent(indexes, steps, a, b - 1, id, oob);
      assert indexes[b] == Next(indexes[b - 1], steps[b - 1]);
      var k :| 0 <= k < a && steps[k] == Put(steps[k].dropped, oob, id);
    }
  }

  // No run finds the same entry twice.
  lemma FoundOnce(indexes: seq<Index>, steps: seq<Step>, a: nat, b: nat, id: string)
    requires Trace(indexes, steps) && FreshIds(steps) && a < b < |steps|
    requires Found(indexes[a], steps[a]) == Some(id)
    ensures Found(indexes[b], steps[b]) != Some(id)
  {
    FoundLeaves(indexes, steps, a, id);
    assert PutBefore(steps, a + 1, id, steps[a].oob);
    StaysAbsent(indexes, steps, a + 1, b, id, steps[a].oob);
  }
}
