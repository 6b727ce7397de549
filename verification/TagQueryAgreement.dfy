// When the SQL clause and the in-memory matcher select the same records, and where its parameters
// may stand.
module TagQueryAgreement {
  import opened Options
  import opened TagQuery
  import opened SqlCondition
  import opened TagQuerySql

  // No boolean in the value can meet an array tag and be taken for a text: booleans are absent, or
  // (in an any-of array) their spelling is asked for anyway.
  predicate FaithfulValue(value: QueryValue, mode: ArrayMode) {
    match value
    case QNull => true
    case QScalar(v) => v.Str?
    case QArray(vs) => mode.AtLeastOne? ==> forall v | v in vs :: Str(Spelling(v)) in vs
  }

  predicate FaithfulId(q: Query) {
    var id := Lookup(q.entries, "id");
    id.QNull? || (id.QScalar? && id.v.Str?)
  }

  predicate FaithfulBranch(b: seq<Entry>) {
    forall i | 0 <= i < |b| :: FaithfulValue(b[i].value, AtLeastOne)
  }

  // What a caller can check on a query beforehand: a textual id, no boolean against tags that may be
  // arrays, and no empty `$or`.
  predicate Faithful(q: Query) {
    && FaithfulId(q)
    && (forall i | 0 <= i < |q.entries| :: Skipped(q.entries[i]) || FaithfulValue(q.entries[i].value, Every))
    && (q.or.Some? ==> q.or.value != [] && forall i | 0 <= i < |q.or.value| :: FaithfulBranch(q.or.value[i]))
  }

  // The same check against one record: a boolean is harmless unless the tag it meets is an array.
  predicate Clear(tags: Tags, e: Entry, mode: ArrayMode) {
    !Ignored(e, mode) && e.key in tags && tags[e.key].TagList? ==> FaithfulValue(e.value, mode)
  }

  predicate AllClear(tags: Tags, es: seq<Entry>, mode: ArrayMode) {
    forall i | 0 <= i < |es| :: Clear(tags, es[i], mode)
  }

  // A textual id filter (or one that no text of the record's id spells out), no empty `$or`, and no
  // boolean that meets an array tag of the record.
  predicate FaithfulOn(q: Query, r: StoredRecord) {
    && (FaithfulId(q) || DriverText(Lookup(q.entries, "id")) != r.id)
    && AllClear(r.tags, q.entries, Every)
    && (q.or.Some? ==> q.or.value != [] && forall i | 0 <= i < |q.or.value| ::
        AllClear(r.tags, q.or.value[i], AtLeastOne))
  }

  // A faithful query is so on every record.
  lemma FaithfulOnAll(q: Query, r: StoredRecord)
    requires Faithful(q)
    ensures FaithfulOn(q, r)
  {
    if q.or.Some? {
      forall i | 0 <= i < |q.or.value| ensures AllClear(r.tags, q.or.value[i], AtLeastOne) {
        assert FaithfulBranch(q.or.value[i]);
      }
    }
  }

  lemma ConditionAgreement(tags: Tags, key: string, value: QueryValue, mode: ArrayMode)
    ensures MatchesTagEntry(tags, key, value, mode) ==> Holds(tags, key, value, mode)
    ensures (key in tags && tags[key].TagList? ==> FaithfulValue(value, mode)) ==>
              MatchesTagEntry(tags, key, value, mode) == Holds(tags, key, value, mode)
  {
    if key in tags && tags[key].TagList? && value.QArray? {
      var list := tags[key].list;
      assert forall v | v in value.vs && Includes(list, v) :: Spelling(v) in list;
      assert forall v | v in value.vs && Spelling(v) in list :: Includes(list, Str(Spelling(v)));
    }
  }

  // One condition agrees with the matcher on every record exactly when its value is faithful.
  lemma ConditionExact(key: string, value: QueryValue, mode: ArrayMode)
    ensures (forall tags: Tags :: MatchesTagEntry(tags, key, value, mode) == Holds(tags, key, value, mode))
       <==> FaithfulValue(value, mode)
  {
    forall tags: Tags { ConditionAgreement(tags, key, value, mode); }
    if !FaithfulValue(value, mode) {
      var bad := if value.QScalar? then value.v else var v :| v in value.vs && Str(Spelling(v)) !in value.vs; v;
      var tags: Tags := map[key := TagList([Spelling(bad)])];
      assert Holds(tags, key, value, mode);
      assert !MatchesTagEntry(tags, key, value, mode);
    }
  }

  lemma BranchAgreement(tags: Tags, b: seq<Entry>)
    ensures MatchesBranch(tags, b) ==> HoldsAll(tags, b, AtLeastOne)
    ensures AllClear(tags, b, AtLeastOne) ==> MatchesBranch(tags, b) == HoldsAll(tags, b, AtLeastOne)
  {
    forall i | 0 <= i < |b|
      ensures b[i] in b
      ensures MatchesTagEntry(tags, b[i].key, b[i].value, AtLeastOne) ==> Passes(tags, b[i], AtLeastOne)
      ensures Clear(tags, b[i], AtLeastOne) ==>
        (b[i].value.QNull? || MatchesTagEntry(tags, b[i].key, b[i].value, AtLeastOne)) == Passes(tags, b[i], AtLeastOne)
    {
      ConditionAgreement(tags, b[i].key, b[i].value, AtLeastOne);
    }
  }

  predicate MatchesEntries(tags: Tags, es: seq<Entry>) {
    forall e | e in es :: Skipped(e) || MatchesTagEntry(tags, e.key, e.value, Every)
  }

  lemma EntriesAgreement(tags: Tags, es: seq<Entry>)
    ensures MatchesEntries(tags, es) ==> HoldsAll(tags, es, Every)
    ensures AllClear(tags, es, Every) ==> MatchesEntries(tags, es) == HoldsAll(tags, es, Every)
  {
    forall i | 0 <= i < |es|
      ensures es[i] in es
      ensures MatchesTagEntry(tags, es[i].key, es[i].value, Every) ==> Passes(tags, es[i], Every)
      ensures Clear(tags, es[i], Every) ==>
        (Skipped(es[i]) || MatchesTagEntry(tags, es[i].key, es[i].value, Every)) == Passes(tags, es[i], Every)
    {
      ConditionAgreement(tags, es[i].key, es[i].value, Every);
    }
  }

  // For every query and record: a record the matcher accepts is selected; and the two agree on a
  // record unless the id filter is no text, `$or` is empty or a boolean meets an array tag of it.
  lemma Agreement(q: Query, r: StoredRecord)
    ensures Matches(r, q) ==> Selects(q, r)
    ensures FaithfulOn(q, r) ==> Matches(r, q) == Selects(q, r)
    ensures Faithful(q) ==> FaithfulOn(q, r)
  {
    hide Holds, Ignored, Clear, MatchesTagEntry, Skipped, FaithfulBranch, FaithfulValue;
    if Faithful(q) {
      FaithfulOnAll(q, r);
    }
    EntriesAgreement(r.tags, q.entries);
    assert Matches(r, q) ==> MatchesEntries(r.tags, q.entries);
    if q.or.Some? {
      forall i | 0 <= i < |q.or.value|
        ensures q.or.value[i] in q.or.value
        ensures MatchesBranch(r.tags, q.or.value[i]) ==> HoldsAll(r.tags, q.or.value[i], AtLeastOne)
        ensures AllClear(r.tags, q.or.value[i], AtLeastOne) ==>
          MatchesBranch(r.tags, q.or.value[i]) == HoldsAll(r.tags, q.or.value[i], AtLeastOne)
      {
        BranchAgreement(r.tags, q.or.value[i]);
      }
    }
  }

  // The main statement: the emitted text, with its parameters bound from `start` on among any
  // others, has the value the matcher gives on every row on which the query is faithful.
  lemma TranslationCorrect(q: Query, start: nat, row: Row, before: seq<Param>, after: seq<Param>)
    requires row.id == row.stored.id
    requires start == |before| + 1
    ensures var text := PrintDisj(Clause(q, start));
            var params := before + Conditions(q, start).params + after;
            && EvalText(text, row, params) == ToTri(Selects(q, row.stored))
            && (Matches(row.stored, q) ==> EvalText(text, row, params) == True)
            && (FaithfulOn(q, row.stored) ==> EvalText(text, row, params) == ToTri(Matches(row.stored, q)))
  {
    var mine := Conditions(q, start).params;
    var params := before + mine + after;
    assert params[start - 1..start - 1 + |mine|] == mine;
    ParsePrint(Clause(q, start));
    ClauseMeaning(q, start, row, params);
    Agreement(q, row.stored);
  }

  // ---- Exactness ----

  predicate AllText(value: QueryValue) { value.QArray? ==> forall v | v in value.vs :: v.Str? }

  predicate TextArrays(q: Query) {
    && (forall i | 0 <= i < |q.entries| :: AllText(q.entries[i].value))
    && (q.or.Some? ==> forall i, j | 0 <= i < |q.or.value| && 0 <= j < |q.or.value[i]| ::
        AllText(q.or.value[i][j].value))
  }

  // An any-of filter with no alternatives can never hold.
  predicate Barren(b: seq<Entry>) {
    exists i | 0 <= i < |b| :: b[i].value == QArray([])
  }

  predicate BarrenOr(q: Query) {
    q.or.Some? && q.or.value != [] && forall i | 0 <= i < |q.or.value| :: Barren(q.or.value[i])
  }

  lemma BarrenSelectsNothing(q: Query, r: StoredRecord)
    requires BarrenOr(q)
    ensures !Selects(q, r) && !Matches(r, q)
  {
    Agreement(q, r);
    forall i | 0 <= i < |q.or.value|
      ensures !HoldsAll(r.tags, q.or.value[i], AtLeastOne)
    {
      var b := q.or.value[i];
      var j :| 0 <= j < |b| && b[j].value == QArray([]);
      assert !Passes(r.tags, b[j], AtLeastOne);
    }
  }

  function TextsOf(es: seq<Entry>): seq<string> {
    if es == [] then []
    else
      var here := match es[0].value
        case QNull => []
        case QScalar(v) => [Spelling(v)]
        case QArray(vs) => Spellings(vs);
      here + TextsOf(es[1..])
  }

  lemma {:induction false} TextsCover(es: seq<Entry>, i: nat)
    requires i < |es|
    ensures es[i].value.QScalar? ==> Spelling(es[i].value.v) in TextsOf(es)
    ensures es[i].value.QArray? ==> forall v | v in es[i].value.vs :: Spelling(v) in TextsOf(es)
  {
    if i == 0 {
      if es[0].value.QArray? {
        var vs := es[0].value.vs;
        forall v | v in vs ensures Spelling(v) in Spellings(vs) {
          var k :| 0 <= k < |vs| && vs[k] == v;
          assert Spellings(vs)[k] == Spelling(v);
        }
      }
    } else {
      TextsCover(es[1..], i - 1);
    }
  }

  // The record whose every tag named by the query's own entries and by one branch is an array of every
  // text in them.
  function Generous(q: Query, branch: seq<Entry>): StoredRecord {
    var all := q.entries + branch;
    var keys := set i | 0 <= i < |all| :: all[i].key;
    StoredRecord(DriverText(Lookup(q.entries, "id")), None, map k | k in keys :: TagList(TextsOf(all)))
  }

  lemma GenerousPasses(q: Query, branch: seq<Entry>, i: nat, mode: ArrayMode)
    requires var all := q.entries + branch; i < |all| && AllText(all[i].value)
    requires mode.AtLeastOne? ==> (q.entries + branch)[i].value != QArray([])
    ensures Passes(Generous(q, branch).tags, (q.entries + branch)[i], mode)
  {
    var all := q.entries + branch;
    TextsCover(all, i);
    var tags := Generous(q, branch).tags;
    assert all[i].key in tags;
    var list := tags[all[i].key].list;
    if all[i].value.QArray? && mode.AtLeastOne? {
      var vs := all[i].value.vs;
      assert vs[0] in vs && Spelling(vs[0]) in list;
    }
  }

  // The branch a generous record is made for: the query's own when it has one.
  ghost predicate BranchOf(q: Query, branch: seq<Entry>) {
    if q.or.Some? && q.or.value != [] then
      !Barren(branch) && exists i | 0 <= i < |q.or.value| :: q.or.value[i] == branch
    else branch == []
  }

  lemma GenerousSelected(q: Query, branch: seq<Entry>)
    requires TextArrays(q) && BranchOf(q, branch)
    ensures Selects(q, Generous(q, branch))
  {
    var all := q.entries + branch;
    var tags := Generous(q, branch).tags;
    forall i | 0 <= i < |q.entries| ensures Passes(tags, q.entries[i], Every) {
      assert all[i] == q.entries[i];
      GenerousPasses(q, branch, i, Every);
    }
    forall j | 0 <= j < |branch| ensures Passes(tags, branch[j], AtLeastOne) {
      assert all[|q.entries| + j] == branch[j];
      GenerousPasses(q, branch, |q.entries| + j, AtLeastOne);
    }
    assert HoldsAll(tags, branch, AtLeastOne);
  }

  // The id filter and the entries outside `$or`.
  predicate FaithfulOutside(q: Query) {
    FaithfulId(q) && forall i | 0 <= i < |q.entries| ::
        Skipped(q.entries[i]) || FaithfulValue(q.entries[i].value, Every)
  }

  predicate FaithfulBranches(q: Query) {
    q.or.Some? ==> forall i | 0 <= i < |q.or.value| :: FaithfulBranch(q.or.value[i])
  }

  lemma GenerousRejects(q: Query, branch: seq<Entry>, i: nat, mode: ArrayMode)
    requires var all := q.entries + branch; i < |all| && AllText(all[i].value) && !FaithfulValue(all[i].value, mode)
    ensures var e := (q.entries + branch)[i]; !MatchesTagEntry(Generous(q, branch).tags, e.key, e.value, mode)
  {
    var all := q.entries + branch;
    assert all[i].value.QScalar? && all[i].value.v.Bool?;
    assert all[i].key in Generous(q, branch).tags;
  }

  lemma GenerousRejected(q: Query, branch: seq<Entry>)
    requires TextArrays(q) && BranchOf(q, branch)
    requires !FaithfulOutside(q) || q.or == Some([]) || (q.or.Some? && |q.or.value| == 1 && !FaithfulBranch(branch))
    ensures !Matches(Generous(q, branch), q)
  {
    hide MatchesTagEntry, FaithfulValue, AllText, Barren;
    var all := q.entries + branch;
    if i :| 0 <= i < |q.entries| && !Skipped(q.entries[i]) && !FaithfulValue(q.entries[i].value, Every) {
      assert all[i] == q.entries[i] && q.entries[i] in q.entries;
      GenerousRejects(q, branch, i, Every);
    } else if FaithfulId(q) && q.or.Some? && q.or.value != [] {
      var j :| 0 <= j < |branch| && !FaithfulValue(branch[j].value, AtLeastOne);
      assert branch == q.or.value[0];
      assert all[|q.entries| + j] == branch[j] && branch[j] in branch;
      assert AllText(branch[j].value);
      NullIsFaithful(branch[j].value);
      GenerousRejects(q, branch, |q.entries| + j, AtLeastOne);
      assert !MatchesBranch(Generous(q, branch).tags, branch);
    }
  }

  lemma NullIsFaithful(value: QueryValue)
    ensures value.QNull? ==> FaithfulValue(value, AtLeastOne)
  {
  }

  // Several branches, one of them with a boolean, beside faithful entries: one branch may then accept
  // the records on which another differs.
  predicate Overlapping(q: Query) {
    q.or.Some? && |q.or.value| > 1 && FaithfulOutside(q) && !FaithfulBranches(q)
  }

  lemma SomeBranchOf(q: Query) returns (branch: seq<Entry>)
    requires !BarrenOr(q)
    ensures BranchOf(q, branch)
  {
    branch := [];
    if q.or.Some? && q.or.value != [] {
      var i :| 0 <= i < |q.or.value| && !Barren(q.or.value[i]);
      branch := q.or.value[i];
    }
  }

  // For queries with textual arrays whose branches do not overlap in that sense: SQL and matcher agree
  // on all records if and only if the query is faithful, or all its branches ask for any of no values.
  lemma AgreementExact(q: Query)
    requires TextArrays(q) && !Overlapping(q)
    ensures (forall r :: Selects(q, r) == Matches(r, q)) <==> Faithful(q) || BarrenOr(q)
  {
    if BarrenOr(q) {
      forall r { BarrenSelectsNothing(q, r); }
    } else if Faithful(q) {
      forall r { Agreement(q, r); }
    } else {
      var branch := SomeBranchOf(q);
      assert q.or.Some? && |q.or.value| == 1 ==> branch == q.or.value[0];
      GenerousSelected(q, branch);
      GenerousRejected(q, branch);
    }
  }

  // ---- Parameters ----

  predicate InRange(n: nat, lo: nat, hi: nat) { lo <= n < hi }

  predicate AtomInRange(a: Atom, lo: nat, hi: nat) {
    match a
    case TrueLiteral => true
    case ColumnEq(_, n) => InRange(n, lo, hi)
    case Exists(k) => InRange(k, lo, hi)
    case IsArray(k) => InRange(k, lo, hi)
    case HasAny(k, n) => InRange(k, lo, hi) && InRange(n, lo, hi)
    case Contains(k, n) => InRange(k, lo, hi) && InRange(n, lo, hi)
    case CaseScalar(k, n, m) => InRange(k, lo, hi) && InRange(n, lo, hi) && InRange(m, lo, hi)
  }

  // Every `$n` of a condition lies in [lo, hi).
  predicate PrimInRange(p: Prim, lo: nat, hi: nat) {
    match p
    case Leaf(a) => AtomInRange(a, lo, hi)
    case Group(d) => DisjInRange(d, lo, hi)
  }

  predicate ConjInRange(c: Conj, lo: nat, hi: nat) {
    match c
    case One(p) => PrimInRange(p, lo, hi)
    case AndThen(p, rest) => PrimInRange(p, lo, hi) && ConjInRange(rest, lo, hi)
  }

  predicate DisjInRange(d: Disj, lo: nat, hi: nat) {
    match d
    case Only(c) => ConjInRange(c, lo, hi)
    case OrElse(c, more) => ConjInRange(c, lo, hi) && DisjInRange(more, lo, hi)
  }

  predicate AllInRange(ps: seq<Prim>, lo: nat, hi: nat) {
    forall i | 0 <= i < |ps| :: PrimInRange(ps[i], lo, hi)
  }

  lemma {:induction false} ConjOfInRange(ps: seq<Prim>, lo: nat, hi: nat)
    requires AllInRange(ps, lo, hi)
    ensures ConjInRange(ConjOf(ps), lo, hi)
  {
    if |ps| > 1 {
      ConjOfInRange(ps[1..], lo, hi);
    }
  }

  lemma {:induction false} DisjOfInRange(cs: seq<Conj>, lo: nat, hi: nat)
    requires cs != [] && forall i | 0 <= i < |cs| :: ConjInRange(cs[i], lo, hi)
    ensures DisjInRange(DisjOf(cs), lo, hi)
  {
    if |cs| > 1 {
      DisjOfInRange(cs[1..], lo, hi);
    }
  }

  lemma ConditionInRange(key: string, value: QueryValue, mode: ArrayMode, next: nat, lo: nat, hi: nat)
    requires !value.QNull? && lo <= next
    requires next + |TagCondition(key, value, mode, next).params| <= hi
    ensures PrimInRange(TagCondition(key, value, mode, next).prim, lo, hi)
  {
    match value
    case QArray(_) =>
      var last := if mode.AtLeastOne? then HasAny(next, next + 1) else Contains(next, next + 1);
      var c3 := One(Leaf(last));
      var c2 := AndThen(Leaf(IsArray(next)), c3);
      assert ConjInRange(c3, lo, hi) && ConjInRange(c2, lo, hi);
      assert DisjInRange(Only(AndThen(Leaf(Exists(next)), c2)), lo, hi);
    case QScalar(_) =>
      var c2 := One(Leaf(CaseScalar(next, next + 1, next + 2)));
      assert DisjInRange(Only(c2), lo, hi);
      assert ConjInRange(One(Group(Only(c2))), lo, hi);
      assert DisjInRange(Only(AndThen(Leaf(Exists(next)), One(Group(Only(c2))))), lo, hi);
  }

  lemma {:induction false} EntriesInRange(es: seq<Entry>, mode: ArrayMode, next: nat, lo: nat, hi: nat)
    requires lo <= next && next + |EntryConditions(es, mode, next).params| <= hi
    ensures AllInRange(EntryConditions(es, mode, next).items, lo, hi)
  {
    hide TagCondition, PrimInRange;
    if es != [] {
      var init, e := es[..|es| - 1], es[|es| - 1];
      EntriesInRange(init, mode, next, lo, hi);
      if !Ignored(e, mode) {
        ConditionInRange(e.key, e.value, mode, next + |EntryConditions(init, mode, next).params|, lo, hi);
      }
    }
  }

  lemma {:induction false} BranchesInRange(bs: seq<seq<Entry>>, next: nat, lo: nat, hi: nat)
    requires lo <= next && next + |BranchConditions(bs, next).params| <= hi
    ensures forall i | 0 <= i < |bs| :: ConjInRange(BranchConditions(bs, next).items[i], lo, hi)
  {
    hide EntryConditions, ConjInRange, AllInRange;
    if bs != [] {
      var init, b := bs[..|bs| - 1], bs[|bs| - 1];
      BranchesInRange(init, next, lo, hi);
      var at := next + |BranchConditions(init, next).params|;
      EntriesInRange(b, AtLeastOne, at, lo, hi);
      ConjOfInRange(EntryConditions(b, AtLeastOne, at).items, lo, hi);
    }
  }

  // The clause refers only to its own parameters: it never reads a slot before `start` or after them.
  lemma ClauseInRange(q: Query, start: nat)
    ensures DisjInRange(Clause(q, start), start, start + |Conditions(q, start).params|)
  {
    hide EntryConditions, BranchConditions;
    var lo, hi := start, start + |Conditions(q, start).params|;
    var ids := IdConditions(q, start);
    var next := start + |ids.params|;
    var tags := EntryConditions(q.entries, Every, next);
    EntriesInRange(q.entries, Every, next, lo, hi);
    var ors := OrConditions(q, next + |tags.params|);
    if ors.items != [] {
      BranchesInRange(q.or.value, next + |tags.params|, lo, hi);
      DisjOfInRange(BranchConditions(q.or.value, next + |tags.params|).items, lo, hi);
    }
    assert AllInRange(ids.items, lo, hi) && AllInRange(tags.items, lo, hi) && AllInRange(ors.items, lo, hi);
    ConjOfInRange(ids.items + tags.items + ors.items, lo, hi);
  }

  // ---- Concrete queries on which the two disagree ----

  // A boolean against an array tag is spelled out by SQL; an empty `$or` is ignored by SQL.
  lemma Disagreements()
    ensures var q := Query([Entry("a", QScalar(Bool(true)))], None);
            var r := StoredRecord("1", None, map["a" := TagList(["true"])]);
            Selects(q, r) && !Matches(r, q)
    ensures var q := Query([], Some([]));
            var r := StoredRecord("1", None, map[]);
            Selects(q, r) && !Matches(r, q)
  {
    var q := Query([Entry("a", QScalar(Bool(true)))], None);
    var tags: Tags := map["a" := TagList(["true"])];
    assert q.entries[0] in q.entries;
    assert !MatchesTagEntry(tags, "a", QScalar(Bool(true)), Every);
    assert Lookup(q.entries[1..], "id") == QNull;
  }
}
