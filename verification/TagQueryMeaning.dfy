// What a tag query asks for, said outright: the id filter, the filters on tags and the branches of
// `$or`, for the matcher and for the emitted text, without any of the functions these two share.
module TagQueryMeaning {
  import opened Options
  import opened TagQuery
  import opened SqlCondition
  import opened TagQuerySql
  import opened TagQueryAgreement

  // The keys of an object are distinct.
  predicate DistinctKeys(es: seq<Entry>) {
    forall i, j | 0 <= i < j < |es| :: es[i].key != es[j].key
  }

  lemma {:induction false} LookupFinds(es: seq<Entry>, key: string)
    requires DistinctKeys(es)
    ensures forall i | 0 <= i < |es| && es[i].key == key :: Lookup(es, key) == es[i].value
    ensures (forall i | 0 <= i < |es| :: es[i].key != key) ==> Lookup(es, key) == QNull
  {
    if es != [] && es[0].key != key {
      LookupFinds(es[1..], key);
      assert forall i | 0 < i < |es| :: es[i] == es[1..][i - 1];
    }
  }

  // ---- The matcher ----

  // A filter on one tag: the tag is that scalar or an array with that text among its elements; an array
  // of values asks for an array tag with all of them, or inside `$or` with one of them.
  lemma MatcherOnTag(tags: Tags, key: string, value: QueryValue, mode: ArrayMode)
    ensures !value.QNull? ==>
              (MatchesTagEntry(tags, key, value, mode) <==>
                 && key in tags
                 && match value
                    case QScalar(Str(s)) =>
                      tags[key] == TagScalar(Str(s)) || (tags[key].TagList? && s in tags[key].list)
                    case QScalar(Bool(b)) => tags[key] == TagScalar(Bool(b))
                    case QArray(vs) =>
                      && tags[key].TagList?
                      && if mode == Every then forall v | v in vs :: v.Str? && v.s in tags[key].list
                         else exists v | v in vs :: v.Str? && v.s in tags[key].list)
  {
  }

  // All entries of a branch of `$or` that are not null match.
  predicate BranchMet(tags: Tags, b: seq<Entry>) {
    forall i | 0 <= i < |b| :: b[i].value == QNull || MatchesTagEntry(tags, b[i].key, b[i].value, AtLeastOne)
  }

  lemma MatcherOnBranch(tags: Tags, b: seq<Entry>)
    ensures MatchesBranch(tags, b) <==> BranchMet(tags, b)
  {
    hide MatchesTagEntry;
    assert forall i | 0 <= i < |b| :: b[i] in b;
  }

  // All entries but the id and `$or` that are not null match.
  predicate EntriesMet(tags: Tags, es: seq<Entry>) {
    forall i | 0 <= i < |es| ::
      es[i].key == "id" || es[i].key == "$or" || es[i].value == QNull ||
      MatchesTagEntry(tags, es[i].key, es[i].value, Every)
  }

  lemma MatcherOnEntries(tags: Tags, es: seq<Entry>)
    ensures MatchesEntries(tags, es) <==> EntriesMet(tags, es)
  {
    hide MatchesTagEntry;
    assert forall i | 0 <= i < |es| :: es[i] in es;
  }

  predicate IdMet(es: seq<Entry>, id: string) {
    forall i | 0 <= i < |es| && es[i].key == "id" :: es[i].value == QNull || es[i].value == QScalar(Str(id))
  }

  // matchesRecordTagQuery: the id, if one is asked for, is the record's; every other entry but `$or`
  // that is not null matches; and with a `$or`, one of its branches is met.
  lemma MatcherOnQuery(q: Query, r: StoredRecord)
    requires DistinctKeys(q.entries)
    ensures Matches(r, q) <==>
              && IdMet(q.entries, r.id) && EntriesMet(r.tags, q.entries)
              && (q.or.Some? ==> exists b | b in q.or.value :: BranchMet(r.tags, b))
  {
    hide MatchesTagEntry, MatchesBranch, BranchMet, EntriesMet;
    LookupFinds(q.entries, "id");
    MatcherOnEntries(r.tags, q.entries);
    assert Matches(r, q) ==> MatchesEntries(r.tags, q.entries);
    forall b ensures MatchesBranch(r.tags, b) == BranchMet(r.tags, b) {
      MatcherOnBranch(r.tags, b);
    }
    assert IdMet(q.entries, r.id) <==> (var id := Lookup(q.entries, "id"); id.QNull? || id == QScalar(Str(r.id)));
  }

  // ---- The emitted text ----

  // The value of the whole emitted text on a row, with its parameters behind some others and before some
  // more.
  function TextValue(q: Query, row: Row, before: seq<Param>, after: seq<Param>): Tri {
    var start := |before| + 1;
    EvalText(PrintDisj(Clause(q, start)), row, before + Conditions(q, start).params + after)
  }

  // On every row that stores the record the text is True if the record is selected, else False.
  ghost predicate Emitted(q: Query, r: StoredRecord, selected: bool) {
    forall row: Row, before, after | row.stored == r && row.id == r.id ::
      TextValue(q, row, before, after) == if selected then True else False
  }

  lemma EmittedSelects(q: Query, r: StoredRecord)
    ensures Emitted(q, r, Selects(q, r))
  {
    hide Clause, Conditions, Selects, EvalText;
    forall row: Row, before, after | row.stored == r && row.id == r.id
      ensures TextValue(q, row, before, after) == if Selects(q, r) then True else False {
      TranslationCorrect(q, |before| + 1, row, before, after);
    }
  }

  // A filter on one tag as the text tests it: like the matcher, but that a boolean is also found in an
  // array of texts that spells it.
  lemma TextOnTag(tags: Tags, key: string, value: QueryValue, mode: ArrayMode)
    ensures !value.QNull? ==>
              (Holds(tags, key, value, mode) <==>
                 && key in tags
                 && match value
                    case QScalar(Str(s)) =>
                      tags[key] == TagScalar(Str(s)) || (tags[key].TagList? && s in tags[key].list)
                    case QScalar(Bool(b)) =>
                      || tags[key] == TagScalar(Bool(b))
                      || (tags[key].TagList? && (if b then "true" else "false") in tags[key].list)
                    case QArray(vs) =>
                      && tags[key].TagList?
                      && if mode == Every then forall v | v in vs :: v.Str? && v.s in tags[key].list
                         else exists v | v in vs ::
                           (if v.Str? then v.s else if v.b then "true" else "false") in tags[key].list)
  {
  }

  // All entries of a branch of `$or` that are not null are tested true.
  predicate BranchTested(tags: Tags, b: seq<Entry>) {
    forall i | 0 <= i < |b| :: b[i].value == QNull || Holds(tags, b[i].key, b[i].value, AtLeastOne)
  }

  predicate EntriesTested(tags: Tags, es: seq<Entry>) {
    forall i | 0 <= i < |es| ::
      es[i].key == "id" || es[i].key == "$or" || es[i].value == QNull || Holds(tags, es[i].key, es[i].value, Every)
  }

  // The id is compared as text: a scalar by its spelling, an array as the driver writes it.
  predicate IdTested(es: seq<Entry>, id: string) {
    forall i | 0 <= i < |es| && es[i].key == "id" :: es[i].value == QNull || DriverText(es[i].value) == id
  }

  // buildTagQuerySql, whole: the text is True on the rows with the id asked for on which every other
  // entry tests true, and with a `$or` that is not empty, one of its branches; False on all others.
  lemma TextOnQuery(q: Query, r: StoredRecord)
    requires DistinctKeys(q.entries)
    ensures Emitted(q, r,
              && IdTested(q.entries, r.id) && EntriesTested(r.tags, q.entries)
              && (q.or.Some? && q.or.value != [] ==> exists b | b in q.or.value :: BranchTested(r.tags, b)))
  {
    hide Holds, Emitted;
    EmittedSelects(q, r);
    LookupFinds(q.entries, "id");
    assert IdTested(q.entries, r.id) <==> IdHolds(q, r);
    if q.or.Some? {
      assert forall i | 0 <= i < |q.or.value| :: q.or.value[i] in q.or.value;
    }
  }

  // ---- What follows ----

  // A query for a textual id alone.
  lemma IdAlone(v: string, r: StoredRecord)
    ensures var q := Query([Entry("id", QScalar(Str(v)))], None);
            && (Matches(r, q) <==> r.id == v)
            && Emitted(q, r, r.id == v)
  {
    var q := Query([Entry("id", QScalar(Str(v)))], None);
    MatcherOnQuery(q, r);
    TextOnQuery(q, r);
    hide Emitted;
    assert IdMet(q.entries, r.id) <==> q.entries[0].value == QScalar(Str(r.id));
    assert IdTested(q.entries, r.id) <==> DriverText(q.entries[0].value) == r.id;
  }

  // The records have the same id and the same tags but for one.
  predicate SameBut(r: StoredRecord, s: StoredRecord, key: string) {
    && r.id == s.id
    && (forall k | k in r.tags && k != key :: k in s.tags && s.tags[k] == r.tags[k])
    && (forall k | k in s.tags && k != key :: k in r.tags)
  }

  // A tag called "id" or "$or" is never looked at, added, changed or removed, unless a branch names it.
  lemma ReservedTagIgnored(q: Query, r: StoredRecord, s: StoredRecord, key: string)
    requires DistinctKeys(q.entries) && key in {"id", "$or"} && SameBut(r, s, key)
    requires q.or.Some? ==> forall b, e | b in q.or.value && e in b :: e.key != key
    ensures Matches(r, q) <==> Matches(s, q)
    ensures Selects(q, r) <==> Selects(q, s)
    ensures Emitted(q, s, Selects(q, r))
  {
    EmittedSelects(q, s);
    hide Emitted;
    forall k, value, mode | k != key
      ensures MatchesTagEntry(r.tags, k, value, mode) == MatchesTagEntry(s.tags, k, value, mode)
      ensures Holds(r.tags, k, value, mode) == Holds(s.tags, k, value, mode) {
    }
    hide MatchesTagEntry, Holds;
    MatcherOnQuery(q, r);
    MatcherOnQuery(q, s);
    if q.or.Some? {
      forall b | b in q.or.value
        ensures BranchMet(r.tags, b) == BranchMet(s.tags, b)
        ensures HoldsAll(r.tags, b, AtLeastOne) == HoldsAll(s.tags, b, AtLeastOne) {
        assert forall i | 0 <= i < |b| :: b[i] in b;
      }
    }
  }
}
