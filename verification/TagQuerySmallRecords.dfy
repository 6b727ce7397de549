// Whether SQL and matcher agree on all records is decided by finitely many small ones, for every
// query: branches of `$or` that overlap and booleans inside arrays included.
module TagQuerySmallRecords {
  import opened Options
  import opened TagQuery
  import opened SqlCondition
  import opened TagQuerySql
  import opened TagQueryAgreement

  function Flatten(bs: seq<seq<Entry>>): seq<Entry> {
    if bs == [] then [] else bs[0] + Flatten(bs[1..])
  }

  // All entries of a query, those of the branches included.
  function AllEntries(q: Query): seq<Entry> {
    q.entries + if q.or.Some? then Flatten(q.or.value) else []
  }

  predicate Has(es: seq<Entry>, e: Entry) {
    exists i | 0 <= i < |es| :: es[i] == e
  }

  function Common(texts: seq<string>, list: seq<string>): seq<string> {
    if texts == [] then []
    else if texts[0] in list then [texts[0]] + Common(texts[1..], list) else Common(texts[1..], list)
  }

  predicate IsScalarOf(es: seq<Entry>, v: Scalar) {
    exists i | 0 <= i < |es| :: es[i].value == QScalar(v)
  }

  // A tag cut down to what the query can tell of it.
  function Cut(es: seq<Entry>, t: TagValue): TagValue {
    match t
    case TagNull => TagNull
    case TagScalar(v) => if IsScalarOf(es, v) then t else TagNull
    case TagList(list) => TagList(Common(TextsOf(es), list))
  }

  // A small record has no tag the query does not name, and each tag is null, a scalar of the query or
  // a sublist of the query's texts; its id is the one the query asks for.
  predicate Small(q: Query, r: StoredRecord) {
    && r.id == DriverText(Lookup(q.entries, "id")) && r.createdAt.None?
    && forall k | k in r.tags ::
         && (exists i | 0 <= i < |AllEntries(q)| :: AllEntries(q)[i].key == k)
         && Cut(AllEntries(q), r.tags[k]) == r.tags[k]
  }

  function CutRecord(q: Query, r: StoredRecord): StoredRecord {
    var es := AllEntries(q);
    var keys := set i | 0 <= i < |es| :: es[i].key;
    StoredRecord(DriverText(Lookup(q.entries, "id")), None, map k | k in keys && k in r.tags :: Cut(es, r.tags[k]))
  }

  lemma {:induction false} CommonMembers(texts: seq<string>, list: seq<string>)
    ensures forall s :: s in Common(texts, list) <==> s in texts && s in list
  {
    if texts != [] {
      CommonMembers(texts[1..], list);
      assert texts == [texts[0]] + texts[1..];
    }
  }

  lemma {:induction false} CommonAgain(texts: seq<string>, list: seq<string>, all: seq<string>)
    requires forall i | 0 <= i < |texts| :: texts[i] in all
    ensures Common(texts, Common(all, list)) == Common(texts, list)
  {
    CommonMembers(all, list);
    if texts != [] {
      CommonAgain(texts[1..], list, all);
    }
  }

  lemma CutIsSmall(q: Query, r: StoredRecord)
    ensures Small(q, CutRecord(q, r))
  {
    var es := AllEntries(q);
    forall k | k in CutRecord(q, r).tags ensures Cut(es, Cut(es, r.tags[k])) == Cut(es, r.tags[k]) {
      if r.tags[k].TagList? {
        CommonAgain(TextsOf(es), r.tags[k].list, TextsOf(es));
      }
    }
  }

  // Neither side can tell a tag from what is left of it.
  lemma CutKeeps(q: Query, r: StoredRecord, e: Entry, mode: ArrayMode)
    requires Has(AllEntries(q), e)
    ensures Holds(CutRecord(q, r).tags, e.key, e.value, mode) == Holds(r.tags, e.key, e.value, mode)
    ensures MatchesTagEntry(CutRecord(q, r).tags, e.key, e.value, mode) == MatchesTagEntry(r.tags, e.key, e.value, mode)
  {
    var es := AllEntries(q);
    var i :| 0 <= i < |es| && es[i] == e;
    TextsCover(es, i);
    if e.key in r.tags && r.tags[e.key].TagList? {
      CommonMembers(TextsOf(es), r.tags[e.key].list);
    }
  }

  lemma {:induction false} FlattenHas(bs: seq<seq<Entry>>, i: nat, j: nat)
    requires i < |bs| && j < |bs[i]|
    ensures Has(Flatten(bs), bs[i][j])
  {
    if i == 0 {
      assert Flatten(bs)[j] == bs[0][j];
    } else {
      FlattenHas(bs[1..], i - 1, j);
      var k :| 0 <= k < |Flatten(bs[1..])| && Flatten(bs[1..])[k] == bs[i][j];
      assert Flatten(bs)[|bs[0]| + k] == bs[i][j];
    }
  }

  lemma EntryHas(q: Query, i: nat)
    requires i < |q.entries|
    ensures Has(AllEntries(q), q.entries[i])
  {
    assert AllEntries(q)[i] == q.entries[i];
  }

  lemma BranchEntryHas(q: Query, i: nat, j: nat)
    requires q.or.Some? && i < |q.or.value| && j < |q.or.value[i]|
    ensures Has(AllEntries(q), q.or.value[i][j])
  {
    FlattenHas(q.or.value, i, j);
    var k :| 0 <= k < |Flatten(q.or.value)| && Flatten(q.or.value)[k] == q.or.value[i][j];
    assert AllEntries(q)[|q.entries| + k] == q.or.value[i][j];
  }

  lemma CutEntries(q: Query, r: StoredRecord)
    ensures HoldsAll(CutRecord(q, r).tags, q.entries, Every) == HoldsAll(r.tags, q.entries, Every)
    ensures MatchesEntries(CutRecord(q, r).tags, q.entries) == MatchesEntries(r.tags, q.entries)
  {
    hide Holds, MatchesTagEntry, CutRecord, Has, Skipped;
    var tags := CutRecord(q, r).tags;
    forall i | 0 <= i < |q.entries|
      ensures Passes(tags, q.entries[i], Every) == Passes(r.tags, q.entries[i], Every)
      ensures MatchesTagEntry(tags, q.entries[i].key, q.entries[i].value, Every)
           == MatchesTagEntry(r.tags, q.entries[i].key, q.entries[i].value, Every)
    {
      EntryHas(q, i);
      CutKeeps(q, r, q.entries[i], Every);
    }
  }

  lemma CutBranch(q: Query, r: StoredRecord, i: nat)
    requires q.or.Some? && i < |q.or.value|
    ensures HoldsAll(CutRecord(q, r).tags, q.or.value[i], AtLeastOne) == HoldsAll(r.tags, q.or.value[i], AtLeastOne)
    ensures MatchesBranch(CutRecord(q, r).tags, q.or.value[i]) == MatchesBranch(r.tags, q.or.value[i])
  {
    hide Holds, MatchesTagEntry, CutRecord, Has;
    var b := q.or.value[i];
    var tags := CutRecord(q, r).tags;
    forall j | 0 <= j < |b|
      ensures Passes(tags, b[j], AtLeastOne) == Passes(r.tags, b[j], AtLeastOne)
      ensures MatchesTagEntry(tags, b[j].key, b[j].value, AtLeastOne)
          == MatchesTagEntry(r.tags, b[j].key, b[j].value, AtLeastOne)
    {
      BranchEntryHas(q, i, j);
      CutKeeps(q, r, b[j], AtLeastOne);
    }
  }

  lemma CutDisagrees(q: Query, r: StoredRecord)
    requires Selects(q, r) && !Matches(r, q)
    ensures Selects(q, CutRecord(q, r)) && !Matches(CutRecord(q, r), q)
  {
    hide HoldsAll, MatchesBranch, Skipped, MatchesTagEntry;
    CutEntries(q, r);
    var s := CutRecord(q, r);
    assert forall t :: Matches(t, q) ==> MatchesEntries(t.tags, q.entries);
    assert s.id == DriverText(Lookup(q.entries, "id"));
    if q.or.Some? {
      forall i | 0 <= i < |q.or.value|
        ensures q.or.value[i] in q.or.value
        ensures HoldsAll(s.tags, q.or.value[i], AtLeastOne) == HoldsAll(r.tags, q.or.value[i], AtLeastOne)
        ensures MatchesBranch(s.tags, q.or.value[i]) == MatchesBranch(r.tags, q.or.value[i])
      {
        CutBranch(q, r, i);
      }
    }
  }

  // ---- The small records of a query, listed ----

  function Sublists(texts: seq<string>): set<seq<string>> {
    if texts == [] then {[]}
    else Sublists(texts[1..]) + set l | l in Sublists(texts[1..]) :: [texts[0]] + l
  }

  // The tag values the query can tell from null.
  function TagValues(es: seq<Entry>): set<TagValue> {
    {TagNull}
    + (set i | 0 <= i < |es| && es[i].value.QScalar? :: TagScalar(es[i].value.v))
    + (set l | l in Sublists(TextsOf(es)) :: TagList(l))
  }

  // All tags over these keys with these values.
  function TagMaps(es: seq<Entry>, values: set<TagValue>): set<Tags> {
    if es == [] then {map[]}
    else TagMaps(es[1..], values) + set m, v | m in TagMaps(es[1..], values) && v in values :: m[es[0].key := v]
  }

  function SmallRecords(q: Query): set<StoredRecord> {
    var es, id := AllEntries(q), DriverText(Lookup(q.entries, "id"));
    set m | m in TagMaps(es, TagValues(es)) && Small(q, StoredRecord(id, None, m)) :: StoredRecord(id, None, m)
  }

  lemma {:induction false} CommonIsSublist(texts: seq<string>, list: seq<string>)
    ensures Common(texts, list) in Sublists(texts)
  {
    if texts != [] {
      CommonIsSublist(texts[1..], list);
    }
  }

  lemma CutIsListed(es: seq<Entry>, t: TagValue)
    ensures Cut(es, t) in TagValues(es)
  {
    if t.TagList? {
      CommonIsSublist(TextsOf(es), t.list);
    }
  }

  lemma {:induction false} TagMapsComplete(es: seq<Entry>, values: set<TagValue>, m: Tags)
    requires forall k | k in m :: (exists i | 0 <= i < |es| :: es[i].key == k) && m[k] in values
    ensures m in TagMaps(es, values)
  {
    if es == [] {
      assert m == map[];
    } else {
      var key := es[0].key;
      var rest := m - {key};
      forall k | k in rest ensures exists i | 0 <= i < |es[1..]| :: es[1..][i].key == k {
        var i :| 0 <= i < |es| && es[i].key == k;
        assert es[1..][i - 1].key == k;
      }
      TagMapsComplete(es[1..], values, rest);
      if key in m {
        assert m == rest[key := m[key]];
      } else {
        assert m == rest;
      }
    }
  }

  // The set holds exactly the small records.
  lemma SmallRecordsExact(q: Query, r: StoredRecord)
    ensures r in SmallRecords(q) <==> Small(q, r)
  {
    if Small(q, r) {
      var es := AllEntries(q);
      forall k | k in r.tags ensures r.tags[k] in TagValues(es) {
        CutIsListed(es, r.tags[k]);
      }
      hide TagValues, Cut;
      TagMapsComplete(es, TagValues(es), r.tags);
    }
  }

  // For every query: SQL and matcher agree on all records if and only if they agree on the records of
  // this finite set.
  lemma AgreementDecided(q: Query)
    ensures (forall r :: Selects(q, r) == Matches(r, q)) <==>
            (forall r | r in SmallRecords(q) :: Selects(q, r) == Matches(r, q))
  {
    hide Selects, Matches, Small, CutRecord, SmallRecords;
    if r :| Selects(q, r) != Matches(r, q) {
      Agreement(q, r);
      CutDisagrees(q, r);
      CutIsSmall(q, r);
      SmallRecordsExact(q, CutRecord(q, r));
    }
  }
}
