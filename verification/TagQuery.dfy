// Tag queries over stored wallet records, and the reference meaning given to them by the
// in-memory matcher.
module TagQuery {
  import opened Options

  datatype Scalar = Str(s: string) | Bool(b: bool)

  // A tag as it sits in the stored JSON document; an undefined tag is simply not a key.
  datatype TagValue = TagNull | TagScalar(v: Scalar) | TagList(list: seq<string>)

  // A query value: null or undefined, a scalar, or an array.
  datatype QueryValue = QNull | QScalar(v: Scalar) | QArray(vs: seq<Scalar>)

  datatype ArrayMode = Every | AtLeastOne

  datatype Entry = Entry(key: string, value: QueryValue)

  // The own properties of a query object in order. A `$or` that holds an array is kept in `or`.
  datatype Query = Query(entries: seq<Entry>, or: Option<seq<seq<Entry>>>)

  type Tags = map<string, TagValue>

  datatype StoredRecord = StoredRecord(id: string, createdAt: Option<string>, tags: Tags)

  // The value of property `key`, QNull when there is none.
  function Lookup(entries: seq<Entry>, key: string): QueryValue {
    if entries == [] then QNull
    else if entries[0].key == key then entries[0].value
    else Lookup(entries[1..], key)
  }

  // The entries passed over by both top-level loops.
  predicate Skipped(e: Entry) {
    e.key == "$or" || e.key == "id" || e.value.QNull?
  }

  predicate Includes(list: seq<string>, v: Scalar) {
    v.Str? && v.s in list
  }

  predicate MatchesTagEntry(tags: Tags, key: string, value: QueryValue, mode: ArrayMode) {
    key in tags &&
    match tags[key]
    case TagNull => false
    case TagScalar(t) => value == QScalar(t)
    case TagList(list) =>
      match value
      case QNull => false
      case QScalar(v) => Includes(list, v)
      case QArray(vs) =>
        if mode.Every? then forall v | v in vs :: Includes(list, v)
        else exists v | v in vs :: Includes(list, v)
  }

  predicate MatchesBranch(tags: Tags, branch: seq<Entry>) {
    forall e | e in branch :: e.value.QNull? || MatchesTagEntry(tags, e.key, e.value, AtLeastOne)
  }

  // matchesRecordTagQuery
  predicate Matches(stored: StoredRecord, query: Query) {
    && (var id := Lookup(query.entries, "id"); id.QNull? || id == QScalar(Str(stored.id)))
    && (forall e | e in query.entries :: Skipped(e) || MatchesTagEntry(stored.tags, e.key, e.value, Every))
    && (query.or.Some? ==> exists b | b in query.or.value :: MatchesBranch(stored.tags, b))
  }
}
