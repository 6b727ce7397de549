// The translation of a tag query into a SQL condition with positional parameters, and the proof
// that it means what the matcher means.
module TagQuerySql {
  import opened Options
  import opened TagQuery
  import opened SqlCondition

  // ---- What the builder produces, as values ----

  // String(v)
  function Spelling(v: Scalar): string {
    match v
    case Str(s) => s
    case Bool(b) => if b then "true" else "false"
  }

  function Spellings(vs: seq<Scalar>): seq<string> {
    seq(|vs|, i requires 0 <= i < |vs| => Spelling(vs[i]))
  }

  // The text the database driver sends for the value of an `id` filter.
  function DriverText(value: QueryValue): string {
    match value
    case QNull => ""
    case QScalar(v) => Spelling(v)
    case QArray(vs) => "{" + QuotedElements(vs) + "}"
  }

  function QuotedElements(vs: seq<Scalar>): string {
    if vs == [] then ""
    else "\"" + Escaped(Spelling(vs[0])) + "\"" + (if |vs| == 1 then "" else "," + QuotedElements(vs[1..]))
  }

  function Escaped(s: string): string {
    if s == "" then ""
    else (if s[0] == '\\' || s[0] == '"' then "\\" else "") + [s[0]] + Escaped(s[1..])
  }

  lemma EscapedBy(c: char, s: string)
    ensures Escaped("") == ""
    ensures Escaped([c] + s) == (if c == '"' then "\\\"" else if c == '\\' then "\\\\" else [c]) + Escaped(s)
  {
    assert ([c] + s)[1..] == s;
  }

  // An array is sent as the database writes arrays: in braces, elements quoted and separated by commas,
  // quotes and backslashes escaped.
  lemma ArrayAsText(vs: seq<Scalar>, v: Scalar)
    ensures DriverText(QArray(vs)) == "{" + QuotedElements(vs) + "}"
    ensures QuotedElements([]) == ""
    ensures QuotedElements([v] + vs)
         == "\"" + Escaped(Spelling(v)) + "\"" + if vs == [] then "" else "," + QuotedElements(vs)
  {
    hide Escaped, Spelling;
    assert ([v] + vs)[1..] == vs;
  }

  datatype Built = Built(prim: Prim, params: seq<Param>)
  datatype BuiltList<T> = BuiltList(items: seq<T>, params: seq<Param>)

  function TagCondition(key: string, value: QueryValue, mode: ArrayMode, next: nat): Built
    requires !value.QNull?
  {
    match value
    case QArray(vs) =>
      var last := if mode.AtLeastOne? then HasAny(next, next + 1) else Contains(next, next + 1);
      Built(Group(Only(AndThen(Leaf(Exists(next)), AndThen(Leaf(IsArray(next)), One(Leaf(last)))))),
            [PText(key), if mode.AtLeastOne? then PTexts(Spellings(vs)) else PJson(JArray(vs))])
    case QScalar(v) =>
      var inner := Group(Only(One(Leaf(CaseScalar(next, next + 1, next + 2)))));
      Built(Group(Only(AndThen(Leaf(Exists(next)), One(inner)))),
            [PText(key), PText(Spelling(v)), PJson(JScalar(v))])
  }

  // The entries that give no condition: at the top level, and inside a branch of `$or`.
  predicate Ignored(e: Entry, mode: ArrayMode) {
    if mode.Every? then Skipped(e) else e.value.QNull?
  }

  function EntryConditions(es: seq<Entry>, mode: ArrayMode, next: nat): BuiltList<Prim> {
    if es == [] then BuiltList([], [])
    else
      var before, e := EntryConditions(es[..|es| - 1], mode, next), es[|es| - 1];
      if Ignored(e, mode) then before
      else
        var last := TagCondition(e.key, e.value, mode, next + |before.params|);
        BuiltList(before.items + [last.prim], before.params + last.params)
  }

  function ConjOf(ps: seq<Prim>): Conj {
    if ps == [] then One(Leaf(TrueLiteral))
    else if |ps| == 1 then One(ps[0])
    else AndThen(ps[0], ConjOf(ps[1..]))
  }

  function DisjOf(cs: seq<Conj>): Disj
    requires cs != []
  {
    if |cs| == 1 then Only(cs[0]) else OrElse(cs[0], DisjOf(cs[1..]))
  }

  function BranchConditions(bs: seq<seq<Entry>>, next: nat): (r: BuiltList<Conj>)
    ensures |r.items| == |bs|
  {
    if bs == [] then BuiltList([], [])
    else
      var before := BranchConditions(bs[..|bs| - 1], next);
      var last := EntryConditions(bs[|bs| - 1], AtLeastOne, next + |before.params|);
      BuiltList(before.items + [ConjOf(last.items)], before.params + last.params)
  }

  function IdConditions(q: Query, next: nat): BuiltList<Prim> {
    var id := Lookup(q.entries, "id");
    if id.QNull? then BuiltList([], []) else BuiltList([Leaf(ColumnEq(IdColumn, next))], [PText(DriverText(id))])
  }

  function OrConditions(q: Query, next: nat): (r: BuiltList<Prim>) {
    if q.or.Some? && q.or.value != [] then
      var branches := BranchConditions(q.or.value, next);
      BuiltList([Group(DisjOf(branches.items))], branches.params)
    else BuiltList([], [])
  }

  function Conditions(q: Query, start: nat): BuiltList<Prim> {
    var ids := IdConditions(q, start);
    var tags := EntryConditions(q.entries, Every, start + |ids.params|);
    var ors := OrConditions(q, start + |ids.params| + |tags.params|);
    BuiltList(ids.items + tags.items + ors.items, ids.params + tags.params + ors.params)
  }

  // The intended reading of the clause: one conjunction of conditions.
  function Clause(q: Query, start: nat): Disj { Only(ConjOf(Conditions(q, start).items)) }

  // ---- The builder ----

  predicate Prints(texts: seq<seq<Token>>, ps: seq<Prim>) {
    |texts| == |ps| && forall k | 0 <= k < |ps| :: texts[k] == PrintPrim(ps[k])
  }

  predicate PrintsConjs(texts: seq<seq<Token>>, cs: seq<Conj>) {
    |texts| == |cs| && forall k | 0 <= k < |cs| :: texts[k] == PrintConj(cs[k])
  }

  function Join(pieces: seq<seq<Token>>, separator: Token): seq<Token> {
    if pieces == [] then []
    else if |pieces| == 1 then pieces[0]
    else pieces[0] + [separator] + Join(pieces[1..], separator)
  }

  lemma {:induction false} JoinPrinted(texts: seq<seq<Token>>, ps: seq<Prim>)
    requires ps != [] && Prints(texts, ps)
    ensures Join(texts, KwAnd) == PrintConj(ConjOf(ps))
  {
    if |ps| > 1 {
      JoinPrinted(texts[1..], ps[1..]);
    }
  }

  lemma {:induction false} JoinPrintedConjs(texts: seq<seq<Token>>, cs: seq<Conj>)
    requires cs != [] && PrintsConjs(texts, cs)
    ensures Join(texts, KwOr) == PrintDisj(DisjOf(cs))
  {
    if |cs| > 1 {
      JoinPrintedConjs(texts[1..], cs[1..]);
    }
  }

  lemma AppendAssociates<T>(a: seq<T>, b: seq<T>, c: seq<T>)
    ensures a + b + c == a + (b + c)
  {
  }

  lemma EntryStep(es: seq<Entry>, i: nat, mode: ArrayMode, next: nat)
    requires i < |es|
    ensures var before := EntryConditions(es[..i], mode, next);
      EntryConditions(es[..i + 1], mode, next) ==
        if Ignored(es[i], mode) then before
        else var last := TagCondition(es[i].key, es[i].value, mode, next + |before.params|);
          BuiltList(before.items + [last.prim], before.params + last.params)
  {
    assert es[..i + 1][..i] == es[..i];
  }

  lemma ConditionText(key: string, value: QueryValue, mode: ArrayMode, next: nat)
    requires !value.QNull?
    ensures PrintPrim(TagCondition(key, value, mode, next).prim) ==
      match value
      case QArray(_) =>
        var last := if mode.AtLeastOne? then HasAny(next, next + 1) else Contains(next, next + 1);
        [Open, Lit(Exists(next)), KwAnd, Lit(IsArray(next)), KwAnd, Lit(last), Close]
      case QScalar(_) =>
        [Open, Lit(Exists(next)), KwAnd, Open, Lit(CaseScalar(next, next + 1, next + 2)), Close, Close]
  {
    match value
    case QArray(_) =>
      var last := if mode.AtLeastOne? then HasAny(next, next + 1) else Contains(next, next + 1);
      var c3 := One(Leaf(last));
      var c2 := AndThen(Leaf(IsArray(next)), c3);
      var c1 := AndThen(Leaf(Exists(next)), c2);
      assert PrintConj(c3) == [Lit(last)];
      assert PrintConj(c2) == [Lit(IsArray(next)), KwAnd, Lit(last)];
      assert PrintConj(c1) == [Lit(Exists(next)), KwAnd, Lit(IsArray(next)), KwAnd, Lit(last)];
      assert PrintPrim(Group(Only(c1))) == [Open] + PrintDisj(Only(c1)) + [Close];
    case QScalar(_) =>
      var a := CaseScalar(next, next + 1, next + 2);
      var c2 := One(Leaf(a));
      assert PrintConj(c2) == [Lit(a)];
      assert PrintPrim(Group(Only(c2))) == [Open] + PrintDisj(Only(c2)) + [Close];
      var c1 := AndThen(Leaf(Exists(next)), One(Group(Only(c2))));
      assert PrintConj(One(Group(Only(c2)))) == [Open, Lit(a), Close];
      assert PrintConj(c1) == [Lit(Exists(next)), KwAnd, Open, Lit(a), Close];
      assert PrintPrim(Group(Only(c1))) == [Open] + PrintDisj(Only(c1)) + [Close];
  }

  lemma ClauseText(texts: seq<seq<Token>>, ps: seq<Prim>)
    requires Prints(texts, ps)
    ensures (if texts == [] then [Lit(TrueLiteral)] else Join(texts, KwAnd)) == PrintConj(ConjOf(ps))
  {
    if ps != [] {
      JoinPrinted(texts, ps);
    }
  }

  class SqlBuildContext {
    var params: seq<Param>
    var nextParam: nat

    constructor (start: nat)
      ensures params == [] && nextParam == start
    {
      params, nextParam := [], start;
    }

    method PushParam(value: Param) returns (idx: nat)
      modifies this
      ensures idx == old(nextParam)
      ensures params == old(params) + [value] && nextParam == old(nextParam) + 1
    {
      idx := nextParam;
      params := params + [value];
      nextParam := nextParam + 1;
    }

    method BuildTagCondition(key: string, value: QueryValue, mode: ArrayMode) returns (text: seq<Token>)
      requires !value.QNull?
      modifies this
      ensures var built := TagCondition(key, value, mode, old(nextParam));
        text == PrintPrim(built.prim) &&
        params == old(params) + built.params && nextParam == old(nextParam) + |built.params|
    {
      ConditionText(key, value, mode, nextParam);
      var k := PushParam(PText(key));
      match value
      case QArray(vs) =>
        if mode.AtLeastOne? {
          var n := PushParam(PTexts(Spellings(vs)));
          text := [Open, Lit(Exists(k)), KwAnd, Lit(IsArray(k)), KwAnd, Lit(HasAny(k, n)), Close];
        } else {
          var n := PushParam(PJson(JArray(vs)));
          text := [Open, Lit(Exists(k)), KwAnd, Lit(IsArray(k)), KwAnd, Lit(Contains(k, n)), Close];
        }
      case QScalar(v) =>
        var n := PushParam(PText(Spelling(v)));
        var m := PushParam(PJson(JScalar(v)));
        text := [Open, Lit(Exists(k)), KwAnd, Open, Lit(CaseScalar(k, n, m)), Close, Close];
    }

    // The conditions of one object's entries, in order.
    method BuildEntries(es: seq<Entry>, mode: ArrayMode) returns (texts: seq<seq<Token>>)
      modifies this
      ensures Prints(texts, EntryConditions(es, mode, old(nextParam)).items)
      ensures params == old(params) + EntryConditions(es, mode, old(nextParam)).params
      ensures nextParam == old(nextParam) + |EntryConditions(es, mode, old(nextParam)).params|
    {
      hide TagCondition;
      texts := [];
      ghost var built := BuiltList.BuiltList([], []);
      var i := 0;
      while i < |es|
        invariant 0 <= i <= |es|
        invariant built == EntryConditions(es[..i], mode, old(nextParam))
        invariant Prints(texts, built.items)
        invariant params == old(params) + built.params
        invariant nextParam == old(nextParam) + |built.params|
      {
        EntryStep(es, i, mode, old(nextParam));
        if !Ignored(es[i], mode) {
          ghost var last := TagCondition(es[i].key, es[i].value, mode, nextParam);
          var text := BuildTagCondition(es[i].key, es[i].value, mode);
          texts := texts + [text];
          AppendAssociates(old(params), built.params, last.params);
          built := BuiltList(built.items + [last.prim], built.params + last.params);
        }
        i := i + 1;
      }
      assert es[..i] == es;
    }

    // `parts.length === 0 ? 'TRUE' : parts.join(' AND ')`
    method BuildBranch(branch: seq<Entry>) returns (text: seq<Token>)
      modifies this
      ensures text == PrintConj(ConjOf(EntryConditions(branch, AtLeastOne, old(nextParam)).items))
      ensures params == old(params) + EntryConditions(branch, AtLeastOne, old(nextParam)).params
      ensures nextParam == old(nextParam) + |EntryConditions(branch, AtLeastOne, old(nextParam)).params|
    {
      var parts := BuildEntries(branch, AtLeastOne);
      ClauseText(parts, EntryConditions(branch, AtLeastOne, old(nextParam)).items);
      text := if parts == [] then [Lit(TrueLiteral)] else Join(parts, KwAnd);
    }

    method BuildOrClause(branches: seq<seq<Entry>>) returns (text: seq<Token>)
      requires branches != []
      modifies this
      ensures text == PrintPrim(Group(DisjOf(BranchConditions(branches, old(nextParam)).items)))
      ensures params == old(params) + BranchConditions(branches, old(nextParam)).params
      ensures nextParam == old(nextParam) + |BranchConditions(branches, old(nextParam)).params|
    {
      hide EntryConditions;
      var sqlBranches: seq<seq<Token>> := [];
      ghost var built := BuiltList.BuiltList([], []);
      var i := 0;
      while i < |branches|
        invariant 0 <= i <= |branches|
        invariant built == BranchConditions(branches[..i], old(nextParam))
        invariant PrintsConjs(sqlBranches, built.items)
        invariant params == old(params) + built.params
        invariant nextParam == old(nextParam) + |built.params|
      {
        assert branches[..i + 1][..i] == branches[..i];
        ghost var last := EntryConditions(branches[i], AtLeastOne, nextParam);
        var branch := BuildBranch(branches[i]);
        sqlBranches := sqlBranches + [branch];
        AppendAssociates(old(params), built.params, last.params);
        built := BuiltList(built.items + [ConjOf(last.items)], built.params + last.params);
        i := i + 1;
      }
      assert branches[..i] == branches;
      JoinPrintedConjs(sqlBranches, built.items);
      text := [Open] + Join(sqlBranches, KwOr) + [Close];
    }

    method BuildIdCondition(query: Query) returns (texts: seq<seq<Token>>)
      modifies this
      ensures Prints(texts, IdConditions(query, old(nextParam)).items)
      ensures params == old(params) + IdConditions(query, old(nextParam)).params
      ensures nextParam == old(nextParam) + |IdConditions(query, old(nextParam)).params|
    {
      texts := [];
      var id := Lookup(query.entries, "id");
      if !id.QNull? {
        var idIdx := PushParam(PText(DriverText(id)));
        texts := [[Lit(ColumnEq(IdColumn, idIdx))]];
      }
    }

    method BuildOrCondition(query: Query) returns (texts: seq<seq<Token>>)
      modifies this
      ensures Prints(texts, OrConditions(query, old(nextParam)).items)
      ensures params == old(params) + OrConditions(query, old(nextParam)).params
    {
      texts := [];
      if query.or.Some? && query.or.value != [] {
        var orText := BuildOrClause(query.or.value);
        texts := [orText];
      }
    }

    // The conditions on the id column, on the tags and on `$or`.
    method BuildConditions(query: Query) returns (texts: seq<seq<Token>>)
      requires params == []
      modifies this
      ensures Prints(texts, Conditions(query, old(nextParam)).items)
      ensures params == Conditions(query, old(nextParam)).params
    {
      hide EntryConditions, OrConditions, IdConditions;
      var idTexts := BuildIdCondition(query);
      var tagTexts := BuildEntries(query.entries, Every);
      var orTexts := BuildOrCondition(query);
      texts := idTexts + tagTexts + orTexts;
    }
  }

  // buildTagQuerySql: the emitted text reads back as the intended tree, and the parameters are
  // those the tree refers to.
  method BuildTagQuerySql(query: Query, startParamIndex: nat := 1) returns (clause: seq<Token>, params: seq<Param>)
    ensures clause == PrintDisj(Clause(query, startParamIndex))
    ensures Parse(clause) == Some(Clause(query, startParamIndex))
    ensures params == Conditions(query, startParamIndex).params
  {
    var ctx := new SqlBuildContext(startParamIndex);
    var conditions := ctx.BuildConditions(query);
    ClauseText(conditions, Conditions(query, startParamIndex).items);
    clause := if conditions == [] then [Lit(TrueLiteral)] else Join(conditions, KwAnd);
    params := ctx.params;
    ParsePrint(Clause(query, startParamIndex));
  }

  // ---- Meaning ----

  // What one condition tests. It differs from MatchesTagEntry only in that a boolean meeting an
  // array tag is compared by its spelling.
  predicate Holds(tags: Tags, key: string, value: QueryValue, mode: ArrayMode) {
    key in tags &&
    match tags[key]
    case TagNull => false
    case TagScalar(t) => value == QScalar(t)
    case TagList(list) =>
      match value
      case QNull => false
      case QScalar(v) => Spelling(v) in list
      case QArray(vs) =>
        if mode.Every? then forall v | v in vs :: Includes(list, v)
        else exists v | v in vs :: Spelling(v) in list
  }

  predicate Passes(tags: Tags, e: Entry, mode: ArrayMode) {
    Ignored(e, mode) || Holds(tags, e.key, e.value, mode)
  }

  predicate HoldsAll(tags: Tags, es: seq<Entry>, mode: ArrayMode) {
    forall i | 0 <= i < |es| :: Passes(tags, es[i], mode)
  }

  predicate SomeBranch(tags: Tags, bs: seq<seq<Entry>>) {
    exists i | 0 <= i < |bs| :: HoldsAll(tags, bs[i], AtLeastOne)
  }

  // `mine` is bound from index `next` on, whatever comes before and after it.
  predicate Bound(params: seq<Param>, next: nat, mine: seq<Param>) {
    1 <= next && next - 1 + |mine| <= |params| && params[next - 1..next - 1 + |mine|] == mine
  }

  lemma BoundSplit(params: seq<Param>, next: nat, a: seq<Param>, b: seq<Param>)
    requires Bound(params, next, a + b)
    ensures Bound(params, next, a) && Bound(params, next + |a|, b)
  {
    var whole := params[next - 1..next - 1 + |a + b|];
    assert a == whole[..|a|] == params[next - 1..next - 1 + |a|];
    assert b == whole[|a|..] == params[next - 1 + |a|..next - 1 + |a| + |b|];
  }

  lemma BoundThree(params: seq<Param>, next: nat, a: seq<Param>, b: seq<Param>, c: seq<Param>)
    requires Bound(params, next, a + b + c)
    ensures Bound(params, next, a) && Bound(params, next + |a|, b) && Bound(params, next + |a| + |b|, c)
  {
    BoundSplit(params, next, a + b, c);
    BoundSplit(params, next, a, b);
  }

  lemma BoundAt(params: seq<Param>, next: nat, mine: seq<Param>, i: nat)
    requires Bound(params, next, mine) && i < |mine|
    ensures ParamAt(params, next + i) == Some(mine[i])
  {
    assert params[next - 1..next - 1 + |mine|][i] == params[next - 1 + i];
  }

  lemma SpellingsHit(vs: seq<Scalar>, list: seq<string>)
    ensures (exists v | v in vs :: Spelling(v) in list) <==> (exists s | s in Spellings(vs) :: s in list)
  {
    if v :| v in vs && Spelling(v) in list {
      var i :| 0 <= i < |vs| && vs[i] == v;
      assert Spellings(vs)[i] in Spellings(vs);
    }
    if s :| s in Spellings(vs) && s in list {
      var i :| 0 <= i < |vs| && Spellings(vs)[i] == s;
      assert vs[i] in vs && Spelling(vs[i]) in list;
    }
  }

  lemma ArrayMeaning(key: string, vs: seq<Scalar>, mode: ArrayMode, next: nat, row: Row, params: seq<Param>)
    requires Bound(params, next, TagCondition(key, QArray(vs), mode, next).params)
    ensures EvalPrim(TagCondition(key, QArray(vs), mode, next).prim, row, params)
         == ToTri(Holds(row.stored.tags, key, QArray(vs), mode))
  {
    var built := TagCondition(key, QArray(vs), mode, next);
    BoundAt(params, next, built.params, 0);
    BoundAt(params, next, built.params, 1);
    var tags := row.stored.tags;
    if key in tags && tags[key].TagList? && mode.AtLeastOne? {
      SpellingsHit(vs, tags[key].list);
    }
    var last := if mode.AtLeastOne? then HasAny(next, next + 1) else Contains(next, next + 1);
    var c3 := One(Leaf(last));
    var c2 := AndThen(Leaf(IsArray(next)), c3);
    var c1 := AndThen(Leaf(Exists(next)), c2);
    assert EvalConj(c3, row, params) == EvalAtom(last, row, params);
    assert EvalConj(c2, row, params) == And3(EvalAtom(IsArray(next), row, params), EvalConj(c3, row, params));
    assert EvalConj(c1, row, params) == And3(EvalPrim(Leaf(Exists(next)), row, params), EvalConj(c2, row, params));
    assert EvalPrim(built.prim, row, params) == EvalDisj(Only(c1), row, params);
  }

  lemma ScalarMeaning(key: string, v: Scalar, mode: ArrayMode, next: nat, row: Row, params: seq<Param>)
    requires Bound(params, next, TagCondition(key, QScalar(v), mode, next).params)
    ensures EvalPrim(TagCondition(key, QScalar(v), mode, next).prim, row, params)
         == ToTri(Holds(row.stored.tags, key, QScalar(v), mode))
  {
    var built := TagCondition(key, QScalar(v), mode, next);
    BoundAt(params, next, built.params, 0);
    BoundAt(params, next, built.params, 1);
    BoundAt(params, next, built.params, 2);
    var tags := row.stored.tags;
    if key in tags && tags[key].TagList? {
      assert Spelling(v) in [Spelling(v)];
    }
    var leaf := Leaf(CaseScalar(next, next + 1, next + 2));
    var inner := One(Group(Only(One(leaf))));
    var outer := AndThen(Leaf(Exists(next)), inner);
    assert EvalDisj(Only(One(leaf)), row, params) == EvalPrim(leaf, row, params);
    assert EvalConj(inner, row, params) == EvalPrim(leaf, row, params);
    assert EvalDisj(Only(outer), row, params)
        == And3(EvalPrim(Leaf(Exists(next)), row, params), EvalConj(inner, row, params));
  }

  lemma ConditionMeaning(key: string, value: QueryValue, mode: ArrayMode, next: nat, row: Row, params: seq<Param>)
    requires !value.QNull?
    requires Bound(params, next, TagCondition(key, value, mode, next).params)
    ensures EvalPrim(TagCondition(key, value, mode, next).prim, row, params)
         == ToTri(Holds(row.stored.tags, key, value, mode))
  {
    match value
    case QArray(vs) => ArrayMeaning(key, vs, mode, next, row, params);
    case QScalar(v) => ScalarMeaning(key, v, mode, next, row, params);
  }

  predicate TwoValued(t: Tri) { t.True? || t.False? }

  // Every condition of the list is True or False, and `all` tells whether all are True.
  predicate Decided(ps: seq<Prim>, row: Row, params: seq<Param>, all: bool) {
    && (forall i | 0 <= i < |ps| :: TwoValued(EvalPrim(ps[i], row, params)))
    && all == AllTrue(ps, row, params)
  }

  predicate AllTrue(ps: seq<Prim>, row: Row, params: seq<Param>) {
    forall i | 0 <= i < |ps| :: EvalPrim(ps[i], row, params).True?
  }

  lemma {:induction false} ConjValue(ps: seq<Prim>, row: Row, params: seq<Param>, all: bool)
    requires Decided(ps, row, params, all)
    ensures EvalConj(ConjOf(ps), row, params) == ToTri(all)
  {
    if |ps| > 1 {
      ConjValue(ps[1..], row, params, AllTrue(ps[1..], row, params));
    }
  }

  lemma DecidedOne(p: Prim, row: Row, params: seq<Param>, a: bool)
    requires EvalPrim(p, row, params) == ToTri(a)
    ensures Decided([p], row, params, a)
  {
    assert [p][0] == p;
  }

  lemma DecidedJoin(ps: seq<Prim>, qs: seq<Prim>, row: Row, params: seq<Param>, a: bool, b: bool)
    requires Decided(ps, row, params, a) && Decided(qs, row, params, b)
    ensures Decided(ps + qs, row, params, a && b)
  {
    var all := ps + qs;
    if a && b {
    } else if !a {
      var i :| 0 <= i < |ps| && !EvalPrim(ps[i], row, params).True?;
      assert all[i] == ps[i];
    } else {
      var i :| 0 <= i < |qs| && !EvalPrim(qs[i], row, params).True?;
      assert all[|ps| + i] == qs[i];
    }
  }

  lemma {:induction false} EntriesMeaning(es: seq<Entry>, mode: ArrayMode, next: nat, row: Row, params: seq<Param>)
    requires Bound(params, next, EntryConditions(es, mode, next).params)
    ensures Decided(EntryConditions(es, mode, next).items, row, params, HoldsAll(row.stored.tags, es, mode))
  {
    hide TagCondition, Holds, EvalPrim;
    if es != [] {
      var init, e := es[..|es| - 1], es[|es| - 1];
      var before := EntryConditions(init, mode, next);
      HoldsSnoc(row.stored.tags, init, e, mode);
      assert es == init + [e];
      if Ignored(e, mode) {
        EntriesMeaning(init, mode, next, row, params);
      } else {
        var last := TagCondition(e.key, e.value, mode, next + |before.params|);
        BoundSplit(params, next, before.params, last.params);
        EntriesMeaning(init, mode, next, row, params);
        ConditionMeaning(e.key, e.value, mode, next + |before.params|, row, params);
        var here := Holds(row.stored.tags, e.key, e.value, mode);
        DecidedOne(last.prim, row, params, here);
        DecidedJoin(before.items, [last.prim], row, params, HoldsAll(row.stored.tags, init, mode), here);
      }
    }
  }

  lemma HoldsSnoc(tags: Tags, init: seq<Entry>, e: Entry, mode: ArrayMode)
    ensures HoldsAll(tags, init + [e], mode) <==> HoldsAll(tags, init, mode) && Passes(tags, e, mode)
  {
    var es := init + [e];
    assert es[|init|] == e;
    assert forall i | 0 <= i < |init| :: es[i] == init[i];
  }

  predicate DecidedAny(cs: seq<Conj>, row: Row, params: seq<Param>, any: bool) {
    && (forall i | 0 <= i < |cs| :: TwoValued(EvalConj(cs[i], row, params)))
    && any == AnyTrue(cs, row, params)
  }

  predicate AnyTrue(cs: seq<Conj>, row: Row, params: seq<Param>) {
    exists i | 0 <= i < |cs| :: EvalConj(cs[i], row, params).True?
  }

  lemma {:induction false} DisjValue(cs: seq<Conj>, row: Row, params: seq<Param>, any: bool)
    requires cs != [] && DecidedAny(cs, row, params, any)
    ensures EvalDisj(DisjOf(cs), row, params) == ToTri(any)
  {
    if |cs| > 1 {
      DisjValue(cs[1..], row, params, AnyTrue(cs[1..], row, params));
      assert any <==> EvalConj(cs[0], row, params).True? || AnyTrue(cs[1..], row, params) by {
        if i :| 0 <= i < |cs| && EvalConj(cs[i], row, params).True? {
          assert i > 0 ==> cs[1..][i - 1] == cs[i];
        }
      }
    }
  }

  lemma DecidedAnyJoin(cs: seq<Conj>, c: Conj, row: Row, params: seq<Param>, a: bool, b: bool)
    requires DecidedAny(cs, row, params, a) && EvalConj(c, row, params) == ToTri(b)
    ensures DecidedAny(cs + [c], row, params, a || b)
  {
    var all := cs + [c];
    assert all[|cs|] == c;
    if a {
      var i :| 0 <= i < |cs| && EvalConj(cs[i], row, params).True?;
      assert all[i] == cs[i];
    }
  }

  lemma SomeSnoc(tags: Tags, init: seq<seq<Entry>>, b: seq<Entry>)
    ensures SomeBranch(tags, init + [b]) <==> SomeBranch(tags, init) || HoldsAll(tags, b, AtLeastOne)
  {
    var bs := init + [b];
    assert bs[|init|] == b;
    assert forall i | 0 <= i < |init| :: bs[i] == init[i];
  }

  lemma {:induction false} BranchesMeaning(bs: seq<seq<Entry>>, next: nat, row: Row, params: seq<Param>)
    requires Bound(params, next, BranchConditions(bs, next).params)
    ensures DecidedAny(BranchConditions(bs, next).items, row, params, SomeBranch(row.stored.tags, bs))
  {
    hide EntryConditions, HoldsAll;
    if bs != [] {
      var init, b := bs[..|bs| - 1], bs[|bs| - 1];
      var before := BranchConditions(init, next);
      var last := EntryConditions(b, AtLeastOne, next + |before.params|);
      BoundSplit(params, next, before.params, last.params);
      BranchesMeaning(init, next, row, params);
      EntriesMeaning(b, AtLeastOne, next + |before.params|, row, params);
      var here := HoldsAll(row.stored.tags, b, AtLeastOne);
      ConjValue(last.items, row, params, here);
      DecidedAnyJoin(before.items, ConjOf(last.items), row, params, SomeBranch(row.stored.tags, init), here);
      SomeSnoc(row.stored.tags, init, b);
      assert bs == init + [b];
    }
  }

  predicate IdHolds(q: Query, r: StoredRecord) {
    var id := Lookup(q.entries, "id");
    id.QNull? || DriverText(id) == r.id
  }

  predicate OrHolds(q: Query, r: StoredRecord) {
    q.or.Some? && q.or.value != [] ==> SomeBranch(r.tags, q.or.value)
  }

  // What the whole clause tests on a record.
  predicate Selects(q: Query, r: StoredRecord) {
    IdHolds(q, r) && HoldsAll(r.tags, q.entries, Every) && OrHolds(q, r)
  }

  lemma IdMeaning(q: Query, next: nat, row: Row, params: seq<Param>)
    requires row.id == row.stored.id
    requires Bound(params, next, IdConditions(q, next).params)
    ensures Decided(IdConditions(q, next).items, row, params, IdHolds(q, row.stored))
  {
    var ids := IdConditions(q, next);
    if ids.items != [] {
      BoundAt(params, next, ids.params, 0);
      DecidedOne(ids.items[0], row, params, IdHolds(q, row.stored));
    }
  }

  lemma OrMeaning(q: Query, next: nat, row: Row, params: seq<Param>)
    requires Bound(params, next, OrConditions(q, next).params)
    ensures Decided(OrConditions(q, next).items, row, params, OrHolds(q, row.stored))
  {
    var ors := OrConditions(q, next);
    if ors.items != [] {
      BranchesMeaning(q.or.value, next, row, params);
      DisjValue(BranchConditions(q.or.value, next).items, row, params, OrHolds(q, row.stored));
      DecidedOne(ors.items[0], row, params, OrHolds(q, row.stored));
    }
  }

  lemma ThreeParts(ps: seq<Prim>, qs: seq<Prim>, rs: seq<Prim>, row: Row, params: seq<Param>, a: bool, b: bool, c: bool)
    requires Decided(ps, row, params, a) && Decided(qs, row, params, b) && Decided(rs, row, params, c)
    ensures EvalConj(ConjOf(ps + qs + rs), row, params) == ToTri(a && b && c)
  {
    DecidedJoin(ps, qs, row, params, a, b);
    DecidedJoin(ps + qs, rs, row, params, a && b, c);
    ConjValue(ps + qs + rs, row, params, a && b && c);
  }

  // For every query, every row and every binding that places the clause's parameters at `start`
  // (whatever surrounds them), the clause is True or False, never Unknown, and tests Selects.
  lemma ClauseMeaning(q: Query, start: nat, row: Row, params: seq<Param>)
    requires row.id == row.stored.id
    requires Bound(params, start, Conditions(q, start).params)
    ensures EvalDisj(Clause(q, start), row, params) == ToTri(Selects(q, row.stored))
  {
    hide EntryConditions, BranchConditions;
    var ids := IdConditions(q, start);
    var next := start + |ids.params|;
    var tags := EntryConditions(q.entries, Every, next);
    var ors := OrConditions(q, next + |tags.params|);
    BoundThree(params, start, ids.params, tags.params, ors.params);
    IdMeaning(q, start, row, params);
    EntriesMeaning(q.entries, Every, next, row, params);
    OrMeaning(q, next + |tags.params|, row, params);
    ThreeParts(ids.items, tags.items, ors.items, row, params,
      IdHolds(q, row.stored), HoldsAll(row.stored.tags, q.entries, Every), OrHolds(q, row.stored));
  }
}
