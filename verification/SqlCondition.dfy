// The fragment of SQL the query builder writes: tokens, the grammar that reads them back, and
// their value on a row under three-valued logic.
module SqlCondition {
  import opened Options
  import opened TagQuery

  // A row of the `records` table; `stored` is the parsed `data` column.
  datatype Row = Row(typ: string, walletId: string, id: string, stored: StoredRecord)

  datatype Column = TypeColumn | WalletColumn | IdColumn

  // Primitive conditions. Numbers are parameter indices: `$n`. `key` is the parameter that names
  // the tag in jsonb_extract_path(data::jsonb, 'tags', $key), called the path below.
  datatype Atom =
    | TrueLiteral                                // TRUE
    | ColumnEq(column: Column, param: nat)       // column = $param
    | Exists(key: nat)                           // path IS NOT NULL
    | IsArray(key: nat)                          // jsonb_typeof(path) = 'array'
    | HasAny(key: nat, texts: nat)               // path ?| $texts::text[]
    | Contains(key: nat, json: nat)              // path @> $json::jsonb
    | CaseScalar(key: nat, text: nat, json: nat) // CASE WHEN typeof = 'array' THEN path ? $text ELSE path = $json END

  datatype Token = Lit(a: Atom) | KwAnd | KwOr | Open | Close

  // Syntax trees: a disjunction of conjunctions of atoms and parenthesised disjunctions.
  datatype Prim = Leaf(a: Atom) | Group(d: Disj)
  datatype Conj = One(p: Prim) | AndThen(p: Prim, rest: Conj)
  datatype Disj = Only(c: Conj) | OrElse(c: Conj, more: Disj)

  // ---- Writing ----

  function PrintPrim(p: Prim): (ts: seq<Token>)
    ensures |ts| > 0
  {
    match p
    case Leaf(a) => [Lit(a)]
    case Group(d) => [Open] + PrintDisj(d) + [Close]
  }

  function PrintConj(c: Conj): (ts: seq<Token>)
    ensures |ts| > 0
  {
    match c
    case One(p) => PrintPrim(p)
    case AndThen(p, rest) => PrintPrim(p) + [KwAnd] + PrintConj(rest)
  }

  function PrintDisj(d: Disj): (ts: seq<Token>)
    ensures |ts| > 0
  {
    match d
    case Only(c) => PrintConj(c)
    case OrElse(c, more) => PrintConj(c) + [KwOr] + PrintDisj(more)
  }

  // ---- Reading: AND binds tighter than OR ----

  type Parsed<T> = Option<(T, seq<Token>)>

  function ParsePrim(ts: seq<Token>): (r: Parsed<Prim>)
    ensures r.Some? ==> |r.value.1| < |ts|
    decreases |ts|, 0
  {
    if ts == [] then None
    else match ts[0]
      case Lit(a) => Some((Leaf(a), ts[1..]))
      case Open =>
        (match ParseDisj(ts[1..])
         case None => None
         case Some((d, rest)) => if rest != [] && rest[0].Close? then Some((Group(d), rest[1..])) else None)
      case _ => None
  }

  function ParseConj(ts: seq<Token>): (r: Parsed<Conj>)
    ensures r.Some? ==> |r.value.1| < |ts|
    decreases |ts|, 1
  {
    match ParsePrim(ts)
    case None => None
    case Some((p, rest)) =>
      if rest != [] && rest[0].KwAnd? then
        match ParseConj(rest[1..])
        case None => None
        case Some((c, rest')) => Some((AndThen(p, c), rest'))
      else Some((One(p), rest))
  }

  function ParseDisj(ts: seq<Token>): (r: Parsed<Disj>)
    ensures r.Some? ==> |r.value.1| < |ts|
    decreases |ts|, 2
  {
    match ParseConj(ts)
    case None => None
    case Some((c, rest)) =>
      if rest != [] && rest[0].KwOr? then
        match ParseDisj(rest[1..])
        case None => None
        case Some((d, rest')) => Some((OrElse(c, d), rest'))
      else Some((Only(c), rest))
  }

  // The tree of a complete condition.
  function Parse(ts: seq<Token>): Option<Disj> {
    match ParseDisj(ts)
    case Some((d, rest)) => if rest == [] then Some(d) else None
    case None => None
  }

  lemma {:induction false} ParsePrintPrim(p: Prim, rest: seq<Token>)
    ensures ParsePrim(PrintPrim(p) + rest) == Some((p, rest))
    decreases p
  {
    var ts := PrintPrim(p) + rest;
    match p
    case Leaf(a) => assert ts[1..] == rest;
    case Group(d) =>
      assert ts[1..] == PrintDisj(d) + ([Close] + rest);
      ParsePrintDisj(d, [Close] + rest);
      assert ([Close] + rest)[1..] == rest;
  }

  lemma {:induction false} ParsePrintConj(c: Conj, rest: seq<Token>)
    requires rest == [] || !rest[0].KwAnd?
    ensures ParseConj(PrintConj(c) + rest) == Some((c, rest))
    decreases c
  {
    match c
    case One(p) => ParsePrintPrim(p, rest);
    case AndThen(p, more) =>
      var tail := [KwAnd] + (PrintConj(more) + rest);
      assert PrintConj(c) + rest == PrintPrim(p) + tail;
      ParsePrintPrim(p, tail);
      assert tail[1..] == PrintConj(more) + rest;
      ParsePrintConj(more, rest);
  }

  // Reading back what was written gives the tree it was written from.
  lemma {:induction false} ParsePrintDisj(d: Disj, rest: seq<Token>)
    requires rest == [] || (!rest[0].KwAnd? && !rest[0].KwOr?)
    ensures ParseDisj(PrintDisj(d) + rest) == Some((d, rest))
    decreases d
  {
    match d
    case Only(c) => ParsePrintConj(c, rest);
    case OrElse(c, more) =>
      var tail := [KwOr] + (PrintDisj(more) + rest);
      assert PrintDisj(d) + rest == PrintConj(c) + tail;
      ParsePrintConj(c, tail);
      assert tail[1..] == PrintDisj(more) + rest;
      ParsePrintDisj(more, rest);
  }

  lemma ParsePrint(d: Disj)
    ensures Parse(PrintDisj(d)) == Some(d)
  {
    ParsePrintDisj(d, []);
    assert PrintDisj(d) + [] == PrintDisj(d);
  }

  // What is read is what was written: no other text comes to this tree and this rest.
  lemma {:induction false} PrintParsePrim(ts: seq<Token>)
    ensures ParsePrim(ts).Some? ==> ts == PrintPrim(ParsePrim(ts).value.0) + ParsePrim(ts).value.1
    decreases |ts|, 0
  {
    if ts != [] && ts[0].Open? {
      PrintParseDisj(ts[1..]);
    }
  }

  lemma {:induction false} PrintParseConj(ts: seq<Token>)
    ensures ParseConj(ts).Some? ==> ts == PrintConj(ParseConj(ts).value.0) + ParseConj(ts).value.1
    decreases |ts|, 1
  {
    PrintParsePrim(ts);
    if ParsePrim(ts).Some? {
      var rest := ParsePrim(ts).value.1;
      if rest != [] && rest[0].KwAnd? {
        PrintParseConj(rest[1..]);
      }
    }
  }

  lemma {:induction false} PrintParseDisj(ts: seq<Token>)
    ensures ParseDisj(ts).Some? ==> ts == PrintDisj(ParseDisj(ts).value.0) + ParseDisj(ts).value.1
    decreases |ts|, 2
  {
    PrintParseConj(ts);
    if ParseConj(ts).Some? {
      var rest := ParseConj(ts).value.1;
      if rest != [] && rest[0].KwOr? {
        PrintParseDisj(rest[1..]);
      }
    }
  }

  // A text reads as a tree if and only if it is what the tree is written as.
  lemma ParseExactly(ts: seq<Token>, d: Disj)
    ensures Parse(ts) == Some(d) <==> ts == PrintDisj(d)
  {
    ParsePrint(d);
    PrintParseDisj(ts);
  }

  // ---- Values ----

  // SQL's three truth values, and Error for a missing or ill-typed parameter. Error is absorbing:
  // nothing is assumed about short-circuiting.
  datatype Tri = True | False | Unknown | Error

  function ToTri(b: bool): Tri { if b then True else False }

  function And3(a: Tri, b: Tri): Tri {
    if a.Error? || b.Error? then Error
    else if a.False? || b.False? then False
    else if a.Unknown? || b.Unknown? then Unknown
    else True
  }

  function Or3(a: Tri, b: Tri): Tri {
    if a.Error? || b.Error? then Error
    else if a.True? || b.True? then True
    else if a.Unknown? || b.Unknown? then Unknown
    else False
  }

  // AND is the lesser and OR the greater of two values in this order; an error spoils both.
  function Rank(t: Tri): int {
    match t
    case Error => -1
    case False => 0
    case Unknown => 1
    case True => 2
  }

  lemma LesserAndGreater(a: Tri, b: Tri)
    ensures a == Error || b == Error ==> And3(a, b) == Or3(a, b) == Error
    ensures a != Error && b != Error ==>
              && And3(a, b) in {a, b} && Rank(And3(a, b)) <= Rank(a) && Rank(And3(a, b)) <= Rank(b)
              && Or3(a, b) in {a, b} && Rank(Or3(a, b)) >= Rank(a) && Rank(Or3(a, b)) >= Rank(b)
  {
  }

  // Bound parameters: text, text[], JSON text (held as the value its jsonb cast yields), integers.
  datatype Json = JScalar(v: Scalar) | JArray(vs: seq<Scalar>)
  datatype Param = PText(s: string) | PTexts(ss: seq<string>) | PJson(j: Json) | PInt(n: int)

  function ParamAt(params: seq<Param>, n: nat): Option<Param> {
    if 1 <= n <= |params| then Some(params[n - 1]) else None
  }

  function ColumnOf(row: Row, column: Column): string {
    match column
    case TypeColumn => row.typ
    case WalletColumn => row.walletId
    case IdColumn => row.id
  }

  // jsonb ?| text[] : strings of an array, or a string on its own.
  predicate JsonHasAny(t: TagValue, ss: seq<string>) {
    match t
    case TagNull => false
    case TagScalar(v) => v.Str? && v.s in ss
    case TagList(list) => exists s | s in ss :: s in list
  }

  // jsonb @> jsonb
  predicate JsonContains(t: TagValue, j: Json) {
    match t
    case TagNull => false
    case TagScalar(v) => j == JScalar(v)
    case TagList(list) =>
      match j
      case JScalar(v) => Includes(list, v)
      case JArray(vs) => forall v | v in vs :: Includes(list, v)
  }

  // An operator on the path: Unknown on SQL NULL, which is what an absent tag gives.
  function OnPath(row: Row, params: seq<Param>, key: nat, op: TagValue -> bool): Tri {
    match ParamAt(params, key)
    case Some(PText(k)) => if k in row.stored.tags then ToTri(op(row.stored.tags[k])) else Unknown
    case _ => Error
  }

  function EvalAtom(a: Atom, row: Row, params: seq<Param>): Tri {
    match a
    case TrueLiteral => True
    case ColumnEq(column, n) =>
      (match ParamAt(params, n)
       case Some(PText(s)) => ToTri(ColumnOf(row, column) == s)
       case _ => Error)
    case Exists(key) =>
      var v := OnPath(row, params, key, t => true);
      if v.Unknown? then False else v
    case IsArray(key) => OnPath(row, params, key, (t: TagValue) => t.TagList?)
    case HasAny(key, n) =>
      (match ParamAt(params, n)
       case Some(PTexts(ss)) => OnPath(row, params, key, t => JsonHasAny(t, ss))
       case _ => Error)
    case Contains(key, n) =>
      (match ParamAt(params, n)
       case Some(PJson(j)) => OnPath(row, params, key, t => JsonContains(t, j))
       case _ => Error)
    case CaseScalar(key, n, m) =>
      (match (ParamAt(params, n), ParamAt(params, m))
       case (Some(PText(s)), Some(PJson(j))) =>
         OnPath(row, params, key, (t: TagValue) =>
           if t.TagList? then JsonHasAny(t, [s]) else t.TagScalar? && j == JScalar(t.v))
       case _ => Error)
  }

  function EvalPrim(p: Prim, row: Row, params: seq<Param>): Tri {
    match p
    case Leaf(a) => EvalAtom(a, row, params)
    case Group(d) => EvalDisj(d, row, params)
  }

  function EvalConj(c: Conj, row: Row, params: seq<Param>): Tri {
    match c
    case One(p) => EvalPrim(p, row, params)
    case AndThen(p, rest) => And3(EvalPrim(p, row, params), EvalConj(rest, row, params))
  }

  function EvalDisj(d: Disj, row: Row, params: seq<Param>): Tri {
    match d
    case Only(c) => EvalConj(c, row, params)
    case OrElse(c, more) => Or3(EvalConj(c, row, params), EvalDisj(more, row, params))
  }

  // The value of a condition given as text: what the database computes. Error when it does not parse.
  function EvalText(ts: seq<Token>, row: Row, params: seq<Param>): Tri {
    match Parse(ts)
    case Some(d) => EvalDisj(d, row, params)
    case None => Error
  }
}
