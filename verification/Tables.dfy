// Database tables as sequences of rows in order of insertion: update, deletion and lookup of the
// rows that meet a condition, and what these keep.
module Tables {
  import opened Options

  // A row-wise update.
  function Updated<T>(f: T -> T, rows: seq<T>): (r: seq<T>)
    ensures |r| == |rows| && forall i | 0 <= i < |rows| :: r[i] == f(rows[i])
  {
    if rows == [] then [] else Updated(f, rows[..|rows| - 1]) + [f(rows[|rows| - 1])]
  }

  // The rows that meet a condition.
  function Selected<T>(keep: T -> bool, rows: seq<T>): seq<T>
  {
    if rows == [] then []
    else
      var init, last := rows[..|rows| - 1], rows[|rows| - 1];
      if keep(last) then Selected(keep, init) + [last] else Selected(keep, init)
  }

  // The first row that meets a condition.
  function First<T>(f: T -> bool, rows: seq<T>): (r: Option<T>)
    ensures r.None? <==> forall i | 0 <= i < |rows| :: !f(rows[i])
    ensures r.Some? ==> f(r.value) && r.value in rows
  {
    if rows == [] then None else if f(rows[0]) then Some(rows[0]) else First(f, rows[1..])
  }

  // A relation that every row has to every later one.
  ghost predicate Pairwise<T(!new)>(rel: (T, T) -> bool, rows: seq<T>) {
    forall i, j | 0 <= i < j < |rows| :: rel(rows[i], rows[j])
  }

  // A selection holds the rows that meet the condition and no others.
  lemma {:induction false} SelectedMembers<T>(keep: T -> bool, rows: seq<T>)
    ensures |Selected(keep, rows)| <= |rows|
    ensures forall i | 0 <= i < |Selected(keep, rows)| ::
              keep(Selected(keep, rows)[i]) && exists j | 0 <= j < |rows| :: rows[j] == Selected(keep, rows)[i]
    ensures forall j | 0 <= j < |rows| && keep(rows[j]) ::
              exists i | 0 <= i < |Selected(keep, rows)| :: rows[j] == Selected(keep, rows)[i]
  {
    if rows != [] {
      var init, last := rows[..|rows| - 1], rows[|rows| - 1];
      SelectedMembers(keep, init);
      var before, after := Selected(keep, init), Selected(keep, rows);
      forall i | 0 <= i < |after| ensures keep(after[i]) && exists j | 0 <= j < |rows| :: rows[j] == after[i] {
        if i < |before| {
          var j :| 0 <= j < |init| && init[j] == before[i];
          assert rows[j] == after[i];
        } else {
          assert rows[|rows| - 1] == after[i];
        }
      }
      forall j | 0 <= j < |rows| && keep(rows[j]) ensures exists i | 0 <= i < |after| :: rows[j] == after[i] {
        if j < |init| {
          assert rows[j] == init[j];
          var i :| 0 <= i < |before| && init[j] == before[i];
          assert rows[j] == after[i];
        } else {
          assert rows[j] == after[|before|];
        }
      }
    }
  }

  lemma SelectedBefore<T(!new)>(keep: T -> bool, rel: (T, T) -> bool, rows: seq<T>, last: T)
    requires forall i | 0 <= i < |rows| :: rel(rows[i], last)
    ensures forall i | 0 <= i < |Selected(keep, rows)| :: rel(Selected(keep, rows)[i], last)
  {
    hide Selected;
    SelectedMembers(keep, rows);
  }

  lemma PairwiseInit<T(!new)>(rel: (T, T) -> bool, init: seq<T>, last: T)
    requires Pairwise(rel, init + [last])
    ensures Pairwise(rel, init)
    ensures forall i | 0 <= i < |init| :: rel(init[i], last)
  {
    var rows := init + [last];
    assert forall i | 0 <= i < |init| :: rows[i] == init[i] && rel(rows[i], rows[|init|]);
  }

  lemma {:induction false} SelectedPairwise<T(!new)>(keep: T -> bool, rel: (T, T) -> bool, rows: seq<T>)
    requires Pairwise(rel, rows)
    ensures Pairwise(rel, Selected(keep, rows))
  {
    if rows != [] {
      var init, last := rows[..|rows| - 1], rows[|rows| - 1];
      assert rows == init + [last];
      PairwiseInit(rel, init, last);
      hide Pairwise;
      SelectedPairwise(keep, rel, init);
      SelectedBefore(keep, rel, init, last);
      if keep(last) {
        SnocPairwise(rel, Selected(keep, init), last);
      }
    }
  }

  // A deletion undoes an insertion when the condition tells the inserted row from the others.
  lemma {:induction false} SelectedAll<T>(keep: T -> bool, rows: seq<T>)
    requires forall i | 0 <= i < |rows| :: keep(rows[i])
    ensures Selected(keep, rows) == rows
  {
    if rows != [] {
      SelectedAll(keep, rows[..|rows| - 1]);
      assert rows == rows[..|rows| - 1] + [rows[|rows| - 1]];
    }
  }

  lemma SelectedSnoc<T>(keep: T -> bool, rows: seq<T>, row: T)
    ensures Selected(keep, rows + [row]) == if keep(row) then Selected(keep, rows) + [row] else Selected(keep, rows)
  {
    assert (rows + [row])[..|rows|] == rows;
  }

  lemma UpdatedPairwise<T(!new)>(f: T -> T, rel: (T, T) -> bool, rows: seq<T>)
    requires Pairwise(rel, rows)
    requires forall x, y :: rel(x, y) ==> rel(f(x), f(y))
    ensures Pairwise(rel, Updated(f, rows))
  {
  }

  lemma SnocPairwise<T(!new)>(rel: (T, T) -> bool, rows: seq<T>, row: T)
    requires Pairwise(rel, rows)
    requires forall i | 0 <= i < |rows| :: rel(rows[i], row)
    ensures Pairwise(rel, rows + [row])
  {
  }

  // Lookups see through updates that leave the condition alone, insertions and deletions of others.
  lemma FirstUpdated<T(!new)>(g: T -> bool, f: T -> T, rows: seq<T>)
    requires forall x :: g(f(x)) == g(x)
    ensures First(g, Updated(f, rows)).Some? <==> First(g, rows).Some?
  {
    var after := Updated(f, rows);
    assert forall i | 0 <= i < |rows| :: g(after[i]) == g(rows[i]);
  }

  lemma FirstSnoc<T>(g: T -> bool, rows: seq<T>, row: T)
    ensures First(g, rows + [row]).Some? <==> First(g, rows).Some? || g(row)
  {
    var after := rows + [row];
    assert forall i | 0 <= i < |rows| :: after[i] == rows[i];
    assert after[|rows|] == row;
  }

  lemma FirstSelected<T>(g: T -> bool, keep: T -> bool, rows: seq<T>)
    requires forall i | 0 <= i < |rows| && g(rows[i]) :: keep(rows[i])
    ensures First(g, Selected(keep, rows)).Some? <==> First(g, rows).Some?
  {
    SelectedMembers(keep, rows);
  }

  lemma FirstUnique<T>(g: T -> bool, rows: seq<T>, i: nat)
    requires i < |rows| && g(rows[i]) && forall j | 0 <= j < |rows| && g(rows[j]) :: j == i
    ensures First(g, rows) == Some(rows[i])
  {
  }

  lemma FirstAt<T>(g: T -> bool, rows: seq<T>) returns (i: nat)
    requires First(g, rows).Some?
    ensures i < |rows| && rows[i] == First(g, rows).value && g(rows[i])
  {
    i :| i < |rows| && rows[i] == First(g, rows).value;
  }
}
