/** Sums over the rows of a table, a finite map from ids to amounts. */
module Tables {

  lemma {:induction false} FindLeast(ids: set<nat>) returns (k: nat)
    requires ids != {}
    ensures k in ids && forall j :: j in ids ==> k <= j
    decreases |ids|
  {
    var i :| i in ids;
    k := i;
    if ids != {i} {
      var least := FindLeast(ids - {i});
      k := if least < i then least else i;
    }
    forall j | j in ids ensures k <= j {
      assert j == i || j in ids - {i};
    }
  }

  lemma HasLeast(ids: set<nat>)
    requires ids != {}
    ensures exists k :: k in ids && forall j :: j in ids ==> k <= j
  {
    var k := FindLeast(ids);
  }

  /** The least id of a table that is not empty. */
  function Least(ids: set<nat>): (k: nat)
    requires ids != {}
    ensures k in ids
  {
    HasLeast(ids);
    var k :| k in ids && forall j :: j in ids ==> k <= j;
    k
  }

  function SumOver(m: map<nat, int>): int
    decreases |m|
  {
    if m == map[] then 0
    else
      var k := Least(m.Keys);
      m[k] + SumOver(m - {k})
  }

  /** Any row may be taken out first. */
  lemma {:induction false} SumSplitsAt(m: map<nat, int>, k: nat)
    requires k in m
    ensures SumOver(m) == m[k] + SumOver(m - {k})
    decreases |m|
  {
    var j := Least(m.Keys);
    if j != k {
      SumSplitsAt(m - {j}, k);
      SumSplitsAt(m - {k}, j);
      assert m - {j} - {k} == m - {k} - {j};
    }
  }

  lemma SumInserted(m: map<nat, int>, k: nat, v: int)
    requires k !in m
    ensures SumOver(m[k := v]) == SumOver(m) + v
  {
    SumSplitsAt(m[k := v], k);
    assert m[k := v] - {k} == m;
  }

  /** One column of a table. */
  function Column<R>(rows: map<nat, R>, f: R -> int): map<nat, int> {
    map k | k in rows :: f(rows[k])
  }

  lemma ColumnGrows<R>(rows: map<nat, R>, k: nat, row: R, f: R -> int)
    requires k !in rows
    ensures SumOver(Column(rows[k := row], f)) == SumOver(Column(rows, f)) + f(row)
  {
    assert Column(rows[k := row], f) == Column(rows, f)[k := f(row)];
    SumInserted(Column(rows, f), k, f(row));
  }

  ghost function Differences(a: map<nat, int>, b: map<nat, int>): map<nat, int>
    requires a.Keys == b.Keys
  {
    map k | k in a :: a[k] - b[k]
  }

  lemma {:induction false} SumOfDifferences(a: map<nat, int>, b: map<nat, int>)
    requires a.Keys == b.Keys
    ensures SumOver(Differences(a, b)) == SumOver(a) - SumOver(b)
    decreases |a|
  {
    if a == map[] {
      assert b == map[] && Differences(a, b) == map[];
    } else {
      var k :| k in a;
      SumSplitsAt(a, k);
      SumSplitsAt(b, k);
      SumSplitsAt(Differences(a, b), k);
      assert Differences(a, b) - {k} == Differences(a - {k}, b - {k});
      SumOfDifferences(a - {k}, b - {k});
    }
  }
}
