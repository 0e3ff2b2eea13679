/**
Rows of an attempts table: the statuses, which of them are still open, and numbering by
MAX + 1 within a key. The ledgers differ in what a key is and what else a row holds.
*/
module AttemptRows {
  datatype Status = Pending | Claimed | InFlight | Success | SubmitError | OutcomeError | Timeout | Abandoned

  predicate IsOpen(s: Status) {
    s.Pending? || s.Claimed? || s.InFlight?
  }

  /** An attempt; its place in the table is its id. */
  datatype Row<K(==), D> = Row(key: K, number: nat, status: Status, data: D)

  /** The largest attempt number of a key, zero when there is none. */
  function MaxNumber<K(==), D>(rows: seq<Row<K, D>>, key: K): nat {
    if rows == [] then 0
    else
      var last, rest := rows[|rows| - 1], MaxNumber(rows[..|rows| - 1], key);
      if last.key == key && last.number > rest then last.number else rest
  }

  function KeyCount<K(==), D>(rows: seq<Row<K, D>>, key: K): nat {
    if rows == [] then 0
    else KeyCount(rows[..|rows| - 1], key) + if rows[|rows| - 1].key == key then 1 else 0
  }

  predicate Carries<K(==), D>(rows: seq<Row<K, D>>, i: int, key: K, number: nat) {
    0 <= i < |rows| && rows[i].key == key && rows[i].number == number
  }

  predicate NumberTaken<K(==), D>(rows: seq<Row<K, D>>, key: K, number: nat) {
    exists i | 0 <= i < |rows| :: Carries(rows, i, key, number)
  }

  /** The attempts of the key are numbered 1, 2, 3, ... in table order. */
  ghost predicate Numbered<K, D>(rows: seq<Row<K, D>>, key: K) {
    forall i :: 0 <= i < |rows| && rows[i].key == key ==> rows[i].number == KeyCount(rows[..i], key) + 1
  }

  /** The same keys and numbers; statuses and data may differ. */
  ghost predicate SameNumbers<K, D>(a: seq<Row<K, D>>, b: seq<Row<K, D>>) {
    |a| == |b| && forall i :: 0 <= i < |a| ==> a[i].key == b[i].key && a[i].number == b[i].number
  }

  lemma NumberedPrefix<K, D>(rows: seq<Row<K, D>>, key: K, n: nat)
    requires Numbered(rows, key) && n <= |rows|
    ensures Numbered(rows[..n], key)
  {
    forall i | 0 <= i < n && rows[i].key == key ensures rows[..n][i].number == KeyCount(rows[..n][..i], key) + 1 {
      assert rows[..n][..i] == rows[..i];
    }
  }

  lemma {:induction false} MaxIsCount<K, D>(rows: seq<Row<K, D>>, key: K)
    requires Numbered(rows, key)
    ensures MaxNumber(rows, key) == KeyCount(rows, key)
  {
    if rows != [] {
      NumberedPrefix(rows, key, |rows| - 1);
      MaxIsCount(rows[..|rows| - 1], key);
    }
  }

  lemma {:induction false} CountGrows<K, D>(rows: seq<Row<K, D>>, i: nat, j: nat, key: K)
    requires i <= j <= |rows|
    ensures KeyCount(rows[..i], key) <= KeyCount(rows[..j], key)
    decreases j - i
  {
    if i < j {
      CountGrows(rows, i, j - 1, key);
      assert rows[..j][..j - 1] == rows[..j - 1];
    }
  }

  /** The numbers in use for a key are exactly 1..n. */
  lemma {:induction false} TakenExactly<K, D>(rows: seq<Row<K, D>>, key: K, number: nat)
    requires Numbered(rows, key)
    ensures NumberTaken(rows, key, number) <==> 1 <= number <= KeyCount(rows, key)
  {
    if rows != [] {
      var n := |rows| - 1;
      NumberedPrefix(rows, key, n);
      TakenExactly(rows[..n], key, number);
      if NumberTaken(rows[..n], key, number) {
        var i :| 0 <= i < n && Carries(rows[..n], i, key, number);
        assert Carries(rows, i, key, number);
      }
      if NumberTaken(rows, key, number) {
        var i :| 0 <= i < |rows| && Carries(rows, i, key, number);
        if i < n {
          assert Carries(rows[..n], i, key, number);
        }
      }
      if rows[n].key == key && number == rows[n].number {
        assert Carries(rows, n, key, number);
      }
    }
  }

  lemma Later<K, D>(rows: seq<Row<K, D>>, i: nat, j: nat, key: K)
    requires Numbered(rows, key) && i < j < |rows| && rows[i].key == rows[j].key == key
    ensures rows[i].number < rows[j].number
  {
    CountGrows(rows, i + 1, j, key);
    assert rows[..i + 1][..i] == rows[..i];
  }

  /** No two attempts of a key have one number. */
  lemma CarriedOnce<K, D>(rows: seq<Row<K, D>>, key: K, number: nat, i: nat, j: nat)
    requires Numbered(rows, key) && Carries(rows, i, key, number) && Carries(rows, j, key, number)
    ensures i == j
  {
    if i < j {
      Later(rows, i, j, key);
    } else if j < i {
      Later(rows, j, i, key);
    }
  }

  lemma NumberedAppend<K, D>(rows: seq<Row<K, D>>, row: Row<K, D>, key: K)
    requires Numbered(rows, key) && (row.key == key ==> row.number == KeyCount(rows, key) + 1)
    ensures Numbered(rows + [row], key)
  {
    var all := rows + [row];
    assert all[..|rows|] == rows;
    forall i | 0 <= i < |all| && all[i].key == key ensures all[i].number == KeyCount(all[..i], key) + 1 {
      if i < |rows| {
        assert all[..i] == rows[..i];
      }
    }
  }

  lemma CountAppend<K, D>(rows: seq<Row<K, D>>, row: Row<K, D>, key: K)
    ensures KeyCount(rows + [row], key) == KeyCount(rows, key) + if row.key == key then 1 else 0
  {
    assert (rows + [row])[..|rows|] == rows;
  }

  lemma {:induction false} SameCount<K, D>(a: seq<Row<K, D>>, b: seq<Row<K, D>>, key: K)
    requires SameNumbers(a, b)
    ensures KeyCount(a, key) == KeyCount(b, key)
  {
    if a != [] {
      SameCount(a[..|a| - 1], b[..|b| - 1], key);
    }
  }

  lemma NumberedSame<K, D>(a: seq<Row<K, D>>, b: seq<Row<K, D>>, key: K)
    requires Numbered(a, key) && SameNumbers(a, b)
    ensures Numbered(b, key)
  {
    forall i | 0 <= i < |b| && b[i].key == key ensures b[i].number == KeyCount(b[..i], key) + 1 {
      SameCount(a[..i], b[..i], key);
    }
  }
}
