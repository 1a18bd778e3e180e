/**
  Tables and bounded ordered queries. A table is a set of rows, each with its own id; a query
  `ORDER BY key LIMIT n` picks n rows of smallest key.
*/
module OrderedRows {
  type Key = (int, int)

  predicate AtMost(a: Key, b: Key) {
    a.0 < b.0 || (a.0 == b.0 && a.1 <= b.1)
  }

  predicate IsLeast<Row>(rows: set<Row>, key: Row -> Key, r: Row) {
    r in rows && forall q | q in rows :: AtMost(key(r), key(q))
  }

  lemma {:induction false} LeastExists<Row>(rows: set<Row>, key: Row -> Key)
    requires rows != {}
    ensures exists r :: IsLeast(rows, key, r)
    decreases |rows|
  {
    var q :| q in rows;
    var others := rows - {q};
    if others == {} {
      assert rows == {q};
      assert IsLeast(rows, key, q);
    } else {
      LeastExists(others, key);
      var r :| IsLeast(others, key, r);
      assert IsLeast(rows, key, if AtMost(key(r), key(q)) then r else q);
    }
  }

  lemma SubsetIsNoLarger<Row>(a: set<Row>, b: set<Row>)
    requires a <= b
    ensures |a| <= |b|
    ensures a != b ==> |a| < |b|
  {
    assert b == a + (b - a);
    if a != b {
      assert b - a != {};
    }
  }

  /** What `ORDER BY key LIMIT limit` may return for these rows. */
  ghost predicate IsFirst<Row>(rows: set<Row>, key: Row -> Key, limit: nat, picked: set<Row>) {
    && picked <= rows
    && |picked| == (if |rows| < limit then |rows| else limit)
    && forall p, q | p in picked && q in rows - picked :: AtMost(key(p), key(q))
  }

  /** Among all rows the picked ones come first, by the first component and then by the second. */
  lemma FirstComeFirst<Row>(rows: set<Row>, key: Row -> Key, limit: nat, picked: set<Row>, p: Row, q: Row)
    requires IsFirst(rows, key, limit, picked) && p in picked && q in rows && q !in picked
    ensures key(p).0 <= key(q).0 && (key(p).0 == key(q).0 ==> key(p).1 <= key(q).1)
    ensures |picked| == limit < |rows|
  {
    assert AtMost(key(p), key(q));
    SubsetIsNoLarger(picked, rows);
  }

  method Least<Row(==)>(rows: set<Row>, key: Row -> Key) returns (least: Row)
    requires rows != {}
    ensures IsLeast(rows, key, least)
  {
    least :| least in rows;
    var rest := rows - {least};
    while rest != {}
      invariant least in rows && rest <= rows
      invariant forall q | q in rows - rest :: AtMost(key(least), key(q))
      decreases |rest|
    {
      var q :| q in rest;
      if !AtMost(key(least), key(q)) {
        least := q;
      }
      rest := rest - {q};
    }
  }

  method First<Row(==)>(rows: set<Row>, key: Row -> Key, limit: nat) returns (picked: set<Row>)
    ensures IsFirst(rows, key, limit, picked)
  {
    picked := {};
    var rest := rows;
    while |picked| < limit && rest != {}
      invariant rest == rows - picked && picked <= rows
      invariant |picked| <= limit && |picked| + |rest| == |rows|
      invariant forall p, q | p in picked && q in rest :: AtMost(key(p), key(q))
      decreases |rest|
    {
      var r := Least(rest, key);
      picked := picked + {r};
      rest := rest - {r};
    }
  }

  /** A bounded query that returns anything returns a least row of the whole table. */
  lemma FirstHoldsLeast<Row>(rows: set<Row>, key: Row -> Key, limit: nat, picked: set<Row>, r: Row)
    requires IsFirst(rows, key, limit, picked) && IsLeast(picked, key, r)
    ensures IsLeast(rows, key, r)
  {
  }
}
