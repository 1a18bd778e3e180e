/** JavaScript strings: sequences of UTF-16 code units, ordered by code unit. */
module Text {
  newtype Unit = x: int | 0 <= x < 0x1_0000

  type Text = seq<Unit>

  /** The `<` of JavaScript strings. */
  predicate Less(a: Text, b: Text) {
    if b == [] then false
    else if a == [] then true
    else a[0] < b[0] || (a[0] == b[0] && Less(a[1..], b[1..]))
  }

  lemma {:induction false} LessIsTotal(a: Text, b: Text)
    ensures Less(a, b) || Less(b, a) || a == b
    ensures !(Less(a, b) && Less(b, a))
    ensures !Less(a, a)
  {
    if a != [] {
      LessIsTotal(a[1..], a[1..]);
      if b != [] {
        LessIsTotal(a[1..], b[1..]);
        assert a == [a[0]] + a[1..] && b == [b[0]] + b[1..];
      }
    }
  }

  lemma {:induction false} LessIsTransitive(a: Text, b: Text, c: Text)
    requires Less(a, b) && Less(b, c)
    ensures Less(a, c)
  {
    if a != [] && a[0] == b[0] == c[0] {
      LessIsTransitive(a[1..], b[1..], c[1..]);
    }
  }

  /** The order of ECMA-262, section 7.2.13: the first different unit decides, and a prefix comes first. */
  lemma {:induction false} FirstDifferenceDecides(a: Text, b: Text, k: nat)
    requires k <= |a| && k < |b| && a[..k] == b[..k] && (k == |a| || a[k] < b[k])
    ensures Less(a, b) && !Less(b, a)
  {
    if k > 0 {
      assert a[0] == a[..k][0] == b[..k][0] == b[0];
      assert a[1..][..k - 1] == a[..k][1..] && b[1..][..k - 1] == b[..k][1..];
      FirstDifferenceDecides(a[1..], b[1..], k - 1);
    }
  }

  // ---------------------------------------------------------------------------------------------
  // Array.prototype.sort on strings
  // ---------------------------------------------------------------------------------------------

  predicate Sorted(ts: seq<Text>) {
    forall i, j :: 0 <= i < j < |ts| ==> !Less(ts[j], ts[i])
  }

  function Insert(t: Text, sorted: seq<Text>): (r: seq<Text>)
    ensures multiset(r) == multiset(sorted) + multiset{t}
  {
    if sorted == [] then [t]
    else if Less(sorted[0], t) then
      assert sorted == [sorted[0]] + sorted[1..];
      [sorted[0]] + Insert(t, sorted[1..])
    else [t] + sorted
  }

  function Sort(ts: seq<Text>): (r: seq<Text>)
    ensures multiset(r) == multiset(ts)
  {
    if ts == [] then []
    else
      assert ts == [ts[0]] + ts[1..];
      Insert(ts[0], Sort(ts[1..]))
  }

  lemma NotLessIsTransitive(a: Text, b: Text, c: Text)
    requires !Less(b, a) && !Less(c, b)
    ensures !Less(c, a)
  {
  }

  lemma {:induction false} InsertIsSorted(t: Text, sorted: seq<Text>)
    requires Sorted(sorted)
    ensures Sorted(Insert(t, sorted))
  {
    if sorted != [] {
      LessIsTotal(sorted[0], t);
      if Less(sorted[0], t) {
        var rest := Insert(t, sorted[1..]);
        InsertIsSorted(t, sorted[1..]);
        forall j | 0 <= j < |rest|
          ensures !Less(rest[j], sorted[0])
        {
          assert rest[j] in multiset(rest);
          assert rest[j] == t || rest[j] in sorted[1..];
        }
      } else {
        forall j | 0 <= j < |sorted|
          ensures !Less(sorted[j], t)
        {
          LessIsTotal(sorted[0], sorted[0]);
          NotLessIsTransitive(t, sorted[0], sorted[j]);
        }
      }
    }
  }

  lemma {:induction false} SortIsSorted(ts: seq<Text>)
    ensures Sorted(Sort(ts))
  {
    if ts != [] {
      SortIsSorted(ts[1..]);
      InsertIsSorted(ts[0], Sort(ts[1..]));
    }
  }

  lemma SameHead(a: seq<Text>, b: seq<Text>)
    requires Sorted(a) && Sorted(b) && a != [] && b != [] && multiset(a) == multiset(b)
    ensures a[0] == b[0]
  {
    assert a[0] in multiset(b) && b[0] in multiset(a);
    var j :| 0 <= j < |b| && b[j] == a[0];
    var i :| 0 <= i < |a| && a[i] == b[0];
    LessIsTotal(a[0], b[0]);
  }

  lemma TailContents(a: seq<Text>)
    requires a != []
    ensures multiset(a[1..]) == multiset(a) - multiset{a[0]}
  {
    assert a == [a[0]] + a[1..];
  }

  lemma {:induction false} SortedIsUnique(a: seq<Text>, b: seq<Text>)
    requires Sorted(a) && Sorted(b) && multiset(a) == multiset(b)
    ensures a == b
  {
    assert |multiset(a)| == |a| && |multiset(b)| == |b|;
    if a != [] {
      SameHead(a, b);
      TailContents(a);
      TailContents(b);
      SortedIsUnique(a[1..], b[1..]);
    }
  }

  /** Sorted lists are equal exactly when the unsorted ones hold the same texts equally often. */
  lemma SortDecidesContents(a: seq<Text>, b: seq<Text>)
    ensures Sort(a) == Sort(b) <==> multiset(a) == multiset(b)
  {
    if multiset(a) == multiset(b) {
      SortIsSorted(a);
      SortIsSorted(b);
      SortedIsUnique(Sort(a), Sort(b));
    }
  }
}
