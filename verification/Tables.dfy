/** Rows grouped by a key, sorted by a key, and the row with the greatest key. */
module Tables {
  import opened Order

  function Having<T, K(==)>(rows: seq<T>, key: T -> K, k: K): (found: seq<T>)
    ensures forall x :: x in found ==> x in rows && key(x) == k
  {
    if rows == [] then []
    else
      var before := Having(rows[..|rows| - 1], key, k);
      if key(rows[|rows| - 1]) == k then before + [rows[|rows| - 1]] else before
  }

  lemma {:induction false} HavingHas<T, K>(rows: seq<T>, key: T -> K, x: T)
    requires x in rows
    ensures x in Having(rows, key, key(x))
  {
    var last := rows[|rows| - 1];
    if x != last {
      assert rows == rows[..|rows| - 1] + [last];
      HavingHas(rows[..|rows| - 1], key, x);
    }
  }

  lemma HavingStep<T, K>(rows: seq<T>, i: nat, key: T -> K, k: K)
    requires i < |rows|
    ensures Having(rows[..i + 1], key, k)
      == if key(rows[i]) == k then Having(rows[..i], key, k) + [rows[i]] else Having(rows[..i], key, k)
  {
    assert rows[..i + 1][..i] == rows[..i];
  }

  ghost function KeysOf<T, K>(rows: seq<T>, key: T -> K): set<K> { set x | x in rows :: key(x) }

  lemma KeysOfStep<T, K>(rows: seq<T>, i: nat, key: T -> K)
    requires i < |rows|
    ensures KeysOf(rows[..i + 1], key) == KeysOf(rows[..i], key) + {key(rows[i])}
  {
  }

  method GroupBy<T, K(==)>(rows: seq<T>, key: T -> K) returns (groups: map<K, seq<T>>)
    ensures groups.Keys == KeysOf(rows, key)
    ensures forall k :: k in groups ==> groups[k] == Having(rows, key, k) != []
  {
    groups := map[];
    for i := 0 to |rows|
      invariant groups.Keys == KeysOf(rows[..i], key)
      invariant forall k :: k in groups ==> groups[k] == Having(rows[..i], key, k) != []
      invariant forall k :: k !in groups ==> Having(rows[..i], key, k) == []
    {
      var k := key(rows[i]);
      assert rows[..i + 1] == rows[..i] + [rows[i]] && rows[..i + 1][..i] == rows[..i];
      forall j { HavingStep(rows, i, key, j); }
      var group := if k in groups then groups[k] else [];
      assert group == Having(rows[..i], key, k);
      assert group + [rows[i]] != [];
      groups := groups[k := group + [rows[i]]];
    }
    assert rows[..|rows|] == rows;
  }

  method MaxBy<T>(rows: seq<T>, key: T -> seq<Part>) returns (best: T)
    requires rows != []
    ensures best in rows && forall x :: x in rows ==> KeyLe(key(x), key(best))
  {
    hide KeyLe;
    best := rows[0];
    KeyLeTotal(key(best), key(best));
    for i := 1 to |rows|
      invariant best in rows[..i] && forall x :: x in rows[..i] ==> KeyLe(key(x), key(best))
    {
      assert rows[..i + 1] == rows[..i] + [rows[i]];
      KeyLeTotal(key(rows[i]), key(best));
      KeyLeTotal(key(rows[i]), key(rows[i]));
      if !KeyLe(key(rows[i]), key(best)) {
        forall x | x in rows[..i] ensures KeyLe(key(x), key(rows[i])) {
          KeyLeTransitive(key(x), key(best), key(rows[i]));
        }
        best := rows[i];
      }
    }
    assert rows[..|rows|] == rows;
  }

  lemma {:induction false} GreatestOf<T>(members: set<T>, key: T -> seq<Part>) returns (best: T)
    requires members != {}
    ensures best in members && forall x :: x in members ==> KeyLe(key(x), key(best))
    decreases members
  {
    hide KeyLe;
    var x :| x in members;
    KeyLeTotal(key(x), key(x));
    best := x;
    if members != {x} {
      assert members - {x} != {};
      best := GreatestOf(members - {x}, key);
      KeyLeTotal(key(x), key(best));
      if !KeyLe(key(x), key(best)) {
        forall y | y in members - {x} ensures KeyLe(key(y), key(x)) {
          KeyLeTransitive(key(y), key(best), key(x));
        }
        best := x;
      }
    }
  }

  predicate Sorted<T>(rows: seq<T>, key: T -> seq<Part>) {
    forall i, j :: 0 <= i < j < |rows| ==> KeyLe(key(rows[i]), key(rows[j]))
  }

  method SortBy<T>(rows: seq<T>, key: T -> seq<Part>) returns (sorted: seq<T>)
    ensures multiset(sorted) == multiset(rows) && Sorted(sorted, key)
  {
    sorted := [];
    for i := 0 to |rows|
      invariant multiset(sorted) == multiset(rows[..i]) && Sorted(sorted, key)
    {
      assert rows[..i + 1] == rows[..i] + [rows[i]];
      sorted := Insert(sorted, rows[i], key);
    }
    assert rows[..|rows|] == rows;
  }

  /** Puts `x` after every row that is not greater, so equal rows stay in order. */
  method Insert<T>(rows: seq<T>, x: T, key: T -> seq<Part>) returns (result: seq<T>)
    requires Sorted(rows, key)
    ensures multiset(result) == multiset(rows) + multiset{x} && Sorted(result, key)
  {
    hide KeyLe;
    var i := |rows|;
    while i > 0 && !KeyLe(key(rows[i - 1]), key(x))
      invariant 0 <= i <= |rows|
      invariant forall j :: i <= j < |rows| ==> KeyLe(key(x), key(rows[j]))
    {
      KeyLeTotal(key(rows[i - 1]), key(x));
      i := i - 1;
    }
    forall j | 0 <= j < i ensures KeyLe(key(rows[j]), key(x)) {
      if j < i - 1 {
        KeyLeTransitive(key(rows[j]), key(rows[i - 1]), key(x));
      }
    }
    result := rows[..i] + [x] + rows[i..];
    assert rows == rows[..i] + rows[i..];
    InsertedIsSorted(rows, i, x, key);
  }

  lemma InsertedIsSorted<T>(rows: seq<T>, i: nat, x: T, key: T -> seq<Part>)
    requires Sorted(rows, key) && i <= |rows|
    requires forall j :: 0 <= j < i ==> KeyLe(key(rows[j]), key(x))
    requires forall j :: i <= j < |rows| ==> KeyLe(key(x), key(rows[j]))
    ensures Sorted(rows[..i] + [x] + rows[i..], key)
  {
  }

  /** No row occurs twice, said by position and by multiplicity. */
  predicate Distinct<T(==)>(rows: seq<T>) { forall i, j :: 0 <= i < j < |rows| ==> rows[i] != rows[j] }

  ghost predicate Once<T>(rows: seq<T>) { forall x :: x in rows ==> multiset(rows)[x] == 1 }

  lemma {:induction false} DistinctIsOnce<T>(rows: seq<T>)
    ensures Distinct(rows) <==> Once(rows)
  {
    if rows != [] {
      var last, rest := rows[|rows| - 1], rows[..|rows| - 1];
      assert rows == rest + [last];
      DistinctIsOnce(rest);
      if Distinct(rows) {
        assert last !in multiset(rest);
      }
      if Once(rows) {
        assert multiset(rows)[last] == multiset(rest)[last] + 1;
        assert last !in multiset(rest);
        forall x | x in rest ensures multiset(rest)[x] == 1 {
          assert x in multiset(rest) && x in rows && multiset(rows)[x] == 1;
        }
      }
    }
  }

  lemma DistinctJoin<T>(a: seq<T>, b: seq<T>)
    requires Distinct(a) && Distinct(b) && forall x :: x in a ==> x !in b
    ensures Distinct(a + b)
  {
    var c := a + b;
    forall i, j | 0 <= i < j < |c| ensures c[i] != c[j] {
      if i < |a| <= j {
        assert c[i] in a && c[j] in b;
      }
    }
  }

  lemma {:induction false} HavingDistinct<T, K>(rows: seq<T>, key: T -> K, k: K)
    requires Distinct(rows)
    ensures Distinct(Having(rows, key, k))
  {
    if rows != [] {
      HavingDistinct(rows[..|rows| - 1], key, k);
    }
  }

  /** No two rows share a key. */
  predicate Unrepeated<T, K(==)>(rows: seq<T>, key: T -> K) {
    forall i, j :: 0 <= i < j < |rows| ==> key(rows[i]) != key(rows[j])
  }

  method RejectDuplicateIdentities<T, K(==)>(rows: seq<T>, key: T -> K) returns (duplicate: bool)
    ensures duplicate <==> !Unrepeated(rows, key)
  {
    var seen := {};
    for i := 0 to |rows|
      invariant seen == KeysOf(rows[..i], key) && Unrepeated(rows[..i], key)
    {
      assert rows[..i + 1] == rows[..i] + [rows[i]];
      if key(rows[i]) in seen { return true; }
      seen := seen + {key(rows[i])};
    }
    assert rows[..|rows|] == rows;
    return false;
  }

  lemma UnrepeatedPermutes<T, K>(a: seq<T>, b: seq<T>, key: T -> K)
    requires multiset(a) == multiset(b) && Unrepeated(a, key)
    ensures Unrepeated(b, key)
  {
    assert Distinct(a);
    SameMembers(a, b);
    forall i, j | 0 <= i < j < |b| ensures key(b[i]) != key(b[j]) {
      assert b[i] in a && b[j] in a && b[i] != b[j];
    }
  }

  lemma SameMembers<T>(a: seq<T>, b: seq<T>)
    requires multiset(a) == multiset(b)
    ensures forall x :: x in a <==> x in b
    ensures Distinct(a) <==> Distinct(b)
  {
    forall x ensures x in a <==> x in b {
      assert x in a <==> x in multiset(a);
      assert x in b <==> x in multiset(b);
    }
    DistinctIsOnce(a);
    DistinctIsOnce(b);
  }

  ghost function RowSet<T>(rows: seq<T>): set<T> { set x | x in rows }

  lemma {:induction false} DistinctSize<T>(rows: seq<T>)
    requires Distinct(rows)
    ensures |RowSet(rows)| == |rows|
  {
    if rows != [] {
      var last, rest := rows[|rows| - 1], rows[..|rows| - 1];
      assert rows == rest + [last];
      DistinctSize(rest);
      assert RowSet(rows) == RowSet(rest) + {last};
    }
  }

  ghost function ImageOf<T, K>(members: set<T>, key: T -> K): set<K> { set x | x in members :: key(x) }

  /** Distinct members of a set have distinct images, so there are as many. */
  lemma {:induction false} ImageSize<T, K>(members: set<T>, key: T -> K)
    requires forall x, y :: x in members && y in members && key(x) == key(y) ==> x == y
    ensures |ImageOf(members, key)| == |members|
  {
    if members != {} {
      var x :| x in members;
      ImageSize(members - {x}, key);
      assert ImageOf(members, key) == ImageOf(members - {x}, key) + {key(x)};
    }
  }

  lemma ThreeParts<T>(whole: set<T>, a: set<T>, b: set<T>, c: set<T>)
    requires a !! b && a !! c && b !! c && forall x :: x in whole <==> x in a || x in b || x in c
    ensures |whole| == |a| + |b| + |c|
  {
    assert whole == a + b + c;
  }

  /** The order of a sorted table is determined by its rows when no two rows share a key. */
  lemma {:induction false} SortedIsUnique<T>(a: seq<T>, b: seq<T>, key: T -> seq<Part>)
    requires multiset(a) == multiset(b) && Sorted(a, key) && Sorted(b, key)
    requires forall x, y :: x in a && y in a && key(x) == key(y) ==> x == y
    ensures a == b
    decreases |a|
  {
    hide Sorted, KeyLe;
    assert |a| == |multiset(a)| == |multiset(b)| == |b|;
    if a != [] {
      SameFirst(a, b, key);
      assert a == [a[0]] + a[1..] && b == [b[0]] + b[1..];
      assert multiset(a[1..]) == multiset(a) - multiset{a[0]};
      assert multiset(b[1..]) == multiset(b) - multiset{b[0]};
      forall x, y | x in a[1..] && y in a[1..] && key(x) == key(y) ensures x == y {
        assert x in a && y in a;
      }
      RestIsSorted(a, key);
      RestIsSorted(b, key);
      SortedIsUnique(a[1..], b[1..], key);
    }
  }

  lemma RestIsSorted<T>(a: seq<T>, key: T -> seq<Part>)
    requires a != [] && Sorted(a, key)
    ensures Sorted(a[1..], key)
  {
  }

  lemma SameFirst<T>(a: seq<T>, b: seq<T>, key: T -> seq<Part>)
    requires a != [] && b != [] && multiset(a) == multiset(b) && Sorted(a, key) && Sorted(b, key)
    requires forall x, y :: x in a && y in a && key(x) == key(y) ==> x == y
    ensures a[0] == b[0]
  {
    hide KeyLe;
    assert a[0] in multiset(b) && b[0] in multiset(a);
    FirstIsLeast(a, key, b[0]);
    FirstIsLeast(b, key, a[0]);
    KeyLeAntisymmetric(key(a[0]), key(b[0]));
  }

  lemma FirstIsLeast<T>(a: seq<T>, key: T -> seq<Part>, x: T)
    requires Sorted(a, key) && x in a
    ensures KeyLe(key(a[0]), key(x))
  {
    hide KeyLe;
    KeyLeTotal(key(x), key(x));
  }

  /** Sorted tables of the same rows, each row once, are the same table. */
  lemma SameRowsSameTable<T>(a: seq<T>, b: seq<T>, key: T -> seq<Part>)
    requires Distinct(a) && Distinct(b) && Sorted(a, key) && Sorted(b, key)
    requires forall x :: x in a <==> x in b
    requires forall x, y :: x in a && y in a && key(x) == key(y) ==> x == y
    ensures a == b
  {
    DistinctIsOnce(a);
    DistinctIsOnce(b);
    forall x ensures multiset(a)[x] == multiset(b)[x] {
      assert x in a <==> x in multiset(a);
      assert x in b <==> x in multiset(b);
    }
    assert multiset(a) == multiset(b);
    SortedIsUnique(a, b, key);
  }
}
