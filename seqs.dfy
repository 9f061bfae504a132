/**
 * Sequence operations behind the repositories: a WHERE clause is `Filter`,
 * COUNT is `CountWhere`, ORDER BY ... DESC is `SortDesc`, and a table row is
 * found, replaced or removed by its primary key.
 */
module Seqs {
  import opened Wrappers

  /** The elements of `s` satisfying `p`, in table order. */
  function Filter<T(!new)>(s: seq<T>, p: T -> bool): (r: seq<T>)
    ensures |r| <= |s|
    ensures forall x :: x in r <==> x in s && p(x)
    ensures multiset(r) <= multiset(s)
  {
    if s == [] then []
    else
      assert s == [s[0]] + s[1..];
      if p(s[0]) then [s[0]] + Filter(s[1..], p)
    else Filter(s[1..], p)
  }

  /** Filtering distributes over concatenation (appending a row). */
  lemma {:induction false} FilterAppend<T(!new)>(s: seq<T>, t: seq<T>, p: T -> bool)
    ensures Filter(s + t, p) == Filter(s, p) + Filter(t, p)
  {
    if s == [] {
      assert s + t == t;
    } else {
      assert (s + t)[1..] == s[1..] + t;
      FilterAppend(s[1..], t, p);
    }
  }

  /** Two conditions that agree on every row select the same rows. */
  lemma {:induction false} FilterCongruent<T(!new)>(s: seq<T>, p: T -> bool, q: T -> bool)
    requires forall x :: x in s ==> p(x) == q(x)
    ensures Filter(s, p) == Filter(s, q)
  {
    if s != [] {
      FilterCongruent(s[1..], p, q);
    }
  }

  /** Filtering a filtered result is filtering by the conjunction. */
  lemma {:induction false} FilterFilter<T(!new)>(s: seq<T>, p: T -> bool, q: T -> bool)
    ensures Filter(Filter(s, p), q) == Filter(s, x => p(x) && q(x))
  {
    if s != [] {
      FilterFilter(s[1..], p, q);
    }
  }

  /** No row satisfies the condition exactly when the filter is empty. */
  lemma FilterEmpty<T(!new)>(s: seq<T>, p: T -> bool)
    ensures Filter(s, p) == [] <==> forall x :: x in s ==> !p(x)
  {
    if Filter(s, p) != [] {
      assert Filter(s, p)[0] in Filter(s, p);
    }
  }

  /** SELECT COUNT(...) WHERE p, counted row by row. */
  function CountWhere<T(!new)>(s: seq<T>, p: T -> bool): (n: nat)
    ensures n <= |s|
  {
    if s == [] then 0 else (if p(s[0]) then 1 else 0) + CountWhere(s[1..], p)
  }

  /** The count equals the size of the list the same condition selects. */
  lemma {:induction false} CountIsFilterSize<T(!new)>(s: seq<T>, p: T -> bool)
    ensures CountWhere(s, p) == |Filter(s, p)|
  {
    if s != [] {
      CountIsFilterSize(s[1..], p);
    }
  }

  /** Appending a row raises the count by one exactly when the row satisfies the condition. */
  lemma CountAppend<T(!new)>(s: seq<T>, x: T, p: T -> bool)
    ensures CountWhere(s + [x], p) == CountWhere(s, p) + (if p(x) then 1 else 0)
  {
    CountIsFilterSize(s + [x], p);
    CountIsFilterSize(s, p);
    FilterAppend(s, [x], p);
    assert [x][1..] == [];
  }

  /** The first row satisfying `p`, like an Optional-returning finder. */
  function FindFirst<T(!new)>(s: seq<T>, p: T -> bool): (r: Option<T>)
    ensures r.Some? ==> r.value in s && p(r.value)
    ensures r.None? <==> forall x :: x in s ==> !p(x)
  {
    if s == [] then None
    else if p(s[0]) then Some(s[0])
    else FindFirst(s[1..], p)
  }

  /** Primary keys are pairwise distinct. */
  ghost predicate UniqueKeys<T(!new)>(s: seq<T>, key: T -> int) {
    forall i, j :: 0 <= i < j < |s| ==> key(s[i]) != key(s[j])
  }

  ghost predicate HasKey<T(!new)>(s: seq<T>, key: T -> int, id: int) {
    exists x :: x in s && key(x) == id
  }

  /** findById. */
  function FindByKey<T(!new)>(s: seq<T>, key: T -> int, id: int): (r: Option<T>)
    ensures r.Some? <==> HasKey(s, key, id)
    ensures r.Some? ==> r.value in s && key(r.value) == id
  {
    FindFirst(s, x => key(x) == id)
  }

  /** With unique keys, the row with a given key is the one found. */
  lemma FindByKeyUnique<T(!new)>(s: seq<T>, key: T -> int, x: T)
    requires UniqueKeys(s, key) && x in s
    ensures FindByKey(s, key, key(x)) == Some(x)
  {
    var r := FindByKey(s, key, key(x));
    var i :| 0 <= i < |s| && s[i] == r.value;
    var j :| 0 <= j < |s| && s[j] == x;
    assert i == j;
  }

  /** save() of an entity whose key is already stored: the row is overwritten in place. */
  function ReplaceByKey<T(!new)>(s: seq<T>, key: T -> int, x: T): (r: seq<T>)
    ensures |r| == |s|
    ensures forall i :: 0 <= i < |s| ==> r[i] == if key(s[i]) == key(x) then x else s[i]
  {
    seq(|s|, i requires 0 <= i < |s| => if key(s[i]) == key(x) then x else s[i])
  }

  lemma ReplaceKeepsKeys<T(!new)>(s: seq<T>, key: T -> int, x: T)
    requires UniqueKeys(s, key)
    ensures UniqueKeys(ReplaceByKey(s, key, x), key)
    ensures forall id :: HasKey(ReplaceByKey(s, key, x), key, id) ==> HasKey(s, key, id)
  {
    var r := ReplaceByKey(s, key, x);
    forall id | HasKey(r, key, id) ensures HasKey(s, key, id) {
      var y :| y in r && key(y) == id;
      var i :| 0 <= i < |r| && r[i] == y;
      assert key(s[i]) == id;
    }
  }

  /** Overwriting a row keeps every key that was stored. */
  lemma ReplaceKeepsEveryKey<T(!new)>(s: seq<T>, key: T -> int, x: T)
    ensures forall id :: HasKey(s, key, id) ==> HasKey(ReplaceByKey(s, key, x), key, id)
  {
    var r := ReplaceByKey(s, key, x);
    forall id | HasKey(s, key, id) ensures HasKey(r, key, id) {
      var y :| y in s && key(y) == id;
      var i :| 0 <= i < |s| && s[i] == y;
      assert r[i] in r && key(r[i]) == id;
    }
  }

  /** Saving two versions of one row leaves the later one. */
  lemma ReplaceTwice<T(!new)>(s: seq<T>, key: T -> int, x: T, y: T)
    requires key(x) == key(y)
    ensures ReplaceByKey(ReplaceByKey(s, key, x), key, y) == ReplaceByKey(s, key, y)
  {
  }

  /** Every row of a replaced table is the new row or a row that was there before. */
  lemma ReplaceMembers<T(!new)>(s: seq<T>, key: T -> int, x: T)
    ensures forall y :: y in ReplaceByKey(s, key, x) ==> y == x || y in s
    ensures forall y :: y in ReplaceByKey(s, key, x) && key(y) == key(x) ==> y == x
  {
    var r := ReplaceByKey(s, key, x);
    forall y | y in r ensures y == x || y in s {
      var i :| 0 <= i < |r| && r[i] == y;
    }
    forall y | y in r && key(y) == key(x) ensures y == x {
      var i :| 0 <= i < |r| && r[i] == y;
    }
  }

  /** A replaced row is found under its key; every other key finds what it found before. */
  lemma ReplaceFind<T(!new)>(s: seq<T>, key: T -> int, x: T, id: int)
    requires UniqueKeys(s, key) && HasKey(s, key, key(x))
    ensures FindByKey(ReplaceByKey(s, key, x), key, id) ==
            if id == key(x) then Some(x) else FindByKey(s, key, id)
  {
    var r := ReplaceByKey(s, key, x);
    ReplaceKeepsKeys(s, key, x);
    var w :| w in s && key(w) == key(x);
    var k :| 0 <= k < |s| && s[k] == w;
    assert r[k] == x;
    if id == key(x) {
      FindByKeyUnique(r, key, x);
    } else if HasKey(s, key, id) {
      var y := FindByKey(s, key, id).value;
      var j :| 0 <= j < |s| && s[j] == y;
      assert r[j] == y;
      FindByKeyUnique(s, key, y);
      FindByKeyUnique(r, key, y);
    } else {
      assert !HasKey(r, key, id);
    }
  }

  /** delete()/deleteById(): every row with that key goes, every other row stays, in order. */
  function RemoveByKey<T(!new)>(s: seq<T>, key: T -> int, id: int): (r: seq<T>)
    ensures forall x :: x in r <==> x in s && key(x) != id
    ensures !HasKey(r, key, id)
  {
    Filter(s, x => key(x) != id)
  }

  lemma {:induction false} FilterKeepsUniqueKeys<T(!new)>(s: seq<T>, key: T -> int, p: T -> bool)
    requires UniqueKeys(s, key)
    ensures UniqueKeys(Filter(s, p), key)
  {
    if s != [] {
      FilterKeepsUniqueKeys(s[1..], key, p);
      var t := Filter(s[1..], p);
      if p(s[0]) {
        forall y | y in t ensures key(y) != key(s[0]) {
          var j :| 0 <= j < |s[1..]| && s[1..][j] == y;
          assert s[j + 1] == y;
        }
        var r := [s[0]] + t;
        forall i, j | 0 <= i < j < |r| ensures key(r[i]) != key(r[j]) {
          if i == 0 {
            assert r[j] in t;
          } else {
            assert r[i] == t[i - 1] && r[j] == t[j - 1];
          }
        }
      }
    }
  }

  /** Deleting rows keeps the remaining keys unique. */
  lemma RemoveKeepsKeys<T(!new)>(s: seq<T>, key: T -> int, id: int)
    requires UniqueKeys(s, key)
    ensures UniqueKeys(RemoveByKey(s, key, id), key)
  {
    FilterKeepsUniqueKeys(s, key, x => key(x) != id);
  }

  /** After a delete the key finds nothing and every other key finds what it found before. */
  lemma RemoveFind<T(!new)>(s: seq<T>, key: T -> int, id: int, other: int)
    requires UniqueKeys(s, key)
    ensures FindByKey(RemoveByKey(s, key, id), key, other) == if other == id then None else FindByKey(s, key, other)
  {
    var after := RemoveByKey(s, key, id);
    RemoveKeepsKeys(s, key, id);
    if other != id && HasKey(s, key, other) {
      var x := FindByKey(s, key, other).value;
      FindByKeyUnique(s, key, x);
      FindByKeyUnique(after, key, x);
    }
  }

  /** An identity column's next value: larger than every stored key. */
  function NextKey<T(!new)>(s: seq<T>, key: T -> int): (n: int)
    ensures forall x :: x in s ==> key(x) < n
    ensures n >= 1
  {
    if s == [] then 1
    else
      var rest := NextKey(s[1..], key);
      if key(s[0]) < rest then rest else key(s[0]) + 1
  }

  /** Inserting a row with a fresh key keeps keys unique. */
  lemma AppendFreshKeepsKeys<T(!new)>(s: seq<T>, key: T -> int, x: T)
    requires UniqueKeys(s, key) && !HasKey(s, key, key(x))
    ensures UniqueKeys(s + [x], key)
  {
    var r := s + [x];
    forall i, j | 0 <= i < j < |r| ensures key(r[i]) != key(r[j]) {
      if j == |s| {
        assert r[i] in s;
      } else {
        assert r[i] == s[i] && r[j] == s[j];
      }
    }
  }

  /** Inserting a row keeps every key that was stored. */
  lemma AppendKeepsEveryKey<T(!new)>(s: seq<T>, key: T -> int, x: T)
    ensures forall id :: HasKey(s, key, id) ==> HasKey(s + [x], key, id)
  {
    forall id | HasKey(s, key, id) ensures HasKey(s + [x], key, id) {
      var y :| y in s && key(y) == id;
      assert y in s + [x];
    }
  }

  /** ORDER BY key DESC. */
  ghost predicate SortedDesc<T(!new)>(s: seq<T>, key: T -> int) {
    forall i, j :: 0 <= i < j < |s| ==> key(s[i]) >= key(s[j])
  }

  /** A row no smaller than the head of a descending list can go in front of it. */
  lemma ConsSortedDesc<T(!new)>(h: T, t: seq<T>, key: T -> int)
    requires SortedDesc(t, key) && (t != [] ==> key(h) >= key(t[0]))
    ensures SortedDesc([h] + t, key)
  {
    var r := [h] + t;
    forall i, j | 0 <= i < j < |r| ensures key(r[i]) >= key(r[j]) {
      if i == 0 && j > 1 {
        assert key(t[0]) >= key(t[j - 1]);
      } else if i > 0 {
        assert r[i] == t[i - 1] && r[j] == t[j - 1];
      }
    }
  }

  /** `x` placed in front of the first row whose key is not greater than its own. */
  function InsertDesc<T(!new)>(x: T, s: seq<T>, key: T -> int): (r: seq<T>)
    ensures |r| == |s| + 1
  {
    if s == [] then [x]
    else if key(x) >= key(s[0]) then [x] + s
    else [s[0]] + InsertDesc(x, s[1..], key)
  }

  /** Inserting into a descending list keeps it descending and adds exactly `x`. */
  lemma {:induction false} InsertDescSorted<T(!new)>(x: T, s: seq<T>, key: T -> int)
    requires SortedDesc(s, key)
    ensures multiset(InsertDesc(x, s, key)) == multiset(s) + multiset{x}
    ensures key(InsertDesc(x, s, key)[0]) == key(x) || (s != [] && key(InsertDesc(x, s, key)[0]) == key(s[0]))
    ensures SortedDesc(InsertDesc(x, s, key), key)
  {
    if s == [] {
    } else if key(x) >= key(s[0]) {
      ConsSortedDesc(x, s, key);
    } else {
      var rest := s[1..];
      assert SortedDesc(rest, key);
      InsertDescSorted(x, rest, key);
      var t := InsertDesc(x, rest, key);
      assert s == [s[0]] + rest;
      assert multiset(s) == multiset{s[0]} + multiset(rest);
      assert multiset([s[0]] + t) == multiset{s[0]} + multiset(t);
      ConsSortedDesc(s[0], t, key);
    }
  }

  /** A descending ordering of exactly the rows of `s`. */
  function SortDesc<T(!new)>(s: seq<T>, key: T -> int): (r: seq<T>)
    ensures multiset(r) == multiset(s)
    ensures |r| == |s|
    ensures SortedDesc(r, key)
  {
    if s == [] then []
    else
      assert s == [s[0]] + s[1..];
      InsertDescSorted(s[0], SortDesc(s[1..], key), key);
      InsertDesc(s[0], SortDesc(s[1..], key), key)
  }
}
