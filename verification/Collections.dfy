/** Queries over the store: selecting the records of a map that satisfy a
    condition (`Model.find(filter)`), and the stable sort both the database
    (`.sort`) and the browser (`Array.prototype.sort`) apply. */
module Collections {

  /** The keys of `m` whose records satisfy `keep`. */
  ghost function Matching<V>(m: map<nat, V>, keep: V -> bool): set<nat>
  {
    set k | k in m && keep(m[k])
  }

  /** Every record of `m` satisfying `keep`, each exactly once, paired with its key. */
  method Select<V(==)>(m: map<nat, V>, keep: V -> bool) returns (r: seq<(nat, V)>)
    ensures forall e :: e in r <==> e.0 in m && m[e.0] == e.1 && keep(e.1)
    ensures |r| == |Matching(m, keep)|
  {
    r := [];
    var rest := m.Keys;
    ghost var done: set<nat> := {};
    ghost var kept: set<nat> := {};
    while rest != {}
      invariant rest <= m.Keys && done == m.Keys - rest
      invariant forall e :: e in r <==> e.0 in done && m[e.0] == e.1 && keep(e.1)
      invariant forall j :: j in kept <==> j in done && keep(m[j])
      invariant |r| == |kept|
      decreases rest
    {
      var k :| k in rest;
      if keep(m[k]) {
        r := r + [(k, m[k])];
        kept := kept + {k};
      }
      rest := rest - {k};
      done := done + {k};
    }
    assert kept == Matching(m, keep);
  }

  predicate SortedBy<T>(s: seq<T>, key: T -> int)
  {
    forall i, j :: 0 <= i < j < |s| ==> key(s[i]) <= key(s[j])
  }

  /** Places `x` after every element whose key does not exceed its own. */
  function InsertBy<T>(s: seq<T>, x: T, key: T -> int): (r: seq<T>)
    ensures multiset(r) == multiset(s) + multiset{x}
  {
    if s == [] then [x]
    else if key(x) < key(s[0]) then [x] + s
    else
      assert s == [s[0]] + s[1..];
      [s[0]] + InsertBy(s[1..], x, key)
  }

  lemma SortedCons<T>(h: T, t: seq<T>, key: T -> int)
    requires SortedBy(t, key)
    requires forall i :: 0 <= i < |t| ==> key(h) <= key(t[i])
    ensures SortedBy([h] + t, key)
  {
    var r := [h] + t;
    forall i, j | 0 <= i < j < |r| ensures key(r[i]) <= key(r[j]) {
      assert r[j] == t[j - 1];
      if i > 0 {
        assert r[i] == t[i - 1];
      }
    }
  }

  /** Every element of the insertion result is `x` or came from `s`. */
  lemma {:induction false} InsertByLowerBound<T>(s: seq<T>, x: T, key: T -> int, b: int)
    requires b <= key(x)
    requires forall i :: 0 <= i < |s| ==> b <= key(s[i])
    ensures forall i :: 0 <= i < |InsertBy(s, x, key)| ==> b <= key(InsertBy(s, x, key)[i])
  {
    if s != [] && key(x) >= key(s[0]) {
      InsertByLowerBound(s[1..], x, key, b);
      var r := InsertBy(s, x, key);
      assert r == [s[0]] + InsertBy(s[1..], x, key);
      forall i | 0 <= i < |r| ensures b <= key(r[i]) {
        if i > 0 {
          assert r[i] == InsertBy(s[1..], x, key)[i - 1];
        }
      }
    }
  }

  lemma {:induction false} InsertBySorted<T>(s: seq<T>, x: T, key: T -> int)
    requires SortedBy(s, key)
    ensures SortedBy(InsertBy(s, x, key), key)
  {
    if s == [] {
    } else if key(x) < key(s[0]) {
      SortedCons(x, s, key);
    } else {
      InsertBySorted(s[1..], x, key);
      InsertByLowerBound(s[1..], x, key, key(s[0]));
      SortedCons(s[0], InsertBy(s[1..], x, key), key);
    }
  }

  /** Stable insertion sort, ascending by `key`. */
  function SortBy<T>(s: seq<T>, key: T -> int): (r: seq<T>)
    ensures multiset(r) == multiset(s)
    ensures SortedBy(r, key)
  {
    if s == [] then []
    else
      assert s == s[..|s| - 1] + [s[|s| - 1]];
      InsertBySorted(SortBy(s[..|s| - 1], key), s[|s| - 1], key);
      InsertBy(SortBy(s[..|s| - 1], key), s[|s| - 1], key)
  }

  /** A comparator that calls every pair equal leaves the order as it was. */
  lemma {:induction false} SortByEqualKeysIsIdentity<T>(s: seq<T>, key: T -> int)
    requires forall i :: 0 <= i < |s| ==> key(s[i]) == key(s[0])
    ensures SortBy(s, key) == s
  {
    if s != [] {
      var init, last := s[..|s| - 1], s[|s| - 1];
      SplitLast(s);
      assert forall i :: 0 <= i < |init| ==> init[i] == s[i];
      SortByEqualKeysIsIdentity(init, key);
      assert SortBy(s, key) == InsertBy(SortBy(init, key), last, key);
      InsertAtEnd(init, last, key);
    }
  }

  lemma SplitLast<T>(s: seq<T>)
    requires s != []
    ensures s == s[..|s| - 1] + [s[|s| - 1]]
  {
  }

  lemma {:induction false} InsertAtEnd<T>(s: seq<T>, x: T, key: T -> int)
    requires forall i :: 0 <= i < |s| ==> key(s[i]) <= key(x)
    ensures InsertBy(s, x, key) == s + [x]
  {
    if s != [] {
      InsertAtEnd(s[1..], x, key);
      assert s == [s[0]] + s[1..];
    }
  }
}
