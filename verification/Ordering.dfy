/**
  Python's `sorted` over sets of strings and string tuples: the code-point order, lifted to
  tuples, and the ascending enumeration of a finite set.
 */
module Ordering {

  type Key = seq<string>

  predicate StrLe(a: string, b: string)
  {
    a == [] || (b != [] && (a[0] < b[0] || (a[0] == b[0] && StrLe(a[1..], b[1..]))))
  }

  predicate KeyLe(a: Key, b: Key)
  {
    a == [] || (b != [] && (if a[0] == b[0] then KeyLe(a[1..], b[1..]) else StrLe(a[0], b[0])))
  }

  lemma {:induction false} StrTotal(a: string, b: string)
    ensures StrLe(a, b) || StrLe(b, a)
    ensures StrLe(a, b) && StrLe(b, a) ==> a == b
  {
    if a != [] && b != [] && a[0] == b[0] {
      StrTotal(a[1..], b[1..]);
      assert a == [a[0]] + a[1..] && b == [b[0]] + b[1..];
    }
  }

  lemma {:induction false} StrTransitive(a: string, b: string, c: string)
    requires StrLe(a, b) && StrLe(b, c)
    ensures StrLe(a, c)
  {
    if a != [] && a[0] == b[0] == c[0] {
      StrTransitive(a[1..], b[1..], c[1..]);
    }
  }

  lemma {:induction false} KeyTotal(a: Key, b: Key)
    ensures KeyLe(a, b) || KeyLe(b, a)
    ensures KeyLe(a, b) && KeyLe(b, a) ==> a == b
  {
    if a != [] && b != [] {
      StrTotal(a[0], b[0]);
      if a[0] == b[0] {
        KeyTotal(a[1..], b[1..]);
        assert a == [a[0]] + a[1..] && b == [b[0]] + b[1..];
      }
    }
  }

  lemma {:induction false} KeyTransitive(a: Key, b: Key, c: Key)
    requires KeyLe(a, b) && KeyLe(b, c)
    ensures KeyLe(a, c)
  {
    if a != [] {
      if a[0] == b[0] == c[0] {
        KeyTransitive(a[1..], b[1..], c[1..]);
      } else {
        StrTotal(a[0], a[0]);
        StrTotal(b[0], b[0]);
        StrTransitive(a[0], b[0], c[0]);
        StrTotal(a[0], b[0]);
      }
    }
  }

  predicate IsLeast(m: Key, s: set<Key>) {
    m in s && forall y | y in s :: KeyLe(m, y)
  }

  lemma {:induction false} LeastExists(s: set<Key>)
    requires s != {}
    ensures exists m :: IsLeast(m, s)
  {
    var x :| x in s;
    KeyTotal(x, x);
    if s == {x} {
      assert IsLeast(x, s);
    } else {
      LeastExists(s - {x});
      var m :| IsLeast(m, s - {x});
      KeyTotal(m, x);
      if KeyLe(m, x) {
        assert IsLeast(m, s);
      } else {
        forall y | y in s ensures KeyLe(x, y) {
          if y != x { KeyTransitive(x, m, y); }
        }
        assert IsLeast(x, s);
      }
    }
  }

  lemma LeastUnique(s: set<Key>)
    ensures forall m, n | IsLeast(m, s) && IsLeast(n, s) :: m == n
  {
    forall m, n | IsLeast(m, s) && IsLeast(n, s) ensures m == n {
      KeyTotal(m, n);
    }
  }

  function Least(s: set<Key>): (m: Key)
    requires s != {}
    ensures IsLeast(m, s)
  {
    LeastExists(s);
    LeastUnique(s);
    var m :| m in s && IsLeast(m, s);
    m
  }

  /** `sorted(s)` for a set of keys. */
  function SortedSet(s: set<Key>): (r: seq<Key>)
    ensures |r| == |s|
    ensures forall k :: k in r <==> k in s
    decreases |s|
  {
    if s == {} then []
    else
      var m := Least(s);
      [m] + SortedSet(s - {m})
  }

  predicate Distinct(r: seq<Key>) {
    forall i, j | 0 <= i < j < |r| :: r[i] != r[j]
  }

  predicate Ascending(r: seq<Key>) {
    forall i, j | 0 <= i < j < |r| :: KeyLe(r[i], r[j])
  }

  lemma {:induction false} SortedSetAscends(s: set<Key>)
    ensures Distinct(SortedSet(s)) && Ascending(SortedSet(s))
    decreases |s|
  {
    if s != {} {
      SortedSetAscends(s - {Least(s)});
    }
  }

  /** An ascending enumeration without repeats is the sorted one. */
  lemma {:induction false} AscendingIsSorted(r: seq<Key>, s: set<Key>)
    requires Distinct(r) && Ascending(r) && forall k :: k in r <==> k in s
    ensures SortedSet(s) == r
  {
    if r == [] {
      assert s == {};
    } else {
      KeyTotal(r[0], r[0]);
      assert r[0] in s;
      forall y | y in s ensures KeyLe(r[0], y) {
        var i :| 0 <= i < |r| && r[i] == y;
      }
      LeastUnique(s);
      assert IsLeast(r[0], s) && IsLeast(Least(s), s);
      assert r == [r[0]] + r[1..];
      AscendingIsSorted(r[1..], s - {r[0]});
    }
  }

  // ---- sets of strings ----

  function Singletons(s: set<string>): set<Key> {
    set x | x in s :: [x]
  }

  lemma SingletonMember(s: set<string>, x: string)
    ensures [x] in Singletons(s) <==> x in s
  {
    if [x] in Singletons(s) {
      var y :| y in s && [y] == [x];
      assert [y][0] == [x][0];
    }
  }

  lemma {:induction false} SingletonsSize(s: set<string>)
    ensures |Singletons(s)| == |s|
  {
    if s != {} {
      var x :| x in s;
      SingletonsSize(s - {x});
      SingletonMember(s - {x}, x);
      assert Singletons(s) == Singletons(s - {x}) + {[x]};
    }
  }

  function Heads(ks: seq<Key>): (r: seq<string>)
    requires forall k | k in ks :: |k| == 1
    ensures |r| == |ks| && forall i | 0 <= i < |ks| :: ks[i] == [r[i]]
  {
    if ks == [] then [] else [ks[0][0]] + Heads(ks[1..])
  }

  /** `sorted(s)` for a set of strings. */
  function SortedNames(s: set<string>): (r: seq<string>)
    ensures |r| == |s|
    ensures forall x :: x in r <==> x in s
  {
    SingletonsSize(s);
    var ks := SortedSet(Singletons(s));
    assert forall x :: [x] in Singletons(s) <==> x in s by {
      forall x ensures [x] in Singletons(s) <==> x in s { SingletonMember(s, x); }
    }
    var r := Heads(ks);
    assert forall x | x in s :: x in r by {
      forall x | x in s ensures x in r {
        assert [x] in ks;
        var i :| 0 <= i < |ks| && ks[i] == [x];
        assert [r[i]][0] == [x][0];
      }
    }
    r
  }

  predicate NamesAscend(r: seq<string>) {
    forall i, j | 0 <= i < j < |r| :: r[i] != r[j] && KeyLe([r[i]], [r[j]])
  }

  lemma SortedNamesAscend(s: set<string>)
    ensures NamesAscend(SortedNames(s))
  {
    SortedSetAscends(Singletons(s));
  }

  /** A strictly ascending enumeration of names is the sorted one. */
  lemma AscendingNamesSorted(r: seq<string>, s: set<string>)
    requires NamesAscend(r) && forall x :: x in r <==> x in s
    ensures SortedNames(s) == r
  {
    var ks := seq(|r|, i requires 0 <= i < |r| => [r[i]]);
    forall i, j | 0 <= i < j < |ks| ensures ks[i] != ks[j] && KeyLe(ks[i], ks[j]) {
      assert [r[i]][0] != [r[j]][0];
    }
    forall k ensures k in ks <==> k in Singletons(s) {
      if k in Singletons(s) {
        var x :| x in s && k == [x];
        var i :| 0 <= i < |r| && r[i] == x;
        assert ks[i] == k;
      }
    }
    AscendingIsSorted(ks, Singletons(s));
    forall i | 0 <= i < |r| ensures SortedNames(s)[i] == r[i] {
      assert ks[i] == [SortedNames(s)[i]];
      assert [SortedNames(s)[i]][0] == [r[i]][0];
    }
  }
}
