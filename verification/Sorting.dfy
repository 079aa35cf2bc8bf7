/** The sort of `sorted(entries, key=...)`: it keeps the members and ascends by key. */
module Sorting {
  import opened Ordering
  import opened Deltas

  lemma {:induction false} InsertHolds<T>(x: T, s: seq<T>, key: T -> Key, y: T)
    ensures y in InsertByKey(x, s, key) <==> y == x || y in s
  {
    if s != [] && !KeyLe(key(s[|s| - 1]), key(x)) { InsertHolds(x, s[..|s| - 1], key, y); }
  }

  lemma {:induction false} SortHolds<T>(s: seq<T>, key: T -> Key, y: T)
    ensures y in SortByKey(s, key) <==> y in s
  {
    if s != [] {
      SortHolds(s[..|s| - 1], key, y);
      InsertHolds(s[|s| - 1], SortByKey(s[..|s| - 1], key), key, y);
    }
  }

  lemma {:induction false} InsertMultiset<T>(x: T, s: seq<T>, key: T -> Key)
    ensures multiset(InsertByKey(x, s, key)) == multiset(s) + multiset{x}
  {
    if s != [] && !KeyLe(key(s[|s| - 1]), key(x)) {
      var init, last := s[..|s| - 1], s[|s| - 1];
      InsertMultiset(x, init, key);
      assert multiset(s) == multiset(init) + multiset{last} by { assert s == init + [last]; }
    }
  }

  lemma SortAppend<T>(s: seq<T>, x: T, key: T -> Key)
    ensures SortByKey(s + [x], key) == InsertByKey(x, SortByKey(s, key), key)
  {
    assert (s + [x])[..|s|] == s;
  }

  /** Sorting rearranges. */
  lemma {:induction false} SortMultiset<T>(s: seq<T>, key: T -> Key)
    ensures multiset(SortByKey(s, key)) == multiset(s)
  {
    if s == [] {
      assert SortByKey(s, key) == s;
    } else {
      var init, last := s[..|s| - 1], s[|s| - 1];
      assert s == init + [last];
      SortMultiset(init, key);
      calc {
        multiset(SortByKey(s, key));
        { SortAppend(init, last, key); }
        multiset(InsertByKey(last, SortByKey(init, key), key));
        { InsertMultiset(last, SortByKey(init, key), key); }
        multiset(init) + multiset{last};
        multiset(s);
      }
    }
  }

  ghost predicate Ascends<T>(s: seq<T>, key: T -> Key) {
    forall i, j | 0 <= i < j < |s| :: KeyLe(key(s[i]), key(s[j]))
  }

  lemma LastIsGreatest<T>(s: seq<T>, key: T -> Key, i: nat)
    requires Ascends(s, key) && i < |s|
    ensures KeyLe(key(s[i]), key(s[|s| - 1]))
  {
    KeyTotal(key(s[i]), key(s[i]));
  }

  lemma {:induction false} InsertAscends<T>(x: T, s: seq<T>, key: T -> Key)
    requires Ascends(s, key)
    ensures Ascends(InsertByKey(x, s, key), key)
  {
    if s != [] {
      var init, last := s[..|s| - 1], s[|s| - 1];
      KeyTotal(key(last), key(x));
      if KeyLe(key(last), key(x)) {
        forall i | 0 <= i < |s| ensures KeyLe(key(s[i]), key(x)) {
          LastIsGreatest(s, key, i);
          KeyTransitive(key(s[i]), key(last), key(x));
        }
      } else {
        InsertAscends(x, init, key);
        var t := InsertByKey(x, init, key);
        forall i | 0 <= i < |t| ensures KeyLe(key(t[i]), key(last)) {
          InsertHolds(x, init, key, t[i]);
          if t[i] != x {
            var j :| 0 <= j < |init| && init[j] == t[i];
            assert s[j] == t[i];
          }
        }
      }
    }
  }

  /** Sorting ascends. */
  lemma {:induction false} SortAscends<T>(s: seq<T>, key: T -> Key)
    ensures Ascends(SortByKey(s, key), key)
  {
    if s != [] {
      SortAscends(s[..|s| - 1], key);
      InsertAscends(s[|s| - 1], SortByKey(s[..|s| - 1], key), key);
    }
  }

  // ---- a sorted sequence is determined by its members ----

  lemma MemberOf<T>(x: T, s: seq<T>, t: seq<T>)
    requires multiset(s) == multiset(t) && x in s
    ensures x in t
  {
    assert x in multiset(s);
  }

  /** The key tells the members of a sequence apart. */
  ghost predicate TellsApart<T>(s: seq<T>, key: T -> Key) {
    forall x, y | x in s && y in s && key(x) == key(y) :: x == y
  }

  lemma SameGreatest<T>(s: seq<T>, t: seq<T>, key: T -> Key)
    requires Ascends(s, key) && Ascends(t, key) && TellsApart(s, key)
    requires multiset(s) == multiset(t) && s != [] && t != []
    ensures s[|s| - 1] == t[|t| - 1]
  {
    var a, b := s[|s| - 1], t[|t| - 1];
    MemberOf(a, s, t);
    MemberOf(b, t, s);
    var i :| 0 <= i < |t| && t[i] == a;
    var j :| 0 <= j < |s| && s[j] == b;
    LastIsGreatest(t, key, i);
    LastIsGreatest(s, key, j);
    KeyTotal(key(a), key(b));
  }

  lemma DropLast<T>(s: seq<T>)
    requires s != []
    ensures multiset(s[..|s| - 1]) == multiset(s) - multiset{s[|s| - 1]}
  {
    assert s == s[..|s| - 1] + [s[|s| - 1]];
  }

  lemma SameInit<T>(s: seq<T>, t: seq<T>)
    requires s != [] && t != [] && multiset(s) == multiset(t) && s[|s| - 1] == t[|t| - 1]
    ensures multiset(s[..|s| - 1]) == multiset(t[..|t| - 1])
  {
    DropLast(s);
    DropLast(t);
  }

  lemma InitKeeps<T>(s: seq<T>, key: T -> Key)
    requires s != [] && Ascends(s, key)
    ensures Ascends(s[..|s| - 1], key)
    ensures TellsApart(s, key) ==> TellsApart(s[..|s| - 1], key)
  {
    var init := s[..|s| - 1];
    assert forall x | x in init :: x in s;
  }

  /** Ascending sequences with the same members are equal when the key tells them apart. */
  lemma {:induction false} AscendingUnique<T>(s: seq<T>, t: seq<T>, key: T -> Key)
    requires Ascends(s, key) && Ascends(t, key) && TellsApart(s, key) && multiset(s) == multiset(t)
    ensures s == t
  {
    assert |multiset(s)| == |s| && |multiset(t)| == |t|;
    if s != [] {
      var a, b := s[..|s| - 1], t[..|t| - 1];
      SameGreatest(s, t, key);
      SameInit(s, t);
      InitKeeps(s, key);
      InitKeeps(t, key);
      AscendingUnique(a, b, key);
      assert s == a + [s[|s| - 1]] && t == b + [t[|t| - 1]];
    }
  }
}
