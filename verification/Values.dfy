/**
  JSON-like values as the evaluator sees them, and the canonical form in which it compares them.

  A mapping is given by its items in key order. The canonical form of a mapping is a tuple of
  pairs (`CanonicalMapping` is a tuple subclass), so a mapping equals the list of its pairs, and
  the empty mapping equals the empty list. Python compares booleans as numbers, so they
  canonicalise to 0 and 1.
 */
module Values {

  datatype Option<+T> = None | Some(value: T)

  datatype Value =
    | Null
    | Bool(b: bool)
    | Num(n: real)
    | Str(s: string)
    | Seq(items: seq<Value>)
    | Map(entries: seq<Entry>)

  datatype Entry = Entry(key: string, value: Value)

  datatype Canon =
    | CNull
    | CNum(n: real)
    | CStr(s: string)
    | CTuple(parts: seq<Canon>)

  function Canonical(v: Value): Canon
  {
    match v
    case Null => CNull
    case Bool(b) => CNum(if b then 1.0 else 0.0)
    case Num(n) => CNum(n)
    case Str(s) => CStr(s)
    case Seq(items) => CTuple(seq(|items|, i requires 0 <= i < |items| => Canonical(items[i])))
    case Map(entries) =>
      CTuple(seq(|entries|, i requires 0 <= i < |entries| =>
        CTuple([CStr(entries[i].key), Canonical(entries[i].value)])))
  }

  /** `_is_number`: numbers that are not booleans. */
  predicate IsNumber(v: Value) {
    v.Num?
  }

  /** `_is_empty_collection`: an empty list or tuple; an empty mapping is not one. */
  predicate IsEmptyCollection(v: Value) {
    v.Seq? && v.items == []
  }

  /** `_collection_items`: the distinct canonical items of a collection, or nothing for a scalar. */
  function CollectionItems(v: Value): Option<set<Canon>>
  {
    var c := Canonical(v);
    if c.CTuple? then Some(set x | x in c.parts) else None
  }

  function LookupKey(entries: seq<Entry>, key: string): Option<Value>
  {
    if entries == [] then None
    else if entries[0].key == key then Some(entries[0].value)
    else LookupKey(entries[1..], key)
  }

  function LookupPair(items: seq<Value>, key: string): Option<Value>
  {
    if items == [] then None
    else if items[0].Seq? && |items[0].items| == 2 && items[0].items[0] == Str(key) then
      Some(items[0].items[1])
    else LookupPair(items[1..], key)
  }

  /** `_field`: read a key of a record, given as a mapping or as a list of pairs. */
  function FieldOf(record: Value, key: string): Value
  {
    match record
    case Map(entries) => (match LookupKey(entries, key) case Some(v) => v case None => Null)
    case Seq(items) => (match LookupPair(items, key) case Some(v) => v case None => Null)
    case _ => Null
  }

  function OptString(o: Option<string>): Value {
    match o
    case Some(s) => Str(s)
    case None => Null
  }

  function OptInt(o: Option<int>): Value {
    match o
    case Some(n) => Num(n as real)
    case None => Null
  }

  function OptReal(o: Option<real>): Value {
    match o
    case Some(n) => Num(n)
    case None => Null
  }

  function Strings(ss: seq<string>): Value {
    Seq(seq(|ss|, i requires 0 <= i < |ss| => Str(ss[i])))
  }

  function Filter<T>(s: seq<T>, keep: T -> bool): seq<T>
  {
    if s == [] then []
    else if keep(s[0]) then [s[0]] + Filter(s[1..], keep)
    else Filter(s[1..], keep)
  }

  lemma {:induction false} FilterMembers<T>(s: seq<T>, keep: T -> bool)
    ensures forall x :: x in Filter(s, keep) <==> x in s && keep(x)
  {
    if s != [] { FilterMembers(s[1..], keep); }
  }

  /** A test and its negation split a sequence. */
  lemma {:induction false} FilterSplits<T>(s: seq<T>, keep: T -> bool, drop: T -> bool)
    requires forall x | x in s :: keep(x) <==> !drop(x)
    ensures multiset(Filter(s, keep)) + multiset(Filter(s, drop)) == multiset(s)
  {
    if s != [] {
      FilterSplits(s[1..], keep, drop);
      assert multiset(s) == multiset{s[0]} + multiset(s[1..]) by { assert s == [s[0]] + s[1..]; }
    }
  }

  /** A weaker test keeps at least as many. */
  lemma {:induction false} FilterCount<T>(s: seq<T>, strong: T -> bool, weak: T -> bool)
    requires forall x | x in s :: strong(x) ==> weak(x)
    ensures |Filter(s, strong)| <= |Filter(s, weak)|
  {
    if s != [] { FilterCount(s[1..], strong, weak); }
  }

  function MapSeq<A, B>(f: A -> B, s: seq<A>): seq<B>
  {
    seq(|s|, i requires 0 <= i < |s| => f(s[i]))
  }
}
