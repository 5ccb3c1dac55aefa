/**
 * The array methods the collection operations are built from: `findIndex`
 * and `find` by primary key, `filter`, and the two readings of the removal
 * predicate in removeItem.
 */
module Lists {
  import opened Wrappers
  import opened Values

  /** Index i holds the first element whose field `name` equals target. */
  predicate FirstMatchAt(items: seq<Value>, name: string, target: Value, i: int)
  {
    && 0 <= i < |items|
    && Field(items[i], name) == target
    && forall j :: 0 <= j < i ==> Field(items[j], name) != target
  }

  /** `items.findIndex(i => i[name] === target)`, with None for -1. */
  function FirstIndex(items: seq<Value>, name: string, target: Value): (r: Option<nat>)
    ensures r.Some? ==> FirstMatchAt(items, name, target, r.value)
    ensures r.None? <==> forall j :: 0 <= j < |items| ==> Field(items[j], name) != target
  {
    if items == [] then None
    else if Field(items[0], name) == target then Some(0)
    else
      match FirstIndex(items[1..], name, target)
      case None => None
      case Some(i) => Some(i + 1)
  }

  /** No two elements share a value of the primary-key field. */
  predicate UniqueKeys(items: seq<Value>, name: string)
  {
    forall i, j :: 0 <= i < j < |items| ==> Field(items[i], name) != Field(items[j], name)
  }

  /** a is obtained from b by deleting elements, keeping the order of the rest. */
  ghost predicate IsSubsequence<T>(a: seq<T>, b: seq<T>)
    decreases |b|
  {
    a == [] || (b != [] && ((a[0] == b[0] && IsSubsequence(a[1..], b[1..])) || IsSubsequence(a, b[1..])))
  }

  /** `s.filter(p)`: the elements satisfying p, in their original order. */
  function Filter<T(!new)>(s: seq<T>, p: T -> bool): (r: seq<T>)
    ensures |r| <= |s|
    ensures forall x :: x in r <==> x in s && p(x)
    ensures IsSubsequence(r, s)
  {
    if s == [] then []
    else
      var rest := Filter(s[1..], p);
      assert forall x :: x in s <==> x == s[0] || x in s[1..];
      if p(s[0]) then
        assert ([s[0]] + rest)[1..] == rest;
        [s[0]] + rest
      else rest
  }

  /** filter keeps every element satisfying p as often as it occurs in s, and drops the others. */
  lemma {:induction false} FilterCounts<T(!new)>(s: seq<T>, p: T -> bool)
    ensures forall x :: multiset(Filter(s, p))[x] == if p(x) then multiset(s)[x] else 0
  {
    if s != [] {
      FilterCounts(s[1..], p);
      assert s == [s[0]] + s[1..];
    }
  }

  /** Filtering with a predicate that holds of every element keeps everything. */
  lemma {:induction false} FilterKeepsAll<T(!new)>(s: seq<T>, p: T -> bool)
    requires forall x :: x in s ==> p(x)
    ensures Filter(s, p) == s
  {
    if s != [] {
      assert s[0] in s;
      assert forall x :: x in s[1..] ==> x in s;
      FilterKeepsAll(s[1..], p);
      assert [s[0]] + s[1..] == s;
    }
  }

  /** Predicates that agree on the elements filter alike. */
  lemma {:induction false} FilterAgrees<T(!new)>(s: seq<T>, p: T -> bool, q: T -> bool)
    requires forall x :: x in s ==> p(x) == q(x)
    ensures Filter(s, p) == Filter(s, q)
  {
    if s != [] {
      assert s[0] in s;
      assert forall x :: x in s[1..] ==> x in s;
      FilterAgrees(s[1..], p, q);
    }
  }

  /** Filtering keeps primary keys unique. */
  lemma {:induction false} FilterKeepsKeysUnique(s: seq<Value>, p: Value -> bool, name: string)
    requires UniqueKeys(s, name)
    ensures UniqueKeys(Filter(s, p), name)
  {
    if s != [] {
      var tail := s[1..];
      assert UniqueKeys(tail, name) by {
        forall i, j | 0 <= i < j < |tail| ensures Field(tail[i], name) != Field(tail[j], name) {
          assert tail[i] == s[i + 1] && tail[j] == s[j + 1];
        }
      }
      FilterKeepsKeysUnique(tail, p, name);
      var rest := Filter(tail, p);
      if p(s[0]) {
        var r := [s[0]] + rest;
        forall i, j | 0 <= i < j < |r| ensures Field(r[i], name) != Field(r[j], name) {
          assert r[j] == rest[j - 1] && r[j] in tail;
          if i == 0 {
            var k :| 0 <= k < |tail| && tail[k] == r[j];
            assert s[k + 1] == r[j];
          } else {
            assert r[i] == rest[i - 1];
          }
        }
      }
    }
  }

  /** `Array.isArray(removedKeys) ? removedKeys : [removedKeys]`. */
  function KeysOf(removedKeys: Value): (r: seq<Value>)
    ensures removedKeys.List? ==> r == removedKeys.items
    ensures !removedKeys.List? ==> r == [removedKeys]
  {
    if removedKeys.List? then removedKeys.items else [removedKeys]
  }

  /** `keys.some(v => v !== field)`. */
  predicate SomeDiffers(keys: seq<Value>, field: Value)
  {
    exists j :: 0 <= j < |keys| && keys[j] != field
  }

  /**
   * The list removeItem stores, as written: a record is kept when SOME
   * removal key differs from its primary key.
   */
  function KeptAsWritten(items: seq<Value>, name: string, keys: seq<Value>): (r: seq<Value>)
    ensures IsSubsequence(r, items)
    ensures forall x :: x in r <==> x in items && SomeDiffers(keys, Field(x, name))
  {
    Filter(items, (x: Value) => SomeDiffers(keys, Field(x, name)))
  }

  /**
   * The evidently intended removal: a record is kept exactly when its
   * primary key is not one of the removal keys.
   */
  function KeptUnlisted(items: seq<Value>, name: string, keys: seq<Value>): (r: seq<Value>)
    ensures IsSubsequence(r, items)
    ensures forall x :: x in r <==> x in items && Field(x, name) !in keys
  {
    Filter(items, (x: Value) => Field(x, name) !in keys)
  }

  /** As written, a kept record occurs as often as in the stored list. */
  lemma KeptAsWrittenCounts(items: seq<Value>, name: string, keys: seq<Value>)
    ensures forall x :: multiset(KeptAsWritten(items, name, keys))[x] ==
              if SomeDiffers(keys, Field(x, name)) then multiset(items)[x] else 0
  {
    FilterCounts(items, (x: Value) => SomeDiffers(keys, Field(x, name)));
  }

  /** Intended, a kept record occurs as often as in the stored list. */
  lemma KeptUnlistedCounts(items: seq<Value>, name: string, keys: seq<Value>)
    ensures forall x :: multiset(KeptUnlisted(items, name, keys))[x] ==
              if Field(x, name) !in keys then multiset(items)[x] else 0
  {
    FilterCounts(items, (x: Value) => Field(x, name) !in keys);
  }

  /** With one removal key both readings remove exactly the records carrying it. */
  lemma SingleKeyReadingsAgree(items: seq<Value>, name: string, key: Value)
    ensures KeptAsWritten(items, name, [key]) == KeptUnlisted(items, name, [key])
    ensures KeptAsWritten(items, name, [key]) == Filter(items, (x: Value) => Field(x, name) != key)
  {
    var asWritten := (x: Value) => SomeDiffers([key], Field(x, name));
    var intended := (x: Value) => Field(x, name) !in [key];
    var differs := (x: Value) => Field(x, name) != key;
    forall x | x in items ensures asWritten(x) == differs(x) && intended(x) == differs(x) {
      if Field(x, name) != key { assert [key][0] != Field(x, name); }
    }
    FilterAgrees(items, asWritten, differs);
    FilterAgrees(items, intended, differs);
  }

  /** As written, two different removal keys keep every record: nothing is removed. */
  lemma TwoDifferentKeysRemoveNothing(items: seq<Value>, name: string, keys: seq<Value>, i: int, j: int)
    requires 0 <= i < |keys| && 0 <= j < |keys| && keys[i] != keys[j]
    ensures KeptAsWritten(items, name, keys) == items
  {
    var p := (x: Value) => SomeDiffers(keys, Field(x, name));
    forall x | x in items ensures p(x) {
      if keys[i] == Field(x, name) { assert keys[j] != Field(x, name); }
    }
    FilterKeepsAll(items, p);
  }

  /** As written, an empty list of removal keys removes every record. */
  lemma NoKeysRemoveEverything(items: seq<Value>, name: string)
    ensures KeptAsWritten(items, name, []) == []
  {
  }

  /** The two records with ids "a" and "b", and removal keys ["a", "b"]. */
  lemma RemovingTwoIdsExample()
    ensures var a, b := Rec(map["id" := Str("a")]), Rec(map["id" := Str("b")]);
            && KeptAsWritten([a, b], "id", [Str("a"), Str("b")]) == [a, b]
            && KeptUnlisted([a, b], "id", [Str("a"), Str("b")]) == []
  {
    var a, b := Rec(map["id" := Str("a")]), Rec(map["id" := Str("b")]);
    var keys := [Str("a"), Str("b")];
    TwoDifferentKeysRemoveNothing([a, b], "id", keys, 0, 1);
  }
}
