/**
 * What the collection operations guarantee: the errors they raise, that a
 * failing call writes nothing, and how each successful call changes the
 * stored list.
 */
module CollectionProperties {
  import opened Wrappers
  import opened Values
  import opened Schema
  import opened Lists
  import opened Engine

  /** Every collection operation on an unregistered key fails with NoStorageMatched and writes nothing. */
  lemma UnknownStorageFails(c: Config, e: Entries, key: string, value: Record, target: Value, freshId: string)
    requires Lookup(c.storages, key).None?
    ensures InsertItem(c, e, key, value, freshId) == Inserted(Fail(NoStorageMatched), value, e)
    ensures UpdateItem(c, e, key, value) == Step(Fail(NoStorageMatched), e)
    ensures RemoveItem(c, e, key, target) == Step(Fail(NoStorageMatched), e)
    ensures GetItem(c, e, key, target) == Err(NoStorageMatched)
    ensures Clear(c, e, key) == Step(Fail(NoStorageMatched), e)
  {
  }

  /** clear also refuses a registered key whose definition is not Array-typed. */
  lemma ClearNeedsCollection(c: Config, e: Entries, key: string, d: Definition)
    requires Lookup(c.storages, key) == Some(d) && d.valueType != ArrayType
    ensures Clear(c, e, key) == Step(Fail(NoStorageMatched), e)
  {
  }

  /** A failing insertItem leaves the backing store exactly as it was. */
  lemma InsertFailureWritesNothing(c: Config, e: Entries, key: string, value: Record, freshId: string)
    ensures InsertItem(c, e, key, value, freshId).outcome.Fail? ==> InsertItem(c, e, key, value, freshId).entries == e
  {
  }

  /** A failing updateItem leaves the backing store exactly as it was. */
  lemma UpdateFailureWritesNothing(c: Config, e: Entries, key: string, value: Record)
    ensures UpdateItem(c, e, key, value).outcome.Fail? ==> UpdateItem(c, e, key, value).entries == e
  {
  }

  /** A failing removeItem or clear leaves the backing store exactly as it was. */
  lemma RemoveAndClearFailureWriteNothing(c: Config, e: Entries, key: string, removedKeys: Value)
    ensures RemoveItem(c, e, key, removedKeys).outcome.Fail? ==> RemoveItem(c, e, key, removedKeys).entries == e
    ensures Clear(c, e, key).outcome.Fail? ==> Clear(c, e, key).entries == e
  {
  }

  /** A failing insertOrUpdate leaves the backing store as it was: both attempts failed. */
  lemma InsertOrUpdateFailureWritesNothing(c: Config, e: Entries, key: string, value: Record, freshId: string)
    ensures InsertOrUpdate(c, e, key, value, freshId).outcome.Fail? ==> InsertOrUpdate(c, e, key, value, freshId).entries == e
  {
    var ins := InsertItem(c, e, key, value, freshId);
    InsertFailureWritesNothing(c, e, key, value, freshId);
    UpdateFailureWritesNothing(c, e, key, ins.value);
  }

  /**
   * A record without a truthy primary key: with autoKey it is refused with
   * NoPrimaryKey; without, it is given the fresh id under the key field.
   */
  lemma InsertWithoutPrimaryKey(c: Config, e: Entries, key: string, value: Record, freshId: string, d: Definition)
    requires Lookup(c.storages, key) == Some(d) && !Truthy(FieldOf(value, KeyName(d)))
    ensures d.autoKey ==> InsertItem(c, e, key, value, freshId) == Inserted(Fail(NoPrimaryKey), value, e)
    ensures !d.autoKey ==> InsertItem(c, e, key, value, freshId).value == value[KeyName(d) := Str(freshId)]
  {
  }

  /** A record that has its primary key is inserted as given. */
  lemma InsertKeepsGivenKey(c: Config, e: Entries, key: string, value: Record, freshId: string, d: Definition)
    requires Lookup(c.storages, key) == Some(d) && Truthy(FieldOf(value, KeyName(d)))
    ensures InsertItem(c, e, key, value, freshId).value == value
  {
  }

  /** Inserting a key already in the list fails with ExistsAlready and leaves the list as it was. */
  lemma InsertDuplicateFails(c: Config, e: Entries, key: string, value: Record, freshId: string,
                             d: Definition, items: seq<Value>, j: int)
    requires Lookup(c.storages, key) == Some(d) && Get(c, e, key) == List(items)
    requires Truthy(FieldOf(value, KeyName(d)))
    requires 0 <= j < |items| && Field(items[j], KeyName(d)) == FieldOf(value, KeyName(d))
    ensures InsertItem(c, e, key, value, freshId) == Inserted(Fail(ExistsAlready), value, e)
  {
  }

  /**
   * insertItem succeeds exactly when the record has (or may be given) a key,
   * no stored record carries it, and the type check passes; the new list is
   * the old one with the record appended.
   */
  lemma InsertAppends(c: Config, e: Entries, key: string, value: Record, freshId: string,
                      d: Definition, items: seq<Value>)
    requires Lookup(c.storages, key) == Some(d) && Get(c, e, key) == List(items)
    ensures var ins := InsertItem(c, e, key, value, freshId);
            var name := KeyName(d);
            ins.outcome.Pass? <==>
              && (Truthy(FieldOf(value, name)) || !d.autoKey)
              && (forall j :: 0 <= j < |items| ==> Field(items[j], name) != FieldOf(ins.value, name))
              && (!c.isDev || d.valueType == ArrayType)
    ensures var ins := InsertItem(c, e, key, value, freshId);
            ins.outcome.Pass? ==>
              && Get(c, ins.entries, key) == List(items + [Rec(ins.value)])
              && |Get(c, ins.entries, key).items| == |items| + 1
  {
  }

  /** A successful insert keeps the primary keys of the stored list unique. */
  lemma InsertKeepsKeysUnique(c: Config, e: Entries, key: string, value: Record, freshId: string,
                              d: Definition, items: seq<Value>)
    requires Lookup(c.storages, key) == Some(d) && Get(c, e, key) == List(items)
    requires UniqueKeys(items, KeyName(d))
    ensures var ins := InsertItem(c, e, key, value, freshId);
            ins.outcome.Pass? ==>
              Get(c, ins.entries, key).List? && UniqueKeys(Get(c, ins.entries, key).items, KeyName(d))
  {
    var ins := InsertItem(c, e, key, value, freshId);
    var name := KeyName(d);
    if ins.outcome.Pass? {
      InsertAppends(c, e, key, value, freshId, d, items);
      var r := items + [Rec(ins.value)];
      forall i, j | 0 <= i < j < |r| ensures Field(r[i], name) != Field(r[j], name) {
        assert r[i] == items[i];
        if j < |items| { assert r[j] == items[j]; }
      }
    }
  }

  /** After a successful insert, getItem by the record's key returns that record. */
  lemma InsertThenGetItem(c: Config, e: Entries, key: string, value: Record, freshId: string,
                          d: Definition, items: seq<Value>)
    requires Lookup(c.storages, key) == Some(d) && Get(c, e, key) == List(items)
    ensures var ins := InsertItem(c, e, key, value, freshId);
            ins.outcome.Pass? ==>
              GetItem(c, ins.entries, key, FieldOf(ins.value, KeyName(d))) == Ok(Some(Rec(ins.value)))
  {
    var ins := InsertItem(c, e, key, value, freshId);
    var name := KeyName(d);
    if ins.outcome.Pass? {
      InsertAppends(c, e, key, value, freshId, d, items);
      var r := items + [Rec(ins.value)];
      var target := FieldOf(ins.value, name);
      assert Field(r[|items|], name) == target;
      var found := FirstIndex(r, name, target);
      assert found.Some?;
      assert found.value == |items|;
    }
  }

  /** updateItem refuses a record without a truthy primary key. */
  lemma UpdateWithoutPrimaryKey(c: Config, e: Entries, key: string, value: Record, d: Definition)
    requires Lookup(c.storages, key) == Some(d) && !Truthy(FieldOf(value, KeyName(d)))
    ensures UpdateItem(c, e, key, value) == Step(Fail(KeyNotExisted), e)
  {
  }

  /** updateItem of a key no stored record has is a silent no-op. */
  lemma UpdateWithoutMatch(c: Config, e: Entries, key: string, value: Record, d: Definition, items: seq<Value>)
    requires Lookup(c.storages, key) == Some(d) && Get(c, e, key) == List(items)
    requires Truthy(FieldOf(value, KeyName(d)))
    requires forall j :: 0 <= j < |items| ==> Field(items[j], KeyName(d)) != FieldOf(value, KeyName(d))
    ensures UpdateItem(c, e, key, value) == Step(Pass, e)
  {
  }

  /**
   * updateItem replaces the first matching record in place: same length,
   * the record at the first match, every other position as it was.
   */
  lemma UpdateReplacesFirstMatch(c: Config, e: Entries, key: string, value: Record,
                                 d: Definition, items: seq<Value>, i: int)
    requires Lookup(c.storages, key) == Some(d) && Get(c, e, key) == List(items)
    requires Truthy(FieldOf(value, KeyName(d)))
    requires FirstMatchAt(items, KeyName(d), FieldOf(value, KeyName(d)), i)
    requires !c.isDev || d.valueType == ArrayType
    ensures var s := UpdateItem(c, e, key, value);
            s.outcome == Pass && Get(c, s.entries, key).List? &&
            var r := Get(c, s.entries, key).items;
            && |r| == |items|
            && r[i] == Rec(value)
            && (forall j :: 0 <= j < |items| && j != i ==> r[j] == items[j])
  {
  }

  /** A successful update keeps the primary keys of the stored list unique. */
  lemma UpdateKeepsKeysUnique(c: Config, e: Entries, key: string, value: Record, d: Definition, items: seq<Value>)
    requires Lookup(c.storages, key) == Some(d) && Get(c, e, key) == List(items)
    requires UniqueKeys(items, KeyName(d))
    ensures var s := UpdateItem(c, e, key, value);
            s.outcome.Pass? ==> Get(c, s.entries, key).List? && UniqueKeys(Get(c, s.entries, key).items, KeyName(d))
  {
  }

  /** removeItem with one scalar key stores exactly the old list minus the records carrying it, in order. */
  lemma RemoveItemSingleKey(c: Config, e: Entries, key: string, removed: Value, d: Definition, items: seq<Value>)
    requires Lookup(c.storages, key) == Some(d) && Get(c, e, key) == List(items)
    requires !removed.List?
    requires !c.isDev || d.valueType == ArrayType
    ensures var s := RemoveItem(c, e, key, removed);
            s.outcome == Pass &&
            Get(c, s.entries, key) == List(Filter(items, (x: Value) => Field(x, KeyName(d)) != removed))
  {
    SingleKeyReadingsAgree(items, KeyName(d), removed);
  }

  /**
   * Whatever the removal keys, a successful removeItem stores a
   * subsequence of the old list: the records some removal key differs from.
   */
  lemma RemoveItemKeepsSubsequence(c: Config, e: Entries, key: string, removedKeys: Value, d: Definition, items: seq<Value>)
    requires Lookup(c.storages, key) == Some(d) && Get(c, e, key) == List(items)
    ensures var s := RemoveItem(c, e, key, removedKeys);
            s.outcome.Pass? ==>
              && Get(c, s.entries, key).List?
              && IsSubsequence(Get(c, s.entries, key).items, items)
              && (forall x :: x in Get(c, s.entries, key).items <==>
                    x in items && SomeDiffers(KeysOf(removedKeys), Field(x, KeyName(d))))
              && (forall x :: multiset(Get(c, s.entries, key).items)[x] ==
                    if SomeDiffers(KeysOf(removedKeys), Field(x, KeyName(d))) then multiset(items)[x] else 0)
  {
    KeptAsWrittenCounts(items, KeyName(d), KeysOf(removedKeys));
  }

  /**
   * The intended removeItem stores the subsequence of records whose key is
   * not a removal key, and agrees with the source when one scalar key is given.
   */
  lemma RemoveItemIntendedDropsListed(c: Config, e: Entries, key: string, removedKeys: Value, d: Definition, items: seq<Value>)
    requires Lookup(c.storages, key) == Some(d) && Get(c, e, key) == List(items)
    ensures var s := RemoveItemIntended(c, e, key, removedKeys);
            s.outcome.Pass? ==>
              && Get(c, s.entries, key).List?
              && IsSubsequence(Get(c, s.entries, key).items, items)
              && (forall x :: x in Get(c, s.entries, key).items <==>
                    x in items && Field(x, KeyName(d)) !in KeysOf(removedKeys))
              && (forall x :: multiset(Get(c, s.entries, key).items)[x] ==
                    if Field(x, KeyName(d)) !in KeysOf(removedKeys) then multiset(items)[x] else 0)
    ensures !removedKeys.List? ==> RemoveItemIntended(c, e, key, removedKeys) == RemoveItem(c, e, key, removedKeys)
  {
    KeptUnlistedCounts(items, KeyName(d), KeysOf(removedKeys));
    if !removedKeys.List? {
      SingleKeyReadingsAgree(items, KeyName(d), removedKeys);
    }
  }

  /** removeItem keeps the primary keys of the stored list unique. */
  lemma RemoveItemKeepsKeysUnique(c: Config, e: Entries, key: string, removedKeys: Value, d: Definition, items: seq<Value>)
    requires Lookup(c.storages, key) == Some(d) && Get(c, e, key) == List(items)
    requires UniqueKeys(items, KeyName(d))
    ensures var s := RemoveItem(c, e, key, removedKeys);
            s.outcome.Pass? ==> Get(c, s.entries, key).List? && UniqueKeys(Get(c, s.entries, key).items, KeyName(d))
  {
    FilterKeepsKeysUnique(items, (x: Value) => SomeDiffers(KeysOf(removedKeys), Field(x, KeyName(d))), KeyName(d));
  }

  /** getItem returns the first record whose key field is the target, or none when no record has it. */
  lemma GetItemFindsFirst(c: Config, e: Entries, key: string, target: Value, d: Definition, items: seq<Value>)
    requires Lookup(c.storages, key) == Some(d) && Get(c, e, key) == List(items)
    ensures GetItem(c, e, key, target).Ok?
    ensures GetItem(c, e, key, target).value.None? <==>
              forall j :: 0 <= j < |items| ==> Field(items[j], KeyName(d)) != target
    ensures GetItem(c, e, key, target).value.Some? ==>
              exists i :: FirstMatchAt(items, KeyName(d), target, i) && GetItem(c, e, key, target).value.value == items[i]
  {
  }

  /** clear on an Array-typed key always succeeds and leaves the empty list. */
  lemma ClearEmpties(c: Config, e: Entries, key: string, d: Definition)
    requires Lookup(c.storages, key) == Some(d) && d.valueType == ArrayType
    ensures Clear(c, e, key).outcome == Pass && Get(c, Clear(c, e, key).entries, key) == List([])
  {
  }

  /**
   * insertOrUpdate of a keyed record into a collection always succeeds:
   * a new key is appended, an existing one replaced at its first match.
   */
  lemma InsertOrUpdateUpserts(c: Config, e: Entries, key: string, value: Record, freshId: string,
                              d: Definition, items: seq<Value>)
    requires Lookup(c.storages, key) == Some(d) && Get(c, e, key) == List(items)
    requires Truthy(FieldOf(value, KeyName(d)))
    requires !c.isDev || d.valueType == ArrayType
    ensures var s := InsertOrUpdate(c, e, key, value, freshId);
            var found := FirstIndex(items, KeyName(d), FieldOf(value, KeyName(d)));
            && s.outcome == Pass
            && (found.None? ==> Get(c, s.entries, key) == List(items + [Rec(value)]))
            && (found.Some? ==> Get(c, s.entries, key) == List(items[found.value := Rec(value)]))
  {
  }

  /** insertOrUpdate masks insertItem's NoPrimaryKey behind updateItem's KeyNotExisted. */
  lemma InsertOrUpdateWithoutKey(c: Config, e: Entries, key: string, value: Record, freshId: string, d: Definition)
    requires Lookup(c.storages, key) == Some(d) && d.autoKey && !Truthy(FieldOf(value, KeyName(d)))
    ensures InsertOrUpdate(c, e, key, value, freshId) == Step(Fail(KeyNotExisted), e)
  {
  }

  /**
   * The users scenario: an auto-keyed insert, getItem by the generated id,
   * a duplicate insert refused, and removeItem by the id emptying the list.
   */
  lemma UsersScenario(e: Entries, id: string)
    requires id != ""
    requires "V1_users" in e && e["V1_users"] == List([])
    ensures var users := Definition("users", ArrayType, Some("id"), false, List([]));
            var c := Config("V1", "id", [users], false);
            var ann := map["name" := Str("Ann")];
            var keyed := ann["id" := Str(id)];
            var ins := InsertItem(c, e, "users", ann, id);
            && ins.outcome == Pass
            && ins.value == keyed
            && GetItem(c, ins.entries, "users", Str(id)) == Ok(Some(Rec(keyed)))
            && InsertItem(c, ins.entries, "users", map["id" := Str(id), "name" := Str("X")], id).outcome == Fail(ExistsAlready)
            && Get(c, RemoveItem(c, ins.entries, "users", Str(id)).entries, "users") == List([])
  {
    var users := Definition("users", ArrayType, Some("id"), false, List([]));
    var c := Config("V1", "id", [users], false);
    var ann := map["name" := Str("Ann")];
    var keyed := ann["id" := Str(id)];
    assert Versioned("V1", "users") == "V1_users";
    assert Lookup(c.storages, "users") == Some(users) by { LookupDistinct(c.storages, 0); }
    assert FieldOf(ann, "id") == Undefined;
    InsertAppends(c, e, "users", ann, id, users, []);
    InsertThenGetItem(c, e, "users", ann, id, users, []);
    var ins := InsertItem(c, e, "users", ann, id);
    assert Get(c, ins.entries, "users") == List([Rec(keyed)]);
    InsertDuplicateFails(c, ins.entries, "users", map["id" := Str(id), "name" := Str("X")], id, users, [Rec(keyed)], 0);
    RemoveItemSingleKey(c, ins.entries, "users", Str(id), users, [Rec(keyed)]);
    var kept := Filter([Rec(keyed)], (x: Value) => Field(x, "id") != Str(id));
    assert Rec(keyed) !in kept;
    assert kept == [];
  }
}
