/**
 * The storage engine as functions of the engine's configuration and of the
 * backing store's entries. insertItem, removeItem and an updateItem that
 * finds a match read the whole list, change it and write it back through
 * `set`; an updateItem without a match returns without writing; getItem
 * only reads; clear writes `[]` without reading; each fails without writing.
 */
module Engine {
  import opened Wrappers
  import opened Values
  import opened Schema
  import opened Lists

  /** The errors the engine throws. */
  datatype Error =
    | WrongType         // TypeError 'Wrong Type!' from set in development mode
    | NoStorageMatched  // ReferenceError 'No storage matched!'
    | NoPrimaryKey      // ReferenceError 'No primary Key!' from insertItem
    | ExistsAlready     // ReferenceError 'The value exist already!'
    | KeyNotExisted     // ReferenceError "Value's key not existed!" from updateItem
    | NotAList          // TypeError: the stored value has no findIndex/filter/find

  /** The backing store: literal key to decoded value. */
  type Entries = map<string, Value>

  /** The engine's fields: version tag, default key field, definitions, strict mode. */
  datatype Config = Config(version: string, deKey: string, storages: seq<Definition>, isDev: bool)

  /** The result of a mutating operation and the entries it leaves behind. */
  datatype Step = Step(outcome: Outcome<Error>, entries: Entries)

  /** insertItem also hands back the record, which it may have given a fresh id. */
  datatype Inserted = Inserted(outcome: Outcome<Error>, value: Record, entries: Entries)

  /** The result of init: the definitions as normalised, the entries, the outcome. */
  datatype Initialized = Initialized(storages: seq<Definition>, entries: Entries, outcome: Outcome<Error>)

  /** `${version}_${key}`: the literal key used against the backing store. */
  function Versioned(version: string, key: string): (r: string)
    ensures |r| == |version| + 1 + |key|
    ensures r[..|version|] == version && r[|version|] == '_' && r[|version| + 1..] == key
  {
    version + "_" + key
  }

  /** A version tag separates keys: different logical keys never share an entry. */
  lemma VersionedInjective(version: string, k1: string, k2: string)
    requires k1 != k2
    ensures Versioned(version, k1) != Versioned(version, k2)
  {
  }

  /** Two version tags without '_' never share an entry, whatever the keys. */
  lemma VersionsSeparate(v1: string, v2: string, k1: string, k2: string)
    requires '_' !in v1 && '_' !in v2 && v1 != v2
    ensures Versioned(v1, k1) != Versioned(v2, k2)
  {
    var s1, s2 := Versioned(v1, k1), Versioned(v2, k2);
    if |v1| < |v2| {
      assert s1[|v1|] == '_' && s2[|v1|] == v2[|v1|];
    } else if |v2| < |v1| {
      assert s2[|v2|] == '_' && s1[|v2|] == v1[|v2|];
    } else {
      var j :| 0 <= j < |v1| && v1[j] != v2[j];
      assert s1[j] == v1[j] && s2[j] == v2[j];
    }
  }

  /** With '_' inside a version tag, two generations can address one entry. */
  lemma VersionsCanCollide()
    ensures Versioned("V1", "a_b") == Versioned("V1_a", "b")
  {
  }

  /** `get(key)`: the decoded entry, or the null a missing entry decodes to. */
  function Get(c: Config, e: Entries, key: string): (r: Value)
    ensures Versioned(c.version, key) in e ==> r == e[Versioned(c.version, key)]
    ensures Versioned(c.version, key) !in e ==> r == Null
  {
    var k := Versioned(c.version, key);
    if k in e then e[k] else Null
  }

  /**
   * `isTypeMatched(key, value)`: an unregistered key accepts every value; a
   * registered one never accepts null or undefined; an Array-typed one
   * accepts exactly the lists, any other refuses every list; and one with
   * no type accepts nothing.
   */
  predicate IsTypeMatched(defs: seq<Definition>, key: string, v: Value)
    ensures Lookup(defs, key).None? ==> IsTypeMatched(defs, key, v)
    ensures Lookup(defs, key).Some? && (v.Null? || v.Undefined?) ==> !IsTypeMatched(defs, key, v)
    ensures Lookup(defs, key).Some? && v.List? ==>
              (IsTypeMatched(defs, key, v) <==> Lookup(defs, key).value.valueType == ArrayType)
    ensures Lookup(defs, key).Some? && Lookup(defs, key).value.valueType == NoType ==> !IsTypeMatched(defs, key, v)
    ensures Lookup(defs, key).Some? && Lookup(defs, key).value.valueType == ArrayType ==>
              (IsTypeMatched(defs, key, v) <==> v.List?)
  {
    match Lookup(defs, key)
    case None => true
    case Some(d) => ConstructorOf(v) == Some(d.valueType)
  }

  /** e' differs from e at most in the literal entry `literal`. */
  ghost predicate OnlyAt(e: Entries, e': Entries, literal: string)
  {
    forall k :: k != literal ==> (k in e' <==> k in e) && (k in e ==> e'[k] == e[k])
  }

  /**
   * `set(key, value)`: refused with a type error and no write, or the value
   * stored at `version_key`; no other literal entry changes.
   */
  function Set(c: Config, e: Entries, key: string, v: Value): (r: Step)
    ensures r.outcome.Fail? ==> r.outcome.error == WrongType && r.entries == e
    ensures r.outcome.Pass? ==> Versioned(c.version, key) in r.entries && r.entries[Versioned(c.version, key)] == v
    ensures OnlyAt(e, r.entries, Versioned(c.version, key))
  {
    if c.isDev && !IsTypeMatched(c.storages, key, v) then Step(Fail(WrongType), e)
    else Step(Pass, e[Versioned(c.version, key) := v])
  }

  /** `remove(key)`: deletes the entry at `version_key`, present or not, and no other. */
  function Remove(c: Config, e: Entries, key: string): (r: Entries)
    ensures Versioned(c.version, key) !in r
    ensures OnlyAt(e, r, Versioned(c.version, key))
  {
    e - {Versioned(c.version, key)}
  }

  /**
   * `insertItem(key, value)` with `freshId` standing for `uuid()`: it fails
   * with one of insert's own errors or set's, writes at most `version_key`,
   * and keeps every truthy field of the record.
   */
  function InsertItem(c: Config, e: Entries, key: string, value: Record, freshId: string): (r: Inserted)
    ensures r.outcome.Fail? ==> r.outcome.error in {NoStorageMatched, NoPrimaryKey, NotAList, ExistsAlready, WrongType}
    ensures OnlyAt(e, r.entries, Versioned(c.version, key))
    ensures forall n :: n in value && Truthy(value[n]) ==> n in r.value && r.value[n] == value[n]
  {
    match Lookup(c.storages, key)
    case None => Inserted(Fail(NoStorageMatched), value, e)
    case Some(d) =>
      var name := KeyName(d);
      if !Truthy(FieldOf(value, name)) && d.autoKey then Inserted(Fail(NoPrimaryKey), value, e)
      else
        var v := if Truthy(FieldOf(value, name)) then value else value[name := Str(freshId)];
        var stored := Get(c, e, key);
        if !stored.List? then Inserted(Fail(NotAList), v, e)
        else if FirstIndex(stored.items, name, FieldOf(v, name)).Some? then Inserted(Fail(ExistsAlready), v, e)
        else
          var s := Set(c, e, key, List(stored.items + [Rec(v)]));
          Inserted(s.outcome, v, s.entries)
  }

  /**
   * `updateItem(key, value)`: replaces the first record with the same key,
   * if any; it fails with one of update's own errors or set's, and writes at
   * most `version_key`.
   */
  function UpdateItem(c: Config, e: Entries, key: string, value: Record): (r: Step)
    ensures r.outcome.Fail? ==> r.outcome.error in {NoStorageMatched, KeyNotExisted, NotAList, WrongType}
    ensures OnlyAt(e, r.entries, Versioned(c.version, key))
  {
    match Lookup(c.storages, key)
    case None => Step(Fail(NoStorageMatched), e)
    case Some(d) =>
      var name := KeyName(d);
      if !Truthy(FieldOf(value, name)) then Step(Fail(KeyNotExisted), e)
      else
        var stored := Get(c, e, key);
        if !stored.List? then Step(Fail(NotAList), e)
        else
          match FirstIndex(stored.items, name, FieldOf(value, name))
          case None => Step(Pass, e)
          case Some(i) => Set(c, e, key, List(stored.items[i := Rec(value)]))
  }

  /**
   * `insertOrUpdate(key, value)`: any insert failure falls back to update,
   * so an error that escapes is one of update's; it writes at most `version_key`.
   */
  function InsertOrUpdate(c: Config, e: Entries, key: string, value: Record, freshId: string): (r: Step)
    ensures r.outcome.Fail? ==> r.outcome.error in {NoStorageMatched, KeyNotExisted, NotAList, WrongType}
    ensures OnlyAt(e, r.entries, Versioned(c.version, key))
  {
    var ins := InsertItem(c, e, key, value, freshId);
    if ins.outcome.Pass? then Step(Pass, ins.entries)
    else UpdateItem(c, ins.entries, key, ins.value)
  }

  /**
   * `removeItem(key, removedKeys)`, with the filter as written; it fails
   * only for an unregistered key, a stored non-list or set's type error,
   * and writes at most `version_key`.
   */
  function RemoveItem(c: Config, e: Entries, key: string, removedKeys: Value): (r: Step)
    ensures r.outcome.Fail? ==> r.outcome.error in {NoStorageMatched, NotAList, WrongType}
    ensures OnlyAt(e, r.entries, Versioned(c.version, key))
  {
    match Lookup(c.storages, key)
    case None => Step(Fail(NoStorageMatched), e)
    case Some(d) =>
      var stored := Get(c, e, key);
      if !stored.List? then Step(Fail(NotAList), e)
      else Set(c, e, key, List(KeptAsWritten(stored.items, KeyName(d), KeysOf(removedKeys))))
  }

  /**
   * removeItem as evidently intended: the records whose primary key is one
   * of the removal keys are dropped, all others kept.
   */
  function RemoveItemIntended(c: Config, e: Entries, key: string, removedKeys: Value): (r: Step)
    ensures r.outcome.Fail? ==> r.outcome.error in {NoStorageMatched, NotAList, WrongType}
    ensures OnlyAt(e, r.entries, Versioned(c.version, key))
  {
    match Lookup(c.storages, key)
    case None => Step(Fail(NoStorageMatched), e)
    case Some(d) =>
      var stored := Get(c, e, key);
      if !stored.List? then Step(Fail(NotAList), e)
      else Set(c, e, key, List(KeptUnlisted(stored.items, KeyName(d), KeysOf(removedKeys))))
  }

  /**
   * `getItem(key, value)`: the first record whose key field is `target`, if
   * any; it fails only for an unregistered key or a stored non-list, and a
   * record it returns is a stored one carrying the target key.
   */
  function GetItem(c: Config, e: Entries, key: string, target: Value): (r: Result<Option<Value>, Error>)
    ensures r.Err? ==> r.error == NoStorageMatched || r.error == NotAList
    ensures r.Ok? ==>
              && Lookup(c.storages, key).Some? && Get(c, e, key).List?
              && (r.value.Some? ==>
                    r.value.value in Get(c, e, key).items &&
                    Field(r.value.value, KeyName(Lookup(c.storages, key).value)) == target)
  {
    match Lookup(c.storages, key)
    case None => Err(NoStorageMatched)
    case Some(d) =>
      var stored := Get(c, e, key);
      if !stored.List? then Err(NotAList)
      else
        match FirstIndex(stored.items, KeyName(d), target)
        case None => Ok(None)
        case Some(i) => Ok(Some(stored.items[i]))
  }

  /**
   * `clear(key)`: only a registered Array-typed key can be emptied; it fails
   * only with NoStorageMatched and writes at most `version_key`.
   */
  function Clear(c: Config, e: Entries, key: string): (r: Step)
    ensures r.outcome.Fail? ==> r.outcome.error == NoStorageMatched
    ensures OnlyAt(e, r.entries, Versioned(c.version, key))
  {
    match Lookup(c.storages, key)
    case Some(d) =>
      if d.valueType == ArrayType then Set(c, e, key, List([])) else Step(Fail(NoStorageMatched), e)
    case None => Step(Fail(NoStorageMatched), e)
  }

  /** The value init leaves under a definition: its default replaces a falsy value other than the default. */
  function Installed(current: Value, default: Value): Value
  {
    if !Truthy(current) && current != default then default else current
  }

  /** The configuration init moves to after normalising definition i. */
  function Normalized(c: Config, i: nat): Config
    requires i < |c.storages|
  {
    c.(storages := c.storages[i := NormalizeKey(c.storages[i], c.deKey)])
  }

  /**
   * `init()` from definition i on: normalise the key of definition i, write
   * its default when the stored value is falsy and not the default, go on;
   * a failing write stops the walk with the writes made so far kept.
   */
  function InitFrom(c: Config, e: Entries, i: nat): (r: Initialized)
    requires i <= |c.storages|
    ensures |r.storages| == |c.storages|
    ensures r.outcome.Fail? ==> c.isDev && r.outcome.error == WrongType
    decreases |c.storages| - i
  {
    if i == |c.storages| then Initialized(c.storages, e, Pass)
    else
      var c' := Normalized(c, i);
      var d := c'.storages[i];
      var current := Get(c', e, d.store);
      if Installed(current, d.defaultValue) != current then
        var s := Set(c', e, d.store, Installed(current, d.defaultValue));
        if s.outcome.Fail? then Initialized(c'.storages, e, s.outcome)
        else InitFrom(c', s.entries, i + 1)
      else InitFrom(c', e, i + 1)
  }

  // Scalar operations

  /** `set` followed by `get` returns the value written. */
  lemma SetThenGet(c: Config, e: Entries, key: string, v: Value)
    ensures Set(c, e, key, v).outcome.Pass? ==> Get(c, Set(c, e, key, v).entries, key) == v
  {
  }

  /** `set` fails only in development mode on a type mismatch, and then writes nothing. */
  lemma SetFailsOnlyOnMismatch(c: Config, e: Entries, key: string, v: Value)
    ensures Set(c, e, key, v).outcome.Fail? <==> c.isDev && !IsTypeMatched(c.storages, key, v)
    ensures Set(c, e, key, v).outcome.Fail? ==> Set(c, e, key, v).entries == e
  {
  }

  /** Writing one logical key leaves every other logical key as it was. */
  lemma SetLeavesOtherKeys(c: Config, e: Entries, key: string, other: string, v: Value)
    requires other != key
    ensures Get(c, Set(c, e, key, v).entries, other) == Get(c, e, other)
  {
    VersionedInjective(c.version, key, other);
  }

  /** After `remove`, `get` finds nothing, and every other literal entry is kept. */
  lemma RemoveThenGet(c: Config, e: Entries, key: string, literal: string)
    ensures Get(c, Remove(c, e, key), key) == Null
    ensures literal != Versioned(c.version, key) ==>
              (literal in Remove(c, e, key) <==> literal in e) &&
              (literal in e ==> Remove(c, e, key)[literal] == e[literal])
  {
  }

  /** Removing one logical key leaves every other logical key as it was. */
  lemma RemoveLeavesOtherKeys(c: Config, e: Entries, key: string, other: string)
    requires other != key
    ensures Get(c, Remove(c, e, key), other) == Get(c, e, other)
  {
    VersionedInjective(c.version, key, other);
  }
}
