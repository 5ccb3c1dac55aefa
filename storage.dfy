/**
 * The LocalStorage engine as a class over the host's backing store. Each
 * method does what the engine's method does, step by step, and its contract
 * ties its result and the new entries to the matching function of Engine.
 */
module Storage {
  import opened Wrappers
  import opened Values
  import opened Schema
  import opened Lists
  import Engine

  /** The host's persistent string-keyed store (one per page, shared by every engine). */
  class BackingStore {
    var entries: map<string, Value>

    constructor (initial: map<string, Value>)
      ensures entries == initial
    {
      entries := initial;
    }
  }

  class LocalStorage {
    const deKey: string
    const version: string
    var storages: seq<Definition>
    const isDev: bool
    const backing: BackingStore

    /** The engine's fields as the functions of Engine take them. */
    function Configuration(): Engine.Config
      reads this
    {
      Engine.Config(version, deKey, storages, isDev)
    }

    /**
     * Reads the options (lines 7-11 of the source constructor). The engine
     * it returns has not run init yet, a state `new LocalStorage(options)`
     * never exposes; Create is the source's constructor.
     */
    constructor (options: Options, isDev: bool, backing: BackingStore)
      ensures deKey == ResolveDeKey(options) && version == ResolveVersion(options)
      ensures storages == ResolveStorages(options)
      ensures this.isDev == isDev && this.backing == backing
    {
      deKey := ResolveDeKey(options);
      version := ResolveVersion(options);
      storages := ResolveStorages(options);
      this.isDev := isDev;
      this.backing := backing;
    }

    /**
     * `new LocalStorage(options)`: reads the options and runs init. When init
     * throws, no engine is returned, but the defaults already written stay.
     */
    static method Create(options: Options, isDev: bool, backing: BackingStore)
      returns (r: Result<LocalStorage, Engine.Error>)
      modifies backing
      ensures var c := Engine.Config(ResolveVersion(options), ResolveDeKey(options), ResolveStorages(options), isDev);
              var s := Engine.InitFrom(c, old(backing.entries), 0);
              && backing.entries == s.entries
              && (r.Ok? <==> s.outcome == Pass)
              && (r.Err? ==> s.outcome == Fail(r.error))
              && (r.Ok? ==> fresh(r.value) && r.value.backing == backing &&
                            r.value.Configuration() == c.(storages := s.storages))
    {
      var engine := new LocalStorage(options, isDev, backing);
      var outcome := engine.Init();
      if outcome.Fail? {
        r := Err(outcome.error);
      } else {
        r := Ok(engine);
      }
    }

    /** `init()`: normalises each definition's key and writes missing defaults, in order. */
    method Init() returns (r: Outcome<Engine.Error>)
      modifies this, backing
      ensures var s := Engine.InitFrom(old(Configuration()), old(backing.entries), 0);
              storages == s.storages && backing.entries == s.entries && r == s.outcome
    {
      var i := 0;
      while i < |storages|
        invariant i <= |storages| == |old(storages)|
        invariant Engine.InitFrom(Configuration(), backing.entries, i) ==
                  Engine.InitFrom(old(Configuration()), old(backing.entries), 0)
        decreases |storages| - i
      {
        var storage := storages[i];
        if storage.valueType == ArrayType && !HasKey(storage) {
          storage := storage.(key := Some(deKey));
        }
        storages := storages[i := storage];
        var value := Get(storage.store);
        if !Truthy(value) && value != storage.defaultValue {
          var outcome := Set(storage.store, storage.defaultValue);
          if outcome.Fail? {
            return outcome;
          }
        }
        i := i + 1;
      }
      r := Pass;
    }

    /** `set(key, value)`. */
    method Set(key: string, value: Value) returns (r: Outcome<Engine.Error>)
      modifies backing
      ensures Engine.Step(r, backing.entries) == Engine.Set(Configuration(), old(backing.entries), key, value)
    {
      if isDev && !Engine.IsTypeMatched(storages, key, value) {
        return Fail(Engine.WrongType);
      }
      backing.entries := backing.entries[Engine.Versioned(version, key) := value];
      r := Pass;
    }

    /** `get(key)`: reads only. */
    method Get(key: string) returns (v: Value)
      ensures v == Engine.Get(Configuration(), backing.entries, key)
    {
      var literal := Engine.Versioned(version, key);
      v := if literal in backing.entries then backing.entries[literal] else Null;
    }

    /** `remove(key)`. */
    method Remove(key: string)
      modifies backing
      ensures backing.entries == Engine.Remove(Configuration(), old(backing.entries), key)
    {
      backing.entries := backing.entries - {Engine.Versioned(version, key)};
    }

    /**
     * `insertItem(key, value)`, with `freshId` for `uuid()`. Also returns the
     * record as it stands afterwards, since the source gives it its id in place.
     */
    method InsertItem(key: string, value: Record, freshId: string) returns (r: Outcome<Engine.Error>, stored: Record)
      modifies backing
      ensures Engine.Inserted(r, stored, backing.entries) ==
              Engine.InsertItem(Configuration(), old(backing.entries), key, value, freshId)
    {
      stored := value;
      var storage := Lookup(storages, key);
      if storage.None? {
        return Fail(Engine.NoStorageMatched), stored;
      }
      var name := KeyName(storage.value);
      if !Truthy(FieldOf(stored, name)) {
        if !storage.value.autoKey {
          stored := stored[name := Str(freshId)];
        } else {
          return Fail(Engine.NoPrimaryKey), stored;
        }
      }
      var itemList := Get(key);
      if !itemList.List? {
        return Fail(Engine.NotAList), stored;
      }
      var index := FirstIndex(itemList.items, name, FieldOf(stored, name));
      if index.Some? {
        return Fail(Engine.ExistsAlready), stored;
      }
      var items := itemList.items + [Rec(stored)];
      r := Set(key, List(items));
    }

    /** `insertOrUpdate(key, value)`: on any insert failure, update with the record as insert left it. */
    method InsertOrUpdate(key: string, value: Record, freshId: string) returns (r: Outcome<Engine.Error>)
      modifies backing
      ensures Engine.Step(r, backing.entries) ==
              Engine.InsertOrUpdate(Configuration(), old(backing.entries), key, value, freshId)
    {
      var inserted, stored := InsertItem(key, value, freshId);
      r := Pass;
      if inserted.Fail? {
        r := UpdateItem(key, stored);
      }
    }

    /** `removeItem(key, removedKeys)`. */
    method RemoveItem(key: string, removedKeys: Value) returns (r: Outcome<Engine.Error>)
      modifies backing
      ensures Engine.Step(r, backing.entries) ==
              Engine.RemoveItem(Configuration(), old(backing.entries), key, removedKeys)
    {
      var storage := Lookup(storages, key);
      if storage.None? {
        return Fail(Engine.NoStorageMatched);
      }
      var itemList := Get(key);
      if !itemList.List? {
        return Fail(Engine.NotAList);
      }
      var keys := KeysOf(removedKeys);
      var result := KeptAsWritten(itemList.items, KeyName(storage.value), keys);
      r := Set(key, List(result));
    }

    /** `updateItem(key, value)`: replaces the first match by index, or writes nothing. */
    method UpdateItem(key: string, value: Record) returns (r: Outcome<Engine.Error>)
      modifies backing
      ensures Engine.Step(r, backing.entries) == Engine.UpdateItem(Configuration(), old(backing.entries), key, value)
    {
      var storage := Lookup(storages, key);
      if storage.None? {
        return Fail(Engine.NoStorageMatched);
      }
      var name := KeyName(storage.value);
      if !Truthy(FieldOf(value, name)) {
        return Fail(Engine.KeyNotExisted);
      }
      var itemList := Get(key);
      if !itemList.List? {
        return Fail(Engine.NotAList);
      }
      var items := itemList.items;
      var index := FirstIndex(items, name, FieldOf(value, name));
      if index.Some? {
        items := items[index.value := Rec(value)];
      }
      r := Pass;
      if index.Some? {
        r := Set(key, List(items));
      }
    }

    /** `getItem(key, value)`: reads only. */
    method GetItem(key: string, target: Value) returns (r: Result<Option<Value>, Engine.Error>)
      ensures r == Engine.GetItem(Configuration(), backing.entries, key, target)
    {
      var storage := Lookup(storages, key);
      if storage.None? {
        return Err(Engine.NoStorageMatched);
      }
      var itemList := Get(key);
      if !itemList.List? {
        return Err(Engine.NotAList);
      }
      var index := FirstIndex(itemList.items, KeyName(storage.value), target);
      r := Ok(if index.Some? then Some(itemList.items[index.value]) else None);
    }

    /** `clear(key)`. */
    method Clear(key: string) returns (r: Outcome<Engine.Error>)
      modifies backing
      ensures Engine.Step(r, backing.entries) == Engine.Clear(Configuration(), old(backing.entries), key)
    {
      var storage := Lookup(storages, key);
      if storage.None? || storage.value.valueType != ArrayType {
        return Fail(Engine.NoStorageMatched);
      }
      r := Set(key, List([]));
    }

    // The adapter's verbs

    /** `insert(key, value)` is `set`. */
    method Insert(key: string, value: Value) returns (r: Outcome<Engine.Error>)
      modifies backing
      ensures Engine.Step(r, backing.entries) == Engine.Set(Configuration(), old(backing.entries), key, value)
    {
      r := Set(key, value);
    }

    /** `delete(key)` is `remove`. */
    method Delete(key: string)
      modifies backing
      ensures backing.entries == Engine.Remove(Configuration(), old(backing.entries), key)
    {
      Remove(key);
    }

    /** `update(key, value)` is `insert`, hence `set`. */
    method Update(key: string, value: Value) returns (r: Outcome<Engine.Error>)
      modifies backing
      ensures Engine.Step(r, backing.entries) == Engine.Set(Configuration(), old(backing.entries), key, value)
    {
      r := Insert(key, value);
    }

    /** `query(key)` is `get`. */
    method Query(key: string) returns (v: Value)
      ensures v == Engine.Get(Configuration(), backing.entries, key)
    {
      v := Get(key);
    }

    /** `queryItem(key, value)` is `getItem`. */
    method QueryItem(key: string, target: Value) returns (r: Result<Option<Value>, Engine.Error>)
      ensures r == Engine.GetItem(Configuration(), backing.entries, key, target)
    {
      r := GetItem(key, target);
    }
  }
}
