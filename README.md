# vue-storage: a model of the `LocalStorage` engine

`LocalStorage` (src/vue-storage/index.js) is a versioned key-value engine
over the browser's string-keyed `window.localStorage`. It works on every
logical key `k` through the literal key `version_k`. A list of storage
definitions declares, for each logical key, the constructor its values must
have and its default. An Array-typed definition is a *collection*: an ordered
list of records, each identified by a primary-key field. It supports insert,
update, remove, get and clear of single records by that key.
insertItem, removeItem and an updateItem that finds a match read the whole
list, change it and write it back through `set`. An updateItem without a
match returns without writing. getItem only reads, and clear writes `[]`
without reading. Each of them throws without writing.

The model has seven modules:

- `Wrappers` (wrappers.dfy): `Option`, `Outcome` (returns normally / throws)
  and `Result`.
- `Values` (values.dfy): the decoded values. Undefined, null, booleans,
  integers, strings, objects as `map<string, Value>` and arrays as
  `seq<Value>`. Also JavaScript truthiness, property access and
  `value.constructor`.
- `Schema` (schema.dfy): the storage definitions, the `storageMap` registry
  (the last definition of a name wins), key normalisation, and how the
  constructor reads its options (`||` fallbacks).
- `Lists` (lists.dfy): the array methods the operations use. `findIndex`/`find`
  by primary key, `filter`, and the two readings of removeItem's predicate.
- `Engine` (engine.dfy): every engine operation as a function of the
  configuration and the backing store's entries. Also the lemmas about
  versioned keys and the scalar operations.
- `CollectionProperties` and `InitProperties`: the lemmas about the
  collection operations and about construction.
- `Storage` (storage.dfy): the imperative model.
  - `BackingStore` is the host store: one object whose `entries` map the
    engine's methods update.
  - `LocalStorage` is the class, with the source's fields and one method for
    each of `init`, `set`, `get`, `remove`, the collection operations and the
    aliases. `init` is a `while` loop over the definitions. The helpers
    `versioned` and `isTypeMatched` and the `storageMap` getter only compute,
    so they are the functions `Engine.Versioned`, `Engine.IsTypeMatched` and
    `Schema.StorageMap`/`Schema.Lookup`.
  - Each method's `ensures` ties its outcome and the new entries to an
    `Engine` function. Most have the same name. `Init` is tied to
    `Engine.InitFrom` from index 0, which also gives the new definitions.
    `Insert` and `Update` are tied to `Engine.Set`, `Delete` to
    `Engine.Remove`, `Query` to `Engine.Get` and `QueryItem` to
    `Engine.GetItem`.
  - A thrown error is a `Fail(error)` outcome. Returning `this` is `Pass`.

Abstractions:

- The codec (`toString`/`toJSON`) is the identity, and a missing entry
  decodes to `Null`.
- `uuid()` is the `freshId` parameter of the insert methods.
- The module-level `isDev` flag is a constructor parameter.
- `new LocalStorage(options)` is `LocalStorage.Create`. It runs the
  constructor (lines 7-11) and then `Init`. When `init` throws, no engine is
  returned, but the defaults already written stay in the shared store, as
  they do in the browser.
- Strict equality `===` is Dafny's `==` on values. This is exact for the
  primitive values used as primary keys.

## Model

| member | source | states |
|---|---|---|
| Storage.LocalStorage.constructor | src/vue-storage/index.js:7-11 | the default key field is `DE_KEY` or `'id'`, the version `VERSION`, `version` or `'V1'`, the definitions `storages`, `storage` or none |
| Storage.LocalStorage.Create | src/vue-storage/index.js:7-14 | construction writes exactly the entries init writes; it yields an engine iff init does not throw, else the error init threw |
| Schema.ResolveDeKey | src/vue-storage/index.js:9 | the default key field is never empty; it is the given `DE_KEY` when that is truthy, else `'id'` |
| Schema.ResolveVersion | src/vue-storage/index.js:10 | the version tag is never empty; a truthy `VERSION` wins, else a truthy `version`, and with neither spelling truthy it is `'V1'` |
| Schema.ResolveStorages | src/vue-storage/index.js:11 | a given definitions list is used even when empty; `storages` wins over `storage` |
| Schema.StorageMap | src/vue-storage/index.js:16-22 | the registry holds exactly the names some definition declares |
| Schema.StorageMapHoldsDefinitions | src/vue-storage/index.js:16-22 | each registry entry is a given definition, filed under its own name |
| Schema.Lookup | src/vue-storage/index.js:38 | a name finds a given definition of that name, and nothing iff no definition declares it |
| Schema.LookupLastWins | src/vue-storage/index.js:17-21 | a name resolves to the last definition that declares it |
| Schema.LookupDistinct | src/vue-storage/index.js:17-21 | without duplicate names every definition is the one its name resolves to |
| Schema.NormalizeKey | src/vue-storage/index.js:26 | an Array-typed definition without a truthy key gets the default key field; any other definition is unchanged |
| Schema.HasKey | src/vue-storage/index.js:26 | no ensures; models the truthiness of `storage.key` in `!storage.key`: present and not the empty string |
| Schema.KeyName | src/vue-storage/index.js:65-71 | no ensures; models the property name that `value[storage.key]` reads, with an absent key read as the property `"undefined"` (also at lines 99, 108, 111 and 124) |
| Values.FieldOf | src/vue-storage/index.js:65-66 | no ensures; models `value[name]` on a record, with a missing field read as undefined (also at line 108) |
| Values.Field | src/vue-storage/index.js:71 | no ensures; models `i[storage.key]` on a list element, with a non-record element read as undefined (also at lines 99, 111 and 124) |
| Values.Truthy | src/vue-storage/index.js:26 | a value is falsy iff it is undefined, null, false, 0 or the empty string |
| Engine.Installed | src/vue-storage/index.js:30-31 | no ensures; models init's default rule: a stored value that is falsy and not the default is replaced by the default, any other is kept |
| Engine.InitFrom | src/vue-storage/index.js:24-34 | the walk keeps the number of definitions, and it can only fail with set's type error in development mode |
| Storage.LocalStorage.Init | src/vue-storage/index.js:24-34 | the loop leaves the definitions, the entries and the outcome that walking the definitions in order gives, stopping at the first failing write |
| InitProperties.InitNormalizesKeys | src/vue-storage/index.js:25-26 | after a successful init every Array-typed definition that lacked a key has key `DE_KEY`, all others are as given |
| InitProperties.InitInstallsDefaults | src/vue-storage/index.js:25-33 | with distinct names: a definition whose stored value was falsy and not its default now holds its default; any other stored value, and every entry that is no definition's, is untouched |
| InitProperties.InitPassesOutsideDev | src/vue-storage/index.js:30-32 | outside development mode init never throws |
| InitProperties.InitPassesWithTypedDefaults | src/vue-storage/index.js:30-32 | in development mode init does not throw when names are distinct and every default has its definition's type |
| Engine.Versioned | src/vue-storage/index.js:36 | the literal key is the version tag, then `_`, then the logical key |
| Engine.VersionedInjective | src/vue-storage/index.js:36 | one version tag maps different logical keys to different literal keys |
| Engine.VersionsSeparate | src/vue-storage/index.js:36 | two version tags without `_` never address the same literal key |
| Engine.VersionsCanCollide | src/vue-storage/index.js:36 | with `_` inside a version tag, `V1`/`a_b` and `V1_a`/`b` share a literal key |
| Values.ConstructorOf | src/vue-storage/index.js:40 | null and undefined have no constructor; a value has constructor Array iff it is an array |
| Engine.IsTypeMatched | src/vue-storage/index.js:37-41 | an unregistered key accepts everything; a registered one never accepts null or undefined; a registered Array-typed key accepts exactly the arrays, any other registered key refuses every array; a key with no type accepts nothing |
| Engine.Set | src/vue-storage/index.js:44-50 | a failing set throws the type error and writes nothing; a passing one stores the value at `version_key`; no other literal entry changes |
| Storage.LocalStorage.Set | src/vue-storage/index.js:44-50 | outcome and new entries are those of `Engine.Set`: a type error in development mode on a mismatch, otherwise one write at `version_key` |
| Engine.SetFailsOnlyOnMismatch | src/vue-storage/index.js:45 | set throws iff in development mode and the type check fails, and then writes nothing |
| Engine.SetThenGet | src/vue-storage/index.js:44-52 | get after a successful set returns the value set |
| Engine.SetLeavesOtherKeys | src/vue-storage/index.js:44-52 | set leaves the value of every other logical key unchanged |
| Storage.BackingStore.constructor | src/vue-storage/index.js:47-55 | models `window.localStorage` as one shared object whose entries start as the given map |
| Engine.Get | src/vue-storage/index.js:52 | the value at `version_key`, or null when there is none |
| Storage.LocalStorage.Get | src/vue-storage/index.js:52 | reads only; returns the entry at `version_key`, or null when there is none |
| Engine.Remove | src/vue-storage/index.js:54-58 | the entry at `version_key` is gone and every other literal entry is as it was |
| Storage.LocalStorage.Remove | src/vue-storage/index.js:54-58 | the new entries are the old ones without `version_key` |
| Engine.RemoveThenGet | src/vue-storage/index.js:52-58 | after remove, get returns null; every other literal entry is kept |
| Engine.RemoveLeavesOtherKeys | src/vue-storage/index.js:54-58 | remove leaves the value of every other logical key unchanged |
| Engine.InsertItem | src/vue-storage/index.js:61-77 | a failure is NoStorageMatched, NoPrimaryKey, NotAList, ExistsAlready or set's WrongType; only `version_key` can change; every truthy field of the record is kept |
| Storage.LocalStorage.InsertItem | src/vue-storage/index.js:61-77 | outcome, record as mutated and new entries are those of `Engine.InsertItem` |
| CollectionProperties.UnknownStorageFails | src/vue-storage/index.js:62-64 | on an unregistered key, insertItem, updateItem, removeItem, getItem and clear fail with NoStorageMatched and write nothing |
| CollectionProperties.InsertWithoutPrimaryKey | src/vue-storage/index.js:65-68 | a record without a truthy key is refused with NoPrimaryKey under autoKey, and is otherwise given the fresh id under the key field |
| CollectionProperties.InsertKeepsGivenKey | src/vue-storage/index.js:65 | a record that has a truthy key is inserted unchanged |
| CollectionProperties.InsertDuplicateFails | src/vue-storage/index.js:70-73 | inserting a key some stored record has fails with ExistsAlready and leaves the store as it was |
| CollectionProperties.InsertAppends | src/vue-storage/index.js:65-76 | insert succeeds iff the record has or may get a key, no stored record has it and the type check passes; the new list is the old one with the record appended, one longer |
| CollectionProperties.InsertKeepsKeysUnique | src/vue-storage/index.js:70-76 | a successful insert into a list with unique keys leaves the keys unique |
| CollectionProperties.InsertThenGetItem | src/vue-storage/index.js:70-76 | after a successful insert, getItem by the record's key returns that record |
| CollectionProperties.InsertFailureWritesNothing | src/vue-storage/index.js:61-77 | a failing insertItem leaves the store as it was |
| Engine.InsertOrUpdate | src/vue-storage/index.js:79-88 | an error that escapes is one of update's: NoStorageMatched, KeyNotExisted, NotAList or WrongType; only `version_key` can change |
| Storage.LocalStorage.InsertOrUpdate | src/vue-storage/index.js:79-88 | outcome and new entries are those of `Engine.InsertOrUpdate`: a failed insert is followed by an update with the record as insert left it |
| CollectionProperties.InsertOrUpdateUpserts | src/vue-storage/index.js:79-88 | a keyed record is appended when its key is new and replaces the first match otherwise; the call succeeds |
| CollectionProperties.InsertOrUpdateWithoutKey | src/vue-storage/index.js:79-88 | under autoKey a keyless record fails with updateItem's KeyNotExisted, masking insert's NoPrimaryKey |
| CollectionProperties.InsertOrUpdateFailureWritesNothing | src/vue-storage/index.js:79-88 | a failing insertOrUpdate leaves the store as it was |
| Engine.RemoveItem | src/vue-storage/index.js:91-102 | a failure is NoStorageMatched, NotAList or set's WrongType; only `version_key` can change |
| Lists.KeysOf | src/vue-storage/index.js:97 | an array of removal keys is used as it is; any other value becomes a one-key list |
| Storage.LocalStorage.RemoveItem | src/vue-storage/index.js:91-102 | outcome and new entries are those of `Engine.RemoveItem`, with the filter as written |
| CollectionProperties.RemoveItemSingleKey | src/vue-storage/index.js:95-101 | with one scalar key the stored list is exactly the old list minus the records whose key equals it, in order |
| CollectionProperties.RemoveItemKeepsSubsequence | src/vue-storage/index.js:95-101 | for any removal keys the stored list is a subsequence of the old list, holding each record some removal key differs from as often as before and no other |
| CollectionProperties.RemoveItemKeepsKeysUnique | src/vue-storage/index.js:99-101 | removeItem keeps unique keys unique |
| CollectionProperties.RemoveAndClearFailureWriteNothing | src/vue-storage/index.js:91-133 | a failing removeItem or clear leaves the store as it was |
| Lists.SomeDiffers | src/vue-storage/index.js:99 | no ensures; models `removedKeys.some(v => v !== i[storage.key])`: some removal key differs from the record's key |
| Lists.KeptAsWritten | src/vue-storage/index.js:97-99 | the filtered list is a subsequence of the list; a record is in it iff some removal key differs from its key |
| Lists.KeptAsWrittenCounts | src/vue-storage/index.js:97-99 | a record some removal key differs from occurs as often as in the list, any other record not at all |
| Lists.SingleKeyReadingsAgree | src/vue-storage/index.js:97-99 | with one key, the source's filter and the intended one both drop exactly the records carrying it |
| Lists.TwoDifferentKeysRemoveNothing | src/vue-storage/index.js:99 | with two different removal keys the source's filter keeps every record |
| Lists.NoKeysRemoveEverything | src/vue-storage/index.js:99 | with an empty list of removal keys the source's filter drops every record |
| Lists.RemovingTwoIdsExample | src/vue-storage/index.js:99 | removing ids `a` and `b` from the records with those ids keeps both; the intended filter keeps none |
| Lists.KeptUnlisted | src/vue-storage/index.js:99 | the intended filter: a subsequence holding exactly the records whose key is not a removal key |
| Lists.KeptUnlistedCounts | src/vue-storage/index.js:99 | under the intended filter a record whose key is not listed occurs as often as in the list, any other not at all |
| Engine.RemoveItemIntended | src/vue-storage/index.js:91-102 | the corrected removeItem fails only as removeItem does, and only `version_key` can change |
| CollectionProperties.RemoveItemIntendedDropsListed | src/vue-storage/index.js:91-102 | the intended removeItem stores a subsequence holding each record whose key is not listed as often as before and no other, and it equals the source's removeItem for one scalar key |
| Lists.Filter | src/vue-storage/index.js:99 | the result is a subsequence of the input, no longer than it, and holds an element iff the input does and the element satisfies the predicate |
| Lists.FilterCounts | src/vue-storage/index.js:99 | filter keeps each element satisfying the predicate as often as it occurs, and drops the others |
| Lists.FilterKeepsKeysUnique | src/vue-storage/index.js:99 | filtering keeps primary keys unique |
| Engine.UpdateItem | src/vue-storage/index.js:104-116 | a failure is NoStorageMatched, KeyNotExisted, NotAList or set's WrongType; only `version_key` can change |
| Storage.LocalStorage.UpdateItem | src/vue-storage/index.js:104-116 | outcome and new entries are those of `Engine.UpdateItem` |
| CollectionProperties.UpdateWithoutPrimaryKey | src/vue-storage/index.js:108 | a record without a truthy key fails with KeyNotExisted, without writing |
| CollectionProperties.UpdateWithoutMatch | src/vue-storage/index.js:110-115 | when no stored record has the key, update succeeds and writes nothing |
| CollectionProperties.UpdateReplacesFirstMatch | src/vue-storage/index.js:110-115 | the first match is replaced by the record; length and every other position are preserved |
| CollectionProperties.UpdateKeepsKeysUnique | src/vue-storage/index.js:111-115 | a successful update keeps unique keys unique |
| CollectionProperties.UpdateFailureWritesNothing | src/vue-storage/index.js:104-116 | a failing updateItem leaves the store as it was |
| Lists.FirstIndex | src/vue-storage/index.js:71 | findIndex returns the first index whose record has the key, and none iff no record has it |
| Engine.GetItem | src/vue-storage/index.js:118-125 | a failure is NoStorageMatched or NotAList; a record it returns is a stored one whose key field is the target |
| Storage.LocalStorage.GetItem | src/vue-storage/index.js:118-125 | reads only; the result is that of `Engine.GetItem` |
| CollectionProperties.GetItemFindsFirst | src/vue-storage/index.js:122-124 | on a stored list, getItem returns the first record whose key equals the target, and nothing iff no record has it |
| Engine.Clear | src/vue-storage/index.js:127-133 | a failure is NoStorageMatched; only `version_key` can change |
| Storage.LocalStorage.Clear | src/vue-storage/index.js:127-133 | outcome and new entries are those of `Engine.Clear` |
| CollectionProperties.ClearNeedsCollection | src/vue-storage/index.js:130 | clear of a key that is not Array-typed fails with NoStorageMatched, without writing |
| CollectionProperties.ClearEmpties | src/vue-storage/index.js:130-132 | clear of an Array-typed key succeeds and leaves the empty list |
| CollectionProperties.UsersScenario | src/vue-storage/index.js:61-124 | a keyless insert into `users` gets the id; getItem finds the record; a second insert with that id fails; removeItem by the id leaves `[]` |
| Storage.LocalStorage.Insert | src/vue-storage/index.js:135 | behaves as set |
| Storage.LocalStorage.Delete | src/vue-storage/index.js:136 | behaves as remove |
| Storage.LocalStorage.Update | src/vue-storage/index.js:137 | behaves as set, through insert |
| Storage.LocalStorage.Query | src/vue-storage/index.js:138 | behaves as get |
| Storage.LocalStorage.QueryItem | src/vue-storage/index.js:140 | behaves as getItem |

## Findings

| source | as written | input that shows it | evidently intended | confidence | as-written member | corrected member |
|---|---|---|---|---|---|---|
| src/vue-storage/index.js:99 | a record is kept when some removal key differs from its key | `removeItem('users', ['a', 'b'])` on `[{id:'a'}, {id:'b'}]` stores both records again; `removeItem('users', [])` empties the list | drop exactly the records whose key is one of the removal keys | high (not executed) | Lists.TwoDifferentKeysRemoveNothing | Lists.KeptUnlisted |

On one scalar key the two readings agree (`Lists.SingleKeyReadingsAgree`).
So `Storage.LocalStorage.RemoveItem` keeps the source's filter, and
`Engine.RemoveItemIntended` is the corrected operation
(`CollectionProperties.RemoveItemIntendedDropsListed`).

## Left out

- `install` and the Vue mixin (lines 143-160): they pass the engine down a
  component tree, and that is framework plumbing.
- `DB_NAME` (line 8): it is never read.
- The real `window.localStorage` and the codec in `./utils`, which is not
  part of this model. The store is the map `BackingStore.entries`; the codec
  is the identity; a missing entry reads as null. Storage quotas and
  serialisation failures are not modelled.
- `uuid/v1`: ids come from time and randomness. The id is the `freshId`
  parameter, and nothing makes it unique; the duplicate check after it is
  modelled.
- `isDev`: line 4 compares the `process.env` object with a string. That
  comparison is false in a standard environment, so strict mode would never
  be on. The model keeps the flag as a parameter so that both modes are
  covered.
- Constructor identity: `value.constructor === storage.type` is compared on
  the tags of `ValueType`; custom classes are not modelled.
- The null-or-undefined case of `isTypeMatched`: for a registered key the
  source throws a TypeError while reading `.constructor`, instead of
  returning false. The model returns no match. Either way `set` throws a
  type error and writes nothing.
- Numbers are integers. NaN, -0 and fractions are not modelled.
- An object or array used as a primary key is compared by structure, while
  `===` compares references.
- A null or undefined element of a stored list: reading its key field throws
  a TypeError in the source. In the model the field reads as undefined.
- Built-in properties: the `length` or indices of strings and arrays read
  through `item[key]` are not modelled.
- Inherited names for the `storageMap` object: a logical key such as
  `toString` or `constructor` finds an inherited member in the source. In the
  model it is unregistered.
- Values passed to `insertItem`/`updateItem` are records. The source's
  behaviour for primitives and arrays there (property writes on primitives)
  is not modelled.
- Aliasing: the source mutates the caller's record in insertItem and the
  caller's definition objects in init. Here, the mutated record is returned,
  and the normalised definitions live in the engine's `storages` field.
- The state between the constructor and `init`: the Dafny constructor
  returns an engine that has not run `Init`, a state the source never
  exposes because its constructor calls `init` at line 13. Only `Create`
  stands for `new LocalStorage(options)`.
- Concurrency: lost updates between tabs or processes are not modelled; the
  engine is single-threaded.
- InitProperties.InitInstallsDefaults: stated for definitions with distinct
  names. With duplicate names a later definition sees the default an earlier
  one wrote; `Storage.LocalStorage.Init` still follows the source exactly in
  that case.
