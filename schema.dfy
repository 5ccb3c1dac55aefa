/**
 * Storage definitions, the registry lookup built from them, and the
 * construction options of the engine.
 */
module Schema {
  import opened Wrappers
  import opened Values

  /**
   * One storage definition: the logical key `store`, the constructor its
   * values must have, the primary-key field of a collection (absent when not
   * given), whether records must arrive already keyed, and the default.
   */
  datatype Definition = Definition(
    store: string,
    valueType: ValueType,
    key: Option<string>,
    autoKey: bool,
    defaultValue: Value)

  /** `storage.key` is truthy: present and not the empty string. */
  predicate HasKey(d: Definition)
  {
    d.key.Some? && d.key.value != ""
  }

  /** The property name `value[storage.key]` reads; an absent key is coerced to "undefined". */
  function KeyName(d: Definition): string
  {
    match d.key
    case Some(k) => k
    case None => "undefined"
  }

  /** A collection definition without a key gets the engine's default key field. */
  function NormalizeKey(d: Definition, deKey: string): (r: Definition)
    ensures r.store == d.store && r.valueType == d.valueType
    ensures r.autoKey == d.autoKey && r.defaultValue == d.defaultValue
    ensures d.valueType == ArrayType && !HasKey(d) ==> r.key == Some(deKey)
    ensures !(d.valueType == ArrayType && !HasKey(d)) ==> r == d
  {
    if d.valueType == ArrayType && !HasKey(d) then d.(key := Some(deKey)) else d
  }

  /**
   * The registry: definitions folded into a map from logical key to
   * definition, each one overwriting any earlier one of the same name.
   */
  function StorageMap(defs: seq<Definition>): (m: map<string, Definition>)
    ensures forall name :: name in m <==> exists i :: 0 <= i < |defs| && defs[i].store == name
  {
    if defs == [] then map[]
    else
      var last := defs[|defs| - 1];
      StorageMap(defs[..|defs| - 1])[last.store := last]
  }

  /** Every definition in the registry is filed under its own name and is one of the given ones. */
  lemma {:induction false} StorageMapHoldsDefinitions(defs: seq<Definition>, name: string)
    requires name in StorageMap(defs)
    ensures StorageMap(defs)[name].store == name && StorageMap(defs)[name] in defs
    decreases |defs|
  {
    var n := |defs| - 1;
    var front := defs[..n];
    if name != defs[n].store {
      StorageMapHoldsDefinitions(front, name);
      assert StorageMap(defs)[name] == StorageMap(front)[name];
      assert forall x :: x in front ==> x in defs;
    }
  }

  /** `storageMap[key]`, absent when no definition has that name. */
  function Lookup(defs: seq<Definition>, name: string): (r: Option<Definition>)
    ensures r.Some? ==> r.value.store == name && r.value in defs
    ensures r.None? <==> forall i :: 0 <= i < |defs| ==> defs[i].store != name
  {
    var m := StorageMap(defs);
    if name in m then StorageMapHoldsDefinitions(defs, name); Some(m[name]) else None
  }

  /** The definition at index i is the last one with its name. */
  predicate IsLastOfItsName(defs: seq<Definition>, i: int)
    requires 0 <= i < |defs|
  {
    forall j :: i < j < |defs| ==> defs[j].store != defs[i].store
  }

  /** Duplicate names resolve to the last definition: the last one wins. */
  lemma {:induction false} LookupLastWins(defs: seq<Definition>, i: int)
    requires 0 <= i < |defs| && IsLastOfItsName(defs, i)
    ensures Lookup(defs, defs[i].store) == Some(defs[i])
    decreases |defs|
  {
    var n := |defs| - 1;
    if i < n {
      var front := defs[..n];
      assert front[i] == defs[i];
      assert IsLastOfItsName(front, i) by {
        forall j | i < j < |front| ensures front[j].store != front[i].store {
          assert front[j] == defs[j];
        }
      }
      LookupLastWins(front, i);
      assert defs[n].store != defs[i].store;
    }
  }

  /** No two definitions share a logical key. */
  predicate DistinctStores(defs: seq<Definition>)
  {
    forall i, j :: 0 <= i < j < |defs| ==> defs[i].store != defs[j].store
  }

  /** Without duplicates, every definition is the one its name looks up. */
  lemma LookupDistinct(defs: seq<Definition>, i: int)
    requires 0 <= i < |defs| && DistinctStores(defs)
    ensures Lookup(defs, defs[i].store) == Some(defs[i])
  {
    LookupLastWins(defs, i);
  }

  /**
   * Construction options. Every option may be absent; `VERSION` and
   * `version` are two spellings of the version tag, `storages` and `storage`
   * two spellings of the definitions.
   */
  datatype Options = Options(
    deKey: Option<string>,
    versionUpper: Option<string>,
    versionLower: Option<string>,
    storages: Option<seq<Definition>>,
    storage: Option<seq<Definition>>)

  /** JavaScript `a || fallback` for an optional string. */
  function OrElse(a: Option<string>, fallback: string): (r: string)
    ensures a.Some? && a.value != "" ==> r == a.value
    ensures a.None? || a.value == "" ==> r == fallback
  {
    if a.Some? && a.value != "" then a.value else fallback
  }

  /** `options.DE_KEY || 'id'`: never empty. */
  function ResolveDeKey(o: Options): (r: string)
    ensures r != ""
    ensures o.deKey.Some? && o.deKey.value != "" ==> r == o.deKey.value
    ensures r == "id" <==> o.deKey.None? || o.deKey.value in {"", "id"}
  {
    OrElse(o.deKey, "id")
  }

  /** `options.VERSION || options.version || 'V1'`: never empty, upper-case spelling preferred. */
  function ResolveVersion(o: Options): (r: string)
    ensures r != ""
    ensures o.versionUpper.Some? && o.versionUpper.value != "" ==> r == o.versionUpper.value
    ensures (o.versionUpper.None? || o.versionUpper.value == "") && o.versionLower.Some? && o.versionLower.value != "" ==>
              r == o.versionLower.value
    ensures (o.versionUpper.None? || o.versionUpper.value == "") && (o.versionLower.None? || o.versionLower.value == "") ==> r == "V1"
  {
    OrElse(o.versionUpper, OrElse(o.versionLower, "V1"))
  }

  /** `options.storages || options.storage || []`: any given list, even empty, is truthy. */
  function ResolveStorages(o: Options): (r: seq<Definition>)
    ensures o.storages.Some? ==> r == o.storages.value
    ensures o.storages.None? && o.storage.Some? ==> r == o.storage.value
    ensures o.storages.None? && o.storage.None? ==> r == []
  {
    match o.storages
    case Some(s) => s
    case None =>
      match o.storage
      case Some(s) => s
      case None => []
  }
}
