/**
 * What construction guarantees: every collection definition gets a key
 * field, every definition whose stored value was falsy and not its default
 * now holds the default, and every other entry is untouched.
 */
module InitProperties {
  import opened Wrappers
  import opened Values
  import opened Schema
  import opened Engine

  /** The literal key is not the entry of any definition from i on. */
  predicate NotStoredFrom(c: Config, i: nat, literal: string)
    requires i <= |c.storages|
  {
    forall j :: i <= j < |c.storages| ==> literal != Versioned(c.version, c.storages[j].store)
  }

  /** Normalising one definition keeps every name, type and default. */
  lemma NormalizedKeepsShape(c: Config, i: nat)
    requires i < |c.storages|
    ensures var c' := Normalized(c, i);
            && c'.version == c.version && c'.isDev == c.isDev && |c'.storages| == |c.storages|
            && forall j :: 0 <= j < |c.storages| ==>
                 && c'.storages[j].store == c.storages[j].store
                 && c'.storages[j].defaultValue == c.storages[j].defaultValue
                 && c'.storages[j].valueType == c.storages[j].valueType
  {
  }

  /** Walking from i normalises the keys of definitions i.. and leaves earlier ones alone. */
  lemma {:induction false} InitFromNormalizes(c: Config, e: Entries, i: nat)
    requires i <= |c.storages|
    ensures var s := InitFrom(c, e, i);
            && |s.storages| == |c.storages|
            && (forall j :: 0 <= j < i ==> s.storages[j] == c.storages[j])
            && (s.outcome.Pass? ==> forall j :: i <= j < |c.storages| ==> s.storages[j] == NormalizeKey(c.storages[j], c.deKey))
    decreases |c.storages| - i
  {
    if i < |c.storages| {
      var c' := Normalized(c, i);
      var d := c'.storages[i];
      var current := Get(c', e, d.store);
      var writes := Installed(current, d.defaultValue) != current;
      var e' := if writes then Set(c', e, d.store, d.defaultValue).entries else e;
      if !(writes && Set(c', e, d.store, d.defaultValue).outcome.Fail?) {
        InitFromNormalizes(c', e', i + 1);
        assert NormalizeKey(c'.storages[i], c.deKey) == c'.storages[i];
      }
    }
  }

  /**
   * One step of init writes at most the entry of definition i, so the
   * entries of later definitions and of no definition read as before.
   */
  lemma StepFrame(c: Config, e: Entries, e': Entries, i: nat)
    requires i < |c.storages| && DistinctStores(c.storages)
    requires OnlyAt(e, e', Versioned(c.version, c.storages[i].store))
    ensures forall j :: i < j < |c.storages| ==> Get(c, e', c.storages[j].store) == Get(c, e, c.storages[j].store)
    ensures forall literal :: NotStoredFrom(c, i, literal) ==>
              (literal in e' <==> literal in e) && (literal in e ==> e'[literal] == e[literal])
  {
    forall j | i < j < |c.storages|
      ensures Get(c, e', c.storages[j].store) == Get(c, e, c.storages[j].store)
    {
      VersionedInjective(c.version, c.storages[i].store, c.storages[j].store);
    }
  }

  /** Walking from i installs defaults under definitions i.. and touches no other entry. */
  lemma {:induction false} InitFromInstalls(c: Config, e: Entries, i: nat)
    requires i <= |c.storages| && DistinctStores(c.storages)
    ensures var s := InitFrom(c, e, i);
            s.outcome.Pass? ==>
              && (forall j :: i <= j < |c.storages| ==>
                    Get(c, s.entries, c.storages[j].store) ==
                    Installed(Get(c, e, c.storages[j].store), c.storages[j].defaultValue))
              && (forall literal :: NotStoredFrom(c, i, literal) ==>
                    (literal in s.entries <==> literal in e) && (literal in e ==> s.entries[literal] == e[literal]))
    decreases |c.storages| - i
  {
    if i < |c.storages| {
      var c' := Normalized(c, i);
      var d := c'.storages[i];
      var current := Get(c', e, d.store);
      var writes := Installed(current, d.defaultValue) != current;
      var e' := if writes then Set(c', e, d.store, d.defaultValue).entries else e;
      if !(writes && Set(c', e, d.store, d.defaultValue).outcome.Fail?) {
        NormalizedKeepsShape(c, i);
        assert DistinctStores(c'.storages);
        InitFromInstalls(c', e', i + 1);
        assert InitFrom(c', e', i + 1) == InitFrom(c, e, i);
        StepFrame(c', e, e', i);
        assert Get(c, e', d.store) == Installed(current, d.defaultValue);
        var vk := Versioned(c.version, d.store);
        assert NotStoredFrom(c', i + 1, vk) by {
          forall j | i + 1 <= j < |c.storages| ensures vk != Versioned(c.version, c'.storages[j].store) {
            VersionedInjective(c.version, d.store, c'.storages[j].store);
          }
        }
      }
    }
  }

  /** Outside development mode init never throws. */
  lemma {:induction false} InitPassesOutsideDev(c: Config, e: Entries, i: nat)
    requires i <= |c.storages| && !c.isDev
    ensures InitFrom(c, e, i).outcome == Pass
    decreases |c.storages| - i
  {
    if i < |c.storages| {
      var c' := Normalized(c, i);
      var d := c'.storages[i];
      InitPassesOutsideDev(c', Set(c', e, d.store, d.defaultValue).entries, i + 1);
      InitPassesOutsideDev(c', e, i + 1);
    }
  }

  /** Every definition's default is of its declared type. */
  predicate DefaultsWellTyped(defs: seq<Definition>)
  {
    forall j :: 0 <= j < |defs| ==> ConstructorOf(defs[j].defaultValue) == Some(defs[j].valueType)
  }

  /** In development mode init does not throw when names are distinct and defaults well typed. */
  lemma {:induction false} InitPassesWithTypedDefaults(c: Config, e: Entries, i: nat)
    requires i <= |c.storages| && DistinctStores(c.storages) && DefaultsWellTyped(c.storages)
    ensures InitFrom(c, e, i).outcome == Pass
    decreases |c.storages| - i
  {
    if i < |c.storages| {
      var c' := Normalized(c, i);
      var d := c'.storages[i];
      NormalizedKeepsShape(c, i);
      assert DistinctStores(c'.storages);
      assert DefaultsWellTyped(c'.storages);
      LookupDistinct(c'.storages, i);
      var written := Set(c', e, d.store, d.defaultValue);
      assert written.outcome == Pass;
      InitPassesWithTypedDefaults(c', written.entries, i + 1);
      InitPassesWithTypedDefaults(c', e, i + 1);
    }
  }

  /** After a successful init every Array-typed definition without a key has the default key field. */
  lemma InitNormalizesKeys(c: Config, e: Entries)
    ensures var s := InitFrom(c, e, 0);
            s.outcome.Pass? ==>
              && |s.storages| == |c.storages|
              && forall j :: 0 <= j < |c.storages| ==>
                   var d := c.storages[j];
                   s.storages[j] == if d.valueType == ArrayType && !HasKey(d) then d.(key := Some(c.deKey)) else d
  {
    InitFromNormalizes(c, e, 0);
  }

  /**
   * After a successful init, with distinct names: each definition whose
   * stored value was falsy and not its default holds the default, every
   * other stored value is as it was, and no other entry changed.
   */
  lemma InitInstallsDefaults(c: Config, e: Entries)
    requires DistinctStores(c.storages)
    ensures var s := InitFrom(c, e, 0);
            s.outcome.Pass? ==>
              && (forall j :: 0 <= j < |c.storages| ==>
                    var d := c.storages[j];
                    Get(c, s.entries, d.store) == Installed(Get(c, e, d.store), d.defaultValue))
              && (forall literal :: NotStoredFrom(c, 0, literal) ==>
                    (literal in s.entries <==> literal in e) && (literal in e ==> s.entries[literal] == e[literal]))
  {
    InitFromInstalls(c, e, 0);
  }
}
