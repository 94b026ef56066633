/**
 * Review request fieldsets and the registries of fieldsets and fields
 * (reviewboard/reviews/fields.py). A field class is identified by its field ID.
 */
module FieldSets {
  import opened Wrappers

  /** What a registry operation raises. */
  datatype RegistryError =
    | AlreadyRegistered(id: string)   // djblets AlreadyRegisteredError
    | NotRegistered(id: string)       // djblets ItemLookupError
    | NotInList(id: string)           // ValueError from list.remove
    | NotIterable(id: string)         // TypeError from iterating a None field list

  const ChangeEntriesOnlyId := "_change_entries_only"

  /** `list.remove(x)`: drops the first occurrence of `x`. */
  function RemoveFirst(list: seq<string>, x: string): (r: seq<string>)
    requires x in list
    ensures |r| == |list| - 1
    ensures multiset(r) == multiset(list) - multiset{x}
    ensures list[0] == x ==> r == list[1..]
  {
    assert list == [list[0]] + list[1..];
    if list[0] == x then list[1..]
    else [list[0]] + RemoveFirst(list[1..], x)
  }

  /** The registry of every field, keyed by field ID (`field_registry`). */
  class FieldRegistry {
    var fieldIds: set<string>

    constructor ()
      ensures fieldIds == {}
    {
      fieldIds := {};
    }

    method Register(fieldId: string) returns (result: Result<(), RegistryError>)
      modifies this
      ensures result.Failure? <==> fieldId in old(fieldIds)
      ensures result.Failure? ==> result.error == AlreadyRegistered(fieldId) && fieldIds == old(fieldIds)
      ensures result.Success? ==> fieldIds == old(fieldIds) + {fieldId}
    {
      if fieldId in fieldIds {
        return Failure(AlreadyRegistered(fieldId));
      }
      fieldIds := fieldIds + {fieldId};
      result := Success(());
    }

    method Unregister(fieldId: string) returns (result: Result<(), RegistryError>)
      modifies this
      ensures result.Failure? <==> fieldId !in old(fieldIds)
      ensures result.Failure? ==> result.error == NotRegistered(fieldId) && fieldIds == old(fieldIds)
      ensures result.Success? ==> fieldIds == old(fieldIds) - {fieldId}
    {
      if fieldId !in fieldIds {
        return Failure(NotRegistered(fieldId));
      }
      fieldIds := fieldIds - {fieldId};
      result := Success(());
    }
  }

  /** A fieldset: its ID and its list of field classes, which starts out unset. */
  class FieldSet {
    const fieldsetId: string
    var fieldClasses: Option<seq<string>>

    constructor (fieldsetId: string, fieldClasses: Option<seq<string>>)
      ensures this.fieldsetId == fieldsetId && this.fieldClasses == fieldClasses
    {
      this.fieldsetId := fieldsetId;
      this.fieldClasses := fieldClasses;
    }

    /** An empty fieldset has no field classes (or none set) and is not shown. */
    predicate IsEmpty()
      reads this
    {
      fieldClasses.None? || fieldClasses.value == []
    }

    /**
     * `add_field`: an unset list becomes empty first, then the field is registered and,
     * if that succeeded, appended.
     */
    method AddField(fieldId: string, registry: FieldRegistry) returns (result: Result<(), RegistryError>)
      modifies this, registry
      ensures result.Failure? <==> fieldId in old(registry.fieldIds)
      ensures result.Failure? ==> fieldClasses == Some(old(fieldClasses).GetOr([])) && registry.fieldIds == old(registry.fieldIds)
      ensures result.Success? ==>
        fieldClasses == Some(old(fieldClasses).GetOr([]) + [fieldId]) &&
        registry.fieldIds == old(registry.fieldIds) + {fieldId}
      ensures result.Success? ==> !IsEmpty()
    {
      if fieldClasses.None? {
        fieldClasses := Some([]);
      }
      result := registry.Register(fieldId);
      if result.Failure? {
        return;
      }
      fieldClasses := Some(fieldClasses.value + [fieldId]);
    }

    /**
     * `remove_field`: removes the field from the list (a ValueError if it is not there),
     * then unregisters it, re-raising when it was not registered.
     */
    method RemoveField(fieldId: string, registry: FieldRegistry) returns (result: Result<(), RegistryError>)
      modifies this, registry
      ensures old(fieldClasses).Some? && fieldId !in old(fieldClasses).value ==>
        result == Failure(NotInList(fieldId)) && fieldClasses == old(fieldClasses) && registry.fieldIds == old(registry.fieldIds)
      ensures !(old(fieldClasses).Some? && fieldId !in old(fieldClasses).value) ==>
        fieldClasses == (if old(fieldClasses).Some? then Some(RemoveFirst(old(fieldClasses).value, fieldId)) else None) &&
        (result.Success? <==> fieldId in old(registry.fieldIds)) &&
        (result.Failure? ==> result.error == NotRegistered(fieldId)) &&
        registry.fieldIds == old(registry.fieldIds) - {fieldId}
    {
      if fieldClasses.Some? {
        if fieldId !in fieldClasses.value {
          return Failure(NotInList(fieldId));
        }
        fieldClasses := Some(RemoveFirst(fieldClasses.value, fieldId));
      }
      result := registry.Unregister(fieldId);
    }
  }

  /** Fieldset IDs are unique in a registry. */
  predicate UniqueFieldsetIds(fieldsets: seq<FieldSet>) {
    forall i, j :: 0 <= i < j < |fieldsets| ==> fieldsets[i].fieldsetId != fieldsets[j].fieldsetId
  }

  /** Whether any registered fieldset has this ID. */
  predicate HasFieldsetId(fieldsets: seq<FieldSet>, id: string) {
    exists k :: 0 <= k < |fieldsets| && fieldsets[k].fieldsetId == id
  }

  /** A list of field IDs with no repeats and none already registered. */
  predicate FreshFields(fields: seq<string>, registered: set<string>) {
    (forall k :: 0 <= k < |fields| ==> fields[k] !in registered) &&
    (forall i, j :: 0 <= i < j < |fields| ==> fields[i] != fields[j])
  }

  /** The field list an as-written unregistration leaves behind (see `UnregisterAsWritten`). */
  function RemainingAsWritten(list: seq<string>, idx: nat): seq<string>
    decreases |list| - idx
  {
    if idx >= |list| then list else RemainingAsWritten(RemoveFirst(list, list[idx]), idx + 1)
  }

  /** The fields an as-written unregistration visits and unregisters. */
  function VisitedAsWritten(list: seq<string>, idx: nat): set<string>
    decreases |list| - idx
  {
    if idx >= |list| then {} else {list[idx]} + VisitedAsWritten(RemoveFirst(list, list[idx]), idx + 1)
  }

  /**
   * The ordered registry of fieldsets (`fieldset_registry`). It starts empty and not yet
   * populated; `Populate` registers the built-in fieldsets.
   */
  class FieldSetRegistry {
    var fieldsets: seq<FieldSet>
    var populated: bool

    constructor ()
      ensures fieldsets == [] && !populated
    {
      fieldsets := [];
      populated := false;
    }

    /**
     * `populate`: the first call marks the registry populated, then registers the default
     * fieldsets (`get_defaults`). Later calls do nothing.
     */
    method Populate(defaults: seq<FieldSet>, fieldRegistry: FieldRegistry) returns (result: Result<(), RegistryError>)
      modifies this, fieldRegistry, set k | 0 <= k < |defaults| :: defaults[k]
      ensures populated
      ensures old(populated) ==>
        result == Success(()) && fieldsets == old(fieldsets) && fieldRegistry.fieldIds == old(fieldRegistry.fieldIds)
      ensures !old(populated) ==>
        (result.Success? <==> old(DefaultsFit(defaults, FieldLists(defaults), fieldsets, fieldRegistry.fieldIds)))
      ensures !old(populated) && result.Success? ==>
        fieldsets == old(fieldsets) + defaults &&
        fieldRegistry.fieldIds == old(fieldRegistry.fieldIds) + set f | f in Concat(old(FieldLists(defaults)))
      ensures !old(populated) && result.Failure? ==> RegisteredPrefix(old(fieldsets), fieldsets, defaults)
    {
      if populated {
        return Success(());
      }
      populated := true;
      result := RegisterDefaults(defaults, fieldRegistry);
    }

    /**
     * The loop of `populate`: each default fieldset is registered in order through
     * `Register`, and the first error stops it.
     */
    method RegisterDefaults(defaults: seq<FieldSet>, fieldRegistry: FieldRegistry) returns (result: Result<(), RegistryError>)
      modifies this, fieldRegistry, set k | 0 <= k < |defaults| :: defaults[k]
      ensures populated == old(populated)
      ensures result.Success? <==> old(DefaultsFit(defaults, FieldLists(defaults), fieldsets, fieldRegistry.fieldIds))
      ensures result.Success? ==>
        fieldsets == old(fieldsets) + defaults &&
        fieldRegistry.fieldIds == old(fieldRegistry.fieldIds) + set f | f in Concat(old(FieldLists(defaults)))
      // The defaults registered before the failure stay registered.
      ensures result.Failure? ==> RegisteredPrefix(old(fieldsets), fieldsets, defaults)
    {
      ghost var lists := FieldLists(defaults);
      var i := 0;
      while i < |defaults|
        invariant 0 <= i <= |defaults|
        invariant populated == old(populated)
        invariant lists == old(FieldLists(defaults)) && |lists| == |defaults|
        invariant fieldsets == old(fieldsets) + defaults[..i]
        invariant forall k :: 0 <= k < |defaults| ==> defaults[k].fieldClasses.GetOr([]) == lists[k]
        invariant DefaultsFit(defaults[..i], lists[..i], old(fieldsets), old(fieldRegistry.fieldIds))
        invariant fieldRegistry.fieldIds == old(fieldRegistry.fieldIds) + set f | f in Concat(lists[..i])
      {
        var r := Register(defaults[i], fieldRegistry);
        if r.Failure? {
          RegisteredPrefixOf(old(fieldsets), defaults, i);
          DefaultRefused(defaults, lists, old(fieldsets), old(fieldRegistry.fieldIds), i);
          return r;
        }
        DefaultAccepted(defaults, lists, old(fieldsets), old(fieldRegistry.fieldIds), i);
        i := i + 1;
      }
      assert defaults[..i] == defaults && lists[..i] == lists;
      result := Success(());
    }

    /**
     * `register`: adds the fieldset (its ID must be new), turns an unset field list into
     * an empty one, then registers each field in order, stopping at the first failure.
     */
    method Register(fieldset: FieldSet, fieldRegistry: FieldRegistry) returns (result: Result<(), RegistryError>)
      modifies this, fieldset, fieldRegistry
      ensures populated == old(populated)
      ensures HasFieldsetId(old(fieldsets), fieldset.fieldsetId) ==>
        result == Failure(AlreadyRegistered(fieldset.fieldsetId)) && fieldsets == old(fieldsets) &&
        fieldset.fieldClasses == old(fieldset.fieldClasses) && fieldRegistry.fieldIds == old(fieldRegistry.fieldIds)
      ensures !HasFieldsetId(old(fieldsets), fieldset.fieldsetId) ==>
        fieldsets == old(fieldsets) + [fieldset] &&
        fieldset.fieldClasses == Some(old(fieldset.fieldClasses).GetOr([])) &&
        (result.Success? <==> FreshFields(old(fieldset.fieldClasses).GetOr([]), old(fieldRegistry.fieldIds)))
      ensures result.Success? ==>
        fieldRegistry.fieldIds == old(fieldRegistry.fieldIds) + set f | f in old(fieldset.fieldClasses).GetOr([])
      // A field that fails to register stops the loop; the fields before it stay registered.
      ensures result.Failure? && !HasFieldsetId(old(fieldsets), fieldset.fieldsetId) ==>
        var fields := old(fieldset.fieldClasses).GetOr([]);
        exists i :: 0 <= i < |fields| && FreshFields(fields[..i], old(fieldRegistry.fieldIds)) &&
          (fields[i] in old(fieldRegistry.fieldIds) || fields[i] in fields[..i]) &&
          result == Failure(AlreadyRegistered(fields[i])) &&
          fieldRegistry.fieldIds == old(fieldRegistry.fieldIds) + set f | f in fields[..i]
    {
      if HasFieldsetId(fieldsets, fieldset.fieldsetId) {
        return Failure(AlreadyRegistered(fieldset.fieldsetId));
      }
      fieldsets := fieldsets + [fieldset];
      if fieldset.fieldClasses.None? {
        fieldset.fieldClasses := Some([]);
      }
      var fields := fieldset.fieldClasses.value;
      var i := 0;
      while i < |fields|
        invariant 0 <= i <= |fields|
        invariant fieldset.fieldClasses == Some(fields) && fieldsets == old(fieldsets) + [fieldset]
        invariant populated == old(populated)
        invariant FreshFields(fields[..i], old(fieldRegistry.fieldIds))
        invariant fieldRegistry.fieldIds == old(fieldRegistry.fieldIds) + set f | f in fields[..i]
      {
        ghost var registeredBefore := fieldRegistry.fieldIds;
        var r := fieldRegistry.Register(fields[i]);
        if r.Failure? {
          assert fields[i] in old(fieldRegistry.fieldIds) || fields[i] in fields[..i] by {
            if fields[i] !in old(fieldRegistry.fieldIds) {
              var j :| 0 <= j < i && fields[..i][j] == fields[i];
            }
          }
          assert !FreshFields(fields, old(fieldRegistry.fieldIds)) by {
            if fields[i] !in old(fieldRegistry.fieldIds) {
              var j :| 0 <= j < i && fields[..i][j] == fields[i];
            }
          }
          assert fieldRegistry.fieldIds == registeredBefore;
          return r;
        }
        assert fields[..i + 1] == fields[..i] + [fields[i]];
        i := i + 1;
      }
      assert fields[..i] == fields;
      result := Success(());
    }

    /**
     * `unregister` as written: it removes the fields from the very list it iterates over,
     * so the iterator skips the field after each removed one.
     */
    method UnregisterAsWritten(fieldset: FieldSet, fieldRegistry: FieldRegistry) returns (result: Result<(), RegistryError>)
      modifies this, fieldset, fieldRegistry
      ensures !(fieldset in old(fieldsets)) ==>
        (result == Failure(NotRegistered(fieldset.fieldsetId)) &&
         fieldsets == old(fieldsets) && fieldset.fieldClasses == old(fieldset.fieldClasses) &&
         fieldRegistry.fieldIds == old(fieldRegistry.fieldIds))
      ensures fieldset in old(fieldsets) ==> fieldsets == RemoveFieldSet(old(fieldsets), fieldset)
      ensures result.Success? ==> (old(fieldset.fieldClasses).Some? &&
        fieldset.fieldClasses == Some(RemainingAsWritten(old(fieldset.fieldClasses).value, 0)) &&
        fieldRegistry.fieldIds == old(fieldRegistry.fieldIds) - VisitedAsWritten(old(fieldset.fieldClasses).value, 0))
    {
      if fieldset !in fieldsets {
        return Failure(NotRegistered(fieldset.fieldsetId));
      }
      fieldsets := RemoveFieldSet(fieldsets, fieldset);
      if fieldset.fieldClasses.None? {
        return Failure(NotIterable(fieldset.fieldsetId));
      }
      result := RemoveFieldsAsWritten(fieldset, fieldRegistry);
    }

    /**
     * The loop of the as-written `unregister`: `remove_field` on each field reached by an
     * index that advances while the list it indexes shrinks.
     */
    method RemoveFieldsAsWritten(fieldset: FieldSet, fieldRegistry: FieldRegistry) returns (result: Result<(), RegistryError>)
      requires fieldset.fieldClasses.Some?
      modifies fieldset, fieldRegistry
      ensures result.Success? ==>
        fieldset.fieldClasses == Some(RemainingAsWritten(old(fieldset.fieldClasses).value, 0)) &&
        fieldRegistry.fieldIds == old(fieldRegistry.fieldIds) - VisitedAsWritten(old(fieldset.fieldClasses).value, 0)
    {
      ghost var original := fieldset.fieldClasses.value;
      var idx := 0;
      while idx < |fieldset.fieldClasses.value|
        invariant fieldset.fieldClasses.Some?
        invariant RemainingAsWritten(fieldset.fieldClasses.value, idx) == RemainingAsWritten(original, 0)
        invariant fieldRegistry.fieldIds - VisitedAsWritten(fieldset.fieldClasses.value, idx) ==
          old(fieldRegistry.fieldIds) - VisitedAsWritten(original, 0)
        decreases |fieldset.fieldClasses.value| - idx
      {
        var current := fieldset.fieldClasses.value;
        var fieldId := current[idx];
        ghost var before := fieldRegistry.fieldIds;
        var r := fieldset.RemoveField(fieldId, fieldRegistry);
        if r.Failure? {
          return r;
        }
        AsWrittenStep(original, old(fieldRegistry.fieldIds), current, idx, fieldset.fieldClasses.value, before, fieldRegistry.fieldIds);
        idx := idx + 1;
      }
      result := Success(());
    }

    /**
     * `unregister` as evidently intended: the fieldset is removed and every one of its
     * fields is removed and unregistered, iterating over a copy of the field list.
     */
    method Unregister(fieldset: FieldSet, fieldRegistry: FieldRegistry) returns (result: Result<(), RegistryError>)
      modifies this, fieldset, fieldRegistry
      ensures !(fieldset in old(fieldsets)) ==>
        (result == Failure(NotRegistered(fieldset.fieldsetId)) &&
         fieldsets == old(fieldsets) && fieldset.fieldClasses == old(fieldset.fieldClasses) &&
         fieldRegistry.fieldIds == old(fieldRegistry.fieldIds))
      ensures fieldset in old(fieldsets) ==> fieldsets == RemoveFieldSet(old(fieldsets), fieldset)
      ensures result.Success? ==> (old(fieldset.fieldClasses).Some? &&
        fieldset.fieldClasses == Some([]) &&
        fieldRegistry.fieldIds == old(fieldRegistry.fieldIds) - set f | f in old(fieldset.fieldClasses).value)
      ensures result.Success? ==> fieldset.IsEmpty() && fieldset !in fieldsets
    {
      if fieldset !in fieldsets {
        return Failure(NotRegistered(fieldset.fieldsetId));
      }
      fieldsets := RemoveFieldSet(fieldsets, fieldset);
      if fieldset.fieldClasses.None? {
        return Failure(NotIterable(fieldset.fieldsetId));
      }
      var snapshot := fieldset.fieldClasses.value;
      var i := 0;
      while i < |snapshot|
        invariant 0 <= i <= |snapshot|
        invariant fieldset.fieldClasses == Some(snapshot[i..])
        invariant fieldRegistry.fieldIds == old(fieldRegistry.fieldIds) - set f | f in snapshot[..i]
        invariant fieldsets == RemoveFieldSet(old(fieldsets), fieldset)
      {
        assert snapshot[i..][0] == snapshot[i];
        var r := fieldset.RemoveField(snapshot[i], fieldRegistry);
        if r.Failure? {
          return r;
        }
        assert snapshot[i..][1..] == snapshot[i + 1..];
        assert snapshot[..i + 1] == snapshot[..i] + [snapshot[i]];
        i := i + 1;
      }
      assert snapshot[..i] == snapshot && snapshot[i..] == [];
      result := Success(());
    }
  }

  /** The registry list without the given fieldset, the others kept in their order. */
  function RemoveFieldSet(fieldsets: seq<FieldSet>, fieldset: FieldSet): (r: seq<FieldSet>)
    ensures fieldset !in r
    ensures |r| <= |fieldsets|
    ensures forall k :: 0 <= k < |r| ==> r[k] in fieldsets && r[k] != fieldset
    ensures forall k :: 0 <= k < |fieldsets| && fieldsets[k] != fieldset ==> fieldsets[k] in r
    ensures fieldset !in fieldsets ==> r == fieldsets
  {
    if |fieldsets| == 0 then []
    else if fieldsets[0] == fieldset then RemoveFieldSet(fieldsets[1..], fieldset)
    else [fieldsets[0]] + RemoveFieldSet(fieldsets[1..], fieldset)
  }

  lemma {:induction false} RemoveFieldSetAppend(a: seq<FieldSet>, b: seq<FieldSet>, fieldset: FieldSet)
    ensures RemoveFieldSet(a + b, fieldset) == RemoveFieldSet(a, fieldset) + RemoveFieldSet(b, fieldset)
    decreases |a|
  {
    if |a| > 0 {
      assert (a + b)[0] == a[0] && (a + b)[1..] == a[1..] + b;
      RemoveFieldSetAppend(a[1..], b, fieldset);
    } else {
      assert a + b == b;
    }
  }

  /**
   * A fieldset registered once leaves the registry as a splice: the fieldsets before and
   * after it stay, in their order.
   */
  lemma RemoveRegisteredFieldSet(fieldsets: seq<FieldSet>, k: nat)
    requires k < |fieldsets| && fieldsets[k] !in fieldsets[..k] && fieldsets[k] !in fieldsets[k + 1..]
    ensures RemoveFieldSet(fieldsets, fieldsets[k]) == fieldsets[..k] + fieldsets[k + 1..]
  {
    var x := fieldsets[k];
    var before, after := fieldsets[..k], fieldsets[k + 1..];
    var rest := fieldsets[k..];
    assert fieldsets == before + rest;
    RemoveFieldSetAppend(before, rest, x);
    assert rest[0] == x && rest[1..] == after;
    assert RemoveFieldSet(rest, x) == RemoveFieldSet(after, x);
    assert RemoveFieldSet(before, x) == before;
    assert RemoveFieldSet(after, x) == after;
  }

  /** `now` is `before` followed by some of the first `defaults`. */
  predicate RegisteredPrefix(before: seq<FieldSet>, now: seq<FieldSet>, defaults: seq<FieldSet>) {
    |before| <= |now| <= |before| + |defaults| && now == before + defaults[..|now| - |before|]
  }

  lemma RegisteredPrefixOf(before: seq<FieldSet>, defaults: seq<FieldSet>, j: nat)
    requires j <= |defaults|
    ensures RegisteredPrefix(before, before + defaults[..j], defaults)
    ensures j < |defaults| ==> before + defaults[..j + 1] == (before + defaults[..j]) + [defaults[j]]
  {
    if j < |defaults| {
      assert defaults[..j + 1] == defaults[..j] + [defaults[j]];
    }
  }

  /** The field lists of some fieldsets, an unset list read as empty. */
  function FieldLists(fieldsets: seq<FieldSet>): (r: seq<seq<string>>)
    reads set k | 0 <= k < |fieldsets| :: fieldsets[k]
    ensures |r| == |fieldsets|
    ensures forall k :: 0 <= k < |fieldsets| ==> r[k] == fieldsets[k].fieldClasses.GetOr([])
  {
    if |fieldsets| == 0 then []
    else FieldLists(fieldsets[..|fieldsets| - 1]) + [fieldsets[|fieldsets| - 1].fieldClasses.GetOr([])]
  }

  /** The field lists joined in order. */
  function Concat(lists: seq<seq<string>>): seq<string> {
    if |lists| == 0 then [] else Concat(lists[..|lists| - 1]) + lists[|lists| - 1]
  }

  /**
   * Whether registering `defaults` (with field lists `lists`) one by one succeeds against a
   * registry holding `existing` and the field IDs `registered`: the fieldset IDs are new and
   * distinct, and so are all their fields together.
   */
  predicate DefaultsFit(defaults: seq<FieldSet>, lists: seq<seq<string>>, existing: seq<FieldSet>, registered: set<string>) {
    UniqueFieldsetIds(defaults) &&
    (forall k :: 0 <= k < |defaults| ==> !HasFieldsetId(existing, defaults[k].fieldsetId)) &&
    FreshFields(Concat(lists), registered)
  }

  lemma HasFieldsetIdAppend(a: seq<FieldSet>, b: seq<FieldSet>, id: string)
    ensures HasFieldsetId(a + b, id) <==> HasFieldsetId(a, id) || HasFieldsetId(b, id)
  {
    if HasFieldsetId(a + b, id) {
      var k :| 0 <= k < |a + b| && (a + b)[k].fieldsetId == id;
      if k >= |a| {
        assert b[k - |a|] == (a + b)[k];
      }
    }
    if HasFieldsetId(a, id) {
      var k :| 0 <= k < |a| && a[k].fieldsetId == id;
      assert (a + b)[k] == a[k];
    }
    if HasFieldsetId(b, id) {
      var k :| 0 <= k < |b| && b[k].fieldsetId == id;
      assert (a + b)[|a| + k] == b[k];
    }
  }

  /** A list of fields followed by another is fresh when each is, the second against the first too. */
  lemma FreshFieldsAppend(a: seq<string>, b: seq<string>, registered: set<string>)
    ensures FreshFields(a + b, registered) <==>
      FreshFields(a, registered) && FreshFields(b, registered + set f | f in a)
  {
    if FreshFields(a, registered) && FreshFields(b, registered + set f | f in a) {
      forall i, j | 0 <= i < j < |a + b|
        ensures (a + b)[i] != (a + b)[j]
      {
        if j >= |a| && i < |a| {
          assert (a + b)[i] in set f | f in a;
          assert (a + b)[j] == b[j - |a|];
        } else if i >= |a| {
          assert (a + b)[i] == b[i - |a|] && (a + b)[j] == b[j - |a|];
        }
      }
      forall k | 0 <= k < |a + b|
        ensures (a + b)[k] !in registered
      {
        if k >= |a| {
          assert (a + b)[k] == b[k - |a|];
        }
      }
    }
    if FreshFields(a + b, registered) {
      forall k | 0 <= k < |b|
        ensures b[k] !in registered + set f | f in a
      {
        assert b[k] == (a + b)[|a| + k];
        forall i | 0 <= i < |a|
          ensures a[i] != b[k]
        {
          assert a[i] == (a + b)[i];
        }
      }
      forall i, j | 0 <= i < j < |b|
        ensures b[i] != b[j]
      {
        assert b[i] == (a + b)[|a| + i] && b[j] == (a + b)[|a| + j];
      }
      forall i, j | 0 <= i < j < |a|
        ensures a[i] != a[j]
      {
        assert a[i] == (a + b)[i] && a[j] == (a + b)[j];
      }
      forall k | 0 <= k < |a|
        ensures a[k] !in registered
      {
        assert a[k] == (a + b)[k];
      }
    }
  }

  lemma {:induction false} ConcatAppend(a: seq<seq<string>>, b: seq<seq<string>>)
    ensures Concat(a + b) == Concat(a) + Concat(b)
    decreases |b|
  {
    if |b| == 0 {
      assert a + b == a;
    } else {
      var b' := b[..|b| - 1];
      assert (a + b)[..|a + b| - 1] == a + b';
      ConcatAppend(a, b');
    }
  }

  /** One more default fits exactly when the ones before it fit and it is new against them. */
  lemma DefaultsFitStep(defaults: seq<FieldSet>, lists: seq<seq<string>>, existing: seq<FieldSet>, registered: set<string>, i: nat)
    requires i < |defaults| == |lists|
    ensures DefaultsFit(defaults[..i + 1], lists[..i + 1], existing, registered) <==>
      DefaultsFit(defaults[..i], lists[..i], existing, registered) &&
      !HasFieldsetId(existing + defaults[..i], defaults[i].fieldsetId) &&
      FreshFields(lists[i], registered + set f | f in Concat(lists[..i]))
  {
    assert lists[..i + 1][..i] == lists[..i];
    assert Concat(lists[..i + 1]) == Concat(lists[..i]) + lists[i];
    FreshFieldsAppend(Concat(lists[..i]), lists[i], registered);
    HasFieldsetIdAppend(existing, defaults[..i], defaults[i].fieldsetId);
    var d := defaults[..i + 1];
    if UniqueFieldsetIds(defaults[..i]) && !HasFieldsetId(defaults[..i], defaults[i].fieldsetId) {
      forall a, b | 0 <= a < b < |d|
        ensures d[a].fieldsetId != d[b].fieldsetId
      {
        if b == i {
          assert defaults[..i][a] == d[a];
        } else {
          assert defaults[..i][a] == d[a] && defaults[..i][b] == d[b];
        }
      }
    }
    if UniqueFieldsetIds(d) {
      assert forall a, b :: 0 <= a < b < i ==> defaults[..i][a] == d[a] && defaults[..i][b] == d[b];
      if HasFieldsetId(defaults[..i], defaults[i].fieldsetId) {
        var k :| 0 <= k < i && defaults[..i][k].fieldsetId == defaults[i].fieldsetId;
        assert d[k] == defaults[..i][k] && d[i] == defaults[i];
      }
    }
    assert forall k :: 0 <= k < i ==> defaults[..i][k] == d[k];
  }

  /** A default that `Register` refuses means the defaults as a whole do not fit. */
  lemma DefaultRefused(defaults: seq<FieldSet>, lists: seq<seq<string>>, existing: seq<FieldSet>, registered: set<string>, i: nat)
    requires i < |defaults| == |lists|
    requires HasFieldsetId(existing + defaults[..i], defaults[i].fieldsetId) ||
      !FreshFields(lists[i], registered + set f | f in Concat(lists[..i]))
    ensures !DefaultsFit(defaults, lists, existing, registered)
  {
    HasFieldsetIdAppend(existing, defaults[..i], defaults[i].fieldsetId);
    DefaultsFitStep(defaults, lists, existing, registered, i);
    DefaultsFitPrefix(defaults, lists, existing, registered, i + 1);
  }

  /** A default that `Register` accepts extends the defaults that fit and the fields registered. */
  lemma DefaultAccepted(defaults: seq<FieldSet>, lists: seq<seq<string>>, existing: seq<FieldSet>, registered: set<string>, i: nat)
    requires i < |defaults| == |lists|
    requires DefaultsFit(defaults[..i], lists[..i], existing, registered)
    requires !HasFieldsetId(existing + defaults[..i], defaults[i].fieldsetId)
    requires FreshFields(lists[i], registered + set f | f in Concat(lists[..i]))
    ensures DefaultsFit(defaults[..i + 1], lists[..i + 1], existing, registered)
    ensures var before, after := Concat(lists[..i]), Concat(lists[..i + 1]);
      (registered + set f | f in before) + (set f | f in lists[i]) == registered + set f | f in after
    ensures existing + defaults[..i + 1] == (existing + defaults[..i]) + [defaults[i]]
  {
    DefaultsFitStep(defaults, lists, existing, registered, i);
    assert lists[..i + 1][..i] == lists[..i];
    assert defaults[..i + 1] == defaults[..i] + [defaults[i]];
  }

  /** The defaults before any point fit when all of them do. */
  lemma DefaultsFitPrefix(defaults: seq<FieldSet>, lists: seq<seq<string>>, existing: seq<FieldSet>, registered: set<string>, j: nat)
    requires j <= |defaults| == |lists|
    ensures DefaultsFit(defaults, lists, existing, registered) ==> DefaultsFit(defaults[..j], lists[..j], existing, registered)
  {
    assert lists == lists[..j] + lists[j..];
    ConcatAppend(lists[..j], lists[j..]);
    FreshFieldsAppend(Concat(lists[..j]), Concat(lists[j..]), registered);
  }

  /** One iteration of the as-written loop: removing the visited field keeps the outcome. */
  lemma AsWrittenStep(original: seq<string>, initial: set<string>, current: seq<string>, idx: nat,
                      next: seq<string>, before: set<string>, after: set<string>)
    requires idx < |current|
    requires RemainingAsWritten(current, idx) == RemainingAsWritten(original, 0)
    requires before - VisitedAsWritten(current, idx) == initial - VisitedAsWritten(original, 0)
    requires next == RemoveFirst(current, current[idx])
    requires after == before - {current[idx]}
    ensures RemainingAsWritten(next, idx + 1) == RemainingAsWritten(original, 0)
    ensures after - VisitedAsWritten(next, idx + 1) == initial - VisitedAsWritten(original, 0)
  {
    assert RemainingAsWritten(current, idx) == RemainingAsWritten(next, idx + 1);
    assert VisitedAsWritten(current, idx) == {current[idx]} + VisitedAsWritten(next, idx + 1);
  }

  /** The as-written unregistration of a fieldset with fields a and b leaves b behind. */
  lemma UnregisterAsWrittenSkipsFields()
    ensures RemainingAsWritten(["a", "b"], 0) == ["b"]
    ensures VisitedAsWritten(["a", "b"], 0) == {"a"}
  {
    assert RemoveFirst(["a", "b"], "a") == ["b"];
  }

  /**
   * `get_review_request_fieldsets`: the registered fieldsets in registry order, leaving out
   * the change-entries-only fieldset unless it is asked for.
   */
  function GetReviewRequestFieldsets(fieldsets: seq<FieldSet>, includeChangeEntriesOnly: bool): (r: seq<FieldSet>)
    ensures includeChangeEntriesOnly ==> r == fieldsets
    ensures forall k :: 0 <= k < |r| ==> r[k] in fieldsets && (includeChangeEntriesOnly || r[k].fieldsetId != ChangeEntriesOnlyId)
    ensures forall k :: 0 <= k < |fieldsets| && (includeChangeEntriesOnly || fieldsets[k].fieldsetId != ChangeEntriesOnlyId) ==>
      fieldsets[k] in r
    ensures |r| <= |fieldsets|
  {
    if |fieldsets| == 0 then []
    else
      var rest := GetReviewRequestFieldsets(fieldsets[1..], includeChangeEntriesOnly);
      if includeChangeEntriesOnly || fieldsets[0].fieldsetId != ChangeEntriesOnlyId then [fieldsets[0]] + rest
      else rest
  }

  /** Filtering keeps relative order: the fieldsets of a concatenation are the concatenation of the fieldsets. */
  lemma {:induction false} FieldsetsOfConcatenation(a: seq<FieldSet>, b: seq<FieldSet>, includeAll: bool)
    ensures GetReviewRequestFieldsets(a + b, includeAll) ==
      GetReviewRequestFieldsets(a, includeAll) + GetReviewRequestFieldsets(b, includeAll)
    decreases |a|
  {
    if |a| > 0 {
      assert (a + b)[1..] == a[1..] + b;
      FieldsetsOfConcatenation(a[1..], b, includeAll);
    } else {
      assert a + b == b;
    }
  }
}
