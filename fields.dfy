/**
 * Values of review request fields: change detection, storage in `extra_data`, text types,
 * CSS classes and change-entry serialisation (reviewboard/reviews/fields.py).
 */
module ReviewFields {
  import opened Wrappers
  import opened Text
  import opened ExtraData

  /** `BaseReviewRequestField.has_value_changed`: plain inequality. */
  function HasValueChanged<T(==)>(oldValue: T, newValue: T): bool {
    oldValue != newValue
  }

  /**
   * A change is symmetric and a value never changes from itself; comma fields whose order
   * matters detect exactly the base field's changes, and the others detect fewer.
   */
  lemma ChangeDetectionAgrees<T>(oldValue: Option<seq<T>>, newValue: Option<seq<T>>)
    ensures HasValueChanged(oldValue, newValue) == HasValueChanged(newValue, oldValue)
    ensures !HasValueChanged(oldValue, oldValue)
    ensures CommaHasValueChanged(true, oldValue, newValue) == HasValueChanged(oldValue, newValue)
    ensures CommaHasValueChanged(false, oldValue, newValue) ==> HasValueChanged(oldValue, newValue)
  {
  }

  /** Storing another field's value is never a change of this field's loaded value. */
  lemma SavingOtherFieldIsNoChange(extraData: map<string, Value>, fieldId: string, otherId: string, v: Value)
    requires otherId != fieldId
    ensures !HasValueChanged(LoadValue(extraData, fieldId), LoadValue(extraData[otherId := v], fieldId))
    ensures HasValueChanged(LoadValue(extraData, fieldId), LoadValue(extraData[fieldId := v], fieldId)) <==>
      LoadValue(extraData, fieldId) != v
  {
  }

  /** The elements of a list value, with None read as the empty list. */
  function Elements<T(==)>(value: Option<seq<T>>): set<T> {
    if value.None? then {} else set x | x in value.value
  }

  /**
   * `BaseCommaEditableField.has_value_changed`: the lists themselves are compared when
   * order matters, and otherwise only the sets of their elements.
   */
  function CommaHasValueChanged<T(==)>(orderMatters: bool, oldValue: Option<seq<T>>, newValue: Option<seq<T>>): (r: bool)
    ensures orderMatters ==> (r <==> oldValue != newValue)
    ensures !orderMatters ==> (r <==> Elements(oldValue) != Elements(newValue))
  {
    if orderMatters then oldValue != newValue else Elements(oldValue) != Elements(newValue)
  }

  /** When order does not matter, a reordering is not a change. */
  lemma ReorderingIsNoChange<T>(a: seq<T>, b: seq<T>)
    requires multiset(a) == multiset(b)
    ensures !CommaHasValueChanged(false, Some(a), Some(b))
  {
    forall x ensures x in a <==> x in b {
      assert x in a <==> x in multiset(a);
      assert x in b <==> x in multiset(b);
    }
  }

  /** When order does not matter, repeating an element is not a change. */
  lemma DuplicateIsNoChange<T>(a: seq<T>, k: nat)
    requires k < |a|
    ensures !CommaHasValueChanged(false, Some(a), Some(a + [a[k]]))
  {
    assert Elements(Some(a + [a[k]])) == Elements(Some(a)) by {
      forall x ensures x in a + [a[k]] <==> x in a {
        if x in a + [a[k]] {
          var i :| 0 <= i < |a + [a[k]]| && (a + [a[k]])[i] == x;
          if i == |a| { assert x == a[k]; }
          else { assert x == a[i]; }
        }
      }
    }
  }

  /** When order does not matter, None and the empty list are the same value. */
  lemma NoneIsEmpty<T>()
    ensures !CommaHasValueChanged<T>(false, None, Some([]))
  {
  }

  /** A change of the element sets is also a change when order matters. */
  lemma UnorderedChangeIsOrderedChange<T>(oldValue: Option<seq<T>>, newValue: Option<seq<T>>)
    requires CommaHasValueChanged(false, oldValue, newValue)
    ensures CommaHasValueChanged(true, oldValue, newValue)
  {
  }

  /** The `extra_data` key holding a text field's text type. */
  function TextTypeKey(fieldId: string): (key: string)
    ensures EndsWith(key, "text_type")
    ensures fieldId == "text" <==> key == "text_type"
  {
    if fieldId == "text" then "text_type" else fieldId + "_text_type"
  }

  /** Distinct fields never share a text type key. */
  lemma TextTypeKeyInjective(a: string, b: string)
    requires TextTypeKey(a) == TextTypeKey(b)
    ensures a == b
  {
    if a != "text" && b != "text" {
      var ka := TextTypeKey(a);
      assert a == ka[..|a|];
      assert |a| == |b|;
      assert b == ka[..|b|];
    }
  }

  /** Text is Markdown when the stored text type says so; a missing entry means plain text. */
  function IsTextMarkdown(extraData: map<string, Value>, fieldId: string): (r: bool)
    ensures r <==> TextTypeKey(fieldId) in extraData && extraData[TextTypeKey(fieldId)] == Str("markdown")
  {
    var key := TextTypeKey(fieldId);
    (if key in extraData then extraData[key] else Str("plain")) == Str("markdown")
  }

  /** `load_value` of the base field: the stored value as-is, None when absent. */
  function LoadValue(extraData: map<string, Value>, fieldId: string): (v: Value)
    ensures fieldId !in extraData ==> v == Null
    ensures fieldId in extraData ==> v == extraData[fieldId]
  {
    Get(extraData, fieldId)
  }

  /** `load_value` of checkbox, dropdown and date fields: the default stands in for None. */
  function LoadValueWithDefault(extraData: map<string, Value>, fieldId: string, default: Value): (v: Value)
    ensures v == default <==> fieldId !in extraData || extraData[fieldId] == Null || extraData[fieldId] == default
    ensures fieldId in extraData && extraData[fieldId] != Null ==> v == extraData[fieldId]
  {
    var value := Get(extraData, fieldId);
    if value != Null then value else default
  }

  const CheckboxDefault := Bool(false)
  const DropdownDefault := Null
  const DateDefault := Str("")

  /** A checkbox never loads as None. */
  lemma CheckboxNeverNull(extraData: map<string, Value>, fieldId: string)
    ensures LoadValueWithDefault(extraData, fieldId, CheckboxDefault) != Null
  {
  }

  /** The CSS classes of a field: its default classes, plus "required" for a required field. */
  function CssClasses(defaultCssClasses: seq<string>, isRequired: bool): (classes: set<string>)
    ensures "required" in classes <==> isRequired || "required" in defaultCssClasses
    ensures forall c :: c in defaultCssClasses ==> c in classes
    ensures forall c :: c in classes && c != "required" ==> c in defaultCssClasses
  {
    var classes := set c | c in defaultCssClasses;
    if isRequired then classes + {"required"} else classes
  }

  /**
   * The classes of a text-area field: "rich-text" is added when Markdown is enabled, the
   * value is non-empty, and it renders as Markdown or the user prefers rich text.
   */
  function TextAreaCssClasses(defaultCssClasses: seq<string>, isRequired: bool, enableMarkdown: bool,
                              value: string, rendersAsMarkdown: bool, richTextDefault: bool): (classes: set<string>)
    ensures forall c :: c != "rich-text" ==> (c in classes <==> c in CssClasses(defaultCssClasses, isRequired))
    ensures "rich-text" in classes <==>
      (enableMarkdown && value != "" && (rendersAsMarkdown || richTextDefault)) || "rich-text" in defaultCssClasses
  {
    var classes := CssClasses(defaultCssClasses, isRequired);
    if enableMarkdown && value != "" && (rendersAsMarkdown || richTextDefault) then classes + {"rich-text"} else classes
  }

  /** The change-entry keys, in the order they are read. */
  const ChangeKeys := ["new", "old", "added", "removed"]

  /** Whether every present change key holds a non-empty list (otherwise indexing fails). */
  predicate FirstEntriesExist<T>(fieldInfo: map<string, seq<T>>) {
    forall key :: key in fieldInfo && key in ChangeKeys ==> |fieldInfo[key]| > 0
  }

  /**
   * `serialize_change_entry_for_singleton`: each present change key maps to the first (and
   * only) element of its list. None stands for the IndexError of an empty list.
   */
  function SerializeSingleton<T>(fieldInfo: map<string, seq<T>>): (r: Option<map<string, T>>)
    ensures r.Some? <==> FirstEntriesExist(fieldInfo)
    ensures r.Some? ==> forall key :: key in r.value <==> key in ChangeKeys && key in fieldInfo
    ensures r.Some? ==> forall key :: key in r.value ==> r.value[key] == fieldInfo[key][0]
  {
    if FirstEntriesExist(fieldInfo) then
      Some(map key | key in ChangeKeys && key in fieldInfo :: fieldInfo[key][0])
    else None
  }

  /** Whether every entry of every present change key is non-empty. */
  predicate EntriesNonEmpty<T>(fieldInfo: map<string, seq<seq<T>>>) {
    forall key :: key in fieldInfo && key in ChangeKeys ==>
      forall k :: 0 <= k < |fieldInfo[key]| ==> |fieldInfo[key][k]| > 0
  }

  /**
   * `serialize_change_entry_for_list`: each present change key maps to the list of the first
   * elements of its entries. None stands for the IndexError of an empty entry.
   */
  function SerializeList<T>(fieldInfo: map<string, seq<seq<T>>>): (r: Option<map<string, seq<T>>>)
    ensures r.Some? <==> EntriesNonEmpty(fieldInfo)
    ensures r.Some? ==> forall key :: key in r.value <==> key in ChangeKeys && key in fieldInfo
    ensures r.Some? ==> forall key :: key in r.value ==>
      |r.value[key]| == |fieldInfo[key]| &&
      forall k :: 0 <= k < |fieldInfo[key]| ==> r.value[key][k] == fieldInfo[key][k][0]
  {
    if EntriesNonEmpty(fieldInfo) then
      Some(map key | key in ChangeKeys && key in fieldInfo ::
        seq(|fieldInfo[key]|, k requires 0 <= k < |fieldInfo[key]| => fieldInfo[key][k][0]))
    else None
  }

  /** A change description stores a singleton as a one-element list; serialising unwraps it. */
  lemma SingletonRoundTrip<T>(values: map<string, T>)
    requires forall key :: key in values ==> key in ChangeKeys
    ensures SerializeSingleton(map key | key in values :: [values[key]]) == Some(values)
  {
    var info := map key | key in values :: [values[key]];
    var r := SerializeSingleton(info);
    assert r.Some?;
    assert r.value.Keys == values.Keys;
    assert forall key :: key in values ==> r.value[key] == values[key];
    assert r.value == values;
  }

  /** A review request or draft, whose `extra_data` holds the values of custom fields. */
  class ReviewRequestDetails {
    var extraData: map<string, Value>

    constructor (extraData: map<string, Value>)
      ensures this.extraData == extraData
    {
      this.extraData := extraData;
    }

    /** `save_value`: stores the value as-is under the field's ID. */
    method SaveValue(fieldId: string, value: Value)
      modifies this
      ensures extraData == old(extraData)[fieldId := value]
      ensures LoadValue(extraData, fieldId) == value
    {
      extraData := extraData[fieldId := value];
    }

    /** `propagate_data`: copies a field's value from another review request or draft. */
    method PropagateData(source: ReviewRequestDetails, fieldId: string)
      modifies this
      ensures extraData == old(extraData)[fieldId := LoadValue(old(source.extraData), fieldId)]
      ensures LoadValue(extraData, fieldId) == LoadValue(old(source.extraData), fieldId)
    {
      SaveValue(fieldId, LoadValue(source.extraData, fieldId));
    }

    /** The text-area `propagate_data`: the value, plus the text type when the source has one. */
    method PropagateTextAreaData(source: ReviewRequestDetails, fieldId: string)
      modifies this
      ensures var key := TextTypeKey(fieldId);
        var sourceType := Get(old(source.extraData), key);
        var copied := old(extraData)[fieldId := LoadValue(old(source.extraData), fieldId)];
        extraData == (if sourceType != Null then copied[key := sourceType] else copied)
      ensures Get(old(source.extraData), TextTypeKey(fieldId)) != Null ==>
        IsTextMarkdown(extraData, fieldId) == IsTextMarkdown(old(source.extraData), fieldId)
    {
      var sourceType := Get(source.extraData, TextTypeKey(fieldId));
      PropagateData(source, fieldId);
      if sourceType != Null {
        extraData := extraData[TextTypeKey(fieldId) := sourceType];
      }
    }
  }
}
