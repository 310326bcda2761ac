/**
 * Settings.java: the client's settings, a map from setting field to value that the settings
 * scene updates in place and that is stored as a JSON object. A Java null value is None. Every
 * field of this revision holds a Boolean.
 */
module Settings {
  import opened Wrappers
  import opened Json

  datatype SettingField = RememberSelectedCategory | CheckClientUpdateOnStartup | BackupBeforeRemovingTextFiles

  /** `SettingFields.values()`, in declaration order */
  const AllFields: seq<SettingField> := [RememberSelectedCategory, CheckClientUpdateOnStartup, BackupBeforeRemovingTextFiles]

  /** `getKey()` */
  function Key(f: SettingField): string {
    match f
    case RememberSelectedCategory => "remember_selected_category"
    case CheckClientUpdateOnStartup => "check_client_update_on_startup"
    case BackupBeforeRemovingTextFiles => "backup_before_removing_text_files"
  }

  /** `getDefaultValue()` */
  function Default(f: SettingField): bool {
    match f
    case RememberSelectedCategory => false
    case CheckClientUpdateOnStartup => true
    case BackupBeforeRemovingTextFiles => true
  }

  /** The keys name the fields one to one, and values() lists every field once */
  lemma FieldsAndKeys(f: SettingField, g: SettingField)
    ensures Key(f) == Key(g) ==> f == g
    ensures f in AllFields
    ensures |AllFields| == 3 && forall i, j :: 0 <= i < j < 3 ==> AllFields[i] != AllFields[j]
  {
  }

  /** The value fromJSON gives a field: the stored Boolean, or the default when the key is missing or holds another type */
  function ReadField(o: JsonObject, f: SettingField): (v: Json)
    ensures v.JBool?
    ensures v.b == if Key(f) in o && o[Key(f)].JBool? then o[Key(f)].b else Default(f)
  {
    if Key(f) in o && o[Key(f)].JBool? then o[Key(f)] else JBool(Default(f))
  }

  /** The field values fromJSON produces: one non-null value per field */
  function ValuesFromJson(o: JsonObject): map<SettingField, Option<Json>> {
    map f | f in AllFields :: Some(ReadField(o, f))
  }

  /** The JSON object toJSON produces from the field values of `fields`: null values are dropped, as `put` drops them */
  function JsonOfFields(fv: map<SettingField, Option<Json>>, fields: set<SettingField>): JsonObject {
    map f | f in fields && f in fv && fv[f].Some? :: Key(f) := fv[f].value
  }

  /** A field map from fromJSON holds every field, each with a Boolean */
  predicate AllBooleans(fv: map<SettingField, Option<Json>>) {
    forall f :: f in AllFields ==> f in fv && fv[f].Some? && fv[f].value.JBool?
  }

  /** Whatever fromJSON reads holds a Boolean for every field */
  lemma ValuesFromJsonAreBooleans(o: JsonObject)
    ensures AllBooleans(ValuesFromJson(o))
    ensures ValuesFromJson(o).Keys == set f | f in AllFields
  {
    forall f | f in AllFields ensures f in ValuesFromJson(o) && ValuesFromJson(o)[f].Some? && ValuesFromJson(o)[f].value.JBool? {
      var _ := ReadField(o, f);
    }
  }

  /** Settings written by toJSON and read back by fromJSON are unchanged, as long as every field holds a Boolean */
  lemma RoundTrip(fv: map<SettingField, Option<Json>>)
    requires AllBooleans(fv) && fv.Keys == set f | f in AllFields
    ensures ValuesFromJson(JsonOfFields(fv, fv.Keys)) == fv
  {
    var o := JsonOfFields(fv, fv.Keys);
    forall f | f in AllFields ensures Key(f) in o && o[Key(f)] == fv[f].value {
      FieldsAndKeys(f, f);
    }
  }

  /** A field set to a value that is not a Boolean, or to null, comes back as its default */
  lemma NonBooleanReverts(fv: map<SettingField, Option<Json>>, f: SettingField)
    requires f in fv && (fv[f].None? || !fv[f].value.JBool?)
    ensures ValuesFromJson(JsonOfFields(fv, fv.Keys))[f] == Some(JBool(Default(f)))
  {
    var o := JsonOfFields(fv, fv.Keys);
    if Key(f) in o {
      var g :| g in fv.Keys && g in fv && fv[g].Some? && Key(g) == Key(f);
      FieldsAndKeys(f, g);
    }
    FieldsAndKeys(f, f);
  }

  class Settings {
    var fieldValues: map<SettingField, Option<Json>>

    constructor (fieldValues: map<SettingField, Option<Json>>)
      ensures this.fieldValues == fieldValues
    {
      this.fieldValues := fieldValues;
    }

    /** `getValue(field)`: the stored value, null when the field has none */
    function GetValue(field: SettingField): (v: Option<Json>)
      reads this
      ensures v.Some? ==> field in fieldValues && fieldValues[field] == v
      ensures field !in fieldValues ==> v.None?
    {
      if field in fieldValues then fieldValues[field] else None
    }

    /** `setValue(field, value)`: that field now holds value and every other field keeps its own */
    method SetValue(field: SettingField, value: Option<Json>)
      modifies this
      ensures fieldValues == old(fieldValues)[field := value]
      ensures GetValue(field) == value
      ensures forall g :: g != field ==> GetValue(g) == old(GetValue(g))
    {
      fieldValues := fieldValues[field := value];
    }

    /** `toJSON()`: one key per field that holds a non-null value, over the entries in any order */
    method ToJson() returns (json: JsonObject)
      ensures json == JsonOfFields(fieldValues, fieldValues.Keys)
    {
      json := map[];
      var remaining := fieldValues.Keys;
      while remaining != {}
        invariant remaining <= fieldValues.Keys
        invariant json == JsonOfFields(fieldValues, fieldValues.Keys - remaining)
        decreases remaining
      {
        var field :| field in remaining;
        var before := fieldValues.Keys - remaining;
        json := Put(json, Key(field), fieldValues[field]);
        remaining := remaining - {field};
        EntryAdded(fieldValues, before, field, json);
      }
    }
  }

  /** The step of toJSON's loop: putting one more entry extends the object by that entry */
  lemma EntryAdded(fv: map<SettingField, Option<Json>>, done: set<SettingField>, f: SettingField, json: JsonObject)
    requires f in fv && f !in done
    requires json == Put(JsonOfFields(fv, done), Key(f), fv[f])
    ensures json == JsonOfFields(fv, done + {f})
  {
    var want := JsonOfFields(fv, done + {f});
    forall k ensures (k in json <==> k in want) && (k in json ==> json[k] == want[k]) {
      if k in want {
        var g :| g in done + {f} && g in fv && fv[g].Some? && Key(g) == k;
        FieldsAndKeys(f, g);
      }
      if k in JsonOfFields(fv, done) {
        var g :| g in done && g in fv && fv[g].Some? && Key(g) == k;
        FieldsAndKeys(f, g);
      }
    }
  }

  /** `fromJSON(json)`: every field in declaration order, with its stored Boolean or its default */
  method FromJson(json: JsonObject) returns (s: Settings)
    ensures fresh(s) && s.fieldValues == ValuesFromJson(json)
  {
    var fieldValues: map<SettingField, Option<Json>> := map[];
    for i := 0 to |AllFields|
      invariant fieldValues == map f | f in AllFields[..i] :: Some(ReadField(json, f))
    {
      var field := AllFields[i];
      var key := Key(field);
      var value: Option<Json> := None;
      if key in json && json[key].JBool? {
        value := Some(json[key]);
      }
      if value.None? {
        value := Some(JBool(Default(field)));
      }
      fieldValues := fieldValues[field := value];
      assert AllFields[..i + 1] == AllFields[..i] + [field];
    }
    assert AllFields[..|AllFields|] == AllFields;
    s := new Settings(fieldValues);
  }
}
