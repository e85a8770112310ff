/** The decisions of configdb/hardware/admin.py: the JSON schema field's notion of an
    empty value, the schema and camera form checks, and which admin saves notify
    HEROIC. Saving and the notification itself are not modelled. */
module Admin {
  import opened Outcomes
  import opened JsonValues
  import opened Hardware
  import opened Serializers
  import opened AdminRules

  /** `ProperJSONField.empty_values`: `None`, `""`, `[]` and `()` (a tuple arrives as a
      JSON list), but not `{}`. */
  predicate IsEmptyValue(v: Json) {
    v == JNull || v == JStr("") || v == JList([])
  }

  /** Django's `EMPTY_VALUES`, which a plain `forms.JSONField` uses and which also holds `{}`. */
  predicate IsDjangoEmptyValue(v: Json) {
    IsEmptyValue(v) || v == JObject(map[])
  }

  const RequiredError: string := "This field is required."

  /** A schema form field's clean. Every `ProperJSONField` of the admin forms is
      required, so an empty value is the required error and anything else is kept. */
  function CleanSchemaField(v: Json): (r: Result<Json, string>)
    ensures r.Err? <==> IsEmptyValue(v)
    ensures r.Err? ==> r.error == RequiredError
    ensures r.Ok? ==> r.value == v
  {
    if IsEmptyValue(v) then Err(RequiredError) else Ok(v)
  }

  /** The empty schema `{}` survives the required field, which Django's own empty
      values would reject. */
  lemma EmptyObjectIsASchema()
    ensures CleanSchemaField(JObject(map[])) == Ok(JObject(map[]))
    ensures IsDjangoEmptyValue(JObject(map[])) && !IsEmptyValue(JObject(map[]))
  {
  }

  /** `clean` of `GenericModeGroupAdminForm` and `InstrumentTypeAdminForm`: the schema
      (`None` when `validation_schema` is not in the cleaned data) is checked, and the
      cleaned data returned unchanged. */
  function CleanSchemaForm<C>(validator: SchemaValidator, schema: Option<Json>, cleaned: C): (r: Result<C, string>)
    ensures r.Ok? ==> r.value == cleaned
    ensures r.Err? <==> schema.Some? && validator(schema.value).Some?
    ensures r.Err? ==> r.error == SchemaErrorPrefix + validator(schema.value).value
  {
    match schema
    case None => Ok(cleaned)
    case Some(value) =>
      match validator(value)
      case None => Ok(cleaned)
      case Some(repr) => Err(SchemaErrorPrefix + repr)
  }

  /** The admin forms and the serializers reject the same schemas with the same message. */
  lemma FormAndSerializerAgreeOnSchemas<C>(validator: SchemaValidator, value: Json, cleaned: C)
    ensures CleanSchemaForm(validator, Some(value), cleaned).Ok? <==> ValidateSchema(validator, value).Ok?
    ensures CleanSchemaForm(validator, Some(value), cleaned).Err? ==>
      CleanSchemaForm(validator, Some(value), cleaned).error == ValidateSchema(validator, value).error
  {
  }

  /** The types of a list of groups, in order. */
  function GroupTypes(groups: seq<OpticalElementGroup>): (r: seq<string>)
    ensures |r| == |groups|
    ensures forall k :: 0 <= k < |groups| ==> r[k] == groups[k].groupType
  {
    seq(|groups|, k requires 0 <= k < |groups| => groups[k].groupType)
  }

  /** `CameraAdminForm.clean` (`groups` is `None` when `optical_element_groups` is not
      in the cleaned data). */
  function CleanCameraForm<C>(groups: Option<seq<OpticalElementGroup>>, cleaned: C): (r: Result<C, string>)
    ensures r.Ok? ==> r.value == cleaned
    ensures r.Err? <==> (groups.Some? &&
      exists i, j :: 0 <= i < j < |groups.value| && groups.value[i].groupType == groups.value[j].groupType)
    ensures r.Err? ==> r.error == CameraGroupTypeError
  {
    var r := CheckGroupTypes(if groups.Some? then Some(GroupTypes(groups.value)) else None, cleaned);
    assert r.Err? ==> exists i, j :: 0 <= i < j < |groups.value| && groups.value[i].groupType == groups.value[j].groupType by {
      if r.Err? {
        var types := GroupTypes(groups.value);
        var i, j :| 0 <= i < j < |types| && types[i] == types[j];
        assert groups.value[i].groupType == groups.value[j].groupType;
      }
    }
    r
  }

  /** A camera the form accepts reports each of its group types from exactly its one
      group of that type. */
  lemma AcceptedCameraKeysEachGroup<C>(c: Camera, cleaned: C, k: int)
    requires CleanCameraForm(Some(c.groups), cleaned).Ok?
    requires 0 <= k < |c.groups|
    ensures c.groups[k].groupType in CameraOpticalElements(c)
    ensures CameraOpticalElements(c)[c.groups[k].groupType] == OpticalElementCodes(c.groups[k])
  {
  }

  /** `CameraAdmin.save_related`: the instruments are notified iff the set of groups
      differs before and after the save; order and repetition do not count. */
  function CameraSaveNotifies(before: seq<OpticalElementGroup>, after: seq<OpticalElementGroup>): (r: bool)
    ensures r <==> exists g :: (g in before) != (g in after)
  {
    var r := Elements(before) != Elements(after);
    assert r ==> exists g :: (g in before) != (g in after) by {
      if r {
        var g :| (g in Elements(before)) != (g in Elements(after));
      }
    }
    r
  }

  /** The decisions of `GenericModeGroupAdmin` on a save: the old instrument type to
      notify from `save_model`, and the current one from `save_related`. */
  datatype ModeGroupAdminSave = ModeGroupAdminSave(notifyType: Option<int>, notifyOldType: Option<int>)

  /** `GenericModeGroupAdmin.save_model` and `save_related`. The old type is taken
      only for a group already stored (`obj.pk`) whose stored type differs; the
      current type's instruments are notified whenever there is a current type. */
  function SaveModeGroup(stored: Option<GenericModeGroup>, submitted: GenericModeGroup): (r: ModeGroupAdminSave)
    ensures r.notifyOldType.Some? <==> (stored.Some? && stored.value.instrumentType.Some? &&
      stored.value.instrumentType != submitted.instrumentType)
    ensures r.notifyOldType.Some? ==> r.notifyOldType == stored.value.instrumentType
    ensures r.notifyType == submitted.instrumentType
  {
    var oldType := if stored.Some? && stored.value.instrumentType != submitted.instrumentType then stored.value.instrumentType else None;
    ModeGroupAdminSave(submitted.instrumentType, oldType)
  }

  /** The admin and the serializer agree on when the old instrument type is notified:
      a type moved to another one by either route notifies the old type's instruments. */
  lemma AdminAndSerializerAgreeOnOldType(g: GenericModeGroup, d: ModeGroupData)
    requires d.instrumentType.Some?
    ensures var submitted := UpdateModeGroup(g, d).group;
      SaveModeGroup(Some(g), submitted).notifyOldType == UpdateModeGroup(g, d).notifyOldType
  {
  }

  /** A new group has no old type to notify. */
  lemma NewModeGroupHasNoOldType(submitted: GenericModeGroup)
    ensures SaveModeGroup(None, submitted).notifyOldType.None?
  {
  }
}
