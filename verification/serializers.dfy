/** The write-side rules of configdb/hardware/serializers.py: default-membership
    validation, membership replacement on create and update, the empty-string
    rendering of a missing default, schema validation, and which field changes
    make an update notify HEROIC. The database is a catalog of records passed in;
    `add` is `Memberships.AddMember`. */
module Serializers {
  import opened Outcomes
  import opened JsonValues
  import opened Memberships
  import opened Hardware

  // ---------------------------------------------------------------------------
  // Optical element lookup: `OpticalElement.objects.get_or_create(code=..., defaults=...)`

  /** Optical element codes are unique in the database. */
  predicate CodesUnique(catalog: seq<OpticalElement>) {
    forall i, j :: 0 <= i < j < |catalog| ==> catalog[i].code != catalog[j].code
  }

  /** The stored optical element with `code`, if any. */
  function FindByCode(catalog: seq<OpticalElement>, code: string): (r: Option<OpticalElement>)
    ensures r.Some? ==> r.value in catalog && r.value.code == code
    ensures r.None? ==> forall e :: e in catalog ==> e.code != code
  {
    if |catalog| == 0 then None
    else if catalog[0].code == code then Some(catalog[0])
    else FindByCode(catalog[1..], code)
  }

  /** `get_or_create` by code: an existing element with the code is returned as
      stored, whatever name and schedulability were supplied; otherwise the supplied
      element is created. Returns the element and the catalog afterwards. */
  function GetOrCreateElement(catalog: seq<OpticalElement>, e: OpticalElement): (r: (OpticalElement, seq<OpticalElement>))
    ensures r.0.code == e.code && r.0 in r.1
    ensures (exists x :: x in catalog && x.code == e.code) ==> r.0 in catalog && r.1 == catalog
    ensures (forall x :: x in catalog ==> x.code != e.code) ==> r.0 == e && r.1 == catalog + [e]
    ensures CodesUnique(catalog) ==> CodesUnique(r.1)
    ensures forall x :: x in catalog ==> x in r.1
  {
    match FindByCode(catalog, e.code)
    case Some(x) => (x, catalog)
    case None => (e, catalog + [e])
  }

  /** `get_or_create` for each supplied element in turn; an element created early in
      the loop is found by a later one with the same code. */
  function GetOrCreateElements(catalog: seq<OpticalElement>, es: seq<OpticalElement>): (r: (seq<OpticalElement>, seq<OpticalElement>))
    ensures |r.0| == |es|
    ensures forall k :: 0 <= k < |es| ==> r.0[k].code == es[k].code
    ensures forall x :: x in r.0 ==> x in r.1
    ensures forall x :: x in catalog ==> x in r.1
    ensures CodesUnique(catalog) ==> CodesUnique(r.1)
    decreases |es|
  {
    if |es| == 0 then ([], catalog)
    else
      var (first, catalog1) := GetOrCreateElement(catalog, es[0]);
      var (rest, catalog2) := GetOrCreateElements(catalog1, es[1..]);
      ([first] + rest, catalog2)
  }

  // ---------------------------------------------------------------------------
  // OpticalElementGroupSerializer

  /** The validated data of a group write. `name`, `groupType` and `default` are
      `None` when the key is absent; absent element lists are empty. */
  datatype ElementGroupData = ElementGroupData(
    name: Option<string>,
    groupType: Option<string>,
    default: Option<OpticalElement>,
    elements: seq<OpticalElement>,
    ids: seq<OpticalElement>)

  function ElementDefaultError(default: OpticalElement): string {
    "Default optical element " + default.code + " must be a member of this groups optical elements"
  }

  /** `OpticalElementGroupSerializer.validate`: a supplied default must be one of the
      group's element codes, which on update are the stored elements' and on create
      the supplied elements' and ids'. */
  function ValidateElementGroup(instance: Option<OpticalElementGroup>, d: ElementGroupData): (r: Result<ElementGroupData, string>)
    ensures r.Ok? ==> r.value == d
    ensures r.Err? <==> (d.default.Some? &&
      (instance.Some? ==> forall e :: e in instance.value.elements ==> e.code != d.default.value.code) &&
      (instance.None? ==> forall e :: e in d.elements + d.ids ==> e.code != d.default.value.code))
    ensures r.Err? ==> r.error == ElementDefaultError(d.default.value)
  {
    var codes := if instance.Some? then ElementCodes(instance.value.elements) else ElementCodes(d.elements) + ElementCodes(d.ids);
    assert forall c :: c in codes <==> exists e :: e in (if instance.Some? then instance.value.elements else d.elements + d.ids) && e.code == c by {
      if instance.None? {
        var all := d.elements + d.ids;
        assert ElementCodes(d.elements) + ElementCodes(d.ids) == ElementCodes(all);
      }
    }
    if d.default.Some? && d.default.value.code !in codes then Err(ElementDefaultError(d.default.value))
    else Ok(d)
  }

  /** The result of a group write: the group, the catalog afterwards, and whether
      the instruments using the group are sent a capability update. */
  datatype ElementGroupWrite = ElementGroupWrite(group: OpticalElementGroup, catalog: seq<OpticalElement>, notify: bool)

  /** A member list filled from `ids` and `elements`: no duplicates, every id is a
      member, every supplied code has a member, and nothing else is a member. */
  predicate FilledFrom(members: seq<OpticalElement>, ids: seq<OpticalElement>, elements: seq<OpticalElement>) {
    && Distinct(members)
    && (forall e :: e in ids ==> e in members)
    && SuppliedCodesCovered(members, elements)
    && OnlySupplied(members, ids, elements)
  }

  /** Every supplied code has a member carrying it. */
  predicate SuppliedCodesCovered(members: seq<OpticalElement>, elements: seq<OpticalElement>) {
    forall k :: 0 <= k < |elements| ==> CodeMember(members, elements[k].code)
  }

  /** Some member carries the code. */
  predicate CodeMember(members: seq<OpticalElement>, code: string) {
    exists e :: e in members && e.code == code
  }

  /** Every member is an id or carries a supplied code. */
  predicate OnlySupplied(members: seq<OpticalElement>, ids: seq<OpticalElement>, elements: seq<OpticalElement>) {
    forall e :: e in members ==> e in ids || exists k :: 0 <= k < |elements| && e.code == elements[k].code
  }

  /** The members of a freshly filled group: the ids, then the supplied elements as
      `get_or_create` resolves them. */
  function NewMembers(catalog: seq<OpticalElement>, d: ElementGroupData): (r: (seq<OpticalElement>, seq<OpticalElement>))
    ensures FilledFrom(r.0, d.ids, d.elements)
    ensures forall e :: e in r.0 ==> e in d.ids || e in r.1
    ensures CodesUnique(catalog) ==> CodesUnique(r.1)
  {
    var resolved := GetOrCreateElements(catalog, d.elements);
    FreshIsFilled(d.ids, resolved.0, d.elements);
    (Fresh(d.ids, resolved.0), resolved.1)
  }

  /** Filling a relation with the ids and with elements carrying the supplied codes,
      position by position, fills it from the supplied data. */
  lemma FreshIsFilled(ids: seq<OpticalElement>, resolved: seq<OpticalElement>, elements: seq<OpticalElement>)
    requires |resolved| == |elements|
    requires forall k :: 0 <= k < |elements| ==> resolved[k].code == elements[k].code
    ensures FilledFrom(Fresh(ids, resolved), ids, elements)
  {
    var members := Fresh(ids, resolved);
    EverySuppliedCodeMember(members, resolved, elements);
    MembersFromSupplied(members, ids, resolved, elements);
  }

  /** A relation holding the resolved elements has a member for every supplied code. */
  lemma EverySuppliedCodeMember(members: seq<OpticalElement>, resolved: seq<OpticalElement>, elements: seq<OpticalElement>)
    requires |resolved| == |elements|
    requires forall k :: 0 <= k < |elements| ==> resolved[k].code == elements[k].code
    requires forall e :: e in resolved ==> e in members
    ensures SuppliedCodesCovered(members, elements)
  {
    forall k | 0 <= k < |elements|
      ensures CodeMember(members, elements[k].code)
    {
      assert resolved[k] in resolved;
    }
  }

  /** A relation holding only ids and resolved elements holds nothing unsupplied. */
  lemma MembersFromSupplied(members: seq<OpticalElement>, ids: seq<OpticalElement>, resolved: seq<OpticalElement>, elements: seq<OpticalElement>)
    requires |resolved| == |elements|
    requires forall k :: 0 <= k < |elements| ==> resolved[k].code == elements[k].code
    requires forall e :: e in members ==> e in ids || e in resolved
    ensures OnlySupplied(members, ids, elements)
  {
    forall e | e in members && e !in ids
      ensures exists k :: 0 <= k < |elements| && e.code == elements[k].code
    {
      var k :| 0 <= k < |resolved| && resolved[k] == e;
    }
  }

  /** `OpticalElementGroupSerializer.create`: ids are added first, then the supplied
      elements through `get_or_create`. */
  function CreateElementGroup(catalog: seq<OpticalElement>, id: int, name: string, groupType: string, d: ElementGroupData): (r: ElementGroupWrite)
    ensures r.group.id == id && r.group.name == name && r.group.groupType == groupType && r.group.default == d.default
    ensures (r.group.elements, r.catalog) == NewMembers(catalog, d)
    ensures !r.notify
  {
    var (members, catalog') := NewMembers(catalog, d);
    ElementGroupWrite(OpticalElementGroup(id, name, groupType, d.default, members), catalog', false)
  }

  /** `OpticalElementGroupSerializer.update`: scalar fields are set when supplied;
      the members are cleared and refilled only when elements or ids are supplied;
      HEROIC is notified when the members, the default or the type were supplied. */
  function UpdateElementGroup(catalog: seq<OpticalElement>, g: OpticalElementGroup, d: ElementGroupData): (r: ElementGroupWrite)
    ensures r.group.id == g.id
    ensures r.group.name == d.name.GetOr(g.name) && r.group.groupType == d.groupType.GetOr(g.groupType)
    ensures r.group.default == if d.default.Some? then d.default else g.default
    ensures |d.elements| == 0 && |d.ids| == 0 ==> r.group.elements == g.elements && r.catalog == catalog
    ensures |d.elements| > 0 || |d.ids| > 0 ==> FilledFrom(r.group.elements, d.ids, d.elements)
    ensures CodesUnique(catalog) ==> CodesUnique(r.catalog)
    ensures r.notify <==> |d.elements| > 0 || |d.ids| > 0 || d.default.Some? || d.groupType.Some?
  {
    var notify := |d.elements| > 0 || |d.ids| > 0 || d.default.Some? || d.groupType.Some?;
    var default := if d.default.Some? then d.default else g.default;
    if |d.elements| > 0 || |d.ids| > 0 then
      var supplied := d.(default := default);
      assert supplied.ids == d.ids && supplied.elements == d.elements;
      var created := CreateElementGroup(catalog, g.id, d.name.GetOr(g.name), d.groupType.GetOr(g.groupType), supplied);
      created.(notify := notify)
    else
      ElementGroupWrite(g.(name := d.name.GetOr(g.name), groupType := d.groupType.GetOr(g.groupType), default := default), catalog, notify)
  }

  /** On create, a default that passes validation is a member of the new group. */
  lemma CreatedDefaultIsMember(catalog: seq<OpticalElement>, id: int, name: string, groupType: string, d: ElementGroupData)
    requires d.default.Some? && ValidateElementGroup(None, d).Ok?
    ensures exists e :: e in CreateElementGroup(catalog, id, name, groupType, d).group.elements && e.code == d.default.value.code
  {
    var e :| e in d.elements + d.ids && e.code == d.default.value.code;
    if e !in d.ids {
      var k :| 0 <= k < |d.elements| && d.elements[k] == e;
    }
  }

  /** On update, validation looks at the stored elements only, so an update that
      replaces the elements can leave the validated default outside the group. */
  lemma UpdatedDefaultMayLeaveGroup()
    ensures var a := OpticalElement("Air", "air", true);
      var b := OpticalElement("Red", "rp", true);
      var g := OpticalElementGroup(1, "filters", "filters", None, [a]);
      var d := ElementGroupData(None, None, Some(a), [b], []);
      ValidateElementGroup(Some(g), d).Ok? &&
      UpdateElementGroup([a, b], g, d).group.default == Some(a) &&
      UpdateElementGroup([a, b], g, d).group.elements == [b]
  {
    var a := OpticalElement("Air", "air", true);
    var b := OpticalElement("Red", "rp", true);
    assert FindByCode([a, b], "rp") == Some(b) by {
      assert [a, b][1..] == [b];
    }
    assert AddAll([], [b]) == [b] by {
      assert [b][1..] == [];
    }
  }

  /** `to_representation`: a missing default is rendered as the empty string. */
  function RepresentDefault(default: Option<string>): (r: string)
    ensures default.Some? && default.value != "" ==> r == default.value
    ensures r == "" <==> default.None? || default.value == ""
  {
    match default
    case None => ""
    case Some(code) => code
  }

  /** Reading a rendered default back: the empty string means no default. */
  function ParseDefault(text: string): Option<string> {
    if text == "" then None else Some(text)
  }

  /** Rendering loses nothing when codes are non-empty. */
  lemma RepresentDefaultRoundTrip(default: Option<string>)
    requires default.Some? ==> default.value != ""
    ensures ParseDefault(RepresentDefault(default)) == default
  {
  }

  // ---------------------------------------------------------------------------
  // Field-level updates of optical elements and generic modes

  /** The keys of a partial update of an optical element (`name`, `code`, `schedulable`). */
  datatype ElementPatch = ElementPatch(name: Option<string>, code: Option<string>, schedulable: Option<bool>)

  /** `OpticalElementSerializer.update`: the element with the supplied fields set, and
      whether HEROIC is notified, which it is for any supplied name, code or
      schedulability, changed or not. */
  function UpdateElement(e: OpticalElement, p: ElementPatch): (r: (OpticalElement, bool))
    ensures r.0 == OpticalElement(p.name.GetOr(e.name), p.code.GetOr(e.code), p.schedulable.GetOr(e.schedulable))
    ensures r.1 <==> p.name.Some? || p.code.Some? || p.schedulable.Some?
  {
    (OpticalElement(p.name.GetOr(e.name), p.code.GetOr(e.code), p.schedulable.GetOr(e.schedulable)),
     p.name.Some? || p.code.Some? || p.schedulable.Some?)
  }

  /** Notification follows the keys supplied, not the values: re-sending the stored
      values still notifies, and only an empty patch is silent. */
  lemma ElementNotifyOnKeys(e: OpticalElement, p: ElementPatch)
    ensures UpdateElement(e, p).1 <==> p != ElementPatch(None, None, None)
    ensures p.name == Some(e.name) ==> UpdateElement(e, p).0 == UpdateElement(e, p.(name := None)).0 && UpdateElement(e, p).1
  {
  }

  /** The keys of a partial update of a generic mode. */
  datatype ModePatch = ModePatch(
    name: Option<string>,
    overhead: Option<string>,
    code: Option<string>,
    schedulable: Option<bool>,
    validationSchema: Option<Json>)

  /** `GenericModeSerializer.update`: only name, code and schedulable notify. */
  function UpdateMode(m: GenericMode, p: ModePatch): (r: (GenericMode, bool))
    ensures r.0.name == p.name.GetOr(m.name) && r.0.code == p.code.GetOr(m.code)
    ensures r.0.overhead == p.overhead.GetOr(m.overhead) && r.0.schedulable == p.schedulable.GetOr(m.schedulable)
    ensures r.0.validationSchema == p.validationSchema.GetOr(m.validationSchema)
    ensures r.1 <==> p.name.Some? || p.code.Some? || p.schedulable.Some?
  {
    (GenericMode(p.name.GetOr(m.name), p.code.GetOr(m.code), p.overhead.GetOr(m.overhead),
                 p.schedulable.GetOr(m.schedulable), p.validationSchema.GetOr(m.validationSchema)),
     p.name.Some? || p.code.Some? || p.schedulable.Some?)
  }

  /** An overhead or schema change alone reaches no instrument. */
  lemma OverheadAndSchemaAreSilent(m: GenericMode, p: ModePatch)
    requires p.name.None? && p.code.None? && p.schedulable.None?
    ensures !UpdateMode(m, p).1
    ensures UpdateMode(m, p).0.name == m.name && UpdateMode(m, p).0.code == m.code
  {
  }

  // ---------------------------------------------------------------------------
  // Cerberus schema validation

  /** The schema validator: `None` when `OCSValidator(schema)` accepts, `Some(repr(e))`
      when it raises. Its rules are not part of this model. */
  type SchemaValidator = Json -> Option<string>

  const SchemaErrorPrefix: string := "Invalid cerberus validation_schema: "

  /** `validate_validation_schema` of the generic mode and instrument type serializers. */
  function ValidateSchema(validator: SchemaValidator, value: Json): (r: Result<Json, string>)
    ensures r.Ok? <==> validator(value).None?
    ensures r.Ok? ==> r.value == value
    ensures r.Err? ==> |r.error| >= |SchemaErrorPrefix| && r.error[..|SchemaErrorPrefix|] == SchemaErrorPrefix
    ensures r.Err? ==> r.error[|SchemaErrorPrefix|..] == validator(value).value
  {
    match validator(value)
    case None => Ok(value)
    case Some(repr) =>
      var message := SchemaErrorPrefix + repr;
      assert message[..|SchemaErrorPrefix|] == SchemaErrorPrefix;
      assert message[|SchemaErrorPrefix|..] == repr;
      Err(message)
  }

  // ---------------------------------------------------------------------------
  // GenericModeGroupSerializer

  /** The validated data of a mode group write. `modeType` is `Some(None)` when
      `type` is supplied as null. */
  datatype ModeGroupData = ModeGroupData(
    instrumentType: Option<int>,
    modeType: Option<Option<ModeType>>,
    default: Option<GenericMode>,
    modes: seq<GenericMode>,
    ids: seq<GenericMode>)

  function ModeDefaultError(default: GenericMode): string {
    "Default generic mode " + GenericModeDisplay(default) + " must be a member of this groups modes"
  }

  /** `GenericModeGroupSerializer.validate`, the same membership rule over mode codes. */
  function ValidateModeGroup(instance: Option<GenericModeGroup>, d: ModeGroupData): (r: Result<ModeGroupData, string>)
    ensures r.Ok? ==> r.value == d
    ensures r.Err? <==> (d.default.Some? &&
      (instance.Some? ==> forall m :: m in instance.value.modes ==> m.code != d.default.value.code) &&
      (instance.None? ==> forall m :: m in d.modes + d.ids ==> m.code != d.default.value.code))
    ensures r.Err? ==> r.error == ModeDefaultError(d.default.value)
  {
    var codes := if instance.Some? then ModeCodes(instance.value.modes) else ModeCodes(d.modes) + ModeCodes(d.ids);
    assert forall c :: c in codes <==> exists m :: m in (if instance.Some? then instance.value.modes else d.modes + d.ids) && m.code == c by {
      if instance.None? {
        var all := d.modes + d.ids;
        assert ModeCodes(d.modes) + ModeCodes(d.ids) == ModeCodes(all);
      }
    }
    if d.default.Some? && d.default.value.code !in codes then Err(ModeDefaultError(d.default.value))
    else Ok(d)
  }

  /** The result of a mode group write: the group and the instrument types whose
      instruments are sent a capability update. */
  datatype ModeGroupWrite = ModeGroupWrite(group: GenericModeGroup, notifyType: Option<int>, notifyOldType: Option<int>)

  /** `GenericModeGroupSerializer.create`: `get_or_create(**mode)` matches on every
      field, so each supplied mode is itself a member. The instruments of the group's
      instrument type are always notified. */
  function CreateModeGroup(id: int, instrumentType: int, d: ModeGroupData): (r: ModeGroupWrite)
    ensures r.group.id == id && r.group.instrumentType == Some(instrumentType)
    ensures r.group.default == d.default && r.group.modeType == d.modeType.GetOr(None)
    ensures Distinct(r.group.modes) && forall m :: m in r.group.modes <==> m in d.ids || m in d.modes
    ensures r.notifyType == Some(instrumentType) && r.notifyOldType.None?
  {
    ModeGroupWrite(GenericModeGroup(id, Some(instrumentType), d.default, d.modeType.GetOr(None), Fresh(d.ids, d.modes)),
                   Some(instrumentType), None)
  }

  /** `GenericModeGroupSerializer.update`. The old instrument type is remembered only
      when a different type is supplied and the group had one; the current type's
      instruments are notified when the modes, the default or the type were supplied. */
  function UpdateModeGroup(g: GenericModeGroup, d: ModeGroupData): (r: ModeGroupWrite)
    ensures r.group.id == g.id
    ensures r.group.instrumentType == if d.instrumentType.Some? then d.instrumentType else g.instrumentType
    ensures r.group.modeType == d.modeType.GetOr(g.modeType)
    ensures r.group.default == if d.default.Some? then d.default else g.default
    ensures |d.modes| == 0 && |d.ids| == 0 ==> r.group.modes == g.modes
    ensures |d.modes| > 0 || |d.ids| > 0 ==> Distinct(r.group.modes) && forall m :: m in r.group.modes <==> m in d.ids || m in d.modes
    ensures r.notifyOldType.Some? <==> d.instrumentType.Some? && g.instrumentType.Some? && d.instrumentType != g.instrumentType
    ensures r.notifyOldType.Some? ==> r.notifyOldType == g.instrumentType
    ensures r.notifyType.Some? <==> r.group.instrumentType.Some? && (|d.modes| > 0 || |d.ids| > 0 || d.default.Some? || d.modeType.Some?)
    ensures r.notifyType.Some? ==> r.notifyType == r.group.instrumentType
  {
    var oldType := if d.instrumentType.Some? && d.instrumentType != g.instrumentType then g.instrumentType else None;
    var instrumentType := if d.instrumentType.Some? then d.instrumentType else g.instrumentType;
    var modes := if |d.modes| > 0 || |d.ids| > 0 then Fresh(d.ids, d.modes) else g.modes;
    var group := GenericModeGroup(g.id, instrumentType, if d.default.Some? then d.default else g.default,
                                  d.modeType.GetOr(g.modeType), modes);
    var changed := |d.modes| > 0 || |d.ids| > 0 || d.default.Some? || d.modeType.Some?;
    ModeGroupWrite(group, if instrumentType.Some? && changed then instrumentType else None, oldType)
  }

  /** The mode-group twin of `UpdatedDefaultMayLeaveGroup`: the default is checked
      against the stored modes, which the update then replaces. */
  lemma UpdatedModeDefaultMayLeaveGroup()
    ensures var a := GenericMode("Full frame", "full_frame", "0", true, JObject(map[]));
      var b := GenericMode("Central", "central_2k", "0", true, JObject(map[]));
      var g := GenericModeGroup(1, Some(1), None, Some(ModeType("readout")), [a]);
      var d := ModeGroupData(None, None, Some(a), [b], []);
      ValidateModeGroup(Some(g), d).Ok? &&
      UpdateModeGroup(g, d).group.default == Some(a) &&
      UpdateModeGroup(g, d).group.modes == [b]
  {
    var a := GenericMode("Full frame", "full_frame", "0", true, JObject(map[]));
    var b := GenericMode("Central", "central_2k", "0", true, JObject(map[]));
    var g := GenericModeGroup(1, Some(1), None, Some(ModeType("readout")), [a]);
    var d := ModeGroupData(None, None, Some(a), [b], []);
    assert a in g.modes;
    assert ValidateModeGroup(Some(g), d).Ok?;
    var none: seq<GenericMode> := [];
    assert AddAll(none, none) == none;
    assert AddMember(none, b) == [b];
    assert [b][1..] == none;
    assert AddAll(none, [b]) == AddAll([b], none) == [b];
    assert Fresh(d.ids, d.modes) == [b];
  }

  /** No instrument type is notified twice by one update: the old type is never the
      current one. */
  lemma ModeGroupNotifiesDistinctTypes(g: GenericModeGroup, d: ModeGroupData)
    ensures UpdateModeGroup(g, d).notifyOldType.Some? && UpdateModeGroup(g, d).notifyType.Some? ==>
      UpdateModeGroup(g, d).notifyOldType != UpdateModeGroup(g, d).notifyType
  {
  }

  /** On create, a validated default is one of the group's modes. */
  lemma CreatedModeDefaultIsMember(id: int, instrumentType: int, d: ModeGroupData)
    requires d.default.Some? && ValidateModeGroup(None, d).Ok?
    ensures exists m :: m in CreateModeGroup(id, instrumentType, d).group.modes && m.code == d.default.value.code
  {
    var m :| m in d.modes + d.ids && m.code == d.default.value.code;
    assert m in d.modes || m in d.ids;
  }

  // ---------------------------------------------------------------------------
  // CameraSerializer

  /** The writable fields of `CameraSerializer`. `id` is the primary key,
      `camera_type` and `optical_element_groups` are declared read-only, and
      `optical_elements` is a model property; none of them reaches `validated_data`. */
  const CameraWritableFields: set<string> := {"code", "camera_type_id", "orientation", "optical_element_group_ids", "host"}

  /** The key under which a writable field lands in `validated_data`: its `source`.
      Only `optical_element_group_ids` names another source. */
  function CameraFieldSource(field: string): string {
    if field == "optical_element_group_ids" then "optical_element_groups" else field
  }

  /** The keys of `validated_data` for a request carrying the given keys: unknown and
      read-only keys are dropped, each writable field appears under its source. */
  function CameraValidatedKeys(request: set<string>): (r: set<string>)
    ensures forall f :: f in request && f in CameraWritableFields ==> CameraFieldSource(f) in r
    ensures forall k :: k in r ==> exists f :: f in request && f in CameraWritableFields && CameraFieldSource(f) == k
  {
    set f | f in request && f in CameraWritableFields :: CameraFieldSource(f)
  }

  /** `CameraSerializer.update` notifies when either group key is in `validated_data`. */
  predicate CameraUpdateNotifies(validatedKeys: set<string>) {
    "optical_element_groups" in validatedKeys || "optical_element_group_ids" in validatedKeys
  }

  /** A camera update notifies exactly when the request supplies
      `optical_element_group_ids`; sending the read-only `optical_element_groups`
      alone notifies nothing. */
  lemma CameraNotifiesOnGroups(request: set<string>)
    ensures CameraUpdateNotifies(CameraValidatedKeys(request)) <==> "optical_element_group_ids" in request
  {
    var validated := CameraValidatedKeys(request);
    if "optical_element_group_ids" in request {
      assert CameraFieldSource("optical_element_group_ids") in validated;
    }
    if "optical_element_groups" in validated {
      var f :| f in request && f in CameraWritableFields && CameraFieldSource(f) == "optical_element_groups";
      assert f == "optical_element_group_ids";
    }
    CameraIdsKeyNeverValidated(request);
  }

  /** `validated_data` never carries `optical_element_group_ids`, so the second test of
      `CameraSerializer.update` never decides anything. */
  lemma CameraIdsKeyNeverValidated(request: set<string>)
    ensures "optical_element_group_ids" !in CameraValidatedKeys(request)
  {
    forall f | f in CameraWritableFields
      ensures CameraFieldSource(f) != "optical_element_group_ids"
    {
    }
  }

  // ---------------------------------------------------------------------------
  // InstrumentTypeSerializer

  /** One row of an instrument type's configuration types; overheads are opaque text. */
  datatype ConfigurationTypeProperties = ConfigurationTypeProperties(
    configurationType: string,
    configChangeOverhead: string,
    schedulable: bool,
    forceAcquisitionOff: bool,
    requiresOpticalElements: bool,
    validationSchema: Json)

  /** One row of `ConfigurationTypeProperties`: an instrument type offering a
      configuration type, keyed by its code. */
  datatype TypeLink = TypeLink(instrumentType: int, properties: ConfigurationTypeProperties)

  /** An instrument type with its `default_configuration_type`. */
  datatype InstrumentTypeRow = InstrumentTypeRow(id: int, defaultConfigurationType: Option<string>)

  /** The tables the configuration-type writes touch. `ConfigurationType` rows are one
      catalogue shared by every instrument type, keyed by code. */
  datatype TypeCatalogue = TypeCatalogue(
    configurationTypes: set<string>,
    instrumentTypes: seq<InstrumentTypeRow>,
    links: seq<TypeLink>)

  function TypeIds(db: TypeCatalogue): set<int> {
    set i | i in db.instrumentTypes :: i.id
  }

  /** The codes of the configuration types an instrument type offers:
      `instance.configuration_types.all()`. */
  function LinkedCodes(links: seq<TypeLink>, t: int): set<string> {
    set l | l in links && l.instrumentType == t :: l.properties.configurationType
  }

  /** `get_or_create(instrument_type=t, **row)` for each supplied row. */
  function AddLinks(links: seq<TypeLink>, t: int, rows: seq<ConfigurationTypeProperties>): (r: seq<TypeLink>)
    ensures forall l: TypeLink :: l in r <==> l in links || (l.instrumentType == t && l.properties in rows)
    ensures Distinct(links) ==> Distinct(r)
  {
    var offered := seq(|rows|, k requires 0 <= k < |rows| => TypeLink(t, rows[k]));
    assert forall l: TypeLink :: l in offered <==> l.instrumentType == t && l.properties in rows by {
      forall l: TypeLink | l.instrumentType == t && l.properties in rows
        ensures l in offered
      {
        var k :| 0 <= k < |rows| && rows[k] == l.properties;
        assert offered[k] == l;
      }
    }
    AddAll(links, offered)
  }

  /** The instrument type's default configuration type is among `codes`. */
  predicate DefaultIn(i: InstrumentTypeRow, codes: set<string>) {
    i.defaultConfigurationType.Some? && i.defaultConfigurationType.value in codes
  }

  /** Deleting `ConfigurationType` rows: their links go with them, and so does every
      instrument type whose `default_configuration_type` is among them (`CASCADE`),
      with its own links. */
  function DeleteConfigurationTypes(db: TypeCatalogue, removed: set<string>): (r: TypeCatalogue)
    ensures forall c :: c in r.configurationTypes <==> c in db.configurationTypes && c !in removed
    ensures forall i :: i in r.instrumentTypes <==> i in db.instrumentTypes && !DefaultIn(i, removed)
    ensures forall l :: l in r.links <==> l in db.links && l.properties.configurationType !in removed && l.instrumentType in TypeIds(r)
  {
    var kept := Keep(db.instrumentTypes, (i: InstrumentTypeRow) => !DefaultIn(i, removed));
    var keptIds := set i | i in kept :: i.id;
    TypeCatalogue(
      db.configurationTypes - removed,
      kept,
      Keep(db.links, (l: TypeLink) => l.properties.configurationType !in removed && l.instrumentType in keptIds))
  }

  /** The catalogue once the configuration types instrument type `t` offers are deleted. */
  function Cleared(db: TypeCatalogue, t: int): TypeCatalogue {
    DeleteConfigurationTypes(db, LinkedCodes(db.links, t))
  }

  /** A row `get_or_create` can store for `t` in `cleared`: the instrument type still
      exists and the row names a stored configuration type. */
  predicate Linkable(cleared: TypeCatalogue, t: int, p: ConfigurationTypeProperties) {
    t in TypeIds(cleared) && p.configurationType in cleared.configurationTypes
  }

  /** The rows stored before the first one that raises: each `get_or_create` commits
      on its own, so this is the longest prefix of linkable rows. */
  function CommittedRows(cleared: TypeCatalogue, t: int, rows: seq<ConfigurationTypeProperties>): (r: seq<ConfigurationTypeProperties>)
    ensures |r| <= |rows| && r == rows[..|r|]
    ensures forall p :: p in r ==> Linkable(cleared, t, p)
    ensures |r| < |rows| ==> !Linkable(cleared, t, rows[|r|])
    decreases |rows|
  {
    if |rows| == 0 || !Linkable(cleared, t, rows[0]) then []
    else
      var rest := CommittedRows(cleared, t, rows[1..]);
      assert [rows[0]] + rest == rows[..|rest| + 1];
      [rows[0]] + rest
  }

  /** The outcome of the as-written update: the database as the committed writes left
      it, and the error that ended the request, if any. */
  datatype UpdateOutcome = UpdateOutcome(db: TypeCatalogue, error: Option<string>)

  const ConfigurationTypeIntegrityError: string := "IntegrityError: a configuration type the update needs was deleted"

  /** `InstrumentTypeSerializer.update` on the configuration types, as written:
      `instance.configuration_types.all().delete()` deletes the shared
      `ConfigurationType` rows the instrument type offers, not its links. A supplied
      row naming one of them then refers to a deleted row, as does a row naming a code
      never stored, and so does the instance itself once its own default was among
      them; each ends in an `IntegrityError`. No transaction wraps the request: the
      deletion and each row stored before the failing one stay committed. */
  function UpdateConfigurationTypesAsWritten(db: TypeCatalogue, t: int, supplied: Option<seq<ConfigurationTypeProperties>>): (r: UpdateOutcome)
    requires t in TypeIds(db)
    ensures supplied.None? ==> r == UpdateOutcome(db, None)
    ensures supplied.Some? ==> (r.error.Some? <==> AsWrittenFails(db, t, supplied.value))
    ensures r.error.Some? ==> r.error.value == ConfigurationTypeIntegrityError
    ensures supplied.Some? ==> forall c :: c in LinkedCodes(db.links, t) ==> c !in r.db.configurationTypes
    ensures supplied.Some? ==> forall l :: l in db.links && l.properties.configurationType in LinkedCodes(db.links, t) ==> l !in r.db.links
    ensures supplied.Some? ==> r.db.configurationTypes == Cleared(db, t).configurationTypes && r.db.instrumentTypes == Cleared(db, t).instrumentTypes
    ensures supplied.Some? ==> forall l: TypeLink :: l.instrumentType != t ==> (l in r.db.links <==> l in Cleared(db, t).links)
    ensures supplied.Some? ==> forall p :: TypeLink(t, p) in r.db.links <==> p in CommittedRows(Cleared(db, t), t, supplied.value)
    ensures r.error.None? ==> forall p :: p in supplied.GetOr([]) ==> TypeLink(t, p) in r.db.links
  {
    match supplied
    case None => UpdateOutcome(db, None)
    case Some(rows) =>
      var cleared := Cleared(db, t);
      var committed := CommittedRows(cleared, t, rows);
      ClearedKeepsNoLinks(db, t);
      FailsIffCut(db, t, rows);
      UpdateOutcome(cleared.(links := AddLinks(cleared.links, t, committed)),
                    if AsWrittenFails(db, t, rows) then Some(ConfigurationTypeIntegrityError) else None)
  }

  /** When the update as written ends in an `IntegrityError`: the instrument type went
      with its default configuration type, or a supplied row names a configuration
      type that was deleted or never stored. */
  predicate AsWrittenFails(db: TypeCatalogue, t: int, rows: seq<ConfigurationTypeProperties>) {
    var removed := LinkedCodes(db.links, t);
    || t !in TypeIds(DeleteConfigurationTypes(db, removed))
    || exists p :: p in rows && (p.configurationType in removed || p.configurationType !in db.configurationTypes)
  }

  /** After the deletion no link of `t` is left, and no link names a deleted code. */
  lemma ClearedKeepsNoLinks(db: TypeCatalogue, t: int)
    ensures forall l :: l in Cleared(db, t).links ==> l.instrumentType != t
    ensures forall l :: l in Cleared(db, t).links ==> l.properties.configurationType !in LinkedCodes(db.links, t)
  {
    forall l | l in Cleared(db, t).links
      ensures l.instrumentType != t
    {
      assert l in db.links;
      assert l.instrumentType == t ==> l.properties.configurationType in LinkedCodes(db.links, t);
    }
  }

  /** The update fails exactly when the instrument type is gone or a row is cut off. */
  lemma FailsIffCut(db: TypeCatalogue, t: int, rows: seq<ConfigurationTypeProperties>)
    ensures AsWrittenFails(db, t, rows) <==> t !in TypeIds(Cleared(db, t)) || |CommittedRows(Cleared(db, t), t, rows)| < |rows|
  {
    var cleared := Cleared(db, t);
    var committed := CommittedRows(cleared, t, rows);
    if |committed| < |rows| {
      var p := rows[|committed|];
      assert p in rows && !Linkable(cleared, t, p);
    } else {
      assert committed == rows;
    }
  }

  /** `InstrumentTypeSerializer.update` as its comment intends: a supplied set clears
      this instrument type's rows and fills them from the set; every other row and
      every catalogue entry is left as it was. */
  function UpdateConfigurationTypes(db: TypeCatalogue, t: int, supplied: Option<seq<ConfigurationTypeProperties>>): (r: TypeCatalogue)
    ensures supplied.None? ==> r == db
    ensures r.configurationTypes == db.configurationTypes && r.instrumentTypes == db.instrumentTypes
    ensures forall l: TypeLink :: l.instrumentType != t ==> (l in r.links <==> l in db.links)
    ensures supplied.Some? ==> forall p :: TypeLink(t, p) in r.links <==> p in supplied.value
    ensures Distinct(db.links) ==> Distinct(r.links)
  {
    match supplied
    case None => db
    case Some(rows) =>
      var others := Keep(db.links, OtherTypes(t));
      assert Distinct(db.links) ==> Distinct(others) by {
        if Distinct(db.links) {
          KeepDistinct(db.links, OtherTypes(t));
        }
      }
      db.(links := AddLinks(others, t, rows))
  }

  /** `InstrumentTypeSerializer.create`: the new instrument type and one row per
      supplied row, or none. */
  function CreateConfigurationTypes(db: TypeCatalogue, created: InstrumentTypeRow, supplied: Option<seq<ConfigurationTypeProperties>>): (r: TypeCatalogue)
    requires created.id !in TypeIds(db)
    ensures r.configurationTypes == db.configurationTypes && r.instrumentTypes == db.instrumentTypes + [created]
    ensures forall l: TypeLink :: l.instrumentType != created.id ==> (l in r.links <==> l in db.links)
    ensures forall p :: TypeLink(created.id, p) in r.links <==> TypeLink(created.id, p) in db.links || (supplied.Some? && p in supplied.value)
    ensures Distinct(db.links) ==> Distinct(r.links)
  {
    TypeCatalogue(db.configurationTypes, db.instrumentTypes + [created], AddLinks(db.links, created.id, supplied.GetOr([])))
  }

  /** The links of every instrument type but `t`. */
  function OtherTypes(t: int): TypeLink -> bool {
    (l: TypeLink) => l.instrumentType != t
  }

  /** Adding rows for `t` leaves the links of every other instrument type as they were,
      in order. */
  lemma KeepAddLinks(links: seq<TypeLink>, t: int, rows: seq<ConfigurationTypeProperties>)
    ensures Keep(AddLinks(links, t, rows), OtherTypes(t)) == Keep(links, OtherTypes(t))
  {
    var all := AddLinks(links, t, rows);
    var offered := seq(|rows|, k requires 0 <= k < |rows| => TypeLink(t, rows[k]));
    assert all == AddAll(links, offered);
    var suffix := all[|links|..];
    assert all == links + suffix;
    forall i | 0 <= i < |suffix|
      ensures !OtherTypes(t)(suffix[i])
    {
      assert suffix[i] == all[|links| + i];
      assert suffix[i] in offered;
    }
    KeepAppend(links, suffix, OtherTypes(t));
    KeepNone(suffix, OtherTypes(t));
  }

  /** Sending the same set twice changes nothing the second time. */
  lemma ConfigurationTypesReplaced(db: TypeCatalogue, t: int, rows: seq<ConfigurationTypeProperties>)
    ensures UpdateConfigurationTypes(UpdateConfigurationTypes(db, t, Some(rows)), t, Some(rows)) == UpdateConfigurationTypes(db, t, Some(rows))
    ensures forall p :: TypeLink(t, p) in db.links && p !in rows ==> TypeLink(t, p) !in UpdateConfigurationTypes(db, t, Some(rows)).links
  {
    var others := Keep(db.links, OtherTypes(t));
    KeepAddLinks(others, t, rows);
    KeepAll(others, OtherTypes(t));
  }

  /** The update as written cannot keep another instrument type's offer of a shared
      configuration type: instrument types 1 and 2 both offer `EXPOSE`, and replacing
      the set of type 1 with nothing takes `EXPOSE` from type 2 as well, where the
      intended update leaves type 2 alone. */
  lemma AsWrittenUpdateDropsSharedRows()
    ensures var db := SharedExpose();
      && UpdateConfigurationTypesAsWritten(db, 1, Some([])).error.None?
      && TypeLink(2, Expose()) !in UpdateConfigurationTypesAsWritten(db, 1, Some([])).db.links
      && TypeLink(2, Expose()) in UpdateConfigurationTypes(db, 1, Some([])).links
  {
    var db := SharedExpose();
    var removed := LinkedCodes(db.links, 1);
    assert "EXPOSE" in removed by {
      assert TypeLink(1, Expose()) in db.links;
    }
    var cleared := DeleteConfigurationTypes(db, removed);
    assert InstrumentTypeRow(1, None) in cleared.instrumentTypes;
    assert 1 in TypeIds(cleared);
    assert !AsWrittenFails(db, 1, []);
  }

  /** Sending type 1's own set back fails as written: its one row names the deleted
      `EXPOSE`. The failed request still leaves `EXPOSE` deleted and type 2 without
      it. The corrected update links it again. */
  lemma AsWrittenResendFails()
    ensures var r := UpdateConfigurationTypesAsWritten(SharedExpose(), 1, Some([Expose()]));
      && r.error.Some?
      && "EXPOSE" !in r.db.configurationTypes
      && TypeLink(2, Expose()) !in r.db.links
    ensures TypeLink(1, Expose()) in UpdateConfigurationTypes(SharedExpose(), 1, Some([Expose()])).links
  {
    var db := SharedExpose();
    assert "EXPOSE" in LinkedCodes(db.links, 1) by {
      assert TypeLink(1, Expose()) in db.links;
    }
  }

  function Expose(): ConfigurationTypeProperties {
    ConfigurationTypeProperties("EXPOSE", "0", true, false, false, JObject(map[]))
  }

  /** Two instrument types offering `EXPOSE`, neither defaulting to it. */
  function SharedExpose(): TypeCatalogue {
    TypeCatalogue({"EXPOSE"}, [InstrumentTypeRow(1, None), InstrumentTypeRow(2, None)],
                  [TypeLink(1, Expose()), TypeLink(2, Expose())])
  }
}
