/** configdb/hardware/heroic.py: the payloads sent to the HEROIC service and the
    guards that decide whether anything is sent. The HTTP request itself is left to
    the caller: a builder returns the request it would send. */
module Heroic {
  import opened Outcomes
  import opened Strings
  import opened JsonValues
  import opened KeyedMaps
  import opened InstrumentStates
  import opened Hardware

  const StatusUnavailable: string := "UNAVAILABLE"
  const StatusSchedulable: string := "SCHEDULABLE"
  const StatusAvailable: string := "AVAILABLE"

  /** The status HEROIC is meant to see for each instrument state. */
  function StatusOf(s: State): string {
    match s
    case Disabled => StatusUnavailable
    case Manual => StatusUnavailable
    case Schedulable => StatusSchedulable
    case _ => StatusAvailable
  }

  /** `instrument_status_conversion(state)`: the state is compared with the labels as
      strings, so an integer state never matches any of them. */
  function InstrumentStatus(state: StoredState): (r: string)
    ensures r == StatusUnavailable || r == StatusSchedulable || r == StatusAvailable
    ensures state.Text? && FromLabel(state.s).Some? ==> r == StatusOf(FromLabel(state.s).value)
    ensures state.Number? || FromLabel(state.s).None? ==> r == StatusAvailable
  {
    if state == Text("DISABLED") || state == Text("MANUAL") then StatusUnavailable
    else if state == Text("SCHEDULABLE") then StatusSchedulable
    else StatusAvailable
  }

  /** With models.py's integer state field every instrument, DISABLED (0) included,
      is reported AVAILABLE. */
  lemma IntegerStatesReportedAvailable(code: int)
    ensures InstrumentStatus(Number(code)) == StatusAvailable
  {
  }

  /** `telescope_status_conversion`. */
  function TelescopeStatus(t: Telescope): (r: string)
    ensures r == StatusSchedulable <==> t.active && t.enclosure.active && t.enclosure.site.active
    ensures r != StatusSchedulable ==> r == StatusUnavailable
  {
    if t.active && t.enclosure.active && t.enclosure.site.active then StatusSchedulable else StatusUnavailable
  }

  /** The HEROIC settings the builders read. An unset setting is the empty string. */
  datatype Settings = Settings(
    apiUrl: string,
    apiToken: string,
    observatory: string,
    excludeSites: seq<string>,
    excludeTelescopes: seq<string>)

  /** `can_submit_to_heroic` in configdb/hardware/apps.py: all three settings are truthy. */
  predicate CanSubmit(settings: Settings) {
    |settings.apiUrl| > 0 && |settings.apiToken| > 0 && |settings.observatory| > 0
  }

  /** `heroic_site_id`: `observatory.site`. */
  function SiteId(settings: Settings, site: Site): string {
    settings.observatory + "." + site.code
  }

  /** `heroic_telescope_id`: `observatory.site.enclosure-telescope`. */
  function TelescopeId(settings: Settings, t: Telescope): string {
    SiteId(settings, t.enclosure.site) + "." + t.enclosure.code + "-" + t.code
  }

  /** `heroic_instrument_id`: `observatory.site.enclosure-telescope.instrument`. */
  function InstrumentId(settings: Settings, i: Instrument): string {
    TelescopeId(settings, i.telescope) + "." + i.code
  }

  /** The four dot-separated levels of an instrument id. */
  function InstrumentIdParts(settings: Settings, i: Instrument): seq<string> {
    [settings.observatory, i.telescope.enclosure.site.code, i.telescope.enclosure.code + "-" + i.telescope.code, i.code]
  }

  /** Ids nest: the instrument id is the telescope id, a dot and the instrument code,
      the telescope id is the site id, a dot and `enclosure-telescope`, and with
      dot-free codes the id splits back into observatory, site, `enclosure-telescope`
      and instrument. */
  lemma InstrumentIdNests(settings: Settings, i: Instrument)
    ensures InstrumentId(settings, i) == TelescopeId(settings, i.telescope) + "." + i.code
    ensures TelescopeId(settings, i.telescope) ==
      SiteId(settings, i.telescope.enclosure.site) + "." + i.telescope.enclosure.code + "-" + i.telescope.code
    ensures (forall k :: 0 <= k < 4 ==> '.' !in InstrumentIdParts(settings, i)[k]) ==>
      Split(InstrumentId(settings, i), '.') == InstrumentIdParts(settings, i)
  {
    var parts := InstrumentIdParts(settings, i);
    assert Join(parts[..2], ".") == parts[0] + "." + parts[1];
    JoinSnoc(parts[..2], ".", parts[2]);
    assert parts[..2] + [parts[2]] == parts[..3];
    JoinSnoc(parts[..3], ".", parts[3]);
    assert parts[..3] + [parts[3]] == parts;
    assert InstrumentId(settings, i) == Join(parts, ".");
    if forall k :: 0 <= k < 4 ==> '.' !in parts[k] {
      SplitJoin(parts, '.');
    }
  }

  /** One entry of `options`: `{'id': code, 'name': name, 'schedulable': flag}`. */
  datatype Choice = Choice(id: string, name: string, schedulable: bool)

  /** One group entry: `{'options': [...]}` plus `'default'` when the group has one. */
  datatype GroupEntry = GroupEntry(default: Option<string>, options: seq<Choice>)

  function ElementChoices(elements: seq<OpticalElement>): (r: seq<Choice>)
    ensures |r| == |elements|
    ensures forall k :: 0 <= k < |elements| ==>
      r[k] == Choice(elements[k].code, elements[k].name, elements[k].schedulable)
  {
    seq(|elements|, k requires 0 <= k < |elements| => Choice(elements[k].code, elements[k].name, elements[k].schedulable))
  }

  function ModeChoices(modes: seq<GenericMode>): (r: seq<Choice>)
    ensures |r| == |modes|
    ensures forall k :: 0 <= k < |modes| ==> r[k] == Choice(modes[k].code, modes[k].name, modes[k].schedulable)
  {
    seq(|modes|, k requires 0 <= k < |modes| => Choice(modes[k].code, modes[k].name, modes[k].schedulable))
  }

  /** The entry one optical element group contributes. */
  function ElementGroupEntry(g: OpticalElementGroup): (r: GroupEntry)
    ensures r.default.Some? <==> g.default.Some?
    ensures g.default.Some? ==> r.default.value == g.default.value.code
    ensures ElementCodes(g.elements) == seq(|r.options|, k requires 0 <= k < |r.options| => r.options[k].id)
  {
    GroupEntry(if g.default.Some? then Some(g.default.value.code) else None, ElementChoices(g.elements))
  }

  /** The optical element groups of all science cameras, camera by camera. */
  function ScienceGroups(cameras: seq<Camera>): (r: seq<OpticalElementGroup>)
    ensures forall g :: g in r <==> exists c :: c in cameras && g in c.groups
    ensures |cameras| == 1 ==> r == cameras[0].groups
    decreases |cameras|
  {
    if |cameras| == 0 then []
    else
      var rest := ScienceGroups(cameras[1..]);
      assert forall c :: c in cameras <==> c == cameras[0] || c in cameras[1..];
      cameras[0].groups + rest
  }

  /** The groups of consecutive camera lists follow one another: the groups of an
      earlier camera always come before those of a later one. */
  lemma {:induction false} ScienceGroupsAppend(a: seq<Camera>, b: seq<Camera>)
    ensures ScienceGroups(a + b) == ScienceGroups(a) + ScienceGroups(b)
    decreases |a|
  {
    if |a| == 0 {
      assert a + b == b;
    } else {
      assert (a + b)[1..] == a[1..] + b;
      ScienceGroupsAppend(a[1..], b);
    }
  }

  /** The `(type, entry)` assignments of `heroic_optical_element_groups`, in order. */
  function ElementGroupPairs(groups: seq<OpticalElementGroup>): (r: seq<(string, GroupEntry)>)
    ensures |r| == |groups|
    ensures forall k :: 0 <= k < |groups| ==> r[k] == (groups[k].groupType, ElementGroupEntry(groups[k]))
  {
    seq(|groups|, k requires 0 <= k < |groups| => (groups[k].groupType, ElementGroupEntry(groups[k])))
  }

  lemma ElementGroupPairKeys(groups: seq<OpticalElementGroup>)
    ensures forall t :: t in KeysOf(ElementGroupPairs(groups)) <==> exists k :: 0 <= k < |groups| && groups[k].groupType == t
    ensures forall k :: 0 <= k < |groups| && (forall j :: k < j < |groups| ==> groups[j].groupType != groups[k].groupType) ==>
      LastFor(ElementGroupPairs(groups), k)
  {
    var pairs := ElementGroupPairs(groups);
    forall t
      ensures t in KeysOf(pairs) <==> exists k :: 0 <= k < |groups| && groups[k].groupType == t
    {
      if exists k :: 0 <= k < |groups| && groups[k].groupType == t {
        var k :| 0 <= k < |groups| && groups[k].groupType == t;
        assert KeysOf(pairs)[k] == t;
      }
    }
  }

  /** `heroic_optical_element_groups(instrument)`: keyed by group type over the groups
      of all science cameras; the last group of a type supplies the whole entry. */
  function HeroicOpticalElementGroups(i: Instrument): (r: map<string, GroupEntry>)
    ensures forall t :: t in r <==> exists k :: 0 <= k < |ScienceGroups(i.scienceCameras)| && ScienceGroups(i.scienceCameras)[k].groupType == t
    ensures var gs := ScienceGroups(i.scienceCameras);
      forall k :: 0 <= k < |gs| && (forall j :: k < j < |gs| ==> gs[j].groupType != gs[k].groupType) ==>
        r[gs[k].groupType] == ElementGroupEntry(gs[k])
  {
    var gs := ScienceGroups(i.scienceCameras);
    ElementGroupPairKeys(gs);
    Collect(ElementGroupPairs(gs))
  }

  /** The entry one generic mode group contributes. */
  function ModeGroupEntry(g: GenericModeGroup): (r: GroupEntry)
    ensures r.default.Some? <==> g.default.Some?
    ensures g.default.Some? ==> r.default.value == g.default.value.code
    ensures ModeCodes(g.modes) == seq(|r.options|, k requires 0 <= k < |r.options| => r.options[k].id)
  {
    GroupEntry(if g.default.Some? then Some(g.default.value.code) else None, ModeChoices(g.modes))
  }

  /** The `(type.id, entry)` assignments of `heroic_operation_modes`; `None` when a
      group has no mode type (`type.id` raises on `None`). */
  function ModeGroupAssignments(groups: seq<GenericModeGroup>): (r: Option<seq<(string, GroupEntry)>>)
    ensures r.Some? <==> forall k :: 0 <= k < |groups| ==> groups[k].modeType.Some?
    ensures r.Some? ==> |r.value| == |groups|
    ensures r.Some? ==> forall k :: 0 <= k < |groups| ==> r.value[k] == (groups[k].modeType.value.id, ModeGroupEntry(groups[k]))
    decreases |groups|
  {
    if |groups| == 0 then Some([])
    else if groups[0].modeType.None? then None
    else
      match ModeGroupAssignments(groups[1..])
      case None => None
      case Some(rest) => Some([(groups[0].modeType.value.id, ModeGroupEntry(groups[0]))] + rest)
  }

  lemma ModeGroupPairKeys(groups: seq<GenericModeGroup>, pairs: seq<(string, GroupEntry)>)
    requires |pairs| == |groups|
    requires forall k :: 0 <= k < |groups| ==> groups[k].modeType.Some? && pairs[k] == (groups[k].modeType.value.id, ModeGroupEntry(groups[k]))
    ensures forall k :: 0 <= k < |groups| ==> groups[k].modeType.value.id in KeysOf(pairs)
    ensures forall t :: t in KeysOf(pairs) ==> exists k :: 0 <= k < |groups| && groups[k].modeType.value.id == t
    ensures forall k :: 0 <= k < |groups| && (forall j :: k < j < |groups| ==> groups[j].modeType != groups[k].modeType) ==>
      LastFor(pairs, k)
  {
    forall t | t in KeysOf(pairs)
      ensures exists k :: 0 <= k < |groups| && groups[k].modeType.value.id == t
    {
      var k :| 0 <= k < |pairs| && KeysOf(pairs)[k] == t;
      assert groups[k].modeType.value.id == t;
    }
    forall k | 0 <= k < |groups|
      ensures groups[k].modeType.value.id in KeysOf(pairs)
    {
      assert KeysOf(pairs)[k] == groups[k].modeType.value.id;
    }
  }

  /** `heroic_operation_modes(instrument)`: `None` where the source raises, on an
      instrument without a type or a group without a mode type. */
  function HeroicOperationModes(i: Instrument): (r: Option<map<string, GroupEntry>>)
    ensures r.None? <==> (i.instrumentType.None? ||
      exists k :: 0 <= k < |i.instrumentType.value.modeGroups| && i.instrumentType.value.modeGroups[k].modeType.None?)
    ensures r.Some? ==> forall k :: 0 <= k < |i.instrumentType.value.modeGroups| ==>
      i.instrumentType.value.modeGroups[k].modeType.value.id in r.value
    ensures r.Some? ==> forall t :: t in r.value ==>
      exists k :: 0 <= k < |i.instrumentType.value.modeGroups| && i.instrumentType.value.modeGroups[k].modeType.value.id == t
    ensures r.Some? ==> var groups := i.instrumentType.value.modeGroups;
      forall k :: 0 <= k < |groups| && (forall j :: k < j < |groups| ==> groups[j].modeType != groups[k].modeType) ==>
        r.value[groups[k].modeType.value.id] == ModeGroupEntry(groups[k])
  {
    if i.instrumentType.None? then None
    else
      var groups := i.instrumentType.value.modeGroups;
      match ModeGroupAssignments(groups)
      case None => None
      case Some(pairs) =>
        ModeGroupPairKeys(groups, pairs);
        Some(Collect(pairs))
  }

  /** A group entry as JSON: `'default'` is present iff the group has a default. */
  function EntryJson(e: GroupEntry): (r: Json)
    ensures r.JObject? && "options" in r.fields
    ensures "default" in r.fields <==> e.default.Some?
    ensures e.default.Some? ==> r.fields["default"] == JStr(e.default.value)
    ensures r.fields.Keys <= {"options", "default"}
    ensures r.fields["options"].JList? && |r.fields["options"].items| == |e.options|
    ensures forall k :: 0 <= k < |e.options| ==> r.fields["options"].items[k] == ChoiceJson(e.options[k])
  {
    var options := map["options" := JList(seq(|e.options|, k requires 0 <= k < |e.options| => ChoiceJson(e.options[k])))];
    JObject(if e.default.Some? then options["default" := JStr(e.default.value)] else options)
  }

  function ChoiceJson(c: Choice): Json {
    JObject(map["id" := JStr(c.id), "name" := JStr(c.name), "schedulable" := JBool(c.schedulable)])
  }

  function EntriesJson(m: map<string, GroupEntry>): (r: Json)
    ensures r.JObject? && r.fields.Keys == m.Keys
    ensures forall t :: t in m ==> r.fields[t] == EntryJson(m[t])
  {
    JObject(map t | t in m :: EntryJson(m[t]))
  }

  const CapabilityKeys: set<string> := {"instrument", "status", "optical_element_groups", "operation_modes"}

  /** The capability dictionary of one instrument, from its four parts. */
  function CapabilityFields(id: string, status: string, groups: Json, modes: Json): (r: map<string, Json>)
    ensures r.Keys == CapabilityKeys
    ensures r["instrument"] == JStr(id) && r["status"] == JStr(status)
    ensures r["optical_element_groups"] == groups && r["operation_modes"] == modes
  {
    map["instrument" := JStr(id), "status" := JStr(status), "optical_element_groups" := groups, "operation_modes" := modes]
  }

  /** `instrument_to_heroic_instrument_capabilities`; `None` where the operation modes raise. */
  function Capabilities(settings: Settings, i: Instrument): (r: Option<Json>)
    ensures r.Some? <==> HeroicOperationModes(i).Some?
    ensures r.Some? ==> r.value.JObject? && r.value.fields.Keys == CapabilityKeys
    ensures r.Some? ==> r.value.fields["instrument"] == JStr(InstrumentId(settings, i))
    ensures r.Some? ==> r.value.fields["status"] == JStr(InstrumentStatus(i.state))
    ensures r.Some? ==> r.value.fields["optical_element_groups"] == EntriesJson(HeroicOpticalElementGroups(i))
    ensures r.Some? ==> r.value.fields["operation_modes"] == EntriesJson(HeroicOperationModes(i).value)
  {
    var modes := HeroicOperationModes(i);
    if modes.None? then None
    else
      var fields := CapabilityFields(InstrumentId(settings, i), InstrumentStatus(i.state),
                                     EntriesJson(HeroicOpticalElementGroups(i)), EntriesJson(modes.value));
      Some(JObject(fields))
  }

  /** What a HEROIC call would send: the endpoint below the API URL, the body, and
      whether it is a PATCH (an update) rather than a POST. */
  datatype Request = Request(endpoint: string, payload: Json, update: bool)

  /** The outcome of a builder: nothing sent, a request, or an exception before any
      request (an attribute read on `None`). A request that fails is logged by the
      source and not modelled. */
  datatype Dispatch = Skip | Send(request: Request) | Fails

  predicate SiteExcluded(settings: Settings, site: Site) {
    site.code in settings.excludeSites
  }

  predicate TelescopeExcluded(settings: Settings, t: Telescope) {
    SiteExcluded(settings, t.enclosure.site) || TelescopeDisplay(t) in settings.excludeTelescopes
  }

  /** `create_heroic_instrument`. */
  function CreateInstrument(settings: Settings, i: Instrument): (r: Dispatch)
    ensures r.Skip? <==> TelescopeExcluded(settings, i.telescope)
    ensures r.Fails? <==> !TelescopeExcluded(settings, i.telescope) && i.instrumentType.None?
    ensures r.Send? ==> r.request.endpoint == "instruments/" && !r.request.update
    ensures r.Send? ==> r.request.payload.JObject? && r.request.payload.fields.Keys == {"id", "name", "telescope", "available"}
    ensures r.Send? ==> r.request.payload == JObject(map[
      "id" := JStr(InstrumentId(settings, i)),
      "name" := JStr(i.instrumentType.value.name + " - " + i.code),
      "telescope" := JStr(TelescopeId(settings, i.telescope)),
      "available" := JBool(true)])
  {
    if TelescopeExcluded(settings, i.telescope) then Skip
    else if i.instrumentType.None? then Fails
    else Send(Request("instruments/", JObject(map[
      "id" := JStr(InstrumentId(settings, i)),
      "name" := JStr(i.instrumentType.value.name + " - " + i.code),
      "telescope" := JStr(TelescopeId(settings, i.telescope)),
      "available" := JBool(true)]), false))
  }

  /** `update_heroic_instrument_capabilities`: nothing is sent when HEROIC is not
      configured, the state is the string `'DISABLED'`, or the site or telescope is excluded. */
  function UpdateInstrumentCapabilities(settings: Settings, i: Instrument): (r: Dispatch)
    ensures r.Skip? <==> !CanSubmit(settings) || i.state == Text("DISABLED") || TelescopeExcluded(settings, i.telescope)
    ensures r.Fails? <==> !r.Skip? && Capabilities(settings, i).None?
    ensures r.Send? ==> r.request == Request("instrument-capabilities/", Capabilities(settings, i).value, false)
  {
    if CanSubmit(settings) && i.state != Text("DISABLED") && !TelescopeExcluded(settings, i.telescope) then
      match Capabilities(settings, i)
      case None => Fails
      case Some(capabilities) => Send(Request("instrument-capabilities/", capabilities, false))
    else Skip
  }

  /** The string guard lets an integer-coded DISABLED instrument through. */
  lemma IntegerDisabledNotSkipped(settings: Settings, i: Instrument)
    requires CanSubmit(settings) && !TelescopeExcluded(settings, i.telescope)
    requires i.state == Number(Code(Disabled))
    ensures !UpdateInstrumentCapabilities(settings, i).Skip?
  {
  }

  /** `telescope_to_heroic_telescope_properties`. */
  function TelescopeProperties(settings: Settings, t: Telescope): (r: map<string, Json>)
    ensures r.Keys == {"name", "site", "aperture", "latitude", "longitude", "horizon",
                       "negative_ha_limit", "positive_ha_limit", "zenith_blind_spot"}
    ensures r["site"] == JStr(SiteId(settings, t.enclosure.site))
    ensures r["name"] == JStr(t.name + " - " + t.enclosure.name)
    ensures r["aperture"] == JNumber(t.aperture) && r["horizon"] == JNumber(t.horizon)
    ensures r["latitude"] == JNumber(t.lat) && r["longitude"] == JNumber(t.long)
    ensures r["negative_ha_limit"] == JNumber(t.haLimitNeg) && r["positive_ha_limit"] == JNumber(t.haLimitPos)
    ensures r["zenith_blind_spot"] == JNumber(t.zenithBlindSpot)
  {
    map[
      "name" := JStr(t.name + " - " + t.enclosure.name),
      "site" := JStr(SiteId(settings, t.enclosure.site)),
      "aperture" := JNumber(t.aperture),
      "latitude" := JNumber(t.lat),
      "longitude" := JNumber(t.long),
      "horizon" := JNumber(t.horizon),
      "negative_ha_limit" := JNumber(t.haLimitNeg),
      "positive_ha_limit" := JNumber(t.haLimitPos),
      "zenith_blind_spot" := JNumber(t.zenithBlindSpot)]
  }

  const InactiveReason: string := "Telescope is currently marked as inactive to prevent usage"

  /** The body `create_heroic_telescope` sends: the properties with `id` and `status`
      set, and `reason` set when the status is not SCHEDULABLE. */
  function TelescopePayload(properties: map<string, Json>, id: string, status: string): (r: map<string, Json>)
    ensures r.Keys == properties.Keys + {"id", "status"} + (if status != StatusSchedulable then {"reason"} else {})
    ensures r["id"] == JStr(id) && r["status"] == JStr(status)
    ensures status != StatusSchedulable ==> r["reason"] == JStr(InactiveReason)
    ensures forall k :: k in properties && k != "id" && k != "status" && k != "reason" ==> r[k] == properties[k]
  {
    var payload := properties["id" := JStr(id)]["status" := JStr(status)];
    if status != StatusSchedulable then payload["reason" := JStr(InactiveReason)] else payload
  }

  /** `create_heroic_telescope`: the payload carries `'reason'` iff the status is not SCHEDULABLE. */
  function CreateTelescope(settings: Settings, t: Telescope): (r: Dispatch)
    ensures r.Skip? <==> TelescopeExcluded(settings, t)
    ensures !r.Fails?
    ensures r.Send? ==> r.request.endpoint == "telescopes/" && !r.request.update
    ensures r.Send? ==> r.request.payload == JObject(TelescopePayload(TelescopeProperties(settings, t), TelescopeId(settings, t), TelescopeStatus(t)))
    ensures r.Send? ==> ("reason" in r.request.payload.fields <==> TelescopeStatus(t) != StatusSchedulable)
  {
    if TelescopeExcluded(settings, t) then Skip
    else
      PropertiesLackReason(settings, t);
      Send(Request("telescopes/", JObject(TelescopePayload(TelescopeProperties(settings, t), TelescopeId(settings, t), TelescopeStatus(t))), false))
  }

  /** The telescope properties carry no `reason`, `id` or `status` of their own. */
  lemma PropertiesLackReason(settings: Settings, t: Telescope)
    ensures "reason" !in TelescopeProperties(settings, t) && "id" !in TelescopeProperties(settings, t)
    ensures "status" !in TelescopeProperties(settings, t)
    ensures "reason" != "id" && "reason" != "status" && "id" != "status"
  {
  }

  /** `update_heroic_telescope_properties`: a PATCH to `telescopes/<id>/`. */
  function UpdateTelescope(settings: Settings, t: Telescope): (r: Dispatch)
    ensures r.Skip? <==> TelescopeExcluded(settings, t)
    ensures r.Send? ==> r.request == Request("telescopes/" + TelescopeId(settings, t) + "/", JObject(TelescopeProperties(settings, t)), true)
    ensures !r.Fails?
  {
    if TelescopeExcluded(settings, t) then Skip
    else Send(Request("telescopes/" + TelescopeId(settings, t) + "/", JObject(TelescopeProperties(settings, t)), true))
  }

  /** `site_to_heroic_site_properties`. */
  function SiteProperties(settings: Settings, s: Site): (r: map<string, Json>)
    ensures r.Keys == {"name", "observatory", "elevation", "timezone"}
    ensures r["observatory"] == JStr(settings.observatory)
    ensures r["name"] == JStr(s.name) && r["elevation"] == JInt(s.elevation) && r["timezone"] == JStr(s.tz)
  {
    map["name" := JStr(s.name), "observatory" := JStr(settings.observatory), "elevation" := JInt(s.elevation), "timezone" := JStr(s.tz)]
  }

  /** `create_heroic_site`. */
  function CreateSite(settings: Settings, s: Site): (r: Dispatch)
    ensures r.Skip? <==> SiteExcluded(settings, s)
    ensures r.Send? ==> r.request.endpoint == "sites/" && !r.request.update
    ensures r.Send? ==> r.request.payload == JObject(SiteProperties(settings, s)["id" := JStr(SiteId(settings, s))])
    ensures !r.Fails?
  {
    if SiteExcluded(settings, s) then Skip
    else Send(Request("sites/", JObject(SiteProperties(settings, s)["id" := JStr(SiteId(settings, s))]), false))
  }

  /** `update_heroic_site`: a PATCH to `sites/<id>/`. */
  function UpdateSite(settings: Settings, s: Site): (r: Dispatch)
    ensures r.Skip? <==> SiteExcluded(settings, s)
    ensures r.Send? ==> r.request == Request("sites/" + SiteId(settings, s) + "/", JObject(SiteProperties(settings, s)), true)
    ensures !r.Fails?
  {
    if SiteExcluded(settings, s) then Skip
    else Send(Request("sites/" + SiteId(settings, s) + "/", JObject(SiteProperties(settings, s)), true))
  }
}
