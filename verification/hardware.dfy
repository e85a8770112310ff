/** The records of configdb/hardware/models.py that the rest of the core reads, with
    their display strings. Foreign keys are held by value; many-to-many relations are
    sequences in the order the database returns them. Float fields are kept as text. */
module Hardware {
  import opened Outcomes
  import opened Strings
  import opened JsonValues
  import opened KeyedMaps
  import opened InstrumentStates

  datatype Site = Site(active: bool, code: string, name: string, elevation: int, tz: string)

  datatype Enclosure = Enclosure(active: bool, code: string, name: string, site: Site)

  /** `aperture` is read by the HEROIC payload builder; models.py as it stands declares
      no such field, so it is carried here as an opaque value of the telescope. */
  datatype Telescope = Telescope(
    active: bool,
    code: string,
    name: string,
    enclosure: Enclosure,
    aperture: string,
    lat: string,
    long: string,
    horizon: string,
    haLimitNeg: string,
    haLimitPos: string,
    zenithBlindSpot: string)

  datatype OpticalElement = OpticalElement(name: string, code: string, schedulable: bool)

  /** `type` is named `groupType` here, `type` being a Dafny keyword. */
  datatype OpticalElementGroup = OpticalElementGroup(
    id: int,
    name: string,
    groupType: string,
    default: Option<OpticalElement>,
    elements: seq<OpticalElement>)

  datatype ModeType = ModeType(id: string)

  datatype GenericMode = GenericMode(name: string, code: string, overhead: string, schedulable: bool, validationSchema: Json)

  /** `instrument_type` and `type` (here `modeType`) are nullable foreign keys. */
  datatype GenericModeGroup = GenericModeGroup(
    id: int,
    instrumentType: Option<int>,
    default: Option<GenericMode>,
    modeType: Option<ModeType>,
    modes: seq<GenericMode>)

  /** `modeGroups` is the reverse relation `mode_types`. */
  datatype InstrumentType = InstrumentType(id: int, name: string, code: string, modeGroups: seq<GenericModeGroup>)

  datatype Camera = Camera(code: string, groups: seq<OpticalElementGroup>)

  datatype Instrument = Instrument(
    code: string,
    state: StoredState,
    telescope: Telescope,
    instrumentType: Option<InstrumentType>,
    scienceCameras: seq<Camera>,
    autoguiderCamera: Camera)

  /** `Site.__str__`. */
  function SiteDisplay(s: Site): string {
    s.code
  }

  /** `Enclosure.__str__`: `site.code`. */
  function EnclosureDisplay(e: Enclosure): (r: string)
    ensures r == Join([e.site.code, e.code], ".")
  {
    SiteDisplay(e.site) + "." + e.code
  }

  /** `Telescope.__str__`: `site.enclosure.code`. */
  function TelescopeDisplay(t: Telescope): (r: string)
    ensures r == Join([t.enclosure.site.code, t.enclosure.code, t.code], ".")
  {
    JoinSnoc([t.enclosure.site.code, t.enclosure.code], ".", t.code);
    assert [t.enclosure.site.code, t.enclosure.code] + [t.code] == [t.enclosure.site.code, t.enclosure.code, t.code];
    EnclosureDisplay(t.enclosure) + "." + t.code
  }

  /** `Instrument.__str__`: `site.enclosure.telescope.code`. */
  function InstrumentDisplay(i: Instrument): (r: string)
    ensures r == Join([i.telescope.enclosure.site.code, i.telescope.enclosure.code, i.telescope.code, i.code], ".")
  {
    var telescopePath := [i.telescope.enclosure.site.code, i.telescope.enclosure.code, i.telescope.code];
    JoinSnoc(telescopePath, ".", i.code);
    assert telescopePath + [i.code] == [i.telescope.enclosure.site.code, i.telescope.enclosure.code, i.telescope.code, i.code];
    TelescopeDisplay(i.telescope) + "." + i.code
  }

  /** The codes along the chain site → enclosure → telescope → instrument. */
  function InstrumentPath(i: Instrument): seq<string> {
    [i.telescope.enclosure.site.code, i.telescope.enclosure.code, i.telescope.code, i.code]
  }

  /** With dot-free codes the nested display splits back into its four codes. */
  lemma InstrumentDisplaySplits(i: Instrument)
    requires forall k :: 0 <= k < 4 ==> '.' !in InstrumentPath(i)[k]
    ensures Split(InstrumentDisplay(i), '.') == InstrumentPath(i)
  {
    SplitJoin(InstrumentPath(i), '.');
  }

  /** The codes of a group's elements, in order. */
  function ElementCodes(elements: seq<OpticalElement>): (r: seq<string>)
    ensures |r| == |elements|
    ensures forall k :: 0 <= k < |elements| ==> r[k] == elements[k].code
  {
    seq(|elements|, k requires 0 <= k < |elements| => elements[k].code)
  }

  /** `OpticalElementGroup.optical_element_codes`. */
  function OpticalElementCodes(g: OpticalElementGroup): string {
    Join(ElementCodes(g.elements), ",")
  }

  /** The comma-joined codes split back into the element codes, in order, when no
      code contains a comma. */
  lemma OpticalElementCodesSplit(g: OpticalElementGroup)
    requires |g.elements| >= 1
    requires forall k :: 0 <= k < |g.elements| ==> ',' !in g.elements[k].code
    ensures Split(OpticalElementCodes(g), ',') == ElementCodes(g.elements)
  {
    SplitJoin(ElementCodes(g.elements), ',');
  }

  /** `OpticalElementGroup.__str__`: `name - type: codes`. */
  function OpticalElementGroupDisplay(g: OpticalElementGroup): string {
    g.name + " - " + g.groupType + ": " + OpticalElementCodes(g)
  }

  /** The group display begins with `name - type`, up to the first colon, whenever
      name and type have no colon of their own. */
  lemma OpticalElementGroupDisplayHead(g: OpticalElementGroup)
    requires ':' !in g.name && ':' !in g.groupType
    ensures Split(OpticalElementGroupDisplay(g), ':')[0] == g.name + " - " + g.groupType
  {
    var head := g.name + " - " + g.groupType;
    assert ':' !in head by {
      assert forall k :: 0 <= k < |head| ==> head[k] in g.name || head[k] == ' ' || head[k] == '-' || head[k] in g.groupType by {
        forall k | 0 <= k < |head|
          ensures head[k] in g.name || head[k] == ' ' || head[k] == '-' || head[k] in g.groupType
        {
          if k < |g.name| {
            assert head[k] == g.name[k];
          } else if k >= |g.name| + 3 {
            assert head[k] == g.groupType[k - |g.name| - 3];
          }
        }
      }
    }
    assert OpticalElementGroupDisplay(g) == head + [':'] + (" " + OpticalElementCodes(g));
    SplitAfterPrefix(head, ':', " " + OpticalElementCodes(g));
  }

  /** `GenericMode.__str__`: `code: name`. */
  function GenericModeDisplay(m: GenericMode): string {
    m.code + ": " + m.name
  }

  /** A mode display splits at its first colon into the code and the name, whenever the
      code has no colon of its own. */
  lemma GenericModeDisplaySplits(m: GenericMode)
    requires ':' !in m.code
    ensures Split(GenericModeDisplay(m), ':')[0] == m.code
    ensures ':' !in m.name ==> Split(GenericModeDisplay(m), ':') == [m.code, " " + m.name]
  {
    assert GenericModeDisplay(m) == m.code + [':'] + (" " + m.name);
    SplitAfterPrefix(m.code, ':', " " + m.name);
    if ':' !in m.name {
      assert ':' !in " " + m.name;
    }
  }

  /** The codes of a group's modes, in order. */
  function ModeCodes(modes: seq<GenericMode>): (r: seq<string>)
    ensures |r| == |modes|
    ensures forall k :: 0 <= k < |modes| ==> r[k] == modes[k].code
  {
    seq(|modes|, k requires 0 <= k < |modes| => modes[k].code)
  }

  /** `GenericModeGroup.__str__`: the comma-joined mode codes. */
  function GenericModeGroupDisplay(g: GenericModeGroup): string {
    Join(ModeCodes(g.modes), ",")
  }

  lemma GenericModeGroupDisplaySplits(g: GenericModeGroup)
    requires |g.modes| >= 1
    requires forall k :: 0 <= k < |g.modes| ==> ',' !in g.modes[k].code
    ensures Split(GenericModeGroupDisplay(g), ',') == ModeCodes(g.modes)
  {
    SplitJoin(ModeCodes(g.modes), ',');
  }

  /** The pairs `(oeg.groupType, oeg.optical_element_codes())` in group order. */
  function TypeCodePairs(groups: seq<OpticalElementGroup>): (r: seq<(string, string)>)
    ensures |r| == |groups|
    ensures forall k :: 0 <= k < |groups| ==> r[k] == (groups[k].groupType, OpticalElementCodes(groups[k]))
  {
    seq(|groups|, k requires 0 <= k < |groups| => (groups[k].groupType, OpticalElementCodes(groups[k])))
  }

  /** `Camera.optical_elements`: each group type maps to the codes of the last group
      of that type. */
  function CameraOpticalElements(c: Camera): (r: map<string, string>)
    ensures forall t :: t in r <==> exists k :: 0 <= k < |c.groups| && c.groups[k].groupType == t
    ensures forall k :: 0 <= k < |c.groups| && (forall j :: k < j < |c.groups| ==> c.groups[j].groupType != c.groups[k].groupType) ==>
      r[c.groups[k].groupType] == OpticalElementCodes(c.groups[k])
  {
    TypeCodePairKeys(c.groups);
    Collect(TypeCodePairs(c.groups))
  }

  /** The codes of a list of cameras, in order. */
  function CameraCodes(cameras: seq<Camera>): (r: seq<string>)
    ensures |r| == |cameras|
    ensures forall k :: 0 <= k < |cameras| ==> r[k] == cameras[k].code
  {
    seq(|cameras|, k requires 0 <= k < |cameras| => cameras[k].code)
  }

  /** `InstrumentAdmin.science_camera_codes`: the comma-joined science camera codes. */
  function ScienceCameraCodes(i: Instrument): (r: string)
    ensures |i.scienceCameras| == 0 ==> r == ""
    ensures |i.scienceCameras| == 1 ==> r == i.scienceCameras[0].code
  {
    Join(CameraCodes(i.scienceCameras), ",")
  }

  /** With comma-free codes the column splits back into every science camera code,
      in order. */
  lemma ScienceCameraCodesSplit(i: Instrument)
    requires |i.scienceCameras| >= 1
    requires forall k :: 0 <= k < |i.scienceCameras| ==> ',' !in i.scienceCameras[k].code
    ensures Split(ScienceCameraCodes(i), ',') == CameraCodes(i.scienceCameras)
  {
    SplitJoin(CameraCodes(i.scienceCameras), ',');
  }

  lemma TypeCodePairKeys(groups: seq<OpticalElementGroup>)
    ensures forall t :: t in Collect(TypeCodePairs(groups)) <==> exists k :: 0 <= k < |groups| && groups[k].groupType == t
    ensures forall k :: 0 <= k < |groups| && (forall j :: k < j < |groups| ==> groups[j].groupType != groups[k].groupType) ==>
      Collect(TypeCodePairs(groups))[groups[k].groupType] == OpticalElementCodes(groups[k])
  {
    var pairs := TypeCodePairs(groups);
    forall t
      ensures t in KeysOf(pairs) <==> exists k :: 0 <= k < |groups| && groups[k].groupType == t
    {
      if exists k :: 0 <= k < |groups| && groups[k].groupType == t {
        var k :| 0 <= k < |groups| && groups[k].groupType == t;
        assert KeysOf(pairs)[k] == t;
      }
    }
    forall k | 0 <= k < |groups| && (forall j :: k < j < |groups| ==> groups[j].groupType != groups[k].groupType)
      ensures Collect(pairs)[groups[k].groupType] == OpticalElementCodes(groups[k])
    {
      assert LastFor(pairs, k);
      assert pairs[k] == (groups[k].groupType, OpticalElementCodes(groups[k]));
    }
  }
}
