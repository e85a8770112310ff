/** The records of configdb3/hardware/models.py, the older schema, with their display
    strings and derived properties. Float fields are kept as text; `Camera` carries its
    primary key because Django compares model instances by key. */
module LegacyModels {
  import opened Outcomes
  import opened Strings

  datatype Site = Site(active: bool, code: string, name: string)

  datatype Enclosure = Enclosure(active: bool, code: string, name: string, site: Site)

  datatype Telescope = Telescope(active: bool, code: string, name: string, lat: string, long: string, enclosure: Enclosure)

  datatype FilterWheel = FilterWheel(active: bool, filters: string)

  /** A mode belongs to the camera type that lists it in `modes` (`mode_set`). */
  datatype Mode = Mode(active: bool, binning: int, overhead: int)

  datatype CameraType = CameraType(
    active: bool,
    name: string,
    defaultMode: Option<Mode>,
    size: string,
    pscale: string,
    modes: seq<Mode>)

  datatype Camera = Camera(id: int, active: bool, cameraType: CameraType, code: string, filterWheel: FilterWheel)

  datatype Instrument = Instrument(active: bool, telescope: Telescope, scienceCamera: Camera, autoguiderCamera: Camera)

  /** `Site.__str__`. */
  function SiteDisplay(s: Site): string {
    s.code
  }

  /** `Enclosure.__str__`: `site.code`. */
  function EnclosureDisplay(e: Enclosure): (r: string)
    ensures r == Join([e.site.code, e.code], ".")
  {
    SiteDisplay(e.site) + "." + e.code
  }

  /** `Telescope.__str__`: `enclosure.code`. */
  function TelescopeDisplay(t: Telescope): (r: string)
    ensures r == Join([t.enclosure.site.code, t.enclosure.code, t.code], ".")
  {
    JoinSnoc([t.enclosure.site.code, t.enclosure.code], ".", t.code);
    assert [t.enclosure.site.code, t.enclosure.code] + [t.code] == [t.enclosure.site.code, t.enclosure.code, t.code];
    EnclosureDisplay(t.enclosure) + "." + t.code
  }

  /** `FilterWheel.__str__`. */
  function FilterWheelDisplay(w: FilterWheel): string {
    w.filters
  }

  /** `CameraType.__str__`. */
  function CameraTypeDisplay(ct: CameraType): string {
    ct.name
  }

  /** `Camera.__str__`. */
  function CameraDisplay(c: Camera): string {
    c.code
  }

  /** The text of an integer holds only digits and a leading minus sign. */
  lemma NumeralLacks(n: int, c: char)
    requires !IsDigit(c) && c != '-'
    ensures c !in IntToString(n)
  {
    var s := IntToString(n);
    if n < 0 {
      assert forall k :: 1 <= k < |s| ==> s[k] == s[1..][k - 1];
    }
  }

  /** `Mode.binning_str`: `"{b}x{b}"`. */
  function BinningStr(m: Mode): (r: string)
    ensures Split(r, 'x') == [IntToString(m.binning), IntToString(m.binning)]
  {
    var b := IntToString(m.binning);
    NumeralLacks(m.binning, 'x');
    SplitAfterPrefix(b, 'x', b);
    b + "x" + b
  }

  /** The binning is read back from either half of its text. */
  lemma BinningStrRoundTrip(m: Mode)
    ensures ParseInt(Split(BinningStr(m), 'x')[0]) == Some(m.binning)
    ensures ParseInt(Split(BinningStr(m), 'x')[1]) == Some(m.binning)
  {
    ParseIntToString(m.binning);
  }

  /** Two modes have the same binning text exactly when they have the same binning. */
  lemma BinningStrInjective(m: Mode, n: Mode)
    ensures BinningStr(m) == BinningStr(n) <==> m.binning == n.binning
  {
    if BinningStr(m) == BinningStr(n) {
      BinningStrRoundTrip(m);
      BinningStrRoundTrip(n);
    }
  }

  /** `Mode.__str__`: `cameratype.binning`; `ct` is the camera type that owns the mode. */
  function ModeDisplay(ct: CameraType, m: Mode): string {
    CameraTypeDisplay(ct) + "." + BinningStr(m)
  }

  /** A mode display splits at its dot into the camera type name and the binning,
      whenever the name has no dot of its own. */
  lemma ModeDisplaySplits(ct: CameraType, m: Mode)
    requires '.' !in ct.name
    ensures Split(ModeDisplay(ct, m), '.') == [ct.name, BinningStr(m)]
  {
    var b := BinningStr(m);
    NumeralLacks(m.binning, '.');
    assert '.' !in b by {
      assert b == IntToString(m.binning) + "x" + IntToString(m.binning);
    }
    assert ModeDisplay(ct, m) == ct.name + ['.'] + b;
    SplitAfterPrefix(ct.name, '.', b);
  }

  /** `Camera.filters`: the filter wheel's filters, which is also its display. */
  function CameraFilters(c: Camera): (r: string)
    ensures r == FilterWheelDisplay(c.filterWheel)
  {
    c.filterWheel.filters
  }

  /** `Instrument.autoguider_type`: the science camera guiding itself, or another camera. */
  function AutoguiderType(i: Instrument): (r: string)
    ensures r == "SelfGuide" <==> i.scienceCamera.id == i.autoguiderCamera.id
    ensures r == "OffAxis" <==> i.scienceCamera.id != i.autoguiderCamera.id
  {
    if i.scienceCamera.id == i.autoguiderCamera.id then "SelfGuide" else "OffAxis"
  }

  /** `Instrument.__str__`: `telescope.science-autoguider`. */
  function InstrumentDisplay(i: Instrument): string {
    TelescopeDisplay(i.telescope) + "." + CameraDisplay(i.scienceCamera) + "-" + CameraDisplay(i.autoguiderCamera)
  }

  /** With dot-free codes the display splits into site, enclosure, telescope and the
      `science-autoguider` pair, and with a dash-free science code the pair splits too. */
  lemma InstrumentDisplaySplits(i: Instrument)
    requires '.' !in i.telescope.enclosure.site.code && '.' !in i.telescope.enclosure.code && '.' !in i.telescope.code
    requires '.' !in i.scienceCamera.code && '.' !in i.autoguiderCamera.code
    ensures Split(InstrumentDisplay(i), '.') ==
      [i.telescope.enclosure.site.code, i.telescope.enclosure.code, i.telescope.code,
       i.scienceCamera.code + "-" + i.autoguiderCamera.code]
    ensures '-' !in i.scienceCamera.code && '-' !in i.autoguiderCamera.code ==>
      Split(i.scienceCamera.code + "-" + i.autoguiderCamera.code, '-') == [i.scienceCamera.code, i.autoguiderCamera.code]
  {
    var pair := i.scienceCamera.code + "-" + i.autoguiderCamera.code;
    var parts := [i.telescope.enclosure.site.code, i.telescope.enclosure.code, i.telescope.code, pair];
    assert '.' !in pair;
    assert parts[..3] == [i.telescope.enclosure.site.code, i.telescope.enclosure.code, i.telescope.code];
    JoinSnoc(parts[..3], ".", pair);
    assert parts[..3] + [pair] == parts;
    assert InstrumentDisplay(i) == Join(parts, ".");
    SplitJoin(parts, '.');
    if '-' !in i.scienceCamera.code && '-' !in i.autoguiderCamera.code {
      PairSplits(i.scienceCamera.code, i.autoguiderCamera.code);
    }
  }

  /** Two dash-free codes joined by a dash split back into the two codes. */
  lemma PairSplits(a: string, b: string)
    requires '-' !in a && '-' !in b
    ensures Split(a + "-" + b, '-') == [a, b]
  {
    SplitJoin([a, b], '-');
    assert Join([a, b], "-") == a + "-" + b;
  }
}
