/** `camera_mappings_dict` and `camera_mappings` of configdb3/hardware/views.py: the
    plain-text table of cameras. The database is a tree of nodes in query order. */
module CameraMappings {
  import opened Outcomes
  import opened Strings
  import opened LegacyModels
  import opened Memberships

  datatype TelescopeNode = TelescopeNode(telescope: Telescope, instruments: seq<Instrument>)
  datatype EnclosureNode = EnclosureNode(enclosure: Enclosure, telescopes: seq<TelescopeNode>)
  datatype SiteNode = SiteNode(site: Site, enclosures: seq<EnclosureNode>)

  /** One entry of `data['cameras']`. `overhead` is the default mode's overhead in
      milliseconds; the division by 1000 happens when the table is rendered. */
  datatype CameraRow = CameraRow(
    site: string,
    observatory: string,
    telescope: string,
    name: string,
    cameratype: string,
    size: string,
    plateScale: string,
    binning: string,
    stdBinning: string,
    overhead: int,
    autoguider: string,
    autoguiderType: string,
    filters: string)

  /** The binning texts of a camera type's modes, in order. */
  function BinningStrs(modes: seq<Mode>): (r: seq<string>)
    ensures |r| == |modes|
    ensures forall k :: 0 <= k < |modes| ==> r[k] == BinningStr(modes[k])
  {
    seq(|modes|, k requires 0 <= k < |modes| => BinningStr(modes[k]))
  }

  /** The binning column splits back into the binning text of every mode, in order. */
  lemma BinningColumnSplits(modes: seq<Mode>)
    requires |modes| >= 1
    ensures Split(Join(BinningStrs(modes), ","), ',') == BinningStrs(modes)
  {
    forall k | 0 <= k < |modes|
      ensures ',' !in BinningStrs(modes)[k]
    {
      NumeralLacks(modes[k].binning, ',');
      assert BinningStr(modes[k]) == IntToString(modes[k].binning) + "x" + IntToString(modes[k].binning);
    }
    SplitJoin(BinningStrs(modes), ',');
  }

  /** The entry for one instrument; `None` where the source raises because the
      science camera's type has no default mode. */
  function MakeRow(s: Site, e: Enclosure, t: Telescope, i: Instrument): (r: Option<CameraRow>)
    ensures r.None? <==> i.scienceCamera.cameraType.defaultMode.None?
    ensures r.Some? ==> r.value.site == s.code && r.value.observatory == e.code && r.value.telescope == t.code
    ensures r.Some? ==> r.value.name == i.scienceCamera.code && r.value.autoguider == i.autoguiderCamera.code
    ensures r.Some? ==> r.value.cameratype == i.scienceCamera.cameraType.name && r.value.size == i.scienceCamera.cameraType.size
    ensures r.Some? ==> r.value.plateScale == i.scienceCamera.cameraType.pscale
    ensures r.Some? ==> r.value.overhead == i.scienceCamera.cameraType.defaultMode.value.overhead
    ensures r.Some? ==> r.value.binning == Join(BinningStrs(i.scienceCamera.cameraType.modes), ",")
    ensures r.Some? ==> r.value.stdBinning == BinningStr(i.scienceCamera.cameraType.defaultMode.value)
    ensures r.Some? ==> r.value.autoguiderType == AutoguiderType(i) && r.value.filters == CameraFilters(i.scienceCamera)
  {
    var ct := i.scienceCamera.cameraType;
    match ct.defaultMode
    case None => None
    case Some(m) =>
      Some(CameraRow(s.code, e.code, t.code, i.scienceCamera.code, ct.name, ct.size, ct.pscale,
                     Join(BinningStrs(ct.modes), ","), BinningStr(m), m.overhead,
                     i.autoguiderCamera.code, AutoguiderType(i), i.scienceCamera.filterWheel.filters))
  }

  /** The active instruments of the active telescopes, telescope by telescope. */
  function ActiveInstruments(telescopes: seq<TelescopeNode>): (r: seq<(Telescope, Instrument)>)
    ensures forall p :: p in r <==> exists n :: n in telescopes && n.telescope.active && n.telescope == p.0 && p.1 in n.instruments && p.1.active
    ensures |telescopes| == 1 ==> r == if telescopes[0].telescope.active then ActiveOf(telescopes[0].telescope, telescopes[0].instruments) else []
    decreases |telescopes|
  {
    if |telescopes| == 0 then []
    else
      var n := telescopes[0];
      var here := if n.telescope.active then ActiveOf(n.telescope, n.instruments) else [];
      var rest := ActiveInstruments(telescopes[1..]);
      assert forall m :: m in telescopes <==> m == n || m in telescopes[1..];
      here + rest
  }

  /** The telescopes of consecutive lists follow one another in the table. */
  lemma {:induction false} ActiveInstrumentsAppend(a: seq<TelescopeNode>, b: seq<TelescopeNode>)
    ensures ActiveInstruments(a + b) == ActiveInstruments(a) + ActiveInstruments(b)
    decreases |a|
  {
    if |a| == 0 {
      assert a + b == b;
    } else {
      assert (a + b)[1..] == a[1..] + b;
      ActiveInstrumentsAppend(a[1..], b);
    }
  }

  function InstrumentActive(i: Instrument): bool {
    i.active
  }

  /** `telescope.instrument_set.filter(active=True)`, each paired with its telescope. */
  function ActiveOf(t: Telescope, instruments: seq<Instrument>): (r: seq<(Telescope, Instrument)>)
    ensures forall p :: p in r <==> p.0 == t && p.1 in instruments && p.1.active
    decreases |instruments|
  {
    if |instruments| == 0 then []
    else
      var rest := ActiveOf(t, instruments[1..]);
      assert forall i :: i in instruments <==> i == instruments[0] || i in instruments[1..];
      (if instruments[0].active then [(t, instruments[0])] else []) + rest
  }

  /** Each instrument of a list paired with the telescope, in order. */
  function PairedWith(t: Telescope, instruments: seq<Instrument>): (r: seq<(Telescope, Instrument)>)
    ensures |r| == |instruments|
    ensures forall k :: 0 <= k < |r| ==> r[k] == (t, instruments[k])
    decreases |instruments|
  {
    if |instruments| == 0 then [] else [(t, instruments[0])] + PairedWith(t, instruments[1..])
  }

  /** The pairs are exactly the active instruments in their stored order: the queryset
      filter, each instrument paired with its telescope. */
  lemma {:induction false} ActiveOfInOrder(t: Telescope, instruments: seq<Instrument>)
    ensures ActiveOf(t, instruments) == PairedWith(t, Keep(instruments, InstrumentActive))
    decreases |instruments|
  {
    if |instruments| > 0 {
      ActiveOfInOrder(t, instruments[1..]);
      var keptRest := Keep(instruments[1..], InstrumentActive);
      if instruments[0].active {
        var kept := [instruments[0]] + keptRest;
        assert Keep(instruments, InstrumentActive) == kept;
        assert kept[1..] == keptRest;
      }
    }
  }

  /** The entries of one enclosure; `None` when some entry raises. */
  function EnclosureRows(s: Site, e: Enclosure, pairs: seq<(Telescope, Instrument)>): (r: Option<seq<CameraRow>>)
    ensures r.Some? <==> forall k :: 0 <= k < |pairs| ==> MakeRow(s, e, pairs[k].0, pairs[k].1).Some?
    ensures r.Some? ==> |r.value| == |pairs|
    ensures r.Some? ==> forall k :: 0 <= k < |pairs| ==> r.value[k] == MakeRow(s, e, pairs[k].0, pairs[k].1).value
    decreases |pairs|
  {
    if |pairs| == 0 then Some([])
    else
      match MakeRow(s, e, pairs[0].0, pairs[0].1)
      case None => None
      case Some(row) =>
        match EnclosureRows(s, e, pairs[1..])
        case None => None
        case Some(rest) =>
          assert forall k :: 1 <= k < |pairs| ==> pairs[k] == pairs[1..][k - 1];
          Some([row] + rest)
  }

  /** The first active enclosure of an active site, as (site, enclosure) positions. */
  function FirstActiveEnclosure(sites: seq<SiteNode>): (r: Option<(nat, nat)>)
    ensures r.None? <==> forall i, j :: 0 <= i < |sites| && 0 <= j < |sites[i].enclosures| ==>
      !(sites[i].site.active && sites[i].enclosures[j].enclosure.active)
    ensures r.Some? ==> r.value.0 < |sites| && r.value.1 < |sites[r.value.0].enclosures|
    ensures r.Some? ==> sites[r.value.0].site.active && sites[r.value.0].enclosures[r.value.1].enclosure.active
    ensures r.Some? ==> forall i, j :: (0 <= i < |sites| && 0 <= j < |sites[i].enclosures| &&
      sites[i].site.active && sites[i].enclosures[j].enclosure.active) ==> (r.value.0 < i || (r.value.0 == i && r.value.1 <= j))
    decreases |sites|
  {
    if |sites| == 0 then None
    else
      match if sites[0].site.active then FirstActive(sites[0].enclosures) else None
      case Some(j) => Some((0, j))
      case None =>
        match FirstActiveEnclosure(sites[1..])
        case None => None
        case Some(p) =>
          assert forall i :: 1 <= i < |sites| ==> sites[i] == sites[1..][i - 1];
          Some((p.0 + 1, p.1))
  }

  /** The position of the first active enclosure in a list. */
  function FirstActive(enclosures: seq<EnclosureNode>): (r: Option<nat>)
    ensures r.None? <==> forall j :: 0 <= j < |enclosures| ==> !enclosures[j].enclosure.active
    ensures r.Some? ==> r.value < |enclosures| && enclosures[r.value].enclosure.active
    ensures r.Some? ==> forall j :: 0 <= j < r.value ==> !enclosures[j].enclosure.active
    decreases |enclosures|
  {
    if |enclosures| == 0 then None
    else if enclosures[0].enclosure.active then Some(0)
    else
      match FirstActive(enclosures[1..])
      case None => None
      case Some(j) => Some(j + 1)
  }

  /** What `camera_mappings_dict` does: return the cameras of one enclosure, fall off
      the end and return `None`, or raise. */
  datatype Mappings = Listed(rows: seq<CameraRow>) | NoneReturned | Raises

  /** `camera_mappings_dict`: the nested loops return inside the enclosure loop, so
      only the first active enclosure of the first active site that has one is listed. */
  function CameraMappingsDict(sites: seq<SiteNode>): (r: Mappings)
    ensures r.NoneReturned? <==> FirstActiveEnclosure(sites).None?
    ensures r.Listed? ==> FirstActiveEnclosure(sites).Some?
  {
    match FirstActiveEnclosure(sites)
    case None => NoneReturned
    case Some((i, j)) =>
      var node := sites[i].enclosures[j];
      match EnclosureRows(sites[i].site, node.enclosure, ActiveInstruments(node.telescopes))
      case None => Raises
      case Some(rows) => Listed(rows)
  }

  /** The entries of an enclosure are one per active instrument, each with the
      enclosure's site and code. */
  lemma {:induction false} RowsOfEnclosure(s: Site, e: Enclosure, pairs: seq<(Telescope, Instrument)>, rows: seq<CameraRow>)
    requires EnclosureRows(s, e, pairs) == Some(rows)
    ensures forall row :: row in rows ==> row.site == s.code && row.observatory == e.code
    ensures forall row :: row in rows ==> exists p :: p in pairs && MakeRow(s, e, p.0, p.1) == Some(row)
    ensures forall p :: p in pairs ==> exists row :: row in rows && MakeRow(s, e, p.0, p.1) == Some(row)
  {
    forall row | row in rows
      ensures row.site == s.code && row.observatory == e.code
      ensures exists p :: p in pairs && MakeRow(s, e, p.0, p.1) == Some(row)
    {
      var k :| 0 <= k < |rows| && rows[k] == row;
      assert pairs[k] in pairs;
    }
    forall p | p in pairs
      ensures exists row :: row in rows && MakeRow(s, e, p.0, p.1) == Some(row)
    {
      var k :| 0 <= k < |pairs| && pairs[k] == p;
      assert rows[k] in rows;
    }
  }

  /** Every listed camera sits in the first active enclosure of the first active site
      that has one, and each active instrument on an active telescope there is listed. */
  lemma ListedCamerasOfFirstEnclosure(sites: seq<SiteNode>)
    requires CameraMappingsDict(sites).Listed?
    ensures var (i, j) := FirstActiveEnclosure(sites).value;
      forall row :: row in CameraMappingsDict(sites).rows ==>
        row.site == sites[i].site.code && row.observatory == sites[i].enclosures[j].enclosure.code
    ensures var (i, j) := FirstActiveEnclosure(sites).value;
      var node := sites[i].enclosures[j];
      forall p :: p in ActiveInstruments(node.telescopes) ==>
        exists row :: row in CameraMappingsDict(sites).rows && MakeRow(sites[i].site, node.enclosure, p.0, p.1) == Some(row)
  {
    var (i, j) := FirstActiveEnclosure(sites).value;
    var node := sites[i].enclosures[j];
    RowsOfEnclosure(sites[i].site, node.enclosure, ActiveInstruments(node.telescopes), CameraMappingsDict(sites).rows);
  }

  // ---------------------------------------------------------------------------
  // Rendering

  /** The header line, written one column title at a time and grouped here by what
      the columns describe. */
  const SiteTitles: string := "# Site  " + "Observatory  " + "Telescope  " + "Camera    "
  const CameraTitles: string := "CameraType                    " + "Size(arcmin)   " + "PScale(\"/pix;1x1)   "
  const ModeTitles: string := "BinningAvailable    " + "Std.Binning  " + "Overhead(fullframe,1x1) "
  const GuiderTitles: string := "Autoguider " + "AutoguiderType  " + "Filters"
  const Header: string := SiteTitles + CameraTitles + ModeTitles + GuiderTitles

  /** The field widths of the row format, site to filters. */
  const Widths: seq<nat> := [6, 13, 11, 10, 30, 15, 20, 20, 13, 24, 11, 16, 10]

  /** The thirteen cells of a row in column order; `seconds` renders `overhead / 1000`
      as Python prints that float. */
  function RowFields(row: CameraRow, seconds: int -> string): (r: seq<string>)
    ensures |r| == |Widths|
  {
    [row.site, row.observatory, row.telescope, row.name, row.cameratype, row.size, row.plateScale,
     row.binning, row.stdBinning, seconds(row.overhead) + "sec", row.autoguider, row.autoguiderType, row.filters]
  }

  /** The cells of a line, each left-justified to its width. */
  function Columns(fields: seq<string>, widths: seq<nat>): string
    requires |fields| == |widths|
    decreases |fields|
  {
    if |fields| == 0 then "" else LeftJustify(fields[0], widths[0]) + Columns(fields[1..], widths[1..])
  }

  /** Where cell `k` starts in `Columns(fields, widths)`. */
  function Offset(fields: seq<string>, widths: seq<nat>, k: nat): nat
    requires |fields| == |widths| && k <= |fields|
    decreases k
  {
    if k == 0 then 0 else |LeftJustify(fields[0], widths[0])| + Offset(fields[1..], widths[1..], k - 1)
  }

  /** Padding never cuts a value: every cell's text can be read back at its offset. */
  lemma {:induction false} ColumnsHoldFields(fields: seq<string>, widths: seq<nat>, k: nat)
    requires |fields| == |widths| && k < |fields|
    ensures Offset(fields, widths, k) + |fields[k]| <= |Columns(fields, widths)|
    ensures Columns(fields, widths)[Offset(fields, widths, k)..Offset(fields, widths, k) + |fields[k]|] == fields[k]
    decreases k
  {
    var head := LeftJustify(fields[0], widths[0]);
    var tail := Columns(fields[1..], widths[1..]);
    assert Columns(fields, widths) == head + tail;
    if k == 0 {
      assert (head + tail)[..|fields[0]|] == head[..|fields[0]|];
    } else {
      ColumnsHoldFields(fields[1..], widths[1..], k - 1);
      var o := Offset(fields[1..], widths[1..], k - 1);
      assert (head + tail)[|head| + o..|head| + o + |fields[k]|] == tail[o..o + |fields[k]|];
    }
  }

  function Sum(ns: seq<nat>): nat
    decreases |ns|
  {
    if |ns| == 0 then 0 else ns[0] + Sum(ns[1..])
  }

  /** When every value fits its column the line has the fixed total width. */
  lemma {:induction false} ColumnsWidth(fields: seq<string>, widths: seq<nat>)
    requires |fields| == |widths|
    requires forall k :: 0 <= k < |fields| ==> |fields[k]| <= widths[k]
    ensures |Columns(fields, widths)| == Sum(widths)
    decreases |fields|
  {
    if |fields| > 0 {
      ColumnsWidth(fields[1..], widths[1..]);
    }
  }

  /** One table line: two spaces and the padded cells. */
  function RenderRow(row: CameraRow, seconds: int -> string): (r: string)
    ensures |r| >= 2 && r[..2] == "  "
  {
    "  " + Columns(RowFields(row, seconds), Widths)
  }

  /** A row whose values all fit is 201 characters long. */
  lemma RowWidth(row: CameraRow, seconds: int -> string)
    requires forall k :: 0 <= k < |Widths| ==> |RowFields(row, seconds)[k]| <= Widths[k]
    ensures |RenderRow(row, seconds)| == 201
  {
    ColumnsWidth(RowFields(row, seconds), Widths);
    assert Sum(Widths) == 199;
  }

  /** `"\n".join(lines)` of the header and one line per camera. */
  function RenderTable(rows: seq<CameraRow>, seconds: int -> string): string {
    Join([Header] + seq(|rows|, k requires 0 <= k < |rows| => RenderRow(rows[k], seconds)), "\n")
  }

  /** `camera_mappings`: the table, or `None` where the view raises (no active
      enclosure makes the dict `None`, and indexing it fails). */
  function CameraMappingsView(sites: seq<SiteNode>, seconds: int -> string): (r: Option<string>)
    ensures r.Some? <==> CameraMappingsDict(sites).Listed?
    ensures r.Some? ==> r.value == RenderTable(CameraMappingsDict(sites).rows, seconds)
  {
    match CameraMappingsDict(sites)
    case Listed(rows) => Some(RenderTable(rows, seconds))
    case _ => None
  }

  lemma HeaderOneLine()
    ensures '\n' !in Header
  {
    SiteTitlesOneLine();
    CameraTitlesOneLine();
    ModeTitlesOneLine();
    GuiderTitlesOneLine();
  }

  lemma SiteTitlesOneLine() ensures '\n' !in SiteTitles {}
  lemma CameraTitlesOneLine() ensures '\n' !in CameraTitles {}
  lemma ModeTitlesOneLine() ensures '\n' !in ModeTitles {}
  lemma GuiderTitlesOneLine() ensures '\n' !in GuiderTitles {}

  /** No cell holds a newline, so the table has one header line and one line per
      camera, in order. */
  lemma TableLines(rows: seq<CameraRow>, seconds: int -> string)
    requires forall k :: 0 <= k < |rows| ==> '\n' !in RenderRow(rows[k], seconds)
    ensures Split(RenderTable(rows, seconds), '\n') ==
      [Header] + seq(|rows|, k requires 0 <= k < |rows| => RenderRow(rows[k], seconds))
    ensures |Split(RenderTable(rows, seconds), '\n')| == 1 + |rows|
  {
    var lines := [Header] + seq(|rows|, k requires 0 <= k < |rows| => RenderRow(rows[k], seconds));
    HeaderOneLine();
    assert forall k :: 0 <= k < |lines| ==> '\n' !in lines[k] by {
      forall k | 0 <= k < |lines|
        ensures '\n' !in lines[k]
      {
        if k > 0 {
          assert lines[k] == RenderRow(rows[k - 1], seconds);
        }
      }
    }
    SplitJoin(lines, '\n');
  }
}
