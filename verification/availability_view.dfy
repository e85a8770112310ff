/** `AvailabilityHistoryView.get` in configdb/hardware/views.py: the query parameters,
    the two selectors and the bounds filter. Date parsing and the clock are parameters;
    the instrument and telescope tables stand for the ORM lookups. */
module AvailabilityView {
  import opened Outcomes
  import opened Strings
  import opened Intervals
  import opened InstrumentStates
  import opened Availability
  import Memberships

  /** The query string: each parameter is absent or a (possibly empty) string. */
  datatype Query = Query(
    instrumentId: Option<string>,
    telescopeId: Option<string>,
    siteId: Option<string>,
    enclosureId: Option<string>,
    start: Option<string>,
    end: Option<string>)

  /** The telescope lookup key: site, enclosure and telescope codes. */
  datatype TelescopeKey = TelescopeKey(site: string, enclosure: string, telescope: string)

  /** What the view consults: the tables the ORM would be asked, the date parser
      (`None` where `dateutil.parse` raises), the comparator `Instrument.SCHEDULABLE`
      and the clock. */
  datatype Context = Context(
    instruments: map<string, InstrumentHistory>,
    telescopes: map<TelescopeKey, TelescopeHistory>,
    parse: string -> Option<Time>,
    schedulable: StoredState,
    now: Time)

  datatype Response =
    | BadRequest(message: string)
    | NotFound(message: string)
    | Availability(intervals: seq<Window>)

  const ParseErrorMessage: string := "The format used for the start/end parameters is not parseable"
  const SelectorErrorMessage: string :=
    "Must supply either instrument_id or site_id, enclosure_id, and telescope_id in params"

  function InstrumentNotFound(code: string): string {
    "No instrument found with code " + code
  }

  function TelescopeNotFound(key: TelescopeKey): string {
    "No telescope found with code " + key.site + "." + key.enclosure + "." + key.telescope
  }

  const MicrosPerSecond: int := 1_000_000

  /** 2010-01-01T00:00:00Z: 14610 days (40 years, 10 of them leap) after the epoch. */
  const DefaultStart: Time := 14610 * 86400 * MicrosPerSecond

  /** Python truthiness of an optional query parameter: present and non-empty. */
  predicate Given(p: Option<string>) {
    p.Some? && |p.value| > 0
  }

  /** `if x: parse(x) else default`; `None` when the parser raises. */
  function Bound(p: Option<string>, parse: string -> Option<Time>, default: Time): (r: Option<Time>)
    ensures !Given(p) ==> r == Some(default)
    ensures Given(p) ==> r == parse(p.value)
  {
    if Given(p) then parse(p.value) else Some(default)
  }

  /** Both bounds, start first; either failure is the same 400. */
  function Bounds(q: Query, ctx: Context): (r: Option<(Time, Time)>)
    ensures r.Some? <==> Bound(q.start, ctx.parse, DefaultStart).Some? && Bound(q.end, ctx.parse, ctx.now).Some?
    ensures r.Some? ==> r.value.0 == Bound(q.start, ctx.parse, DefaultStart).value
    ensures r.Some? ==> r.value.1 == Bound(q.end, ctx.parse, ctx.now).value
  {
    match Bound(q.start, ctx.parse, DefaultStart)
    case None => None
    case Some(start) =>
      match Bound(q.end, ctx.parse, ctx.now)
      case None => None
      case Some(end) => Some((start, end))
  }

  /** The 400 test on selectors, which looks only at absence (`== None`), not at emptiness. */
  predicate SelectorMissing(q: Query) {
    q.instrumentId.None? && (q.telescopeId.None? || q.siteId.None? || q.enclosureId.None?)
  }

  predicate TelescopeSelected(q: Query) {
    Given(q.telescopeId) && Given(q.enclosureId) && Given(q.siteId)
  }

  function KeyOf(q: Query): TelescopeKey
    requires TelescopeSelected(q)
  {
    TelescopeKey(q.siteId.value, q.enclosureId.value, q.telescopeId.value)
  }

  /** `interval[0] <= end and interval[1] >= start`. */
  predicate Overlaps(w: Window, start: Time, end: Time) {
    w.start <= end && w.end >= start
  }

  /** The windows that meet `[start, end]`, untouched and in their original order. */
  function FilterOverlapping(ws: seq<Window>, start: Time, end: Time): (r: seq<Window>)
    ensures |r| <= |ws|
    ensures forall w :: w in r <==> w in ws && Overlaps(w, start, end)
  {
    Memberships.Keep(ws, Meeting(start, end))
  }

  /** The test the filter applies to each window. */
  function Meeting(start: Time, end: Time): Window -> bool {
    (w: Window) => Overlaps(w, start, end)
  }

  /** The filter works window by window: filtering a concatenation is concatenating
      the filtered parts, so the filter keeps the order of the windows. */
  lemma FilterOverlappingAppend(a: seq<Window>, b: seq<Window>, start: Time, end: Time)
    ensures FilterOverlapping(a + b, start, end) == FilterOverlapping(a, start, end) + FilterOverlapping(b, start, end)
  {
    Memberships.KeepAppend(a, b, Meeting(start, end));
  }

  /** When every window meets the bounds the list comes back unchanged: windows
      reaching outside `[start, end]` are not clipped. */
  lemma FilterKeepsOverlapping(ws: seq<Window>, start: Time, end: Time)
    requires forall i :: 0 <= i < |ws| ==> Overlaps(ws[i], start, end)
    ensures FilterOverlapping(ws, start, end) == ws
  {
    Memberships.KeepAll(ws, Meeting(start, end));
  }

  /** `replace(microsecond=0)`: down to the whole second (toward the past also
      before the epoch, since the microsecond field is never negative). */
  function Truncate(t: Time): (r: Time)
    ensures r <= t < r + MicrosPerSecond
    ensures r % MicrosPerSecond == 0
  {
    t - t % MicrosPerSecond
  }

  /** Truncation leaves whole seconds alone and so is idempotent. */
  lemma TruncateIdempotent(t: Time)
    ensures Truncate(Truncate(t)) == Truncate(t)
    ensures t % MicrosPerSecond == 0 ==> Truncate(t) == t
  {
  }

  /** The reported window: both ends truncated to the second. */
  function Reported(w: Window): (r: Window)
    ensures r.start <= w.start < r.start + MicrosPerSecond
    ensures r.end <= w.end < r.end + MicrosPerSecond
  {
    Window(Truncate(w.start), Truncate(w.end))
  }

  /** The response body: the overlapping windows in order, each truncated. */
  function Report(ws: seq<Window>, start: Time, end: Time): (r: seq<Window>)
    ensures |r| == |FilterOverlapping(ws, start, end)|
    ensures forall i :: 0 <= i < |r| ==> r[i] == Reported(FilterOverlapping(ws, start, end)[i])
  {
    var kept := FilterOverlapping(ws, start, end);
    seq(|kept|, i requires 0 <= i < |kept| => Reported(kept[i]))
  }

  /** The availability the selectors choose before filtering: the telescope's if a
      full triple is given, else the instrument's if one is given, else none. */
  function Selected(q: Query, ctx: Context): (r: Result<seq<Window>, string>)
    ensures Given(q.instrumentId) && q.instrumentId.value !in ctx.instruments ==>
      r == Err(InstrumentNotFound(q.instrumentId.value))
    ensures !(Given(q.instrumentId) && q.instrumentId.value !in ctx.instruments) && TelescopeSelected(q) ==>
      (r.Ok? <==> KeyOf(q) in ctx.telescopes)
    ensures !(Given(q.instrumentId) && q.instrumentId.value !in ctx.instruments) && !TelescopeSelected(q) ==> r.Ok?
    ensures r.Ok? && TelescopeSelected(q) ==>
      r.value == TelescopeAvailabilityHistory(ctx.telescopes[KeyOf(q)], ctx.schedulable, ctx.now)
    ensures r.Ok? && !TelescopeSelected(q) && Given(q.instrumentId) ==>
      r.value == InstrumentAvailabilityHistory(ctx.instruments[q.instrumentId.value], ctx.schedulable, ctx.now)
    ensures r.Ok? && !TelescopeSelected(q) && !Given(q.instrumentId) ==> r.value == []
  {
    var fromInstrument: Result<seq<Window>, string> :=
      if !Given(q.instrumentId) then Ok([])
      else if q.instrumentId.value !in ctx.instruments then Err(InstrumentNotFound(q.instrumentId.value))
      else Ok(InstrumentAvailabilityHistory(ctx.instruments[q.instrumentId.value], ctx.schedulable, ctx.now));
    if fromInstrument.Err? || !TelescopeSelected(q) then fromInstrument
    else if KeyOf(q) !in ctx.telescopes then Err(TelescopeNotFound(KeyOf(q)))
    else Ok(TelescopeAvailabilityHistory(ctx.telescopes[KeyOf(q)], ctx.schedulable, ctx.now))
  }

  /** `AvailabilityHistoryView.get`. */
  function Get(q: Query, ctx: Context): (r: Response)
    ensures Bounds(q, ctx).None? <==> r == BadRequest(ParseErrorMessage)
    ensures r == BadRequest(SelectorErrorMessage) <==> Bounds(q, ctx).Some? && SelectorMissing(q)
    ensures r.NotFound? <==> Bounds(q, ctx).Some? && !SelectorMissing(q) && Selected(q, ctx).Err?
    ensures r.Availability? <==> Bounds(q, ctx).Some? && !SelectorMissing(q) && Selected(q, ctx).Ok?
    ensures r.Availability? ==>
      r.intervals == Report(Selected(q, ctx).value, Bounds(q, ctx).value.0, Bounds(q, ctx).value.1)
  {
    match Bounds(q, ctx)
    case None => BadRequest(ParseErrorMessage)
    case Some((start, end)) =>
      if SelectorMissing(q) then BadRequest(SelectorErrorMessage)
      else
        match Selected(q, ctx)
        case Err(message) => NotFound(message)
        case Ok(availability) => Availability(Report(availability, start, end))
  }

  /** An unknown instrument code is reported before the telescope is looked up, even
      when the telescope triple is unknown as well. */
  lemma UnknownInstrumentFirst(q: Query, ctx: Context)
    requires Bounds(q, ctx).Some?
    requires Given(q.instrumentId) && q.instrumentId.value !in ctx.instruments
    ensures Get(q, ctx) == NotFound(InstrumentNotFound(q.instrumentId.value))
  {
  }

  /** An unknown telescope triple gives its own 404, whatever the instrument selector
      said, as long as that selector did not already fail. */
  lemma UnknownTelescope(q: Query, ctx: Context)
    requires Bounds(q, ctx).Some? && TelescopeSelected(q) && KeyOf(q) !in ctx.telescopes
    requires !Given(q.instrumentId) || q.instrumentId.value in ctx.instruments
    ensures Get(q, ctx) == NotFound(TelescopeNotFound(KeyOf(q)))
  {
  }

  /** With both selectors known, the telescope history replaces the instrument's. */
  lemma TelescopeOverridesInstrument(q: Query, ctx: Context)
    requires Bounds(q, ctx).Some? && TelescopeSelected(q) && KeyOf(q) in ctx.telescopes
    requires Given(q.instrumentId) && q.instrumentId.value in ctx.instruments
    ensures var (start, end) := Bounds(q, ctx).value;
      Get(q, ctx) == Availability(Report(TelescopeAvailabilityHistory(ctx.telescopes[KeyOf(q)], ctx.schedulable, ctx.now), start, end))
  {
  }

  /** An empty `instrument_id` gets past the 400 test (it is not `None`) but selects
      nothing: without a telescope triple the answer is an empty list. */
  lemma EmptyInstrumentIdSelectsNothing(q: Query, ctx: Context)
    requires Bounds(q, ctx).Some?
    requires q.instrumentId == Some("") && !TelescopeSelected(q)
    ensures Get(q, ctx) == Availability([])
  {
  }

  /** Without bounds, the start defaults to 2010-01-01 and the end to `now`: a
      window meeting that span is reported. */
  lemma DefaultBounds(q: Query, ctx: Context)
    requires !Given(q.start) && !Given(q.end)
    ensures Bounds(q, ctx) == Some((DefaultStart, ctx.now))
    ensures DefaultStart == 1262304000 * MicrosPerSecond
  {
  }

  /** Every reported window comes, truncated, from an overlapping window of the
      selected availability, in the same order. */
  lemma ReportedWindowsOverlap(ws: seq<Window>, start: Time, end: Time, i: nat)
    requires i < |Report(ws, start, end)|
    ensures exists w :: w in ws && Overlaps(w, start, end) && Report(ws, start, end)[i] == Reported(w)
  {
    var kept := FilterOverlapping(ws, start, end);
    assert kept[i] in kept;
  }
}
