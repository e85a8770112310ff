/** configdb/hardware/availability.py: availability windows rebuilt from an object's
    revision history. The revisions are a parameter, newest first, each already
    reduced to the tracked value and the time of the save; `now` is a parameter too. */
module Availability {
  import opened Strings
  import opened InstrumentStates
  import opened Intervals

  /** One stored revision: the tracked value and its `modified` time. */
  datatype Snapshot<S> = Snapshot(state: S, modified: Time)

  /** `STATE_MAPPING`: legacy revisions stored the state as a numeric string. */
  const StateMapping: map<string, string> :=
    map["0" := "DISABLED", "10" := "MANUAL", "20" := "COMMISSIONING", "25" := "STANDBY", "30" := "SCHEDULABLE"]

  /** `state_conversion`: `STATE_MAPPING.get(state, state)`. */
  function StateConversion(stored: StoredState): StoredState {
    if stored.Text? && stored.s in StateMapping then Text(StateMapping[stored.s]) else stored
  }

  /** The legacy keys are the decimal strings of the state codes: each maps to its
      state's label, every other stored value comes back unchanged (an integer 30
      included, since an `int` is never equal to a `str` key), and converting twice
      is converting once. */
  lemma StateConversionTable(stored: StoredState)
    ensures forall s: State :: StateConversion(Text(IntToString(Code(s)))) == Text(Label(s))
    ensures stored.Number? ==> StateConversion(stored) == stored
    ensures stored.Text? && (forall s: State :: stored.s != IntToString(Code(s))) ==> StateConversion(stored) == stored
    ensures StateConversion(StateConversion(stored)) == StateConversion(stored)
  {
    forall s: State
      ensures StateConversion(Text(IntToString(Code(s)))) == Text(Label(s))
    {
      LegacyKey(s);
    }
    if stored.Text? && stored.s in StateMapping {
      var s := if stored.s == "0" then Disabled else if stored.s == "10" then Manual
        else if stored.s == "20" then Commissioning else if stored.s == "25" then Standby else Schedulable;
      LegacyKey(s);
      assert StateMapping[stored.s] == Label(s);
    }
  }

  /** The legacy key of one state: the decimal text of its code. */
  lemma LegacyKey(s: State)
    ensures IntToString(Code(s)) in StateMapping && StateMapping[IntToString(Code(s))] == Label(s)
  {
    match s
    case Disabled =>
      assert IntToString(0) == "0";
    case Manual =>
      assert IntToString(10) == "10" by { assert NatToString(10) == NatToString(1) + [DigitChar(0)]; }
    case Commissioning =>
      assert IntToString(20) == "20" by { assert NatToString(20) == NatToString(2) + [DigitChar(0)]; }
    case Standby =>
      assert IntToString(25) == "25" by { assert NatToString(25) == NatToString(2) + [DigitChar(5)]; }
    case Schedulable =>
      assert IntToString(30) == "30" by { assert NatToString(30) == NatToString(3) + [DigitChar(0)]; }
  }

  /** The loop variables of `build_availability_history`. `stateStart` and `stateEnd`
      are only read while `inState` holds; the source keeps them `None` otherwise. */
  datatype Walk<S> = Walk(
    availability: seq<Window>,
    inState: bool,
    stateStart: Time,
    stateEnd: Time,
    currentState: S,
    currentTime: Time)

  /** Before any revision: the live value at `now`; a live match opens `[now, now]`. */
  function Begin<S(==)>(initial: S, comparator: S, now: Time): Walk<S> {
    Walk([], initial == comparator, now, now, initial, now)
  }

  /** One iteration of the loop over revisions. */
  function Step<S(==)>(w: Walk<S>, v: Snapshot<S>, comparator: S): Walk<S> {
    if v.state == w.currentState then
      w.(stateStart := if w.inState then v.modified else w.stateStart,
         currentState := v.state, currentTime := v.modified)
    else if w.inState then
      w.(availability := w.availability + [Window(w.stateStart, w.stateEnd)], inState := false,
         currentState := v.state, currentTime := v.modified)
    else if v.state == comparator then
      w.(inState := true, stateStart := v.modified, stateEnd := w.currentTime,
         currentState := v.state, currentTime := v.modified)
    else
      w.(currentState := v.state, currentTime := v.modified)
  }

  /** The loop variables after the given revisions, newest first, have been visited. */
  function WalkVersions<S(==)>(versions: seq<Snapshot<S>>, initial: S, comparator: S, now: Time): Walk<S>
    decreases |versions|
  {
    if |versions| == 0 then Begin(initial, comparator, now)
    else Step(WalkVersions(versions[..|versions| - 1], initial, comparator, now), versions[|versions| - 1], comparator)
  }

  /** After the loop: a window still open is closed and added. */
  function Finish<S>(w: Walk<S>): seq<Window> {
    if w.inState then w.availability + [Window(w.stateStart, w.stateEnd)] else w.availability
  }

  /** `build_availability_history(instance, initial, state_function, comparator)`. */
  function BuildAvailabilityHistory<S(==)>(versions: seq<Snapshot<S>>, initial: S, comparator: S, now: Time): (r: seq<Window>)
    ensures |versions| == 0 && initial == comparator ==> r == [Window(now, now)]
    ensures |versions| == 0 && initial != comparator ==> r == []
  {
    Finish(WalkVersions(versions, initial, comparator, now))
  }

  /** The value held at position `p` of the walk: position 0 is the live value,
      position `k + 1` is revision `k`. */
  function StateAt<S>(versions: seq<Snapshot<S>>, initial: S, p: nat): S
    requires p <= |versions|
  {
    if p == 0 then initial else versions[p - 1].state
  }

  /** The time at position `p` of the walk: `now`, then each revision's `modified`. */
  function TimeAt<S>(versions: seq<Snapshot<S>>, now: Time, p: nat): Time
    requires p <= |versions|
  {
    if p == 0 then now else versions[p - 1].modified
  }

  /** Revisions newest first, none later than `now`. */
  predicate NewestFirst<S>(versions: seq<Snapshot<S>>, now: Time) {
    && (forall i :: 0 <= i < |versions| ==> versions[i].modified <= now)
    && (forall i :: 0 < i < |versions| ==> versions[i].modified <= versions[i - 1].modified)
  }

  /** Latest first, every window valid, no window reaching past the start of the one before. */
  predicate LatestFirst(ws: seq<Window>) {
    && (forall i :: 0 <= i < |ws| ==> Valid(ws[i]))
    && (forall i :: 0 < i < |ws| ==> ws[i].end <= ws[i - 1].start)
  }

  /** The walk always stands at the last visited position: its current value and time
      are that position's, and it is inside a window exactly when that value equals
      the comparator. */
  lemma {:induction false} WalkTracksPosition<S>(versions: seq<Snapshot<S>>, initial: S, comparator: S, now: Time)
    ensures WalkVersions(versions, initial, comparator, now).currentState == StateAt(versions, initial, |versions|)
    ensures WalkVersions(versions, initial, comparator, now).currentTime == TimeAt(versions, now, |versions|)
    ensures WalkVersions(versions, initial, comparator, now).inState <==> StateAt(versions, initial, |versions|) == comparator
    decreases |versions|
  {
    if |versions| > 0 {
      WalkTracksPosition(versions[..|versions| - 1], initial, comparator, now);
    }
  }

  /** Throughout the walk, "currently inside a window" holds exactly when the current
      value equals the comparator. */
  lemma InStateIffComparator<S>(versions: seq<Snapshot<S>>, initial: S, comparator: S, now: Time)
    ensures forall k :: 0 <= k <= |versions| ==>
      (WalkVersions(versions[..k], initial, comparator, now).inState <==>
       WalkVersions(versions[..k], initial, comparator, now).currentState == comparator)
  {
    forall k | 0 <= k <= |versions|
      ensures WalkVersions(versions[..k], initial, comparator, now).inState <==>
              WalkVersions(versions[..k], initial, comparator, now).currentState == comparator
    {
      WalkTracksPosition(versions[..k], initial, comparator, now);
    }
  }

  /** What the walk keeps true when revisions are newest first: the open window starts
      at the current time and ends no later than `now`; the closed windows are latest
      first, end no later than `now`, and the last of them starts no earlier than
      anything still to come. */
  ghost predicate Orderly<S>(w: Walk<S>, now: Time) {
    && w.currentTime <= now
    && (w.inState ==> w.stateStart == w.currentTime && w.stateStart <= w.stateEnd <= now)
    && LatestFirst(w.availability)
    && (forall i :: 0 <= i < |w.availability| ==> w.availability[i].end <= now)
    && (|w.availability| > 0 ==>
         w.availability[|w.availability| - 1].start >= (if w.inState then w.stateEnd else w.currentTime))
  }

  lemma {:induction false} WalkOrderly<S>(versions: seq<Snapshot<S>>, initial: S, comparator: S, now: Time)
    requires NewestFirst(versions, now)
    ensures Orderly(WalkVersions(versions, initial, comparator, now), now)
    decreases |versions|
  {
    if |versions| > 0 {
      var prefix := versions[..|versions| - 1];
      assert NewestFirst(prefix, now);
      WalkOrderly(prefix, initial, comparator, now);
      WalkTracksPosition(prefix, initial, comparator, now);
      var v := versions[|versions| - 1];
      assert v.modified <= TimeAt(prefix, now, |prefix|);
      StepOrderly(WalkVersions(prefix, initial, comparator, now), v, comparator, now);
    }
  }

  /** One step back in time, to a revision no later than the current time, keeps the
      walk orderly. */
  lemma StepOrderly<S>(w: Walk<S>, v: Snapshot<S>, comparator: S, now: Time)
    requires Orderly(w, now) && v.modified <= w.currentTime
    requires w.inState <==> w.currentState == comparator
    ensures Orderly(Step(w, v, comparator), now)
  {
    if v.state != w.currentState && w.inState {
      LatestFirstSnoc(w.availability, Window(w.stateStart, w.stateEnd));
    }
  }

  /** Appending a valid window that ends no later than the start of the last one keeps
      a list latest first. */
  lemma LatestFirstSnoc(ws: seq<Window>, x: Window)
    requires LatestFirst(ws) && Valid(x)
    requires |ws| > 0 ==> x.end <= ws[|ws| - 1].start
    ensures LatestFirst(ws + [x])
  {
    var r := ws + [x];
    forall i | 0 < i < |r|
      ensures r[i].end <= r[i - 1].start
    {
      if i < |ws| {
        assert r[i] == ws[i] && r[i - 1] == ws[i - 1];
      }
    }
  }

  /** With revisions newest first and none after `now`, every window is valid, the
      windows come latest first and never overlap, and all of them lie between the
      oldest revision and `now`. */
  lemma HistoryOrdered<S>(versions: seq<Snapshot<S>>, initial: S, comparator: S, now: Time)
    requires NewestFirst(versions, now)
    ensures LatestFirst(BuildAvailabilityHistory(versions, initial, comparator, now))
    ensures forall w :: w in BuildAvailabilityHistory(versions, initial, comparator, now) ==>
      TimeAt(versions, now, |versions|) <= w.start && w.end <= now
  {
    var walk := WalkVersions(versions, initial, comparator, now);
    WalkOrderly(versions, initial, comparator, now);
    WalkTracksPosition(versions, initial, comparator, now);
    EarliestBound(versions, initial, comparator, now);
  }

  /** No window starts before the time the walk has reached. */
  lemma {:induction false} EarliestBound<S>(versions: seq<Snapshot<S>>, initial: S, comparator: S, now: Time)
    requires NewestFirst(versions, now)
    ensures var w := WalkVersions(versions, initial, comparator, now);
      (forall i :: 0 <= i < |w.availability| ==> w.availability[i].start >= w.currentTime)
    decreases |versions|
  {
    if |versions| > 0 {
      var prefix := versions[..|versions| - 1];
      assert NewestFirst(prefix, now);
      EarliestBound(prefix, initial, comparator, now);
      WalkOrderly(prefix, initial, comparator, now);
      WalkTracksPosition(prefix, initial, comparator, now);
    }
  }

  /** A revision whose value differs from the next-newer one and equals the comparator
      opens a window: it starts at that revision and ends at the next-newer
      revision's time (`now` for the newest). */
  lemma OpeningRevision<S>(versions: seq<Snapshot<S>>, initial: S, comparator: S, now: Time, k: nat)
    requires k < |versions|
    requires versions[k].state == comparator && StateAt(versions, initial, k) != comparator
    ensures var before := WalkVersions(versions[..k], initial, comparator, now);
      var after := WalkVersions(versions[..k + 1], initial, comparator, now);
      && after.inState
      && after.stateStart == versions[k].modified
      && after.stateEnd == TimeAt(versions, now, k)
      && after.availability == before.availability
  {
    WalkTracksPosition(versions[..k], initial, comparator, now);
    assert versions[..k + 1][..k] == versions[..k];
  }

  /** A revision with the same value as the next-newer one changes nothing but the
      open window's start, which moves back to that revision. */
  lemma SameStateRevision<S>(versions: seq<Snapshot<S>>, initial: S, comparator: S, now: Time, k: nat)
    requires k < |versions|
    requires versions[k].state == StateAt(versions, initial, k)
    ensures var before := WalkVersions(versions[..k], initial, comparator, now);
      var after := WalkVersions(versions[..k + 1], initial, comparator, now);
      && after.availability == before.availability
      && after.inState == before.inState
      && after.stateEnd == before.stateEnd
      && (after.inState ==> after.stateStart == versions[k].modified)
  {
    WalkTracksPosition(versions[..k], initial, comparator, now);
    assert versions[..k + 1][..k] == versions[..k];
  }

  /** A revision whose value differs from a next-newer value equal to the comparator
      closes the open window and emits it. */
  lemma ClosingRevision<S>(versions: seq<Snapshot<S>>, initial: S, comparator: S, now: Time, k: nat)
    requires k < |versions|
    requires StateAt(versions, initial, k) == comparator && versions[k].state != comparator
    ensures var before := WalkVersions(versions[..k], initial, comparator, now);
      var after := WalkVersions(versions[..k + 1], initial, comparator, now);
      && !after.inState
      && after.availability == before.availability + [Window(before.stateStart, before.stateEnd)]
  {
    WalkTracksPosition(versions[..k], initial, comparator, now);
    assert versions[..k + 1][..k] == versions[..k];
  }

  /** The stretch of time position `p` of the walk stands for: from its own time to
      the next-newer position's time; the live value stands for the instant `now`. */
  function Segment<S>(versions: seq<Snapshot<S>>, now: Time, p: nat): Window
    requires p <= |versions|
  {
    if p == 0 then Window(now, now) else Window(versions[p - 1].modified, TimeAt(versions, now, p - 1))
  }

  /** Reference definition of availability: `t` lies in the segment of some position
      whose value equals the comparator. */
  ghost predicate Reached<S>(versions: seq<Snapshot<S>>, initial: S, comparator: S, now: Time, t: Time) {
    exists p :: 0 <= p <= |versions| && StateAt(versions, initial, p) == comparator && Contains(Segment(versions, now, p), t)
  }

  /** The points the walk has accounted for: its emitted windows and its open one. */
  ghost predicate WalkCovers<S>(w: Walk<S>, t: Time) {
    Covers(w.availability, t) || (w.inState && Contains(Window(w.stateStart, w.stateEnd), t))
  }

  lemma FinishCovers<S>(w: Walk<S>)
    ensures forall t :: Covers(Finish(w), t) <==> WalkCovers(w, t)
  {
    CoversAppend(w.availability, [Window(w.stateStart, w.stateEnd)]);
    CoversCons(Window(w.stateStart, w.stateEnd), []);
  }

  /** Extending the revisions by one older revision adds exactly that revision's segment
      to the reference definition. */
  lemma ReachedSnoc<S>(versions: seq<Snapshot<S>>, initial: S, comparator: S, now: Time, t: Time)
    requires |versions| > 0
    ensures var n := |versions|;
      Reached(versions, initial, comparator, now, t) <==>
        Reached(versions[..n - 1], initial, comparator, now, t) ||
        (StateAt(versions, initial, n) == comparator && Contains(Segment(versions, now, n), t))
  {
    var n := |versions|;
    var prefix := versions[..n - 1];
    if Reached(prefix, initial, comparator, now, t) {
      var p :| 0 <= p <= |prefix| && StateAt(prefix, initial, p) == comparator && Contains(Segment(prefix, now, p), t);
      assert StateAt(versions, initial, p) == StateAt(prefix, initial, p);
      assert Segment(versions, now, p) == Segment(prefix, now, p);
    }
    if Reached(versions, initial, comparator, now, t) {
      var p :| 0 <= p <= n && StateAt(versions, initial, p) == comparator && Contains(Segment(versions, now, p), t);
      if p < n {
        assert StateAt(versions, initial, p) == StateAt(prefix, initial, p);
        assert Segment(versions, now, p) == Segment(prefix, now, p);
      }
    }
  }

  lemma {:induction false} WalkCoversReached<S>(versions: seq<Snapshot<S>>, initial: S, comparator: S, now: Time)
    requires NewestFirst(versions, now)
    ensures forall t :: WalkCovers(WalkVersions(versions, initial, comparator, now), t) <==>
      Reached(versions, initial, comparator, now, t)
    decreases |versions|
  {
    if |versions| == 0 {
      forall t
        ensures WalkCovers(WalkVersions(versions, initial, comparator, now), t) <==>
          Reached(versions, initial, comparator, now, t)
      {
        if Reached(versions, initial, comparator, now, t) {
          var p :| 0 <= p <= 0 && StateAt(versions, initial, p) == comparator && Contains(Segment(versions, now, p), t);
        }
        if initial == comparator && t == now {
          assert StateAt(versions, initial, 0) == comparator && Contains(Segment(versions, now, 0), t);
        }
      }
    } else {
      var n := |versions|;
      var prefix := versions[..n - 1];
      assert NewestFirst(prefix, now);
      WalkCoversReached(prefix, initial, comparator, now);
      WalkTracksPosition(prefix, initial, comparator, now);
      WalkOrderly(prefix, initial, comparator, now);
      var w := WalkVersions(prefix, initial, comparator, now);
      var v := versions[n - 1];
      assert TimeAt(versions, now, n - 1) == TimeAt(prefix, now, n - 1) == w.currentTime;
      assert StateAt(versions, initial, n - 1) == StateAt(prefix, initial, n - 1) == w.currentState;
      assert v.modified <= w.currentTime;
      forall t
        ensures WalkCovers(WalkVersions(versions, initial, comparator, now), t) <==>
          Reached(versions, initial, comparator, now, t)
      {
        ReachedSnoc(versions, initial, comparator, now, t);
        if !(v.state == w.currentState) && w.inState {
          CoversAppend(w.availability, [Window(w.stateStart, w.stateEnd)]);
          CoversCons(Window(w.stateStart, w.stateEnd), []);
        }
      }
    }
  }

  /** The walk emits exactly the reference availability: with revisions newest first
      and none after `now`, `t` is covered by the result iff some position holding the
      comparator has a segment containing `t`. */
  lemma HistoryCoverage<S>(versions: seq<Snapshot<S>>, initial: S, comparator: S, now: Time)
    requires NewestFirst(versions, now)
    ensures forall t :: Covers(BuildAvailabilityHistory(versions, initial, comparator, now), t) <==>
      Reached(versions, initial, comparator, now, t)
  {
    FinishCovers(WalkVersions(versions, initial, comparator, now));
    WalkCoversReached(versions, initial, comparator, now);
  }

  /** Revisions with every stored state passed through `state_conversion`. */
  function ConvertStates(versions: seq<Snapshot<StoredState>>): (r: seq<Snapshot<StoredState>>)
    ensures |r| == |versions|
    ensures forall i :: 0 <= i < |versions| ==>
      r[i].modified == versions[i].modified && r[i].state == StateConversion(versions[i].state)
  {
    seq(|versions|, i requires 0 <= i < |versions| => Snapshot(StateConversion(versions[i].state), versions[i].modified))
  }

  /** The comparator of `build_instrument_availability_history`: `Instrument.SCHEDULABLE`, the integer 30. */
  const SchedulableCode: StoredState := Number(Code(Schedulable))

  /** An instrument as the availability code sees it: its live state and its revisions. */
  datatype InstrumentHistory = InstrumentHistory(state: StoredState, versions: seq<Snapshot<StoredState>>)

  /** `build_instrument_availability_history(instrument)`: the live state is compared
      as it is; only the revisions go through `state_conversion`. The comparator is
      `Instrument.SCHEDULABLE`, passed as `schedulable` (`SchedulableCode` in models.py
      as it stands). */
  function InstrumentAvailabilityHistory(instrument: InstrumentHistory, schedulable: StoredState, now: Time): (r: seq<Window>)
    ensures NewestFirst(instrument.versions, now) ==> LatestFirst(r)
    ensures forall t :: NewestFirst(instrument.versions, now) ==>
      (Covers(r, t) <==> Reached(ConvertStates(instrument.versions), instrument.state, schedulable, now, t))
    ensures |instrument.versions| == 0 ==> (r == [Window(now, now)] <==> instrument.state == schedulable)
  {
    var versions := ConvertStates(instrument.versions);
    var r := BuildAvailabilityHistory(versions, instrument.state, schedulable, now);
    assert NewestFirst(instrument.versions, now) ==>
      LatestFirst(r) && forall t :: Covers(r, t) <==> Reached(versions, instrument.state, schedulable, now, t)
    by {
      if NewestFirst(instrument.versions, now) {
        assert NewestFirst(versions, now);
        HistoryOrdered(versions, instrument.state, schedulable, now);
        HistoryCoverage(versions, instrument.state, schedulable, now);
      }
    }
    r
  }

  /** Against the integer comparator of models.py, a converted legacy revision holds
      text and never matches: a revision stored as `'30'` becomes `'SCHEDULABLE'` and
      does not count as schedulable; only revisions holding the integer 30 do. Against
      the label comparator the converted legacy revisions match instead. */
  lemma LegacyRevisionsNeverSchedulable(stored: StoredState)
    ensures stored.Text? ==> StateConversion(stored) != SchedulableCode
    ensures StateConversion(stored) == SchedulableCode <==> stored == Number(30)
    ensures StateConversion(stored) == Text("SCHEDULABLE") <==> stored == Text("30") || stored == Text("SCHEDULABLE")
  {
  }

  /** A telescope as the availability code sees it: its live `active` flag, its
      revisions of that flag, and its instruments. */
  datatype TelescopeHistory = TelescopeHistory(active: bool, versions: seq<Snapshot<bool>>, instruments: seq<InstrumentHistory>)

  /** The instruments' schedulable windows, one list per instrument. */
  function InstrumentWindows(telescope: TelescopeHistory, schedulable: StoredState, now: Time): (r: seq<seq<Window>>)
    ensures |r| == |telescope.instruments|
    ensures forall i :: 0 <= i < |r| ==> r[i] == InstrumentAvailabilityHistory(telescope.instruments[i], schedulable, now)
  {
    seq(|telescope.instruments|, i requires 0 <= i < |telescope.instruments| =>
      InstrumentAvailabilityHistory(telescope.instruments[i], schedulable, now))
  }

  /** The telescope's own windows of `active == True`. */
  function ActiveWindows(telescope: TelescopeHistory, now: Time): seq<Window> {
    BuildAvailabilityHistory(telescope.versions, telescope.active, true, now)
  }

  /** `build_telescope_availability_history(telescope)`: latest first, covering `t`
      exactly when some instrument is schedulable at `t` and the telescope is active at `t`. */
  function TelescopeAvailabilityHistory(telescope: TelescopeHistory, schedulable: StoredState, now: Time): (r: seq<Window>)
    ensures Descending(r)
    ensures forall t :: Covers(r, t) <==>
      (exists i :: 0 <= i < |telescope.instruments| &&
        Covers(InstrumentAvailabilityHistory(telescope.instruments[i], schedulable, now), t)) &&
      Covers(ActiveWindows(telescope, now), t)
  {
    var instrumentWindows := InstrumentWindows(telescope, schedulable, now);
    var combined := Union(instrumentWindows);
    var both := Intersect(combined, ActiveWindows(telescope, now));
    ReverseAscending(both);
    Reverse(both)
  }

  /** An instrument-free telescope is never available. */
  lemma NoInstrumentsNoAvailability(telescope: TelescopeHistory, schedulable: StoredState, now: Time)
    requires |telescope.instruments| == 0
    ensures TelescopeAvailabilityHistory(telescope, schedulable, now) == []
  {
  }

  /** With its instruments' and its own revisions newest first, a telescope is
      available at `t` iff the telescope's own walk reaches `t` holding `True` and some
      instrument's walk reaches `t` holding the comparator. */
  lemma TelescopeCoverage(telescope: TelescopeHistory, schedulable: StoredState, now: Time, t: Time)
    requires NewestFirst(telescope.versions, now)
    requires forall i :: 0 <= i < |telescope.instruments| ==> NewestFirst(telescope.instruments[i].versions, now)
    ensures Covers(TelescopeAvailabilityHistory(telescope, schedulable, now), t) <==>
      Reached(telescope.versions, telescope.active, true, now, t) &&
      exists i :: 0 <= i < |telescope.instruments| &&
        Reached(ConvertStates(telescope.instruments[i].versions), telescope.instruments[i].state, schedulable, now, t)
  {
    HistoryCoverage(telescope.versions, telescope.active, true, now);
    if exists i :: 0 <= i < |telescope.instruments| && Covers(InstrumentAvailabilityHistory(telescope.instruments[i], schedulable, now), t) {
      var i :| 0 <= i < |telescope.instruments| && Covers(InstrumentAvailabilityHistory(telescope.instruments[i], schedulable, now), t);
      assert Reached(ConvertStates(telescope.instruments[i].versions), telescope.instruments[i].state, schedulable, now, t);
    }
    if exists i :: 0 <= i < |telescope.instruments| &&
        Reached(ConvertStates(telescope.instruments[i].versions), telescope.instruments[i].state, schedulable, now, t) {
      var i :| 0 <= i < |telescope.instruments| &&
        Reached(ConvertStates(telescope.instruments[i].versions), telescope.instruments[i].state, schedulable, now, t);
      assert Covers(InstrumentAvailabilityHistory(telescope.instruments[i], schedulable, now), t);
    }
  }
}
