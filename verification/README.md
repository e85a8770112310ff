# configdb hardware core in Dafny

This project models the core of **configdb**, the observatory configuration
database. configdb holds sites, enclosures, telescopes, instruments, cameras,
optical element groups and generic mode groups. The model covers these parts:

- **Availability history** (`configdb/hardware/availability.py`). It walks an
  object's stored revisions, newest first, and builds the windows in which an
  instrument was SCHEDULABLE. For a telescope, it takes the union over its
  instruments and intersects that with the windows in which the telescope itself
  was active.
- **The availability endpoint** (`AvailabilityHistoryView` in
  `configdb/hardware/views.py`). This covers its selectors, its 400 and 404
  answers, the default bounds, the overlap filter and the truncation to whole
  seconds.
- **The instrument state**: the five states of `models.py`, and data migration
  0034, which copies the integer state to text and back.
- **The `?state=` filter** of the instrument API.
- **The HEROIC payload builders** (`configdb/hardware/heroic.py`). This covers
  the ids, the status conversions, the capability dictionaries, and which
  create or update call is made, to which endpoint, with which body.
- **The write rules of the serializers**:
  - default-membership validation;
  - `get_or_create` of optical elements;
  - clearing and refilling many-to-many members;
  - which updates trigger a HEROIC capability update;
  - schema validation;
  - replacement of configuration types.
- **The admin decisions**:
  - the empty-value rule of the schema field;
  - the schema check of the forms;
  - the one-group-per-type camera rule;
  - which saves notify HEROIC;
  - the read-only log entry permissions and action labels.
- **`str2bool` and the `DEBUG` default** of `configdb/settings.py`.
- **The older configdb3 schema**: its display strings, `binning_str`,
  `autoguider_type`, and the `camera_mappings` text table of
  `configdb3/hardware/views.py`.

## How the model is built

- The database is replaced by values. A foreign key holds the referenced record.
  A many-to-many relation is a sequence in the order the database returns it. A
  catalog of stored optical elements is a sequence that `get_or_create` reads and
  extends.
- Time is an integer count of microseconds since the Unix epoch (UTC).
- Float fields are kept as opaque text.
- JSON values form their own datatype.
- A Python exception becomes an `Err`/`None` result, or a `Fails` outcome for
  the HEROIC builders.
- Things the code asks from outside the model become parameters:
  - the clock (`now`);
  - the date parser;
  - the Cerberus validator (`Json -> Option<string>`, where `Some(repr(e))`
    means it raised);
  - whether the database accepts a save;
  - the text of `overhead / 1000`;
  - the HEROIC settings.

The instrument state needs care because configdb holds it in two forms.
`models.py` declares it as an `IntegerField`. `heroic.py` and migration 0034,
however, treat it as text (`'DISABLED'`, `'SCHEDULABLE'`). So the stored value is
modelled as `StoredState = Number(int) | Text(string)`. Like Python's `==`, this
never equates an integer with a string. Both readings are modelled as written,
and lemmas make their consequences explicit:

- `IntegerStatesReportedAvailable`: with integer states every instrument is
  reported AVAILABLE to HEROIC.
- `IntegerDisabledNotSkipped`: an integer DISABLED instrument is not held back
  by the `!= 'DISABLED'` guard.
- `LegacyRevisionsNeverSchedulable`: revisions converted by `state_conversion`
  hold text, so they never equal the integer comparator.

Where the code and its description differ, the model follows the code:

- `Telescope.aperture` is read by `heroic.py` but not declared in `models.py`.
  The model carries it as an opaque telescope field.
- The `state` column is an integer although the HEROIC code compares it with
  labels.
- `camera_mappings_dict` returns from inside the enclosure loop. So it lists only
  the first active enclosure of the first active site that has one: an active
  site without an active enclosure is skipped. It returns `None` when no active
  site has an active enclosure, and `camera_mappings` then raises. The model does
  the same.
- `models.py` declares neither `ConfigurationTypeProperties` nor
  `InstrumentType.default_configuration_type`. The serializers use the first,
  and migration 0029 adds the second with `on_delete=CASCADE`. The model takes
  both from there. `InstrumentType.configuration_types` is declared as a
  many-to-many field with no `through=`. The model assumes it runs through
  `ConfigurationTypeProperties`, as the serializer's
  `source='configurationtypeproperties_set'` implies, so the links of an
  instrument type are its `ConfigurationTypeProperties` rows.

## Model

| member | source | states |
|---|---|---|
| InstrumentStates.FromCode | configdb/hardware/models.py:245-256 | the state whose code is given, and none exactly when no state has that code |
| InstrumentStates.FromLabel | configdb/hardware/models.py:250-256 | the state whose label is given, and none exactly when no state has that label |
| InstrumentStates.DefaultState | configdb/hardware/models.py:271 | the field default is the integer code of DISABLED, and no other choice has that code |
| InstrumentStates.ChoicesOrderedAndDistinct | configdb/hardware/models.py:250-256 | every state is among the choices, the choices run in increasing code order, and their labels are pairwise distinct |
| InstrumentStates.Index | configdb/hardware/models.py:250-256 | each state sits at a position of the choice list |
| StateMigration.MappingMatchesChoices | configdb/hardware/migrations/0034_copy_instrument_state.py:3-7 | the migration table has exactly the five state codes as keys, maps each to its label, and iterates them in choice order |
| StateMigration.IntToChar | configdb/hardware/migrations/0034_copy_instrument_state.py:19 | a known code gives its state's label; an unknown code is the `KeyError` carrying that code |
| StateMigration.FirstKeyNamed | configdb/hardware/migrations/0034_copy_instrument_state.py:27 | the generator finds a key exactly when some key maps to the name, and the key it finds maps to the name |
| StateMigration.CharToInt | configdb/hardware/migrations/0034_copy_instrument_state.py:27 | a state label gives that state's code and any other text gives `None` |
| StateMigration.BackwardAfterForward | configdb/hardware/migrations/0034_copy_instrument_state.py:15-30 | reversing after migrating forward restores each of the five codes |
| StateMigration.ForwardAfterBackward | configdb/hardware/migrations/0034_copy_instrument_state.py:15-30 | migrating forward after reversing restores each of the five labels |
| StateMigration.MigrateForward | configdb/hardware/migrations/0034_copy_instrument_state.py:15-20 | succeeds iff every code is known, then gives each instrument its label in order; otherwise fails on the first unknown code, with all earlier codes known |
| StateMigration.MigrateBackward | configdb/hardware/migrations/0034_copy_instrument_state.py:22-30 | one outcome per instrument; saved with the looked-up code exactly when the save is accepted, otherwise the failure message naming the instrument, and the loop continues |
| StateFilter.FirstLabelled | configdb/hardware/api_views.py:80-82 | the first choice whose label equals the upper-cased value, or none when no choice matches |
| StateFilter.MatchState | configdb/hardware/api_views.py:77-83 | selects state `s` exactly when `s`'s label equals the value upper-cased |
| StateFilter.RowsInState | configdb/hardware/api_views.py:82 | the rows kept are exactly the rows whose state is the code |
| StateFilter.ApplyStateFilter | configdb/hardware/api_views.py:77-83 | a value naming a state in any case keeps exactly the rows with that state's code; any other value leaves the queryset unchanged |
| StateFilter.NumeralsNeverMatch | configdb/hardware/api_views.py:77-83 | a numeric value such as `10` selects no state and leaves every queryset unchanged |
| StateFilter.CodesNeverMatch | configdb/hardware/api_views.py:77-83 | the decimal text of every state code is ignored by the filter |
| Availability.StateConversionTable | configdb/hardware/availability.py:10-21 | each legacy numeric string becomes its label; integers and other text pass unchanged; converting twice is converting once |
| Availability.BuildAvailabilityHistory | configdb/hardware/availability.py:24-61 | with no revisions the result is `[(now, now)]` if the live value matches the comparator and empty otherwise |
| Availability.WalkTracksPosition | configdb/hardware/availability.py:43-57 | after any number of revisions the loop's current value and time are those of the last visited revision, and "in state" holds iff that value equals the comparator |
| Availability.InStateIffComparator | configdb/hardware/availability.py:34-57 | at every step of the loop, "in state" holds iff the current value equals the comparator |
| Availability.WalkOrderly | configdb/hardware/availability.py:43-57 | with revisions newest first, the loop keeps its emitted windows latest first, valid and ending by `now`; an open window starts at the current time; the oldest emitted window starts no earlier than anything still to come |
| Availability.HistoryOrdered | configdb/hardware/availability.py:24-61 | with revisions newest first and none after `now`, every window is valid and the windows come latest first without overlap |
| Availability.EarliestBound | configdb/hardware/availability.py:43-57 | no window starts before the time the loop has reached |
| Availability.OpeningRevision | configdb/hardware/availability.py:52-55 | a revision that enters the comparator value opens a window from its own time to the newer revision's time |
| Availability.SameStateRevision | configdb/hardware/availability.py:45-47 | a revision with an unchanged value only moves the open window's start back |
| Availability.ClosingRevision | configdb/hardware/availability.py:49-51 | a revision that leaves the comparator value closes and emits the open window |
| Availability.FinishCovers | configdb/hardware/availability.py:59-61 | the final list covers exactly the emitted windows plus the still-open one |
| Availability.ReachedSnoc | configdb/hardware/availability.py:43-57 | one older revision adds exactly its own segment to the reference availability |
| Availability.WalkCoversReached | configdb/hardware/availability.py:43-57 | the loop covers exactly the instants whose segment holds the comparator value |
| Availability.HistoryCoverage | configdb/hardware/availability.py:24-61 | the windows cover instant `t` iff the value in force at `t` (live value up to `now`, then each revision back to its `modified` time) equals the comparator |
| Availability.ConvertStates | configdb/hardware/availability.py:19-21 | every revision keeps its time and has its state passed through `state_conversion` |
| Availability.InstrumentAvailabilityHistory | configdb/hardware/availability.py:64-68 | latest-first windows covering exactly the instants at which the converted state equals the comparator; with no revisions, `[(now, now)]` iff the live state is the comparator |
| Availability.LegacyRevisionsNeverSchedulable | configdb/hardware/availability.py:10-21 | a converted text revision never equals the integer SCHEDULABLE; only the integer 30 does; text `'30'` and `'SCHEDULABLE'` both become the label |
| Availability.InstrumentWindows | configdb/hardware/availability.py:76-78 | one window list per instrument, each that instrument's history |
| Availability.TelescopeAvailabilityHistory | configdb/hardware/availability.py:71-87 | latest first, covering `t` iff some instrument's history covers `t` and the telescope's active history covers `t` |
| Availability.NoInstrumentsNoAvailability | configdb/hardware/availability.py:76-79 | a telescope without instruments has no availability |
| Availability.TelescopeCoverage | configdb/hardware/availability.py:71-87 | with revisions newest first, available at `t` iff the telescope is active at `t` and some instrument holds the comparator at `t` |
| Intervals.CoversCons | configdb/hardware/availability.py:78 | a window list with one window in front covers that window's points and the rest |
| Intervals.CoversAppend | configdb/hardware/availability.py:78-79 | a concatenation covers the points of either part |
| Intervals.Insert | configdb/hardware/availability.py:78 | adding a window to a normalised list gives a normalised list covering the window and the list |
| Intervals.Normalize | configdb/hardware/availability.py:78 | `Intervals(list)`: ascending, separated windows covering the same points |
| Intervals.Flatten | configdb/hardware/availability.py:79 | the concatenated operands cover the points of any operand |
| Intervals.Union | configdb/hardware/availability.py:79 | ascending, covering exactly the points of some operand |
| Intervals.ClipTo | configdb/hardware/availability.py:87 | one window cut by a list covers the points common to both |
| Intervals.ClipAll | configdb/hardware/availability.py:87 | pairwise clipping covers the points common to both lists |
| Intervals.Intersect | configdb/hardware/availability.py:87 | ascending, covering exactly the points of both operands |
| Intervals.Reverse | configdb/hardware/availability.py:87 | `reversed`: same length, elements in opposite order |
| Intervals.ReverseAscending | configdb/hardware/availability.py:86-87 | reversing an ascending list gives a latest-first list covering the same points |
| Intervals.IntersectIdempotent | configdb/hardware/availability.py:87 | intersecting a list with itself covers exactly its points |
| Intervals.UnionCommutes | configdb/hardware/availability.py:77-79 | the union does not depend on the order in which instruments are visited |
| AvailabilityView.Bound | configdb/hardware/views.py:42-49 | an absent or empty bound is the default; a given bound is the parser's result, `None` when it raises |
| AvailabilityView.Bounds | configdb/hardware/views.py:41-51 | both bounds parse or the request fails; the start and end are the bounds parsed or defaulted |
| AvailabilityView.FilterOverlapping | configdb/hardware/views.py:72-73 | keeps exactly the windows that meet `[start, end]` |
| AvailabilityView.FilterOverlappingAppend | configdb/hardware/views.py:72-73 | filtering a concatenation is concatenating the filtered parts, so order is kept |
| AvailabilityView.FilterKeepsOverlapping | configdb/hardware/views.py:72-73 | a list whose windows all meet the bounds comes back unchanged |
| AvailabilityView.Truncate | configdb/hardware/views.py:75-76 | `replace(microsecond=0)`: the whole second at or before the instant |
| AvailabilityView.TruncateIdempotent | configdb/hardware/views.py:75-76 | truncating twice is truncating once, and whole seconds are left alone |
| AvailabilityView.Reported | configdb/hardware/views.py:74-77 | each end of a reported window lies within the second after its true end |
| AvailabilityView.Report | configdb/hardware/views.py:71-77 | one reported window per overlapping window, in order, each truncated |
| AvailabilityView.Selected | configdb/hardware/views.py:55-69 | unknown instrument → its 404; else unknown telescope → its 404; a telescope triple selects the telescope history; else a given instrument selects its history; otherwise empty |
| AvailabilityView.Get | configdb/hardware/views.py:33-78 | the 400 for unparseable bounds, the 400 for missing selectors, the 404s, or the availability report, each under exactly the stated condition |
| AvailabilityView.UnknownInstrumentFirst | configdb/hardware/views.py:57-61 | an unknown instrument code is reported before the telescope is looked up |
| AvailabilityView.UnknownTelescope | configdb/hardware/views.py:65-68 | an unknown telescope triple gives its own 404 naming `site.enclosure.telescope` |
| AvailabilityView.TelescopeOverridesInstrument | configdb/hardware/views.py:57-69 | with both selectors known, the telescope history replaces the instrument's |
| AvailabilityView.EmptyInstrumentIdSelectsNothing | configdb/hardware/views.py:53-57 | an empty `instrument_id` passes the `None` test but selects nothing, giving an empty report |
| AvailabilityView.DefaultBounds | configdb/hardware/views.py:44-49 | without bounds the start is 2010-01-01 UTC and the end is `now` |
| AvailabilityView.ReportedWindowsOverlap | configdb/hardware/views.py:72-77 | every reported window is the truncation of a history window that meets the bounds |
| Hardware.EnclosureDisplay | configdb/hardware/models.py:44-45 | the display is the site code and the enclosure code joined by a dot |
| Hardware.TelescopeDisplay | configdb/hardware/models.py:68-69 | the display is site, enclosure and telescope codes joined by dots |
| Hardware.InstrumentDisplay | configdb/hardware/models.py:277-278 | the display is site, enclosure, telescope and instrument codes joined by dots |
| Hardware.InstrumentDisplaySplits | configdb/hardware/models.py:277-278 | with dot-free codes, the display splits back into its four codes |
| Hardware.ElementCodes | configdb/hardware/models.py:98-99 | the codes of the group's elements, position by position |
| Hardware.OpticalElementCodesSplit | configdb/hardware/models.py:98-99 | with comma-free codes, the joined codes split back into the element codes in order |
| Hardware.OpticalElementGroupDisplayHead | configdb/hardware/models.py:94-96 | the display up to its first colon is `name - type` when neither holds a colon |
| Hardware.GenericModeDisplaySplits | configdb/hardware/models.py:205-206 | the mode display splits at its first colon into the code and ` name` |
| Hardware.ModeCodes | configdb/hardware/models.py:222-223 | the codes of the group's modes, position by position |
| Hardware.GenericModeGroupDisplaySplits | configdb/hardware/models.py:222-223 | with comma-free codes, the group display splits back into the mode codes |
| Hardware.TypeCodePairs | configdb/hardware/models.py:236-238 | one `(type, codes)` pair per group, in group order |
| Hardware.CameraOpticalElements | configdb/hardware/models.py:236-238 | the keys are exactly the group types, and each type maps to the codes of its last group |
| Hardware.TypeCodePairKeys | configdb/hardware/models.py:236-238 | the pair keys are exactly the group types, and the last group of a type is its last assignment |
| Hardware.CameraCodes | configdb/hardware/admin.py:167 | the codes of the cameras, position by position |
| Hardware.ScienceCameraCodes | configdb/hardware/admin.py:166-167 | no science camera gives the empty text, and a single one is listed by its own code |
| Hardware.ScienceCameraCodesSplit | configdb/hardware/admin.py:166-167 | with comma-free codes, the column splits back into every science camera code, in order |
| Heroic.InstrumentStatus | configdb/hardware/heroic.py:13-21 | DISABLED and MANUAL labels are UNAVAILABLE, SCHEDULABLE is SCHEDULABLE, anything else (integers included) is AVAILABLE |
| Heroic.IntegerStatesReportedAvailable | configdb/hardware/heroic.py:13-21 | every integer state, DISABLED (0) included, is reported AVAILABLE |
| Heroic.TelescopeStatus | configdb/hardware/heroic.py:24-25 | SCHEDULABLE iff telescope, enclosure and site are all active, otherwise UNAVAILABLE |
| Heroic.InstrumentIdNests | configdb/hardware/heroic.py:28-47 | the instrument id is the telescope id plus `.code`, which is the site id plus `.enclosure-telescope`; with dot-free parts it splits on dots into observatory, site, `enclosure-telescope` and instrument |
| Heroic.ElementChoices | configdb/hardware/heroic.py:59-64 | one option per element, carrying its code, name and schedulability, in order |
| Heroic.ModeChoices | configdb/hardware/heroic.py:76-81 | one option per mode, carrying its code, name and schedulability, in order |
| Heroic.ElementGroupEntry | configdb/hardware/heroic.py:56-64 | a default is present iff the group has one and is its code; the option ids are the element codes in order |
| Heroic.ScienceGroups | configdb/hardware/heroic.py:54-55 | exactly the groups of the science cameras; a single camera gives its own groups in order |
| Heroic.ScienceGroupsAppend | configdb/hardware/heroic.py:54-55 | the groups of a camera list are those of each camera in turn, so an earlier camera's groups come first |
| Heroic.ElementGroupPairs | configdb/hardware/heroic.py:54-64 | one `(type, entry)` assignment per group, in visiting order |
| Heroic.ElementGroupPairKeys | configdb/hardware/heroic.py:54-64 | the assigned keys are exactly the group types, and the last group of a type is its last assignment |
| Heroic.HeroicOpticalElementGroups | configdb/hardware/heroic.py:50-65 | keyed by exactly the science groups' types; the last group of each type supplies the whole entry |
| Heroic.ModeGroupEntry | configdb/hardware/heroic.py:73-81 | a default is present iff the group has one and is its code; the option ids are the mode codes in order |
| Heroic.ModeGroupAssignments | configdb/hardware/heroic.py:72-81 | the assignments exist iff every group has a mode type, then one `(type id, entry)` per group |
| Heroic.ModeGroupPairKeys | configdb/hardware/heroic.py:72-81 | every group's type id is assigned, and the last group of a type is its last assignment |
| Heroic.HeroicOperationModes | configdb/hardware/heroic.py:68-82 | raises iff the instrument has no type or a group has no mode type; otherwise keyed by exactly the groups' type ids, with the last group of a type supplying its entry |
| Heroic.EntryJson | configdb/hardware/heroic.py:56-64 | a JSON object with `options` and with `default` exactly when there is a default |
| Heroic.EntriesJson | configdb/hardware/heroic.py:53-65 | a JSON object with the same keys, each holding its entry |
| Heroic.CapabilityFields | configdb/hardware/heroic.py:88-93 | exactly the four capability keys, each holding its own part |
| Heroic.Capabilities | configdb/hardware/heroic.py:85-94 | exactly the four capability keys, holding the instrument id, the status, and both group dictionaries; raises iff the operation modes raise |
| Heroic.CreateInstrument | configdb/hardware/heroic.py:128-141 | skipped iff the site or telescope is excluded; raises iff not excluded and the instrument has no type; otherwise a POST to `instruments/` of the four-key payload |
| Heroic.UpdateInstrumentCapabilities | configdb/hardware/heroic.py:144-153 | skipped iff HEROIC is not configured, the state is the text DISABLED, or the site or telescope is excluded; otherwise raises iff the capabilities raise, else posts them |
| Heroic.IntegerDisabledNotSkipped | configdb/hardware/heroic.py:148 | an integer DISABLED instrument passes the text guard |
| Heroic.TelescopeProperties | configdb/hardware/heroic.py:97-111 | exactly the nine property keys: `name - enclosure name`, the site id, and the aperture, coordinates, horizon, hour-angle limits and zenith blind spot of the telescope |
| Heroic.TelescopePayload | configdb/hardware/heroic.py:159-164 | the properties plus `id` and `status`, and the inactive-usage `reason` exactly when the status is not SCHEDULABLE; no other key, and every property keeps its value |
| Heroic.CreateTelescope | configdb/hardware/heroic.py:156-168 | skipped iff excluded, never raises; otherwise a POST to `telescopes/` of the telescope's properties with its id and status, carrying `reason` iff the status is not SCHEDULABLE |
| Heroic.UpdateTelescope | configdb/hardware/heroic.py:171-179 | skipped iff excluded; otherwise a PATCH of the properties to `telescopes/<id>/` |
| Heroic.SiteProperties | configdb/hardware/heroic.py:182-191 | exactly the four site keys: the configured observatory, and the site's name, elevation and time zone |
| Heroic.CreateSite | configdb/hardware/heroic.py:194-203 | skipped iff the site is excluded; otherwise a POST to `sites/` of the properties plus the id |
| Heroic.UpdateSite | configdb/hardware/heroic.py:206-214 | skipped iff the site is excluded; otherwise a PATCH of the properties to `sites/<id>/` |
| Memberships.AddMember | configdb/hardware/serializers.py:83 | `relation.add(x)`: members become the old ones plus `x`, with no duplicate, and the old order is kept |
| Memberships.AddAll | configdb/hardware/serializers.py:82-87 | adding in turn gives the old members plus the added ones, with no duplicate, and the old order is kept |
| Memberships.AddAllPresent | configdb/hardware/serializers.py:82-83 | adding members already present changes nothing |
| Memberships.Fresh | configdb/hardware/serializers.py:193-198 | a relation filled from empty holds each supplied member exactly once |
| Serializers.FindByCode | configdb/hardware/serializers.py:86 | the stored element with the code, or none when no stored element has it |
| Serializers.GetOrCreateElement | configdb/hardware/serializers.py:86 | an existing code gives the stored element and leaves the catalog alone; a new code appends the supplied element; codes stay unique |
| Serializers.GetOrCreateElements | configdb/hardware/serializers.py:85-87 | one element per supplied element with the same code, all in the catalog, which only grows and keeps codes unique |
| Serializers.ValidateElementGroup | configdb/hardware/serializers.py:63-75 | rejects, with the default's message, iff a default is given whose code is in no member (stored members on update, supplied ones on create) |
| Serializers.FreshIsFilled | configdb/hardware/serializers.py:82-87 | a relation filled with the ids and with elements carrying the supplied codes, position by position, holds each once, holds every id and a member for every code, and nothing else |
| Serializers.NewMembers | configdb/hardware/serializers.py:82-87 | no duplicates; every id is a member; every supplied code has a member; nothing else is a member |
| Serializers.CreateElementGroup | configdb/hardware/serializers.py:77-89 | the scalar fields are stored and the members are the new members; create notifies nothing |
| Serializers.UpdateElementGroup | configdb/hardware/serializers.py:91-108 | supplied fields replace stored ones; members are replaced iff elements or ids are supplied; notifies iff elements, ids, default or type are supplied |
| Serializers.CreatedDefaultIsMember | configdb/hardware/serializers.py:63-89 | on create a validated default is a member of the new group |
| Serializers.UpdatedDefaultMayLeaveGroup | configdb/hardware/serializers.py:63-75 | an update that replaces the members can leave the validated default outside the group |
| Serializers.UpdatedModeDefaultMayLeaveGroup | configdb/hardware/serializers.py:174-220 | for generic mode groups as well, an update that replaces the modes can leave the validated default outside the group |
| Serializers.RepresentDefault | configdb/hardware/serializers.py:57-61 | a missing default is rendered as the empty string; a present non-empty code as itself |
| Serializers.RepresentDefaultRoundTrip | configdb/hardware/serializers.py:57-61 | with non-empty codes, reading back the rendered default gives the default |
| Serializers.UpdateElement | configdb/hardware/serializers.py:19-27 | supplied fields are set, and notifies iff name, code or schedulable is supplied |
| Serializers.ElementNotifyOnKeys | configdb/hardware/serializers.py:22 | notification follows the keys supplied, not whether their values changed |
| Serializers.UpdateMode | configdb/hardware/serializers.py:141-149 | supplied fields are set, and notifies iff name, code or schedulable is supplied |
| Serializers.OverheadAndSchemaAreSilent | configdb/hardware/serializers.py:144 | an overhead or schema change alone notifies nothing and keeps name and code |
| Serializers.ValidateSchema | configdb/hardware/serializers.py:133-139 | accepts iff the validator does, returning the value; otherwise the message is the prefix followed by the validator's `repr` |
| Serializers.ValidateModeGroup | configdb/hardware/serializers.py:174-186 | rejects, with the mode's message, iff a default is given whose code is in no member (stored members on update, supplied ones on create) |
| Serializers.CreateModeGroup | configdb/hardware/serializers.py:188-203 | the members are the ids and the supplied modes, each once; the new group's instrument type is notified |
| Serializers.UpdateModeGroup | configdb/hardware/serializers.py:205-229 | fields replaced when supplied; members replaced iff modes or ids are supplied; the old type is notified iff a different type is supplied over a stored one; the new type is notified iff present and modes, ids, default or type were supplied |
| Serializers.ModeGroupNotifiesDistinctTypes | configdb/hardware/serializers.py:222-228 | when both the old and the new type are notified, they differ |
| Serializers.CreatedModeDefaultIsMember | configdb/hardware/serializers.py:174-198 | on create a validated default is one of the new group's modes |
| Serializers.CameraValidatedKeys | configdb/hardware/serializers.py:238-248 | every writable key of the request lands under its source, and nothing else: read-only and unknown keys are dropped |
| Serializers.CameraNotifiesOnGroups | configdb/hardware/serializers.py:238-258 | a camera update notifies iff the request supplies `optical_element_group_ids`; the read-only `optical_element_groups` alone notifies nothing |
| Serializers.CameraIdsKeyNeverValidated | configdb/hardware/serializers.py:244-255 | `validated_data` never holds `optical_element_group_ids`, so the second test of the update never decides |
| Serializers.AddLinks | configdb/hardware/serializers.py:311-312 | after the `get_or_create` calls the links are the old ones plus one per supplied row, with no duplicate |
| Serializers.DeleteConfigurationTypes | configdb/hardware/migrations/0029_instrumenttype_default_configuration_type.py:14-18 | the deleted codes leave the catalogue; exactly the instrument types defaulting to one of them go too (`CASCADE`); a link stays iff it names neither a deleted code nor a gone instrument type |
| Serializers.UpdateConfigurationTypesAsWritten | configdb/hardware/serializers.py:306-313 | with a supplied set, every configuration type the instrument type offered leaves the shared catalogue, with every link to it, whether or not the request fails; the update fails iff the instrument type went with its default or a supplied row names a deleted or never-stored configuration type; the instrument type's links are exactly the rows stored before the first failing one, other links and the catalogue are those left by the deletion, and on success every supplied row is linked |
| Serializers.CommittedRows | configdb/hardware/serializers.py:311-312 | the rows stored before the first `get_or_create` that raises: a prefix of the supplied rows, every one linkable, and the next row not |
| Serializers.FailsIffCut | configdb/hardware/serializers.py:310-312 | the request fails exactly when the instrument type is gone or some row is cut off before being stored |
| Serializers.UpdateConfigurationTypes | configdb/hardware/serializers.py:306-313 | the corrected update: no supplied set changes nothing; a supplied set becomes exactly this type's rows, while the catalogue, the instrument types and every other type's rows stay as they were |
| Serializers.CreateConfigurationTypes | configdb/hardware/serializers.py:315-322 | the new instrument type is added with exactly the supplied rows, or none, and every other row stays as it was |
| Serializers.KeepAddLinks | configdb/hardware/serializers.py:311-312 | adding rows for one instrument type leaves the rows of every other type as they were, in order |
| Serializers.ConfigurationTypesReplaced | configdb/hardware/serializers.py:306-313 | in the corrected update, sending the same set twice changes nothing the second time, and old rows outside the set are gone |
| Serializers.AsWrittenUpdateDropsSharedRows | configdb/hardware/serializers.py:306-313 | two instrument types offer `EXPOSE`: clearing the first's set takes `EXPOSE` from the second as written, but not in the corrected update |
| Serializers.AsWrittenResendFails | configdb/hardware/serializers.py:310-312 | sending the first type's own set back fails as written, since its row names the deleted `EXPOSE`, yet the failed request has already deleted `EXPOSE` and taken it from the second type; the corrected update links it again |
| AdminRules.Elements | configdb3/hardware/admin.py:50-51 | `set(xs)`: exactly the values of the list |
| AdminRules.ElementsCardinality | configdb3/hardware/admin.py:51 | the set is no larger than the list, and equally large iff no value repeats |
| AdminRules.CheckGroupTypes | configdb3/hardware/admin.py:48-54 | rejects, with the one-group-per-type message, iff two submitted groups share a type; otherwise returns the cleaned data |
| AdminRules.HasAddPermission | configdb3/hardware/admin.py:161-162 | no request may add a log entry |
| AdminRules.HasDeletePermission | configdb3/hardware/admin.py:167-168 | no request may delete a log entry |
| AdminRules.HasChangePermission | configdb3/hardware/admin.py:164-165 | granted iff the user is a superuser and the method is not POST |
| AdminRules.LogEntriesReadOnly | configdb3/hardware/admin.py:161-168 | log entries can be neither added nor deleted; only a superuser's non-POST request may open one for change, and a superuser's GET always may |
| AdminRules.ActionLabel | configdb3/hardware/admin.py:208-216 | Deleted, Created and Updated for the three flags, and the empty string for any other |
| AdminRules.ActionLabelInjective | configdb3/hardware/admin.py:208-216 | a non-empty label names exactly one flag |
| Admin.CleanSchemaField | configdb/hardware/admin.py:22-24 | the field is required, as every `ProperJSONField` of the admin forms is: a value is the required error iff it is empty (`None`, `""`, `[]` or `()`), and any other value is kept as given |
| Admin.EmptyObjectIsASchema | configdb/hardware/admin.py:22-24 | `{}` survives the required field, although Django's own empty values include it |
| Admin.CleanSchemaForm | configdb/hardware/admin.py:60-67 | rejects iff a schema is present and the validator raises, with the prefix and `repr`; otherwise the cleaned data |
| Admin.FormAndSerializerAgreeOnSchemas | configdb/hardware/admin.py:89-96 | the admin forms and the serializers accept the same schemas and reject them with the same message |
| Admin.GroupTypes | configdb/hardware/admin.py:106 | the types of the groups, position by position |
| Admin.CleanCameraForm | configdb/hardware/admin.py:104-110 | rejects iff two submitted groups share a type, with the one-group-per-type message |
| Admin.AcceptedCameraKeysEachGroup | configdb/hardware/admin.py:104-110 | for an accepted camera, each group's type maps to that group's own codes in `optical_elements` |
| Admin.CameraSaveNotifies | configdb/hardware/admin.py:181-188 | instruments are notified iff the set of groups changed |
| Admin.SaveModeGroup | configdb/hardware/admin.py:212-234 | the old type is notified iff the group was stored with a type other than the submitted one; the submitted type is always notified when present |
| Admin.AdminAndSerializerAgreeOnOldType | configdb/hardware/admin.py:212-225 | an instrument type change made through the admin or the serializer notifies the same old type |
| Admin.NewModeGroupHasNoOldType | configdb/hardware/admin.py:213-217 | a new group has no old type to notify |
| Settings.Str2Bool | configdb/settings.py:15-25 | true iff the lower-cased value is a true token, false iff it is a false token, and otherwise the error naming the lower-cased value |
| Settings.TokensDisjoint | configdb/settings.py:19-23 | no value reads both true and false |
| Settings.LowerIdempotent | configdb/settings.py:17 | lower-casing twice is lower-casing once |
| Settings.Str2BoolCaseInsensitive | configdb/settings.py:15-25 | a value and its lower-case form parse alike |
| Settings.Debug | configdb/settings.py:38 | an unset environment variable gives false; a set one is parsed by `str2bool` |
| LegacyModels.EnclosureDisplay | configdb3/hardware/models.py:26-27 | the display is the site and enclosure codes joined by a dot |
| LegacyModels.TelescopeDisplay | configdb3/hardware/models.py:37-38 | the display is the site, enclosure and telescope codes joined by dots |
| LegacyModels.NumeralLacks | configdb3/hardware/models.py:64-65 | the text of an integer contains no character other than digits and a minus sign |
| LegacyModels.BinningStr | configdb3/hardware/models.py:63-65 | the binning text splits on `x` into the binning twice |
| LegacyModels.BinningStrRoundTrip | configdb3/hardware/models.py:63-65 | each half of the binning text reads back as the binning |
| LegacyModels.BinningStrInjective | configdb3/hardware/models.py:63-65 | two modes share a binning text iff they share a binning |
| LegacyModels.ModeDisplaySplits | configdb3/hardware/models.py:67-68 | a mode's display splits at its dot into the camera type name and the binning text |
| LegacyModels.CameraFilters | configdb3/hardware/models.py:79-81 | a camera's filters are its filter wheel's display |
| LegacyModels.AutoguiderType | configdb3/hardware/models.py:92-97 | SelfGuide iff the science and autoguider cameras are the same row, OffAxis otherwise |
| LegacyModels.InstrumentDisplaySplits | configdb3/hardware/models.py:99-100 | the display splits on dots into site, enclosure, telescope and `science-autoguider`, and with dash-free camera codes that part splits on `-` into the two camera codes |
| CameraMappings.BinningStrs | configdb3/hardware/views.py:24 | the binning texts of the camera type's modes, in order |
| CameraMappings.BinningColumnSplits | configdb3/hardware/views.py:24 | the binning column splits on commas back into every mode's binning text |
| CameraMappings.MakeRow | configdb3/hardware/views.py:24-40 | raises iff the camera type has no default mode; otherwise every field of the entry is stated: the site, enclosure, telescope and camera codes, the camera type's name, size and plate scale, the binnings, the default mode's binning and overhead (kept in milliseconds until the table divides it), the autoguider code and type, and the filters |
| CameraMappings.ActiveInstruments | configdb3/hardware/views.py:22-23 | exactly the active instruments of the active telescopes; a single telescope gives its own active instruments in order, or nothing when inactive |
| CameraMappings.ActiveInstrumentsAppend | configdb3/hardware/views.py:22-23 | the instruments of a telescope list are those of each telescope in turn, so table lines follow telescope order |
| CameraMappings.ActiveOf | configdb3/hardware/views.py:23 | exactly the active instruments of one telescope, each paired with it |
| CameraMappings.ActiveOfInOrder | configdb3/hardware/views.py:23 | one pair per active instrument, in stored order and with repeats kept: the `active=True` filter |
| CameraMappings.EnclosureRows | configdb3/hardware/views.py:22-40 | the entries exist iff no instrument raises, then one per instrument in order |
| CameraMappings.FirstActiveEnclosure | configdb3/hardware/views.py:20-21 | the first active enclosure of an active site in visiting order, or none iff there is none |
| CameraMappings.FirstActive | configdb3/hardware/views.py:21 | the first active enclosure of a list, or none iff none is active |
| CameraMappings.CameraMappingsDict | configdb3/hardware/views.py:18-42 | returns `None` iff there is no active enclosure of an active site; lists cameras only when there is one |
| CameraMappings.RowsOfEnclosure | configdb3/hardware/views.py:22-40 | every entry belongs to the enclosure and comes from one of its active instruments, and every active instrument has its entry |
| CameraMappings.ListedCamerasOfFirstEnclosure | configdb3/hardware/views.py:18-42 | every listed camera comes from the first active enclosure of the first active site |
| CameraMappings.RowFields | configdb3/hardware/views.py:54-68 | thirteen cells, one per column |
| CameraMappings.ColumnsHoldFields | configdb3/hardware/views.py:51-53 | padding never cuts a value: each cell's text reads back at its offset |
| CameraMappings.ColumnsWidth | configdb3/hardware/views.py:51-53 | when every value fits its column, the line has the sum of the widths |
| CameraMappings.RenderRow | configdb3/hardware/views.py:51-53 | every line starts with two spaces |
| CameraMappings.RowWidth | configdb3/hardware/views.py:51-53 | a row whose values all fit is 201 characters long |
| CameraMappings.CameraMappingsView | configdb3/hardware/views.py:45-71 | a text table iff the dictionary lists cameras; raises otherwise |
| CameraMappings.HeaderOneLine | configdb3/hardware/views.py:47-49 | the header holds no newline |
| CameraMappings.TableLines | configdb3/hardware/views.py:71 | with newline-free rows, the table splits into the header and one line per camera |

## Left out

- The ORM and django-reversion storage. Querysets, revisions and many-to-many
  tables are sequences; database ordering is the sequence order, and a
  many-to-many relation keeps insertion order.
- `unique_together`, unique-code constraints and the resulting `IntegrityError`.
  `Serializers.CodesUnique` states code uniqueness as a preserved property
  instead.
- The HTTP request itself (`send_to_heroic`), its logging, and the
  `try/except` that swallows network errors. A `Send` outcome is the request
  that would be made.
- The `print(name)` of the instrument API's `?state=` filter. It only writes the
  value to standard output.
- The signal handlers and `apps.py`, which connect saves to the HEROIC
  builders. The builders are modelled, but not when Django calls them.
- Date parsing, with the parser as a parameter.
- `isoformat` rendering of reported windows. Windows are reported as truncated
  instants.
- The `time_intervals` library. It is not part of this model. `Intervals`
  gives its own normal form, and only point membership and ascending order are
  claimed for it.
- The single `timezone.now()` of the endpoint and of the walk: `now` is one
  parameter.
- Float values (`lat`, `pscale`, `overhead / 1000`, `aperture` and the rest).
  They are opaque text, and the seconds of `overhead / 1000` are rendered by a
  parameter.
- Python's `str.lower`/`str.upper` beyond ASCII and the few characters whose
  case form is ASCII. Other Unicode case mappings are not modelled.
- Cerberus, the schema validator, is a parameter returning its `repr` on
  failure.
- `IndexView` (object counts), `recover_link` and `object_link` of the log
  entry admin. These are HTML rendering and reversion lookups.
- The `save_related` hooks of `InstrumentAdmin`, `GenericModeAdmin`,
  `OpticalElementGroupAdmin` and `OpticalElementAdmin`. They notify every
  related instrument unconditionally and hold no decision to model. The same
  goes for `InstrumentSerializer.update`, which notifies the instrument after
  every update.
- The Django form field internals beyond the empty-value rule, and the
  `__init__` queryset restriction of the group admin forms.
- The other migrations, and the management commands.
- `Memberships.AddMember` models many-to-many `add` on values. Two equal
  records count as one member, while the database compares primary keys.
- `Serializers.UpdateConfigurationTypesAsWritten` follows the `CASCADE` of a
  deleted configuration type to the instrument types that default to it, and no
  further: their instruments and mode groups are not part of the catalogue. A
  supplied row naming a configuration type never stored fails like one naming a
  deleted type; the field validation that would reject it before the update is
  not modelled.
- `CameraMappings.RowFields` states the number of cells. The cell contents
  follow the entry field by field, and the overhead text is a parameter.

## Findings

| source | as written | input that shows it | evidently intended | confidence | as-written member | corrected member |
|---|---|---|---|---|---|---|
| configdb/hardware/serializers.py:306-313 | `instance.configuration_types.all().delete()` deletes the shared `ConfigurationType` rows the instrument type offers, not its own links to them | instrument types 1 and 2 both offer `EXPOSE`; type 1 is updated with an empty set, or with `EXPOSE` again | clear only type 1's rows and refill them from the set, as the comment on the line says; type 2 keeps `EXPOSE` | medium, not executed | Serializers.UpdateConfigurationTypesAsWritten, Serializers.AsWrittenUpdateDropsSharedRows, Serializers.AsWrittenResendFails | Serializers.UpdateConfigurationTypes, Serializers.ConfigurationTypesReplaced |

## Observations

These are consequences of the code as written. The model keeps them, and the
named lemmas exhibit them:

- `Serializers.UpdatedDefaultMayLeaveGroup`: on update,
  `OpticalElementGroupSerializer.validate` checks the default against the
  stored members, but the update then replaces them. So the default can end up
  outside the group. `Serializers.UpdatedModeDefaultMayLeaveGroup` shows the
  same for generic mode groups.
- `Heroic.IntegerStatesReportedAvailable` and
  `Heroic.IntegerDisabledNotSkipped`: with the integer `state` field of
  `models.py`, the label comparisons of `heroic.py` never match.
- `Availability.LegacyRevisionsNeverSchedulable`: `state_conversion` turns
  legacy revisions into labels, which never equal the integer
  `Instrument.SCHEDULABLE`.
- `Serializers.CameraIdsKeyNeverValidated`: `optical_element_group_ids` has
  `source='optical_element_groups'`, so `validated_data` holds it under
  `optical_element_groups`. The second test of `CameraSerializer.update`, for
  the `optical_element_group_ids` key, is never true.
- `GenericModeGroupAdminForm.clean` checks a `validation_schema` field that a
  generic mode group does not have, so its check never fires for that form.
  `Admin.CleanSchemaForm` models the check given a schema, as the instrument
  type form uses it.
