/** Data migration 0034 of configdb/hardware: the integer instrument state is copied
    into the text state column, and back when the migration is reversed. */
module StateMigration {
  import opened Outcomes
  import opened InstrumentStates

  /** `CODE_STATE_MAPPING`. */
  const CodeStateMapping: map<int, string> :=
    map[0 := "DISABLED", 10 := "MANUAL", 20 := "COMMISSIONING", 25 := "STANDBY", 30 := "SCHEDULABLE"]

  /** The keys of `CODE_STATE_MAPPING` in the order a Python dict iterates them. */
  const MappingKeys: seq<int> := [0, 10, 20, 25, 30]

  /** The migration's table is exactly the `STATE_CHOICES` of the model. */
  lemma MappingMatchesChoices()
    ensures forall code :: code in CodeStateMapping <==> FromCode(code).Some?
    ensures forall s: State :: CodeStateMapping[Code(s)] == Label(s)
    ensures forall i :: 0 <= i < |MappingKeys| ==> MappingKeys[i] == Code(Choices[i])
  {
  }

  /** `CODE_STATE_MAPPING[state_int]` for one instrument: a missing key raises
      `KeyError`, carried here as `Err(code)`. */
  function IntToChar(code: int): (r: Result<string, int>)
    ensures r == match FromCode(code) case Some(s) => Ok(Label(s)) case None => Err(code)
  {
    if code in CodeStateMapping then Ok(CodeStateMapping[code]) else Err(code)
  }

  /** The first key of `keys`, in order, that the table maps to `name`. */
  function FirstKeyNamed(keys: seq<int>, name: string): (r: Option<int>)
    requires forall i :: 0 <= i < |keys| ==> keys[i] in CodeStateMapping
    ensures r.Some? <==> exists i :: 0 <= i < |keys| && CodeStateMapping[keys[i]] == name
    ensures r.Some? ==> r.value in keys && CodeStateMapping[r.value] == name
    decreases |keys|
  {
    if |keys| == 0 then None
    else if CodeStateMapping[keys[0]] == name then Some(keys[0])
    else
      var r := FirstKeyNamed(keys[1..], name);
      assert forall i :: 1 <= i < |keys| ==> keys[i] == keys[1..][i - 1];
      r
  }

  /** `next((key for key in CODE_STATE_MAPPING if CODE_STATE_MAPPING[key] == str(state)), None)`. */
  function CharToInt(state: string): (r: Option<int>)
    ensures r == match FromLabel(state) case Some(s) => Some(Code(s)) case None => None
  {
    FirstKeyNamed(MappingKeys, state)
  }

  /** Reversing after migrating forward restores every one of the five codes. */
  lemma BackwardAfterForward(code: int)
    requires code in CodeStateMapping
    ensures IntToChar(code).Ok? && CharToInt(IntToChar(code).value) == Some(code)
  {
  }

  /** Migrating forward after reversing restores every one of the five names. */
  lemma ForwardAfterBackward(name: string)
    requires name in CodeStateMapping.Values
    ensures CharToInt(name).Some? && IntToChar(CharToInt(name).value) == Ok(name)
  {
    var code :| code in CodeStateMapping && CodeStateMapping[code] == name;
  }

  /** `translate_state_int_to_char` over all instruments: the first unknown code
      raises and aborts the whole migration. */
  method MigrateForward(stateInts: seq<int>) returns (r: Result<seq<string>, int>)
    ensures r.Ok? <==> forall i :: 0 <= i < |stateInts| ==> stateInts[i] in CodeStateMapping
    ensures r.Ok? ==> |r.value| == |stateInts|
    ensures r.Ok? ==> forall i :: 0 <= i < |stateInts| ==> IntToChar(stateInts[i]) == Ok(r.value[i])
    ensures r.Err? ==> exists i :: 0 <= i < |stateInts| && r.error == stateInts[i] && r.error !in CodeStateMapping &&
                          (forall j :: 0 <= j < i ==> stateInts[j] in CodeStateMapping)
  {
    var names: seq<string> := [];
    var i := 0;
    while i < |stateInts|
      invariant 0 <= i <= |stateInts|
      invariant |names| == i
      invariant forall j :: 0 <= j < i ==> stateInts[j] in CodeStateMapping && IntToChar(stateInts[j]) == Ok(names[j])
    {
      match IntToChar(stateInts[i])
      case Err(code) =>
        return Err(code);
      case Ok(name) =>
        names := names + [name];
      i := i + 1;
    }
    return Ok(names);
  }

  /** An instrument row as the reverse migration sees it. */
  datatype MigratingInstrument = MigratingInstrument(code: string, state: string)

  /** What happened to one instrument in the reverse migration: the integer state
      was saved, or the failure was printed and the loop went on. */
  datatype ReverseOutcome = Saved(stateInt: Option<int>) | Reported(message: string)

  function ReverseFailureMessage(code: string): string {
    "Reverse migration for instrument " + code + " failed."
  }

  /** `translate_state_char_to_int`: each instrument is handled on its own; whether
      the database accepts a save is the parameter `saveAccepts`. A failed save is
      reported and does not stop the loop. */
  method MigrateBackward(instruments: seq<MigratingInstrument>, saveAccepts: (MigratingInstrument, Option<int>) -> bool)
    returns (outcomes: seq<ReverseOutcome>)
    ensures |outcomes| == |instruments|
    ensures forall i :: 0 <= i < |instruments| ==>
      (outcomes[i].Saved? <==> saveAccepts(instruments[i], CharToInt(instruments[i].state)))
    ensures forall i :: 0 <= i < |instruments| && outcomes[i].Saved? ==>
      outcomes[i].stateInt == CharToInt(instruments[i].state)
    ensures forall i :: 0 <= i < |instruments| && outcomes[i].Reported? ==>
      outcomes[i].message == ReverseFailureMessage(instruments[i].code)
  {
    outcomes := [];
    var i := 0;
    while i < |instruments|
      invariant 0 <= i <= |instruments|
      invariant |outcomes| == i
      invariant forall j :: 0 <= j < i ==>
        (outcomes[j].Saved? <==> saveAccepts(instruments[j], CharToInt(instruments[j].state)))
      invariant forall j :: 0 <= j < i && outcomes[j].Saved? ==>
        outcomes[j].stateInt == CharToInt(instruments[j].state)
      invariant forall j :: 0 <= j < i && outcomes[j].Reported? ==>
        outcomes[j].message == ReverseFailureMessage(instruments[j].code)
    {
      var stateInt := CharToInt(instruments[i].state);
      if saveAccepts(instruments[i], stateInt) {
        outcomes := outcomes + [Saved(stateInt)];
      } else {
        outcomes := outcomes + [Reported(ReverseFailureMessage(instruments[i].code))];
      }
      i := i + 1;
    }
  }
}
