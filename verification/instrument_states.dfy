/** The instrument lifecycle states of `Instrument` in configdb/hardware/models.py. */
module InstrumentStates {
  import opened Outcomes

  datatype State = Disabled | Manual | Commissioning | Standby | Schedulable

  /** `Instrument.STATE_CHOICES`, in declaration order. */
  const Choices: seq<State> := [Disabled, Manual, Commissioning, Standby, Schedulable]

  /** The integer code of a state (`Instrument.DISABLED` ... `Instrument.SCHEDULABLE`). */
  function Code(s: State): int {
    match s
    case Disabled => 0
    case Manual => 10
    case Commissioning => 20
    case Standby => 25
    case Schedulable => 30
  }

  /** The display label paired with the code in `STATE_CHOICES`. */
  function Label(s: State): string {
    match s
    case Disabled => "DISABLED"
    case Manual => "MANUAL"
    case Commissioning => "COMMISSIONING"
    case Standby => "STANDBY"
    case Schedulable => "SCHEDULABLE"
  }

  /** The state whose code is `code`, if any. */
  function FromCode(code: int): (r: Option<State>)
    ensures r.Some? ==> Code(r.value) == code
    ensures r.None? ==> forall s: State :: Code(s) != code
  {
    if code == 0 then Some(Disabled)
    else if code == 10 then Some(Manual)
    else if code == 20 then Some(Commissioning)
    else if code == 25 then Some(Standby)
    else if code == 30 then Some(Schedulable)
    else None
  }

  /** The state whose label is `text`, if any. */
  function FromLabel(text: string): (r: Option<State>)
    ensures r.Some? ==> Label(r.value) == text
    ensures r.None? ==> forall s: State :: Label(s) != text
  {
    if text == "DISABLED" then Some(Disabled)
    else if text == "MANUAL" then Some(Manual)
    else if text == "COMMISSIONING" then Some(Commissioning)
    else if text == "STANDBY" then Some(Standby)
    else if text == "SCHEDULABLE" then Some(Schedulable)
    else None
  }

  /** A state value as it is found in a row or in a stored revision: an integer code
      (the `IntegerField` of models.py) or text (a label after migration 0034, or a
      numeric string in old revisions). Python's `==` never equates an `int` with a
      `str`, and neither does this datatype. */
  datatype StoredState = Number(n: int) | Text(s: string)

  /** The field default of `Instrument.state`: `default=DISABLED`. */
  function DefaultState(): (r: StoredState)
    ensures r.Number? && r.n == Code(Disabled)
    ensures forall s :: s in Choices && Code(s) == r.n ==> s == Disabled
  {
    Number(0)
  }

  /** Choice order is code order, and codes and labels both identify a state. */
  lemma ChoicesOrderedAndDistinct()
    ensures forall s: State :: s in Choices
    ensures forall i, j :: 0 <= i < j < |Choices| ==> Code(Choices[i]) < Code(Choices[j])
    ensures forall i, j :: 0 <= i < j < |Choices| ==> Label(Choices[i]) != Label(Choices[j])
  {
    forall s: State
      ensures s in Choices
    {
      assert s == Choices[Index(s)];
    }
  }

  /** Position of a state in `Choices`. */
  function Index(s: State): (i: nat)
    ensures i < |Choices| && Choices[i] == s
  {
    match s
    case Disabled => 0
    case Manual => 1
    case Commissioning => 2
    case Standby => 3
    case Schedulable => 4
  }
}
