/** `InstrumentFilter.state_filter` of configdb/hardware/api_views.py: lets a client
    ask for `?state=manual` instead of an integer code. */
module StateFilter {
  import opened Outcomes
  import opened Strings
  import opened InstrumentStates

  /** An instrument row of the queryset, with its integer state column. */
  datatype InstrumentRow = InstrumentRow(code: string, state: int)

  /** The first of `choices` whose label equals `upper`. */
  function FirstLabelled(choices: seq<State>, upper: string): (r: Option<State>)
    ensures r.Some? ==> r.value in choices && Label(r.value) == upper
    ensures r.None? ==> forall i :: 0 <= i < |choices| ==> Label(choices[i]) != upper
    decreases |choices|
  {
    if |choices| == 0 then None
    else if Label(choices[0]) == upper then Some(choices[0])
    else
      var r := FirstLabelled(choices[1..], upper);
      assert forall i :: 1 <= i < |choices| ==> choices[i] == choices[1..][i - 1];
      r
  }

  /** The state a filter value selects: the one whose label equals the value upper-cased. */
  function MatchState(value: string): (r: Option<State>)
    ensures r.Some? <==> exists s: State :: Label(s) == Upper(value)
    ensures forall s: State :: r == Some(s) <==> Label(s) == Upper(value)
  {
    ChoicesOrderedAndDistinct();
    var r := FirstLabelled(Choices, Upper(value));
    assert forall s: State :: Label(s) == Upper(value) ==> s == Choices[Index(s)];
    r
  }

  /** The rows of `queryset`, in order, whose state is `code`. */
  function RowsInState(queryset: seq<InstrumentRow>, code: int): (r: seq<InstrumentRow>)
    ensures forall row :: row in r <==> row in queryset && row.state == code
    ensures |r| <= |queryset|
    decreases |queryset|
  {
    if |queryset| == 0 then []
    else
      var rest := RowsInState(queryset[1..], code);
      assert queryset == [queryset[0]] + queryset[1..];
      if queryset[0].state == code then [queryset[0]] + rest else rest
  }

  /** `state_filter(queryset, name, value)`: a value naming a state (in any case)
      filters to that state's code; any other value leaves the queryset as it is. */
  function ApplyStateFilter(queryset: seq<InstrumentRow>, value: string): (r: seq<InstrumentRow>)
    ensures MatchState(value).None? ==> r == queryset
    ensures forall s: State :: Label(s) == Upper(value) ==>
      forall row :: row in r <==> row in queryset && row.state == Code(s)
  {
    match MatchState(value)
    case Some(s) => RowsInState(queryset, Code(s))
    case None => queryset
  }

  /** Numeric strings such as "10" never select a state: only labels are compared. */
  lemma NumeralsNeverMatch(value: string)
    requires forall i :: 0 <= i < |value| ==> IsDigit(value[i]) || value[i] == '-'
    ensures MatchState(value).None?
    ensures forall queryset :: ApplyStateFilter(queryset, value) == queryset
  {
    UpperOfNumeral(value);
    forall s: State
      ensures Label(s) != value
    {
      if |value| > 0 {
        assert Label(s)[0] != value[0];
      }
    }
  }

  /** In particular the string form of every state code is ignored by the filter. */
  lemma CodesNeverMatch(s: State)
    ensures MatchState(IntToString(Code(s))).None?
  {
    NumeralsNeverMatch(IntToString(Code(s)));
  }
}
