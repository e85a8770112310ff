/** `str2bool` and the `DEBUG` default of configdb/settings.py. */
module Settings {
  import opened Outcomes
  import opened Strings

  const TrueTokens: seq<string> := ["t", "true", "y", "yes", "1"]
  const FalseTokens: seq<string> := ["f", "false", "n", "no", "0"]

  /** `str2bool(value)`: the lower-cased value is looked up among the true tokens,
      then the false tokens; anything else raises with the lower-cased text. */
  function Str2Bool(value: string): (r: Result<bool, string>)
    ensures r == Ok(true) <==> Lower(value) in TrueTokens
    ensures r == Ok(false) <==> Lower(value) in FalseTokens
    ensures r.Err? ==> r.error == "Unable to parse " + Lower(value) + " as a boolean value"
  {
    var lowered := Lower(value);
    if lowered in TrueTokens then Ok(true)
    else if lowered in FalseTokens then Ok(false)
    else Err("Unable to parse " + lowered + " as a boolean value")
  }

  /** No token is both true and false, so a value has one reading. */
  lemma TokensDisjoint(value: string)
    ensures !(Lower(value) in TrueTokens && Lower(value) in FalseTokens)
  {
  }

  lemma {:induction false} LowerIdempotent(s: string)
    ensures Lower(Lower(s)) == Lower(s)
  {
    assert forall i :: 0 <= i < |s| ==> LowerChar(LowerChar(s[i])) == LowerChar(s[i]);
  }

  /** Parsing is case-insensitive: a value and its lower-case form read alike. */
  lemma Str2BoolCaseInsensitive(value: string)
    ensures Str2Bool(Lower(value)) == Str2Bool(value)
  {
    LowerIdempotent(value);
  }

  /** `DEBUG = str2bool(os.getenv('DEBUG', 'false'))`; `env` is the environment value. */
  function Debug(env: Option<string>): (r: Result<bool, string>)
    ensures env.None? ==> r == Ok(false)
    ensures env.Some? ==> r == Str2Bool(env.value)
  {
    assert Lower("false") == "false";
    Str2Bool(env.GetOr("false"))
  }
}
