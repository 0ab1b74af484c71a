/** The text form of a stored timestamp (`isoformat` / `fromisoformat`).
    Only the round trip matters to the model, so an instant (whole seconds)
    is written as its signed decimal number of seconds. */
module IsoTime {
  import opened Wrappers
  import opened Numerals

  function IsoFormat(t: int): string {
    if t < 0 then "-" + FormatNat(-t) else FormatNat(t)
  }

  /** Parses what `IsoFormat` writes; anything else is a `ValueError`. */
  function FromIsoFormat(s: string): (r: Option<int>)
    ensures r.Some? ==> s != [] && (r.value < 0 <==> s[0] == '-')
  {
    if s == [] then None
    else if s[0] == '-' then
      if s[1..] != [] && AllDigits(s[1..]) && ValueOf(s[1..]) > 0 then Some(-(ValueOf(s[1..]) as int)) else None
    else if AllDigits(s) then Some(ValueOf(s))
    else None
  }

  lemma IsoRoundTrip(t: int)
    ensures FromIsoFormat(IsoFormat(t)) == Some(t)
  {
    if t < 0 {
      FormatNatRoundTrip(-t);
      assert IsoFormat(t)[1..] == FormatNat(-t);
    } else {
      FormatNatRoundTrip(t);
      AllDigitsAt(FormatNat(t), 0);
    }
  }
}
