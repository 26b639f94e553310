/** The command arguments' validators. The host lookups they consult
    (GetItemByIdOrName, GetBuffByName, Int32.TryParse) are parameters: the
    list of matches, or the parsed integer (None when the argument is not a
    32-bit integer). */
module Lookup {
  import opened Collections
  import opened Host

  datatype LookupError = NoMatch | MultipleMatches

  /** The single-match rule of ItemFromString and of BuffFromString's name
      branch: no match and several matches are refused, one match is taken. */
  function SingleMatch<T>(matches: seq<T>): (r: Result<T, LookupError>)
    ensures r.Success? <==> |matches| == 1
    ensures r.Success? ==> r.value == matches[0]
    ensures r == Failure(NoMatch) <==> |matches| == 0
    ensures r == Failure(MultipleMatches) <==> |matches| > 1
  {
    if |matches| == 0 then Failure(NoMatch)
    else if |matches| > 1 then Failure(MultipleMatches)
    else Success(matches[0])
  }

  /** Highest buff ID BuffFromString accepts. */
  const MaxBuffID: int := 337

  /** BuffFromString: a numeric argument is accepted when it lies in 1..337;
      any other argument is taken as a buff name and accepted when exactly one
      buff has that name. The source signals failure by returning -1. */
  function BuffFromString(parsed: Option<int>, byName: seq<int>): (r: Result<int, LookupError>)
    ensures parsed.Some? ==> (r.Success? <==> 1 <= parsed.value <= MaxBuffID)
    ensures parsed.Some? && r.Success? ==> r.value == parsed.value
    ensures parsed.Some? && r.Failure? ==> r.error == NoMatch
    ensures parsed.None? ==> r == SingleMatch(byName)
  {
    match parsed
    case None => SingleMatch(byName)
    case Some(buff) =>
      if buff >= MaxBuffID + 1 || buff < 1 then Failure(NoMatch) else Success(buff)
  }

  /** Every buff ID accepted from a number is a valid buff ID, and every
      number in range is accepted whatever the name lookup returns. */
  lemma NumericBuffRange(n: int, byName: seq<int>, other: seq<int>)
    ensures BuffFromString(Some(n), byName).Success? ==> 1 <= BuffFromString(Some(n), byName).value <= MaxBuffID
    ensures BuffFromString(Some(n), byName) == BuffFromString(Some(n), other)
  {
  }

  /** The boundaries: 0 and 338 are refused, 1 and 337 accepted. */
  lemma BuffRangeBoundaries(byName: seq<int>)
    ensures BuffFromString(Some(0), byName).Failure? && BuffFromString(Some(338), byName).Failure?
    ensures BuffFromString(Some(1), byName) == Success(1) && BuffFromString(Some(337), byName) == Success(337)
  {
  }
}
