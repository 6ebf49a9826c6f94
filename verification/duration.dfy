/**
  `Duration.Parse`, the argument parser for a subscription interval. The text
  is first handed to Go's `time.ParseDuration`, which is not part of this model:
  its outcome arrives as the `parsed` parameter. What is modelled is the bound
  check against `MinDuration` and the rule that the target is written only on
  success.
*/
module DurationArg {
  import opened Replies
  import opened Types

  /** The target after a call to Parse, and the error it returned, if any. */
  datatype ParseStep = ParseStep(target: Nanos, outcome: Reply<Error>)

  /** `(*Duration).Parse`: `target` is the value `*dura` held before the call. */
  function Parse(target: Nanos, parsed: Parsed<Nanos>): (r: ParseStep)
    ensures r.outcome.Ok? <==> parsed.Value? && parsed.value >= MinDuration
    ensures r.outcome.Ok? ==> r.target == parsed.value
    ensures r.outcome.Err? ==> r.target == target
    ensures parsed.Invalid? ==> r.outcome == Err(Unparsable(parsed.reason))
    ensures parsed.Value? && parsed.value < MinDuration ==> r.outcome == Err(TooShort)
  {
    match parsed
    case Invalid(reason) => ParseStep(target, Err(Unparsable(reason)))
    case Value(d) =>
      if d < MinDuration then ParseStep(target, Err(TooShort))
      else ParseStep(d, Ok)
  }

  /** Whatever a successful Parse stores is at least a minute long and positive. */
  lemma AcceptedIsAtLeastMinimum(target: Nanos, parsed: Parsed<Nanos>)
    requires Parse(target, parsed).outcome.Ok?
    ensures Parse(target, parsed).target >= MinDuration > 0
  {
  }

  /** The boundary: exactly one minute is accepted, one nanosecond less is not. */
  lemma ParseBoundary(target: Nanos)
    ensures Parse(target, Value(MinDuration)) == ParseStep(MinDuration, Ok)
    ensures Parse(target, Value(MinDuration - 1)) == ParseStep(target, Err(TooShort))
  {
  }
}
