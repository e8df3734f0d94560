/**
 * Behaviour settings (src/behavior.ts): delay and error simulation, resolved
 * field by field through three levels, and the fault decision.
 */
module Behavior {
  import opened Json

  datatype BehaviorSettings = BehaviorSettings(
    delayMs: int,
    errorRate: real,
    errorStatus: int,
    errorResponse: Value)

  /** Optional overrides for each setting; `None` is `undefined`. */
  datatype BehaviorOverrides = BehaviorOverrides(
    delayMs: Option<int>,
    errorRate: Option<real>,
    errorStatus: Option<int>,
    errorResponse: Option<Value>)

  /** `a ?? b` for a number: numbers are never null. */
  function OrElse<T>(a: Option<T>, b: T): T
  {
    if a.Some? then a.value else b
  }

  /** `a ?? b` for a template value: both `undefined` and `null` fall through. */
  function ValueOrElse(a: Option<Value>, b: Value): Value
  {
    if IsNullish(a) then b else a.value
  }

  /** `o?.field` for each field of an optional overrides object. */
  function DelayOf(o: Option<BehaviorOverrides>): Option<int> { if o.Some? then o.value.delayMs else None }
  function RateOf(o: Option<BehaviorOverrides>): Option<real> { if o.Some? then o.value.errorRate else None }
  function StatusOf(o: Option<BehaviorOverrides>): Option<int> { if o.Some? then o.value.errorStatus else None }
  function ResponseOf(o: Option<BehaviorOverrides>): Option<Value> { if o.Some? then o.value.errorResponse else None }

  /**
   * Each field independently: the chosen override if defined, else the
   * endpoint override if defined, else the global setting.
   */
  function ResolveBehavior(settings: BehaviorSettings, endpoint: Option<BehaviorOverrides>, chosen: Option<BehaviorOverrides>): (r: BehaviorSettings)
    ensures DelayOf(chosen).Some? ==> r.delayMs == DelayOf(chosen).value
    ensures DelayOf(chosen).None? && DelayOf(endpoint).Some? ==> r.delayMs == DelayOf(endpoint).value
    ensures DelayOf(chosen).None? && DelayOf(endpoint).None? ==> r.delayMs == settings.delayMs
    ensures RateOf(chosen).Some? ==> r.errorRate == RateOf(chosen).value
    ensures RateOf(chosen).None? && RateOf(endpoint).Some? ==> r.errorRate == RateOf(endpoint).value
    ensures RateOf(chosen).None? && RateOf(endpoint).None? ==> r.errorRate == settings.errorRate
    ensures StatusOf(chosen).Some? ==> r.errorStatus == StatusOf(chosen).value
    ensures StatusOf(chosen).None? && StatusOf(endpoint).Some? ==> r.errorStatus == StatusOf(endpoint).value
    ensures StatusOf(chosen).None? && StatusOf(endpoint).None? ==> r.errorStatus == settings.errorStatus
    ensures !IsNullish(ResponseOf(chosen)) ==> r.errorResponse == ResponseOf(chosen).value
    ensures IsNullish(ResponseOf(chosen)) && !IsNullish(ResponseOf(endpoint)) ==> r.errorResponse == ResponseOf(endpoint).value
    ensures IsNullish(ResponseOf(chosen)) && IsNullish(ResponseOf(endpoint)) ==> r.errorResponse == settings.errorResponse
  {
    BehaviorSettings(
      OrElse(DelayOf(chosen), OrElse(DelayOf(endpoint), settings.delayMs)),
      OrElse(RateOf(chosen), OrElse(RateOf(endpoint), settings.errorRate)),
      OrElse(StatusOf(chosen), OrElse(StatusOf(endpoint), settings.errorStatus)),
      ValueOrElse(ResponseOf(chosen), ValueOrElse(ResponseOf(endpoint), settings.errorResponse)))
  }

  /**
   * The fault decision. `draw` stands for the `Math.random()` value the
   * source draws when the rate is strictly between 0 and 1.
   */
  function ShouldFail(errorRate: real, draw: real): (r: bool)
    ensures errorRate <= 0.0 ==> !r
    ensures errorRate >= 1.0 ==> r
    ensures 0.0 <= draw < 1.0 ==> (r <==> draw < errorRate)
  {
    if errorRate <= 0.0 then false
    else if errorRate >= 1.0 then true
    else draw < errorRate
  }

  // ---------------------------------------------------------------------------
  // Properties

  const NoOverrides := BehaviorOverrides(None, None, None, None)

  /** With no overrides at either level the global settings come back unchanged. */
  lemma NoOverridesGiveGlobal(settings: BehaviorSettings)
    ensures ResolveBehavior(settings, None, None) == settings
    ensures ResolveBehavior(settings, Some(NoOverrides), Some(NoOverrides)) == settings
  {
  }

  /** A `null` error response falls through to the next level exactly like an absent one. */
  lemma NullResponseFallsThrough(settings: BehaviorSettings, endpoint: Option<BehaviorOverrides>, chosen: BehaviorOverrides)
    requires chosen.errorResponse == Some(JNull)
    ensures ResolveBehavior(settings, endpoint, Some(chosen)) ==
            ResolveBehavior(settings, endpoint, Some(chosen.(errorResponse := None)))
  {
  }

  /**
   * Levels mix across fields: the delay from the endpoint overrides, the
   * error status from the chosen ones, the rate and response from the
   * global settings.
   */
  lemma FieldsResolveIndependently(settings: BehaviorSettings, delay: int, status: int)
    ensures var r := ResolveBehavior(settings,
                                     Some(BehaviorOverrides(Some(delay), None, None, None)),
                                     Some(BehaviorOverrides(None, None, Some(status), None)));
            r == BehaviorSettings(delay, settings.errorRate, status, settings.errorResponse)
  {
  }

  /** A rate at or below 0 never faults. */
  lemma ZeroRateNeverFails(errorRate: real, draw: real)
    requires errorRate <= 0.0
    ensures !ShouldFail(errorRate, draw)
  {
  }

  /** A rate at or above 1 always faults, whatever the draw. */
  lemma FullRateAlwaysFails(errorRate: real, draw: real)
    requires errorRate >= 1.0
    ensures ShouldFail(errorRate, draw)
  {
  }

  /**
   * For every draw `Math.random()` can give (in [0, 1)), the decision is
   * exactly "draw < rate": the two boundary branches agree with it.
   */
  lemma FaultIsDrawBelowRate(errorRate: real, draw: real)
    requires 0.0 <= draw < 1.0
    ensures ShouldFail(errorRate, draw) <==> draw < errorRate
  {
  }

  /** A larger rate faults on every draw a smaller rate faults on. */
  lemma FaultMonotoneInRate(low: real, high: real, draw: real)
    requires low <= high
    ensures ShouldFail(low, draw) ==> ShouldFail(high, draw)
  {
  }
}
