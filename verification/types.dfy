/**
  The data model of the subscription registry in main.go: channel snowflakes,
  Go durations and instants as integer nanoseconds, one subscription record per
  channel, and the errors the commands return.
*/
module Types {

  /** A Discord snowflake, an unsigned 64-bit identifier. */
  newtype Snowflake = x: int | 0 <= x < 0x1_0000_0000_0000_0000

  /** A Go `time.Duration`: a signed 64-bit count of nanoseconds. */
  type Nanos = d: int | -0x8000_0000_0000_0000 <= d < 0x8000_0000_0000_0000

  /** An instant, as nanoseconds on the clock that `time.Now` reads. */
  type Time = int

  const Second: Nanos := 1_000_000_000

  /** The shortest interval a subscription may ask for: one minute. */
  const MinDuration: Nanos := 60 * Second

  /** The cadence of the worker's ticker: fifteen seconds. */
  const PollInterval: Nanos := 15 * Second

  /** `channelSubscription`: the interval and the instant it last fired. */
  datatype Sub = Sub(dura: Nanos, last: Time)

  /** The `subscriptions` map, keyed by channel. */
  type Subs = map<Snowflake, Sub>

  /** The errors the commands and the argument parser return. */
  datatype Error =
    | Unparsable(reason: string)  // passed through from time.ParseDuration
    | TooShort
    | ProbeFailed(reason: string) // the test message could not be sent
    | NotSubscribed
}
