/**
  A run of the bot from `NewCommands`: a chronological sequence of commands
  and worker ticks, each applied atomically as the mutex makes it. A
  `!subscribe` first goes through `Duration.Parse` (the argument layer calls it
  with a zero `Duration` and skips the command when it fails).
*/
module Lifecycle {
  import opened Replies
  import opened Types
  import DurationArg
  import Registry

  datatype Event =
    | SubscribeCmd(origin: Snowflake, mention: Snowflake, parsed: Parsed<Nanos>,
                   probe: Reply<string>, at: Time)
    | UnsubscribeCmd(mention: Snowflake, at: Time)
    | Tick(at: Time)

  /** The events are in clock order. */
  predicate Chronological(events: seq<Event>)
  {
    forall i, j :: 0 <= i < j < |events| ==> events[i].at <= events[j].at
  }

  /** The map after one event. */
  function Apply(subs: Subs, e: Event): Subs
  {
    match e
    case SubscribeCmd(origin, mention, parsed, probe, at) =>
      var arg := DurationArg.Parse(0, parsed);
      if arg.outcome.Err? then subs
      else Registry.Subscribe(subs, origin, mention, arg.target, at, probe).subs
    case UnsubscribeCmd(mention, _) => Registry.Unsubscribe(subs, mention).subs
    case Tick(at) => Registry.Polled(subs, at)
  }

  /** The map after a whole run, starting from `NewCommands`. */
  function Run(events: seq<Event>): Subs
  {
    if |events| == 0 then Registry.NewCommands()
    else Apply(Run(events[..|events| - 1]), events[|events| - 1])
  }

  /**
    What every reachable map satisfies at clock reading `clock`: each interval
    is at least `MinDuration`, and no subscription last fired in the future.
  */
  predicate Healthy(subs: Subs, clock: Time)
  {
    forall k :: k in subs ==> subs[k].dura >= MinDuration && subs[k].last <= clock
  }

  /** A healthy map stays healthy across one event that is not earlier than its clock. */
  lemma ApplyKeepsHealthy(subs: Subs, clock: Time, e: Event)
    requires Healthy(subs, clock) && clock <= e.at
    ensures Healthy(Apply(subs, e), e.at)
  {
    match e
    case SubscribeCmd(origin, mention, parsed, probe, at) =>
      var arg := DurationArg.Parse(0, parsed);
      if arg.outcome.Ok? {
        DurationArg.AcceptedIsAtLeastMinimum(0, parsed);
      }
    case UnsubscribeCmd(_, _) =>
    case Tick(at) =>
      Registry.PollKeepsLastMonotone(subs, at);
  }

  /**
    Every map a chronological run reaches is healthy at the time of its last
    event: a subscription's interval is never below a minute, however the
    commands and ticks interleave.
  */
  lemma {:induction false} RunIsHealthy(events: seq<Event>)
    requires Chronological(events)
    ensures |events| > 0 ==> Healthy(Run(events), events[|events| - 1].at)
  {
    if |events| > 0 {
      var prefix := events[..|events| - 1];
      var e := events[|events| - 1];
      assert Chronological(prefix);
      if |prefix| == 0 {
        ApplyKeepsHealthy(map[], e.at, e);
      } else {
        RunIsHealthy(prefix);
        ApplyKeepsHealthy(Run(prefix), prefix[|prefix| - 1].at, e);
      }
    }
  }

  /** The commands of a run, with the worker's ticks dropped. */
  function CommandsOf(events: seq<Event>): (cmds: seq<Event>)
    ensures |cmds| <= |events|
    ensures forall i :: 0 <= i < |cmds| ==> !cmds[i].Tick?
  {
    if |events| == 0 then []
    else if events[|events| - 1].Tick? then CommandsOf(events[..|events| - 1])
    else CommandsOf(events[..|events| - 1]) + [events[|events| - 1]]
  }

  /** Which channels a command leaves subscribed depends only on which were subscribed before. */
  lemma CommandKeysDependOnKeys(a: Subs, b: Subs, e: Event)
    requires a.Keys == b.Keys
    ensures Apply(a, e).Keys == Apply(b, e).Keys
  {
  }

  /**
    Ticks never subscribe or unsubscribe a channel: a run subscribes exactly
    the channels its commands alone, without the ticks, would subscribe.
  */
  lemma {:induction false} TicksKeepChannels(events: seq<Event>)
    ensures Run(events).Keys == Run(CommandsOf(events)).Keys
  {
    if |events| > 0 {
      var prefix := events[..|events| - 1];
      var e := events[|events| - 1];
      TicksKeepChannels(prefix);
      if e.Tick? {
        assert CommandsOf(events) == CommandsOf(prefix);
      } else {
        var cmds := CommandsOf(events);
        assert cmds[..|cmds| - 1] == CommandsOf(prefix);
        CommandKeysDependOnKeys(Run(prefix), Run(CommandsOf(prefix)), e);
      }
    }
  }
}
