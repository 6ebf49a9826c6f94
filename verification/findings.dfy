/**
  Concrete runs that show where the code as written departs from what the
  `MinDuration` comment and the Subscribe probe intend, next to runs of the
  corrected definitions in `Intended`. Times are nanoseconds from 0.
*/
module Findings {
  import opened Replies
  import opened Types
  import DurationArg
  import Registry
  import Intended

  /**
    As written, a channel reported at a tick is reported again at every later
    tick that comes before its interval has elapsed, because the restarted
    clock makes `last + dura` lie in the future again. With the worker's
    15-second ticker and intervals of at least a minute, that is every tick.
  */
  lemma RefiresEveryTick(subs: Subs, k: Snowflake, now: Time, later: Time)
    requires k in Registry.Due(subs, now)
    requires now <= later < now + subs[k].dura
    ensures k in Registry.Due(Registry.Polled(subs, now), later)
  {
    assert Registry.Polled(subs, now)[k] == Sub(subs[k].dura, now);
  }

  /**
    As written, with an interval of at least a minute, the worker's next tick
    `PollInterval` later reports a just-reported channel again.
  */
  lemma RefiresAtNextTick(subs: Subs, k: Snowflake, now: Time)
    requires k in Registry.Due(subs, now) && subs[k].dura >= MinDuration
    ensures k in Registry.Due(Registry.Polled(subs, now), now + PollInterval)
  {
    RefiresEveryTick(subs, k, now, now + PollInterval);
  }

  /**
    As written: channel 7 subscribes for one minute at 0 and is reported at
    the ticks 15 s, 30 s and 45 s, long before its minute is up; had the tick
    after 30 s come late, at 91 s, it would not be reported, and by
    `Registry.SilentStaysSilent` never again.
  */
  lemma AsWrittenSchedule()
    ensures var s0 := Registry.Subscribe(Registry.NewCommands(), 7, 7, MinDuration, 0, Ok).subs;
            var s1 := Registry.Polled(s0, 15 * Second);
            var s2 := Registry.Polled(s1, 30 * Second);
            && Registry.Due(s0, 15 * Second) == {7}
            && Registry.Due(s1, 30 * Second) == {7}
            && Registry.Due(s2, 45 * Second) == {7}
            && Registry.Due(s2, 91 * Second) == {}
  {
    var s0 := Registry.Subscribe(Registry.NewCommands(), 7, 7, MinDuration, 0, Ok).subs;
    var s1 := Registry.Polled(s0, 15 * Second);
    var s2 := Registry.Polled(s1, 30 * Second);
    assert s0[7] == Sub(MinDuration, 0);
    assert s1[7] == Sub(MinDuration, 15 * Second);
    assert s2[7] == Sub(MinDuration, 30 * Second);
  }

  /**
    As written: `!subscribe #2` typed in channel 1 stores channel 1, so a
    following `!unsubscribe #2` answers "You're not subscribed." and channel 1
    stays subscribed.
  */
  lemma AsWrittenKeyMismatch()
    ensures var s := Registry.Subscribe(Registry.NewCommands(), 1, 2, MinDuration, 0, Ok).subs;
            && 1 in s && 2 !in s
            && Registry.Unsubscribe(s, 2) == Registry.Step(s, Err(NotSubscribed))
  {
  }

  /**
    Corrected: channel 7 subscribes for one minute at 0. Nothing at 30 s;
    reported at 61 s with its clock moved to 61 s; nothing at 90 s; reported
    at 122 s.
  */
  lemma IntendedScheduleA()
    ensures var s0 := Intended.Subscribe(Registry.NewCommands(), 7, MinDuration, 0, Ok).subs;
            var s1 := Intended.PollDue(s0, 30 * Second);
            var s2 := Intended.PollDue(s1, 61 * Second);
            var s3 := Intended.PollDue(s2, 90 * Second);
            && Intended.DueAt(s0, 30 * Second) == {}
            && Intended.DueAt(s1, 61 * Second) == {7}
            && s2[7].last == 61 * Second
            && Intended.DueAt(s2, 90 * Second) == {}
            && Intended.DueAt(s3, 122 * Second) == {7}
  {
    var s0 := Intended.Subscribe(Registry.NewCommands(), 7, MinDuration, 0, Ok).subs;
    var s1 := Intended.PollDue(s0, 30 * Second);
    var s2 := Intended.PollDue(s1, 61 * Second);
    var s3 := Intended.PollDue(s2, 90 * Second);
    assert s1[7] == Sub(MinDuration, 0);
    assert s2[7] == Sub(MinDuration, 61 * Second);
    assert s3[7] == s2[7];
  }

  /** A thirty-second interval is refused before any Subscribe runs. */
  lemma ThirtySecondsRefused()
    ensures DurationArg.Parse(0, Value(30 * Second)).outcome == Err(TooShort)
  {
  }

  /** Corrected: subscribe, unsubscribe, and an hour later nothing is reported. */
  lemma IntendedScheduleC()
    ensures var s0 := Intended.Subscribe(Registry.NewCommands(), 7, MinDuration, 0, Ok).subs;
            var s1 := Registry.Unsubscribe(s0, 7);
            && s1.outcome == Ok
            && Intended.DueAt(s1.subs, 3600 * Second) == {}
  {
  }

  /**
    Corrected: a second Subscribe for the same channel at 10 s, with two
    minutes instead of one, restarts its clock and the schedule follows the
    new interval: at 100 s the old minute would have elapsed, the new two
    minutes have not.
  */
  lemma IntendedScheduleD()
    ensures var s0 := Intended.Subscribe(Registry.NewCommands(), 7, MinDuration, 0, Ok).subs;
            var s1 := Intended.Subscribe(s0, 7, 2 * MinDuration, 10 * Second, Ok).subs;
            && s1 == map[7 := Sub(2 * MinDuration, 10 * Second)]
            && Intended.DueAt(s1, 61 * Second) == {}
            && Intended.DueAt(s1, 100 * Second) == {}
            && Intended.DueAt(s1, 130 * Second) == {7}
  {
  }
}
