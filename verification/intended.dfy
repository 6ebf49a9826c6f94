/**
  The registry as the `MinDuration` comment and the Subscribe probe describe
  it, where the code departs from them: a channel is due once its interval has
  elapsed since it last fired ("the fastest delay before the next image",
  main.go:21), and `!subscribe #channel` subscribes the mentioned channel, the
  one the probe reaches (main.go:76) and Unsubscribe deletes (main.go:103).
  Unsubscribe and NewCommands are unchanged and come from `Registry`.
*/
module Intended {
  import opened Replies
  import opened Types
  import Registry

  /** Due: at least `dura` has passed since the channel last fired. */
  predicate Elapsed(s: Sub, now: Time)
  {
    now - s.last >= s.dura
  }

  /** The channels a poll at `now` reports. */
  function DueAt(subs: Subs, now: Time): (due: set<Snowflake>)
    ensures forall k :: k in due <==> k in subs && Elapsed(subs[k], now)
  {
    set k | k in subs && Elapsed(subs[k], now)
  }

  /** The map after a poll at `now`: every reported channel restarts its clock. */
  function PollDue(subs: Subs, now: Time): (after: Subs)
    ensures after.Keys == subs.Keys
    ensures forall k :: k in subs && Elapsed(subs[k], now) ==> after[k] == Sub(subs[k].dura, now)
    ensures forall k :: k in subs && !Elapsed(subs[k], now) ==> after[k] == subs[k]
  {
    map k | k in subs :: if Elapsed(subs[k], now) then subs[k].(last := now) else subs[k]
  }

  /** `Subscribe` keyed by the mentioned channel, the one the probe reached. */
  function Subscribe(subs: Subs, mention: Snowflake, dura: Nanos, now: Time,
                     probe: Reply<string>): (r: Registry.Step)
    ensures r.outcome.Ok? <==> probe.Ok?
    ensures probe.Err? ==> r.subs == subs
    ensures probe.Ok? ==> r.subs.Keys == subs.Keys + {mention}
    ensures probe.Ok? ==> r.subs[mention] == Sub(dura, now)
    ensures probe.Ok? ==> forall k :: k in subs && k != mention ==> r.subs[k] == subs[k]
  {
    Registry.Subscribe(subs, mention, mention, dura, now, probe)
  }

  /**
    `!unsubscribe #channel` undoes `!subscribe #channel`, whatever channel
    both commands were typed in.
  */
  lemma UnsubscribeUndoesSubscribe(subs: Subs, mention: Snowflake, dura: Nanos, now: Time)
    ensures Registry.Unsubscribe(Subscribe(subs, mention, dura, now, Ok).subs, mention)
         == Registry.Step(subs - {mention}, Ok)
  {
    Registry.UnsubscribeUndoesSubscribe(subs, mention, mention, dura, now);
  }

  /**
    A subscription made at `start` with interval `dura` is reported by a poll
    at `now` exactly when `now >= start + dura`.
  */
  lemma FiresWhenIntervalElapsed(subs: Subs, mention: Snowflake, dura: Nanos, start: Time,
                                 now: Time)
    ensures mention in DueAt(Subscribe(subs, mention, dura, start, Ok).subs, now)
        <==> now >= start + dura
  {
  }

  /**
    No double firing: after a poll at `now` reports a channel, a later poll
    reports it again exactly when a full interval has passed since `now`; a
    channel the poll did not report keeps its place in the schedule.
  */
  lemma NoDoubleFire(subs: Subs, now: Time, k: Snowflake, later: Time)
    requires k in subs
    ensures k in DueAt(subs, now) ==>
              (k in DueAt(PollDue(subs, now), later) <==> later >= now + subs[k].dura)
    ensures k !in DueAt(subs, now) ==> PollDue(subs, now)[k] == subs[k]
  {
  }

  /**
    With every interval positive (as `Duration.Parse` guarantees), a second
    poll at the same instant reports nothing at all.
  */
  lemma SecondPollReportsNothing(subs: Subs, now: Time)
    requires forall k :: k in subs ==> subs[k].dura > 0
    ensures DueAt(PollDue(subs, now), now) == {}
  {
    var after := PollDue(subs, now);
    forall k | k in after
      ensures !Elapsed(after[k], now)
    {
      if Elapsed(subs[k], now) {
        assert after[k].last == now;
      }
    }
  }
}
