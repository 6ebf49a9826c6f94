/**
  The channel-subscription registry of main.go, as the code is written. Each
  locked operation is one pure function from the map before to the map after;
  the mutex, the clock and the Discord calls are outside the model (`now` and
  the outcome of the reachability probe are parameters).
*/
module Registry {
  import opened Replies
  import opened Types

  /** The map after a command, and the error the command returned, if any. */
  datatype Step = Step(subs: Subs, outcome: Reply<Error>)

  /** `NewCommands`: a registry with no subscriptions. */
  function NewCommands(): (subs: Subs)
    ensures forall k: Snowflake :: k !in subs
  {
    map[]
  }

  /**
    `Subscribe`. The reachability probe (a test message sent to and deleted
    from the mentioned channel) is reduced to its outcome `probe`. On
    success the entry is stored under `origin`, the channel the command was
    typed in, and not under `mention`: `mention` only names the probed channel.
  */
  function Subscribe(subs: Subs, origin: Snowflake, mention: Snowflake, dura: Nanos, now: Time,
                     probe: Reply<string>): (r: Step)
    ensures r.outcome.Ok? <==> probe.Ok?
    ensures probe.Err? ==> r.subs == subs && r.outcome == Err(ProbeFailed(probe.error))
    ensures probe.Ok? ==> r.subs.Keys == subs.Keys + {origin}
    ensures probe.Ok? ==> r.subs[origin] == Sub(dura, now)
    ensures probe.Ok? ==> forall k :: k in subs && k != origin ==> r.subs[k] == subs[k]
  {
    match probe
    case Err(reason) => Step(subs, Err(ProbeFailed(reason)))
    case Ok => Step(subs[origin := Sub(dura, now)], Ok)
  }

  /** `Unsubscribe`: removes the mentioned channel, or reports it absent. */
  function Unsubscribe(subs: Subs, mention: Snowflake): (r: Step)
    ensures r.outcome.Ok? <==> mention in subs
    ensures mention !in subs ==> r.subs == subs && r.outcome == Err(NotSubscribed)
    ensures mention in subs ==> r.subs.Keys == subs.Keys - {mention}
    ensures forall k :: k in r.subs ==> k in subs && r.subs[k] == subs[k]
  {
    if mention !in subs then Step(subs, Err(NotSubscribed))
    else Step(subs - {mention}, Ok)
  }

  /**
    The test at main.go:158, as written: `last.Add(dura).After(now)`. It holds
    while the interval has NOT yet elapsed.
  */
  predicate Fires(s: Sub, now: Time)
  {
    s.last + s.dura > now
  }

  /** The channels one poll at `now` reports. */
  function Due(subs: Subs, now: Time): (due: set<Snowflake>)
    ensures due <= subs.Keys
    ensures forall k :: k in due <==> k in subs && Fires(subs[k], now)
  {
    set k | k in subs && Fires(subs[k], now)
  }

  /** One entry after a poll at `now`: restarted if reported, else untouched. */
  function Touch(s: Sub, now: Time): Sub
  {
    if Fires(s, now) then s.(last := now) else s
  }

  /** The map after a poll at `now`. */
  function Polled(subs: Subs, now: Time): (after: Subs)
    ensures after.Keys == subs.Keys
    ensures forall k :: k in subs && Fires(subs[k], now) ==> after[k] == Sub(subs[k].dura, now)
    ensures forall k :: k in subs && !Fires(subs[k], now) ==> after[k] == subs[k]
  {
    map k | k in subs :: Touch(subs[k], now)
  }

  /** No channel occurs twice. */
  predicate Distinct(s: seq<Snowflake>)
  {
    forall i, j :: 0 <= i < j < |s| ==> s[i] != s[j]
  }

  /**
    `pollSubscribes`: visits the map in an unspecified order (Go's map
    iteration order), appends every channel whose test holds and restarts its
    clock at `now`. The whole loop runs under the mutex, so it is one step.
  */
  method PollSubscribes(subs: Subs, now: Time) returns (sendTo: seq<Snowflake>, after: Subs)
    ensures forall k :: k in sendTo <==> k in subs && Fires(subs[k], now)
    ensures Distinct(sendTo)
    ensures |sendTo| == |Due(subs, now)|
    ensures after.Keys == subs.Keys
    ensures forall k :: k in subs && Fires(subs[k], now) ==> after[k] == Sub(subs[k].dura, now)
    ensures forall k :: k in subs && !Fires(subs[k], now) ==> after[k] == subs[k]
  {
    sendTo := [];
    after := subs;
    var unvisited := subs.Keys;
    while unvisited != {}
      invariant unvisited <= subs.Keys
      invariant after.Keys == subs.Keys
      invariant forall k :: k in unvisited ==> after[k] == subs[k]
      invariant forall k :: k in subs && k !in unvisited ==> after[k] == Touch(subs[k], now)
      invariant forall k :: k in sendTo <==> k in subs && k !in unvisited && Fires(subs[k], now)
      invariant Distinct(sendTo)
      decreases unvisited
    {
      var chID :| chID in unvisited;
      var sub := after[chID];
      if Fires(sub, now) {
        sendTo := sendTo + [chID];
        after := after[chID := sub.(last := now)];
      }
      unvisited := unvisited - {chID};
    }
    DistinctCount(sendTo);
    assert (set k | k in sendTo) == Due(subs, now);
  }

  /** A list without repeats has as many elements as the set of its elements. */
  lemma {:induction false} DistinctCount(s: seq<Snowflake>)
    requires Distinct(s)
    ensures |set k | k in s| == |s|
  {
    if |s| > 0 {
      var init := s[..|s| - 1];
      DistinctCount(init);
      assert (set k | k in s) == (set k | k in init) + {s[|s| - 1]};
      assert s[|s| - 1] !in init;
    }
  }

  /** The loop computes exactly the functional poll: the due set and the new map. */
  lemma PollSubscribesAgrees(subs: Subs, now: Time, sendTo: seq<Snowflake>, after: Subs)
    requires forall k :: k in sendTo <==> k in subs && Fires(subs[k], now)
    requires after.Keys == subs.Keys
    requires forall k :: k in subs ==> after[k] == Touch(subs[k], now)
    ensures (set k | k in sendTo) == Due(subs, now)
    ensures after == Polled(subs, now)
  {
  }

  /**
    Unsubscribing the channel that Subscribe stored under removes the entry
    again; every other channel keeps what it had before the Subscribe.
  */
  lemma UnsubscribeUndoesSubscribe(subs: Subs, origin: Snowflake, mention: Snowflake, dura: Nanos,
                                   now: Time)
    ensures Unsubscribe(Subscribe(subs, origin, mention, dura, now, Ok).subs, origin)
         == Step(subs - {origin}, Ok)
  {
    var stored := Subscribe(subs, origin, mention, dura, now, Ok).subs;
    assert stored - {origin} == subs - {origin};
  }

  /** A second poll at the same instant leaves the map as the first one left it. */
  lemma PollIdempotent(subs: Subs, now: Time)
    ensures Polled(Polled(subs, now), now) == Polled(subs, now)
  {
    var once := Polled(subs, now);
    forall k | k in subs
      ensures Touch(once[k], now) == once[k]
    {
      if Fires(subs[k], now) {
        assert once[k] == subs[k].(last := now);
      }
    }
  }

  /**
    As written, a second poll at the same instant reports again every channel
    the first one reported whose interval is positive, since `now + dura > now`,
    and nothing else.
  */
  lemma PollReportsAgain(subs: Subs, now: Time)
    ensures Due(Polled(subs, now), now) == (set k | k in Due(subs, now) && subs[k].dura > 0)
  {
  }

  /**
    As written, a channel the poll at `now` passes over is passed over by every
    later poll as well: its clock is never restarted, so it never fires again.
  */
  lemma SilentStaysSilent(subs: Subs, k: Snowflake, now: Time, later: Time)
    requires k in subs && !Fires(subs[k], now) && now <= later
    ensures k !in Due(Polled(subs, now), later)
    ensures Polled(subs, now)[k] == subs[k]
  {
  }

  /** While the clock does not run backwards, a poll never moves `last` back. */
  lemma PollKeepsLastMonotone(subs: Subs, now: Time)
    requires forall k :: k in subs ==> subs[k].last <= now
    ensures forall k :: k in subs ==> subs[k].last <= Polled(subs, now)[k].last <= now
  {
  }
}
