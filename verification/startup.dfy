/**
  The registry as `main` actually creates it. `main` builds `&Commands{}`
  instead of calling `NewCommands`, so the `subscriptions` map is Go's nil map:
  reading and deleting from it behave like an empty map, ranging over it visits
  nothing, and storing into it panics.
*/
module Startup {
  import opened Replies
  import opened Types
  import Registry

  /** The `subscriptions` field: nil, or a map that `make` created. */
  datatype Store = NilMap | Made(subs: Subs)

  /** What a command does to the store: it returns normally, or it panics. */
  datatype Effect = Panic | Done(store: Store, outcome: Reply<Error>)

  /** The field as `main` leaves it (main.go:32). */
  function MainStore(): Store
  {
    NilMap
  }

  /** The field as `NewCommands` sets it (main.go:57-61). */
  function NewStore(): Store
  {
    Made(Registry.NewCommands())
  }

  /** `Subscribe` against the field; the store into a nil map panics. */
  function SubscribeIn(st: Store, origin: Snowflake, mention: Snowflake, dura: Nanos, now: Time,
                       probe: Reply<string>): (eff: Effect)
    ensures st.NilMap? && probe.Ok? ==> eff.Panic?
    ensures st.NilMap? && probe.Err? ==> eff == Done(NilMap, Err(ProbeFailed(probe.error)))
    ensures st.Made? && probe.Err? ==> eff == Done(st, Err(ProbeFailed(probe.error)))
    ensures st.Made? && probe.Ok? ==> eff.Done? && eff.outcome == Ok && eff.store.Made?
    ensures st.Made? && probe.Ok? ==> eff.store.subs.Keys == st.subs.Keys + {origin}
    ensures st.Made? && probe.Ok? ==> eff.store.subs[origin] == Sub(dura, now)
    ensures st.Made? && probe.Ok? ==>
              forall k :: k in st.subs && k != origin ==> eff.store.subs[k] == st.subs[k]
  {
    match st
    case NilMap =>
      if probe.Err? then Done(NilMap, Err(ProbeFailed(probe.error))) else Panic
    case Made(subs) =>
      var r := Registry.Subscribe(subs, origin, mention, dura, now, probe);
      Done(Made(r.subs), r.outcome)
  }

  /** `Unsubscribe` against the field; a nil map holds no key. */
  function UnsubscribeIn(st: Store, mention: Snowflake): (eff: Effect)
    ensures eff.Done?
    ensures st.NilMap? ==> eff == Done(NilMap, Err(NotSubscribed))
    ensures st.Made? && mention !in st.subs ==> eff == Done(st, Err(NotSubscribed))
    ensures st.Made? && mention in st.subs ==> eff == Done(Made(st.subs - {mention}), Ok)
  {
    match st
    case NilMap => Done(NilMap, Err(NotSubscribed))
    case Made(subs) =>
      var r := Registry.Unsubscribe(subs, mention);
      Done(Made(r.subs), r.outcome)
  }

  /** `pollSubscribes` against the field; ranging over a nil map visits nothing. */
  function PollIn(st: Store, now: Time): (r: (set<Snowflake>, Store))
    ensures st.NilMap? ==> r == ({}, NilMap)
    ensures st.Made? ==> r.1.Made? && r.1.subs.Keys == st.subs.Keys
    ensures st.Made? ==> forall k :: k in r.0 <==> k in st.subs && Registry.Fires(st.subs[k], now)
    ensures st.Made? ==>
              forall k :: k in r.0 ==> r.1.subs[k] == Sub(st.subs[k].dura, now)
    ensures st.Made? ==>
              forall k :: k in st.subs && k !in r.0 ==> r.1.subs[k] == st.subs[k]
  {
    match st
    case NilMap => ({}, NilMap)
    case Made(subs) => (Registry.Due(subs, now), Made(Registry.Polled(subs, now)))
  }

  /**
    From the store `main` builds, no command ever registers a channel: a
    successful probe makes Subscribe panic, every Unsubscribe reports
    "not subscribed", and every poll reports nothing.
  */
  lemma MainStoreNeverSubscribes(origin: Snowflake, mention: Snowflake, dura: Nanos, now: Time,
                                 probe: Reply<string>)
    ensures SubscribeIn(MainStore(), origin, mention, dura, now, probe).Panic? <==> probe.Ok?
    ensures UnsubscribeIn(MainStore(), mention).outcome == Err(NotSubscribed)
    ensures PollIn(MainStore(), now).0 == {}
  {
  }

  /** From the store `NewCommands` builds, a Subscribe with a working probe stores one entry. */
  lemma NewStoreSubscribes(origin: Snowflake, mention: Snowflake, dura: Nanos, now: Time)
    ensures SubscribeIn(NewStore(), origin, mention, dura, now, Ok)
         == Done(Made(map[origin := Sub(dura, now)]), Ok)
  {
  }
}
