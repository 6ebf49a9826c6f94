# randimg subscription registry

A Dafny model of the scheduling core of the randimg Discord bot: the
channel-subscription registry in `main.go`. A `!subscribe` command stores an
interval for a channel, `!unsubscribe` removes it, and a worker that ticks every
fifteen seconds asks the registry which channels to post a random image to,
restarting their clocks in the same locked step. `Duration.Parse` refuses
intervals shorter than `MinDuration` (one minute) before a subscription is made.

Time is integer nanoseconds (`Types.Time`), a Go `time.Duration` is a signed
64-bit nanosecond count (`Types.Nanos`) and a channel is an unsigned 64-bit
snowflake. Each mutex-protected operation is one pure function from the map
before to the map after; `time.Now()` becomes a `now` parameter and the
outcome of Subscribe's reachability probe becomes a `probe` parameter.

Modules:

- `Types`, `Replies`: the data model (`Sub` is `channelSubscription`, `Subs` the map), the error values, and how a command reports success or an error.
- `DurationArg`: the bound check in `Duration.Parse`.
- `Registry`: `NewCommands`, `Subscribe`, `Unsubscribe` and `pollSubscribes` as the code is written, with a loop-based `PollSubscribes` that visits the map in an arbitrary order and the functional `Due`/`Polled` it agrees with.
- `Lifecycle`: chronological runs of commands and ticks from `NewCommands`, and the invariant every reachable map keeps.
- `Startup`: the nil map that `main` actually starts with.
- `Intended`: the corrected due-check and the corrected Subscribe key.
- `Findings`: concrete runs that show each departure, next to runs of the corrected definitions.

The model follows the code as written. Where the code departs from what its
own text says it means, the corrected definitions sit beside it and the
differences are listed under Findings: the `MinDuration` comment (main.go:21,
"the fastest delay before the next image") makes a channel due once
`now - last >= dura`, while the test at main.go:158 fires while
`last + dura > now`; and Subscribe probes the mentioned channel (main.go:76),
which Unsubscribe deletes (main.go:103), yet stores the channel the command
came from (main.go:85). Subscribe itself does not check the interval; only
`Duration.Parse` does (main.go:182), so `Registry.Subscribe` accepts any
interval and the one-minute floor holds of runs in which every interval passed
through Parse (`Lifecycle`). At most one subscription per channel holds by
construction: the registry is a map.

## Model

| member | source | states |
|---|---|---|
| `Registry.NewCommands` | main.go:57-61 | the registry starts with no channel subscribed |
| `Registry.Subscribe` | main.go:71-92 | a failed probe returns its error and leaves the map as it was; otherwise the origin channel maps to `{dura, now}`, replacing any earlier entry, the key set gains exactly that channel and every other entry is unchanged |
| `Registry.Unsubscribe` | main.go:94-105 | an absent channel gives "not subscribed" and the map is unchanged; a present one succeeds, exactly that key is removed and every remaining entry is as before |
| `Registry.Due` | main.go:157-161 | a poll reports exactly the subscribed channels whose `last + dura` lies strictly after `now` |
| `Registry.Polled` | main.go:157-162 | after a poll every reported channel has `last == now` and its old `dura`, every other entry is unchanged, and the key set is unchanged |
| `Registry.PollSubscribes` | main.go:151-165 | the loop over the map, in any visiting order, returns each reported channel exactly once (its length is the size of the due set), exactly the channels whose test holds, and the map with just those clocks restarted |
| `Registry.PollSubscribesAgrees` | main.go:151-165 | whatever order the loop visits the map in, its channel list holds the same set and its map is the same map as the functional poll |
| `Registry.UnsubscribeUndoesSubscribe` | main.go:84-104 | unsubscribing the channel a Subscribe stored removes it again and restores every other entry |
| `Registry.PollIdempotent` | main.go:157-162 | a second poll at the same instant leaves the map as the first left it |
| `Registry.PollReportsAgain` | main.go:158-160 | as written, a second poll at the same instant reports again exactly the channels the first reported whose interval is positive |
| `Registry.SilentStaysSilent` | main.go:158-161 | as written, a channel one poll passes over keeps its entry and is passed over by every later poll |
| `Registry.PollKeepsLastMonotone` | main.go:155-161 | while the clock does not run backwards a poll never moves a channel's `last` back nor past `now` |
| `DurationArg.Parse` | main.go:177-187 | Parse succeeds iff `time.ParseDuration` succeeded and the value is at least one minute; on success the target holds the value, on failure it is untouched and the error is the parser's or "too short" |
| `DurationArg.AcceptedIsAtLeastMinimum` | main.go:182-185 | every accepted interval is at least `MinDuration` and so positive |
| `DurationArg.ParseBoundary` | main.go:182-186 | exactly one minute is accepted; one nanosecond less is refused with "too short" and leaves the target alone |
| `Lifecycle.ApplyKeepsHealthy` | main.go:84-186 | one Subscribe (after parsing its interval), Unsubscribe or poll at a time not before the clock keeps every interval at least a minute and every `last` no later than the clock |
| `Lifecycle.RunIsHealthy` | main.go:57-186 | every map a chronological run from `NewCommands` reaches has only intervals of at least a minute and no `last` in the future |
| `Lifecycle.CommandKeysDependOnKeys` | main.go:84-104 | which channels a Subscribe or Unsubscribe leaves subscribed depends only on which channels were subscribed before, not on their intervals or clocks |
| `Lifecycle.TicksKeepChannels` | main.go:157-164 | polls never add or remove a channel: a run subscribes exactly the channels its commands alone would |
| `Startup.SubscribeIn` | main.go:76-89 | on the nil map a successful probe makes the store panic and a failed one returns the probe error; on a made map a failed probe returns its error with the map untouched, and a successful one gives the origin channel `{dura, now}`, adds exactly that key and leaves every other entry unchanged |
| `Startup.UnsubscribeIn` | main.go:100-104 | on the nil map Unsubscribe always reports "not subscribed"; on a made map an absent channel reports "not subscribed" with the map untouched, and a present one is deleted and nothing else changes |
| `Startup.PollIn` | main.go:157-162 | ranging over the nil map reports nothing; on a made map the report is exactly the channels whose test holds, each reported entry restarts at `now` with its `dura`, the others are untouched and the key set is kept |
| `Startup.MainStoreNeverSubscribes` | main.go:32 | from the registry `main` builds, Subscribe panics whenever its probe succeeds, Unsubscribe always fails and polls report nothing |
| `Startup.NewStoreSubscribes` | main.go:57-89 | from the registry `NewCommands` builds, a Subscribe with a working probe stores exactly one entry |
| `Intended.DueAt` | main.go:21-22 | corrected: a poll reports exactly the channels for which at least `dura` has passed since `last` |
| `Intended.PollDue` | main.go:157-161 | corrected: every reported channel restarts at `now` with its `dura`, others unchanged, key set kept |
| `Intended.Subscribe` | main.go:74-89 | corrected: the mentioned channel maps to `{dura, now}`, every other entry unchanged; a failed probe leaves the map |
| `Intended.UnsubscribeUndoesSubscribe` | main.go:74-104 | corrected: `!unsubscribe #c` undoes `!subscribe #c` whatever channel the commands came from |
| `Intended.FiresWhenIntervalElapsed` | main.go:21-22 | corrected: a channel subscribed at `start` is reported at `now` iff `now >= start + dura` |
| `Intended.NoDoubleFire` | main.go:157-161 | corrected: after a poll at `now` reports a channel, a poll at `later` reports it again iff `later >= now + dura`; an unreported channel keeps its entry |
| `Intended.SecondPollReportsNothing` | main.go:157-161 | corrected: with positive intervals, a second poll at the same instant reports nothing |
| `Findings.RefiresEveryTick` | main.go:142-161 | as written, a reported channel is reported again by every tick before its interval has elapsed |
| `Findings.RefiresAtNextTick` | main.go:143-160 | as written, a reported channel with an interval of at least a minute is reported again by the next 15-second tick |
| `Findings.AsWrittenSchedule` | main.go:143-161 | as written, a one-minute subscription made at 0 is reported at 15 s, 30 s and 45 s, and not by a late tick at 91 s |
| `Findings.AsWrittenKeyMismatch` | main.go:74-103 | as written, `!subscribe #2` from channel 1 stores channel 1, and `!unsubscribe #2` then answers "not subscribed" |
| `Findings.IntendedScheduleA` | main.go:157-161 | corrected, one-minute subscription at 0: nothing at 30 s, reported at 61 s with clock 61 s, nothing at 90 s, reported at 122 s |
| `Findings.ThirtySecondsRefused` | main.go:182-184 | a thirty-second interval is refused as too short |
| `Findings.IntendedScheduleC` | main.go:94-105 | corrected: subscribe then unsubscribe: the unsubscribe succeeds and a poll an hour later reports nothing |
| `Findings.IntendedScheduleD` | main.go:84-89 | a second Subscribe replaces the entry, restarting the clock; reports follow the new interval: a one-minute subscription at 0 replaced at 10 s by two minutes is not reported at 61 s or 100 s and is reported at 130 s |

## Left out

- Discord I/O (`SendText`, `DeleteMessage`, `SendMessageComplex`): network calls into a library; the probe in Subscribe is reduced to its outcome, passed as a parameter.
- `randomTo` and `uploadTo` (directory listing, `rand.Intn`, opening and sending a file): file system and randomness; what the worker does with the reported channels is not modelled.
- `startWorker`'s `time.Tick` loop, the goroutine per batch, and the mutex: concurrency; each locked operation is one atomic step, and a run is a sequence of such steps (`Lifecycle`).
- `time.ParseDuration`: library code; its outcome is a parameter of `DurationArg.Parse`.
- `Filename.Parse` and its `filepath.Base`/`filepath.Clean` sanitising: library path handling outside the registry.
- `main`'s flags, seeding and bot start-up, except that it builds the registry without `NewCommands` (`Startup`).
- `Registry.Due`: `time.Time.Add` is computed on unbounded integers, so the int64 overflow handling of Go's `Time.Add` and the wall/monotonic clock split are not modelled; with intervals of at least a minute and real clock readings they do not arise.
- Reply text: the model keeps the kind of each error (and the probe's or parser's cause) but not the strings the user sees ("You're not subscribed.", "Duration is too short, pick something longer.", the "Failed to send a message" wrapping), nor Subscribe's success reply "Subscribed." (main.go:91); they are fixed texts that no property here depends on.

## Findings

| source | as written | input that shows it | evidently intended | confidence | as-written member | corrected member |
|---|---|---|---|---|---|---|
| main.go:158 | a channel is reported while `last + dura` is after `now`, i.e. before its interval has elapsed, and its clock is restarted, so it is reported at every 15-second tick; a channel passed over once is never reported again | subscribe channel 7 for one minute at 0; polls at 15 s, 30 s, 45 s all report 7 | report a channel once `now - last >= dura`, as the `MinDuration` comment ("the fastest delay before the next image") says | high; not executed | `Findings.AsWrittenSchedule` | `Intended.NoDoubleFire` |
| main.go:85 | Subscribe stores the entry under `m.ChannelID`, the channel the command came from, while it probes `chID` and Unsubscribe deletes `chID` | `!subscribe #2` typed in channel 1, then `!unsubscribe #2`: "You're not subscribed." and channel 1 stays subscribed | store under the mentioned channel `chID`, so Unsubscribe undoes Subscribe | medium; not executed | `Findings.AsWrittenKeyMismatch` | `Intended.UnsubscribeUndoesSubscribe` |
| main.go:32 | `main` builds `&Commands{}`, leaving `subscriptions` nil, so the first Subscribe whose probe succeeds panics on the store into a nil map | any `!subscribe` whose test message is delivered | build the registry with `NewCommands` | high; not executed | `Startup.MainStoreNeverSubscribes` | `Startup.NewStoreSubscribes` |
