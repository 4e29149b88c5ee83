# Weather-aware activity selection

This project models the selection routine of the activities service in
`activities.go`. A request asks for an activity, either for sunny weather or
not. The handler reads the candidate activities of that kind and calls
`retrieveActivity`. That function draws a random slot of the candidate slice.

- In not-sunny mode it returns the drawn activity at once.
- In sunny mode it looks up the weather condition for the activity's
  postcode through Redis. On a miss (`redis.Nil`) it asks the weather
  provider and writes the answer back with a 10-minute expiry, ignoring
  the write's error. On a hit it uses the cached condition.
- It returns the activity unless the condition is `Rain`, `Snow` or
  `Drizzle`.
- On bad weather it appends the activity to a discarded list, deletes its
  slot with `RemoveIndex`, and calls itself on the shorter slice.
- Any other cache read error returns the zero activity with that error.

The code has no attempt ceiling. When every candidate has been rejected, the
next `Intn(0)` panics. The model says exactly that: its outcome is
`Panicked`.

## Layout

- `wrappers.dfy`: `Option`, standing for Go's `error` (nil or a message).
- `slices.dfy`: deleting one slot of a slice (`Without`), and what that does
  to the slice's backing array (`RemoveAt`).
- `weather.dfy`: the bad-weather predicate `IsBad`, and `WeatherApi`, the
  weather provider. `WeatherApi` logs every postcode it is asked for.
- `redis.dfy`: `Redis.Client`, a cache held as a `map` field, with GET and
  SET.
- `selection.dfy`: the whole selection as a function (`Selection.Retrieve`,
  started by `Selection.Start`) of its inputs and of the outside world, plus
  the properties proved about it.
- `handler.dfy`: `Handlers.Handler`, the imperative version. The candidate
  slice is an `array` plus a length. `RemoveIndex` shifts the tail left in
  place. The recursion is a `while` loop that decreases the slice length.
  `RetrieveActivity` is proved to leave the result, the array, the cache
  and the provider's request log exactly as `Selection.Start` says.

## The outside world as parameters

`Selection.Oracles` holds three functions of the attempt number `k` (0 for
the first draw):

- `pick(k, size)` is the index `Intn(size)` returns. `Oracles.Valid()`
  requires it to lie in `[0, size)`.
- `readFault(k)` is a cache read error other than a miss, or none.
- `writeFails(k)` says whether the cache write fails.

The weather provider is a fixed function from postcode to condition
(`WeatherApi.classify`). A failed SET leaves the cache unchanged. Cache
entries never expire.

## Behaviour of the code worth knowing

- There is no attempt ceiling. As long as every draw is rejected, the code
  keeps drawing until the slice is empty, and then `Intn(0)` panics
  (`Selection.RainyCandidatePanics`). A run also stops on an accepted draw
  or on a cache read error.
- The `CircuitBreaker` field is never used, so no breaker logic guards the
  weather call.
- `GetWeather` exits the process (`log.Fatalln`) when the provider request,
  the body read or the JSON decoding fails; it returns no error.

## Model

| member | source | states |
|---|---|---|
| `Slices.Without` | activities.go:252-254 | deleting slot `i` gives a slice one shorter; the elements before `i` stay where they were, and those after `i` move down by one |
| `Slices.WithoutMultiset` | activities.go:253 | deleting slot `i` removes exactly the element `s[i]`; no other element is lost or added |
| `Slices.RemoveAt` | activities.go:253 | `append(s[:i], s[i+1:]...)` rewrites the backing array: the tail of the slice moves one slot left, and slot `len-1` and everything after it keep their old values |
| `Handlers.Handler.RemoveIndex` | activities.go:252-254 | shifting in place leaves the array as `RemoveAt` describes, and the new slice (one shorter) is the old slice without slot `index` |
| `Weather.IsBad` | activities.go:143 | a condition is bad weather exactly when it is `Rain`, `Snow` or `Drizzle`, compared exactly |
| `Weather.OnlyThreeLabelsAreBad` | activities.go:154 | for example: `Rain`, `Snow` and `Drizzle` are bad, while `Clear`, `Clouds`, `Thunderstorm`, `rain` and the empty string are not |
| `Selection.Lookup.Rejects` | activities.go:143-159 | a candidate is rejected exactly when its condition came from a hit or a miss and is one of the three bad conditions; a read error or a skipped lookup never rejects |
| `Selection.Verdict` | activities.go:144-164 | a read error yields the zero activity with that error; any other lookup that does not reject yields the drawn candidate with a nil error |
| `Weather.WeatherApi.GetWeather` | activities.go:169-187 | each call answers the provider's condition for the postcode and adds exactly one request to the log |
| `Redis.Client.Get` | activities.go:136-137 | a read error takes precedence; otherwise the stored condition is returned on a hit, or `Nil` on a miss |
| `Redis.Client.Set` | activities.go:141 | a successful write stores the condition under the postcode; a failed write returns an error and changes nothing |
| `Selection.CacheAside` | activities.go:136-152 | a read error changes nothing; a hit uses the cached condition and writes nothing; a miss uses the fetched condition and stores it, good or bad, unless the write fails |
| `Handlers.Handler.LookUp` | activities.go:136-141 | the Redis read, fetch and write do what `CacheAside` says; the provider is asked once on a miss and never on a hit or a read error |
| `Selection.Choice` | activities.go:130-133 | the drawn slot lies inside the current slice |
| `Selection.Consult` | activities.go:134-136 | the cache is consulted exactly when the request is sunny; otherwise neither the lookup nor the cache changes anything |
| `Selection.Record` | activities.go:133-141 | recording a draw keeps the state well formed |
| `Selection.Discard` | activities.go:146-147 | discarding a candidate keeps the state well formed and shortens the slice by exactly one |
| `Selection.Retrieve` | activities.go:129-167 | every run ends in a well-formed state; the lemmas below state the rest |
| `Selection.Initial` | activities.go:124-125 | a top-level call starts on the whole candidate list, with nothing discarded, no draws yet and the cache as given |
| `Selection.Start` | activities.go:124-125 | the top-level call ends in a well-formed state whose slice is no longer than the candidate list; with no candidates it panics; in not-sunny mode the cache is unchanged |
| `Selection.HistoryRetrieve` | activities.go:129-167 | the outcome is `Panicked` exactly when the slice is empty at the end; every draw but the last rejected the activity that was discarded; a returned value is the verdict on the last draw, which was not rejected; that last draw was a lookup exactly in sunny mode |
| `Selection.TrackedRetrieve` | activities.go:146-159 | draws come from distinct slots of the original list and get the activity stored there |
| `Selection.ConservedRetrieve` | activities.go:146-159 | the remaining slice and the discarded list together keep the same multiset of activities |
| `Selection.CacheRetrieve` | activities.go:136-159 | the cache holds the initial entries plus the stored fetches, each with its postcode's forecast; every condition used is the forecast |
| `Selection.WritesIgnoredRetrieve` | activities.go:141-143 | given the model's fixed weather function, runs that differ only in which cache writes fail have the same outcome, slice and discarded list |
| `Selection.ReadErrorIsLastDraw` | activities.go:150-151 | a read error recorded at draw `k` is the error of attempt `k`, and earlier draws are kept as they were |
| `Selection.EmptyListPanics` | activities.go:130-132 | with no candidates the first draw panics, in either mode, before the cache is touched |
| `Selection.NotSunnyTakesFirstDraw` | activities.go:163-165 | not-sunny mode makes exactly one draw and returns that candidate with a nil error; the cache is neither read nor written, and the provider is not called |
| `Selection.DrawsBounded` | activities.go:129-167 | a run makes at least one draw if there are candidates, and never more draws than there are candidates; it panics exactly when all of them were discarded; every draw but the last is a weather rejection |
| `Selection.NoSlotDrawnTwice` | activities.go:146-159 | no slot of the original list is drawn twice in one run, and each draw got the activity in that slot |
| `Selection.NothingLostOrDuplicated` | activities.go:146-159 | the remaining slice and the discarded list together are the original list, as multisets |
| `Selection.CacheAsideRun` | activities.go:136-159 | the final cache is the initial cache plus every fetch whose write succeeded, whether its condition was good or bad; no cached entry is overwritten; a miss only happens for a postcode not cached initially and uses the fetched condition; a hit uses the cached one |
| `Selection.AcceptedIsGoodWeather` | activities.go:143-155 | in sunny mode a nil-error result is an activity from the original list; its postcode's condition is not bad weather; and, because the model's weather is a fixed function of the postcode, no discarded activity shares its postcode, so the result itself was never discarded |
| `Selection.ReadErrorAborts` | activities.go:150-151 | a result with an error happens exactly when the last draw hit a cache read error; it carries the zero activity and that attempt's error, and no earlier draw hit a read error |
| `Selection.WriteErrorsIgnored` | activities.go:141-143 | given the model's fixed weather function, whether cache writes fail changes neither the outcome, nor the remaining slice, nor the discarded list, nor the number of draws |
| `Selection.SunnyCandidateChosen` | activities.go:136-144 | with one candidate in Craigavon, an empty cache and clear weather, that candidate is returned, and the cache afterwards maps Craigavon to Clear |
| `Selection.RainyCandidatePanics` | activities.go:146-148 | with one candidate and rain, it is discarded, and the next draw, on the empty slice, panics |
| `Handlers.Handler.Attempt` | activities.go:130-160 | one pass of the body either finishes with the result `Retrieve` gives, or deletes the rejected slot and leaves a state from which `Retrieve` gives the same result |
| `Handlers.Handler.RetrieveActivity` | activities.go:129-167 | the returned value, the array, the cache, the discarded list and the provider's request log are exactly those of `Selection.Start` on the initial array and cache |

## Left out

- HTTP endpoints, response writing and timing output (activities.go:95-106, 189-196): I/O plumbing with no decisions in it.
- The database queries and row scanning in `getSunnyActivity` and `getNotSunnyActivities` (activities.go:108-127, 198-217): storage I/O. The candidate list is an input. The `"%s %s"` rendering of the result is left out too; those callers discard the returned error.
- `GetWeather`'s HTTP request and JSON decoding (activities.go:169-187): it is replaced by a fixed function from postcode to condition. The panic on an empty `weather` array and the `log.Fatalln` exits are not modelled.
- Selection.Retrieve: the weather is a fixed function of the postcode, so a postcode has one condition for the whole run. The real provider could answer differently on a later call, after a failed cache write.
- Redis.Client.Set: the 10-minute expiry (activities.go:141) is not modelled, so entries never expire. A failed write is modelled as storing nothing.
- The time-seeded random source (activities.go:130-131): it becomes the index oracle `Oracles.pick`.
- The `CircuitBreaker` field (activities.go:29): the file never uses it.
- The `context` argument (activities.go:129): it is only passed on to Redis GET and SET and to the recursive calls; a cancelled context shows up as a read or write error, which `Oracles.readFault` and `Oracles.writeFails` cover.
- The commented-out caching code (activities.go:219-249): dead code.
- The final `return Activities{}, nil` (activities.go:166): no path reaches it, since every branch above it returns.
- The discarded list is never read by any caller. It appears only as a ghost out-parameter and as a field of the model's state.
- Concurrent requests sharing the cache: each run is modelled as sequential, with the cache as it stands when the run starts.
