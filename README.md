# passports-cached-model in Dafny

This project models `HmpoCachedModel` (`lib/index.js`). It is a model whose
attributes are kept fresh from two sources: a key/value store shared by
several processes, and an upstream API. The two sources are coordinated
through three store keys derived from the configured key:
`<key>-data`, `<key>-next-check` and `<key>-last-modified`.

- **Store sync** (`loadFromStore`) runs two steps:
  - it checks whether the store's last-modified time is newer than the model's;
  - if it is, it loads the stored data into the model.
- **API sync** (`loadFromApi`) runs five steps:
  - it checks whether the next-check time has passed;
  - it reserves the next check at `now + apiInterval`;
  - it fetches from the API;
  - it writes the model's data to the store;
  - it writes the model's last-modified time to the store.
- Each pipeline stops at the first step that does not continue, either with the `ABORT` sentinel or with an error. Only a real `Error` is emitted as an `'error'` event.
- `start` first calls `stop`. Then, for each pipeline whose interval is truthy, it runs that pipeline once and registers one interval timer for it. `stop` clears both timers.

The project has seven modules:

- `Wrappers` (wrappers.dfy) holds the Option and Result datatypes.
- `Decimal` (decimal.dfy) covers the number text the model exchanges with the store:
  - `parseInt(text, 10) || 0`: leading white space, an optional sign, then a run of digits; no digits gives 0.
  - the decimal text of an integer, which is what the store holds once a number is written;
  - a proof that the reader undoes the writer.
- `JsonText` (json.dfy) and `JsonLaws` (json_laws.dfy) cover the JSON the model writes and reads:
  - JSON values with integer numbers;
  - objects as member lists in insertion order (JavaScript's ordering of array-index names is not modelled; see Left out);
  - `JSON.stringify`'s compact text and a `JSON.parse`-style reader that refuses malformed text;
  - the round trip `Decode(Encode(v)) == Some(v)`;
  - the attribute assignment that `set` performs.
- `Refresh` (refresh.dfy) and `RefreshLaws` (refresh_laws.dfy) give the protocol as functions of a `State`:
  - the state is the model's `lastModified`, its attributes and the store entries;
  - the key derivation, the constructor's checks and the `parse` normaliser;
  - each step as a function;
  - `Series`, which is `async.series`: run in order, stop at the first result that is not `Continue`;
  - the laws about these functions.
- `CachedModel` (cached_model.dfy) is the object model:
  - the classes are `Store`, `Timers` (the process's interval registry) and `HmpoCachedModel`;
  - each step is a method that updates the fields and the store in place, and is proved equal to its `Refresh` function;
  - the pipelines are a loop over the step list, proved equal to `Series`;
  - `start` and `stop` keep the invariant that the registry holds exactly one interval per enabled pipeline and nothing else for this model.

Each step receives an `Io(now, fault, fetched)` value. It carries:

- the time `Date.now()` returns during that step;
- the error the store call or the fetch reports, if any;
- the response the API returns.

The store's own reads and writes are modelled. A fault is reported in the step's callback, as the source does.

After a successful load, `this.set(data)` (`lib/index.js:48`, `:82`) assigns each member of the data over the existing attributes; attributes the data does not mention are kept.

The base model's `fetch` hands the response through the `parse` hook before the callback sees it. So the fetch step merges `Parse(fetched)`. `getDataFromAPI` itself only calls `set(data)`.

## Model

| member | source | states |
|---|---|---|
| Refresh.Configure | lib/index.js:8-18 | construction succeeds iff the key is present and non-empty and a store is given; a missing key is reported before a missing store; on success the keys are key+"-data", key+"-next-check" and key+"-last-modified" |
| CachedModel.HmpoCachedModel.Create | lib/index.js:8-18 | the constructor refuses exactly the options Configure refuses, with the same error; otherwise the result is a fresh valid model with the derived keys, the given store, timers and intervals, no lastModified, the given attributes set over no attributes, and no timers running |
| CachedModel.HmpoCachedModel.constructor | lib/index.js:8-15 | the keys are derived from the key; the attributes are the given ones set over no attributes, as the base constructor's set does; no lastModified, no timers, no errors emitted |
| RefreshLaws.KeysNeverCollide | lib/index.js:13-15 | no data key equals a next-check or last-modified key, whatever the two configured keys are; two instances share a derived key iff they share the configured key |
| RefreshLaws.DerivedKeysApart | lib/index.js:13-15 | the three keys of one instance are pairwise distinct |
| Refresh.Parse | lib/index.js:87-92 | an object is returned unchanged; null, a scalar or an array is wrapped as the single attribute `data` |
| RefreshLaws.ParseThenSet | lib/index.js:87-92 | setting a normalised value on empty attributes gives the object's own members, or exactly one `data` attribute; normalising twice is normalising once |
| Refresh.Reported | lib/index.js:136 | the completion handler reports a failure iff it is an Error instance, and then reports that failure; Continue and ABORT are never reported |
| CachedModel.Emitted | lib/index.js:146 | at most one 'error' event per series, and there is one iff the series ended with a failure that is an Error instance, carrying that failure |
| Refresh.Series | lib/index.js:133-146 | a series runs at most all of its steps, runs all of them when it ends with Continue, and runs at least the first |
| RefreshLaws.SeriesStopsAtFirst | lib/index.js:133-146 | a series that ends with ABORT or an error stopped at its last step: the steps before it all continued, that step's result and state are the series' result and state, and no later step ran |
| RefreshLaws.FirstLoadAlwaysChecksOut | lib/index.js:21 | with no lastModified the freshness check continues, whatever the store holds or reports |
| RefreshLaws.CheckAgainstStoredTime | lib/index.js:20-33 | when the store holds the text of a number m, the check continues iff m is non-zero and greater than the model's lastModified, and aborts otherwise |
| RefreshLaws.CheckAgainstUnreadableTime | lib/index.js:27-30 | a stored last-modified text with no digits (including a missing entry) makes the check abort |
| RefreshLaws.StoreSyncSkipsOlderData | lib/index.js:20-33 | a model that already holds data at least as new as the time an API sync stored aborts its store sync without changing anything |
| RefreshLaws.LoadStoredFields | lib/index.js:35-53 | when the data entry holds the JSON of an object, loading sets lastModified to now and sets exactly those fields over the attributes |
| RefreshLaws.LoadFailureChangesNothing | lib/index.js:39-45 | a store error or malformed stored text is passed on (a SyntaxError for malformed text) and lastModified, attributes and store are unchanged |
| RefreshLaws.DueAgainstStoredTime | lib/index.js:55-66 | when the next-check entry holds the text of m, the due check continues iff m <= now, and aborts otherwise |
| RefreshLaws.DueWhenUnreadable | lib/index.js:61-62 | a next-check text with no digits (including a missing entry) reads as 0 and is due at a non-negative clock |
| RefreshLaws.ReservationReadsBack | lib/index.js:68-75 | the reservation continues; the next-check entry then reads back as now + apiInterval; every other entry, lastModified and the attributes are unchanged |
| RefreshLaws.PersistedDataReadsBack | lib/index.js:94-101 | persisting continues; the data entry then decodes to exactly the model's attributes; no other entry or field changes |
| RefreshLaws.PersistedTimeReadsBack | lib/index.js:103-110 | persisting continues; the last-modified entry then reads back as the model's lastModified; no other entry or field changes |
| RefreshLaws.StoreSyncStopsAtCheck | lib/index.js:132-137 | when the freshness check aborts or fails, the store sync ends with that result after one step and the state is untouched; getStoreData does not run |
| RefreshLaws.StoreSyncLoads | lib/index.js:132-137 | when the freshness check continues, the store sync ends with exactly what getStoreData gives, after two steps |
| RefreshLaws.ApiSyncStopsWhenNotDue | lib/index.js:139-147 | when the due check does not continue, the API sync stops after one step with the state untouched: no reservation, no fetch, no write; a not-due check ends in ABORT and nothing is reported |
| RefreshLaws.ApiSyncRunsToTheEnd | lib/index.js:139-147 | when the check is due and nothing fails, all five steps run, lastModified is the fetch time, the attributes are merged with the parsed response, and the store holds the reservation, the data and the last-modified time |
| RefreshLaws.ApiFetchFails | lib/index.js:77-85 | a failed fetch ends the series at once with that failure and changes nothing |
| RefreshLaws.ApiSyncReservesBeforeFetch | lib/index.js:140-143 | when the fetch fails, the reservation has already been written and is the only change; the series ends after three steps with the fetch's failure |
| RefreshLaws.SyncedReads | lib/index.js:68-110 | after a full API sync the three entries read back as the reservation, the JSON of the new attributes, and the fetch time |
| RefreshLaws.ReservationThrottles | lib/index.js:55-75 | after a full API sync with interval n, another instance sharing the keys whose next check comes before the reservation time aborts after one step, changing nothing |
| RefreshLaws.StoreSyncSeesApiData | lib/index.js:94-110 | after a full API sync, an instance with the same keys whose data is older runs its store sync to the end and holds the merged attributes the API instance wrote, with lastModified set to its own load time |
| RefreshLaws.MergeFind | lib/index.js:48 | after set, a name the data has takes the data's value; any other name keeps its old value |
| RefreshLaws.MergeIntoEmpty | lib/index.js:48 | setting an object with distinct names on empty attributes gives exactly its members |
| RefreshLaws.SetWellFormed | lib/index.js:82 | setting well-formed data keeps the attributes well-formed (one member per name) |
| JsonText.Put | lib/index.js:48 | assigning a property gives it the new value and leaves every other property's value as it was |
| JsonText.PutAppends | lib/index.js:48 | assigning a property the object does not have adds it at the end of the member list |
| JsonText.Decode | lib/index.js:42 | whatever JSON.parse accepts is well-formed: one member per name in every object |
| JsonLaws.DecodeEncode | lib/index.js:98 | the text JSON.stringify writes for a well-formed value reads back as that value |
| JsonLaws.ValueRoundTrip | lib/index.js:98 | each value's text, followed by any delimiter, reads back as the value and leaves the delimiter |
| JsonLaws.NumberRoundTrip | lib/index.js:98 | an integer's decimal text reads back as that integer |
| JsonLaws.EscapeAllThenParse | lib/index.js:98 | the escaped text of any string, closed by a quote, reads back as that string |
| JsonLaws.NoValueRejected | lib/index.js:41-45 | a text that is empty or white space, or whose first other character cannot begin a JSON value, is refused |
| JsonLaws.MalformedRejected | lib/index.js:41-45 | test vector: the two texts `{{{` and the empty text are refused (the general law is NoValueRejected) |
| JsonLaws.NormalizeDistinct | lib/index.js:42 | reading an object whose names are distinct keeps its members as they are |
| Decimal.TrimStart | lib/index.js:27 | parseInt skips a prefix of white space and no more |
| Decimal.RenderReadsBack | lib/index.js:107 | the decimal text of a stored number parses back as that number |
| Decimal.ParseIntRender | lib/index.js:27 | an integer's decimal text, followed by anything not starting with a digit, parses as that integer |
| Decimal.ParseIntNoDigits | lib/index.js:61 | a text with no digits parses as 0 |
| CachedModel.Store.Get | lib/index.js:23-25 | a read returns the stored text; a missing key reads as "null" |
| CachedModel.Store.Put | lib/index.js:70-74 | a write sets that one entry and keeps every other entry |
| CachedModel.Timers.SetInterval | lib/index.js:117-120 | setInterval returns a handle not in use and registers exactly that interval |
| CachedModel.Timers.ClearInterval | lib/index.js:150 | clearInterval removes exactly that handle; a null handle changes nothing |
| CachedModel.HmpoCachedModel.Set | lib/index.js:48 | the attributes become the old attributes with the data set over them |
| CachedModel.HmpoCachedModel.CheckStoreLastModified | lib/index.js:20-33 | the freshness check returns what CheckStoreLastModifiedStep gives for the model's state |
| CachedModel.HmpoCachedModel.GetStoreData | lib/index.js:35-53 | the result and the new lastModified, attributes and store are what GetStoreDataStep gives |
| CachedModel.HmpoCachedModel.GetNextCheckTime | lib/index.js:55-66 | the due check returns what GetNextCheckTimeStep gives and writes nothing |
| CachedModel.HmpoCachedModel.SetNextCheckTime | lib/index.js:68-75 | the result and the new state are what SetNextCheckTimeStep gives |
| CachedModel.HmpoCachedModel.GetDataFromApi | lib/index.js:77-85 | the result and the new state are what GetDataFromApiStep gives |
| CachedModel.HmpoCachedModel.StoreDataFromApi | lib/index.js:94-101 | the result and the new state are what StoreDataFromApiStep gives |
| CachedModel.HmpoCachedModel.StoreLastModifiedFromApi | lib/index.js:103-110 | the result and the new state are what StoreLastModifiedFromApiStep gives |
| CachedModel.HmpoCachedModel.RunSeries | lib/index.js:133-146 | running the steps in a loop ends with the result, the state and the step count Series gives |
| CachedModel.HmpoCachedModel.LoadFromStore | lib/index.js:132-137 | the state after the store sync is the Series of the two store steps; the errors emitted grow by what that run reports |
| CachedModel.HmpoCachedModel.LoadFromApi | lib/index.js:139-147 | the state after the API sync is the Series of the five API steps; the errors emitted grow by what that run reports |
| CachedModel.HmpoCachedModel.Stop | lib/index.js:149-154 | both slots are null and this model owns no interval; exactly the two old handles are cleared and other intervals are kept; with both slots already null nothing changes |
| CachedModel.HmpoCachedModel.Start | lib/index.js:112-130 | afterwards a slot holds a timer iff its interval is truthy; the model owns exactly those timers; other intervals are kept; the state and the errors are those of one store run and then one API run, each only when its interval is truthy |
| CachedModel.HmpoCachedModel.StartStore | lib/index.js:115-121 | with a truthy storeInterval, one store sync then one registered interval; otherwise nothing |
| CachedModel.HmpoCachedModel.StartApi | lib/index.js:123-129 | with a truthy apiInterval, one API sync then one registered interval; otherwise nothing; the store slot is kept |
| CachedModel.HmpoCachedModel.Schedule | lib/index.js:117-120 | registering a pipeline's interval fills that slot and keeps the other slot and every other model's intervals |

## Left out

- Debug logging (`lib/index.js:3` and the `debug` calls) is left out. It has no effect on state.
- `getDataFromAPI` passes `{ url: options.url }` to `fetch`. The model does not represent the request. The response is an input of the step.
- Periodic firing of the interval timers, real time, and concurrency are left out. This covers:
  - two pipelines running interleaved;
  - a timer firing while a run is in progress;
  - two processes racing on the next-check key.
  
  Each run is a sequence of steps with no interruption. `start`'s first runs happen one after the other, store first.
- Asynchronous callbacks are not modelled. Each step method returns its callback argument.
- The base model library's `set`, `toJSON`, `fetch` and `emit` are not part of this model. Assumptions about them:
  - `set` assigns each member of an object over the attributes and ignores anything that is not an object;
  - `toJSON` is the attribute object;
  - `fetch` applies the `parse` hook to the response;
  - `emit('error', e)` appends `e` to the model's `errors`.
- JavaScript numbers are modelled as unbounded integers. Floating point, fractions, exponents, `Infinity` and a `NaN` interval (a falsy number) are not modelled. An absent `apiInterval` reservation is the text "NaN", which `parseInt` reads as 0.
- The JSON reader accepts integer numbers only, and only `\uXXXX` escapes that stand for a single character. Surrogate pairs and number syntax with fractions or exponents are refused rather than decoded.
- A `JSON.stringify` failure, such as a cyclic attribute value, cannot arise in the modelled value type.
- Values a store returns that are not strings are not modelled. The store holds text, and a number is stored as its decimal text.
- A failed store write is modelled as reporting the fault with the entry left unwritten.
- `lastModified` is an integer and 0 means absent, matching the falsiness test at `lib/index.js:21`. A load at time 0 therefore reads as no data.
- RefreshLaws.ApiSyncRunsToTheEnd: covers only the run where every step succeeds. The runs that stop at the check or the fetch have their own lemmas; a fault in a persist step is covered by the general RefreshLaws.SeriesStopsAtFirst.
- JsonText.PutAppends: JavaScript lists array-index names (such as "1" or "42") first, in ascending order, whatever order they were added in, so `JSON.stringify({b: 1, 1: 2})` is `{"1":2,"b":1}`, while the model keeps every name in insertion order and `Encode` writes them in that order. No promise of the cached model depends on member order: the store round trip and the attribute values read by name are the same either way.
