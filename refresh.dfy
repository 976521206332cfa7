/**
 * The refresh protocol of the cached model, as functions of its state: the
 * store keys derived from the configured key, the seven pipeline steps, and
 * the series that runs steps in order and stops at the first one that does
 * not continue. The class in cached_model.dfy is proved against these.
 */
module Refresh {
  import opened Wrappers
  import opened Decimal
  import opened JsonText
  import opened JsonLaws

  // ---------------------------------------------------------------------
  // Keys and configuration

  /** The three store entries one model instance uses. */
  datatype Keys = Keys(data: string, nextCheck: string, lastModified: string)

  function DeriveKeys(key: string): Keys
  {
    Keys(key + "-data", key + "-next-check", key + "-last-modified")
  }

  /** The error thrown at construction when a required option is missing. */
  datatype ConfigError = MissingKey | MissingStore

  /**
   * Construction: a missing or empty `key` is refused first, then a missing
   * store; otherwise the keys are derived from `key`.
   */
  function Configure(key: Option<string>, hasStore: bool): (r: Result<Keys, ConfigError>)
    ensures r.Ok? <==> key.Some? && key.value != "" && hasStore
    ensures r.Ok? ==> (r.value.data == key.value + "-data"
                       && r.value.nextCheck == key.value + "-next-check"
                       && r.value.lastModified == key.value + "-last-modified")
    ensures r.Err? ==> (r.error == MissingKey <==> key.None? || key.value == "")
  {
    if key.None? || key.value == "" then Err(MissingKey)
    else if !hasStore then Err(MissingStore)
    else Ok(DeriveKeys(key.value))
  }

  /** JavaScript truthiness of an optional interval: absent, 0 (and NaN) are falsy. */
  predicate Truthy(interval: Option<int>)
  {
    interval.Some? && interval.value != 0
  }

  /** What the steps need from the options. */
  datatype Config = Config(keys: Keys, apiInterval: Option<int>)

  // ---------------------------------------------------------------------
  // State, step outcomes and the environment of a step

  /**
   * The state the steps read and change: the model's `lastModified` (0 when
   * absent), its attributes, and the entries of the shared store.
   */
  datatype State = State(lastModified: int, attributes: Fields, entries: map<string, string>)

  /** What a collaborator reports on failure; `isErrorInstance` is `err instanceof Error`. */
  datatype Failure = Failure(message: string, isErrorInstance: bool)

  /** The failure JSON.parse throws on malformed text. */
  const SyntaxError := Failure("SyntaxError", true)

  /** A step's callback argument: nothing, the ABORT sentinel, or an error. */
  datatype StepResult = Continue | Abort | Fail(failure: Failure)

  /**
   * The outside world as one step sees it: the time Date.now() returns, the
   * failure its store or fetch call reports (if any), and the response body
   * the API returns to fetch.
   */
  datatype Io = Io(now: int, fault: Option<Failure>, fetched: Json)

  datatype Step =
    | CheckStoreLastModified
    | GetStoreData
    | GetNextCheckTime
    | SetNextCheckTime
    | GetDataFromApi
    | StoreDataFromApi
    | StoreLastModifiedFromApi

  const StoreSteps: seq<Step> := [CheckStoreLastModified, GetStoreData]

  const ApiSteps: seq<Step> :=
    [GetNextCheckTime, SetNextCheckTime, GetDataFromApi, StoreDataFromApi, StoreLastModifiedFromApi]

  /**
   * The text a store read hands to parseInt and JSON.parse: the stored
   * string, or "null" for a missing entry (String(null)).
   */
  function Read(entries: map<string, string>, key: string): string
  {
    if key in entries then entries[key] else "null"
  }

  /** The series' completion handler: only a real Error is emitted as an 'error' event. */
  function Reported(r: StepResult): (e: Option<Failure>)
    ensures e.Some? ==> r == Fail(e.value) && e.value.isErrorInstance
    ensures r == Continue || r == Abort ==> e == None
    ensures r.Fail? && r.failure.isErrorInstance ==> e == Some(r.failure)
  {
    if r.Fail? && r.failure.isErrorInstance then Some(r.failure) else None
  }

  // ---------------------------------------------------------------------
  // The model's attributes

  /**
   * The parse hook: a non-null, non-array object is kept as it is; anything
   * else (null, a scalar, an array) is wrapped as the single attribute `data`.
   */
  function Parse(data: Json): (r: Json)
    ensures r.Obj?
    ensures data.Obj? ==> r == data
    ensures !data.Obj? ==> r.members == [Member("data", data)]
  {
    if data.Obj? then data else Obj([Member("data", data)])
  }

  /** The base model's `set(data)`: each member of an object overrides the attribute of that name. */
  function Merge(attrs: Fields, data: Json): Fields
  {
    if data.Obj? then MergeFields(attrs, data.members) else attrs
  }

  function MergeFields(attrs: Fields, ms: Fields): (r: Fields)
  {
    if ms == [] then attrs
    else
      var last := ms[|ms| - 1];
      Put(MergeFields(attrs, ms[..|ms| - 1]), last.name, last.value)
  }

  // ---------------------------------------------------------------------
  // The steps

  /** A number written to the store: its decimal text; now + undefined is NaN. */
  function Reservation(now: int, apiInterval: Option<int>): string
  {
    if apiInterval.Some? then Render(now + apiInterval.value) else "NaN"
  }

  /** Store sync, step 1: is the store's data newer than what the model holds? */
  function CheckStoreLastModifiedStep(c: Config, s: State, io: Io): StepResult
  {
    if s.lastModified == 0 then Continue
    else if io.fault.Some? then Fail(io.fault.value)
    else
      var stored := ParseIntOr0(Read(s.entries, c.keys.lastModified));
      if stored != 0 && stored > s.lastModified then Continue else Abort
  }

  /** Store sync, step 2: load the stored data into the model. */
  function GetStoreDataStep(c: Config, s: State, io: Io): (StepResult, State)
  {
    if io.fault.Some? then (Fail(io.fault.value), s)
    else
      match Decode(Read(s.entries, c.keys.data))
      case None => (Fail(SyntaxError), s)
      case Some(data) => (Continue, s.(lastModified := io.now, attributes := Merge(s.attributes, data)))
  }

  /** API sync, step 1: is an API check due? */
  function GetNextCheckTimeStep(c: Config, s: State, io: Io): StepResult
  {
    if io.fault.Some? then Fail(io.fault.value)
    else if ParseIntOr0(Read(s.entries, c.keys.nextCheck)) <= io.now then Continue
    else Abort
  }

  /** API sync, step 2: reserve the next check before fetching. */
  function SetNextCheckTimeStep(c: Config, s: State, io: Io): (StepResult, State)
  {
    if io.fault.Some? then (Fail(io.fault.value), s)
    else (Continue, s.(entries := s.entries[c.keys.nextCheck := Reservation(io.now, c.apiInterval)]))
  }

  /** API sync, step 3: fetch (which hands the response through the parse hook) and set the model's data. */
  function GetDataFromApiStep(s: State, io: Io): (StepResult, State)
  {
    if io.fault.Some? then (Fail(io.fault.value), s)
    else (Continue, s.(lastModified := io.now, attributes := Merge(s.attributes, Parse(io.fetched))))
  }

  /** API sync, step 4: write the serialised attributes to the data entry. */
  function StoreDataFromApiStep(c: Config, s: State, io: Io): (StepResult, State)
  {
    if io.fault.Some? then (Fail(io.fault.value), s)
    else (Continue, s.(entries := s.entries[c.keys.data := Encode(Obj(s.attributes))]))
  }

  /** API sync, step 5: write the model's lastModified to the last-modified entry. */
  function StoreLastModifiedFromApiStep(c: Config, s: State, io: Io): (StepResult, State)
  {
    if io.fault.Some? then (Fail(io.fault.value), s)
    else (Continue, s.(entries := s.entries[c.keys.lastModified := Render(s.lastModified)]))
  }

  function Apply(c: Config, s: State, step: Step, io: Io): (StepResult, State)
  {
    match step
    case CheckStoreLastModified => (CheckStoreLastModifiedStep(c, s, io), s)
    case GetStoreData => GetStoreDataStep(c, s, io)
    case GetNextCheckTime => (GetNextCheckTimeStep(c, s, io), s)
    case SetNextCheckTime => SetNextCheckTimeStep(c, s, io)
    case GetDataFromApi => GetDataFromApiStep(s, io)
    case StoreDataFromApi => StoreDataFromApiStep(c, s, io)
    case StoreLastModifiedFromApi => StoreLastModifiedFromApiStep(c, s, io)
  }

  // ---------------------------------------------------------------------
  // The series

  /** How a series ended: the final callback argument, the state, and how many steps ran. */
  datatype Run = Run(result: StepResult, state: State, ran: nat)

  /**
   * async.series over the steps: each runs with its own environment; the
   * first result other than Continue ends the series with that result.
   */
  function Series(c: Config, s: State, steps: seq<Step>, ios: seq<Io>): (r: Run)
    requires |ios| == |steps|
    ensures r.ran <= |steps|
    ensures r.result == Continue ==> r.ran == |steps|
    ensures steps != [] ==> r.ran > 0
    decreases |steps|
  {
    if steps == [] then Run(Continue, s, 0)
    else
      var (result, next) := Apply(c, s, steps[0], ios[0]);
      if result != Continue then Run(result, next, 1)
      else
        var rest := Series(c, next, steps[1..], ios[1..]);
        rest.(ran := rest.ran + 1)
  }
}
