/**
 * The cached model as an object. The store and the interval timers are
 * objects shared with other instances; each step reads or updates the
 * model's fields and the store in place, and is proved to do what the
 * matching function of Refresh says. The pipelines run the steps in a loop
 * proved against Refresh.Series, and start/stop keep the timer registry
 * holding exactly one interval per enabled pipeline.
 */
module CachedModel {
  import opened Wrappers
  import opened Decimal
  import opened JsonText
  import opened Refresh

  /** The shared key-value store: text entries by key. */
  class Store {
    var entries: map<string, string>

    constructor (entries: map<string, string>)
      ensures this.entries == entries
    {
      this.entries := entries;
    }

    /** get(key): the stored text; a missing key yields null, which reads as "null". */
    method Get(key: string) returns (text: string)
      ensures key in entries ==> text == entries[key]
      ensures key !in entries ==> text == "null"
    {
      text := if key in entries then entries[key] else "null";
    }

    /** set(key, value): the entry now holds the value's text; nothing else changes. */
    method Put(key: string, text: string)
      modifies this
      ensures entries == old(entries)[key := text]
    {
      entries := entries[key := text];
    }
  }

  /** Which pipeline an interval timer runs. */
  datatype Task = LoadFromStoreTask | LoadFromApiTask

  /** A running interval: the model it is bound to, the pipeline, and the period in ms. */
  datatype Interval = Interval(owner: HmpoCachedModel, task: Task, period: int)

  /** The process's interval timers, by handle; setInterval hands out a handle never used before. */
  class Timers {
    var active: map<nat, Interval>
    var next: nat

    predicate Valid()
      reads this
    {
      forall h | h in active :: h < next
    }

    constructor ()
      ensures Valid() && active == map[]
    {
      active := map[];
      next := 0;
    }

    method SetInterval(iv: Interval) returns (h: nat)
      requires Valid()
      modifies this
      ensures Valid()
      ensures h !in old(active) && active == old(active)[h := iv]
    {
      h := next;
      active := active[h := iv];
      next := next + 1;
    }

    /** clearInterval: a null or already cleared handle is ignored. */
    method ClearInterval(h: Option<nat>)
      requires Valid()
      modifies this
      ensures Valid()
      ensures active == if h.Some? then old(active) - {h.value} else old(active)
    {
      if h.Some? {
        active := active - {h.value};
      }
    }
  }

  /** The handle in a timer slot, as a set: empty when the slot is null. */
  function Handles(slot: Option<nat>): set<nat>
  {
    if slot.Some? then {slot.value} else {}
  }

  /** The 'error' events a finished series emits: only a real Error. */
  function Emitted(r: StepResult): (es: seq<Failure>)
    ensures |es| <= 1
    ensures es != [] <==> r.Fail? && r.failure.isErrorInstance
    ensures es != [] ==> es == [r.failure]
  {
    if Reported(r).Some? then [Reported(r).value] else []
  }

  /** A run whose step count is counted from an earlier point of the series. */
  function Shift(r: Run, k: nat): Run
  {
    r.(ran := r.ran + k)
  }

  /** The steps from i on, when step i continues into next. */
  lemma SeriesAdvance(c: Config, s: State, steps: seq<Step>, ios: seq<Io>, i: nat, next: State)
    requires |ios| == |steps| && i < |steps|
    requires Apply(c, s, steps[i], ios[i]) == (Continue, next)
    ensures Series(c, s, steps[i..], ios[i..]) == Shift(Series(c, next, steps[i + 1..], ios[i + 1..]), 1)
  {
    assert steps[i..][0] == steps[i] && ios[i..][0] == ios[i];
    assert steps[i..][1..] == steps[i + 1..] && ios[i..][1..] == ios[i + 1..];
  }

  /** The steps from i on, when step i does not continue. */
  lemma SeriesHalts(c: Config, s: State, steps: seq<Step>, ios: seq<Io>, i: nat, r: StepResult, next: State)
    requires |ios| == |steps| && i < |steps|
    requires Apply(c, s, steps[i], ios[i]) == (r, next) && r != Continue
    ensures Series(c, s, steps[i..], ios[i..]) == Run(r, next, 1)
  {
    assert steps[i..][0] == steps[i] && ios[i..][0] == ios[i];
  }

  class HmpoCachedModel {
    const keys: Keys
    const storeInterval: Option<int>
    const apiInterval: Option<int>
    const store: Store
    const timers: Timers
    /** Date.now() of the last load; 0 while the model holds no loaded data. */
    var lastModified: int
    var attributes: Fields
    var storeTimer: Option<nat>
    var apiTimer: Option<nat>
    /** The 'error' events emitted so far, oldest first. */
    var errors: seq<Failure>

    function Settings(): Config
    {
      Config(keys, apiInterval)
    }

    function Snapshot(): State
      reads this`lastModified, this`attributes, store
    {
      State(lastModified, attributes, store.entries)
    }

    /** The handles of the registry's intervals bound to this model. */
    function Owned(): set<nat>
      reads timers
    {
      set h | h in timers.active && timers.active[h].owner == this
    }

    /** The intervals of a registry that are bound to other models. */
    function Others(active: map<nat, Interval>): map<nat, Interval>
    {
      map h | h in active && active[h].owner != this :: active[h]
    }

    /**
     * Each timer slot names a running interval of this model for its
     * pipeline, only when that pipeline's interval is truthy, and the
     * registry holds no other interval of this model.
     */
    predicate Valid()
      reads this`storeTimer, this`apiTimer, timers
    {
      timers.Valid()
      && (storeTimer.Some? ==>
            Truthy(storeInterval) && storeTimer.value in timers.active
            && timers.active[storeTimer.value] == Interval(this, LoadFromStoreTask, storeInterval.value))
      && (apiTimer.Some? ==>
            Truthy(apiInterval) && apiTimer.value in timers.active
            && timers.active[apiTimer.value] == Interval(this, LoadFromApiTask, apiInterval.value))
      && Owned() == Handles(storeTimer) + Handles(apiTimer)
    }

    /** Construction once the options passed validation (see Create). */
    constructor (key: string, store: Store, timers: Timers, attrs: Fields, storeInterval: Option<int>, apiInterval: Option<int>)
      requires key != "" && timers.Valid()
      ensures keys == DeriveKeys(key) && this.store == store && this.timers == timers
      ensures this.storeInterval == storeInterval && this.apiInterval == apiInterval
      ensures lastModified == 0 && attributes == MergeFields([], attrs) && errors == []
      ensures storeTimer == None && apiTimer == None
      ensures Valid()
    {
      keys := DeriveKeys(key);
      this.store := store;
      this.timers := timers;
      this.storeInterval := storeInterval;
      this.apiInterval := apiInterval;
      lastModified := 0;
      attributes := MergeFields([], attrs);
      storeTimer := None;
      apiTimer := None;
      errors := [];
      new;
      assert Owned() == {};
    }

    /**
     * new HmpoCachedModel(attrs, options): refuses a missing or empty key,
     * then a missing store, as Configure says; otherwise a model with the
     * derived keys, the given intervals, no data and no timers.
     */
    static method Create(key: Option<string>, store: Option<Store>, timers: Timers, attrs: Fields,
                         storeInterval: Option<int>, apiInterval: Option<int>)
        returns (r: Result<HmpoCachedModel, ConfigError>)
      requires timers.Valid()
      ensures r.Ok? <==> Configure(key, store.Some?).Ok?
      ensures r.Err? ==> r.error == Configure(key, store.Some?).error
      ensures r.Ok? ==> fresh(r.value) && r.value.Valid()
                        && r.value.keys == Configure(key, store.Some?).value
                        && r.value.store == store.value && r.value.timers == timers
                        && r.value.lastModified == 0 && r.value.attributes == MergeFields([], attrs)
                        && r.value.storeInterval == storeInterval && r.value.apiInterval == apiInterval
                        && r.value.storeTimer == None && r.value.apiTimer == None && r.value.errors == []
    {
      match Configure(key, store.Some?)
      case Err(e) =>
        r := Err(e);
      case Ok(_) =>
        var m := new HmpoCachedModel(key.value, store.value, timers, attrs, storeInterval, apiInterval);
        r := Ok(m);
    }

    /** The base model's set(data). */
    method Set(data: Json)
      modifies this`attributes
      ensures attributes == Merge(old(attributes), data)
    {
      attributes := Merge(attributes, data);
    }

    // -------------------------------------------------------------------
    // The steps

    method CheckStoreLastModified(io: Io) returns (r: StepResult)
      ensures r == CheckStoreLastModifiedStep(Settings(), Snapshot(), io)
    {
      if lastModified == 0 {
        return Continue;
      }
      var data := store.Get(keys.lastModified);
      if io.fault.Some? {
        return Fail(io.fault.value);
      }
      var stored := ParseIntOr0(data);
      if stored != 0 && stored > lastModified {
        r := Continue;
      } else {
        r := Abort;
      }
    }

    method GetStoreData(io: Io) returns (r: StepResult)
      modifies this`lastModified, this`attributes
      ensures (r, Snapshot()) == GetStoreDataStep(Settings(), old(Snapshot()), io)
    {
      var text := store.Get(keys.data);
      if io.fault.Some? {
        return Fail(io.fault.value);
      }
      match Decode(text)
      case None =>
        r := Fail(SyntaxError);
      case Some(data) =>
        lastModified := io.now;
        Set(data);
        r := Continue;
    }

    method GetNextCheckTime(io: Io) returns (r: StepResult)
      ensures r == GetNextCheckTimeStep(Settings(), Snapshot(), io)
    {
      var data := store.Get(keys.nextCheck);
      if io.fault.Some? {
        return Fail(io.fault.value);
      }
      var nextCheckTime := ParseIntOr0(data);
      if nextCheckTime <= io.now {
        r := Continue;
      } else {
        r := Abort;
      }
    }

    method SetNextCheckTime(io: Io) returns (r: StepResult)
      modifies store
      ensures (r, Snapshot()) == SetNextCheckTimeStep(Settings(), old(Snapshot()), io)
    {
      if io.fault.Some? {
        return Fail(io.fault.value);
      }
      store.Put(keys.nextCheck, Reservation(io.now, apiInterval));
      r := Continue;
    }

    method GetDataFromApi(io: Io) returns (r: StepResult)
      modifies this`lastModified, this`attributes
      ensures (r, Snapshot()) == GetDataFromApiStep(old(Snapshot()), io)
    {
      if io.fault.Some? {
        return Fail(io.fault.value);
      }
      lastModified := io.now;
      Set(Parse(io.fetched));
      r := Continue;
    }

    method StoreDataFromApi(io: Io) returns (r: StepResult)
      modifies store
      ensures (r, Snapshot()) == StoreDataFromApiStep(Settings(), old(Snapshot()), io)
    {
      if io.fault.Some? {
        return Fail(io.fault.value);
      }
      store.Put(keys.data, Encode(Obj(attributes)));
      r := Continue;
    }

    method StoreLastModifiedFromApi(io: Io) returns (r: StepResult)
      modifies store
      ensures (r, Snapshot()) == StoreLastModifiedFromApiStep(Settings(), old(Snapshot()), io)
    {
      if io.fault.Some? {
        return Fail(io.fault.value);
      }
      store.Put(keys.lastModified, Render(lastModified));
      r := Continue;
    }

    method RunStep(step: Step, io: Io) returns (r: StepResult)
      modifies this`lastModified, this`attributes, store
      ensures (r, Snapshot()) == Apply(Settings(), old(Snapshot()), step, io)
    {
      match step
      case CheckStoreLastModified => r := CheckStoreLastModified(io);
      case GetStoreData => r := GetStoreData(io);
      case GetNextCheckTime => r := GetNextCheckTime(io);
      case SetNextCheckTime => r := SetNextCheckTime(io);
      case GetDataFromApi => r := GetDataFromApi(io);
      case StoreDataFromApi => r := StoreDataFromApi(io);
      case StoreLastModifiedFromApi => r := StoreLastModifiedFromApi(io);
    }

    // -------------------------------------------------------------------
    // The pipelines

    /** async.series: run the steps in order until one does not continue. */
    method RunSeries(steps: seq<Step>, ios: seq<Io>) returns (result: StepResult, ran: nat)
      requires |ios| == |steps|
      modifies this`lastModified, this`attributes, store
      ensures Series(Settings(), old(Snapshot()), steps, ios) == Run(result, Snapshot(), ran)
    {
      var i := 0;
      result := Continue;
      while i < |steps| && result == Continue
        invariant 0 <= i <= |steps|
        invariant result == Continue ==>
          Series(Settings(), old(Snapshot()), steps, ios) == Shift(Series(Settings(), Snapshot(), steps[i..], ios[i..]), i)
        invariant result != Continue ==>
          Series(Settings(), old(Snapshot()), steps, ios) == Run(result, Snapshot(), i)
      {
        ghost var before := Snapshot();
        result := RunStep(steps[i], ios[i]);
        if result == Continue {
          SeriesAdvance(Settings(), before, steps, ios, i, Snapshot());
        } else {
          SeriesHalts(Settings(), before, steps, ios, i, result, Snapshot());
        }
        i := i + 1;
      }
      if result == Continue {
        assert steps[i..] == [] && ios[i..] == [];
      }
      ran := i;
    }

    /** One store sync: check the store's timestamp, then load its data; a real Error is emitted. */
    method LoadFromStore(ios: seq<Io>)
      requires |ios| == 2
      modifies this`lastModified, this`attributes, this`errors, store
      ensures Snapshot() == Series(Settings(), old(Snapshot()), StoreSteps, ios).state
      ensures errors == old(errors) + Emitted(Series(Settings(), old(Snapshot()), StoreSteps, ios).result)
    {
      var result, ran := RunSeries(StoreSteps, ios);
      errors := errors + Emitted(result);
    }

    /** One API sync: due check, reservation, fetch, then both writes; a real Error is emitted. */
    method LoadFromApi(ios: seq<Io>)
      requires |ios| == 5
      modifies this`lastModified, this`attributes, this`errors, store
      ensures Snapshot() == Series(Settings(), old(Snapshot()), ApiSteps, ios).state
      ensures errors == old(errors) + Emitted(Series(Settings(), old(Snapshot()), ApiSteps, ios).result)
    {
      var result, ran := RunSeries(ApiSteps, ios);
      errors := errors + Emitted(result);
    }

    // -------------------------------------------------------------------
    // The scheduler

    /**
     * Clears both intervals and empties both slots; the registry then holds
     * no interval of this model, and every other interval is untouched.
     * Stopping a stopped model changes nothing.
     */
    method Stop()
      requires Valid()
      modifies this`storeTimer, this`apiTimer, timers
      ensures Valid()
      ensures storeTimer == None && apiTimer == None && Owned() == {}
      ensures timers.active == old(timers.active) - Handles(old(storeTimer)) - Handles(old(apiTimer))
      ensures Others(timers.active) == Others(old(timers.active))
      ensures old(storeTimer) == None && old(apiTimer) == None ==> timers.active == old(timers.active)
    {
      timers.ClearInterval(storeTimer);
      storeTimer := None;
      timers.ClearInterval(apiTimer);
      apiTimer := None;
    }

    /**
     * Stops first, then for each pipeline whose interval is truthy runs it
     * once and registers one interval for it. Afterwards a slot is set
     * exactly when its interval is truthy, the registry holds exactly the
     * intervals in the slots for this model, and other intervals are
     * untouched.
     */
    method Start(storeIos: seq<Io>, apiIos: seq<Io>)
      requires Valid() && |storeIos| == 2 && |apiIos| == 5
      modifies this`lastModified, this`attributes, this`errors, this`storeTimer, this`apiTimer, store, timers
      ensures Valid()
      ensures storeTimer.Some? <==> Truthy(storeInterval)
      ensures apiTimer.Some? <==> Truthy(apiInterval)
      ensures Owned() == Handles(storeTimer) + Handles(apiTimer)
      ensures Others(timers.active) == Others(old(timers.active))
      ensures Snapshot() == StartedState(old(Snapshot()), storeIos, apiIos)
      ensures errors == old(errors) + StartedErrors(old(Snapshot()), storeIos, apiIos)
    {
      ghost var s0, e0 := Snapshot(), errors;
      Stop();
      assert Snapshot() == s0 && errors == e0;
      StartStore(storeIos);
      ghost var s1 := Snapshot();
      StartApi(apiIos);
      assert Snapshot() == FirstApiRun(s1, apiIos).state;
    }

    /** The store half of start(): with a truthy storeInterval, one store sync, then its interval. */
    method StartStore(storeIos: seq<Io>)
      requires Valid() && storeTimer == None && apiTimer == None && |storeIos| == 2
      modifies this`lastModified, this`attributes, this`errors, this`storeTimer, this`apiTimer, store, timers
      ensures Valid()
      ensures (storeTimer.Some? <==> Truthy(storeInterval)) && apiTimer == None
      ensures Others(timers.active) == Others(old(timers.active))
      ensures Snapshot() == FirstStoreRun(old(Snapshot()), storeIos).state
      ensures errors == old(errors) + Emitted(FirstStoreRun(old(Snapshot()), storeIos).result)
    {
      if Truthy(storeInterval) {
        LoadFromStore(storeIos);
        Schedule(LoadFromStoreTask);
      }
    }

    /** The API half of start(): with a truthy apiInterval, one API sync, then its interval. */
    method StartApi(apiIos: seq<Io>)
      requires Valid() && apiTimer == None && |apiIos| == 5
      modifies this`lastModified, this`attributes, this`errors, this`storeTimer, this`apiTimer, store, timers
      ensures Valid()
      ensures (apiTimer.Some? <==> Truthy(apiInterval)) && storeTimer == old(storeTimer)
      ensures Others(timers.active) == Others(old(timers.active))
      ensures Snapshot() == FirstApiRun(old(Snapshot()), apiIos).state
      ensures errors == old(errors) + Emitted(FirstApiRun(old(Snapshot()), apiIos).result)
    {
      if Truthy(apiInterval) {
        LoadFromApi(apiIos);
        Schedule(LoadFromApiTask);
      }
    }

    /** setInterval for one pipeline whose slot is empty, storing the new handle in its slot. */
    method Schedule(task: Task)
      requires Valid()
      requires task == LoadFromStoreTask ==> storeTimer == None && Truthy(storeInterval)
      requires task == LoadFromApiTask ==> apiTimer == None && Truthy(apiInterval)
      modifies this`storeTimer, this`apiTimer, timers
      ensures Valid()
      ensures task == LoadFromStoreTask ==> storeTimer.Some? && apiTimer == old(apiTimer)
      ensures task == LoadFromApiTask ==> apiTimer.Some? && storeTimer == old(storeTimer)
      ensures Others(timers.active) == Others(old(timers.active))
    {
      var period := if task == LoadFromStoreTask then storeInterval.value else apiInterval.value;
      ghost var before := timers.active;
      var h := timers.SetInterval(Interval(this, task, period));
      if task == LoadFromStoreTask {
        storeTimer := Some(h);
      } else {
        apiTimer := Some(h);
      }
      assert Owned() == old(Owned()) + {h};
      assert Others(timers.active) == Others(before);
    }

    /** The first store run start() makes: the series when storeInterval is truthy, nothing otherwise. */
    function FirstStoreRun(s: State, storeIos: seq<Io>): Run
      requires |storeIos| == 2
    {
      if Truthy(storeInterval) then Series(Settings(), s, StoreSteps, storeIos) else Run(Continue, s, 0)
    }

    /** The first API run start() makes, from the state the first store run left. */
    function FirstApiRun(s: State, apiIos: seq<Io>): Run
      requires |apiIos| == 5
    {
      if Truthy(apiInterval) then Series(Settings(), s, ApiSteps, apiIos) else Run(Continue, s, 0)
    }

    function StartedState(s: State, storeIos: seq<Io>, apiIos: seq<Io>): State
      requires |storeIos| == 2 && |apiIos| == 5
    {
      FirstApiRun(FirstStoreRun(s, storeIos).state, apiIos).state
    }

    function StartedErrors(s: State, storeIos: seq<Io>, apiIos: seq<Io>): seq<Failure>
      requires |storeIos| == 2 && |apiIos| == 5
    {
      Emitted(FirstStoreRun(s, storeIos).result) + Emitted(FirstApiRun(FirstStoreRun(s, storeIos).state, apiIos).result)
    }
  }
}
