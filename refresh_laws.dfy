/**
 * Properties of the refresh protocol: the keys never collide, each step
 * reads back what the steps write, and the two pipelines stop at the first
 * step that does not continue.
 */
module RefreshLaws {
  import opened Wrappers
  import opened Decimal
  import opened JsonText
  import opened JsonLaws
  import opened Refresh

  // ---------------------------------------------------------------------
  // Keys

  lemma SuffixesDiffer(a: string, b: string, x: string, y: string)
    requires x != [] && y != [] && x[|x| - 1] != y[|y| - 1]
    ensures a + x != b + y
  {
    assert (a + x)[|a + x| - 1] == x[|x| - 1];
    assert (b + y)[|b + y| - 1] == y[|y| - 1];
  }

  lemma SameSuffix(a: string, b: string, x: string)
    requires a + x == b + x
    ensures a == b
  {
    assert |a| == |b|;
    assert a == (a + x)[..|a|];
    assert b == (b + x)[..|b|];
  }

  /**
   * Entries of different roles never collide, whatever the two instances'
   * keys are; entries of the same role collide only when the keys are equal.
   */
  lemma KeysNeverCollide(k1: string, k2: string)
    ensures DeriveKeys(k1).data != DeriveKeys(k2).nextCheck
    ensures DeriveKeys(k1).data != DeriveKeys(k2).lastModified
    ensures DeriveKeys(k1).nextCheck != DeriveKeys(k2).lastModified
    ensures DeriveKeys(k1).data == DeriveKeys(k2).data <==> k1 == k2
    ensures DeriveKeys(k1).nextCheck == DeriveKeys(k2).nextCheck <==> k1 == k2
    ensures DeriveKeys(k1).lastModified == DeriveKeys(k2).lastModified <==> k1 == k2
  {
    SuffixesDiffer(k1, k2, "-data", "-next-check");
    SuffixesDiffer(k1, k2, "-data", "-last-modified");
    SuffixesDiffer(k1, k2, "-next-check", "-last-modified");
    if DeriveKeys(k1).data == DeriveKeys(k2).data { SameSuffix(k1, k2, "-data"); }
    if DeriveKeys(k1).nextCheck == DeriveKeys(k2).nextCheck { SameSuffix(k1, k2, "-next-check"); }
    if DeriveKeys(k1).lastModified == DeriveKeys(k2).lastModified { SameSuffix(k1, k2, "-last-modified"); }
  }

  /** The three entries of one instance are different keys. */
  predicate KeysApart(k: Keys)
  {
    k.data != k.nextCheck && k.data != k.lastModified && k.nextCheck != k.lastModified
  }

  lemma DerivedKeysApart(key: string)
    ensures KeysApart(DeriveKeys(key))
  {
    KeysNeverCollide(key, key);
  }

  // ---------------------------------------------------------------------
  // Attributes: set and parse

  lemma FindFirst(fs: Fields, i: nat)
    requires DistinctNames(fs) && i < |fs|
    ensures Find(fs, fs[i].name) == Some(fs[i].value)
  {
    if i > 0 {
      assert fs[1..][i - 1] == fs[i];
      FindFirst(fs[1..], i - 1);
    }
  }

  lemma {:induction false} FindAppend(fs: Fields, m: Member, k: string)
    ensures Find(fs + [m], k) == if HasName(fs, k) then Find(fs, k) else if m.name == k then Some(m.value) else None
  {
    if fs != [] {
      assert (fs + [m])[1..] == fs[1..] + [m];
      FindAppend(fs[1..], m, k);
      if fs[0].name != k {
        assert HasName(fs, k) <==> HasName(fs[1..], k) by {
          if HasName(fs, k) {
            var i :| 0 <= i < |fs| && fs[i].name == k;
            assert fs[1..][i - 1] == fs[i];
          }
          if HasName(fs[1..], k) {
            var i :| 0 <= i < |fs| - 1 && fs[1..][i].name == k;
            assert fs[i + 1] == fs[1..][i];
          }
        }
      }
    }
  }

  /**
   * After `set(data)` with an object of distinct names, an attribute has the
   * object's value when the object names it and its old value otherwise.
   */
  lemma {:induction false} MergeFind(attrs: Fields, ms: Fields, k: string)
    requires DistinctNames(ms)
    ensures Find(MergeFields(attrs, ms), k) == if HasName(ms, k) then Find(ms, k) else Find(attrs, k)
  {
    if ms != [] {
      var init, last := ms[..|ms| - 1], ms[|ms| - 1];
      assert ms == init + [last];
      assert DistinctNames(init);
      MergeFind(attrs, init, k);
      FindAppend(init, last, k);
      if k == last.name {
        FindFirst(ms, |ms| - 1);
      }
    }
  }

  lemma {:induction false} MergeIntoNothing(ms: Fields)
    ensures MergeFields([], ms) == Normalize(ms)
  {
    if ms != [] {
      MergeIntoNothing(ms[..|ms| - 1]);
    }
  }

  /** A model with no attributes takes exactly the members of the object it is set to. */
  lemma MergeIntoEmpty(ms: Fields)
    requires DistinctNames(ms)
    ensures MergeFields([], ms) == ms
  {
    MergeIntoNothing(ms);
    NormalizeDistinct(ms);
  }

  /** `set` keeps the attributes something JavaScript can hold. */
  lemma {:induction false} MergeWellFormed(attrs: Fields, ms: Fields)
    requires WellFormedFields(attrs)
    requires forall i | 0 <= i < |ms| :: WellFormed(ms[i].value)
    ensures WellFormedFields(MergeFields(attrs, ms))
  {
    if ms != [] {
      var init, last := ms[..|ms| - 1], ms[|ms| - 1];
      MergeWellFormed(attrs, init);
      PutWellFormed(MergeFields(attrs, init), last.name, last.value);
    }
  }

  /**
   * The parse hook always yields an object, so setting a fresh model to
   * parse(v) gives the object's own members, or the single attribute `data`.
   */
  lemma ParseThenSet(v: Json)
    requires WellFormed(v)
    ensures Merge([], Parse(v)) == if v.Obj? then v.members else [Member("data", v)]
    ensures Parse(Parse(v)) == Parse(v)
  {
    MergeIntoEmpty(Parse(v).members);
  }

  // ---------------------------------------------------------------------
  // Store sync steps

  /** Without a lastModified the check continues, whatever the store holds or reports. */
  lemma FirstLoadAlwaysChecksOut(c: Config, s: State, io: Io)
    requires s.lastModified == 0
    ensures CheckStoreLastModifiedStep(c, s, io) == Continue
  {
  }

  /**
   * When the store's last-modified entry holds the time m, the check
   * continues exactly when m is non-zero and later than the model's, and
   * otherwise aborts.
   */
  lemma CheckAgainstStoredTime(c: Config, s: State, io: Io, m: int)
    requires s.lastModified != 0 && io.fault.None?
    requires Read(s.entries, c.keys.lastModified) == Render(m)
    ensures CheckStoreLastModifiedStep(c, s, io) == if m != 0 && m > s.lastModified then Continue else Abort
  {
    RenderReadsBack(m);
  }

  /** A missing or unparsable last-modified entry aborts the check once the model has data. */
  lemma CheckAgainstUnreadableTime(c: Config, s: State, io: Io)
    requires s.lastModified != 0 && io.fault.None?
    requires forall i | 0 <= i < |Read(s.entries, c.keys.lastModified)| :: !IsDigit(Read(s.entries, c.keys.lastModified)[i])
    ensures CheckStoreLastModifiedStep(c, s, io) == Abort
  {
    ParseIntNoDigits(Read(s.entries, c.keys.lastModified));
  }

  /**
   * Loading data written as the JSON text of an attribute set sets
   * lastModified to the current time and those attributes into the model.
   */
  lemma LoadStoredFields(c: Config, s: State, io: Io, fs: Fields)
    requires io.fault.None? && WellFormedFields(fs)
    requires Read(s.entries, c.keys.data) == Encode(Obj(fs))
    ensures GetStoreDataStep(c, s, io) == (Continue, s.(lastModified := io.now, attributes := MergeFields(s.attributes, fs)))
  {
    DecodeEncode(Obj(fs));
  }

  /** Malformed stored data or a failed read is reported and changes nothing. */
  lemma LoadFailureChangesNothing(c: Config, s: State, io: Io)
    requires io.fault.Some? || Decode(Read(s.entries, c.keys.data)) == None
    ensures GetStoreDataStep(c, s, io).1 == s
    ensures GetStoreDataStep(c, s, io).0 == if io.fault.Some? then Fail(io.fault.value) else Fail(SyntaxError)
  {
  }

  // ---------------------------------------------------------------------
  // API sync steps

  /** When next-check holds the time m, an API check is due exactly when m is not after now. */
  lemma DueAgainstStoredTime(c: Config, s: State, io: Io, m: int)
    requires io.fault.None?
    requires Read(s.entries, c.keys.nextCheck) == Render(m)
    ensures GetNextCheckTimeStep(c, s, io) == if m <= io.now then Continue else Abort
  {
    RenderReadsBack(m);
  }

  /** A missing or unparsable next-check entry counts as 0, so a check at any time since 1970 is due. */
  lemma DueWhenUnreadable(c: Config, s: State, io: Io)
    requires io.fault.None? && io.now >= 0
    requires forall i | 0 <= i < |Read(s.entries, c.keys.nextCheck)| :: !IsDigit(Read(s.entries, c.keys.nextCheck)[i])
    ensures GetNextCheckTimeStep(c, s, io) == Continue
  {
    ParseIntNoDigits(Read(s.entries, c.keys.nextCheck));
  }

  /**
   * The reservation writes now + apiInterval to next-check, which reads back
   * as that time, and changes no other entry and nothing in the model.
   */
  lemma ReservationReadsBack(c: Config, s: State, io: Io, n: int)
    requires io.fault.None? && c.apiInterval == Some(n)
    ensures var (r, s') := SetNextCheckTimeStep(c, s, io);
      r == Continue
      && ParseIntOr0(Read(s'.entries, c.keys.nextCheck)) == io.now + n
      && (forall k | k != c.keys.nextCheck :: Read(s'.entries, k) == Read(s.entries, k))
      && s'.lastModified == s.lastModified && s'.attributes == s.attributes
  {
    var written := s.entries[c.keys.nextCheck := Render(io.now + n)];
    assert SetNextCheckTimeStep(c, s, io) == (Continue, s.(entries := written));
    assert Read(written, c.keys.nextCheck) == Render(io.now + n);
    RenderReadsBack(io.now + n);
  }

  /**
   * Persisting the data writes the JSON text of the attributes, which a
   * store sync reads back as the same attributes; no other entry changes.
   */
  lemma PersistedDataReadsBack(c: Config, s: State, io: Io)
    requires io.fault.None? && WellFormedFields(s.attributes)
    ensures var (r, s') := StoreDataFromApiStep(c, s, io);
      r == Continue
      && Decode(Read(s'.entries, c.keys.data)) == Some(Obj(s.attributes))
      && (forall k | k != c.keys.data :: Read(s'.entries, k) == Read(s.entries, k))
      && s'.lastModified == s.lastModified && s'.attributes == s.attributes
  {
    DecodeEncode(Obj(s.attributes));
  }

  /** Persisting the timestamp writes lastModified, which reads back as the same time; no other entry changes. */
  lemma PersistedTimeReadsBack(c: Config, s: State, io: Io)
    requires io.fault.None?
    ensures var (r, s') := StoreLastModifiedFromApiStep(c, s, io);
      r == Continue
      && ParseIntOr0(Read(s'.entries, c.keys.lastModified)) == s.lastModified
      && (forall k | k != c.keys.lastModified :: Read(s'.entries, k) == Read(s.entries, k))
      && s'.lastModified == s.lastModified && s'.attributes == s.attributes
  {
    RenderReadsBack(s.lastModified);
  }

  // ---------------------------------------------------------------------
  // The pipelines

  /** One step of the series. */
  lemma SeriesStep(c: Config, s: State, steps: seq<Step>, ios: seq<Io>)
    requires |ios| == |steps| && steps != []
    ensures var (r, next) := Apply(c, s, steps[0], ios[0]);
      Series(c, s, steps, ios) ==
        if r != Continue then Run(r, next, 1)
        else var rest := Series(c, next, steps[1..], ios[1..]); rest.(ran := rest.ran + 1)
  {
  }

  /**
   * A series that does not end with Continue stopped at its last step: every
   * step before it continued, and that step's result and state are the
   * series' result and state. Later steps never ran.
   */
  lemma {:induction false} SeriesStopsAtFirst(c: Config, s: State, steps: seq<Step>, ios: seq<Io>)
    requires |ios| == |steps|
    ensures var r := Series(c, s, steps, ios);
      r.result != Continue ==>
        var k := r.ran - 1;
        var before := Series(c, s, steps[..k], ios[..k]);
        before.result == Continue && before.ran == k
        && Apply(c, before.state, steps[k], ios[k]) == (r.result, r.state)
    decreases |steps|
  {
    if steps != [] {
      var (result, next) := Apply(c, s, steps[0], ios[0]);
      if result == Continue {
        SeriesContinues(c, s, steps, ios, next);
        SeriesStopsAtFirst(c, next, steps[1..], ios[1..]);
        var rest := Series(c, next, steps[1..], ios[1..]);
        if rest.result != Continue {
          PrefixContinues(c, s, steps, ios, rest.ran - 1, next);
        }
      } else {
        assert steps[..0] == [] && ios[..0] == [];
      }
    }
  }

  /** The first j + 1 steps, when the first continues into next. */
  lemma PrefixContinues(c: Config, s: State, steps: seq<Step>, ios: seq<Io>, j: nat, next: State)
    requires |ios| == |steps| && j < |steps|
    requires Apply(c, s, steps[0], ios[0]) == (Continue, next)
    ensures var tail := Series(c, next, steps[1..][..j], ios[1..][..j]);
      Series(c, s, steps[..j + 1], ios[..j + 1]) == tail.(ran := tail.ran + 1)
  {
    assert steps[..j + 1][0] == steps[0] && ios[..j + 1][0] == ios[0];
    SeriesContinues(c, s, steps[..j + 1], ios[..j + 1], next);
    assert steps[..j + 1][1..] == steps[1..][..j];
    assert ios[..j + 1][1..] == ios[1..][..j];
  }

  /**
   * Store sync: when the freshness check does not continue, the series ends
   * with its result and getStoreData never runs.
   */
  lemma StoreSyncStopsAtCheck(c: Config, s: State, ios: seq<Io>)
    requires |ios| == 2
    requires CheckStoreLastModifiedStep(c, s, ios[0]) != Continue
    ensures Series(c, s, StoreSteps, ios) == Run(CheckStoreLastModifiedStep(c, s, ios[0]), s, 1)
  {
    SeriesStep(c, s, StoreSteps, ios);
  }

  /** Store sync: when the check continues, the series ends as getStoreData does. */
  lemma StoreSyncLoads(c: Config, s: State, ios: seq<Io>)
    requires |ios| == 2
    requires CheckStoreLastModifiedStep(c, s, ios[0]) == Continue
    ensures var (r, s') := GetStoreDataStep(c, s, ios[1]);
      Series(c, s, StoreSteps, ios) == Run(r, s', 2)
  {
    SeriesStep(c, s, StoreSteps, ios);
    SeriesStep(c, s, StoreSteps[1..], ios[1..]);
    assert StoreSteps[1..][1..] == [];
  }

  /**
   * API sync: when the due check does not continue (not due, or the read
   * failed), the series ends at once: no reservation, no fetch, no write,
   * and a not-due abort emits nothing.
   */
  lemma ApiSyncStopsWhenNotDue(c: Config, s: State, ios: seq<Io>)
    requires |ios| == 5
    requires GetNextCheckTimeStep(c, s, ios[0]) != Continue
    ensures Series(c, s, ApiSteps, ios) == Run(GetNextCheckTimeStep(c, s, ios[0]), s, 1)
    ensures ios[0].fault.None? ==>
              Series(c, s, ApiSteps, ios).result == Abort && Reported(Series(c, s, ApiSteps, ios).result) == None
  {
    SeriesStep(c, s, ApiSteps, ios);
  }

  /** The store entries after an API sync that ran to the end. */
  function SyncedEntries(c: Config, s: State, ios: seq<Io>): map<string, string>
    requires |ios| == 5
  {
    var attrs := Merge(s.attributes, Parse(ios[2].fetched));
    s.entries[c.keys.nextCheck := Reservation(ios[1].now, c.apiInterval)]
             [c.keys.data := Encode(Obj(attrs))]
             [c.keys.lastModified := Render(ios[2].now)]
  }

  /** A step that continues hands its new state to the rest of the series. */
  lemma SeriesContinues(c: Config, s: State, steps: seq<Step>, ios: seq<Io>, next: State)
    requires |ios| == |steps| && steps != []
    requires Apply(c, s, steps[0], ios[0]) == (Continue, next)
    ensures Series(c, s, steps, ios) == Series(c, next, steps[1..], ios[1..]).(ran := Series(c, next, steps[1..], ios[1..]).ran + 1)
  {
  }

  /** The last API step persists lastModified and ends the series. */
  lemma ApiTailFrom4(c: Config, s3: State, ios: seq<Io>)
    requires |ios| == 5 && ios[4].fault.None?
    ensures Series(c, s3, ApiSteps[4..], ios[4..])
      == Run(Continue, s3.(entries := s3.entries[c.keys.lastModified := Render(s3.lastModified)]), 1)
  {
    var s4 := s3.(entries := s3.entries[c.keys.lastModified := Render(s3.lastModified)]);
    assert ApiSteps[4..] == [StoreLastModifiedFromApi];
    assert Series(c, s4, [], []) == Run(Continue, s4, 0);
    SeriesContinues(c, s3, ApiSteps[4..], ios[4..], s4);
  }

  /** The last two API steps persist the attributes, then lastModified. */
  lemma ApiTailFrom3(c: Config, s2: State, ios: seq<Io>)
    requires |ios| == 5 && ios[3].fault.None? && ios[4].fault.None?
    ensures Series(c, s2, ApiSteps[3..], ios[3..])
      == Run(Continue, s2.(entries := s2.entries[c.keys.data := Encode(Obj(s2.attributes))]
                                                [c.keys.lastModified := Render(s2.lastModified)]), 2)
  {
    var s3 := s2.(entries := s2.entries[c.keys.data := Encode(Obj(s2.attributes))]);
    ApiTailFrom4(c, s3, ios);
    assert ApiSteps[3..][1..] == ApiSteps[4..] && ios[3..][1..] == ios[4..];
    SeriesContinues(c, s2, ApiSteps[3..], ios[3..], s3);
  }

  /** The last three API steps fetch and set the data, then persist it. */
  lemma ApiTailFrom2(c: Config, s1: State, ios: seq<Io>)
    requires |ios| == 5 && ios[2].fault.None? && ios[3].fault.None? && ios[4].fault.None?
    ensures var attrs := Merge(s1.attributes, Parse(ios[2].fetched));
      Series(c, s1, ApiSteps[2..], ios[2..])
      == Run(Continue, State(ios[2].now, attrs, s1.entries[c.keys.data := Encode(Obj(attrs))]
                                                          [c.keys.lastModified := Render(ios[2].now)]), 3)
  {
    var s2 := s1.(lastModified := ios[2].now, attributes := Merge(s1.attributes, Parse(ios[2].fetched)));
    assert Apply(c, s1, ApiSteps[2..][0], ios[2..][0]) == (Continue, s2) by {
      assert ApiSteps[2..][0] == GetDataFromApi && ios[2..][0] == ios[2];
    }
    ApiTailFrom3(c, s2, ios);
    assert ApiSteps[2..][1..] == ApiSteps[3..] && ios[2..][1..] == ios[3..];
    SeriesContinues(c, s1, ApiSteps[2..], ios[2..], s2);
  }

  /**
   * API sync: when the check is due and no call fails, the series runs all
   * five steps: the model takes the fetched data with lastModified set to
   * the fetch time, and the store holds the reservation, the data and that
   * time.
   */
  lemma ApiSyncRunsToTheEnd(c: Config, s: State, ios: seq<Io>)
    requires |ios| == 5
    requires forall i | 0 <= i < 5 :: ios[i].fault.None?
    requires GetNextCheckTimeStep(c, s, ios[0]) == Continue
    ensures Series(c, s, ApiSteps, ios)
      == Run(Continue, State(ios[2].now, Merge(s.attributes, Parse(ios[2].fetched)), SyncedEntries(c, s, ios)), 5)
  {
    ApiTailFrom1(c, s, ios);
    SeriesContinues(c, s, ApiSteps, ios, s);
  }

  /** The last four API steps: reserve, fetch, then both writes. */
  lemma ApiTailFrom1(c: Config, s: State, ios: seq<Io>)
    requires |ios| == 5
    requires ios[1].fault.None? && ios[2].fault.None? && ios[3].fault.None? && ios[4].fault.None?
    ensures Series(c, s, ApiSteps[1..], ios[1..])
      == Run(Continue, State(ios[2].now, Merge(s.attributes, Parse(ios[2].fetched)), SyncedEntries(c, s, ios)), 4)
  {
    var s1 := s.(entries := s.entries[c.keys.nextCheck := Reservation(ios[1].now, c.apiInterval)]);
    ApiTailFrom2(c, s1, ios);
    assert ApiSteps[1..][1..] == ApiSteps[2..] && ios[1..][1..] == ios[2..];
    assert ApiSteps[1..][0] == SetNextCheckTime && ios[1..][0] == ios[1];
    SeriesContinues(c, s, ApiSteps[1..], ios[1..], s1);
  }

  /** A failed fetch ends the series with its failure and no change. */
  lemma ApiFetchFails(c: Config, s1: State, ios: seq<Io>)
    requires |ios| == 5 && ios[2].fault.Some?
    ensures Series(c, s1, ApiSteps[2..], ios[2..]) == Run(Fail(ios[2].fault.value), s1, 1)
  {
    assert ApiSteps[2..][0] == GetDataFromApi;
    assert ios[2..][0] == ios[2];
  }

  /**
   * API sync: the reservation comes before the fetch, so a fetch that fails
   * still leaves the reservation in the store, and nothing else changed.
   */
  lemma ApiSyncReservesBeforeFetch(c: Config, s: State, ios: seq<Io>)
    requires |ios| == 5
    requires ios[0].fault.None? && ios[1].fault.None? && ios[2].fault.Some?
    requires GetNextCheckTimeStep(c, s, ios[0]) == Continue
    ensures Series(c, s, ApiSteps, ios)
      == Run(Fail(ios[2].fault.value), s.(entries := s.entries[c.keys.nextCheck := Reservation(ios[1].now, c.apiInterval)]), 3)
  {
    var s1 := s.(entries := s.entries[c.keys.nextCheck := Reservation(ios[1].now, c.apiInterval)]);
    assert Apply(c, s, ApiSteps[0], ios[0]) == (Continue, s) by {
      assert ApiSteps[0] == GetNextCheckTime;
    }
    assert Apply(c, s, ApiSteps[1..][0], ios[1..][0]) == (Continue, s1) by {
      assert ApiSteps[1..][0] == SetNextCheckTime && ios[1..][0] == ios[1];
    }
    ApiFetchFails(c, s1, ios);
    assert ApiSteps[1..][1..] == ApiSteps[2..] && ios[1..][1..] == ios[2..];
    SeriesContinues(c, s, ApiSteps[1..], ios[1..], s1);
    SeriesContinues(c, s, ApiSteps, ios, s);
  }

  /**
   * Cross-process throttling: after an API sync ran to the end, any instance
   * using the same key and store (this one included) that checks before
   * reservation time + apiInterval aborts at once, without fetching.
   */
  lemma ReservationThrottles(c: Config, s: State, ios: seq<Io>, n: int, other: State, later: seq<Io>)
    requires |ios| == 5 && |later| == 5
    requires forall i | 0 <= i < 5 :: ios[i].fault.None?
    requires GetNextCheckTimeStep(c, s, ios[0]) == Continue
    requires c.apiInterval == Some(n) && KeysApart(c.keys)
    requires other.entries == SyncedEntries(c, s, ios)
    requires later[0].fault.None? && later[0].now < ios[1].now + n
    ensures Series(c, other, ApiSteps, later) == Run(Abort, other, 1)
  {
    SyncedReads(c, s, ios);
    DueAgainstStoredTime(c, other, later[0], ios[1].now + n);
    ApiSyncStopsWhenNotDue(c, other, later);
  }

  /** `set` with a well-formed value keeps the attributes well formed. */
  lemma SetWellFormed(attrs: Fields, data: Json)
    requires WellFormedFields(attrs) && WellFormed(data)
    ensures WellFormedFields(Merge(attrs, data))
  {
    if data.Obj? {
      MergeWellFormed(attrs, data.members);
    }
  }

  /**
   * Cross-process sharing: after one instance's API sync ran to the end,
   * a store sync of any instance with the same key whose data is older
   * loads exactly the attributes the API sync persisted.
   */
  lemma StoreSyncSeesApiData(c: Config, s: State, ios: seq<Io>, c2: Config, other: State, later: seq<Io>)
    requires |ios| == 5 && |later| == 2
    requires forall i | 0 <= i < 5 :: ios[i].fault.None?
    requires GetNextCheckTimeStep(c, s, ios[0]) == Continue
    requires KeysApart(c.keys) && c2.keys == c.keys
    requires WellFormedFields(s.attributes) && WellFormed(ios[2].fetched)
    requires other.entries == SyncedEntries(c, s, ios)
    requires other.lastModified == 0 || (ios[2].now != 0 && ios[2].now > other.lastModified)
    requires later[0].fault.None? && later[1].fault.None?
    ensures Series(c2, other, StoreSteps, later)
      == Run(Continue, other.(lastModified := later[1].now,
                              attributes := MergeFields(other.attributes, Merge(s.attributes, Parse(ios[2].fetched)))), 2)
  {
    var attrs := Merge(s.attributes, Parse(ios[2].fetched));
    SetWellFormed(s.attributes, Parse(ios[2].fetched));
    SyncedReads(c, s, ios);
    if other.lastModified != 0 {
      CheckAgainstStoredTime(c2, other, later[0], ios[2].now);
    }
    LoadStoredFields(c2, other, later[1], attrs);
    StoreSyncLoads(c2, other, later);
  }

  /**
   * An instance already holding data as recent as the persisted time
   * aborts its store sync and keeps its attributes.
   */
  lemma StoreSyncSkipsOlderData(c: Config, s: State, ios: seq<Io>, c2: Config, other: State, later: seq<Io>)
    requires |ios| == 5 && |later| == 2
    requires c2.keys == c.keys
    requires other.entries == SyncedEntries(c, s, ios)
    requires other.lastModified != 0 && other.lastModified >= ios[2].now
    requires later[0].fault.None?
    ensures Series(c2, other, StoreSteps, later) == Run(Abort, other, 1)
  {
    assert Read(other.entries, c.keys.lastModified) == Render(ios[2].now);
    CheckAgainstStoredTime(c2, other, later[0], ios[2].now);
    StoreSyncStopsAtCheck(c2, other, later);
  }

  /** What each of the three entries reads after an API sync that ran to the end. */
  lemma SyncedReads(c: Config, s: State, ios: seq<Io>)
    requires |ios| == 5 && KeysApart(c.keys)
    ensures Read(SyncedEntries(c, s, ios), c.keys.nextCheck) == Reservation(ios[1].now, c.apiInterval)
    ensures Read(SyncedEntries(c, s, ios), c.keys.data) == Encode(Obj(Merge(s.attributes, Parse(ios[2].fetched))))
    ensures Read(SyncedEntries(c, s, ios), c.keys.lastModified) == Render(ios[2].now)
  {
  }
}
