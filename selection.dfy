/**
 * The weather-aware selection of `retrieveActivity`, as a function of its
 * inputs and of the outside world, and what it guarantees.
 *
 * One call draws a random slot of the candidate list. When the request is
 * not weather-sensitive it returns that candidate. Otherwise it reads the
 * candidate's postcode from the cache (fetching and storing the weather on a
 * miss), returns the candidate unless the weather is bad, gives up with the
 * zero activity on a cache read error, and on bad weather deletes the slot
 * and starts again on the shorter list. There is no attempt ceiling: once
 * the list is empty the random draw panics.
 */
module Selection {
  import opened Wrappers
  import opened Slices
  import opened Weather

  /** One row of the activities table. */
  datatype Activity = Activity(name: string, postcode: string, sunny: bool)

  /** Go's zero value `Activities{}`. */
  const Zero: Activity := Activity("", "", false)

  /** How the weather of one drawn candidate was obtained. */
  datatype Lookup =
    | Skipped                                  // not weather-sensitive: no lookup at all
    | Hit(condition: string)                   // found in the cache
    | Miss(condition: string, stored: bool)    // fetched; `stored` tells whether the write succeeded
    | ReadFailed(err: string)                  // a cache error other than a miss
  {
    /** The candidate is turned down and the selection goes on. */
    predicate Rejects()
      ensures Rejects() <==> (Hit? || Miss?) && condition in BadConditions
      ensures Rejects() ==> !Skipped? && !ReadFailed?
    {
      (Hit? || Miss?) && IsBad(condition)
    }
  }

  /** One draw: the slot of the ORIGINAL list it hit, the candidate and its lookup. */
  datatype Draw = Draw(slot: nat, activity: Activity, lookup: Lookup)

  /** What a call does: return `(activity, err)`, or panic in `Intn(0)`. */
  datatype Outcome = Returned(activity: Activity, err: Option<string>) | Panicked

  /**
   * The world outside the code, indexed by attempt number `k` (0 for the first
   * draw): the random slot for a list of a given size, whether the cache read
   * fails with an error other than a miss, and whether the cache write fails.
   */
  datatype Oracles = Oracles(pick: (nat, nat) -> nat, readFault: nat -> Option<string>, writeFails: nat -> bool)
  {
    /** `Intn(size)` answers in `[0, size)`. */
    ghost predicate Valid()
    {
      forall k: nat, size: nat :: 0 < size ==> pick(k, size) < size
    }
  }

  /**
   * The state between two draws. `buf` is the backing array of the candidate
   * slice and its first `len` slots are the candidates still in play; `slots`
   * says which slot of the original list each of them came from. `discarded`
   * and `draws` record the run so far, and `cache` is the cache's content.
   */
  datatype State = State(
    buf: seq<Activity>,
    len: nat,
    slots: seq<nat>,
    discarded: seq<Activity>,
    cache: map<string, string>,
    draws: seq<Draw>)
  {
    predicate Valid()
    {
      len <= |buf| && |slots| == len
    }

    /** The candidate slice. */
    function Pool(): seq<Activity>
      requires Valid()
    {
      buf[..len]
    }
  }

  /** How a run ended, and the state it ended in. */
  datatype Run = Run(outcome: Outcome, final: State)

  /** The cache read (and, on a miss, fetch and write) for one postcode. */
  datatype Access = Access(lookup: Lookup, cache: map<string, string>)

  /**
   * The cache-aside step. A read error leaves everything as it was. A hit
   * uses the stored condition and writes nothing. A miss fetches the
   * condition and stores it whatever it is, unless the write fails.
   */
  function CacheAside(cache: map<string, string>, key: string, fault: Option<string>,
                      writeFails: bool, weather: string -> string): (a: Access)
    ensures !a.lookup.Skipped?
    ensures a.lookup.ReadFailed? <==> fault.Some?
    ensures a.lookup.ReadFailed? ==> a.lookup.err == fault.value && a.cache == cache
    ensures a.lookup.Hit? <==> fault.None? && key in cache
    ensures a.lookup.Hit? ==> a.lookup.condition == cache[key] && a.cache == cache
    ensures a.lookup.Miss? ==> a.lookup.condition == weather(key) && a.lookup.stored == !writeFails
    ensures a.lookup.Miss? ==> a.cache == if a.lookup.stored then cache[key := weather(key)] else cache
  {
    match fault
    case Some(e) => Access(ReadFailed(e), cache)
    case None =>
      if key in cache then Access(Hit(cache[key]), cache)
      else
        var condition := weather(key);
        Access(Miss(condition, !writeFails), if writeFails then cache else cache[key := condition])
  }

  /** The slot drawn in state `s`. */
  function Choice(s: State, o: Oracles): (i: nat)
    requires s.Valid() && o.Valid() && 0 < s.len
    ensures i < s.len
  {
    o.pick(|s.draws|, s.len)
  }

  /** The weather lookup for the candidate in slot `i`, if the request needs one. */
  function Consult(s: State, i: nat, sunny: bool, o: Oracles, weather: string -> string): (a: Access)
    requires s.Valid() && i < s.len
    ensures !sunny <==> a.lookup.Skipped?
    ensures !sunny ==> a.cache == s.cache
  {
    if !sunny then Access(Skipped, s.cache)
    else CacheAside(s.cache, s.buf[i].postcode, o.readFault(|s.draws|), o.writeFails(|s.draws|), weather)
  }

  /** The state once the draw of slot `i` and its lookup have happened. */
  function Record(s: State, i: nat, a: Access): (t: State)
    requires s.Valid() && i < s.len
    ensures t.Valid()
  {
    s.(cache := a.cache, draws := s.draws + [Draw(s.slots[i], s.buf[i], a.lookup)])
  }

  /** The state once the candidate in slot `i` has been moved to the discarded list. */
  function Discard(s: State, i: nat): (t: State)
    requires s.Valid() && i < s.len
    ensures t.Valid() && t.len == s.len - 1
  {
    s.(buf := RemoveAt(s.buf, s.len, i), len := s.len - 1,
       slots := Without(s.slots, i), discarded := s.discarded + [s.buf[i]])
  }

  /** The value returned when the candidate `c` is not rejected. */
  function Verdict(c: Activity, lookup: Lookup): (r: Outcome)
    ensures r.Returned?
    ensures r.err.Some? <==> lookup.ReadFailed?
    ensures lookup.ReadFailed? ==> r.activity == Zero && r.err.value == lookup.err
    ensures !lookup.ReadFailed? ==> r.activity == c
  {
    if lookup.ReadFailed? then Returned(Zero, Some(lookup.err)) else Returned(c, None)
  }

  /** One call of `retrieveActivity` and all the calls it makes, from state `s`. */
  function Retrieve(s: State, sunny: bool, o: Oracles, weather: string -> string): (r: Run)
    requires s.Valid() && o.Valid()
    ensures r.final.Valid()
    decreases s.len
  {
    if s.len == 0 then Run(Panicked, s)
    else
      var i := Choice(s, o);
      var a := Consult(s, i, sunny, o, weather);
      var t := Record(s, i, a);
      if a.lookup.Rejects() then Retrieve(Discard(t, i), sunny, o, weather)
      else Run(Verdict(s.buf[i], a.lookup), t)
  }

  /** One draw of Retrieve, spelled out for the loop that implements it. */
  lemma RetrieveStep(s: State, sunny: bool, o: Oracles, weather: string -> string)
    requires s.Valid() && o.Valid() && 0 < s.len
    ensures var i := Choice(s, o);
      var a := Consult(s, i, sunny, o, weather);
      var t := Record(s, i, a);
      Retrieve(s, sunny, o, weather) ==
        if a.lookup.Rejects() then Retrieve(Discard(t, i), sunny, o, weather)
        else Run(Verdict(s.buf[i], a.lookup), t)
  {
  }

  /** The state a top-level call starts in: the first `n` slots of `buf`, nothing discarded. */
  function Initial(buf: seq<Activity>, n: nat, cache: map<string, string>): (s: State)
    requires n <= |buf|
    ensures s.Valid() && s.Pool() == buf[..n]
    ensures s.discarded == [] && s.draws == [] && s.cache == cache
  {
    State(buf, n, Range(n), [], cache, [])
  }

  /** A top-level call, as `getSunnyActivity` and `getNotSunnyActivities` make it. */
  function Start(buf: seq<Activity>, n: nat, cache: map<string, string>, sunny: bool,
                 o: Oracles, weather: string -> string): (r: Run)
    requires n <= |buf| && o.Valid()
    ensures r.final.Valid() && r.final.len <= n
    ensures n == 0 ==> r.outcome == Panicked
    ensures !sunny ==> r.final.cache == cache
  {
    HistoryRetrieve(Initial(buf, n, cache), sunny, o, weather);
    Retrieve(Initial(buf, n, cache), sunny, o, weather)
  }

  // ---------------------------------------------------------------------------
  // Run shape: which draws were rejections and what was returned

  /** Every draw so far was a rejection of the activity that was then discarded. */
  ghost predicate History(s: State)
  {
    && |s.discarded| == |s.draws|
    && (forall j :: 0 <= j < |s.draws| ==>
          s.draws[j].activity == s.discarded[j] && s.draws[j].lookup.Rejects())
  }

  lemma {:induction false} HistoryRetrieve(s: State, sunny: bool, o: Oracles, weather: string -> string)
    requires s.Valid() && o.Valid() && History(s)
    ensures var r := Retrieve(s, sunny, o, weather);
      && (r.outcome.Panicked? <==> r.final.len == 0)
      && (r.outcome.Panicked? ==> History(r.final))
      && (!r.outcome.Panicked? ==>
            && |r.final.draws| == |r.final.discarded| + 1
            && History(r.final.(draws := r.final.draws[..|r.final.discarded|]))
            && var last := r.final.draws[|r.final.discarded|];
               && !last.lookup.Rejects() && r.outcome == Verdict(last.activity, last.lookup)
               && (last.lookup.Skipped? <==> !sunny))
      && r.final.len <= s.len
      && |r.final.discarded| == |s.discarded| + (s.len - r.final.len)
    decreases s.len
  {
    if s.len > 0 {
      var i := Choice(s, o);
      var a := Consult(s, i, sunny, o, weather);
      var t := Record(s, i, a);
      if a.lookup.Rejects() {
        HistoryRetrieve(Discard(t, i), sunny, o, weather);
      } else {
        assert t.draws[..|t.discarded|] == s.draws;
      }
    }
  }

  // ---------------------------------------------------------------------------
  // Slots: no slot of the original list is drawn twice

  /** Every draw took a distinct slot of the original list and got the activity stored there. */
  ghost predicate DrawsFrom(draws: seq<Draw>, buf0: seq<Activity>, n0: nat)
  {
    && (forall d :: 0 <= d < |draws| ==> draws[d].slot < n0 <= |buf0| && draws[d].activity == buf0[draws[d].slot])
    && (forall d, e :: 0 <= d < e < |draws| ==> draws[d].slot != draws[e].slot)
  }

  /** The pool holds distinct slots of the original list, none of them drawn yet. */
  ghost predicate Tracked(s: State, buf0: seq<Activity>, n0: nat)
  {
    && s.Valid()
    && DrawsFrom(s.draws, buf0, n0)
    && (forall j :: 0 <= j < s.len ==> s.slots[j] < n0 <= |buf0| && s.buf[j] == buf0[s.slots[j]])
    && (forall j, l :: 0 <= j < l < s.len ==> s.slots[j] != s.slots[l])
    && (forall d, j :: 0 <= d < |s.draws| && 0 <= j < s.len ==> s.draws[d].slot != s.slots[j])
  }

  lemma TrackedRecord(s: State, i: nat, a: Access, buf0: seq<Activity>, n0: nat)
    requires Tracked(s, buf0, n0) && i < s.len
    ensures DrawsFrom(Record(s, i, a).draws, buf0, n0)
  {
  }

  lemma TrackedDiscard(s: State, i: nat, a: Access, buf0: seq<Activity>, n0: nat)
    requires Tracked(s, buf0, n0) && i < s.len
    ensures Tracked(Discard(Record(s, i, a), i), buf0, n0)
  {
    var t := Discard(Record(s, i, a), i);
    forall j, l | 0 <= j < l < t.len
      ensures t.slots[j] != t.slots[l]
    {
      var j' := if j < i then j else j + 1;
      var l' := if l < i then l else l + 1;
      assert t.slots[j] == s.slots[j'] && t.slots[l] == s.slots[l'] && j' < l';
    }
    forall d, j | 0 <= d < |t.draws| && 0 <= j < t.len
      ensures t.draws[d].slot != t.slots[j]
    {
      var j' := if j < i then j else j + 1;
      assert t.slots[j] == s.slots[j'] && j' != i;
    }
  }

  lemma {:induction false} TrackedRetrieve(s: State, sunny: bool, o: Oracles, weather: string -> string,
                                          buf0: seq<Activity>, n0: nat)
    requires o.Valid() && Tracked(s, buf0, n0)
    ensures DrawsFrom(Retrieve(s, sunny, o, weather).final.draws, buf0, n0)
    decreases s.len
  {
    if s.len > 0 {
      var i := Choice(s, o);
      var a := Consult(s, i, sunny, o, weather);
      if a.lookup.Rejects() {
        TrackedDiscard(s, i, a, buf0, n0);
        TrackedRetrieve(Discard(Record(s, i, a), i), sunny, o, weather, buf0, n0);
      } else {
        TrackedRecord(s, i, a, buf0, n0);
      }
    }
  }

  lemma TrackedInitial(buf: seq<Activity>, n: nat, cache: map<string, string>)
    requires n <= |buf|
    ensures Tracked(Initial(buf, n, cache), buf, n)
  {
  }

  // ---------------------------------------------------------------------------
  // Conservation: the remaining pool and the discarded list make up the original list

  lemma {:induction false} ConservedRetrieve(s: State, sunny: bool, o: Oracles, weather: string -> string)
    requires s.Valid() && o.Valid()
    ensures var r := Retrieve(s, sunny, o, weather);
      multiset(r.final.Pool()) + multiset(r.final.discarded) == multiset(s.Pool()) + multiset(s.discarded)
    decreases s.len
  {
    if s.len > 0 {
      var i := Choice(s, o);
      var a := Consult(s, i, sunny, o, weather);
      var t := Record(s, i, a);
      if a.lookup.Rejects() {
        var u := Discard(t, i);
        RemoveAtPrefix(s.buf, s.len, i);
        WithoutMultiset(s.Pool(), i);
        assert u.Pool() == Without(s.Pool(), i);
        ConservedRetrieve(u, sunny, o, weather);
      }
    }
  }

  // ---------------------------------------------------------------------------
  // The cache: its content follows the initial cache and the weather

  /** The condition a postcode has in a run: the initially cached one, else the fetched one. */
  function Forecast(cache0: map<string, string>, weather: string -> string, postcode: string): string
  {
    if postcode in cache0 then cache0[postcode] else weather(postcode)
  }

  /** Postcodes whose fetched condition was written to the cache. */
  function StoredKeys(draws: seq<Draw>): set<string>
  {
    if |draws| == 0 then {}
    else
      var d := draws[|draws| - 1];
      StoredKeys(draws[..|draws| - 1]) + (if d.lookup.Miss? && d.lookup.stored then {d.activity.postcode} else {})
  }

  /** Postcodes sent to the weather provider, in order. */
  function Fetched(draws: seq<Draw>): seq<string>
  {
    if |draws| == 0 then []
    else
      var d := draws[|draws| - 1];
      Fetched(draws[..|draws| - 1]) + (if d.lookup.Miss? then [d.activity.postcode] else [])
  }

  lemma AppendDraw(draws: seq<Draw>, d: Draw)
    ensures StoredKeys(draws + [d]) == StoredKeys(draws) + (if d.lookup.Miss? && d.lookup.stored then {d.activity.postcode} else {})
    ensures Fetched(draws + [d]) == Fetched(draws) + (if d.lookup.Miss? then [d.activity.postcode] else [])
  {
    assert (draws + [d])[..|draws|] == draws;
  }

  /**
   * The cache holds the initial entries plus the stored fetches, each with
   * its postcode's forecast, and every condition looked up so far was the
   * forecast of its postcode.
   */
  ghost predicate CacheAgrees(s: State, cache0: map<string, string>, weather: string -> string)
  {
    && s.cache.Keys == cache0.Keys + StoredKeys(s.draws)
    && (forall p :: p in s.cache ==> s.cache[p] == Forecast(cache0, weather, p))
    && (forall d :: 0 <= d < |s.draws| && (s.draws[d].lookup.Hit? || s.draws[d].lookup.Miss?) ==>
          s.draws[d].lookup.condition == Forecast(cache0, weather, s.draws[d].activity.postcode))
    && (forall d :: 0 <= d < |s.draws| && s.draws[d].lookup.Miss? ==> s.draws[d].activity.postcode !in cache0)
  }

  /** One draw keeps the cache in agreement; a looked-up condition is the forecast. */
  lemma CacheAgreesRecord(s: State, i: nat, sunny: bool, o: Oracles, weather: string -> string, cache0: map<string, string>)
    requires s.Valid() && i < s.len && CacheAgrees(s, cache0, weather)
    ensures var a := Consult(s, i, sunny, o, weather);
      && CacheAgrees(Record(s, i, a), cache0, weather)
      && ((a.lookup.Hit? || a.lookup.Miss?) ==> a.lookup.condition == Forecast(cache0, weather, s.buf[i].postcode))
  {
    var a := Consult(s, i, sunny, o, weather);
    AppendDraw(s.draws, Draw(s.slots[i], s.buf[i], a.lookup));
  }

  lemma {:induction false} CacheRetrieve(s: State, sunny: bool, o: Oracles, weather: string -> string, cache0: map<string, string>)
    requires s.Valid() && o.Valid() && CacheAgrees(s, cache0, weather)
    ensures CacheAgrees(Retrieve(s, sunny, o, weather).final, cache0, weather)
    decreases s.len
  {
    if s.len > 0 {
      var i := Choice(s, o);
      var a := Consult(s, i, sunny, o, weather);
      CacheAgreesRecord(s, i, sunny, o, weather, cache0);
      if a.lookup.Rejects() {
        CacheRetrieve(Discard(Record(s, i, a), i), sunny, o, weather, cache0);
      }
    }
  }

  // ---------------------------------------------------------------------------
  // The failed cache write is ignored

  /**
   * Two runs that differ only in which cache writes fail: same list, same
   * draws so far, and caches that both agree with the same forecast.
   */
  ghost predicate SameExceptWrites(s1: State, s2: State, cache0: map<string, string>, weather: string -> string)
  {
    && s1.buf == s2.buf && s1.len == s2.len && s1.slots == s2.slots
    && s1.discarded == s2.discarded && |s1.draws| == |s2.draws|
    && cache0.Keys <= s1.cache.Keys && (forall p :: p in s1.cache ==> s1.cache[p] == Forecast(cache0, weather, p))
    && cache0.Keys <= s2.cache.Keys && (forall p :: p in s2.cache ==> s2.cache[p] == Forecast(cache0, weather, p))
  }

  lemma {:induction false} WritesIgnoredRetrieve(s1: State, s2: State, sunny: bool, o: Oracles, wf: nat -> bool,
                                                 weather: string -> string, cache0: map<string, string>)
    requires s1.Valid() && s2.Valid() && o.Valid() && SameExceptWrites(s1, s2, cache0, weather)
    ensures var r1 := Retrieve(s1, sunny, o, weather);
      var r2 := Retrieve(s2, sunny, o.(writeFails := wf), weather);
      && r1.outcome == r2.outcome
      && r1.final.buf == r2.final.buf && r1.final.len == r2.final.len
      && r1.final.discarded == r2.final.discarded && |r1.final.draws| == |r2.final.draws|
    decreases s1.len
  {
    var o2 := o.(writeFails := wf);
    if s1.len > 0 {
      var i := Choice(s1, o);
      assert i == Choice(s2, o2);
      var a1 := Consult(s1, i, sunny, o, weather);
      var a2 := Consult(s2, i, sunny, o2, weather);
      assert a1.lookup.Rejects() == a2.lookup.Rejects();
      if a1.lookup.Rejects() {
        WritesIgnoredRetrieve(Discard(Record(s1, i, a1), i), Discard(Record(s2, i, a2), i), sunny, o, wf, weather, cache0);
      } else {
        assert Verdict(s1.buf[i], a1.lookup) == Verdict(s2.buf[i], a2.lookup);
      }
    }
  }

  // ---------------------------------------------------------------------------
  // Properties of a top-level call

  /** With an empty candidate list the first draw panics (`Intn(0)`), in either mode. */
  lemma EmptyListPanics(buf: seq<Activity>, cache: map<string, string>, sunny: bool, o: Oracles, weather: string -> string)
    requires o.Valid()
    ensures var r := Start(buf, 0, cache, sunny, o, weather);
      r.outcome == Panicked && r.final.draws == [] && r.final.cache == cache
  {
  }

  /**
   * Not weather-sensitive: exactly one draw, the drawn candidate is returned
   * with a nil error, and the cache is neither read nor written.
   */
  lemma NotSunnyTakesFirstDraw(buf: seq<Activity>, n: nat, cache: map<string, string>, o: Oracles, weather: string -> string)
    requires 0 < n <= |buf| && o.Valid()
    ensures var r := Start(buf, n, cache, false, o, weather);
      && r.outcome == Returned(buf[o.pick(0, n)], None)
      && r.final.cache == cache
      && |r.final.draws| == 1 && r.final.draws[0].lookup == Skipped
      && Fetched(r.final.draws) == []
  {
    var r := Start(buf, n, cache, false, o, weather);
    assert r.final.draws == [] + [r.final.draws[0]];
  }

  /**
   * A run makes at most one draw per candidate; it panics only after every
   * candidate was rejected, and every draw but the last is a rejection.
   */
  lemma DrawsBounded(buf: seq<Activity>, n: nat, cache: map<string, string>, sunny: bool, o: Oracles, weather: string -> string)
    requires n <= |buf| && o.Valid()
    ensures var r := Start(buf, n, cache, sunny, o, weather);
      && (0 < n ==> 1 <= |r.final.draws|) && |r.final.draws| <= n
      && (r.outcome.Panicked? <==> (|r.final.discarded| == n && r.final.Pool() == []))
      && (forall d :: 0 <= d < |r.final.draws| - 1 ==> r.final.draws[d].lookup.Rejects())
      && (r.outcome.Panicked? ==> forall d :: 0 <= d < |r.final.draws| ==> r.final.draws[d].lookup.Rejects())
  {
    HistoryRetrieve(Initial(buf, n, cache), sunny, o, weather);
    var r := Start(buf, n, cache, sunny, o, weather);
    if !r.outcome.Panicked? {
      var k := |r.final.discarded|;
      assert forall d :: 0 <= d < k ==> r.final.draws[d] == r.final.draws[..k][d];
    }
  }

  /** No slot of the original list is drawn twice, and each draw got that slot's activity. */
  lemma NoSlotDrawnTwice(buf: seq<Activity>, n: nat, cache: map<string, string>, sunny: bool, o: Oracles, weather: string -> string)
    requires n <= |buf| && o.Valid()
    ensures var r := Start(buf, n, cache, sunny, o, weather);
      && (forall d :: 0 <= d < |r.final.draws| ==> r.final.draws[d].slot < n && r.final.draws[d].activity == buf[r.final.draws[d].slot])
      && (forall d, e :: 0 <= d < e < |r.final.draws| ==> r.final.draws[d].slot != r.final.draws[e].slot)
  {
    TrackedInitial(buf, n, cache);
    TrackedRetrieve(Initial(buf, n, cache), sunny, o, weather, buf, n);
  }

  /** The remaining pool and the discarded list together are the original list. */
  lemma NothingLostOrDuplicated(buf: seq<Activity>, n: nat, cache: map<string, string>, sunny: bool, o: Oracles, weather: string -> string)
    requires n <= |buf| && o.Valid()
    ensures var r := Start(buf, n, cache, sunny, o, weather);
      multiset(r.final.Pool()) + multiset(r.final.discarded) == multiset(buf[..n])
  {
    ConservedRetrieve(Initial(buf, n, cache), sunny, o, weather);
  }

  /**
   * The final cache is the initial cache plus every fetched condition whose
   * write succeeded, good or bad; nothing already cached is overwritten; and
   * every condition a draw used is its postcode's forecast.
   */
  lemma CacheAsideRun(buf: seq<Activity>, n: nat, cache: map<string, string>, sunny: bool, o: Oracles, weather: string -> string)
    requires n <= |buf| && o.Valid()
    ensures var r := Start(buf, n, cache, sunny, o, weather);
      && r.final.cache.Keys == cache.Keys + StoredKeys(r.final.draws)
      && (forall p :: p in cache ==> r.final.cache[p] == cache[p])
      && (forall p :: p in r.final.cache && p !in cache ==> r.final.cache[p] == weather(p))
      && (forall d :: 0 <= d < |r.final.draws| && r.final.draws[d].lookup.Miss? ==>
            r.final.draws[d].activity.postcode !in cache && r.final.draws[d].lookup.condition == weather(r.final.draws[d].activity.postcode))
      && (forall d :: 0 <= d < |r.final.draws| && r.final.draws[d].lookup.Hit? ==>
            r.final.draws[d].lookup.condition == Forecast(cache, weather, r.final.draws[d].activity.postcode))
  {
    var s := Initial(buf, n, cache);
    CacheRetrieve(s, sunny, o, weather, cache);
    var r := Retrieve(s, sunny, o, weather);
    assert CacheAgrees(r.final, cache, weather);
  }

  /**
   * A call that returns a nil error in weather-sensitive mode returns a
   * candidate of the original list whose condition is good, and no
   * discarded candidate shares its postcode (so it is not itself discarded).
   */
  lemma AcceptedIsGoodWeather(buf: seq<Activity>, n: nat, cache: map<string, string>, o: Oracles, weather: string -> string)
    requires n <= |buf| && o.Valid()
    ensures var r := Start(buf, n, cache, true, o, weather);
      r.outcome.Returned? && r.outcome.err.None? ==>
        && r.outcome.activity in buf[..n]
        && !IsBad(Forecast(cache, weather, r.outcome.activity.postcode))
        && (forall j :: 0 <= j < |r.final.discarded| ==> r.final.discarded[j].postcode != r.outcome.activity.postcode)
        && r.outcome.activity !in r.final.discarded
  {
    var s := Initial(buf, n, cache);
    HistoryRetrieve(s, true, o, weather);
    CacheRetrieve(s, true, o, weather, cache);
    TrackedInitial(buf, n, cache);
    TrackedRetrieve(s, true, o, weather, buf, n);
    var r := Retrieve(s, true, o, weather);
    if r.outcome.Returned? && r.outcome.err.None? {
      AcceptedFromHistory(r, buf, n, cache, weather);
    }
  }

  /** The reasoning behind AcceptedIsGoodWeather, on the facts proved about the run. */
  lemma AcceptedFromHistory(r: Run, buf: seq<Activity>, n: nat, cache: map<string, string>, weather: string -> string)
    requires r.outcome.Returned? && r.outcome.err.None?
    requires |r.final.draws| == |r.final.discarded| + 1
    requires History(r.final.(draws := r.final.draws[..|r.final.discarded|]))
    requires var last := r.final.draws[|r.final.discarded|];
      !last.lookup.Rejects() && !last.lookup.Skipped? && r.outcome == Verdict(last.activity, last.lookup)
    requires CacheAgrees(r.final, cache, weather)
    requires DrawsFrom(r.final.draws, buf, n)
    ensures r.outcome.activity in buf[..n]
    ensures !IsBad(Forecast(cache, weather, r.outcome.activity.postcode))
    ensures forall j :: 0 <= j < |r.final.discarded| ==> r.final.discarded[j].postcode != r.outcome.activity.postcode
    ensures r.outcome.activity !in r.final.discarded
  {
    var k := |r.final.discarded|;
    var last := r.final.draws[k];
    assert buf[..n][last.slot] == buf[last.slot];
    forall j | 0 <= j < k
      ensures r.final.discarded[j].postcode != last.activity.postcode
    {
      assert r.final.draws[..k][j] == r.final.draws[j];
    }
  }

  /**
   * A cache read error other than a miss ends the run at once: the zero
   * activity is returned with that error, it is the last draw, and every
   * earlier draw was a weather rejection.
   */
  lemma ReadErrorAborts(buf: seq<Activity>, n: nat, cache: map<string, string>, sunny: bool, o: Oracles, weather: string -> string)
    requires n <= |buf| && o.Valid()
    ensures var r := Start(buf, n, cache, sunny, o, weather);
      && (r.outcome.Returned? && r.outcome.err.Some? <==>
            |r.final.draws| > 0 && r.final.draws[|r.final.draws| - 1].lookup.ReadFailed?)
      && (r.outcome.Returned? && r.outcome.err.Some? ==>
            && r.outcome.activity == Zero
            && r.outcome.err.value == r.final.draws[|r.final.draws| - 1].lookup.err
            && o.readFault(|r.final.draws| - 1) == r.outcome.err)
      && (forall d :: 0 <= d < |r.final.draws| - 1 ==> !r.final.draws[d].lookup.ReadFailed?)
  {
    var s := Initial(buf, n, cache);
    var r := Start(buf, n, cache, sunny, o, weather);
    HistoryRetrieve(s, sunny, o, weather);
    ReadErrorIsLastDraw(s, sunny, o, weather);
    DrawsBounded(buf, n, cache, sunny, o, weather);
  }

  /** The lookup of draw number `k` used the oracles of attempt `k`. */
  lemma {:induction false} ReadErrorIsLastDraw(s: State, sunny: bool, o: Oracles, weather: string -> string)
    requires s.Valid() && o.Valid()
    ensures var r := Retrieve(s, sunny, o, weather);
      && |s.draws| <= |r.final.draws| && r.final.draws[..|s.draws|] == s.draws
      && (forall d :: |s.draws| <= d < |r.final.draws| && r.final.draws[d].lookup.ReadFailed? ==>
            o.readFault(d) == Some(r.final.draws[d].lookup.err))
    decreases s.len
  {
    if s.len > 0 {
      var i := Choice(s, o);
      var a := Consult(s, i, sunny, o, weather);
      var t := Record(s, i, a);
      assert t.draws == s.draws + [Draw(s.slots[i], s.buf[i], a.lookup)];
      if a.lookup.Rejects() {
        var u := Discard(t, i);
        ReadErrorIsLastDraw(u, sunny, o, weather);
        var r := Retrieve(u, sunny, o, weather);
        assert r == Retrieve(s, sunny, o, weather);
        assert u.draws[..|s.draws|] == s.draws;
        assert r.final.draws[..|s.draws|] == u.draws[..|s.draws|];
      }
    }
  }

  /**
   * Whether cache writes fail changes nothing about the result: the same
   * outcome, the same remaining list and the same discarded list.
   */
  lemma WriteErrorsIgnored(buf: seq<Activity>, n: nat, cache: map<string, string>, sunny: bool, o: Oracles,
                           wf: nat -> bool, weather: string -> string)
    requires n <= |buf| && o.Valid()
    ensures var r1 := Start(buf, n, cache, sunny, o, weather);
      var r2 := Start(buf, n, cache, sunny, o.(writeFails := wf), weather);
      && r1.outcome == r2.outcome
      && r1.final.buf == r2.final.buf && r1.final.Pool() == r2.final.Pool()
      && r1.final.discarded == r2.final.discarded
      && |r1.final.draws| == |r2.final.draws|
  {
    var s := Initial(buf, n, cache);
    WritesIgnoredRetrieve(s, s, sunny, o, wf, weather, cache);
  }

  /** One good-weather candidate and an empty cache: it is returned and its condition cached. */
  lemma SunnyCandidateChosen(o: Oracles)
    requires o.Valid() && o.readFault(0).None? && !o.writeFails(0)
    ensures var golf := Activity("mini golf", "Craigavon", true);
      var r := Start([golf], 1, map[], true, o, p => "Clear");
      r.outcome == Returned(golf, None) && r.final.cache == map["Craigavon" := "Clear"]
  {
    assert o.pick(0, 1) == 0;
  }

  /** One bad-weather candidate: it is rejected and the next draw, on an empty list, panics. */
  lemma RainyCandidatePanics(o: Oracles)
    requires o.Valid() && o.readFault(0).None?
    ensures var cinema := Activity("cinema", "Lisburn", false);
      var r := Start([cinema], 1, map[], true, o, p => "Rain");
      r.outcome == Panicked && r.final.discarded == [cinema] && |r.final.draws| == 1
  {
    assert o.pick(0, 1) == 0;
  }
}
