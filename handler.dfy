/**
 * The request handler's selection routine over the real, mutable things:
 * the candidate slice's backing array, the Redis client and the weather
 * provider. The recursion of `retrieveActivity` is a loop whose measure is
 * the slice length, and the method is proved to do exactly what
 * `Selection.Start` describes.
 */
module Handlers {
  import opened Wrappers
  import opened Slices
  import opened Weather
  import opened Selection
  import Redis

  class Handler {
    const redis: Redis.Client
    const api: WeatherApi

    constructor (redis: Redis.Client, api: WeatherApi)
      ensures this.redis == redis && this.api == api
    {
      this.redis := redis;
      this.api := api;
    }

    /**
     * `append(s[:index], s[index+1:]...)` on the slice `a[..len]`: the tail
     * moves one slot left inside the same array and the slice gets one shorter.
     */
    method RemoveIndex(a: array<Activity>, len: nat, index: nat) returns (newLen: nat)
      requires index < len <= a.Length
      modifies a
      ensures newLen == len - 1
      ensures a[..] == RemoveAt(old(a[..]), len, index)
      ensures a[..newLen] == Without(old(a[..len]), index)
    {
      var j := index;
      while j < len - 1
        invariant index <= j <= len - 1
        invariant forall m :: 0 <= m < index ==> a[m] == old(a[m])
        invariant forall m :: index <= m < j ==> a[m] == old(a[m + 1])
        invariant forall m :: j <= m < a.Length ==> a[m] == old(a[m])
      {
        a[j] := a[j + 1];
        j := j + 1;
      }
      newLen := len - 1;
      assert a[..] == RemoveAt(old(a[..]), len, index);
      RemoveAtPrefix(old(a[..]), len, index);
    }

    /**
     * The cache-aside path of activities.go:136-141: read the cache and, on a miss, fetch the
     * weather and write it back, ignoring the write's error.
     */
    method LookUp(key: string, fault: Option<string>, writeFails: bool) returns (lookup: Lookup)
      modifies redis, api
      ensures var access := CacheAside(old(redis.store), key, fault, writeFails, api.classify);
        && lookup == access.lookup
        && redis.store == access.cache
        && api.requests == old(api.requests) + (if lookup.Miss? then [key] else [])
    {
      var reply := redis.Get(key, fault);
      match reply
      case Error(e) =>
        lookup := ReadFailed(e);
      case Nil =>
        var condition := api.GetWeather(key);
        var ignored := redis.Set(key, condition, writeFails);
        lookup := Miss(condition, ignored.None?);
      case Value(v) =>
        lookup := Hit(v);
    }

    /**
     * One call of `retrieveActivity` up to its recursive call: draw, look up,
     * and either finish or delete the rejected slot. The state `s` describes
     * the slice, the cache and the run so far before the draw.
     */
    method Attempt(a: array<Activity>, len: nat, attempt: nat, sunny: bool, o: Oracles,
                   ghost s: State, ghost base: seq<string>)
      returns (done: bool, result: Outcome, newLen: nat, ghost t: State)
      requires o.Valid() && 0 < len && s.Valid() && s.buf == a[..] && s.len == len && s.cache == redis.store
      requires attempt == |s.draws| && api.requests == base + Fetched(s.draws)
      modifies a, redis, api
      ensures t.Valid() && t.buf == a[..] && t.len == newLen && t.cache == redis.store
      ensures api.requests == base + Fetched(t.draws)
      ensures done ==> Retrieve(s, sunny, o, api.classify) == Run(result, t)
      ensures !done ==> Retrieve(s, sunny, o, api.classify) == Retrieve(t, sunny, o, api.classify)
      ensures !done ==> newLen == len - 1 && |t.draws| == attempt + 1
    {
      var randomNumber := o.pick(attempt, len);
      var chosen := a[randomNumber];
      var lookup := Skipped;
      if sunny {
        lookup := LookUp(chosen.postcode, o.readFault(attempt), o.writeFails(attempt));
      }
      ghost var access := Access(lookup, redis.store);
      assert access == Consult(s, randomNumber, sunny, o, api.classify);
      AppendDraw(s.draws, Draw(s.slots[randomNumber], chosen, lookup));
      RetrieveStep(s, sunny, o, api.classify);
      t := Record(s, randomNumber, access);
      if !lookup.Rejects() {
        done, result, newLen := true, Verdict(chosen, lookup), len;
        return;
      }
      newLen := RemoveIndex(a, len, randomNumber);
      t := Discard(t, randomNumber);
      done, result := false, Panicked;
    }

    /**
     * `retrieveActivity` on the candidates `a[..n]`. The result, the array,
     * the cache and the weather requests afterwards are those of
     * `Selection.Start`; `discarded` is the list the source appends to.
     */
    method RetrieveActivity(a: array<Activity>, n: nat, sunny: bool, o: Oracles)
      returns (result: Outcome, ghost discarded: seq<Activity>)
      requires n <= a.Length && o.Valid()
      modifies a, redis, api
      ensures var r := Start(old(a[..]), n, old(redis.store), sunny, o, api.classify);
        && result == r.outcome
        && a[..] == r.final.buf
        && redis.store == r.final.cache
        && discarded == r.final.discarded
        && api.requests == old(api.requests) + Fetched(r.final.draws)
    {
      ghost var goal := Start(a[..], n, redis.store, sunny, o, api.classify);
      ghost var s := Initial(a[..], n, redis.store);
      var len, attempt := n, 0;
      while len > 0
        invariant s.Valid() && s.buf == a[..] && s.len == len && s.cache == redis.store
        invariant attempt == |s.draws|
        invariant Retrieve(s, sunny, o, api.classify) == goal
        invariant api.requests == old(api.requests) + Fetched(s.draws)
        decreases len
      {
        var done: bool;
        done, result, len, s := Attempt(a, len, attempt, sunny, o, s, old(api.requests));
        if done {
          return result, s.discarded;
        }
        attempt := attempt + 1;
      }
      result, discarded := Panicked, s.discarded;
    }
  }
}
