/** The key-value cache the selection reads and writes (a Redis client). */
module Redis {
  import opened Wrappers

  /** The three answers of a GET: a value, `redis.Nil` (a miss), or another error. */
  datatype Reply = Value(value: string) | Nil | Error(message: string)

  /**
   * A cache that maps postcodes to weather labels. Entries never expire in
   * this model. Whether a call fails is decided outside and passed in.
   */
  class Client {
    var store: map<string, string>

    constructor (store: map<string, string>)
      ensures this.store == store
    {
      this.store := store;
    }

    /** GET: a read error wins; otherwise a hit returns the stored label, a miss is `Nil`. */
    method Get(key: string, fault: Option<string>) returns (reply: Reply)
      ensures reply.Error? <==> fault.Some?
      ensures fault.Some? ==> reply.message == fault.value
      ensures fault.None? ==> (reply.Value? <==> key in store)
      ensures reply.Value? ==> key in store && reply.value == store[key]
    {
      if fault.Some? {
        reply := Error(fault.value);
      } else if key in store {
        reply := Value(store[key]);
      } else {
        reply := Nil;
      }
    }

    /** SET: stores `value` under `key` unless the write fails, in which case nothing changes. */
    method Set(key: string, value: string, fails: bool) returns (err: Option<string>)
      modifies this
      ensures err.Some? <==> fails
      ensures store == if fails then old(store) else old(store)[key := value]
    {
      if fails {
        err := Some("redis: write failed");
      } else {
        store := store[key := value];
        err := None;
      }
    }
  }
}
