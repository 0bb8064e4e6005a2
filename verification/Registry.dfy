/** The registry of instances (MyDiscoverer): a cache over Redis keys that expire, and the HTTP handlers
    that write and list it. What is listed is proved to follow from the history of requests. */
module Registry {
  import opened Options
  import opened Base64

  datatype Instance =
    Instance(instanceID: string, serviceType: string, ipv4: string, port: int, timestamp: string, ttlMs: int)

  datatype ServiceError = BadParameter(message: string) | EntityNotFound | InternalServerError

  datatype Reply<T> = Done(value: T) | Failed(err: ServiceError)

  // ---------- time to live ----------

  /** A 64-bit integer after overflow. */
  function Wrap64(n: int): int {
    (n + 0x8000_0000_0000_0000) % 0x1_0000_0000_0000_0000 - 0x8000_0000_0000_0000
  }

  const NANOS_PER_MILLI := 1_000_000

  /** For how many milliseconds Redis keeps a value written with a TTL; None is for ever. The TTL is
      converted to a 64-bit number of nanoseconds, and an expiration that is not positive is none. */
  function Lifetime(ttlMs: int): Option<int> {
    var expiration := Wrap64(ttlMs * NANOS_PER_MILLI);
    if expiration <= 0 then None
    else if expiration < NANOS_PER_MILLI then Some(1)
    else Some(expiration / NANOS_PER_MILLI)
  }

  /** A value lives as long as its TTL says exactly if the TTL does not overflow, which 292 years do. A
      longer one may be taken for none at all, or for a millisecond. */
  lemma LifetimeIsTtl(ttlMs: int)
    requires ttlMs > 0
    ensures Lifetime(ttlMs) == Some(ttlMs) <==> ttlMs <= 9_223_372_036_854
    ensures Lifetime(9_223_372_036_855) == None && Lifetime(18_446_744_073_710) == Some(1)
  {
  }

  // ---------- Redis ----------

  datatype Stored = Stored(value: Bytes, deadline: Option<int>)

  class Redis {
    var data: map<string, Stored>
    var now: int

    constructor ()
      ensures data == map[]
    {
      data, now := map[], 0;
    }

    /** The key has not expired. */
    predicate Live(key: string)
      reads this
    {
      key in data && (data[key].deadline.None? || now <= data[key].deadline.value)
    }

    method Set(key: string, value: Bytes, ttlMs: int)
      modifies this`data
      ensures data ==
              old(data)[key := Stored(value, if Lifetime(ttlMs).Some? then Some(now + Lifetime(ttlMs).value) else None)]
    {
      var lifetime := Lifetime(ttlMs);
      data := data[key := Stored(value, if lifetime.Some? then Some(now + lifetime.value) else None)];
    }

    method Del(key: string)
      modifies this`data
      ensures data == old(data) - {key}
    {
      data := data - {key};
    }

    method Get(key: string) returns (value: Option<Bytes>)
      ensures value == if Live(key) then Some(data[key].value) else None
    {
      value := if Live(key) then Some(data[key].value) else None;
    }

    /** KEYS for the keys with a given beginning, in any order. */
    method Keys(beginning: string) returns (keys: seq<string>)
      ensures forall k :: k in keys <==> Live(k) && beginning <= k
      ensures forall i, j :: 0 <= i < j < |keys| ==> keys[i] != keys[j]
    {
      keys := [];
      var todo := data.Keys;
      while todo != {}
        invariant todo <= data.Keys
        invariant forall k :: k in keys <==> k !in todo && Live(k) && beginning <= k
        invariant forall i, j :: 0 <= i < j < |keys| ==> keys[i] != keys[j]
        decreases |todo|
      {
        var k :| k in todo;
        todo := todo - {k};
        if Live(k) && beginning <= k {
          keys := keys + [k];
        }
      }
    }

    method Wait(ms: nat)
      modifies this`now
      ensures now == old(now) + ms
    {
      now := now + ms;
    }
  }

  // ---------- the cache ----------

  datatype Codec<!T> = Codec(marshal: T -> Option<Bytes>, unmarshal: Bytes -> Option<T>)

  /** What was marshalled can be unmarshalled. */
  ghost predicate Faithful<T(!new)>(codec: Codec<T>) {
    forall x: T :: codec.marshal(x).Some? ==> codec.unmarshal(codec.marshal(x).value) == Some(x)
  }

  class RedisCache<T> {
    const client: Redis
    const prefix: string
    const codec: Codec<T>

    constructor (client: Redis, prefix: string, codec: Codec<T>)
      ensures this.client == client && this.prefix == prefix && this.codec == codec
    {
      this.client, this.prefix, this.codec := client, prefix, codec;
    }

    function GenerateKey(key: string): string {
      prefix + ":" + key
    }

    method WriteValue(key: string, item: T, ttlMs: int) returns (err: Option<ServiceError>)
      modifies client`data
      ensures err == if codec.marshal(item).None? then Some(InternalServerError) else None
      ensures client.data == if err.Some? then old(client.data) else
                old(client.data)[GenerateKey(key) := Stored(codec.marshal(item).value,
                  if Lifetime(ttlMs).Some? then Some(client.now + Lifetime(ttlMs).value) else None)]
    {
      var bytes := codec.marshal(item);
      if bytes.None? {
        return Some(InternalServerError);
      }
      client.Set(GenerateKey(key), bytes.value, ttlMs);
      return None;
    }

    method DeleteValue(key: string)
      modifies client`data
      ensures client.data == old(client.data) - {GenerateKey(key)}
    {
      client.Del(GenerateKey(key));
    }

    /** The item a key leads to. */
    ghost function ItemAt(key: string): Option<T>
      reads client
    {
      if client.Live(GenerateKey(key)) then codec.unmarshal(client.data[GenerateKey(key)].value) else None
    }

    /** Each item the cache holds, once and in any order; an error exactly when it holds none. */
    method ListAllValues() returns (r: Reply<seq<T>>, ghost order: seq<string>)
      ensures forall k :: k in order <==> ItemAt(k).Some?
      ensures forall i, j :: 0 <= i < j < |order| ==> order[i] != order[j]
      ensures r == Failed(EntityNotFound) <==> order == []
      ensures r.Done? <==> exists k :: ItemAt(k).Some?
      ensures order != [] ==>
                r.Done? && |r.value| == |order| && forall i :: 0 <= i < |order| ==> ItemAt(order[i]) == Some(r.value[i])
    {
      order := [];
      var fullKeys := client.Keys(GenerateKey(""));
      if |fullKeys| == 0 {
        NoKeyNoItem(fullKeys);
        return Failed(EntityNotFound), [];
      }
      var keys := TrimPrefixes(fullKeys);
      var items := [];
      for i := 0 to |keys|
        invariant |items| == |order| && forall j :: 0 <= j < |order| ==> ItemAt(order[j]) == Some(items[j])
        invariant forall k :: k in order <==> k in keys[..i] && ItemAt(k).Some?
        invariant forall j, m :: 0 <= j < m < |order| ==> order[j] != order[m]
      {
        assert keys[..i + 1] == keys[..i] + [keys[i]];
        assert keys[i] !in keys[..i];
        var bytes := client.Get(GenerateKey(keys[i]));
        if bytes.None? {
          continue;
        }
        var item := codec.unmarshal(bytes.value);
        if item.None? {
          continue;
        }
        items, order := items + [item.value], order + [keys[i]];
      }
      assert keys[..|keys|] == keys;
      if |items| == 0 {
        return Failed(EntityNotFound), order;
      }
      assert order[0] in order;
      return Done(items), order;
    }

    /** The loop that cuts the prefix off the keys. */
    method TrimPrefixes(fullKeys: seq<string>) returns (keys: seq<string>)
      requires forall k :: k in fullKeys <==> client.Live(k) && GenerateKey("") <= k
      requires forall i, j :: 0 <= i < j < |fullKeys| ==> fullKeys[i] != fullKeys[j]
      ensures forall i, j :: 0 <= i < j < |keys| ==> keys[i] != keys[j]
      ensures forall k :: ItemAt(k).Some? ==> k in keys
    {
      var prefixWithColon := GenerateKey("");
      keys := [];
      for i := 0 to |fullKeys|
        invariant |keys| == i && forall j :: 0 <= j < i ==> GenerateKey(keys[j]) == fullKeys[j]
      {
        var k := fullKeys[i];
        assert k in fullKeys;
        if prefixWithColon <= k {
          keys := keys + [k[|prefixWithColon|..]];
          assert GenerateKey(keys[i]) == k;
        }
      }
      KeysAreTheirs(fullKeys, keys);
    }

    lemma KeysAreTheirs(fullKeys: seq<string>, keys: seq<string>)
      requires forall k :: k in fullKeys <==> client.Live(k) && GenerateKey("") <= k
      requires |keys| == |fullKeys| && forall j :: 0 <= j < |keys| ==> GenerateKey(keys[j]) == fullKeys[j]
      ensures forall k :: ItemAt(k).Some? ==> k in keys
    {
      forall k | ItemAt(k).Some? ensures k in keys {
        assert GenerateKey("") <= GenerateKey(k);
        var j :| 0 <= j < |fullKeys| && fullKeys[j] == GenerateKey(k);
        KeysDiffer(k, keys[j]);
      }
    }

    lemma KeysDiffer(a: string, b: string)
      ensures GenerateKey(a) == GenerateKey(b) ==> a == b
    {
      assert GenerateKey(a)[|prefix| + 1..] == a && GenerateKey(b)[|prefix| + 1..] == b;
    }

    lemma NoKeyNoItem(fullKeys: seq<string>)
      requires fullKeys == [] && forall k :: k in fullKeys <==> client.Live(k) && GenerateKey("") <= k
      ensures forall k :: ItemAt(k).None?
    {
      forall k ensures ItemAt(k).None? {
        assert GenerateKey("") <= GenerateKey(k);
      }
    }
  }
}
