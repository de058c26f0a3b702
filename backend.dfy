/**
 * The two shared stores the setup wizard touches: the handoff cache
 * (`default_cache`) and the ApiToken table.
 */
module Backend {
  import opened Models
  import opened Tokens

  /** A cache slot: the stored value and the timeout it was written with. */
  datatype CacheEntry = CacheEntry(value: Json, timeout: nat)

  class Store {
    var cache: map<string, CacheEntry>
    var tokens: seq<ApiToken>

    constructor (cache0: map<string, CacheEntry>, tokens0: seq<ApiToken>)
      ensures cache == cache0 && tokens == tokens0
    {
      cache := cache0;
      tokens := tokens0;
    }

    /**
     * `default_cache.get(key)`: None for a key that is missing (never set or
     * expired) and for a key whose stored value is itself None.
     */
    function CacheGet(key: string): (v: Option<Json>)
      reads this
      ensures v == None <==> key !in cache || cache[key].value == JNull
      ensures v != None ==> v.value == cache[key].value
    {
      if key in cache && cache[key].value != JNull then Some(cache[key].value) else None
    }

    /** `default_cache.set(key, value, timeout)`: overwrites the slot, nothing else. */
    method CacheSet(key: string, value: Json, timeout: nat)
      modifies this`cache
      ensures cache == old(cache)[key := CacheEntry(value, timeout)]
      ensures CacheGet(key) == if value == JNull then None else Some(value)
    {
      cache := cache[key := CacheEntry(value, timeout)];
    }

    /** `ApiToken.objects.create(...)`: appends one row; its id is its position. */
    method CreateToken(user: UserId, scopeList: seq<string>, secret: string) returns (t: ApiToken)
      modifies this`tokens
      ensures tokens == old(tokens) + [t]
      ensures t == NewToken(|old(tokens)|, user, scopeList, secret)
    {
      t := NewToken(|tokens|, user, scopeList, secret);
      tokens := tokens + [t];
    }
  }
}
