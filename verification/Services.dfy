/**
 The services as the source writes them: objects that set, read and delete entries step by
 step. Each method is proved to have the effect of its function in `Sessions` or `Gateway`.
 */
module Services {
  import opened Did
  import opened Gateway
  import opened SessionKeys
  import opened Sessions
  import opened Text
  import opened Wrappers

  class Clock {
    var now: nat

    constructor ()
      ensures now == 0
    {
      now := 0;
    }

    method Advance(milliseconds: nat)
      modifies this
      ensures now == old(now) + milliseconds
    {
      now := now + milliseconds;
    }
  }

  /** The Redis client: one flat map of keys with deadlines. */
  class RedisService {
    const clock: Clock
    var entries: map<string, Timed>

    constructor (clock: Clock)
      ensures this.clock == clock && entries == map[]
    {
      this.clock := clock;
      entries := map[];
    }

    method SetEx(key: string, ttl: nat, value: Value)
      modifies this
      ensures entries == old(entries)[key := Timed(value, clock.now + ttl * 1000)]
    {
      entries := entries[key := Timed(value, clock.now + ttl * 1000)];
    }

    method Get(key: string) returns (value: Option<Value>)
      ensures value == Live(entries, key, clock.now)
    {
      value := Live(entries, key, clock.now);
    }

    method Del(key: string)
      modifies this
      ensures entries == old(entries) - {key}
    {
      entries := entries - {key};
    }
  }

  /** The process-local cache; its time to live is counted in `unit` milliseconds. */
  class CacheManager {
    const clock: Clock
    const unit: nat
    var entries: map<string, Timed>

    constructor (clock: Clock, unit: nat)
      ensures this.clock == clock && this.unit == unit && entries == map[]
    {
      this.clock := clock;
      this.unit := unit;
      entries := map[];
    }

    method Set(key: string, value: Value, ttl: nat)
      modifies this
      ensures entries == old(entries)[key := Timed(value, clock.now + ttl * unit)]
    {
      entries := entries[key := Timed(value, clock.now + ttl * unit)];
    }

    method Get(key: string) returns (value: Option<Value>)
      ensures value == Live(entries, key, clock.now)
    {
      value := Live(entries, key, clock.now);
    }

    method Del(key: string)
      modifies this
      ensures entries == old(entries) - {key}
    {
      entries := entries - {key};
    }
  }

  class TokenService {
    const cacheManager: CacheManager
    const redisService: RedisService
    const clock: Clock

    ghost predicate Valid() {
      cacheManager.clock == clock && redisService.clock == clock
    }

    function State(): Store
      reads clock, redisService, cacheManager
    {
      Store(redisService.entries, cacheManager.entries, clock.now, cacheManager.unit)
    }

    constructor (cacheManager: CacheManager, redisService: RedisService)
      requires cacheManager.clock == redisService.clock
      ensures Valid() && this.cacheManager == cacheManager && this.redisService == redisService
    {
      this.cacheManager := cacheManager;
      this.redisService := redisService;
      this.clock := redisService.clock;
    }

    method BlockToken(token: string, ttl: nat := 86400)
      requires Valid()
      modifies redisService
      ensures State() == Sessions.BlockToken(old(State()), token, ttl)
    {
      redisService.SetEx(BlockedKey(token), ttl, Value.Text("1"));
    }

    method IsTokenBlocked(token: string) returns (blocked: bool)
      requires Valid()
      ensures blocked == Sessions.IsTokenBlocked(State(), token)
    {
      var value := redisService.Get(BlockedKey(token));
      blocked := value == Some(Value.Text("1"));
    }

    method SetVpForToken(token: string, vpJwt: string, ttl: nat := 3600)
      requires Valid()
      modifies redisService, cacheManager
      ensures State() == SetVp(old(State()), token, vpJwt, ttl)
    {
      var data := VpRecord(vpJwt, clock.now);
      redisService.SetEx(VpKey(token), ttl, data);
      cacheManager.Set(VpKey(token), data, Min(ttl, 300));
    }

    method GetVpForToken(token: string) returns (vpJwt: Option<string>)
      requires Valid()
      modifies cacheManager
      ensures (State(), vpJwt) == GetVp(old(State()), token)
    {
      var localCache := cacheManager.Get(VpKey(token));
      if localCache.Some? && localCache.value.VpRecord? {
        return Some(localCache.value.vpJwt);
      }
      var redisCache := redisService.Get(VpKey(token));
      if redisCache.Some? && redisCache.value.VpRecord? {
        cacheManager.Set(VpKey(token), redisCache.value, 60);
        return Some(redisCache.value.vpJwt);
      }
      return None;
    }

    method DeleteVpForToken(token: string)
      requires Valid()
      modifies redisService, cacheManager
      ensures State() == DeleteVp(old(State()), token)
    {
      redisService.Del(VpKey(token));
      cacheManager.Del(VpKey(token));
    }

    method CacheVpVerification(token: string, result: Value, ttl: nat := 3600)
      requires Valid() && result.Verification?
      modifies redisService, cacheManager
      ensures State() == CacheVerification(old(State()), token, result, ttl)
    {
      var data := result;
      if data.verifiedAt == 0 {
        data := data.(verifiedAt := clock.now);
      }
      redisService.SetEx(VerifiedKey(token), ttl, data);
      cacheManager.Set(VerifiedKey(token), data, Min(ttl, 300));
    }

    method GetCachedVpVerification(token: string) returns (result: Option<Value>)
      requires Valid()
      modifies cacheManager
      ensures (State(), result) == GetVerification(old(State()), token)
    {
      var localCache := cacheManager.Get(VerifiedKey(token));
      if localCache.Some? && localCache.value.Verification? {
        return localCache;
      }
      var redisCache := redisService.Get(VerifiedKey(token));
      if redisCache.Some? && redisCache.value.Verification? {
        cacheManager.Set(VerifiedKey(token), redisCache.value, 60);
        return redisCache;
      }
      return None;
    }

    method DeleteCachedVpVerification(token: string)
      requires Valid()
      modifies redisService, cacheManager
      ensures State() == DeleteVerification(old(State()), token)
    {
      redisService.Del(VerifiedKey(token));
      cacheManager.Del(VerifiedKey(token));
    }

    /** One scanned key: the body of the loop in `blockAllTokensByAddress`. */
    method CloseIfHeldBy(env: Env, address: string, key: string)
      requires Valid()
      modifies redisService, cacheManager
      ensures State() == CloseIfNamed(env, old(State()), address, key)
    {
      var data := redisService.Get(key);
      if data.Some? && data.value.VpRecord? {
        var vpHolder := env.holderOf(data.value.vpJwt);
        if vpHolder.Some? && Lower(vpHolder.value) == Lower(address) {
          var token := DropFirst(key, VP_TOKEN);
          BlockToken(token);
          DeleteVpForToken(token);
        }
      }
    }

    /** One batch of the scan: the inner loop. */
    method CloseBatch(env: Env, address: string, keys: seq<string>)
      requires Valid()
      modifies redisService, cacheManager
      ensures State() == CloseNamed(env, old(State()), address, keys)
    {
      for i := 0 to |keys|
        invariant State() == CloseNamed(env, old(State()), address, keys[..i])
      {
        CloseIfHeldBy(env, address, keys[i]);
        CloseNamedStep(env, old(State()), address, keys, i);
      }
      assert keys[..|keys|] == keys;
    }

    /** `batches` is what the scan stream delivers, batch by batch. */
    method BlockAllTokensByAddress(env: Env, address: string, batches: seq<seq<string>>)
      requires Valid()
      modifies redisService, cacheManager
      ensures State() == CloseNamed(env, old(State()), address, Flatten(batches))
    {
      for b := 0 to |batches|
        invariant State() == CloseNamed(env, old(State()), address, Flatten(batches[..b]))
      {
        CloseBatch(env, address, batches[b]);
        CloseNamedBatch(env, old(State()), address, batches, b);
      }
      assert batches[..|batches|] == batches;
    }
  }

  function Flatten(batches: seq<seq<string>>): seq<string>
    decreases |batches|
  {
    if batches == [] then [] else Flatten(batches[..|batches| - 1]) + batches[|batches| - 1]
  }

  lemma CloseNamedStep(env: Env, s: Store, address: string, keys: seq<string>, i: nat)
    requires i < |keys|
    ensures CloseNamed(env, s, address, keys[..i + 1])
            == CloseIfNamed(env, CloseNamed(env, s, address, keys[..i]), address, keys[i])
  {
    assert keys[..i + 1][..i] == keys[..i];
  }

  lemma {:induction false} CloseNamedAppend(env: Env, s: Store, address: string, a: seq<string>, b: seq<string>)
    ensures CloseNamed(env, s, address, a + b) == CloseNamed(env, CloseNamed(env, s, address, a), address, b)
    decreases |b|
  {
    if b == [] {
      assert a + b == a;
    } else {
      var last := |b| - 1;
      assert (a + b)[..|a + b| - 1] == a + b[..last];
      CloseNamedAppend(env, s, address, a, b[..last]);
    }
  }

  lemma CloseNamedBatch(env: Env, s: Store, address: string, batches: seq<seq<string>>, b: nat)
    requires b < |batches|
    ensures CloseNamed(env, s, address, Flatten(batches[..b + 1]))
            == CloseNamed(env, CloseNamed(env, s, address, Flatten(batches[..b])), address, batches[b])
  {
    assert batches[..b + 1][..b] == batches[..b];
    CloseNamedAppend(env, s, address, Flatten(batches[..b]), batches[b]);
  }
}
