/**
 The session state on values: a flat Redis store and a process-local cache, both with
 deadlines on one clock in milliseconds, and the operations of the token service on them.
 */
module Sessions {
  import opened SessionKeys
  import opened Wrappers

  /** What an entry holds: plain text, or the record whose JSON text is stored. */
  datatype Value =
    | Text(text: string)
    | VpRecord(vpJwt: string, createdAt: nat)
    | Verification(verified: bool, holder: string, vcCount: nat, verifiedAt: nat)

  datatype Timed = Timed(value: Value, deadline: nat)

  /** `unit` is the length in milliseconds of one time-to-live unit of the local cache. */
  datatype Store = Store(redis: map<string, Timed>, local: map<string, Timed>, now: nat, unit: nat)

  function Live(m: map<string, Timed>, key: string, now: nat): Option<Value> {
    if key in m && now < m[key].deadline then Some(m[key].value) else None
  }

  function RedisGet(s: Store, key: string): Option<Value> {
    Live(s.redis, key, s.now)
  }

  /** `setex`: the time to live is in seconds. */
  function SetEx(s: Store, key: string, ttl: nat, v: Value): Store {
    s.(redis := s.redis[key := Timed(v, s.now + ttl * 1000)])
  }

  function Del(s: Store, key: string): Store {
    s.(redis := s.redis - {key})
  }

  function LocalSet(s: Store, key: string, v: Value, ttl: nat): Store {
    s.(local := s.local[key := Timed(v, s.now + ttl * s.unit)])
  }

  function LocalDel(s: Store, key: string): Store {
    s.(local := s.local - {key})
  }

  function Min(a: nat, b: nat): nat {
    if a <= b then a else b
  }

  // ----- the token service -----

  const DAY: nat := 86400

  function BlockToken(s: Store, token: string, ttl: nat): Store {
    SetEx(s, BlockedKey(token), ttl, Text("1"))
  }

  predicate IsTokenBlocked(s: Store, token: string) {
    RedisGet(s, BlockedKey(token)) == Some(Text("1"))
  }

  function SetVp(s: Store, token: string, vpJwt: string, ttl: nat): Store {
    var record := VpRecord(vpJwt, s.now);
    LocalSet(SetEx(s, VpKey(token), ttl, record), VpKey(token), record, Min(ttl, 300))
  }

  /** The stored presentation, and the store after a Redis hit was copied to the local cache. */
  function GetVp(s: Store, token: string): (Store, Option<string>) {
    match Live(s.local, VpKey(token), s.now)
    case Some(VpRecord(vpJwt, _)) => (s, Some(vpJwt))
    case _ =>
      match RedisGet(s, VpKey(token))
      case Some(VpRecord(vpJwt, at)) => (LocalSet(s, VpKey(token), VpRecord(vpJwt, at), 60), Some(vpJwt))
      case _ => (s, None)
  }

  function DeleteVp(s: Store, token: string): Store {
    LocalDel(Del(s, VpKey(token)), VpKey(token))
  }

  /** A zero `verifiedAt` stands for an absent one, which the service replaces by the clock. */
  function CacheVerification(s: Store, token: string, result: Value, ttl: nat): Store
    requires result.Verification?
  {
    var data := if result.verifiedAt != 0 then result else result.(verifiedAt := s.now);
    LocalSet(SetEx(s, VerifiedKey(token), ttl, data), VerifiedKey(token), data, Min(ttl, 300))
  }

  function GetVerification(s: Store, token: string): (r: (Store, Option<Value>))
    ensures r.1.Some? ==> r.1.value.Verification?
  {
    match Live(s.local, VerifiedKey(token), s.now)
    case Some(Verification(v, h, n, at)) => (s, Some(Verification(v, h, n, at)))
    case _ =>
      match RedisGet(s, VerifiedKey(token))
      case Some(Verification(v, h, n, at)) =>
        (LocalSet(s, VerifiedKey(token), Verification(v, h, n, at), 60), Some(Verification(v, h, n, at)))
      case _ => (s, None)
  }

  function DeleteVerification(s: Store, token: string): Store {
    LocalDel(Del(s, VerifiedKey(token)), VerifiedKey(token))
  }

  // ----- the entries of one token -----

  datatype View = View(blocked: Option<Timed>, vp: Option<Timed>, verified: Option<Timed>,
                       localVp: Option<Timed>, localVerified: Option<Timed>)

  const NO_ENTRIES := View(None, None, None, None, None)

  function At(m: map<string, Timed>, key: string): Option<Timed> {
    if key in m then Some(m[key]) else None
  }

  function ViewOf(s: Store, token: string): View {
    View(At(s.redis, BlockedKey(token)), At(s.redis, VpKey(token)), At(s.redis, VerifiedKey(token)),
         At(s.local, VpKey(token)), At(s.local, VerifiedKey(token)))
  }

  // Each write reaches the entries of its own token only: the key families never collide.

  lemma BlockTokenView(s: Store, token: string, ttl: nat)
    ensures forall t ::
      ViewOf(BlockToken(s, token, ttl), t) ==
      if t == token then ViewOf(s, t).(blocked := Some(Timed(Text("1"), s.now + ttl * 1000)))
      else ViewOf(s, t)
  {
  }

  lemma SetVpView(s: Store, token: string, vpJwt: string, ttl: nat)
    ensures forall t ::
      ViewOf(SetVp(s, token, vpJwt, ttl), t) ==
      if t == token then
        ViewOf(s, t).(vp := Some(Timed(VpRecord(vpJwt, s.now), s.now + ttl * 1000)),
                      localVp := Some(Timed(VpRecord(vpJwt, s.now), s.now + Min(ttl, 300) * s.unit)))
      else ViewOf(s, t)
  {
  }

  lemma DeleteVpView(s: Store, token: string)
    ensures forall t ::
      ViewOf(DeleteVp(s, token), t) ==
      if t == token then ViewOf(s, t).(vp := None, localVp := None) else ViewOf(s, t)
  {
  }

  lemma CacheVerificationView(s: Store, token: string, result: Value, ttl: nat)
    requires result.Verification? && (result.verifiedAt != 0 || s.now == 0)
    ensures forall t ::
      ViewOf(CacheVerification(s, token, result, ttl), t) ==
      if t == token then
        ViewOf(s, t).(verified := Some(Timed(result, s.now + ttl * 1000)),
                      localVerified := Some(Timed(result, s.now + Min(ttl, 300) * s.unit)))
      else ViewOf(s, t)
  {
  }

  lemma DeleteVerificationView(s: Store, token: string)
    ensures forall t ::
      ViewOf(DeleteVerification(s, token), t) ==
      if t == token then ViewOf(s, t).(verified := None, localVerified := None) else ViewOf(s, t)
  {
  }

  /** What is live under an entry. */
  function Alive(entry: Option<Timed>, now: nat): Option<Value> {
    if entry.Some? && now < entry.value.deadline then Some(entry.value.value) else None
  }

  /** A look-up takes the local copy, or else what Redis holds, which it copies for 60 units of the local cache. */
  lemma GetVpReads(s: Store, token: string)
    ensures var ((s', answer), v) := (GetVp(s, token), ViewOf(s, token));
      var (local, redis) := (Alive(v.localVp, s.now), Alive(v.vp, s.now));
      if local.Some? && local.value.VpRecord? then answer == Some(local.value.vpJwt) && s' == s
      else if redis.Some? && redis.value.VpRecord? then
        && answer == Some(redis.value.vpJwt)
        && ViewOf(s', token) == v.(localVp := Some(Timed(redis.value, s.now + 60 * s.unit)))
        && s'.redis == s.redis && forall t :: t != token ==> ViewOf(s', t) == ViewOf(s, t)
      else answer == None && s' == s
  {
  }

  lemma GetVerificationReads(s: Store, token: string)
    ensures var ((s', answer), v) := (GetVerification(s, token), ViewOf(s, token));
      var (local, redis) := (Alive(v.localVerified, s.now), Alive(v.verified, s.now));
      if local.Some? && local.value.Verification? then answer == local && s' == s
      else if redis.Some? && redis.value.Verification? then
        && answer == redis
        && ViewOf(s', token) == v.(localVerified := Some(Timed(redis.value, s.now + 60 * s.unit)))
        && s'.redis == s.redis && forall t :: t != token ==> ViewOf(s', t) == ViewOf(s, t)
      else answer == None && s' == s
  {
  }

  /** Writing or deleting an entry of another family leaves the entries of every token alone. */
  lemma OtherFamilyView(s: Store, id: KeyId, ttl: nat, v: Value)
    requires WellFormed(id) && !id.Blocked? && !id.Vp? && !id.Verified?
    ensures forall t :: ViewOf(SetEx(s, Render(id), ttl, v), t) == ViewOf(s, t)
    ensures forall t :: ViewOf(Del(s, Render(id)), t) == ViewOf(s, t)
  {
    KeysStayApart(id);
  }
}
