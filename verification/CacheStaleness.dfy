/**
 The two-level presentation cache on its own: over all interleavings of set, get, delete and
 passing time, how stale an answer of `getVPForToken` can be.
 */
module CacheStaleness {
  import opened SessionKeys
  import opened Sessions
  import opened Wrappers

  datatype Op =
    | Set(token: string, vpJwt: string, ttl: nat)
    | Get(token: string)
    | Delete(token: string)
    | Wait(milliseconds: nat)

  /** The last presentation set for a token and not deleted since, and its Redis deadline. */
  datatype Last = Last(vpJwt: string, deadline: nat)

  function Apply(s: Store, op: Op): Store {
    match op
    case Set(token, vpJwt, ttl) => SetVp(s, token, vpJwt, ttl)
    case Get(token) => GetVp(s, token).0
    case Delete(token) => DeleteVp(s, token)
    case Wait(ms) => s.(now := s.now + ms)
  }

  function Note(last: map<string, Last>, now: nat, op: Op): map<string, Last> {
    match op
    case Set(token, vpJwt, ttl) => last[token := Last(vpJwt, now + ttl * 1000)]
    case Delete(token) => last - {token}
    case _ => last
  }

  /** The store after the operations, and what was last set for each token. */
  function After(s: Store, ops: seq<Op>): (Store, map<string, Last>)
    decreases |ops|
  {
    if ops == [] then (s, map[])
    else
      var (before, last) := After(s, ops[..|ops| - 1]);
      (Apply(before, ops[|ops| - 1]), Note(last, before.now, ops[|ops| - 1]))
  }

  predicate Holds(entry: Timed, vpJwt: string) {
    entry.value.VpRecord? && entry.value.vpJwt == vpJwt
  }

  /** Redis holds what was last set; the local copy is the same and ends at most 60 units later. */
  predicate TokenOk(s: Store, last: map<string, Last>, t: string) {
    var v := ViewOf(s, t);
    if t in last then
      && v.vp.Some? && Holds(v.vp.value, last[t].vpJwt) && v.vp.value.deadline == last[t].deadline
      && (v.localVp.Some? ==>
            Holds(v.localVp.value, last[t].vpJwt) && v.localVp.value.deadline <= last[t].deadline + 60 * s.unit)
    else v.vp == None && v.localVp == None
  }

  lemma ApplyKeeps(s: Store, last: map<string, Last>, op: Op, t: string)
    requires s.unit <= 1000 && TokenOk(s, last, t)
    ensures TokenOk(Apply(s, op), Note(last, s.now, op), t)
    ensures Apply(s, op).unit == s.unit
  {
    match op
    case Set(token, vpJwt, ttl) =>
      SetVpView(s, token, vpJwt, ttl);
      LocalEndsBeforeRedis(ttl, s.unit);
      assert ViewOf(Apply(s, op), t) == ViewOf(SetVp(s, token, vpJwt, ttl), t);
    case Delete(token) =>
      DeleteVpView(s, token);
      assert ViewOf(Apply(s, op), t) == ViewOf(DeleteVp(s, token), t);
    case Get(token) =>
    case Wait(ms) => assert ViewOf(Apply(s, op), t) == ViewOf(s, t);
  }

  lemma ScaleLe(a: nat, b: nat, c: nat)
    requires a <= b
    ensures a * c <= b * c && c * a <= c * b
  {
    assert b * c == a * c + (b - a) * c;
  }

  lemma LocalEndsBeforeRedis(ttl: nat, unit: nat)
    requires unit <= 1000
    ensures Min(ttl, 300) * unit <= ttl * 1000
  {
    ScaleLe(Min(ttl, 300), ttl, unit);
    ScaleLe(unit, 1000, ttl);
  }

  lemma {:induction false} RunKeeps(s: Store, ops: seq<Op>, t: string)
    requires s.redis == map[] && s.local == map[] && s.unit <= 1000
    ensures var (s', last) := After(s, ops);
      s'.unit == s.unit && TokenOk(s', last, t)
    decreases |ops|
  {
    if ops == [] {
    } else {
      RunKeeps(s, ops[..|ops| - 1], t);
      var (before, last) := After(s, ops[..|ops| - 1]);
      ApplyKeeps(before, last, ops[|ops| - 1], t);
    }
  }

  /**
   Up to the Redis deadline of the last set, a get returns exactly the value set; after it, at
   most that value and only for 60 local units more; after a delete, nothing until the next set.
   */
  lemma BoundedStaleness(s: Store, ops: seq<Op>, t: string)
    requires s.redis == map[] && s.local == map[] && s.unit <= 1000
    ensures var (s', last) := After(s, ops);
      var answer := GetVp(s', t).1;
      && (t !in last ==> answer == None)
      && (t in last && s'.now < last[t].deadline ==> answer == Some(last[t].vpJwt))
      && (t in last && answer.Some? ==>
            answer.value == last[t].vpJwt && s'.now < last[t].deadline + 60 * s.unit <= last[t].deadline + 60000)
  {
    RunKeeps(s, ops, t);
  }
}
