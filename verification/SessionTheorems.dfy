/**
 What the refinement gives for whole runs: when a session is downgraded, what a revocation stops, what
 log-out-all reaches.
 */
module SessionTheorems {
  import opened Did
  import opened Gateway
  import opened GatewayProofs
  import opened SessionKeys
  import opened Sessions
  import opened Text
  import opened Wrappers

  // ----- the table along a run -----

  /** What a session keeps from one point of a run to any later one. */
  predicate Continues(before: Table, after: Table, token: string) {
    token in before ==>
      token in after
      && after[token].claims == before[token].claims
      && (before[token].revoked ==> after[token].revoked)
  }

  lemma PrefixLegal(env: Env, w: World, steps: seq<Step>, n: nat)
    requires n <= |steps| && LegalRun(env, w, steps)
    ensures LegalRun(env, w, steps[..n])
  {
    forall i | 0 <= i < n ensures Legal(Run(env, w, steps[..n][..i]).0, steps[..n][i]) {
      assert steps[..n][..i] == steps[..i];
    }
  }

  lemma RunUnfolds(env: Env, w: World, steps: seq<Step>, n: nat)
    requires n < |steps|
    ensures var (before, replies) := Run(env, w, steps[..n]);
      Run(env, w, steps[..n + 1])
      == (Next(env, before, steps[n]).0, replies + [Next(env, before, steps[n]).1])
  {
    assert steps[..n + 1][..n] == steps[..n];
  }

  lemma StepContinues(env: Env, table: Table, reply: Reply, token: string)
    ensures Continues(table, Record(env, table, reply), token)
  {
  }

  lemma HistoryGrows(env: Env, replies: seq<Reply>, reply: Reply)
    ensures History(env, replies + [reply]) == Record(env, History(env, replies), reply)
  {
    assert (replies + [reply])[..|replies|] == replies;
  }

  /** A session, once open, keeps its claims; once revoked, it stays revoked. */
  lemma {:induction false} SessionContinues(env: Env, w: World, steps: seq<Step>, n: nat, token: string)
    requires n <= |steps|
    ensures Continues(History(env, Run(env, w, steps[..n]).1), History(env, Run(env, w, steps).1), token)
    decreases |steps|
  {
    assert steps[..|steps|] == steps;
    if n == |steps| {
    } else {
      var last := |steps| - 1;
      var (before, replies) := Run(env, w, steps[..last]);
      assert steps[..last][..n] == steps[..n];
      SessionContinues(env, w, steps[..last], n, token);
      StepContinues(env, History(env, replies), Next(env, before, steps[last]).1, token);
      HistoryGrows(env, replies, Next(env, before, steps[last]).1);
      RunUnfolds(env, w, steps, last);
    }
  }

  lemma {:induction false} RepliesLength(env: Env, w: World, steps: seq<Step>)
    ensures |Run(env, w, steps).1| == |steps|
    decreases |steps|
  {
    if steps == [] {
    } else {
      RepliesLength(env, w, steps[..|steps| - 1]);
    }
  }

  /** The reply of step `i`, and the table just after it. */
  lemma {:induction false} ReplyAt(env: Env, w: World, steps: seq<Step>, i: nat)
    requires i < |steps|
    ensures |Run(env, w, steps).1| == |steps|
    ensures Run(env, w, steps).1[i] == Next(env, Run(env, w, steps[..i]).0, steps[i]).1
    ensures History(env, Run(env, w, steps[..i + 1]).1)
            == Record(env, History(env, Run(env, w, steps[..i]).1), Run(env, w, steps).1[i])
    decreases |steps|
  {
    RepliesLength(env, w, steps);
    RepliesLength(env, w, steps[..i]);
    RunUnfolds(env, w, steps, i);
    HistoryGrows(env, Run(env, w, steps[..i]).1, Next(env, Run(env, w, steps[..i]).0, steps[i]).1);
    if i < |steps| - 1 {
      assert steps[..|steps| - 1][..i] == steps[..i];
      assert steps[..|steps| - 1][..i + 1] == steps[..i + 1];
      ReplyAt(env, w, steps[..|steps| - 1], i);
      RepliesLength(env, w, steps[..|steps| - 1]);
    } else {
      assert steps[..i + 1] == steps;
    }
  }

  // ----- silent downgrade -----

  /** The reply reports that a presentation, or the marker of none, was stored under this token. */
  predicate Stores(reply: Reply, token: string) {
    reply.Opened? && reply.token == token && reply.stored.Some?
  }

  /** The last reply that stored something under the token. */
  function LastStore(replies: seq<Reply>, token: string): (last: Option<nat>)
    ensures last.Some? ==> last.value < |replies| && Stores(replies[last.value], token)
    ensures forall k :: 0 <= k < |replies| && Stores(replies[k], token) ==> last.Some? && k <= last.value
    decreases |replies|
  {
    if replies == [] then None
    else if Stores(replies[|replies| - 1], token) then Some(|replies| - 1)
    else LastStore(replies[..|replies| - 1], token)
  }

  lemma {:induction false} TableHoldsLast(env: Env, replies: seq<Reply>, token: string)
    ensures var (table, last) := (History(env, replies), LastStore(replies, token));
      && (last.Some? ==> token in table)
      && (token in table ==> table[token].stored == if last.Some? then replies[last.value].stored else None)
    decreases |replies|
  {
    if replies == [] {
    } else {
      TableHoldsLast(env, replies[..|replies| - 1], token);
    }
  }

  /** The entry in Redis is live and holds this presentation. */
  predicate HoldsLive(s: Store, token: string, stored: Option<string>) {
    var v := RedisGet(s, VpKey(token));
    v.Some? && v.value.VpRecord? && Some(v.value.vpJwt) == stored
  }

  /** A session as it is stored: blocked or not, and with a live presentation or none. */
  lemma SessionEntries(env: Env, w: World, table: Table, token: string)
    requires Inv(env, w, table) && token in table
    ensures !Expired(table[token].claims, w.store.now) ==> (IsTokenBlocked(w.store, token) <==> table[token].revoked)
    ensures Expired(table[token].claims, w.store.now) || IsTokenBlocked(w.store, token) || table[token].stored.None?
            || HoldsLive(w.store, token, table[token].stored)
  {
    assert EntryOk(env, w, table, token);
    ExpiredFromExpiryTime(table[token].claims, w.store.now);
  }

  /** A session as the checking guards see it: only one without a presentation is accepted as unverified. */
  lemma GuardOnSession(env: Env, w: World, table: Table, token: string, channel: Channel)
    requires ValidEnv(env) && Inv(env, w, table) && token in table && !channel.Did?
    ensures var d := Guard(env, w, channel, token).1;
      && (d.Accepted? ==> !Expired(table[token].claims, w.store.now) && !table[token].revoked)
      && (d.Accepted? && !d.user.vpVerified <==>
            !Expired(table[token].claims, w.store.now) && !table[token].revoked && !Real(table[token].stored))
  {
    assert EntryOk(env, w, table, token);
    if !table[token].revoked && !Expired(table[token].claims, w.store.now) {
      SessionEntries(env, w, table, token);
      GetVerificationOnSession(env, w.store, token, table[token]);
      CheckOnSession(env, w.store, token, table[token], UserOn(channel, table[token].claims));
      GuardChecks(env, w, channel, token);
    } else {
      ExpiredFromExpiryTime(table[token].claims, w.store.now);
    }
  }

  /**
   In every run, a session opened with a presentation is later accepted as unverified, by a guard
   that checks presentations, exactly when its token is unexpired and unblocked and was signed
   again, with the marker of no presentation stored last. Otherwise its entry in Redis is live.
   */
  lemma DowngradedIff(env: Env, w: World, steps: seq<Step>, i: nat, channel: Channel)
    requires ValidEnv(env) && Initial(w) && LegalRun(env, w, steps) && !channel.Did?
    requires var replies := Run(env, w, steps).1;
      i < |replies| && replies[i].Opened? && Real(replies[i].stored)
    ensures var (w', replies) := Run(env, w, steps);
      var token := replies[i].token;
      var d := Guard(env, w', channel, token).1;
      && LastStore(replies, token).Some?
      && var j := LastStore(replies, token).value;
         && i <= j
         && (Expired(replies[i].claims, w'.store.now) || IsTokenBlocked(w'.store, token)
             || HoldsLive(w'.store, token, replies[j].stored))
         && (d.Accepted? && !d.user.vpVerified
             <==> !Expired(replies[i].claims, w'.store.now) && !IsTokenBlocked(w'.store, token)
                  && i < j && !Real(replies[j].stored))
  {
    var (w', replies) := Run(env, w, steps);
    var table := History(env, replies);
    RepliesLength(env, w, steps);
    OpenedIsInTable(env, w, steps, i);
    TableHoldsLast(env, replies, replies[i].token);
    assert Stores(replies[i], replies[i].token);
    assert Inv(env, w', table) by { RunKeepsInv(env, w, steps); }
    SessionEntries(env, w', table, replies[i].token);
    GuardOnSession(env, w', table, replies[i].token, channel);
  }

  /** A session opened by step `i` is in the table of every later point, with the claims it was opened with. */
  lemma OpenedIsInTable(env: Env, w: World, steps: seq<Step>, i: nat)
    requires ValidEnv(env) && Initial(w) && LegalRun(env, w, steps) && i < |steps|
    requires var replies := Run(env, w, steps).1; |replies| == |steps| && replies[i].Opened?
    ensures var (w', replies) := Run(env, w, steps);
      var table := History(env, replies);
      replies[i].token in table && table[replies[i].token].claims == replies[i].claims
  {
    var reply := Run(env, w, steps).1[i];
    ReplyAt(env, w, steps, i);
    PrefixLegal(env, w, steps, i + 1);
    RunUnfolds(env, w, steps, i);
    var after := Run(env, w, steps[..i + 1]);
    assert Inv(env, after.0, History(env, after.1)) by { RunKeepsInv(env, w, steps[..i + 1]); }
    assert EntryOk(env, after.0, History(env, after.1), reply.token);
    OpenedClaims(env, Run(env, w, steps[..i]).0, steps[i]);
    SessionContinues(env, w, steps, i + 1, reply.token);
  }

  /** The token of a reply is the one signed for the claims of the reply. */
  lemma OpenedClaims(env: Env, w: World, step: Step)
    ensures var (w', reply) := Next(env, w, step);
      reply.Opened? ==> reply.claims.Access? && reply.token == env.sign(reply.claims)
                        && (ValidEnv(env) ==> reply.token in w'.issued && w'.issued[reply.token] == reply.claims)
  {
  }

  /**
   The same second: a refresh that signs the claims of an open session again stores the marker
   over its presentation, and both checking guards then accept it as unverified.
   */
  lemma SameSecondRefreshDowngrades(env: Env, w: World, table: Table, token: string, refresh: string,
                                    isGuardian: bool, vcCount: nat, channel: Channel)
    requires ValidEnv(env) && Inv(env, w, table) && !channel.Did?
    requires token in table && !table[token].revoked && !Expired(table[token].claims, w.store.now)
    requires ValidateRefresh(w, refresh).Some?
    requires table[token].claims == AccessClaims(w, ValidateRefresh(w, refresh).value.address, isGuardian, vcCount)
    ensures var (w', reply) := RefreshSession(env, w, refresh, Some(isGuardian), vcCount);
      var d := Guard(env, w', channel, token).1;
      reply.Opened? && reply.token == token && d.Accepted? && !d.user.vpVerified
  {
    assert EntryOk(env, w, table, token);
    var (w', reply) := RefreshSession(env, w, refresh, Some(isGuardian), vcCount);
    assert w'.store.now == w.store.now;
    RefreshSessionKeepsInv(env, w, table, refresh, Some(isGuardian), vcCount);
    GuardOnSession(env, w', Record(env, table, reply), token, channel);
  }

  // ----- what a revocation stops -----

  lemma RevokedSession(env: Env, w: World, table: Table, token: string, channel: Channel)
    requires ValidEnv(env) && Inv(env, w, table) && token in table && table[token].revoked
    ensures Guard(env, w, channel, token).1.Accepted? <==> channel.Did? && !Expired(table[token].claims, w.store.now)
  {
    assert EntryOk(env, w, table, token);
    if channel.Did? {
      DidGuardOnToken(env, w, table, token);
    } else {
      GuardOnSession(env, w, table, token, channel);
    }
  }

  /**
   In every run, once a session is revoked, it is accepted exactly by the DID guard, exactly until
   its JWT expires: the guard for proxied requests and the WebSocket guards refuse it for good.
   */
  lemma RevokedIsAcceptedIff(env: Env, w: World, steps: seq<Step>, n: nat, token: string, channel: Channel)
    requires ValidEnv(env) && Initial(w) && LegalRun(env, w, steps) && n <= |steps|
    requires var table := History(env, Run(env, w, steps[..n]).1); token in table && table[token].revoked
    ensures var claims := History(env, Run(env, w, steps[..n]).1)[token].claims;
      var w' := Run(env, w, steps).0;
      Guard(env, w', channel, token).1.Accepted? <==> channel.Did? && !Expired(claims, w'.store.now)
  {
    SessionContinues(env, w, steps, n, token);
    RunKeepsInv(env, w, steps);
    RevokedSession(env, Run(env, w, steps).0, History(env, Run(env, w, steps).1), token, channel);
  }

  /** A step that closes a session leaves it revoked in the table, with its claims. */
  lemma ClosedIsRevoked(env: Env, w: World, steps: seq<Step>, i: nat, token: string)
    requires i < |steps|
    requires var table := History(env, Run(env, w, steps[..i]).1);
      token in table && Closes(env, table[token], token, Next(env, Run(env, w, steps[..i]).0, steps[i]).1)
    ensures var table := History(env, Run(env, w, steps[..i]).1);
      var table' := History(env, Run(env, w, steps[..i + 1]).1);
      token in table' && table'[token] == table[token].(revoked := true)
  {
    ReplyAt(env, w, steps, i);
  }

  /** The reply reports a log-out of this token, or a log-out-all of the holder of its presentation. */
  predicate Closes(env: Env, s: Session, token: string, reply: Reply) {
    reply == Closed(token) || (reply.ClosedAll? && Held(env, s, reply.address))
  }

  /**
   So after a log-out of an access token, and after a log-out-all that its presentation names: refused
   for good where the block list is read, served to the end of its life where it is not.
   */
  lemma ClosedIsAcceptedIff(env: Env, w: World, steps: seq<Step>, i: nat, token: string, channel: Channel)
    requires ValidEnv(env) && Initial(w) && LegalRun(env, w, steps) && i < |steps|
    requires var table := History(env, Run(env, w, steps[..i]).1);
      token in table && Closes(env, table[token], token, Next(env, Run(env, w, steps[..i]).0, steps[i]).1)
    ensures var claims := History(env, Run(env, w, steps[..i]).1)[token].claims;
      var w' := Run(env, w, steps).0;
      Guard(env, w', channel, token).1.Accepted? <==> channel.Did? && !Expired(claims, w'.store.now)
  {
    ClosedIsRevoked(env, w, steps, i, token);
    RevokedIsAcceptedIff(env, w, steps, i + 1, token, channel);
  }

  /** At a real input: right after its log-out the token still passes the DID guard, and so can log out all. */
  lemma LoggedOutTokenIsServed(env: Env, w: World, table: Table, token: string, keys: seq<string>)
    requires ValidEnv(env) && Inv(env, w, table) && LogOut(w, token).1 == Closed(token)
    ensures var w' := LogOut(w, token).0;
      && IsTokenBlocked(w'.store, token)
      && Guard(env, w', Http, token).1 == Guard(env, w', Socket, token).1 == Rejected(Revoked)
      && Guard(env, w', Did, token).1.Accepted?
      && LogOutAll(env, w', token, keys).1.ClosedAll?
  {
    assert EntryOk(env, w, table, token);
    LogOutBlocks(w, token);
  }

  lemma LogOutBlocks(w: World, token: string)
    requires LogOut(w, token).1.Closed?
    ensures IsTokenBlocked(LogOut(w, token).0.store, token)
    ensures LogOut(w, token).0.store.now == w.store.now && LogOut(w, token).0.issued == w.issued
  {
    LogOutView(w.store, token);
    assert ViewOf(LogOut(w, token).0.store, token).blocked == Some(Timed(Text("1"), w.store.now + DAY * 1000));
  }

  /** A block outlives the token exactly when the token lives no longer than the block. */
  lemma BlockCoversTokenIff(claims: Claims, blockedAt: nat)
    requires !Expired(claims, blockedAt)
    ensures (forall now: nat :: now >= blockedAt ==> now < blockedAt + DAY * 1000 || Expired(claims, now))
            <==> ExpiryTime(claims) <= blockedAt + DAY * 1000
  {
    ExpiredFromExpiryTime(claims, blockedAt + DAY * 1000);
    forall now: nat ensures Expired(claims, now) <==> now >= ExpiryTime(claims) {
      ExpiredFromExpiryTime(claims, now);
    }
  }

  /** A refresh token used as a bearer has no caches to agree with: it is a user without presentation. */
  lemma RefreshBearerIsUnverified(env: Env, w: World, table: Table, channel: Channel, token: string)
    requires ValidEnv(env) && Inv(env, w, table) && token in w.issued && w.issued[token].Refresh?
    ensures Guard(env, w, channel, token)
            == (w, if !channel.Did? && IsTokenBlocked(w.store, token) then Rejected(Revoked)
                   else if Expired(w.issued[token], w.store.now) then Rejected(InvalidToken)
                   else Accepted(UserOn(channel, w.issued[token])))
  {
    assert EntryOk(env, w, table, token);
    if channel.Did? {
      DidGuardOnToken(env, w, table, token);
    } else {
      NoVpForRefresh(env, w.store, token, w.issued[token].address);
      if !IsTokenBlocked(w.store, token) && JwtVerify(w, token).Some? {
        GuardChecks(env, w, channel, token);
      }
    }
  }

  // ----- log-out-all -----

  /**
   Log-out-all closes a token exactly when its live presentation names the bearer's address:
   that token is then blocked and without presentation on both levels. The entries of every
   other token stay as they were.
   */
  lemma LogOutAllIsExact(env: Env, w: World, bearer: string, keys: seq<string>, token: string)
    requires ScanOf(w.store, keys) && DidGuard(w, bearer).Accepted?
    ensures var s := LogOutAll(env, w, bearer, keys).0.store;
      if Names(env, ScannedVp(w.store, token), DidGuard(w, bearer).user.address) then
        IsTokenBlocked(s, token) && GetVp(s, token).1 == None
        && ViewOf(s, token).verified == ViewOf(w.store, token).verified
      else ViewOf(s, token) == ViewOf(w.store, token)
  {
    var address := DidGuard(w, bearer).user.address;
    VpKeyPrefix(token);
    CloseNamedIsExact(env, w.store, address, keys, token);
    var s := CloseNamed(env, w.store, address, keys);
    if Names(env, ScannedVp(w.store, token), address) {
      assert Target(env, w.store, address, keys, token);
      assert ViewOf(s, token).blocked == Some(Timed(Text("1"), w.store.now + DAY * 1000));
    }
  }

  /** The scan leaves every entry outside the block list and the presentations alone. */
  lemma {:induction false} LogOutAllFrame(env: Env, s: Store, address: string, keys: seq<string>, key: string)
    requires ReadKey(key).Some? ==> !ReadKey(key).value.Blocked? && !ReadKey(key).value.Vp?
    ensures var s' := CloseNamed(env, s, address, keys);
      At(s'.redis, key) == At(s.redis, key) && At(s'.local, key) == At(s.local, key)
    decreases |keys|
  {
    if keys == [] {
    } else {
      LogOutAllFrame(env, s, address, keys[..|keys| - 1], key);
    }
  }

  /**
   The endpoint's documentation promises that all access tokens of the wallet are blocked.
   A session opened by refresh, or by a log-in without credentials, holds the "EMPTY" marker,
   names no holder, and is still accepted by every guard after the log-out-all of its own address.
   */
  lemma LogOutAllMissesEmptySessions(env: Env, w: World, table: Table, bearer: string, keys: seq<string>,
                                     token: string, channel: Channel)
    requires ValidEnv(env) && Inv(env, w, table) && ScanOf(w.store, keys)
    requires env.holderOf("EMPTY") == None
    requires DidGuard(w, bearer).Accepted?
    requires token in table && table[token].stored == Some("EMPTY")
    requires !table[token].revoked && !Expired(table[token].claims, w.store.now)
    ensures Guard(env, LogOutAll(env, w, bearer, keys).0, channel, token).1.Accepted?
  {
    var (w', reply) := LogOutAll(env, w, bearer, keys);
    var table' := Record(env, table, reply);
    LogOutAllKeepsInv(env, w, table, bearer, keys);
    CloseNamedIsExact(env, w.store, DidGuard(w, bearer).user.address, keys, token);
    assert table'[token] == table[token] && !Real(Some("EMPTY"));
    assert EntryOk(env, w', table', token);
    GuardOnToken(env, w', table', channel, token);
  }

  /**
   Exactly when log-out-all ends a live session: its stored presentation names the address.
   */
  lemma LogOutAllEndsSessionIff(env: Env, w: World, table: Table, bearer: string, keys: seq<string>, token: string)
    requires ValidEnv(env) && Inv(env, w, table) && ScanOf(w.store, keys)
    requires DidGuard(w, bearer).Accepted?
    requires token in table && !table[token].revoked && !Expired(table[token].claims, w.store.now)
    ensures IsTokenBlocked(LogOutAll(env, w, bearer, keys).0.store, token)
            <==> Held(env, table[token], DidGuard(w, bearer).user.address)
  {
    assert EntryOk(env, w, table, token);
    LogOutAllIsExact(env, w, bearer, keys, token);
    TargetMeansHeld(env, w, table, DidGuard(w, bearer).user.address, keys, token);
    VpKeyPrefix(token);
  }

  /** A session that names the bearer's address is ended, for the guards that read the block list. */
  lemma LogOutAllEndsHeld(env: Env, w: World, table: Table, bearer: string, keys: seq<string>, token: string,
                          channel: Channel)
    requires ValidEnv(env) && Inv(env, w, table) && ScanOf(w.store, keys)
    requires DidGuard(w, bearer).Accepted?
    requires token in table && Held(env, table[token], DidGuard(w, bearer).user.address)
    ensures Guard(env, LogOutAll(env, w, bearer, keys).0, channel, token).1.Accepted?
            <==> channel.Did? && !Expired(table[token].claims, w.store.now)
  {
    var (w', reply) := LogOutAll(env, w, bearer, keys);
    LogOutAllKeepsInv(env, w, table, bearer, keys);
    CloseNamedIsExact(env, w.store, reply.address, keys, token);
    RevokedSession(env, w', Record(env, table, reply), token, channel);
  }

  // ----- the premises can be met -----

  /** A challenge and a signed log-in are a legal run that opens a session with its presentation. */
  lemma SignedLogInRunIsLegal(env: Env, w: World, login: Login)
    requires ValidEnv(env) && Initial(w) && login.guardian.Some? && login.challenge != ""
    requires env.recover(login.challenge, login.signature) == Some(login.wallet)
    requires login.vcCount > 0 && login.vp.Created?
    ensures var steps := [AskChallenge(login.wallet, login.challenge), DoLogIn(login)];
      var claims := AccessClaims(w, login.wallet, login.guardian.value, login.vcCount);
      && LegalRun(env, w, steps)
      && Run(env, w, steps).1
         == [Challenged(login.wallet),
             Opened(login.wallet, true, env.sign(claims), claims, Some(login.vp.vpJwt))]
  {
    var steps := [AskChallenge(login.wallet, login.challenge), DoLogIn(login)];
    var w1 := CreateChallenge(w, login.wallet, login.challenge);
    assert RedisGet(w1.store, Render(ChallengeOf(login.wallet))) == Some(Text(login.challenge));
    assert steps[..0] == [] && steps[..2] == steps;
    assert Run(env, w, steps[..0]) == (w, []);
    RunUnfolds(env, w, steps, 0);
    assert Next(env, w, steps[0]) == (w1, Challenged(login.wallet));
    assert Run(env, w, steps[..1]) == (w1, [] + [Challenged(login.wallet)]);
    RunUnfolds(env, w, steps, 1);
    assert Next(env, w1, steps[1]) == LogIn(env, w1, login);
  }

  /** A session with one presentation, not checked so far. */
  function FirstSession(claims: Claims, vpJwt: string): Session {
    Session(claims, Some(vpJwt), false, {vpJwt}, None)
  }

  /** The session that this run opens: with its presentation, unrevoked, and not checked so far. */
  lemma SignedLogInSession(env: Env, w: World, login: Login)
    requires ValidEnv(env) && Initial(w) && login.guardian.Some? && login.challenge != ""
    requires env.recover(login.challenge, login.signature) == Some(login.wallet)
    requires login.vcCount > 0 && login.vp.Created?
    ensures var steps := [AskChallenge(login.wallet, login.challenge), DoLogIn(login)];
      var claims := AccessClaims(w, login.wallet, login.guardian.value, login.vcCount);
      var (w2, replies) := Run(env, w, steps);
      && Inv(env, w2, History(env, replies))
      && History(env, replies) == map[env.sign(claims) := FirstSession(claims, login.vp.vpJwt)]
      && !Expired(claims, w2.store.now)
  {
    var steps := [AskChallenge(login.wallet, login.challenge), DoLogIn(login)];
    SignedLogInRunIsLegal(env, w, login);
    SignedLogInLeaves(env, w, login);
    RunKeepsInv(env, w, steps);
    var replies := Run(env, w, steps).1;
    HistoryGrows(env, [], replies[0]);
    HistoryGrows(env, [replies[0]], replies[1]);
    assert [] + [replies[0]] == [replies[0]] && [replies[0]] + [replies[1]] == replies;
  }

  /** A log-in whose presentation verifies for its wallet is accepted as verified right away. */
  lemma VerifiedLogInIsAccepted(env: Env, w: World, login: Login, holder: string, n: nat, channel: Channel)
    requires ValidEnv(env) && Initial(w) && login.guardian.Some? && login.challenge != "" && !channel.Did?
    requires env.recover(login.challenge, login.signature) == Some(login.wallet)
    requires login.vcCount > 0 && login.vp.Created?
    requires Assess(env, Some(login.vp.vpJwt), login.wallet) == Presented(holder, n)
    ensures var steps := [AskChallenge(login.wallet, login.challenge), DoLogIn(login)];
      var token := env.sign(AccessClaims(w, login.wallet, login.guardian.value, login.vcCount));
      var d := Guard(env, Run(env, w, steps).0, channel, token).1;
      && LegalRun(env, w, steps)
      && d.Accepted? && d.user.vpVerified && d.user.vpHolder == Some(holder) && d.user.vcCount == Some(n)
  {
    var steps := [AskChallenge(login.wallet, login.challenge), DoLogIn(login)];
    var token := env.sign(AccessClaims(w, login.wallet, login.guardian.value, login.vcCount));
    SignedLogInRunIsLegal(env, w, login);
    SignedLogInSession(env, w, login);
    var (w2, replies) := Run(env, w, steps);
    assert EntryOk(env, w2, History(env, replies), token);
    GuardOnToken(env, w2, History(env, replies), channel, token);
  }

  /** The shortest downgrade: a challenge, a log-in with a presentation, and a refresh, all in one second. */
  lemma RefreshInTheSameSecondDowngrades(env: Env, w: World, login: Login, channel: Channel)
    requires ValidEnv(env) && Initial(w) && login.guardian.Some? && login.challenge != "" && !channel.Did?
    requires env.recover(login.challenge, login.signature) == Some(login.wallet)
    requires login.vcCount > 0 && login.vp.Created? && Real(Some(login.vp.vpJwt))
    ensures var w2 := Run(env, w, [AskChallenge(login.wallet, login.challenge), DoLogIn(login)]).0;
      var token := env.sign(AccessClaims(w, login.wallet, login.guardian.value, login.vcCount));
      var refresh := env.sign(RefreshClaims(w, login.wallet));
      var (w3, reply) := RefreshSession(env, w2, refresh, login.guardian, login.vcCount);
      var d := Guard(env, w3, channel, token).1;
      reply.Opened? && reply.token == token && d.Accepted? && !d.user.vpVerified
  {
    var opening := [AskChallenge(login.wallet, login.challenge), DoLogIn(login)];
    var (w2, replies) := Run(env, w, opening);
    SignedLogInSession(env, w, login);
    SignedLogInLeaves(env, w, login);
    SameSecondRefreshDowngrades(env, w2, History(env, replies),
                                env.sign(AccessClaims(w, login.wallet, login.guardian.value, login.vcCount)),
                                env.sign(RefreshClaims(w, login.wallet)), login.guardian.value, login.vcCount, channel);
  }

  /** The world after that log-in: the same second, and a refresh token that validates. */
  lemma SignedLogInLeaves(env: Env, w: World, login: Login)
    requires ValidEnv(env) && Initial(w) && login.guardian.Some? && login.challenge != ""
    requires env.recover(login.challenge, login.signature) == Some(login.wallet)
    requires login.vcCount > 0 && login.vp.Created?
    ensures var w2 := Run(env, w, [AskChallenge(login.wallet, login.challenge), DoLogIn(login)]).0;
      && w2.store.now == w.store.now
      && ValidateRefresh(w2, env.sign(RefreshClaims(w, login.wallet))) == Some(RefreshClaims(w, login.wallet))
  {
    var steps := [AskChallenge(login.wallet, login.challenge), DoLogIn(login)];
    var w1 := CreateChallenge(w, login.wallet, login.challenge);
    assert RedisGet(w1.store, Render(ChallengeOf(login.wallet))) == Some(Text(login.challenge));
    assert steps[..0] == [] && steps[..2] == steps;
    RunUnfolds(env, w, steps, 0);
    RunUnfolds(env, w, steps, 1);
    assert Run(env, w, steps).0 == LogIn(env, w1, login).0;
  }

  // ----- a token signed twice -----

  /**
   A JWT is determined by its claims and the second. When a presentation is stored under a token
   that was signed before, the check answers for it exactly when it is the marker of none, or no
   verification with a different answer is cached.
   */
  lemma ReissueIsExactIff(env: Env, s: Store, token: string, vpJwt: string, address: string)
    requires s.unit > 0
    ensures var cached := GetVerification(s, token).1;
      CheckPresentation(env, SetVp(s, token, vpJwt, DAY), token, address).1 == Assess(env, Some(vpJwt), address)
      <==> !Real(Some(vpJwt)) || cached.None? || !cached.value.verified
           || Presented(cached.value.holder, cached.value.vcCount) == Assess(env, Some(vpJwt), address)
  {
    var s' := SetVp(s, token, vpJwt, DAY);
    SetVpView(s, token, vpJwt, DAY);
    assert ViewOf(s', token).localVp.value.deadline > s.now;
    assert ViewOf(s', token).verified == ViewOf(s, token).verified;
    assert ViewOf(s', token).localVerified == ViewOf(s, token).localVerified;
    assert GetVp(s', token) == (s', Some(vpJwt));
    assert GetVerification(s', token).1 == GetVerification(s, token).1;
  }

  /**
   A log-in in the second of a log-out of the same wallet answers with a token that is blocked: the
   checking guards refuse it, the DID guard accepts it.
   */
  lemma ReissuedTokenIsBlocked(env: Env, w: World, table: Table, login: Login, token: string, channel: Channel)
    requires ValidEnv(env) && Inv(env, w, table)
    requires token in table && table[token].revoked
    requires LogIn(env, w, login).1.Opened? && LogIn(env, w, login).1.token == token
    ensures var (w', reply) := LogIn(env, w, login);
      Guard(env, w', channel, token).1.Accepted? <==> channel.Did?
  {
    LogInKeepsInv(env, w, table, login);
    OpenedClaims(env, w, DoLogIn(login));
    assert EntryOk(env, w, table, token);
    var (w', reply) := LogIn(env, w, login);
    assert reply.claims == table[token].claims && w'.store.now == w.store.now;
    RevokedSession(env, w', Record(env, table, reply), token, channel);
  }
}
