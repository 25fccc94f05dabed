/**
 What each request answers and leaves behind, in every run: log-in, refresh, log-out and log-out-all from
 the requests made before, and the guards with the user they let in and the reason they give.
 */
module SessionRequests {
  import opened Did
  import opened Gateway
  import opened GatewayProofs
  import opened OneTimeUse
  import opened RefreshTokens
  import opened SessionFrames
  import opened SessionKeys
  import opened SessionTheorems
  import opened Sessions
  import opened Text
  import opened Wrappers

  // ----- log-in -----

  /** A presentation is due when the wallet has credentials and one was sent. */
  predicate Due(login: Login) {
    login.vcCount > 0 && !login.vp.NotSent?
  }

  /** What a log-in stores under its token: its presentation, the marker of none, or nothing if it was refused. */
  function StoredBy(login: Login): Option<string> {
    if !Due(login) then Some("EMPTY") else if login.vp.Created? then Some(login.vp.vpJwt) else None
  }

  /** The claims of an access token signed now for the answers of the credential service. */
  function ClaimsNow(w: World, wallet: string, isGuardian: bool, vcCount: nat): Claims {
    Access(wallet, isGuardian, vcCount, w.store.now / 1000)
  }

  /**
   In every run, what a log-in answers: it is denied, and changes nothing, unless the wallet signed its
   open challenge; it goes no further when the credential service fails; and otherwise it opens a session
   with the answers of that service, whether or not the wallet has anything to present.
   */
  lemma LogInIsDecided(env: Env, w: World, steps: seq<Step>, login: Login)
    requires ValidEnv(env) && w.store.redis == map[]
    ensures var before := Run(env, w, steps).0;
      var (after, reply) := Next(env, before, DoLogIn(login));
      if !Signs(env, w, steps, login.wallet, login.challenge, login.signature) then reply == Denied && after == before
      else if login.guardian.None? then reply == SignedOnly(login.wallet)
      else
        var claims := ClaimsNow(before, login.wallet, login.guardian.value, login.vcCount);
        reply == Opened(login.wallet, true, env.sign(claims), claims, StoredBy(login))
  {
    AcceptedSignatureIsFresh(env, w, steps, login.wallet, login.challenge, login.signature);
  }

  /** So a session with something stored is opened exactly under these conditions. */
  lemma LogInOpensIff(env: Env, w: World, steps: seq<Step>, login: Login)
    requires ValidEnv(env) && w.store.redis == map[]
    ensures var reply := Next(env, Run(env, w, steps).0, DoLogIn(login)).1;
      && (reply.Opened? && reply.stored.Some?
          <==> Signs(env, w, steps, login.wallet, login.challenge, login.signature) && login.guardian.Some?
               && (login.vcCount == 0 || login.vp.NotSent? || login.vp.Created?))
      && (reply.Opened? && (login.vcCount == 0 || login.vp.NotSent?) ==> reply.stored == Some("EMPTY"))
  {
    LogInIsDecided(env, w, steps, login);
  }

  /** What a session opened at this time leaves in Redis and in the local cache. */
  ghost predicate LogInEntries(env: Env, now: nat, unit: nat, w: World, login: Login, token: string, stored: string) {
    var refresh := Refresh(login.wallet, now / 1000);
    && ViewOf(w.store, token).vp == Some(Timed(VpRecord(stored, now), now + 86400000))
    && ViewOf(w.store, token).localVp == Some(Timed(VpRecord(stored, now), now + 300 * unit))
    && Entry(w, AccessOf(login.wallet)) == Some(Timed(Text(token), now + 86400000))
    && Entry(w, RefreshOf(login.wallet)) == Some(Timed(Text(env.sign(refresh)), now + 604800000))
    && (Due(login) ==> Entry(w, HolderVp(login.wallet)) == Some(Timed(Text(stored), now + 3600000)))
    && ValidateRefresh(w, env.sign(refresh)) == Some(refresh)
  }

  /** Different entries, different keys. */
  lemma KeysDiffer(a: KeyId, b: KeyId)
    requires WellFormed(a) && WellFormed(b) && a != b
    ensures Render(a) != Render(b)
  {
    KeysStayApart(a);
    KeysStayApart(b);
  }

  /** The keys a log-in of this wallet writes, and that of its token, all differ. */
  lemma LogInKeys(wallet: string, token: string)
    requires HexAddress(wallet)
    ensures VpKey(token) == Render(Vp(token))
    ensures var (access, refresh, holder, vp) :=
              (Render(AccessOf(wallet)), Render(RefreshOf(wallet)), Render(HolderVp(wallet)), VpKey(token));
      access != refresh && access != holder && access != vp && refresh != holder && refresh != vp && holder != vp
  {
    assert VpKey(token) == Render(Vp(token));
    KeysDiffer(AccessOf(wallet), RefreshOf(wallet));
    KeysDiffer(AccessOf(wallet), HolderVp(wallet));
    KeysDiffer(AccessOf(wallet), Vp(token));
    KeysDiffer(RefreshOf(wallet), HolderVp(wallet));
    KeysDiffer(RefreshOf(wallet), Vp(token));
    KeysDiffer(HolderVp(wallet), Vp(token));
  }

  /** The three or four writes of a log-in, in either order, with the keys they go to. */
  lemma LogInWrites(s: Store, access: string, refresh: string, holder: string, vp: string, token: string,
                    stored: string, renewal: string)
    requires access != refresh && access != holder && access != vp && refresh != holder && refresh != vp && holder != vp
    ensures var plain := LocalSet(SetEx(SetEx(SetEx(s, access, DAY, Text(token)), refresh, 604800, Text(renewal)),
                                        vp, DAY, VpRecord(stored, s.now)), vp, VpRecord(stored, s.now), 300);
      Written(s, plain, access, refresh, vp, token, stored, renewal)
    ensures var kept := SetEx(SetEx(s, access, DAY, Text(token)), holder, 3600, Text(stored));
      var full := SetEx(LocalSet(SetEx(kept, vp, DAY, VpRecord(stored, s.now)), vp, VpRecord(stored, s.now), 300),
                        refresh, 604800, Text(renewal));
      && Written(s, full, access, refresh, vp, token, stored, renewal)
      && At(full.redis, holder) == Some(Timed(Text(stored), s.now + 3600000))
  {
  }

  predicate Written(s: Store, s': Store, access: string, refresh: string, vp: string, token: string,
                    stored: string, renewal: string) {
    && At(s'.redis, access) == Some(Timed(Text(token), s.now + 86400000))
    && At(s'.redis, refresh) == Some(Timed(Text(renewal), s.now + 604800000))
    && At(s'.redis, vp) == Some(Timed(VpRecord(stored, s.now), s.now + 86400000))
    && At(s'.local, vp) == Some(Timed(VpRecord(stored, s.now), s.now + 300 * s.unit))
    && s'.now == s.now
  }

  /** The store that a log-in leaves, as a chain of writes. */
  lemma LogInStore(env: Env, w: World, login: Login)
    requires login.guardian.Some? && StoredBy(login).Some?
    ensures var (s, wallet, stored) := (w.store, login.wallet, StoredBy(login).value);
      var token := env.sign(ClaimsNow(w, wallet, login.guardian.value, login.vcCount));
      var (renewal, record) := (env.sign(Refresh(wallet, s.now / 1000)), VpRecord(stored, s.now));
      var first := SetEx(s, Render(AccessOf(wallet)), DAY, Text(token));
      var kept := SetEx(first, Render(HolderVp(wallet)), 3600, Text(stored));
      SignedLogIn(env, w, login).0.store
      == if Due(login)
         then SetEx(LocalSet(SetEx(kept, VpKey(token), DAY, record), VpKey(token), record, 300),
                    Render(RefreshOf(wallet)), 604800, Text(renewal))
         else LocalSet(SetEx(SetEx(first, Render(RefreshOf(wallet)), 604800, Text(renewal)), VpKey(token), DAY, record),
                       VpKey(token), record, 300)
  {
  }

  lemma IssuedByLogIn(env: Env, w: World, login: Login)
    requires ValidEnv(env) && login.guardian.Some? && StoredBy(login).Some?
    ensures var (w', refresh) := (SignedLogIn(env, w, login).0, Refresh(login.wallet, w.store.now / 1000));
      env.sign(refresh) in w'.issued && w'.issued[env.sign(refresh)] == refresh
  {
  }

  /** The writes of this log-in, at the keys of its wallet and token. */
  predicate WrittenFor(env: Env, s: Store, s': Store, wallet: string, token: string, stored: string) {
    Written(s, s', Render(AccessOf(wallet)), Render(RefreshOf(wallet)), VpKey(token), token, stored,
            env.sign(Refresh(wallet, s.now / 1000)))
  }

  lemma LogInIsWritten(env: Env, w: World, login: Login)
    requires login.guardian.Some? && HexAddress(login.wallet) && StoredBy(login).Some?
    ensures var (s', wallet) := (SignedLogIn(env, w, login).0.store, login.wallet);
      var token := env.sign(ClaimsNow(w, wallet, login.guardian.value, login.vcCount));
      && WrittenFor(env, w.store, s', wallet, token, StoredBy(login).value)
      && (Due(login) ==>
            At(s'.redis, Render(HolderVp(wallet))) == Some(Timed(Text(StoredBy(login).value), w.store.now + 3600000)))
  {
    var wallet := login.wallet;
    var token := env.sign(ClaimsNow(w, wallet, login.guardian.value, login.vcCount));
    LogInKeys(wallet, token);
    LogInWrites(w.store, Render(AccessOf(wallet)), Render(RefreshOf(wallet)), Render(HolderVp(wallet)), VpKey(token),
                token, StoredBy(login).value, env.sign(Refresh(wallet, w.store.now / 1000)));
    LogInStore(env, w, login);
  }

  /** Entries written as this, with the refresh token on record, are those of an opened session. */
  lemma WrittenIsOpened(env: Env, w: World, w': World, login: Login, token: string, stored: string)
    requires ValidEnv(env) && WrittenFor(env, w.store, w'.store, login.wallet, token, stored)
    requires var refresh := Refresh(login.wallet, w.store.now / 1000);
      env.sign(refresh) in w'.issued && w'.issued[env.sign(refresh)] == refresh
    requires Due(login) ==> Entry(w', HolderVp(login.wallet)) == Some(Timed(Text(stored), w.store.now + 3600000))
    ensures LogInEntries(env, w.store.now, w.store.unit, w', login, token, stored)
  {
  }

  lemma SignedLogInOpens(env: Env, w: World, login: Login, w': World, reply: Reply)
    requires ValidEnv(env) && login.guardian.Some? && HexAddress(login.wallet) && StoredBy(login).Some?
    requires SignedLogIn(env, w, login) == (w', reply)
    ensures reply.Opened? && reply.stored.Some?
    ensures LogInEntries(env, w.store.now, w.store.unit, w', login, reply.token, reply.stored.value)
  {
    SignedReply(env, w, login);
    LogInIsWritten(env, w, login);
    IssuedByLogIn(env, w, login);
    WrittenIsOpened(env, w, w', login, reply.token, reply.stored.value);
  }

  lemma LogInLeaves(env: Env, w: World, login: Login, w': World, reply: Reply)
    requires ValidEnv(env) && LogIn(env, w, login) == (w', reply) && reply.Opened? && reply.stored.Some?
    ensures LogInEntries(env, w.store.now, w.store.unit, w', login, reply.token, reply.stored.value)
  {
    var w1 := SignedStart(env, w, login);
    SignedReply(env, w1, login);
    SignedLogInOpens(env, w1, login, w', reply);
  }

  /** A log-in that opens a session is a signed one, from the world in which its challenge is used up. */
  lemma SignedStart(env: Env, w: World, login: Login) returns (w1: World)
    requires ValidEnv(env) && LogIn(env, w, login).1.Opened?
    ensures w1.store.now == w.store.now && w1.store.unit == w.store.unit
    ensures login.guardian.Some? && HexAddress(login.wallet) && LogIn(env, w, login) == SignedLogIn(env, w1, login)
  {
    w1 := VerifySignature(env, w, login.wallet, login.challenge, login.signature).0;
    SignerIsHex(env, w, login);
  }

  lemma SignedReply(env: Env, w: World, login: Login)
    requires login.guardian.Some?
    ensures var claims := ClaimsNow(w, login.wallet, login.guardian.value, login.vcCount);
      SignedLogIn(env, w, login).1 == Opened(login.wallet, true, env.sign(claims), claims, StoredBy(login))
  {
  }

  /** A wallet without a presentation is served: every guard accepts its session, unless that token was revoked. */
  lemma LogInIsServed(env: Env, w: World, steps: seq<Step>, login: Login, channel: Channel)
    requires ValidEnv(env) && Initial(w) && LegalRun(env, w, steps)
    requires Signs(env, w, steps, login.wallet, login.challenge, login.signature) && login.guardian.Some?
    requires !Due(login)
    requires var (before, replies) := Run(env, w, steps);
      var token := env.sign(ClaimsNow(before, login.wallet, login.guardian.value, login.vcCount));
      token in History(env, replies) ==> !History(env, replies)[token].revoked
    ensures var before := Run(env, w, steps).0;
      var (after, reply) := Next(env, before, DoLogIn(login));
      reply.Opened? && Guard(env, after, channel, reply.token).1.Accepted?
  {
    var (before, replies) := Run(env, w, steps);
    var table := History(env, replies);
    RunKeepsInv(env, w, steps);
    LogInIsDecided(env, w, steps, login);
    LogInKeepsInv(env, before, table, login);
    var (after, reply) := LogIn(env, before, login);
    assert EntryOk(env, before, table, reply.token);
    assert EntryOk(env, after, Record(env, table, reply), reply.token);
    OpenedClaims(env, before, DoLogIn(login));
    assert after.store.now == before.store.now;
    if channel.Did? {
      DidGuardOnToken(env, after, Record(env, table, reply), reply.token);
    } else {
      GuardOnSession(env, after, Record(env, table, reply), reply.token, channel);
    }
  }

  // ----- refresh -----

  /** In any state, what is validated: a signed refresh token in its seven days, stored and live for its address. */
  lemma ValidateRefreshIff(w: World, token: string, claims: Claims)
    ensures ValidateRefresh(w, token) == Some(claims)
            <==> && |token| > 0 && token in w.issued && w.issued[token] == claims && claims.Refresh?
                 && w.store.now / 1000 < claims.iat + 604800
                 && Entry(w, RefreshOf(claims.address)).Some?
                 && Entry(w, RefreshOf(claims.address)).value.value == Text(token)
                 && w.store.now < Entry(w, RefreshOf(claims.address)).value.deadline
  {
  }

  /** The token is the last refresh token signed for the wallet, and its seven days are not over. */
  ghost predicate Current(env: Env, w: World, steps: seq<Step>, token: string, wallet: string) {
    && LastRefresh(env, w, steps, wallet).Some?
    && var (last, at) := LastRefresh(env, w, steps, wallet).value;
       last == token && Run(env, w, steps).0.store.now / 1000 < at / 1000 + 604800
  }

  /**
   In every run, what a refresh answers: a new session of the wallet, unverified, with the answers the
   credential service gives now, when the token is current; denied, and nothing changed, when it is not or
   the service fails. The refresh token stays valid.
   */
  lemma RefreshIsDecided(env: Env, w: World, steps: seq<Step>, token: string, guardian: Option<bool>, vcCount: nat,
                         wallet: string)
    requires ValidEnv(env) && w.store.redis == map[]
    ensures var before := Run(env, w, steps).0;
      var (after, reply) := Next(env, before, DoRefresh(token, guardian, vcCount));
      && (Current(env, w, steps, token, wallet) && guardian.Some? ==>
            Refreshed(env, before, after, reply, token, wallet, guardian.value, vcCount))
      && (guardian.None? || (forall other :: !Current(env, w, steps, token, other)) ==>
            reply == Denied && after == before)
  {
    var before := Run(env, w, steps).0;
    if guardian.None? {
    } else if Current(env, w, steps, token, wallet) {
      RunKeepsLast(env, w, steps, wallet);
      ValidUntilExpiry(env, before, token, LastRefresh(env, w, steps, wallet).value.1, wallet);
      RefreshAnswers(env, before, token, guardian.value, vcCount);
    } else if ValidateRefresh(before, token).Some? {
      var owner := ValidateRefresh(before, token).value.address;
      RefreshOpensIff(env, w, steps, token, owner, guardian.value, vcCount);
      assert Current(env, w, steps, token, owner);
    }
  }

  /** A session opened by refresh: unverified, under a token of this second; the refresh token is as valid as before. */
  ghost predicate Refreshed(env: Env, w: World, w': World, reply: Reply, token: string, wallet: string,
                            isGuardian: bool, vcCount: nat) {
    var claims := ClaimsNow(w, wallet, isGuardian, vcCount);
    && reply == Opened(wallet, false, env.sign(claims), claims, Some("EMPTY"))
    && ViewOf(w'.store, env.sign(claims)).vp
       == Some(Timed(VpRecord("EMPTY", w.store.now), w.store.now + 86400000))
    && ValidateRefresh(w', token) == ValidateRefresh(w, token)
  }

  lemma RefreshAnswers(env: Env, w: World, token: string, isGuardian: bool, vcCount: nat)
    requires ValidEnv(env) && ValidateRefresh(w, token).Some? && token == env.sign(ValidateRefresh(w, token).value)
    ensures var (w', reply) := RefreshSession(env, w, token, Some(isGuardian), vcCount);
      Refreshed(env, w, w', reply, token, ValidateRefresh(w, token).value.address, isGuardian, vcCount)
  {
    var previous := ValidateRefresh(w, token).value;
    var claims := ClaimsNow(w, previous.address, isGuardian, vcCount);
    var (w', reply) := RefreshSession(env, w, token, Some(isGuardian), vcCount);
    var w1 := CreateAccessToken(env, w, previous.address, isGuardian, vcCount).0;
    assert w' == w1.(store := SetVp(w1.store, env.sign(claims), "EMPTY", DAY));
    SetVpView(w1.store, env.sign(claims), "EMPTY", DAY);
    RefreshSessionFrame(env, w, token, Some(isGuardian), vcCount, RefreshOf(previous.address));
    SameValidation(w, w', token, previous);
  }

  /** The same record and the same entry: the same answer on a refresh token. */
  lemma SameValidation(w: World, w': World, token: string, claims: Claims)
    requires ValidateRefresh(w, token) == Some(claims) && w'.store.now == w.store.now
    requires token in w'.issued && w'.issued[token] == claims
    requires Entry(w', RefreshOf(claims.address)) == Entry(w, RefreshOf(claims.address))
    ensures ValidateRefresh(w', token) == Some(claims)
  {
  }

  // ----- log-out and log-out-all -----

  /** A token that was signed, in its first day or, if it is a refresh token, in its first seven. */
  predicate Unexpired(w: World, token: string) {
    token in w.issued
    && w.store.now / 1000 < w.issued[token].iat + (if w.issued[token].Access? then 86400 else 604800)
  }

  /** Only an unexpired bearer passes the DID guard, as the user of its address. */
  lemma BearerIsDecided(env: Env, w: World, table: Table, token: string)
    requires ValidEnv(env) && Inv(env, w, table)
    ensures DidGuard(w, token).Accepted? <==> Unexpired(w, token)
    ensures Unexpired(w, token) ==> DidGuard(w, token).user.address == Lower(w.issued[token].address)
  {
    assert EntryOk(env, w, table, token);
    DidGuardOnToken(env, w, table, token);
  }

  lemma LogOutEntries(w: World, token: string)
    requires DidGuard(w, token).Accepted?
    ensures var (w', reply) := LogOut(w, token);
      && reply == Closed(token)
      && ViewOf(w'.store, token) == View(Some(Timed(Text("1"), w.store.now + 86400000)), None, None, None, None)
      && forall t :: t != token ==> ViewOf(w'.store, t) == ViewOf(w.store, t)
  {
    LogOutView(w.store, token);
  }

  /** An unexpired bearer is logged out, blocked for a day and rid of its entries; no other is. */
  ghost predicate LoggedOut(w: World, w': World, reply: Reply, token: string) {
    if Unexpired(w, token) then
      && reply == Closed(token)
      && ViewOf(w'.store, token) == View(Some(Timed(Text("1"), w.store.now + 86400000)), None, None, None, None)
      && forall t :: t != token ==> ViewOf(w'.store, t) == ViewOf(w.store, t)
    else reply == Denied && w' == w
  }

  lemma LogOutAnswers(env: Env, w: World, table: Table, token: string)
    requires ValidEnv(env) && Inv(env, w, table)
    ensures LoggedOut(w, Next(env, w, DoLogOut(token)).0, Next(env, w, DoLogOut(token)).1, token)
  {
    BearerIsDecided(env, w, table, token);
    if DidGuard(w, token).Accepted? {
      LogOutEntries(w, token);
    }
  }

  lemma LogOutIsDecided(env: Env, w: World, steps: seq<Step>, token: string)
    requires ValidEnv(env) && Initial(w) && LegalRun(env, w, steps)
    ensures var before := Run(env, w, steps).0;
      LoggedOut(before, Next(env, before, DoLogOut(token)).0, Next(env, before, DoLogOut(token)).1, token)
  {
    RunKeepsInv(env, w, steps);
    LogOutAnswers(env, Run(env, w, steps).0, History(env, Run(env, w, steps).1), token);
  }

  /** The presentation stored in Redis for the token names this address as its holder, but for case. */
  ghost predicate NamesHolder(env: Env, s: Store, token: string, address: string) {
    exists vpJwt, at, deadline, holder ::
      && ViewOf(s, token).vp == Some(Timed(VpRecord(vpJwt, at), deadline)) && s.now < deadline
      && env.holderOf(vpJwt) == Some(holder) && SameUpToCase(holder, address)
  }

  lemma NamesHolderIff(env: Env, s: Store, token: string, address: string)
    ensures NamesHolder(env, s, token, address) <==> Names(env, ScannedVp(s, token), address)
  {
    var entry := ViewOf(s, token).vp;
    if entry.Some? && entry.value.value.VpRecord? && env.holderOf(entry.value.value.vpJwt).Some? {
      SameAddressIff(env.holderOf(entry.value.value.vpJwt).value, address);
    }
  }

  /** The answer to a log-out-all, and what it leaves of the entries of one token. */
  ghost predicate LoggedOutAll(env: Env, w: World, w': World, reply: Reply, bearer: string, token: string) {
    if Unexpired(w, bearer) then
      var address := w.issued[bearer].address;
      && reply.ClosedAll? && SameUpToCase(reply.address, address)
      && ViewOf(w'.store, token)
         == if NamesHolder(env, w.store, token, address)
            then ViewOf(w.store, token).(
                   blocked := Some(Timed(Text("1"), w.store.now + 86400000)), vp := None, localVp := None)
            else ViewOf(w.store, token)
    else reply == Denied && w' == w
  }

  lemma LogOutAllEntries(env: Env, w: World, bearer: string, address: string, keys: seq<string>, token: string)
    requires DidGuard(w, bearer).Accepted? && DidGuard(w, bearer).user.address == Lower(address)
    requires ScanOf(w.store, keys)
    ensures var (w', reply) := LogOutAll(env, w, bearer, keys);
      && reply == ClosedAll(Lower(address))
      && ViewOf(w'.store, token)
         == if NamesHolder(env, w.store, token, address)
            then ViewOf(w.store, token).(
                   blocked := Some(Timed(Text("1"), w.store.now + 86400000)), vp := None, localVp := None)
            else ViewOf(w.store, token)
  {
    NamesEither(env, w.store, token, address);
    CloseNamedIsExact(env, w.store, Lower(address), keys, token);
    VpKeyPrefix(token);
  }

  lemma NamesEither(env: Env, s: Store, token: string, address: string)
    ensures NamesHolder(env, s, token, address) <==> Names(env, ScannedVp(s, token), Lower(address))
  {
    NamesHolderIff(env, s, token, address);
    LowerIdempotent(address);
  }

  lemma LogOutAllAnswers(env: Env, w: World, table: Table, bearer: string, keys: seq<string>, token: string)
    requires ValidEnv(env) && Inv(env, w, table) && ScanOf(w.store, keys)
    ensures LoggedOutAll(env, w, Next(env, w, DoLogOutAll(bearer, keys)).0, Next(env, w, DoLogOutAll(bearer, keys)).1,
                         bearer, token)
  {
    BearerIsDecided(env, w, table, bearer);
    if DidGuard(w, bearer).Accepted? {
      LowerIsLower(w.issued[bearer].address);
      LogOutAllEntries(env, w, bearer, w.issued[bearer].address, keys, token);
    }
  }

  /**
   In every run: an unexpired bearer logs out all sessions whose presentation names its address; they are
   blocked for a day and lose their presentation, and no other token's entries change.
   */
  lemma LogOutAllIsDecided(env: Env, w: World, steps: seq<Step>, bearer: string, keys: seq<string>, token: string)
    requires ValidEnv(env) && Initial(w) && LegalRun(env, w, steps) && ScanOf(Run(env, w, steps).0.store, keys)
    ensures var before := Run(env, w, steps).0;
      LoggedOutAll(env, before, Next(env, before, DoLogOutAll(bearer, keys)).0,
                   Next(env, before, DoLogOutAll(bearer, keys)).1, bearer, token)
  {
    RunKeepsInv(env, w, steps);
    LogOutAllAnswers(env, Run(env, w, steps).0, History(env, Run(env, w, steps).1), bearer, keys, token);
  }
}
