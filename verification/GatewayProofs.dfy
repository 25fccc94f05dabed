/**
 The session layer with its two caches, deadlines and revocation list refines a plain table
 of sessions that has no cache and no deadline but the expiry of the token itself.
 */
module GatewayProofs {
  import opened Did
  import opened Gateway
  import opened SessionKeys
  import opened Sessions
  import opened Text
  import opened Wrappers

  // ----- the simple form -----

  /**
   `past` holds every text stored under the token, of which `stored` is the last; `check` is the last
   full verification that a guard made for it.
   */
  datatype Session = Session(claims: Claims, stored: Option<string>, revoked: bool,
                             past: set<string>, check: Option<Check>)

  type Table = map<string, Session>

  /** The stored presentation of the session names this address. */
  predicate Held(env: Env, s: Session, address: string) {
    && s.stored.Some? && env.holderOf(s.stored.value).Some?
    && SameAddress(env.holderOf(s.stored.value).value, address)
  }

  function Texts(stored: Option<string>): set<string> {
    if stored.Some? then {stored.value} else {}
  }

  /** A token signed again is the same session: it keeps its revocation, and may change its presentation. */
  function Open(table: Table, token: string, claims: Claims, stored: Option<string>): Table {
    if token !in table then table[token := Session(claims, stored, false, Texts(stored), None)]
    else
      var s := table[token];
      table[token := s.(stored := if stored.Some? then stored else s.stored, past := s.past + Texts(stored))]
  }

  /** What a reply means for the table. */
  function Record(env: Env, table: Table, reply: Reply): Table {
    match reply
    case Opened(_, _, token, claims, stored) => Open(table, token, claims, stored)
    case Closed(token) => if token in table then table[token := table[token].(revoked := true)] else table
    case ClosedAll(address) =>
      map t | t in table :: if Held(env, table[t], address) then table[t].(revoked := true) else table[t]
    case Decided(token, _, check) =>
      if token in table && check.Some? then table[token := table[token].(check := check)] else table
    case _ => table
  }

  function History(env: Env, replies: seq<Reply>): Table
    decreases |replies|
  {
    if replies == [] then map[]
    else Record(env, History(env, replies[..|replies| - 1]), replies[|replies| - 1])
  }

  function Granted(d: Decision): Option<User> {
    match d
    case Accepted(user) => Some(user)
    case Rejected(_) => None
  }

  /** The user of a session on one of the two channels that check presentations. */
  function UserOn(channel: Channel, claims: Claims): User {
    if channel.Socket? then SocketUser(claims) else RequestUser(claims)
  }

  /** The guards of the simple form: full verification every time, but none behind the DID guard. */
  function TableGuard(env: Env, table: Table, now: nat, channel: Channel, token: string): Option<User> {
    if token !in table || Expired(table[token].claims, now) then None
    else
      var s := table[token];
      if channel.Did? then Some(UserOn(channel, s.claims))
      else if s.revoked then None
      else Granted(WithPresentation(UserOn(channel, s.claims), Assess(env, s.stored, s.claims.address)))
  }

  // ----- the invariant that ties the two -----

  /** The first millisecond at which the token is refused as expired. */
  function ExpiryTime(claims: Claims): nat {
    (claims.iat + Lifetime(claims)) * 1000
  }

  lemma ExpiredFromExpiryTime(claims: Claims, now: nat)
    ensures Expired(claims, now) <==> now >= ExpiryTime(claims)
  {
  }

  predicate HoldsVp(entry: Option<Timed>, vpJwt: string) {
    entry.Some? && entry.value.value.VpRecord? && entry.value.value.vpJwt == vpJwt
  }

  /** A cached verification equals what the last full verification gave. */
  predicate CacheAgrees(env: Env, entry: Option<Timed>, s: Session) {
    entry.Some? ==>
      var v := entry.value.value;
      && s.check.Some? && v.Verification? && v.verified
      && Assess(env, Some(s.check.value.vpJwt), s.claims.address) == Presented(v.holder, v.vcCount)
  }

  /** The life of a cached verification in Redis, in milliseconds. */
  const HOUR: nat := 3600000

  /** The cached verifications are those of the last check: an hour in Redis, at most 60 units more in the copy. */
  predicate CheckOk(env: Env, v: View, s: Session, unit: nat) {
    && (s.stored.Some? ==> s.stored.value in s.past)
    && (s.check.Some? ==> s.check.value.vpJwt in s.past && (s.revoked || v.verified.Some?))
    && CacheAgrees(env, v.verified, s) && CacheAgrees(env, v.localVerified, s)
    && (v.verified.Some? ==> v.verified.value.deadline == s.check.value.at + HOUR)
    && (v.localVerified.Some? ==> v.localVerified.value.deadline <= s.check.value.at + HOUR + 60 * unit)
  }

  predicate StoredAgrees(v: View, s: Session) {
    if s.stored.None? then v.vp == None && v.localVp == None
    else
      && HoldsVp(v.vp, s.stored.value)
      && v.vp.value.deadline >= ExpiryTime(s.claims)
      && (v.localVp.Some? ==> HoldsVp(v.localVp, s.stored.value))
  }

  predicate BlockHolds(v: View, s: Session) {
    v.blocked.Some? && v.blocked.value.value == Text("1") && v.blocked.value.deadline >= ExpiryTime(s.claims)
  }

  predicate SessionOk(v: View, s: Session, now: nat) {
    && s.claims.Access?
    && (s.check.Some? ==> s.check.value.at <= now)
    && if s.revoked then Expired(s.claims, now) || BlockHolds(v, s)
       else v.blocked == None && StoredAgrees(v, s)
  }

  /** A token signed so far, and its session if it is an access token. */
  predicate TokenOk(env: Env, w: World, table: Table, t: string) {
    && (t in w.issued ==>
          env.sign(w.issued[t]) == t && w.issued[t].iat <= w.store.now / 1000 && HexAddress(w.issued[t].address))
    && (t in table <==> t in w.issued && w.issued[t].Access?)
    && (t in table ==> table[t].claims == w.issued[t])
  }

  /** What the invariant says about one token: its claims, its session and its entries on both levels. */
  predicate EntryOk(env: Env, w: World, table: Table, t: string) {
    var v := ViewOf(w.store, t);
    && TokenOk(env, w, table, t)
    && if t in table then SessionOk(v, table[t], w.store.now) && CheckOk(env, v, table[t], w.store.unit)
       else if t in w.issued then v.(blocked := None) == NO_ENTRIES
       else v == NO_ENTRIES
  }

  ghost predicate Inv(env: Env, w: World, table: Table) {
    1 <= w.store.unit <= 1000 && forall t :: EntryOk(env, w, table, t)
  }

  // ----- every step keeps the invariant -----

  /** The scan of a log-out-all is complete. */
  ghost predicate Legal(w: World, step: Step) {
    step.DoLogOutAll? ==> ScanOf(w.store, step.keys)
  }

  /** What the check answers for a session: by the last full verification while that is cached, else by a new one. */
  function Answer(env: Env, s: Store, token: string, session: Session): Presented {
    var checked := session.check.Some? && GetVerification(s, token).1.Some?;
    Assess(env, if Real(session.stored) && checked then Some(session.check.value.vpJwt) else session.stored,
           session.claims.address)
  }

  function Rechecked(session: Session, check: Option<Check>): Session {
    if check.Some? then session.(check := check) else session
  }

  lemma CheckOnSession(env: Env, s: Store, token: string, session: Session, user: User)
    requires SessionOk(ViewOf(s, token), session, s.now) && CheckOk(env, ViewOf(s, token), session, s.unit)
    requires !session.revoked && !Expired(session.claims, s.now) && s.unit <= 1000
    ensures var (s', p) := CheckPresentation(env, s, token, session.claims.address);
      var session' := Rechecked(session, FullCheck(s, token, WithPresentation(user, p)));
      && p == Answer(env, s, token, session)
      && SessionOk(ViewOf(s', token), session', s.now) && CheckOk(env, ViewOf(s', token), session', s.unit)
      && s'.now == s.now && s'.unit == s.unit
      && (forall t :: t != token ==> ViewOf(s', t) == ViewOf(s, t))
  {
    ExpiredFromExpiryTime(session.claims, s.now);
    var (s1, vpJwt) := GetVp(s, token);
    GetVpOnSession(s, token, session);
    SameVerification(s, s1, token);
    if Real(vpJwt) {
      var (s2, cached) := GetVerification(s1, token);
      GetVerificationOnSession(env, s1, token, session);
      var p := Assess(env, vpJwt, session.claims.address);
      if cached.None? && p.Presented? {
        WriteVerification(env, s2, token, session, p);
      }
    }
  }

  lemma GetVpOnSession(s: Store, token: string, session: Session)
    requires StoredAgrees(ViewOf(s, token), session) && !Expired(session.claims, s.now)
    ensures var (s', vpJwt) := GetVp(s, token);
      && vpJwt == session.stored
      && StoredAgrees(ViewOf(s', token), session)
      && ViewOf(s', token).(localVp := None) == ViewOf(s, token).(localVp := None)
      && s'.now == s.now && s'.unit == s.unit
      && (forall t :: t != token ==> ViewOf(s', t) == ViewOf(s, t))
  {
    ExpiredFromExpiryTime(session.claims, s.now);
  }

  lemma SameVerification(s: Store, s': Store, token: string)
    requires s'.now == s.now
    requires ViewOf(s', token).(localVp := None) == ViewOf(s, token).(localVp := None)
    ensures GetVerification(s', token).1 == GetVerification(s, token).1
  {
    assert At(s'.redis, VerifiedKey(token)) == At(s.redis, VerifiedKey(token));
    assert At(s'.local, VerifiedKey(token)) == At(s.local, VerifiedKey(token));
  }

  lemma GetVerificationOnSession(env: Env, s: Store, token: string, session: Session)
    requires CheckOk(env, ViewOf(s, token), session, s.unit)
    ensures var (s', cached) := GetVerification(s, token);
      && (cached.Some? ==>
            && session.check.Some? && cached.value.verified
            && Assess(env, Some(session.check.value.vpJwt), session.claims.address)
               == Presented(cached.value.holder, cached.value.vcCount))
      && CheckOk(env, ViewOf(s', token), session, s.unit)
      && ViewOf(s', token).(localVerified := None) == ViewOf(s, token).(localVerified := None)
      && s'.now == s.now && s'.unit == s.unit
      && (forall t :: t != token ==> ViewOf(s', t) == ViewOf(s, t))
  {
  }

  /** A verification written to both levels changes these two entries of its token only. */
  lemma WriteVerification(env: Env, s: Store, token: string, session: Session, p: Presented)
    requires CheckOk(env, ViewOf(s, token), session, s.unit) && s.unit <= 1000
    requires p.Presented? && p == Assess(env, session.stored, session.claims.address)
    ensures var s' := CacheVerification(s, token, Verification(true, p.holder, p.vcCount, s.now), 3600);
      && CheckOk(env, ViewOf(s', token), session.(check := Some(Check(session.stored.value, s.now))), s.unit)
      && ViewOf(s', token).(verified := None, localVerified := None)
         == ViewOf(s, token).(verified := None, localVerified := None)
      && s'.now == s.now && s'.unit == s.unit
      && (forall t :: t != token ==> ViewOf(s', t) == ViewOf(s, t))
  {
    CacheVerificationView(s, token, Verification(true, p.holder, p.vcCount, s.now), 3600);
  }

  lemma NoVpForRefresh(env: Env, s: Store, token: string, address: string)
    requires ViewOf(s, token).(blocked := None) == NO_ENTRIES
    ensures CheckPresentation(env, s, token, address) == (s, NoPresentation)
  {
  }

  /** A token whose entries, record and clock are the same keeps its part of the invariant. */
  lemma SameEntry(env: Env, w: World, table: Table, w': World, table': Table, t: string)
    requires EntryOk(env, w, table, t)
    requires ViewOf(w'.store, t) == ViewOf(w.store, t)
    requires w'.store.now == w.store.now && w'.store.unit == w.store.unit
    requires (t in w'.issued <==> t in w.issued) && (t in w.issued ==> w'.issued[t] == w.issued[t])
    requires t in table' <==> t in table
    requires t in table ==> table'[t] == table[t]
    ensures EntryOk(env, w', table', t)
  {
  }

  lemma CheckIgnoresCase(env: Env, s: Store, token: string, address: string)
    ensures CheckPresentation(env, s, token, Lower(address)) == CheckPresentation(env, s, token, address)
  {
    LowerIdempotent(address);
  }

  /** Both checking guards on an unblocked token with verified claims: the same check, then their own user. */
  lemma GuardChecks(env: Env, w: World, channel: Channel, token: string)
    requires !channel.Did? && token != "" && !IsTokenBlocked(w.store, token) && JwtVerify(w, token).Some?
    ensures var claims := JwtVerify(w, token).value;
      var (s, p) := CheckPresentation(env, w.store, token, claims.address);
      Guard(env, w, channel, token) == (w.(store := s), WithPresentation(UserOn(channel, claims), p))
  {
    CheckIgnoresCase(env, w.store, token, JwtVerify(w, token).value.address);
  }

  /**
   The guard would repeat the answer of an earlier check of the session, which is still cached and was
   made for a presentation that is assessed differently from the one stored since.
   */
  predicate Outdated(env: Env, w: World, table: Table, channel: Channel, token: string) {
    && !channel.Did? && token in table
    && var s := table[token];
       && !s.revoked && !Expired(s.claims, w.store.now)
       && Real(s.stored) && s.check.Some? && GetVerification(w.store, token).1.Some?
       && Assess(env, Some(s.check.value.vpJwt), s.claims.address) != Assess(env, s.stored, s.claims.address)
  }

  lemma DidGuardOnToken(env: Env, w: World, table: Table, token: string)
    requires ValidEnv(env) && EntryOk(env, w, table, token)
    ensures DidGuard(w, token)
            == match JwtVerify(w, token)
               case None => Rejected(if token == "" then MissingToken else InvalidToken)
               case Some(claims) => Accepted(RequestUser(claims))
  {
    if token in w.issued {
      assert env.sign(w.issued[token]) == token && HexAddress(w.issued[token].address);
      assert |Lower(w.issued[token].address)| == |w.issued[token].address|;
    }
  }

  /** The table after a guard answered. */
  function AfterGuard(env: Env, w: World, table: Table, channel: Channel, token: string): Table {
    var d := Guard(env, w, channel, token).1;
    Record(env, table, Decided(token, d, FullCheck(w.store, token, d)))
  }

  lemma AfterGuardOnSession(env: Env, w: World, table: Table, channel: Channel, token: string, d: Decision)
    requires token in table && d == Guard(env, w, channel, token).1
    ensures var table' := AfterGuard(env, w, table, channel, token);
      token in table' && table'[token] == Rechecked(table[token], FullCheck(w.store, token, d))
  {
  }

  /** New entries and a new check for a session, with the same tokens and clock. */
  lemma RecheckedEntry(env: Env, w: World, table: Table, w': World, table': Table, t: string)
    requires TokenOk(env, w, table, t) && t in table && t in table'
    requires w' == w.(store := w'.store) && w'.store.now == w.store.now && table'[t].claims == table[t].claims
    requires SessionOk(ViewOf(w'.store, t), table'[t], w'.store.now)
    requires CheckOk(env, ViewOf(w'.store, t), table'[t], w'.store.unit)
    ensures EntryOk(env, w', table', t)
  {
  }

  /** A token that passes the block list and the JWT check is that of a live session. */
  lemma PassedIsLive(env: Env, w: World, table: Table, token: string)
    requires EntryOk(env, w, table, token) && token in table
    requires !IsTokenBlocked(w.store, token) && JwtVerify(w, token).Some?
    ensures !table[token].revoked && !Expired(table[token].claims, w.store.now)
    ensures JwtVerify(w, token) == Some(table[token].claims)
  {
    ExpiredFromExpiryTime(table[token].claims, w.store.now);
  }

  /** A checking guard on a live session. */
  lemma GuardOnLiveSession(env: Env, w: World, channel: Channel, token: string, session: Session, w': World,
                           d: Decision)
    requires SessionOk(ViewOf(w.store, token), session, w.store.now)
    requires CheckOk(env, ViewOf(w.store, token), session, w.store.unit) && w.store.unit <= 1000
    requires !session.revoked && !Expired(session.claims, w.store.now)
    requires !channel.Did? && token != "" && !IsTokenBlocked(w.store, token)
    requires JwtVerify(w, token) == Some(session.claims) && (w', d) == Guard(env, w, channel, token)
    ensures var session' := Rechecked(session, FullCheck(w.store, token, d));
      && w' == w.(store := w'.store) && w'.store.now == w.store.now && w'.store.unit == w.store.unit
      && SessionOk(ViewOf(w'.store, token), session', w'.store.now)
      && CheckOk(env, ViewOf(w'.store, token), session', w'.store.unit)
      && (forall t :: t != token ==> ViewOf(w'.store, t) == ViewOf(w.store, t))
  {
    GuardChecks(env, w, channel, token);
    CheckOnSession(env, w.store, token, session, UserOn(channel, session.claims));
  }

  /** So a checking guard leaves the entries of a live session right. */
  lemma GuardOnSessionEntries(env: Env, w: World, table: Table, channel: Channel, token: string, w': World, d: Decision)
    requires EntryOk(env, w, table, token) && w.store.unit <= 1000 && token in table && !channel.Did?
    requires token != "" && !IsTokenBlocked(w.store, token) && JwtVerify(w, token).Some?
    requires (w', d) == Guard(env, w, channel, token)
    ensures w'.issued == w.issued && w'.store.now == w.store.now && w'.store.unit == w.store.unit
    ensures EntryOk(env, w', AfterGuard(env, w, table, channel, token), token)
    ensures forall t :: t != token ==> ViewOf(w'.store, t) == ViewOf(w.store, t)
  {
    PassedIsLive(env, w, table, token);
    GuardOnLiveSession(env, w, channel, token, table[token], w', d);
    AfterGuardOnSession(env, w, table, channel, token, d);
    RecheckedEntry(env, w, table, w', AfterGuard(env, w, table, channel, token), token);
  }

  /** The guard changes nothing but entries of its own token, and leaves these right. */
  ghost predicate GuardKeeps(env: Env, w: World, table: Table, channel: Channel, token: string) {
    var w' := Guard(env, w, channel, token).0;
    && w'.issued == w.issued && w'.store.now == w.store.now && w'.store.unit == w.store.unit
    && EntryOk(env, w', AfterGuard(env, w, table, channel, token), token)
    && (forall t :: t != token ==> ViewOf(w'.store, t) == ViewOf(w.store, t))
  }

  lemma IdleGuard(env: Env, w: World, table: Table, channel: Channel, token: string)
    requires Guard(env, w, channel, token).0 == w && !AsVerified(Guard(env, w, channel, token).1)
    requires EntryOk(env, w, table, token)
    ensures GuardKeeps(env, w, table, channel, token)
  {
  }

  lemma GuardKeepsEntries(env: Env, w: World, table: Table, channel: Channel, token: string)
    requires ValidEnv(env) && Inv(env, w, table)
    ensures GuardKeeps(env, w, table, channel, token)
  {
    assert EntryOk(env, w, table, token);
    if channel.Did? || token == "" || IsTokenBlocked(w.store, token) || JwtVerify(w, token).None? {
      IdleGuard(env, w, table, channel, token);
    } else if token in table {
      var (w', d) := Guard(env, w, channel, token);
      GuardOnSessionEntries(env, w, table, channel, token, w', d);
    } else {
      GuardChecks(env, w, channel, token);
      NoVpForRefresh(env, w.store, token, w.issued[token].address);
      IdleGuard(env, w, table, channel, token);
    }
  }

  /** A session under which no two different presentations were stored has no outdated check. */
  predicate Unreplaced(s: Session) {
    forall vpJwt <- s.past :: Real(Some(vpJwt)) ==> Some(vpJwt) == s.stored
  }

  lemma UnreplacedIsCurrent(env: Env, w: World, table: Table, channel: Channel, token: string)
    requires Inv(env, w, table) && token in table && Unreplaced(table[token])
    ensures !Outdated(env, w, table, channel, token)
  {
    assert EntryOk(env, w, table, token);
  }

  /**
   On every bearer but a refresh token, a guard grants what the table grants exactly when it does not
   repeat an outdated check.
   */
  lemma GuardOnToken(env: Env, w: World, table: Table, channel: Channel, token: string)
    requires ValidEnv(env) && Inv(env, w, table)
    requires token in w.issued ==> w.issued[token].Access?
    ensures Granted(Guard(env, w, channel, token).1) == TableGuard(env, table, w.store.now, channel, token)
            <==> !Outdated(env, w, table, channel, token)
  {
    assert EntryOk(env, w, table, token);
    if channel.Did? {
      DidGuardOnToken(env, w, table, token);
    } else if token in table {
      ExpiredFromExpiryTime(table[token].claims, w.store.now);
      if !table[token].revoked && !Expired(table[token].claims, w.store.now) {
        CheckOnSession(env, w.store, token, table[token], UserOn(channel, table[token].claims));
        GuardChecks(env, w, channel, token);
      }
    }
  }

  lemma GuardKeepsInv(env: Env, w: World, table: Table, channel: Channel, token: string)
    requires ValidEnv(env) && Inv(env, w, table)
    ensures Inv(env, Guard(env, w, channel, token).0, AfterGuard(env, w, table, channel, token))
  {
    var w', table' := Guard(env, w, channel, token).0, AfterGuard(env, w, table, channel, token);
    GuardKeepsEntries(env, w, table, channel, token);
    forall t ensures EntryOk(env, w', table', t) {
      assert EntryOk(env, w, table, t);
      if t != token {
        SameEntry(env, w, table, w', table', t);
      }
    }
  }

  lemma SessionOkLater(env: Env, v: View, s: Session, now: nat, later: nat)
    requires SessionOk(v, s, now) && now <= later
    ensures SessionOk(v, s, later)
  {
    ExpiredFromExpiryTime(s.claims, now);
    ExpiredFromExpiryTime(s.claims, later);
  }

  lemma TickKeepsInv(env: Env, w: World, table: Table, ms: nat)
    requires Inv(env, w, table)
    ensures Inv(env, Next(env, w, Tick(ms)).0, table)
  {
    var w' := Next(env, w, Tick(ms)).0;
    assert w.store.now / 1000 <= w'.store.now / 1000;
    forall t ensures EntryOk(env, w', table, t) {
      assert EntryOk(env, w, table, t);
      assert ViewOf(w'.store, t) == ViewOf(w.store, t);
      if t in table {
        SessionOkLater(env, ViewOf(w.store, t), table[t], w.store.now, w'.store.now);
      }
    }
  }

  lemma ChallengeKeepsInv(env: Env, w: World, table: Table, wallet: string, challenge: string)
    requires Inv(env, w, table)
    ensures Inv(env, CreateChallenge(w, wallet, challenge), table)
  {
    OtherFamilyView(w.store, ChallengeOf(wallet), 300, Text(challenge));
    SameEntries(env, w, table, CreateChallenge(w, wallet, challenge));
  }

  /** A change of the store that no token can see. */
  lemma SameEntries(env: Env, w: World, table: Table, w': World)
    requires Inv(env, w, table)
    requires w'.issued == w.issued && w'.store.now == w.store.now && w'.store.unit == w.store.unit
    requires forall t :: ViewOf(w'.store, t) == ViewOf(w.store, t)
    ensures Inv(env, w', table)
  {
    forall t ensures EntryOk(env, w', table, t) {
      assert EntryOk(env, w, table, t);
      SameEntry(env, w, table, w', table, t);
    }
  }

  lemma SignatureKeepsInv(env: Env, w: World, table: Table, wallet: string, challenge: string, signature: string)
    requires Inv(env, w, table)
    ensures Inv(env, VerifySignature(env, w, wallet, challenge, signature).0, table)
    ensures ValidEnv(env) && VerifySignature(env, w, wallet, challenge, signature).1 ==> HexAddress(wallet)
  {
    OtherFamilyView(w.store, ChallengeOf(wallet), 0, Text(""));
    SameEntries(env, w, table, VerifySignature(env, w, wallet, challenge, signature).0);
    if ValidEnv(env) && VerifySignature(env, w, wallet, challenge, signature).1 {
      var a := env.recover(challenge, signature).value;
      assert HexAddress(a);
      assert Lower(a)[0] == LowerChar(a[0]) && Lower(wallet)[0] == LowerChar(wallet[0]);
      assert Lower(a)[1] == LowerChar(a[1]) && Lower(wallet)[1] == LowerChar(wallet[1]);
    }
  }

  // ----- log-out -----

  lemma LogOutView(s: Store, token: string)
    ensures forall t ::
      ViewOf(DeleteVerification(CloseToken(s, token), token), t) ==
      if t == token then NO_ENTRIES.(blocked := Some(Timed(Text("1"), s.now + DAY * 1000))) else ViewOf(s, t)
  {
    CloseTokenView(s, token);
    DeleteVerificationView(CloseToken(s, token), token);
  }

  lemma LogOutEntryOk(env: Env, w: World, table: Table, token: string, t: string)
    requires EntryOk(env, w, table, t) && LogOut(w, token).1 == Closed(token)
    ensures EntryOk(env, LogOut(w, token).0, Record(env, table, Closed(token)), t)
  {
    LogOutView(w.store, token);
    if t != token {
      SameEntry(env, w, table, LogOut(w, token).0, Record(env, table, Closed(token)), t);
    } else if t in table {
      ClosedEntryOk(env, w, table[token], token);
    }
  }

  lemma LogOutKeepsInv(env: Env, w: World, table: Table, token: string)
    requires ValidEnv(env) && Inv(env, w, table)
    ensures var (w', reply) := LogOut(w, token);
      Inv(env, w', Record(env, table, reply))
  {
    var (w', reply) := LogOut(w, token);
    if reply.Closed? {
      forall t ensures EntryOk(env, w', Record(env, table, reply), t) {
        assert EntryOk(env, w, table, t);
        LogOutEntryOk(env, w, table, token, t);
      }
    }
  }

  lemma ClosedEntryOk(env: Env, w: World, s: Session, token: string)
    requires token in w.issued && w.issued[token] == s.claims && s.claims.Access?
    requires s.claims.iat <= w.store.now / 1000 && (s.check.Some? ==> s.check.value.at <= w.store.now)
    ensures SessionOk(NO_ENTRIES.(blocked := Some(Timed(Text("1"), w.store.now + DAY * 1000))),
                      s.(revoked := true), w.store.now)
  {
    BlockReachesExpiry(w, token);
  }

  /** A block of one day, placed at any time after the token was signed, outlives an access token. */
  lemma BlockReachesExpiry(w: World, token: string)
    requires token in w.issued && w.issued[token].Access?
    requires w.issued[token].iat <= w.store.now / 1000
    ensures w.store.now + DAY * 1000 >= ExpiryTime(w.issued[token])
  {
  }

  /** The entries of a token after log-out-all closed it: blocked for a day, no presentation. */
  function ClosedView(v: View, now: nat): View {
    v.(blocked := Some(Timed(Text("1"), now + DAY * 1000)), vp := None, localVp := None)
  }

  lemma CloseTokenView(s: Store, token: string)
    ensures forall t ::
      ViewOf(CloseToken(s, token), t) == if t == token then ClosedView(ViewOf(s, t), s.now) else ViewOf(s, t)
  {
    BlockTokenView(s, token, DAY);
    DeleteVpView(BlockToken(s, token, DAY), token);
  }

  /** The live presentation entry of a token, as the scan reads it. */
  function ScannedVp(s: Store, token: string): Option<Value> {
    RedisGet(s, VpKey(token))
  }

  predicate Target(env: Env, s: Store, address: string, keys: seq<string>, token: string) {
    VpKey(token) in keys && Names(env, ScannedVp(s, token), address)
  }

  lemma ScanKey(key: string)
    requires VP_TOKEN <= key
    ensures VpKey(DropFirst(key, VP_TOKEN)) == key
  {
    var token := DropFirst(key, VP_TOKEN);
    assert key == VP_TOKEN + token;
  }

  lemma CloseIfNamedView(env: Env, s: Store, address: string, key: string, t: string)
    requires VP_TOKEN <= key
    ensures ViewOf(CloseIfNamed(env, s, address, key), t)
            == if VpKey(t) == key && Names(env, ScannedVp(s, t), address)
               then ClosedView(ViewOf(s, t), s.now) else ViewOf(s, t)
    ensures CloseIfNamed(env, s, address, key).now == s.now && CloseIfNamed(env, s, address, key).unit == s.unit
  {
    var token := DropFirst(key, VP_TOKEN);
    ScanKey(key);
    CloseTokenView(s, token);
    assert VpKey(t) == key <==> t == token;
  }

  /**
   Log-out-all is exact: a token is closed when its scanned, live presentation names the
   address, and the entries of every other token stay as they are.
   */
  lemma {:induction false} CloseNamedIsExact(env: Env, s: Store, address: string, keys: seq<string>, t: string)
    requires forall k :: k in keys ==> VP_TOKEN <= k
    ensures var s' := CloseNamed(env, s, address, keys);
      && s'.now == s.now && s'.unit == s.unit
      && ViewOf(s', t)
         == if Target(env, s, address, keys, t) then ClosedView(ViewOf(s, t), s.now) else ViewOf(s, t)
    decreases |keys|
  {
    if keys == [] {
    } else {
      var front, key := keys[..|keys| - 1], keys[|keys| - 1];
      assert keys == front + [key];
      assert forall k :: k in front ==> k in keys;
      assert key in keys;
      CloseNamedIsExact(env, s, address, front, t);
      CloseIfNamedView(env, CloseNamed(env, s, address, front), address, key, t);
    }
  }

  lemma LogOutAllEntryOk(env: Env, w: World, table: Table, address: string, keys: seq<string>, t: string)
    requires EntryOk(env, w, table, t) && ScanOf(w.store, keys)
    ensures EntryOk(env, w.(store := CloseNamed(env, w.store, address, keys)),
                    Record(env, table, ClosedAll(address)), t)
  {
    var w', table' := w.(store := CloseNamed(env, w.store, address, keys)), Record(env, table, ClosedAll(address));
    CloseNamedIsExact(env, w.store, address, keys, t);
    TargetMeansHeld(env, w, table, address, keys, t);
    if Target(env, w.store, address, keys, t) {
      BlockReachesExpiry(w, t);
    } else if t in table && Held(env, table[t], address) {
      ExpiredFromExpiryTime(table[t].claims, w.store.now);
    } else {
      SameEntry(env, w, table, w', table', t);
    }
  }

  lemma LogOutAllKeepsInv(env: Env, w: World, table: Table, token: string, keys: seq<string>)
    requires ValidEnv(env) && Inv(env, w, table) && ScanOf(w.store, keys)
    ensures var (w', reply) := LogOutAll(env, w, token, keys);
      Inv(env, w', Record(env, table, reply))
  {
    var (w', reply) := LogOutAll(env, w, token, keys);
    if reply.ClosedAll? {
      CloseNamedIsExact(env, w.store, reply.address, keys, token);
      forall t ensures EntryOk(env, w', Record(env, table, reply), t) {
        assert EntryOk(env, w, table, t);
        LogOutAllEntryOk(env, w, table, reply.address, keys, t);
      }
    }
  }

  /** The scan closes the open sessions that name the address, except those already expired. */
  lemma TargetMeansHeld(env: Env, w: World, table: Table, address: string, keys: seq<string>, t: string)
    requires EntryOk(env, w, table, t) && ScanOf(w.store, keys)
    requires t in table ==> t in w.issued && w.issued[t].Access? && table[t].claims == w.issued[t]
    ensures Target(env, w.store, address, keys, t) ==> t in table
    ensures t in table && !table[t].revoked && Target(env, w.store, address, keys, t) ==> Held(env, table[t], address)
    ensures t in table && !table[t].revoked && Held(env, table[t], address) && !Expired(table[t].claims, w.store.now)
            ==> Target(env, w.store, address, keys, t)
  {
    if t in table {
      ExpiredFromExpiryTime(table[t].claims, w.store.now);
      VpKeyPrefix(t);
    }
  }

  lemma VpKeyPrefix(t: string)
    ensures VP_TOKEN <= VpKey(t)
  {
  }

  // ----- log-in and refresh -----

  /** Opening twice, first without a presentation, is opening once with it. */
  lemma OpenInSteps(table: Table, token: string, claims: Claims, v: string)
    ensures Open(Open(table, token, claims, None), token, claims, Some(v)) == Open(table, token, claims, Some(v))
  {
    var started := Open(table, token, claims, None);
    assert Texts(None) + Texts(Some(v)) == Texts(Some(v));
    if token in table {
      assert table[token].past + Texts(None) == table[token].past;
      assert started[token] == table[token];
    }
  }

  /** A token signed before was signed with the same claims, so at this very second. */
  lemma SignedBefore(env: Env, w: World, table: Table, claims: Claims)
    requires ValidEnv(env) && EntryOk(env, w, table, env.sign(claims))
    ensures env.sign(claims) in w.issued ==> w.issued[env.sign(claims)] == claims
  {
    var token := env.sign(claims);
    assert token in w.issued ==> env.sign(w.issued[token]) == env.sign(claims);
  }

  lemma SignKeepsEntry(env: Env, w: World, table: Table, claims: Claims, key: KeyId, ttl: nat, t: string)
    requires EntryOk(env, w, table, t)
    requires HexAddress(claims.address) && claims.iat == w.store.now / 1000
    requires WellFormed(key) && !key.Blocked? && !key.Vp? && !key.Verified?
    requires env.sign(claims) in w.issued ==> w.issued[env.sign(claims)] == claims
    ensures var (w', token) := SignToken(env, w, claims, key, ttl);
      EntryOk(env, w', if claims.Access? then Open(table, token, claims, None) else table, t)
  {
    OtherFamilyView(w.store, key, ttl, Text(env.sign(claims)));
  }

  /** Signing a token of either kind, with its own entry in the store, opens at most its session. */
  lemma SignKeepsInv(env: Env, w: World, table: Table, claims: Claims, key: KeyId, ttl: nat)
    requires ValidEnv(env) && Inv(env, w, table)
    requires HexAddress(claims.address) && claims.iat == w.store.now / 1000
    requires WellFormed(key) && !key.Blocked? && !key.Vp? && !key.Verified?
    ensures var (w', token) := SignToken(env, w, claims, key, ttl);
      Inv(env, w', if claims.Access? then Open(table, token, claims, None) else table)
  {
    var (w', token) := SignToken(env, w, claims, key, ttl);
    var table' := if claims.Access? then Open(table, token, claims, None) else table;
    assert EntryOk(env, w, table, token);
    SignedBefore(env, w, table, claims);
    forall t ensures EntryOk(env, w', table', t) {
      assert EntryOk(env, w, table, t);
      SignKeepsEntry(env, w, table, claims, key, ttl, t);
    }
  }

  lemma RefreshKeepsInv(env: Env, w: World, table: Table, address: string)
    requires ValidEnv(env) && Inv(env, w, table) && HexAddress(address)
    ensures Inv(env, CreateRefreshToken(env, w, address).0, table)
  {
    SignKeepsInv(env, w, table, RefreshClaims(w, address), RefreshOf(address), 604800);
  }

  /** Storing a presentation adds it to those of the session, and leaves the last check as it was. */
  lemma StoredSessionOk(env: Env, v: View, s: Session, v': View, s': Session, now: nat, unit: nat, vpJwt: string)
    requires SessionOk(v, s, now) && CheckOk(env, v, s, unit)
    requires s' == s.(stored := Some(vpJwt), past := s.past + {vpJwt})
    requires v' == v.(vp := v'.vp, localVp := v'.localVp)
    requires HoldsVp(v'.vp, vpJwt) && v'.vp.value.deadline >= ExpiryTime(s.claims) && HoldsVp(v'.localVp, vpJwt)
    ensures SessionOk(v', s', now) && CheckOk(env, v', s', unit)
  {
  }

  lemma StoreVpKeepsInv(env: Env, w: World, table: Table, token: string, vpJwt: string)
    requires ValidEnv(env) && Inv(env, w, table) && token in table
    ensures Inv(env, w.(store := SetVp(w.store, token, vpJwt, DAY)),
                Open(table, token, table[token].claims, Some(vpJwt)))
  {
    var w' := w.(store := SetVp(w.store, token, vpJwt, DAY));
    var table' := Open(table, token, table[token].claims, Some(vpJwt));
    SetVpView(w.store, token, vpJwt, DAY);
    forall t ensures EntryOk(env, w', table', t) {
      assert EntryOk(env, w, table, t);
      if t != token {
        SameEntry(env, w, table, w', table', t);
      } else {
        BlockReachesExpiry(w, token);
        StoredSessionOk(env, ViewOf(w.store, t), table[t], ViewOf(w'.store, t), table'[t],
                        w.store.now, w.store.unit, vpJwt);
      }
    }
  }

  lemma OtherKeyKeepsInv(env: Env, w: World, table: Table, id: KeyId, ttl: nat, v: Value)
    requires Inv(env, w, table)
    requires WellFormed(id) && !id.Blocked? && !id.Vp? && !id.Verified?
    ensures Inv(env, w.(store := SetEx(w.store, Render(id), ttl, v)), table)
  {
    OtherFamilyView(w.store, id, ttl, v);
    SameEntries(env, w, table, w.(store := SetEx(w.store, Render(id), ttl, v)));
  }

  // The ways a signed log-in or a refresh continues after its access token.

  lemma EmptySessionKeepsInv(env: Env, w: World, table: Table, token: string, wallet: string)
    requires ValidEnv(env) && HexAddress(wallet) && token in table && Inv(env, w, table)
    ensures var w' := CreateRefreshToken(env, w, wallet).0;
      Inv(env, w'.(store := SetVp(w'.store, token, "EMPTY", DAY)),
          Open(table, token, table[token].claims, Some("EMPTY")))
  {
    RefreshKeepsInv(env, w, table, wallet);
    StoreVpKeepsInv(env, CreateRefreshToken(env, w, wallet).0, table, token, "EMPTY");
  }

  lemma VpSessionKeepsInv(env: Env, w: World, table: Table, token: string, wallet: string, v: string)
    requires ValidEnv(env) && HexAddress(wallet) && token in table && Inv(env, w, table)
    ensures var s := SetEx(w.store, Render(HolderVp(wallet)), 3600, Text(v));
      Inv(env, CreateRefreshToken(env, w.(store := SetVp(s, token, v, DAY)), wallet).0,
          Open(table, token, table[token].claims, Some(v)))
  {
    var w1 := w.(store := SetEx(w.store, Render(HolderVp(wallet)), 3600, Text(v)));
    OtherKeyKeepsInv(env, w, table, HolderVp(wallet), 3600, Text(v));
    StoreVpKeepsInv(env, w1, table, token, v);
    RefreshKeepsInv(env, w1.(store := SetVp(w1.store, token, v, DAY)),
                    Open(table, token, table[token].claims, Some(v)), wallet);
  }

  /** The session that a log-in or refresh opens, before anything is stored for it. */
  lemma OpenedSession(env: Env, w: World, table: Table, address: string, isGuardian: bool, vcCount: nat)
    requires ValidEnv(env) && Inv(env, w, table) && HexAddress(address)
    ensures var (w', token) := CreateAccessToken(env, w, address, isGuardian, vcCount);
      var started := Open(table, token, AccessClaims(w, address, isGuardian, vcCount), None);
      && Inv(env, w', started)
      && token in started && started[token].claims == AccessClaims(w, address, isGuardian, vcCount)
  {
    var claims := AccessClaims(w, address, isGuardian, vcCount);
    assert EntryOk(env, w, table, env.sign(claims));
    SignedBefore(env, w, table, claims);
    SignKeepsInv(env, w, table, claims, AccessOf(address), DAY);
  }

  lemma EmptyLogInKeepsInv(env: Env, w: World, table: Table, wallet: string, isGuardian: bool, vcCount: nat)
    requires ValidEnv(env) && Inv(env, w, table) && HexAddress(wallet)
    ensures var (w2, token) := CreateAccessToken(env, w, wallet, isGuardian, vcCount);
      var w3 := CreateRefreshToken(env, w2, wallet).0;
      Inv(env, w3.(store := SetVp(w3.store, token, "EMPTY", DAY)),
          Open(table, token, AccessClaims(w, wallet, isGuardian, vcCount), Some("EMPTY")))
  {
    var claims := AccessClaims(w, wallet, isGuardian, vcCount);
    var (w2, token) := CreateAccessToken(env, w, wallet, isGuardian, vcCount);
    OpenedSession(env, w, table, wallet, isGuardian, vcCount);
    EmptySessionKeepsInv(env, w2, Open(table, token, claims, None), token, wallet);
    OpenInSteps(table, token, claims, "EMPTY");
  }

  lemma VpLogInKeepsInv(env: Env, w: World, table: Table, wallet: string, isGuardian: bool, vcCount: nat, v: string)
    requires ValidEnv(env) && Inv(env, w, table) && HexAddress(wallet)
    ensures var (w2, token) := CreateAccessToken(env, w, wallet, isGuardian, vcCount);
      var s := SetEx(w2.store, Render(HolderVp(wallet)), 3600, Text(v));
      Inv(env, CreateRefreshToken(env, w2.(store := SetVp(s, token, v, DAY)), wallet).0,
          Open(table, token, AccessClaims(w, wallet, isGuardian, vcCount), Some(v)))
  {
    var claims := AccessClaims(w, wallet, isGuardian, vcCount);
    var (w2, token) := CreateAccessToken(env, w, wallet, isGuardian, vcCount);
    OpenedSession(env, w, table, wallet, isGuardian, vcCount);
    VpSessionKeepsInv(env, w2, Open(table, token, claims, None), token, wallet, v);
    OpenInSteps(table, token, claims, v);
  }

  lemma SignedLogInKeepsInv(env: Env, w: World, table: Table, login: Login)
    requires ValidEnv(env) && Inv(env, w, table)
    requires login.guardian.Some? && HexAddress(login.wallet)
    ensures var (w', reply) := SignedLogIn(env, w, login);
      Inv(env, w', Record(env, table, reply))
  {
    if login.vcCount == 0 || login.vp.NotSent? {
      EmptyLogInKeepsInv(env, w, table, login.wallet, login.guardian.value, login.vcCount);
    } else if login.vp.Refused? {
      OpenedSession(env, w, table, login.wallet, login.guardian.value, login.vcCount);
    } else {
      VpLogInKeepsInv(env, w, table, login.wallet, login.guardian.value, login.vcCount, login.vp.vpJwt);
    }
  }

  lemma LogInKeepsInv(env: Env, w: World, table: Table, login: Login)
    requires ValidEnv(env) && Inv(env, w, table)
    ensures var (w', reply) := LogIn(env, w, login);
      Inv(env, w', Record(env, table, reply))
  {
    var (w1, valid) := VerifySignature(env, w, login.wallet, login.challenge, login.signature);
    SignatureKeepsInv(env, w, table, login.wallet, login.challenge, login.signature);
    if valid && login.guardian.Some? {
      SignedLogInKeepsInv(env, w1, table, login);
    }
  }

  lemma StartKeepsInv(env: Env, w: World, table: Table, address: string, isGuardian: bool, vcCount: nat)
    requires ValidEnv(env) && Inv(env, w, table) && HexAddress(address)
    ensures var (w', token) := CreateAccessToken(env, w, address, isGuardian, vcCount);
      Inv(env, w'.(store := SetVp(w'.store, token, "EMPTY", DAY)),
          Open(table, token, AccessClaims(w, address, isGuardian, vcCount), Some("EMPTY")))
  {
    var claims := AccessClaims(w, address, isGuardian, vcCount);
    var (w1, token) := CreateAccessToken(env, w, address, isGuardian, vcCount);
    OpenedSession(env, w, table, address, isGuardian, vcCount);
    StoreVpKeepsInv(env, w1, Open(table, token, claims, None), token, "EMPTY");
    OpenInSteps(table, token, claims, "EMPTY");
  }

  lemma RefreshSessionKeepsInv(env: Env, w: World, table: Table, token: string, guardian: Option<bool>, vcCount: nat)
    requires ValidEnv(env) && Inv(env, w, table)
    ensures var (w', reply) := RefreshSession(env, w, token, guardian, vcCount);
      Inv(env, w', Record(env, table, reply))
  {
    var previous := ValidateRefresh(w, token);
    assert EntryOk(env, w, table, token);
    if previous.Some? && guardian.Some? {
      StartKeepsInv(env, w, table, previous.value.address, guardian.value, vcCount);
    }
  }

  // ----- whole runs -----

  ghost predicate Initial(w: World) {
    w.store.redis == map[] && w.store.local == map[] && w.issued == map[] && 1 <= w.store.unit <= 1000
  }

  ghost predicate LegalRun(env: Env, w: World, steps: seq<Step>) {
    forall i :: 0 <= i < |steps| ==> Legal(Run(env, w, steps[..i]).0, steps[i])
  }

  lemma StepKeepsInv(env: Env, w: World, table: Table, step: Step)
    requires ValidEnv(env) && Inv(env, w, table) && Legal(w, step)
    ensures Inv(env, Next(env, w, step).0, Record(env, table, Next(env, w, step).1))
  {
    match step
    case Tick(ms) => TickKeepsInv(env, w, table, ms);
    case AskChallenge(wallet, challenge) => ChallengeKeepsInv(env, w, table, wallet, challenge);
    case DoLogIn(login) => LogInKeepsInv(env, w, table, login);
    case DoRefresh(token, guardian, n) => RefreshSessionKeepsInv(env, w, table, token, guardian, n);
    case DoLogOut(token) => LogOutKeepsInv(env, w, table, token);
    case DoLogOutAll(token, keys) => LogOutAllKeepsInv(env, w, table, token, keys);
    case DoGuard(channel, token) => GuardKeepsInv(env, w, table, channel, token);
  }

  lemma {:induction false} RunKeepsInv(env: Env, w: World, steps: seq<Step>)
    requires ValidEnv(env) && Initial(w) && LegalRun(env, w, steps)
    ensures var (w', replies) := Run(env, w, steps);
      Inv(env, w', History(env, replies))
    decreases |steps|
  {
    if steps == [] {
      forall t ensures EntryOk(env, w, map[], t) {}
    } else {
      var front, step := steps[..|steps| - 1], steps[|steps| - 1];
      forall i | 0 <= i < |front| ensures Legal(Run(env, w, front[..i]).0, front[i]) {
        assert front[..i] == steps[..i] && front[i] == steps[i];
      }
      RunKeepsInv(env, w, front);
      var (before, replies) := Run(env, w, front);
      StepKeepsInv(env, before, History(env, replies), step);
      var reply := Next(env, before, step).1;
      assert (replies + [reply])[..|replies|] == replies;
    }
  }

  /**
   Main result, over all runs, all three guards and every bearer that is not a refresh token: the
   guard with its caches grants exactly what the plain table grants, if and only if it does not repeat
   an outdated check, one made for a presentation that was replaced by another. No check is outdated
   while at most one presentation was ever stored under the token.
   */
  lemma CachesAreTransparent(env: Env, w: World, steps: seq<Step>, channel: Channel, token: string)
    requires ValidEnv(env) && Initial(w) && LegalRun(env, w, steps)
    requires var w' := Run(env, w, steps).0; token in w'.issued ==> w'.issued[token].Access?
    ensures var (w', replies) := Run(env, w, steps);
      var table := History(env, replies);
      && (Granted(Guard(env, w', channel, token).1) == TableGuard(env, table, w'.store.now, channel, token)
          <==> !Outdated(env, w', table, channel, token))
      && (token in table && Unreplaced(table[token]) ==> !Outdated(env, w', table, channel, token))
  {
    RunKeepsInv(env, w, steps);
    var (w', replies) := Run(env, w, steps);
    GuardOnToken(env, w', History(env, replies), channel, token);
    if token in History(env, replies) && Unreplaced(History(env, replies)[token]) {
      UnreplacedIsCurrent(env, w', History(env, replies), channel, token);
    }
  }
}
