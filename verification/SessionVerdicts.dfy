/**
 What a guard's verdict on a presentation rests on, over whole runs: also on a session whose presentation
 was replaced, the verdict is that of a full verification, made within the hour, of a text stored for it.
 */
module SessionVerdicts {
  import opened Did
  import opened Gateway
  import opened GatewayProofs
  import opened SessionGuards
  import opened SessionKeys
  import opened SessionTheorems
  import opened Sessions
  import opened Text
  import opened Wrappers

  // ----- the table remembers the run -----

  ghost predicate WasStored(replies: seq<Reply>, token: string, vpJwt: string) {
    exists i :: 0 <= i < |replies| && Stores(replies[i], token) && replies[i].stored == Some(vpJwt)
  }

  ghost predicate WasChecked(replies: seq<Reply>, token: string, check: Check) {
    exists i :: 0 <= i < |replies| && Checks(replies[i], token) && replies[i].check == Some(check)
  }

  /** The reply reports a full verification for this token. */
  predicate Checks(reply: Reply, token: string) {
    reply.Decided? && reply.token == token && reply.check.Some?
  }

  lemma MoreReplies(replies: seq<Reply>, reply: Reply, token: string)
    ensures forall vpJwt :: WasStored(replies + [reply], token, vpJwt)
                            <==> WasStored(replies, token, vpJwt)
                                 || (Stores(reply, token) && reply.stored == Some(vpJwt))
    ensures forall check :: WasChecked(replies + [reply], token, check)
                            <==> WasChecked(replies, token, check)
                                 || (Checks(reply, token) && reply.check == Some(check))
  {
    var all := replies + [reply];
    assert all[|replies|] == reply && forall i :: 0 <= i < |replies| ==> all[i] == replies[i];
  }

  /** The texts of a session are exactly those stored under its token, and its check was made by a guard. */
  lemma {:induction false} TableRemembers(env: Env, replies: seq<Reply>, token: string)
    ensures var table := History(env, replies);
      && (forall vpJwt :: WasStored(replies, token, vpJwt) <==> token in table && vpJwt in table[token].past)
      && (token in table && table[token].check.Some? ==> WasChecked(replies, token, table[token].check.value))
    decreases |replies|
  {
    if replies == [] {
    } else {
      var earlier, reply := replies[..|replies| - 1], replies[|replies| - 1];
      assert replies == earlier + [reply];
      TableRemembers(env, earlier, token);
      MoreReplies(earlier, reply, token);
    }
  }

  // ----- how long a check lives -----

  /** A check is cached for an hour, and never for more than 60 units of the local cache after that. */
  lemma CachedWithin(env: Env, s: Store, token: string, session: Session)
    requires CheckOk(env, ViewOf(s, token), session, s.unit)
    ensures GetVerification(s, token).1.Some? ==>
      session.check.Some? && s.now < session.check.value.at + HOUR + 60 * s.unit
    ensures !session.revoked && session.check.Some? && s.now < session.check.value.at + HOUR ==>
      GetVerification(s, token).1.Some?
  {
  }

  /**
   In every run: an outdated answer repeats the check of another text stored under the token, and stops
   an hour after that check, or at most 60 units of the local cache later; and within the hour a live
   session is outdated whenever the two texts are assessed differently.
   */
  lemma OutdatedWithinTheHour(env: Env, w: World, steps: seq<Step>, channel: Channel, token: string)
    requires ValidEnv(env) && Initial(w) && LegalRun(env, w, steps)
    ensures var (w', replies) := Run(env, w, steps);
      var (table, now) := (History(env, replies), w'.store.now);
      && (Outdated(env, w', table, channel, token) ==>
            Some(table[token].check.value.vpJwt) != table[token].stored
            && now < table[token].check.value.at + HOUR + 60 * w'.store.unit)
      && (token in table && table[token].check.Some? ==>
            var (s, check) := (table[token], table[token].check.value);
            && WasStored(replies, token, check.vpJwt) && WasChecked(replies, token, check) && check.at <= now
            && (now < check.at + HOUR ==>
                  (Outdated(env, w', table, channel, token)
                   <==> !channel.Did? && !s.revoked && !Expired(s.claims, now) && Real(s.stored)
                        && Assess(env, Some(check.vpJwt), s.claims.address)
                           != Assess(env, s.stored, s.claims.address))))
  {
    RunKeepsInv(env, w, steps);
    var (w', replies) := Run(env, w, steps);
    var table := History(env, replies);
    assert EntryOk(env, w', table, token);
    TableRemembers(env, replies, token);
    if token in table {
      CachedWithin(env, w'.store, token, table[token]);
    }
  }

  // ----- what a verified answer rests on -----

  /** The last check of the token once the guard has answered: its own, or an earlier one. */
  function Basis(env: Env, w: World, table: Table, channel: Channel, token: string): Option<Check> {
    var table' := AfterGuard(env, w, table, channel, token);
    if token in table' then table'[token].check else None
  }

  /** The answer is what full verification gives for the text of the check, made within the hour. */
  predicate RestsOn(env: Env, w: World, user: User, token: string, basis: Option<Check>) {
    && basis.Some? && token in w.issued && user.vpHolder.Some? && user.vcCount.Some?
    && Presents(Some(basis.value.vpJwt))
    && VerifiesFor(env, basis.value.vpJwt, w.issued[token].address, user.vpHolder.value, user.vcCount.value)
    && basis.value.at <= w.store.now < basis.value.at + HOUR + 60 * w.store.unit
  }

  /** The check of a live session answers by its cached verification, or by one of what is stored. */
  lemma AnswerRests(env: Env, s: Store, token: string, session: Session, user: User)
    requires SessionOk(ViewOf(s, token), session, s.now) && CheckOk(env, ViewOf(s, token), session, s.unit)
    requires !session.revoked && !Expired(session.claims, s.now) && 1 <= s.unit <= 1000
    requires CheckPresentation(env, s, token, session.claims.address).1.Presented?
    ensures var p := CheckPresentation(env, s, token, session.claims.address).1;
      var session' := Rechecked(session, FullCheck(s, token, WithPresentation(user, p)));
      && session'.check.Some?
      && var check := session'.check.value;
         && Assess(env, Some(check.vpJwt), session.claims.address) == p
         && check.at <= s.now < check.at + HOUR + 60 * s.unit
         && check.vpJwt in session.past && (session'.check == session.check || check.at == s.now)
  {
    GetVerificationOnSession(env, s, token, session);
    CachedWithin(env, s, token, session);
    CheckOnSession(env, s, token, session, user);
    ExpiredFromExpiryTime(session.claims, s.now);
    GetVpOnSession(s, token, session);
  }

  lemma LiveAnswerRests(env: Env, w: World, table: Table, channel: Channel, token: string, d: Decision)
    requires EntryOk(env, w, table, token) && 1 <= w.store.unit <= 1000 && token in table && !channel.Did?
    requires token != "" && !IsTokenBlocked(w.store, token) && JwtVerify(w, token).Some?
    requires d == Guard(env, w, channel, token).1 && AsVerified(d)
    ensures RestsOn(env, w, d.user, token, Basis(env, w, table, channel, token))
    ensures var basis := Basis(env, w, table, channel, token).value;
      basis.vpJwt in table[token].past && (Some(basis) == table[token].check || basis.at == w.store.now)
  {
    PassedIsLive(env, w, table, token);
    GuardChecks(env, w, channel, token);
    AfterGuardOnSession(env, w, table, channel, token, d);
    AnswerRests(env, w.store, token, table[token], UserOn(channel, table[token].claims));
    AssessIff(env, Some(Basis(env, w, table, channel, token).value.vpJwt), table[token].claims.address);
  }

  lemma VerifiedIsLive(env: Env, w: World, table: Table, channel: Channel, token: string)
    requires ValidEnv(env) && Inv(env, w, table) && AsVerified(Guard(env, w, channel, token).1)
    ensures !channel.Did? && token != "" && !IsTokenBlocked(w.store, token) && JwtVerify(w, token).Some?
    ensures token in table
  {
    assert EntryOk(env, w, table, token);
    if token !in table && JwtVerify(w, token).Some? && !IsTokenBlocked(w.store, token) && !channel.Did? {
      GuardChecks(env, w, channel, token);
      NoVpForRefresh(env, w.store, token, w.issued[token].address);
    }
  }

  /**
   In every run, without exception: when a guard accepts a bearer as verified, the holder and the count
   it reports are those of the full verification of a presentation that was stored under that very
   token, verified by this request or by an earlier guard of the run less than an hour and 60 units of
   the local cache ago.
   */
  lemma VerdictIsEarned(env: Env, w: World, steps: seq<Step>, channel: Channel, token: string)
    requires ValidEnv(env) && Initial(w) && LegalRun(env, w, steps)
    ensures var (w', replies) := Run(env, w, steps);
      var d := Guard(env, w', channel, token).1;
      var basis := Basis(env, w', History(env, replies), channel, token);
      AsVerified(d) ==>
        && RestsOn(env, w', d.user, token, basis)
        && WasStored(replies, token, basis.value.vpJwt)
        && (WasChecked(replies, token, basis.value) || basis.value.at == w'.store.now)
  {
    RunKeepsInv(env, w, steps);
    var (w', replies) := Run(env, w, steps);
    var table := History(env, replies);
    var d := Guard(env, w', channel, token).1;
    assert EntryOk(env, w', table, token);
    if AsVerified(d) {
      VerifiedIsLive(env, w', table, channel, token);
      LiveAnswerRests(env, w', table, channel, token, d);
      TableRemembers(env, replies, token);
    }
  }

  lemma CheckWrites(env: Env, s: Store, token: string, session: Session, user: User)
    requires SessionOk(ViewOf(s, token), session, s.now) && CheckOk(env, ViewOf(s, token), session, s.unit)
    requires !session.revoked && !Expired(session.claims, s.now)
    ensures var (s', p) := CheckPresentation(env, s, token, session.claims.address);
      FullCheck(s, token, WithPresentation(user, p)).Some? <==> ViewOf(s', token).verified != ViewOf(s, token).verified
  {
    var (s1, vpJwt) := GetVp(s, token);
    ExpiredFromExpiryTime(session.claims, s.now);
    GetVpOnSession(s, token, session);
    SameVerification(s, s1, token);
    var (s2, cached) := GetVerification(s1, token);
    GetVerificationOnSession(env, s1, token, session);
    assert ViewOf(s2, token).verified == ViewOf(s, token).verified;
  }

  /** A full verification is reported exactly when the guard wrote one to Redis. */
  lemma FullCheckIsWritten(env: Env, w: World, table: Table, channel: Channel, token: string)
    requires ValidEnv(env) && Inv(env, w, table)
    ensures var (w', d) := Guard(env, w, channel, token);
      FullCheck(w.store, token, d).Some? <==> ViewOf(w'.store, token).verified != ViewOf(w.store, token).verified
  {
    assert EntryOk(env, w, table, token);
    if !channel.Did? && token != "" && !IsTokenBlocked(w.store, token) && JwtVerify(w, token).Some? {
      GuardChecks(env, w, channel, token);
      if token in table {
        PassedIsLive(env, w, table, token);
        CheckWrites(env, w.store, token, table[token], UserOn(channel, table[token].claims));
      } else {
        NoVpForRefresh(env, w.store, token, w.issued[token].address);
      }
    }
  }

  /** What a full verification leaves: the verdict and its time, for an hour in Redis and 300 units in the copy. */
  lemma FullCheckLeaves(env: Env, w: World, table: Table, channel: Channel, token: string)
    requires ValidEnv(env) && Inv(env, w, table)
    requires FullCheck(w.store, token, Guard(env, w, channel, token).1).Some?
    ensures var (w', d) := Guard(env, w, channel, token);
      && AsVerified(d) && d.user.vpHolder.Some? && d.user.vcCount.Some?
      && var verdict := Verification(true, d.user.vpHolder.value, d.user.vcCount.value, w.store.now);
         && ViewOf(w'.store, token).verified == Some(Timed(verdict, w.store.now + 3600000))
         && ViewOf(w'.store, token).localVerified == Some(Timed(verdict, w.store.now + 300 * w.store.unit))
  {
    assert EntryOk(env, w, table, token);
    VerifiedIsLive(env, w, table, channel, token);
    PassedIsLive(env, w, table, token);
    GuardChecks(env, w, channel, token);
    VerdictIsWritten(env, w.store, token, table[token], UserOn(channel, table[token].claims));
  }

  lemma VerdictIsWritten(env: Env, s: Store, token: string, session: Session, user: User)
    requires SessionOk(ViewOf(s, token), session, s.now) && CheckOk(env, ViewOf(s, token), session, s.unit)
    requires !session.revoked && !Expired(session.claims, s.now)
    requires var p := CheckPresentation(env, s, token, session.claims.address).1;
      FullCheck(s, token, WithPresentation(user, p)).Some?
    ensures var (s', p) := CheckPresentation(env, s, token, session.claims.address);
      && p.Presented?
      && var verdict := Verification(true, p.holder, p.vcCount, s.now);
         && ViewOf(s', token).verified == Some(Timed(verdict, s.now + 3600000))
         && ViewOf(s', token).localVerified == Some(Timed(verdict, s.now + 300 * s.unit))
  {
    var (s1, vpJwt) := GetVp(s, token);
    ExpiredFromExpiryTime(session.claims, s.now);
    GetVpOnSession(s, token, session);
    SameVerification(s, s1, token);
    var (s2, cached) := GetVerification(s1, token);
    var p := CheckPresentation(env, s, token, session.claims.address).1;
    CacheVerificationView(s2, token, Verification(true, p.holder, p.vcCount, s2.now), 3600);
  }

  /** A live session is accepted with the verdict on what it stores exactly when no outdated check is repeated. */
  lemma VerifiedAsStoredIff(env: Env, w: World, table: Table, channel: Channel, token: string, holder: string, n: nat)
    requires ValidEnv(env) && Inv(env, w, table) && !channel.Did?
    requires token in table && !table[token].revoked && !Expired(table[token].claims, w.store.now)
    requires Assess(env, table[token].stored, table[token].claims.address) == Presented(holder, n)
    ensures var d := Guard(env, w, channel, token).1;
      AsVerified(d) && d.user.vpHolder == Some(holder) && d.user.vcCount == Some(n)
      <==> !Outdated(env, w, table, channel, token)
  {
    var session := table[token];
    assert EntryOk(env, w, table, token);
    CheckOnSession(env, w.store, token, session, UserOn(channel, session.claims));
    ExpiredFromExpiryTime(session.claims, w.store.now);
    GuardChecks(env, w, channel, token);
  }

  // ----- an outdated answer at a real input -----

  /**
   In any reachable state: a log-in that signs the token of a session checked within the hour, with a
   presentation that is assessed differently, is answered by the old verdict.
   */
  lemma ReplacedVerdictIsServed(env: Env, w: World, table: Table, login: Login, token: string, channel: Channel)
    requires ValidEnv(env) && Inv(env, w, table) && !channel.Did?
    requires token in table && !table[token].revoked && !Expired(table[token].claims, w.store.now)
    requires table[token].check.Some? && w.store.now < table[token].check.value.at + HOUR
    requires var reply := LogIn(env, w, login).1; reply.Opened? && reply.token == token && Real(reply.stored)
    requires Assess(env, LogIn(env, w, login).1.stored, table[token].claims.address)
             != Assess(env, Some(table[token].check.value.vpJwt), table[token].claims.address)
    ensures var (w', reply) := LogIn(env, w, login);
      var (d, address) := (Guard(env, w', channel, token).1, table[token].claims.address);
      && AsVerified(d) && d.user.vpHolder.Some? && d.user.vcCount.Some?
      && Presented(d.user.vpHolder.value, d.user.vcCount.value)
         == Assess(env, Some(table[token].check.value.vpJwt), address) != Assess(env, reply.stored, address)
  {
    var (w', reply) := LogIn(env, w, login);
    var table' := Record(env, table, reply);
    LogInKeepsInv(env, w, table, login);
    assert w'.store.now == w.store.now;
    OutdatedAnswer(env, w', table', channel, token);
  }

  lemma OutdatedAnswer(env: Env, w: World, table: Table, channel: Channel, token: string)
    requires ValidEnv(env) && Inv(env, w, table) && !channel.Did?
    requires token in table && !table[token].revoked && !Expired(table[token].claims, w.store.now)
    requires Real(table[token].stored)
    requires table[token].check.Some? && w.store.now < table[token].check.value.at + HOUR
    ensures var (d, s) := (Guard(env, w, channel, token).1, table[token]);
      && AsVerified(d) && d.user.vpHolder.Some? && d.user.vcCount.Some?
      && Presented(d.user.vpHolder.value, d.user.vcCount.value)
         == Assess(env, Some(s.check.value.vpJwt), s.claims.address)
  {
    var session := table[token];
    assert EntryOk(env, w, table, token);
    CachedWithin(env, w.store, token, session);
    GetVerificationOnSession(env, w.store, token, session);
    CheckOnSession(env, w.store, token, session, UserOn(channel, session.claims));
    ExpiredFromExpiryTime(session.claims, w.store.now);
    GuardChecks(env, w, channel, token);
  }

  /** A log-in again: the same wallet and claims, another challenge and another presentation. */
  function LogInAgain(login: Login, challenge: string, signature: string, vpJwt: string): Login {
    login.(challenge := challenge, signature := signature, vp := Created(vpJwt))
  }

  /** After this legal run the guard accepts as verified, and the table that verifies in full refuses. */
  ghost predicate ServedDespiteTable(env: Env, w: World, steps: seq<Step>, channel: Channel, token: string) {
    var (w', replies) := Run(env, w, steps);
    && LegalRun(env, w, steps)
    && AsVerified(Guard(env, w', channel, token).1)
    && TableGuard(env, History(env, replies), w'.store.now, channel, token) == None
  }

  lemma InOrder(a: Step, b: Step, c: Step, d: Step, e: Step)
    ensures [a, b] + [c] + [d] + [e] == [a, b, c, d, e]
  {
  }

  /**
   The shortest such run, within one second: a log-in, a socket connection, and a second log-in of the
   same wallet whose presentation does not verify. The guard lets the session in as verified.
   */
  lemma FailedPresentationIsServed(env: Env, w: World, login: Login, challenge: string, signature: string,
                                   vpJwt: string, channel: Channel)
    requires ValidEnv(env) && Initial(w) && login.guardian.Some? && login.vcCount > 0 && login.vp.Created?
    requires login.challenge != "" && env.recover(login.challenge, login.signature) == Some(login.wallet)
    requires challenge != "" && env.recover(challenge, signature) == Some(login.wallet)
    requires Assess(env, Some(login.vp.vpJwt), login.wallet).Presented?
    requires Assess(env, Some(vpJwt), login.wallet).Failed? && !channel.Did?
    ensures var token := env.sign(AccessClaims(w, login.wallet, login.guardian.value, login.vcCount));
      var steps := [AskChallenge(login.wallet, login.challenge), DoLogIn(login), DoGuard(Socket, token),
                    AskChallenge(login.wallet, challenge), DoLogIn(LogInAgain(login, challenge, signature, vpJwt))];
      ServedDespiteTable(env, w, steps, channel, token)
  {
    var token := env.sign(AccessClaims(w, login.wallet, login.guardian.value, login.vcCount));
    var opening := [AskChallenge(login.wallet, login.challenge), DoLogIn(login)];
    OpeningReaches(env, w, login);
    CheckThenLogInAgain(env, w, opening, Run(env, w, opening).0, History(env, Run(env, w, opening).1), login,
                        challenge, signature, vpJwt, token, channel);
    InOrder(AskChallenge(login.wallet, login.challenge), DoLogIn(login), DoGuard(Socket, token),
            AskChallenge(login.wallet, challenge), DoLogIn(LogInAgain(login, challenge, signature, vpJwt)));
  }

  lemma OpeningReaches(env: Env, w: World, login: Login)
    requires ValidEnv(env) && Initial(w) && login.guardian.Some? && login.vcCount > 0 && login.vp.Created?
    requires login.challenge != "" && env.recover(login.challenge, login.signature) == Some(login.wallet)
    ensures var claims := AccessClaims(w, login.wallet, login.guardian.value, login.vcCount);
      var opening := [AskChallenge(login.wallet, login.challenge), DoLogIn(login)];
      var (w2, replies) := Run(env, w, opening);
      && Reaches(env, w, opening, w2, History(env, replies)) && Inv(env, w2, History(env, replies))
      && w2.store.now == w.store.now
      && env.sign(claims) in History(env, replies)
      && History(env, replies)[env.sign(claims)] == FirstSession(claims, login.vp.vpJwt)
  {
    SignedLogInSession(env, w, login);
    SignedLogInRunIsLegal(env, w, login);
    SignedLogInLeaves(env, w, login);
  }

  /** From the open session to the answer, step by step. */
  lemma CheckThenLogInAgain(env: Env, start: World, opening: seq<Step>, w: World, table: Table,
                            login: Login, challenge: string, signature: string, vpJwt: string, token: string,
                            channel: Channel)
    requires ValidEnv(env) && Inv(env, w, table) && login.guardian.Some? && login.vcCount > 0 && login.vp.Created?
    requires challenge != "" && env.recover(challenge, signature) == Some(login.wallet)
    requires var claims := AccessClaims(w, login.wallet, login.guardian.value, login.vcCount);
      token == env.sign(claims) && token in table && table[token] == FirstSession(claims, login.vp.vpJwt)
    requires Assess(env, Some(login.vp.vpJwt), login.wallet).Presented?
    requires Assess(env, Some(vpJwt), login.wallet).Failed? && !channel.Did?
    requires Reaches(env, start, opening, w, table)
    ensures var steps := opening + [DoGuard(Socket, token)] + [AskChallenge(login.wallet, challenge)]
                         + [DoLogIn(LogInAgain(login, challenge, signature, vpJwt))];
      ServedDespiteTable(env, start, steps, channel, token)
  {
    var (w3, first) := Next(env, w, DoGuard(Socket, token));
    SocketChecks(env, w, table, token);
    ReachesMore(env, start, opening, w, table, DoGuard(Socket, token), w3, first);
    var table3 := Record(env, table, first);
    var w4 := CreateChallenge(w3, login.wallet, challenge);
    ChallengeKeepsInv(env, w3, table3, login.wallet, challenge);
    ReachesMore(env, start, opening + [DoGuard(Socket, token)], w3, table3, AskChallenge(login.wallet, challenge),
                w4, Challenged(login.wallet));
    var again := LogInAgain(login, challenge, signature, vpJwt);
    ChallengedLogInOpens(env, w3, again);
    ReplacedVerdictIsServed(env, w4, table3, again, token, channel);
    ReachesMore(env, start, opening + [DoGuard(Socket, token)] + [AskChallenge(login.wallet, challenge)], w4, table3,
                DoLogIn(again), LogIn(env, w4, again).0, LogIn(env, w4, again).1);
  }

  /** A socket connection with an unchecked presentation verifies it in full. */
  lemma SocketChecks(env: Env, w: World, table: Table, token: string)
    requires ValidEnv(env) && Inv(env, w, table) && token in table
    requires table[token].check.None? && !table[token].revoked && !Expired(table[token].claims, w.store.now)
    requires Assess(env, table[token].stored, table[token].claims.address).Presented?
    ensures var (w', reply) := Next(env, w, DoGuard(Socket, token));
      var table' := Record(env, table, reply);
      && Inv(env, w', table') && w'.store.now == w.store.now
      && token in table'
      && table'[token] == table[token].(check := Some(Check(table[token].stored.value, w.store.now)))
  {
    assert EntryOk(env, w, table, token);
    GuardKeepsInv(env, w, table, Socket, token);
    GuardKeepsEntries(env, w, table, Socket, token);
    CachedWithin(env, w.store, token, table[token]);
    CheckOnSession(env, w.store, token, table[token], SocketUser(table[token].claims));
    ExpiredFromExpiryTime(table[token].claims, w.store.now);
    GuardChecks(env, w, Socket, token);
    GetVpOnSession(w.store, token, table[token]);
  }

  lemma ChallengedLogInOpens(env: Env, w: World, login: Login)
    requires login.challenge != "" && env.recover(login.challenge, login.signature) == Some(login.wallet)
    requires login.guardian.Some? && login.vcCount > 0 && login.vp.Created?
    ensures var claims := AccessClaims(w, login.wallet, login.guardian.value, login.vcCount);
      LogIn(env, CreateChallenge(w, login.wallet, login.challenge), login).1
      == Opened(login.wallet, true, env.sign(claims), claims, Some(login.vp.vpJwt))
  {
    var w1 := CreateChallenge(w, login.wallet, login.challenge);
    assert RedisGet(w1.store, Render(ChallengeOf(login.wallet))) == Some(Text(login.challenge));
  }

  /** A legal run ends in this world with this table. */
  ghost predicate Reaches(env: Env, w: World, steps: seq<Step>, w': World, table: Table) {
    LegalRun(env, w, steps) && Run(env, w, steps).0 == w' && History(env, Run(env, w, steps).1) == table
  }

  lemma ReachesMore(env: Env, w: World, steps: seq<Step>, before: World, table: Table, step: Step, after: World,
                    reply: Reply)
    requires Reaches(env, w, steps, before, table) && !step.DoLogOutAll? && Next(env, before, step) == (after, reply)
    ensures Reaches(env, w, steps + [step], after, Record(env, table, reply))
  {
    var all := steps + [step];
    assert all[..|steps|] == steps;
    forall i | 0 <= i < |all| ensures Legal(Run(env, w, all[..i]).0, all[i]) {
      if i < |steps| {
        assert all[..i] == steps[..i] && all[i] == steps[i];
      }
    }
    HistoryGrows(env, Run(env, w, steps).1, reply);
  }
}
