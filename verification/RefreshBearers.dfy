/** Refresh tokens used as bearers, over whole runs: what a log-out of one stops, and for how long. */
module RefreshBearers {
  import opened Did
  import opened Gateway
  import opened GatewayProofs
  import opened SessionFrames
  import opened SessionKeys
  import opened SessionTheorems
  import opened Sessions
  import opened Wrappers

  /** When the token was last logged out. */
  function LastClose(env: Env, w: World, steps: seq<Step>, token: string): Option<nat>
    decreases |steps|
  {
    if steps == [] then None
    else
      var before := Run(env, w, steps[..|steps| - 1]).0;
      if Next(env, before, steps[|steps| - 1]).1 == Closed(token) then Some(before.store.now)
      else LastClose(env, w, steps[..|steps| - 1], token)
  }

  /** The block of one day that a log-out places. */
  function BlockFrom(last: Option<nat>): Option<Timed> {
    if last.Some? then Some(Timed(Text("1"), last.value + DAY * 1000)) else None
  }

  lemma LogInBlocks(env: Env, w: World, login: Login, token: string)
    requires ValidEnv(env)
    ensures Entry(LogIn(env, w, login).0, Blocked(token)) == Entry(w, Blocked(token))
  {
    var (w1, valid) := VerifySignature(env, w, login.wallet, login.challenge, login.signature);
    SignatureFrame(env, w, login, Blocked(token));
    if valid && login.guardian.Some? {
      SignerIsHex(env, w, login);
      SignedLogInFrame(env, w1, login, Blocked(token));
    }
  }

  lemma LogOutAllBlocks(env: Env, w: World, table: Table, bearer: string, keys: seq<string>, token: string)
    requires Inv(env, w, table) && ScanOf(w.store, keys) && token !in table
    ensures Entry(LogOutAll(env, w, bearer, keys).0, Blocked(token)) == Entry(w, Blocked(token))
  {
    var d := DidGuard(w, bearer);
    if d.Accepted? {
      assert EntryOk(env, w, table, token);
      CloseNamedIsExact(env, w.store, d.user.address, keys, token);
      TargetMeansHeld(env, w, table, d.user.address, keys, token);
      assert ViewOf(CloseNamed(env, w.store, d.user.address, keys), token).blocked == ViewOf(w.store, token).blocked;
    }
  }

  /** Only its own log-out blocks a token that is no session. */
  lemma StepBlocks(env: Env, w: World, table: Table, step: Step, token: string)
    requires ValidEnv(env) && Inv(env, w, table) && Legal(w, step) && token !in table
    ensures var (w', reply) := Next(env, w, step);
      Entry(w', Blocked(token))
      == if reply == Closed(token) then BlockFrom(Some(w.store.now)) else Entry(w, Blocked(token))
  {
    var id := Blocked(token);
    match step
    case Tick(ms) =>
    case AskChallenge(wallet, challenge) => ChallengeFrame(w, wallet, challenge, id);
    case DoLogIn(login) => LogInBlocks(env, w, login, token);
    case DoRefresh(refresh, guardian, n) => RefreshSessionFrame(env, w, refresh, guardian, n, id);
    case DoLogOut(closed) =>
      LogOutView(w.store, closed);
      assert Entry(w, id) == ViewOf(w.store, token).blocked;
      assert Entry(LogOut(w, closed).0, id) == ViewOf(LogOut(w, closed).0.store, token).blocked;
    case DoLogOutAll(bearer, keys) => LogOutAllBlocks(env, w, table, bearer, keys, token);
    case DoGuard(channel, bearer) => GuardFrame(env, w, channel, bearer, id);
  }

  lemma {:induction false} RunBlocks(env: Env, w: World, steps: seq<Step>, token: string)
    requires ValidEnv(env) && Initial(w) && LegalRun(env, w, steps)
    requires token !in History(env, Run(env, w, steps).1)
    ensures Entry(Run(env, w, steps).0, Blocked(token)) == BlockFrom(LastClose(env, w, steps, token))
    decreases |steps|
  {
    if steps == [] {
    } else {
      var last := |steps| - 1;
      var earlier := steps[..last];
      PrefixLegal(env, w, steps, last);
      SessionContinues(env, w, steps, last, token);
      RunBlocks(env, w, earlier, token);
      RunKeepsInv(env, w, earlier);
      StepBlocks(env, Run(env, w, earlier).0, History(env, Run(env, w, earlier).1), steps[last], token);
    }
  }

  /**
   In every run, what each guard decides on a refresh token: the two guards that read the block list refuse
   it for exactly one day from its last log-out, and accept it again, as a user without presentation, until
   it expires; the DID guard accepts it until it expires.
   */
  lemma RefreshBearerIsDecided(env: Env, w: World, steps: seq<Step>, channel: Channel, token: string)
    requires ValidEnv(env) && Initial(w) && LegalRun(env, w, steps)
    requires var w' := Run(env, w, steps).0; token in w'.issued && w'.issued[token].Refresh?
    ensures var (w', last) := (Run(env, w, steps).0, LastClose(env, w, steps, token));
      Guard(env, w', channel, token).1
      == if !channel.Did? && last.Some? && w'.store.now < last.value + 86400000 then Rejected(Revoked)
         else if Expired(w'.issued[token], w'.store.now) then Rejected(InvalidToken)
         else Accepted(UserOn(channel, w'.issued[token]))
  {
    RunKeepsInv(env, w, steps);
    var (w', replies) := Run(env, w, steps);
    assert EntryOk(env, w', History(env, replies), token);
    RunBlocks(env, w, steps, token);
    RefreshBearerIsUnverified(env, w', History(env, replies), channel, token);
  }

  /** At a real input: a refresh token is logged out right after its log-in, refused, and accepted a day later. */
  lemma LoggedOutBearerReturns(env: Env, w: World, login: Login, channel: Channel)
    requires ValidEnv(env) && Initial(w) && login.guardian.Some? && login.vcCount > 0 && login.vp.Created?
    requires login.challenge != "" && env.recover(login.challenge, login.signature) == Some(login.wallet)
    requires !channel.Did?
    ensures var w2 := Run(env, w, [AskChallenge(login.wallet, login.challenge), DoLogIn(login)]).0;
      var token := env.sign(RefreshClaims(w, login.wallet));
      var (w3, reply) := LogOut(w2, token);
      var w4 := Next(env, w3, Tick(86400000)).0;
      && reply == Closed(token)
      && Guard(env, w3, channel, token).1 == Rejected(Revoked)
      && Guard(env, w4, channel, token).1.Accepted?
  {
    var opening := [AskChallenge(login.wallet, login.challenge), DoLogIn(login)];
    var (w2, replies) := Run(env, w, opening);
    SignedLogInSession(env, w, login);
    SignedLogInLeaves(env, w, login);
    BearerReturns(env, w2, History(env, replies), env.sign(RefreshClaims(w, login.wallet)), channel);
  }

  lemma BearerReturns(env: Env, w: World, table: Table, token: string, channel: Channel)
    requires ValidEnv(env) && Inv(env, w, table) && !channel.Did?
    requires token in w.issued && w.issued[token].Refresh? && !Expired(w.issued[token], w.store.now + 86400000)
    ensures var (w', reply) := LogOut(w, token);
      var later := Next(env, w', Tick(86400000)).0;
      && reply == Closed(token)
      && Guard(env, w', channel, token).1 == Rejected(Revoked)
      && Guard(env, later, channel, token).1.Accepted?
  {
    assert EntryOk(env, w, table, token);
    DidGuardOnToken(env, w, table, token);
    LogOutKeepsInv(env, w, table, token);
    LogOutBlocks(w, token);
    LogOutView(w.store, token);
    var w', table' := LogOut(w, token).0, Record(env, table, Closed(token));
    RefreshBearerIsUnverified(env, w', table', channel, token);
    TickKeepsInv(env, w', table', 86400000);
    RefreshBearerIsUnverified(env, Next(env, w', Tick(86400000)).0, table', channel, token);
    assert ViewOf(w'.store, token).blocked == BlockFrom(Some(w.store.now));
  }
}
