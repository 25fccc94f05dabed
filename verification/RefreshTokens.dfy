/** Refresh tokens over whole runs: which one opens a session, and that no log-out ends it. */
module RefreshTokens {
  import opened Gateway
  import opened SessionFrames
  import opened SessionKeys
  import opened Sessions
  import opened Wrappers

  /** The last refresh token signed for a wallet: its text and the millisecond of its signing. */
  function LastRefresh(env: Env, w: World, steps: seq<Step>, wallet: string): Option<(string, nat)>
    decreases |steps|
  {
    if steps == [] then None
    else
      var earlier := steps[..|steps| - 1];
      var before := Run(env, w, earlier).0;
      var reply := Next(env, before, steps[|steps| - 1]).1;
      LastAfter(env, before, reply, LastRefresh(env, w, earlier, wallet), wallet)
  }

  /** A log-in signs a refresh token once its presentation, or the marker of none, is stored. */
  predicate SignsRefresh(reply: Reply, wallet: string) {
    reply.Opened? && reply.bySignature && reply.wallet == wallet && reply.stored.Some?
  }

  /** The entry of the wallet is its last refresh token, which is issued and as old as the entry. */
  predicate LastIsStored(env: Env, w: World, last: Option<(string, nat)>, wallet: string) {
    match last
    case None => Entry(w, RefreshOf(wallet)) == None
    case Some((token, at)) =>
      && Entry(w, RefreshOf(wallet)) == Some(Timed(Text(token), at + 604800000))
      && Issued(env, w, token, Refresh(wallet, at / 1000))
  }

  predicate Issued(env: Env, w: World, token: string, claims: Claims) {
    token == env.sign(claims) && token in w.issued && w.issued[token] == claims
  }

  /** No step unsigns a token. */
  lemma StepKeepsIssued(env: Env, w: World, step: Step, token: string, claims: Claims)
    requires ValidEnv(env) && Issued(env, w, token, claims)
    ensures Issued(env, Next(env, w, step).0, token, claims)
  {
  }

  lemma LogInSignsRefresh(env: Env, w: World, login: Login, wallet: string)
    requires ValidEnv(env) && SignsRefresh(LogIn(env, w, login).1, wallet)
    ensures var w' := LogIn(env, w, login).0;
      Issued(env, w', env.sign(RefreshClaims(w, wallet)), RefreshClaims(w, wallet))
  {
  }

  /** The refresh entry of a wallet after a step: the token just signed for it, or what was there. */
  function EntryAfter(env: Env, w: World, reply: Reply, wallet: string): Option<Timed> {
    if SignsRefresh(reply, wallet)
    then Some(Timed(Text(env.sign(RefreshClaims(w, wallet))), w.store.now + 604800000))
    else Entry(w, RefreshOf(wallet))
  }

  lemma LogInEntry(env: Env, w: World, login: Login, wallet: string)
    requires ValidEnv(env)
    ensures var (w', reply) := LogIn(env, w, login); Entry(w', RefreshOf(wallet)) == EntryAfter(env, w, reply, wallet)
  {
    var (w1, valid) := VerifySignature(env, w, login.wallet, login.challenge, login.signature);
    SignatureFrame(env, w, login, RefreshOf(wallet));
    if valid && login.guardian.Some? {
      SignerIsHex(env, w, login);
      SignedLogInFrame(env, w1, login, RefreshOf(wallet));
    }
  }

  lemma StepEntry(env: Env, w: World, step: Step, wallet: string)
    requires ValidEnv(env)
    ensures var (w', reply) := Next(env, w, step); Entry(w', RefreshOf(wallet)) == EntryAfter(env, w, reply, wallet)
  {
    var id := RefreshOf(wallet);
    match step
    case Tick(ms) =>
    case AskChallenge(other, challenge) => ChallengeFrame(w, other, challenge, id);
    case DoLogIn(login) => LogInEntry(env, w, login, wallet);
    case DoRefresh(token, guardian, n) => RefreshSessionFrame(env, w, token, guardian, n, id);
    case DoLogOut(token) => LogOutFrame(w, token, id);
    case DoLogOutAll(token, keys) => LogOutAllLeaves(env, w, token, keys, id);
    case DoGuard(channel, token) => GuardFrame(env, w, channel, token, id);
  }

  lemma OnlyLogInSigns(env: Env, w: World, step: Step, wallet: string)
    ensures SignsRefresh(Next(env, w, step).1, wallet) ==> step.DoLogIn?
  {
  }

  /** The last refresh token after a step that gave this reply. */
  function LastAfter(env: Env, w: World, reply: Reply, last: Option<(string, nat)>, wallet: string)
    : Option<(string, nat)>
  {
    if SignsRefresh(reply, wallet) then Some((env.sign(RefreshClaims(w, wallet)), w.store.now)) else last
  }

  lemma LastFollowsEntry(env: Env, w: World, w': World, reply: Reply, last: Option<(string, nat)>, wallet: string)
    requires LastIsStored(env, w, last, wallet)
    requires Entry(w', RefreshOf(wallet)) == EntryAfter(env, w, reply, wallet)
    requires SignsRefresh(reply, wallet) ==>
      Issued(env, w', env.sign(RefreshClaims(w, wallet)), RefreshClaims(w, wallet))
    requires last.Some? ==> Issued(env, w', last.value.0, Refresh(wallet, last.value.1 / 1000))
    ensures LastIsStored(env, w', LastAfter(env, w, reply, last, wallet), wallet)
  {
  }

  lemma StepKeepsLast(env: Env, w: World, step: Step, last: Option<(string, nat)>, wallet: string)
    requires ValidEnv(env) && LastIsStored(env, w, last, wallet)
    ensures var (w', reply) := Next(env, w, step);
      LastIsStored(env, w', LastAfter(env, w, reply, last, wallet), wallet)
  {
    var (w', reply) := Next(env, w, step);
    StepEntry(env, w, step, wallet);
    if SignsRefresh(reply, wallet) {
      OnlyLogInSigns(env, w, step, wallet);
      LogInSignsRefresh(env, w, step.login, wallet);
    }
    if last.Some? {
      StepKeepsIssued(env, w, step, last.value.0, Refresh(wallet, last.value.1 / 1000));
    }
    LastFollowsEntry(env, w, w', reply, last, wallet);
  }

  lemma {:induction false} RunKeepsLast(env: Env, w: World, steps: seq<Step>, wallet: string)
    requires ValidEnv(env) && w.store.redis == map[]
    ensures LastIsStored(env, Run(env, w, steps).0, LastRefresh(env, w, steps, wallet), wallet)
    decreases |steps|
  {
    if steps == [] {
    } else {
      var earlier := steps[..|steps| - 1];
      RunKeepsLast(env, w, earlier, wallet);
      StepKeepsLast(env, Run(env, w, earlier).0, steps[|steps| - 1], LastRefresh(env, w, earlier, wallet), wallet);
    }
  }

  /**
   In every run, whatever log-outs and log-outs of all sessions it holds: a refresh opens a session
   for a wallet exactly when its token is the last refresh token signed for that wallet, and its
   seven days are not over.
   */
  lemma RefreshOpensIff(env: Env, w: World, steps: seq<Step>, token: string, wallet: string,
                        isGuardian: bool, vcCount: nat)
    requires ValidEnv(env) && w.store.redis == map[]
    ensures var w' := Run(env, w, steps).0;
      var reply := RefreshSession(env, w', token, Some(isGuardian), vcCount).1;
      var last := LastRefresh(env, w, steps, wallet);
      reply.Opened? && reply.wallet == wallet
      <==> last.Some? && last.value.0 == token
           && w'.store.now / 1000 < last.value.1 / 1000 + 604800
  {
    RunKeepsLast(env, w, steps, wallet);
    var w', last := Run(env, w, steps).0, LastRefresh(env, w, steps, wallet);
    if last.Some? && last.value.0 == token {
      ValidUntilExpiry(env, w', token, last.value.1, wallet);
    }
  }

  /** The entry of a refresh token outlives its JWT. */
  lemma ValidUntilExpiry(env: Env, w: World, token: string, at: nat, wallet: string)
    requires ValidEnv(env) && LastIsStored(env, w, Some((token, at)), wallet)
    ensures ValidateRefresh(w, token)
            == if w.store.now / 1000 < at / 1000 + 604800 then Some(Refresh(wallet, at / 1000)) else None
  {
  }

  /** In particular a log-out, and a log-out-all, of any bearer leaves every refresh as it was. */
  lemma LogOutLeavesRefresh(env: Env, w: World, bearer: string, keys: seq<string>, token: string)
    ensures ValidateRefresh(LogOut(w, bearer).0, token) == ValidateRefresh(w, token)
    ensures ValidateRefresh(LogOutAll(env, w, bearer, keys).0, token) == ValidateRefresh(w, token)
  {
    if token in w.issued {
      var id := RefreshOf(w.issued[token].address);
      LogOutFrame(w, bearer, id);
      LogOutAllLeaves(env, w, bearer, keys, id);
      LogOutAllKeepsClock(env, w, bearer, keys);
    }
  }

  lemma LogOutAllKeepsClock(env: Env, w: World, bearer: string, keys: seq<string>)
    ensures var w' := LogOutAll(env, w, bearer, keys).0; w'.store.now == w.store.now && w'.issued == w.issued
  {
    var d := DidGuard(w, bearer);
    if d.Accepted? {
      CloseNamedKeepsClock(env, w.store, d.user.address, keys);
    }
  }

  lemma {:induction false} CloseNamedKeepsClock(env: Env, s: Store, address: string, keys: seq<string>)
    ensures CloseNamed(env, s, address, keys).now == s.now
    decreases |keys|
  {
    if keys == [] {
    } else {
      CloseNamedKeepsClock(env, s, address, keys[..|keys| - 1]);
    }
  }
}
