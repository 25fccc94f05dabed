/**
 The guards, read off the store and the claims of the bearer: why each refuses, whom it lets in, and what it
 reports of a session from the log-in or refresh that opened it to the end of its day.
 */
module SessionGuards {
  import opened Did
  import opened Gateway
  import opened GatewayProofs
  import opened SessionKeys
  import opened SessionRequests
  import opened SessionTheorems
  import opened Sessions
  import opened Text
  import opened Wrappers

  // ----- the verdict on a presentation -----

  /** A text that stands for a presentation. */
  predicate Presents(stored: Option<string>) {
    stored.Some? && |stored.value| > 0 && stored.value != "EMPTY"
  }

  /** The presentation verifies, and the address in the DID of its holder is this one, but for case. */
  predicate VerifiesFor(env: Env, vpJwt: string, address: string, holder: string, n: nat) {
    env.verify(vpJwt) == Some(Verdict(holder, n)) && SameUpToCase(DidAddress(holder), address)
  }

  /** Full verification: what it answers for each stored text, and that it is one of three. */
  lemma AssessIff(env: Env, stored: Option<string>, address: string)
    ensures Assess(env, stored, address) == NoPresentation <==> !Presents(stored)
    ensures forall holder, n :: Assess(env, stored, address) == Presented(holder, n)
                                <==> Presents(stored) && VerifiesFor(env, stored.value, address, holder, n)
    ensures Assess(env, stored, address) == Failed
            <==> Presents(stored) && forall holder, n :: !VerifiesFor(env, stored.value, address, holder, n)
  {
    if Presents(stored) && env.verify(stored.value).Some? {
      var p := env.verify(stored.value).value;
      SameAddressIff(DidAddress(p.holder), address);
      assert VerifiesFor(env, stored.value, address, p.holder, p.vcCount)
             <==> SameUpToCase(DidAddress(p.holder), address);
    }
  }

  // ----- reasons and users -----

  /** The block of the token is in Redis and has not run out. */
  predicate BlockedNow(s: Store, token: string) {
    var entry := ViewOf(s, token).blocked;
    entry.Some? && entry.value.value == Text("1") && s.now < entry.value.deadline
  }

  /** What a guard says of the bearer, before any presentation. */
  predicate ReadsClaims(channel: Channel, claims: Claims, u: User) {
    && SameUpToCase(u.address, claims.address)
    && (if channel.Socket? then u.address == claims.address
        else forall i :: 0 <= i < |u.address| ==> !('A' <= u.address[i] <= 'Z'))
    && u.isGuardian == (if claims.Access? then Some(claims.isGuardian) else None)
    && if u.vpVerified then u.vpHolder.Some? && u.vcCount.Some?
       else u.vpHolder == None
            && u.vcCount == if !channel.Socket? && claims.Access? then Some(claims.vcCount) else None
  }

  lemma UserReadsClaims(channel: Channel, claims: Claims, p: Presented)
    ensures var d := WithPresentation(UserOn(channel, claims), p);
      && (p.Failed? <==> d == Rejected(PresentationFailed))
      && (!p.Failed? ==> d.Accepted? && ReadsClaims(channel, claims, d.user)
                         && (d.user.vpVerified <==> p.Presented?))
  {
    LowerIsLower(claims.address);
  }

  /** Why a guard refuses, in the order in which it looks, and otherwise whom it lets in. */
  predicate DecidedBy(w: World, channel: Channel, token: string, d: Decision) {
    if |token| == 0 then d == Rejected(MissingToken)
    else if !channel.Did? && BlockedNow(w.store, token) then d == Rejected(Revoked)
    else if !Unexpired(w, token) then d == Rejected(InvalidToken)
    else
      && (channel.Did? || w.issued[token].Refresh? ==> d.Accepted? && !d.user.vpVerified)
      && (d == Rejected(PresentationFailed) || (d.Accepted? && ReadsClaims(channel, w.issued[token], d.user)))
  }

  lemma LiveIsDecided(env: Env, w: World, table: Table, channel: Channel, token: string)
    requires ValidEnv(env) && EntryOk(env, w, table, token) && token != "" && !channel.Did?
    requires !IsTokenBlocked(w.store, token) && JwtVerify(w, token).Some?
    ensures DecidedBy(w, channel, token, Guard(env, w, channel, token).1)
  {
    var claims := w.issued[token];
    var p := CheckPresentation(env, w.store, token, claims.address).1;
    GuardChecks(env, w, channel, token);
    UserReadsClaims(channel, claims, p);
    if claims.Refresh? {
      NoVpForRefresh(env, w.store, token, claims.address);
    }
  }

  lemma GuardIsDecided(env: Env, w: World, table: Table, channel: Channel, token: string)
    requires ValidEnv(env) && Inv(env, w, table)
    ensures DecidedBy(w, channel, token, Guard(env, w, channel, token).1)
  {
    assert EntryOk(env, w, table, token);
    if channel.Did? {
      DidGuardOnToken(env, w, table, token);
      if JwtVerify(w, token).Some? {
        UserReadsClaims(channel, w.issued[token], NoPresentation);
      }
    } else if token != "" && !IsTokenBlocked(w.store, token) && JwtVerify(w, token).Some? {
      LiveIsDecided(env, w, table, channel, token);
    }
  }

  // ----- a session from its opening on -----

  /** The answers of the credential service that a log-in or a refresh was given. */
  function Given(step: Step): Option<(bool, nat)> {
    match step
    case DoLogIn(login) => if login.guardian.Some? then Some((login.guardian.value, login.vcCount)) else None
    case DoRefresh(_, guardian, vcCount) => if guardian.Some? then Some((guardian.value, vcCount)) else None
    case _ => None
  }

  lemma OpenedAsGiven(env: Env, w: World, step: Step)
    ensures var reply := Next(env, w, step).1;
      reply.Opened? ==>
        Given(step).Some?
        && reply.claims == ClaimsNow(w, reply.wallet, Given(step).value.0, Given(step).value.1)
  {
  }

  /**
   In every run, a session is what it was opened as: each guard reports the wallet and the answers given
   when it was opened, and lets it in only in its first 24 hours, and the DID guard in all of them.
   */
  lemma SessionIsAsOpened(env: Env, w: World, steps: seq<Step>, i: nat, channel: Channel)
    requires ValidEnv(env) && Initial(w) && LegalRun(env, w, steps) && i < |steps|
    requires var replies := Run(env, w, steps).1; |replies| == |steps| && replies[i].Opened?
    ensures Given(steps[i]).Some?
    ensures var (w', reply) := (Run(env, w, steps).0, Run(env, w, steps).1[i]);
      var (second, given) := (Run(env, w, steps[..i]).0.store.now / 1000, Given(steps[i]).value);
      var d := Guard(env, w', channel, reply.token).1;
      && (d.Accepted? ==>
            w'.store.now / 1000 < second + 86400
            && ReadsClaims(channel, Access(reply.wallet, given.0, given.1, second), d.user))
      && (channel.Did? && w'.store.now / 1000 < second + 86400 ==> d.Accepted?)
  {
    var (w', replies) := Run(env, w, steps);
    var before := Run(env, w, steps[..i]).0;
    ReplyAt(env, w, steps, i);
    OpenedAsGiven(env, before, steps[i]);
    OpenedIsInTable(env, w, steps, i);
    assert Inv(env, w', History(env, replies)) by { RunKeepsInv(env, w, steps); }
    assert EntryOk(env, w', History(env, replies), replies[i].token);
    GuardIsDecided(env, w', History(env, replies), channel, replies[i].token);
  }
}
