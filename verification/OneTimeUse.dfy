/** A challenge is used up by the signature it admits. */
module OneTimeUse {
  import opened Did
  import opened Gateway
  import opened SessionKeys
  import opened Sessions
  import opened SessionFrames
  import opened Text
  import opened Wrappers

  /** The reply reports an accepted wallet signature. */
  predicate Accepts(reply: Reply, wallet: string) {
    reply == SignedOnly(wallet) || (reply.Opened? && reply.bySignature && reply.wallet == wallet)
  }

  function Accepted(replies: seq<Reply>, wallet: string): nat
    decreases |replies|
  {
    if replies == [] then 0
    else
      Accepted(replies[..|replies| - 1], wallet) + (if Accepts(replies[|replies| - 1], wallet) then 1 else 0)
  }

  function Challenges(replies: seq<Reply>, wallet: string): nat
    decreases |replies|
  {
    if replies == [] then 0
    else
      Challenges(replies[..|replies| - 1], wallet)
      + (if replies[|replies| - 1] == Challenged(wallet) then 1 else 0)
  }

  /** The stored challenge of a wallet, with its deadline. */
  function Stored(w: World, wallet: string): Option<Timed> {
    Entry(w, ChallengeOf(wallet))
  }

  predicate Pending(w: World, wallet: string) {
    Stored(w, wallet).Some?
  }

  /** What a step leaves as the challenge of a wallet: the one just sent, none once used, or what was there. */
  function ChallengeAfter(w: World, step: Step, reply: Reply, wallet: string): Option<Timed> {
    if step.AskChallenge? && step.wallet == wallet then Some(Timed(Text(step.challenge), w.store.now + 300000))
    else if Accepts(reply, wallet) then None
    else Stored(w, wallet)
  }

  /** Only a challenge request stores a challenge, and only an accepted signature removes it. */
  lemma StepUsesChallenge(env: Env, w: World, step: Step, wallet: string)
    requires ValidEnv(env)
    ensures var (w', reply) := Next(env, w, step);
      && Stored(w', wallet) == ChallengeAfter(w, step, reply, wallet)
      && (Accepts(reply, wallet) ==> Pending(w, wallet))
      && (reply == Challenged(wallet) <==> step.AskChallenge? && step.wallet == wallet)
  {
    var id := ChallengeOf(wallet);
    match step
    case Tick(ms) =>
    case AskChallenge(other, challenge) => ChallengeFrame(w, other, challenge, id);
    case DoLogIn(login) => LogInUsesChallenge(env, w, login, wallet);
    case DoRefresh(token, guardian, n) => RefreshSessionFrame(env, w, token, guardian, n, id);
    case DoLogOut(token) => LogOutFrame(w, token, id);
    case DoLogOutAll(token, keys) => LogOutAllLeaves(env, w, token, keys, id);
    case DoGuard(channel, token) => GuardFrame(env, w, channel, token, id);
  }

  lemma LogInUsesChallenge(env: Env, w: World, login: Login, wallet: string)
    requires ValidEnv(env)
    ensures var (w', reply) := LogIn(env, w, login);
      && Stored(w', wallet) == (if Accepts(reply, wallet) then None else Stored(w, wallet))
      && (Accepts(reply, wallet) ==> Pending(w, wallet))
      && !reply.Challenged?
  {
    var (w1, valid) := VerifySignature(env, w, login.wallet, login.challenge, login.signature);
    SignatureFrame(env, w, login, ChallengeOf(wallet));
    if valid && login.guardian.Some? {
      SignerIsHex(env, w, login);
      SignedLogInFrame(env, w1, login, ChallengeOf(wallet));
    }
  }

  /** In every run, accepted signatures of a wallet never exceed the challenges sent to it. */
  lemma {:induction false} SignaturesNeverExceedChallenges(env: Env, w: World, steps: seq<Step>, wallet: string)
    requires ValidEnv(env) && w.store.redis == map[]
    ensures var (w', replies) := Run(env, w, steps);
      Accepted(replies, wallet) + (if Pending(w', wallet) then 1 else 0) <= Challenges(replies, wallet)
    decreases |steps|
  {
    if steps == [] {
    } else {
      var last := |steps| - 1;
      SignaturesNeverExceedChallenges(env, w, steps[..last], wallet);
      var (before, replies) := Run(env, w, steps[..last]);
      var reply := Next(env, before, steps[last]).1;
      StepUsesChallenge(env, before, steps[last], wallet);
      assert (replies + [reply])[..|replies|] == replies;
    }
  }

  /** The last challenge sent to a wallet, unless a signature has used it up since, and when it was sent. */
  function OpenChallenge(env: Env, w: World, steps: seq<Step>, wallet: string): Option<(string, nat)>
    decreases |steps|
  {
    if steps == [] then None
    else
      var earlier, step := steps[..|steps| - 1], steps[|steps| - 1];
      var before := Run(env, w, earlier).0;
      if step.AskChallenge? && step.wallet == wallet then Some((step.challenge, before.store.now))
      else if Accepts(Next(env, before, step).1, wallet) then None
      else OpenChallenge(env, w, earlier, wallet)
  }

  lemma {:induction false} StoredIsOpen(env: Env, w: World, steps: seq<Step>, wallet: string)
    requires ValidEnv(env) && w.store.redis == map[]
    ensures Stored(Run(env, w, steps).0, wallet)
            == match OpenChallenge(env, w, steps, wallet)
               case None => None
               case Some((text, at)) => Some(Timed(Text(text), at + 300000))
    decreases |steps|
  {
    if steps == [] {
    } else {
      var last := |steps| - 1;
      StoredIsOpen(env, w, steps[..last], wallet);
      StepUsesChallenge(env, Run(env, w, steps[..last]).0, steps[last], wallet);
    }
  }

  /** The challenge is the open one of the wallet, less than five minutes old, and the wallet signed it. */
  ghost predicate Signs(env: Env, w: World, steps: seq<Step>, wallet: string, challenge: string, signature: string) {
    && OpenChallenge(env, w, steps, wallet).Some?
    && var (text, at) := OpenChallenge(env, w, steps, wallet).value;
       && text == challenge && |text| > 0 && Run(env, w, steps).0.store.now < at + 300000
       && exists signer :: env.recover(challenge, signature) == Some(signer) && SameUpToCase(signer, wallet)
  }

  /**
   In every run, a signature is accepted exactly when it is over the last challenge sent to the wallet,
   not used up since and less than five minutes old, and recovers to that wallet's address, which may
   differ in the case of letters only.
   */
  lemma AcceptedSignatureIsFresh(env: Env, w: World, steps: seq<Step>, wallet: string, challenge: string,
                                 signature: string)
    requires ValidEnv(env) && w.store.redis == map[]
    ensures VerifySignature(env, Run(env, w, steps).0, wallet, challenge, signature).1
            <==> Signs(env, w, steps, wallet, challenge, signature)
  {
    StoredIsOpen(env, w, steps, wallet);
    if env.recover(challenge, signature).Some? {
      SameAddressIff(env.recover(challenge, signature).value, wallet);
    }
  }

  // ----- no session without a signature -----

  predicate SignedBefore(replies: seq<Reply>, wallet: string) {
    exists i :: 0 <= i < |replies| && Accepts(replies[i], wallet)
  }

  /** A step signs tokens only for a wallet whose signature it accepts or that already has a token. */
  lemma StepSignsFor(env: Env, w: World, step: Step, t: string)
    ensures var (w', reply) := Next(env, w, step);
      && (t in w'.issued ==>
            (t in w.issued && w'.issued[t] == w.issued[t])
            || Accepts(reply, w'.issued[t].address)
            || exists u :: u in w.issued && w.issued[u].address == w'.issued[t].address)
      && (reply.Opened? ==>
            Accepts(reply, reply.wallet) || exists u :: u in w.issued && w.issued[u].address == reply.wallet)
  {
    if step.DoRefresh? && ValidateRefresh(w, step.token).Some? {
      assert step.token in w.issued && w.issued[step.token] == ValidateRefresh(w, step.token).value;
    }
  }

  ghost predicate OwnersSigned(w: World, replies: seq<Reply>) {
    forall t :: t in w.issued ==> SignedBefore(replies, w.issued[t].address)
  }

  lemma StepKeepsOwnersSigned(env: Env, w: World, step: Step, replies: seq<Reply>)
    requires OwnersSigned(w, replies)
    ensures var (w', reply) := Next(env, w, step);
      && OwnersSigned(w', replies + [reply])
      && (reply.Opened? ==> SignedBefore(replies + [reply], reply.wallet))
  {
    var (w', reply) := Next(env, w, step);
    var all := replies + [reply];
    forall a | Accepts(reply, a) || SignedBefore(replies, a) ensures SignedBefore(all, a) {
      if Accepts(reply, a) {
        assert Accepts(all[|replies|], a);
      } else {
        var i :| 0 <= i < |replies| && Accepts(replies[i], a);
        assert Accepts(all[i], a);
      }
    }
    forall t | t in w'.issued ensures SignedBefore(all, w'.issued[t].address) {
      StepSignsFor(env, w, step, t);
    }
    StepSignsFor(env, w, step, "");
  }

  /**
   In every run, each session, opened by log-in or by refresh, belongs to a wallet whose
   signature over a challenge was accepted by then.
   */
  lemma {:induction false} EverySessionIsSigned(env: Env, w: World, steps: seq<Step>)
    requires w.issued == map[]
    ensures var (w', replies) := Run(env, w, steps);
      && OwnersSigned(w', replies)
      && forall i ::
           0 <= i < |replies| && replies[i].Opened? ==> SignedBefore(replies[..i + 1], replies[i].wallet)
    decreases |steps|
  {
    if steps == [] {
    } else {
      var last := |steps| - 1;
      EverySessionIsSigned(env, w, steps[..last]);
      var (before, replies) := Run(env, w, steps[..last]);
      var (after, reply) := Next(env, before, steps[last]);
      StepKeepsOwnersSigned(env, before, steps[last], replies);
      var all := replies + [reply];
      forall i | 0 <= i < |all| && all[i].Opened? ensures SignedBefore(all[..i + 1], all[i].wallet) {
        if i < |replies| {
          assert all[..i + 1] == replies[..i + 1];
        } else {
          assert all[..i + 1] == all;
        }
      }
    }
  }

  /** So no guard accepts any bearer, refresh tokens included, of a wallet that never signed. */
  lemma EveryBearerIsSigned(env: Env, w: World, steps: seq<Step>, channel: Channel, token: string)
    requires w.issued == map[]
    requires Guard(env, Run(env, w, steps).0, channel, token).1.Accepted?
    ensures var (w', replies) := Run(env, w, steps);
      token in w'.issued && SignedBefore(replies, w'.issued[token].address)
  {
    EverySessionIsSigned(env, w, steps);
  }
}
