/**
 What each request does to the entries outside the sessions, the challenge and the refresh token of
 a wallet and the block list: nothing, but for the requests that are about them.
 */
module SessionFrames {
  import opened Did
  import opened Gateway
  import opened SessionKeys
  import opened Sessions
  import opened SessionTheorems
  import opened Text
  import opened Wrappers

  predicate WalletKey(id: KeyId) {
    id.ChallengeOf? || id.RefreshOf?
  }

  /** What only log-outs, challenges and log-ins write. */
  predicate Kept(id: KeyId) {
    WalletKey(id) || id.Blocked?
  }

  /** The entry under a key in Redis, with its deadline. */
  function Entry(w: World, id: KeyId): Option<Timed> {
    At(w.store.redis, Render(id))
  }

  lemma CheckFrame(env: Env, s: Store, token: string, address: string, key: string)
    requires key != VerifiedKey(token)
    ensures At(CheckPresentation(env, s, token, address).0.redis, key) == At(s.redis, key)
  {
    var s1 := GetVp(s, token).0;
    assert s1.redis == s.redis;
    var s2 := GetVerification(s1, token).0;
    assert s2.redis == s1.redis;
  }

  lemma GuardFrame(env: Env, w: World, channel: Channel, token: string, id: KeyId)
    requires Kept(id)
    ensures Entry(Guard(env, w, channel, token).0, id) == Entry(w, id)
  {
    KeysStayApart(id);
    var claims := JwtVerify(w, token);
    if claims.Some? {
      CheckFrame(env, w.store, token, claims.value.address, Render(id));
      CheckFrame(env, w.store, token, Lower(claims.value.address), Render(id));
    }
  }

  lemma LogOutFrame(w: World, token: string, id: KeyId)
    requires WalletKey(id)
    ensures Entry(LogOut(w, token).0, id) == Entry(w, id)
  {
    KeysStayApart(id);
  }

  lemma LogOutAllLeaves(env: Env, w: World, token: string, keys: seq<string>, id: KeyId)
    requires WalletKey(id)
    ensures Entry(LogOutAll(env, w, token, keys).0, id) == Entry(w, id)
  {
    KeysStayApart(id);
    var d := DidGuard(w, token);
    if d.Accepted? {
      LogOutAllFrame(env, w.store, d.user.address, keys, Render(id));
    }
  }

  lemma RefreshSessionFrame(env: Env, w: World, token: string, guardian: Option<bool>, n: nat, id: KeyId)
    requires Kept(id)
    ensures Entry(RefreshSession(env, w, token, guardian, n).0, id) == Entry(w, id)
  {
    KeysStayApart(id);
    var previous := ValidateRefresh(w, token);
    if previous.Some? {
      KeysStayApart(AccessOf(previous.value.address));
    }
  }

  lemma ChallengeFrame(w: World, wallet: string, challenge: string, id: KeyId)
    requires Kept(id)
    ensures Entry(CreateChallenge(w, wallet, challenge), id)
            == if id == ChallengeOf(wallet) then Some(Timed(Text(challenge), w.store.now + 300000)) else Entry(w, id)
  {
    KeysStayApart(ChallengeOf(wallet));
    KeysStayApart(id);
  }

  /** An accepted signature removes the challenge it answers. */
  lemma SignatureFrame(env: Env, w: World, login: Login, id: KeyId)
    requires Kept(id)
    ensures var (w1, valid) := VerifySignature(env, w, login.wallet, login.challenge, login.signature);
      && Entry(w1, id) == (if valid && id == ChallengeOf(login.wallet) then None else Entry(w, id))
      && (valid ==> Entry(w, ChallengeOf(login.wallet)).Some?)
      && w1.store.now == w.store.now && w1.issued == w.issued
  {
    KeysStayApart(ChallengeOf(login.wallet));
    KeysStayApart(id);
  }

  lemma SignerIsHex(env: Env, w: World, login: Login)
    requires ValidEnv(env)
    requires VerifySignature(env, w, login.wallet, login.challenge, login.signature).1
    ensures HexAddress(login.wallet)
  {
    var a, b := env.recover(login.challenge, login.signature).value, login.wallet;
    assert HexAddress(a) && Lower(a) == Lower(b);
    assert Lower(a)[0] == LowerChar(a[0]) && Lower(b)[0] == LowerChar(b[0]);
    assert Lower(a)[1] == LowerChar(a[1]) && Lower(b)[1] == LowerChar(b[1]);
  }

  lemma AccessFrame(env: Env, w: World, address: string, isGuardian: bool, n: nat, id: KeyId)
    requires Kept(id)
    ensures var w' := CreateAccessToken(env, w, address, isGuardian, n).0;
      Entry(w', id) == Entry(w, id) && w'.store.now == w.store.now
  {
    KeysStayApart(id);
    KeysStayApart(AccessOf(address));
  }

  lemma RefreshTokenFrame(env: Env, w: World, address: string, id: KeyId)
    requires Kept(id)
    ensures Entry(CreateRefreshToken(env, w, address).0, id)
            == if id == RefreshOf(address)
               then Some(Timed(Text(env.sign(RefreshClaims(w, address))), w.store.now + 604800000))
               else Entry(w, id)
  {
    KeysStayApart(id);
    KeysStayApart(RefreshOf(address));
  }

  lemma VpFrame(w: World, token: string, vpJwt: string, id: KeyId)
    requires Kept(id)
    ensures Entry(w.(store := SetVp(w.store, token, vpJwt, DAY)), id) == Entry(w, id)
  {
    KeysStayApart(id);
  }

  lemma HolderFrame(w: World, holder: string, vpJwt: string, id: KeyId)
    requires Kept(id) && HexAddress(holder)
    ensures Entry(w.(store := SetEx(w.store, Render(HolderVp(holder)), 3600, Text(vpJwt))), id) == Entry(w, id)
  {
    KeysStayApart(id);
    KeysStayApart(HolderVp(holder));
  }

  /** A signed log-in writes a refresh token for its wallet, unless its presentation was refused. */
  lemma SignedLogInFrame(env: Env, w: World, login: Login, id: KeyId)
    requires Kept(id) && login.guardian.Some? && HexAddress(login.wallet)
    ensures var (w', reply) := SignedLogIn(env, w, login);
      Entry(w', id) == if id == RefreshOf(login.wallet) && reply.stored.Some?
                       then Some(Timed(Text(env.sign(RefreshClaims(w, login.wallet))), w.store.now + 604800000))
                       else Entry(w, id)
  {
    var wallet := login.wallet;
    var (w2, token) := CreateAccessToken(env, w, wallet, login.guardian.value, login.vcCount);
    AccessFrame(env, w, wallet, login.guardian.value, login.vcCount, id);
    if login.vcCount == 0 || login.vp.NotSent? {
      RefreshTokenFrame(env, w2, wallet, id);
      VpFrame(CreateRefreshToken(env, w2, wallet).0, token, "EMPTY", id);
    } else if login.vp.Created? {
      var w3 := w2.(store := SetEx(w2.store, Render(HolderVp(wallet)), 3600, Text(login.vp.vpJwt)));
      HolderFrame(w2, wallet, login.vp.vpJwt, id);
      VpFrame(w3, token, login.vp.vpJwt, id);
      RefreshTokenFrame(env, w3.(store := SetVp(w3.store, token, login.vp.vpJwt, DAY)), wallet, id);
    }
  }
}
