/** The session layer over the real credential code: what holds from the signed credential to the guard. */
module GatewayInstance {
  import opened Did
  import opened Wrappers
  import Bytes
  import Credentials
  import CredentialProofs
  import Gateway
  import GatewayProofs
  import GatewayTokens
  import SessionKeys
  import SessionTheorems
  import SessionVerdicts
  import Sessions
  import Text

  function VerdictOf(crypto: Credentials.Crypto, jwt: string): Option<Gateway.Verdict> {
    match Credentials.VerifyPresentation(crypto, jwt)
    case None => None
    case Some(p) => Some(Gateway.Verdict(p.holder, |p.vcs|))
  }

  /**
   The environment of the session layer: presentations and signatures as the gateway checks them, and
   tokens as its signer writes them, under any key.
   */
  function EnvOf(crypto: Credentials.Crypto, mac: string -> seq<Bytes.byte>): Gateway.Env {
    Gateway.Env(
      jwt => VerdictOf(crypto, jwt),
      jwt => Credentials.HolderOf(jwt),
      (message, signature) => Credentials.VerifyMessage(crypto, message, signature),
      claims => GatewayTokens.SignText(mac, claims))
  }

  /** Recovered addresses are hex strings: all that is asked of the signature library. */
  ghost predicate HexRecovery(crypto: Credentials.Crypto) {
    forall m, b :: crypto.recover(m, b).Some? ==> SessionKeys.HexAddress(crypto.recover(m, b).value)
  }

  /**
   The gateway's own code meets every premise of the session layer: the text of a token can be read
   back to its claims, and the marker of a session without presentation names no holder.
   */
  lemma EnvIsValid(crypto: Credentials.Crypto, mac: string -> seq<Bytes.byte>)
    requires HexRecovery(crypto)
    ensures Gateway.ValidEnv(EnvOf(crypto, mac))
    ensures EnvOf(crypto, mac).holderOf("EMPTY") == None
  {
    var env := EnvOf(crypto, mac);
    forall c, d | env.sign(c) == env.sign(d) ensures c == d {
      GatewayTokens.SigningIsInjective(mac, c, d);
    }
    forall c ensures env.sign(c) != "" {
      GatewayTokens.SignedIsNotEmpty(mac, c);
    }
    CredentialProofs.EmptyMarkerHasNoHolder();
  }

  /**
   A session the guard accepts as verified always names its own address to log-out-all: the
   holder compared by the guard and the holder read by the scan are the same.
   */
  lemma VerifiedSessionsAreNamed(crypto: Credentials.Crypto, mac: string -> seq<Bytes.byte>,
                                 session: GatewayProofs.Session, address: string)
    requires Gateway.Assess(EnvOf(crypto, mac), session.stored, session.claims.address).Presented?
    requires SameAddress(session.claims.address, address) && address != ""
    ensures GatewayProofs.Held(EnvOf(crypto, mac), session, address)
  {
    var jwt := session.stored.value;
    var p := Credentials.VerifyPresentation(crypto, jwt).value;
    assert Text.Lower(DidAddress(p.holder)) == Text.Lower(session.claims.address);
    assert |DidAddress(p.holder)| == |address|;
    CredentialProofs.VerifiedHolderIsRead(crypto, jwt, p);
  }

  /**
   So a log-out-all by any bearer of an address ends every session of that address that verifies, for
   the guards that check presentations.
   */
  lemma LogOutAllEndsVerifiedSessions(crypto: Credentials.Crypto, mac: string -> seq<Bytes.byte>, w: Gateway.World,
                                      table: GatewayProofs.Table, bearer: string, keys: seq<string>, token: string,
                                      channel: Gateway.Channel)
    requires HexRecovery(crypto)
    requires GatewayProofs.Inv(EnvOf(crypto, mac), w, table) && Gateway.ScanOf(w.store, keys)
    requires Gateway.DidGuard(w, bearer).Accepted?
    requires token in table && SameAddress(table[token].claims.address, Gateway.DidGuard(w, bearer).user.address)
    requires Gateway.Assess(EnvOf(crypto, mac), table[token].stored, table[token].claims.address).Presented?
    ensures var w' := Gateway.LogOutAll(EnvOf(crypto, mac), w, bearer, keys).0;
      Gateway.Guard(EnvOf(crypto, mac), w', channel, token).1.Accepted?
      <==> channel.Did? && !Gateway.Expired(table[token].claims, w.store.now)
  {
    var env := EnvOf(crypto, mac);
    var address := Gateway.DidGuard(w, bearer).user.address;
    EnvIsValid(crypto, mac);
    VerifiedSessionsAreNamed(crypto, mac, table[token], address);
    SessionTheorems.LogOutAllEndsHeld(env, w, table, bearer, keys, token, channel);
  }

  /** The presentation an honest holder created over issued credentials, as log-in stores it. */
  ghost predicate HonestPresentation(crypto: Credentials.Crypto, stored: Option<string>, holder: string,
                                     issues: seq<CredentialProofs.Issue>, credentials: seq<string>, audience: string,
                                     now: nat, nonce: string, signature: string) {
    var message := Credentials.VpMessage(holder, credentials, audience, now, nonce);
    var signedData := Credentials.SigningData(message);
    && |credentials| == |issues|
    && (forall i :: 0 <= i < |issues| ==> CredentialProofs.IssuedAs(crypto, issues[i], credentials[i]))
    && Credentials.Recovers(Credentials.VerifyMessage(crypto, signedData, signature), holder)
    && Credentials.VerifyRaw(crypto, signedData, signature).Some?
    && stored == Credentials.CreateVp(crypto, holder, signature, message, signedData)
  }

  lemma HonestVerdict(crypto: Credentials.Crypto, stored: Option<string>, holder: string,
                      issues: seq<CredentialProofs.Issue>, credentials: seq<string>, audience: string, now: nat,
                      nonce: string, signature: string)
    requires HonestPresentation(crypto, stored, holder, issues, credentials, audience, now, nonce, signature)
    ensures stored.Some? && VerdictOf(crypto, stored.value) == Some(Gateway.Verdict(DID + holder, |issues|))
  {
    CredentialProofs.EndToEnd(crypto, issues, credentials, holder, audience, now, nonce, signature);
  }

  lemma HonestIsReal(crypto: Credentials.Crypto, stored: Option<string>, holder: string,
                     issues: seq<CredentialProofs.Issue>, credentials: seq<string>, audience: string, now: nat,
                     nonce: string, signature: string)
    requires HonestPresentation(crypto, stored, holder, issues, credentials, audience, now, nonce, signature)
    ensures Gateway.Real(stored)
  {
    var message := Credentials.VpMessage(holder, credentials, audience, now, nonce);
    HonestVerdict(crypto, stored, holder, issues, credentials, audience, now, nonce, signature);
    CredentialProofs.CreatedIsHex(crypto, holder, signature, message, Credentials.SigningData(message));
    CredentialProofs.AssembledIsReal(message, signature);
  }

  lemma VerdictIsAssessed(env: Gateway.Env, jwt: string, holder: string, n: nat)
    requires Gateway.Real(Some(jwt)) && env.verify(jwt) == Some(Gateway.Verdict(DID + holder, n))
    ensures Gateway.Assess(env, Some(jwt), holder) == Gateway.Presented(DID + holder, n)
  {
    Text.DropPrefix(DID, holder);
  }

  lemma HonestPresentationIsAssessed(crypto: Credentials.Crypto, mac: string -> seq<Bytes.byte>,
                                     stored: Option<string>, holder: string, issues: seq<CredentialProofs.Issue>,
                                     credentials: seq<string>, audience: string, now: nat, nonce: string,
                                     signature: string)
    requires HonestPresentation(crypto, stored, holder, issues, credentials, audience, now, nonce, signature)
    ensures Gateway.Real(stored)
    ensures Gateway.Assess(EnvOf(crypto, mac), stored, holder) == Gateway.Presented(DID + holder, |issues|)
  {
    HonestVerdict(crypto, stored, holder, issues, credentials, audience, now, nonce, signature);
    HonestIsReal(crypto, stored, holder, issues, credentials, audience, now, nonce, signature);
    VerdictIsAssessed(EnvOf(crypto, mac), stored.value, holder, |issues|);
  }

  /**
   From the signed credentials to the guard: a session that stores the presentation an honest
   holder created over issued credentials is accepted, by every guard that checks presentations
   and in every reachable state until it expires or is revoked, as verified, with the holder's
   DID and the number of credentials presented, exactly when the guard does not repeat the check of
   another presentation that this one replaced within the hour.
   */
  lemma HonestSessionIsVerified(crypto: Credentials.Crypto, mac: string -> seq<Bytes.byte>, w: Gateway.World,
                                table: GatewayProofs.Table, token: string, channel: Gateway.Channel,
                                issues: seq<CredentialProofs.Issue>, credentials: seq<string>, audience: string,
                                now: nat, nonce: string, signature: string)
    requires HexRecovery(crypto) && GatewayProofs.Inv(EnvOf(crypto, mac), w, table) && !channel.Did?
    requires token in table && !table[token].revoked && !Gateway.Expired(table[token].claims, w.store.now)
    requires HonestPresentation(crypto, table[token].stored, table[token].claims.address,
                                issues, credentials, audience, now, nonce, signature)
    ensures var d := Gateway.Guard(EnvOf(crypto, mac), w, channel, token).1;
      d.Accepted? && d.user.vpVerified
      && d.user.vpHolder == Some(DID + table[token].claims.address)
      && d.user.vcCount == Some(|issues|)
      <==> !GatewayProofs.Outdated(EnvOf(crypto, mac), w, table, channel, token)
  {
    EnvIsValid(crypto, mac);
    HonestPresentationIsAssessed(crypto, mac, table[token].stored, table[token].claims.address,
                                 issues, credentials, audience, now, nonce, signature);
    SessionVerdicts.VerifiedAsStoredIff(EnvOf(crypto, mac), w, table, channel, token,
                                        DID + table[token].claims.address, |issues|);
  }

  /**
   A whole run, from the signed credentials to the guard: after a challenge and a log-in with an
   honest presentation, every guard that checks presentations accepts the session as verified.
   */
  lemma HonestLogInIsVerified(crypto: Credentials.Crypto, mac: string -> seq<Bytes.byte>, w: Gateway.World,
                              login: Gateway.Login, issues: seq<CredentialProofs.Issue>, credentials: seq<string>,
                              audience: string, now: nat, nonce: string, signature: string, channel: Gateway.Channel)
    requires HexRecovery(crypto) && GatewayProofs.Initial(w) && !channel.Did?
    requires login.guardian.Some? && login.challenge != "" && login.vcCount > 0 && login.vp.Created?
    requires Credentials.VerifyMessage(crypto, login.challenge, login.signature) == Some(login.wallet)
    requires HonestPresentation(crypto, Some(login.vp.vpJwt), login.wallet,
                                issues, credentials, audience, now, nonce, signature)
    ensures var env := EnvOf(crypto, mac);
      var steps := [Gateway.AskChallenge(login.wallet, login.challenge), Gateway.DoLogIn(login)];
      var token := env.sign(Gateway.AccessClaims(w, login.wallet, login.guardian.value, login.vcCount));
      var d := Gateway.Guard(env, Gateway.Run(env, w, steps).0, channel, token).1;
      && GatewayProofs.LegalRun(env, w, steps)
      && d.Accepted? && d.user.vpVerified
      && d.user.vpHolder == Some(DID + login.wallet) && d.user.vcCount == Some(|issues|)
  {
    EnvIsValid(crypto, mac);
    HonestPresentationIsAssessed(crypto, mac, Some(login.vp.vpJwt), login.wallet, issues, credentials, audience, now,
                                 nonce, signature);
    SessionTheorems.VerifiedLogInIsAccepted(EnvOf(crypto, mac), w, login, DID + login.wallet, |issues|, channel);
  }

  /** Its premises can be met, by a holder who issued and presents a credential of its own. */
  lemma HonestLogInIsInhabited(wallet: string, petDid: string, hash: string, audience: string, now: nat, nonce: string,
                               challenge: string)
    requires SessionKeys.HexAddress(wallet)
    ensures var crypto := CredentialProofs.SignedAllBy(wallet);
      var issue := CredentialProofs.Identity(wallet, petDid, hash, [], now, "0x");
      var credential := Credentials.AssembleJwt(CredentialProofs.MessageOf(issue), "0x");
      var message := Credentials.VpMessage(wallet, [credential], audience, now, nonce);
      && HexRecovery(crypto) && Credentials.VerifyMessage(crypto, challenge, "0x") == Some(wallet)
      && HonestPresentation(crypto, Some(Credentials.AssembleJwt(message, "0x")), wallet,
                            [issue], [credential], audience, now, nonce, "0x")
  {
    CredentialProofs.EndToEndIsInhabited(wallet, petDid, hash, audience, now, nonce);
  }

  /** A presentation that log-in stores for its wallet, and that full verification refuses. */
  lemma ForeignPresentationIsFailed(mac: string -> seq<Bytes.byte>, wallet: string, other: string,
                                    credentials: seq<string>, audience: string, now: nat, nonce: string)
    requires !SameAddress(wallet, other)
    ensures var crypto := CredentialProofs.SignedAllBy(wallet);
      var message := Credentials.VpMessage(other, credentials, audience, now, nonce);
      var vp := Credentials.CreateVp(crypto, wallet, "0x", message, "");
      vp.Some? && Gateway.Assess(EnvOf(crypto, mac), vp, wallet).Failed?
  {
    var message := Credentials.VpMessage(other, credentials, audience, now, nonce);
    CredentialProofs.ForeignVpFails(wallet, other, credentials, audience, now, nonce);
    CredentialProofs.CreatedIsHex(CredentialProofs.SignedAllBy(wallet), wallet, "0x", message, "");
    CredentialProofs.AssembledIsReal(message, "0x");
  }
}
