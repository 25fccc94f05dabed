/**
 The requests as the source serves them, one object call after the other. Each is proved to
 change the world, and to answer, as its function in `Gateway`.
 */
module Requests {
  import opened Did
  import Credentials
  import opened Gateway
  import Json
  import Presentations
  import opened Services
  import opened SessionKeys
  import opened Sessions
  import opened Text
  import opened Wrappers

  /** Signs and verifies the gateway's own tokens. */
  class JwtService {
    const env: Env
    const clock: Clock
    var issued: map<string, Claims>

    constructor (env: Env, clock: Clock)
      ensures this.env == env && this.clock == clock && issued == map[]
    {
      this.env := env;
      this.clock := clock;
      issued := map[];
    }

    method Sign(claims: Claims) returns (token: string)
      modifies this
      ensures token == env.sign(claims) && issued == old(issued)[token := claims]
    {
      token := env.sign(claims);
      issued := issued[token := claims];
    }

    method Verify(token: string) returns (claims: Option<Claims>)
      ensures claims == if token in issued && !Expired(issued[token], clock.now) then Some(issued[token]) else None
    {
      if token in issued && !Expired(issued[token], clock.now) {
        return Some(issued[token]);
      }
      return None;
    }
  }

  /** What every request works on: the token service and the signer, on one clock. */
  class Backend {
    const env: Env
    const crypto: Credentials.Crypto
    const tokens: TokenService
    const jwt: JwtService
    const redis: RedisService
    const local: CacheManager

    ghost predicate Valid() {
      && tokens.Valid() && jwt.clock == tokens.clock && jwt.env == env
      && redis == tokens.redisService && local == tokens.cacheManager
    }

    function World(): World
      reads tokens.clock, tokens.redisService, tokens.cacheManager, jwt
    {
      Gateway.World.World(tokens.State(), jwt.issued)
    }

    constructor (env: Env, crypto: Credentials.Crypto, clock: Clock, unit: nat)
      ensures Valid() && this.env == env && this.crypto == crypto && tokens.clock == clock
      ensures fresh(tokens.redisService) && fresh(tokens.cacheManager) && fresh(jwt)
      ensures World() == Gateway.World.World(Store(map[], map[], clock.now, unit), map[])
    {
      var redis := new RedisService(clock);
      var local := new CacheManager(clock, unit);
      this.env, this.crypto := env, crypto;
      this.redis := redis;
      this.local := local;
      tokens := new TokenService(local, redis);
      jwt := new JwtService(env, clock);
    }
  }

  /** The presentation check that the guard and both WebSocket middlewares repeat line for line. */
  method CheckStored(backend: Backend, token: string, address: string) returns (p: Presented)
    requires backend.Valid()
    modifies backend.redis, backend.local
    ensures backend.jwt.issued == old(backend.jwt.issued)
    ensures (backend.tokens.State(), p) == CheckPresentation(backend.env, old(backend.tokens.State()), token, address)
  {
    var vpJwt := backend.tokens.GetVpForToken(token);
    if vpJwt.None? || vpJwt.value == "" || vpJwt.value == "EMPTY" {
      return NoPresentation;
    }
    var cached := backend.tokens.GetCachedVpVerification(token);
    if cached.Some? && cached.value.verified {
      return Presented(cached.value.holder, cached.value.vcCount);
    }
    var vp := backend.env.verify(vpJwt.value);
    if vp.None? || Lower(DidAddress(vp.value.holder)) != Lower(address) {
      return Failed;
    }
    var result := Verification(true, vp.value.holder, vp.value.vcCount, backend.tokens.clock.now);
    backend.tokens.CacheVpVerification(token, result, 3600);
    return Presented(vp.value.holder, vp.value.vcCount);
  }

  class AuthService {
    const backend: Backend

    ghost predicate Valid() {
      backend.Valid()
    }

    constructor (backend: Backend)
      ensures this.backend == backend
    {
      this.backend := backend;
    }

    /** `challenge` is the text drawn for this wallet, with its nonce and time. */
    method CreateChallenge(wallet: string, challenge: string)
      requires Valid()
      modifies backend.redis
      ensures backend.World() == Gateway.CreateChallenge(old(backend.World()), wallet, challenge)
    {
      backend.redis.SetEx(Render(ChallengeOf(wallet)), 300, Value.Text(challenge));
    }

    method VerifySignature(wallet: string, challenge: string, signature: string) returns (valid: bool)
      requires Valid()
      modifies backend.redis
      ensures (backend.World(), valid)
              == Gateway.VerifySignature(backend.env, old(backend.World()), wallet, challenge, signature)
    {
      var stored := backend.redis.Get(Render(ChallengeOf(wallet)));
      if stored.None? || stored.value == Value.Text("") || stored.value != Value.Text(challenge) {
        return false;
      }
      var recovered := backend.env.recover(challenge, signature);
      if recovered.None? || Lower(recovered.value) != Lower(wallet) {
        return false;
      }
      backend.redis.Del(Render(ChallengeOf(wallet)));
      return true;
    }

    method CreateAccessToken(address: string, isGuardian: bool, vcCount: nat) returns (token: string)
      requires Valid()
      modifies backend.redis, backend.jwt
      ensures (backend.World(), token)
              == Gateway.CreateAccessToken(backend.env, old(backend.World()), address, isGuardian, vcCount)
    {
      token := backend.jwt.Sign(Access(address, isGuardian, vcCount, backend.jwt.clock.now / 1000));
      backend.redis.SetEx(Render(AccessOf(address)), 86400, Value.Text(token));
    }

    method CreateRefreshToken(address: string) returns (token: string)
      requires Valid()
      modifies backend.redis, backend.jwt
      ensures (backend.World(), token) == Gateway.CreateRefreshToken(backend.env, old(backend.World()), address)
    {
      token := backend.jwt.Sign(Claims.Refresh(address, backend.jwt.clock.now / 1000));
      backend.redis.SetEx(Render(RefreshOf(address)), 604800, Value.Text(token));
    }

    method ValidateRefreshToken(token: string) returns (claims: Option<Claims>)
      requires Valid()
      ensures claims == ValidateRefresh(backend.World(), token)
    {
      var decoded := backend.jwt.Verify(token);
      if decoded.None? || !decoded.value.Refresh? {
        return None;
      }
      var stored := backend.redis.Get(Render(RefreshOf(decoded.value.address)));
      if stored.None? || token == "" || stored.value != Value.Text(token) {
        return None;
      }
      return decoded;
    }

    method CreateVpWithSignature(holder: string, signature: string, message: Json.Json, signedData: string)
      returns (vpJwt: Option<string>)
      requires Valid()
      modifies backend.redis
      ensures vpJwt == Credentials.CreateVp(backend.crypto, holder, signature, message, signedData)
      ensures backend.World() == old(backend.World()).(store := VpStored(old(backend.World().store), holder, vpJwt))
    {
      vpJwt := Presentations.RecoverAndAssemble(backend.crypto, holder, signature, message, signedData);
      StoreVp(holder, vpJwt);
    }

    method StoreVp(holder: string, vpJwt: Option<string>)
      requires Valid()
      modifies backend.redis
      ensures backend.World() == old(backend.World()).(store := VpStored(old(backend.World().store), holder, vpJwt))
    {
      if vpJwt.Some? {
        backend.redis.SetEx(Render(HolderVp(holder)), 3600, Value.Text(vpJwt.value));
      }
    }
  }

  /** A created presentation is also kept under its holder, for an hour. */
  function VpStored(s: Store, holder: string, vpJwt: Option<string>): Store {
    if vpJwt.Some? then SetEx(s, Render(HolderVp(holder)), 3600, Value.Text(vpJwt.value)) else s
  }

  /** The body of a log-in request; a missing field is empty or `None`. */
  datatype LoginDto = LoginDto(wallet: string, challenge: string, signature: string,
                               vpSignature: string, vpMessage: Option<Json.Json>, vpSignedData: string)

  /** The log-in as the session layer sees it: its presentation created, refused or not sent. */
  function LoginOf(crypto: Credentials.Crypto, dto: LoginDto, guardian: Option<bool>, vcCount: nat): Login {
    var vp :=
      if dto.vpSignature == "" || dto.vpMessage.None? then NotSent
      else
        match Credentials.CreateVp(crypto, dto.wallet, dto.vpSignature, dto.vpMessage.value, dto.vpSignedData)
        case None => Refused
        case Some(jwt) => Created(jwt);
    Login(dto.wallet, dto.challenge, dto.signature, guardian, vcCount, vp)
  }

  /** The request as the session layer reads it: a presentation counts as sent with a signature and a message. */
  lemma LoginOfReads(crypto: Credentials.Crypto, dto: LoginDto, guardian: Option<bool>, vcCount: nat)
    ensures var login := LoginOf(crypto, dto, guardian, vcCount);
      && login.wallet == dto.wallet && login.challenge == dto.challenge && login.signature == dto.signature
      && login.guardian == guardian && login.vcCount == vcCount
      && (login.vp.NotSent? <==> |dto.vpSignature| == 0 || dto.vpMessage.None?)
      && forall jwt :: login.vp == Created(jwt)
           <==> |dto.vpSignature| > 0 && dto.vpMessage.Some?
                && Credentials.CreateVp(crypto, dto.wallet, dto.vpSignature, dto.vpMessage.value, dto.vpSignedData)
                   == Some(jwt)
  {
  }

  /** The user the HTTP middleware leaves on a request, for either kind of token. */
  method UseMiddleware(backend: Backend, token: string) returns (user: Option<User>)
    requires backend.Valid()
    ensures user == Middleware(backend.World(), token)
  {
    var payload := backend.jwt.Verify(token);
    if payload.None? {
      return None;
    }
    match payload.value
    case Access(address, isGuardian, vcCount, _) =>
      return Some(User(Lower(address), Some(isGuardian), Some(vcCount), false, None));
    case Refresh(address, _) =>
      return Some(User(Lower(address), None, None, false, None));
  }

  /** The guard of the DID endpoints, log-out and log-out-all among them. */
  class DidAuthGuard {
    const backend: Backend

    ghost predicate Valid() {
      backend.Valid()
    }

    constructor (backend: Backend)
      ensures this.backend == backend
    {
      this.backend := backend;
    }

    method Handle(token: string) returns (decision: Decision)
      requires Valid()
      ensures decision == DidGuard(backend.World(), token)
    {
      if token == "" {
        return Rejected(MissingToken);
      }
      var user := UseMiddleware(backend, token);
      if user.None? {
        return Rejected(InvalidToken);
      }
      var address, walletAddress := user.value.address, user.value.address;
      if walletAddress == "" || address != walletAddress {
        return Rejected(MissingWallet);
      }
      return Accepted(user.value);
    }
  }

  class AuthController {
    const backend: Backend
    const auth: AuthService
    const didGuard: DidAuthGuard

    ghost predicate Valid() {
      backend.Valid() && auth.backend == backend && didGuard.backend == backend
    }

    constructor (backend: Backend)
      ensures this.backend == backend && auth.backend == backend && didGuard.backend == backend
    {
      this.backend := backend;
      auth := new AuthService(backend);
      didGuard := new DidAuthGuard(backend);
    }

    /** `guardian` and `vcCount` are the answers of the credential service. */
    method Login(dto: LoginDto, guardian: Option<bool>, vcCount: nat) returns (reply: Reply)
      requires Valid()
      modifies backend.redis, backend.local, backend.jwt
      ensures (backend.World(), reply)
              == Gateway.LogIn(backend.env, old(backend.World()), LoginOf(backend.crypto, dto, guardian, vcCount))
    {
      var valid := auth.VerifySignature(dto.wallet, dto.challenge, dto.signature);
      if !valid {
        return Denied;
      }
      if guardian.None? {
        return SignedOnly(dto.wallet);
      }
      reply := SignedLogin(dto, guardian.value, vcCount);
    }

    /** The part of `login` after the guardian lookup. */
    method SignedLogin(dto: LoginDto, isGuardian: bool, vcCount: nat) returns (reply: Reply)
      requires Valid()
      modifies backend.redis, backend.local, backend.jwt
      ensures (backend.World(), reply)
              == Gateway.SignedLogIn(backend.env, old(backend.World()),
                                     LoginOf(backend.crypto, dto, Some(isGuardian), vcCount))
    {
      var accessToken := auth.CreateAccessToken(dto.wallet, isGuardian, vcCount);
      var signed := Access(dto.wallet, isGuardian, vcCount, backend.jwt.clock.now / 1000);
      if vcCount == 0 || dto.vpSignature == "" || dto.vpMessage.None? {
        var _ := auth.CreateRefreshToken(dto.wallet);
        backend.tokens.SetVpForToken(accessToken, "EMPTY", 86400);
        return Opened(dto.wallet, true, accessToken, signed, Some("EMPTY"));
      }
      var vp := auth.CreateVpWithSignature(dto.wallet, dto.vpSignature, dto.vpMessage.value, dto.vpSignedData);
      if vp.None? {
        return Opened(dto.wallet, true, accessToken, signed, None);
      }
      backend.tokens.SetVpForToken(accessToken, vp.value, 86400);
      var _ := auth.CreateRefreshToken(dto.wallet);
      return Opened(dto.wallet, true, accessToken, signed, vp);
    }

    method Refresh(refreshToken: string, guardian: Option<bool>, vcCount: nat) returns (reply: Reply)
      requires Valid()
      modifies backend.redis, backend.local, backend.jwt
      ensures (backend.World(), reply)
              == RefreshSession(backend.env, old(backend.World()), refreshToken, guardian, vcCount)
    {
      var decoded := auth.ValidateRefreshToken(refreshToken);
      if decoded.None? || guardian.None? {
        return Denied;
      }
      var address := decoded.value.address;
      var accessToken := auth.CreateAccessToken(address, guardian.value, vcCount);
      backend.tokens.SetVpForToken(accessToken, "EMPTY", 86400);
      var signed := Access(address, guardian.value, vcCount, backend.jwt.clock.now / 1000);
      return Opened(address, false, accessToken, signed, Some("EMPTY"));
    }

    method Logout(token: string) returns (reply: Reply)
      requires Valid()
      modifies backend.redis, backend.local
      ensures (backend.World(), reply) == Gateway.LogOut(old(backend.World()), token)
    {
      var admitted := didGuard.Handle(token);
      if admitted.Rejected? {
        return Denied;
      }
      backend.tokens.BlockToken(token);
      backend.tokens.DeleteVpForToken(token);
      backend.tokens.DeleteCachedVpVerification(token);
      return Closed(token);
    }

    method LogoutAll(token: string, batches: seq<seq<string>>) returns (reply: Reply)
      requires Valid()
      modifies backend.redis, backend.local
      ensures (backend.World(), reply) == LogOutAll(backend.env, old(backend.World()), token, Flatten(batches))
    {
      var admitted := didGuard.Handle(token);
      if admitted.Rejected? {
        return Denied;
      }
      var address := admitted.user.address;
      backend.tokens.BlockAllTokensByAddress(backend.env, address, batches);
      return ClosedAll(address);
    }
  }

  // ----- the guards -----

  /** The HTTP middleware followed by `canActivate`. */
  class SpringAuthGuard {
    const backend: Backend

    ghost predicate Valid() {
      backend.Valid()
    }

    constructor (backend: Backend)
      ensures this.backend == backend
    {
      this.backend := backend;
    }

    method Handle(token: string) returns (decision: Decision)
      requires Valid()
      modifies backend.redis, backend.local
      ensures (backend.World(), decision) == Guard(backend.env, old(backend.World()), Http, token)
    {
      var user := UseMiddleware(backend, token);
      decision := CanActivate(token, user);
    }

    /** For any user on the request, whichever way the middleware came by it. */
    method CanActivate(token: string, user: Option<User>) returns (decision: Decision)
      requires Valid()
      modifies backend.redis, backend.local
      ensures backend.jwt.issued == old(backend.jwt.issued)
      ensures (backend.tokens.State(), decision)
              == Gateway.CanActivate(backend.env, old(backend.tokens.State()), token, user)
    {
      if token == "" {
        return Rejected(MissingToken);
      }
      var isBlocked := backend.tokens.IsTokenBlocked(token);
      if isBlocked {
        return Rejected(Revoked);
      }
      if user.None? {
        return Rejected(InvalidToken);
      }
      var p := CheckStored(backend, token, user.value.address);
      match p
      case NoPresentation => return Accepted(user.value.(vpVerified := false));
      case Failed => return Rejected(PresentationFailed);
      case Presented(holder, n) =>
        return Accepted(user.value.(vpVerified := true, vpHolder := Some(holder), vcCount := Some(n)));
    }
  }

  /** The connection middleware of the WebSocket adapter, copied in the chat gateway. */
  class SocketAuth {
    const backend: Backend

    ghost predicate Valid() {
      backend.Valid()
    }

    constructor (backend: Backend)
      ensures this.backend == backend
    {
      this.backend := backend;
    }

    method Connect(token: string) returns (decision: Decision)
      requires Valid()
      modifies backend.redis, backend.local
      ensures (backend.World(), decision) == Guard(backend.env, old(backend.World()), Socket, token)
    {
      if token == "" {
        return Rejected(MissingToken);
      }
      var isBlocked := backend.tokens.IsTokenBlocked(token);
      if isBlocked {
        return Rejected(Revoked);
      }
      var payload := backend.jwt.Verify(token);
      if payload.None? {
        return Rejected(InvalidToken);
      }
      var address := payload.value.address;
      var isGuardian := if payload.value.Access? then Some(payload.value.isGuardian) else None;
      var p := CheckStored(backend, token, address);
      match p
      case NoPresentation => return Accepted(User(address, isGuardian, None, false, None));
      case Failed => return Rejected(PresentationFailed);
      case Presented(holder, n) => return Accepted(User(address, isGuardian, Some(n), true, Some(holder)));
    }
  }
}
