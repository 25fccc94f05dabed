/**
 The requests that drive the session state: challenge, log-in, refresh, log-out,
 log-out-all, the HTTP guard and the WebSocket check. Each request is one atomic step.
 */
module Gateway {
  import opened Did
  import opened SessionKeys
  import opened Sessions
  import opened Text
  import opened Wrappers

  /** The claims of a JWT signed by the gateway; `iat` is in seconds. */
  datatype Claims =
    | Access(address: string, isGuardian: bool, vcCount: nat, iat: nat)
    | Refresh(address: string, iat: nat)

  /** What a verified presentation tells the guard. */
  datatype Verdict = Verdict(holder: string, vcCount: nat)

  /**
   The functions outside the session layer: verification of a presentation, the holder
   log-out-all reads from one, recovery of the signer of a challenge, and JWT signing,
   whose text is determined by the claims.
   */
  datatype Env = Env(
    verify: string -> Option<Verdict>,
    holderOf: string -> Option<string>,
    recover: (string, string) -> Option<string>,
    sign: Claims -> string)

  ghost predicate ValidEnv(env: Env) {
    && (forall c, d :: env.sign(c) == env.sign(d) ==> c == d)
    && (forall c :: env.sign(c) != "")
    && (forall m, s :: env.recover(m, s).Some? ==> HexAddress(env.recover(m, s).value))
  }

  /** The store and every JWT signed so far. */
  datatype World = World(store: Store, issued: map<string, Claims>)

  function Lifetime(claims: Claims): nat {
    if claims.Access? then 86400 else 604800
  }

  predicate Expired(claims: Claims, now: nat) {
    now / 1000 >= claims.iat + Lifetime(claims)
  }

  /** `jwtService.verify`: the gateway's own unexpired tokens. */
  function JwtVerify(w: World, token: string): Option<Claims> {
    if token in w.issued && !Expired(w.issued[token], w.store.now) then Some(w.issued[token]) else None
  }

  // ----- the guards -----

  datatype Presented =
    | NoPresentation
    | Presented(holder: string, vcCount: nat)
    | Failed

  /** A stored presentation other than the marker of a session without one. */
  predicate Real(vpJwt: Option<string>) {
    vpJwt.Some? && vpJwt.value != "" && vpJwt.value != "EMPTY"
  }

  /** Full verification of a stored presentation against the address of the token. */
  function Assess(env: Env, vpJwt: Option<string>, address: string): Presented {
    if !Real(vpJwt) then NoPresentation
    else
      match env.verify(vpJwt.value)
      case None => Failed
      case Some(p) =>
        if SameAddress(DidAddress(p.holder), address) then Presented(p.holder, p.vcCount) else Failed
  }

  /** The presentation check shared by the guard and both WebSocket copies: cache, then verification. */
  function CheckPresentation(env: Env, s: Store, token: string, address: string): (Store, Presented) {
    var (s1, vpJwt) := GetVp(s, token);
    if !Real(vpJwt) then (s1, NoPresentation)
    else
      var (s2, cached) := GetVerification(s1, token);
      if cached.Some? && cached.value.verified then (s2, Presented(cached.value.holder, cached.value.vcCount))
      else
        match Assess(env, vpJwt, address)
        case Presented(holder, n) =>
          (CacheVerification(s2, token, Verification(true, holder, n, s2.now), 3600), Presented(holder, n))
        case other => (s2, other)
  }

  /** The user a guard lets in; a field the claims do not hold is `None`. */
  datatype User = User(address: string, isGuardian: Option<bool>, vcCount: Option<nat>,
                       vpVerified: bool, vpHolder: Option<string>)

  datatype Decision = Rejected(reason: Reason) | Accepted(user: User)

  datatype Reason = MissingToken | Revoked | InvalidToken | MissingWallet | PresentationFailed

  function GuardianOf(claims: Claims): Option<bool> {
    if claims.Access? then Some(claims.isGuardian) else None
  }

  function CountOf(claims: Claims): Option<nat> {
    if claims.Access? then Some(claims.vcCount) else None
  }

  /** The request user that the HTTP middleware takes from a verified JWT, of either kind. */
  function RequestUser(claims: Claims): User {
    User(Lower(claims.address), GuardianOf(claims), CountOf(claims), false, None)
  }

  function Middleware(w: World, token: string): Option<User> {
    match JwtVerify(w, token)
    case None => None
    case Some(claims) => Some(RequestUser(claims))
  }

  /** The outcome of the presentation check, written onto the user. */
  function WithPresentation(user: User, p: Presented): Decision {
    match p
    case NoPresentation => Accepted(user.(vpVerified := false))
    case Presented(holder, n) => Accepted(user.(vpVerified := true, vpHolder := Some(holder), vcCount := Some(n)))
    case Failed => Rejected(PresentationFailed)
  }

  /** `canActivate` of the guard for proxied requests, for any user the middleware may have left. */
  function CanActivate(env: Env, s: Store, token: string, user: Option<User>): (Store, Decision) {
    if token == "" then (s, Rejected(MissingToken))
    else if IsTokenBlocked(s, token) then (s, Rejected(Revoked))
    else
      match user
      case None => (s, Rejected(InvalidToken))
      case Some(u) =>
        var (s', p) := CheckPresentation(env, s, token, u.address);
        (s', WithPresentation(u, p))
  }

  /**
   `canActivate` of the DID guard: a user with a wallet address is enough. It reads neither the
   block list nor the presentation.
   */
  function DidGuard(w: World, token: string): Decision {
    if token == "" then Rejected(MissingToken)
    else
      match Middleware(w, token)
      case None => Rejected(InvalidToken)
      case Some(u) => if u.address == "" then Rejected(MissingWallet) else Accepted(u)
  }

  /** The socket user, built from the claims alone when there is no presentation. */
  function SocketUser(claims: Claims): User {
    User(claims.address, GuardianOf(claims), None, false, None)
  }

  /** The connection middleware of the WebSocket servers. */
  function SocketGuard(env: Env, w: World, token: string): (Store, Decision) {
    if token == "" then (w.store, Rejected(MissingToken))
    else if IsTokenBlocked(w.store, token) then (w.store, Rejected(Revoked))
    else
      match JwtVerify(w, token)
      case None => (w.store, Rejected(InvalidToken))
      case Some(claims) =>
        var (s, p) := CheckPresentation(env, w.store, token, claims.address);
        (s, WithPresentation(SocketUser(claims), p))
  }

  /** The three guards: of proxied requests, of WebSockets, and of the DID endpoints. */
  datatype Channel = Http | Socket | Did

  function Guard(env: Env, w: World, channel: Channel, token: string): (World, Decision) {
    match channel
    case Http =>
      var (s, d) := CanActivate(env, w.store, token, Middleware(w, token));
      (w.(store := s), d)
    case Socket =>
      var (s, d) := SocketGuard(env, w, token);
      (w.(store := s), d)
    case Did => (w, DidGuard(w, token))
  }

  // ----- log-in and refresh -----

  function SignToken(env: Env, w: World, claims: Claims, key: KeyId, ttl: nat): (World, string) {
    var token := env.sign(claims);
    (World(SetEx(w.store, Render(key), ttl, Text(token)), w.issued[token := claims]), token)
  }

  function AccessClaims(w: World, address: string, isGuardian: bool, vcCount: nat): Claims {
    Access(address, isGuardian, vcCount, w.store.now / 1000)
  }

  function CreateAccessToken(env: Env, w: World, address: string, isGuardian: bool, vcCount: nat): (World, string) {
    SignToken(env, w, AccessClaims(w, address, isGuardian, vcCount), AccessOf(address), DAY)
  }

  function RefreshClaims(w: World, address: string): Claims {
    Refresh(address, w.store.now / 1000)
  }

  function CreateRefreshToken(env: Env, w: World, address: string): (World, string) {
    SignToken(env, w, RefreshClaims(w, address), RefreshOf(address), 604800)
  }

  function CreateChallenge(w: World, wallet: string, challenge: string): World {
    w.(store := SetEx(w.store, Render(ChallengeOf(wallet)), 300, Text(challenge)))
  }

  /** The stored challenge is used up only by a signature that recovers to the wallet. */
  function VerifySignature(env: Env, w: World, wallet: string, challenge: string, signature: string): (World, bool) {
    var key := Render(ChallengeOf(wallet));
    if challenge == "" || RedisGet(w.store, key) != Some(Text(challenge)) then (w, false)
    else
      var signer := env.recover(challenge, signature);
      if signer.Some? && SameAddress(signer.value, wallet) then (w.(store := Del(w.store, key)), true)
      else (w, false)
  }

  /** How the presentation part of a log-in turns out. */
  datatype VpInput = NotSent | Refused | Created(vpJwt: string)

  /** `guardian` is `None` when the credential service answers with an error. */
  datatype Login = Login(wallet: string, challenge: string, signature: string,
                         guardian: Option<bool>, vcCount: nat, vp: VpInput)

  /** A presentation that a guard verified in full, and when. */
  datatype Check = Check(vpJwt: string, at: nat)

  datatype Reply =
    | Done
    | Denied
    | Challenged(wallet: string)
    | SignedOnly(wallet: string)
    | Opened(wallet: string, bySignature: bool, token: string, claims: Claims, stored: Option<string>)
    | Closed(token: string)
    | ClosedAll(address: string)
    | Decided(token: string, decision: Decision, check: Option<Check>)

  /**
   Log-in: signature, guardian lookup, access token, presentation, refresh token. A refused
   presentation leaves a signed access token behind with nothing stored for it.
   */
  function LogIn(env: Env, w: World, login: Login): (World, Reply) {
    var (w1, valid) := VerifySignature(env, w, login.wallet, login.challenge, login.signature);
    if !valid then (w1, Denied)
    else if login.guardian.None? then (w1, SignedOnly(login.wallet))
    else SignedLogIn(env, w1, login)
  }

  function SignedLogIn(env: Env, w: World, login: Login): (World, Reply)
    requires login.guardian.Some?
  {
    var claims := AccessClaims(w, login.wallet, login.guardian.value, login.vcCount);
    var (w2, token) := CreateAccessToken(env, w, login.wallet, login.guardian.value, login.vcCount);
    if login.vcCount == 0 || login.vp.NotSent? then
      var w3 := CreateRefreshToken(env, w2, login.wallet).0;
      (w3.(store := SetVp(w3.store, token, "EMPTY", DAY)),
       Opened(login.wallet, true, token, claims, Some("EMPTY")))
    else if login.vp.Refused? then (w2, Opened(login.wallet, true, token, claims, None))
    else
      var s := SetEx(w2.store, Render(HolderVp(login.wallet)), 3600, Text(login.vp.vpJwt));
      (CreateRefreshToken(env, w2.(store := SetVp(s, token, login.vp.vpJwt, DAY)), login.wallet).0,
       Opened(login.wallet, true, token, claims, Some(login.vp.vpJwt)))
  }

  function ValidateRefresh(w: World, token: string): Option<Claims> {
    var claims :- JwtVerify(w, token);
    if claims.Refresh? && token != ""
       && RedisGet(w.store, Render(RefreshOf(claims.address))) == Some(Text(token))
    then Some(claims) else None
  }

  /** Refresh always stores the "EMPTY" marker: the presentation is not carried over. */
  function RefreshSession(env: Env, w: World, refreshToken: string, guardian: Option<bool>, vcCount: nat)
    : (World, Reply)
  {
    match ValidateRefresh(w, refreshToken)
    case None => (w, Denied)
    case Some(previous) =>
      if guardian.None? then (w, Denied)
      else
        var claims := AccessClaims(w, previous.address, guardian.value, vcCount);
        var (w1, token) := CreateAccessToken(env, w, previous.address, guardian.value, vcCount);
        (w1.(store := SetVp(w1.store, token, "EMPTY", DAY)),
         Opened(previous.address, false, token, claims, Some("EMPTY")))
  }

  // ----- log-out: behind the DID guard -----

  function CloseToken(s: Store, token: string): Store {
    DeleteVp(BlockToken(s, token, DAY), token)
  }

  function LogOut(w: World, token: string): (World, Reply) {
    if DidGuard(w, token).Rejected? then (w, Denied)
    else (w.(store := DeleteVerification(CloseToken(w.store, token), token)), Closed(token))
  }

  /** The presentation under a scanned key names this address as its holder. */
  predicate Names(env: Env, value: Option<Value>, address: string) {
    && value.Some? && value.value.VpRecord?
    && env.holderOf(value.value.vpJwt).Some?
    && SameAddress(env.holderOf(value.value.vpJwt).value, address)
  }

  /** One key of the scan in `blockAllTokensByAddress`. */
  function CloseIfNamed(env: Env, s: Store, address: string, key: string): Store {
    if Names(env, RedisGet(s, key), address) then CloseToken(s, DropFirst(key, VP_TOKEN)) else s
  }

  /** The whole scan, key by key. */
  function CloseNamed(env: Env, s: Store, address: string, keys: seq<string>): Store
    decreases |keys|
  {
    if keys == [] then s
    else CloseIfNamed(env, CloseNamed(env, s, address, keys[..|keys| - 1]), address, keys[|keys| - 1])
  }

  /** `keys` is what the scan delivers: see `ScanOf`. */
  function LogOutAll(env: Env, w: World, token: string, keys: seq<string>): (World, Reply) {
    match DidGuard(w, token)
    case Rejected(_) => (w, Denied)
    case Accepted(user) => (w.(store := CloseNamed(env, w.store, user.address, keys)), ClosedAll(user.address))
  }

  /** A scan delivers only matching keys, and every key that is live, in any order, perhaps twice. */
  ghost predicate ScanOf(s: Store, keys: seq<string>) {
    && (forall k :: k in keys ==> VP_TOKEN <= k)
    && (forall k :: VP_TOKEN <= k && RedisGet(s, k).Some? ==> k in keys)
  }

  // ----- runs -----

  predicate AsVerified(d: Decision) {
    d.Accepted? && d.user.vpVerified
  }

  /** A guard that lets a user in as verified, while no verification is cached, verified in full what is stored. */
  function FullCheck(s: Store, token: string, d: Decision): Option<Check> {
    var vpJwt, cached := GetVp(s, token).1, GetVerification(s, token).1;
    if AsVerified(d) && vpJwt.Some? && (cached.None? || !cached.value.verified)
    then Some(Check(vpJwt.value, s.now)) else None
  }

  datatype Step =
    | Tick(milliseconds: nat)
    | AskChallenge(wallet: string, challenge: string)
    | DoLogIn(login: Login)
    | DoRefresh(token: string, guardian: Option<bool>, vcCount: nat)
    | DoLogOut(token: string)
    | DoLogOutAll(token: string, keys: seq<string>)
    | DoGuard(channel: Channel, token: string)

  function Next(env: Env, w: World, step: Step): (World, Reply) {
    match step
    case Tick(ms) => (w.(store := w.store.(now := w.store.now + ms)), Done)
    case AskChallenge(wallet, challenge) => (CreateChallenge(w, wallet, challenge), Challenged(wallet))
    case DoLogIn(login) => LogIn(env, w, login)
    case DoRefresh(token, guardian, n) => RefreshSession(env, w, token, guardian, n)
    case DoLogOut(token) => LogOut(w, token)
    case DoLogOutAll(token, keys) => LogOutAll(env, w, token, keys)
    case DoGuard(channel, token) =>
      var (w', decision) := Guard(env, w, channel, token);
      (w', Decided(token, decision, FullCheck(w.store, token, decision)))
  }

  /** The world after a run and the replies it gave. */
  function Run(env: Env, w: World, steps: seq<Step>): (World, seq<Reply>)
    decreases |steps|
  {
    if steps == [] then (w, [])
    else
      var (before, replies) := Run(env, w, steps[..|steps| - 1]);
      var (after, reply) := Next(env, before, steps[|steps| - 1]);
      (after, replies + [reply])
  }
}
