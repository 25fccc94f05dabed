/** The key strings of the gateway's flat Redis store, and the proof that its families stay apart. */
module SessionKeys {
  import opened Wrappers

  datatype KeyId =
    | Blocked(token: string)
    | Vp(token: string)
    | Verified(token: string)
    | HolderVp(address: string)
    | AccessOf(address: string)
    | RefreshOf(address: string)
    | ChallengeOf(address: string)
    | EmailOf(address: string)

  const BLOCKED := "blocked:"
  const VP_TOKEN := "vp:token:"
  const VP_VERIFIED := "vp:verified:"
  const VP_HOLDER := "vp:"
  const ACCESS := "token:"
  const REFRESH := "refresh:"
  const CHALLENGE := "challenge:"
  const EMAIL := "email_verify:"

  function Render(id: KeyId): string {
    match id
    case Blocked(t) => BLOCKED + t
    case Vp(t) => VP_TOKEN + t
    case Verified(t) => VP_VERIFIED + t
    case HolderVp(a) => VP_HOLDER + a
    case AccessOf(a) => ACCESS + a
    case RefreshOf(a) => REFRESH + a
    case ChallengeOf(a) => CHALLENGE + a
    case EmailOf(a) => EMAIL + a
  }

  /** Which entry a key string belongs to. */
  function ReadKey(k: string): Option<KeyId> {
    if VP_TOKEN <= k then Some(Vp(k[|VP_TOKEN|..]))
    else if VP_VERIFIED <= k then Some(Verified(k[|VP_VERIFIED|..]))
    else if VP_HOLDER <= k then Some(HolderVp(k[|VP_HOLDER|..]))
    else if BLOCKED <= k then Some(Blocked(k[|BLOCKED|..]))
    else if ACCESS <= k then Some(AccessOf(k[|ACCESS|..]))
    else if REFRESH <= k then Some(RefreshOf(k[|REFRESH|..]))
    else if CHALLENGE <= k then Some(ChallengeOf(k[|CHALLENGE|..]))
    else if EMAIL <= k then Some(EmailOf(k[|EMAIL|..]))
    else None
  }

  /** A holder that starts like every recovered address, `0x` in either case. */
  predicate HexAddress(a: string) {
    |a| >= 2 && a[0] == '0' && (a[1] == 'x' || a[1] == 'X')
  }

  predicate WellFormed(id: KeyId) {
    id.HolderVp? ==> HexAddress(id.address)
  }

  lemma Prefixed(p: string, t: string)
    ensures p <= p + t && (p + t)[|p|..] == t
    ensures forall i :: 0 <= i < |p| ==> (p + t)[i] == p[i]
  {
  }

  lemma NotPrefix(p: string, k: string, i: nat)
    requires i < |p| && i < |k| && p[i] != k[i]
    ensures !(p <= k)
  {
  }

  /** Different entries have different keys, once holders are hex addresses. */
  lemma KeysStayApart(id: KeyId)
    requires WellFormed(id)
    ensures ReadKey(Render(id)) == Some(id)
  {
    var k := Render(id);
    match id
    case Vp(t) => Prefixed(VP_TOKEN, t);
    case Verified(t) =>
      Prefixed(VP_VERIFIED, t);
      NotPrefix(VP_TOKEN, k, 3);
    case HolderVp(a) =>
      Prefixed(VP_HOLDER, a);
      assert k[3] == a[0] == '0';
      NotPrefix(VP_TOKEN, k, 3);
      NotPrefix(VP_VERIFIED, k, 3);
    case Blocked(t) => NotVp(BLOCKED, t);
    case AccessOf(a) =>
      NotVp(ACCESS, a);
      NotPrefix(BLOCKED, k, 0);
    case RefreshOf(a) =>
      NotVp(REFRESH, a);
      NotPrefix(BLOCKED, k, 0);
      NotPrefix(ACCESS, k, 0);
    case ChallengeOf(a) =>
      NotVp(CHALLENGE, a);
      NotPrefix(BLOCKED, k, 0);
      NotPrefix(ACCESS, k, 0);
      NotPrefix(REFRESH, k, 0);
    case EmailOf(a) =>
      NotVp(EMAIL, a);
      NotPrefix(BLOCKED, k, 0);
      NotPrefix(ACCESS, k, 0);
      NotPrefix(REFRESH, k, 0);
      NotPrefix(CHALLENGE, k, 0);
  }

  lemma NotVp(p: string, t: string)
    requires p != "" && p[0] != 'v'
    ensures p <= p + t && (p + t)[|p|..] == t && (p + t)[0] == p[0]
    ensures !(VP_TOKEN <= p + t) && !(VP_VERIFIED <= p + t) && !(VP_HOLDER <= p + t)
  {
    Prefixed(p, t);
    NotPrefix(VP_TOKEN, p + t, 0);
    NotPrefix(VP_VERIFIED, p + t, 0);
    NotPrefix(VP_HOLDER, p + t, 0);
  }

  /** Without that condition they meet: exactly on holders that spell a session key. */
  lemma HolderKeyCollides(holder: string)
    ensures (exists t :: Render(HolderVp(holder)) == Render(Vp(t))) <==> "token:" <= holder
    ensures (exists t :: Render(HolderVp(holder)) == Render(Verified(t))) <==> "verified:" <= holder
  {
    var k := Render(HolderVp(holder));
    if "token:" <= holder {
      Peel(holder, "token:", VP_TOKEN, holder[6..]);
      assert k == Render(Vp(holder[6..]));
    }
    if t :| k == Render(Vp(t)) {
      Peel(holder, "token:", VP_TOKEN, t);
    }
    if "verified:" <= holder {
      Peel(holder, "verified:", VP_VERIFIED, holder[9..]);
      assert k == Render(Verified(holder[9..]));
    }
    if t :| k == Render(Verified(t)) {
      Peel(holder, "verified:", VP_VERIFIED, t);
    }
  }

  lemma Peel(holder: string, middle: string, prefix: string, t: string)
    requires prefix == VP_HOLDER + middle
    ensures VP_HOLDER + holder == prefix + t <==> holder == middle + t
  {
    assert prefix + t == VP_HOLDER + (middle + t);
    assert (VP_HOLDER + holder)[3..] == holder;
    assert (VP_HOLDER + (middle + t))[3..] == middle + t;
  }

  // ----- the three keys of a session -----

  function BlockedKey(token: string): (k: string)
    ensures ReadKey(k) == Some(Blocked(token))
  {
    KeysStayApart(Blocked(token));
    Render(Blocked(token))
  }

  function VpKey(token: string): (k: string)
    ensures ReadKey(k) == Some(Vp(token))
  {
    KeysStayApart(Vp(token));
    Render(Vp(token))
  }

  function VerifiedKey(token: string): (k: string)
    ensures ReadKey(k) == Some(Verified(token))
  {
    KeysStayApart(Verified(token));
    Render(Verified(token))
  }
}
