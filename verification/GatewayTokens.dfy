/** The text of the gateway's own JWTs: what the signer writes for given claims, whatever its key. */
module GatewayTokens {
  import opened Bytes
  import opened Credentials
  import opened CredentialProofs
  import opened Gateway
  import opened Json
  import opened Text
  import opened Wrappers

  const SIGNER_HEADER := Obj([Member("alg", Str("HS256")), Member("typ", Str("JWT"))])

  /** The payload: an undefined role is dropped, and the signer adds the times of issue and expiry. */
  function Payload(c: Claims): Json {
    var times := [Member("iat", Num(Decimal(c.iat))), Member("exp", Num(Decimal(c.iat + Lifetime(c))))];
    match c
    case Access(address, isGuardian, vcCount, _) =>
      Obj([Member("address", Str(address)), Member("isGuardian", Bool(isGuardian)),
           Member("vcCount", Num(Decimal(vcCount))), Member("type", Str("access"))] + times)
    case Refresh(address, _) =>
      Obj([Member("address", Str(address)), Member("type", Str("refresh"))] + times)
  }

  /** `mac` is the keyed hash of the signed text. */
  function SignText(mac: string -> seq<byte>, c: Claims): string {
    var data := EncodeJson(SIGNER_HEADER) + "." + EncodeJson(Payload(c));
    data + "." + Base64Encode(mac(data))
  }

  lemma {:induction false} DecimalInjective(n: nat, m: nat)
    requires Decimal(n) == Decimal(m)
    ensures n == m
  {
    if n < 10 || m < 10 {
    } else {
      assert Decimal(n)[..|Decimal(n)| - 1] == Decimal(n / 10);
      assert Decimal(m)[..|Decimal(m)| - 1] == Decimal(m / 10);
      DecimalInjective(n / 10, m / 10);
      assert Decimal(n)[|Decimal(n)| - 1] == Decimal(m)[|Decimal(m)| - 1];
    }
  }

  lemma PayloadPrintable(c: Claims)
    ensures Printable(Payload(c)) && Printable(SIGNER_HEADER)
  {
    DecimalLiteral(c.iat);
    DecimalLiteral(c.iat + Lifetime(c));
    if c.Access? {
      DecimalLiteral(c.vcCount);
    }
  }

  lemma PayloadInjective(c: Claims, d: Claims)
    requires Payload(c) == Payload(d)
    ensures c == d
  {
    var f, g := Payload(c).fields, Payload(d).fields;
    assert c.Access? <==> |f| == 6;
    assert d.Access? <==> |g| == 6;
    assert f[0].value == Str(c.address) && g[0].value == Str(d.address);
    if c.Access? {
      assert f[1].value == Bool(c.isGuardian) && f[2].value == Num(Decimal(c.vcCount));
      assert f[4].value == Num(Decimal(c.iat)) && g[4].value == Num(Decimal(d.iat));
      DecimalInjective(c.vcCount, d.vcCount);
    } else {
      assert f[2].value == Num(Decimal(c.iat)) && g[2].value == Num(Decimal(d.iat));
    }
    DecimalInjective(c.iat, d.iat);
  }

  lemma SignedParts(mac: string -> seq<byte>, c: Claims)
    ensures var parts := Split(SignText(mac, c), "."); |parts| == 3 && DecodeJson(parts[1]) == Some(Payload(c))
  {
    var data := EncodeJson(SIGNER_HEADER) + "." + EncodeJson(Payload(c));
    PayloadPrintable(c);
    EncodedJson(SIGNER_HEADER);
    EncodedJson(Payload(c));
    Base64Alphabet(mac(data));
    ThreeParts(EncodeJson(SIGNER_HEADER), EncodeJson(Payload(c)), Base64Encode(mac(data)));
  }

  /** The members of the payload, as whoever decodes the token reads them. */
  ghost predicate Says(payload: Json, c: Claims) {
    && Get(payload, "address") == Some(Str(c.address))
    && Get(payload, "iat") == Some(Num(Decimal(c.iat)))
    && Get(payload, "exp") == Some(Num(Decimal(c.iat + (if c.Access? then 86400 else 604800))))
    && Get(payload, "type") == Some(Str(if c.Access? then "access" else "refresh"))
    && Get(payload, "isGuardian") == (if c.Access? then Some(Bool(c.isGuardian)) else None)
    && Get(payload, "vcCount") == (if c.Access? then Some(Num(Decimal(c.vcCount))) else None)
  }

  lemma AccessSays(c: Claims)
    requires c.Access?
    ensures Says(Payload(c), c)
  {
    var f := Payload(c).fields;
    assert f == [Member("address", Str(c.address)), Member("isGuardian", Bool(c.isGuardian)),
                 Member("vcCount", Num(Decimal(c.vcCount))), Member("type", Str("access")),
                 Member("iat", Num(Decimal(c.iat))), Member("exp", Num(Decimal(c.iat + 86400)))];
    LookupUnique(f, "address", 0);
    LookupUnique(f, "isGuardian", 1);
    LookupUnique(f, "vcCount", 2);
    LookupUnique(f, "type", 3);
    LookupUnique(f, "iat", 4);
    LookupUnique(f, "exp", 5);
  }

  lemma RefreshSays(c: Claims)
    requires c.Refresh?
    ensures Says(Payload(c), c)
  {
    var f := Payload(c).fields;
    assert f == [Member("address", Str(c.address)), Member("type", Str("refresh")),
                 Member("iat", Num(Decimal(c.iat))), Member("exp", Num(Decimal(c.iat + 604800)))];
    LookupUnique(f, "address", 0);
    LookupUnique(f, "type", 1);
    LookupUnique(f, "iat", 2);
    LookupUnique(f, "exp", 3);
    LookupAbsent(f, "isGuardian");
    LookupAbsent(f, "vcCount");
  }

  /** A token is three parts: the header, a payload that says its claims and times, and the hash of both. */
  lemma TokenSays(mac: string -> seq<byte>, c: Claims)
    ensures var parts := Split(SignText(mac, c), ".");
      && |parts| == 3
      && DecodeJson(parts[0]) == Some(Obj([Member("alg", Str("HS256")), Member("typ", Str("JWT"))]))
      && DecodeJson(parts[1]).Some? && Says(DecodeJson(parts[1]).value, c)
      && Base64Decode(parts[2]) == mac(parts[0] + "." + parts[1])
  {
    var data := EncodeJson(SIGNER_HEADER) + "." + EncodeJson(Payload(c));
    PayloadPrintable(c);
    if c.Access? {
      AccessSays(c);
    } else {
      RefreshSays(c);
    }
    EncodedJson(SIGNER_HEADER);
    EncodedJson(Payload(c));
    Base64Alphabet(mac(data));
    Base64RoundTrip(mac(data));
    ThreeParts(EncodeJson(SIGNER_HEADER), EncodeJson(Payload(c)), Base64Encode(mac(data)));
  }

  /** Under every key, a token is signed for one set of claims only: they can be read back from its text. */
  lemma SigningIsInjective(mac: string -> seq<byte>, c: Claims, d: Claims)
    requires SignText(mac, c) == SignText(mac, d)
    ensures c == d
  {
    SignedParts(mac, c);
    SignedParts(mac, d);
    PayloadInjective(c, d);
  }

  lemma SignedIsNotEmpty(mac: string -> seq<byte>, c: Claims)
    ensures SignText(mac, c) != ""
  {
    SignedParts(mac, c);
  }
}
