/** What the credential code guarantees: codec inverses, soundness and the end-to-end round trip. */
module CredentialProofs {
  import opened Bytes
  import opened Credentials
  import opened Did
  import opened Json
  import opened Text
  import opened Wrappers

  // ----- the compact form comes apart as it was put together -----

  lemma EncodedJson(v: Json)
    requires Printable(v)
    ensures DecodeJson(EncodeJson(v)) == Some(v)
    ensures '.' !in EncodeJson(v)
  {
    TextRoundTrip(Print(v));
    JsonRoundTrip(v);
  }

  lemma HeaderPrintable()
    ensures Printable(HEADER)
  {
  }

  lemma ThreeParts(a: string, b: string, c: string)
    requires '.' !in a && '.' !in b && '.' !in c
    ensures Split(a + "." + b + "." + c, ".") == [a, b, c]
  {
    assert a + "." + b + "." + c == a + "." + (b + "." + c);
    SplitHead(a, '.', b + "." + c);
    SplitHead(b, '.', c);
    SplitWhole(c, '.');
  }

  /**
   An assembled token splits into exactly its three parts, whatever the payload holds, and
   each part decodes to what was encoded.
   */
  lemma AssembledParts(payload: Json, signature: string)
    requires Printable(payload)
    ensures var parts := Split(AssembleJwt(payload, signature), ".");
      && |parts| == 3
      && DecodeJson(parts[0]) == Some(Obj([Member("alg", Str("ES256K-R")), Member("typ", Str("JWT"))]))
      && DecodeJson(parts[1]) == Some(payload)
      && Base64Decode(parts[2]) == SignatureBytes(signature)
      && parts[0] + "." + parts[1] == SigningData(payload)
  {
    HeaderPrintable();
    EncodedJson(HEADER);
    EncodedJson(payload);
    Base64RoundTrip(SignatureBytes(signature));
    Base64Alphabet(SignatureBytes(signature));
    ThreeParts(EncodeJson(HEADER), EncodeJson(payload), Base64Encode(SignatureBytes(signature)));
  }

  /** The signature over the assembled text recovers to the issuer named in the payload. */
  predicate SignedByIssuer(crypto: Crypto, payload: Json, signature: string) {
    && Issuer(payload).Some?
    && Recovers(VerifyMessage(crypto, SigningData(payload), signature), DidAddress(Issuer(payload).value))
  }

  /** A token assembled from a payload and a signature authenticates iff the issuer signed it. */
  lemma AuthenticateAssembled(crypto: Crypto, payload: Json, signature: string)
    requires Printable(payload) && IsHexBytes(signature)
    ensures Authenticate(crypto, AssembleJwt(payload, signature))
            == if SignedByIssuer(crypto, payload, signature) then Some(payload) else None
  {
    AssembledParts(payload, signature);
    HexEncodeIsHex(SignatureBytes(signature));
  }

  // ----- soundness of verification -----

  /** `jwt` is three dot-separated parts whose first two are signed by the issuer of `payload`. */
  ghost predicate Attested(crypto: Crypto, jwt: string, payload: Json, a: string, b: string, c: string) {
    && jwt == a + "." + b + "." + c
    && '.' !in a && '.' !in b && '.' !in c
    && DecodeJson(a).Some? && DecodeJson(b) == Some(payload)
    && SignedByNamed(crypto.recover(a + "." + b, Base64Decode(c)), payload)
  }

  /** The address recovered is that of the DID in the `iss` of the payload, but for the case of letters. */
  predicate SignedByNamed(recovered: Option<string>, payload: Json) {
    match Get(payload, "iss")
    case Some(Str(did)) => recovered.Some? && SameUpToCase(recovered.value, DidAddress(did))
    case _ => false
  }

  ghost predicate SignedToken(crypto: Crypto, jwt: string, payload: Json) {
    exists a, b, c :: Attested(crypto, jwt, payload, a, b, c)
  }

  lemma JoinThree(parts: seq<string>)
    requires |parts| == 3
    ensures Join(parts, ".") == parts[0] + "." + parts[1] + "." + parts[2]
  {
    assert parts[1..][1..] == [parts[2]];
    assert Join(parts[1..], ".") == parts[1] + "." + parts[2];
  }

  /** What authentication has checked. */
  lemma AuthenticatedParts(crypto: Crypto, jwt: string, payload: Json)
    requires Authenticate(crypto, jwt) == Some(payload)
    ensures var parts := Split(jwt, ".");
      && |parts| == 3 && DecodeJson(parts[0]).Some? && DecodeJson(parts[1]) == Some(payload) && Issuer(payload).Some?
      && Recovers(VerifyMessage(crypto, parts[0] + "." + parts[1], "0x" + HexEncode(Base64Decode(parts[2]))),
                  DidAddress(Issuer(payload).value))
  {
  }

  lemma AuthenticatedIsAttested(crypto: Crypto, jwt: string, payload: Json)
    requires Authenticate(crypto, jwt) == Some(payload)
    ensures SignedToken(crypto, jwt, payload)
  {
    var parts := Split(jwt, ".");
    AuthenticatedParts(crypto, jwt, payload);
    assert jwt == parts[0] + "." + parts[1] + "." + parts[2] by {
      JoinUndoesSplit(jwt, ".");
      JoinThree(parts);
    }
    PiecesLackSeparator(jwt, '.');
    HexEncodeIsHex(Base64Decode(parts[2]));
    var recovered := crypto.recover(parts[0] + "." + parts[1], Base64Decode(parts[2]));
    SameAddressIff(recovered.value, DidAddress(Issuer(payload).value));
    assert Attested(crypto, jwt, payload, parts[0], parts[1], parts[2]);
  }

  lemma AttestedAuthenticates(crypto: Crypto, jwt: string, payload: Json, a: string, b: string, c: string)
    requires Attested(crypto, jwt, payload, a, b, c)
    ensures Authenticate(crypto, jwt) == Some(payload)
  {
    ThreeParts(a, b, c);
    HexEncodeIsHex(Base64Decode(c));
    SameAddressIff(crypto.recover(a + "." + b, Base64Decode(c)).value, DidAddress(Issuer(payload).value));
  }

  /** Authentication succeeds exactly on the tokens signed by the issuer they name. */
  lemma AuthenticateIff(crypto: Crypto, jwt: string, payload: Json)
    ensures Authenticate(crypto, jwt) == Some(payload) <==> SignedToken(crypto, jwt, payload)
  {
    if Authenticate(crypto, jwt) == Some(payload) {
      AuthenticatedIsAttested(crypto, jwt, payload);
    }
    if SignedToken(crypto, jwt, payload) {
      var a, b, c :| Attested(crypto, jwt, payload, a, b, c);
      AttestedAuthenticates(crypto, jwt, payload, a, b, c);
    }
  }

  lemma {:induction false} VerifyVcsIff(crypto: Crypto, items: seq<Json>, results: seq<VcResult>)
    ensures VerifyVcs(crypto, items) == Some(results)
            <==> |results| == |items|
                 && forall i :: 0 <= i < |items| ==> VerifyVc(crypto, items[i]) == Some(results[i])
  {
    if items == [] || results == [] {
    } else {
      VerifyVcsIff(crypto, items[1..], results[1..]);
      assert results == [results[0]] + results[1..];
      if |results| == |items|
         && forall i :: 0 <= i < |items| ==> VerifyVc(crypto, items[i]) == Some(results[i]) {
        assert forall i :: 0 <= i < |items[1..]| ==> items[1..][i] == items[i + 1];
      }
    }
  }

  /** A credential signed by the issuer that the result reports, with the content and subject it reports. */
  ghost predicate SignedCredential(crypto: Crypto, item: Json, result: VcResult) {
    && item.Str?
    && exists vc :: SignedToken(crypto, item.text, vc) && Get(vc, "iss") == Some(Str(result.issuer))
                    && Get(vc, "vc") == result.credential && Get(vc, "sub") == result.subject
  }

  /** A credential verifies exactly when its issuer signed it, with the result that says what it holds. */
  lemma VerifyVcIff(crypto: Crypto, item: Json, result: VcResult)
    ensures VerifyVc(crypto, item) == Some(result) <==> SignedCredential(crypto, item, result)
  {
    if VerifyVc(crypto, item) == Some(result) {
      var vc := Authenticate(crypto, item.text).value;
      AuthenticateIff(crypto, item.text, vc);
      assert SignedToken(crypto, item.text, vc);
    }
    if SignedCredential(crypto, item, result) {
      var vc :| SignedToken(crypto, item.text, vc) && Get(vc, "iss") == Some(Str(result.issuer))
                && Get(vc, "vc") == result.credential && Get(vc, "sub") == result.subject;
      AuthenticateIff(crypto, item.text, vc);
    }
  }

  /** The list under `vp.verifiableCredential`; an empty one when there is no `vp`, or nothing truthy in it. */
  ghost predicate Nests(payload: Json, items: seq<Json>) {
    var list := match Get(payload, "vp") case None => None case Some(vp) => Get(vp, "verifiableCredential");
    list == Some(Arr(items)) || (items == [] && (list.None? || Blank(list.value)))
  }

  /** `null`, `false`, the empty text, or a number that spells zero. */
  ghost predicate Blank(v: Json) {
    match v
    case Null => true
    case Bool(b) => !b
    case Str(text) => |text| == 0
    case Num(literal) => exists n :: ZeroMantissa(literal, n)
    case _ => false
  }

  /** The first `n` characters, up to the exponent or the end, hold no digit but zero. */
  predicate ZeroMantissa(literal: string, n: int) {
    && 0 <= n <= |literal| && (n == |literal| || literal[n] in "eE")
    && forall i :: 0 <= i < n ==> literal[i] !in "123456789eE"
  }

  lemma {:induction false} ZeroLiteralIff(s: string)
    ensures ZeroLiteral(s) <==> Blank(Num(s))
  {
    if s == "" || s[0] == 'e' || s[0] == 'E' {
      assert ZeroMantissa(s, 0);
    } else {
      ZeroLiteralIff(s[1..]);
      if Blank(Num(s[1..])) && s[0] !in "123456789" {
        var n :| ZeroMantissa(s[1..], n);
        assert forall i :: 0 <= i < n + 1 ==> s[i] == if i == 0 then s[0] else s[1..][i - 1];
        assert ZeroMantissa(s, n + 1);
      }
      if Blank(Num(s)) {
        var n :| ZeroMantissa(s, n);
        assert n > 0;
        assert forall i :: 0 <= i < n - 1 ==> s[1..][i] == s[i + 1];
        assert ZeroMantissa(s[1..], n - 1);
      }
    }
  }

  lemma NestedIff(payload: Json, items: seq<Json>)
    ensures NestedCredentials(payload) == Some(items) <==> Nests(payload, items)
  {
    if Get(payload, "vp").Some? {
      var list := Get(Get(payload, "vp").value, "verifiableCredential");
      if list.Some? && list.value.Num? {
        ZeroLiteralIff(list.value.literal);
      }
    }
  }

  /** Nested credentials, in order, each signed by the issuer that its result reports. */
  ghost predicate AllSigned(crypto: Crypto, items: seq<Json>, results: seq<VcResult>) {
    |items| == |results| && forall i :: 0 <= i < |results| ==> SignedCredential(crypto, items[i], results[i])
  }

  lemma AllSignedIff(crypto: Crypto, items: seq<Json>, results: seq<VcResult>)
    ensures VerifyVcs(crypto, items) == Some(results) <==> AllSigned(crypto, items, results)
  {
    VerifyVcsIff(crypto, items, results);
    forall i | 0 <= i < |items| && i < |results|
      ensures VerifyVc(crypto, items[i]) == Some(results[i]) <==> SignedCredential(crypto, items[i], results[i])
    {
      VerifyVcIff(crypto, items[i], results[i]);
    }
  }

  /**
   A presentation verifies exactly when the outer token is signed by the holder it reports, and every
   nested credential, in order, is signed by the issuer it reports.
   */
  lemma VerifiedMeansSigned(crypto: Crypto, jwt: string, p: Presentation)
    ensures VerifyPresentation(crypto, jwt) == Some(p)
            <==> && SignedToken(crypto, jwt, p.payload) && Get(p.payload, "iss") == Some(Str(p.holder))
                 && exists items :: Nests(p.payload, items) && AllSigned(crypto, items, p.vcs)
  {
    AuthenticateIff(crypto, jwt, p.payload);
    if VerifyPresentation(crypto, jwt) == Some(p) {
      var items := NestedCredentials(p.payload).value;
      NestedIff(p.payload, items);
      AllSignedIff(crypto, items, p.vcs);
    }
    if SignedToken(crypto, jwt, p.payload) && Get(p.payload, "iss") == Some(Str(p.holder))
       && exists items :: Nests(p.payload, items) && AllSigned(crypto, items, p.vcs) {
      var items :| Nests(p.payload, items) && AllSigned(crypto, items, p.vcs);
      NestedIff(p.payload, items);
      AllSignedIff(crypto, items, p.vcs);
    }
  }

  // ----- when a signature is accepted -----

  /** The signature, read as hex, recovers over the text under the prefix to this address. */
  ghost predicate Signed(crypto: Crypto, data: string, signature: string, address: string) {
    && IsHexBytes(signature)
    && exists a :: crypto.recover(data, SignatureBytes(signature)) == Some(a) && SameUpToCase(a, address)
  }

  lemma RecoversIff(crypto: Crypto, data: string, signature: string, address: string)
    ensures Recovers(VerifyMessage(crypto, data, signature), address) <==> Signed(crypto, data, signature, address)
  {
    if VerifyMessage(crypto, data, signature).Some? {
      SameAddressIff(VerifyMessage(crypto, data, signature).value, address);
    }
  }

  /** A credential is created exactly when its guardian signed the message, and is then the assembled message. */
  lemma CreateVcIff(crypto: Crypto, guardian: string, signature: string, message: Json, vc: string)
    ensures CreateVc(crypto, guardian, signature, message) == Some(vc)
            <==> Signed(crypto, SigningData(message), signature, guardian) && vc == AssembleJwt(message, signature)
  {
    RecoversIff(crypto, SigningData(message), signature, guardian);
  }

  /** A transfer credential: exactly when the new guardian signed the text it sent back. */
  lemma CreateTransferVcIff(crypto: Crypto, guardian: string, signature: string, message: Json, signedData: string,
                            vc: string)
    ensures CreateTransferVc(crypto, guardian, signature, message, signedData) == Some(vc)
            <==> Signed(crypto, signedData, signature, guardian) && vc == AssembleJwt(message, signature)
  {
    RecoversIff(crypto, signedData, signature, guardian);
  }

  /** Both recoveries over the text, under the prefix and bare, give an address, and one of them this one. */
  ghost predicate EitherSigned(crypto: Crypto, data: string, signature: string, address: string) {
    && IsHexBytes(signature)
    && exists a, b :: BothRecovered(crypto, data, SignatureBytes(signature), a, b)
                      && (SameUpToCase(a, address) || SameUpToCase(b, address))
  }

  predicate BothRecovered(crypto: Crypto, data: string, bytes: seq<byte>, a: string, b: string) {
    crypto.recover(data, bytes) == Some(a) && crypto.recoverRaw(data, bytes) == Some(b)
  }

  lemma RecoveredIff(crypto: Crypto, holder: string, signature: string, data: string, jwt: string)
    ensures Recovered(crypto, holder, signature, data, jwt)
            == if EitherSigned(crypto, data, signature, holder) then Some(jwt) else None
  {
    var a, b := VerifyMessage(crypto, data, signature), VerifyRaw(crypto, data, signature);
    if a.Some? && b.Some? {
      SameAddressIff(a.value, holder);
      SameAddressIff(b.value, holder);
      assert BothRecovered(crypto, data, SignatureBytes(signature), a.value, b.value);
    }
  }

  /**
   A presentation is created exactly when both recoveries give an address, and one of them the holder,
   over the text sent back or, if none was, over the message.
   */
  lemma CreateVpIff(crypto: Crypto, holder: string, signature: string, message: Json, signedData: string, vp: string)
    ensures CreateVp(crypto, holder, signature, message, signedData) == Some(vp)
            <==> var data := if |signedData| > 0 then signedData else SigningData(message);
                 EitherSigned(crypto, data, signature, holder) && vp == AssembleJwt(message, signature)
  {
    var data := if |signedData| > 0 then signedData else SigningData(message);
    RecoveredIff(crypto, holder, signature, data, AssembleJwt(message, signature));
  }

  // ----- when a presentation the gateway created verifies -----

  lemma CreatedIsHex(crypto: Crypto, holder: string, signature: string, message: Json, signedData: string)
    requires CreateVp(crypto, holder, signature, message, signedData).Some?
    ensures IsHexBytes(signature)
    ensures CreateVp(crypto, holder, signature, message, signedData) == Some(AssembleJwt(message, signature))
  {
  }

  /**
   What log-in stores: the holder signed the data, with the prefix or over the bare hash; the stored
   token gives back the message and the signature as they were sent; and log-out-all reads from it
   the issuer that the message names, whoever signed.
   */
  lemma CreatedVpIsReadBack(crypto: Crypto, holder: string, signature: string, message: Json,
                            signedData: string, vp: string)
    requires Printable(message)
    requires CreateVp(crypto, holder, signature, message, signedData) == Some(vp)
    ensures var data := if signedData != "" then signedData else SigningData(message);
      Recovers(VerifyMessage(crypto, data, signature), holder) || Recovers(VerifyRaw(crypto, data, signature), holder)
    ensures var parts := Split(vp, ".");
      |parts| == 3 && DecodeJson(parts[1]) == Some(message) && Base64Decode(parts[2]) == SignatureBytes(signature)
    ensures Issuer(message).Some? && DidAddress(Issuer(message).value) != "" ==>
      HolderOf(vp) == Some(DidAddress(Issuer(message).value))
  {
    CreatedIsHex(crypto, holder, signature, message, signedData);
    AssembledParts(message, signature);
    SignedByHolder(crypto, holder, signature, message, signedData);
  }

  lemma SignedByHolder(crypto: Crypto, holder: string, signature: string, message: Json, signedData: string)
    requires CreateVp(crypto, holder, signature, message, signedData).Some?
    ensures var data := if signedData != "" then signedData else SigningData(message);
      Recovers(VerifyMessage(crypto, data, signature), holder) || Recovers(VerifyRaw(crypto, data, signature), holder)
  {
  }

  /**
   Log-in accepts a bare-hash signature, and a `signedData` that is not the text of the
   message. The presentation it then stores verifies exactly when the prefixed signature
   covers the assembled message, the issuer in the message is the signer, and all nested
   credentials verify.
   */
  lemma CreatedVpVerifiesIff(crypto: Crypto, holder: string, signature: string, message: Json,
                             signedData: string, vp: string)
    requires Printable(message)
    requires CreateVp(crypto, holder, signature, message, signedData) == Some(vp)
    ensures VerifyPresentation(crypto, vp).Some?
            <==> && SignedByIssuer(crypto, message, signature)
                 && NestedCredentials(message).Some?
                 && VerifyVcs(crypto, NestedCredentials(message).value).Some?
  {
    CreatedIsHex(crypto, holder, signature, message, signedData);
    AuthenticateAssembled(crypto, message, signature);
  }

  /** A credential the gateway created verifies exactly when the message names its signer. */
  lemma CreatedVcVerifiesIff(crypto: Crypto, guardian: string, signature: string, message: Json, vc: string)
    requires Printable(message) && CreateVc(crypto, guardian, signature, message) == Some(vc)
    ensures VerifyVc(crypto, Str(vc)).Some?
            <==> Issuer(message).Some? && SameAddress(guardian, DidAddress(Issuer(message).value))
  {
    AuthenticateAssembled(crypto, message, signature);
  }

  /**
   The transfer path checks the signature against the text the client returns, not against
   the message it assembles: the result verifies exactly when the issuer signed the message.
   */
  lemma CreatedTransferVerifiesIff(crypto: Crypto, guardian: string, signature: string, message: Json,
                                   signedData: string, vc: string)
    requires Printable(message)
    requires CreateTransferVc(crypto, guardian, signature, message, signedData) == Some(vc)
    ensures VerifyVc(crypto, Str(vc)).Some? <==> SignedByIssuer(crypto, message, signature)
  {
    AuthenticateAssembled(crypto, message, signature);
  }

  // ----- the end-to-end round trip -----

  /** A credential request as the client completes it. */
  datatype Issue =
    | Identity(guardian: string, petDid: string, biometricHash: string, petData: seq<Member>,
               now: nat, signature: string)
    | Transfer(previous: string, guardian: string, petDid: string, biometricHash: string,
               petData: seq<Member>, now: nat, date: string, signature: string)

  function MessageOf(issue: Issue): Json {
    match issue
    case Identity(guardian, petDid, hash, petData, now, _) =>
      VcMessage(guardian, petDid, hash, petData, now)
    case Transfer(previous, guardian, petDid, hash, petData, now, date, _) =>
      TransferMessage(previous, guardian, petDid, hash, petData, now, date)
  }

  /** The credential stored for a request whose signed text is the prepared one. */
  function Issued(crypto: Crypto, issue: Issue): Option<string> {
    match issue
    case Identity(guardian, _, _, _, _, signature) =>
      CreateVc(crypto, guardian, signature, MessageOf(issue))
    case Transfer(_, guardian, _, _, _, _, _, signature) =>
      CreateTransferVc(crypto, guardian, signature, MessageOf(issue), SigningData(MessageOf(issue)))
  }

  lemma TextsPrintable(items: seq<string>)
    ensures Printable(Texts(items))
  {
  }

  lemma {:induction false} LookupSuffix(fields: seq<Member>, key: string, i: nat)
    requires i < |fields| && Find(fields[i..], key).Some?
    ensures Find(fields, key) == Find(fields[i..], key)
  {
    if i == 0 {
    } else {
      assert fields[1..][i - 1..] == fields[i..];
      LookupSuffix(fields[1..], key, i - 1);
    }
  }

  lemma {:induction false} LookupAbsent(fields: seq<Member>, key: string)
    requires forall i :: 0 <= i < |fields| ==> fields[i].key != key
    ensures Find(fields, key) == None
  {
    if fields == [] {
    } else {
      LookupAbsent(fields[1..], key);
    }
  }

  lemma LookupUnique(fields: seq<Member>, key: string, i: nat)
    requires i < |fields| && fields[i].key == key
    requires forall j :: i < j < |fields| ==> fields[j].key != key
    ensures Find(fields, key) == Some(fields[i].value)
  {
    LookupAbsent(fields[i + 1..], key);
    assert fields[i..][1..] == fields[i + 1..];
    LookupSuffix(fields, key, i);
  }

  lemma PetPayloadFacts(issuer: string, petDid: string, now: nat, kind: string, subject: seq<Member>)
    requires PrintableFields(subject)
    ensures var m := PetPayload(issuer, petDid, now, kind, subject);
      Printable(m) && Issuer(m) == Some(DID + issuer) && Get(m, "sub") == Some(Str(petDid))
  {
    var m := PetPayload(issuer, petDid, now, kind, subject);
    DecimalLiteral(now);
    DecimalLiteral(now + 86400 * 365);
    TextsPrintable(["https://www.w3.org/2018/credentials/v1"]);
    TextsPrintable(["VerifiableCredential", kind]);
    var vc := m.fields[4].value;
    assert Printable(vc.fields[2].value);
    assert Printable(vc);
    LookupUnique(m.fields, "iss", 0);
    LookupUnique(m.fields, "sub", 1);
  }

  /** The members of a payload as a reader finds them. */
  lemma PetPayloadReads(issuer: string, petDid: string, now: nat, kind: string, subject: seq<Member>)
    ensures var m := PetPayload(issuer, petDid, now, kind, subject);
      && Get(m, "nbf") == Some(Num(Decimal(now))) && Get(m, "exp") == Some(Num(Decimal(now + 31536000)))
      && Get(m, "vc").Some?
      && var vc := Get(m, "vc").value;
         && Get(vc, "type") == Some(Arr([Str("VerifiableCredential"), Str(kind)]))
         && Get(vc, "@context") == Some(Arr([Str("https://www.w3.org/2018/credentials/v1")]))
         && Get(vc, "credentialSubject") == Some(Obj(subject))
  {
    var m := PetPayload(issuer, petDid, now, kind, subject);
    LookupUnique(m.fields, "nbf", 2);
    LookupUnique(m.fields, "exp", 3);
    LookupUnique(m.fields, "vc", 4);
    var vc := m.fields[4].value;
    LookupUnique(vc.fields, "@context", 0);
    LookupUnique(vc.fields, "type", 1);
    LookupUnique(vc.fields, "credentialSubject", 2);
    assert Texts(["https://www.w3.org/2018/credentials/v1"]).items == [Str("https://www.w3.org/2018/credentials/v1")];
    assert Texts(["VerifiableCredential", kind]).items == [Str("VerifiableCredential"), Str(kind)];
  }

  function Kind(issue: Issue): string {
    if issue.Identity? then "PetIdentityCredential" else "PetTransferCredential"
  }

  /** What the request itself puts under a key of the subject. */
  function RequestField(issue: Issue, key: string): Option<Json> {
    if key == "id" then Some(Str(issue.petDid))
    else if key == "guardian" then Some(Str(issue.guardian))
    else if key == "biometricHash" then Some(Str(issue.biometricHash))
    else if issue.Transfer? && key == "previousGuardian" then Some(Str(issue.previous))
    else if issue.Transfer? && key == "transferDate" then Some(Str(issue.date))
    else None
  }

  /** The subject: the last binding in the pet data, or else what the request puts there. */
  ghost predicate SubjectSays(issue: Issue, subject: Json) {
    forall key :: Get(subject, key)
                  == if HasKey(issue.petData, key) then Find(issue.petData, key) else RequestField(issue, key)
  }

  lemma IdentitySubject(petDid: string, guardian: string, hash: string, petData: seq<Member>, key: string)
    ensures var base := [Member("id", Str(petDid)), Member("guardian", Str(guardian)),
                         Member("biometricHash", Str(hash))];
      Find(Spread(base, petData), key)
      == if HasKey(petData, key) then Find(petData, key)
         else if key == "id" then Some(Str(petDid)) else if key == "guardian" then Some(Str(guardian))
         else if key == "biometricHash" then Some(Str(hash)) else None
  {
    var base := [Member("id", Str(petDid)), Member("guardian", Str(guardian)), Member("biometricHash", Str(hash))];
    SpreadReads(base, petData, key);
    FindIff(base, key);
    if key == "id" {
      assert LastWith(base, key, 0);
    } else if key == "guardian" {
      assert LastWith(base, key, 1);
    } else if key == "biometricHash" {
      assert LastWith(base, key, 2);
    }
  }

  lemma TransferSubject(petDid: string, guardian: string, previous: string, hash: string, date: string,
                        petData: seq<Member>, key: string)
    ensures var base := [Member("id", Str(petDid)), Member("guardian", Str(guardian)),
                         Member("previousGuardian", Str(previous)), Member("biometricHash", Str(hash)),
                         Member("transferDate", Str(date))];
      Find(Spread(base, petData), key)
      == if HasKey(petData, key) then Find(petData, key)
         else if key == "id" then Some(Str(petDid)) else if key == "guardian" then Some(Str(guardian))
         else if key == "biometricHash" then Some(Str(hash))
         else if key == "previousGuardian" then Some(Str(previous))
         else if key == "transferDate" then Some(Str(date)) else None
  {
    var base := [Member("id", Str(petDid)), Member("guardian", Str(guardian)),
                 Member("previousGuardian", Str(previous)), Member("biometricHash", Str(hash)),
                 Member("transferDate", Str(date))];
    SpreadReads(base, petData, key);
    FindIff(base, key);
    if key == "id" {
      assert LastWith(base, key, 0);
    } else if key == "guardian" {
      assert LastWith(base, key, 1);
    } else if key == "previousGuardian" {
      assert LastWith(base, key, 2);
    } else if key == "biometricHash" {
      assert LastWith(base, key, 3);
    } else if key == "transferDate" {
      assert LastWith(base, key, 4);
    }
  }

  /** What a message says: its dates, its kind, and its subject. */
  ghost predicate MessageSays(issue: Issue, message: Json) {
    && Get(message, "nbf") == Some(Num(Decimal(issue.now)))
    && Get(message, "exp") == Some(Num(Decimal(issue.now + 31536000)))
    && Get(message, "vc").Some? && ContentSays(issue, Get(message, "vc").value)
  }

  ghost predicate ContentSays(issue: Issue, vc: Json) {
    && Get(vc, "type") == Some(Arr([Str("VerifiableCredential"), Str(Kind(issue))]))
    && Get(vc, "@context") == Some(Arr([Str("https://www.w3.org/2018/credentials/v1")]))
    && Get(vc, "credentialSubject").Some? && SubjectSays(issue, Get(vc, "credentialSubject").value)
  }

  lemma MessageReads(issue: Issue)
    ensures MessageSays(issue, MessageOf(issue))
  {
    match issue
    case Identity(guardian, petDid, hash, petData, now, _) =>
      var base := [Member("id", Str(petDid)), Member("guardian", Str(guardian)),
                   Member("biometricHash", Str(hash))];
      PetPayloadReads(guardian, petDid, now, "PetIdentityCredential", Spread(base, petData));
      forall key
        ensures Find(Spread(base, petData), key)
                == if HasKey(petData, key) then Find(petData, key) else RequestField(issue, key)
      {
        IdentitySubject(petDid, guardian, hash, petData, key);
      }
    case Transfer(previous, guardian, petDid, hash, petData, now, date, _) =>
      var base := [Member("id", Str(petDid)), Member("guardian", Str(guardian)),
                   Member("previousGuardian", Str(previous)), Member("biometricHash", Str(hash)),
                   Member("transferDate", Str(date))];
      PetPayloadReads(guardian, petDid, now, "PetTransferCredential", Spread(base, petData));
      forall key
        ensures Find(Spread(base, petData), key)
                == if HasKey(petData, key) then Find(petData, key) else RequestField(issue, key)
      {
        TransferSubject(petDid, guardian, previous, hash, date, petData, key);
      }
  }

  lemma IssueFacts(issue: Issue)
    requires PrintableFields(issue.petData)
    ensures var m := MessageOf(issue);
      Printable(m) && Issuer(m) == Some(DID + issue.guardian) && Get(m, "sub") == Some(Str(issue.petDid))
  {
    match issue
    case Identity(guardian, petDid, hash, petData, now, _) =>
      var base := [Member("id", Str(petDid)), Member("guardian", Str(guardian)),
                   Member("biometricHash", Str(hash))];
      SpreadPrintable(base, petData);
      PetPayloadFacts(guardian, petDid, now, "PetIdentityCredential", Spread(base, petData));
    case Transfer(previous, guardian, petDid, hash, petData, now, date, _) =>
      var base := [Member("id", Str(petDid)), Member("guardian", Str(guardian)),
                   Member("previousGuardian", Str(previous)), Member("biometricHash", Str(hash)),
                   Member("transferDate", Str(date))];
      SpreadPrintable(base, petData);
      PetPayloadFacts(guardian, petDid, now, "PetTransferCredential", Spread(base, petData));
  }

  predicate IssuedAs(crypto: Crypto, issue: Issue, credential: string) {
    PrintableFields(issue.petData) && Issued(crypto, issue) == Some(credential)
  }

  /** What the verifier reports for an issued credential. */
  function Expected(issue: Issue): VcResult {
    VcResult(Get(MessageOf(issue), "vc"), DID + issue.guardian, Some(Str(issue.petDid)))
  }

  lemma IssuedIsSigned(crypto: Crypto, issue: Issue)
    requires Issued(crypto, issue).Some?
    ensures Issued(crypto, issue) == Some(AssembleJwt(MessageOf(issue), issue.signature))
    ensures IsHexBytes(issue.signature)
    ensures Recovers(VerifyMessage(crypto, SigningData(MessageOf(issue)), issue.signature), issue.guardian)
  {
  }

  lemma SignedCredentialVerifies(crypto: Crypto, payload: Json, signature: string, issuer: string)
    requires Printable(payload) && IsHexBytes(signature)
    requires Issuer(payload) == Some(issuer)
    requires Recovers(VerifyMessage(crypto, SigningData(payload), signature), DidAddress(issuer))
    ensures VerifyVc(crypto, Str(AssembleJwt(payload, signature)))
            == Some(VcResult(Get(payload, "vc"), issuer, Get(payload, "sub")))
  {
    AuthenticateAssembled(crypto, payload, signature);
  }

  /** A verified result that says what was requested, of the pet and by the guardian who issued it. */
  ghost predicate Tells(issue: Issue, result: VcResult) {
    && result.issuer == "did:ethr:besu:" + issue.guardian && result.subject == Some(Str(issue.petDid))
    && result.credential.Some? && ContentSays(issue, result.credential.value)
  }

  /** An issued credential verifies, with a result and dates that say what was requested. */
  lemma IssuedVerifies(crypto: Crypto, issue: Issue)
    requires PrintableFields(issue.petData) && Issued(crypto, issue).Some?
    ensures var (verified, payload) := (VerifyVc(crypto, Str(Issued(crypto, issue).value)),
                                        Authenticate(crypto, Issued(crypto, issue).value));
      && verified == Some(Expected(issue)) && Tells(issue, Expected(issue))
      && payload.Some? && MessageSays(issue, payload.value)
  {
    IssueFacts(issue);
    MessageReads(issue);
    AuthenticateAssembled(crypto, MessageOf(issue), issue.signature);
    IssuedIsSigned(crypto, issue);
    DropPrefix(DID, issue.guardian);
    SignedCredentialVerifies(crypto, MessageOf(issue), issue.signature, DID + issue.guardian);
  }

  /** The claims of a presentation message, but for the presentation itself. */
  lemma VpMessageIssuer(holder: string, credentials: seq<string>, audience: string, now: nat, nonce: string)
    ensures Issuer(VpMessage(holder, credentials, audience, now, nonce)) == Some(DID + holder)
  {
    var m := VpMessage(holder, credentials, audience, now, nonce);
    assert forall i :: 1 <= i < 6 ==> m.fields[i].key != "iss";
    LookupUnique(m.fields, "iss", 0);
  }

  lemma VpMessageNested(holder: string, credentials: seq<string>, audience: string, now: nat, nonce: string)
    ensures NestedCredentials(VpMessage(holder, credentials, audience, now, nonce)) == Some(Texts(credentials).items)
  {
    var m := VpMessage(holder, credentials, audience, now, nonce);
    var vp := m.fields[5].value;
    assert Find(vp.fields[3..], "verifiableCredential") == Some(Texts(credentials));
    LookupSuffix(m.fields, "vp", 5);
    LookupSuffix(vp.fields, "verifiableCredential", 3);
  }

  lemma VpMessagePrintable(holder: string, credentials: seq<string>, audience: string, now: nat, nonce: string)
    ensures Printable(VpMessage(holder, credentials, audience, now, nonce))
  {
    var m := VpMessage(holder, credentials, audience, now, nonce);
    DecimalLiteral(now);
    DecimalLiteral(now + 3600);
    TextsPrintable(["https://www.w3.org/2018/credentials/v1"]);
    TextsPrintable(["VerifiablePresentation"]);
    TextsPrintable(credentials);
    assert Printable(m.fields[5].value);
  }

  /** What a presentation message says of its holder, audience, time and nonce. */
  ghost predicate VpSays(message: Json, holder: string, credentials: seq<string>, audience: string, now: nat,
                         nonce: string) {
    && Get(message, "iss") == Some(Str("did:ethr:besu:" + holder))
    && Get(message, "aud") == Some(Str(audience)) && Get(message, "nonce") == Some(Str(nonce))
    && Get(message, "nbf") == Some(Num(Decimal(now))) && Get(message, "exp") == Some(Num(Decimal(now + 3600)))
    && Get(message, "vp").Some?
    && var vp := Get(message, "vp").value;
       && Get(vp, "holder") == Some(Str("did:ethr:besu:" + holder))
       && Get(vp, "type") == Some(Arr([Str("VerifiablePresentation")]))
       && Get(vp, "verifiableCredential").Some? && Lists(Get(vp, "verifiableCredential").value, credentials)
  }

  /** An array of these texts, in order. */
  predicate Lists(v: Json, items: seq<string>) {
    v.Arr? && |v.items| == |items| && forall i :: 0 <= i < |items| ==> v.items[i] == Str(items[i])
  }

  lemma VpMessageReads(holder: string, credentials: seq<string>, audience: string, now: nat, nonce: string)
    ensures VpSays(VpMessage(holder, credentials, audience, now, nonce), holder, credentials, audience, now, nonce)
  {
    var m := VpMessage(holder, credentials, audience, now, nonce);
    VpReads(holder, credentials, m.fields[5].value);
    LookupUnique(m.fields, "iss", 0);
    LookupUnique(m.fields, "aud", 1);
    LookupUnique(m.fields, "nbf", 2);
    LookupUnique(m.fields, "exp", 3);
    LookupUnique(m.fields, "nonce", 4);
    LookupUnique(m.fields, "vp", 5);
  }

  lemma VpReads(holder: string, credentials: seq<string>, vp: Json)
    requires vp == Obj([
      Member("@context", Texts(["https://www.w3.org/2018/credentials/v1"])),
      Member("type", Texts(["VerifiablePresentation"])),
      Member("holder", Str(DID + holder)),
      Member("verifiableCredential", Texts(credentials))])
    ensures Get(vp, "holder") == Some(Str("did:ethr:besu:" + holder))
    ensures Get(vp, "type") == Some(Arr([Str("VerifiablePresentation")]))
    ensures Get(vp, "verifiableCredential").Some? && Lists(Get(vp, "verifiableCredential").value, credentials)
  {
    LookupUnique(vp.fields, "type", 1);
    LookupUnique(vp.fields, "holder", 2);
    LookupUnique(vp.fields, "verifiableCredential", 3);
    assert Texts(["VerifiablePresentation"]).items == [Str("VerifiablePresentation")];
  }

  lemma VpMessageFacts(holder: string, credentials: seq<string>, audience: string, now: nat, nonce: string)
    ensures var m := VpMessage(holder, credentials, audience, now, nonce);
      && Printable(m) && Issuer(m) == Some(DID + holder)
      && NestedCredentials(m) == Some(Texts(credentials).items)
  {
    VpMessagePrintable(holder, credentials, audience, now, nonce);
    VpMessageIssuer(holder, credentials, audience, now, nonce);
    VpMessageNested(holder, credentials, audience, now, nonce);
  }

  function ExpectedAll(issues: seq<Issue>): seq<VcResult> {
    seq(|issues|, i requires 0 <= i < |issues| => Expected(issues[i]))
  }

  lemma IssuedAllVerify(crypto: Crypto, issues: seq<Issue>, credentials: seq<string>)
    requires |credentials| == |issues|
    requires forall i :: 0 <= i < |issues| ==> IssuedAs(crypto, issues[i], credentials[i])
    ensures VerifyVcs(crypto, Texts(credentials).items) == Some(ExpectedAll(issues))
  {
    var items := Texts(credentials).items;
    forall i | 0 <= i < |issues| ensures VerifyVc(crypto, items[i]) == Some(ExpectedAll(issues)[i]) {
      assert IssuedAs(crypto, issues[i], credentials[i]);
      IssuedVerifies(crypto, issues[i]);
    }
    VerifyVcsIff(crypto, items, ExpectedAll(issues));
  }

  /** A message signed by the holder it names is accepted at log-in, and authenticates. */
  lemma SignedMessageIsAccepted(crypto: Crypto, holder: string, message: Json, signature: string)
    requires Printable(message) && Issuer(message) == Some(DID + holder)
    requires Recovers(VerifyMessage(crypto, SigningData(message), signature), holder)
    requires VerifyRaw(crypto, SigningData(message), signature).Some?
    ensures var vp := CreateVp(crypto, holder, signature, message, SigningData(message));
      vp.Some? && Authenticate(crypto, vp.value) == Some(message)
  {
    DropPrefix(DID, holder);
    AuthenticateAssembled(crypto, message, signature);
  }

  /**
   End to end: credentials issued from the prepared messages and presented in the prepared
   presentation, each signed by its issuer or holder, give a presentation that verifies with
   that holder, a payload that says what was asked for, and one verified result per credential, in
   order, each telling its request.
   */
  lemma EndToEnd(crypto: Crypto, issues: seq<Issue>, credentials: seq<string>, holder: string,
                 audience: string, now: nat, nonce: string, signature: string)
    requires |credentials| == |issues|
    requires forall i :: 0 <= i < |issues| ==> IssuedAs(crypto, issues[i], credentials[i])
    requires var message := VpMessage(holder, credentials, audience, now, nonce);
      && Recovers(VerifyMessage(crypto, SigningData(message), signature), holder)
      && VerifyRaw(crypto, SigningData(message), signature).Some?
    ensures var message := VpMessage(holder, credentials, audience, now, nonce);
      var vp := CreateVp(crypto, holder, signature, message, SigningData(message));
      && vp.Some?
      && VerifyPresentation(crypto, vp.value)
         == Some(Presentation("did:ethr:besu:" + holder, message, ExpectedAll(issues)))
      && VpSays(message, holder, credentials, audience, now, nonce)
      && forall i :: 0 <= i < |issues| ==> Tells(issues[i], ExpectedAll(issues)[i])
  {
    VpMessageReads(holder, credentials, audience, now, nonce);
    forall i | 0 <= i < |issues| ensures Tells(issues[i], ExpectedAll(issues)[i]) {
      assert IssuedAs(crypto, issues[i], credentials[i]);
      IssuedVerifies(crypto, issues[i]);
    }
    VpMessageFacts(holder, credentials, audience, now, nonce);
    SignedMessageIsAccepted(crypto, holder, VpMessage(holder, credentials, audience, now, nonce), signature);
    IssuedAllVerify(crypto, issues, credentials);
  }

  /** A signature library under which everything is signed by one address. */
  function SignedAllBy(address: string): Crypto {
    Crypto((data: string, signature: seq<byte>) => Some(address), (data: string, signature: seq<byte>) => Some(address))
  }

  /** The premises of `EndToEnd` can be met, with a credential to present. */
  lemma EndToEndIsInhabited(holder: string, petDid: string, hash: string, audience: string, now: nat, nonce: string)
    ensures var (crypto, issue) := (SignedAllBy(holder), Identity(holder, petDid, hash, [], now, "0x"));
      var credential := AssembleJwt(MessageOf(issue), "0x");
      var data := SigningData(VpMessage(holder, [credential], audience, now, nonce));
      && IssuedAs(crypto, issue, credential)
      && Recovers(VerifyMessage(crypto, data, "0x"), holder) && VerifyRaw(crypto, data, "0x").Some?
  {
    assert IsHexBytes("0x");
  }

  /** A presentation that log-in accepts for its holder, but the issuer named did not sign. */
  lemma UnsignedVpFails(crypto: Crypto, holder: string, message: Json, named: string)
    requires Printable(message) && Issuer(message) == Some(DID + named)
    requires CreateVp(crypto, holder, "0x", message, "").Some?
    requires !Recovers(VerifyMessage(crypto, SigningData(message), "0x"), named)
    ensures VerifyPresentation(crypto, CreateVp(crypto, holder, "0x", message, "").value).None?
  {
    DropPrefix(DID, named);
    CreatedVpVerifiesIff(crypto, holder, "0x", message, "", CreateVp(crypto, holder, "0x", message, "").value);
  }

  /** A wallet that signs the bare hash: log-in stores its presentation, and it never verifies. */
  lemma BareHashVpFails(holder: string, other: string, credentials: seq<string>, audience: string, now: nat,
                        nonce: string)
    requires !SameAddress(other, holder)
    ensures var crypto := Crypto((data: string, signature: seq<byte>) => Some(other),
                                 (data: string, signature: seq<byte>) => Some(holder));
      var vp := CreateVp(crypto, holder, "0x", VpMessage(holder, credentials, audience, now, nonce), "");
      vp.Some? && VerifyPresentation(crypto, vp.value).None?
  {
    var crypto := Crypto((data: string, signature: seq<byte>) => Some(other),
                         (data: string, signature: seq<byte>) => Some(holder));
    assert IsHexBytes("0x");
    VpMessageFacts(holder, credentials, audience, now, nonce);
    UnsignedVpFails(crypto, holder, VpMessage(holder, credentials, audience, now, nonce), holder);
  }

  /** So does a message that names another issuer, even if every signature is the holder's. */
  lemma ForeignVpFails(holder: string, other: string, credentials: seq<string>, audience: string, now: nat,
                       nonce: string)
    requires !SameAddress(holder, other)
    ensures var (crypto, message) := (SignedAllBy(holder), VpMessage(other, credentials, audience, now, nonce));
      var vp := CreateVp(crypto, holder, "0x", message, "");
      vp.Some? && VerifyPresentation(crypto, vp.value).None?
  {
    assert IsHexBytes("0x");
    VpMessageFacts(other, credentials, audience, now, nonce);
    UnsignedVpFails(SignedAllBy(holder), holder, VpMessage(other, credentials, audience, now, nonce), other);
  }

  // ----- the holder that log-out-all reads -----

  /** The address in a DID under this key. */
  ghost predicate Holds(v: Json, key: string, address: string) {
    exists did :: Get(v, key) == Some(Str(did)) && DidAddress(did) == address
  }

  /**
   Log-out-all reads the second part of a token: the address of its issuer or, when no issuer is named
   or its address is empty, the address of the holder in its `vp`.
   */
  lemma HolderOfIff(jwt: string, a: string, b: string, rest: seq<string>, payload: Json, address: string)
    requires Split(jwt, ".") == [a, b] + rest && DecodeJson(b) == Some(payload)
    ensures HolderOf(jwt) == Some(address)
            <==> || (address != "" && Holds(payload, "iss", address))
                 || ((Get(payload, "iss") == None || Get(payload, "iss") == Some(Null) || Holds(payload, "iss", ""))
                     && exists vp :: Get(payload, "vp") == Some(vp) && Holds(vp, "holder", address))
  {
    assert Split(jwt, ".")[1] == b;
  }

  lemma EmptyMarkerHasNoHolder()
    ensures HolderOf("EMPTY") == None
  {
    SplitWhole("EMPTY", '.');
  }

  /** For every presentation that verifies, log-out-all reads the very holder the guard compares. */
  lemma VerifiedHolderIsRead(crypto: Crypto, jwt: string, p: Presentation)
    requires VerifyPresentation(crypto, jwt) == Some(p) && DidAddress(p.holder) != ""
    ensures HolderOf(jwt) == Some(DidAddress(p.holder))
  {
  }

  lemma DottedIsReal(jwt: string)
    requires '.' in jwt
    ensures jwt != "" && jwt != "EMPTY"
  {
    assert '.' !in "EMPTY";
  }

  lemma DotBetween(a: string, b: string, c: string)
    ensures '.' in a + "." + b + "." + c
  {
    assert (a + "." + b + "." + c)[|a|] == '.';
  }

  /** An assembled token is never the marker of a session without a presentation. */
  lemma AssembledIsReal(payload: Json, signature: string)
    ensures AssembleJwt(payload, signature) != "" && AssembleJwt(payload, signature) != "EMPTY"
  {
    DotBetween(EncodeJson(HEADER), EncodeJson(payload), Base64Encode(SignatureBytes(signature)));
    DottedIsReal(AssembleJwt(payload, signature));
  }
}
