/**
 Credentials (VC) and presentations (VP) as the gateway builds, signs and verifies them:
 `base64url(header) . base64url(payload) . base64url(signature)`, with the credentials
 nested as strings in the payload of the presentation.
 */
module Credentials {
  import opened Bytes
  import opened Did
  import opened Json
  import opened Text
  import opened Wrappers

  /**
   Public-key recovery: the address that signed a text under the EIP-191 prefix, and the
   address that signed its bare hash. `None` stands for the library's exception.
   */
  datatype Crypto = Crypto(
    recover: (string, seq<byte>) -> Option<string>,
    recoverRaw: (string, seq<byte>) -> Option<string>)

  const HEADER := Obj([Member("alg", Str("ES256K-R")), Member("typ", Str("JWT"))])

  // ----- signatures as text -----

  /** `0x` in either case and an even number of hex digits: what the signature library takes as bytes. */
  predicate IsHexBytes(s: string) {
    && |s| >= 2 && s[0] == '0' && (s[1] == 'x' || s[1] == 'X')
    && |s| % 2 == 0 && forall c :: c in s[2..] ==> HexValue(c) >= 0
  }

  /** The form of a signature, by code point: a zero, an x of either case, and pairs of hex digits of either case. */
  lemma HexBytesIff(s: string)
    ensures IsHexBytes(s)
            <==> && |s| >= 2 && |s| % 2 == 0 && s[0] as int == 48 && s[1] as int in {88, 120}
                 && forall i :: 2 <= i < |s| ==>
                      48 <= s[i] as int <= 57 || 65 <= s[i] as int <= 70 || 97 <= s[i] as int <= 102
  {
    if |s| >= 2 {
      forall i | 2 <= i < |s| ensures s[i] in s[2..] {
        assert s[2..][i - 2] == s[i];
      }
      forall c | c in s[2..] ensures exists i :: 2 <= i < |s| && s[i] == c {
        var k :| 0 <= k < |s[2..]| && s[2..][k] == c;
        assert s[k + 2] == c;
      }
    }
  }

  /** `signature.slice(2)` read as hex. */
  function SignatureBytes(signature: string): seq<byte> {
    if |signature| < 2 then [] else HexDecode(signature[2..])
  }

  function VerifyMessage(crypto: Crypto, data: string, signature: string): Option<string> {
    if IsHexBytes(signature) then crypto.recover(data, SignatureBytes(signature)) else None
  }

  function VerifyRaw(crypto: Crypto, data: string, signature: string): Option<string> {
    if IsHexBytes(signature) then crypto.recoverRaw(data, SignatureBytes(signature)) else None
  }

  predicate Recovers(recovered: Option<string>, address: string) {
    recovered.Some? && SameAddress(recovered.value, address)
  }

  lemma HexEncodeIsHex(bytes: seq<byte>)
    ensures IsHexBytes("0x" + HexEncode(bytes))
    ensures SignatureBytes("0x" + HexEncode(bytes)) == bytes
  {
    HexEncodeDigits(bytes);
    HexRoundTrip(bytes);
    assert ("0x" + HexEncode(bytes))[2..] == HexEncode(bytes);
  }

  lemma {:induction false} HexEncodeDigits(bytes: seq<byte>)
    ensures |HexEncode(bytes)| == 2 * |bytes|
    ensures forall c :: c in HexEncode(bytes) ==> HexValue(c) >= 0
  {
    if bytes == [] {
    } else {
      HexDigitValue(bytes[0] / 16);
      HexDigitValue(bytes[0] % 16);
      HexEncodeDigits(bytes[1..]);
    }
  }

  // ----- building -----

  function EncodeJson(v: Json): string {
    EncodeText(Print(v))
  }

  function DecodeJson(s: string): Option<Json> {
    Parse(DecodeText(s))
  }

  function SigningData(payload: Json): string {
    EncodeJson(HEADER) + "." + EncodeJson(payload)
  }

  function AssembleJwt(payload: Json, signature: string): string {
    EncodeJson(HEADER) + "." + EncodeJson(payload) + "." + Base64Encode(SignatureBytes(signature))
  }

  function Texts(items: seq<string>): Json {
    Arr(seq(|items|, i requires 0 <= i < |items| => Str(items[i])))
  }

  /** The payload shared by both kinds of pet credential, issued by `issuer`. */
  function PetPayload(issuer: string, petDid: string, now: nat, kind: string, subject: seq<Member>): Json {
    Obj([
      Member("iss", Str(DID + issuer)),
      Member("sub", Str(petDid)),
      Member("nbf", Num(Decimal(now))),
      Member("exp", Num(Decimal(now + 86400 * 365))),
      Member("vc", Obj([
        Member("@context", Texts(["https://www.w3.org/2018/credentials/v1"])),
        Member("type", Texts(["VerifiableCredential", kind])),
        Member("credentialSubject", Obj(subject))]))])
  }

  /** The message of `prepareVCSigning`. */
  function VcMessage(guardian: string, petDid: string, biometricHash: string,
                     petData: seq<Member>, now: nat): Json
  {
    PetPayload(guardian, petDid, now, "PetIdentityCredential",
      Spread([Member("id", Str(petDid)), Member("guardian", Str(guardian)),
              Member("biometricHash", Str(biometricHash))], petData))
  }

  /** The message of `prepareTransferVCSigning`. */
  function TransferMessage(previous: string, guardian: string, petDid: string, biometricHash: string,
                           petData: seq<Member>, now: nat, date: string): Json
  {
    PetPayload(guardian, petDid, now, "PetTransferCredential",
      Spread([Member("id", Str(petDid)), Member("guardian", Str(guardian)),
              Member("previousGuardian", Str(previous)), Member("biometricHash", Str(biometricHash)),
              Member("transferDate", Str(date))], petData))
  }

  /** The message of `prepareVPSigning`. */
  function VpMessage(holder: string, credentials: seq<string>, audience: string,
                     now: nat, nonce: string): Json
  {
    Obj([
      Member("iss", Str(DID + holder)),
      Member("aud", Str(audience)),
      Member("nbf", Num(Decimal(now))),
      Member("exp", Num(Decimal(now + 3600))),
      Member("nonce", Str(nonce)),
      Member("vp", Obj([
        Member("@context", Texts(["https://www.w3.org/2018/credentials/v1"])),
        Member("type", Texts(["VerifiablePresentation"])),
        Member("holder", Str(DID + holder)),
        Member("verifiableCredential", Texts(credentials))]))])
  }

  /** `createVCWithSignature`: the credential handed to the store, or none if refused. */
  function CreateVc(crypto: Crypto, guardian: string, signature: string, message: Json): Option<string> {
    if Recovers(VerifyMessage(crypto, SigningData(message), signature), guardian)
    then Some(AssembleJwt(message, signature)) else None
  }

  /** `createTransferVC`: the signature is checked against the text the client sent back. */
  function CreateTransferVc(crypto: Crypto, guardian: string, signature: string, message: Json,
                            signedData: string): Option<string>
  {
    if Recovers(VerifyMessage(crypto, signedData, signature), guardian)
    then Some(AssembleJwt(message, signature)) else None
  }

  /**
   `createVPWithSignature`. Of its four recovery methods two differ: the prefixed hash and
   the bare hash. Each must run without an exception before the results are compared.
   An absent or empty `signedData` is rebuilt from the message.
   */
  function CreateVp(crypto: Crypto, holder: string, signature: string, message: Json,
                    signedData: string): Option<string>
  {
    Recovered(crypto, holder, signature, if signedData != "" then signedData else SigningData(message),
              AssembleJwt(message, signature))
  }

  /** The assembled token, if one of the recovery methods gives the holder. */
  function Recovered(crypto: Crypto, holder: string, signature: string, data: string, jwt: string): Option<string> {
    var prefixed, bare := VerifyMessage(crypto, data, signature), VerifyRaw(crypto, data, signature);
    if prefixed.Some? && bare.Some? && (Recovers(prefixed, holder) || Recovers(bare, holder)) then Some(jwt) else None
  }

  // ----- verifying -----

  /** `payload.iss` when it is a string. */
  function Issuer(payload: Json): Option<string> {
    match Get(payload, "iss")
    case Some(Str(s)) => Some(s)
    case _ => None
  }

  /**
   The steps common to a presentation and a credential: three parts, header and payload
   that parse, and a signature over the first two parts that recovers to the issuer.
   */
  function Authenticate(crypto: Crypto, jwt: string): Option<Json> {
    var parts := Split(jwt, ".");
    if |parts| != 3 then None
    else
      var header :- DecodeJson(parts[0]);
      var payload :- DecodeJson(parts[1]);
      var signature := "0x" + HexEncode(Base64Decode(parts[2]));
      var recovered :- VerifyMessage(crypto, parts[0] + "." + parts[1], signature);
      var issuer :- Issuer(payload);
      if SameAddress(recovered, DidAddress(issuer)) then Some(payload) else None
  }

  datatype VcResult = VcResult(credential: Option<Json>, issuer: string, subject: Option<Json>)

  /** One entry of the `vcs` list of a verified presentation; `None` is `verified: false`. */
  function VerifyVc(crypto: Crypto, item: Json): Option<VcResult> {
    if !item.Str? then None
    else
      var payload :- Authenticate(crypto, item.text);
      var issuer :- Issuer(payload);
      Some(VcResult(Get(payload, "vc"), issuer, Get(payload, "sub")))
  }

  /** All credentials in order, or none when one of them fails. */
  function VerifyVcs(crypto: Crypto, items: seq<Json>): Option<seq<VcResult>> {
    if items == [] then Some([])
    else
      var first :- VerifyVc(crypto, items[0]);
      var rest :- VerifyVcs(crypto, items[1..]);
      Some([first] + rest)
  }

  /** A number literal whose mantissa has no non-zero digit. */
  predicate ZeroLiteral(s: string) {
    s == "" || s[0] == 'e' || s[0] == 'E' || (!('1' <= s[0] <= '9') && ZeroLiteral(s[1..]))
  }

  predicate Falsy(v: Json) {
    v == Null || v == Bool(false) || v == Str("") || (v.Num? && ZeroLiteral(v.literal))
  }

  /** `payload.vp?.verifiableCredential || []`; `None` when it is not a list. */
  function NestedCredentials(payload: Json): Option<seq<Json>> {
    match Get(payload, "vp")
    case None => Some([])
    case Some(vp) =>
      match Get(vp, "verifiableCredential")
      case None => Some([])
      case Some(Arr(items)) => Some(items)
      case Some(v) => if Falsy(v) then Some([]) else None
  }

  datatype Presentation = Presentation(holder: string, payload: Json, vcs: seq<VcResult>)

  /** `verifyPresentation`; `None` is every result with `verified: false`. */
  function VerifyPresentation(crypto: Crypto, jwt: string): Option<Presentation> {
    var payload :- Authenticate(crypto, jwt);
    var holder :- Issuer(payload);
    var items :- NestedCredentials(payload);
    var vcs :- VerifyVcs(crypto, items);
    Some(Presentation(holder, payload, vcs))
  }

  /** The address that log-out-all reads from a stored presentation; `None` when it cannot. */
  function HolderOf(jwt: string): Option<string> {
    var parts := Split(jwt, ".");
    if |parts| < 2 then None
    else
      var payload :- DecodeJson(parts[1]);
      match Get(payload, "iss")
      case Some(Str(iss)) =>
        if DidAddress(iss) != "" then Some(DidAddress(iss)) else NamedHolder(payload)
      case Some(Null) => NamedHolder(payload)
      case None => if payload == Null then None else NamedHolder(payload)
      case _ => None
  }

  /** `payload.vp?.holder?.replace('did:ethr:besu:', '')`. */
  function NamedHolder(payload: Json): Option<string> {
    match Get(payload, "vp")
    case None => None
    case Some(vp) =>
      match Get(vp, "holder")
      case Some(Str(holder)) => Some(DidAddress(holder))
      case _ => None
  }
}
