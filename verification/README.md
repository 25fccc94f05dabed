# Verification of the DogCatPaw API gateway

This project models the stateful and the encoding logic of the gateway in Dafny and proves what
holds over all inputs and all runs. `dafny verify dfyconfig.toml` checks everything.

## What is modelled

**Credentials** (`Bytes`, `Json`, `JsonGrammar`, `Credentials`, `CredentialProofs`, `Presentations`). Pet credentials
and presentations are built, signed, assembled, taken apart and verified on concrete text: JSON is
printed and parsed, then UTF-8 encoded, then base64url encoded (section 5 of RFC 4648), and the parts
joined with dots (compact form, section 7.1 of RFC 7515). Signature recovery alone is a parameter, an
arbitrary function from text and bytes to an address. The parser is proved to read exactly the texts of the
grammar of RFC 8259. The proofs go from byte codecs up to the end-to-end
round trip and its converse: a presentation that verifies was signed by the holder it reports, and each
nested credential by its issuer.

**Sessions** (`SessionKeys`, `Sessions`, `Gateway`, `GatewayProofs`, `SessionTheorems`, `SessionVerdicts`,
`SessionRequests`, `SessionGuards`, `SessionFrames`, `OneTimeUse`, `RefreshTokens`, `RefreshBearers`,
`CacheStaleness`, `GatewayTokens`, `GatewayInstance`). One Redis map of real
key strings with deadlines, one local cache beside it, and one advancing clock in milliseconds. Log-in,
refresh, log-out, log-out-all, the challenge and three guards (of proxied requests, of WebSockets, of the
DID endpoints) are steps on that state. The main result is a refinement: in every run the guards with their
two caches answer like a plain table of sessions that verifies in full every time, exactly unless they repeat
a cached check of a presentation that another one, assessed differently, has replaced under the same token. Also
then, and without exception, a guard reports as verified only the holder and count of a presentation stored under
that token and verified in full within the hour before. When a session is
silently downgraded, what a revocation stops, what log-out-all reaches and which refresh token opens a
session follow, each as an exact condition over all runs. `SessionRequests` and `SessionGuards` say what every
request answers and leaves behind, and why each guard refuses, from the requests made before. `GatewayTokens` and `GatewayInstance` put the
credential code and the text of the gateway's own tokens into the session layer, so that statements run from
the signed credential to the guard's decision. `Services` and `Requests` are the same services as objects that change
their fields call by call, proved against the functions the theorems are about.

**Guardian registry** (`GuardianRegistry`, `GuardianRegistryProofs`, `GuardianReplay`, `RegistryContract`). The
whole contract
with the inherited role functions, 48-bit time stamps and the unchecked counter; the object with its storage
fields and the swap-and-pop loop is proved against the functions on values. `GuardianReplay` reads roles,
registration, activity, data, times and the outcome of every call off the log of transactions alone, and every run
agrees with it.

**Images** (`FileNames`, `Images`, `ImageProofs`, `ImageDelivery`, `ImageServices`). File-name normalisation, copy-then-delete
moves, the jobs that queue the next step, and runs in which attempts of many jobs interleave, fail at any
operation, and are retried.

**E-mail codes** (`EmailCodes`, `EmailService`) and **ownership history** (`PetHistory`).

## Assumptions

- Each request is one step; one process, one clock; Redis neither evicts nor loses entries. An entry is live
  while the clock is before its deadline.
- A unit of the local cache's time to live lasts between 1 and 1000 milliseconds: the library counts
  milliseconds, the comments in the source say seconds, and the proofs cover both.
- A Redis scan delivers every live matching key, in any order, in any batches, perhaps twice.
- Recovered addresses start with `0x`. The key of the gateway's own tokens is arbitrary; forged tokens are not
  modelled: a token verifies when it was signed by a step of the run.
- Upload names are fresh and hold no slash; endpoint and bucket hold no comma.
- Keccak equality of strings is equality. Nobody calls the contract from the zero address.

## Where the code and its documentation disagree

- Log-out promises that the token cannot be reused (`src/auth/auth.controller.ts:397`), log-out-all that it is
  irreversible (`src/auth/auth.controller.ts:472`). The DID guard
  (`src/auth/guard/did-auth-guard.ts:18-49`), which protects the profile, log-out, e-mail, guardian, pet,
  credential and faucet endpoints, never reads the block list: it serves a revoked token until the JWT expires.
  `SessionTheorems.RevokedIsAcceptedIff`, `SessionTheorems.ClosedIsAcceptedIff` and, at a real input,
  `SessionTheorems.LoggedOutTokenIsServed`.
- The documentation of log-out-all says that the user must log in again on all devices. A refresh token survives
  log-out and log-out-all and opens sessions, without a signature, for its seven days:
  `RefreshTokens.RefreshOpensIff`, `RefreshTokens.LogOutLeavesRefresh`.
- A JWT is determined by its claims and the second of issue. A refresh, or a log-in without a presentation, in the
  second of a log-in with one signs the same token and stores `EMPTY` over the presentation, so that the open
  session is accepted as unverified: `SessionTheorems.DowngradedIff`,
  `SessionTheorems.RefreshInTheSameSecondDowngrades`. A log-in in the second of a log-out answers with a blocked
  token: `SessionTheorems.ReissuedTokenIsBlocked`.
- The guard takes one session for one presentation (`src/auth/guard/spring-auth-guard.ts:16`). When a second log-in
  in the same second stores another presentation under the token, a check made in between answers for the new one
  for up to an hour and 60 units of the local cache, also if the new one does not verify:
  `SessionVerdicts.OutdatedWithinTheHour` and, at a real input, `SessionVerdicts.FailedPresentationIsServed`.
- A refresh token passes the guards as a bearer. Its log-out blocks it for a day of its seven; after that the guards
  accept it again: `RefreshBearers.RefreshBearerIsDecided`, `RefreshBearers.LoggedOutBearerReturns`.
- Log-out-all promises that all access tokens of the wallet are blocked (`src/auth/auth.controller.ts:454-466`).
  Sessions that store the marker `EMPTY`, which every refresh opens, name no holder and stay open:
  `SessionTheorems.LogOutAllMissesEmptySessions`, and the exact condition in
  `SessionTheorems.LogOutAllEndsSessionIff`.
- The mail says that a code expires after ten minutes. A wrong answer whose time-to-live reading is not positive
  renews the full ten minutes: `EmailCodes.WrongAnswerExtendsIff`, `EmailCodes.TenMinutesCanTriple`.
- A guardian's verification level starts as declared by the guardian; the first verification may lower it:
  `GuardianRegistryProofs.VerificationLowersLevelIff`, `GuardianRegistryProofs.VerificationCanLower`.
- Log-in accepts signatures over the bare hash, and over text other than the message. Such a presentation is
  stored, but does not verify later: `CredentialProofs.CreatedVpVerifiesIff`, `CredentialProofs.BareHashVpFails`.
- Verification of a presentation does not look at `nbf` and `exp`; the model has no clock there either.

## Model

| member | source | states |
|---|---|---|
| Bytes.HexRoundTrip | src/auth/auth.service.ts:320 | decoding undoes hex encoding for every byte sequence |
| Bytes.Base64RoundTrip | src/vc/vc.service.ts:128-138 | decoding undoes base64url encoding for every byte sequence |
| Bytes.Base64Alphabet | src/vc/vc.service.ts:137 | encoded text never holds the dot that separates the parts |
| Bytes.Base64IsRfc4648 | src/vc/vc.service.ts:128-138 | the encoder is base64url: each three bytes become four characters of that alphabet with the same bits, a shorter rest two or three, without padding |
| Bytes.AlphabetIs | src/vc/vc.service.ts:128-138 | the alphabet is that of the standard by code point; the two characters of the other alphabet are read as well |
| Bytes.HexEncodeAt | src/auth/auth.service.ts:320 | two lower-case digits a byte, the high half first |
| Bytes.HexDecodeReads | src/vc/vc.service.ts:134 | digits of either case are read in pairs |
| Bytes.DecodeSkips | src/auth/auth.service.ts:318-320 | reading base64url skips any other character, and stops at the padding |
| Bytes.Utf8IsRfc3629 | src/auth/auth.service.ts:319 | the bytes of a character are those of UTF-8: as many as its code point needs, with its bits |
| Bytes.StepIsWellFormed | src/auth/auth.service.ts:318-319 | a decoded character is the one its bytes spell, or the mark of an ill-formed sequence |
| Bytes.TextRoundTrip | src/auth/auth.service.ts:319 | text survives UTF-8 and base64url, whatever its characters |
| Json.JsonRoundTrip | src/auth/auth.service.ts:318-319 | parsing undoes printing for every value whose numbers are literals |
| JsonGrammar.ParseIff | src/auth/auth.service.ts:318-319 | the parser reads exactly the texts of the JSON grammar, each as the value it is a text of: strings with every escape, arrays, objects, white space |
| JsonGrammar.NumberLiteralIff | src/auth/auth.service.ts:318-319 | the numbers are those of the grammar: a sign, no leading zero, a fraction, an exponent |
| Json.PrintedCharacters | src/auth/auth.service.ts:122 | each character is printed as JSON.stringify prints it, escapes included |
| Json.SpreadReads | src/vc/vc.service.ts:46-56 | a spread reads as the last binding of what is spread in, and as the base where that binds nothing |
| Json.FindIff | src/auth/auth.service.ts:319 | a member reads as the last binding of its key, and only then as anything |
| Json.DecimalSpells | src/vc/vc.service.ts:43-44 | a number is printed with the digits that spell it |
| Did.SameAddressIff | src/auth/auth.service.ts:74 | two addresses count as the same exactly when they differ, if at all, in the case of ASCII letters |
| Did.DidAddressReads | src/auth/auth.service.ts:327 | the DID of an address gives the address, and a text without the prefix itself |
| Text.DropFirstRemoves | src/auth/services/token.service.ts:63 | replace takes away the first occurrence, wherever it is, and nothing else |
| Text.TrimIsMiddle | src/spring/spring.proxy.service.ts:202 | trimming takes white space from both ends, all of it, and nothing else |
| Text.JoinUndoesSplit | src/auth/auth.service.ts:313-324 | the pieces of a split give the text back, for every separator |
| Text.SplitUndoesJoin | src/spring/spring.proxy.service.ts:225 | a joined list splits back when no element holds the separator |
| CredentialProofs.AssembledParts | src/auth/auth.service.ts:290-304 | an assembled token splits into exactly three parts, also when the payload holds other tokens, and each part decodes to what was encoded |
| CredentialProofs.AuthenticateAssembled | src/auth/auth.service.ts:310-334 | an assembled token authenticates to its payload exactly when the issuer it names signed it |
| CredentialProofs.AuthenticateIff | src/auth/auth.service.ts:312-334 | any text authenticates exactly when it is three parts whose first two are signed by the issuer in the payload |
| CredentialProofs.VerifyVcsIff | src/auth/auth.service.ts:339-388 | the nested check succeeds exactly when every credential verifies, and keeps their order |
| CredentialProofs.VerifyVcIff | src/auth/auth.service.ts:339-375 | a nested credential verifies exactly when its issuer signed it, and is reported with the content and subject it holds |
| CredentialProofs.NestedIff | src/auth/auth.service.ts:340 | what counts as the list of nested credentials: an array, or nothing where there is nothing truthy |
| CredentialProofs.VerifiedMeansSigned | src/auth/auth.service.ts:310-404 | a presentation verifies exactly when its holder signed it and every nested credential, in order, is signed by its issuer; each is reported as it reads |
| CredentialProofs.CreateVpIff | src/auth/auth.service.ts:143-285 | a presentation is accepted exactly when both recoveries give an address and one gives the holder, over the text sent back or else the message |
| Credentials.HexBytesIff | src/auth/auth.service.ts:320-326 | what counts as a signature: 0x in either case and pairs of hex digits of either case |
| CredentialProofs.CreateVcIff | src/vc/vc.service.ts:78-123 | a credential is created exactly when its guardian signed the message |
| CredentialProofs.CreateTransferVcIff | src/vc/vc.service.ts:212-258 | a transfer credential exactly when the new guardian signed the text sent back |
| CredentialProofs.CreatedVpVerifiesIff | src/auth/auth.service.ts:143-285 | a presentation accepted at log-in verifies later exactly when the prefixed signature covers the assembled message, its issuer signed and all nested credentials verify |
| CredentialProofs.BareHashVpFails | src/auth/auth.service.ts:152-285 | at a real input: the presentation of a wallet that signs the bare hash is stored and does not verify |
| CredentialProofs.CreatedVcVerifiesIff | src/vc/vc.service.ts:78-123 | a created credential verifies exactly when the message names its signer |
| CredentialProofs.CreatedTransferVerifiesIff | src/vc/vc.service.ts:212-258 | a created transfer credential verifies exactly when the issuer signed the assembled message, not just the text sent back |
| CredentialProofs.IssuedVerifies | src/vc/vc.service.ts:27-257 | a credential issued from a prepared message verifies with its issuer and pet; its subject reads, key by key, as the pet data or else as the request says, and its kind and dates are those of the request |
| CredentialProofs.MessageReads | src/vc/vc.service.ts:36-196 | the prepared message of either kind says the guardians, the pet, the hash, the date and a year of validity |
| CredentialProofs.VpMessageReads | src/auth/auth.service.ts:91-138 | the prepared presentation says its holder, audience, nonce, hour of validity and credentials |
| CredentialProofs.EndToEnd | src/auth/auth.service.ts:91-404 | credentials issued and presented as prepared, each signed by its issuer or holder, verify with that holder, a payload that says what was asked for, and one result per credential in order, each telling its request |
| CredentialProofs.EndToEndIsInhabited | src/auth/auth.service.ts:91-404 | the premises of the end-to-end theorem can be met, with a credential to present |
| CredentialProofs.VerifiedHolderIsRead | src/auth/services/token.service.ts:51-59 | log-out-all reads from every verified presentation the holder that the guard compares |
| CredentialProofs.EmptyMarkerHasNoHolder | src/auth/services/token.service.ts:47-59 | the marker of a session without presentation names no holder |
| CredentialProofs.HolderOfIff | src/auth/services/token.service.ts:51-59 | the holder read from a stored text is the issuer, or where none is named the holder in its presentation |
| CredentialProofs.CreatedVpIsReadBack | src/auth/auth.service.ts:152-304 | what log-in stores is signed by the holder, with the prefix or over the bare hash; it gives back message and signature as sent; and log-out-all reads from it the issuer the message names, whoever signed |
| SessionKeys.KeysStayApart | src/auth/services/token.service.ts:20-208 | every key string can be read back to the entry it stands for, once holders start with 0x |
| SessionKeys.HolderKeyCollides | src/auth/auth.service.ts:271-275 | without that condition a holder key is a session key exactly when the holder spells one |
| Sessions.OtherFamilyView | src/auth/auth.service.ts:46-50 | writes to any other key family leave the entries of every token alone |
| Sessions.GetVpReads | src/auth/services/token.service.ts:93-112 | the local copy, or else what Redis holds, copied for 60 local units |
| Sessions.GetVerificationReads | src/auth/services/token.service.ts:177-201 | the same for verifications |
| CacheStaleness.BoundedStaleness | src/auth/services/token.service.ts:79-121 | over all interleavings of set, get, delete and time: exact up to the Redis deadline of the last set, at most 60 local units stale after it, nothing after a delete |
| GatewayProofs.CheckOnSession | src/auth/guard/spring-auth-guard.ts:52-120 | on a live session the cached check answers as the last full verification of the session while that is cached, else as full verification of what is stored, and leaves both caches equal to the last one |
| GatewayProofs.BlockReachesExpiry | src/auth/services/token.service.ts:19-24 | a block of one day, placed at any time after issue, lasts until the access token has expired |
| GatewayProofs.LogOutView | src/auth/auth.controller.ts:427-441 | log-out leaves exactly the block entry of that token and touches no other token |
| GatewayProofs.CloseNamedIsExact | src/auth/services/token.service.ts:39-74 | the scan closes a token exactly when its presentation names the address, whatever order and repetition of keys |
| GatewayProofs.LogInKeepsInv | src/auth/auth.controller.ts:155-263 | every outcome of log-in keeps caches, deadlines and block list in step with the session table |
| GatewayProofs.RefreshSessionKeepsInv | src/auth/auth.controller.ts:554-624 | so does refresh |
| GatewayProofs.LogOutKeepsInv | src/auth/auth.controller.ts:427-441 | so does log-out, which revokes the session in the table |
| GatewayProofs.LogOutAllKeepsInv | src/auth/auth.controller.ts:492-502 | so does log-out-all, which revokes in the table exactly the sessions that name the address |
| GatewayProofs.GuardKeepsInv | src/auth/guard/spring-auth-guard.ts:28-122 | so does each guard, with the verification it makes |
| GatewayProofs.RunKeepsInv | src/auth/services/token.service.ts:19-211 | after every run each cached verification is that of the last check of its session, made for a text stored under its token, and ends with its hour and 60 local units; presentations, deadlines and blocks are in step with the table |
| GatewayProofs.CachesAreTransparent | src/chat/adapter/ws-auth.adapter.ts:38-152 | after every run, also with tokens signed twice, each of the three guards grants the user, verification state, holder and count of the table that verifies in full, exactly when the last check of the session, if still cached, was not made for a presentation assessed differently from the one stored; it never was while one presentation only was stored |
| GatewayProofs.GuardOnToken | src/auth/guard/did-auth-guard.ts:18-49 | the same for any state that keeps the invariant, bearer by bearer |
| SessionGuards.AssessIff | src/auth/guard/spring-auth-guard.ts:52-90 | full verification accepts exactly a text that verifies with a holder whose address is that of the token, but for case |
| SessionGuards.GuardIsDecided | src/auth/guard/spring-auth-guard.ts:28-120 | each guard refuses a missing, blocked, unknown or expired bearer, in this order and with this reason, and otherwise lets in the user its claims name |
| SessionGuards.SessionIsAsOpened | src/auth/auth.service.ts:440-457 | in every run a session is reported with the wallet, role and count it was opened with, only in its first 24 hours, and by the DID guard in all of them |
| SessionVerdicts.VerdictIsEarned | src/auth/guard/spring-auth-guard.ts:49-110 | in every run, without exception, a bearer accepted as verified is reported with the holder and count that full verification gives for a presentation stored under that token, made by this request or by a guard less than an hour and 60 local units before |
| SessionVerdicts.OutdatedWithinTheHour | src/auth/services/token.service.ts:140-201 | in every run an outdated answer repeats the check of another text stored under the token and stops an hour and at most 60 local units after it; within the hour a live session is outdated exactly when the two texts are assessed differently |
| SessionVerdicts.TableRemembers | src/auth/auth.controller.ts:215-240 | the texts of a session are exactly those its replies stored, and its check is one a guard reported |
| SessionVerdicts.FullCheckIsWritten | src/auth/guard/spring-auth-guard.ts:92-98 | a full verification is reported exactly when one is written to Redis |
| SessionVerdicts.FullCheckLeaves | src/auth/guard/spring-auth-guard.ts:92-98 | it is written with the verdict and its time, for an hour in Redis and 300 local units |
| SessionVerdicts.ReplacedVerdictIsServed | src/auth/auth.controller.ts:204-240 | in any reachable state, a log-in that stores a presentation assessed differently under a token checked within the hour is answered by the old verdict |
| SessionVerdicts.FailedPresentationIsServed | src/auth/auth.controller.ts:204-240 | a run of one second: log-in, socket connection, second log-in whose presentation fails; the guards still accept as verified where full verification refuses |
| SessionTheorems.SessionContinues | src/auth/auth.service.ts:446-457 | a session keeps its claims for good, also when its token is signed again, and stays revoked once revoked |
| SessionTheorems.DowngradedIff | src/auth/guard/spring-auth-guard.ts:111-119 | in every run a session opened with a presentation is later accepted as unverified exactly when its token is unexpired, unblocked, and was signed again with the marker of none stored last; otherwise its entry is live in Redis, or the token expired or blocked |
| SessionTheorems.SameSecondRefreshDowngrades | src/auth/auth.controller.ts:606-617 | in any reachable state a refresh that signs the claims of an open session again makes both checking guards accept it as unverified |
| SessionTheorems.RefreshInTheSameSecondDowngrades | src/auth/auth.controller.ts:204-240 | the shortest such run: challenge, log-in with a presentation, refresh, in one second |
| SessionTheorems.RevokedIsAcceptedIff | src/auth/guard/did-auth-guard.ts:18-49 | in every run a revoked session is accepted exactly by the DID guard, exactly until its JWT expires, and never again by the two guards that read the block list |
| SessionTheorems.ClosedIsAcceptedIff | src/auth/auth.controller.ts:432-434 | the same from the step that logs the token out, or logs out all sessions its presentation names, to any later point |
| SessionTheorems.LoggedOutTokenIsServed | src/auth/auth.controller.ts:385-441 | right after its log-out a token is blocked, refused by two guards, accepted by the DID guard, and can log out all |
| SessionTheorems.BlockCoversTokenIff | src/auth/services/token.service.ts:19-24 | a block outlives a token exactly when the token lives no longer than the block: not so for refresh tokens |
| RefreshBearers.RefreshBearerIsDecided | src/auth/middleware/web3-auth.middleware.ts:40-58 | in every run a refresh token used as a bearer is refused, where blocks are read, for exactly one day from its last log-out, and is otherwise a user without presentation until it expires |
| RefreshBearers.LoggedOutBearerReturns | src/auth/auth.controller.ts:427-441 | at a real input: refused right after its log-out, accepted a day later |
| SessionTheorems.LogOutAllIsExact | src/auth/services/token.service.ts:59-66 | a token that names the bearer's address, without regard to case, is blocked and its presentation gone from both levels; every other token's entries are unchanged |
| SessionTheorems.LogOutAllFrame | src/auth/services/token.service.ts:39-74 | the scan changes no entry outside the block list and the presentations |
| SessionTheorems.LogOutAllEndsSessionIff | src/auth/auth.controller.ts:492-502 | log-out-all ends a live session exactly when its stored presentation names the address |
| SessionTheorems.LogOutAllMissesEmptySessions | src/auth/auth.controller.ts:454-466 | a session without presentation is still accepted after the log-out-all of its own address |
| SessionTheorems.SignedLogInRunIsLegal | src/auth/auth.controller.ts:155-263 | the premises on runs can be met: a challenge and a signed log-in open a session with its presentation |
| SessionTheorems.ReissueIsExactIff | src/auth/auth.service.ts:446-457 | under a token signed before, the cached check is right for what is stored now exactly when that is the marker of none or no different verification is cached |
| SessionTheorems.ReissuedTokenIsBlocked | src/auth/auth.service.ts:446-457 | a log-in that signs a revoked token again answers with a token that only the DID guard accepts |
| OneTimeUse.SignaturesNeverExceedChallenges | src/auth/auth.service.ts:42-86 | in every run accepted signatures of a wallet never exceed the challenges issued to it |
| OneTimeUse.AcceptedSignatureIsFresh | src/auth/auth.service.ts:42-86 | in every run a signature is accepted exactly when it is over the last challenge sent to the wallet, not used up since, less than five minutes old, and recovers to that address but for case |
| SessionRequests.LogInIsDecided | src/auth/auth.controller.ts:155-263 | in every run a log-in is denied and changes nothing unless the wallet signed its open challenge, stops when the credential service fails, and otherwise opens a session with the answers of that service (one without anything stored, and an error to the client, when its presentation is refused) |
| SessionRequests.LogInOpensIff | src/auth/auth.controller.ts:211-240 | a session with something stored is opened exactly when, besides, the presentation was accepted or none was due; without one the marker is stored |
| SessionRequests.LogInLeaves | src/auth/auth.controller.ts:204-243 | it leaves its tokens, its presentation and its holder entry for their times, and a refresh token that validates |
| SessionRequests.LogInIsServed | src/auth/guard/spring-auth-guard.ts:111-119 | after a log-in without presentation every guard accepts the session, unless its very token was revoked |
| SessionRequests.ValidateRefreshIff | src/auth/auth.service.ts:523-546 | a refresh token is valid exactly when it is signed as one, in its seven days, and stored live for its address |
| SessionRequests.RefreshIsDecided | src/auth/auth.controller.ts:554-624 | in every run a refresh opens an unverified session with the answers given now exactly for the current refresh token, which stays valid; otherwise it is denied and changes nothing |
| SessionRequests.LogOutIsDecided | src/auth/auth.controller.ts:427-441 | in every run an unexpired bearer is blocked for a day and loses its entries, and no other is or does |
| SessionRequests.LogOutAllIsDecided | src/auth/auth.controller.ts:492-502 | in every run an unexpired bearer closes exactly the tokens whose live presentation names its address, but for case |
| OneTimeUse.EverySessionIsSigned | src/auth/auth.controller.ts:155-263 | in every run each session, by log-in or refresh, belongs to a wallet whose signature was accepted by then |
| OneTimeUse.EveryBearerIsSigned | src/auth/guard/did-auth-guard.ts:18-49 | in every run a guard accepts a bearer, of either kind, only if its wallet had a signature accepted before |
| RefreshTokens.RefreshOpensIff | src/auth/auth.service.ts:500-546 | in every run, whatever log-outs it holds, a refresh opens a session for a wallet exactly when its token is the last refresh token signed for that wallet and its seven days are not over |
| RefreshTokens.LogOutLeavesRefresh | src/auth/auth.controller.ts:471-475 | a log-out and a log-out-all of any bearer leave every refresh as it was |
| GatewayTokens.SigningIsInjective | src/auth/auth.service.ts:446-518 | under every key a token is signed for one set of claims only, access or refresh: they can be read back from its text |
| GatewayTokens.TokenSays | src/auth/auth.service.ts:446-518 | a token says its claims, its kind and its 24 hours or seven days, and carries the hash of what it says |
| GatewayInstance.EnvIsValid | src/auth/auth.service.ts:310-457 | from hex recovery alone, the gateway's credential code and token text meet every premise of the session layer |
| GatewayInstance.LogOutAllEndsVerifiedSessions | src/auth/services/token.service.ts:39-74 | after a log-out-all no session of the address that verifies is accepted but by the DID guard, and there until its JWT expires |
| GatewayInstance.HonestSessionIsVerified | src/auth/guard/spring-auth-guard.ts:73-110 | a session that stores a presentation honestly made from issued credentials is accepted as verified, with its holder and count, until it expires or is revoked, exactly when no check of a presentation it replaced is repeated |
| GatewayInstance.HonestLogInIsVerified | src/auth/auth.controller.ts:155-263 | the whole run, from issued credentials over challenge and log-in to the guard, ends in a verified session |
| GatewayInstance.HonestLogInIsInhabited | src/auth/auth.service.ts:91-404 | the premises of that run can be met |
| GatewayInstance.ForeignPresentationIsFailed | src/auth/auth.service.ts:143-404 | a presentation can be stored at log-in and fail full verification, as the run with an outdated answer needs |
| Services.TokenService.BlockToken | src/auth/services/token.service.ts:19-24 | block entry for a day |
| Services.TokenService.IsTokenBlocked | src/auth/services/token.service.ts:29-33 | read from Redis alone |
| Services.TokenService.SetVpForToken | src/auth/services/token.service.ts:79-88 | both levels, two times to live |
| Services.TokenService.GetVpForToken | src/auth/services/token.service.ts:93-112 | local hit, Redis hit copied down, or none |
| Services.TokenService.DeleteVpForToken | src/auth/services/token.service.ts:117-121 | both levels |
| Services.TokenService.CacheVpVerification | src/auth/services/token.service.ts:140-161 | both levels |
| Services.TokenService.GetCachedVpVerification | src/auth/services/token.service.ts:177-201 | local hit, Redis hit copied down, or none |
| Services.TokenService.DeleteCachedVpVerification | src/auth/services/token.service.ts:207-211 | both levels |
| Services.TokenService.CloseIfHeldBy | src/auth/services/token.service.ts:45-71 | one scanned key: closes its token if its presentation names the address |
| Services.TokenService.BlockAllTokensByAddress | src/auth/services/token.service.ts:39-74 | the nested loops over the scan stream equal the fold over its keys that the theorems are about |
| Requests.AuthService.CreateChallenge | src/auth/auth.service.ts:42-53 | the step of the model |
| Requests.AuthService.VerifySignature | src/auth/auth.service.ts:58-86 | the step of the model: the challenge goes on success only |
| Requests.AuthService.CreateAccessToken | src/auth/auth.service.ts:440-467 | the step of the model |
| Requests.AuthService.CreateRefreshToken | src/auth/auth.service.ts:500-518 | the step of the model |
| Requests.AuthService.ValidateRefreshToken | src/auth/auth.service.ts:523-546 | the step of the model |
| Requests.AuthService.CreateVpWithSignature | src/auth/auth.service.ts:143-285 | creates and keeps the presentation, or changes nothing |
| Requests.AuthController.Login | src/auth/auth.controller.ts:155-263 | the calls in order are the log-in step |
| Requests.LoginOfReads | src/auth/auth.controller.ts:211 | a presentation counts as sent with a signature and a message, and as created when it is accepted for the wallet |
| Requests.AuthController.Refresh | src/auth/auth.controller.ts:554-624 | the refresh step |
| Requests.AuthController.Logout | src/auth/auth.controller.ts:427-441 | the log-out step |
| Requests.AuthController.LogoutAll | src/auth/auth.controller.ts:492-502 | the log-out-all step |
| Requests.CheckStored | src/chat/chat.gateway.ts:95-158 | the check repeated in three places is the one of the model |
| Requests.SpringAuthGuard.Handle | src/auth/middleware/web3-auth.middleware.ts:30-58 | middleware and guard are the HTTP step |
| Requests.SpringAuthGuard.CanActivate | src/auth/guard/spring-auth-guard.ts:28-122 | the guard alone, for any user on the request |
| Requests.DidAuthGuard.Handle | src/auth/guard/did-auth-guard.ts:18-49 | middleware and guard are the DID step |
| Requests.SocketAuth.Connect | src/chat/adapter/ws-auth.adapter.ts:38-152 | the socket step |
| GuardianRegistryProofs.SwapOutRemovesOne | src/abis/gudianRegistry.sol:256-266 | swap with last and pop removes exactly one copy if there is one, whichever position it has |
| GuardianRegistryProofs.SwapOutKeepsPlaces | src/abis/gudianRegistry.sol:256-266 | the last pet takes the place of the first copy and every other pet keeps its own |
| GuardianRegistryProofs.PetsFollowLedger | src/abis/gudianRegistry.sol:238-267 | in every run the multiset of a guardian's pets equals a ledger in which only its own committed links and unlinks count |
| GuardianRegistryProofs.AccountsAreOk | src/abis/gudianRegistry.sol:161-199 | in every run an unregistered address has nothing, the level is that of the method, and the method of a verified guardian is the join of its flags |
| GuardianRegistryProofs.NothingIsUndone | src/abis/gudianRegistry.sol:122-267 | from any point to the end of a run: registration and flags stay, the level of a verified guardian never falls, an inactive guardian stays inactive and its pets only shrink |
| GuardianRegistryProofs.DeactivationIsTerminal | src/abis/gudianRegistry.sol:223-246 | once inactive, every later registration, link or deactivation by that address reverts |
| GuardianReplay.ActivityIsRead | src/abis/gudianRegistry.sol:223-232 | in every run a registered guardian is inactive exactly when, after its registration, it deactivated itself or an admin forced it |
| GuardianReplay.CallsAreDecided | src/abis/gudianRegistry.sol:122-416 | in every run each call commits exactly when the log before it allows it, by role, registration and activity, and otherwise reverts with its error |
| GuardianReplay.RolesAreRead | src/abis/gudianRegistry.sol:383-399 | roles change only by an admin, or by renouncing |
| GuardianReplay.AccountsAreRead | src/abis/gudianRegistry.sol:122-232 | in every run every field of a profile and of its proof is what the log of transactions adds up to |
| GuardianReplay.DeactivatedForGood | src/abis/gudianRegistry.sol:228-412 | after a step that deactivates a guardian, its every registration, link and deactivation reverts |
| GuardianRegistryProofs.VerificationLowersLevelIff | src/abis/gudianRegistry.sol:183-196 | a verification lowers the level exactly when it is the first and confirms less than was declared |
| GuardianRegistryProofs.VerificationCanLower | src/abis/gudianRegistry.sol:122-199 | at a real input: declared with both channels and verified by SMS, a guardian falls from 100 to 60 |
| GuardianRegistryProofs.FlagsComeFromVerifiers | src/abis/gudianRegistry.sol:161-181 | a channel counts as verified exactly when a holder of the verifier role verified it at some step |
| GuardianRegistryProofs.TimestampsAreOrdered | src/abis/gudianRegistry.sol:134-196 | with block times in order and below 2^48, registration is no later than each verification, and that no later than the last update |
| GuardianRegistryProofs.DistinctBounded | src/abis/gudianRegistry.sol:145-149 | pigeonhole over 160-bit addresses: why the unchecked increment never wraps |
| GuardianRegistryProofs.RegistryIsConsistent | src/abis/gudianRegistry.sol:122-152 | in every run the list has no duplicates, holds exactly the registered addresses, and the counter equals its length |
| RegistryContract.Registry.RegisterGuardian | src/abis/gudianRegistry.sol:122-152 | the call of the model |
| GuardianRegistryProofs.LevelTellsChannels | src/abis/gudianRegistry.sol:366-375 | a level is at most 100, rises with every channel added and tells the method; the method stands for exactly the flagged channels |
| RegistryContract.Registry.VerifyGuardian | src/abis/gudianRegistry.sol:161-199 | the call of the model |
| RegistryContract.Registry.UpdateGuardianData | src/abis/gudianRegistry.sol:206-218 | the call of the model |
| RegistryContract.Registry.DeactivateGuardian | src/abis/gudianRegistry.sol:223-232 | the call of the model |
| RegistryContract.Registry.LinkPet | src/abis/gudianRegistry.sol:238-246 | the call of the model |
| RegistryContract.Registry.UnlinkPet | src/abis/gudianRegistry.sol:252-267 | the search loop with swap and pop performs the call of the model |
| RegistryContract.Registry.GrantRole | src/abis/gudianRegistry.sol:383-388 | the call of the model |
| RegistryContract.Registry.RevokeRole | src/abis/gudianRegistry.sol:394-399 | the call of the model |
| RegistryContract.Registry.ForceDeactivateGuardian | src/abis/gudianRegistry.sol:405-416 | the call of the model |
| FileNames.NormalizeFileName | src/common/common.service.ts:48-65 | the three stages give the text after the last slash, for every file name and every bucket name |
| FileNames.NormalFormIsStable | src/common/common.service.ts:48-65 | normalising is idempotent, also below any directory |
| FileNames.NamesLackComma | src/spring/spring.proxy.service.ts:202 | the names in a request's list hold no comma |
| FileNames.NamesAreThePieces | src/spring/spring.proxy.service.ts:202 | the names are all pieces between commas that are not blank, trimmed, in order |
| ImageProofs.NoFileIsLost | src/common/common.service.ts:67-143 | in every run with failures and retries every uploaded file is somewhere under its name, with the bytes uploaded |
| ImageProofs.SentUrlsExist | src/spring/image-move.processor.ts:97-151 | every URL ever sent on names an object of permanent storage, in every reachable state |
| ImageProofs.ControllersQueuePlainNames | src/pet/pet.controller.ts:728-735 | the controllers queue only names without slash and comma, whatever the client sent |
| ImageProofs.UrlNamesStoredKeyIff | src/spring/image-move.processor.ts:116-117 | the key in a job's URL is the key stored exactly when the name in the job holds no slash |
| ImageProofs.PostedListSplitsBack | src/spring/spring.proxy.service.ts:201-226 | the list sent splits back into one URL per non-blank name, in order, each naming the stored key |
| ImageProofs.MovesCompleteIff | src/spring/image-move.processor.ts:115-120 | a batch of moves completes exactly when no file is named twice and each is still in temporary storage |
| ImageProofs.JobCompletesIff | src/spring/image-move.processor.ts:97-151 | a job that is not cut off completes exactly when it names no file twice and all its files, the nose print included, are still in temporary storage |
| ImageDelivery.JobDelivers | src/spring/image-move.processor.ts:97-209 | a job that completes moved each file with its bytes to its directory, touched nothing else, and sent one message with its data and the addresses, to the queue of its role or the endpoint of its kind |
| ImageProofs.RetryCompletesIff | src/spring/image-move.processor.ts:147-150 | a retry completes exactly when the whole job would have at once and the first attempt was cut off no later than after its first copy |
| ImageProofs.AttemptIsRun | src/spring/image-move.processor.ts:97-151 | what a handler leaves behind when cut off is reached by a run of the model |
| ImageServices.CommonService.SaveToPermanentStorage | src/common/common.service.ts:67-248 | copies, then deletes, and stops at the first failure |
| ImageServices.ImageMoveProcessor.HandlePetImageMove | src/spring/image-move.processor.ts:97-151 | however many operations succeed, leaves exactly what that many operations of the job perform |
| ImageServices.ImageMoveProcessor.HandleGuardianImageMove | src/spring/image-move.processor.ts:158-209 | likewise for the guardian's image, with the queue its role picks |
| ImageServices.SpringProxyService.MoveImages | src/spring/spring.proxy.service.ts:205-222 | the image loop, with its inlined normaliser, stores and names the same keys |
| ImageServices.SpringProxyService.PostWithImages | src/spring/spring.proxy.service.ts:196-447 | each of the five posts leaves exactly what its operations perform by then, and sends its body, its image list replaced, to its endpoint |
| EmailCodes.GuessesAreBounded | src/email/email.service.ts:85-133 | in every run at most three wrong codes are compared after each send, and accepted codes never exceed codes sent |
| EmailCodes.CheckIsDecided | src/email/email.service.ts:85-133 | in every run the answer to a check: missing once accepted, discarded or past its deadline, discarded after three wrong answers, else confirmed or the tries left |
| EmailCodes.RightCodeIsConfirmed | src/email/email.service.ts:124-132 | the right code is confirmed at any time in its ten minutes |
| EmailCodes.AcceptanceIsEarned | src/email/email.service.ts:85-133 | a check is accepted only with the last code sent, before three wrong ones, and within 1800 seconds for any readings up to 600 |
| EmailCodes.AcceptanceIsTimely | src/email/email.service.ts:19-30 | with positive readings that are right up to rounding, acceptance is within 600 seconds and two roundings |
| EmailCodes.WrongAnswerExtendsIff | src/email/email.service.ts:112-116 | a wrong answer extends the life of the code exactly when the reading is not positive or too large |
| EmailCodes.TenMinutesCanTriple | src/email/email.service.ts:116 | a run in which a code is accepted almost thirty minutes after it was sent |
| EmailService.EmailService.SendVerificationCode | src/email/email.service.ts:19-30 | stores a fresh record for ten minutes |
| EmailService.EmailService.VerifyCode | src/email/email.service.ts:85-133 | answers and rewrites or deletes the record as the step of the runs |
| PetHistory.SortIsStable | src/pet/pet.service.ts:572 | the sort is a sorted permutation that keeps entries of one time in order |
| PetHistory.StableSortIsUnique | src/pet/pet.service.ts:572 | every stable sort gives this list, whatever its algorithm |
| PetHistory.SortKeepsOrderIff | src/pet/pet.service.ts:572 | the sort changes nothing exactly when the times already run forward |
| PetHistory.HistoryIsReplay | src/pet/pet.service.ts:500-574 | for every linked log in time order: one entry per event in order, of its kind, with the controllers before and after it, the current controller of the replay and of the last entry, and the number of transfers |
| PetHistory.ReportIsStableSort | src/pet/pet.service.ts:500-574 | for any events: the entries of the first creation and of all changes, stably sorted by time; the current controller is read before the sort |
| PetHistory.GetPetControllerHistory | src/pet/pet.service.ts:500-574 | the loop builds the report that the replay theorem is about |

## Left out

- GatewayProofs.CachesAreTransparent: excludes refresh tokens used as bearers, for which `RefreshBearers.RefreshBearerIsDecided` states the exact decision.
- ImageServices.SpringProxyService.PostWithImages: one method stands for the five post methods; field values of a body are text, and query parameters and headers of the call are not modelled.
- Requests.CheckStored: one method stands for the three copies of the check.
- Requests.DidAuthGuard.Handle: the wallet address is the one the middleware takes from the JWT, so the comparison with it never fails.
- Open sockets: only the connection is checked. Every later message is served for the user of the connection (`src/chat/chat.gateway.ts:235-347`), whom no log-out, log-out-all or expiry disconnects; connections are not part of the state.
- Interleavings inside one request (get then delete, get then write): the code takes no lock, each request is one step here.
- Redis values of records are kept as records; that their JSON text reads back is `Json.JsonRoundTrip`.
- JSON: object members keep their order and repetition, numbers keep their literal; integer-like keys first, undefined members and rounding of numbers are not modelled. A surrogate escape without its pair is accepted but reads as U+FFFD.
- `toLowerCase` acts on ASCII letters only.
- The bearer header is taken as the token; public routes, the development bypass and the Web3Token fallback are not modelled.
- Recovery methods 3 and 4 of presentation signing are taken to give what method 1 gives.
- Secp256k1, Keccak, JWT signing, Redis and S3 themselves; the answers of the credential service, random codes and nonces are inputs.
- `validateAccessToken`, `revokeTokens` and `verifyCredential`: no caller shown relies on them for a decision modelled here.
- The feature vector and image upload URLs of the common service; the chat messages of the gateway.
- The VC server, the gRPC and HTTP proxies, the adoption transfer record, error-code tables, and the pet and shelter contracts, of which only interfaces are present.
- Events and view functions of the contract; role administration uses the default admin role of OpenZeppelin AccessControl, whose own source is not part of this model.
- The reentrancy guard: the contract makes no external calls.
