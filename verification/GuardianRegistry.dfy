/**
 The on-chain registry of guardians on values: profiles, verification proofs, pet lists, the
 list of all guardians with its counter, and roles. A call either commits a new state or
 reverts and changes nothing.
 */
module GuardianRegistry {
  import opened Wrappers

  const ADDRESSES := 0x1_0000000000_0000000000_0000000000_0000000000
  const UINT48 := 0x1_000000_000000
  const UINT256 := ADDRESSES * 0x1_000000_000000_000000_000000

  type Address = a: int | 0 <= a < ADDRESSES

  datatype Role = Admin | Verifier | OtherRole(id: nat)

  datatype Method = NoMethod | Sms | Email | SmsAndEmail

  datatype Profile = Profile(guardian: Address, dataHash: nat, uri: string, verification: Method, level: nat,
                             registeredAt: nat, lastUpdated: nat, isActive: bool)

  datatype Proof = Proof(sms: bool, email: bool, smsAt: nat, emailAt: nat, verifier: Address)

  const NO_PROFILE := Profile(0, 0, "", NoMethod, 0, 0, 0, false)
  const NO_PROOF := Proof(false, false, 0, 0, 0)

  datatype State = State(
    guardians: map<Address, Profile>,
    proofs: map<Address, Proof>,
    pets: map<Address, seq<string>>,
    all: seq<Address>,
    total: nat,
    roles: set<(Role, Address)>)

  datatype Error =
    AlreadyRegistered | NotRegistered | InvalidVerification | AlreadyDeactivated | MissingRole(role: Role)
    | BadConfirmation

  datatype Outcome = Committed(state: State) | Reverted(error: Error)

  // ----- storage reads: a missing entry of a mapping is zero -----

  function ProfileOf(s: State, a: Address): Profile {
    if a in s.guardians then s.guardians[a] else NO_PROFILE
  }

  function ProofOf(s: State, a: Address): Proof {
    if a in s.proofs then s.proofs[a] else NO_PROOF
  }

  function PetsOf(s: State, a: Address): seq<string> {
    if a in s.pets then s.pets[a] else []
  }

  /** Everything the registry stores about one address. */
  datatype Account = Account(profile: Profile, proof: Proof, pets: seq<string>)

  const NO_ACCOUNT := Account(NO_PROFILE, NO_PROOF, [])

  function AccountOf(s: State, a: Address): Account {
    Account(ProfileOf(s, a), ProofOf(s, a), PetsOf(s, a))
  }

  predicate Registered(s: State, a: Address) {
    ProfileOf(s, a).guardian != 0
  }

  /** `uint48(block.timestamp)`. */
  function Stamp(time: nat): nat {
    time % UINT48
  }

  function LevelOf(m: Method): nat {
    match m
    case SmsAndEmail => 100
    case Email => 70
    case Sms => 60
    case NoMethod => 0
  }

  /** The method that a pair of verified channels stands for. */
  function MethodOf(proof: Proof): Method {
    if proof.sms && proof.email then SmsAndEmail else if proof.sms then Sms else Email
  }

  function Deploy(deployer: Address): State {
    State(map[], map[], map[], [], 0, {(Admin, deployer)})
  }

  // ----- the calls -----

  function RegisterGuardian(s: State, caller: Address, time: nat, dataHash: nat, uri: string, m: Method): Outcome {
    if Registered(s, caller) then Reverted(AlreadyRegistered)
    else
      var profile := Profile(caller, dataHash, uri, m, LevelOf(m), Stamp(time), Stamp(time), true);
      Committed(s.(guardians := s.guardians[caller := profile], all := s.all + [caller],
                   total := (s.total + 1) % UINT256))
  }

  function VerifyGuardian(s: State, caller: Address, time: nat, guardian: Address, sms: bool, email: bool): Outcome {
    if (Verifier, caller) !in s.roles then Reverted(MissingRole(Verifier))
    else if !Registered(s, guardian) then Reverted(NotRegistered)
    else if !sms && !email then Reverted(InvalidVerification)
    else
      var was := ProofOf(s, guardian);
      var proof := Proof(was.sms || sms, was.email || email, if sms then Stamp(time) else was.smsAt,
                         if email then Stamp(time) else was.emailAt, caller);
      var m := MethodOf(proof);
      var profile := ProfileOf(s, guardian).(verification := m, level := LevelOf(m), lastUpdated := Stamp(time));
      Committed(s.(guardians := s.guardians[guardian := profile], proofs := s.proofs[guardian := proof]))
  }

  function UpdateGuardianData(s: State, caller: Address, time: nat, dataHash: nat, uri: string): Outcome {
    if !Registered(s, caller) then Reverted(NotRegistered)
    else
      var profile := ProfileOf(s, caller).(dataHash := dataHash, uri := uri, lastUpdated := Stamp(time));
      Committed(s.(guardians := s.guardians[caller := profile]))
  }

  function Deactivated(s: State, guardian: Address, time: nat): State {
    var profile := ProfileOf(s, guardian).(isActive := false, lastUpdated := Stamp(time));
    s.(guardians := s.guardians[guardian := profile])
  }

  function DeactivateGuardian(s: State, caller: Address, time: nat): Outcome {
    if !Registered(s, caller) then Reverted(NotRegistered)
    else if !ProfileOf(s, caller).isActive then Reverted(AlreadyDeactivated)
    else Committed(Deactivated(s, caller, time))
  }

  function ForceDeactivateGuardian(s: State, caller: Address, time: nat, guardian: Address): Outcome {
    if (Admin, caller) !in s.roles then Reverted(MissingRole(Admin))
    else if !Registered(s, guardian) then Reverted(NotRegistered)
    else Committed(Deactivated(s, guardian, time))
  }

  function LinkPet(s: State, caller: Address, did: string): Outcome {
    if !Registered(s, caller) || !ProfileOf(s, caller).isActive then Reverted(NotRegistered)
    else Committed(s.(pets := s.pets[caller := PetsOf(s, caller) + [did]]))
  }

  /** The list after the first copy of `did` is overwritten by the last element and the end dropped. */
  function SwapOut(pets: seq<string>, did: string, i: nat): seq<string>
    requires i <= |pets|
    decreases |pets| - i
  {
    if i == |pets| then pets
    else if pets[i] == did then pets[i := pets[|pets| - 1]][..|pets| - 1]
    else SwapOut(pets, did, i + 1)
  }

  function UnlinkPet(s: State, caller: Address, did: string): Outcome {
    if !Registered(s, caller) then Reverted(NotRegistered)
    else Committed(s.(pets := s.pets[caller := SwapOut(PetsOf(s, caller), did, 0)]))
  }

  function Grant(s: State, caller: Address, role: Role, account: Address): Outcome {
    if (Admin, caller) !in s.roles then Reverted(MissingRole(Admin))
    else Committed(s.(roles := s.roles + {(role, account)}))
  }

  function Revoke(s: State, caller: Address, role: Role, account: Address): Outcome {
    if (Admin, caller) !in s.roles then Reverted(MissingRole(Admin))
    else Committed(s.(roles := s.roles - {(role, account)}))
  }

  function Renounce(s: State, caller: Address, role: Role, confirmation: Address): Outcome {
    if confirmation != caller then Reverted(BadConfirmation)
    else Committed(s.(roles := s.roles - {(role, caller)}))
  }

  datatype Call =
    | DoRegister(dataHash: nat, uri: string, verification: Method)
    | DoVerify(guardian: Address, sms: bool, email: bool)
    | DoUpdate(dataHash: nat, uri: string)
    | DoDeactivate
    | DoForceDeactivate(guardian: Address)
    | DoLink(did: string)
    | DoUnlink(did: string)
    | DoGrant(role: Role, account: Address)
    | DoRevoke(role: Role, account: Address)
    | DoRenounce(role: Role, confirmation: Address)

  datatype Transaction = Transaction(caller: Address, time: nat, call: Call)

  function Execute(s: State, tx: Transaction): Outcome {
    match tx.call
    case DoRegister(h, uri, m) => RegisterGuardian(s, tx.caller, tx.time, h, uri, m)
    case DoVerify(g, sms, email) => VerifyGuardian(s, tx.caller, tx.time, g, sms, email)
    case DoUpdate(h, uri) => UpdateGuardianData(s, tx.caller, tx.time, h, uri)
    case DoDeactivate => DeactivateGuardian(s, tx.caller, tx.time)
    case DoForceDeactivate(g) => ForceDeactivateGuardian(s, tx.caller, tx.time, g)
    case DoLink(did) => LinkPet(s, tx.caller, did)
    case DoUnlink(did) => UnlinkPet(s, tx.caller, did)
    case DoGrant(role, a) => Grant(s, tx.caller, role, a)
    case DoRevoke(role, a) => Revoke(s, tx.caller, role, a)
    case DoRenounce(role, a) => Renounce(s, tx.caller, role, a)
  }

  function After(s: State, outcome: Outcome): State {
    if outcome.Committed? then outcome.state else s
  }

  function Run(s: State, txs: seq<Transaction>): State
    decreases |txs|
  {
    if txs == [] then s
    else
      var before := Run(s, txs[..|txs| - 1]);
      After(before, Execute(before, txs[|txs| - 1]))
  }

  /** Nobody holds the key of the zero address. */
  predicate Signed(txs: seq<Transaction>) {
    forall i :: 0 <= i < |txs| ==> txs[i].caller != 0
  }
}
