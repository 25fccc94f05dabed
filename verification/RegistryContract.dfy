/**
 The registry as the contract writes it: storage fields assigned step by step, and `unlinkPet`
 with its loop. Every external function performs its call of `GuardianRegistry`.
 */
module RegistryContract {
  import opened GuardianRegistry
  import opened Wrappers

  /** `msg.sender` and `block.timestamp`. */
  datatype Message = Message(sender: Address, timestamp: nat)

  /** The state a call leaves, and the error it reverts with. */
  function Perform(s: State, msg: Message, call: Call): (State, Option<Error>) {
    match Execute(s, Transaction(msg.sender, msg.timestamp, call))
    case Committed(s') => (s', None)
    case Reverted(e) => (s, Some(e))
  }

  class Registry {
    var guardians: map<Address, Profile>
    var proofs: map<Address, Proof>
    var pets: map<Address, seq<string>>
    var allGuardians: seq<Address>
    var totalGuardians: nat
    var roles: set<(Role, Address)>

    function Contents(): State
      reads this
    {
      State(guardians, proofs, pets, allGuardians, totalGuardians, roles)
    }

    constructor (msg: Message)
      ensures Contents() == Deploy(msg.sender)
    {
      guardians, proofs, pets, allGuardians, totalGuardians := map[], map[], map[], [], 0;
      roles := {(Admin, msg.sender)};
    }

    method RegisterGuardian(msg: Message, dataHash: nat, uri: string, verification: Method)
      returns (error: Option<Error>)
      modifies this
      ensures (Contents(), error) == Perform(old(Contents()), msg, DoRegister(dataHash, uri, verification))
    {
      if ProfileOf(Contents(), msg.sender).guardian != 0 {
        return Some(AlreadyRegistered);
      }
      var level := CalculateVerificationLevel(verification);
      var profile := Profile(msg.sender, dataHash, uri, verification, level,
                             msg.timestamp % UINT48, msg.timestamp % UINT48, true);
      guardians := guardians[msg.sender := profile];
      allGuardians := allGuardians + [msg.sender];
      totalGuardians := (totalGuardians + 1) % UINT256;
      return None;
    }

    static method CalculateVerificationLevel(verification: Method) returns (level: nat)
      ensures level == LevelOf(verification)
    {
      if verification == SmsAndEmail { return 100; }
      if verification == Email { return 70; }
      if verification == Sms { return 60; }
      return 0;
    }

    method VerifyGuardian(msg: Message, guardian: Address, sms: bool, email: bool) returns (error: Option<Error>)
      modifies this
      ensures (Contents(), error) == Perform(old(Contents()), msg, DoVerify(guardian, sms, email))
    {
      if (Verifier, msg.sender) !in roles {
        return Some(MissingRole(Verifier));
      }
      var profile := ProfileOf(Contents(), guardian);
      if profile.guardian == 0 {
        return Some(NotRegistered);
      }
      if !sms && !email {
        return Some(InvalidVerification);
      }
      var proof := ProofOf(Contents(), guardian);
      if sms {
        proof := proof.(sms := true, smsAt := msg.timestamp % UINT48);
      }
      if email {
        proof := proof.(email := true, emailAt := msg.timestamp % UINT48);
      }
      proof := proof.(verifier := msg.sender);
      var newMethod;
      if proof.sms && proof.email {
        newMethod := SmsAndEmail;
      } else if proof.sms {
        newMethod := Sms;
      } else {
        newMethod := Email;
      }
      var level := CalculateVerificationLevel(newMethod);
      profile := profile.(verification := newMethod, level := level, lastUpdated := msg.timestamp % UINT48);
      proofs := proofs[guardian := proof];
      guardians := guardians[guardian := profile];
      return None;
    }

    method UpdateGuardianData(msg: Message, dataHash: nat, uri: string) returns (error: Option<Error>)
      modifies this
      ensures (Contents(), error) == Perform(old(Contents()), msg, DoUpdate(dataHash, uri))
    {
      var profile := ProfileOf(Contents(), msg.sender);
      if profile.guardian == 0 {
        return Some(NotRegistered);
      }
      profile := profile.(dataHash := dataHash, uri := uri, lastUpdated := msg.timestamp % UINT48);
      guardians := guardians[msg.sender := profile];
      return None;
    }

    method DeactivateGuardian(msg: Message) returns (error: Option<Error>)
      modifies this
      ensures (Contents(), error) == Perform(old(Contents()), msg, DoDeactivate)
    {
      var profile := ProfileOf(Contents(), msg.sender);
      if profile.guardian == 0 {
        return Some(NotRegistered);
      }
      if !profile.isActive {
        return Some(AlreadyDeactivated);
      }
      profile := profile.(isActive := false, lastUpdated := msg.timestamp % UINT48);
      guardians := guardians[msg.sender := profile];
      return None;
    }

    method LinkPet(msg: Message, did: string) returns (error: Option<Error>)
      modifies this
      ensures (Contents(), error) == Perform(old(Contents()), msg, DoLink(did))
    {
      var profile := ProfileOf(Contents(), msg.sender);
      if profile.guardian == 0 {
        return Some(NotRegistered);
      }
      if !profile.isActive {
        return Some(NotRegistered);
      }
      pets := pets[msg.sender := PetsOf(Contents(), msg.sender) + [did]];
      return None;
    }

    method UnlinkPet(msg: Message, did: string) returns (error: Option<Error>)
      modifies this
      ensures (Contents(), error) == Perform(old(Contents()), msg, DoUnlink(did))
    {
      var profile := ProfileOf(Contents(), msg.sender);
      if profile.guardian == 0 {
        return Some(NotRegistered);
      }
      var list := PetsOf(Contents(), msg.sender);
      ghost var before := list;
      var length := |list|;
      var i := 0;
      while i < length
        invariant 0 <= i <= length && list == before && length == |list|
        invariant SwapOut(before, did, i) == SwapOut(before, did, 0)
      {
        if list[i] == did {
          list := list[i := list[length - 1]];
          list := list[..length - 1];
          break;
        }
        i := i + 1;
      }
      pets := pets[msg.sender := list];
      return None;
    }

    method GrantRole(msg: Message, role: Role, account: Address) returns (error: Option<Error>)
      modifies this
      ensures (Contents(), error) == Perform(old(Contents()), msg, DoGrant(role, account))
    {
      if (Admin, msg.sender) !in roles {
        return Some(MissingRole(Admin));
      }
      roles := roles + {(role, account)};
      return None;
    }

    method RevokeRole(msg: Message, role: Role, account: Address) returns (error: Option<Error>)
      modifies this
      ensures (Contents(), error) == Perform(old(Contents()), msg, DoRevoke(role, account))
    {
      if (Admin, msg.sender) !in roles {
        return Some(MissingRole(Admin));
      }
      roles := roles - {(role, account)};
      return None;
    }

    method RenounceRole(msg: Message, role: Role, confirmation: Address) returns (error: Option<Error>)
      modifies this
      ensures (Contents(), error) == Perform(old(Contents()), msg, DoRenounce(role, confirmation))
    {
      if confirmation != msg.sender {
        return Some(BadConfirmation);
      }
      roles := roles - {(role, msg.sender)};
      return None;
    }

    method ForceDeactivateGuardian(msg: Message, guardian: Address) returns (error: Option<Error>)
      modifies this
      ensures (Contents(), error) == Perform(old(Contents()), msg, DoForceDeactivate(guardian))
    {
      if (Admin, msg.sender) !in roles {
        return Some(MissingRole(Admin));
      }
      var profile := ProfileOf(Contents(), guardian);
      if profile.guardian == 0 {
        return Some(NotRegistered);
      }
      profile := profile.(isActive := false, lastUpdated := msg.timestamp % UINT48);
      guardians := guardians[guardian := profile];
      return None;
    }
  }
}
