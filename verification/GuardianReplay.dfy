/**
 The registry read off the transactions alone: who holds a role, who is registered and active and with
 what data, which calls commit and which error the others revert with. Every run of the contract agrees
 with it.
 */
module GuardianReplay {
  import opened GuardianRegistry
  import opened GuardianRegistryProofs
  import opened Wrappers

  // ----- the reading of a log of transactions -----

  /** The default admin role starts with the deployer; an admin gives and takes roles, anyone renounces its own. */
  predicate HasRole(deployer: Address, txs: seq<Transaction>, role: Role, a: Address)
    decreases |txs|
  {
    if txs == [] then role == Admin && a == deployer
    else
      var earlier, tx := txs[..|txs| - 1], txs[|txs| - 1];
      var held := HasRole(deployer, earlier, role, a);
      match tx.call
      case DoGrant(r, account) => held || (r == role && account == a && HasRole(deployer, earlier, Admin, tx.caller))
      case DoRevoke(r, account) => held && !(r == role && account == a && HasRole(deployer, earlier, Admin, tx.caller))
      case DoRenounce(r, confirmation) => held && !(r == role && tx.caller == a && confirmation == a)
      case _ => held
  }

  /** An address is registered once it has asked for it. */
  predicate IsRegistered(txs: seq<Transaction>, a: Address) {
    exists i :: 0 <= i < |txs| && txs[i].caller == a && txs[i].call.DoRegister?
  }

  /** The call deactivates this guardian: its own, or one of an admin that names it. */
  predicate Deactivates(deployer: Address, earlier: seq<Transaction>, tx: Transaction, a: Address) {
    || (tx.call.DoDeactivate? && tx.caller == a)
    || (tx.call.DoForceDeactivate? && tx.call.guardian == a && HasRole(deployer, earlier, Admin, tx.caller))
  }

  /** Active from its registration until the first call that deactivates it. */
  ghost predicate IsActive(deployer: Address, txs: seq<Transaction>, a: Address) {
    && IsRegistered(txs, a)
    && !WasDeactivated(deployer, txs, a)
  }

  ghost predicate WasDeactivated(deployer: Address, txs: seq<Transaction>, a: Address) {
    exists i :: DeactivatedAt(deployer, txs, i, a)
  }

  ghost predicate DeactivatedAt(deployer: Address, txs: seq<Transaction>, i: int, a: Address) {
    0 <= i < |txs| && IsRegistered(txs[..i], a) && Deactivates(deployer, txs[..i], txs[i], a)
  }

  /** The data hash and the URI of the registration or of the last update after it. */
  function DataOf(txs: seq<Transaction>, a: Address): (nat, string)
    decreases |txs|
  {
    if txs == [] then (0, "")
    else
      var earlier, tx := txs[..|txs| - 1], txs[|txs| - 1];
      if tx.caller != a then DataOf(earlier, a)
      else
        match tx.call
        case DoRegister(hash, uri, _) => if IsRegistered(earlier, a) then DataOf(earlier, a) else (hash, uri)
        case DoUpdate(hash, uri) => if IsRegistered(earlier, a) then (hash, uri) else DataOf(earlier, a)
        case _ => DataOf(earlier, a)
  }

  /** Why a call reverts after this log; `None` when it commits. */
  ghost function ErrorOf(deployer: Address, txs: seq<Transaction>, tx: Transaction): Option<Error> {
    match tx.call
    case DoRegister(_, _, _) => if IsRegistered(txs, tx.caller) then Some(AlreadyRegistered) else None
    case DoVerify(guardian, sms, email) =>
      if !HasRole(deployer, txs, Verifier, tx.caller) then Some(MissingRole(Verifier))
      else if !IsRegistered(txs, guardian) then Some(NotRegistered)
      else if sms || email then None else Some(InvalidVerification)
    case DoUpdate(_, _) => if IsRegistered(txs, tx.caller) then None else Some(NotRegistered)
    case DoDeactivate =>
      if !IsRegistered(txs, tx.caller) then Some(NotRegistered)
      else if IsActive(deployer, txs, tx.caller) then None else Some(AlreadyDeactivated)
    case DoForceDeactivate(guardian) =>
      if !HasRole(deployer, txs, Admin, tx.caller) then Some(MissingRole(Admin))
      else if IsRegistered(txs, guardian) then None else Some(NotRegistered)
    case DoLink(_) => if IsActive(deployer, txs, tx.caller) then None else Some(NotRegistered)
    case DoUnlink(_) => if IsRegistered(txs, tx.caller) then None else Some(NotRegistered)
    case DoGrant(_, _) => if HasRole(deployer, txs, Admin, tx.caller) then None else Some(MissingRole(Admin))
    case DoRevoke(_, _) => if HasRole(deployer, txs, Admin, tx.caller) then None else Some(MissingRole(Admin))
    case DoRenounce(_, confirmation) => if confirmation == tx.caller then None else Some(BadConfirmation)
  }

  // ----- the contract agrees with it -----

  lemma {:induction false} RolesAreRead(deployer: Address, txs: seq<Transaction>, role: Role, a: Address)
    ensures (role, a) in Run(Deploy(deployer), txs).roles <==> HasRole(deployer, txs, role, a)
    decreases |txs|
  {
    if txs == [] {
    } else {
      var earlier, tx := txs[..|txs| - 1], txs[|txs| - 1];
      RolesAreRead(deployer, earlier, role, a);
      RolesAreRead(deployer, earlier, Admin, tx.caller);
      StepOnRoles(Run(Deploy(deployer), earlier), tx, role, a);
    }
  }

  lemma StepOnRoles(s: State, tx: Transaction, role: Role, a: Address)
    ensures var held := (role, a) in s.roles;
      (role, a) in After(s, Execute(s, tx)).roles
      <==> match tx.call
           case DoGrant(r, account) => held || (r == role && account == a && (Admin, tx.caller) in s.roles)
           case DoRevoke(r, account) => held && !(r == role && account == a && (Admin, tx.caller) in s.roles)
           case DoRenounce(r, confirmation) => held && !(r == role && tx.caller == a && confirmation == a)
           case _ => held
  {
  }

  lemma RegisteredGrows(txs: seq<Transaction>, a: Address)
    requires txs != []
    ensures IsRegistered(txs, a)
            <==> || IsRegistered(txs[..|txs| - 1], a)
                 || (txs[|txs| - 1].call.DoRegister? && txs[|txs| - 1].caller == a)
  {
    var earlier := txs[..|txs| - 1];
    if IsRegistered(earlier, a) {
      var i :| 0 <= i < |earlier| && earlier[i].caller == a && earlier[i].call.DoRegister?;
      assert txs[i].caller == a && txs[i].call.DoRegister?;
    }
    if IsRegistered(txs, a) && !(txs[|txs| - 1].call.DoRegister? && txs[|txs| - 1].caller == a) {
      var i :| 0 <= i < |txs| && txs[i].caller == a && txs[i].call.DoRegister?;
      assert earlier[i].caller == a && earlier[i].call.DoRegister?;
    }
  }

  lemma {:induction false} RegistrationsAreRead(deployer: Address, txs: seq<Transaction>, a: Address)
    requires Signed(txs)
    ensures Registered(Run(Deploy(deployer), txs), a) <==> IsRegistered(txs, a)
    decreases |txs|
  {
    if txs == [] {
    } else {
      var earlier := txs[..|txs| - 1];
      RegistrationsAreRead(deployer, earlier, a);
      AccountsAreOk(deployer, earlier, a);
      StepOnRegistered(Run(Deploy(deployer), earlier), txs[|txs| - 1], a);
      RegisteredGrows(txs, a);
    }
  }

  lemma DeactivatedGrows(deployer: Address, txs: seq<Transaction>, a: Address)
    requires txs != []
    ensures var earlier := txs[..|txs| - 1];
      WasDeactivated(deployer, txs, a)
      <==> || WasDeactivated(deployer, earlier, a)
           || (IsRegistered(earlier, a) && Deactivates(deployer, earlier, txs[|txs| - 1], a))
  {
    var last := |txs| - 1;
    var earlier := txs[..last];
    forall i
      ensures DeactivatedAt(deployer, txs, i, a)
              <==> DeactivatedAt(deployer, earlier, i, a) || (i == last && DeactivatedAt(deployer, txs, last, a))
    {
      if 0 <= i < last {
        assert earlier[..i] == txs[..i] && earlier[i] == txs[i];
      }
    }
    if WasDeactivated(deployer, earlier, a) {
      var i :| DeactivatedAt(deployer, earlier, i, a);
      assert DeactivatedAt(deployer, txs, i, a);
    }
    if IsRegistered(earlier, a) && Deactivates(deployer, earlier, txs[last], a) {
      assert DeactivatedAt(deployer, txs, last, a);
    }
  }

  /** What one call does to the activity of a guardian. */
  lemma StepOnActivity(s: State, tx: Transaction, a: Address)
    requires AccountOk(a, AccountOf(s, a)) && tx.caller != 0
    ensures ProfileOf(After(s, Execute(s, tx)), a).isActive
            <==> if !Registered(s, a) then tx.call.DoRegister? && tx.caller == a
                 else ProfileOf(s, a).isActive && !(tx.call.DoDeactivate? && tx.caller == a)
                      && !(tx.call.DoForceDeactivate? && tx.call.guardian == a && (Admin, tx.caller) in s.roles)
  {
  }

  /** A registered guardian is inactive exactly once it was deactivated, by itself or by an admin. */
  lemma {:induction false} ActivityIsRead(deployer: Address, txs: seq<Transaction>, a: Address)
    requires Signed(txs)
    ensures ProfileOf(Run(Deploy(deployer), txs), a).isActive <==> IsActive(deployer, txs, a)
    decreases |txs|
  {
    if txs == [] {
    } else {
      var earlier, tx := txs[..|txs| - 1], txs[|txs| - 1];
      ActivityIsRead(deployer, earlier, a);
      AccountsAreOk(deployer, earlier, a);
      RegistrationsAreRead(deployer, earlier, a);
      RolesAreRead(deployer, earlier, Admin, tx.caller);
      RegisteredGrows(txs, a);
      DeactivatedGrows(deployer, txs, a);
      StepOnActivity(Run(Deploy(deployer), earlier), tx, a);
      if WasDeactivated(deployer, earlier, a) {
        DeactivatedIsRegistered(deployer, earlier, a);
      }
    }
  }

  lemma RegisteredLater(txs: seq<Transaction>, n: nat, a: Address)
    requires n <= |txs| && IsRegistered(txs[..n], a)
    ensures IsRegistered(txs, a)
  {
    var i :| 0 <= i < n && txs[..n][i].caller == a && txs[..n][i].call.DoRegister?;
    assert txs[i].caller == a && txs[i].call.DoRegister?;
  }

  lemma DeactivatedIsRegistered(deployer: Address, txs: seq<Transaction>, a: Address)
    requires WasDeactivated(deployer, txs, a)
    ensures IsRegistered(txs, a)
  {
    var i :| DeactivatedAt(deployer, txs, i, a);
    RegisteredLater(txs, i, a);
  }

  lemma StepOnData(s: State, tx: Transaction, a: Address)
    requires AccountOk(a, AccountOf(s, a)) && tx.caller != 0
    ensures var p := ProfileOf(After(s, Execute(s, tx)), a);
      (p.dataHash, p.uri)
      == if tx.caller == a && tx.call.DoRegister? && !Registered(s, a) then (tx.call.dataHash, tx.call.uri)
         else if tx.caller == a && tx.call.DoUpdate? && Registered(s, a) then (tx.call.dataHash, tx.call.uri)
         else (ProfileOf(s, a).dataHash, ProfileOf(s, a).uri)
  {
  }

  lemma {:induction false} DataIsRead(deployer: Address, txs: seq<Transaction>, a: Address)
    requires Signed(txs)
    ensures var p := ProfileOf(Run(Deploy(deployer), txs), a); (p.dataHash, p.uri) == DataOf(txs, a)
    decreases |txs|
  {
    if txs == [] {
    } else {
      var earlier := txs[..|txs| - 1];
      DataIsRead(deployer, earlier, a);
      AccountsAreOk(deployer, earlier, a);
      RegistrationsAreRead(deployer, earlier, a);
      StepOnData(Run(Deploy(deployer), earlier), txs[|txs| - 1], a);
    }
  }

  /** The error of a call by what the state says of its caller and of the guardian it names. */
  lemma ErrorByState(s: State, tx: Transaction)
    requires forall a: Address :: AccountOk(a, AccountOf(s, a))
    ensures Execute(s, tx).Committed? <==> StateError(s, tx).None?
    ensures Execute(s, tx).Reverted? ==> Some(Execute(s, tx).error) == StateError(s, tx)
  {
    assert AccountOk(tx.caller, AccountOf(s, tx.caller));
  }

  function StateError(s: State, tx: Transaction): Option<Error> {
    match tx.call
    case DoRegister(_, _, _) => if Registered(s, tx.caller) then Some(AlreadyRegistered) else None
    case DoVerify(guardian, sms, email) =>
      if (Verifier, tx.caller) !in s.roles then Some(MissingRole(Verifier))
      else if !Registered(s, guardian) then Some(NotRegistered)
      else if sms || email then None else Some(InvalidVerification)
    case DoUpdate(_, _) => if Registered(s, tx.caller) then None else Some(NotRegistered)
    case DoDeactivate =>
      if !Registered(s, tx.caller) then Some(NotRegistered)
      else if ProfileOf(s, tx.caller).isActive then None else Some(AlreadyDeactivated)
    case DoForceDeactivate(guardian) =>
      if (Admin, tx.caller) !in s.roles then Some(MissingRole(Admin))
      else if Registered(s, guardian) then None else Some(NotRegistered)
    case DoLink(_) => if ProfileOf(s, tx.caller).isActive then None else Some(NotRegistered)
    case DoUnlink(_) => if Registered(s, tx.caller) then None else Some(NotRegistered)
    case DoGrant(_, _) => if (Admin, tx.caller) in s.roles then None else Some(MissingRole(Admin))
    case DoRevoke(_, _) => if (Admin, tx.caller) in s.roles then None else Some(MissingRole(Admin))
    case DoRenounce(_, confirmation) => if confirmation == tx.caller then None else Some(BadConfirmation)
  }

  /**
   In every run: a call commits exactly when the log before it says so, by role, registration and
   activity, and otherwise reverts with the error the log gives.
   */
  lemma CallsAreDecided(deployer: Address, txs: seq<Transaction>, tx: Transaction)
    requires Signed(txs)
    ensures var outcome := Execute(Run(Deploy(deployer), txs), tx);
      && (outcome.Committed? <==> ErrorOf(deployer, txs, tx).None?)
      && (outcome.Reverted? ==> Some(outcome.error) == ErrorOf(deployer, txs, tx))
  {
    var s := Run(Deploy(deployer), txs);
    forall a: Address ensures AccountOk(a, AccountOf(s, a)) {
      AccountsAreOk(deployer, txs, a);
    }
    forall a: Address
      ensures Registered(s, a) <==> IsRegistered(txs, a)
      ensures ProfileOf(s, a).isActive <==> IsActive(deployer, txs, a)
    {
      RegistrationsAreRead(deployer, txs, a);
      ActivityIsRead(deployer, txs, a);
    }
    RolesAreRead(deployer, txs, Admin, tx.caller);
    RolesAreRead(deployer, txs, Verifier, tx.caller);
    ErrorByState(s, tx);
  }

  /** So after a step that deactivates a guardian, its every registration, link and deactivation reverts. */
  lemma DeactivatedForGood(deployer: Address, txs: seq<Transaction>, i: nat, a: Address, time: nat, call: Call)
    requires Signed(txs) && i < |txs|
    requires IsRegistered(txs[..i], a) && Deactivates(deployer, txs[..i], txs[i], a)
    requires call.DoRegister? || call.DoLink? || call.DoDeactivate?
    ensures !ProfileOf(Run(Deploy(deployer), txs), a).isActive
    ensures Execute(Run(Deploy(deployer), txs), Transaction(a, time, call)).Reverted?
  {
    assert DeactivatedAt(deployer, txs, i, a);
    RegisteredLater(txs, i, a);
    ActivityIsRead(deployer, txs, a);
    CallsAreDecided(deployer, txs, Transaction(a, time, call));
  }

  // ----- the whole account -----

  /** The call writes the profile of this address: its own call, or one that names it. */
  predicate Writes(call: Call, caller: Address, a: Address) {
    match call
    case DoRegister(_, _, _) => caller == a
    case DoUpdate(_, _) => caller == a
    case DoDeactivate => caller == a
    case DoForceDeactivate(guardian) => guardian == a
    case DoVerify(guardian, _, _) => guardian == a
    case _ => false
  }

  /** The time of the last committed call that wrote the profile, in 48 bits. */
  ghost function UpdatedAt(deployer: Address, txs: seq<Transaction>, a: Address): nat
    decreases |txs|
  {
    if txs == [] then 0
    else
      var earlier, tx := txs[..|txs| - 1], txs[|txs| - 1];
      if Writes(tx.call, tx.caller, a) && ErrorOf(deployer, earlier, tx).None? then tx.time % 0x1_000000_000000
      else UpdatedAt(deployer, earlier, a)
  }

  /** The time and the declared method of the registration. */
  function Declared(txs: seq<Transaction>, a: Address): (nat, Method)
    decreases |txs|
  {
    if txs == [] then (0, NoMethod)
    else
      var earlier, tx := txs[..|txs| - 1], txs[|txs| - 1];
      if tx.caller == a && tx.call.DoRegister? && !IsRegistered(earlier, a)
      then (tx.time % 0x1_000000_000000, tx.call.verification) else Declared(earlier, a)
  }

  /** The proof that the committed verifications add up to: flags, the last time of each, the last verifier. */
  ghost function ProofRead(deployer: Address, txs: seq<Transaction>, a: Address): Proof
    decreases |txs|
  {
    if txs == [] then Proof(false, false, 0, 0, 0)
    else
      var earlier, tx := txs[..|txs| - 1], txs[|txs| - 1];
      var was := ProofRead(deployer, earlier, a);
      match tx.call
      case DoVerify(guardian, sms, email) =>
        if guardian != a || ErrorOf(deployer, earlier, tx).Some? then was
        else
          var time := tx.time % 0x1_000000_000000;
          Proof(was.sms || sms, was.email || email, if sms then time else was.smsAt,
                if email then time else was.emailAt, tx.caller)
      case _ => was
  }

  /** The method in force: the declared one until a channel is verified, then the verified channels. */
  function InForce(declared: Method, proof: Proof): Method {
    if proof.sms then (if proof.email then SmsAndEmail else Sms)
    else if proof.email then Email else declared
  }

  /** The account that the log adds up to, but for its pets. */
  ghost function ProfileRead(deployer: Address, txs: seq<Transaction>, a: Address): Profile {
    if !IsRegistered(txs, a) then Profile(0, 0, "", NoMethod, 0, 0, 0, false)
    else
      var m := InForce(Declared(txs, a).1, ProofRead(deployer, txs, a));
      var level := match m case SmsAndEmail => 100 case Email => 70 case Sms => 60 case NoMethod => 0;
      Profile(a, DataOf(txs, a).0, DataOf(txs, a).1, m, level, Declared(txs, a).0, UpdatedAt(deployer, txs, a),
              IsActive(deployer, txs, a))
  }

  lemma StepOnProof(s: State, tx: Transaction, a: Address)
    requires AccountOk(a, AccountOf(s, a)) && tx.caller != 0
    ensures ProofOf(After(s, Execute(s, tx)), a)
            == if Execute(s, tx).Committed? && tx.call.DoVerify? && tx.call.guardian == a
               then var (was, t) := (ProofOf(s, a), tx.time % 0x1_000000_000000);
                 Proof(was.sms || tx.call.sms, was.email || tx.call.email, if tx.call.sms then t else was.smsAt,
                       if tx.call.email then t else was.emailAt, tx.caller)
               else ProofOf(s, a)
  {
    if tx.call.DoVerify? {
      VerificationOnAccount(s, tx, a);
    } else if tx.call.DoRegister? {
      RegistrationOnAccount(s, tx, a);
    } else {
      OtherCallOnAccount(s, tx, a);
    }
  }

  lemma StepOnTimesRead(s: State, tx: Transaction, a: Address)
    requires AccountOk(a, AccountOf(s, a)) && tx.caller != 0
    ensures var (p, p') := (ProfileOf(s, a), ProfileOf(After(s, Execute(s, tx)), a));
      p'.lastUpdated == if Execute(s, tx).Committed? && Writes(tx.call, tx.caller, a)
                        then tx.time % 0x1_000000_000000 else p.lastUpdated
  {
  }

  lemma StepOnDeclared(s: State, tx: Transaction, a: Address)
    requires AccountOk(a, AccountOf(s, a)) && tx.caller != 0
    ensures var (p, p') := (ProfileOf(s, a), ProfileOf(After(s, Execute(s, tx)), a));
      && (p'.registeredAt == if tx.call.DoRegister? && tx.caller == a && !Registered(s, a)
                             then tx.time % 0x1_000000_000000 else p.registeredAt)
      && (!(tx.call.DoVerify? && tx.call.guardian == a && Execute(s, tx).Committed?) ==>
            p'.verification == if tx.call.DoRegister? && tx.caller == a && !Registered(s, a)
                               then tx.call.verification else p.verification)
  {
  }

  lemma {:induction false} ProofIsRead(deployer: Address, txs: seq<Transaction>, a: Address)
    requires Signed(txs)
    ensures ProofOf(Run(Deploy(deployer), txs), a) == ProofRead(deployer, txs, a)
    decreases |txs|
  {
    if txs == [] {
    } else {
      var earlier, tx := txs[..|txs| - 1], txs[|txs| - 1];
      ProofIsRead(deployer, earlier, a);
      AccountsAreOk(deployer, earlier, a);
      CallsAreDecided(deployer, earlier, tx);
      StepOnProof(Run(Deploy(deployer), earlier), tx, a);
    }
  }

  lemma {:induction false} UpdatesAreRead(deployer: Address, txs: seq<Transaction>, a: Address)
    requires Signed(txs)
    ensures ProfileOf(Run(Deploy(deployer), txs), a).lastUpdated == UpdatedAt(deployer, txs, a)
    decreases |txs|
  {
    if txs == [] {
    } else {
      var earlier, tx := txs[..|txs| - 1], txs[|txs| - 1];
      UpdatesAreRead(deployer, earlier, a);
      AccountsAreOk(deployer, earlier, a);
      CallsAreDecided(deployer, earlier, tx);
      StepOnTimesRead(Run(Deploy(deployer), earlier), tx, a);
    }
  }

  /** Until a first verification, the method is the declared one. */
  lemma {:induction false} DeclarationIsRead(deployer: Address, txs: seq<Transaction>, a: Address)
    requires Signed(txs)
    ensures var p := ProfileOf(Run(Deploy(deployer), txs), a);
      && p.registeredAt == Declared(txs, a).0
      && (ProofOf(Run(Deploy(deployer), txs), a) == NO_PROOF ==> p.verification == Declared(txs, a).1)
    decreases |txs|
  {
    if txs == [] {
    } else {
      var earlier, tx := txs[..|txs| - 1], txs[|txs| - 1];
      var s := Run(Deploy(deployer), earlier);
      DeclarationIsRead(deployer, earlier, a);
      AccountsAreOk(deployer, earlier, a);
      RegistrationsAreRead(deployer, earlier, a);
      StepOnDeclared(s, tx, a);
      StepOnProof(s, tx, a);
      if tx.call.DoVerify? && tx.call.guardian == a {
        VerificationOnAccount(s, tx, a);
      }
    }
  }

  /**
   In every run, every field of every account is what the log of transactions adds up to: the profile
   with its data, method, level, times and activity, and the proof.
   */
  lemma AccountsAreRead(deployer: Address, txs: seq<Transaction>, a: Address)
    requires Signed(txs)
    ensures ProfileOf(Run(Deploy(deployer), txs), a) == ProfileRead(deployer, txs, a)
    ensures ProofOf(Run(Deploy(deployer), txs), a) == ProofRead(deployer, txs, a)
  {
    AccountsAreOk(deployer, txs, a);
    RegistrationsAreRead(deployer, txs, a);
    ActivityIsRead(deployer, txs, a);
    DataIsRead(deployer, txs, a);
    ProofIsRead(deployer, txs, a);
    UpdatesAreRead(deployer, txs, a);
    DeclarationIsRead(deployer, txs, a);
  }
}
