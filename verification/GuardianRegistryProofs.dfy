/** What every run of calls on the registry keeps. */
module GuardianRegistryProofs {
  import opened GuardianRegistry

  // ----- pets: the list with swap-and-pop refines a multiset ledger -----

  lemma SwapPop(pets: seq<string>, i: nat)
    requires i < |pets|
    ensures multiset(pets[i := pets[|pets| - 1]][..|pets| - 1]) == multiset(pets) - multiset{pets[i]}
  {
    var n := |pets| - 1;
    var kept := pets[i := pets[n]][..n];
    assert pets == pets[..n] + [pets[n]];
    if i < n {
      assert pets[..n] == pets[..i] + [pets[i]] + pets[i + 1..n];
      assert kept == pets[..i] + [pets[n]] + pets[i + 1..n];
    } else {
      assert kept == pets[..n];
    }
  }

  lemma {:induction false} SwapOutRemovesOne(pets: seq<string>, did: string, i: nat)
    requires i <= |pets| && did !in pets[..i]
    ensures multiset(SwapOut(pets, did, i)) == multiset(pets) - multiset{did}
    decreases |pets| - i
  {
    if i == |pets| {
      assert pets[..i] == pets;
    } else if pets[i] == did {
      SwapPop(pets, i);
    } else {
      assert pets[..i + 1] == pets[..i] + [pets[i]];
      SwapOutRemovesOne(pets, did, i + 1);
    }
  }

  /** `k` is the first place of the pet, from `i` on. */
  predicate FirstAt(pets: seq<string>, did: string, i: nat, k: int) {
    i <= k < |pets| && pets[k] == did && forall j :: i <= j < k ==> pets[j] != did
  }

  /** The last pet takes the place of the first copy, and every other pet keeps its own; without a copy, all do. */
  lemma {:induction false} SwapOutKeepsPlaces(pets: seq<string>, did: string, i: nat)
    requires i <= |pets|
    ensures did !in pets[i..] ==> SwapOut(pets, did, i) == pets
    ensures forall k :: FirstAt(pets, did, i, k) ==>
      |SwapOut(pets, did, i)| == |pets| - 1
      && forall j :: 0 <= j < |pets| - 1 ==> SwapOut(pets, did, i)[j] == if j == k then pets[|pets| - 1] else pets[j]
    decreases |pets| - i
  {
    if i == |pets| {
    } else if pets[i] == did {
    } else {
      SwapOutKeepsPlaces(pets, did, i + 1);
      assert pets[i..] == [pets[i]] + pets[i + 1..];
      forall k | FirstAt(pets, did, i, k) ensures FirstAt(pets, did, i + 1, k) {}
    }
  }

  /** What a committed call of `tx` by the owner does to the ledger of its pets. */
  function Entered(pets: multiset<string>, call: Call): multiset<string> {
    match call
    case DoLink(did) => pets + multiset{did}
    case DoUnlink(did) => pets - multiset{did}
    case _ => pets
  }

  /** The ledger of a guardian: its committed links add one copy, its committed unlinks remove one. */
  ghost function Ledger(s: State, txs: seq<Transaction>, a: Address): multiset<string>
    decreases |txs|
  {
    if txs == [] then multiset(PetsOf(s, a))
    else
      var tx := txs[|txs| - 1];
      var before := Ledger(s, txs[..|txs| - 1], a);
      if tx.caller == a && Execute(Run(s, txs[..|txs| - 1]), tx).Committed? then Entered(before, tx.call)
      else before
  }

  /** The pet list after a committed call by its owner. */
  function PetsAfter(pets: seq<string>, call: Call): seq<string> {
    match call
    case DoLink(did) => pets + [did]
    case DoUnlink(did) => SwapOut(pets, did, 0)
    case _ => pets
  }

  lemma StepOnPets(s: State, tx: Transaction, a: Address)
    ensures PetsOf(After(s, Execute(s, tx)), a)
            == if tx.caller == a && Execute(s, tx).Committed? then PetsAfter(PetsOf(s, a), tx.call) else PetsOf(s, a)
  {
  }

  lemma PetsAfterIsEntered(pets: seq<string>, call: Call)
    ensures multiset(PetsAfter(pets, call)) == Entered(multiset(pets), call)
  {
    if call.DoUnlink? {
      SwapOutRemovesOne(pets, call.did, 0);
    }
  }

  lemma {:induction false} PetsFollowLedger(s: State, txs: seq<Transaction>, a: Address)
    ensures multiset(PetsOf(Run(s, txs), a)) == Ledger(s, txs, a)
    decreases |txs|
  {
    if txs == [] {
    } else {
      PetsFollowLedger(s, txs[..|txs| - 1], a);
      var before := Run(s, txs[..|txs| - 1]);
      StepOnPets(before, txs[|txs| - 1], a);
      PetsAfterIsEntered(PetsOf(before, a), txs[|txs| - 1].call);
    }
  }

  // ----- one account -----

  /**
   An unregistered address has nothing; a registered one has its own profile, the level of its
   method, and, once verified, the method of its flags.
   */
  predicate AccountOk(a: Address, acc: Account) {
    var p := acc.profile;
    if p.guardian == 0 then acc == NO_ACCOUNT
    else
      && p.guardian == a
      && p.level == LevelOf(p.verification)
      && (acc.proof != NO_PROOF ==>
            (acc.proof.sms || acc.proof.email) && p.verification == MethodOf(acc.proof))
  }

  /** A registration and a verified channel are never undone, and a verified level never falls. */
  predicate Kept(acc: Account, acc': Account) {
    && (acc.profile.guardian != 0 ==>
          acc'.profile.guardian == acc.profile.guardian && acc'.profile.registeredAt == acc.profile.registeredAt)
    && (acc.proof.sms ==> acc'.proof.sms) && (acc.proof.email ==> acc'.proof.email)
    && (acc.proof != NO_PROOF ==> acc'.proof != NO_PROOF && acc'.profile.level >= acc.profile.level)
  }

  /** An inactive guardian stays inactive and gains no pet. */
  predicate Closed(acc: Account, acc': Account) {
    acc.profile.guardian != 0 && !acc.profile.isActive ==>
      !acc'.profile.isActive && multiset(acc'.pets) <= multiset(acc.pets)
  }

  /** Registered, then verified, then last updated. */
  predicate Chronological(acc: Account, now: nat) {
    acc.profile.guardian != 0 ==>
      && acc.profile.registeredAt <= acc.profile.lastUpdated <= now
      && (acc.proof.sms ==> acc.profile.registeredAt <= acc.proof.smsAt <= acc.profile.lastUpdated)
      && (acc.proof.email ==> acc.profile.registeredAt <= acc.proof.emailAt <= acc.profile.lastUpdated)
  }

  /** The same profile but for its data, its update time and a deactivation. */
  predicate Touched(p: Profile, p': Profile, stamp: nat) {
    && p' == p.(dataHash := p'.dataHash, uri := p'.uri, lastUpdated := p'.lastUpdated, isActive := p'.isActive)
    && (p'.isActive ==> p.isActive)
    && (p'.lastUpdated == p.lastUpdated || p'.lastUpdated == stamp)
  }

  predicate ProfileCall(call: Call) {
    call.DoUpdate? || call.DoDeactivate? || call.DoForceDeactivate?
  }

  /** Links and role changes leave profiles and proofs alone. */
  lemma ListCallOnAccount(s: State, tx: Transaction, a: Address)
    requires !tx.call.DoVerify? && !tx.call.DoRegister? && !ProfileCall(tx.call)
    ensures var s' := After(s, Execute(s, tx));
      ProofOf(s', a) == ProofOf(s, a) && ProfileOf(s', a) == ProfileOf(s, a)
      && (!Registered(s, a) ==> PetsOf(s', a) == PetsOf(s, a))
  {
  }

  lemma ProfileCallOnAccount(s: State, tx: Transaction, a: Address)
    requires ProfileCall(tx.call)
    ensures var s' := After(s, Execute(s, tx));
      && ProofOf(s', a) == ProofOf(s, a)
      && (Registered(s, a) ==> Touched(ProfileOf(s, a), ProfileOf(s', a), Stamp(tx.time)))
      && (!Registered(s, a) ==> AccountOf(s', a) == AccountOf(s, a))
  {
  }

  /** A call that neither registers nor verifies leaves the proof alone, and at most touches the profile. */
  lemma OtherCallOnAccount(s: State, tx: Transaction, a: Address)
    requires !tx.call.DoVerify? && !tx.call.DoRegister?
    ensures var s' := After(s, Execute(s, tx));
      && ProofOf(s', a) == ProofOf(s, a)
      && (Registered(s, a) ==> Touched(ProfileOf(s, a), ProfileOf(s', a), Stamp(tx.time)))
      && (!Registered(s, a) ==> AccountOf(s', a) == AccountOf(s, a))
  {
    if ProfileCall(tx.call) {
      ProfileCallOnAccount(s, tx, a);
    } else {
      ListCallOnAccount(s, tx, a);
    }
  }

  /** A registration gives a new profile to its caller, and changes nothing else. */
  lemma RegistrationOnAccount(s: State, tx: Transaction, a: Address)
    requires tx.call.DoRegister?
    ensures var s' := After(s, Execute(s, tx));
      && (Registered(s, a) || a != tx.caller ==> AccountOf(s', a) == AccountOf(s, a))
      && (!Registered(s, a) && a == tx.caller ==>
            AccountOf(s', a) == AccountOf(s, a).(profile := ProfileOf(s', a))
            && ProfileOf(s', a) == Profile(a, tx.call.dataHash, tx.call.uri, tx.call.verification,
                                           LevelOf(tx.call.verification), Stamp(tx.time), Stamp(tx.time), true))
  {
  }

  /** A verification changes the guardian it names, and that one only. */
  lemma VerificationOnAccount(s: State, tx: Transaction, a: Address)
    requires tx.call.DoVerify?
    ensures var s' := After(s, Execute(s, tx));
      if Execute(s, tx).Reverted? || a != tx.call.guardian then AccountOf(s', a) == AccountOf(s, a)
      else
        var (was, proof, t) := (ProofOf(s, a), ProofOf(s', a), Stamp(tx.time));
        && Registered(s, a) && (tx.call.sms || tx.call.email)
        && proof == Proof(was.sms || tx.call.sms, was.email || tx.call.email, if tx.call.sms then t else was.smsAt,
                          if tx.call.email then t else was.emailAt, tx.caller)
        && ProfileOf(s', a) == ProfileOf(s, a).(verification := MethodOf(proof), level := LevelOf(MethodOf(proof)),
                                                lastUpdated := t)
        && PetsOf(s', a) == PetsOf(s, a)
  {
  }

  lemma StepOnAccount(s: State, tx: Transaction, a: Address)
    requires AccountOk(a, AccountOf(s, a)) && tx.caller != 0
    ensures AccountOk(a, AccountOf(After(s, Execute(s, tx)), a))
    ensures Kept(AccountOf(s, a), AccountOf(After(s, Execute(s, tx)), a))
  {
    if tx.call.DoVerify? {
      VerificationOnAccount(s, tx, a);
    } else if tx.call.DoRegister? {
      RegistrationOnAccount(s, tx, a);
    } else {
      OtherCallOnAccount(s, tx, a);
    }
  }

  /** Of all calls only a link adds a pet, and a link of an inactive guardian reverts. */
  lemma StepShrinksPets(s: State, tx: Transaction, a: Address)
    requires Registered(s, a) && !ProfileOf(s, a).isActive
    ensures multiset(PetsOf(After(s, Execute(s, tx)), a)) <= multiset(PetsOf(s, a))
  {
    StepOnPets(s, tx, a);
    if tx.caller == a && Execute(s, tx).Committed? {
      if tx.call.DoLink? {
        LinkNeedsActive(s, tx);
      }
      PetsAfterIsEntered(PetsOf(s, a), tx.call);
    }
  }

  lemma LinkNeedsActive(s: State, tx: Transaction)
    requires tx.call.DoLink? && Execute(s, tx).Committed?
    ensures ProfileOf(s, tx.caller).isActive
  {
  }

  lemma StepKeepsClosed(s: State, tx: Transaction, a: Address)
    requires AccountOk(a, AccountOf(s, a))
    ensures Closed(AccountOf(s, a), AccountOf(After(s, Execute(s, tx)), a))
  {
    if Registered(s, a) && !ProfileOf(s, a).isActive {
      StepShrinksPets(s, tx, a);
      if tx.call.DoVerify? {
        VerificationOnAccount(s, tx, a);
      } else if tx.call.DoRegister? {
        RegistrationOnAccount(s, tx, a);
      } else {
        OtherCallOnAccount(s, tx, a);
      }
    }
  }

  lemma StepOnTimes(s: State, tx: Transaction, a: Address, now: nat)
    requires AccountOk(a, AccountOf(s, a)) && tx.caller != 0
    requires Chronological(AccountOf(s, a), now) && now <= tx.time < UINT48
    ensures Chronological(AccountOf(After(s, Execute(s, tx)), a), tx.time)
  {
    assert Stamp(tx.time) == tx.time;
    if tx.call.DoVerify? {
      VerificationOnAccount(s, tx, a);
    } else if tx.call.DoRegister? {
      RegistrationOnAccount(s, tx, a);
    } else {
      OtherCallOnAccount(s, tx, a);
    }
  }

  lemma {:induction false} AccountsAreOk(deployer: Address, txs: seq<Transaction>, a: Address)
    requires Signed(txs)
    ensures AccountOk(a, AccountOf(Run(Deploy(deployer), txs), a))
    decreases |txs|
  {
    if txs == [] {
    } else {
      AccountsAreOk(deployer, txs[..|txs| - 1], a);
      StepOnAccount(Run(Deploy(deployer), txs[..|txs| - 1]), txs[|txs| - 1], a);
    }
  }

  // ----- the theorems on runs -----

  /**
   From any point of a run to its end: a guardian stays registered, verified channels stay
   verified, the level of a verified guardian never falls, and an inactive guardian is never
   active again and its pets only shrink.
   */
  lemma {:induction false} NothingIsUndone(deployer: Address, txs: seq<Transaction>, n: nat, a: Address)
    requires Signed(txs) && n <= |txs|
    ensures var was := AccountOf(Run(Deploy(deployer), txs[..n]), a);
      var now := AccountOf(Run(Deploy(deployer), txs), a);
      Kept(was, now) && Closed(was, now)
    decreases |txs|
  {
    if n == |txs| {
      assert txs[..n] == txs;
    } else {
      var earlier := txs[..|txs| - 1];
      assert earlier[..n] == txs[..n];
      NothingIsUndone(deployer, earlier, n, a);
      AccountsAreOk(deployer, earlier, a);
      StepOnAccount(Run(Deploy(deployer), earlier), txs[|txs| - 1], a);
      StepKeepsClosed(Run(Deploy(deployer), earlier), txs[|txs| - 1], a);
    }
  }

  /** Once inactive, a guardian's later registrations, links and deactivations are all refused. */
  lemma DeactivationIsTerminal(deployer: Address, txs: seq<Transaction>, n: nat, time: nat, a: Address, call: Call)
    requires Signed(txs) && n <= |txs|
    requires var s := Run(Deploy(deployer), txs[..n]); Registered(s, a) && !ProfileOf(s, a).isActive
    requires call.DoRegister? || call.DoLink? || call.DoDeactivate?
    ensures Execute(Run(Deploy(deployer), txs), Transaction(a, time, call)).Reverted?
  {
    NothingIsUndone(deployer, txs, n, a);
  }

  /**
   The level a guardian declares at registration is not evidence: a verification lowers it
   exactly when it is the first one and confirms less than was declared.
   */
  lemma VerificationLowersLevelIff(deployer: Address, txs: seq<Transaction>, tx: Transaction)
    requires Signed(txs) && tx.call.DoVerify?
    requires Execute(Run(Deploy(deployer), txs), tx).Committed?
    ensures var s := Run(Deploy(deployer), txs);
      var g := tx.call.guardian;
      ProfileOf(After(s, Execute(s, tx)), g).level < ProfileOf(s, g).level
      <==> ProofOf(s, g) == NO_PROOF
           && LevelOf(MethodOf(Proof(tx.call.sms, tx.call.email, 0, 0, 0))) < LevelOf(ProfileOf(s, g).verification)
  {
    AccountsAreOk(deployer, txs, tx.call.guardian);
    VerificationOnAccount(Run(Deploy(deployer), txs), tx, tx.call.guardian);
  }

  /** At a real input: declared with both channels, verified by SMS, a guardian falls from 100 to 60. */
  lemma VerificationCanLower(deployer: Address, verifier: Address, guardian: Address, time: nat)
    requires guardian != 0
    ensures var txs := [Transaction(deployer, time, DoGrant(Verifier, verifier)),
                        Transaction(guardian, time, DoRegister(0, "", SmsAndEmail))];
      var s := Run(Deploy(deployer), txs);
      var outcome := Execute(s, Transaction(verifier, time, DoVerify(guardian, true, false)));
      && ProfileOf(s, guardian).level == 100
      && outcome.Committed? && ProfileOf(outcome.state, guardian).level == 60
  {
    var grant, register := Transaction(deployer, time, DoGrant(Verifier, verifier)),
                           Transaction(guardian, time, DoRegister(0, "", SmsAndEmail));
    assert [grant, register][..1] == [grant] && [grant][..0] == [];
    var s1 := Run(Deploy(deployer), [grant]);
    assert Run(Deploy(deployer), []) == Deploy(deployer);
    assert (Verifier, verifier) in s1.roles && ProfileOf(s1, guardian) == NO_PROFILE;
  }

  /** The channels a method stands for. */
  function Channels(m: Method): set<Method> {
    match m
    case NoMethod => {}
    case Sms => {Sms}
    case Email => {Email}
    case SmsAndEmail => {Sms, Email}
  }

  /**
   What a level means: at most 100, higher with every channel added, and telling the method; and the
   method of a proof stands for exactly the channels that are flagged.
   */
  lemma LevelTellsChannels(m: Method, n: Method, proof: Proof)
    ensures LevelOf(m) <= 100
    ensures Channels(m) < Channels(n) ==> LevelOf(m) < LevelOf(n)
    ensures LevelOf(m) == LevelOf(n) <==> m == n
    ensures proof.sms || proof.email ==>
      (Sms in Channels(MethodOf(proof)) <==> proof.sms) && (Email in Channels(MethodOf(proof)) <==> proof.email)
  {
    if Channels(m) < Channels(n) {
      assert SmsAndEmail !in Channels(n) && NoMethod !in Channels(n);
      assert Sms in Channels(m) ==> Sms in Channels(n);
      assert Email in Channels(m) ==> Email in Channels(n);
    }
  }

  function Flag(proof: Proof, sms: bool): bool {
    if sms then proof.sms else proof.email
  }

  /** A committed verification of this channel, so by a holder of the verifier role. */
  ghost predicate Verifies(s: State, tx: Transaction, a: Address, sms: bool) {
    && tx.call.DoVerify? && tx.call.guardian == a && (if sms then tx.call.sms else tx.call.email)
    && (Verifier, tx.caller) in s.roles && Registered(s, a)
  }

  ghost predicate VerifiedAt(s: State, txs: seq<Transaction>, i: nat, a: Address, sms: bool)
    requires i < |txs|
  {
    Verifies(Run(s, txs[..i]), txs[i], a, sms)
  }

  lemma StepOnFlag(s: State, tx: Transaction, a: Address, sms: bool)
    requires AccountOk(a, AccountOf(s, a)) && tx.caller != 0
    ensures Flag(ProofOf(After(s, Execute(s, tx)), a), sms) <==> Flag(ProofOf(s, a), sms) || Verifies(s, tx, a, sms)
  {
    if tx.call.DoVerify? {
      VerificationOnAccount(s, tx, a);
    } else if tx.call.DoRegister? {
      RegistrationOnAccount(s, tx, a);
    } else {
      OtherCallOnAccount(s, tx, a);
    }
  }

  /** A channel counts as verified exactly when an authorised verifier has verified it. */
  lemma {:induction false} FlagsComeFromVerifiers(deployer: Address, txs: seq<Transaction>, a: Address, sms: bool)
    requires Signed(txs)
    ensures Flag(ProofOf(Run(Deploy(deployer), txs), a), sms)
            <==> exists i :: 0 <= i < |txs| && VerifiedAt(Deploy(deployer), txs, i, a, sms)
    decreases |txs|
  {
    if txs == [] {
    } else {
      var last := |txs| - 1;
      var s := Deploy(deployer);
      FlagsComeFromVerifiers(deployer, txs[..last], a, sms);
      AccountsAreOk(deployer, txs[..last], a);
      StepOnFlag(Run(s, txs[..last]), txs[last], a, sms);
      forall i | 0 <= i < last
        ensures VerifiedAt(s, txs[..last], i, a, sms) <==> VerifiedAt(s, txs, i, a, sms)
      {
        assert txs[..last][..i] == txs[..i];
      }
      assert VerifiedAt(s, txs, last, a, sms) <==> Verifies(Run(s, txs[..last]), txs[last], a, sms);
    }
  }

  /** Block times do not go back and fit in 48 bits. */
  predicate Ordered(txs: seq<Transaction>) {
    && (forall i :: 0 <= i < |txs| ==> txs[i].time < UINT48)
    && (forall i, j :: 0 <= i < j < |txs| ==> txs[i].time <= txs[j].time)
  }

  function LastTime(txs: seq<Transaction>): nat {
    if txs == [] then 0 else txs[|txs| - 1].time
  }

  lemma {:induction false} TimestampsAreOrdered(deployer: Address, txs: seq<Transaction>, a: Address)
    requires Signed(txs) && Ordered(txs)
    ensures Chronological(AccountOf(Run(Deploy(deployer), txs), a), LastTime(txs))
    decreases |txs|
  {
    if txs == [] {
    } else {
      var earlier := txs[..|txs| - 1];
      TimestampsAreOrdered(deployer, earlier, a);
      AccountsAreOk(deployer, earlier, a);
      StepOnTimes(Run(Deploy(deployer), earlier), txs[|txs| - 1], a, LastTime(earlier));
    }
  }

  // ----- the list of all guardians and its counter -----

  predicate Distinct(s: seq<Address>) {
    forall i, j :: 0 <= i < j < |s| ==> s[i] != s[j]
  }

  ghost predicate Listed(s: State) {
    && (forall a: Address :: a in s.all <==> Registered(s, a))
    && Distinct(s.all) && s.total == |s.all|
  }

  /** Pigeonhole: distinct addresses below `n` are at most `n` many. */
  lemma {:induction false} DistinctBounded(s: seq<Address>, n: nat)
    requires Distinct(s) && forall i :: 0 <= i < |s| ==> s[i] < n
    ensures |s| <= n
    decreases n
  {
    if s == [] {
    } else {
      assert 0 <= s[0] < n;
      if i :| 0 <= i < |s| && s[i] == n - 1 {
        DistinctBounded(s[..i] + s[i + 1..], n - 1);
      } else {
        DistinctBounded(s, n - 1);
      }
    }
  }

  /** Only a registration reaches the list, and it adds a new address. */
  lemma StepOnList(s: State, tx: Transaction)
    ensures var s' := After(s, Execute(s, tx));
      if tx.call.DoRegister? && !Registered(s, tx.caller)
      then s'.all == s.all + [tx.caller] && s'.total == (s.total + 1) % UINT256
      else s'.all == s.all && s'.total == s.total
  {
  }

  lemma StepOnRegistered(s: State, tx: Transaction, a: Address)
    requires AccountOk(a, AccountOf(s, a)) && tx.caller != 0
    ensures Registered(After(s, Execute(s, tx)), a) <==> Registered(s, a) || (tx.call.DoRegister? && tx.caller == a)
  {
    if tx.call.DoVerify? {
      VerificationOnAccount(s, tx, a);
    } else if tx.call.DoRegister? {
      RegistrationOnAccount(s, tx, a);
    } else {
      OtherCallOnAccount(s, tx, a);
    }
  }

  lemma StepKeepsListed(s: State, tx: Transaction)
    requires Listed(s) && tx.caller != 0 && forall a: Address :: AccountOk(a, AccountOf(s, a))
    ensures Listed(After(s, Execute(s, tx)))
  {
    var s' := After(s, Execute(s, tx));
    StepOnList(s, tx);
    DistinctBounded(s.all, ADDRESSES);
    forall a: Address ensures a in s'.all <==> Registered(s', a) {
      assert AccountOk(a, AccountOf(s, a));
      StepOnRegistered(s, tx, a);
    }
  }

  lemma {:induction false} ListIsExact(deployer: Address, txs: seq<Transaction>)
    requires Signed(txs)
    ensures Listed(Run(Deploy(deployer), txs))
    decreases |txs|
  {
    if txs == [] {
    } else {
      var earlier := txs[..|txs| - 1];
      ListIsExact(deployer, earlier);
      forall a: Address ensures AccountOk(a, AccountOf(Run(Deploy(deployer), earlier), a)) {
        AccountsAreOk(deployer, earlier, a);
      }
      StepKeepsListed(Run(Deploy(deployer), earlier), txs[|txs| - 1]);
    }
  }

  /**
   In every reachable state the list of guardians has no duplicates and holds exactly the
   registered addresses, the counter equals its length and never wrapped, and an address that
   is not registered has no proof and no pets.
   */
  lemma RegistryIsConsistent(deployer: Address, txs: seq<Transaction>)
    requires Signed(txs)
    ensures var s := Run(Deploy(deployer), txs);
      && Listed(s) && s.total == |s.all| <= ADDRESSES < UINT256
      && (forall a: Address :: !Registered(s, a) ==> AccountOf(s, a) == NO_ACCOUNT)
  {
    var s := Run(Deploy(deployer), txs);
    ListIsExact(deployer, txs);
    DistinctBounded(s.all, ADDRESSES);
    forall a: Address | !Registered(s, a) ensures AccountOf(s, a) == NO_ACCOUNT {
      AccountsAreOk(deployer, txs, a);
    }
  }
}
