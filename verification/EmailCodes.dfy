/**
 E-mail verification codes: what the service keeps per wallet, how a check answers, and what
 bounds hold over every run of sends, checks and passing time.
 */
module EmailCodes {
  import opened SessionKeys
  import opened Wrappers

  const TTL := 600

  /** The stored record, with the deadline of its Redis key in milliseconds. */
  datatype Entry = Entry(code: string, email: string, attempts: nat, deadline: nat)

  datatype State = State(entries: map<string, Entry>, now: nat)

  datatype Reply =
    | Sent(code: string, email: string)
    | Missing
    | TooManyAttempts
    | Wrong(remaining: int)
    | Confirmed(email: string)
    | Waited

  function Key(wallet: string): (k: string)
    ensures ReadKey(k) == Some(EmailOf(wallet))
  {
    KeysStayApart(EmailOf(wallet));
    Render(EmailOf(wallet))
  }

  function Lookup(s: State, wallet: string): Option<Entry> {
    if Key(wallet) in s.entries && s.now < s.entries[Key(wallet)].deadline then Some(s.entries[Key(wallet)]) else None
  }

  function Store(s: State, wallet: string, code: string, email: string, attempts: nat, ttl: nat): State {
    s.(entries := s.entries[Key(wallet) := Entry(code, email, attempts, s.now + ttl * 1000)])
  }

  function Remove(s: State, wallet: string): State {
    s.(entries := s.entries - {Key(wallet)})
  }

  /** `ttl > 0 ? ttl : 600`. */
  function Renewal(ttl: int): nat {
    if ttl > 0 then ttl else TTL
  }

  function SendVerificationCode(s: State, wallet: string, email: string, code: string): State {
    Store(s, wallet, code, email, 0, TTL)
  }

  /** `ttl` is what Redis answers when the time to live is read before the record is rewritten. */
  function VerifyCode(s: State, wallet: string, code: string, ttl: int): (State, Reply) {
    match Lookup(s, wallet)
    case None => (s, Missing)
    case Some(e) =>
      if e.attempts >= 3 then (Remove(s, wallet), TooManyAttempts)
      else if e.code != code then
        (Store(s, wallet, e.code, e.email, e.attempts + 1, Renewal(ttl)), Wrong(3 - (e.attempts + 1)))
      else (Remove(s, wallet), Confirmed(e.email))
  }

  // ----- runs -----

  datatype Step =
    | Send(wallet: string, email: string, code: string)
    | Check(wallet: string, code: string, ttl: int)
    | Wait(milliseconds: nat)

  function Next(s: State, step: Step): (State, Reply) {
    match step
    case Send(wallet, email, code) => (SendVerificationCode(s, wallet, email, code), Sent(code, email))
    case Check(wallet, code, ttl) => VerifyCode(s, wallet, code, ttl)
    case Wait(ms) => (s.(now := s.now + ms), Waited)
  }

  predicate About(step: Step, wallet: string) {
    !step.Wait? && step.wallet == wallet
  }

  /**
   What an observer of one wallet knows: the last code sent and the answers since; whether it is open,
   neither accepted nor discarded; and the deadline set by the send or by the last wrong answer, which
   reads the time left and falls back to ten minutes.
   */
  datatype Tally = Tally(sends: nat, accepted: nat, sentAt: nat, code: string, email: string, wrong: nat,
                         open: bool, deadline: nat)

  function Observe(t: Tally, now: nat, step: Step, reply: Reply): Tally {
    match reply
    case Sent(code, email) => Tally(t.sends + 1, t.accepted, now, code, email, 0, true, now + 600000)
    case Wrong(_) =>
      var left := if step.Check? && step.ttl >= 1 then step.ttl * 1000 else 600000;
      t.(wrong := t.wrong + 1, deadline := now + left)
    case Confirmed(_) => t.(accepted := t.accepted + 1, open := false)
    case TooManyAttempts => t.(open := false)
    case _ => t
  }

  /** The state after a run, and the tally of one wallet. */
  function Run(steps: seq<Step>, wallet: string): (State, Tally)
    decreases |steps|
  {
    if steps == [] then (State(map[], 0), Tally(0, 0, 0, "", "", 0, false, 0))
    else
      var (before, tally) := Run(steps[..|steps| - 1], wallet);
      var step := steps[|steps| - 1];
      var (after, reply) := Next(before, step);
      (after, if About(step, wallet) then Observe(tally, before.now, step, reply) else tally)
  }

  /** Redis never reports more than the time to live that was set. */
  predicate Bounded(steps: seq<Step>) {
    forall i :: 0 <= i < |steps| && steps[i].Check? ==> steps[i].ttl <= TTL
  }

  /** A positive reading of the time left, in seconds, that exceeds it by at most `slack` milliseconds. */
  predicate Truthful(s: State, step: Step, slack: nat) {
    step.Check? && Lookup(s, step.wallet).Some? ==>
      0 < step.ttl && step.ttl * 1000 <= Lookup(s, step.wallet).value.deadline - s.now + slack
  }

  ghost predicate TruthfulRun(steps: seq<Step>, slack: nat) {
    forall i :: 0 <= i < |steps| ==> Truthful(Run(steps[..i], "").0, steps[i], slack)
  }

  // ----- the invariant of one wallet -----

  /** The stored record is that of the last code sent; its attempts are the wrong answers since. */
  predicate RecordOk(s: State, t: Tally, wallet: string) {
    && t.wrong <= 3
    && t.accepted + (if Key(wallet) in s.entries then 1 else 0) <= t.sends
    && (t.open <==> Key(wallet) in s.entries)
    && (t.open ==> s.entries[Key(wallet)] == Entry(t.code, t.email, t.wrong, t.deadline))
  }

  predicate EndsBy(s: State, wallet: string, limit: nat) {
    Key(wallet) in s.entries ==> s.entries[Key(wallet)].deadline <= limit
  }

  lemma OtherStep(s: State, step: Step, wallet: string)
    requires !About(step, wallet)
    ensures var s' := Next(s, step).0;
      && (Key(wallet) in s'.entries <==> Key(wallet) in s.entries)
      && (Key(wallet) in s.entries ==> s'.entries[Key(wallet)] == s.entries[Key(wallet)])
  {
    if !step.Wait? {
      assert Key(step.wallet) != Key(wallet);
    }
  }

  lemma StepKeepsRecordOk(s: State, t: Tally, step: Step, wallet: string)
    requires RecordOk(s, t, wallet)
    ensures var (s', reply) := Next(s, step);
      RecordOk(s', if About(step, wallet) then Observe(t, s.now, step, reply) else t, wallet)
  {
    if !About(step, wallet) {
      OtherStep(s, step, wallet);
    }
  }

  /** Each wrong answer can push the deadline out by one full time to live. */
  lemma StepEndsBy(s: State, t: Tally, step: Step, wallet: string)
    requires RecordOk(s, t, wallet) && EndsBy(s, wallet, t.sentAt + 600000 * (t.wrong + 1))
    requires step.Check? ==> step.ttl <= TTL
    ensures var (s', reply) := Next(s, step);
      var t' := if About(step, wallet) then Observe(t, s.now, step, reply) else t;
      EndsBy(s', wallet, t'.sentAt + 600000 * (t'.wrong + 1))
  {
    if !About(step, wallet) {
      OtherStep(s, step, wallet);
    }
  }

  lemma StepEndsByTruthful(s: State, t: Tally, step: Step, wallet: string, slack: nat)
    requires RecordOk(s, t, wallet) && EndsBy(s, wallet, t.sentAt + 600000 + slack * t.wrong)
    requires Truthful(s, step, slack)
    ensures var (s', reply) := Next(s, step);
      var t' := if About(step, wallet) then Observe(t, s.now, step, reply) else t;
      EndsBy(s', wallet, t'.sentAt + 600000 + slack * t'.wrong)
  {
    assert slack * (t.wrong + 1) == slack * t.wrong + slack;
    if !About(step, wallet) {
      OtherStep(s, step, wallet);
    }
  }

  lemma {:induction false} RunKeepsRecordOk(steps: seq<Step>, wallet: string)
    ensures var (s, t) := Run(steps, wallet); RecordOk(s, t, wallet)
    decreases |steps|
  {
    if steps == [] {
    } else {
      RunKeepsRecordOk(steps[..|steps| - 1], wallet);
      var (before, tally) := Run(steps[..|steps| - 1], wallet);
      StepKeepsRecordOk(before, tally, steps[|steps| - 1], wallet);
    }
  }

  lemma {:induction false} RunEndsBy(steps: seq<Step>, wallet: string)
    requires Bounded(steps)
    ensures var (s, t) := Run(steps, wallet); EndsBy(s, wallet, t.sentAt + 600000 * (t.wrong + 1))
    decreases |steps|
  {
    if steps == [] {
    } else {
      var earlier := steps[..|steps| - 1];
      RunEndsBy(earlier, wallet);
      RunKeepsRecordOk(earlier, wallet);
      var (before, tally) := Run(earlier, wallet);
      StepEndsBy(before, tally, steps[|steps| - 1], wallet);
    }
  }

  /** The state of a run does not depend on whose tally is kept. */
  lemma {:induction false} SameState(steps: seq<Step>, a: string, b: string)
    ensures Run(steps, a).0 == Run(steps, b).0
    decreases |steps|
  {
    if steps == [] {
    } else {
      SameState(steps[..|steps| - 1], a, b);
    }
  }

  lemma {:induction false} RunEndsByTruthful(steps: seq<Step>, wallet: string, slack: nat)
    requires TruthfulRun(steps, slack)
    ensures var (s, t) := Run(steps, wallet); EndsBy(s, wallet, t.sentAt + 600000 + slack * t.wrong)
    decreases |steps|
  {
    if steps == [] {
    } else {
      var last := |steps| - 1;
      forall i | 0 <= i < last ensures Truthful(Run(steps[..last][..i], "").0, steps[..last][i], slack) {
        assert steps[..last][..i] == steps[..i];
        assert Truthful(Run(steps[..i], "").0, steps[i], slack);
      }
      RunEndsByTruthful(steps[..last], wallet, slack);
      RunKeepsRecordOk(steps[..last], wallet);
      var (before, tally) := Run(steps[..last], wallet);
      SameState(steps[..last], wallet, "");
      assert Truthful(Run(steps[..last], "").0, steps[last], slack);
      StepEndsByTruthful(before, tally, steps[last], wallet, slack);
    }
  }

  // ----- the theorems -----

  /**
   In every run, for every wallet: at most three wrong codes are compared after each send, and
   codes accepted never exceed codes sent.
   */
  lemma GuessesAreBounded(steps: seq<Step>, wallet: string)
    ensures var t := Run(steps, wallet).1; t.wrong <= 3 && t.accepted <= t.sends
  {
    RunKeepsRecordOk(steps, wallet);
  }

  /**
   In every run, what a check answers: nothing is stored once the last code sent was accepted or
   discarded, or its deadline is reached; after three wrong answers it is discarded; otherwise the right
   code is confirmed with its address, and a wrong one is answered with the tries left.
   */
  lemma CheckIsDecided(steps: seq<Step>, wallet: string, code: string, ttl: int)
    ensures var (s, t) := Run(steps, wallet);
      var (s', reply) := Next(s, Check(wallet, code, ttl));
      var live := t.open && s.now < t.deadline;
      && (reply == Missing <==> !live)
      && (reply == TooManyAttempts <==> live && t.wrong == 3)
      && (reply == Confirmed(t.email) <==> live && t.wrong < 3 && code == t.code)
      && (reply == Wrong(2 - t.wrong) <==> live && t.wrong < 3 && code != t.code)
  {
    RunKeepsRecordOk(steps, wallet);
  }

  /** In particular the right code is confirmed at once, and until the ten minutes are over. */
  lemma RightCodeIsConfirmed(wallet: string, email: string, code: string, wait: nat, ttl: int)
    requires wait < 600000
    ensures var s := Run([Send(wallet, email, code), Wait(wait)], wallet).0;
      Next(s, Check(wallet, code, ttl)).1 == Confirmed(email)
  {
    var steps := [Send(wallet, email, code), Wait(wait)];
    var first := [Send(wallet, email, code)];
    assert steps[..1] == first && first[..0] == [];
    assert Run([], wallet) == (State(map[], 0), Tally(0, 0, 0, "", "", 0, false, 0));
    assert Run(first, wallet).1 == Tally(1, 0, 0, code, email, 0, true, 600000);
    CheckIsDecided(steps, wallet, code, ttl);
  }

  /**
   A check is accepted only with the last code sent to that wallet, before three wrong answers,
   and, whatever the readings of the time to live, less than 1800 seconds after the send.
   */
  lemma AcceptanceIsEarned(steps: seq<Step>, wallet: string, code: string, ttl: int)
    requires Bounded(steps) && VerifyCode(Run(steps, wallet).0, wallet, code, ttl).1.Confirmed?
    ensures var (s, t) := Run(steps, wallet);
      && t.accepted < t.sends
      && code == t.code && VerifyCode(s, wallet, code, ttl).1 == Confirmed(t.email)
      && t.wrong < 3
      && s.now < t.sentAt + 600000 * (t.wrong + 1) <= t.sentAt + 1800000
  {
    RunKeepsRecordOk(steps, wallet);
    RunEndsBy(steps, wallet);
  }

  /** With positive readings that are right but for rounding, the 600 seconds hold up to two roundings. */
  lemma AcceptanceIsTimely(steps: seq<Step>, wallet: string, code: string, ttl: int, slack: nat)
    requires TruthfulRun(steps, slack) && VerifyCode(Run(steps, wallet).0, wallet, code, ttl).1.Confirmed?
    ensures var (s, t) := Run(steps, wallet); s.now < t.sentAt + 600000 + 2 * slack
  {
    RunKeepsRecordOk(steps, wallet);
    RunEndsByTruthful(steps, wallet, slack);
    var t := Run(steps, wallet).1;
    assert t.wrong < 3;
    TwoRoundings(slack, t.wrong);
  }

  lemma TwoRoundings(slack: nat, wrong: nat)
    requires wrong <= 2
    ensures slack * wrong <= 2 * slack
  {
    if wrong == 0 {
    } else if wrong == 1 {
    } else {
    }
  }

  /** A wrong answer extends the life of a code exactly when the reading is not positive or too large. */
  lemma WrongAnswerExtendsIff(s: State, wallet: string, code: string, ttl: int)
    requires VerifyCode(s, wallet, code, ttl).1.Wrong?
    ensures var remaining := s.entries[Key(wallet)].deadline - s.now;
      VerifyCode(s, wallet, code, ttl).0.entries[Key(wallet)].deadline > s.entries[Key(wallet)].deadline
      <==> (ttl <= 0 && remaining < 600000) || ttl * 1000 > remaining
  {
  }

  /** A record with a full ten minutes to live. */
  predicate Renewed(s: State, wallet: string, code: string, email: string, attempts: nat) {
    Lookup(s, wallet) == Some(Entry(code, email, attempts, s.now + 600000))
  }

  /** A wrong answer in the last millisecond, with a reading of zero, renews the record in full. */
  lemma LateWrongAnswerRenews(s: State, wallet: string, code: string, email: string, attempts: nat, wrong: string)
    requires Renewed(s, wallet, code, email, attempts) && attempts < 3 && wrong != code
    ensures var late := Next(s, Wait(599999)).0;
      var (s', reply) := Next(late, Check(wallet, wrong, 0));
      reply.Wrong? && Renewed(s', wallet, code, email, attempts + 1) && s'.now == s.now + 599999
  {
  }

  /** So the ten minutes promised in the mail do not bound a code: two late wrong answers triple them. */
  lemma TenMinutesCanTriple(wallet: string, email: string, code: string, wrong: string)
    requires wrong != code
    ensures var steps := [Send(wallet, email, code), Wait(599999), Check(wallet, wrong, 0), Wait(599999),
                          Check(wallet, wrong, 0), Wait(599999)];
      && Bounded(steps)
      && Run(steps, wallet).0.now == 1799997
      && VerifyCode(Run(steps, wallet).0, wallet, code, 0).1 == Confirmed(email)
  {
    var a := [Send(wallet, email, code), Wait(599999)];
    var b := a + [Check(wallet, wrong, 0), Wait(599999)];
    var c := b + [Check(wallet, wrong, 0), Wait(599999)];
    assert c == [Send(wallet, email, code), Wait(599999), Check(wallet, wrong, 0), Wait(599999),
                 Check(wallet, wrong, 0), Wait(599999)];
    var sent := Next(State(map[], 0), Send(wallet, email, code)).0;
    assert Renewed(sent, wallet, code, email, 0);
    TwoSteps([], Send(wallet, email, code), Wait(599999), wallet);
    assert [] + [Send(wallet, email, code), Wait(599999)] == a;
    LateWrongAnswerRenews(sent, wallet, code, email, 0, wrong);
    var once := Next(Run(a, wallet).0, Check(wallet, wrong, 0)).0;
    TwoSteps(a, Check(wallet, wrong, 0), Wait(599999), wallet);
    LateWrongAnswerRenews(once, wallet, code, email, 1, wrong);
    var twice := Next(Run(b, wallet).0, Check(wallet, wrong, 0)).0;
    TwoSteps(b, Check(wallet, wrong, 0), Wait(599999), wallet);
    assert Renewed(twice, wallet, code, email, 2);
    assert Run(c, wallet).0 == Next(twice, Wait(599999)).0;
  }

  lemma TwoSteps(steps: seq<Step>, first: Step, second: Step, wallet: string)
    ensures Run(steps + [first, second], wallet).0 == Next(Next(Run(steps, wallet).0, first).0, second).0
  {
    var all := steps + [first, second];
    assert all[..|all| - 1] == steps + [first];
    assert (steps + [first])[..|steps|] == steps;
    assert Run(steps + [first], wallet).0 == Next(Run(steps, wallet).0, first).0;
  }
}
