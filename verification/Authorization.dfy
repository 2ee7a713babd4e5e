/**
 * Concurrent card authorizations against one cache entry, at the granularity of Redis commands.
 *
 * Every call reads the entry, checks it, and later spends through the Lua script; when the script finds no entry it
 * falls back to WATCH, GET and EXEC, up to three times.  Between any two commands of one call the others may run, the
 * entry may expire and it may be overwritten, so the checks of a call may have looked at any earlier state.
 *
 * What a connection watches belongs to the connection, not to the call: `wiring` says which connection a call uses.
 */
module Authorization {
  import opened Wrappers
  import opened Decimal
  import opened SpendScript

  const MAX_ATOMIC_RETRIES: nat := 3

  type CallId = nat
  type Wiring = CallId -> nat

  datatype Phase =
    | Arrived                                 // steps 1 to 3
    | Checked                                 // steps 4 to 7 passed, on a possibly stale entry
    | Fallback(attempt: nat)                  // the script found no entry
    | Watched(attempt: nat)                   // WATCH done, GET not yet
    | Prepared(attempt: nat, seen: Budget)    // GET done and checked, EXEC not yet
    | Debited(balanceAfter: nat)              // entry updated, deadline not yet checked
    | Approved(balanceAfter: nat)
    | Declined

  datatype Call = Call(amount: nat, phase: Phase)

  datatype DebitRecord = DebitRecord(id: CallId, amount: nat)

  datatype State = State(
    entry: Option<Budget>,         // the cache entry
    version: nat,                  // counts writes to the entry
    calls: map<CallId, Call>,
    watches: map<nat, nat>,        // connections that watch the entry, since which version
    debits: seq<DebitRecord>       // every update of the entry by a call, oldest first
  )

  const INIT: State := State(None, 0, map[], map[], [])

  datatype Step =
    | Arrive(id: CallId, amount: nat)
    | Check(id: CallId, seen: Budget)         // `seen` is whatever the call read, however long ago
    | Abort(id: CallId)                       // deadline, blocked MCC or an error before the debit
    | Spend(id: CallId, replyLost: bool)      // the Lua script
    | Resend(id: CallId)                      // the script runs, its reply is lost and the client sends it again
    | Watch(id: CallId)                       // WATCH
    | Read(id: CallId)                        // GET and the checks, with UNWATCH if they fail
    | Exec(id: CallId, replyLost: bool)       // MULTI, SET, EXEC
    | Elsewhere(id: CallId)                   // EXEC or UNWATCH of a call about another entry
    | Finish(id: CallId, late: bool)          // the deadline check after the debit
    | Expire                                  // TTL
    | Overwrite(budget: Budget)               // setAuthCache: rebuild, deposit or reconciliation

  // ---------- Transitions ----------

  predicate In(s: State, id: CallId) {
    id in s.calls
  }

  predicate InPhase(s: State, id: CallId, phase: Phase) {
    In(s, id) && s.calls[id].phase == phase
  }

  function WithPhase(s: State, id: CallId, phase: Phase): State
    requires In(s, id)
  {
    s.(calls := s.calls[id := s.calls[id].(phase := phase)])
  }

  /** Debits the entry for `id` from the budget `b` the command works on. */
  function Commit(s: State, id: CallId, b: Budget, phase: Phase): State
    requires In(s, id) && s.calls[id].amount <= b.balance
  {
    var amount := s.calls[id].amount;
    WithPhase(s, id, phase).(entry := Some(Debit(b, amount)), version := s.version + 1,
                             debits := s.debits + [DebitRecord(id, amount)])
  }

  /** The next round of the fallback loop, or a decline after the last one. */
  function Retry(attempt: nat): Phase {
    if attempt + 1 < MAX_ATOMIC_RETRIES then Fallback(attempt + 1) else Declined
  }

  function SpendStep(s: State, id: CallId, replyLost: bool): State
    requires In(s, id)
  {
    match s.entry
    case None => WithPhase(s, id, if replyLost then Declined else Fallback(0))
    case Some(b) =>
      match Charge(b, s.calls[id].amount)
      case Err(_) => WithPhase(s, id, Declined)
      case Ok(after) => Commit(s, id, b, if replyLost then Declined else Debited(after.balance))
  }

  function ResendStep(s: State, id: CallId): State
    requires In(s, id)
  {
    if s.entry.Some? && Affordable(s.entry.value, s.calls[id].amount)
    then Commit(s, id, s.entry.value, s.calls[id].phase) else s
  }

  /** A connection that already watches the entry goes on watching it from where it began. */
  function WatchStep(s: State, id: CallId, connection: nat, attempt: nat): State
    requires In(s, id)
  {
    var watches := if connection in s.watches then s.watches else s.watches[connection := s.version];
    WithPhase(s, id, Watched(attempt)).(watches := watches)
  }

  function ReadStep(s: State, id: CallId, connection: nat, attempt: nat): State
    requires In(s, id)
  {
    match s.entry
    case None => WithPhase(s, id, Retry(attempt)).(watches := s.watches - {connection})
    case Some(b) =>
      if Charge(b, s.calls[id].amount).Ok? then WithPhase(s, id, Prepared(attempt, b))
      else WithPhase(s, id, Declined).(watches := s.watches - {connection})
  }

  /** EXEC goes through unless its connection watches the entry and the entry has been written since. */
  predicate Unchanged(s: State, connection: nat) {
    connection in s.watches ==> s.watches[connection] == s.version
  }

  /** EXEC ends the watch of its connection and, if it goes through, writes what the call has worked out. */
  function ExecStep(s: State, id: CallId, connection: nat, attempt: nat, seen: Budget, replyLost: bool): State
    requires In(s, id)
  {
    var cleared := s.(watches := s.watches - {connection});
    if Unchanged(s, connection) && s.calls[id].amount <= seen.balance then
      Commit(cleared, id, seen, if replyLost then Declined else Debited(seen.balance - s.calls[id].amount))
    else
      WithPhase(cleared, id, if replyLost then Declined else Retry(attempt))
  }

  predicate BeforeDebit(phase: Phase) {
    phase.Arrived? || phase.Checked? || phase.Fallback? || phase.Watched? || phase.Prepared?
  }

  /** One step; a step that is not enabled changes nothing. */
  function Next(wiring: Wiring, s: State, step: Step): State {
    match step
    case Arrive(id, amount) =>
      if In(s, id) then s
      else s.(calls := s.calls[id := Call(amount, if amount > 0 then Arrived else Declined)])
    case Check(id, seen) =>
      if InPhase(s, id, Arrived) then
        WithPhase(s, id, if Charge(seen, s.calls[id].amount).Ok? then Checked else Declined)
      else s
    case Abort(id) =>
      if In(s, id) && BeforeDebit(s.calls[id].phase) then WithPhase(s, id, Declined) else s
    case Spend(id, replyLost) => if InPhase(s, id, Checked) then SpendStep(s, id, replyLost) else s
    case Resend(id) => if InPhase(s, id, Checked) then ResendStep(s, id) else s
    case Watch(id) =>
      if In(s, id) && s.calls[id].phase.Fallback? then WatchStep(s, id, wiring(id), s.calls[id].phase.attempt) else s
    case Read(id) =>
      if In(s, id) && s.calls[id].phase.Watched? then ReadStep(s, id, wiring(id), s.calls[id].phase.attempt) else s
    case Exec(id, replyLost) =>
      if In(s, id) && s.calls[id].phase.Prepared? then
        ExecStep(s, id, wiring(id), s.calls[id].phase.attempt, s.calls[id].phase.seen, replyLost)
      else s
    case Elsewhere(id) => if In(s, id) then s else s.(watches := s.watches - {wiring(id)})
    case Finish(id, late) =>
      if In(s, id) && s.calls[id].phase.Debited? then
        WithPhase(s, id, if late then Declined else Approved(s.calls[id].phase.balanceAfter))
      else s
    case Expire => s.(entry := None, version := s.version + 1)
    case Overwrite(budget) => s.(entry := Some(budget), version := s.version + 1)
  }

  function Run(wiring: Wiring, s: State, steps: seq<Step>): State {
    if steps == [] then s else Next(wiring, Run(wiring, s, steps[..|steps| - 1]), steps[|steps| - 1])
  }

  // ---------- The debits of one call ----------

  /** How often a call was debited. */
  function DebitCount(debits: seq<DebitRecord>, id: CallId): nat {
    if debits == [] then 0
    else DebitCount(debits[..|debits| - 1], id) + if debits[|debits| - 1].id == id then 1 else 0
  }

  lemma CountSnoc(debits: seq<DebitRecord>, d: DebitRecord, id: CallId)
    ensures DebitCount(debits + [d], id) == DebitCount(debits, id) + if d.id == id then 1 else 0
  {
    assert (debits + [d])[..|debits|] == debits;
  }

  /** The step runs a script or an EXEC that takes the amount of the call from the entry. */
  predicate Debits(wiring: Wiring, s: State, step: Step, id: CallId) {
    In(s, id) &&
    match step
    case Spend(i, _) =>
      i == id && s.calls[id].phase.Checked? && s.entry.Some? && Affordable(s.entry.value, s.calls[id].amount)
    case Resend(i) =>
      i == id && s.calls[id].phase.Checked? && s.entry.Some? && Affordable(s.entry.value, s.calls[id].amount)
    case Exec(i, _) =>
      i == id && s.calls[id].phase.Prepared? && Unchanged(s, wiring(id))
      && s.calls[id].amount <= s.calls[id].phase.seen.balance
    case _ => false
  }

  /** The step debits a call that does not learn of it, or ends a debited call too late to be approved. */
  predicate Slips(wiring: Wiring, s: State, step: Step, id: CallId) {
    || ((step.Spend? || step.Exec?) && step.replyLost && Debits(wiring, s, step, id))
    || (step.Finish? && step.id == id && step.late && In(s, id) && s.calls[id].phase.Debited?)
  }

  /** Executions of a script or an EXEC for the call that debited it. */
  function Executions(wiring: Wiring, steps: seq<Step>, id: CallId): nat {
    if steps == [] then 0
    else
      var front := steps[..|steps| - 1];
      Executions(wiring, front, id)
      + if Debits(wiring, Run(wiring, INIT, front), steps[|steps| - 1], id) then 1 else 0
  }

  /** Those of them after which the script was sent again. */
  function Repeats(wiring: Wiring, steps: seq<Step>, id: CallId): nat {
    if steps == [] then 0
    else
      var front, step := steps[..|steps| - 1], steps[|steps| - 1];
      Repeats(wiring, front, id)
      + if step.Resend? && Debits(wiring, Run(wiring, INIT, front), step, id) then 1 else 0
  }

  predicate Slipped(wiring: Wiring, steps: seq<Step>, id: CallId) {
    steps != [] &&
    var front := steps[..|steps| - 1];
    Slipped(wiring, front, id) || Slips(wiring, Run(wiring, INIT, front), steps[|steps| - 1], id)
  }

  predicate Through(s: State, id: CallId) {
    In(s, id) && (s.calls[id].phase.Debited? || s.calls[id].phase.Approved?)
  }

  /** A call has been debited once for every repeat, and once more if it got through or slipped. */
  ghost predicate CallOk(s: State, id: CallId, repeats: nat, slipped: bool) {
    && DebitCount(s.debits, id) == repeats + (if Through(s, id) || slipped then 1 else 0)
    && (slipped ==> InPhase(s, id, Declined))
    && (!In(s, id) ==> repeats == 0)
  }

  /** What was debited is the amount of the call. */
  ghost predicate AmountsOk(s: State) {
    forall i | 0 <= i < |s.debits| ::
      s.debits[i].id in s.calls && s.debits[i].amount == s.calls[s.debits[i].id].amount
  }

  /** The step is one of a call, as opposed to an expiry or an overwrite. */
  predicate OfCall(step: Step) {
    !step.Expire? && !step.Overwrite?
  }

  /** The log grows by the record of the call whose step debits it, and in no other step. */
  lemma StepLogs(wiring: Wiring, s: State, step: Step)
    ensures Next(wiring, s, step).debits ==
            if OfCall(step) && Debits(wiring, s, step, step.id)
            then s.debits + [DebitRecord(step.id, s.calls[step.id].amount)] else s.debits
  {
    if step.Exec? && In(s, step.id) && s.calls[step.id].phase.Prepared? {
      var p := s.calls[step.id].phase;
      ExecLogs(s, step.id, wiring(step.id), p.attempt, p.seen, step.replyLost);
    }
  }

  lemma ExecLogs(s: State, id: CallId, connection: nat, attempt: nat, seen: Budget, replyLost: bool)
    requires In(s, id)
    ensures ExecStep(s, id, connection, attempt, seen, replyLost).debits ==
            if Unchanged(s, connection) && s.calls[id].amount <= seen.balance
            then s.debits + [DebitRecord(id, s.calls[id].amount)] else s.debits
  {
  }

  lemma StepCounts(wiring: Wiring, s: State, step: Step, id: CallId)
    ensures DebitCount(Next(wiring, s, step).debits, id) ==
            DebitCount(s.debits, id) + if Debits(wiring, s, step, id) then 1 else 0
  {
    StepLogs(wiring, s, step);
    if OfCall(step) && Debits(wiring, s, step, step.id) {
      CountSnoc(s.debits, DebitRecord(step.id, s.calls[step.id].amount), id);
    }
  }

  lemma StepKeepsAmounts(wiring: Wiring, s: State, step: Step)
    requires AmountsOk(s)
    ensures AmountsOk(Next(wiring, s, step))
  {
    StepLogs(wiring, s, step);
    CallsStay(wiring, s, step);
  }

  lemma CallsStay(wiring: Wiring, s: State, step: Step)
    ensures var s' := Next(wiring, s, step);
            forall id | id in s.calls :: id in s'.calls && s'.calls[id].amount == s.calls[id].amount
  {
  }

  lemma StepKeepsCall(wiring: Wiring, s: State, step: Step, id: CallId, repeats: nat, slipped: bool)
    requires CallOk(s, id, repeats, slipped)
    ensures CallOk(Next(wiring, s, step), id,
                   repeats + if step.Resend? && Debits(wiring, s, step, id) then 1 else 0,
                   slipped || Slips(wiring, s, step, id))
  {
    StepCounts(wiring, s, step, id);
    PhaseAfter(wiring, s, step, id);
  }

  /** Where a step leaves a call: a debit takes it through its update unless it slips or is repeated. */
  lemma PhaseAfter(wiring: Wiring, s: State, step: Step, id: CallId)
    ensures var s' := Next(wiring, s, step);
            && (In(s, id) ==> In(s', id))
            && (In(s', id) && !In(s, id) ==> !Through(s', id))
            && (Slips(wiring, s, step, id) ==> InPhase(s', id, Declined))
            && (InPhase(s, id, Declined) ==> InPhase(s', id, Declined))
            && (Through(s', id) || Slips(wiring, s, step, id)
                <==> Through(s, id) || (Debits(wiring, s, step, id) && !step.Resend?))
            && (Through(s, id) || InPhase(s, id, Declined) ==> !Debits(wiring, s, step, id))
  {
  }

  /**
   * In every run a call was debited exactly as often as a script or EXEC for it took effect: once for every time the
   * script had to be sent again, and once more if the call got past its debit or slipped.
   */
  lemma {:induction false} DebitsExactly(wiring: Wiring, steps: seq<Step>, id: CallId)
    ensures var s := Run(wiring, INIT, steps);
            && DebitCount(s.debits, id) == Executions(wiring, steps, id)
            && CallOk(s, id, Repeats(wiring, steps, id), Slipped(wiring, steps, id))
            && AmountsOk(s)
  {
    if steps != [] {
      var front, step := steps[..|steps| - 1], steps[|steps| - 1];
      DebitsExactly(wiring, front, id);
      StepCounts(wiring, Run(wiring, INIT, front), step, id);
      StepKeepsAmounts(wiring, Run(wiring, INIT, front), step);
      StepKeepsCall(wiring, Run(wiring, INIT, front), step, id, Repeats(wiring, front, id), Slipped(wiring, front, id));
    }
  }

  lemma {:induction false} CountedIsLogged(debits: seq<DebitRecord>, id: CallId) returns (i: nat)
    requires DebitCount(debits, id) > 0
    ensures i < |debits| && debits[i].id == id
  {
    if debits[|debits| - 1].id == id {
      i := |debits| - 1;
    } else {
      i := CountedIsLogged(debits[..|debits| - 1], id);
    }
  }

  predicate NoResend(steps: seq<Step>) {
    forall i | 0 <= i < |steps| :: !steps[i].Resend?
  }

  lemma {:induction false} NoRepeats(wiring: Wiring, steps: seq<Step>, id: CallId)
    requires NoResend(steps)
    ensures Repeats(wiring, steps, id) == 0
  {
    if steps != [] {
      NoRepeats(wiring, steps[..|steps| - 1], id);
    }
  }

  /**
   * Where no script is sent twice, a call is debited at most once, exactly once if it is approved, with its own amount,
   * and not at all before its update.
   */
  lemma DebitedAtMostOnce(wiring: Wiring, steps: seq<Step>, id: CallId)
    requires NoResend(steps)
    ensures var s := Run(wiring, INIT, steps);
            && DebitCount(s.debits, id) <= 1
            && (id in s.calls && s.calls[id].phase.Approved? ==>
                  && DebitCount(s.debits, id) == 1
                  && DebitRecord(id, s.calls[id].amount) in s.debits)
            && (id in s.calls && BeforeDebit(s.calls[id].phase) ==> DebitCount(s.debits, id) == 0)
  {
    DebitsExactly(wiring, steps, id);
    NoRepeats(wiring, steps, id);
    var s := Run(wiring, INIT, steps);
    if DebitCount(s.debits, id) > 0 {
      var i := CountedIsLogged(s.debits, id);
      assert s.debits[i] == DebitRecord(id, s.calls[id].amount);
    }
  }

  /**
   * In every run a declined call was debited if and only if a debiting script or EXEC of it lost its reply, its script
   * was sent again after taking effect, or it missed the deadline after its debit.
   */
  lemma DeclinedDebitedExactly(wiring: Wiring, steps: seq<Step>, id: CallId)
    requires InPhase(Run(wiring, INIT, steps), id, Declined)
    ensures DebitCount(Run(wiring, INIT, steps).debits, id) > 0
            <==> Slipped(wiring, steps, id) || Repeats(wiring, steps, id) > 0
  {
    DebitsExactly(wiring, steps, id);
  }

  // ---------- What a call goes through ----------

  /** A debit that neither slips nor is repeated reports the balance it leaves in the entry. */
  lemma DebitReportsBalance(wiring: Wiring, s: State, step: Step, id: CallId)
    requires Debits(wiring, s, step, id) && !step.Resend? && !Slips(wiring, s, step, id)
    ensures var s' := Next(wiring, s, step);
            && Through(s', id) && s'.entry.Some?
            && s'.entry.value.balance == s'.calls[id].phase.balanceAfter
            && s'.entry.value.balance + s.calls[id].amount
               == if step.Exec? then s.calls[id].phase.seen.balance else s.entry.value.balance
  {
  }

  /** Once through, a call keeps the balance it reports. */
  lemma ReportKept(wiring: Wiring, s: State, step: Step, id: CallId)
    requires Through(s, id) && Through(Next(wiring, s, step), id)
    ensures Next(wiring, s, step).calls[id].phase.balanceAfter == s.calls[id].phase.balanceAfter
  {
  }

  /** In every run a call that is debited or approved reports the balance the entry had right after its debit. */
  lemma {:induction false} ReportsItsBalance(wiring: Wiring, steps: seq<Step>, id: CallId) returns (k: nat)
    requires Through(Run(wiring, INIT, steps), id)
    ensures k < |steps| && Debits(wiring, Run(wiring, INIT, steps[..k]), steps[k], id) && !steps[k].Resend?
    ensures var after := Run(wiring, INIT, steps[..k + 1]).entry;
            after.Some? && after.value.balance == Run(wiring, INIT, steps).calls[id].phase.balanceAfter
  {
    var n := |steps| - 1;
    var front, step := steps[..n], steps[n];
    PhaseAfter(wiring, Run(wiring, INIT, front), step, id);
    if Through(Run(wiring, INIT, front), id) {
      k := ReportsItsBalance(wiring, front, id);
      ReportKept(wiring, Run(wiring, INIT, front), step, id);
      assert front[..k] == steps[..k] && front[..k + 1] == steps[..k + 1];
    } else {
      k := n;
      DebitReportsBalance(wiring, Run(wiring, INIT, front), step, id);
      assert steps[..k + 1] == steps;
    }
  }

  /** The entry a call was checked against affords its amount. */
  predicate PassesCheck(s: State, step: Step, id: CallId) {
    step.Check? && step.id == id && InPhase(s, id, Arrived) && Affordable(step.seen, s.calls[id].amount)
  }

  predicate Waiting(s: State, id: CallId) {
    !In(s, id) || s.calls[id].phase.Arrived? || s.calls[id].phase.Declined?
  }

  lemma OnlyCheckPasses(wiring: Wiring, s: State, step: Step, id: CallId)
    requires Waiting(s, id)
    ensures Waiting(Next(wiring, s, step), id) <==> !PassesCheck(s, step, id)
  {
  }

  /** In every run a call gets past its checks only on an entry that affords its amount. */
  lemma {:induction false} PassedACheck(wiring: Wiring, steps: seq<Step>, id: CallId) returns (k: nat)
    requires !Waiting(Run(wiring, INIT, steps), id)
    ensures k < |steps| && PassesCheck(Run(wiring, INIT, steps[..k]), steps[k], id)
  {
    var n := |steps| - 1;
    if Waiting(Run(wiring, INIT, steps[..n]), id) {
      k := n;
      OnlyCheckPasses(wiring, Run(wiring, INIT, steps[..n]), steps[n], id);
    } else {
      k := PassedACheck(wiring, steps[..n], id);
      assert steps[..n][..k] == steps[..k];
    }
  }

  /** What the script makes of a call: debited if it can pay, declined if not, and the fallback without an entry. */
  lemma SpendDecides(wiring: Wiring, s: State, id: CallId, replyLost: bool)
    requires InPhase(s, id, Checked)
    ensures var s' := Next(wiring, s, Spend(id, replyLost));
            var pays := s.entry.Some? && Affordable(s.entry.value, s.calls[id].amount);
            && In(s', id)
            && (s'.calls[id].phase.Debited? <==> pays && !replyLost)
            && (s'.calls[id].phase == Fallback(0) <==> s.entry == None && !replyLost)
            && (s'.calls[id].phase.Declined? <==> replyLost || (s.entry.Some? && !pays))
            && (!pays ==> s'.entry == s.entry && s'.debits == s.debits)
  {
  }

  /** A try of the fallback that finds no entry, or whose EXEC is refused, is repeated unless it was the third. */
  lemma FailedTryRepeats(wiring: Wiring, s: State, step: Step)
    requires OfCall(step) && InFlight(s, step.id)
    requires || (step.Read? && s.calls[step.id].phase.Watched? && s.entry == None)
             || (step.Exec? && s.calls[step.id].phase.Prepared? && !Unchanged(s, wiring(step.id)) && !step.replyLost)
    ensures Next(wiring, s, step).calls[step.id].phase
            == if s.calls[step.id].phase.attempt < 2 then Fallback(s.calls[step.id].phase.attempt + 1) else Declined
  {
  }

  /** How often a call has started a try of the fallback. */
  function Tries(wiring: Wiring, steps: seq<Step>, id: CallId): nat {
    if steps == [] then 0
    else
      var front, step := steps[..|steps| - 1], steps[|steps| - 1];
      var s := Run(wiring, INIT, front);
      Tries(wiring, front, id)
      + if step.Watch? && step.id == id && In(s, id) && s.calls[id].phase.Fallback? then 1 else 0
  }

  /** The attempt number counts the tries. */
  ghost predicate TriesOk(s: State, id: CallId, tries: nat) {
    && tries <= 3
    && (!In(s, id) || s.calls[id].phase.Arrived? || s.calls[id].phase.Checked? ==> tries == 0)
    && (In(s, id) && s.calls[id].phase.Fallback? ==> tries == s.calls[id].phase.attempt < 3)
    && (InFlight(s, id) ==> tries == s.calls[id].phase.attempt + 1)
  }

  lemma StepKeepsTries(wiring: Wiring, s: State, step: Step, id: CallId, tries: nat)
    requires TriesOk(s, id, tries)
    ensures TriesOk(Next(wiring, s, step), id,
                    tries + if step.Watch? && step.id == id && In(s, id) && s.calls[id].phase.Fallback? then 1 else 0)
  {
  }

  /** In every run a call tries the fallback at most three times. */
  lemma {:induction false} AtMostThreeTries(wiring: Wiring, steps: seq<Step>, id: CallId)
    ensures TriesOk(Run(wiring, INIT, steps), id, Tries(wiring, steps, id))
    ensures Tries(wiring, steps, id) <= 3
  {
    if steps != [] {
      var front := steps[..|steps| - 1];
      AtMostThreeTries(wiring, front, id);
      StepKeepsTries(wiring, Run(wiring, INIT, front), steps[|steps| - 1], id, Tries(wiring, front, id));
    }
  }

  // ---------- What a watch guarantees ----------

  /** The call is between its WATCH and its EXEC. */
  predicate InFlight(s: State, id: CallId) {
    In(s, id) && (s.calls[id].phase.Watched? || s.calls[id].phase.Prepared?)
  }

  /** No two calls on a connection are in flight at once. */
  ghost predicate OneInFlight(wiring: Wiring, s: State) {
    forall i, j | InFlight(s, i) && InFlight(s, j) && wiring(i) == wiring(j) :: i == j
  }

  /** The step ends the watch of its connection. */
  predicate MayClear(s: State, step: Step) {
    || ((step.Read? || step.Exec?) && InFlight(s, step.id))
    || (step.Elsewhere? && !In(s, step.id))
  }

  /** The step ends no watch but its own. */
  ghost predicate Considerate(wiring: Wiring, s: State, step: Step) {
    MayClear(s, step) ==> forall j | InFlight(s, j) && wiring(j) == wiring(step.id) :: j == step.id
  }

  /** A GET of the fallback finds no entry, or one that cannot pay. */
  predicate FailsToRead(s: State, step: Step) {
    && step.Read? && InFlight(s, step.id) && s.calls[step.id].phase.Watched?
    && (s.entry == None || !Affordable(s.entry.value, s.calls[step.id].amount))
  }

  /** An expiry leaves no entry and an overwrite its own, and either makes every watch there is fail. */
  lemma WritesEndWatches(wiring: Wiring, s: State, step: Step, connection: nat)
    requires step.Expire? || step.Overwrite?
    requires connection in s.watches && s.watches[connection] <= s.version
    ensures var s' := Next(wiring, s, step);
            && s'.entry == (if step.Expire? then None else Some(step.budget))
            && s'.calls == s.calls && s'.debits == s.debits && !Unchanged(s', connection)
  {
  }

  /** A connection watches from a WATCH on, and no longer after an EXEC or UNWATCH, whichever call it is of. */
  lemma WatchLifetime(wiring: Wiring, s: State, step: Step)
    requires OfCall(step)
    ensures var watches', k := Next(wiring, s, step).watches, wiring(step.id);
            && (step.Watch? && In(s, step.id) && s.calls[step.id].phase.Fallback? ==>
                  k in watches' && watches'[k] == if k in s.watches then s.watches[k] else s.version)
            && (FailsToRead(s, step) ==> k !in watches')
            && (step.Exec? && InFlight(s, step.id) && s.calls[step.id].phase.Prepared? ==> k !in watches')
            && (step.Elsewhere? && !In(s, step.id) ==> k !in watches')
            && forall c | c != k ::
                 (c in watches' <==> c in s.watches) && (c in watches' ==> watches'[c] == s.watches[c])
  {
  }

  /** A call for nothing is declined as it arrives. */
  lemma ArrivesWithAmount(wiring: Wiring, s: State, id: CallId, amount: nat)
    requires !In(s, id)
    ensures Next(wiring, s, Arrive(id, amount)).calls
            == s.calls[id := Call(amount, if amount == 0 then Declined else Arrived)]
  {
  }

  /** No call ever ends the watch of another: at any time at most one is in flight on its connection. */
  ghost predicate Alone(wiring: Wiring, steps: seq<Step>) {
    steps == [] ||
    var front := steps[..|steps| - 1];
    Alone(wiring, front) && Considerate(wiring, Run(wiring, INIT, front), steps[|steps| - 1])
  }

  /** No two calls share a connection. */
  ghost predicate OwnConnections(wiring: Wiring) {
    forall i, j :: wiring(i) == wiring(j) ==> i == j
  }

  lemma {:induction false} OwnConnectionsAlone(wiring: Wiring, steps: seq<Step>)
    requires OwnConnections(wiring)
    ensures Alone(wiring, steps)
  {
    if steps != [] {
      OwnConnectionsAlone(wiring, steps[..|steps| - 1]);
    }
  }

  /** What a call has read affords its amount. */
  ghost predicate SeenOk(s: State) {
    forall id | id in s.calls :: s.calls[id].phase.Prepared? ==> Affordable(s.calls[id].phase.seen, s.calls[id].amount)
  }

  lemma {:induction false} SeenAlways(wiring: Wiring, s: State, steps: seq<Step>)
    requires SeenOk(s)
    ensures SeenOk(Run(wiring, s, steps))
  {
    if steps != [] {
      SeenAlways(wiring, s, steps[..|steps| - 1]);
      SeenKept(wiring, Run(wiring, s, steps[..|steps| - 1]), steps[|steps| - 1]);
    }
  }

  lemma SeenKept(wiring: Wiring, s: State, step: Step)
    requires SeenOk(s)
    ensures SeenOk(Next(wiring, s, step))
  {
  }

  /** A call in flight is watched for, and if its watch still stands what it has read is still the entry. */
  ghost predicate WatchOk(s: State, connection: nat, c: Call) {
    && (c.phase.Watched? || c.phase.Prepared? ==> connection in s.watches)
    && (c.phase.Prepared? && s.watches[connection] == s.version ==> s.entry == Some(c.phase.seen))
  }

  ghost predicate WatchesOk(wiring: Wiring, s: State) {
    && (forall k | k in s.watches :: s.watches[k] <= s.version)
    && (forall id | id in s.calls :: WatchOk(s, wiring(id), s.calls[id]))
  }

  lemma VersionsKept(wiring: Wiring, s: State, step: Step)
    requires forall k | k in s.watches :: s.watches[k] <= s.version
    ensures var s' := Next(wiring, s, step); forall k | k in s'.watches :: s'.watches[k] <= s'.version
  {
  }

  /** A step that does not end the watch of a call keeps what it guarantees. */
  lemma OtherWatchKept(wiring: Wiring, s: State, step: Step, id: CallId)
    requires In(s, id) && WatchOk(s, wiring(id), s.calls[id])
    requires wiring(id) in s.watches ==> s.watches[wiring(id)] <= s.version
    requires OfCall(step) ==> step.id != id
    requires OfCall(step) && MayClear(s, step) && InFlight(s, id) ==> wiring(step.id) != wiring(id)
    ensures var s' := Next(wiring, s, step); In(s', id) && WatchOk(s', wiring(id), s'.calls[id])
  {
  }

  lemma OwnWatchKept(wiring: Wiring, s: State, step: Step)
    requires OfCall(step) && (In(s, step.id) ==> WatchOk(s, wiring(step.id), s.calls[step.id]))
    ensures var s' := Next(wiring, s, step); In(s', step.id) ==> WatchOk(s', wiring(step.id), s'.calls[step.id])
  {
  }

  lemma NoNewCall(wiring: Wiring, s: State, step: Step, id: CallId)
    requires In(Next(wiring, s, step), id) && (OfCall(step) ==> step.id != id)
    ensures In(s, id)
  {
  }

  lemma WatchesKept(wiring: Wiring, s: State, step: Step)
    requires WatchesOk(wiring, s) && Considerate(wiring, s, step)
    ensures WatchesOk(wiring, Next(wiring, s, step))
  {
    var s' := Next(wiring, s, step);
    VersionsKept(wiring, s, step);
    forall id | id in s'.calls
      ensures WatchOk(s', wiring(id), s'.calls[id])
    {
      if OfCall(step) && step.id == id {
        OwnWatchKept(wiring, s, step);
      } else {
        NoNewCall(wiring, s, step, id);
        OtherWatchKept(wiring, s, step, id);
      }
    }
  }

  lemma {:induction false} WatchesAlways(wiring: Wiring, steps: seq<Step>)
    requires Alone(wiring, steps)
    ensures WatchesOk(wiring, Run(wiring, INIT, steps))
  {
    if steps != [] {
      WatchesAlways(wiring, steps[..|steps| - 1]);
      WatchesKept(wiring, Run(wiring, INIT, steps[..|steps| - 1]), steps[|steps| - 1]);
    }
  }

  // ---------- Between two overwrites ----------

  function Sum(debits: seq<DebitRecord>): nat {
    if debits == [] then 0 else Sum(debits[..|debits| - 1]) + debits[|debits| - 1].amount
  }

  /** What the entry must look like once the debits were taken from `b0`, unless it has expired. */
  ghost predicate EntryOk(entry: Option<Budget>, b0: Budget, debits: seq<DebitRecord>) {
    && (debits == [] || Affordable(b0, Sum(debits)))
    && (entry.Some? ==> entry.value == if debits == [] then b0 else Debit(b0, Sum(debits)))
  }

  /** `b` is what is left of `b0` after the debits. */
  predicate IsLeft(b: Budget, b0: Budget, debits: seq<DebitRecord>) {
    && b.balance + Sum(debits) == b0.balance
    && b.dailySpent == b0.dailySpent + Sum(debits) && b.dailyLimit == b0.dailyLimit
    && b.monthlySpent == b0.monthlySpent + Sum(debits) && b.monthlyLimit == b0.monthlyLimit
  }

  lemma DebitExtends(b0: Budget, b: Budget, debits: seq<DebitRecord>, d: DebitRecord)
    requires debits == [] || Affordable(b0, Sum(debits))
    requires IsLeft(b, b0, debits) && Affordable(b, d.amount)
    ensures EntryOk(Some(Debit(b, d.amount)), b0, debits + [d])
  {
    assert (debits + [d])[..|debits|] == debits;
    ChargesCompose(b0, Sum(debits), d.amount);
  }

  /** A debit from anything else but what is left does not leave what must be left. */
  lemma StaleDebit(b0: Budget, b: Budget, debits: seq<DebitRecord>, d: DebitRecord)
    requires Affordable(b, d.amount) && !IsLeft(b, b0, debits)
    ensures !EntryOk(Some(Debit(b, d.amount)), b0, debits + [d])
  {
    assert (debits + [d])[..|debits|] == debits;
    assert Sum(debits + [d]) == Sum(debits) + d.amount;
  }

  /** An EXEC that goes through works on what is left of `b0` after the debits so far. */
  predicate UpToDate(wiring: Wiring, s: State, step: Step, b0: Budget, debits: seq<DebitRecord>) {
    step.Exec? && Debits(wiring, s, step, step.id) ==> IsLeft(s.calls[step.id].phase.seen, b0, debits)
  }

  /** One step adds at most one debit: from what the entry held or, with EXEC, from what the call had read. */
  lemma StepDebits(wiring: Wiring, s: State, step: Step) returns (d: DebitRecord, from: Budget)
    requires SeenOk(s) && !step.Overwrite?
    ensures var s' := Next(wiring, s, step);
            if OfCall(step) && Debits(wiring, s, step, step.id) then
              && s'.debits == s.debits + [d] && Affordable(from, d.amount) && s'.entry == Some(Debit(from, d.amount))
              && (if step.Exec? then from == s.calls[step.id].phase.seen else s.entry == Some(from))
            else s'.debits == s.debits && (s'.entry == s.entry || s'.entry == None)
  {
    d, from := DebitRecord(0, 0), Budget(0, 0, 0, 0, 0);
    if OfCall(step) && In(s, step.id) {
      d := DebitRecord(step.id, s.calls[step.id].amount);
      from := if step.Exec? && s.calls[step.id].phase.Prepared? then s.calls[step.id].phase.seen
              else if s.entry.Some? then s.entry.value else from;
    }
  }

  /** With any wiring: a step other than an overwrite keeps the entry in order if and only if an EXEC is up to date. */
  lemma StepInOrderExactly(wiring: Wiring, s: State, step: Step, b0: Budget, base: nat)
    requires SeenOk(s) && !step.Overwrite? && base <= |s.debits| && EntryOk(s.entry, b0, s.debits[base..])
    ensures var s' := Next(wiring, s, step);
            && |s.debits| <= |s'.debits| && s'.debits[..|s.debits|] == s.debits
            && (EntryOk(s'.entry, b0, s'.debits[base..]) <==> UpToDate(wiring, s, step, b0, s.debits[base..]))
  {
    var d, from := StepDebits(wiring, s, step);
    var debits := s.debits[base..];
    if OfCall(step) && Debits(wiring, s, step, step.id) {
      assert (s.debits + [d])[base..] == debits + [d];
      if IsLeft(from, b0, debits) {
        DebitExtends(b0, from, debits, d);
      } else {
        StaleDebit(b0, from, debits, d);
      }
    }
  }

  predicate NoOverwrite(steps: seq<Step>) {
    forall i | 0 <= i < |steps| :: !steps[i].Overwrite?
  }

  /**
   * From `b0` everything debited in the run together is affordable: it stays within the balance and within every
   * non-zero limit.  And the entry, unless it expires, is `b0` less exactly what was debited.
   */
  ghost predicate WithinBudget(wiring: Wiring, before: seq<Step>, steps: seq<Step>, b0: Budget) {
    var s := Run(wiring, INIT, before);
    var s' := Run(wiring, s, steps);
    |s.debits| <= |s'.debits| && EntryOk(s'.entry, b0, s'.debits[|s.debits|..])
  }

  function DebitsSince(s: State, s': State): seq<DebitRecord> {
    if |s.debits| <= |s'.debits| then s'.debits[|s.debits|..] else []
  }

  /** Every EXEC of the run that goes through is up to date. */
  ghost predicate AllUpToDate(wiring: Wiring, before: seq<Step>, steps: seq<Step>, b0: Budget) {
    steps == [] ||
    var front := steps[..|steps| - 1];
    var s, s' := Run(wiring, INIT, before), Run(wiring, Run(wiring, INIT, before), front);
    && AllUpToDate(wiring, before, front, b0)
    && UpToDate(wiring, s', steps[|steps| - 1], b0, DebitsSince(s, s'))
  }

  ghost predicate WithinBudgetThroughout(wiring: Wiring, before: seq<Step>, steps: seq<Step>, b0: Budget) {
    forall k | 0 <= k <= |steps| :: WithinBudget(wiring, before, steps[..k], b0)
  }

  lemma ThroughoutSplit(wiring: Wiring, before: seq<Step>, steps: seq<Step>, b0: Budget)
    requires steps != []
    ensures WithinBudgetThroughout(wiring, before, steps, b0)
            <==> WithinBudgetThroughout(wiring, before, steps[..|steps| - 1], b0)
                 && WithinBudget(wiring, before, steps, b0)
  {
    var front := steps[..|steps| - 1];
    assert steps[..|steps|] == steps;
    assert forall k | 0 <= k < |steps| :: front[..k] == steps[..k];
    if WithinBudgetThroughout(wiring, before, steps, b0) {
      forall k | 0 <= k <= |front|
        ensures WithinBudget(wiring, before, front[..k], b0)
      {
        assert WithinBudget(wiring, before, steps[..k], b0);
      }
    }
  }

  lemma {:induction false} DebitsGrow(wiring: Wiring, s: State, steps: seq<Step>)
    ensures var s' := Run(wiring, s, steps); |s.debits| <= |s'.debits| && s'.debits[..|s.debits|] == s.debits
  {
    if steps != [] {
      DebitsGrow(wiring, s, steps[..|steps| - 1]);
      StepLogs(wiring, Run(wiring, s, steps[..|steps| - 1]), steps[|steps| - 1]);
    }
  }

  /**
   * With any wiring, from any reachable entry `b0` and as long as nothing overwrites it: everything stays within its
   * budget throughout a run if and only if every EXEC that goes through has read what was left of the budget, however
   * the calls interleave, however stale their checks are and however often a script is sent.
   */
  lemma {:induction false} WithinBudgetExactly(wiring: Wiring, before: seq<Step>, steps: seq<Step>, b0: Budget)
    requires NoOverwrite(steps) && Run(wiring, INIT, before).entry == Some(b0)
    ensures WithinBudgetThroughout(wiring, before, steps, b0) <==> AllUpToDate(wiring, before, steps, b0)
  {
    if steps != [] {
      var front, step := steps[..|steps| - 1], steps[|steps| - 1];
      WithinBudgetExactly(wiring, before, front, b0);
      ThroughoutSplit(wiring, before, steps, b0);
      LastWithinBudget(wiring, before, front, b0);
      if WithinBudget(wiring, before, front, b0) {
        var s, s' := Run(wiring, INIT, before), Run(wiring, Run(wiring, INIT, before), front);
        SeenAlways(wiring, INIT, before);
        SeenAlways(wiring, s, front);
        StepInOrderExactly(wiring, s', step, b0, |s.debits|);
      }
    } else {
      assert WithinBudget(wiring, before, [], b0);
    }
  }

  lemma LastWithinBudget(wiring: Wiring, before: seq<Step>, steps: seq<Step>, b0: Budget)
    ensures WithinBudgetThroughout(wiring, before, steps, b0) ==> WithinBudget(wiring, before, steps, b0)
  {
    assert steps[..|steps|] == steps;
  }

  /** A call whose watch stands has read what is left. */
  lemma WatchedIsUpToDate(wiring: Wiring, s: State, step: Step, b0: Budget, base: nat)
    requires WatchesOk(wiring, s) && base <= |s.debits| && EntryOk(s.entry, b0, s.debits[base..])
    ensures UpToDate(wiring, s, step, b0, s.debits[base..])
  {
    if step.Exec? && Debits(wiring, s, step, step.id) {
      assert WatchOk(s, wiring(step.id), s.calls[step.id]);
    }
  }

  lemma {:induction false} AloneIsUpToDate(wiring: Wiring, before: seq<Step>, steps: seq<Step>, b0: Budget)
    requires Alone(wiring, before + steps)
    requires NoOverwrite(steps) && Run(wiring, INIT, before).entry == Some(b0)
    ensures AllUpToDate(wiring, before, steps, b0) && WithinBudget(wiring, before, steps, b0)
  {
    WithinBudgetExactly(wiring, before, steps, b0);
    if steps != [] {
      var front := steps[..|steps| - 1];
      assert (before + steps)[..|before + steps| - 1] == before + front;
      AloneIsUpToDate(wiring, before, front, b0);
      WatchesAlways(wiring, before + front);
      RunAppend(wiring, INIT, before, front);
      WatchedIsUpToDate(wiring, Run(wiring, Run(wiring, INIT, before), front), steps[|steps| - 1], b0,
                        |Run(wiring, INIT, before).debits|);
    }
    LastWithinBudget(wiring, before, steps, b0);
  }

  /**
   * Where at most one call at a time is between WATCH and EXEC on a connection: from any reachable entry `b0`, as long
   * as nothing overwrites it, everything stays within its budget.
   */
  lemma EpochAffordable(wiring: Wiring, before: seq<Step>, steps: seq<Step>, b0: Budget)
    requires Alone(wiring, before + steps)
    requires NoOverwrite(steps) && Run(wiring, INIT, before).entry == Some(b0)
    ensures WithinBudgetThroughout(wiring, before, steps, b0)
  {
    AloneIsUpToDate(wiring, before, steps, b0);
    WithinBudgetExactly(wiring, before, steps, b0);
  }

  predicate NoExec(steps: seq<Step>) {
    forall i | 0 <= i < |steps| :: !steps[i].Exec?
  }

  /** With any wiring: as long as every spend goes through the script, everything stays within its budget. */
  lemma {:induction false} ScriptsAffordable(wiring: Wiring, before: seq<Step>, steps: seq<Step>, b0: Budget)
    requires NoExec(steps) && NoOverwrite(steps) && Run(wiring, INIT, before).entry == Some(b0)
    ensures AllUpToDate(wiring, before, steps, b0) && WithinBudgetThroughout(wiring, before, steps, b0)
  {
    if steps != [] {
      ScriptsAffordable(wiring, before, steps[..|steps| - 1], b0);
      LastWithinBudget(wiring, before, steps[..|steps| - 1], b0);
    }
    WithinBudgetExactly(wiring, before, steps, b0);
  }

  // ---------- Approved calls ----------

  function AmountsOf(calls: map<CallId, Call>, ids: seq<CallId>): nat
    requires forall i | 0 <= i < |ids| :: ids[i] in calls
  {
    if ids == [] then 0 else calls[ids[0]].amount + AmountsOf(calls, ids[1..])
  }

  predicate Distinct(ids: seq<CallId>) {
    forall i, j | 0 <= i < j < |ids| :: ids[i] != ids[j]
  }

  lemma {:induction false} AmountsWithout(calls: map<CallId, Call>, ids: seq<CallId>, k: nat)
    requires k < |ids| && forall i | 0 <= i < |ids| :: ids[i] in calls
    ensures AmountsOf(calls, ids) == AmountsOf(calls, ids[..k] + ids[k + 1..]) + calls[ids[k]].amount
  {
    var rest := ids[..k] + ids[k + 1..];
    if k == 0 {
      assert rest == ids[1..];
    } else {
      AmountsWithout(calls, ids[1..], k - 1);
      assert rest[1..] == ids[1..][..k - 1] + ids[1..][k..];
    }
  }

  ghost predicate AllLogged(debits: seq<DebitRecord>, calls: map<CallId, Call>, ids: seq<CallId>) {
    forall i | 0 <= i < |ids| :: ids[i] in calls && DebitRecord(ids[i], calls[ids[i]].amount) in debits
  }

  /** Distinct logged calls account for no more than the log. */
  lemma {:induction false} LoggedAmounts(debits: seq<DebitRecord>, calls: map<CallId, Call>, ids: seq<CallId>)
    requires Distinct(ids) && AllLogged(debits, calls, ids)
    ensures AmountsOf(calls, ids) <= Sum(debits)
    decreases |debits|
  {
    if debits != [] {
      var front, last := debits[..|debits| - 1], debits[|debits| - 1];
      if k :| 0 <= k < |ids| && DebitRecord(ids[k], calls[ids[k]].amount) == last {
        AmountsWithout(calls, ids, k);
        LoggedAmounts(front, calls, ids[..k] + ids[k + 1..]);
      } else {
        LoggedAmounts(front, calls, ids);
      }
    }
  }

  /**
   * With any wiring: any calls approved since the entry was `b0` (not debited before), with no overwrite in between and
   * every EXEC up to date: their amounts together fit the balance and every non-zero limit of `b0`.
   */
  lemma ApprovalsFit(wiring: Wiring, before: seq<Step>, steps: seq<Step>, b0: Budget, ids: seq<CallId>)
    requires NoOverwrite(steps) && Run(wiring, INIT, before).entry == Some(b0)
    requires AllUpToDate(wiring, before, steps, b0)
    requires Distinct(ids) && ids != []
    requires forall i | 0 <= i < |ids| ::
               && ids[i] in Run(wiring, INIT, before + steps).calls
               && Run(wiring, INIT, before + steps).calls[ids[i]].phase.Approved?
               && DebitCount(Run(wiring, INIT, before).debits, ids[i]) == 0
    ensures Affordable(b0, AmountsOf(Run(wiring, INIT, before + steps).calls, ids))
  {
    var s := Run(wiring, INIT, before);
    var s' := Run(wiring, s, steps);
    RunAppend(wiring, INIT, before, steps);
    WithinBudgetExactly(wiring, before, steps, b0);
    LastWithinBudget(wiring, before, steps, b0);
    DebitsGrow(wiring, s, steps);
    var spent := s'.debits[|s.debits|..];
    forall i | 0 <= i < |ids|
      ensures DebitRecord(ids[i], s'.calls[ids[i]].amount) in spent
    {
      DebitsExactly(wiring, before + steps, ids[i]);
      LoggedSince(s, s', ids[i]);
    }
    LoggedAmounts(spent, s'.calls, ids);
    assert DebitRecord(ids[0], s'.calls[ids[0]].amount) in spent;
  }

  lemma LoggedSince(s: State, s': State, id: CallId)
    requires AmountsOk(s') && In(s', id) && DebitCount(s'.debits, id) > 0 && DebitCount(s.debits, id) == 0
    requires |s.debits| <= |s'.debits| && s'.debits[..|s.debits|] == s.debits
    ensures DebitRecord(id, s'.calls[id].amount) in s'.debits[|s.debits|..]
  {
    var i := CountedIsLogged(s'.debits, id);
    if i < |s.debits| {
      LoggedIsCounted(s.debits, id, i);
      assert false;
    }
    assert s'.debits[|s.debits|..][i - |s.debits|] == DebitRecord(id, s'.calls[id].amount);
  }

  lemma {:induction false} LoggedIsCounted(debits: seq<DebitRecord>, id: CallId, i: nat)
    requires i < |debits| && debits[i].id == id
    ensures DebitCount(debits, id) > 0
  {
    if i < |debits| - 1 {
      LoggedIsCounted(debits[..|debits| - 1], id, i);
    }
  }

  // ---------- Runs step by step ----------

  lemma RunSnoc(wiring: Wiring, s: State, steps: seq<Step>, step: Step)
    ensures Run(wiring, s, steps + [step]) == Next(wiring, Run(wiring, s, steps), step)
  {
    assert (steps + [step])[..|steps|] == steps;
  }

  lemma {:induction false} RunAppend(wiring: Wiring, s: State, first: seq<Step>, second: seq<Step>)
    ensures Run(wiring, s, first + second) == Run(wiring, Run(wiring, s, first), second)
  {
    if second == [] {
      assert first + second == first;
    } else {
      RunAppend(wiring, s, first, second[..|second| - 1]);
      assert (first + second)[..|first + second| - 1] == first + second[..|second| - 1];
    }
  }

  lemma RunTwo(wiring: Wiring, s: State, a: Step, b: Step)
    ensures Run(wiring, s, [a, b]) == Next(wiring, Next(wiring, s, a), b)
  {
    RunSnoc(wiring, s, [], a);
    RunSnoc(wiring, s, [a], b);
    assert [] + [a] == [a] && [a] + [b] == [a, b];
  }

  lemma RunThree(wiring: Wiring, s: State, a: Step, b: Step, c: Step)
    ensures Run(wiring, s, [a, b, c]) == Next(wiring, Next(wiring, Next(wiring, s, a), b), c)
  {
    RunTwo(wiring, s, a, b);
    RunSnoc(wiring, s, [a, b], c);
    assert [a, b] + [c] == [a, b, c];
  }

  // ---------- Calls that share a connection ----------

  /** Two calls for one unit each, both in the same phase. */
  function Pair(i: CallId, j: CallId, phase: Phase): map<CallId, Call> {
    map[i := Call(1, phase), j := Call(1, phase)]
  }

  const ONE: Budget := Budget(1, 0, 0, 0, 0)

  /** Two calls find no entry when they spend, and it is then rebuilt with one unit. */
  function Rebuild(i: CallId, j: CallId): seq<Step> {
    [Arrive(i, 1), Arrive(j, 1)] + [Check(i, ONE), Check(j, ONE)] + [Spend(i, false), Spend(j, false)]
    + [Overwrite(ONE)]
  }

  lemma Rebuilt(wiring: Wiring, i: CallId, j: CallId)
    requires i != j
    ensures Run(wiring, INIT, Rebuild(i, j)) == State(Some(ONE), 1, Pair(i, j, Fallback(0)), map[], [])
  {
    var a, b, c := [Arrive(i, 1), Arrive(j, 1)], [Check(i, ONE), Check(j, ONE)], [Spend(i, false), Spend(j, false)];
    RunTwo(wiring, INIT, Arrive(i, 1), Arrive(j, 1));
    var s1 := INIT.(calls := Pair(i, j, Arrived));
    assert Run(wiring, INIT, a) == s1;
    RunTwo(wiring, s1, Check(i, ONE), Check(j, ONE));
    RunAppend(wiring, INIT, a, b);
    assert Run(wiring, INIT, a + b) == INIT.(calls := Pair(i, j, Checked)) by { BothMove(i, j, Arrived, Checked); }
    RunTwo(wiring, INIT.(calls := Pair(i, j, Checked)), Spend(i, false), Spend(j, false));
    RunAppend(wiring, INIT, a + b, c);
    assert Run(wiring, INIT, a + b + c) == INIT.(calls := Pair(i, j, Fallback(0))) by {
      BothMove(i, j, Checked, Fallback(0));
    }
    RunSnoc(wiring, INIT, a + b + c, Overwrite(ONE));
  }

  lemma BothMove(i: CallId, j: CallId, was: Phase, phase: Phase)
    requires i != j
    ensures Pair(i, j, was)[i := Call(1, phase)][j := Call(1, phase)] == Pair(i, j, phase)
  {
  }

  lemma BothWatch(wiring: Wiring, i: CallId, j: CallId)
    requires i != j && wiring(i) == wiring(j)
    ensures Run(wiring, State(Some(ONE), 1, Pair(i, j, Fallback(0)), map[], []), [Watch(i), Watch(j)])
            == State(Some(ONE), 1, Pair(i, j, Watched(0)), map[wiring(i) := 1], [])
  {
    RunTwo(wiring, State(Some(ONE), 1, Pair(i, j, Fallback(0)), map[], []), Watch(i), Watch(j));
    BothMove(i, j, Fallback(0), Watched(0));
  }

  lemma BothRead(wiring: Wiring, i: CallId, j: CallId)
    requires i != j
    ensures Run(wiring, State(Some(ONE), 1, Pair(i, j, Watched(0)), map[wiring(i) := 1], []), [Read(i), Read(j)])
            == State(Some(ONE), 1, Pair(i, j, Prepared(0, ONE)), map[wiring(i) := 1], [])
  {
    RunTwo(wiring, State(Some(ONE), 1, Pair(i, j, Watched(0)), map[wiring(i) := 1], []), Read(i), Read(j));
    BothMove(i, j, Watched(0), Prepared(0, ONE));
  }

  /** The first EXEC ends the watch for both, so the second goes through as well. */
  lemma BothExecute(wiring: Wiring, i: CallId, j: CallId)
    requires i != j && wiring(i) == wiring(j)
    ensures Run(wiring, State(Some(ONE), 1, Pair(i, j, Prepared(0, ONE)), map[wiring(i) := 1], []),
                [Exec(i, false), Exec(j, false)]).debits
            == [DebitRecord(i, 1), DebitRecord(j, 1)]
  {
    var s := State(Some(ONE), 1, Pair(i, j, Prepared(0, ONE)), map[wiring(i) := 1], []);
    RunTwo(wiring, s, Exec(i, false), Exec(j, false));
    var s1 := Next(wiring, s, Exec(i, false));
    assert s1.debits == [DebitRecord(i, 1)] && s1.calls[j] == s.calls[j] && wiring(j) !in s1.watches;
  }

  function SpendTogether(i: CallId, j: CallId): seq<Step> {
    [Watch(i), Watch(j)] + [Read(i), Read(j)] + [Exec(i, false), Exec(j, false)]
  }

  lemma BothDebited(wiring: Wiring, i: CallId, j: CallId)
    requires i != j && wiring(i) == wiring(j)
    ensures Run(wiring, State(Some(ONE), 1, Pair(i, j, Fallback(0)), map[], []), SpendTogether(i, j)).debits
            == [DebitRecord(i, 1), DebitRecord(j, 1)]
  {
    var s := State(Some(ONE), 1, Pair(i, j, Fallback(0)), map[], []);
    RunAppend(wiring, s, [Watch(i), Watch(j)] + [Read(i), Read(j)], [Exec(i, false), Exec(j, false)]);
    RunAppend(wiring, s, [Watch(i), Watch(j)], [Read(i), Read(j)]);
    BothWatch(wiring, i, j);
    BothRead(wiring, i, j);
    BothExecute(wiring, i, j);
  }

  lemma TwoUnits(i: CallId, j: CallId)
    ensures Sum([DebitRecord(i, 1), DebitRecord(j, 1)]) == 2
  {
    var one := [DebitRecord(i, 1)];
    assert [DebitRecord(i, 1), DebitRecord(j, 1)][..1] == one && one[..0] == [];
    assert Sum(one) == 1;
  }

  /** Two calls on one connection: both are debited the last unit. */
  lemma SharedWatchOverspends(wiring: Wiring, i: CallId, j: CallId)
    requires i != j && wiring(i) == wiring(j)
    ensures var s := Run(wiring, INIT, Rebuild(i, j));
            && s.entry == Some(ONE) && s.debits == [] && NoOverwrite(SpendTogether(i, j))
            && Run(wiring, s, SpendTogether(i, j)).debits == [DebitRecord(i, 1), DebitRecord(j, 1)]
            && !WithinBudget(wiring, Rebuild(i, j), SpendTogether(i, j), ONE)
  {
    Rebuilt(wiring, i, j);
    BothDebited(wiring, i, j);
    TwoUnits(i, j);
    var debits := [DebitRecord(i, 1), DebitRecord(j, 1)];
    assert debits[0..] == debits;
  }

  /** Debits stay within the budget in all runs if and only if no two calls share a connection. */
  lemma OwnConnectionsExactly(wiring: Wiring)
    ensures OwnConnections(wiring)
            <==> forall before, steps, b0 |
                   NoOverwrite(steps) && Run(wiring, INIT, before).entry == Some(b0) ::
                   WithinBudget(wiring, before, steps, b0)
  {
    if OwnConnections(wiring) {
      forall before, steps, b0 | NoOverwrite(steps) && Run(wiring, INIT, before).entry == Some(b0)
        ensures WithinBudget(wiring, before, steps, b0)
      {
        OwnConnectionsAlone(wiring, before + steps);
        AloneIsUpToDate(wiring, before, steps, b0);
      }
    } else {
      var i, j :| wiring(i) == wiring(j) && i != j;
      SharedWatchOverspends(wiring, i, j);
    }
  }

  // ---------- A decline may have been debited ----------

  /** The deadline check comes after the debit, so a declined call may have reduced the balance. */
  lemma LateDeclineKeepsDebit(wiring: Wiring, b: Budget, amount: nat)
    requires amount > 0 && Affordable(b, amount)
    ensures var s := Run(wiring, INIT, [Overwrite(b), Arrive(0, amount), Check(0, b)]
                                       + [Spend(0, false), Finish(0, true), Expire]);
            InPhase(s, 0, Declined) && s.debits == [DebitRecord(0, amount)]
  {
    RunAppend(wiring, INIT, [Overwrite(b), Arrive(0, amount), Check(0, b)], [Spend(0, false), Finish(0, true), Expire]);
    RunThree(wiring, INIT, Overwrite(b), Arrive(0, amount), Check(0, b));
    var s := State(Some(b), 1, map[0 := Call(amount, Checked)], map[], []);
    assert Run(wiring, INIT, [Overwrite(b), Arrive(0, amount), Check(0, b)]) == s;
    RunThree(wiring, s, Spend(0, false), Finish(0, true), Expire);
  }

  // ---------- The retry loop of one call ----------

  class AuthorizationEngine {
    const redis: AuthStore

    constructor (redis: AuthStore)
      ensures this.redis == redis
    {
      this.redis := redis;
    }

    /**
     * `atomicSpendUpdate` when nothing else touches the entry meanwhile: the script decides, and the fallback loop,
     * entered only when there is no entry, finds none either.
     */
    method AtomicSpendUpdate(eoaAddress: string, amount: nat) returns (updated: Option<Cache>)
      requires redis.Valid()
      modifies redis
      ensures redis.Valid()
      ensures var reply := ReplyOf(old(redis.entries), eoaAddress, amount);
              && redis.entries == StoreAfter(old(redis.entries), eoaAddress, reply)
              && updated == if reply.Spent? then Some(reply.cache) else None
      ensures SpendDone(old(redis.entries), redis.entries, eoaAddress, amount,
                        ReplyOf(old(redis.entries), eoaAddress, amount))
    {
      DecimalDenotes(amount);
      var reply := redis.LuaSpend(eoaAddress, ToDecimal(amount));
      if reply.Refused? {
        return None;
      }
      if reply.Spent? {
        return Some(reply.cache);
      }
      updated := Fallback(eoaAddress, amount);
    }

    /** The fallback loop; with no other writer a retry can only be due to a missing entry. */
    method Fallback(eoaAddress: string, amount: nat) returns (updated: Option<Cache>)
      requires redis.Valid()
      modifies redis
      ensures redis.Valid()
      ensures var reply := ReplyOf(old(redis.entries), eoaAddress, amount);
              && redis.entries == StoreAfter(old(redis.entries), eoaAddress, reply)
              && updated == if reply.Spent? then Some(reply.cache) else None
      ensures SpendDone(old(redis.entries), redis.entries, eoaAddress, amount,
                        ReplyOf(old(redis.entries), eoaAddress, amount))
    {
      for attempt := 0 to MAX_ATOMIC_RETRIES
        invariant redis.Valid() && redis.entries == old(redis.entries)
        invariant attempt > 0 ==> eoaAddress !in redis.entries
      {
        var fallback := redis.BigIntSpend(eoaAddress, amount);
        if fallback.Refused? {
          return None;
        }
        if fallback.Spent? {
          return Some(fallback.cache);
        }
      }
      return None;
    }
  }
}
