/**
 * When a settlement given up by the service is final: whether its funds have moved, or can still move, is decided by
 * its transactions alone.
 */
module SettlementFinality {
  import opened Words
  import opened Wrappers
  import opened SpendSettler
  import opened SettlementProtocol

  predicate HasSucceeded(txs: seq<Tx>, token: Token) {
    exists k | 0 <= k < |txs| :: txs[k].token == token && txs[k].status.Succeeded?
  }

  ghost predicate SettledBySuccess(s: State, token: Token) {
    token in Tokens(s.chain) <==> HasSucceeded(s.txs, token)
  }

  lemma MineKeepsSuccess(s: State, k: nat, outOfGas: bool, maxSettleAmount: nat, transfer: Transfer, now: nat,
                         token: Token)
    requires SettledBySuccess(s, token) && k < |s.txs| && s.txs[k].status.Pending?
    ensures SettledBySuccess(MineStep(s, k, outOfGas, maxSettleAmount, transfer, now), token)
  {
    var s' := MineStep(s, k, outOfGas, maxSettleAmount, transfer, now);
    var tx := s.txs[k];
    TokensSnoc(s.chain, Settlement(tx.token, tx.amount, now));
    if HasSucceeded(s.txs, token) {
      var j :| 0 <= j < |s.txs| && s.txs[j].token == token && s.txs[j].status.Succeeded?;
      assert s'.txs[j] == s.txs[j];
    }
    if s'.txs[k].status.Succeeded? && tx.token == token {
      assert HasSucceeded(s'.txs, token);
    }
  }

  lemma ReorgKeepsSuccess(s: State, n: nat, revived: set<nat>, token: Token)
    requires SettledBySuccess(s, token) && n <= |s.chain|
    ensures SettledBySuccess(ReorgStep(s, n, revived), token)
  {
    var s' := ReorgStep(s, n, revived);
    if token in Tokens(s'.chain) {
      var j :| 0 <= j < |s'.chain| && s'.chain[j].token == token;
      assert s.chain[j].token == token;
      var k :| 0 <= k < |s.txs| && s.txs[k].token == token && s.txs[k].status.Succeeded?;
      assert s'.txs[k] == s.txs[k];
    }
  }

  lemma StepKeepsSuccess(config: Config, s: State, step: Step, token: Token)
    requires SettledBySuccess(s, token)
    ensures SettledBySuccess(Next(config, s, step), token)
  {
    var s' := Next(config, s, step);
    if step.Mine? && s' != s {
      MineKeepsSuccess(s, step.k, step.outOfGas, step.maxSettleAmount, step.transfer, step.now, token);
    } else if step.Reorg? && s' != s {
      ReorgKeepsSuccess(s, step.n, step.revived, token);
    } else if HasSucceeded(s.txs, token) {
      var j :| 0 <= j < |s.txs| && s.txs[j].token == token && s.txs[j].status.Succeeded?;
      assert s'.txs[j] == s.txs[j];
    }
  }

  /** In every run a token is settled on the chain exactly if one of the service's transactions for it succeeded. */
  lemma {:induction false} SettledIffSucceeded(config: Config, steps: seq<Step>, token: Token)
    ensures var s := Run(config, INIT, steps);
            token in Tokens(s.chain) <==> HasSucceeded(s.txs, token)
  {
    if steps != [] {
      SettledIffSucceeded(config, steps[..|steps| - 1], token);
      StepKeepsSuccess(config, Run(config, INIT, steps[..|steps| - 1]), steps[|steps| - 1], token);
    }
  }

  // ---------- What can still happen ----------

  /** The service is not at work on the token. */
  predicate Abandoned(s: State, token: Token) {
    forall i | 0 <= i < |s.tasks| :: s.tasks[i].job.token == token ==> !Live(s.tasks[i])
  }

  /** The step brings no delivery for the token in from outside, and no block is replaced. */
  predicate LeavesAlone(s: State, step: Step, token: Token) {
    && !step.Reorg?
    && (step.Enqueue? ==> step.token != token)
    && (step.Redeliver? && step.i < |s.tasks| ==> s.tasks[step.i].job.token != token)
  }

  predicate Undisturbed(config: Config, s: State, steps: seq<Step>, token: Token) {
    steps == [] ||
    var front := steps[..|steps| - 1];
    Undisturbed(config, s, front, token) && LeavesAlone(Run(config, s, front), steps[|steps| - 1], token)
  }

  /** The contract accepts the amount, if the token is new to it. */
  predicate Settleable(chain: seq<Settlement>, amount: nat) {
    0 < amount < TWO_128 && Total(chain) + amount < TWO_256
  }

  /** The transaction has moved its funds, or waits to be mined with an amount the contract accepts. */
  predicate Open(s: State, tx: Tx) {
    tx.status.Succeeded? || (tx.status.Pending? && Settleable(s.chain, tx.amount))
  }

  predicate HasOpen(s: State, token: Token) {
    exists k | 0 <= k < |s.txs| :: s.txs[k].token == token && Open(s, s.txs[k])
  }

  /** Nothing about the token can happen any more. */
  ghost predicate Dead(s: State, token: Token) {
    Abandoned(s, token) && token !in Tokens(s.chain) && !HasOpen(s, token)
  }

  lemma MineKeepsDead(s: State, k: nat, outOfGas: bool, maxSettleAmount: nat, transfer: Transfer, now: nat,
                      token: Token)
    requires Dead(s, token) && k < |s.txs| && s.txs[k].status.Pending?
    ensures Dead(MineStep(s, k, outOfGas, maxSettleAmount, transfer, now), token)
  {
    var s' := MineStep(s, k, outOfGas, maxSettleAmount, transfer, now);
    var tx := s.txs[k];
    TokensSnoc(s.chain, Settlement(tx.token, tx.amount, now));
    TotalSnoc(s.chain, Settlement(tx.token, tx.amount, now));
    assert tx.token == token ==> !Open(s, tx);
    forall j | 0 <= j < |s'.txs| && s'.txs[j].token == token
      ensures !Open(s', s'.txs[j])
    {
      assert !Open(s, s.txs[j]);
    }
  }

  lemma StepKeepsAbandoned(config: Config, s: State, step: Step, token: Token)
    requires Abandoned(s, token) && LeavesAlone(s, step, token)
    ensures Abandoned(Next(config, s, step), token)
    ensures !step.Mine? ==> Next(config, s, step).chain == s.chain
    ensures !step.Mine? ==> s.txs <= Next(config, s, step).txs
    ensures forall k | |s.txs| <= k < |Next(config, s, step).txs| :: Next(config, s, step).txs[k].token != token
  {
  }

  lemma StepKeepsDead(config: Config, s: State, step: Step, token: Token)
    requires Dead(s, token) && LeavesAlone(s, step, token)
    ensures Dead(Next(config, s, step), token)
  {
    var s' := Next(config, s, step);
    if step.Mine? {
      if s' != s {
        MineKeepsDead(s, step.k, step.outOfGas, step.maxSettleAmount, step.transfer, step.now, token);
      }
    } else {
      StepKeepsAbandoned(config, s, step, token);
      forall j | 0 <= j < |s'.txs| && s'.txs[j].token == token
        ensures !Open(s', s'.txs[j])
      {
        assert j < |s.txs| && s'.txs[j] == s.txs[j];
        assert !Open(s, s.txs[j]);
      }
    }
  }

  lemma {:induction false} DeadForever(config: Config, s: State, steps: seq<Step>, token: Token)
    requires Dead(s, token) && Undisturbed(config, s, steps, token)
    ensures Dead(Run(config, s, steps), token)
  {
    if steps != [] {
      DeadForever(config, s, steps[..|steps| - 1], token);
      StepKeepsDead(config, Run(config, s, steps[..|steps| - 1]), steps[|steps| - 1], token);
    }
  }

  /** A pending transaction with an acceptable amount settles a new token when it is mined. */
  lemma MineNow(config: Config, s: State, k: nat) returns (mine: Step)
    requires k < |s.txs| && s.txs[k].status.Pending? && Settleable(s.chain, s.txs[k].amount)
    requires s.txs[k].token !in Tokens(s.chain)
    ensures mine.Mine? && s.txs[k].token in Tokens(Next(config, s, mine).chain)
  {
    var tx := s.txs[k];
    mine := Mine(k, false, tx.amount, Executed(0, tx.amount), LastTime(s.chain));
    TokensSnoc(s.chain, Settlement(tx.token, tx.amount, LastTime(s.chain)));
  }

  /** An open transaction has settled the token, or does so when it is mined next. */
  lemma OpenSettles(config: Config, s: State, token: Token) returns (steps: seq<Step>)
    requires SettledBySuccess(s, token) && HasOpen(s, token)
    ensures Undisturbed(config, s, steps, token) && token in Tokens(Run(config, s, steps).chain)
  {
    if token in Tokens(s.chain) {
      steps := [];
      return;
    }
    var k :| 0 <= k < |s.txs| && s.txs[k].token == token && Open(s, s.txs[k]);
    assert !s.txs[k].status.Succeeded?;
    var mine := MineNow(config, s, k);
    steps := [mine];
    RunSnoc(config, s, [], mine);
    assert [] + [mine] == steps;
    assert Undisturbed(config, s, steps[..0], token) && LeavesAlone(Run(config, s, steps[..0]), mine, token);
  }

  /**
   * A token the service no longer works on, and that nothing brings back: unless blocks are replaced its funds have
   * moved, or can still move, if and only if one of its transactions succeeded or is pending with an amount the
   * contract accepts.
   */
  lemma FundsMayMoveExactly(config: Config, before: seq<Step>, token: Token)
    requires Abandoned(Run(config, INIT, before), token)
    ensures var s := Run(config, INIT, before);
            HasOpen(s, token) <==>
            exists steps :: Undisturbed(config, s, steps, token) && token in Tokens(Run(config, s, steps).chain)
  {
    var s := Run(config, INIT, before);
    SettledIffSucceeded(config, before, token);
    if HasOpen(s, token) {
      var steps := OpenSettles(config, s, token);
    } else {
      assert forall k | 0 <= k < |s.txs| && s.txs[k].token == token :: !Open(s, s.txs[k]);
      forall steps | Undisturbed(config, s, steps, token)
        ensures token !in Tokens(Run(config, s, steps).chain)
      {
        DeadForever(config, s, steps, token);
      }
    }
  }

  /**
   * So the status `failed` of a token with acceptable amounts is final, its funds never having moved and never going
   * to, if and only if all its transactions have reverted.
   */
  lemma FailedIsFinalExactly(config: Config, before: seq<Step>, token: Token)
    requires var s := Run(config, INIT, before);
             && token in s.db && s.db[token].StatusFailed? && Abandoned(s, token)
             && forall k | 0 <= k < |s.txs| :: s.txs[k].token == token ==> Settleable(s.chain, s.txs[k].amount)
    ensures var s := Run(config, INIT, before);
            (forall steps | Undisturbed(config, s, steps, token) :: token !in Tokens(Run(config, s, steps).chain))
            <==> forall k | 0 <= k < |s.txs| :: s.txs[k].token == token ==> s.txs[k].status.Reverted?
  {
    FundsMayMoveExactly(config, before, token);
    var s := Run(config, INIT, before);
    if k :| 0 <= k < |s.txs| && s.txs[k].token == token && !s.txs[k].status.Reverted? {
      assert Open(s, s.txs[k]);
    }
  }
}
