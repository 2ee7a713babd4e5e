/** `processJob` as the service runs it: one delivered job from start to end, every effect a step of the protocol. */
module SettlementService {
  import opened Wrappers
  import opened SpendSettler
  import opened SettlementProtocol

  /** The chain's side of a transaction that is mined while the service waits for it. */
  datatype Mining = Mining(outOfGas: bool, maxSettleAmount: nat, transfer: Transfer, now: nat)

  /** What the RPC node, the queue and the database do during one attempt. */
  datatype Environment = Environment(
    isSettled: Option<bool>,
    estimate: Option<nat>,
    send: Send,
    mining: Option<Mining>,
    receiptLost: bool,
    queueOk: bool,
    evicted: bool,
    dbOk: bool)

  /** Whether the transaction is mined and settles the token. */
  predicate Settles(s: State, job: Job, mining: Option<Mining>) {
    match mining
    case None => false
    case Some(m) =>
      && !m.outOfGas && LastTime(s.chain) <= m.now
      && Refusal(s.chain, m.maxSettleAmount, job.amount, job.token, m.transfer).None?
  }

  /** Whether an attempt ends with the service knowing that the token is settled. */
  predicate Succeeds(s: State, job: Job, env: Environment) {
    match env.isSettled
    case None => false
    case Some(settled) =>
      settled || (env.send.Acknowledged? && !env.receiptLost && Settles(s, job, env.mining))
  }

  /** Transactions sent by an attempt: at most one, for the job's token and amount, with the bumped gas. */
  function Sent(config: Config, job: Job, env: Environment): seq<(Token, nat, nat)> {
    if env.isSettled == Some(false) && !env.send.NotSent? then
      var base := if env.estimate.Some? then env.estimate.value else FALLBACK_GAS;
      [(job.token, job.amount, ApplyGasBump(base, job.attempt, config.gasBumpPercent))]
    else []
  }

  /** The calls behind the first `n` transactions, without their fate. */
  function CallsOf(txs: seq<Tx>): seq<(Token, nat, nat)> {
    seq(|txs|, k requires 0 <= k < |txs| => (txs[k].token, txs[k].amount, txs[k].gas))
  }

  class SettlementService {
    const config: Config
    var state: State

    constructor (config: Config)
      ensures this.config == config && state == INIT
    {
      this.config := config;
      this.state := INIT;
    }

    /** Takes one step and keeps the record of steps. */
    method Do(step: Step, ghost start: State, ghost trace: seq<Step>) returns (ghost longer: seq<Step>)
      requires state == Run(config, start, trace)
      modifies this
      ensures longer == trace + [step] && state == Run(config, start, longer)
      ensures state == Next(config, old(state), step)
    {
      RunSnoc(config, start, trace, step);
      longer := trace + [step];
      state := Next(config, state, step);
    }

    /** The chain may mine transaction `k` while the service waits. */
    method MayBeMined(k: nat, mining: Option<Mining>, ghost start: State, ghost trace: seq<Step>)
      returns (ghost longer: seq<Step>)
      requires state == Run(config, start, trace) && k < |state.txs| && state.txs[k].status.Pending?
      modifies this
      ensures state == Run(config, start, longer)
      ensures state.tasks == old(state.tasks) && CallsOf(state.txs) == CallsOf(old(state.txs))
      ensures |state.txs| == |old(state.txs)| && state.db == old(state.db)
      ensures var tx := old(state.txs[k]);
              state.txs[k].status.Succeeded? <==> Settles(old(state), Job(tx.token, tx.amount, 1), mining)
    {
      longer := trace;
      if mining.Some? {
        var m := mining.value;
        longer := Do(Mine(k, m.outOfGas, m.maxSettleAmount, m.transfer, m.now), start, longer);
      }
    }

    /** Waits for the receipt of transaction `k`; without one, or with a reverted one, an error is thrown. */
    method AwaitReceipt(i: nat, k: nat, env: Environment, ghost start: State, ghost trace: seq<Step>)
      returns (ok: bool, ghost longer: seq<Step>)
      requires state == Run(config, start, trace)
      requires At(state, i, Confirming(k)) && k < |state.txs| && state.txs[k].status.Pending?
      modifies this
      ensures state == Run(config, start, longer)
      ensures i < |old(state.tasks)|
      ensures state.tasks == old(state.tasks)[i := Task(old(state.tasks[i].job), if ok then Confirmed else Errored)]
      ensures CallsOf(state.txs) == CallsOf(old(state.txs)) && state.db == old(state.db)
      ensures var tx := old(state.txs[k]);
              ok <==> !env.receiptLost && Settles(old(state), Job(tx.token, tx.amount, 1), env.mining)
    {
      longer := MayBeMined(k, env.mining, start, trace);
      ok := !env.receiptLost && state.txs[k].status.Succeeded?;
      longer := Do(Receipt(i, env.receiptLost || state.txs[k].status.Pending?), start, longer);
    }

    /** Estimates the gas, bumps it and sends the transaction. */
    method SubmitSettlement(i: nat, env: Environment, ghost start: State, ghost trace: seq<Step>)
      returns (k: nat, ghost longer: seq<Step>)
      requires state == Run(config, start, trace) && At(state, i, Submitting) && env.isSettled == Some(false)
      modifies this
      ensures state == Run(config, start, longer)
      ensures i < |old(state.tasks)| && state.db == old(state.db)
      ensures state.tasks == old(state.tasks)[i := Task(old(state.tasks[i].job),
                                                        if env.send.Acknowledged? then Confirming(k) else Errored)]
      ensures CallsOf(state.txs) == CallsOf(old(state.txs)) + Sent(config, old(state.tasks[i].job), env)
      ensures state.chain == old(state.chain)
      ensures env.send.Acknowledged? ==>
                var job := old(state.tasks[i].job);
                k < |state.txs| && state.txs[k].status.Pending?
                && state.txs[k].token == job.token && state.txs[k].amount == job.amount
    {
      k := |state.txs|;
      longer := Do(Submit(i, env.estimate, env.send), start, trace);
    }

    /** The `try` block up to the point where the outcome is known; `ok` is false when an error was thrown. */
    method Attempt(i: nat, env: Environment, ghost start: State) returns (ok: bool, ghost trace: seq<Step>)
      requires state == start && At(state, i, Queued)
      requires env.isSettled == Some(true) ==> state.tasks[i].job.token in Tokens(state.chain)
      modifies this
      ensures state == Run(config, start, trace)
      ensures i < |old(state.tasks)| && state.db == old(state.db)
      ensures state.tasks == old(state.tasks)[i := Task(old(state.tasks[i].job), if ok then Confirmed else Errored)]
      ensures ok <==> Succeeds(old(state), old(state.tasks[i].job), env)
      ensures CallsOf(state.txs) == CallsOf(old(state.txs)) + Sent(config, old(state.tasks[i].job), env)
    {
      trace := Do(Take(i), start, []);
      trace := Do(Ask(i, env.isSettled), start, trace);
      if env.isSettled.None? {
        return false, trace;
      }
      if env.isSettled.value {
        return true, trace;
      }
      var k;
      k, trace := SubmitSettlement(i, env, start, trace);
      if !env.send.Acknowledged? {
        return false, trace;
      }
      ok, trace := AwaitReceipt(i, k, env, start, trace);
    }

    /** The `catch` block: the next attempt, or a failed status after the last one. */
    method Recover(i: nat, env: Environment, ghost start: State, ghost trace: seq<Step>)
      returns (ghost longer: seq<Step>)
      requires state == Run(config, start, trace) && At(state, i, Errored)
      modifies this
      ensures state == Run(config, start, longer)
      ensures i < |state.tasks| && state.tasks[i] == Task(old(state.tasks[i].job), Done)
      ensures OtherTasksKept(old(state.tasks), state.tasks, i, old(state.tasks[i].job))
      ensures Concluded(config, old(state), state, old(state.tasks[i].job), false, env)
      ensures state.txs == old(state.txs)
    {
      ghost var ended := To(state, i, Done).tasks;
      ghost var job := state.tasks[i].job;
      longer := Do(HandleError(i, env.queueOk, env.evicted, env.dbOk), start, trace);
      AddedIsKnown(ended, job.(attempt := job.attempt + 1), env.evicted);
      forall token: Token
        ensures StatusOf(state, token) == StatusAfter(config, old(state), job, false, env, token)
      {
        StatusKept(config, old(state), HandleError(i, env.queueOk, env.evicted, env.dbOk), token);
      }
    }

    /**
     * One delivery: it always ends; it sends at most one transaction, for the job's own token and amount; and unless a
     * write is lost it leaves the status `settled` when the settlement was seen, and otherwise the next attempt in the
     * queue or, after the last one, the status `failed`.  It touches no other delivery and no other token's status.
     */
    method ProcessJob(i: nat, env: Environment) returns (ghost trace: seq<Step>)
      requires At(state, i, Queued)
      requires env.isSettled == Some(true) ==> state.tasks[i].job.token in Tokens(state.chain)
      modifies this
      ensures state == Run(config, old(state), trace)
      ensures i < |state.tasks| && state.tasks[i] == Task(old(state.tasks[i].job), Done)
      ensures OtherTasksKept(old(state.tasks), state.tasks, i, old(state.tasks[i].job))
      ensures CallsOf(state.txs) == CallsOf(old(state.txs)) + Sent(config, old(state.tasks[i].job), env)
      ensures var job := old(state.tasks[i].job);
              Concluded(config, old(state), state, job, Succeeds(old(state), job, env), env)
    {
      ghost var start := state;
      var ok;
      ok, trace := Attempt(i, env, start);
      if ok {
        trace := Do(MarkSettled(i, env.dbOk), start, trace);
      } else {
        trace := Recover(i, env, start, trace);
      }
    }
  }

  /** Every other delivery is as before; at most the next attempt of the job has been added. */
  ghost predicate OtherTasksKept(tasks: seq<Task>, tasks': seq<Task>, i: nat, job: Job) {
    && |tasks| <= |tasks'| <= |tasks| + 1
    && (forall j | 0 <= j < |tasks| && j != i :: tasks'[j] == tasks[j])
    && (|tasks'| > |tasks| ==> tasks'[|tasks|] == Task(job.(attempt := job.attempt + 1), Queued))
  }

  /** The status of a token after a delivery: only that of the job's own token can have changed. */
  function StatusAfter(config: Config, s: State, job: Job, settled: bool, env: Environment, token: Token)
    : Option<DbStatus>
  {
    if token != job.token || !env.dbOk then StatusOf(s, token)
    else if settled then Some(StatusSettled)
    else if job.attempt < config.maxRetries then StatusOf(s, token)
    else Some(StatusFailed)
  }

  /** What a delivery leaves behind. */
  ghost predicate Concluded(config: Config, s: State, s': State, job: Job, settled: bool, env: Environment) {
    && (forall token: Token :: StatusOf(s', token) == StatusAfter(config, s, job, settled, env, token))
    && (!settled && job.attempt < config.maxRetries && env.queueOk ==>
          Known(s'.tasks, job.(attempt := job.attempt + 1), env.evicted))
    && (settled || job.attempt >= config.maxRetries || !env.queueOk ==> |s'.tasks| == |s.tasks|)
  }

  lemma AddedIsKnown(tasks: seq<Task>, job: Job, evicted: bool)
    ensures Known(Add(tasks, job, evicted), job, evicted)
  {
    if !Known(tasks, job, evicted) {
      assert Add(tasks, job, evicted)[|tasks|] == Task(job, Queued);
    }
  }
}
