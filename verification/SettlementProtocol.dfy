/**
 * The settlement service against the settlement contract, as a step model: a job queue, workers that may run in
 * parallel, RPC calls that fail or whose answers get lost, transactions that are mined late or never, jobs that are
 * delivered again, blocks that are replaced, and a database that learns the outcome.
 */
module SettlementProtocol {
  import opened Words
  import opened Wrappers
  import opened SpendSettler

  const FALLBACK_GAS: nat := 200_000

  datatype Job = Job(token: Token, amount: nat, attempt: nat)

  /** How far a worker has got with a delivered job. */
  datatype Phase =
    | Queued
    | Checking               // about to ask isSettled
    | Submitting             // about to send the transaction
    | Confirming(tx: nat)    // waiting for the receipt of transaction number `tx`
    | Confirmed              // the service has seen that the token is settled
    | Errored                // an error was caught
    | Done
    | Lost                   // the worker died

  datatype Task = Task(job: Job, phase: Phase)

  datatype TxStatus = Pending | Succeeded | Reverted

  datatype Tx = Tx(token: Token, amount: nat, gas: nat, status: TxStatus)

  datatype DbStatus = StatusSettled | StatusFailed

  datatype State = State(
    tasks: seq<Task>,                 // every delivery of a job, in order of creation
    txs: seq<Tx>,                     // every transaction sent
    chain: seq<Settlement>,           // the contract's settlements
    db: map<Token, DbStatus>,         // transaction status, where the service has set it
    origins: set<(Token, nat)>        // tokens and amounts the queue accepted from outside
  )

  const INIT: State := State([], [], [], map[], {})

  datatype Config = Config(maxRetries: int, gasBumpPercent: nat)

  /** What became of a send: not sent, sent and acknowledged, or sent although the call failed. */
  datatype Send = NotSent | Acknowledged | ReplyLost

  datatype Step =
    | Enqueue(token: Token, amount: nat, evicted: bool)
    | Take(i: nat)
    | Ask(i: nat, answer: Option<bool>)        // isSettled; None is an RPC failure, false may be out of date
    | Submit(i: nat, estimate: Option<nat>, send: Send)
    | Mine(k: nat, outOfGas: bool, maxSettleAmount: nat, transfer: Transfer, now: nat)
    | Receipt(i: nat, lost: bool)
    | MarkSettled(i: nat, dbOk: bool)
    | HandleError(i: nat, queueOk: bool, evicted: bool, dbOk: bool)
    | Crash(i: nat)
    | Redeliver(i: nat)
    | Reorg(n: nat, revived: set<nat>)   // the last n settlements are undone, and given reverted transactions

  // ---------- Transitions ----------

  /** The highest attempt number a job can get. */
  function MaxAttempt(config: Config): nat {
    if config.maxRetries > 1 then config.maxRetries else 1
  }

  function ApplyGasBump(baseGas: nat, attempt: nat, gasBumpPercent: nat): nat {
    if attempt <= 1 then baseGas else baseGas * (100 + gasBumpPercent * (attempt - 1)) / 100
  }

  predicate Live(task: Task) {
    !task.phase.Done? && !task.phase.Lost?
  }

  /** BullMQ ignores an added job while one with the same id, `settle-<token>-<attempt>`, is still known to it. */
  predicate Known(tasks: seq<Task>, job: Job, evicted: bool) {
    exists i | 0 <= i < |tasks| ::
      tasks[i].job.token == job.token && tasks[i].job.attempt == job.attempt && (!evicted || Live(tasks[i]))
  }

  function Add(tasks: seq<Task>, job: Job, evicted: bool): seq<Task> {
    if Known(tasks, job, evicted) then tasks else tasks + [Task(job, Queued)]
  }

  function To(s: State, i: nat, phase: Phase): State
    requires i < |s.tasks|
  {
    s.(tasks := s.tasks[i := s.tasks[i].(phase := phase)])
  }

  predicate At(s: State, i: nat, phase: Phase) {
    i < |s.tasks| && s.tasks[i].phase == phase
  }

  function AskStep(s: State, i: nat, answer: Option<bool>): State
    requires i < |s.tasks|
  {
    if answer.None? then To(s, i, Errored)
    else if !answer.value then To(s, i, Submitting)
    else if s.tasks[i].job.token in Tokens(s.chain) then To(s, i, Confirmed)
    else s
  }

  function SubmitStep(config: Config, s: State, i: nat, estimate: Option<nat>, send: Send): State
    requires i < |s.tasks|
  {
    var job := s.tasks[i].job;
    var base := if estimate.Some? then estimate.value else FALLBACK_GAS;
    var tx := Tx(job.token, job.amount, ApplyGasBump(base, job.attempt, config.gasBumpPercent), Pending);
    match send
    case NotSent => To(s, i, Errored)
    case Acknowledged => To(s, i, Confirming(|s.txs|)).(txs := s.txs + [tx])
    case ReplyLost => To(s, i, Errored).(txs := s.txs + [tx])
  }

  function MineStep(s: State, k: nat, outOfGas: bool, maxSettleAmount: nat, transfer: Transfer, now: nat): State
    requires k < |s.txs|
  {
    var tx := s.txs[k];
    if outOfGas || Refusal(s.chain, maxSettleAmount, tx.amount, tx.token, transfer).Some? then
      s.(txs := s.txs[k := tx.(status := Reverted)])
    else
      s.(txs := s.txs[k := tx.(status := Succeeded)],
         chain := AfterSettle(s.chain, maxSettleAmount, tx.amount, tx.token, transfer, now))
  }

  function ReceiptStep(s: State, i: nat, k: nat, lost: bool): State
    requires i < |s.tasks| && k < |s.txs|
  {
    if lost || s.txs[k].status.Reverted? then To(s, i, Errored)
    else if s.txs[k].status.Succeeded? then To(s, i, Confirmed)
    else s
  }

  function ErrorStep(config: Config, s: State, i: nat, queueOk: bool, evicted: bool, dbOk: bool): State
    requires i < |s.tasks|
  {
    var job := s.tasks[i].job;
    var s' := To(s, i, Done);
    if job.attempt < config.maxRetries then
      if queueOk then s'.(tasks := Add(s'.tasks, job.(attempt := job.attempt + 1), evicted)) else s'
    else if dbOk then s'.(db := s.db[job.token := StatusFailed])
    else s'
  }

  /** Transactions of replaced blocks wait to be mined again. */
  function Reorganized(tx: Tx, settled: set<Token>, revived: bool): Tx {
    if (tx.status.Succeeded? && tx.token !in settled) || (tx.status.Reverted? && revived)
    then tx.(status := Pending) else tx
  }

  function ReorgStep(s: State, n: nat, revived: set<nat>): State
    requires n <= |s.chain|
  {
    var chain := s.chain[..|s.chain| - n];
    s.(chain := chain,
       txs := seq(|s.txs|, k requires 0 <= k < |s.txs| => Reorganized(s.txs[k], Tokens(chain), k in revived)))
  }

  /** One step; a step that is not enabled changes nothing. */
  function Next(config: Config, s: State, step: Step): State {
    match step
    case Enqueue(token, amount, evicted) =>
      if Known(s.tasks, Job(token, amount, 1), evicted) then s
      else s.(tasks := s.tasks + [Task(Job(token, amount, 1), Queued)], origins := s.origins + {(token, amount)})
    case Take(i) => if At(s, i, Queued) then To(s, i, Checking) else s
    case Ask(i, answer) => if At(s, i, Checking) then AskStep(s, i, answer) else s
    case Submit(i, estimate, send) =>
      if At(s, i, Submitting) then SubmitStep(config, s, i, estimate, send) else s
    case Mine(k, outOfGas, maxSettleAmount, transfer, now) =>
      if k < |s.txs| && s.txs[k].status.Pending? && LastTime(s.chain) <= now
      then MineStep(s, k, outOfGas, maxSettleAmount, transfer, now) else s
    case Receipt(i, lost) =>
      if i < |s.tasks| && s.tasks[i].phase.Confirming? && s.tasks[i].phase.tx < |s.txs|
      then ReceiptStep(s, i, s.tasks[i].phase.tx, lost) else s
    case MarkSettled(i, dbOk) =>
      if !At(s, i, Confirmed) then s
      else
        var s' := To(s, i, Done);
        if dbOk then s'.(db := s.db[s.tasks[i].job.token := StatusSettled]) else s'
    case HandleError(i, queueOk, evicted, dbOk) =>
      if At(s, i, Errored) then ErrorStep(config, s, i, queueOk, evicted, dbOk) else s
    case Crash(i) => if i < |s.tasks| && Live(s.tasks[i]) then To(s, i, Lost) else s
    case Redeliver(i) => if i < |s.tasks| then s.(tasks := s.tasks + [Task(s.tasks[i].job, Queued)]) else s
    case Reorg(n, revived) => if n <= |s.chain| then ReorgStep(s, n, revived) else s
  }

  function Run(config: Config, s: State, steps: seq<Step>): State {
    if steps == [] then s else Next(config, Run(config, s, steps[..|steps| - 1]), steps[|steps| - 1])
  }

  // ---------- Safety ----------

  ghost predicate JobOk(config: Config, origins: set<(Token, nat)>, job: Job) {
    (job.token, job.amount) in origins && 1 <= job.attempt <= MaxAttempt(config)
  }

  ghost predicate TaskOk(config: Config, s: State, task: Task) {
    && JobOk(config, s.origins, task.job)
    && (task.phase.Confirming? ==> task.phase.tx < |s.txs| && s.txs[task.phase.tx].token == task.job.token)
  }

  ghost predicate TxOk(s: State, tx: Tx) {
    (tx.token, tx.amount) in s.origins && (tx.status.Succeeded? ==> tx.token in Tokens(s.chain))
  }

  ghost predicate TasksOk(config: Config, s: State) {
    forall i | 0 <= i < |s.tasks| :: TaskOk(config, s, s.tasks[i])
  }

  ghost predicate TxsOk(s: State) {
    forall k | 0 <= k < |s.txs| :: TxOk(s, s.txs[k])
  }

  ghost predicate ChainOk(s: State) {
    HistoryOk(s.chain) && forall j | 0 <= j < |s.chain| :: (s.chain[j].token, s.chain[j].amount) in s.origins
  }

  ghost predicate Inv(config: Config, s: State) {
    TasksOk(config, s) && TxsOk(s) && ChainOk(s)
  }

  /** Everything the tasks refer to only grows, and transactions keep their token. */
  ghost predicate Extends(s: State, s': State) {
    && s.origins <= s'.origins
    && |s.txs| <= |s'.txs| && forall k | 0 <= k < |s.txs| :: s'.txs[k].token == s.txs[k].token
  }

  lemma TaskStaysOk(config: Config, s: State, s': State, task: Task)
    requires TaskOk(config, s, task) && Extends(s, s')
    ensures TaskOk(config, s', task)
  {
  }

  /** Tasks stay good when one of them moves to a good phase. */
  lemma MoveKeepsTasks(config: Config, s: State, s': State, i: nat, phase: Phase)
    requires TasksOk(config, s) && Extends(s, s') && i < |s.tasks|
    requires s'.tasks == s.tasks[i := s.tasks[i].(phase := phase)]
    requires TaskOk(config, s', s.tasks[i].(phase := phase))
    ensures TasksOk(config, s')
  {
    forall j | 0 <= j < |s'.tasks|
      ensures TaskOk(config, s', s'.tasks[j])
    {
      TaskStaysOk(config, s, s', s.tasks[j]);
    }
  }

  /** Tasks stay good when a good job is added, or when none is. */
  lemma AddKeepsTasks(config: Config, s: State, s': State, job: Job)
    requires TasksOk(config, s) && Extends(s, s')
    requires s'.tasks == s.tasks || s'.tasks == s.tasks + [Task(job, Queued)]
    requires JobOk(config, s'.origins, job)
    ensures TasksOk(config, s')
  {
    forall j | 0 <= j < |s'.tasks|
      ensures TaskOk(config, s', s'.tasks[j])
    {
      if j < |s.tasks| {
        TaskStaysOk(config, s, s', s.tasks[j]);
      }
    }
  }

  lemma MineKeepsInv(config: Config, s: State, k: nat, outOfGas: bool, maxSettleAmount: nat, transfer: Transfer,
                     now: nat)
    requires Inv(config, s) && k < |s.txs| && LastTime(s.chain) <= now
    ensures Inv(config, MineStep(s, k, outOfGas, maxSettleAmount, transfer, now))
  {
    var s' := MineStep(s, k, outOfGas, maxSettleAmount, transfer, now);
    var tx := s.txs[k];
    assert TxOk(s, tx);
    SettleKeepsHistory(s.chain, maxSettleAmount, tx.amount, tx.token, transfer, now);
    TokensSnoc(s.chain, Settlement(tx.token, tx.amount, now));
    assert Extends(s, s');
    forall j | 0 <= j < |s'.tasks|
      ensures TaskOk(config, s', s'.tasks[j])
    {
      TaskStaysOk(config, s, s', s.tasks[j]);
    }
    forall j | 0 <= j < |s'.txs|
      ensures TxOk(s', s'.txs[j])
    {
      assert TxOk(s, s.txs[j]);
    }
  }

  lemma SubmitKeepsInv(config: Config, s: State, i: nat, estimate: Option<nat>, send: Send)
    requires Inv(config, s) && i < |s.tasks|
    ensures Inv(config, SubmitStep(config, s, i, estimate, send))
  {
    var s' := SubmitStep(config, s, i, estimate, send);
    assert TaskOk(config, s, s.tasks[i]);
    MoveKeepsTasks(config, s, s', i, s'.tasks[i].phase);
    forall j | 0 <= j < |s'.txs|
      ensures TxOk(s', s'.txs[j])
    {
      if j < |s.txs| {
        assert TxOk(s, s.txs[j]);
      }
    }
  }

  lemma MoveKeepsInv(config: Config, s: State, i: nat, phase: Phase)
    requires Inv(config, s) && i < |s.tasks| && !phase.Confirming?
    ensures Inv(config, To(s, i, phase))
  {
    var s' := To(s, i, phase);
    assert TaskOk(config, s, s.tasks[i]);
    MoveKeepsTasks(config, s, s', i, phase);
    OthersKept(s, s');
  }

  lemma OthersKept(s: State, s': State)
    requires TxsOk(s) && ChainOk(s)
    requires s'.txs == s.txs && s'.chain == s.chain && s.origins <= s'.origins
    ensures TxsOk(s') && ChainOk(s')
  {
    forall j | 0 <= j < |s'.txs|
      ensures TxOk(s', s'.txs[j])
    {
      assert TxOk(s, s.txs[j]);
    }
  }

  lemma AddKeepsInv(config: Config, s: State, s': State, job: Job)
    requires Inv(config, s) && s.origins <= s'.origins
    requires s'.txs == s.txs && s'.chain == s.chain
    requires s'.tasks == s.tasks || s'.tasks == s.tasks + [Task(job, Queued)]
    requires JobOk(config, s'.origins, job)
    ensures Inv(config, s')
  {
    AddKeepsTasks(config, s, s', job);
    OthersKept(s, s');
  }

  lemma MarkKeepsInv(config: Config, s: State, i: nat, status: DbStatus)
    requires Inv(config, s) && i < |s.tasks|
    ensures Inv(config, To(s, i, Done).(db := s.db[s.tasks[i].job.token := status]))
  {
    MoveKeepsInv(config, s, i, Done);
    var s1 := To(s, i, Done);
    var s' := s1.(db := s.db[s.tasks[i].job.token := status]);
    forall j | 0 <= j < |s'.tasks|
      ensures TaskOk(config, s', s'.tasks[j])
    {
      TaskStaysOk(config, s1, s', s1.tasks[j]);
    }
    OthersKept(s1, s');
  }

  lemma ErrorKeepsInv(config: Config, s: State, i: nat, queueOk: bool, evicted: bool, dbOk: bool)
    requires Inv(config, s) && i < |s.tasks|
    ensures Inv(config, ErrorStep(config, s, i, queueOk, evicted, dbOk))
  {
    assert TaskOk(config, s, s.tasks[i]);
    var job := s.tasks[i].job;
    MoveKeepsInv(config, s, i, Done);
    if job.attempt < config.maxRetries {
      AddKeepsInv(config, To(s, i, Done), ErrorStep(config, s, i, queueOk, evicted, dbOk),
                  job.(attempt := job.attempt + 1));
    } else {
      MarkKeepsInv(config, s, i, StatusFailed);
    }
  }

  lemma InvKept(config: Config, s: State, step: Step)
    requires Inv(config, s)
    ensures Inv(config, Next(config, s, step))
  {
    match step
    case Enqueue(token, amount, evicted) =>
      if !Known(s.tasks, Job(token, amount, 1), evicted) {
        AddKeepsInv(config, s, Next(config, s, step), Job(token, amount, 1));
      }
    case Take(i) => if At(s, i, Queued) { MoveKeepsInv(config, s, i, Checking); }
    case Ask(i, answer) => if At(s, i, Checking) { AskKeepsInv(config, s, i, answer); }
    case Submit(i, estimate, send) => if At(s, i, Submitting) { SubmitKeepsInv(config, s, i, estimate, send); }
    case Mine(k, outOfGas, maxSettleAmount, transfer, now) =>
      if k < |s.txs| && s.txs[k].status.Pending? && LastTime(s.chain) <= now {
        MineKeepsInv(config, s, k, outOfGas, maxSettleAmount, transfer, now);
      }
    case Receipt(i, lost) => if i < |s.tasks| && s.tasks[i].phase.Confirming? { ReceiptKeepsInv(config, s, i, lost); }
    case MarkSettled(i, dbOk) => if At(s, i, Confirmed) { SettledKeepsInv(config, s, i); }
    case HandleError(i, queueOk, evicted, dbOk) =>
      if At(s, i, Errored) { ErrorKeepsInv(config, s, i, queueOk, evicted, dbOk); }
    case Crash(i) => if i < |s.tasks| { MoveKeepsInv(config, s, i, Lost); }
    case Redeliver(i) =>
      if i < |s.tasks| {
        assert TaskOk(config, s, s.tasks[i]);
        AddKeepsInv(config, s, Next(config, s, step), s.tasks[i].job);
      }
    case Reorg(n, revived) => if n <= |s.chain| { ReorgKeepsInv(config, s, n, revived); }
  }

  lemma AskKeepsInv(config: Config, s: State, i: nat, answer: Option<bool>)
    requires Inv(config, s) && At(s, i, Checking)
    ensures Inv(config, Next(config, s, Ask(i, answer)))
  {
    MoveKeepsInv(config, s, i, Errored);
    MoveKeepsInv(config, s, i, Submitting);
    MoveKeepsInv(config, s, i, Confirmed);
  }

  lemma ReceiptKeepsInv(config: Config, s: State, i: nat, lost: bool)
    requires Inv(config, s) && i < |s.tasks| && s.tasks[i].phase.Confirming?
    ensures Inv(config, Next(config, s, Receipt(i, lost)))
  {
    MoveKeepsInv(config, s, i, Errored);
    MoveKeepsInv(config, s, i, Confirmed);
  }

  lemma SettledKeepsInv(config: Config, s: State, i: nat)
    requires Inv(config, s) && At(s, i, Confirmed)
    ensures Inv(config, Next(config, s, MarkSettled(i, true))) && Inv(config, Next(config, s, MarkSettled(i, false)))
  {
    MarkKeepsInv(config, s, i, StatusSettled);
    MoveKeepsInv(config, s, i, Done);
  }

  lemma {:induction false} PrefixKeepsHistory(chain: seq<Settlement>, n: nat)
    requires HistoryOk(chain) && n <= |chain|
    ensures HistoryOk(chain[..n])
  {
    if n < |chain| {
      PrefixKeepsHistory(chain[..|chain| - 1], n);
      assert chain[..|chain| - 1][..n] == chain[..n];
    } else {
      assert chain[..n] == chain;
    }
  }

  lemma ReorgKeepsInv(config: Config, s: State, n: nat, revived: set<nat>)
    requires Inv(config, s) && n <= |s.chain|
    ensures Inv(config, ReorgStep(s, n, revived))
  {
    var s' := ReorgStep(s, n, revived);
    PrefixKeepsHistory(s.chain, |s.chain| - n);
    forall j | 0 <= j < |s'.tasks|
      ensures TaskOk(config, s', s'.tasks[j])
    {
      TaskStaysOk(config, s, s', s.tasks[j]);
    }
    forall j | 0 <= j < |s'.txs|
      ensures TxOk(s', s'.txs[j])
    {
      assert TxOk(s, s.txs[j]);
    }
  }

  lemma {:induction false} InvAlways(config: Config, s: State, steps: seq<Step>)
    requires Inv(config, s)
    ensures Inv(config, Run(config, s, steps))
  {
    if steps != [] {
      InvAlways(config, s, steps[..|steps| - 1]);
      InvKept(config, Run(config, s, steps[..|steps| - 1]), steps[|steps| - 1]);
    }
  }

  /** How often a token has moved funds. */
  function TimesSettled(chain: seq<Settlement>, token: Token): nat {
    if chain == [] then 0
    else TimesSettled(chain[..|chain| - 1], token) + if chain[|chain| - 1].token == token then 1 else 0
  }

  lemma {:induction false} SettledOnce(chain: seq<Settlement>, token: Token)
    requires HistoryOk(chain)
    ensures TimesSettled(chain, token) == if token in Tokens(chain) then 1 else 0
  {
    if chain != [] {
      var front, last := chain[..|chain| - 1], chain[|chain| - 1];
      SettledOnce(front, token);
      TokensSnoc(front, last);
      assert front + [last] == chain;
    }
  }

  // ---------- What mining a transaction does ----------

  /** A mined transaction succeeds exactly if it has gas and the contract accepts it, and is reverted otherwise. */
  lemma MineDecides(config: Config, s: State, mine: Step)
    requires mine.Mine? && mine.k < |s.txs| && s.txs[mine.k].status.Pending? && LastTime(s.chain) <= mine.now
    ensures var s', tx := Next(config, s, mine), s.txs[mine.k];
            var settles := !mine.outOfGas
                           && CanSettle(s.chain, mine.maxSettleAmount, tx.amount, tx.token, mine.transfer);
            && s'.txs == s.txs[mine.k := tx.(status := if settles then Succeeded else Reverted)]
            && s'.chain == if settles then s.chain + [Settlement(tx.token, tx.amount, mine.now)] else s.chain
  {
  }

  /** A reorganization undoes the last settlements, and exactly what it undoes or revives waits to be mined again. */
  lemma ReorgDecides(config: Config, s: State, n: nat, revived: set<nat>, k: nat)
    requires n <= |s.chain| && k < |s.txs|
    ensures var s' := Next(config, s, Reorg(n, revived));
            && s'.chain == s.chain[..|s.chain| - n] && |s'.txs| == |s.txs|
            && s'.tasks == s.tasks && s'.db == s.db
            && var undone := s.txs[k].status.Succeeded? && s.txs[k].token !in Tokens(s'.chain);
               s'.txs[k] == if undone || (s.txs[k].status.Reverted? && k in revived)
                            then s.txs[k].(status := Pending) else s.txs[k]
  {
  }

  /** The highest attempt is the larger of 1 and the configured number of retries. */
  lemma MaxAttemptExactly(config: Config)
    ensures MaxAttempt(config) >= 1 && MaxAttempt(config) >= config.maxRetries
    ensures MaxAttempt(config) == 1 || MaxAttempt(config) == config.maxRetries
  {
  }

  // ---------- Who sets a status ----------

  function StatusOf(s: State, token: Token): Option<DbStatus> {
    if token in s.db then Some(s.db[token]) else None
  }

  /** The status the step writes for the token, if it writes one: of no other token and in no other step. */
  function StatusWritten(config: Config, s: State, step: Step, token: Token): Option<DbStatus> {
    if step.MarkSettled? && step.dbOk && At(s, step.i, Confirmed) && s.tasks[step.i].job.token == token then
      Some(StatusSettled)
    else if step.HandleError? && step.dbOk && At(s, step.i, Errored) && s.tasks[step.i].job.token == token
            && s.tasks[step.i].job.attempt >= config.maxRetries then
      Some(StatusFailed)
    else None
  }

  /** A token's status changes only when a delivery for it is marked settled, or failed after its last attempt. */
  lemma StatusKept(config: Config, s: State, step: Step, token: Token)
    ensures var written := StatusWritten(config, s, step, token);
            StatusOf(Next(config, s, step), token) == if written.Some? then written else StatusOf(s, token)
  {
  }

  function LastWritten(config: Config, steps: seq<Step>, token: Token): Option<DbStatus> {
    if steps == [] then None
    else
      var front := steps[..|steps| - 1];
      var written := StatusWritten(config, Run(config, INIT, front), steps[|steps| - 1], token);
      if written.Some? then written else LastWritten(config, front, token)
  }

  /** In every run a token's status is the last that was written for it. */
  lemma {:induction false} StatusIsLastWritten(config: Config, steps: seq<Step>, token: Token)
    ensures StatusOf(Run(config, INIT, steps), token) == LastWritten(config, steps, token)
  {
    if steps != [] {
      var front := steps[..|steps| - 1];
      StatusIsLastWritten(config, front, token);
      StatusKept(config, Run(config, INIT, front), steps[|steps| - 1], token);
    }
  }

  // ---------- What the service says is settled ----------

  /** The service has seen the token settled, or has marked it so. */
  predicate Claimed(s: State, token: Token) {
    || (token in s.db && s.db[token].StatusSettled?)
    || exists i | 0 <= i < |s.tasks| :: s.tasks[i].job.token == token && s.tasks[i].phase.Confirmed?
  }

  ghost predicate ClaimsOk(s: State) {
    forall token | Claimed(s, token) :: token in Tokens(s.chain)
  }

  /** A reorganization undoes no settlement the service has seen. */
  ghost predicate Spares(s: State, step: Step) {
    step.Reorg? && step.n <= |s.chain| ==>
      forall token | Claimed(s, token) :: token in Tokens(s.chain[..|s.chain| - step.n])
  }

  lemma NewlyMarked(config: Config, s: State, step: Step, token: Token)
    requires var s' := Next(config, s, step); token in s'.db && s'.db[token].StatusSettled?
    ensures Claimed(s, token)
  {
    if step.MarkSettled? && At(s, step.i, Confirmed) && s.tasks[step.i].job.token == token {
      assert Claimed(s, token);
    }
  }

  /** The service claims only what it has claimed or what is on the chain. */
  lemma NewClaims(config: Config, s: State, step: Step, token: Token)
    requires Inv(config, s) && Claimed(Next(config, s, step), token)
    ensures Claimed(s, token) || token in Tokens(s.chain)
  {
    var tasks' := Next(config, s, step).tasks;
    if i :| 0 <= i < |tasks'| && tasks'[i].job.token == token && tasks'[i].phase.Confirmed? {
      ConfirmedBefore(config, s, step, i);
      if i < |s.tasks| && !s.tasks[i].phase.Confirmed? {
        NewlyConfirmed(config, s, step, i);
      }
    } else {
      NewlyMarked(config, s, step, token);
    }
  }

  /** New tasks are not confirmed, and old ones keep their job. */
  lemma ConfirmedBefore(config: Config, s: State, step: Step, i: nat)
    requires var tasks' := Next(config, s, step).tasks; i < |tasks'| && tasks'[i].phase.Confirmed?
    ensures i < |s.tasks| && Next(config, s, step).tasks[i].job == s.tasks[i].job
  {
  }

  lemma NewlyConfirmed(config: Config, s: State, step: Step, i: nat)
    requires Inv(config, s) && i < |s.tasks| && !s.tasks[i].phase.Confirmed?
    requires var s' := Next(config, s, step); i < |s'.tasks| && s'.tasks[i].phase.Confirmed?
    ensures s.tasks[i].job.token in Tokens(s.chain)
  {
    if step.Receipt? {
      assert TaskOk(config, s, s.tasks[i]);
      assert TxOk(s, s.txs[s.tasks[i].phase.tx]);
    }
  }

  lemma ChainGrows(config: Config, s: State, step: Step, token: Token)
    requires !step.Reorg? && token in Tokens(s.chain)
    ensures token in Tokens(Next(config, s, step).chain)
  {
    if step.Mine? && step.k < |s.txs| {
      TokensSnoc(s.chain, Settlement(s.txs[step.k].token, s.txs[step.k].amount, step.now));
    }
  }

  /** A step keeps the claims true exactly if, as a reorganization, it spares them. */
  lemma StepKeepsClaims(config: Config, s: State, step: Step)
    requires Inv(config, s) && ClaimsOk(s)
    ensures ClaimsOk(Next(config, s, step)) <==> Spares(s, step)
  {
    var s' := Next(config, s, step);
    if step.Reorg? {
      assert forall token :: Claimed(s', token) <==> Claimed(s, token) by { ReorgKeepsClaims(config, s, step); }
    } else {
      forall token | Claimed(s', token)
        ensures token in Tokens(s'.chain)
      {
        NewClaims(config, s, step, token);
        ChainGrows(config, s, step, token);
      }
    }
  }

  lemma ReorgKeepsClaims(config: Config, s: State, step: Step)
    requires step.Reorg?
    ensures forall token :: Claimed(Next(config, s, step), token) <==> Claimed(s, token)
  {
    var s' := Next(config, s, step);
    assert s'.tasks == s.tasks && s'.db == s.db;
  }

  ghost predicate AllSpared(config: Config, steps: seq<Step>) {
    steps == [] ||
    var front := steps[..|steps| - 1];
    AllSpared(config, front) && Spares(Run(config, INIT, front), steps[|steps| - 1])
  }

  ghost predicate ClaimsOkAfter(config: Config, steps: seq<Step>, k: nat)
    requires k <= |steps|
  {
    ClaimsOk(Run(config, INIT, steps[..k]))
  }

  ghost predicate ClaimsOkThroughout(config: Config, steps: seq<Step>) {
    forall k | 0 <= k <= |steps| :: ClaimsOkAfter(config, steps, k)
  }

  lemma ThroughoutSplit(config: Config, steps: seq<Step>)
    requires steps != []
    ensures ClaimsOkThroughout(config, steps)
            <==> ClaimsOkThroughout(config, steps[..|steps| - 1]) && ClaimsOkAfter(config, steps, |steps|)
  {
    var front := steps[..|steps| - 1];
    forall k | 0 <= k < |steps|
      ensures ClaimsOkAfter(config, front, k) <==> ClaimsOkAfter(config, steps, k)
    {
      assert front[..k] == steps[..k];
    }
  }

  lemma AfterAll(config: Config, steps: seq<Step>)
    ensures ClaimsOkAfter(config, steps, |steps|) <==> ClaimsOk(Run(config, INIT, steps))
  {
    assert steps[..|steps|] == steps;
  }

  /** What the service claims settled is settled throughout a run if and only if every reorganization spares it. */
  lemma {:induction false} ClaimsOkExactly(config: Config, steps: seq<Step>)
    ensures ClaimsOkThroughout(config, steps) <==> AllSpared(config, steps)
  {
    AfterAll(config, steps);
    if steps != [] {
      var front := steps[..|steps| - 1];
      ClaimsOkExactly(config, front);
      ThroughoutSplit(config, steps);
      AfterAll(config, front);
      if ClaimsOk(Run(config, INIT, front)) {
        assert Inv(config, Run(config, INIT, front)) by { InvAlways(config, INIT, front); }
        StepKeepsClaims(config, Run(config, INIT, front), steps[|steps| - 1]);
      }
    }
  }

  /**
   * In every run each token moves funds at most once, only if a job for it was accepted and only for the amount of such
   * a job; and unless a reorganization has undone a settlement the service had seen, the database says `settled` only
   * of tokens that moved funds.
   */
  lemma Safety(config: Config, steps: seq<Step>, token: Token)
    ensures var s := Run(config, INIT, steps);
            && TimesSettled(s.chain, token) <= 1
            && (forall j | 0 <= j < |s.chain| :: (s.chain[j].token, s.chain[j].amount) in s.origins)
            && (AllSpared(config, steps) && token in s.db && s.db[token].StatusSettled? ==>
                  TimesSettled(s.chain, token) == 1)
  {
    InvAlways(config, INIT, steps);
    SettledOnce(Run(config, INIT, steps).chain, token);
    if AllSpared(config, steps) {
      ClaimsOkExactly(config, steps);
      AfterAll(config, steps);
    }
  }

  // ---------- `failed` promises nothing ----------

  lemma RunSnoc(config: Config, s: State, steps: seq<Step>, step: Step)
    ensures Run(config, s, steps + [step]) == Next(config, Run(config, s, steps), step)
  {
    assert (steps + [step])[..|steps|] == steps;
  }

  lemma {:induction false} RunAppend(config: Config, s: State, first: seq<Step>, second: seq<Step>)
    ensures Run(config, s, first + second) == Run(config, Run(config, s, first), second)
  {
    if second == [] {
      assert first + second == first;
    } else {
      RunAppend(config, s, first, second[..|second| - 1]);
      assert (first + second)[..|first + second| - 1] == first + second[..|second| - 1];
    }
  }

  lemma RunTwo(config: Config, s: State, a: Step, b: Step)
    ensures Run(config, s, [a, b]) == Next(config, Next(config, s, a), b)
  {
    RunSnoc(config, s, [], a);
    RunSnoc(config, s, [a], b);
    assert [] + [a] == [a] && [a] + [b] == [a, b];
  }

  lemma RunThree(config: Config, s: State, a: Step, b: Step, c: Step)
    ensures Run(config, s, [a, b, c]) == Next(config, Next(config, Next(config, s, a), b), c)
  {
    RunTwo(config, s, a, b);
    RunSnoc(config, s, [a, b], c);
    assert [a, b] + [c] == [a, b, c];
  }

  /**
   * The converse fails: after the last attempt loses its receipt the job is marked failed, and its transaction may
   * still be mined.
   */
  lemma FailedMayHaveMovedFunds(token: Token, amount: nat)
    requires 0 < amount < TWO_128
    ensures exists steps: seq<Step> ::
              var s := Run(Config(1, 20), INIT, steps);
              token in s.db && s.db[token].StatusFailed? && s.chain == [Settlement(token, amount, 0)]
  {
    var first := [Enqueue(token, amount, false), Take(0), Ask(0, Some(false))];
    var second := [Submit(0, None, Acknowledged), Receipt(0, true), HandleError(0, true, false, true)];
    var mine := Mine(0, false, TWO_256 - 1, Executed(0, amount), 0);
    ReadyToSubmit(Config(1, 20), token, amount);
    GivenUp(token, amount);
    RunAppend(Config(1, 20), INIT, first, second);
    RunSnoc(Config(1, 20), INIT, first + second, mine);
    MinedLate(token, amount);
  }

  lemma ReadyToSubmit(config: Config, token: Token, amount: nat)
    ensures Run(config, INIT, [Enqueue(token, amount, false), Take(0), Ask(0, Some(false))])
            == INIT.(tasks := [Task(Job(token, amount, 1), Submitting)], origins := {(token, amount)})
  {
    RunThree(config, INIT, Enqueue(token, amount, false), Take(0), Ask(0, Some(false)));
  }

  /** The state in which the only attempt has been sent, lost its receipt and been marked failed. */
  function GivenUpState(token: Token, amount: nat): State {
    State([Task(Job(token, amount, 1), Done)], [Tx(token, amount, FALLBACK_GAS, Pending)], [],
          map[token := StatusFailed], {(token, amount)})
  }

  lemma GivenUp(token: Token, amount: nat)
    ensures var s := INIT.(tasks := [Task(Job(token, amount, 1), Submitting)], origins := {(token, amount)});
            Run(Config(1, 20), s, [Submit(0, None, Acknowledged), Receipt(0, true), HandleError(0, true, false, true)])
            == GivenUpState(token, amount)
  {
    var s := INIT.(tasks := [Task(Job(token, amount, 1), Submitting)], origins := {(token, amount)});
    RunThree(Config(1, 20), s, Submit(0, None, Acknowledged), Receipt(0, true), HandleError(0, true, false, true));
  }

  lemma MinedLate(token: Token, amount: nat)
    requires 0 < amount < TWO_128
    ensures var s := Next(Config(1, 20), GivenUpState(token, amount),
                          Mine(0, false, TWO_256 - 1, Executed(0, amount), 0));
            s.chain == [Settlement(token, amount, 0)] && s.db == map[token := StatusFailed]
  {
    assert Refusal([], TWO_256 - 1, amount, token, Executed(0, amount)).None?;
  }

  // ---------- `settled` may be undone ----------

  /** A transaction is taken as final once it is mined, so replacing its block leaves `settled` without a settlement. */
  lemma ReorgUnsettles(token: Token, amount: nat)
    requires 0 < amount < TWO_128
    ensures var mine := Mine(0, false, TWO_256 - 1, Executed(0, amount), 0);
            var steps := [Enqueue(token, amount, false), Take(0), Ask(0, Some(false))]
                         + [Submit(0, None, Acknowledged), mine, Receipt(0, false)]
                         + [MarkSettled(0, true), Reorg(1, {}), Crash(0)];
            var s := Run(Config(1, 20), INIT, steps);
            s.chain == [] && s.db == map[token := StatusSettled]
  {
    var config, mine := Config(1, 20), Mine(0, false, TWO_256 - 1, Executed(0, amount), 0);
    var a := [Enqueue(token, amount, false), Take(0), Ask(0, Some(false))];
    var b := [Submit(0, None, Acknowledged), mine, Receipt(0, false)];
    RunAppend(config, INIT, a + b, [MarkSettled(0, true), Reorg(1, {}), Crash(0)]);
    RunAppend(config, INIT, a, b);
    ReadyToSubmit(config, token, amount);
    ConfirmedOnce(token, amount);
    Undone(token, amount);
  }

  lemma Undone(token: Token, amount: nat)
    ensures var s := Run(Config(1, 20), ConfirmedState(token, amount), [MarkSettled(0, true), Reorg(1, {}), Crash(0)]);
            s.chain == [] && s.db == map[token := StatusSettled]
  {
    RunThree(Config(1, 20), ConfirmedState(token, amount), MarkSettled(0, true), Reorg(1, {}), Crash(0));
  }

  function ConfirmedState(token: Token, amount: nat): State {
    State([Task(Job(token, amount, 1), Confirmed)], [Tx(token, amount, FALLBACK_GAS, Succeeded)],
          [Settlement(token, amount, 0)], map[], {(token, amount)})
  }

  lemma ConfirmedOnce(token: Token, amount: nat)
    requires 0 < amount < TWO_128
    ensures var s := INIT.(tasks := [Task(Job(token, amount, 1), Submitting)], origins := {(token, amount)});
            var mine := Mine(0, false, TWO_256 - 1, Executed(0, amount), 0);
            Run(Config(1, 20), s, [Submit(0, None, Acknowledged), mine, Receipt(0, false)])
            == ConfirmedState(token, amount)
  {
    var s := INIT.(tasks := [Task(Job(token, amount, 1), Submitting)], origins := {(token, amount)});
    var mine := Mine(0, false, TWO_256 - 1, Executed(0, amount), 0);
    RunThree(Config(1, 20), s, Submit(0, None, Acknowledged), mine, Receipt(0, false));
    assert Refusal([], TWO_256 - 1, amount, token, Executed(0, amount)).None?;
  }
}
