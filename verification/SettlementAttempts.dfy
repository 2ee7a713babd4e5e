/**
 * The attempts of one settlement: how many there are, how they are numbered and how much gas they get, whatever the
 * queue forgets and however often a job is enqueued or delivered again.
 */
module SettlementAttempts {
  import opened Wrappers
  import opened SpendSettler
  import opened SettlementProtocol

  /** A delivery from outside: an enqueued job that the queue accepts, or a job delivered again. */
  predicate Root(s: State, step: Step, token: Token) {
    match step
    case Enqueue(t, amount, evicted) => t == token && !Known(s.tasks, Job(t, amount, 1), evicted)
    case Redeliver(i) => i < |s.tasks| && s.tasks[i].job.token == token
    case _ => false
  }

  function Roots(config: Config, steps: seq<Step>, token: Token): nat {
    if steps == [] then 0
    else
      var front := steps[..|steps| - 1];
      Roots(config, front, token) + if Root(Run(config, INIT, front), steps[|steps| - 1], token) then 1 else 0
  }

  function Deliveries(tasks: seq<Task>, token: Token): nat {
    if tasks == [] then 0
    else Deliveries(tasks[..|tasks| - 1], token) + if tasks[|tasks| - 1].job.token == token then 1 else 0
  }

  // ---------- How a step changes the tasks ----------

  /** A live task moves on, or a dead one is left dead. */
  function Moved(tasks: seq<Task>, i: nat, phase: Phase): seq<Task>
    requires i < |tasks|
  {
    tasks[i := tasks[i].(phase := phase)]
  }

  /** Task `i` ends and the next attempt of its job is added. */
  function Retried(tasks: seq<Task>, i: nat): seq<Task>
    requires i < |tasks|
  {
    Moved(tasks, i, Done) + [Task(tasks[i].job.(attempt := tasks[i].job.attempt + 1), Queued)]
  }

  /** What a step that brings nothing in from outside does to the tasks. */
  ghost predicate Progress(config: Config, tasks: seq<Task>, tasks': seq<Task>) {
    || tasks' == tasks
    || (exists i, phase | 0 <= i < |tasks| :: Live(tasks[i]) && tasks' == Moved(tasks, i, phase))
    || (exists i | 0 <= i < |tasks| ::
          Live(tasks[i]) && tasks[i].job.attempt < MaxAttempt(config) && tasks' == Retried(tasks, i))
  }

  lemma MoveProgresses(config: Config, s: State, i: nat, phase: Phase)
    requires i < |s.tasks| && Live(s.tasks[i])
    ensures Progress(config, s.tasks, To(s, i, phase).tasks)
  {
    assert To(s, i, phase).tasks == Moved(s.tasks, i, phase);
  }

  lemma ErrorProgresses(config: Config, s: State, i: nat, queueOk: bool, evicted: bool, dbOk: bool)
    requires At(s, i, Errored)
    ensures Progress(config, s.tasks, ErrorStep(config, s, i, queueOk, evicted, dbOk).tasks)
  {
    var tasks' := ErrorStep(config, s, i, queueOk, evicted, dbOk).tasks;
    assert tasks' == Moved(s.tasks, i, Done) || tasks' == Retried(s.tasks, i);
  }

  lemma StepProgresses(config: Config, s: State, step: Step)
    requires !step.Enqueue? && !step.Redeliver?
    ensures Progress(config, s.tasks, Next(config, s, step).tasks)
  {
    if step.HandleError? && At(s, step.i, Errored) {
      ErrorProgresses(config, s, step.i, step.queueOk, step.evicted, step.dbOk);
    } else if !step.Mine? && !step.Reorg? && step.i < |s.tasks| && Live(s.tasks[step.i]) {
      MovesOneTask(config, s, step);
      MoveProgresses(config, s, step.i, Next(config, s, step).tasks[step.i].phase);
    }
  }

  /** Every other step moves at most one live task. */
  lemma MovesOneTask(config: Config, s: State, step: Step)
    requires !step.Enqueue? && !step.Redeliver? && !step.Mine? && !step.Reorg?
    requires step.i < |s.tasks| && Live(s.tasks[step.i])
    requires step.HandleError? ==> !At(s, step.i, Errored)
    ensures |Next(config, s, step).tasks| == |s.tasks|
    ensures Next(config, s, step).tasks == Moved(s.tasks, step.i, Next(config, s, step).tasks[step.i].phase)
  {
    assert s.tasks == Moved(s.tasks, step.i, s.tasks[step.i].phase);
  }

  /** What a step that brings a delivery in from outside does. */
  lemma RootAppends(config: Config, s: State, step: Step)
    requires step.Enqueue? || step.Redeliver?
    ensures var tasks' := Next(config, s, step).tasks;
            || (tasks' == s.tasks && forall token :: !Root(s, step, token))
            || (exists task ::
                  && tasks' == s.tasks + [task] && task.phase == Queued
                  && (step.Enqueue? ==> task.job.attempt == 1)
                  && (step.Redeliver? ==> step.i < |s.tasks| && task.job == s.tasks[step.i].job)
                  && forall token :: Root(s, step, token) <==> token == task.job.token)
  {
    match step
    case Enqueue(token, amount, evicted) =>
      var task := Task(Job(token, amount, 1), Queued);
      assert Known(s.tasks, task.job, evicted) || Next(config, s, step).tasks == s.tasks + [task];
    case Redeliver(i) =>
      if i < |s.tasks| {
        var task := Task(s.tasks[i].job, Queued);
        assert Next(config, s, step).tasks == s.tasks + [task];
      }
    case _ =>
  }

  // ---------- How many deliveries ----------

  /** A delivery for the token, and those its retries can still bring. */
  function Cost(config: Config, task: Task, token: Token): nat {
    if task.job.token != token then 0
    else 1 + if Live(task) && task.job.attempt < MaxAttempt(config) then MaxAttempt(config) - task.job.attempt else 0
  }

  function Potential(config: Config, tasks: seq<Task>, token: Token): nat {
    if tasks == [] then 0
    else Potential(config, tasks[..|tasks| - 1], token) + Cost(config, tasks[|tasks| - 1], token)
  }

  lemma {:induction false} PotentialUpdate(config: Config, tasks: seq<Task>, token: Token, i: nat, task: Task)
    requires i < |tasks|
    ensures Potential(config, tasks[i := task], token) ==
            Potential(config, tasks, token) - Cost(config, tasks[i], token) + Cost(config, task, token)
  {
    var front := tasks[..|tasks| - 1];
    if i < |front| {
      PotentialUpdate(config, front, token, i, task);
      assert tasks[i := task][..|front|] == front[i := task];
    } else {
      assert tasks[i := task][..|front|] == front;
    }
  }

  lemma PotentialSnoc(config: Config, tasks: seq<Task>, token: Token, task: Task)
    ensures Potential(config, tasks + [task], token) == Potential(config, tasks, token) + Cost(config, task, token)
  {
    assert (tasks + [task])[..|tasks|] == tasks;
  }

  lemma {:induction false} DeliveriesWithinPotential(config: Config, tasks: seq<Task>, token: Token)
    ensures Deliveries(tasks, token) <= Potential(config, tasks, token)
  {
    if tasks != [] {
      DeliveriesWithinPotential(config, tasks[..|tasks| - 1], token);
    }
  }

  lemma ProgressKeepsPotential(config: Config, tasks: seq<Task>, tasks': seq<Task>, token: Token)
    requires Progress(config, tasks, tasks')
    ensures Potential(config, tasks', token) <= Potential(config, tasks, token)
  {
    if i, phase :| 0 <= i < |tasks| && Live(tasks[i]) && tasks' == Moved(tasks, i, phase) {
      PotentialUpdate(config, tasks, token, i, tasks[i].(phase := phase));
    } else if i :| 0 <= i < |tasks| && Live(tasks[i]) && tasks[i].job.attempt < MaxAttempt(config)
                   && tasks' == Retried(tasks, i) {
      RetryKeepsPotential(config, tasks, token, i);
    }
  }

  /** A retry trades the deliveries a task may still bring for one delivery and those it may bring. */
  lemma RetryKeepsPotential(config: Config, tasks: seq<Task>, token: Token, i: nat)
    requires i < |tasks| && Live(tasks[i]) && tasks[i].job.attempt < MaxAttempt(config)
    ensures Potential(config, Retried(tasks, i), token) <= Potential(config, tasks, token)
  {
    var ended, next := tasks[i].(phase := Done), Task(tasks[i].job.(attempt := tasks[i].job.attempt + 1), Queued);
    PotentialUpdate(config, tasks, token, i, ended);
    PotentialSnoc(config, tasks[i := ended], token, next);
    assert Cost(config, ended, token) + Cost(config, next, token) <= Cost(config, tasks[i], token);
  }

  lemma StepPotential(config: Config, s: State, step: Step, token: Token)
    requires Inv(config, s)
    ensures Potential(config, Next(config, s, step).tasks, token)
            <= Potential(config, s.tasks, token) + if Root(s, step, token) then MaxAttempt(config) else 0
  {
    if step.Enqueue? || step.Redeliver? {
      RootAppends(config, s, step);
      var tasks' := Next(config, s, step).tasks;
      if tasks' != s.tasks {
        PotentialSnoc(config, s.tasks, token, tasks'[|s.tasks|]);
        if step.Redeliver? {
          assert TaskOk(config, s, s.tasks[step.i]);
        }
      }
    } else {
      StepProgresses(config, s, step);
      ProgressKeepsPotential(config, s.tasks, Next(config, s, step).tasks, token);
    }
  }

  /** `max(1, maxRetries)` for every delivery from outside. */
  function Allowance(config: Config, steps: seq<Step>, token: Token): nat {
    if steps == [] then 0
    else
      var front := steps[..|steps| - 1];
      Allowance(config, front, token)
      + if Root(Run(config, INIT, front), steps[|steps| - 1], token) then MaxAttempt(config) else 0
  }

  lemma {:induction false} AllowanceIsProduct(config: Config, steps: seq<Step>, token: Token)
    ensures Allowance(config, steps, token) == Roots(config, steps, token) * MaxAttempt(config)
  {
    if steps != [] {
      AllowanceIsProduct(config, steps[..|steps| - 1], token);
      OneMore(Roots(config, steps[..|steps| - 1], token), MaxAttempt(config));
    }
  }

  lemma OneMore(n: nat, m: nat)
    ensures (n + 1) * m == n * m + m
  {
  }

  lemma {:induction false} PotentialBounded(config: Config, steps: seq<Step>, token: Token)
    ensures Potential(config, Run(config, INIT, steps).tasks, token) <= Allowance(config, steps, token)
  {
    if steps != [] {
      var front := steps[..|steps| - 1];
      PotentialBounded(config, front, token);
      assert Inv(config, Run(config, INIT, front)) by { InvAlways(config, INIT, front); }
      StepPotential(config, Run(config, INIT, front), steps[|steps| - 1], token);
    }
  }

  /**
   * In every run: a token is delivered at most `max(1, maxRetries)` times for each time a job for it was accepted or
   * delivered again.
   */
  lemma DeliveriesBounded(config: Config, steps: seq<Step>, token: Token)
    ensures Deliveries(Run(config, INIT, steps).tasks, token) <= Roots(config, steps, token) * MaxAttempt(config)
  {
    PotentialBounded(config, steps, token);
    AllowanceIsProduct(config, steps, token);
    DeliveriesWithinPotential(config, Run(config, INIT, steps).tasks, token);
  }

  // ---------- How they are numbered ----------

  /** The deliveries for the token are numbered 1, 2, 3, ... in their order. */
  predicate Serial(tasks: seq<Task>, token: Token) {
    tasks == [] ||
    var front, last := tasks[..|tasks| - 1], tasks[|tasks| - 1];
    Serial(front, token) && (last.job.token == token ==> last.job.attempt == Deliveries(front, token) + 1)
  }

  /** Only the latest delivery for the token can be live. */
  ghost predicate OneAtATime(tasks: seq<Task>, token: Token) {
    forall i, j | 0 <= i < j < |tasks| && tasks[i].job.token == tasks[j].job.token == token :: !Live(tasks[i])
  }

  /** What the tasks look like after a number of deliveries from outside. */
  ghost predicate Numbered(tasks: seq<Task>, token: Token, roots: nat) {
    && (roots == 0 ==> Deliveries(tasks, token) == 0)
    && (roots == 1 ==> Deliveries(tasks, token) > 0 && OneAtATime(tasks, token))
    && (Serial(tasks, token) <==> roots <= 1)
  }

  lemma {:induction false} NumberedUpTo(tasks: seq<Task>, token: Token, i: nat)
    requires i < |tasks| && tasks[i].job.token == token
    ensures Deliveries(tasks, token) > 0
    ensures Serial(tasks, token) ==> 1 <= tasks[i].job.attempt <= Deliveries(tasks, token)
  {
    var front := tasks[..|tasks| - 1];
    if i < |front| {
      NumberedUpTo(front, token, i);
      assert front[i] == tasks[i];
    }
  }

  lemma {:induction false} LatestHasCount(tasks: seq<Task>, token: Token, i: nat)
    requires Serial(tasks, token) && i < |tasks| && tasks[i].job.token == token
    requires forall j | i < j < |tasks| :: tasks[j].job.token != token
    ensures tasks[i].job.attempt == Deliveries(tasks, token)
  {
    var front := tasks[..|tasks| - 1];
    if i < |front| {
      LatestHasCount(front, token, i);
    }
  }

  /** The live delivery of a token with one delivery from outside carries the number of deliveries. */
  lemma LiveHasCount(tasks: seq<Task>, token: Token, i: nat)
    requires Serial(tasks, token) && OneAtATime(tasks, token)
    requires i < |tasks| && tasks[i].job.token == token && Live(tasks[i])
    ensures tasks[i].job.attempt == Deliveries(tasks, token)
  {
    LatestHasCount(tasks, token, i);
  }

  lemma {:induction false} SameJobs(tasks: seq<Task>, tasks': seq<Task>, token: Token)
    requires |tasks| == |tasks'| && forall i | 0 <= i < |tasks| :: tasks[i].job == tasks'[i].job
    ensures Serial(tasks, token) <==> Serial(tasks', token)
    ensures Deliveries(tasks, token) == Deliveries(tasks', token)
    decreases |tasks|
  {
    if tasks != [] {
      var n := |tasks| - 1;
      assert forall i | 0 <= i < n :: tasks[..n][i].job == tasks'[..n][i].job;
      SameJobs(tasks[..n], tasks'[..n], token);
    }
  }

  lemma MoveKeepsNumbers(tasks: seq<Task>, token: Token, roots: nat, i: nat, phase: Phase)
    requires Numbered(tasks, token, roots) && i < |tasks| && Live(tasks[i])
    ensures Numbered(Moved(tasks, i, phase), token, roots)
  {
    SameJobs(tasks, Moved(tasks, i, phase), token);
  }

  lemma Appended(tasks: seq<Task>, task: Task, token: Token)
    ensures Serial(tasks + [task], token)
            <==> Serial(tasks, token) && (task.job.token == token ==> task.job.attempt == Deliveries(tasks, token) + 1)
    ensures Deliveries(tasks + [task], token) == Deliveries(tasks, token) + if task.job.token == token then 1 else 0
  {
    assert (tasks + [task])[..|tasks|] == tasks;
  }

  /** The first delivery from outside is number 1; a further one carries a number already used. */
  lemma RootNumbers(tasks: seq<Task>, task: Task, token: Token, roots: nat, i: nat)
    requires Numbered(tasks, token, roots) && task.job.token == token
    requires task.job.attempt == 1 || (i < |tasks| && task.job == tasks[i].job)
    ensures Numbered(tasks + [task], token, roots + 1)
  {
    Appended(tasks, task, token);
    if task.job.attempt != 1 {
      NumberedUpTo(tasks, token, i);
    }
    if roots == 0 {
      NoneYet(tasks, token);
    }
  }

  lemma NoneYet(tasks: seq<Task>, token: Token)
    requires Deliveries(tasks, token) == 0
    ensures forall i | 0 <= i < |tasks| :: tasks[i].job.token != token
  {
    forall i | 0 <= i < |tasks|
      ensures tasks[i].job.token != token
    {
      if tasks[i].job.token == token {
        NumberedUpTo(tasks, token, i);
      }
    }
  }

  lemma OtherTokenNumbers(tasks: seq<Task>, task: Task, token: Token, roots: nat)
    requires Numbered(tasks, token, roots) && task.job.token != token
    ensures Numbered(tasks + [task], token, roots)
  {
    Appended(tasks, task, token);
  }

  lemma RetryNumbers(tasks: seq<Task>, token: Token, roots: nat, i: nat)
    requires Numbered(tasks, token, roots) && i < |tasks| && Live(tasks[i])
    ensures Numbered(Retried(tasks, i), token, roots)
  {
    var ended := Moved(tasks, i, Done);
    var next := Task(tasks[i].job.(attempt := tasks[i].job.attempt + 1), Queued);
    MoveKeepsNumbers(tasks, token, roots, i, Done);
    if next.job.token != token {
      OtherTokenNumbers(ended, next, token, roots);
    } else {
      SameJobs(tasks, ended, token);
      Appended(ended, next, token);
      NumberedUpTo(tasks, token, i);
      if roots == 1 {
        LiveHasCount(tasks, token, i);
      }
    }
  }

  lemma ProgressKeepsNumbers(config: Config, tasks: seq<Task>, tasks': seq<Task>, token: Token, roots: nat)
    requires Numbered(tasks, token, roots) && Progress(config, tasks, tasks')
    ensures Numbered(tasks', token, roots)
  {
    if i, phase :| 0 <= i < |tasks| && Live(tasks[i]) && tasks' == Moved(tasks, i, phase) {
      MoveKeepsNumbers(tasks, token, roots, i, phase);
    } else if i :| 0 <= i < |tasks| && Live(tasks[i]) && tasks[i].job.attempt < MaxAttempt(config)
                   && tasks' == Retried(tasks, i) {
      RetryNumbers(tasks, token, roots, i);
    }
  }

  lemma StepNumbers(config: Config, s: State, step: Step, token: Token, roots: nat)
    requires Numbered(s.tasks, token, roots)
    ensures Numbered(Next(config, s, step).tasks, token, roots + if Root(s, step, token) then 1 else 0)
  {
    var tasks' := Next(config, s, step).tasks;
    if step.Enqueue? || step.Redeliver? {
      RootAppends(config, s, step);
      if tasks' != s.tasks {
        var task := tasks'[|s.tasks|];
        if task.job.token == token {
          RootNumbers(s.tasks, task, token, roots, if step.Redeliver? then step.i else 0);
        } else {
          OtherTokenNumbers(s.tasks, task, token, roots);
        }
      }
    } else {
      StepProgresses(config, s, step);
      ProgressKeepsNumbers(config, s.tasks, tasks', token, roots);
    }
  }

  lemma {:induction false} NumbersAlways(config: Config, steps: seq<Step>, token: Token)
    ensures Numbered(Run(config, INIT, steps).tasks, token, Roots(config, steps, token))
  {
    if steps != [] {
      var front := steps[..|steps| - 1];
      NumbersAlways(config, front, token);
      StepNumbers(config, Run(config, INIT, front), steps[|steps| - 1], token, Roots(config, front, token));
    }
  }

  ghost predicate InOrder(tasks: seq<Task>, token: Token) {
    forall i | 0 <= i < |tasks| && tasks[i].job.token == token ::
      tasks[i].job.attempt == Deliveries(tasks[..i], token) + 1
  }

  lemma {:induction false} SerialIsInOrder(tasks: seq<Task>, token: Token)
    ensures Serial(tasks, token) <==> InOrder(tasks, token)
  {
    if tasks != [] {
      var front := tasks[..|tasks| - 1];
      SerialIsInOrder(front, token);
      assert forall i | 0 <= i < |front| :: front[i] == tasks[i] && front[..i] == tasks[..i];
    }
  }

  lemma FewRoots(tasks: seq<Task>, token: Token, roots: nat, max: nat)
    requires Numbered(tasks, token, roots) && roots <= 1 && Deliveries(tasks, token) <= roots * max
    ensures OneAtATime(tasks, token) && Deliveries(tasks, token) <= max
  {
    if roots == 0 {
      NoneYet(tasks, token);
    }
  }

  /**
   * In every run, whatever ids the queue forgets: the deliveries for a token are attempts 1, 2, 3, ... in their order
   * if and only if a job for it came from outside at most once; then there are at most `max(1, maxRetries)`, and each
   * comes only after the one before has ended.
   */
  lemma AttemptsInOrder(config: Config, steps: seq<Step>, token: Token)
    ensures var tasks := Run(config, INIT, steps).tasks;
            && (InOrder(tasks, token) <==> Roots(config, steps, token) <= 1)
            && (Roots(config, steps, token) <= 1 ==>
                  OneAtATime(tasks, token) && Deliveries(tasks, token) <= MaxAttempt(config))
  {
    var tasks := Run(config, INIT, steps).tasks;
    NumbersAlways(config, steps, token);
    SerialIsInOrder(tasks, token);
    if Roots(config, steps, token) <= 1 {
      DeliveriesBounded(config, steps, token);
      FewRoots(tasks, token, Roots(config, steps, token), MaxAttempt(config));
    }
  }

  // ---------- How much gas they get ----------

  /** Every attempt gets at least the gas of the one before, for the same estimate. */
  lemma BumpNeverFalls(baseGas: nat, attempt: nat, later: nat, gasBumpPercent: nat)
    requires attempt <= later
    ensures ApplyGasBump(baseGas, attempt, gasBumpPercent) <= ApplyGasBump(baseGas, later, gasBumpPercent)
  {
    var x := if attempt <= 1 then 0 else attempt - 1;
    var y := if later <= 1 then 0 else later - 1;
    assert gasBumpPercent * x <= gasBumpPercent * y;
    assert baseGas * (100 + gasBumpPercent * x) <= baseGas * (100 + gasBumpPercent * y);
    assert baseGas * (100 + gasBumpPercent * 0) / 100 == baseGas;
    assert ApplyGasBump(baseGas, attempt, gasBumpPercent) == baseGas * (100 + gasBumpPercent * x) / 100;
    assert ApplyGasBump(baseGas, later, gasBumpPercent) == baseGas * (100 + gasBumpPercent * y) / 100;
  }

  /** The gas estimate, or the fallback where there is none. */
  function BaseGas(estimate: Option<nat>): nat {
    if estimate.Some? then estimate.value else FALLBACK_GAS
  }

  /** Every transaction for the token is sent with the same estimate. */
  predicate SameEstimate(config: Config, steps: seq<Step>, token: Token, baseGas: nat) {
    steps == [] ||
    var front, step := steps[..|steps| - 1], steps[|steps| - 1];
    && SameEstimate(config, front, token, baseGas)
    && (var tasks := Run(config, INIT, front).tasks;
        step.Submit? && step.i < |tasks| && tasks[step.i].job.token == token ==> BaseGas(step.estimate) == baseGas)
  }

  /** The step sends a transaction. */
  predicate Sends(s: State, step: Step) {
    step.Submit? && At(s, step.i, Submitting) && !step.send.NotSent?
  }

  /** For every transaction the attempt it was sent in. */
  function SentIn(config: Config, steps: seq<Step>): seq<nat> {
    if steps == [] then []
    else
      var front, step := steps[..|steps| - 1], steps[|steps| - 1];
      var s := Run(config, INIT, front);
      SentIn(config, front) + if Sends(s, step) then [s.tasks[step.i].job.attempt] else []
  }

  /** Every transaction has the gas of its attempt, bumped from the same base for those of the token. */
  ghost predicate GasOfAttempts(config: Config, txs: seq<Tx>, sent: seq<nat>, token: Token, baseGas: nat) {
    && |txs| == |sent|
    && forall k | 0 <= k < |txs| ::
         1 <= sent[k] && (txs[k].token == token ==> txs[k].gas == ApplyGasBump(baseGas, sent[k], config.gasBumpPercent))
  }

  /** Only a submission adds a transaction, and no step changes the token or the gas of one. */
  lemma TxsKept(config: Config, s: State, step: Step)
    requires !Sends(s, step)
    ensures var txs' := Next(config, s, step).txs;
            && |txs'| == |s.txs|
            && forall k | 0 <= k < |s.txs| :: txs'[k].token == s.txs[k].token && txs'[k].gas == s.txs[k].gas
  {
  }

  lemma TxSent(config: Config, s: State, step: Step)
    requires Sends(s, step)
    ensures var job := s.tasks[step.i].job;
            Next(config, s, step).txs == s.txs + [Tx(job.token, job.amount,
              ApplyGasBump(BaseGas(step.estimate), job.attempt, config.gasBumpPercent), Pending)]
  {
  }

  /** With the same estimate throughout, the gas of a token's transactions is that of the attempts they were sent in. */
  lemma {:induction false} GasByAttempt(config: Config, steps: seq<Step>, token: Token, baseGas: nat)
    requires SameEstimate(config, steps, token, baseGas)
    ensures GasOfAttempts(config, Run(config, INIT, steps).txs, SentIn(config, steps), token, baseGas)
  {
    if steps != [] {
      var front, step := steps[..|steps| - 1], steps[|steps| - 1];
      var s := Run(config, INIT, front);
      GasByAttempt(config, front, token, baseGas);
      if Sends(s, step) {
        assert TaskOk(config, s, s.tasks[step.i]) by { InvAlways(config, INIT, front); }
        TxSent(config, s, step);
      } else {
        TxsKept(config, s, step);
      }
    }
  }

  ghost predicate GasInOrder(txs: seq<Tx>, token: Token) {
    forall j, k | 0 <= j < k < |txs| && txs[j].token == txs[k].token == token :: txs[j].gas <= txs[k].gas
  }

  /** The token's transactions were sent in the order of their attempts. */
  ghost predicate SentInOrder(txs: seq<Tx>, sent: seq<nat>, token: Token)
    requires |txs| == |sent|
  {
    forall j, k | 0 <= j < k < |txs| && txs[j].token == txs[k].token == token :: sent[j] <= sent[k]
  }

  /** Where one bump is at least one unit, a later attempt gets strictly more gas. */
  lemma BumpRises(baseGas: nat, attempt: nat, later: nat, gasBumpPercent: nat)
    requires 1 <= attempt < later && baseGas * gasBumpPercent >= 100
    ensures ApplyGasBump(baseGas, attempt, gasBumpPercent) < ApplyGasBump(baseGas, later, gasBumpPercent)
  {
    var x, y := attempt - 1, later - 1;
    BumpExpanded(baseGas, attempt, gasBumpPercent);
    BumpExpanded(baseGas, later, gasBumpPercent);
    TimesMore(baseGas * gasBumpPercent, x, y);
  }

  lemma BumpExpanded(baseGas: nat, attempt: nat, gasBumpPercent: nat)
    requires 1 <= attempt
    ensures ApplyGasBump(baseGas, attempt, gasBumpPercent)
            == (baseGas * 100 + (baseGas * gasBumpPercent) * (attempt - 1)) / 100
  {
    assert baseGas * (100 + gasBumpPercent * (attempt - 1))
        == baseGas * 100 + baseGas * (gasBumpPercent * (attempt - 1));
    assert baseGas * (gasBumpPercent * (attempt - 1)) == (baseGas * gasBumpPercent) * (attempt - 1);
  }

  lemma TimesMore(z: nat, x: nat, y: nat)
    requires x < y
    ensures z * x + z <= z * y
  {
    assert z * x + z == z * (x + 1);
    assert z * (x + 1) <= z * y;
  }

  lemma AttemptsDecideGas(config: Config, txs: seq<Tx>, sent: seq<nat>, token: Token, baseGas: nat)
    requires GasOfAttempts(config, txs, sent, token, baseGas)
    ensures SentInOrder(txs, sent, token) ==> GasInOrder(txs, token)
    ensures baseGas * config.gasBumpPercent >= 100 && GasInOrder(txs, token) ==> SentInOrder(txs, sent, token)
  {
    forall j, k | 0 <= j < k < |txs| && txs[j].token == txs[k].token == token
      ensures sent[j] <= sent[k] ==> txs[j].gas <= txs[k].gas
      ensures baseGas * config.gasBumpPercent >= 100 && txs[j].gas <= txs[k].gas ==> sent[j] <= sent[k]
    {
      if sent[j] <= sent[k] {
        BumpNeverFalls(baseGas, sent[j], sent[k], config.gasBumpPercent);
      } else if baseGas * config.gasBumpPercent >= 100 {
        BumpRises(baseGas, sent[k], sent[j], config.gasBumpPercent);
      }
    }
  }

  /**
   * In every run with the same estimate for a token throughout, of which one bump is at least one unit: its
   * transactions are sent with non-decreasing gas if and only if they are sent in the order of their attempts.
   */
  lemma GasInOrderExactly(config: Config, steps: seq<Step>, token: Token, baseGas: nat)
    requires SameEstimate(config, steps, token, baseGas) && baseGas * config.gasBumpPercent >= 100
    ensures |SentIn(config, steps)| == |Run(config, INIT, steps).txs|
    ensures GasInOrder(Run(config, INIT, steps).txs, token)
            <==> SentInOrder(Run(config, INIT, steps).txs, SentIn(config, steps), token)
  {
    GasByAttempt(config, steps, token, baseGas);
    AttemptsDecideGas(config, Run(config, INIT, steps).txs, SentIn(config, steps), token, baseGas);
  }

  lemma DeliveriesGrow(config: Config, s: State, step: Step, token: Token)
    ensures Deliveries(s.tasks, token) <= Deliveries(Next(config, s, step).tasks, token)
  {
    var tasks' := Next(config, s, step).tasks;
    if step.Enqueue? || step.Redeliver? {
      RootAppends(config, s, step);
      if tasks' != s.tasks {
        Appended(s.tasks, tasks'[|s.tasks|], token);
      }
    } else {
      StepProgresses(config, s, step);
      if i, phase :| 0 <= i < |s.tasks| && Live(s.tasks[i]) && tasks' == Moved(s.tasks, i, phase) {
        SameJobs(s.tasks, tasks', token);
      } else if i :| 0 <= i < |s.tasks| && tasks' == Retried(s.tasks, i) {
        SameJobs(s.tasks, Moved(s.tasks, i, Done), token);
        Appended(Moved(s.tasks, i, Done), tasks'[|s.tasks|], token);
      }
    }
  }

  /** So far the token's transactions were sent in order, in attempts up to the number of its deliveries. */
  ghost predicate SentSoFar(s: State, sent: seq<nat>, token: Token) {
    && |s.txs| == |sent| && SentInOrder(s.txs, sent, token)
    && forall k | 0 <= k < |sent| && s.txs[k].token == token :: sent[k] <= Deliveries(s.tasks, token)
  }

  /** What is sent for the token is sent in the attempt of its latest delivery. */
  lemma SentInLatest(s: State, token: Token, roots: nat, step: Step)
    requires Numbered(s.tasks, token, roots) && roots <= 1 && Sends(s, step) && s.tasks[step.i].job.token == token
    ensures s.tasks[step.i].job.attempt == Deliveries(s.tasks, token)
  {
    NumberedUpTo(s.tasks, token, step.i);
    LiveHasCount(s.tasks, token, step.i);
  }

  lemma StepKeepsSent(config: Config, s: State, step: Step, sent: seq<nat>, token: Token, roots: nat)
    requires Numbered(s.tasks, token, roots) && roots <= 1 && SentSoFar(s, sent, token)
    ensures SentSoFar(Next(config, s, step), sent + if Sends(s, step) then [s.tasks[step.i].job.attempt] else [], token)
  {
    DeliveriesGrow(config, s, step, token);
    if Sends(s, step) {
      TxSent(config, s, step);
      if s.tasks[step.i].job.token == token {
        SentInLatest(s, token, roots, step);
      }
    } else {
      TxsKept(config, s, step);
      assert sent + [] == sent;
    }
  }

  /** A job that came from outside at most once is sent in the order of its attempts. */
  lemma {:induction false} SentInOrderOnce(config: Config, steps: seq<Step>, token: Token)
    requires Roots(config, steps, token) <= 1
    ensures SentSoFar(Run(config, INIT, steps), SentIn(config, steps), token)
  {
    if steps != [] {
      var front := steps[..|steps| - 1];
      SentInOrderOnce(config, front, token);
      NumbersAlways(config, front, token);
      StepKeepsSent(config, Run(config, INIT, front), steps[|steps| - 1], SentIn(config, front), token,
                    Roots(config, front, token));
    }
  }

  /** So, for one estimate, its transactions are sent with non-decreasing gas. */
  lemma GasNeverFalls(config: Config, steps: seq<Step>, token: Token, baseGas: nat)
    requires Roots(config, steps, token) <= 1 && SameEstimate(config, steps, token, baseGas)
    ensures GasInOrder(Run(config, INIT, steps).txs, token)
  {
    SentInOrderOnce(config, steps, token);
    GasByAttempt(config, steps, token, baseGas);
    AttemptsDecideGas(config, Run(config, INIT, steps).txs, SentIn(config, steps), token, baseGas);
  }

  // ---------- A job delivered again gets less gas ----------

  const TWICE: Config := Config(2, 20)

  /** Both attempts of a token have been sent, and the first is delivered again. */
  function AgainQueued(token: Token, amount: nat): State {
    State([Task(Job(token, amount, 1), Done), Task(Job(token, amount, 2), Errored),
           Task(Job(token, amount, 1), Queued)],
          [Tx(token, amount, 200_000, Pending), Tx(token, amount, 240_000, Pending)], [], map[], {(token, amount)})
  }

  lemma FirstAttempt(token: Token, amount: nat)
    ensures var s := INIT.(tasks := [Task(Job(token, amount, 1), Submitting)], origins := {(token, amount)});
            Run(TWICE, s, [Submit(0, None, ReplyLost), HandleError(0, true, false, true), Take(1)])
            == State([Task(Job(token, amount, 1), Done), Task(Job(token, amount, 2), Checking)],
                     [Tx(token, amount, 200_000, Pending)], [], map[], {(token, amount)})
  {
    var s := INIT.(tasks := [Task(Job(token, amount, 1), Submitting)], origins := {(token, amount)});
    RunThree(TWICE, s, Submit(0, None, ReplyLost), HandleError(0, true, false, true), Take(1));
    var s1 := Next(TWICE, s, Submit(0, None, ReplyLost));
    assert s1.tasks == [Task(Job(token, amount, 1), Errored)] && s1.txs == [Tx(token, amount, 200_000, Pending)];
    var s2 := Next(TWICE, s1, HandleError(0, true, false, true));
    assert s2.tasks == [Task(Job(token, amount, 1), Done), Task(Job(token, amount, 2), Queued)];
  }

  lemma SecondAttempt(token: Token, amount: nat)
    ensures var s := State([Task(Job(token, amount, 1), Done), Task(Job(token, amount, 2), Checking)],
                           [Tx(token, amount, 200_000, Pending)], [], map[], {(token, amount)});
            Run(TWICE, s, [Ask(1, Some(false)), Submit(1, None, ReplyLost), Redeliver(0)])
            == AgainQueued(token, amount)
  {
    var s := State([Task(Job(token, amount, 1), Done), Task(Job(token, amount, 2), Checking)],
                   [Tx(token, amount, 200_000, Pending)], [], map[], {(token, amount)});
    RunThree(TWICE, s, Ask(1, Some(false)), Submit(1, None, ReplyLost), Redeliver(0));
  }

  lemma FirstAgain(token: Token, amount: nat)
    ensures Run(TWICE, AgainQueued(token, amount), [Take(2), Ask(2, Some(false)), Submit(2, None, ReplyLost)]).txs
            == AgainQueued(token, amount).txs + [Tx(token, amount, 200_000, Pending)]
  {
    RunThree(TWICE, AgainQueued(token, amount), Take(2), Ask(2, Some(false)), Submit(2, None, ReplyLost));
  }

  /** The first attempt, delivered again after the second, is sent with less gas, for the same estimate. */
  lemma GasFallsWhenRedelivered(token: Token, amount: nat)
    ensures var steps := [Enqueue(token, amount, false), Take(0), Ask(0, Some(false))]
                         + [Submit(0, None, ReplyLost), HandleError(0, true, false, true), Take(1)]
                         + [Ask(1, Some(false)), Submit(1, None, ReplyLost), Redeliver(0)]
                         + [Take(2), Ask(2, Some(false)), Submit(2, None, ReplyLost)];
            !GasInOrder(Run(TWICE, INIT, steps).txs, token)
  {
    var a := [Enqueue(token, amount, false), Take(0), Ask(0, Some(false))];
    var b := [Submit(0, None, ReplyLost), HandleError(0, true, false, true), Take(1)];
    var c := [Ask(1, Some(false)), Submit(1, None, ReplyLost), Redeliver(0)];
    var d := [Take(2), Ask(2, Some(false)), Submit(2, None, ReplyLost)];
    RunAppend(TWICE, INIT, a + b + c, d);
    RunAppend(TWICE, INIT, a + b, c);
    RunAppend(TWICE, INIT, a, b);
    ReadyToSubmit(TWICE, token, amount);
    FirstAttempt(token, amount);
    SecondAttempt(token, amount);
    FirstAgain(token, amount);
    var txs := Run(TWICE, INIT, a + b + c + d).txs;
    assert txs[1].gas == 240_000 && txs[2].gas == 200_000;
  }
}
