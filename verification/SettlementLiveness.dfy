/**
 * Every enqueued settlement ends marked: when queue and database writes succeed and no worker dies, the service can
 * take only so many steps, and when it has none left every token has a final status.
 */
module SettlementLiveness {
  import opened Wrappers
  import opened SpendSettler
  import opened SettlementProtocol

  /** No worker dies and no write to the queue or of a status is lost. */
  predicate FairStep(step: Step) {
    && !step.Crash?
    && (step.MarkSettled? ==> step.dbOk)
    && (step.HandleError? ==> step.queueOk && step.dbOk)
  }

  predicate Fair(steps: seq<Step>) {
    forall i | 0 <= i < |steps| :: FairStep(steps[i])
  }

  // ---------- Nothing is forgotten ----------

  /** The token has a status, or a live task will deal with a later attempt. */
  ghost predicate Followed(s: State, token: Token, attempt: nat) {
    token in s.db
    || exists j | 0 <= j < |s.tasks| ::
         Live(s.tasks[j]) && s.tasks[j].job.token == token && s.tasks[j].job.attempt > attempt
  }

  ghost predicate TaskTracked(s: State, task: Task) {
    Live(task) || Followed(s, task.job.token, task.job.attempt)
  }

  ghost predicate Tracked(s: State) {
    forall i | 0 <= i < |s.tasks| :: TaskTracked(s, s.tasks[i])
  }

  predicate HasTask(tasks: seq<Task>, token: Token) {
    exists i | 0 <= i < |tasks| :: tasks[i].job.token == token
  }

  /** Tasks keep their place and their job, and live ones stay live. */
  ghost predicate Grows(s: State, s': State) {
    && s.db.Keys <= s'.db.Keys && |s.tasks| <= |s'.tasks|
    && forall j | 0 <= j < |s.tasks| ::
         s'.tasks[j].job == s.tasks[j].job && (Live(s'.tasks[j]) <==> Live(s.tasks[j]))
  }

  lemma FollowedKept(s: State, s': State, token: Token, attempt: nat)
    requires Grows(s, s') && Followed(s, token, attempt)
    ensures Followed(s', token, attempt)
  {
    if token !in s.db {
      var j :| 0 <= j < |s.tasks| && Live(s.tasks[j]) &&
               s.tasks[j].job.token == token && s.tasks[j].job.attempt > attempt;
      assert Live(s'.tasks[j]) && s'.tasks[j].job == s.tasks[j].job;
    }
  }

  lemma GrowthKeepsTracked(s: State, s': State)
    requires Tracked(s) && Grows(s, s')
    requires forall j | |s.tasks| <= j < |s'.tasks| :: Live(s'.tasks[j])
    ensures Tracked(s')
  {
    forall i | 0 <= i < |s'.tasks|
      ensures TaskTracked(s', s'.tasks[i])
    {
      if i < |s.tasks| && !Live(s'.tasks[i]) {
        assert TaskTracked(s, s.tasks[i]);
        FollowedKept(s, s', s.tasks[i].job.token, s.tasks[i].job.attempt);
      }
    }
  }

  /** Ending task `i` keeps everything followed, provided its own token and attempt are. */
  lemma EndingKeepsTracked(s: State, s': State, i: nat)
    requires Tracked(s) && i < |s.tasks| && |s.tasks| <= |s'.tasks| && s.db.Keys <= s'.db.Keys
    requires forall j | 0 <= j < |s.tasks| ::
               s'.tasks[j].job == s.tasks[j].job && (j != i ==> (Live(s'.tasks[j]) <==> Live(s.tasks[j])))
    requires forall j | |s.tasks| <= j < |s'.tasks| :: Live(s'.tasks[j])
    requires Followed(s', s.tasks[i].job.token, s.tasks[i].job.attempt)
    ensures Tracked(s')
  {
    forall n | 0 <= n < |s'.tasks|
      ensures TaskTracked(s', s'.tasks[n])
    {
      if n < |s.tasks| && n != i && !Live(s'.tasks[n]) {
        assert TaskTracked(s, s.tasks[n]);
        StillFollowed(s, s', i, s.tasks[n].job.token, s.tasks[n].job.attempt);
      }
    }
  }

  lemma StillFollowed(s: State, s': State, i: nat, token: Token, attempt: nat)
    requires i < |s.tasks| && |s.tasks| <= |s'.tasks| && s.db.Keys <= s'.db.Keys
    requires forall j | 0 <= j < |s.tasks| ::
               s'.tasks[j].job == s.tasks[j].job && (j != i ==> (Live(s'.tasks[j]) <==> Live(s.tasks[j])))
    requires Followed(s', s.tasks[i].job.token, s.tasks[i].job.attempt)
    requires Followed(s, token, attempt)
    ensures Followed(s', token, attempt)
  {
    if token !in s'.db {
      var j :| 0 <= j < |s.tasks| && Live(s.tasks[j]) &&
               s.tasks[j].job.token == token && s.tasks[j].job.attempt > attempt;
      if j == i {
        var m :| 0 <= m < |s'.tasks| && Live(s'.tasks[m]) && s'.tasks[m].job.token == token
              && s'.tasks[m].job.attempt > s.tasks[i].job.attempt;
        assert s'.tasks[m].job.attempt > attempt;
      } else {
        assert Live(s'.tasks[j]) && s'.tasks[j].job == s.tasks[j].job;
      }
    }
  }

  /** A retry is followed: by the job it adds, or by whatever made the queue ignore it. */
  lemma RetryFollowed(s: State, i: nat, evicted: bool)
    requires Tracked(s) && At(s, i, Errored)
    ensures var job := s.tasks[i].job;
            var s1 := To(s, i, Done);
            var next := job.(attempt := job.attempt + 1);
            Followed(s1.(tasks := Add(s1.tasks, next, evicted)), job.token, job.attempt)
  {
    var job := s.tasks[i].job;
    var s1 := To(s, i, Done);
    var next := job.(attempt := job.attempt + 1);
    var s' := s1.(tasks := Add(s1.tasks, next, evicted));
    if Known(s1.tasks, next, evicted) {
      var k :| 0 <= k < |s1.tasks| && s1.tasks[k].job.token == job.token && s1.tasks[k].job.attempt == next.attempt
            && (!evicted || Live(s1.tasks[k]));
      assert k != i;
      if !Live(s1.tasks[k]) {
        assert TaskTracked(s, s.tasks[k]);
        LaterFollowed(s, s', i, job.token, next.attempt);
      }
    } else {
      assert s'.tasks[|s1.tasks|] == Task(next, Queued);
    }
  }

  lemma LaterFollowed(s: State, s': State, i: nat, token: Token, attempt: nat)
    requires i < |s.tasks| && |s.tasks| <= |s'.tasks| && s.db == s'.db && s.tasks[i].job.attempt <= attempt
    requires forall j | 0 <= j < |s.tasks| && j != i :: s'.tasks[j] == s.tasks[j]
    requires Followed(s, token, attempt) && attempt > 0
    ensures Followed(s', token, attempt - 1)
  {
    if token !in s.db {
      var j :| 0 <= j < |s.tasks| && Live(s.tasks[j]) &&
               s.tasks[j].job.token == token && s.tasks[j].job.attempt > attempt;
      assert s'.tasks[j] == s.tasks[j];
    }
  }

  lemma ErrorKeepsTracked(config: Config, s: State, i: nat, evicted: bool)
    requires Tracked(s) && At(s, i, Errored)
    ensures Tracked(ErrorStep(config, s, i, true, evicted, true))
  {
    var s' := ErrorStep(config, s, i, true, evicted, true);
    if s.tasks[i].job.attempt < config.maxRetries {
      RetryFollowed(s, i, evicted);
    }
    EndingKeepsTracked(s, s', i);
  }

  lemma MarkKeepsTracked(config: Config, s: State, i: nat)
    requires Tracked(s) && At(s, i, Confirmed)
    ensures var s' := Next(config, s, MarkSettled(i, true)); Tracked(s')
  {
    var s' := Next(config, s, MarkSettled(i, true));
    EndingKeepsTracked(s, s', i);
  }

  lemma EnqueueKeepsTracked(config: Config, s: State, token: Token, amount: nat, evicted: bool)
    requires Tracked(s)
    ensures var s' := Next(config, s, Enqueue(token, amount, evicted)); Tracked(s')
  {
    var s' := Next(config, s, Enqueue(token, amount, evicted));
    GrowthKeepsTracked(s, s');
  }

  lemma TrackedKept(config: Config, s: State, step: Step)
    requires Tracked(s) && FairStep(step)
    ensures Tracked(Next(config, s, step))
  {
    if step.Enqueue? {
      EnqueueKeepsTracked(config, s, step.token, step.amount, step.evicted);
    } else if step.HandleError? && At(s, step.i, Errored) {
      ErrorKeepsTracked(config, s, step.i, step.evicted);
    } else if step.MarkSettled? && At(s, step.i, Confirmed) {
      MarkKeepsTracked(config, s, step.i);
    } else {
      QuietStep(config, s, step);
      GrowthKeepsTracked(s, Next(config, s, step));
    }
  }

  /** Every other fair step only moves a live task to a live phase, or adds a live one. */
  lemma QuietStep(config: Config, s: State, step: Step)
    requires FairStep(step) && !step.Enqueue?
    requires step.HandleError? ==> !At(s, step.i, Errored)
    requires step.MarkSettled? ==> !At(s, step.i, Confirmed)
    ensures var s' := Next(config, s, step);
            && Grows(s, s') && s'.origins == s.origins
            && forall j | |s.tasks| <= j < |s'.tasks| :: Live(s'.tasks[j])
  {
  }

  lemma {:induction false} TrackedAlways(config: Config, s: State, steps: seq<Step>)
    requires Tracked(s) && Fair(steps)
    ensures Tracked(Run(config, s, steps))
  {
    if steps != [] {
      TrackedAlways(config, s, steps[..|steps| - 1]);
      TrackedKept(config, Run(config, s, steps[..|steps| - 1]), steps[|steps| - 1]);
    }
  }

  // ---------- Work runs out ----------

  function Rank(phase: Phase): nat {
    match phase
    case Queued => 5
    case Checking => 4
    case Submitting => 3
    case Confirming(_) => 2
    case Confirmed => 1
    case Errored => 1
    case Done => 0
    case Lost => 0
  }

  /** What is left to do for a task, its retries included. */
  function Weight(config: Config, task: Task): nat {
    if !Live(task) || task.job.attempt > MaxAttempt(config) then 0
    else (MaxAttempt(config) - task.job.attempt) * 6 + Rank(task.phase)
  }

  function Measure(config: Config, tasks: seq<Task>): nat {
    if tasks == [] then 0 else Measure(config, tasks[..|tasks| - 1]) + Weight(config, tasks[|tasks| - 1])
  }

  lemma {:induction false} MeasureUpdate(config: Config, tasks: seq<Task>, i: nat, task: Task)
    requires i < |tasks|
    ensures Measure(config, tasks[i := task]) ==
            Measure(config, tasks) - Weight(config, tasks[i]) + Weight(config, task)
    ensures Measure(config, tasks) >= Weight(config, tasks[i])
  {
    var front := tasks[..|tasks| - 1];
    if i < |front| {
      MeasureUpdate(config, front, i, task);
      assert tasks[i := task][..|front|] == front[i := task];
    } else {
      assert tasks[i := task][..|front|] == front;
    }
  }

  lemma MeasureSnoc(config: Config, tasks: seq<Task>, task: Task)
    ensures Measure(config, tasks + [task]) == Measure(config, tasks) + Weight(config, task)
  {
    assert (tasks + [task])[..|tasks|] == tasks;
  }

  /** Steps of the service, as opposed to those of the chain, the queue's clients and the queue itself. */
  predicate ServiceStep(step: Step) {
    step.Take? || step.Ask? || step.Submit? || step.Receipt? || step.MarkSettled? || step.HandleError?
  }

  /** A service step that does something. */
  predicate Works(config: Config, s: State, step: Step) {
    ServiceStep(step) && Next(config, s, step) != s
  }

  /** A live task that moves on to a later phase has less left to do. */
  lemma MoveLowers(config: Config, s: State, i: nat, phase: Phase)
    requires Inv(config, s) && i < |s.tasks| && Live(s.tasks[i]) && Rank(phase) < Rank(s.tasks[i].phase)
    ensures Measure(config, To(s, i, phase).tasks) < Measure(config, s.tasks)
  {
    assert TaskOk(config, s, s.tasks[i]);
    MeasureUpdate(config, s.tasks, i, s.tasks[i].(phase := phase));
  }

  lemma ErrorLowers(config: Config, s: State, i: nat, evicted: bool)
    requires Inv(config, s) && At(s, i, Errored)
    ensures Measure(config, ErrorStep(config, s, i, true, evicted, true).tasks) < Measure(config, s.tasks)
  {
    var job := s.tasks[i].job;
    assert TaskOk(config, s, s.tasks[i]);
    MeasureUpdate(config, s.tasks, i, s.tasks[i].(phase := Done));
    MeasureSnoc(config, To(s, i, Done).tasks, Task(job.(attempt := job.attempt + 1), Queued));
  }

  lemma WorkLowers(config: Config, s: State, step: Step)
    requires Inv(config, s) && FairStep(step) && Works(config, s, step)
    ensures Measure(config, Next(config, s, step).tasks) < Measure(config, s.tasks)
  {
    if step.HandleError? {
      ErrorLowers(config, s, step.i, step.evicted);
    } else {
      var s' := Next(config, s, step);
      assert step.i < |s.tasks|;
      MoveLowers(config, s, step.i, s'.tasks[step.i].phase);
    }
  }

  /** No new work comes in: nothing enqueued, nothing delivered again. */
  predicate NoNewWork(steps: seq<Step>) {
    forall i | 0 <= i < |steps| :: !steps[i].Enqueue? && !steps[i].Redeliver?
  }

  function WorkCount(config: Config, s: State, steps: seq<Step>): nat {
    if steps == [] then 0
    else
      var front := steps[..|steps| - 1];
      WorkCount(config, s, front) + if Works(config, Run(config, s, front), steps[|steps| - 1]) then 1 else 0
  }

  lemma {:induction false} WorkBounded(config: Config, s: State, steps: seq<Step>)
    requires Inv(config, s) && Fair(steps) && NoNewWork(steps)
    ensures Measure(config, Run(config, s, steps).tasks) + WorkCount(config, s, steps) <= Measure(config, s.tasks)
  {
    if steps != [] {
      var front := steps[..|steps| - 1];
      WorkBounded(config, s, front);
      InvAlways(config, s, front);
      var s1 := Run(config, s, front);
      if Works(config, s1, steps[|steps| - 1]) {
        WorkLowers(config, s1, steps[|steps| - 1]);
      } else {
        assert Next(config, s1, steps[|steps| - 1]).tasks == s1.tasks;
      }
    }
  }

  /** A live task always has a step to take. */
  lemma NeverStuck(config: Config, s: State, i: nat) returns (step: Step)
    requires Inv(config, s) && i < |s.tasks| && Live(s.tasks[i])
    ensures FairStep(step) && Works(config, s, step)
  {
    assert TaskOk(config, s, s.tasks[i]);
    match s.tasks[i].phase
    case Queued => step := Take(i);
    case Checking => step := Ask(i, None);
    case Submitting => step := Submit(i, None, NotSent);
    case Confirming(k) => step := Receipt(i, true);
    case Confirmed => step := MarkSettled(i, true);
    case Errored => step := HandleError(i, true, false, true);
    assert Next(config, s, step).tasks[i].phase != s.tasks[i].phase;
  }

  lemma {:induction false} LiveWeighs(config: Config, s: State, i: nat)
    requires Inv(config, s) && i < |s.tasks| && Live(s.tasks[i])
    ensures Measure(config, s.tasks) > 0
  {
    assert TaskOk(config, s, s.tasks[i]);
    MeasureUpdate(config, s.tasks, i, s.tasks[i]);
  }

  lemma TaskKept(config: Config, s: State, step: Step, token: Token)
    requires HasTask(s.tasks, token)
    ensures HasTask(Next(config, s, step).tasks, token)
  {
    var i :| 0 <= i < |s.tasks| && s.tasks[i].job.token == token;
    assert Next(config, s, step).tasks[i].job.token == token;
  }

  predicate Enqueued(steps: seq<Step>, token: Token) {
    exists k | 0 <= k < |steps| :: steps[k].Enqueue? && steps[k].token == token
  }

  /** The queue accepts an enqueued job or knows one for the same token. */
  lemma {:induction false} EnqueuedHasTask(config: Config, steps: seq<Step>, token: Token)
    requires Enqueued(steps, token)
    ensures HasTask(Run(config, INIT, steps).tasks, token)
  {
    var front, step := steps[..|steps| - 1], steps[|steps| - 1];
    var s := Run(config, INIT, front);
    if step.Enqueue? && step.token == token {
      var s' := Next(config, s, step);
      assert s' != s ==> s'.tasks[|s.tasks|].job.token == token;
    } else {
      var k :| 0 <= k < |steps| && steps[k].Enqueue? && steps[k].token == token;
      assert front[k] == steps[k];
      EnqueuedHasTask(config, front, token);
      TaskKept(config, s, step, token);
    }
  }

  lemma {:induction false} TaskKeptAlways(config: Config, s: State, steps: seq<Step>, token: Token)
    requires HasTask(s.tasks, token)
    ensures HasTask(Run(config, s, steps).tasks, token)
  {
    if steps != [] {
      TaskKeptAlways(config, s, steps[..|steps| - 1], token);
      TaskKept(config, Run(config, s, steps[..|steps| - 1]), steps[|steps| - 1], token);
    }
  }

  /** Every token enqueued in the steps has a final status. */
  ghost predicate AllMarked(steps: seq<Step>, s: State) {
    forall token | Enqueued(steps, token) :: token in s.db
  }

  /** A token without a status has a live task. */
  lemma UnmarkedIsLive(s: State, token: Token) returns (i: nat)
    requires Tracked(s) && HasTask(s.tasks, token) && token !in s.db
    ensures i < |s.tasks| && Live(s.tasks[i])
  {
    var k :| 0 <= k < |s.tasks| && s.tasks[k].job.token == token;
    assert TaskTracked(s, s.tasks[k]);
    if Live(s.tasks[k]) {
      i := k;
    } else {
      i :| 0 <= i < |s.tasks| && Live(s.tasks[i]) && s.tasks[i].job.token == token
        && s.tasks[i].job.attempt > s.tasks[k].job.attempt;
    }
  }

  /**
   * After any fair run, once no new work comes in, the service makes at most `Measure` further moves; when it has made
   * that many every enqueued token is marked settled or failed; and until every one is, it has a move to make.
   */
  lemma EveryJobEnds(config: Config, before: seq<Step>, steps: seq<Step>)
    requires Fair(before) && Fair(steps) && NoNewWork(steps)
    ensures var s := Run(config, INIT, before);
            var s' := Run(config, s, steps);
            && WorkCount(config, s, steps) <= Measure(config, s.tasks)
            && (WorkCount(config, s, steps) == Measure(config, s.tasks) ==> AllMarked(before, s'))
            && (AllMarked(before, s') || exists step :: FairStep(step) && Works(config, s', step))
  {
    var s := Run(config, INIT, before);
    var s' := Run(config, s, steps);
    InvAlways(config, INIT, before);
    TrackedAlways(config, INIT, before);
    InvAlways(config, s, steps);
    TrackedAlways(config, s, steps);
    WorkBounded(config, s, steps);
    if !AllMarked(before, s') {
      var token :| Enqueued(before, token) && token !in s'.db;
      EnqueuedHasTask(config, before, token);
      TaskKeptAlways(config, s, steps, token);
      var i := UnmarkedIsLive(s', token);
      LiveWeighs(config, s', i);
      var step := NeverStuck(config, s', i);
    }
  }
}
