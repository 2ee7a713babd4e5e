/**
 * The chain indexer: a poller reads the head, stays two blocks behind it, fetches the settlement events since its
 * persisted cursor, writes one row per token and then moves the cursor.  It can fail or be killed anywhere.
 *
 * Several pollers run at once, one in every replica of the backend; the cursor and the rows are shared.
 */
module Watcher {
  import opened Wrappers

  const CONFIRMATION_BUFFER: int := 2
  const MAX_CONSECUTIVE_FAILURES: nat := 5
  const CIRCUIT_BREAKER_PAUSE_MS: nat := 30_000

  /** A SpendSettled event; `data` stands for the fields that are only copied. */
  datatype Event = Event(token: nat, block: int, data: nat)

  /** The events of every block, in order. */
  type Chain = int -> seq<Event>

  ghost predicate InChain(chain: Chain, e: Event) {
    e in chain(e.block)
  }

  /** Events sit in their own block, and the contract settles a token once. */
  ghost predicate ChainOk(chain: Chain) {
    && (forall b, e | e in chain(b) :: e.block == b)
    && (forall e, f | InChain(chain, e) && InChain(chain, f) && e.token == f.token :: e == f)
  }

  /** What `getLogs` returns for a range of blocks. */
  function Logs(chain: Chain, from: int, last: int): seq<Event>
    decreases if from <= last then last - from + 1 else 0
  {
    if from > last then [] else Logs(chain, from, last - 1) + chain(last)
  }

  datatype Phase =
    | Idle
    | HeadRead(safe: int)
    | Ranged(from: int, last: int)                           // something new to process
    | Persisting(from: int, last: int, pending: seq<Event>)  // fetched; `pending` not yet written

  datatype Commit = Commit(from: int, last: int)

  datatype State = State(
    cursor: Option<int>,             // last processed block, once set
    rows: map<nat, Event>,           // one row per token
    pollers: map<nat, Phase>,
    lost: set<Event>,                // events whose write failed and was only logged
    commits: seq<Commit>,            // committed ranges, oldest first
    reach: int                       // highest block ever fetched
  )

  datatype Step =
    | ReadHead(p: nat, head: nat)
    | ReadCursor(p: nat)
    | Fetch(p: nat)
    | Persist(p: nat, ok: bool)
    | SetCursor(p: nat)
    | Fail(p: nat)                   // an exception, or the process dies

  function Init(start: int): State {
    State(None, map[], map[], {}, [], start - 1)
  }

  function PhaseOf(s: State, p: nat): Phase {
    if p in s.pollers then s.pollers[p] else Idle
  }

  function To(s: State, p: nat, phase: Phase): State {
    s.(pollers := s.pollers[p := phase])
  }

  /** `getLastProcessedBlock`: the first block not yet processed. */
  function NextBlock(s: State, start: int): int {
    if s.cursor.Some? then s.cursor.value + 1 else start
  }

  /** `upsert` with an empty update: the first row of a token stays. */
  function Upsert(rows: map<nat, Event>, e: Event): map<nat, Event> {
    if e.token in rows then rows else rows[e.token := e]
  }

  function PersistStep(s: State, p: nat, from: int, last: int, pending: seq<Event>, ok: bool): State
    requires pending != []
  {
    var s' := To(s, p, Persisting(from, last, pending[1..]));
    if ok then s'.(rows := Upsert(s.rows, pending[0])) else s'.(lost := s.lost + {pending[0]})
  }

  function Next(chain: Chain, start: int, s: State, step: Step): State {
    match step
    case ReadHead(p, head) =>
      if PhaseOf(s, p).Idle? && head - CONFIRMATION_BUFFER >= 0 then To(s, p, HeadRead(head - CONFIRMATION_BUFFER))
      else s
    case ReadCursor(p) =>
      if PhaseOf(s, p).HeadRead? then
        var safe, from := PhaseOf(s, p).safe, NextBlock(s, start);
        To(s, p, if from > safe then Idle else Ranged(from, safe))
      else s
    case Fetch(p) =>
      if PhaseOf(s, p).Ranged? then
        var from, last := PhaseOf(s, p).from, PhaseOf(s, p).last;
        To(s, p, Persisting(from, last, Logs(chain, from, last))).(reach := if last > s.reach then last else s.reach)
      else s
    case Persist(p, ok) =>
      if PhaseOf(s, p).Persisting? && PhaseOf(s, p).pending != [] then
        PersistStep(s, p, PhaseOf(s, p).from, PhaseOf(s, p).last, PhaseOf(s, p).pending, ok)
      else s
    case SetCursor(p) =>
      if PhaseOf(s, p).Persisting? && PhaseOf(s, p).pending == [] then
        var from, last := PhaseOf(s, p).from, PhaseOf(s, p).last;
        To(s, p, Idle).(cursor := Some(last), commits := s.commits + [Commit(from, last)])
      else s
    case Fail(p) => To(s, p, Idle)
  }

  function Run(chain: Chain, start: int, s: State, steps: seq<Step>): State {
    if steps == [] then s else Next(chain, start, Run(chain, start, s, steps[..|steps| - 1]), steps[|steps| - 1])
  }

  // ---------- No block is skipped ----------

  /** The event has a row, or its write failed. */
  predicate Seen(s: State, e: Event) {
    e.token in s.rows || e in s.lost
  }

  predicate AllSeen(s: State, events: seq<Event>, pending: seq<Event>) {
    forall e | e in events :: Seen(s, e) || e in pending
  }

  /** All events of the blocks are seen, except those still pending. */
  ghost predicate BlocksSeen(chain: Chain, s: State, from: int, last: int, pending: seq<Event>) {
    forall b | from <= b <= last :: AllSeen(s, chain(b), pending)
  }

  ghost predicate PendingOk(chain: Chain, start: int, last: int, pending: seq<Event>) {
    forall e | e in pending :: InChain(chain, e) && start <= e.block <= last
  }

  ghost predicate PhaseOk(chain: Chain, start: int, s: State, phase: Phase) {
    match phase
    case Idle => true
    case HeadRead(_) => true
    case Ranged(from, last) => start <= from && BlocksSeen(chain, s, start, from - 1, [])
    case Persisting(from, last, pending) =>
      && start <= from <= last <= s.reach
      && BlocksSeen(chain, s, start, last, pending)
      && PendingOk(chain, start, last, pending)
  }

  ghost predicate PhasesOk(chain: Chain, start: int, s: State) {
    forall p | p in s.pollers :: PhaseOk(chain, start, s, s.pollers[p])
  }

  /** Rows are events of the chain from the start block up to the highest block ever fetched. */
  ghost predicate RowsOk(chain: Chain, start: int, s: State) {
    forall t | t in s.rows ::
      s.rows[t].token == t && InChain(chain, s.rows[t]) && start <= s.rows[t].block <= s.reach
  }

  ghost predicate CursorOk(chain: Chain, start: int, s: State) {
    start <= NextBlock(s, start) <= s.reach + 1 && BlocksSeen(chain, s, start, NextBlock(s, start) - 1, [])
  }

  ghost predicate Inv(chain: Chain, start: int, s: State) {
    CursorOk(chain, start, s) && PhasesOk(chain, start, s) && RowsOk(chain, start, s)
  }

  ghost predicate Grows(s: State, s': State) {
    s.rows.Keys <= s'.rows.Keys && s.lost <= s'.lost && s.reach <= s'.reach
  }

  lemma BlocksStaySeen(chain: Chain, s: State, s': State, from: int, last: int, pending: seq<Event>)
    requires Grows(s, s') && BlocksSeen(chain, s, from, last, pending)
    ensures BlocksSeen(chain, s', from, last, pending)
  {
    forall b | from <= b <= last
      ensures AllSeen(s', chain(b), pending)
    {
      assert AllSeen(s, chain(b), pending);
    }
  }

  lemma PhaseStaysOk(chain: Chain, start: int, s: State, s': State, phase: Phase)
    requires Grows(s, s') && PhaseOk(chain, start, s, phase)
    ensures PhaseOk(chain, start, s', phase)
  {
    match phase
    case Ranged(from, last) => BlocksStaySeen(chain, s, s', start, from - 1, []);
    case Persisting(from, last, pending) => BlocksStaySeen(chain, s, s', start, last, pending);
    case _ =>
  }

  lemma MoveKeepsPhases(chain: Chain, start: int, s: State, s': State, p: nat, phase: Phase)
    requires PhasesOk(chain, start, s) && Grows(s, s')
    requires s'.pollers == s.pollers[p := phase] && PhaseOk(chain, start, s', phase)
    ensures PhasesOk(chain, start, s')
  {
    forall q | q in s'.pollers
      ensures PhaseOk(chain, start, s', s'.pollers[q])
    {
      if q != p {
        PhaseStaysOk(chain, start, s, s', s.pollers[q]);
      }
    }
  }

  lemma CursorStaysOk(chain: Chain, start: int, s: State, s': State)
    requires CursorOk(chain, start, s) && Grows(s, s') && s'.cursor == s.cursor
    ensures CursorOk(chain, start, s')
  {
    BlocksStaySeen(chain, s, s', start, NextBlock(s, start) - 1, []);
  }

  lemma CurrentPhase(chain: Chain, start: int, s: State, p: nat)
    requires PhasesOk(chain, start, s)
    ensures PhaseOk(chain, start, s, PhaseOf(s, p))
  {
  }

  lemma {:induction false} LogsCover(chain: Chain, from: int, last: int, b: int, e: Event)
    requires from <= b <= last && e in chain(b)
    ensures e in Logs(chain, from, last)
    decreases last - from
  {
    if b < last {
      LogsCover(chain, from, last - 1, b, e);
    }
  }

  lemma {:induction false} LogsInRange(chain: Chain, from: int, last: int, e: Event)
    requires ChainOk(chain) && e in Logs(chain, from, last)
    ensures InChain(chain, e) && from <= e.block <= last
    decreases last - from
  {
    if e in Logs(chain, from, last - 1) {
      LogsInRange(chain, from, last - 1, e);
    }
  }

  /** The logs of a range are those of its blocks in order, each once. */
  lemma {:induction false} LogsJoin(chain: Chain, from: int, mid: int, last: int)
    requires from <= mid + 1 && mid <= last
    ensures Logs(chain, from, last) == Logs(chain, from, mid) + Logs(chain, mid + 1, last)
    ensures Logs(chain, from, from) == chain(from)
    decreases last - mid
  {
    assert Logs(chain, from, from - 1) == [];
    if mid < last {
      LogsJoin(chain, from, mid, last - 1);
      if from <= last {
        assert Logs(chain, from, last) == Logs(chain, from, last - 1) + chain(last);
      }
      assert Logs(chain, mid + 1, last) == Logs(chain, mid + 1, last - 1) + chain(last);
    }
  }

  lemma FetchedSeen(chain: Chain, s: State, start: int, from: int, last: int)
    requires BlocksSeen(chain, s, start, from - 1, [])
    ensures BlocksSeen(chain, s, start, last, Logs(chain, from, last))
  {
    forall b | start <= b <= last
      ensures AllSeen(s, chain(b), Logs(chain, from, last))
    {
      if b < from {
        assert AllSeen(s, chain(b), []);
      } else {
        forall e | e in chain(b)
          ensures e in Logs(chain, from, last)
        {
          LogsCover(chain, from, last, b, e);
        }
      }
    }
  }

  lemma FetchKeepsInv(chain: Chain, start: int, s: State, p: nat)
    requires ChainOk(chain) && Inv(chain, start, s) && PhaseOf(s, p).Ranged? && PhaseOf(s, p).from <= PhaseOf(s, p).last
    ensures Inv(chain, start, Next(chain, start, s, Fetch(p)))
  {
    var s' := Next(chain, start, s, Fetch(p));
    var from, last := PhaseOf(s, p).from, PhaseOf(s, p).last;
    CurrentPhase(chain, start, s, p);
    CursorStaysOk(chain, start, s, s');
    BlocksStaySeen(chain, s, s', start, from - 1, []);
    FetchedSeen(chain, s', start, from, last);
    forall e | e in Logs(chain, from, last)
      ensures InChain(chain, e) && start <= e.block <= last
    {
      LogsInRange(chain, from, last, e);
    }
    MoveKeepsPhases(chain, start, s, s', p, Persisting(from, last, Logs(chain, from, last)));
  }

  lemma WrittenSeen(chain: Chain, s: State, s': State, from: int, last: int, pending: seq<Event>)
    requires pending != [] && BlocksSeen(chain, s, from, last, pending) && Grows(s, s') && Seen(s', pending[0])
    ensures BlocksSeen(chain, s', from, last, pending[1..])
  {
    forall b | from <= b <= last
      ensures AllSeen(s', chain(b), pending[1..])
    {
      assert AllSeen(s, chain(b), pending);
      assert pending == [pending[0]] + pending[1..];
    }
  }

  lemma PersistKeepsInv(chain: Chain, start: int, s: State, p: nat, ok: bool)
    requires Inv(chain, start, s) && PhaseOf(s, p).Persisting? && PhaseOf(s, p).pending != []
    ensures Inv(chain, start, Next(chain, start, s, Persist(p, ok)))
  {
    var s' := Next(chain, start, s, Persist(p, ok));
    var phase := PhaseOf(s, p);
    CurrentPhase(chain, start, s, p);
    CursorStaysOk(chain, start, s, s');
    assert phase.pending[0] in phase.pending;
    WrittenSeen(chain, s, s', start, phase.last, phase.pending);
    assert forall e | e in phase.pending[1..] :: e in phase.pending;
    MoveKeepsPhases(chain, start, s, s', p, Persisting(phase.from, phase.last, phase.pending[1..]));
  }

  lemma CommitKeepsInv(chain: Chain, start: int, s: State, p: nat)
    requires Inv(chain, start, s) && PhaseOf(s, p).Persisting? && PhaseOf(s, p).pending == []
    ensures Inv(chain, start, Next(chain, start, s, SetCursor(p)))
  {
    var s' := Next(chain, start, s, SetCursor(p));
    CurrentPhase(chain, start, s, p);
    BlocksStaySeen(chain, s, s', start, PhaseOf(s, p).last, []);
    MoveKeepsPhases(chain, start, s, s', p, Idle);
  }

  lemma CursorReadKeepsInv(chain: Chain, start: int, s: State, p: nat)
    requires Inv(chain, start, s) && PhaseOf(s, p).HeadRead?
    ensures Inv(chain, start, Next(chain, start, s, ReadCursor(p)))
  {
    var s' := Next(chain, start, s, ReadCursor(p));
    CursorStaysOk(chain, start, s, s');
    MoveKeepsPhases(chain, start, s, s', p, PhaseOf(s', p));
  }

  lemma IdleKeepsInv(chain: Chain, start: int, s: State, p: nat, phase: Phase)
    requires Inv(chain, start, s) && (phase.Idle? || phase.HeadRead?)
    ensures Inv(chain, start, To(s, p, phase))
  {
    CursorStaysOk(chain, start, s, To(s, p, phase));
    MoveKeepsPhases(chain, start, s, To(s, p, phase), p, phase);
  }

  lemma NextKeepsInv(chain: Chain, start: int, s: State, step: Step)
    requires ChainOk(chain) && Inv(chain, start, s) && RangesOk(s)
    ensures Inv(chain, start, Next(chain, start, s, step))
  {
    match step
    case ReadHead(p, head) =>
      if PhaseOf(s, p).Idle? && head - CONFIRMATION_BUFFER >= 0 {
        IdleKeepsInv(chain, start, s, p, HeadRead(head - CONFIRMATION_BUFFER));
      }
    case ReadCursor(p) => if PhaseOf(s, p).HeadRead? { CursorReadKeepsInv(chain, start, s, p); }
    case Fetch(p) => if PhaseOf(s, p).Ranged? { FetchKeepsInv(chain, start, s, p); }
    case Persist(p, ok) =>
      if PhaseOf(s, p).Persisting? && PhaseOf(s, p).pending != [] { PersistKeepsInv(chain, start, s, p, ok); }
    case SetCursor(p) =>
      if PhaseOf(s, p).Persisting? && PhaseOf(s, p).pending == [] { CommitKeepsInv(chain, start, s, p); }
    case Fail(p) => IdleKeepsInv(chain, start, s, p, Idle);
  }

  predicate Working(phase: Phase) {
    phase.Ranged? || phase.Persisting?
  }

  /** Ranges are never empty. */
  ghost predicate RangesOk(s: State) {
    forall p | p in s.pollers :: Working(s.pollers[p]) ==> s.pollers[p].from <= s.pollers[p].last
  }

  lemma NextKeepsRanges(chain: Chain, start: int, s: State, step: Step)
    requires RangesOk(s)
    ensures RangesOk(Next(chain, start, s, step))
  {
  }

  lemma {:induction false} InvAlways(chain: Chain, start: int, steps: seq<Step>)
    requires ChainOk(chain)
    ensures Inv(chain, start, Run(chain, start, Init(start), steps))
    ensures RangesOk(Run(chain, start, Init(start), steps))
  {
    if steps != [] {
      var s := Run(chain, start, Init(start), steps[..|steps| - 1]);
      InvAlways(chain, start, steps[..|steps| - 1]);
      NextKeepsInv(chain, start, s, steps[|steps| - 1]);
      NextKeepsRanges(chain, start, s, steps[|steps| - 1]);
    }
  }

  // ---------- Which events have a row ----------

  /** The step gets the row of the event into the database, or finds it there. */
  predicate Writes(s: State, step: Step, e: Event) {
    && step.Persist? && step.ok
    && PhaseOf(s, step.p).Persisting? && PhaseOf(s, step.p).pending != [] && PhaseOf(s, step.p).pending[0] == e
  }

  predicate EverWritten(chain: Chain, start: int, steps: seq<Step>, e: Event) {
    steps != [] &&
    var front := steps[..|steps| - 1];
    EverWritten(chain, start, front, e) || Writes(Run(chain, start, Init(start), front), steps[|steps| - 1], e)
  }

  lemma StepWritesRow(chain: Chain, start: int, s: State, step: Step, e: Event)
    requires ChainOk(chain) && PhasesOk(chain, start, s) && InChain(chain, e)
    ensures e.token in Next(chain, start, s, step).rows <==> e.token in s.rows || Writes(s, step, e)
  {
    if step.Persist? {
      CurrentPhase(chain, start, s, step.p);
      var phase := PhaseOf(s, step.p);
      assert phase.Persisting? && phase.pending != [] ==> phase.pending[0] in phase.pending;
    }
  }

  /** An event has a row exactly if some attempt to write it has succeeded. */
  lemma {:induction false} RowIffWritten(chain: Chain, start: int, steps: seq<Step>, e: Event)
    requires ChainOk(chain) && InChain(chain, e)
    ensures e.token in Run(chain, start, Init(start), steps).rows <==> EverWritten(chain, start, steps, e)
  {
    if steps != [] {
      var front := steps[..|steps| - 1];
      RowIffWritten(chain, start, front, e);
      InvAlways(chain, start, front);
      StepWritesRow(chain, start, Run(chain, start, Init(start), front), steps[|steps| - 1], e);
    }
  }

  /**
   * Whatever fails, however many pollers run and wherever they are killed: an event has a row, and then its own one,
   * exactly if a write of it has succeeded; an event up to the cursor without one had a write whose error was only
   * logged; and every row is of a block that some poll has fetched.
   */
  lemma NoGap(chain: Chain, start: int, steps: seq<Step>, e: Event)
    requires ChainOk(chain) && InChain(chain, e)
    ensures var s := Run(chain, start, Init(start), steps);
            && (e.token in s.rows <==> EverWritten(chain, start, steps, e))
            && (e.token in s.rows ==> s.rows[e.token] == e && start <= e.block <= s.reach)
            && (start <= e.block < NextBlock(s, start) && e.token !in s.rows ==> e in s.lost)
  {
    InvAlways(chain, start, steps);
    RowIffWritten(chain, start, steps, e);
    var s := Run(chain, start, Init(start), steps);
    assert start <= e.block < NextBlock(s, start) ==> AllSeen(s, chain(e.block), []);
  }

  // ---------- Committed ranges ----------

  /** The ranges join up: the first starts at `start`, each starts where the last ended, the last ends before `next`. */
  predicate Tiles(commits: seq<Commit>, start: int, next: int) {
    if commits == [] then next == start
    else
      var c := commits[|commits| - 1];
      c.from <= c.last && c.last + 1 == next && Tiles(commits[..|commits| - 1], start, c.from)
  }

  /** The step moves the cursor. */
  predicate Commits(s: State, step: Step) {
    step.SetCursor? && PhaseOf(s, step.p).Persisting? && PhaseOf(s, step.p).pending == []
  }

  /** A commit finds the cursor where it was when its poll started: what a compare-and-set would check. */
  predicate JoinsUp(start: int, s: State, step: Step) {
    Commits(s, step) ==> PhaseOf(s, step.p).from == NextBlock(s, start)
  }

  /** A commit finds no cursor beyond the range it commits. */
  predicate MovesForward(start: int, s: State, step: Step) {
    Commits(s, step) ==> NextBlock(s, start) <= PhaseOf(s, step.p).last + 1
  }

  predicate AllJoinUp(chain: Chain, start: int, steps: seq<Step>) {
    steps == [] ||
    var front := steps[..|steps| - 1];
    AllJoinUp(chain, start, front) && JoinsUp(start, Run(chain, start, Init(start), front), steps[|steps| - 1])
  }

  predicate AllForward(chain: Chain, start: int, steps: seq<Step>) {
    steps == [] ||
    var front := steps[..|steps| - 1];
    AllForward(chain, start, front) && MovesForward(start, Run(chain, start, Init(start), front), steps[|steps| - 1])
  }

  /** The cursor is the end of the latest commit. */
  predicate CursorIsLatest(s: State) {
    s.cursor == if s.commits == [] then None else Some(s.commits[|s.commits| - 1].last)
  }

  /** A step leaves the commits tiled exactly if they were and a commit it makes joins up. */
  lemma StepTiles(chain: Chain, start: int, s: State, step: Step)
    requires RangesOk(s) && CursorIsLatest(s)
    ensures var s' := Next(chain, start, s, step);
            && CursorIsLatest(s')
            && (Tiles(s'.commits, start, NextBlock(s', start))
                <==> Tiles(s.commits, start, NextBlock(s, start)) && JoinsUp(start, s, step))
  {
    var s' := Next(chain, start, s, step);
    if Commits(s, step) {
      assert s'.commits[..|s.commits|] == s.commits;
    }
  }

  /** A step moves the cursor back exactly if it commits a range that ends before the cursor. */
  lemma StepMovesCursor(chain: Chain, start: int, s: State, step: Step)
    ensures NextBlock(s, start) <= NextBlock(Next(chain, start, s, step), start) <==> MovesForward(start, s, step)
  {
  }

  /**
   * With any pollers: the committed ranges are consecutive and disjoint and tile exactly the blocks from the start to
   * the cursor if and only if every commit found the cursor where its poll had read it.
   */
  lemma {:induction false} TilesExactly(chain: Chain, start: int, steps: seq<Step>)
    ensures var s := Run(chain, start, Init(start), steps);
            && (Tiles(s.commits, start, NextBlock(s, start)) <==> AllJoinUp(chain, start, steps))
            && CursorIsLatest(s) && RangesOk(s)
  {
    if steps != [] {
      var s := Run(chain, start, Init(start), steps[..|steps| - 1]);
      TilesExactly(chain, start, steps[..|steps| - 1]);
      NextKeepsRanges(chain, start, s, steps[|steps| - 1]);
      StepTiles(chain, start, s, steps[|steps| - 1]);
    }
  }

  /** The first block not yet processed after `k` steps. */
  function NextAfter(chain: Chain, start: int, steps: seq<Step>, k: nat): int
    requires k <= |steps|
  {
    NextBlock(Run(chain, start, Init(start), steps[..k]), start)
  }

  ghost predicate NeverFalls(chain: Chain, start: int, steps: seq<Step>) {
    forall j, k | 0 <= j <= k <= |steps| :: NextAfter(chain, start, steps, j) <= NextAfter(chain, start, steps, k)
  }

  lemma SameStart(chain: Chain, start: int, steps: seq<Step>, k: nat)
    requires k < |steps|
    ensures NextAfter(chain, start, steps[..|steps| - 1], k) == NextAfter(chain, start, steps, k)
  {
    assert steps[..|steps| - 1][..k] == steps[..k];
  }

  /** The cursor never falls over a run exactly if it falls neither before the last step nor in it. */
  lemma NeverFallsSplit(chain: Chain, start: int, steps: seq<Step>)
    requires steps != []
    ensures var n := |steps| - 1;
            NeverFalls(chain, start, steps)
            <==> NeverFalls(chain, start, steps[..n])
                 && NextAfter(chain, start, steps, n) <= NextAfter(chain, start, steps, n + 1)
  {
    var n := |steps| - 1;
    forall k | 0 <= k <= n
      ensures NextAfter(chain, start, steps[..n], k) == NextAfter(chain, start, steps, k)
    {
      SameStart(chain, start, steps, k);
    }
  }

  /** With any pollers: the cursor never goes back if and only if no commit ends before it. */
  lemma {:induction false} CursorNeverFallsExactly(chain: Chain, start: int, steps: seq<Step>)
    ensures NeverFalls(chain, start, steps) <==> AllForward(chain, start, steps)
  {
    if steps != [] {
      var n := |steps| - 1;
      CursorNeverFallsExactly(chain, start, steps[..n]);
      StepMovesCursor(chain, start, Run(chain, start, Init(start), steps[..n]), steps[n]);
      NeverFallsSplit(chain, start, steps);
      assert steps[..n + 1] == steps;
    }
  }

  // ---------- One poller ----------

  predicate ByPoller(steps: seq<Step>, p: nat) {
    forall i | 0 <= i < |steps| :: steps[i].p == p
  }

  /** What poller `p` works on starts where the cursor stands. */
  predicate Aligned(start: int, s: State, p: nat) {
    Working(PhaseOf(s, p)) ==> PhaseOf(s, p).from == NextBlock(s, start)
  }

  /**
   * With one poller at a time, failing and restarting as it may, every commit joins up: the committed ranges tile the
   * blocks from the start to the cursor, and the cursor never goes back.
   */
  lemma {:induction false} OnePollerTiles(chain: Chain, start: int, steps: seq<Step>, p: nat)
    requires ByPoller(steps, p)
    ensures var s := Run(chain, start, Init(start), steps);
            Aligned(start, s, p) && Tiles(s.commits, start, NextBlock(s, start))
    ensures AllJoinUp(chain, start, steps) && NeverFalls(chain, start, steps)
  {
    if steps != [] {
      var front, step := steps[..|steps| - 1], steps[|steps| - 1];
      OnePollerTiles(chain, start, front, p);
      TilesExactly(chain, start, front);
      AlignedStep(chain, start, Run(chain, start, Init(start), front), step);
      NeverFallsSplit(chain, start, steps);
      assert steps[..|steps|] == steps;
    }
    TilesExactly(chain, start, steps);
  }

  lemma AlignedStep(chain: Chain, start: int, s: State, step: Step)
    requires RangesOk(s) && Aligned(start, s, step.p)
    ensures JoinsUp(start, s, step) && Aligned(start, Next(chain, start, s, step), step.p)
    ensures NextBlock(s, start) <= NextBlock(Next(chain, start, s, step), start)
  {
  }

  // ---------- How often a block is committed ----------

  function TimesCommitted(commits: seq<Commit>, b: int): nat {
    if commits == [] then 0
    else
      var c := commits[|commits| - 1];
      TimesCommitted(commits[..|commits| - 1], b) + if c.from <= b <= c.last then 1 else 0
  }

  /** Where the ranges tile, a block up to the cursor is in exactly one of them and any other block in none. */
  lemma {:induction false} TiledOnce(commits: seq<Commit>, start: int, next: int, b: int)
    requires Tiles(commits, start, next)
    ensures TimesCommitted(commits, b) == if start <= b < next then 1 else 0
    ensures start <= next
  {
    if commits != [] {
      TiledOnce(commits[..|commits| - 1], start, commits[|commits| - 1].from, b);
    }
  }

  /** Every block before `next` has been committed. */
  ghost predicate CommittedTo(commits: seq<Commit>, start: int, next: int) {
    forall b | start <= b < next :: TimesCommitted(commits, b) > 0
  }

  ghost predicate CoverageOk(start: int, s: State) {
    && CommittedTo(s.commits, start, NextBlock(s, start))
    && (forall p | p in s.pollers :: Working(s.pollers[p]) ==> CommittedTo(s.commits, start, s.pollers[p].from))
  }

  lemma CommitExtends(commits: seq<Commit>, c: Commit, start: int, next: int)
    requires CommittedTo(commits, start, next)
    ensures CommittedTo(commits + [c], start, next)
    ensures next == c.from ==> CommittedTo(commits + [c], start, c.last + 1)
  {
    assert (commits + [c])[..|commits|] == commits;
  }

  lemma StepKeepsCoverage(chain: Chain, start: int, s: State, step: Step)
    requires CoverageOk(start, s)
    ensures CoverageOk(start, Next(chain, start, s, step))
  {
    var s' := Next(chain, start, s, step);
    if Commits(s, step) {
      var c := Commit(PhaseOf(s, step.p).from, PhaseOf(s, step.p).last);
      CommitExtends(s.commits, c, start, c.from);
      forall p | p in s'.pollers && Working(s'.pollers[p])
        ensures CommittedTo(s'.commits, start, s'.pollers[p].from)
      {
        CommitExtends(s.commits, c, start, s.pollers[p].from);
      }
    }
  }

  /** With any pollers, in whatever order they commit: every block from the start to the cursor is committed. */
  lemma {:induction false} CommitsCover(chain: Chain, start: int, steps: seq<Step>)
    ensures CoverageOk(start, Run(chain, start, Init(start), steps))
  {
    if steps != [] {
      CommitsCover(chain, start, steps[..|steps| - 1]);
      StepKeepsCoverage(chain, start, Run(chain, start, Init(start), steps[..|steps| - 1]), steps[|steps| - 1]);
    }
  }

  // ---------- Behind the head ----------

  /** Heads the pollers have been told of. */
  function Heads(steps: seq<Step>): set<int> {
    set i | 0 <= i < |steps| && steps[i].ReadHead? :: steps[i].head
  }

  ghost predicate PhaseBehind(phase: Phase, heads: set<int>) {
    match phase
    case Idle => true
    case HeadRead(safe) => safe + CONFIRMATION_BUFFER in heads
    case Ranged(_, last) => last + CONFIRMATION_BUFFER in heads
    case Persisting(_, last, _) => last + CONFIRMATION_BUFFER in heads
  }

  ghost predicate Behind(s: State, heads: set<int>) {
    && (forall p | p in s.pollers :: PhaseBehind(s.pollers[p], heads))
    && (forall i | 0 <= i < |s.commits| :: s.commits[i].last + CONFIRMATION_BUFFER in heads)
  }

  lemma StepKeepsBehind(chain: Chain, start: int, s: State, step: Step, heads: set<int>, heads': set<int>)
    requires Behind(s, heads) && heads <= heads' && (step.ReadHead? ==> step.head in heads')
    ensures Behind(Next(chain, start, s, step), heads')
  {
  }

  /** Every committed range ends two blocks behind a head that was polled. */
  lemma {:induction false} CommitsBehindHead(chain: Chain, start: int, steps: seq<Step>)
    ensures Behind(Run(chain, start, Init(start), steps), Heads(steps))
  {
    if steps != [] {
      var front, step := steps[..|steps| - 1], steps[|steps| - 1];
      CommitsBehindHead(chain, start, front);
      forall h | h in Heads(front)
        ensures h in Heads(steps)
      {
        var i :| 0 <= i < |front| && front[i].ReadHead? && front[i].head == h;
        assert steps[i].head == h;
      }
      StepKeepsBehind(chain, start, Run(chain, start, Init(start), front), step, Heads(front), Heads(steps));
    }
  }

  // ---------- What does not hold ----------

  lemma RunSnoc(chain: Chain, start: int, s: State, steps: seq<Step>, step: Step)
    ensures Run(chain, start, s, steps + [step]) == Next(chain, start, Run(chain, start, s, steps), step)
  {
    assert (steps + [step])[..|steps|] == steps;
  }

  lemma PollThree(chain: Chain, start: int, s: State, a: Step, b: Step, c: Step)
    ensures Run(chain, start, s, [a, b, c]) == Next(chain, start, Next(chain, start, Next(chain, start, s, a), b), c)
  {
    RunSnoc(chain, start, s, [], a);
    RunSnoc(chain, start, s, [a], b);
    RunSnoc(chain, start, s, [a, b], c);
    assert [] + [a] == [a] && [a] + [b] == [a, b] && [a, b] + [c] == [a, b, c];
  }

  lemma {:induction false} RunAppend(chain: Chain, start: int, s: State, first: seq<Step>, second: seq<Step>)
    ensures Run(chain, start, s, first + second) == Run(chain, start, Run(chain, start, s, first), second)
  {
    if second == [] {
      assert first + second == first;
    } else {
      RunAppend(chain, start, s, first, second[..|second| - 1]);
      assert (first + second)[..|first + second| - 1] == first + second[..|second| - 1];
    }
  }

  lemma ToTwice(s: State, p: nat, a: Phase, b: Phase)
    ensures To(To(s, p, a), p, b) == To(s, p, b)
  {
    assert s.pollers[p := a][p := b] == s.pollers[p := b];
  }

  /** What a poller with blocks to process has once its range is fetched. */
  function FetchedState(chain: Chain, start: int, s: State, p: nat, last: int): State {
    To(s, p, Persisting(NextBlock(s, start), last, Logs(chain, NextBlock(s, start), last)))
      .(reach := if last > s.reach then last else s.reach)
  }

  lemma FetchPoll(chain: Chain, start: int, s: State, p: nat, head: nat)
    requires PhaseOf(s, p).Idle? && head >= CONFIRMATION_BUFFER && NextBlock(s, start) <= head - CONFIRMATION_BUFFER
    ensures Run(chain, start, s, [ReadHead(p, head), ReadCursor(p), Fetch(p)])
            == FetchedState(chain, start, s, p, head - CONFIRMATION_BUFFER)
  {
    var last := head - CONFIRMATION_BUFFER;
    var from := NextBlock(s, start);
    PollThree(chain, start, s, ReadHead(p, head), ReadCursor(p), Fetch(p));
    ToTwice(s, p, HeadRead(last), Ranged(from, last));
    ToTwice(s, p, Ranged(from, last), Persisting(from, last, Logs(chain, from, last)));
    assert Next(chain, start, To(s, p, HeadRead(last)), ReadCursor(p)) == To(s, p, Ranged(from, last));
  }

  function OneEvent(e: Event): Chain {
    b => if b == 0 then [e] else []
  }

  lemma OneEventChain(e: Event)
    requires e.block == 0
    ensures ChainOk(OneEvent(e)) && InChain(OneEvent(e), e)
    ensures Logs(OneEvent(e), 0, 0) == [e]
  {
    assert Logs(OneEvent(e), 0, 0) == Logs(OneEvent(e), 0, -1) + OneEvent(e)(0);
  }

  /** A write error that is only logged loses the row for good: the cursor still moves past the block of the event. */
  lemma SwallowedWriteLosesRow(e: Event)
    requires e.block == 0
    ensures var steps := [ReadHead(0, 2), ReadCursor(0), Fetch(0)] + [Persist(0, false), SetCursor(0), Fail(0)];
            var s := Run(OneEvent(e), 0, Init(0), steps);
            ChainOk(OneEvent(e)) && InChain(OneEvent(e), e)
            && NextBlock(s, 0) == 1 && s.rows == map[] && s.lost == {e}
  {
    var chain := OneEvent(e);
    var s := FetchedState(chain, 0, Init(0), 0, 0);
    FetchPoll(chain, 0, Init(0), 0, 2);
    OneEventChain(e);
    LostWrite(chain, s, e);
    RunAppend(chain, 0, Init(0), [ReadHead(0, 2), ReadCursor(0), Fetch(0)], [Persist(0, false), SetCursor(0), Fail(0)]);
  }

  lemma LostWrite(chain: Chain, s: State, e: Event)
    requires PhaseOf(s, 0) == Persisting(0, 0, [e]) && s.lost == {}
    ensures var s' := Run(chain, 0, s, [Persist(0, false), SetCursor(0), Fail(0)]);
            s'.cursor == Some(0) && s'.rows == s.rows && s'.lost == {e}
  {
    PollThree(chain, 0, s, Persist(0, false), SetCursor(0), Fail(0));
  }

  const QUIET: Chain := b => []

  lemma {:induction false} QuietLogs(from: int, last: int)
    ensures Logs(QUIET, from, last) == []
    decreases last - from
  {
    if from <= last {
      QuietLogs(from, last - 1);
    }
  }

  // ---------- Without a settler address ----------

  /** What the indexer gets to see of a chain: nothing, if the address of the settler is not configured. */
  function Visible(chain: Chain, configured: bool): Chain {
    if configured then chain else QUIET
  }

  /** The event is behind the cursor only with its row or as a write whose error was logged. */
  ghost predicate Accounted(s: State, start: int, e: Event) {
    start <= e.block < NextBlock(s, start) ==> (e.token in s.rows && s.rows[e.token] == e) || e in s.lost
  }

  /** Without the address a poll moves the cursor past any block and writes nothing. */
  lemma UnconfiguredSkips(start: int, e: Event) returns (steps: seq<Step>)
    requires start <= e.block
    ensures !Accounted(Run(QUIET, start, Init(start), steps), start, e)
  {
    var last := if e.block > 0 then e.block else 0;
    var poll := [ReadHead(0, last + 2), ReadCursor(0), Fetch(0)];
    FetchPoll(QUIET, start, Init(start), 0, last + 2);
    QuietLogs(start, last);
    RunSnoc(QUIET, start, Init(start), poll, SetCursor(0));
    steps := poll + [SetCursor(0)];
  }

  /** No event is ever skipped if and only if the address is configured, or there is nothing to index. */
  lemma SkipsNothingExactly(chain: Chain, configured: bool, start: int)
    requires ChainOk(chain)
    ensures (forall steps, e | InChain(chain, e) ::
               Accounted(Run(Visible(chain, configured), start, Init(start), steps), start, e))
            <==> configured || forall e | InChain(chain, e) :: e.block < start
  {
    if configured {
      forall steps, e | InChain(chain, e)
        ensures Accounted(Run(Visible(chain, configured), start, Init(start), steps), start, e)
      {
        NoGap(chain, start, steps, e);
      }
    } else if e :| InChain(chain, e) && start <= e.block {
      var steps := UnconfiguredSkips(start, e);
      assert !Accounted(Run(Visible(chain, configured), start, Init(start), steps), start, e);
    }
  }

  /** Two pollers at once: the one that polled the older head may commit last, and then the cursor goes back. */
  lemma OverlappingPollsMoveCursorBack()
    ensures var steps := [ReadHead(0, 4), ReadCursor(0), Fetch(0)] + [ReadHead(1, 12), ReadCursor(1), Fetch(1)];
            && NextBlock(Run(QUIET, 0, Init(0), steps + [SetCursor(1)]), 0) == 11
            && NextBlock(Run(QUIET, 0, Init(0), steps + [SetCursor(1)] + [SetCursor(0)]), 0) == 3
  {
    var first, second := [ReadHead(0, 4), ReadCursor(0), Fetch(0)], [ReadHead(1, 12), ReadCursor(1), Fetch(1)];
    FetchPoll(QUIET, 0, Init(0), 0, 4);
    QuietLogs(0, 2);
    QuietLogs(0, 10);
    var s3 := FetchedState(QUIET, 0, Init(0), 0, 2);
    FetchPoll(QUIET, 0, s3, 1, 12);
    RunAppend(QUIET, 0, Init(0), first, second);
    RunSnoc(QUIET, 0, Init(0), first + second, SetCursor(1));
    RunSnoc(QUIET, 0, Init(0), first + second + [SetCursor(1)], SetCursor(0));
    TwoCommits(FetchedState(QUIET, 0, s3, 1, 10));
  }

  lemma TwoCommits(s: State)
    requires PhaseOf(s, 0) == Persisting(0, 2, []) && PhaseOf(s, 1) == Persisting(0, 10, [])
    ensures var s1 := Next(QUIET, 0, s, SetCursor(1));
            s1.cursor == Some(10) && Next(QUIET, 0, s1, SetCursor(0)).cursor == Some(2)
  {
  }

  // ---------- The service ----------

  /** What the node and the database do during one poll; `writes(i)` is whether the i-th row can be written. */
  datatype Environment = Environment(head: Option<nat>, cursorRead: bool, fetched: bool, writes: nat -> bool,
                                     cursorWritten: bool, now: nat)

  class WatcherService {
    const start: int
    const pollIntervalMs: nat
    var state: State
    var consecutiveFailures: nat
    var lastPollAt: nat

    constructor (start: int, pollIntervalMs: nat)
      ensures state == Init(start) && this.start == start && this.pollIntervalMs == pollIntervalMs
      ensures consecutiveFailures == 0
    {
      this.start := start;
      this.pollIntervalMs := pollIntervalMs;
      this.state := Init(start);
      this.consecutiveFailures := 0;
      this.lastPollAt := 0;
    }

    method Do(chain: Chain, step: Step, ghost was: State, ghost trace: seq<Step>) returns (ghost longer: seq<Step>)
      requires state == Run(chain, start, was, trace) && ByPoller(trace, 0) && step.p == 0
      modifies this`state
      ensures longer == trace + [step] && state == Run(chain, start, was, longer) && ByPoller(longer, 0)
      ensures state == Next(chain, start, old(state), step)
    {
      RunSnoc(chain, start, was, trace, step);
      longer := trace + [step];
      state := Next(chain, start, state, step);
    }

    /** The loop that writes one row per event; a write error is logged and the loop goes on. */
    method PersistAll(chain: Chain, writes: nat -> bool, ghost was: State, ghost trace: seq<Step>)
      returns (ghost longer: seq<Step>)
      requires state == Run(chain, start, was, trace) && ByPoller(trace, 0) && PhaseOf(state, 0).Persisting?
      modifies this`state
      ensures state == Run(chain, start, was, longer) && ByPoller(longer, 0)
      ensures PhaseOf(state, 0) == Persisting(old(PhaseOf(state, 0).from), old(PhaseOf(state, 0).last), [])
      ensures state.rows == Written(old(state.rows), old(PhaseOf(state, 0).pending), writes,
                                    |old(PhaseOf(state, 0).pending)|)
      ensures state.cursor == old(state.cursor)
    {
      longer := trace;
      var i := 0;
      ghost var all := PhaseOf(state, 0).pending;
      while PhaseOf(state, 0).pending != []
        invariant state == Run(chain, start, was, longer) && ByPoller(longer, 0) && PhaseOf(state, 0).Persisting?
        invariant PhaseOf(state, 0).from == old(PhaseOf(state, 0).from)
        invariant PhaseOf(state, 0).last == old(PhaseOf(state, 0).last)
        invariant i <= |all| && PhaseOf(state, 0).pending == all[i..]
        invariant state.rows == Written(old(state.rows), all, writes, i)
        invariant state.cursor == old(state.cursor)
        decreases |all| - i
      {
        longer := Do(chain, Persist(0, writes(i)), was, longer);
        i := i + 1;
      }
    }

    /** Fetches the range, writes its rows and moves the cursor. */
    method ProcessRange(chain: Chain, env: Environment, ghost was: State, ghost trace: seq<Step>)
      returns (outcome: Outcome, ghost longer: seq<Step>)
      requires state == Run(chain, start, was, trace) && ByPoller(trace, 0) && PhaseOf(state, 0).Ranged?
      modifies this`state
      ensures state == Run(chain, start, was, longer) && ByPoller(longer, 0)
      ensures outcome == if env.fetched && env.cursorWritten then Committed(old(PhaseOf(state, 0).last)) else Failed
      ensures state.cursor == if outcome.Committed? then Some(outcome.last) else old(state.cursor)
      ensures var logs := Logs(chain, old(PhaseOf(state, 0).from), old(PhaseOf(state, 0).last));
              state.rows == if env.fetched then Written(old(state.rows), logs, env.writes, |logs|) else old(state.rows)
    {
      longer := trace;
      var last := PhaseOf(state, 0).last;
      if !env.fetched {
        return Failed, longer;
      }
      longer := Do(chain, Fetch(0), was, longer);
      longer := PersistAll(chain, env.writes, was, longer);
      if !env.cursorWritten {
        return Failed, longer;
      }
      longer := Do(chain, SetCursor(0), was, longer);
      return Committed(last), longer;
    }

    /** Reads the head and the cursor; an outcome if the poll ends there. */
    method ReadRange(chain: Chain, env: Environment) returns (ended: Option<Outcome>, ghost trace: seq<Step>)
      requires PhaseOf(state, 0).Idle?
      modifies this`state
      ensures state == Run(chain, start, old(state), trace) && ByPoller(trace, 0)
      ensures state.cursor == old(state.cursor) && state.rows == old(state.rows)
      ensures ended == EndedEarly(env, NextBlock(old(state), start))
      ensures ended == None ==>
                PhaseOf(state, 0) == Ranged(NextBlock(old(state), start), env.head.value - CONFIRMATION_BUFFER)
    {
      ghost var was := state;
      trace := [];
      if env.head.None? {
        return Some(Failed), trace;
      }
      trace := Do(chain, ReadHead(0, env.head.value), was, trace);
      if env.head.value - CONFIRMATION_BUFFER < 0 {
        return Some(NothingToDo), trace;
      }
      if !env.cursorRead {
        return Some(Failed), trace;
      }
      trace := Do(chain, ReadCursor(0), was, trace);
      ended := if PhaseOf(state, 0).Idle? then Some(NothingToDo) else None;
    }

    /** The `try` block; an error it throws is the outcome `Failed`. */
    method TryPoll(chain: Chain, env: Environment) returns (outcome: Outcome, ghost trace: seq<Step>)
      requires PhaseOf(state, 0).Idle?
      modifies this`state
      ensures outcome == OutcomeOf(env, NextBlock(old(state), start))
      ensures state == Run(chain, start, old(state), trace) && ByPoller(trace, 0)
      ensures state.cursor == if outcome.Committed? then Some(outcome.last) else old(state.cursor)
      ensures state.rows == RowsAfter(chain, env, old(state), start)
    {
      ghost var was := state;
      var ended;
      ended, trace := ReadRange(chain, env);
      if ended.Some? {
        return ended.value, trace;
      }
      outcome, trace := ProcessRange(chain, env, was, trace);
    }

    /**
     * One poll and the delay before the next, which is always scheduled.  Failures are counted up to five, when the
     * circuit breaker pauses the loop and starts the count again; a poll with nothing to do leaves the count.
     */
    method Poll(chain: Chain, env: Environment) returns (delayMs: nat, ghost trace: seq<Step>)
      requires PhaseOf(state, 0).Idle? && consecutiveFailures < MAX_CONSECUTIVE_FAILURES
      modifies this
      ensures state == Run(chain, start, old(state), trace) && ByPoller(trace, 0) && PhaseOf(state, 0).Idle?
      ensures state.rows == RowsAfter(chain, env, old(state), start)
      ensures consecutiveFailures < MAX_CONSECUTIVE_FAILURES
      ensures match OutcomeOf(env, NextBlock(old(state), start))
              case Committed(last) =>
                && state.cursor == Some(last) && lastPollAt == env.now
                && consecutiveFailures == 0 && delayMs == pollIntervalMs
              case NothingToDo =>
                && state.cursor == old(state.cursor) && lastPollAt == old(lastPollAt)
                && consecutiveFailures == old(consecutiveFailures) && delayMs == pollIntervalMs
              case Failed =>
                && state.cursor == old(state.cursor) && lastPollAt == old(lastPollAt)
                && consecutiveFailures == (old(consecutiveFailures) + 1) % 5
                && delayMs == if consecutiveFailures == 0 then 30_000 else pollIntervalMs
    {
      ghost var was := state;
      var outcome;
      outcome, trace := TryPoll(chain, env);
      delayMs := pollIntervalMs;
      if outcome.Committed? {
        consecutiveFailures := 0;
        lastPollAt := env.now;
      } else if outcome.Failed? {
        consecutiveFailures := consecutiveFailures + 1;
        if consecutiveFailures >= MAX_CONSECUTIVE_FAILURES {
          consecutiveFailures := 0;
          delayMs := CIRCUIT_BREAKER_PAUSE_MS;
        }
      }
      trace := Do(chain, Fail(0), was, trace);
    }
  }

  datatype Outcome = Committed(last: int) | NothingToDo | Failed

  /** How a poll ends that gets no further than reading head and cursor; `next` is the first block not yet processed. */
  function EndedEarly(env: Environment, next: int): Option<Outcome> {
    if env.head.None? then Some(Failed)
    else
      var last := env.head.value - CONFIRMATION_BUFFER;
      if last < 0 then Some(NothingToDo)
      else if !env.cursorRead then Some(Failed)
      else if next > last then Some(NothingToDo)
      else None
  }

  function OutcomeOf(env: Environment, next: int): Outcome {
    var ended := EndedEarly(env, next);
    if ended.Some? then ended.value
    else if !env.fetched || !env.cursorWritten then Failed
    else Committed(env.head.value - CONFIRMATION_BUFFER)
  }

  /** A poll fails exactly if something it asks for does not answer: the head, the cursor, the logs or its commit. */
  lemma PollFailsExactly(env: Environment, next: int)
    ensures OutcomeOf(env, next) == Failed
            <==> || env.head == None
                 || (env.head.value >= 2 && !env.cursorRead)
                 || (env.head.value >= 2 && next <= env.head.value - 2 && (!env.fetched || !env.cursorWritten))
    ensures OutcomeOf(env, next).Committed?
            <==> && env.head.Some? && env.head.value >= 2 && env.cursorRead && next <= env.head.value - 2
                 && env.fetched && env.cursorWritten
    ensures OutcomeOf(env, next).Committed? ==> OutcomeOf(env, next).last == env.head.value - 2
  {
  }

  /** The rows once the first `n` events have been written, as far as they could be. */
  function Written(rows: map<nat, Event>, events: seq<Event>, writes: nat -> bool, n: nat): map<nat, Event>
    requires n <= |events|
  {
    if n == 0 then rows
    else if writes(n - 1) then Upsert(Written(rows, events, writes, n - 1), events[n - 1])
    else Written(rows, events, writes, n - 1)
  }

  /** The event is the first of its token among those that could be written. */
  predicate FirstWritten(events: seq<Event>, writes: nat -> bool, n: nat, i: nat)
    requires n <= |events|
  {
    i < n && writes(i) && forall j | 0 <= j < i && writes(j) :: events[j].token != events[i].token
  }

  /** Writing keeps every row there was, and adds for each other token the first event that could be written. */
  lemma {:induction false} WrittenMeans(rows: map<nat, Event>, events: seq<Event>, writes: nat -> bool, n: nat)
    requires n <= |events|
    ensures var rows' := Written(rows, events, writes, n);
            && (forall t | t in rows :: t in rows' && rows'[t] == rows[t])
            && (forall t | t in rows' && t !in rows ::
                  exists i: nat :: FirstWritten(events, writes, n, i) && events[i].token == t && rows'[t] == events[i])
            && (forall i | 0 <= i < n && writes(i) :: events[i].token in rows')
  {
    if n > 0 {
      var before, rows' := Written(rows, events, writes, n - 1), Written(rows, events, writes, n);
      WrittenMeans(rows, events, writes, n - 1);
      forall t | t in rows' && t !in rows
        ensures exists i: nat :: FirstWritten(events, writes, n, i) && events[i].token == t && rows'[t] == events[i]
      {
        if t in before {
          var i: nat :| FirstWritten(events, writes, n - 1, i) && events[i].token == t && before[t] == events[i];
          assert FirstWritten(events, writes, n, i);
        } else {
          assert FirstWritten(events, writes, n, n - 1);
        }
      }
    }
  }

  /** Rows after a poll: those of its range are written even when the cursor then cannot be. */
  function RowsAfter(chain: Chain, env: Environment, s: State, start: int): map<nat, Event> {
    if EndedEarly(env, NextBlock(s, start)).Some? || !env.fetched then s.rows
    else
      var logs := Logs(chain, NextBlock(s, start), env.head.value - CONFIRMATION_BUFFER);
      Written(s.rows, logs, env.writes, |logs|)
  }
}
