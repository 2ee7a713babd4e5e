/**
 * On-chain settlement: idempotent on the transaction token, with a 200-slot circular buffer behind the 24-hour spend.
 * The specification is the plain list of settlements, oldest first.
 */
module SpendSettler {
  import opened Words
  import opened Wrappers

  const WINDOW_DURATION: nat := 86400
  const MAX_RECORDS: nat := 200

  /** A Lithic transaction token: any 32-byte word. */
  type Token = t: nat | t < TWO_256

  datatype Settlement = Settlement(token: Token, amount: nat, time: nat)

  datatype SettleError =
    | ZeroAmount | AmountExceedsMaxSettle | AlreadySettled | AmountTooLarge | TransferFailed | ArithmeticPanic

  /** What the call into the Safe and the two balance reads of the issuer Safe around it come to. */
  datatype Transfer = Rejected | Executed(balanceBefore: nat, balanceAfter: nat)

  // ---------- The list of settlements ----------

  function Tokens(history: seq<Settlement>): set<Token> {
    set i | 0 <= i < |history| :: history[i].token
  }

  function Total(history: seq<Settlement>): nat {
    if history == [] then 0 else Total(history[..|history| - 1]) + history[|history| - 1].amount
  }

  function LastTime(history: seq<Settlement>): nat {
    if history == [] then 0 else history[|history| - 1].time
  }

  /** Amounts of the settlements that are not older than `start`. */
  function WindowSum(history: seq<Settlement>, start: nat): nat {
    if history == [] then 0
    else (if history[0].time >= start then history[0].amount else 0) + WindowSum(history[1..], start)
  }

  /** Number of settlements that are not older than `start`. */
  function WindowCount(history: seq<Settlement>, start: nat): nat {
    if history == [] then 0
    else (if history[0].time >= start then 1 else 0) + WindowCount(history[1..], start)
  }

  function WindowStart(now: nat): nat {
    if now > WINDOW_DURATION then now - WINDOW_DURATION else 0
  }

  /** The settlements the buffer still holds. */
  function Recent(history: seq<Settlement>): seq<Settlement> {
    if |history| <= MAX_RECORDS then history else history[|history| - MAX_RECORDS..]
  }

  // ---------- What the contract keeps ----------

  ghost predicate TokensDistinct(history: seq<Settlement>) {
    forall i, j | 0 <= i < j < |history| :: history[i].token != history[j].token
  }

  ghost predicate InTimeOrder(history: seq<Settlement>) {
    forall i, j | 0 <= i < j < |history| :: history[i].time <= history[j].time
  }

  ghost predicate AmountsOk(history: seq<Settlement>) {
    forall i | 0 <= i < |history| :: 0 < history[i].amount < TWO_128
  }

  /** Each settlement brought in a new token and a positive word-sized amount, no earlier than the ones before it. */
  ghost predicate HistoryOk(history: seq<Settlement>) {
    history == [] ||
    var front, last := history[..|history| - 1], history[|history| - 1];
    && HistoryOk(front)
    && last.token !in Tokens(front) && LastTime(front) <= last.time && 0 < last.amount < TWO_128
    && Total(history) < TWO_256
  }

  /** What that comes to for the list as a whole. */
  lemma {:induction false} HistoryFacts(history: seq<Settlement>)
    requires HistoryOk(history)
    ensures TokensDistinct(history) && InTimeOrder(history) && AmountsOk(history)
  {
    if history != [] {
      var front, last := history[..|history| - 1], history[|history| - 1];
      HistoryFacts(front);
      forall i | 0 <= i < |front|
        ensures history[i].token != last.token && history[i].time <= last.time
      {
        assert front[i].token in Tokens(front);
      }
    }
  }

  /** Why a call of `settle` reverts, if it does: the checks in the order the contract makes them. */
  function Refusal(history: seq<Settlement>, maxSettleAmount: nat, amount: nat, token: Token, transfer: Transfer)
    : Option<SettleError>
  {
    if amount == 0 then Some(ZeroAmount)
    else if amount > maxSettleAmount then Some(AmountExceedsMaxSettle)
    else if token in Tokens(history) then Some(AlreadySettled)
    else if amount >= TWO_128 then Some(AmountTooLarge)
    else if transfer.Rejected? then Some(TransferFailed)
    else if transfer.balanceAfter < transfer.balanceBefore then Some(ArithmeticPanic)
    else if transfer.balanceAfter - transfer.balanceBefore < amount then Some(TransferFailed)
    else if Total(history) + amount >= TWO_256 then Some(ArithmeticPanic)
    else None
  }

  /** The list after a call of `settle`: one longer, or unchanged by a revert. */
  function AfterSettle(history: seq<Settlement>, maxSettleAmount: nat, amount: nat, token: Token, transfer: Transfer,
                       now: nat): seq<Settlement>
  {
    if Refusal(history, maxSettleAmount, amount, token, transfer).None?
    then history + [Settlement(token, amount, now)]
    else history
  }

  /** A new token and a positive, allowed, word-sized amount. */
  predicate Acceptable(history: seq<Settlement>, maxSettleAmount: nat, amount: nat, token: Token) {
    0 < amount <= maxSettleAmount && token !in Tokens(history) && amount < TWO_128
  }

  /** ... that the issuer has received, and with which the total stays a word. */
  predicate CanSettle(history: seq<Settlement>, maxSettleAmount: nat, amount: nat, token: Token, transfer: Transfer) {
    && Acceptable(history, maxSettleAmount, amount, token)
    && transfer.Executed? && transfer.balanceBefore + amount <= transfer.balanceAfter
    && Total(history) + amount < TWO_256
  }

  /** A call settles exactly if the token is new, the amount is in range and has arrived, and the total fits a word. */
  lemma SettlesExactly(history: seq<Settlement>, maxSettleAmount: nat, amount: nat, token: Token, transfer: Transfer,
                       now: nat)
    ensures Refusal(history, maxSettleAmount, amount, token, transfer) == None
            <==> CanSettle(history, maxSettleAmount, amount, token, transfer)
    ensures AfterSettle(history, maxSettleAmount, amount, token, transfer, now)
            == if CanSettle(history, maxSettleAmount, amount, token, transfer)
               then history + [Settlement(token, amount, now)] else history
  {
  }

  /** Which error a call that does not settle gives. */
  lemma SettleErrors(history: seq<Settlement>, maxSettleAmount: nat, amount: nat, token: Token, transfer: Transfer)
    ensures var error := Refusal(history, maxSettleAmount, amount, token, transfer);
            var ok := Acceptable(history, maxSettleAmount, amount, token);
            && (error == Some(ZeroAmount) <==> amount == 0)
            && (error == Some(AmountExceedsMaxSettle) <==> amount > maxSettleAmount)
            && (error == Some(AlreadySettled) <==> 0 < amount <= maxSettleAmount && token in Tokens(history))
            && (error == Some(AmountTooLarge)
                <==> TWO_128 <= amount <= maxSettleAmount && token !in Tokens(history))
            && (error == Some(TransferFailed)
                <==> ok && (transfer.Rejected?
                            || transfer.balanceBefore <= transfer.balanceAfter < transfer.balanceBefore + amount))
            && (error == Some(ArithmeticPanic)
                <==> ok && transfer.Executed?
                     && (transfer.balanceAfter < transfer.balanceBefore
                         || (transfer.balanceBefore + amount <= transfer.balanceAfter
                             && Total(history) + amount >= TWO_256)))
  {
  }

  lemma TotalSnoc(history: seq<Settlement>, s: Settlement)
    ensures Total(history + [s]) == Total(history) + s.amount
  {
    assert (history + [s])[..|history|] == history;
  }

  lemma TokensSnoc(history: seq<Settlement>, s: Settlement)
    ensures Tokens(history + [s]) == Tokens(history) + {s.token}
  {
    var longer := history + [s];
    assert longer[|history|] == s;
    forall t | t in Tokens(history)
      ensures t in Tokens(longer)
    {
      var i :| 0 <= i < |history| && history[i].token == t;
      assert longer[i].token == t;
    }
  }

  /** Every call, reverted or not, keeps the list in order: tokens distinct, times in order, total in range. */
  lemma SettleKeepsHistory(history: seq<Settlement>, maxSettleAmount: nat, amount: nat, token: Token,
                           transfer: Transfer, now: nat)
    requires HistoryOk(history) && LastTime(history) <= now
    ensures HistoryOk(AfterSettle(history, maxSettleAmount, amount, token, transfer, now))
  {
    var s := Settlement(token, amount, now);
    TotalSnoc(history, s);
    assert (history + [s])[..|history|] == history;
  }

  // ---------- Whole runs ----------

  datatype SettleCall = SettleCall(maxSettleAmount: nat, amount: nat, token: Token, transfer: Transfer, now: nat)

  /** The list after a run of calls, oldest first. */
  function AfterCalls(calls: seq<SettleCall>): seq<Settlement> {
    if calls == [] then []
    else
      var c := calls[|calls| - 1];
      AfterSettle(AfterCalls(calls[..|calls| - 1]), c.maxSettleAmount, c.amount, c.token, c.transfer, c.now)
  }

  /** What the issuer received in the calls that settled. */
  function Received(calls: seq<SettleCall>): nat {
    if calls == [] then 0
    else
      var front, c := calls[..|calls| - 1], calls[|calls| - 1];
      Received(front)
      + if CanSettle(AfterCalls(front), c.maxSettleAmount, c.amount, c.token, c.transfer)
        then c.transfer.balanceAfter - c.transfer.balanceBefore else 0
  }

  /** In every run the issuer has received at least what is settled. */
  lemma {:induction false} SettledIsReceived(calls: seq<SettleCall>)
    ensures Total(AfterCalls(calls)) <= Received(calls)
  {
    if calls != [] {
      var front, c := calls[..|calls| - 1], calls[|calls| - 1];
      SettledIsReceived(front);
      SettlesExactly(AfterCalls(front), c.maxSettleAmount, c.amount, c.token, c.transfer, c.now);
      TotalSnoc(AfterCalls(front), Settlement(c.token, c.amount, c.now));
    }
  }

  predicate TimesInOrder(calls: seq<SettleCall>) {
    forall i, j | 0 <= i <= j < |calls| :: calls[i].now <= calls[j].now
  }

  /** In every run whose block times do not go back, the list stays in order. */
  lemma {:induction false} EveryRunKeepsHistory(calls: seq<SettleCall>)
    requires TimesInOrder(calls)
    ensures HistoryOk(AfterCalls(calls))
    ensures calls != [] ==> LastTime(AfterCalls(calls)) <= calls[|calls| - 1].now
  {
    if calls != [] {
      var front, c := calls[..|calls| - 1], calls[|calls| - 1];
      EveryRunKeepsHistory(front);
      assert front != [] ==> calls[|front| - 1].now <= c.now;
      SettleKeepsHistory(AfterCalls(front), c.maxSettleAmount, c.amount, c.token, c.transfer, c.now);
    }
  }

  /**
   * In every such run the settled tokens are distinct and number exactly `nonce` (below 2^256), and the 24-hour sum of
   * the buffer is at most the total, and is the sum over the whole history when at most 200 settlements are recent.
   */
  lemma EveryRunAccounts(calls: seq<SettleCall>, now: nat)
    requires TimesInOrder(calls)
    ensures var history := AfterCalls(calls);
            var rolling := WindowSum(Recent(history), WindowStart(now));
            && |Tokens(history)| == |history| <= TWO_256
            && (|history| < TWO_256 ==> |Tokens(history)| == |history| % TWO_256)
            && rolling <= Total(history) < TWO_256
            && (rolling == WindowSum(history, WindowStart(now))
                <==> WindowCount(history, WindowStart(now)) <= 200)
  {
    EveryRunKeepsHistory(calls);
    var history := AfterCalls(calls);
    HistoryFacts(history);
    NonceCountsTokens(history);
    RollingSpendBounded(history, now);
    RollingSpendExact(history, now);
  }

  // ---------- The contract ----------

  datatype SpendRecord = SpendRecord(amount: nat, timestamp: nat)

  function RecordOf(s: Settlement): SpendRecord {
    SpendRecord(s.amount, s.time)
  }

  /** The buffer after a list of settlements: each was written at the head, over whatever was there. */
  ghost function BufferOf(history: seq<Settlement>): (records: seq<SpendRecord>)
    ensures |records| == MAX_RECORDS
  {
    if history == [] then seq(MAX_RECORDS, _ => SpendRecord(0, 0))
    else
      var front, last := history[..|history| - 1], history[|history| - 1];
      BufferOf(front)[|front| % MAX_RECORDS := RecordOf(last)]
  }

  lemma BufferSnoc(history: seq<Settlement>, s: Settlement)
    ensures BufferOf(history + [s]) == BufferOf(history)[|history| % MAX_RECORDS := RecordOf(s)]
  {
    assert (history + [s])[..|history|] == history;
  }

  lemma HeadStep(n: nat)
    ensures (n % MAX_RECORDS + 1) % MAX_RECORDS == (n + 1) % MAX_RECORDS
  {
  }

  lemma OtherSlot(j: nat, n: nat)
    requires j < n < j + MAX_RECORDS
    ensures j % MAX_RECORDS != n % MAX_RECORDS
  {
  }

  /** The buffer holds exactly the last 200 settlements: slot `j % 200` is that of settlement `j`. */
  lemma {:induction false} BufferHoldsRecent(history: seq<Settlement>, j: nat)
    requires j < |history| && |history| - MAX_RECORDS <= j
    ensures BufferOf(history)[j % MAX_RECORDS] == RecordOf(history[j])
  {
    if j < |history| - 1 {
      BufferHoldsRecent(history[..|history| - 1], j);
      OtherSlot(j, |history| - 1);
    }
  }

  class SpendSettlerModule {
    var maxSettleAmount: nat
    var nonce: nat
    var totalSettled: nat
    var settledTxTokens: set<Token>
    const spendRecords: array<SpendRecord>
    var recordHead: nat
    var recordCount: nat
    ghost var history: seq<Settlement>

    ghost predicate CountersOk()
      reads this
    {
      && recordHead == |history| % MAX_RECORDS
      && recordCount == (if |history| < MAX_RECORDS then |history| else MAX_RECORDS)
      && nonce == |history| % TWO_256
      && totalSettled == Total(history)
      && settledTxTokens == Tokens(history)
    }

    ghost predicate Valid()
      reads this, spendRecords
    {
      CountersOk() && HistoryOk(history) && spendRecords[..] == BufferOf(history)
    }

    constructor ()
      ensures Valid() && fresh(spendRecords)
      ensures history == [] && maxSettleAmount == TWO_256 - 1
    {
      maxSettleAmount := TWO_256 - 1;
      nonce := 0;
      totalSettled := 0;
      settledTxTokens := {};
      spendRecords := new SpendRecord[MAX_RECORDS](_ => SpendRecord(0, 0));
      recordHead := 0;
      recordCount := 0;
      history := [];
    }

    /** `settle`; a revert leaves the contract as it was. */
    method Settle(amount: nat, token: Token, transfer: Transfer, now: nat) returns (error: Option<SettleError>)
      requires Valid() && LastTime(history) <= now
      modifies this, spendRecords
      ensures Valid()
      ensures maxSettleAmount == old(maxSettleAmount)
      ensures error == Refusal(old(history), maxSettleAmount, amount, token, transfer)
      ensures error == None <==> CanSettle(old(history), maxSettleAmount, amount, token, transfer)
      ensures history == if error == None then old(history) + [Settlement(token, amount, now)] else old(history)
    {
      if amount == 0 { return Some(ZeroAmount); }
      if amount > maxSettleAmount { return Some(AmountExceedsMaxSettle); }
      if token in settledTxTokens { return Some(AlreadySettled); }
      if amount >= TWO_128 { return Some(AmountTooLarge); }
      if transfer.Rejected? { return Some(TransferFailed); }
      if transfer.balanceAfter < transfer.balanceBefore { return Some(ArithmeticPanic); }
      if transfer.balanceAfter - transfer.balanceBefore < amount { return Some(TransferFailed); }
      if totalSettled + amount >= TWO_256 { return Some(ArithmeticPanic); }

      SettleKeepsHistory(history, maxSettleAmount, amount, token, transfer, now);
      Commit(amount, token, now);
      return None;
    }

    /** The state changes of `settle` once nothing can revert any more. */
    method Commit(amount: nat, token: Token, now: nat)
      requires Valid() && HistoryOk(history + [Settlement(token, amount, now)])
      modifies this, spendRecords
      ensures Valid()
      ensures maxSettleAmount == old(maxSettleAmount)
      ensures history == old(history) + [Settlement(token, amount, now)]
    {
      ghost var s := Settlement(token, amount, now);
      TotalSnoc(history, s);
      TokensSnoc(history, s);
      WrapStep(|history|);
      RecordSpend(amount, now, s);
      settledTxTokens := settledTxTokens + {token};
      nonce := (nonce + 1) % TWO_256;
      totalSettled := totalSettled + amount;
      history := history + [s];
    }

    /** `_recordSpend` */
    method RecordSpend(amount: nat, now: nat, ghost s: Settlement)
      requires recordHead == |history| % MAX_RECORDS
      requires recordCount == (if |history| < MAX_RECORDS then |history| else MAX_RECORDS)
      requires spendRecords[..] == BufferOf(history) && RecordOf(s) == SpendRecord(amount, now)
      modifies this`recordHead, this`recordCount, spendRecords
      ensures recordHead == (|history| + 1) % MAX_RECORDS
      ensures recordCount == (if |history| + 1 < MAX_RECORDS then |history| + 1 else MAX_RECORDS)
      ensures spendRecords[..] == BufferOf(history + [s])
    {
      BufferSnoc(history, s);
      HeadStep(|history|);
      spendRecords[recordHead] := SpendRecord(amount, now);
      recordHead := (recordHead + 1) % MAX_RECORDS;
      if recordCount < MAX_RECORDS {
        recordCount := recordCount + 1;
      }
    }

    /** One step back through the circular buffer, to the record of settlement `j`. */
    method PreviousRecord(idx: nat, ghost j: nat) returns (previous: nat, record: SpendRecord)
      requires spendRecords[..] == BufferOf(history)
      requires j < |history| && |history| - MAX_RECORDS <= j && idx == (j + 1) % MAX_RECORDS
      ensures previous == j % MAX_RECORDS && record == RecordOf(history[j])
    {
      PreviousSlot(j + 1);
      BufferHoldsRecent(history, j);
      previous := if idx == 0 then MAX_RECORDS - 1 else idx - 1;
      record := spendRecords[previous];
    }

    /** `_getRollingSpend`: the scan stops at the first record that is too old. */
    method GetRollingSpend(now: nat) returns (total: nat)
      requires Valid()
      ensures total == WindowSum(Recent(history), WindowStart(now))
    {
      total := 0;
      var count := recordCount;
      if count == 0 {
        return;
      }
      var windowStart := WindowStart(now);
      var idx := recordHead;
      ghost var n := |history|;
      for i := 0 to count
        invariant idx == (n - i) % MAX_RECORDS
        invariant total == WindowSum(history[n - i..], windowStart)
      {
        var record;
        idx, record := PreviousRecord(idx, n - i - 1);
        if record.timestamp < windowStart {
          StopsInOrder(history, n - i - 1, windowStart);
          return;
        }
        WindowSumStep(history, n - i - 1, windowStart);
        total := total + record.amount;
      }
    }
  }

  lemma PreviousSlot(k: nat)
    requires k > 0
    ensures (if k % MAX_RECORDS == 0 then MAX_RECORDS - 1 else k % MAX_RECORDS - 1) == (k - 1) % MAX_RECORDS
  {
  }

  lemma WindowSumStep(history: seq<Settlement>, k: nat, start: nat)
    requires k < |history|
    ensures WindowSum(history[k..], start)
            == (if history[k].time >= start then history[k].amount else 0) + WindowSum(history[k + 1..], start)
  {
    assert history[k..][1..] == history[k + 1..];
  }

  /** Once a settlement is too old so are all before it. */
  lemma {:induction false} OldOnesAddNothing(history: seq<Settlement>, k: nat, start: nat)
    requires InTimeOrder(history) && k <= |history| && (k > 0 ==> history[k - 1].time < start)
    ensures WindowSum(history, start) == WindowSum(history[k..], start)
    ensures WindowCount(history, start) == WindowCount(history[k..], start)
  {
    if k > 0 {
      assert history[0].time <= history[k - 1].time;
      OldOnesAddNothing(history[1..], k - 1, start);
      assert history[1..][k - 1..] == history[k..];
    }
  }

  lemma StopEarly(history: seq<Settlement>, k: nat, start: nat)
    requires InTimeOrder(history) && k < |history| && |history| - MAX_RECORDS <= k && history[k].time < start
    ensures WindowSum(Recent(history), start) == WindowSum(history[k + 1..], start)
  {
    var dropped := |history| - |Recent(history)|;
    OldOnesAddNothing(Recent(history), k + 1 - dropped, start);
    assert Recent(history)[k + 1 - dropped..] == history[k + 1..];
  }

  lemma StopsInOrder(history: seq<Settlement>, k: nat, start: nat)
    requires HistoryOk(history) && k < |history| && |history| - MAX_RECORDS <= k && history[k].time < start
    ensures WindowSum(Recent(history), start) == WindowSum(history[k + 1..], start)
  {
    assert InTimeOrder(history) by { HistoryFacts(history); }
    StopEarly(history, k, start);
  }

  // ---------- The rolling spend against the whole history ----------

  lemma {:induction false} WindowSplits(history: seq<Settlement>, k: nat, start: nat)
    requires k <= |history|
    ensures WindowSum(history, start) == WindowSum(history[..k], start) + WindowSum(history[k..], start)
    ensures WindowCount(history, start) == WindowCount(history[..k], start) + WindowCount(history[k..], start)
  {
    if k > 0 {
      WindowSplits(history[1..], k - 1, start);
      assert history[1..][..k - 1] == history[..k][1..];
      assert history[1..][k - 1..] == history[k..];
    }
  }

  /** A settlement counts for the 86,400 seconds after its time, the last of them included. */
  lemma CountsForADay(s: Settlement, now: nat)
    ensures WindowSum([s], WindowStart(now)) == if now <= s.time + 86_400 then s.amount else 0
    ensures WindowCount([s], WindowStart(now)) == if now <= s.time + 86_400 then 1 else 0
  {
    assert [s][1..] == [];
  }

  lemma {:induction false} WindowEmpty(history: seq<Settlement>, start: nat)
    requires AmountsOk(history)
    ensures WindowSum(history, start) == 0 <==> WindowCount(history, start) == 0
    ensures WindowCount(history, start) <= |history|
  {
    if history != [] {
      WindowEmpty(history[1..], start);
    }
  }

  lemma {:induction false} AllInWindow(history: seq<Settlement>, start: nat)
    requires forall i | 0 <= i < |history| :: history[i].time >= start
    ensures WindowCount(history, start) == |history|
  {
    if history != [] {
      AllInWindow(history[1..], start);
    }
  }

  /**
   * The rolling spend never exceeds the true 24-hour sum over all settlements, and equals it exactly when at most 200
   * of them fall in the window.
   */
  lemma RollingSpendExact(history: seq<Settlement>, now: nat)
    requires InTimeOrder(history) && AmountsOk(history)
    ensures var start := WindowStart(now);
            && WindowSum(Recent(history), start) <= WindowSum(history, start)
            && (WindowSum(Recent(history), start) == WindowSum(history, start)
                <==> WindowCount(history, start) <= 200)
  {
    var start := WindowStart(now);
    var k := |history| - |Recent(history)|;
    assert Recent(history) == history[k..];
    WindowSplits(history, k, start);
    WindowEmpty(history[..k], start);
    WindowEmpty(history[k..], start);
    if k > 0 {
      if history[k - 1].time < start {
        OldOnesAddNothing(history, k, start);
      } else {
        FullWindow(history, k, start);
      }
    }
  }

  /** When settlement `k - 1` is in the window so are all that follow. */
  lemma FullWindow(history: seq<Settlement>, k: nat, start: nat)
    requires InTimeOrder(history) && 0 < k <= |history| && history[k - 1].time >= start
    ensures WindowCount(history[..k], start) > 0 && WindowCount(history[k..], start) == |history| - k
  {
    AllInWindow(history[k..], start);
    InWindowCounts(history[..k], k - 1, start);
  }

  lemma InWindowCounts(history: seq<Settlement>, k: nat, start: nat)
    requires k < |history| && history[k].time >= start
    ensures WindowCount(history, start) > 0
  {
    WindowSplits(history, k, start);
    assert history[k..][0] == history[k];
  }

  lemma {:induction false} WindowAtMostTotal(history: seq<Settlement>, start: nat)
    ensures WindowSum(history, start) <= Total(history)
  {
    if history != [] {
      var front := history[..|history| - 1];
      WindowAtMostTotal(front, start);
      WindowSplits(history, |front|, start);
      assert history[|front|..][1..] == [];
    }
  }

  lemma {:induction false} SumBelow(history: seq<Settlement>, start: nat)
    requires AmountsOk(history)
    ensures WindowSum(history, start) <= |history| * (TWO_128 - 1)
  {
    if history != [] {
      SumBelow(history[1..], start);
      assert |history| * (TWO_128 - 1) == (|history| - 1) * (TWO_128 - 1) + (TWO_128 - 1);
    }
  }

  /** The scan's sum neither exceeds the total ever settled nor comes near overflowing a word. */
  lemma RollingSpendBounded(history: seq<Settlement>, now: nat)
    requires HistoryOk(history)
    ensures WindowSum(Recent(history), WindowStart(now)) <= Total(history)
    ensures WindowSum(Recent(history), WindowStart(now)) <= MAX_RECORDS * (TWO_128 - 1) < TWO_256
  {
    HistoryFacts(history);
    RollingSpendExact(history, now);
    WindowAtMostTotal(history, WindowStart(now));
    var recent := Recent(history);
    assert AmountsOk(recent);
    SumBelow(recent, WindowStart(now));
    assert |recent| * (TWO_128 - 1) <= MAX_RECORDS * (TWO_128 - 1);
  }

  // ---------- Settled tokens and the nonce ----------

  lemma {:induction false} TokenCount(history: seq<Settlement>)
    requires TokensDistinct(history)
    ensures |Tokens(history)| == |history|
  {
    if history != [] {
      var front, last := history[..|history| - 1], history[|history| - 1];
      TokenCount(front);
      TokensSnoc(front, last);
      assert front + [last] == history;
      assert forall i | 0 <= i < |front| :: front[i].token == history[i].token;
    }
  }

  lemma {:induction false} BoundedSet(s: set<nat>, n: nat)
    requires forall x | x in s :: x < n
    ensures |s| <= n
  {
    if n == 0 {
      assert s == {};
    } else {
      BoundedSet(s - {n - 1}, n - 1);
    }
  }

  /** Distinct tokens number exactly `nonce`, short of settling every one of the 2^256 possible tokens. */
  lemma NonceCountsTokens(history: seq<Settlement>)
    requires TokensDistinct(history)
    ensures |Tokens(history)| == |history| <= TWO_256
    ensures |Tokens(history)| == |history| % TWO_256 <==> |history| < TWO_256
  {
    TokenCount(history);
    BoundedSet(Tokens(history), TWO_256);
  }
}
