/**
 * The two ways the backend debits an authorization cache entry: the Lua script that works on decimal strings, and the
 * WATCH/MULTI/EXEC function that works on BigInt.  Both are proved against one charge of a numeric budget.
 */
module SpendScript {
  import opened Decimal
  import opened JsNumbers
  import opened Wrappers

  /** The fields of a cache entry the two paths read or write, as stored: decimal strings. */
  datatype Cache = Cache(usdcBalance: string, dailySpent: string, dailyLimit: string,
                         monthlySpent: string, monthlyLimit: string)

  datatype SpendError = InsufficientBalance | DailyLimit | MonthlyLimit

  datatype Reply = NoEntry | Refused(error: SpendError) | Spent(cache: Cache)

  // ---------- The budget an entry denotes ----------

  datatype Budget = Budget(balance: nat, dailySpent: nat, dailyLimit: nat, monthlySpent: nat, monthlyLimit: nat)

  predicate WellFormed(c: Cache) {
    && Canonical(c.usdcBalance) && Canonical(c.dailySpent) && Canonical(c.dailyLimit)
    && Canonical(c.monthlySpent) && Canonical(c.monthlyLimit)
  }

  function Decode(c: Cache): Budget
    requires WellFormed(c)
  {
    Budget(Value(c.usdcBalance), Value(c.dailySpent), Value(c.dailyLimit),
           Value(c.monthlySpent), Value(c.monthlyLimit))
  }

  function Encode(b: Budget): Cache {
    Cache(ToDecimal(b.balance), ToDecimal(b.dailySpent), ToDecimal(b.dailyLimit),
          ToDecimal(b.monthlySpent), ToDecimal(b.monthlyLimit))
  }

  lemma DecodeEncode(b: Budget)
    ensures WellFormed(Encode(b)) && Decode(Encode(b)) == b
  {
    DecimalDenotes(b.balance);
    DecimalDenotes(b.dailySpent);
    DecimalDenotes(b.dailyLimit);
    DecimalDenotes(b.monthlySpent);
    DecimalDenotes(b.monthlyLimit);
  }

  lemma EncodeDecode(c: Cache)
    requires WellFormed(c)
    ensures Encode(Decode(c)) == c
  {
    CanonicalIsDecimal(c.usdcBalance);
    CanonicalIsDecimal(c.dailySpent);
    CanonicalIsDecimal(c.dailyLimit);
    CanonicalIsDecimal(c.monthlySpent);
    CanonicalIsDecimal(c.monthlyLimit);
  }

  /** The same field is the string "0" and the number 0. */
  lemma ZeroText(s: string)
    requires Canonical(s)
    ensures s == "0" <==> Value(s) == 0
  {
    CanonicalIsDecimal(s);
  }

  // ---------- A charge ----------

  /** A limit of 0 means unlimited. */
  predicate Within(limit: nat, total: nat) {
    limit == 0 || total <= limit
  }

  predicate Affordable(b: Budget, amount: nat) {
    && amount <= b.balance
    && Within(b.dailyLimit, b.dailySpent + amount)
    && Within(b.monthlyLimit, b.monthlySpent + amount)
  }

  function Debit(b: Budget, amount: nat): Budget
    requires amount <= b.balance
  {
    b.(balance := b.balance - amount, dailySpent := b.dailySpent + amount, monthlySpent := b.monthlySpent + amount)
  }

  function Charge(b: Budget, amount: nat): (r: Result<Budget, SpendError>)
    ensures r.Ok? <==> Affordable(b, amount)
    ensures r.Ok? ==> r.value == Debit(b, amount)
  {
    if b.balance < amount then Err(InsufficientBalance)
    else if !Within(b.dailyLimit, b.dailySpent + amount) then Err(DailyLimit)
    else if !Within(b.monthlyLimit, b.monthlySpent + amount) then Err(MonthlyLimit)
    else Ok(Debit(b, amount))
  }

  /** Which check refuses a charge: the balance first, then the daily and the monthly limit, where 0 is no limit. */
  lemma ChargeErrors(b: Budget, amount: nat)
    ensures var r := Charge(b, amount);
            var daily := b.dailyLimit == 0 || b.dailySpent + amount <= b.dailyLimit;
            var monthly := b.monthlyLimit == 0 || b.monthlySpent + amount <= b.monthlyLimit;
            && (r.Ok? <==> amount <= b.balance && daily && monthly)
            && (r == Err(InsufficientBalance) <==> b.balance < amount)
            && (r == Err(DailyLimit) <==> amount <= b.balance && !daily)
            && (r == Err(MonthlyLimit) <==> amount <= b.balance && daily && !monthly)
  {
  }

  /** The amount moved from the balance to both spent counters; the limits stay. */
  predicate Moved(b: Budget, b': Budget, amount: nat) {
    && b'.balance + amount == b.balance
    && b'.dailySpent == b.dailySpent + amount && b'.monthlySpent == b.monthlySpent + amount
    && b'.dailyLimit == b.dailyLimit && b'.monthlyLimit == b.monthlyLimit
  }

  type Store = map<string, Cache>

  predicate StoreOk(s: Store) {
    forall k | k in s :: WellFormed(s[k])
  }

  /** What a caller is told when `amount` is charged to the entry under `key`. */
  function ReplyOf(s: Store, key: string, amount: nat): Reply
    requires StoreOk(s)
  {
    if key !in s then NoEntry
    else match Charge(Decode(s[key]), amount)
      case Err(e) => Refused(e)
      case Ok(b) => Spent(Encode(b))
  }

  function StoreAfter(s: Store, key: string, reply: Reply): Store {
    if reply.Spent? then s[key := reply.cache] else s
  }

  /** What a spend does to the store: it answers truly, and changes at most the entry under its key. */
  ghost predicate SpendDone(s: Store, s': Store, key: string, amount: nat, reply: Reply)
    requires StoreOk(s) && StoreOk(s')
  {
    && (forall k | k != key :: (k in s' <==> k in s) && (k in s ==> s'[k] == s[k]))
    && match reply
       case NoEntry => key !in s && s' == s
       case Refused(e) => key in s && Charge(Decode(s[key]), amount) == Err(e) && s' == s
       case Spent(cache) =>
         && key in s && key in s' && s'[key] == cache
         && Affordable(Decode(s[key]), amount) && Moved(Decode(s[key]), Decode(s'[key]), amount)
  }

  lemma SpendMeans(s: Store, key: string, amount: nat)
    requires StoreOk(s)
    ensures var reply := ReplyOf(s, key, amount);
            StoreOk(StoreAfter(s, key, reply)) && SpendDone(s, StoreAfter(s, key, reply), key, amount, reply)
  {
    if ReplyOf(s, key, amount).Spent? {
      DecodeEncode(Debit(Decode(s[key]), amount));
    }
  }

  /** The entry can pay the amount. */
  predicate CanPay(s: Store, key: string, amount: nat)
    requires StoreOk(s)
  {
    key in s && Affordable(Decode(s[key]), amount)
  }

  /**
   * Two spends in a row on a store: both pass exactly if one spend of their sum would, and leave the same entry.
   * Stated of what a spend does, so it holds of both paths, in either order.
   */
  lemma SpendsCompose(s: Store, s1: Store, s2: Store, key: string, x: nat, y: nat, first: Reply, second: Reply)
    requires StoreOk(s) && StoreOk(s1) && StoreOk(s2)
    requires SpendDone(s, s1, key, x, first) && SpendDone(s1, s2, key, y, second)
    ensures first.Spent? && second.Spent? <==> CanPay(s, key, x + y)
    ensures first.Spent? && second.Spent? ==> Moved(Decode(s[key]), Decode(s2[key]), x + y)
  {
    SpentExactly(s, s1, key, x, first);
    SpentExactly(s1, s2, key, y, second);
    if key in s {
      ChargesCompose(Decode(s[key]), x, y);
    }
  }

  lemma SpentExactly(s: Store, s': Store, key: string, amount: nat, reply: Reply)
    requires StoreOk(s) && StoreOk(s') && SpendDone(s, s', key, amount, reply)
    ensures reply.Spent? <==> CanPay(s, key, amount)
    ensures reply.Spent? ==> key in s' && Decode(s'[key]) == Debit(Decode(s[key]), amount)
    ensures !reply.Spent? ==> s' == s
  {
  }

  // ---------- The two implementations ----------

  class AuthStore {
    var entries: Store

    ghost predicate Valid()
      reads this
    {
      StoreOk(entries)
    }

    constructor ()
      ensures Valid() && entries == map[]
    {
      entries := map[];
    }

    /** `SPEND_LUA_SCRIPT`: one atomic step of the Redis server. */
    method LuaSpend(key: string, spendAmount: string) returns (reply: Reply)
      requires Valid() && Canonical(spendAmount)
      modifies this
      ensures Valid()
      ensures reply == ReplyOf(old(entries), key, Value(spendAmount))
      ensures entries == StoreAfter(old(entries), key, reply)
      ensures SpendDone(old(entries), entries, key, Value(spendAmount), reply)
    {
      SpendMeans(entries, key, Value(spendAmount));
      if key !in entries {
        return NoEntry;
      }
      var cache := entries[key];
      var refused := LuaChecks(cache, spendAmount);
      if refused.Some? {
        return Refused(refused.value);
      }
      cache := LuaUpdate(cache, spendAmount);
      DecodeEncode(Debit(Decode(entries[key]), Value(spendAmount)));
      entries := entries[key := cache];
      return Spent(cache);
    }

    /** `updateAuthCacheSpend` when nothing else writes the entry between its WATCH and its EXEC. */
    method BigIntSpend(key: string, amount: nat) returns (reply: Reply)
      requires Valid()
      modifies this
      ensures Valid()
      ensures reply == ReplyOf(old(entries), key, amount)
      ensures entries == StoreAfter(old(entries), key, reply)
      ensures SpendDone(old(entries), entries, key, amount, reply)
    {
      SpendMeans(entries, key, amount);
      if key !in entries {
        return NoEntry;
      }
      var cache := entries[key];
      var refused := BigIntChecks(cache, amount);
      if refused.Some? {
        return Refused(refused.value);
      }
      cache := BigIntUpdate(cache, amount);
      DecodeEncode(Debit(Decode(entries[key]), amount));
      entries := entries[key := cache];
      return Spent(cache);
    }
  }

  /** The script's checks, in its order. */
  method LuaChecks(cache: Cache, spendAmount: string) returns (refused: Option<SpendError>)
    requires WellFormed(cache) && Canonical(spendAmount)
    ensures refused == match Charge(Decode(cache), Value(spendAmount))
                       case Err(e) => Some(e)
                       case Ok(_) => None
  {
    StrGteDecides(cache.usdcBalance, spendAmount);
    if !StrGte(cache.usdcBalance, spendAmount) {
      return Some(InsufficientBalance);
    }
    var daily := LuaExceeds(cache.dailyLimit, cache.dailySpent, spendAmount);
    if daily {
      return Some(DailyLimit);
    }
    var monthly := LuaExceeds(cache.monthlyLimit, cache.monthlySpent, spendAmount);
    if monthly {
      return Some(MonthlyLimit);
    }
    return None;
  }

  method LuaExceeds(limit: string, spent: string, spendAmount: string) returns (exceeded: bool)
    requires Canonical(limit) && Canonical(spent) && Canonical(spendAmount)
    ensures exceeded <==> !Within(Value(limit), Value(spent) + Value(spendAmount))
  {
    ZeroText(limit);
    if limit == "0" {
      return false;
    }
    var total := StrAdd(spent, spendAmount);
    DecimalDenotes(Value(spent) + Value(spendAmount));
    StrGteDecides(limit, total);
    return !StrGte(limit, total);
  }

  /** The script's updates, once its checks have passed. */
  method LuaUpdate(cache: Cache, spendAmount: string) returns (updated: Cache)
    requires WellFormed(cache) && Canonical(spendAmount)
    requires Value(spendAmount) <= Value(cache.usdcBalance)
    ensures updated == Encode(Debit(Decode(cache), Value(spendAmount)))
  {
    SubtractExact(cache.usdcBalance, spendAmount);
    EncodeDecode(cache);
    var balance := StrSub(cache.usdcBalance, spendAmount);
    var daily := StrAdd(cache.dailySpent, spendAmount);
    var monthly := StrAdd(cache.monthlySpent, spendAmount);
    return cache.(usdcBalance := balance, dailySpent := daily, monthlySpent := monthly);
  }

  /** The checks of `updateAuthCacheSpend`, in its order. */
  method BigIntChecks(cache: Cache, amount: nat) returns (refused: Option<SpendError>)
    requires WellFormed(cache)
    ensures refused == match Charge(Decode(cache), amount)
                       case Err(e) => Some(e)
                       case Ok(_) => None
  {
    if Value(cache.usdcBalance) < amount {
      return Some(InsufficientBalance);
    }
    var dailyLimit, monthlyLimit := Value(cache.dailyLimit), Value(cache.monthlyLimit);
    if dailyLimit > 0 && Value(cache.dailySpent) + amount > dailyLimit {
      return Some(DailyLimit);
    }
    if monthlyLimit > 0 && Value(cache.monthlySpent) + amount > monthlyLimit {
      return Some(MonthlyLimit);
    }
    return None;
  }

  method BigIntUpdate(cache: Cache, amount: nat) returns (updated: Cache)
    requires WellFormed(cache) && amount <= Value(cache.usdcBalance)
    ensures updated == Encode(Debit(Decode(cache), amount))
  {
    EncodeDecode(cache);
    return cache.(dailySpent := ToDecimal(Value(cache.dailySpent) + amount),
                  monthlySpent := ToDecimal(Value(cache.monthlySpent) + amount),
                  usdcBalance := ToDecimal(Value(cache.usdcBalance) - amount));
  }

  // ---------- Charges compose ----------

  /** Two charges in a row pass exactly when their sum would: splitting a spend evades no limit and loses no room. */
  lemma ChargesCompose(b: Budget, x: nat, y: nat)
    ensures Affordable(b, x) && Affordable(Debit(b, x), y) <==> Affordable(b, x + y)
    ensures Affordable(b, x + y) ==> Debit(Debit(b, x), y) == Debit(b, x + y)
  {
  }

  // ---------- Agreement ----------

  /**
   * A JavaScript number reaches the script through `toString` and the other path through `BigInt`.  The two paths
   * reply alike on every store exactly when the text denotes the number.
   */
  lemma PathsAgree(text: string, amount: nat)
    requires Canonical(text)
    ensures (forall s: Store, key: string | StoreOk(s) :: ReplyOf(s, key, Value(text)) == ReplyOf(s, key, amount))
            <==> Value(text) == amount
  {
    if Value(text) != amount {
      RichStoreTellsApart(Value(text), amount);
    }
  }

  function RichStore(m: nat, n: nat): Store {
    map["" := Encode(Budget(m + n, 0, 0, 0, 0))]
  }

  /** An entry that affords both amounts is left with different balances. */
  lemma RichStoreTellsApart(m: nat, n: nat)
    requires m != n
    ensures StoreOk(RichStore(m, n))
    ensures ReplyOf(RichStore(m, n), "", m) != ReplyOf(RichStore(m, n), "", n)
  {
    var b := Budget(m + n, 0, 0, 0, 0);
    DecodeEncode(b);
    BalanceShows(b, m, n);
  }

  lemma BalanceShows(b: Budget, m: nat, n: nat)
    requires m <= b.balance && n <= b.balance && m != n
    ensures Encode(Debit(b, m)) != Encode(Debit(b, n))
  {
    DifferentText(b.balance - m, b.balance - n);
    assert Encode(Debit(b, m)).usdcBalance != Encode(Debit(b, n)).usdcBalance;
  }

  lemma DifferentText(x: nat, y: nat)
    requires x != y
    ensures ToDecimal(x) != ToDecimal(y)
  {
    DecimalDenotes(x);
    DecimalDenotes(y);
  }

  /**
   * A safe integer prints as its own value, because the printed digits read back as the number: every amount below 2^53
   * is charged alike by both paths.
   */
  lemma SafeAmountsAgree(text: string, amount: nat, s: Store, key: string)
    requires Canonical(text) && ReadsAs(Value(text), amount) && amount < TWO_53
    requires StoreOk(s)
    ensures ReplyOf(s, key, Value(text)) == ReplyOf(s, key, amount)
  {
    SafeIntegersReadExactly(Value(text), amount);
  }

  /**
   * The double 100000000000000016 is below 10^21 and prints as 100000000000000020, the shortest digits that read back
   * as it: a caller that passes it is charged one amount by the script and another by the fallback.
   */
  lemma PathsDisagreeOnLargeNumber() returns (text: string)
    ensures Canonical(text) && ReadsAs(Value(text), 100000000000000016)
    ensures exists s: Store, key: string ::
              StoreOk(s) && ReplyOf(s, key, Value(text)) != ReplyOf(s, key, 100000000000000016)
  {
    LargeNumberReadsBack();
    text := TextOf(100000000000000020);
    PathsAgree(text, 100000000000000016);
  }

  lemma TextOf(n: nat) returns (text: string)
    ensures Canonical(text) && Value(text) == n
  {
    DecimalDenotes(n);
    text := ToDecimal(n);
  }
}
