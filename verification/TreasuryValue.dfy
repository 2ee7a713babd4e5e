/**
 * What a tenant's position is worth against what it cost: the rounding of the cost basis, and conservation of value
 * over whole runs against an ERC-4626 vault.
 */
module TreasuryValue {
  import opened Wrappers
  import opened Treasury

  // ---------- Arithmetic ----------

  /** What integer division leaves out is less than one divisor. */
  lemma ReductionBounds(pos: Position, burned: nat)
    requires burned <= pos.shares && pos.shares > 0
    ensures pos.basis * burned < Reduction(pos, burned) * pos.shares + pos.shares
    ensures Reduction(pos, burned) * pos.shares <= pos.basis * burned
  {
    var x, y := pos.basis * burned, pos.shares;
    assert x == (x / y) * y + x % y;
  }

  /** One release rounds the remaining basis up by less than one unit. */
  lemma ReducedBounds(pos: Position, burned: nat)
    requires burned <= pos.shares && pos.shares > 0
    ensures var after := Reduced(pos, burned);
            pos.basis * after.shares <= after.basis * pos.shares < pos.basis * after.shares + pos.shares
  {
    var after := Reduced(pos, burned);
    var r := Reduction(pos, burned);
    ReductionWithinBasis(pos, burned);
    ReductionBounds(pos, burned);
    if pos.shares == burned {
      assert pos.basis * after.shares == 0 && after.basis * pos.shares == 0;
    } else {
      Distribute(pos.basis, r, pos.shares);
      Distribute(pos.shares, burned, pos.basis);
    }
  }

  lemma Distribute(x: int, y: int, z: int)
    ensures (x - y) * z == x * z - y * z
  {
  }

  // ---------- Splitting a redemption ----------

  /** A position after a series of partial redemptions or withdrawals; it ends early only when nothing is left. */
  function ReducedBy(pos: Position, burns: seq<nat>): Position
    requires Fits(pos.shares, burns)
    decreases |burns|
  {
    if burns == [] then pos else ReducedBy(Reduced(pos, burns[0]), burns[1..])
  }

  /** Every burn finds shares to burn. */
  predicate Fits(shares: nat, burns: seq<nat>)
    decreases |burns|
  {
    burns == [] || (shares > 0 && burns[0] <= shares && Fits(shares - burns[0], burns[1..]))
  }

  function Total(burns: seq<nat>): nat {
    if burns == [] then 0 else burns[0] + Total(burns[1..])
  }

  lemma {:induction false} TotalFits(pos: Position, burns: seq<nat>)
    requires Fits(pos.shares, burns)
    ensures Total(burns) <= pos.shares
    ensures ReducedBy(pos, burns).shares == pos.shares - Total(burns)
    decreases |burns|
  {
    if burns != [] {
      TotalFits(Reduced(pos, burns[0]), burns[1..]);
    }
  }

  /** (d, s) to (d1, s1) rounds up by less than s; (d1, s1) to (d2, s2) by less than n * s1. */
  lemma ChainLower(d: nat, s: nat, d1: nat, s1: nat, d2: nat, s2: nat)
    requires s1 > 0 && d * s1 <= d1 * s && d1 * s2 <= d2 * s1
    ensures d * s2 <= d2 * s
  {
    calc <= {
      (d * s2) * s1;
      { assert (d * s2) * s1 == (d * s1) * s2; Scale(d * s1, d1 * s, s2); }
      (d1 * s) * s2;
      { assert (d1 * s) * s2 == (d1 * s2) * s; Scale(d1 * s2, d2 * s1, s); }
      (d2 * s1) * s;
      { assert (d2 * s1) * s == (d2 * s) * s1; }
      (d2 * s) * s1;
    }
    CancelFactor(d * s2, d2 * s, s1);
  }

  lemma Scale(x: int, y: int, z: nat)
    requires x <= y
    ensures x * z <= y * z
  {
  }

  lemma ChainUpper(d: nat, s: nat, d1: nat, s1: nat, d2: nat, s2: nat, n: nat)
    requires s > 0 && s1 > 0 && s2 <= s1 && d1 * s < d * s1 + s && d2 * s1 < d1 * s2 + n * s1
    ensures d2 * s < d * s2 + (n + 1) * s
  {
    var x, y := d1 * s, d * s1 + s;
    Scale(x, y, s2);
    assert (d * s1 + s) * s2 == (d * s2) * s1 + s * s2;
    Scale(s2, s1, s);
    assert s2 * s == s * s2 && s1 * s == s * s1;
    assert x * s2 <= (d * s2) * s1 + s * s1;
    UpperStep(d1, s, d2, s1, s2, n);
    assert (d2 * s) * s1 < (d * s2) * s1 + s * s1 + (n * s) * s1;
    assert (d * s2 + (n + 1) * s) * s1 == (d * s2) * s1 + ((n + 1) * s) * s1;
    assert ((n + 1) * s) * s1 == s * s1 + (n * s) * s1;
    LessFactor(d2 * s, d * s2 + (n + 1) * s, s1);
  }

  lemma UpperStep(d1: nat, s: nat, d2: nat, s1: nat, s2: nat, n: nat)
    requires s > 0 && d2 * s1 < d1 * s2 + n * s1
    ensures (d2 * s) * s1 < (d1 * s) * s2 + (n * s) * s1
  {
    assert (d2 * s1) * s < (d1 * s2 + n * s1) * s;
    assert (d2 * s1) * s == (d2 * s) * s1;
    assert (d1 * s2 + n * s1) * s == (d1 * s) * s2 + (n * s) * s1;
  }

  /**
   * After n partial redemptions or withdrawals from (basis d, shares s) to (d', s'): d * s' <= d' * s < d * s' + n * s.
   * The basis per share never falls, and each piece rounds it up by less than one unit.
   */
  lemma {:induction false} PiecesBound(pos: Position, burns: seq<nat>)
    requires Fits(pos.shares, burns) && burns != []
    ensures var after := ReducedBy(pos, burns);
            pos.basis * after.shares <= after.basis * pos.shares
            < pos.basis * after.shares + |burns| * pos.shares
    decreases |burns|
  {
    var next := Reduced(pos, burns[0]);
    ReducedBounds(pos, burns[0]);
    if |burns| == 1 {
      assert ReducedBy(pos, burns) == next;
    } else {
      var after := ReducedBy(next, burns[1..]);
      PiecesBound(next, burns[1..]);
      TotalFits(next, burns[1..]);
      ChainLower(pos.basis, pos.shares, next.basis, next.shares, after.basis, after.shares);
      ChainUpper(pos.basis, pos.shares, next.basis, next.shares, after.basis, after.shares, |burns| - 1);
    }
  }

  /** Splitting one redemption into n pieces never lowers the final basis and raises it by at most n - 1 units. */
  lemma SplittingCostsLittle(pos: Position, burns: seq<nat>)
    requires Fits(pos.shares, burns) && burns != [] && Total(burns) <= pos.shares
    ensures var once := Reduced(pos, Total(burns));
            var after := ReducedBy(pos, burns);
            after.shares == once.shares && once.basis <= after.basis <= once.basis + |burns| - 1
  {
    TotalFits(pos, burns);
    PiecesBound(pos, burns);
    ReducedBounds(pos, Total(burns));
    var after := ReducedBy(pos, burns);
    SameRounding(pos.basis * after.shares, pos.shares, Reduced(pos, Total(burns)).basis, after.basis, |burns|);
  }

  lemma SameRounding(exact: nat, s: nat, once: nat, after: nat, n: nat)
    requires s > 0 && exact <= once * s < exact + s && exact <= after * s < exact + n * s
    ensures once <= after <= once + n - 1
  {
    assert (after + 1) * s == after * s + s;
    LessFactor(once, after + 1, s);
    assert (once + n) * s == once * s + n * s;
    LessFactor(after, once + n, s);
  }

  // ---------- Value at a share price ----------

  /** Assets per share, as a fraction. */
  datatype Price = Price(num: nat, den: nat)

  predicate ValidPrice(p: Price) {
    p.den > 0
  }

  predicate NotAbove(p: Price, q: Price) {
    p.num * q.den <= q.num * p.den
  }

  /** `convertToAssets`, rounded down. */
  function Worth(shares: nat, p: Price): nat
    requires ValidPrice(p)
  {
    shares * p.num / p.den
  }

  /** `getYieldForTenant` */
  function Yield(pos: Position, p: Price): nat
    requires ValidPrice(p)
  {
    if pos.shares == 0 then 0
    else if Worth(pos.shares, p) > pos.basis then Worth(pos.shares, p) - pos.basis
    else 0
  }

  /** A value is the exact one rounded down to a unit. */
  lemma WorthExactly(shares: nat, p: Price)
    requires ValidPrice(p)
    ensures Worth(shares, p) * p.den <= shares * p.num < (Worth(shares, p) + 1) * p.den
  {
    FloorExactly(shares * p.num, p.den);
  }

  lemma FloorExactly(x: nat, y: nat)
    requires y > 0
    ensures (x / y) * y <= x < (x / y + 1) * y
  {
    assert x == (x / y) * y + x % y;
    assert (x / y + 1) * y == (x / y) * y + y;
  }

  /**
   * The yield is what the shares are worth above their cost, rounded down to a unit: 0 exactly if that is less than a
   * unit.
   */
  lemma YieldExactly(pos: Position, p: Price)
    requires ValidPrice(p)
    ensures Yield(pos, p) == 0 <==> pos.shares * p.num < (pos.basis + 1) * p.den
    ensures Yield(pos, p) > 0 ==>
              (pos.basis + Yield(pos, p)) * p.den <= pos.shares * p.num < (pos.basis + Yield(pos, p) + 1) * p.den
  {
    WorthExactly(pos.shares, p);
    var worth := Worth(pos.shares, p);
    if worth > pos.basis {
      Scale(pos.basis + 1, worth, p.den);
      NoSharesNoWorth(pos.shares, p);
    } else {
      Scale(worth + 1, pos.basis + 1, p.den);
    }
  }

  lemma NoSharesNoWorth(shares: nat, p: Price)
    requires ValidPrice(p)
    ensures shares == 0 ==> Worth(shares, p) == 0
  {
  }

  /** The shares are worth no more than they cost, before any rounding. */
  predicate Backed(pos: Position, p: Price) {
    pos.shares * p.num <= pos.basis * p.den
  }

  lemma BackedHasNoYield(pos: Position, p: Price)
    requires ValidPrice(p) && Backed(pos, p)
    ensures Worth(pos.shares, p) <= pos.basis && Yield(pos, p) == 0
  {
    QuotientBound(pos.shares * p.num, p.den, pos.basis);
  }

  lemma ReducedStaysBacked(pos: Position, burned: nat, p: Price)
    requires burned <= pos.shares && pos.shares > 0 && Backed(pos, p)
    ensures Backed(Reduced(pos, burned), p)
  {
    var after := Reduced(pos, burned);
    ReducedBounds(pos, burned);
    KeepsRatio(pos.shares, pos.basis, p.num, p.den, after.shares, after.basis);
  }

  lemma KeepsRatio(s: nat, d: nat, num: nat, den: nat, s1: nat, d1: nat)
    requires s > 0 && s * num <= d * den && d * s1 <= d1 * s
    ensures s1 * num <= d1 * den
  {
    Scale(s * num, d * den, s1);
    Scale(d * s1, d1 * s, den);
    assert (s1 * num) * s == (s * num) * s1;
    assert (d * den) * s1 == (d * s1) * den;
    assert (d1 * s) * den == (d1 * den) * s;
    CancelFactor(s1 * num, d1 * den, s);
  }

  /** A payout worth no more than the shares burned takes no more than their share of the basis. */
  lemma PaidWithinReduction(pos: Position, burned: nat, paid: nat, p: Price)
    requires ValidPrice(p) && burned <= pos.shares && pos.shares > 0 && Backed(pos, p)
    requires paid * p.den <= burned * p.num
    ensures paid <= Reduction(pos, burned)
  {
    var s := pos.shares;
    calc <= {
      (paid * s) * p.den;
      { assert (paid * s) * p.den == (paid * p.den) * s; Scale(paid * p.den, burned * p.num, s); }
      (burned * p.num) * s;
      { assert (burned * p.num) * s == (s * p.num) * burned; Scale(s * p.num, pos.basis * p.den, burned); }
      (pos.basis * p.den) * burned;
      { assert (pos.basis * p.den) * burned == (pos.basis * burned) * p.den; }
      (pos.basis * burned) * p.den;
    }
    CancelFactor(paid * s, pos.basis * burned, p.den);
    ReductionBounds(pos, burned);
    assert (Reduction(pos, burned) + 1) * s == Reduction(pos, burned) * s + s;
    LessFactor(paid, Reduction(pos, burned) + 1, s);
  }

  lemma CreditStaysBacked(pos: Position, minted: nat, consumed: nat, p: Price)
    requires Backed(pos, p) && minted * p.num <= consumed * p.den
    ensures Backed(Position(pos.shares + minted, pos.basis + consumed), p)
  {
    assert (pos.shares + minted) * p.num == pos.shares * p.num + minted * p.num;
    assert (pos.basis + consumed) * p.den == pos.basis * p.den + consumed * p.den;
  }

  lemma LowerPriceStaysBacked(pos: Position, p: Price, q: Price)
    requires ValidPrice(q) && Backed(pos, q) && NotAbove(p, q)
    ensures Backed(pos, p)
  {
    calc <= {
      (pos.shares * p.num) * q.den;
      {
        assert (pos.shares * p.num) * q.den == (p.num * q.den) * pos.shares;
        Scale(p.num * q.den, q.num * p.den, pos.shares);
      }
      (q.num * p.den) * pos.shares;
      {
        assert (q.num * p.den) * pos.shares == (pos.shares * q.num) * p.den;
        Scale(pos.shares * q.num, pos.basis * q.den, p.den);
      }
      (pos.basis * q.den) * p.den;
      { assert (pos.basis * q.den) * p.den == (pos.basis * p.den) * q.den; }
      (pos.basis * p.den) * q.den;
    }
    CancelFactor(pos.shares * p.num, pos.basis * p.den, q.den);
  }

  // ---------- Runs at a share price that never rises ----------

  /** What one tenant has put in and got out, in USDC. */
  datatype Account = Account(world: World, price: Price, paidIn: nat, paidOut: nat)

  datatype MarketEvent = Trade(op: Op) | Reprice(price: Price)

  /** USDC a successful call takes from, or brings to, the Safe on behalf of a tenant. */
  function PaidIn(op: Op): nat {
    if op.TenantDeposit? && op.reply.Executed? && op.reply.usdcAfter <= op.reply.usdcBefore
    then op.reply.usdcBefore - op.reply.usdcAfter else 0
  }

  function PaidOut(op: Op): nat {
    if op.TenantWithdraw? then op.amount
    else if op.TenantRedeem? && op.reply.Executed? && op.reply.usdcBefore <= op.reply.usdcAfter
    then op.reply.usdcAfter - op.reply.usdcBefore else 0
  }

  predicate Concerns(op: Op, tenant: TenantId) {
    (op.TenantDeposit? || op.TenantWithdraw? || op.TenantRedeem?) && op.tenant == tenant
  }

  /**
   * EIP-4626 rounds in favour of the vault: shares minted are worth at most the assets taken, and assets paid out are
   * worth at most the shares burned.
   */
  predicate RoundedForVault(b: Book, op: Op, p: Price) {
    match op
    case TenantDeposit(_, _, _, Executed(after, _, _)) =>
      (after - Held(b.shares, b.ledger.vault)) * p.num <= PaidIn(op) * p.den
    case TenantWithdraw(_, amount, _, _, Executed(after, _, _)) =>
      amount * p.den <= (Held(b.shares, b.ledger.vault) - after) * p.num
    case TenantRedeem(_, amount, _, Executed(_, _, _)) =>
      PaidOut(op) * p.den <= amount * p.num
    case _ => true
  }

  // EIP-4626: deposit and redeem round down, withdraw burns shares rounded up.

  function SharesMinted(assets: nat, p: Price): nat
    requires p.num > 0
  {
    assets * p.den / p.num
  }

  function SharesBurned(assets: nat, p: Price): nat
    requires p.num > 0
  {
    (assets * p.den + p.num - 1) / p.num
  }

  /** Minting rounds down by less than a share, and burning up by less than one. */
  lemma RoundsByLessThanAShare(assets: nat, p: Price)
    requires p.num > 0
    ensures SharesMinted(assets, p) * p.num <= assets * p.den < (SharesMinted(assets, p) + 1) * p.num
    ensures assets * p.den <= SharesBurned(assets, p) * p.num < assets * p.den + p.num
  {
    FloorExactly(assets * p.den, p.num);
    FloorExactly(assets * p.den + p.num - 1, p.num);
    var burned := SharesBurned(assets, p);
    assert (burned + 1) * p.num == burned * p.num + p.num;
  }

  /** A vault that prices every call at `p` as the standard asks rounds in its own favour. */
  lemma StandardVaultRounds(b: Book, op: Op, p: Price)
    requires ValidPrice(p) && p.num > 0 && Apply(World(b, Access(false, {})), op).Ok?
    requires op.TenantDeposit? ==>
               op.reply.sharesAfter - Held(b.shares, b.ledger.vault) == SharesMinted(PaidIn(op), p)
    requires op.TenantWithdraw? ==>
               Held(b.shares, b.ledger.vault) - op.reply.sharesAfter == SharesBurned(op.amount, p)
    requires op.TenantRedeem? ==> PaidOut(op) == Worth(op.amount, p)
    ensures RoundedForVault(b, op, p)
  {
    match op
    case TenantDeposit(_, _, _, _) => FloorBelow(PaidIn(op) * p.den, p.num);
    case TenantWithdraw(_, amount, _, _, _) => CeilingAbove(amount * p.den, p.num);
    case TenantRedeem(_, amount, _, _) => FloorBelow(amount * p.num, p.den);
    case _ =>
  }

  /** Against such a vault a withdrawal of the second module keeps the tenants covered exactly if they can spare it. */
  lemma StandardWithdrawalKeepsCover(w: World, amount: nat, max: nat, reply: Exchange, p: Price)
    requires p.num > 0 && Covered(w.book)
    requires reply.Executed? && Apply(w, MorphoWithdraw(w.book.ledger.vault, amount, max, reply)).Ok?
    requires Held(w.book.shares, w.book.ledger.vault) - reply.sharesAfter == SharesBurned(amount, p)
    ensures Covered(Step(w, MorphoWithdraw(w.book.ledger.vault, amount, max, reply)).book)
            <==> SharesBurned(amount, p) + w.book.ledger.totalShares <= Held(w.book.shares, w.book.ledger.vault)
  {
    CallKeepsCoverExactly(w, MorphoWithdraw(w.book.ledger.vault, amount, max, reply));
  }

  lemma FloorBelow(x: nat, y: nat)
    requires y > 0
    ensures (x / y) * y <= x
  {
  }

  lemma CeilingAbove(x: nat, y: nat)
    requires y > 0
    ensures x <= ((x + y - 1) / y) * y
  {
    var z := x + y - 1;
    assert z == (z / y) * y + z % y;
  }

  function Advance(a: Account, tenant: TenantId, e: MarketEvent): Account {
    match e
    case Reprice(price) => a.(price := price)
    case Trade(op) =>
      if Apply(a.world, op).Err? then a
      else if !Concerns(op, tenant) then a.(world := Step(a.world, op))
      else a.(world := Step(a.world, op), paidIn := a.paidIn + PaidIn(op), paidOut := a.paidOut + PaidOut(op))
  }

  /** The vault rounds for itself and its price does not rise; a price means nothing while nobody holds shares. */
  predicate Allowed(a: Account, e: MarketEvent) {
    match e
    case Reprice(price) => ValidPrice(price) && (NotAbove(price, a.price) || a.world.book.ledger.totalShares == 0)
    case Trade(op) => Apply(a.world, op).Ok? ==> RoundedForVault(a.world.book, op, a.price)
  }

  /** The price may move to any valid one that is not above the present, or while nobody holds shares. */
  lemma AllowedReprice(a: Account, tenant: TenantId, price: Price)
    ensures Advance(a, tenant, Reprice(price)) == a.(price := price)
    ensures Allowed(a, Reprice(price))
            <==> price.den > 0
                 && (price.num * a.price.den <= a.price.num * price.den || a.world.book.ledger.totalShares == 0)
  {
  }

  /**
   * What a tenant pays in and is paid is what its successful calls move: the USDC a deposit takes from the Safe, the
   * amount of a withdrawal, and the USDC a redemption brings to it.
   */
  lemma PaymentsFollowCalls(a: Account, tenant: TenantId, op: Op)
    requires Apply(a.world, op).Ok?
    ensures var a' := Advance(a, tenant, Trade(op));
            && a'.world == Step(a.world, op) && a'.price == a.price
            && (op.TenantDeposit? && op.tenant == tenant ==>
                  a'.paidOut == a.paidOut && a'.paidIn + op.reply.usdcAfter == a.paidIn + op.reply.usdcBefore)
            && (op.TenantWithdraw? && op.tenant == tenant ==>
                  a'.paidIn == a.paidIn && a'.paidOut == a.paidOut + op.amount)
            && (op.TenantRedeem? && op.tenant == tenant ==>
                  a'.paidIn == a.paidIn && a'.paidOut + op.reply.usdcBefore == a.paidOut + op.reply.usdcAfter)
            && (!Concerns(op, tenant) ==> a'.paidIn == a.paidIn && a'.paidOut == a.paidOut)
            && (Concerns(op, tenant) <==>
                  (op.TenantDeposit? || op.TenantWithdraw? || op.TenantRedeem?) && op.tenant == tenant)
  {
  }

  function Follow(a: Account, tenant: TenantId, events: seq<MarketEvent>): Account {
    if events == [] then a
    else Advance(Follow(a, tenant, events[..|events| - 1]), tenant, events[|events| - 1])
  }

  predicate AllAllowed(a: Account, tenant: TenantId, events: seq<MarketEvent>) {
    events == [] ||
    var front := events[..|events| - 1];
    AllAllowed(a, tenant, front) && Allowed(Follow(a, tenant, front), events[|events| - 1])
  }

  function Mine(a: Account, tenant: TenantId): Position {
    PositionOf(a.world.book.ledger, tenant)
  }

  ghost predicate AccountOk(a: Account, tenant: TenantId) {
    && LedgerOk(a.world.book.ledger) && ValidPrice(a.price)
    && Backed(Mine(a, tenant), a.price)
    && a.paidOut + Mine(a, tenant).basis <= a.paidIn
  }

  lemma ReleaseKeepsAccount(pos: Position, burned: nat, paid: nat, p: Price)
    requires ValidPrice(p) && burned <= pos.shares && pos.shares > 0 && Backed(pos, p)
    requires paid * p.den <= burned * p.num
    ensures Backed(Reduced(pos, burned), p) && paid + Reduced(pos, burned).basis <= pos.basis
  {
    ReducedStaysBacked(pos, burned, p);
    PaidWithinReduction(pos, burned, paid, p);
    ReductionWithinBasis(pos, burned);
  }

  lemma DepositKeepsAccount(a: Account, tenant: TenantId, op: Op)
    requires AccountOk(a, tenant) && op.TenantDeposit? && op.tenant == tenant
    requires Apply(a.world, op).Ok? && RoundedForVault(a.world.book, op, a.price)
    ensures AccountOk(Advance(a, tenant, Trade(op)), tenant)
  {
    var b := a.world.book;
    StepKeepsLedger(a.world, op);
    CreditStaysBacked(Mine(a, tenant), op.reply.sharesAfter - Held(b.shares, b.ledger.vault), PaidIn(op), a.price);
  }

  lemma WithdrawKeepsAccount(a: Account, tenant: TenantId, op: Op)
    requires AccountOk(a, tenant) && op.TenantWithdraw? && op.tenant == tenant
    requires Apply(a.world, op).Ok? && RoundedForVault(a.world.book, op, a.price)
    ensures AccountOk(Advance(a, tenant, Trade(op)), tenant)
  {
    var b := a.world.book;
    StepKeepsLedger(a.world, op);
    ReleaseKeepsAccount(Mine(a, tenant), Held(b.shares, b.ledger.vault) - op.reply.sharesAfter, op.amount, a.price);
  }

  lemma RedeemKeepsAccount(a: Account, tenant: TenantId, op: Op)
    requires AccountOk(a, tenant) && op.TenantRedeem? && op.tenant == tenant
    requires Apply(a.world, op).Ok? && RoundedForVault(a.world.book, op, a.price)
    ensures AccountOk(Advance(a, tenant, Trade(op)), tenant)
  {
    StepKeepsLedger(a.world, op);
    ReleaseKeepsAccount(Mine(a, tenant), op.amount, PaidOut(op), a.price);
  }

  /** Calls for other tenants and of the other module leave a position alone. */
  lemma OthersKeepAccount(a: Account, tenant: TenantId, op: Op)
    requires AccountOk(a, tenant) && !Concerns(op, tenant) && Apply(a.world, op).Ok?
    ensures AccountOk(Advance(a, tenant, Trade(op)), tenant)
  {
    StepKeepsLedger(a.world, op);
  }

  lemma RepriceKeepsAccount(a: Account, tenant: TenantId, price: Price)
    requires AccountOk(a, tenant) && Allowed(a, Reprice(price))
    ensures AccountOk(Advance(a, tenant, Reprice(price)), tenant)
  {
    if NotAbove(price, a.price) {
      LowerPriceStaysBacked(Mine(a, tenant), price, a.price);
    } else {
      PositionWithinTotals(a.world.book.ledger, tenant);
    }
  }

  lemma AdvanceKeepsAccount(a: Account, tenant: TenantId, e: MarketEvent)
    requires AccountOk(a, tenant) && Allowed(a, e)
    ensures AccountOk(Advance(a, tenant, e), tenant)
  {
    if e.Reprice? {
      RepriceKeepsAccount(a, tenant, e.price);
    } else if Apply(a.world, e.op).Ok? {
      if !Concerns(e.op, tenant) {
        OthersKeepAccount(a, tenant, e.op);
      } else if e.op.TenantDeposit? {
        DepositKeepsAccount(a, tenant, e.op);
      } else if e.op.TenantWithdraw? {
        WithdrawKeepsAccount(a, tenant, e.op);
      } else {
        RedeemKeepsAccount(a, tenant, e.op);
      }
    }
  }

  lemma {:induction false} AccountAlwaysOk(a: Account, tenant: TenantId, events: seq<MarketEvent>)
    requires AccountOk(a, tenant) && AllAllowed(a, tenant, events)
    ensures AccountOk(Follow(a, tenant, events), tenant)
  {
    if events != [] {
      AccountAlwaysOk(a, tenant, events[..|events| - 1]);
      AdvanceKeepsAccount(Follow(a, tenant, events[..|events| - 1]), tenant, events[|events| - 1]);
    }
  }

  /**
   * In every run from an empty ledger during which the share price never rises, what a tenant got out plus what its
   * shares are worth never exceeds what it put in, and its reported yield is 0.
   */
  lemma NoGainWithoutPriceRise(vault: VaultId, shares: map<VaultId, nat>, access: Access, price: Price,
                               tenant: TenantId, events: seq<MarketEvent>)
    requires ValidPrice(price)
    requires AllAllowed(Account(World(Book(Ledger(map[], 0, 0, vault), shares), access), price, 0, 0), tenant, events)
    ensures var a := Follow(Account(World(Book(Ledger(map[], 0, 0, vault), shares), access), price, 0, 0),
                            tenant, events);
            && ValidPrice(a.price)
            && a.paidOut + Worth(Mine(a, tenant).shares, a.price) <= a.paidIn
            && Yield(Mine(a, tenant), a.price) == 0
  {
    var start := Account(World(Book(Ledger(map[], 0, 0, vault), shares), access), price, 0, 0);
    assert AccountOk(start, tenant);
    AccountAlwaysOk(start, tenant, events);
    var a := Follow(start, tenant, events);
    BackedHasNoYield(Mine(a, tenant), a.price);
  }
}
