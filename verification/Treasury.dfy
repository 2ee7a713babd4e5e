/**
 * Per-tenant share accounting in the treasury, together with the second module that moves shares of the same Safe.
 *
 * The Morpho vault is the environment: what its calls do is read off balances before and after, as the contracts do,
 * so the bookkeeping results hold for any vault that burns exactly the shares it is asked to redeem.
 */
module Treasury {
  import opened Words
  import opened Wrappers

  type TenantId = nat   // 0 is bytes32(0)
  type VaultId = nat    // 0 is address(0)

  datatype Position = Position(shares: nat, basis: nat)

  datatype Ledger = Ledger(positions: map<TenantId, Position>, totalShares: nat, totalDeposited: nat, vault: VaultId)

  /** The treasury's ledger and the Safe's balance in every vault. */
  datatype Book = Book(ledger: Ledger, shares: map<VaultId, nat>)

  datatype Error =
    | ZeroTenantId | ZeroAmount | ExecutionFailed | ZeroSharesMinted | SlippageExceeded | InsufficientShares
    | ArithmeticPanic | InvalidMorphoVault | PositionsExist | VaultNotAllowlisted | WouldDesyncTenantShares

  /** A `deposit` or `withdraw` call as the Safe's balances show it: shares afterwards, USDC before and after. */
  datatype Exchange = Rejected | Executed(sharesAfter: nat, usdcBefore: nat, usdcAfter: nat)

  function PositionOf(l: Ledger, tenant: TenantId): Position {
    if tenant in l.positions then l.positions[tenant] else Position(0, 0)
  }

  function Held(shares: map<VaultId, nat>, vault: VaultId): nat {
    if vault in shares then shares[vault] else 0
  }

  // ---------- Ledger entries ----------

  function Credit(l: Ledger, tenant: TenantId, minted: nat, consumed: nat): Result<Ledger, Error> {
    var pos := PositionOf(l, tenant);
    if pos.shares + minted >= TWO_256 || pos.basis + consumed >= TWO_256
       || l.totalShares + minted >= TWO_256 || l.totalDeposited + consumed >= TWO_256
    then Err(ArithmeticPanic)
    else Ok(l.(positions := l.positions[tenant := Position(pos.shares + minted, pos.basis + consumed)],
               totalShares := l.totalShares + minted,
               totalDeposited := l.totalDeposited + consumed))
  }

  /** The share of the cost basis that goes with `burned` of the position's shares, rounded down. */
  function Reduction(pos: Position, burned: nat): nat
    requires pos.shares > 0
  {
    pos.basis * burned / pos.shares
  }

  /** A position after `burned` of its shares are gone. */
  function Reduced(pos: Position, burned: nat): Position
    requires burned <= pos.shares && pos.shares > 0
  {
    Position(pos.shares - burned,
             if pos.shares == burned || Reduction(pos, burned) > pos.basis then 0
             else pos.basis - Reduction(pos, burned))
  }

  function Release(l: Ledger, tenant: TenantId, burned: nat): Result<Ledger, Error>
    requires burned <= PositionOf(l, tenant).shares
  {
    var pos := PositionOf(l, tenant);
    if pos.shares == 0 || pos.basis * burned >= TWO_256 then Err(ArithmeticPanic)
    else if Reduction(pos, burned) > pos.basis then Err(ArithmeticPanic)
    else if l.totalShares < burned || l.totalDeposited < Reduction(pos, burned) then Err(ArithmeticPanic)
    else Ok(l.(positions := l.positions[tenant := Reduced(pos, burned)],
               totalShares := l.totalShares - burned,
               totalDeposited := l.totalDeposited - Reduction(pos, burned)))
  }

  // ---------- Treasury operations ----------

  function DepositForTenant(b: Book, tenant: TenantId, usdcAmount: nat, minShares: nat, reply: Exchange)
    : Result<Book, Error>
  {
    var before := Held(b.shares, b.ledger.vault);
    if tenant == 0 then Err(ZeroTenantId)
    else if usdcAmount == 0 then Err(ZeroAmount)
    else if reply.Rejected? then Err(ExecutionFailed)
    else if reply.sharesAfter < before || reply.usdcBefore < reply.usdcAfter then Err(ArithmeticPanic)
    else
      var minted := reply.sharesAfter - before;
      if minted == 0 then Err(ZeroSharesMinted)
      else if minted < minShares then Err(SlippageExceeded)
      else match Credit(b.ledger, tenant, minted, reply.usdcBefore - reply.usdcAfter)
        case Err(e) => Err(e)
        case Ok(l) => Ok(Book(l, b.shares[b.ledger.vault := reply.sharesAfter]))
  }

  function WithdrawForTenant(b: Book, tenant: TenantId, usdcAmount: nat, maxSharesBurned: nat, estimate: nat,
                             reply: Exchange): Result<Book, Error>
  {
    var before := Held(b.shares, b.ledger.vault);
    var pos := PositionOf(b.ledger, tenant);
    if tenant == 0 then Err(ZeroTenantId)
    else if usdcAmount == 0 then Err(ZeroAmount)
    else if estimate > pos.shares then Err(InsufficientShares)
    else if reply.Rejected? then Err(ExecutionFailed)
    else if before < reply.sharesAfter then Err(ArithmeticPanic)
    else
      var burned := before - reply.sharesAfter;
      if burned > pos.shares then Err(InsufficientShares)
      else if maxSharesBurned > 0 && burned > maxSharesBurned then Err(SlippageExceeded)
      else match Release(b.ledger, tenant, burned)
        case Err(e) => Err(e)
        case Ok(l) => Ok(Book(l, b.shares[b.ledger.vault := reply.sharesAfter]))
  }

  /** The vault burns exactly the given shares, so it rejects a call for more than the Safe holds. */
  function RedeemForTenant(b: Book, tenant: TenantId, shares: nat, minAssetsOut: nat, reply: Exchange)
    : Result<Book, Error>
  {
    var before := Held(b.shares, b.ledger.vault);
    if tenant == 0 then Err(ZeroTenantId)
    else if shares == 0 then Err(ZeroAmount)
    else if shares > PositionOf(b.ledger, tenant).shares then Err(InsufficientShares)
    else if reply.Rejected? || before < shares then Err(ExecutionFailed)
    else if reply.usdcAfter < reply.usdcBefore then Err(ArithmeticPanic)
    else if reply.usdcAfter - reply.usdcBefore < minAssetsOut then Err(SlippageExceeded)
    else match Release(b.ledger, tenant, shares)
      case Err(e) => Err(e)
      case Ok(l) => Ok(Book(l, b.shares[b.ledger.vault := before - shares]))
  }

  function SetMorphoVault(b: Book, newVault: VaultId): Result<Book, Error> {
    if newVault == 0 then Err(InvalidMorphoVault)
    else if b.ledger.totalShares > 0 then Err(PositionsExist)
    else Ok(b.(ledger := b.ledger.(vault := newVault)))
  }

  // ---------- The other module ----------

  /** What the second module knows: whether it has been told of the treasury, and the vaults it may use. */
  datatype Access = Access(wired: bool, allowlist: set<VaultId>)

  predicate DesyncCheck(b: Book, access: Access, vault: VaultId) {
    access.wired && b.ledger.vault == vault ==> Held(b.shares, vault) >= b.ledger.totalShares
  }

  function DepositToMorpho(b: Book, access: Access, vault: VaultId, assets: nat, minShares: nat, reply: Exchange)
    : Result<Book, Error>
  {
    var before := Held(b.shares, vault);
    if assets == 0 then Err(ZeroAmount)
    else if vault !in access.allowlist then Err(VaultNotAllowlisted)
    else if reply.Rejected? then Err(ExecutionFailed)
    else if reply.sharesAfter < before then Err(ArithmeticPanic)
    else if reply.sharesAfter - before < minShares then Err(SlippageExceeded)
    else Ok(b.(shares := b.shares[vault := reply.sharesAfter]))
  }

  function WithdrawFromMorpho(b: Book, access: Access, vault: VaultId, assets: nat, maxSharesBurned: nat,
                              reply: Exchange): Result<Book, Error>
  {
    var before := Held(b.shares, vault);
    if assets == 0 then Err(ZeroAmount)
    else if vault !in access.allowlist then Err(VaultNotAllowlisted)
    else if reply.Rejected? then Err(ExecutionFailed)
    else if before < reply.sharesAfter then Err(ArithmeticPanic)
    else
      var burned := before - reply.sharesAfter;
      var after := b.(shares := b.shares[vault := reply.sharesAfter]);
      if burned == 0 then Err(ZeroAmount)
      else if maxSharesBurned > 0 && burned > maxSharesBurned then Err(SlippageExceeded)
      else if !DesyncCheck(after, access, vault) then Err(WouldDesyncTenantShares)
      else Ok(after)
  }

  function RedeemFromMorpho(b: Book, access: Access, vault: VaultId, shares: nat, minAssetsOut: nat, reply: Exchange)
    : Result<Book, Error>
  {
    var before := Held(b.shares, vault);
    if shares == 0 then Err(ZeroAmount)
    else if vault !in access.allowlist then Err(VaultNotAllowlisted)
    else if reply.Rejected? || before < shares then Err(ExecutionFailed)
    else if reply.usdcAfter < reply.usdcBefore then Err(ArithmeticPanic)
    else if reply.usdcAfter - reply.usdcBefore < minAssetsOut then Err(SlippageExceeded)
    else
      var after := b.(shares := b.shares[vault := before - shares]);
      if !DesyncCheck(after, access, vault) then Err(WouldDesyncTenantShares) else Ok(after)
  }

  // A vault's shares are themselves a token, named like the vault, and a lending pool takes any token.

  /** The pool takes exactly the amount, so it rejects a call for more than the Safe holds. */
  function SupplyToAave(b: Book, access: Access, pool: VaultId, asset: VaultId, amount: nat, reply: Exchange)
    : Result<Book, Error>
  {
    var before := Held(b.shares, asset);
    if amount == 0 then Err(ZeroAmount)
    else if pool !in access.allowlist then Err(VaultNotAllowlisted)
    else if reply.Rejected? || before < amount then Err(ExecutionFailed)
    else Ok(b.(shares := b.shares[asset := before - amount]))
  }

  function WithdrawFromAave(b: Book, access: Access, pool: VaultId, asset: VaultId, amount: nat, minReceived: nat,
                            reply: Exchange): Result<Book, Error>
  {
    var before := Held(b.shares, asset);
    if amount == 0 then Err(ZeroAmount)
    else if pool !in access.allowlist then Err(VaultNotAllowlisted)
    else if reply.Rejected? then Err(ExecutionFailed)
    else if reply.sharesAfter < before then Err(ArithmeticPanic)
    else if reply.sharesAfter - before < minReceived then Err(SlippageExceeded)
    else Ok(b.(shares := b.shares[asset := reply.sharesAfter]))
  }

  // ---------- Runs of both modules ----------

  datatype Op =
    | TenantDeposit(tenant: TenantId, amount: nat, min: nat, reply: Exchange)
    | TenantWithdraw(tenant: TenantId, amount: nat, max: nat, estimate: nat, reply: Exchange)
    | TenantRedeem(tenant: TenantId, amount: nat, min: nat, reply: Exchange)
    | Migrate(vault: VaultId)
    | MorphoDeposit(vault: VaultId, amount: nat, min: nat, reply: Exchange)
    | MorphoWithdraw(vault: VaultId, amount: nat, max: nat, reply: Exchange)
    | MorphoRedeem(vault: VaultId, amount: nat, min: nat, reply: Exchange)
    | AaveSupply(pool: VaultId, asset: VaultId, amount: nat, reply: Exchange)
    | AaveWithdraw(pool: VaultId, asset: VaultId, amount: nat, min: nat, reply: Exchange)

  /** Both modules and the Safe between them. */
  datatype World = World(book: Book, access: Access)

  function Apply(w: World, op: Op): Result<Book, Error> {
    match op
    case TenantDeposit(t, amount, min, reply) => DepositForTenant(w.book, t, amount, min, reply)
    case TenantWithdraw(t, amount, max, estimate, reply) => WithdrawForTenant(w.book, t, amount, max, estimate, reply)
    case TenantRedeem(t, amount, min, reply) => RedeemForTenant(w.book, t, amount, min, reply)
    case Migrate(vault) => SetMorphoVault(w.book, vault)
    case MorphoDeposit(v, amount, min, reply) => DepositToMorpho(w.book, w.access, v, amount, min, reply)
    case MorphoWithdraw(v, amount, max, reply) => WithdrawFromMorpho(w.book, w.access, v, amount, max, reply)
    case MorphoRedeem(v, amount, min, reply) => RedeemFromMorpho(w.book, w.access, v, amount, min, reply)
    case AaveSupply(pool, asset, amount, reply) => SupplyToAave(w.book, w.access, pool, asset, amount, reply)
    case AaveWithdraw(pool, asset, amount, min, reply) =>
      WithdrawFromAave(w.book, w.access, pool, asset, amount, min, reply)
  }

  /** A call that reverts changes nothing. */
  function Step(w: World, op: Op): World {
    match Apply(w, op)
    case Ok(b) => w.(book := b)
    case Err(_) => w
  }

  /** A run; between calls the owner may change the allowlist, and anyone may send the Safe shares of a vault. */
  datatype Event =
    | Call(op: Op)
    | SetAllowlist(vaults: set<VaultId>)
    | SetTreasuryVault
    | Receive(vault: VaultId, amount: nat)

  function Next(w: World, e: Event): World {
    match e
    case Call(op) => Step(w, op)
    case SetAllowlist(vaults) => w.(access := w.access.(allowlist := vaults))
    case SetTreasuryVault => w.(access := w.access.(wired := true))
    case Receive(vault, amount) =>
      w.(book := w.book.(shares := w.book.shares[vault := Held(w.book.shares, vault) + amount]))
  }

  /** What happens between calls: one list or switch is set, or the Safe's shares of one vault grow. */
  lemma OtherEvents(w: World, vaults: set<VaultId>, vault: VaultId, amount: nat, v: VaultId)
    ensures Next(w, SetAllowlist(vaults)) == World(w.book, Access(w.access.wired, vaults))
    ensures Next(w, SetTreasuryVault) == World(w.book, Access(true, w.access.allowlist))
    ensures var w' := Next(w, Receive(vault, amount));
            && w'.access == w.access && w'.book.ledger == w.book.ledger
            && Held(w'.book.shares, v) == Held(w.book.shares, v) + if v == vault then amount else 0
  {
  }

  function Run(w: World, events: seq<Event>): World {
    if events == [] then w else Next(Run(w, events[..|events| - 1]), events[|events| - 1])
  }

  // ---------- Sums over tenants ----------

  ghost function Sum(positions: map<TenantId, Position>, f: Position -> nat): nat
    decreases |positions|
  {
    if positions == map[] then 0
    else
      var t :| t in positions;
      f(positions[t]) + Sum(positions - {t}, f)
  }

  lemma {:induction false} SumRemove(positions: map<TenantId, Position>, f: Position -> nat, tenant: TenantId)
    requires tenant in positions
    ensures Sum(positions, f) == f(positions[tenant]) + Sum(positions - {tenant}, f)
    decreases |positions|
  {
    var t :| t in positions && Sum(positions, f) == f(positions[t]) + Sum(positions - {t}, f);
    if t != tenant {
      SumRemove(positions - {t}, f, tenant);
      SumRemove(positions - {tenant}, f, t);
      assert positions - {t} - {tenant} == positions - {tenant} - {t};
    }
  }

  ghost function FOf(l: Ledger, f: Position -> nat, tenant: TenantId): nat {
    if tenant in l.positions then f(l.positions[tenant]) else 0
  }

  lemma SumUpdate(l: Ledger, f: Position -> nat, tenant: TenantId, pos: Position)
    ensures Sum(l.positions[tenant := pos], f) == Sum(l.positions, f) - FOf(l, f, tenant) + f(pos)
    ensures Sum(l.positions, f) >= FOf(l, f, tenant)
  {
    var updated := l.positions[tenant := pos];
    SumRemove(updated, f, tenant);
    assert updated - {tenant} == l.positions - {tenant};
    if tenant in l.positions {
      SumRemove(l.positions, f, tenant);
    } else {
      assert l.positions - {tenant} == l.positions;
    }
  }

  const SHARES: Position -> nat := (p: Position) => p.shares
  const BASIS: Position -> nat := (p: Position) => p.basis

  /** No shares, no basis. */
  ghost predicate NoPhantoms(l: Ledger) {
    forall t | t in l.positions :: l.positions[t].shares == 0 ==> l.positions[t].basis == 0
  }

  /** The totals are words and the sums over all tenants; the zero tenant has no position. */
  ghost predicate LedgerOk(l: Ledger) {
    && l.totalShares == Sum(l.positions, SHARES) < TWO_256
    && l.totalDeposited == Sum(l.positions, BASIS) < TWO_256
    && NoPhantoms(l) && 0 !in l.positions
  }

  /** A new position changes the sums by what it differs from the old one. */
  lemma SumsUpdate(l: Ledger, tenant: TenantId, pos: Position)
    ensures Sum(l.positions[tenant := pos], SHARES)
            == Sum(l.positions, SHARES) - PositionOf(l, tenant).shares + pos.shares
    ensures Sum(l.positions[tenant := pos], BASIS)
            == Sum(l.positions, BASIS) - PositionOf(l, tenant).basis + pos.basis
  {
    SumUpdate(l, SHARES, tenant, pos);
    SumUpdate(l, BASIS, tenant, pos);
  }

  lemma PositionWithinTotals(l: Ledger, tenant: TenantId)
    requires LedgerOk(l)
    ensures PositionOf(l, tenant).shares <= l.totalShares && PositionOf(l, tenant).basis <= l.totalDeposited
  {
    SumUpdate(l, SHARES, tenant, Position(0, 0));
    SumUpdate(l, BASIS, tenant, Position(0, 0));
  }

  lemma ReductionWithinBasis(pos: Position, burned: nat)
    requires burned <= pos.shares && pos.shares > 0
    ensures Reduction(pos, burned) <= pos.basis
    ensures burned == pos.shares ==> Reduction(pos, burned) == pos.basis
  {
    MoreTimes(pos.basis, burned, pos.shares);
    QuotientBound(pos.basis * burned, pos.shares, pos.basis);
    if burned == pos.shares {
      QuotientExact(pos.basis, pos.shares);
    }
  }

  lemma MoreTimes(z: nat, x: nat, y: nat)
    requires x <= y
    ensures z * x <= z * y
  {
  }

  lemma QuotientBound(x: nat, y: nat, q: nat)
    requires y > 0 && x <= q * y
    ensures x / y <= q
  {
    assert (x / y) * y <= x;
    CancelFactor(x / y, q, y);
  }

  lemma CancelFactor(a: int, b: int, y: nat)
    requires y > 0 && a * y <= b * y
    ensures a <= b
  {
    assert (b + 1) * y == b * y + y;
    LessFactor(a, b + 1, y);
  }

  lemma QuotientExact(q: nat, y: nat)
    requires y > 0
    ensures q * y / y == q
  {
    QuotientBound(q * y, y, q);
    assert q * y < (q * y / y) * y + y;
    assert (q * y / y) * y + y == (q * y / y + 1) * y;
    LessFactor(q, q * y / y + 1, y);
  }

  lemma LessFactor(a: int, b: int, y: nat)
    requires y > 0 && a * y < b * y
    ensures a < b
  {
  }

  /**
   * None of the subtractions of the accounting can underflow: a release fails only where the product of basis and
   * shares exceeds a word, or on an empty position.
   */
  lemma ReleaseSucceeds(l: Ledger, tenant: TenantId, burned: nat)
    requires LedgerOk(l) && burned <= PositionOf(l, tenant).shares
    ensures Release(l, tenant, burned).Ok?
            <==> PositionOf(l, tenant).shares > 0 && PositionOf(l, tenant).basis * burned < TWO_256
  {
    var pos := PositionOf(l, tenant);
    PositionWithinTotals(l, tenant);
    if pos.shares > 0 {
      ReductionWithinBasis(pos, burned);
    }
  }

  lemma ReleaseKeepsLedger(l: Ledger, tenant: TenantId, burned: nat)
    requires LedgerOk(l) && burned <= PositionOf(l, tenant).shares && Release(l, tenant, burned).Ok?
    ensures LedgerOk(Release(l, tenant, burned).value)
  {
    var pos := PositionOf(l, tenant);
    ReductionWithinBasis(pos, burned);
    SumsUpdate(l, tenant, Reduced(pos, burned));
  }

  /** A deposit is recorded exactly if neither total leaves its word; no single position can. */
  lemma CreditSucceeds(l: Ledger, tenant: TenantId, minted: nat, consumed: nat)
    requires LedgerOk(l)
    ensures Credit(l, tenant, minted, consumed).Ok?
            <==> l.totalShares + minted < TWO_256 && l.totalDeposited + consumed < TWO_256
  {
    PositionWithinTotals(l, tenant);
  }

  lemma CreditKeepsLedger(l: Ledger, tenant: TenantId, minted: nat, consumed: nat)
    requires LedgerOk(l) && tenant != 0 && minted > 0 && Credit(l, tenant, minted, consumed).Ok?
    ensures LedgerOk(Credit(l, tenant, minted, consumed).value)
  {
    CreditKeepsSums(l, tenant, minted, consumed);
  }

  lemma CreditKeepsSums(l: Ledger, tenant: TenantId, minted: nat, consumed: nat)
    requires l.totalShares == Sum(l.positions, SHARES) && l.totalDeposited == Sum(l.positions, BASIS)
    requires Credit(l, tenant, minted, consumed).Ok?
    ensures var l' := Credit(l, tenant, minted, consumed).value;
            l'.totalShares == Sum(l'.positions, SHARES) && l'.totalDeposited == Sum(l'.positions, BASIS)
  {
    var pos := PositionOf(l, tenant);
    SumsUpdate(l, tenant, Position(pos.shares + minted, pos.basis + consumed));
  }

  // ---------- Coverage ----------

  /** The Safe holds enough shares of the treasury's vault for all tenants. */
  predicate Covered(b: Book) {
    Held(b.shares, b.ledger.vault) >= b.ledger.totalShares
  }

  lemma DepositKeepsLedger(b: Book, tenant: TenantId, usdcAmount: nat, minShares: nat, reply: Exchange)
    requires LedgerOk(b.ledger) && DepositForTenant(b, tenant, usdcAmount, minShares, reply).Ok?
    ensures LedgerOk(DepositForTenant(b, tenant, usdcAmount, minShares, reply).value.ledger)
  {
    CreditKeepsLedger(b.ledger, tenant, reply.sharesAfter - Held(b.shares, b.ledger.vault),
                      reply.usdcBefore - reply.usdcAfter);
  }

  lemma WithdrawalKeepsLedger(b: Book, tenant: TenantId, usdcAmount: nat, maxSharesBurned: nat, estimate: nat,
                              reply: Exchange)
    requires LedgerOk(b.ledger)
    requires WithdrawForTenant(b, tenant, usdcAmount, maxSharesBurned, estimate, reply).Ok?
    ensures LedgerOk(WithdrawForTenant(b, tenant, usdcAmount, maxSharesBurned, estimate, reply).value.ledger)
  {
    ReleaseKeepsLedger(b.ledger, tenant, Held(b.shares, b.ledger.vault) - reply.sharesAfter);
  }

  lemma RedemptionKeepsLedger(b: Book, tenant: TenantId, shares: nat, minAssetsOut: nat, reply: Exchange)
    requires LedgerOk(b.ledger) && RedeemForTenant(b, tenant, shares, minAssetsOut, reply).Ok?
    ensures LedgerOk(RedeemForTenant(b, tenant, shares, minAssetsOut, reply).value.ledger)
  {
    ReleaseKeepsLedger(b.ledger, tenant, shares);
  }

  lemma StepKeepsLedger(w: World, op: Op)
    requires LedgerOk(w.book.ledger)
    ensures LedgerOk(Step(w, op).book.ledger)
  {
    if Apply(w, op).Ok? {
      match op
      case TenantDeposit(t, amount, min, reply) => DepositKeepsLedger(w.book, t, amount, min, reply);
      case TenantWithdraw(t, amount, max, estimate, reply) =>
        WithdrawalKeepsLedger(w.book, t, amount, max, estimate, reply);
      case TenantRedeem(t, amount, min, reply) => RedemptionKeepsLedger(w.book, t, amount, min, reply);
      case _ => assert Step(w, op).book.ledger == w.book.ledger.(vault := Step(w, op).book.ledger.vault);
    }
  }

  /** The vault whose shares a call of the second module may take from the Safe. */
  function TakesFrom(op: Op): Option<VaultId> {
    match op
    case MorphoWithdraw(v, _, _, _) => Some(v)
    case MorphoRedeem(v, _, _, _) => Some(v)
    case AaveSupply(_, asset, _, _) => Some(asset)
    case _ => None
  }

  /** Shares the call takes from the Safe in that vault; what a withdrawal burns is the vault's answer. */
  function Taken(b: Book, op: Op): nat {
    match op
    case MorphoRedeem(_, amount, _, _) => amount
    case AaveSupply(_, _, amount, _) => amount
    case MorphoWithdraw(v, _, _, Executed(after, _, _)) =>
      if after < Held(b.shares, v) then Held(b.shares, v) - after else 0
    case _ => 0
  }

  /** A call of the second module takes from the treasury's vault only what no tenant owns. */
  predicate LeavesTenantShares(b: Book, op: Op) {
    TakesFrom(op) == Some(b.ledger.vault) ==> Taken(b, op) + b.ledger.totalShares <= Held(b.shares, b.ledger.vault)
  }

  /** Wired or not: a call keeps the tenants covered if and only if it leaves the tenants' shares. */
  lemma CallKeepsCoverExactly(w: World, op: Op)
    requires Covered(w.book) && Apply(w, op).Ok?
    ensures Covered(Step(w, op).book) <==> LeavesTenantShares(w.book, op)
  {
    match op
    case TenantWithdraw(t, amount, max, estimate, reply) =>
      assert Held(w.book.shares, w.book.ledger.vault) - reply.sharesAfter <= PositionOf(w.book.ledger, t).shares;
    case _ =>
  }

  /** Once wired, every call but a supply to a lending pool checks for itself. */
  lemma WiredCallChecks(w: World, op: Op)
    requires w.access.wired && Apply(w, op).Ok? && !op.AaveSupply?
    ensures LeavesTenantShares(w.book, op)
  {
  }

  /** Every call of the run that goes through leaves the tenants' shares. */
  predicate AllLeaveTenantShares(w: World, events: seq<Event>) {
    events == [] ||
    var front, e := events[..|events| - 1], events[|events| - 1];
    && AllLeaveTenantShares(w, front)
    && (e.Call? && Apply(Run(w, front), e.op).Ok? ==> LeavesTenantShares(Run(w, front).book, e.op))
  }

  predicate CoveredAfter(w: World, events: seq<Event>, k: nat)
    requires k <= |events|
  {
    Covered(Run(w, events[..k]).book)
  }

  /** Wired or not: the tenants are covered throughout a run if and only if every call of it leaves their shares. */
  lemma {:induction false} CoveredThroughoutExactly(w: World, events: seq<Event>)
    requires Covered(w.book)
    ensures (forall k | 0 <= k <= |events| :: CoveredAfter(w, events, k)) <==> AllLeaveTenantShares(w, events)
  {
    if events == [] {
      assert CoveredAfter(w, events, 0);
    } else {
      var n := |events| - 1;
      var front := events[..n];
      CoveredThroughoutExactly(w, front);
      assert forall k | 0 <= k <= n :: front[..k] == events[..k];
      assert forall k | 0 <= k <= n :: CoveredAfter(w, front, k) <==> CoveredAfter(w, events, k);
      assert front[..n] == front && events[..n + 1] == events;
      assert CoveredAfter(w, front, n) <==> Covered(Run(w, front).book);
      assert CoveredAfter(w, events, n + 1) <==> Covered(Run(w, events).book);
      if Covered(Run(w, front).book) {
        EventKeepsCoverExactly(Run(w, front), events[n]);
      }
    }
  }

  lemma EventKeepsCoverExactly(w: World, e: Event)
    requires Covered(w.book)
    ensures Covered(Next(w, e).book)
            <==> (e.Call? && Apply(w, e.op).Ok? ==> LeavesTenantShares(w.book, e.op))
  {
    if e.Call? && Apply(w, e.op).Ok? {
      CallKeepsCoverExactly(w, e.op);
    }
  }

  /** Every supply of the run to a lending pool that goes through leaves the tenants' shares. */
  predicate SuppliesLeaveTenantShares(w: World, events: seq<Event>) {
    events == [] ||
    var front, e := events[..|events| - 1], events[|events| - 1];
    && SuppliesLeaveTenantShares(w, front)
    && (e.Call? && e.op.AaveSupply? && Apply(Run(w, front), e.op).Ok? ==> LeavesTenantShares(Run(w, front).book, e.op))
  }

  lemma {:induction false} StaysWired(w: World, events: seq<Event>)
    requires w.access.wired
    ensures Run(w, events).access.wired
  {
    if events != [] {
      StaysWired(w, events[..|events| - 1]);
    }
  }

  lemma {:induction false} OnlySuppliesMatter(w: World, events: seq<Event>)
    requires w.access.wired
    ensures AllLeaveTenantShares(w, events) <==> SuppliesLeaveTenantShares(w, events)
  {
    if events != [] {
      var front, e := events[..|events| - 1], events[|events| - 1];
      OnlySuppliesMatter(w, front);
      StaysWired(w, front);
      if e.Call? && Apply(Run(w, front), e.op).Ok? && !e.op.AaveSupply? {
        WiredCallChecks(Run(w, front), e.op);
      }
    }
  }

  lemma {:induction false} LedgerAlways(w: World, events: seq<Event>)
    requires LedgerOk(w.book.ledger)
    ensures LedgerOk(Run(w, events).book.ledger)
  {
    if events != [] {
      var front, e := events[..|events| - 1], events[|events| - 1];
      LedgerAlways(w, front);
      if e.Call? {
        StepKeepsLedger(Run(w, front), e.op);
      }
    }
  }

  /**
   * With the treasury wired in from the start, every reachable state of the two modules is accounted, and the tenants
   * are covered throughout a run if and only if no supply to a lending pool takes their shares.
   */
  lemma WiredRunCoveredExactly(w: World, events: seq<Event>)
    requires LedgerOk(w.book.ledger) && Covered(w.book) && w.access.wired
    ensures LedgerOk(Run(w, events).book.ledger)
    ensures (forall k | 0 <= k <= |events| :: CoveredAfter(w, events, k)) <==> SuppliesLeaveTenantShares(w, events)
  {
    LedgerAlways(w, events);
    CoveredThroughoutExactly(w, events);
    OnlySuppliesMatter(w, events);
  }

  /** In particular a run without such supplies keeps every tenant covered. */
  lemma EveryRunCovered(w: World, events: seq<Event>)
    requires LedgerOk(w.book.ledger) && Covered(w.book) && w.access.wired
    requires forall i | 0 <= i < |events| :: events[i].Call? ==> !events[i].op.AaveSupply?
    ensures Covered(Run(w, events).book)
  {
    NoSuppliesLeave(w, events);
    WiredRunCoveredExactly(w, events);
    assert CoveredAfter(w, events, |events|) && events[..|events|] == events;
  }

  lemma {:induction false} NoSuppliesLeave(w: World, events: seq<Event>)
    requires forall i | 0 <= i < |events| :: events[i].Call? ==> !events[i].op.AaveSupply?
    ensures SuppliesLeaveTenantShares(w, events)
  {
    if events != [] {
      NoSuppliesLeave(w, events[..|events| - 1]);
    }
  }

  /** A supply of the treasury's vault shares to an allowlisted pool uncovers the tenants, wired or not. */
  lemma SupplyUncovers(vault: VaultId, tenant: TenantId, pool: VaultId, wired: bool)
    requires tenant != 0
    ensures var w := World(Book(Ledger(map[tenant := Position(1, 1)], 1, 1, vault), map[vault := 1]),
                           Access(wired, {pool}));
            var op := AaveSupply(pool, vault, 1, Executed(0, 0, 0));
            LedgerOk(w.book.ledger) && Covered(w.book) && Apply(w, op).Ok? && !Covered(Step(w, op).book)
  {
    OnePosition(vault, tenant);
  }

  lemma OnePosition(vault: VaultId, tenant: TenantId)
    requires tenant != 0
    ensures LedgerOk(Ledger(map[tenant := Position(1, 1)], 1, 1, vault))
  {
    var empty := Ledger(map[], 0, 0, vault);
    SumsUpdate(empty, tenant, Position(1, 1));
    assert empty.positions[tenant := Position(1, 1)] == map[tenant := Position(1, 1)];
  }

  /** A deployment: no positions, whatever the Safe already holds. */
  function Deployed(vault: VaultId, shares: map<VaultId, nat>, access: Access): World {
    World(Book(Ledger(map[], 0, 0, vault), shares), access)
  }

  /**
   * From deployment on every run of both modules is accounted; wired from the start, it is covered throughout exactly
   * if every supply to a lending pool leaves the tenants' shares, and otherwise exactly if every call does.
   */
  lemma FromDeployment(vault: VaultId, shares: map<VaultId, nat>, access: Access, events: seq<Event>)
    ensures var w := Deployed(vault, shares, access);
            && LedgerOk(Run(w, events).book.ledger)
            && ((forall k | 0 <= k <= |events| :: CoveredAfter(w, events, k))
                <==> if access.wired then SuppliesLeaveTenantShares(w, events) else AllLeaveTenantShares(w, events))
  {
    var w := Deployed(vault, shares, access);
    LedgerAlways(w, events);
    CoveredThroughoutExactly(w, events);
    if access.wired {
      OnlySuppliesMatter(w, events);
    }
  }

  /** Without the wiring a redemption does too. */
  lemma UnwiredCanUncover(vault: VaultId, tenant: TenantId)
    requires tenant != 0
    ensures var w := World(Book(Ledger(map[tenant := Position(1, 1)], 1, 1, vault), map[vault := 1]),
                           Access(false, {vault}));
            var op := MorphoRedeem(vault, 1, 0, Executed(0, 0, 0));
            LedgerOk(w.book.ledger) && Covered(w.book) && Apply(w, op).Ok? && !Covered(Step(w, op).book)
  {
    OnePosition(vault, tenant);
  }

  // ---------- Winding down ----------

  /** A redemption of any size that the vault carries out. */
  function Redeem(b: Book, tenant: TenantId, shares: nat): Result<Book, Error> {
    RedeemForTenant(b, tenant, shares, 0, Executed(0, 0, 0))
  }

  /** Redeems `n` shares of a tenant one by one. */
  function RedeemUnits(b: Book, tenant: TenantId, n: nat): Book {
    if n == 0 then b
    else
      var b' := RedeemUnits(b, tenant, n - 1);
      match Redeem(b', tenant, 1)
      case Ok(after) => after
      case Err(_) => b'
  }

  /** Redeems all a tenant has: in one call or, where that reverts, share by share. */
  function RedeemFully(b: Book, tenant: TenantId): Book {
    var shares := PositionOf(b.ledger, tenant).shares;
    match Redeem(b, tenant, shares)
    case Ok(b') => b'
    case Err(_) => RedeemUnits(b, tenant, shares)
  }

  function RedeemAll(b: Book, order: seq<TenantId>): Book {
    if order == [] then b else RedeemFully(RedeemAll(b, order[..|order| - 1]), order[|order| - 1])
  }

  ghost predicate BookOk(b: Book) {
    LedgerOk(b.ledger) && Covered(b)
  }

  /** In a covered book a redemption of shares the tenant has goes through exactly if its product fits a word. */
  lemma Redemption(b: Book, tenant: TenantId, shares: nat)
    requires BookOk(b) && 0 < shares <= PositionOf(b.ledger, tenant).shares
    ensures Redeem(b, tenant, shares).Ok? <==> PositionOf(b.ledger, tenant).basis * shares < TWO_256
    ensures Redeem(b, tenant, shares).Ok? ==>
              var b' := Redeem(b, tenant, shares).value;
              && BookOk(b')
              && PositionOf(b'.ledger, tenant) == Reduced(PositionOf(b.ledger, tenant), shares)
              && (forall t | t != tenant :: PositionOf(b'.ledger, t) == PositionOf(b.ledger, t))
  {
    PositionWithinTotals(b.ledger, tenant);
    ReleaseSucceeds(b.ledger, tenant, shares);
    if Redeem(b, tenant, shares).Ok? {
      ReleaseKeepsLedger(b.ledger, tenant, shares);
    }
  }

  /** Single shares can always be redeemed. */
  lemma {:induction false} UnitsRedeemed(b: Book, tenant: TenantId, n: nat)
    requires BookOk(b) && n <= PositionOf(b.ledger, tenant).shares
    ensures var b' := RedeemUnits(b, tenant, n);
            && BookOk(b')
            && PositionOf(b'.ledger, tenant).shares == PositionOf(b.ledger, tenant).shares - n
            && (forall t | t != tenant :: PositionOf(b'.ledger, t) == PositionOf(b.ledger, t))
  {
    if n > 0 {
      UnitsRedeemed(b, tenant, n - 1);
      var b' := RedeemUnits(b, tenant, n - 1);
      PositionWithinTotals(b'.ledger, tenant);
      Redemption(b', tenant, 1);
    }
  }

  /** A whole position can be redeemed, and no other changes. */
  lemma FullRedemption(b: Book, tenant: TenantId)
    requires BookOk(b)
    ensures var b' := RedeemFully(b, tenant);
            && BookOk(b')
            && PositionOf(b'.ledger, tenant) == Position(0, 0)
            && (forall t | t != tenant :: PositionOf(b'.ledger, t) == PositionOf(b.ledger, t))
  {
    var shares := PositionOf(b.ledger, tenant).shares;
    if shares > 0 {
      Redemption(b, tenant, shares);
    }
    UnitsRedeemed(b, tenant, shares);
  }

  lemma {:induction false} RedeemedAll(b: Book, order: seq<TenantId>)
    requires BookOk(b)
    ensures var b' := RedeemAll(b, order);
            && BookOk(b')
            && (forall t | t in order :: PositionOf(b'.ledger, t) == Position(0, 0))
            && (forall t | t !in order :: PositionOf(b'.ledger, t) == PositionOf(b.ledger, t))
  {
    if order != [] {
      var front := order[..|order| - 1];
      RedeemedAll(b, front);
      FullRedemption(RedeemAll(b, front), order[|order| - 1]);
      assert order == front + [order[|order| - 1]];
    }
  }

  lemma {:induction false} SumOfZeros(positions: map<TenantId, Position>, f: Position -> nat)
    requires forall t | t in positions :: f(positions[t]) == 0
    ensures Sum(positions, f) == 0
    decreases |positions|
  {
    if positions != map[] {
      var t :| t in positions && Sum(positions, f) == f(positions[t]) + Sum(positions - {t}, f);
      SumOfZeros(positions - {t}, f);
    }
  }

  /**
   * Redeeming every tenant's whole position, in any order, brings both totals to 0 and lets the vault be replaced: in
   * every covered book, however large the positions.
   */
  lemma WindDown(b: Book, order: seq<TenantId>, newVault: VaultId)
    requires BookOk(b)
    requires forall t | t in b.ledger.positions && b.ledger.positions[t].shares > 0 :: t in order
    ensures var b' := RedeemAll(b, order);
            && b'.ledger.totalShares == 0 && b'.ledger.totalDeposited == 0
            && (newVault != 0 ==> SetMorphoVault(b', newVault).Ok?)
  {
    RedeemedAll(b, order);
    var l := RedeemAll(b, order).ledger;
    forall t | t in l.positions
      ensures l.positions[t] == Position(0, 0)
    {
      assert l.positions[t] == PositionOf(l, t);
      if t !in order {
        assert PositionOf(l, t) == PositionOf(b.ledger, t);
      }
    }
    SumOfZeros(l.positions, SHARES);
    SumOfZeros(l.positions, BASIS);
  }
}
