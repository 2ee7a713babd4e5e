/** The two modules on the M1 Safe as contracts that update their own storage and the Safe's balances in place. */
module TreasuryContracts {
  import opened Words
  import opened Wrappers
  import opened Treasury
  import TreasuryValue

  /** The Safe, as far as vault shares go. */
  class Safe {
    var shares: map<VaultId, nat>

    constructor (shares: map<VaultId, nat>)
      ensures this.shares == shares
    {
      this.shares := shares;
    }

    function BalanceOf(vault: VaultId): nat
      reads this
    {
      Held(shares, vault)
    }
  }

  /** Only the tenant's position and the Safe's shares of the treasury's vault may differ. */
  ghost predicate Untouched(b: Book, b': Book, tenant: TenantId) {
    && b'.ledger.vault == b.ledger.vault
    && (forall t | t != tenant :: PositionOf(b'.ledger, t) == PositionOf(b.ledger, t))
    && (forall v | v != b.ledger.vault :: Held(b'.shares, v) == Held(b.shares, v))
  }

  /** The totals and the Safe's shares follow the one position that changed. */
  ghost predicate Conserved(b: Book, b': Book, tenant: TenantId) {
    var pos, pos' := PositionOf(b.ledger, tenant), PositionOf(b'.ledger, tenant);
    && b'.ledger.totalShares - b.ledger.totalShares == pos'.shares - pos.shares
    && b'.ledger.totalDeposited - b.ledger.totalDeposited == pos'.basis - pos.basis
    && Held(b'.shares, b.ledger.vault) - Held(b.shares, b.ledger.vault) == pos'.shares - pos.shares
  }

  /** The basis left is the exact share for the remaining shares, rounded up by less than one unit. */
  ghost predicate FairlyReduced(pos: Position, pos': Position) {
    pos.basis * pos'.shares <= pos'.basis * pos.shares < pos.basis * pos'.shares + pos.shares
  }

  // ---------- When tenant calls go through, and what they do ----------

  /** Something is minted, at least what was asked for, and no total leaves its word. */
  predicate CanDeposit(b: Book, tenant: TenantId, usdcAmount: nat, minShares: nat, reply: Exchange) {
    var before := Held(b.shares, b.ledger.vault);
    && tenant != 0 && usdcAmount > 0
    && reply.Executed? && reply.usdcAfter <= reply.usdcBefore
    && before < reply.sharesAfter && before + minShares <= reply.sharesAfter
    && b.ledger.totalShares + (reply.sharesAfter - before) < TWO_256
    && b.ledger.totalDeposited + (reply.usdcBefore - reply.usdcAfter) < TWO_256
  }

  /** The estimate and the burned shares are the tenant's, within the caller's limit, and the product fits a word. */
  predicate CanWithdraw(b: Book, tenant: TenantId, usdcAmount: nat, maxSharesBurned: nat, estimate: nat,
                        reply: Exchange)
  {
    var pos, before := PositionOf(b.ledger, tenant), Held(b.shares, b.ledger.vault);
    && usdcAmount > 0 && reply.Executed? && reply.sharesAfter <= before
    && var burned := before - reply.sharesAfter;
    && 0 < pos.shares && estimate <= pos.shares && burned <= pos.shares
    && (maxSharesBurned == 0 || burned <= maxSharesBurned)
    && pos.basis * burned < TWO_256
  }

  /** The tenant and the Safe have the shares, enough USDC comes in, and the product fits a word. */
  predicate CanRedeem(b: Book, tenant: TenantId, shares: nat, minAssetsOut: nat, reply: Exchange) {
    var pos := PositionOf(b.ledger, tenant);
    && 0 < shares <= pos.shares && shares <= Held(b.shares, b.ledger.vault)
    && reply.Executed? && reply.usdcBefore + minAssetsOut <= reply.usdcAfter
    && pos.basis * shares < TWO_256
  }

  /** Nobody holds shares. */
  ghost predicate CanMigrate(b: Book, newVault: VaultId) {
    newVault != 0 && forall t: TenantId :: PositionOf(b.ledger, t).shares == 0
  }

  /** The tenant, and nobody else, has gained shares at a cost. */
  ghost predicate Credited(b: Book, b': Book, tenant: TenantId, minted: nat, consumed: nat) {
    && PositionOf(b'.ledger, tenant).shares == PositionOf(b.ledger, tenant).shares + minted
    && PositionOf(b'.ledger, tenant).basis == PositionOf(b.ledger, tenant).basis + consumed
    && Conserved(b, b', tenant) && Untouched(b, b', tenant)
  }

  /** The tenant, and nobody else, has lost shares with their share of the basis. */
  ghost predicate Released(b: Book, b': Book, tenant: TenantId, burned: nat) {
    && PositionOf(b'.ledger, tenant).shares == PositionOf(b.ledger, tenant).shares - burned
    && FairlyReduced(PositionOf(b.ledger, tenant), PositionOf(b'.ledger, tenant))
    && Conserved(b, b', tenant) && Untouched(b, b', tenant)
  }

  lemma DepositMeans(b: Book, tenant: TenantId, usdcAmount: nat, minShares: nat, reply: Exchange)
    requires LedgerOk(b.ledger)
    ensures var r := DepositForTenant(b, tenant, usdcAmount, minShares, reply);
            && (r.Ok? <==> CanDeposit(b, tenant, usdcAmount, minShares, reply))
            && (r.Ok? ==>
                  && LedgerOk(r.value.ledger) && (Covered(b) ==> Covered(r.value))
                  && Credited(b, r.value, tenant, reply.sharesAfter - Held(b.shares, b.ledger.vault),
                              reply.usdcBefore - reply.usdcAfter))
  {
    var before := Held(b.shares, b.ledger.vault);
    if tenant != 0 && reply.Executed? && before < reply.sharesAfter && reply.usdcAfter <= reply.usdcBefore {
      CreditSucceeds(b.ledger, tenant, reply.sharesAfter - before, reply.usdcBefore - reply.usdcAfter);
      var r := DepositForTenant(b, tenant, usdcAmount, minShares, reply);
      if r.Ok? {
        CreditMeans(b, r.value, tenant, reply.sharesAfter - before, reply.usdcBefore - reply.usdcAfter);
      }
    }
  }

  lemma CreditMeans(b: Book, b': Book, tenant: TenantId, minted: nat, consumed: nat)
    requires LedgerOk(b.ledger) && tenant != 0 && minted > 0
    requires Credit(b.ledger, tenant, minted, consumed).Ok?
    requires b'.ledger == Credit(b.ledger, tenant, minted, consumed).value
    requires b'.shares == b.shares[b.ledger.vault := Held(b.shares, b.ledger.vault) + minted]
    ensures LedgerOk(b'.ledger) && (Covered(b) ==> Covered(b')) && Credited(b, b', tenant, minted, consumed)
  {
    CreditKeepsLedger(b.ledger, tenant, minted, consumed);
  }

  lemma ReleaseMeans(b: Book, b': Book, tenant: TenantId, burned: nat)
    requires LedgerOk(b.ledger) && burned <= PositionOf(b.ledger, tenant).shares
    requires burned <= Held(b.shares, b.ledger.vault)
    requires Release(b.ledger, tenant, burned).Ok? && b'.ledger == Release(b.ledger, tenant, burned).value
    requires b'.shares == b.shares[b.ledger.vault := Held(b.shares, b.ledger.vault) - burned]
    ensures LedgerOk(b'.ledger) && (Covered(b) ==> Covered(b')) && Released(b, b', tenant, burned)
  {
    ReleaseKeepsLedger(b.ledger, tenant, burned);
    ReductionWithinBasis(PositionOf(b.ledger, tenant), burned);
    TreasuryValue.ReducedBounds(PositionOf(b.ledger, tenant), burned);
  }

  lemma WithdrawalMeans(b: Book, tenant: TenantId, usdcAmount: nat, maxSharesBurned: nat, estimate: nat,
                        reply: Exchange)
    requires LedgerOk(b.ledger)
    ensures var r := WithdrawForTenant(b, tenant, usdcAmount, maxSharesBurned, estimate, reply);
            && (r.Ok? <==> CanWithdraw(b, tenant, usdcAmount, maxSharesBurned, estimate, reply))
            && (r.Ok? ==>
                  && LedgerOk(r.value.ledger) && (Covered(b) ==> Covered(r.value))
                  && Released(b, r.value, tenant, Held(b.shares, b.ledger.vault) - reply.sharesAfter))
  {
    var before := Held(b.shares, b.ledger.vault);
    if reply.Executed? && reply.sharesAfter <= before
       && before - reply.sharesAfter <= PositionOf(b.ledger, tenant).shares {
      ReleaseSucceeds(b.ledger, tenant, before - reply.sharesAfter);
      var r := WithdrawForTenant(b, tenant, usdcAmount, maxSharesBurned, estimate, reply);
      if r.Ok? {
        ReleaseMeans(b, r.value, tenant, before - reply.sharesAfter);
      }
    }
  }

  lemma RedemptionMeans(b: Book, tenant: TenantId, shares: nat, minAssetsOut: nat, reply: Exchange)
    requires LedgerOk(b.ledger)
    ensures var r := RedeemForTenant(b, tenant, shares, minAssetsOut, reply);
            && (r.Ok? <==> CanRedeem(b, tenant, shares, minAssetsOut, reply))
            && (r.Ok? ==>
                  && LedgerOk(r.value.ledger) && (Covered(b) ==> Covered(r.value))
                  && Released(b, r.value, tenant, shares))
  {
    if shares <= PositionOf(b.ledger, tenant).shares {
      ReleaseSucceeds(b.ledger, tenant, shares);
      var r := RedeemForTenant(b, tenant, shares, minAssetsOut, reply);
      if r.Ok? {
        ReleaseMeans(b, r.value, tenant, shares);
      }
    }
  }

  lemma MigrationMeans(b: Book, newVault: VaultId)
    requires LedgerOk(b.ledger)
    ensures SetMorphoVault(b, newVault).Ok? <==> CanMigrate(b, newVault)
  {
    forall t: TenantId
      ensures PositionOf(b.ledger, t).shares <= b.ledger.totalShares
    {
      PositionWithinTotals(b.ledger, t);
    }
    if CanMigrate(b, newVault) {
      assert forall t | t in b.ledger.positions :: b.ledger.positions[t] == PositionOf(b.ledger, t);
      SumOfZeros(b.ledger.positions, SHARES);
    }
  }

  // ---------- Which error a call gives that does not go through ----------

  lemma DepositErrors(b: Book, tenant: TenantId, usdcAmount: nat, minShares: nat, reply: Exchange)
    requires LedgerOk(b.ledger)
    ensures var r, before := DepositForTenant(b, tenant, usdcAmount, minShares, reply), Held(b.shares, b.ledger.vault);
            var asked := tenant != 0 && usdcAmount > 0;
            var done := asked && reply.Executed? && before <= reply.sharesAfter && reply.usdcAfter <= reply.usdcBefore;
            && (r == Err(ZeroTenantId) <==> tenant == 0)
            && (r == Err(ZeroAmount) <==> tenant != 0 && usdcAmount == 0)
            && (r == Err(ExecutionFailed) <==> asked && reply.Rejected?)
            && (r == Err(ZeroSharesMinted) <==> done && reply.sharesAfter == before)
            && (r == Err(SlippageExceeded) <==> done && before < reply.sharesAfter < before + minShares)
            && (r == Err(ArithmeticPanic)
                <==> asked && reply.Executed?
                     && (reply.sharesAfter < before || reply.usdcBefore < reply.usdcAfter
                         || (before < reply.sharesAfter && before + minShares <= reply.sharesAfter
                             && (b.ledger.totalShares + (reply.sharesAfter - before) >= TWO_256
                                 || b.ledger.totalDeposited + (reply.usdcBefore - reply.usdcAfter) >= TWO_256))))
  {
    DepositMeans(b, tenant, usdcAmount, minShares, reply);
  }

  lemma WithdrawalErrors(b: Book, tenant: TenantId, usdcAmount: nat, maxSharesBurned: nat, estimate: nat,
                         reply: Exchange)
    requires LedgerOk(b.ledger)
    ensures var r := WithdrawForTenant(b, tenant, usdcAmount, maxSharesBurned, estimate, reply);
            var pos, before := PositionOf(b.ledger, tenant), Held(b.shares, b.ledger.vault);
            var asked := tenant != 0 && usdcAmount > 0 && estimate <= pos.shares;
            var done := asked && reply.Executed? && reply.sharesAfter <= before;
            && (r == Err(ZeroTenantId) <==> tenant == 0)
            && (r == Err(ZeroAmount) <==> tenant != 0 && usdcAmount == 0)
            && (r == Err(InsufficientShares)
                <==> tenant != 0 && usdcAmount > 0
                     && (estimate > pos.shares || (done && before > reply.sharesAfter + pos.shares)))
            && (r == Err(ExecutionFailed) <==> asked && reply.Rejected?)
            && (r == Err(SlippageExceeded)
                <==> done && before <= reply.sharesAfter + pos.shares
                     && 0 < maxSharesBurned < before - reply.sharesAfter)
            && (r == Err(ArithmeticPanic)
                <==> asked && reply.Executed?
                     && (before < reply.sharesAfter
                         || (before <= reply.sharesAfter + pos.shares
                             && (maxSharesBurned == 0 || before - reply.sharesAfter <= maxSharesBurned)
                             && (pos.shares == 0 || pos.basis * (before - reply.sharesAfter) >= TWO_256))))
  {
    WithdrawalMeans(b, tenant, usdcAmount, maxSharesBurned, estimate, reply);
  }

  lemma RedemptionErrors(b: Book, tenant: TenantId, shares: nat, minAssetsOut: nat, reply: Exchange)
    requires LedgerOk(b.ledger)
    ensures var r := RedeemForTenant(b, tenant, shares, minAssetsOut, reply);
            var pos, before := PositionOf(b.ledger, tenant), Held(b.shares, b.ledger.vault);
            var asked := tenant != 0 && 0 < shares <= pos.shares;
            var done := asked && reply.Executed? && shares <= before;
            && (r == Err(ZeroTenantId) <==> tenant == 0)
            && (r == Err(ZeroAmount) <==> tenant != 0 && shares == 0)
            && (r == Err(InsufficientShares) <==> tenant != 0 && shares > pos.shares)
            && (r == Err(ExecutionFailed) <==> asked && (reply.Rejected? || before < shares))
            && (r == Err(SlippageExceeded)
                <==> done && reply.usdcBefore <= reply.usdcAfter < reply.usdcBefore + minAssetsOut)
            && (r == Err(ArithmeticPanic)
                <==> done && (reply.usdcAfter < reply.usdcBefore
                              || (reply.usdcBefore + minAssetsOut <= reply.usdcAfter
                                  && pos.basis * shares >= TWO_256)))
  {
    RedemptionMeans(b, tenant, shares, minAssetsOut, reply);
  }

  lemma MigrationErrors(b: Book, newVault: VaultId)
    ensures SetMorphoVault(b, newVault) == Err(InvalidMorphoVault) <==> newVault == 0
    ensures SetMorphoVault(b, newVault) == Err(PositionsExist) <==> newVault != 0 && b.ledger.totalShares > 0
  {
  }

  /** The calls of the second module on a vault: what was asked for, and whether the tenants would be uncovered. */
  lemma MorphoErrors(b: Book, access: Access, vault: VaultId, amount: nat, bound: nat, reply: Exchange)
    ensures var before, asked := Held(b.shares, vault), amount > 0 && vault in access.allowlist;
            var deposit := DepositToMorpho(b, access, vault, amount, bound, reply);
            && (deposit == Err(ZeroAmount) <==> amount == 0)
            && (deposit == Err(VaultNotAllowlisted) <==> amount > 0 && vault !in access.allowlist)
            && (deposit == Err(ExecutionFailed) <==> asked && reply.Rejected?)
            && (deposit == Err(ArithmeticPanic) <==> asked && reply.Executed? && reply.sharesAfter < before)
            && (deposit == Err(SlippageExceeded)
                <==> asked && reply.Executed? && before <= reply.sharesAfter < before + bound)
    ensures var before, asked := Held(b.shares, vault), amount > 0 && vault in access.allowlist;
            var withdrawal := WithdrawFromMorpho(b, access, vault, amount, bound, reply);
            var burnt := asked && reply.Executed? && reply.sharesAfter < before;
            && (withdrawal == Err(ZeroAmount)
                <==> amount == 0 || (asked && reply.Executed? && reply.sharesAfter == before))
            && (withdrawal == Err(VaultNotAllowlisted) <==> amount > 0 && vault !in access.allowlist)
            && (withdrawal == Err(ExecutionFailed) <==> asked && reply.Rejected?)
            && (withdrawal == Err(ArithmeticPanic) <==> asked && reply.Executed? && before < reply.sharesAfter)
            && (withdrawal == Err(SlippageExceeded) <==> burnt && 0 < bound < before - reply.sharesAfter)
            && (withdrawal == Err(WouldDesyncTenantShares)
                <==> burnt && (bound == 0 || before - reply.sharesAfter <= bound)
                     && access.wired && vault == b.ledger.vault && reply.sharesAfter < b.ledger.totalShares)
    ensures var before, asked := Held(b.shares, vault), amount > 0 && vault in access.allowlist;
            var redemption := RedeemFromMorpho(b, access, vault, amount, bound, reply);
            var done := asked && reply.Executed? && amount <= before;
            && (redemption == Err(ZeroAmount) <==> amount == 0)
            && (redemption == Err(VaultNotAllowlisted) <==> amount > 0 && vault !in access.allowlist)
            && (redemption == Err(ExecutionFailed) <==> asked && (reply.Rejected? || before < amount))
            && (redemption == Err(ArithmeticPanic) <==> done && reply.usdcAfter < reply.usdcBefore)
            && (redemption == Err(SlippageExceeded)
                <==> done && reply.usdcBefore <= reply.usdcAfter < reply.usdcBefore + bound)
            && (redemption == Err(WouldDesyncTenantShares)
                <==> done && reply.usdcBefore + bound <= reply.usdcAfter
                     && access.wired && vault == b.ledger.vault && before < amount + b.ledger.totalShares)
  {
  }

  lemma AaveErrors(b: Book, access: Access, pool: VaultId, asset: VaultId, amount: nat, min: nat, reply: Exchange)
    ensures var before, asked := Held(b.shares, asset), amount > 0 && pool in access.allowlist;
            var supply := SupplyToAave(b, access, pool, asset, amount, reply);
            && (supply == Err(ZeroAmount) <==> amount == 0)
            && (supply == Err(VaultNotAllowlisted) <==> amount > 0 && pool !in access.allowlist)
            && (supply == Err(ExecutionFailed) <==> asked && (reply.Rejected? || before < amount))
    ensures var before, asked := Held(b.shares, asset), amount > 0 && pool in access.allowlist;
            var withdrawal := WithdrawFromAave(b, access, pool, asset, amount, min, reply);
            && (withdrawal == Err(ZeroAmount) <==> amount == 0)
            && (withdrawal == Err(VaultNotAllowlisted) <==> amount > 0 && pool !in access.allowlist)
            && (withdrawal == Err(ExecutionFailed) <==> asked && reply.Rejected?)
            && (withdrawal == Err(ArithmeticPanic) <==> asked && reply.Executed? && reply.sharesAfter < before)
            && (withdrawal == Err(SlippageExceeded)
                <==> asked && reply.Executed? && before <= reply.sharesAfter < before + min)
  {
  }

  class TreasuryVault {
    const avatar: Safe
    var tenantPositions: map<TenantId, Position>
    var totalTenantShares: nat
    var totalDeposited: nat
    var morphoVault: VaultId

    constructor (avatar: Safe, morphoVault: VaultId)
      requires morphoVault != 0
      ensures this.avatar == avatar
      ensures Book() == Treasury.Book(Ledger(map[], 0, 0, morphoVault), avatar.shares)
      ensures Valid() && Covered()
    {
      this.avatar := avatar;
      this.tenantPositions := map[];
      this.totalTenantShares := 0;
      this.totalDeposited := 0;
      this.morphoVault := morphoVault;
    }

    function LedgerNow(): Ledger
      reads this
    {
      Ledger(tenantPositions, totalTenantShares, totalDeposited, morphoVault)
    }

    function Book(): Book
      reads this, avatar
    {
      Treasury.Book(LedgerNow(), avatar.shares)
    }

    function Position(tenantId: TenantId): Position
      reads this
    {
      PositionOf(LedgerNow(), tenantId)
    }

    /** The totals are the sums over all tenants, and nobody has a basis without shares. */
    ghost predicate Valid()
      reads this
    {
      LedgerOk(LedgerNow())
    }

    /** The Safe holds the shares of all tenants. */
    predicate Covered()
      reads this, avatar
    {
      Treasury.Covered(Book())
    }

    /** Records `shares` for `consumed` USDC; false where a sum exceeds a word. */
    method CreditShares(tenantId: TenantId, shares: nat, consumed: nat) returns (ok: bool)
      modifies this
      ensures match Credit(old(LedgerNow()), tenantId, shares, consumed)
              case Err(_) => !ok && LedgerNow() == old(LedgerNow())
              case Ok(l) => ok && LedgerNow() == l
    {
      var pos := if tenantId in tenantPositions then tenantPositions[tenantId] else Treasury.Position(0, 0);
      if pos.shares + shares >= TWO_256 || pos.basis + consumed >= TWO_256
        || totalTenantShares + shares >= TWO_256 || totalDeposited + consumed >= TWO_256 {
        return false;
      }
      tenantPositions := tenantPositions[tenantId := Treasury.Position(pos.shares + shares, pos.basis + consumed)];
      totalTenantShares := totalTenantShares + shares;
      totalDeposited := totalDeposited + consumed;
      return true;
    }

    /** The accounting of withdrawals and redemptions once `burned` shares are gone; false on an arithmetic panic. */
    method ReleaseShares(tenantId: TenantId, burned: nat) returns (ok: bool)
      requires burned <= Position(tenantId).shares
      modifies this
      ensures match Release(old(LedgerNow()), tenantId, burned)
              case Err(_) => !ok && LedgerNow() == old(LedgerNow())
              case Ok(l) => ok && LedgerNow() == l
    {
      var pos := if tenantId in tenantPositions then tenantPositions[tenantId] else Treasury.Position(0, 0);
      if pos.shares == 0 || pos.basis * burned >= TWO_256 { return false; }
      var depositReduction := pos.basis * burned / pos.shares;
      if pos.basis < depositReduction || totalTenantShares < burned || totalDeposited < depositReduction {
        return false;
      }
      var shares, basis := pos.shares - burned, pos.basis - depositReduction;
      if shares == 0 {
        basis := 0;
      }
      tenantPositions := tenantPositions[tenantId := Treasury.Position(shares, basis)];
      totalTenantShares := totalTenantShares - burned;
      totalDeposited := totalDeposited - depositReduction;
      return true;
    }

    /** The tenant gets exactly the measured shares, at the cost of the measured USDC. */
    method DepositForTenant(tenantId: TenantId, usdcAmount: nat, minShares: nat, reply: Exchange)
      returns (r: Result<nat, Error>)
      requires Valid()
      modifies this, avatar
      ensures Valid() && (old(Covered()) ==> Covered())
      ensures r.Ok? <==> CanDeposit(old(Book()), tenantId, usdcAmount, minShares, reply)
      ensures r.Err? ==>
                && Treasury.DepositForTenant(old(Book()), tenantId, usdcAmount, minShares, reply) == Err(r.error)
                && Book() == old(Book())
      ensures r.Ok? ==> Credited(old(Book()), Book(), tenantId, r.value, reply.usdcBefore - reply.usdcAfter)
      ensures Book() == Step(World(old(Book()), Access(false, {})),
                             TenantDeposit(tenantId, usdcAmount, minShares, reply)).book
    {
      DepositMeans(Book(), tenantId, usdcAmount, minShares, reply);
      if tenantId == 0 { return Err(ZeroTenantId); }
      if usdcAmount == 0 { return Err(ZeroAmount); }
      var sharesBefore := avatar.BalanceOf(morphoVault);
      if reply.Rejected? { return Err(ExecutionFailed); }
      if reply.sharesAfter < sharesBefore || reply.usdcBefore < reply.usdcAfter { return Err(ArithmeticPanic); }
      var shares := reply.sharesAfter - sharesBefore;
      if shares == 0 { return Err(ZeroSharesMinted); }
      if shares < minShares { return Err(SlippageExceeded); }
      var ok := CreditShares(tenantId, shares, reply.usdcBefore - reply.usdcAfter);
      if !ok { return Err(ArithmeticPanic); }
      avatar.shares := avatar.shares[morphoVault := reply.sharesAfter];
      return Ok(shares);
    }

    /** The tenant loses exactly the measured shares, with their share of the basis. */
    method WithdrawForTenant(tenantId: TenantId, usdcAmount: nat, maxSharesBurned: nat, estimatedShares: nat,
                             reply: Exchange) returns (r: Result<nat, Error>)
      requires Valid()
      modifies this, avatar
      ensures Valid() && (old(Covered()) ==> Covered())
      ensures r.Ok? <==> CanWithdraw(old(Book()), tenantId, usdcAmount, maxSharesBurned, estimatedShares, reply)
      ensures r.Err? ==>
                && Treasury.WithdrawForTenant(old(Book()), tenantId, usdcAmount, maxSharesBurned, estimatedShares,
                                              reply) == Err(r.error)
                && Book() == old(Book())
      ensures r.Ok? ==> Released(old(Book()), Book(), tenantId, r.value)
      ensures Book() == Step(World(old(Book()), Access(false, {})),
                             TenantWithdraw(tenantId, usdcAmount, maxSharesBurned, estimatedShares, reply)).book
    {
      WithdrawalMeans(Book(), tenantId, usdcAmount, maxSharesBurned, estimatedShares, reply);
      if tenantId == 0 { return Err(ZeroTenantId); }
      if usdcAmount == 0 { return Err(ZeroAmount); }
      var pos := Position(tenantId);
      if estimatedShares > pos.shares { return Err(InsufficientShares); }
      var sharesBefore := avatar.BalanceOf(morphoVault);
      if reply.Rejected? { return Err(ExecutionFailed); }
      if sharesBefore < reply.sharesAfter { return Err(ArithmeticPanic); }
      var sharesBurned := sharesBefore - reply.sharesAfter;
      if sharesBurned > pos.shares { return Err(InsufficientShares); }
      if maxSharesBurned > 0 && sharesBurned > maxSharesBurned { return Err(SlippageExceeded); }
      var ok := ReleaseShares(tenantId, sharesBurned);
      if !ok { return Err(ArithmeticPanic); }
      avatar.shares := avatar.shares[morphoVault := reply.sharesAfter];
      return Ok(sharesBurned);
    }

    /** The tenant loses exactly the given shares, with their share of the basis. */
    method RedeemForTenant(tenantId: TenantId, shares: nat, minAssetsOut: nat, reply: Exchange)
      returns (r: Result<nat, Error>)
      requires Valid()
      modifies this, avatar
      ensures Valid() && (old(Covered()) ==> Covered())
      ensures r.Ok? <==> CanRedeem(old(Book()), tenantId, shares, minAssetsOut, reply)
      ensures r.Err? ==>
                && Treasury.RedeemForTenant(old(Book()), tenantId, shares, minAssetsOut, reply) == Err(r.error)
                && Book() == old(Book())
      ensures r.Ok? ==> reply.usdcBefore + r.value == reply.usdcAfter && Released(old(Book()), Book(), tenantId, shares)
      ensures Book() == Step(World(old(Book()), Access(false, {})),
                             TenantRedeem(tenantId, shares, minAssetsOut, reply)).book
    {
      RedemptionMeans(Book(), tenantId, shares, minAssetsOut, reply);
      if tenantId == 0 { return Err(ZeroTenantId); }
      if shares == 0 { return Err(ZeroAmount); }
      if shares > Position(tenantId).shares { return Err(InsufficientShares); }
      var sharesBefore := avatar.BalanceOf(morphoVault);
      if reply.Rejected? || sharesBefore < shares { return Err(ExecutionFailed); }
      if reply.usdcAfter < reply.usdcBefore { return Err(ArithmeticPanic); }
      var assetsReceived := reply.usdcAfter - reply.usdcBefore;
      if assetsReceived < minAssetsOut { return Err(SlippageExceeded); }
      var ok := ReleaseShares(tenantId, shares);
      if !ok { return Err(ArithmeticPanic); }
      avatar.shares := avatar.shares[morphoVault := sharesBefore - shares];
      return Ok(assetsReceived);
    }

    /** The vault can be replaced exactly when no tenant holds shares, so that coverage cannot be lost by it. */
    method SetMorphoVault(newVault: VaultId) returns (r: Result<VaultId, Error>)
      requires Valid()
      modifies this`morphoVault
      ensures Valid() && (old(Covered()) ==> Covered())
      ensures r.Ok? <==> CanMigrate(old(Book()), newVault)
      ensures r.Err? ==> Treasury.SetMorphoVault(old(Book()), newVault) == Err(r.error)
      ensures morphoVault == if r.Ok? then newVault else old(morphoVault)
      ensures Book() == Step(World(old(Book()), Access(false, {})), Migrate(newVault)).book
    {
      MigrationMeans(Book(), newVault);
      if newVault == 0 { return Err(InvalidMorphoVault); }
      if totalTenantShares > 0 { return Err(PositionsExist); }
      r := Ok(morphoVault);
      morphoVault := newVault;
    }
  }

  /** The Safe's balance in the vault became `after`, and in no other vault did it change. */
  ghost predicate OnlyMoved(shares: map<VaultId, nat>, shares': map<VaultId, nat>, vault: VaultId, after: nat) {
    Held(shares', vault) == after && forall v | v != vault :: Held(shares', v) == Held(shares, v)
  }

  class DeFiInteractor {
    const avatar: Safe
    var treasuryVault: TreasuryVault?
    var isAllowlistedVault: set<VaultId>

    constructor (avatar: Safe)
      ensures this.avatar == avatar && treasuryVault == null && isAllowlistedVault == {}
    {
      this.avatar := avatar;
      this.treasuryVault := null;
      this.isAllowlistedVault := {};
    }

    /**
     * Both modules sit on the same Safe, this one knows of no other treasury, the treasury's accounts are in order,
     * and once this one knows of it the tenants are covered.
     */
    ghost predicate Valid(treasury: TreasuryVault)
      reads this, treasury, treasury.avatar
    {
      && treasury.avatar == avatar && (treasuryVault == null || treasuryVault == treasury)
      && treasury.Valid() && (treasuryVault != null ==> treasury.Covered())
    }

    function AccessNow(): Access
      reads this
    {
      Access(treasuryVault != null, isAllowlistedVault)
    }

    ghost function WorldNow(treasury: TreasuryVault): World
      reads this, treasury, treasury.avatar
    {
      World(treasury.Book(), AccessNow())
    }

    /** `setTreasuryVault`: one way, and from then on in order exactly if the tenants are covered now. */
    method SetTreasuryVault(treasury: TreasuryVault) returns (ok: bool)
      requires Valid(treasury)
      modifies this`treasuryVault
      ensures ok <==> old(treasuryVault) == null
      ensures treasuryVault == treasury
      ensures Valid(treasury) <==> treasury.Covered()
    {
      if treasuryVault != null { return false; }
      treasuryVault := treasury;
      return true;
    }

    /** `_checkTenantShareSafety`: passes exactly if the tenants stay covered, or the treasury is not known. */
    method CheckTenantShareSafety(vault: VaultId, remaining: nat, ghost treasury: TreasuryVault) returns (ok: bool)
      requires Valid(treasury)
      ensures ok <==> treasuryVault == null
                      || Treasury.Covered(Treasury.Book(treasury.LedgerNow(), avatar.shares[vault := remaining]))
    {
      if treasuryVault == null { return true; }
      if treasuryVault.morphoVault != vault { return true; }
      return remaining >= treasuryVault.totalTenantShares;
    }

    /** A deposit of the second module only adds to the Safe's shares of an allowlisted vault. */
    method DepositToMorpho(vault: VaultId, assets: nat, minShares: nat, reply: Exchange, ghost treasury: TreasuryVault)
      returns (r: Result<nat, Error>)
      requires Valid(treasury)
      modifies avatar
      ensures Valid(treasury) && (old(treasury.Covered()) ==> treasury.Covered())
      ensures r.Ok? <==>
                && assets > 0 && vault in isAllowlistedVault
                && reply.Executed? && old(avatar.BalanceOf(vault)) + minShares <= reply.sharesAfter
      ensures r.Err? ==>
                && Treasury.DepositToMorpho(old(treasury.Book()), AccessNow(), vault, assets, minShares, reply)
                   == Err(r.error)
                && avatar.shares == old(avatar.shares)
      ensures r.Ok? ==> OnlyMoved(old(avatar.shares), avatar.shares, vault, old(avatar.BalanceOf(vault)) + r.value)
      ensures WorldNow(treasury) == Step(old(WorldNow(treasury)), MorphoDeposit(vault, assets, minShares, reply))
    {
      if assets == 0 { return Err(ZeroAmount); }
      if vault !in isAllowlistedVault { return Err(VaultNotAllowlisted); }
      var sharesBefore := avatar.BalanceOf(vault);
      if reply.Rejected? { return Err(ExecutionFailed); }
      if reply.sharesAfter < sharesBefore { return Err(ArithmeticPanic); }
      var shares := reply.sharesAfter - sharesBefore;
      if shares < minShares { return Err(SlippageExceeded); }
      avatar.shares := avatar.shares[vault := reply.sharesAfter];
      return Ok(shares);
    }

    /**
     * A withdrawal takes what the vault burns and no more; a covered treasury stays covered if it is known, and
     * otherwise exactly if the withdrawal leaves the tenants' shares.
     */
    method WithdrawFromMorpho(vault: VaultId, assets: nat, maxSharesBurned: nat, reply: Exchange,
                              ghost treasury: TreasuryVault) returns (r: Result<nat, Error>)
      requires Valid(treasury)
      modifies avatar
      ensures Valid(treasury)
      ensures r.Ok? <==>
                && assets > 0 && vault in isAllowlistedVault
                && reply.Executed? && reply.sharesAfter < old(avatar.BalanceOf(vault))
                && (maxSharesBurned == 0 || old(avatar.BalanceOf(vault)) - reply.sharesAfter <= maxSharesBurned)
                && (treasuryVault == null || vault != treasury.morphoVault
                    || treasury.totalTenantShares <= reply.sharesAfter)
      ensures r.Err? ==>
                && Treasury.WithdrawFromMorpho(old(treasury.Book()), AccessNow(), vault, assets, maxSharesBurned, reply)
                   == Err(r.error)
                && avatar.shares == old(avatar.shares)
      ensures r.Ok? ==>
                && r.value <= old(avatar.BalanceOf(vault))
                && OnlyMoved(old(avatar.shares), avatar.shares, vault, old(avatar.BalanceOf(vault)) - r.value)
                && (old(treasury.Covered()) ==>
                      (treasury.Covered()
                       <==> vault != treasury.morphoVault
                            || r.value + treasury.totalTenantShares <= old(avatar.BalanceOf(vault))))
      ensures WorldNow(treasury) == Step(old(WorldNow(treasury)), MorphoWithdraw(vault, assets, maxSharesBurned, reply))
    {
      if assets == 0 { return Err(ZeroAmount); }
      if vault !in isAllowlistedVault { return Err(VaultNotAllowlisted); }
      var sharesBefore := avatar.BalanceOf(vault);
      if reply.Rejected? { return Err(ExecutionFailed); }
      if sharesBefore < reply.sharesAfter { return Err(ArithmeticPanic); }
      var sharesBurned := sharesBefore - reply.sharesAfter;
      if sharesBurned == 0 { return Err(ZeroAmount); }
      if maxSharesBurned > 0 && sharesBurned > maxSharesBurned { return Err(SlippageExceeded); }
      var ok := CheckTenantShareSafety(vault, reply.sharesAfter, treasury);
      if !ok { return Err(WouldDesyncTenantShares); }
      avatar.shares := avatar.shares[vault := reply.sharesAfter];
      return Ok(sharesBurned);
    }

    /** The same for a redemption, which takes exactly the given shares. */
    method RedeemFromMorpho(vault: VaultId, shares: nat, minAssetsOut: nat, reply: Exchange,
                            ghost treasury: TreasuryVault) returns (r: Result<nat, Error>)
      requires Valid(treasury)
      modifies avatar
      ensures Valid(treasury)
      ensures r.Ok? <==>
                && 0 < shares <= old(avatar.BalanceOf(vault)) && vault in isAllowlistedVault
                && reply.Executed? && reply.usdcBefore + minAssetsOut <= reply.usdcAfter
                && (treasuryVault == null || vault != treasury.morphoVault
                    || shares + treasury.totalTenantShares <= old(avatar.BalanceOf(vault)))
      ensures r.Err? ==>
                && Treasury.RedeemFromMorpho(old(treasury.Book()), AccessNow(), vault, shares, minAssetsOut, reply)
                   == Err(r.error)
                && avatar.shares == old(avatar.shares)
      ensures r.Ok? ==>
                && reply.usdcBefore + r.value == reply.usdcAfter
                && OnlyMoved(old(avatar.shares), avatar.shares, vault, old(avatar.BalanceOf(vault)) - shares)
                && (old(treasury.Covered()) ==>
                      (treasury.Covered()
                       <==> vault != treasury.morphoVault
                            || shares + treasury.totalTenantShares <= old(avatar.BalanceOf(vault))))
      ensures WorldNow(treasury) == Step(old(WorldNow(treasury)), MorphoRedeem(vault, shares, minAssetsOut, reply))
    {
      if shares == 0 { return Err(ZeroAmount); }
      if vault !in isAllowlistedVault { return Err(VaultNotAllowlisted); }
      var sharesBefore := avatar.BalanceOf(vault);
      if reply.Rejected? || sharesBefore < shares { return Err(ExecutionFailed); }
      if reply.usdcAfter < reply.usdcBefore { return Err(ArithmeticPanic); }
      var assetsReceived := reply.usdcAfter - reply.usdcBefore;
      if assetsReceived < minAssetsOut { return Err(SlippageExceeded); }
      var ok := CheckTenantShareSafety(vault, sharesBefore - shares, treasury);
      if !ok { return Err(WouldDesyncTenantShares); }
      avatar.shares := avatar.shares[vault := sharesBefore - shares];
      return Ok(assetsReceived);
    }

    /**
     * A supply to a lending pool takes exactly the amount of the asset, and nothing checks for the tenants: where the
     * asset is the treasury's vault share they stay covered exactly if it leaves their shares.
     */
    method SupplyToAave(pool: VaultId, asset: VaultId, amount: nat, reply: Exchange, ghost treasury: TreasuryVault)
      returns (error: Option<Error>)
      requires Valid(treasury)
      modifies avatar
      ensures treasury.Valid() && (Valid(treasury) <==> treasuryVault == null || treasury.Covered())
      ensures error == None <==>
                && amount > 0 && pool in isAllowlistedVault
                && reply.Executed? && amount <= old(avatar.BalanceOf(asset))
      ensures error.Some? ==>
                && Treasury.SupplyToAave(old(treasury.Book()), AccessNow(), pool, asset, amount, reply)
                   == Err(error.value)
                && avatar.shares == old(avatar.shares)
      ensures error == None ==>
                && OnlyMoved(old(avatar.shares), avatar.shares, asset, old(avatar.BalanceOf(asset)) - amount)
                && (old(treasury.Covered()) ==>
                      (treasury.Covered()
                       <==> asset != treasury.morphoVault
                            || amount + treasury.totalTenantShares <= old(avatar.BalanceOf(asset))))
      ensures WorldNow(treasury) == Step(old(WorldNow(treasury)), AaveSupply(pool, asset, amount, reply))
    {
      if amount == 0 { return Some(ZeroAmount); }
      if pool !in isAllowlistedVault { return Some(VaultNotAllowlisted); }
      var before := avatar.BalanceOf(asset);
      if reply.Rejected? || before < amount { return Some(ExecutionFailed); }
      avatar.shares := avatar.shares[asset := before - amount];
      return None;
    }

    /** A withdrawal from a lending pool only adds to the Safe's balance of the asset. */
    method WithdrawFromAave(pool: VaultId, asset: VaultId, amount: nat, minReceived: nat, reply: Exchange,
                            ghost treasury: TreasuryVault) returns (r: Result<nat, Error>)
      requires Valid(treasury)
      modifies avatar
      ensures Valid(treasury) && (old(treasury.Covered()) ==> treasury.Covered())
      ensures r.Ok? <==>
                && amount > 0 && pool in isAllowlistedVault
                && reply.Executed? && old(avatar.BalanceOf(asset)) + minReceived <= reply.sharesAfter
      ensures r.Err? ==>
                && Treasury.WithdrawFromAave(old(treasury.Book()), AccessNow(), pool, asset, amount, minReceived, reply)
                   == Err(r.error)
                && avatar.shares == old(avatar.shares)
      ensures r.Ok? ==> OnlyMoved(old(avatar.shares), avatar.shares, asset, old(avatar.BalanceOf(asset)) + r.value)
      ensures WorldNow(treasury) == Step(old(WorldNow(treasury)), AaveWithdraw(pool, asset, amount, minReceived, reply))
    {
      if amount == 0 { return Err(ZeroAmount); }
      if pool !in isAllowlistedVault { return Err(VaultNotAllowlisted); }
      var before := avatar.BalanceOf(asset);
      if reply.Rejected? { return Err(ExecutionFailed); }
      if reply.sharesAfter < before { return Err(ArithmeticPanic); }
      var withdrawn := reply.sharesAfter - before;
      if withdrawn < minReceived { return Err(SlippageExceeded); }
      avatar.shares := avatar.shares[asset := reply.sharesAfter];
      return Ok(withdrawn);
    }
  }
}
