/** The on-chain registry: per tenant an array of user Safes with swap-and-pop removal and a reverse index. */
module TenantRegistry {
  import opened Wrappers
  import opened Addresses

  datatype Error =
    | InvalidTenantId | InvalidAddress | TenantAlreadyRegistered | TenantNotRegistered | TenantNotActive
    | UserAlreadyRegistered | UserNotRegistered | Panic

  /** Everything stored under one tenant id. */
  datatype Tenant = Tenant(
    tenantSafe: Address,
    userCount: nat,
    active: bool,
    users: seq<Address>,           // _tenantUsers
    members: set<Address>,         // _isUser
    index: map<Address, nat>       // _userIndex
  )

  const BLANK: Tenant := Tenant(Zero, 0, false, [], {}, map[])

  datatype Registry = Registry(tenants: map<TenantId, Tenant>, safeToTenant: map<Address, TenantId>)

  const EMPTY: Registry := Registry(map[], map[])

  function At(r: Registry, tenantId: TenantId): Tenant {
    if tenantId in r.tenants then r.tenants[tenantId] else BLANK
  }

  function Lookup(r: Registry, safe: Address): TenantId {
    if safe in r.safeToTenant then r.safeToTenant[safe] else 0
  }

  function IndexOf(t: Tenant, safe: Address): nat {
    if safe in t.index then t.index[safe] else 0
  }

  // ---------- One tenant ----------

  function Join(t: Tenant, safe: Address): Tenant {
    t.(members := t.members + {safe}, index := t.index[safe := |t.users|], users := t.users + [safe],
       userCount := t.userCount + 1)
  }

  /** The array with its last element moved into slot `i`. */
  function SwapAndPop(users: seq<Address>, i: nat): seq<Address>
    requires i < |users|
  {
    users[i := users[|users| - 1]][..|users| - 1]
  }

  function Leave(t: Tenant, safe: Address): Tenant
    requires IndexOf(t, safe) < |t.users| && t.userCount > 0
  {
    var i := IndexOf(t, safe);
    var last := t.users[|t.users| - 1];
    var moved := if i != |t.users| - 1 then t.index[last := i] else t.index;
    t.(users := SwapAndPop(t.users, i), index := moved - {safe}, members := t.members - {safe},
       userCount := t.userCount - 1)
  }

  /** Every array element is a member and knows its own slot. */
  ghost predicate SlotsOk(t: Tenant) {
    forall i | 0 <= i < |t.users| :: t.users[i] in t.members && t.users[i] in t.index && t.index[t.users[i]] == i
  }

  /** Every member is in the array, at its stored slot. */
  ghost predicate MembersOk(t: Tenant) {
    forall s | s in t.members :: s in t.index && t.index[s] < |t.users| && t.users[t.index[s]] == s
  }

  ghost predicate TenantOk(t: Tenant) {
    SlotsOk(t) && MembersOk(t) && t.userCount == |t.users|
  }

  /** What that means for the array: no duplicates, and membership is being in it. */
  lemma ArrayFacts(t: Tenant)
    requires TenantOk(t)
    ensures forall i, j | 0 <= i < j < |t.users| :: t.users[i] != t.users[j]
    ensures forall s :: s in t.members <==> s in t.users
    ensures |t.members| == t.userCount
  {
    forall s | s in t.members
      ensures s in t.users
    {
      assert t.users[t.index[s]] == s;
    }
    DistinctCount(t.users);
    assert t.members == set s | s in t.users;
  }

  lemma {:induction false} DistinctCount(users: seq<Address>)
    requires forall i, j | 0 <= i < j < |users| :: users[i] != users[j]
    ensures |set s | s in users| == |users|
  {
    if users != [] {
      var front := users[..|users| - 1];
      DistinctCount(front);
      assert (set s | s in users) == (set s | s in front) + {users[|users| - 1]};
    }
  }

  lemma JoinKeepsTenant(t: Tenant, safe: Address)
    requires TenantOk(t) && safe !in t.members
    ensures TenantOk(Join(t, safe))
  {
  }

  lemma LeaveKeepsTenant(t: Tenant, safe: Address)
    requires TenantOk(t) && safe in t.members
    ensures IndexOf(t, safe) < |t.users| && t.userCount > 0
    ensures TenantOk(Leave(t, safe))
  {
    var t' := Leave(t, safe);
    var n := |t.users| - 1;
    forall i | 0 <= i < |t'.users|
      ensures t'.users[i] in t'.members && t'.users[i] in t'.index && t'.index[t'.users[i]] == i
    {
      assert t.users[n] in t.members;
    }
  }

  // ---------- The registry ----------

  function Put(r: Registry, tenantId: TenantId, t: Tenant): Registry {
    r.(tenants := r.tenants[tenantId := t])
  }

  function RegisterTenant(r: Registry, tenantId: TenantId, tenantSafe: Address): Result<Registry, Error> {
    if tenantId == 0 then Err(InvalidTenantId)
    else if tenantSafe == Zero then Err(InvalidAddress)
    else if At(r, tenantId).tenantSafe != Zero then Err(TenantAlreadyRegistered)
    else Ok(Put(r, tenantId, At(r, tenantId).(tenantSafe := tenantSafe, userCount := 0, active := true)))
  }

  function SetActive(r: Registry, tenantId: TenantId, active: bool): Result<Registry, Error> {
    if At(r, tenantId).tenantSafe == Zero then Err(TenantNotRegistered)
    else Ok(Put(r, tenantId, At(r, tenantId).(active := active)))
  }

  function RegisterUser(r: Registry, tenantId: TenantId, safe: Address): Result<Registry, Error> {
    if safe == Zero then Err(InvalidAddress)
    else if At(r, tenantId).tenantSafe == Zero then Err(TenantNotRegistered)
    else if !At(r, tenantId).active then Err(TenantNotActive)
    else if safe in At(r, tenantId).members then Err(UserAlreadyRegistered)
    else Ok(Put(r, tenantId, Join(At(r, tenantId), safe)).(safeToTenant := r.safeToTenant[safe := tenantId]))
  }

  function RemoveUser(r: Registry, tenantId: TenantId, safe: Address): Result<Registry, Error> {
    var t := At(r, tenantId);
    if safe !in t.members then Err(UserNotRegistered)
    else if IndexOf(t, safe) >= |t.users| || t.userCount == 0 then Err(Panic)
    else Ok(Put(r, tenantId, Leave(t, safe)).(safeToTenant := r.safeToTenant - {safe}))
  }

  /** A tenant that was never registered is blank. */
  ghost predicate RecordOk(tenantId: TenantId, t: Tenant) {
    && TenantOk(t)
    && (t.tenantSafe == Zero ==> t.users == [])
    && (tenantId == 0 ==> t.tenantSafe == Zero)
  }

  ghost predicate RecordsOk(r: Registry) {
    forall id | id in r.tenants :: RecordOk(id, r.tenants[id])
  }

  /** A non-zero reverse lookup names a tenant that contains the Safe. */
  ghost predicate LookupsOk(r: Registry) {
    forall s | s in r.safeToTenant :: Lookup(r, s) != 0 ==> s in At(r, Lookup(r, s)).members
  }

  ghost predicate Inv(r: Registry) {
    RecordsOk(r) && LookupsOk(r)
  }

  lemma RecordAt(r: Registry, tenantId: TenantId)
    requires RecordsOk(r)
    ensures RecordOk(tenantId, At(r, tenantId))
  {
  }

  lemma EmptyMembers(t: Tenant)
    requires TenantOk(t) && t.users == []
    ensures t.members == {}
  {
  }

  datatype Op =
    | AddTenant(tenantId: TenantId, tenantSafe: Address)
    | Activate(tenantId: TenantId, active: bool)
    | AddUser(tenantId: TenantId, safe: Address)
    | DropUser(tenantId: TenantId, safe: Address)

  function Apply(r: Registry, op: Op): Result<Registry, Error> {
    match op
    case AddTenant(id, tenantSafe) => RegisterTenant(r, id, tenantSafe)
    case Activate(id, active) => SetActive(r, id, active)
    case AddUser(id, safe) => RegisterUser(r, id, safe)
    case DropUser(id, safe) => RemoveUser(r, id, safe)
  }

  function Step(r: Registry, op: Op): Registry {
    match Apply(r, op)
    case Ok(r') => r'
    case Err(_) => r
  }

  function Run(r: Registry, ops: seq<Op>): Registry {
    if ops == [] then r else Step(Run(r, ops[..|ops| - 1]), ops[|ops| - 1])
  }

  lemma RegisterUserKeepsInv(r: Registry, id: TenantId, safe: Address)
    requires Inv(r) && RegisterUser(r, id, safe).Ok?
    ensures Inv(RegisterUser(r, id, safe).value)
  {
    RecordAt(r, id);
    JoinKeepsTenant(At(r, id), safe);
  }

  lemma RemoveUserKeepsInv(r: Registry, id: TenantId, safe: Address)
    requires Inv(r) && RemoveUser(r, id, safe).Ok?
    ensures Inv(RemoveUser(r, id, safe).value)
  {
    RecordAt(r, id);
    LeaveKeepsTenant(At(r, id), safe);
    var r' := RemoveUser(r, id, safe).value;
    assert r'.tenants[id].users == [] || At(r, id).tenantSafe != Zero;
  }

  lemma StepKeepsInv(r: Registry, op: Op)
    requires Inv(r)
    ensures Inv(Step(r, op))
  {
    if Apply(r, op).Ok? {
      match op
      case AddTenant(id, _) => RecordAt(r, id);
      case Activate(id, _) => RecordAt(r, id);
      case AddUser(id, safe) => RegisterUserKeepsInv(r, id, safe);
      case DropUser(id, safe) => RemoveUserKeepsInv(r, id, safe);
    }
  }

  lemma {:induction false} InvAlways(ops: seq<Op>)
    ensures Inv(Run(EMPTY, ops))
  {
    if ops != [] {
      InvAlways(ops[..|ops| - 1]);
      StepKeepsInv(Run(EMPTY, ops[..|ops| - 1]), ops[|ops| - 1]);
    }
  }

  /**
   * After any run: no tenant's array has duplicates, membership is being in the array, the stored index of a member
   * points at it, the count is the array's length, and a non-zero reverse lookup names a tenant that has the Safe.
   */
  lemma EveryRunConsistent(ops: seq<Op>, tenantId: TenantId, safe: Address)
    ensures var r := Run(EMPTY, ops);
            var t := At(r, tenantId);
            && (forall i, j | 0 <= i < j < |t.users| :: t.users[i] != t.users[j])
            && (safe in t.members <==> safe in t.users)
            && (safe in t.members ==> IndexOf(t, safe) < |t.users| && t.users[IndexOf(t, safe)] == safe)
            && t.userCount == |t.users|
            && (Lookup(r, safe) != 0 ==> safe in At(r, Lookup(r, safe)).members)
            && (safe in t.members <==> RemoveUser(r, tenantId, safe).Ok?)
  {
    InvAlways(ops);
    RecordAt(Run(EMPTY, ops), tenantId);
    ArrayFacts(At(Run(EMPTY, ops), tenantId));
  }

  /** Removing a user takes just that user out of the array. */
  lemma RemovalTakesOne(t: Tenant, safe: Address)
    requires TenantOk(t) && safe in t.members
    ensures IndexOf(t, safe) < |t.users| && t.userCount > 0
    ensures multiset(Leave(t, safe).users) == multiset(t.users) - multiset{safe}
    ensures safe !in Leave(t, safe).users
  {
    LeaveKeepsTenant(t, safe);
    var i, n := IndexOf(t, safe), |t.users| - 1;
    var front := t.users[..n];
    assert t.users == front + [t.users[n]];
    if i < n {
      assert SwapAndPop(t.users, i) == front[i := t.users[n]];
      assert front[i] == safe;
    } else {
      assert SwapAndPop(t.users, i) == front;
    }
    ArrayFacts(Leave(t, safe));
  }

  /** Tenants that are registered. */
  predicate Registered(r: Registry, id: TenantId) {
    At(r, id).tenantSafe != Zero
  }

  // ---------- When the reverse lookup is exact ----------

  /** A Safe is a member of exactly the tenant it maps to. */
  ghost predicate Exact(r: Registry) {
    forall id: TenantId, s: Address | id != 0 :: s in At(r, id).members <==> Lookup(r, s) == id
  }

  /**
   * Registering keeps the lookup exact exactly when the Safe mapped to no tenant: registered under a second one it
   * stays a member of both but maps to the second only.
   */
  lemma RegisteringKeepsExact(r: Registry, id: TenantId, safe: Address)
    requires Inv(r) && Exact(r) && RegisterUser(r, id, safe).Ok?
    ensures Exact(RegisterUser(r, id, safe).value) <==> Lookup(r, safe) == 0
  {
    var r' := RegisterUser(r, id, safe).value;
    RecordAt(r, id);
    var previous := Lookup(r, safe);
    if previous != 0 {
      assert safe in At(r, previous).members;
      assert safe in At(r', previous).members && Lookup(r', safe) == id;
      assert previous != id;
    } else {
      forall other: TenantId, s: Address | other != 0
        ensures s in At(r', other).members <==> Lookup(r', s) == other
      {
        assert s in At(r, other).members <==> Lookup(r, s) == other;
      }
    }
  }

  lemma RemovingKeepsExact(r: Registry, id: TenantId, safe: Address)
    requires Inv(r) && Exact(r) && RemoveUser(r, id, safe).Ok?
    ensures Exact(RemoveUser(r, id, safe).value)
  {
    var r' := RemoveUser(r, id, safe).value;
    RecordAt(r, id);
    EmptyWhenZero(r, id);
    forall other: TenantId, s: Address | other != 0
      ensures s in At(r', other).members <==> Lookup(r', s) == other
    {
      assert s in At(r, other).members <==> Lookup(r, s) == other;
      assert safe in At(r, id).members <==> Lookup(r, safe) == id;
    }
  }

  lemma EmptyWhenZero(r: Registry, id: TenantId)
    requires RecordsOk(r)
    ensures id == 0 ==> At(r, id).members == {}
  {
    RecordAt(r, id);
    if id == 0 {
      EmptyMembers(At(r, id));
    }
  }

  lemma OtherOpKeepsExact(r: Registry, op: Op)
    requires Inv(r) && Exact(r) && (op.AddTenant? || op.Activate?)
    ensures Exact(Step(r, op))
  {
    var r' := Step(r, op);
    forall id: TenantId, s: Address | id != 0
      ensures s in At(r', id).members <==> Lookup(r', s) == id
    {
      assert s in At(r, id).members <==> Lookup(r, s) == id;
    }
  }

  /** If the operation registers a user, the Safe maps to no tenant yet. */
  predicate RegistersUnmapped(r: Registry, op: Op) {
    op.AddUser? && Apply(r, op).Ok? ==> Lookup(r, op.safe) == 0
  }

  lemma StepKeepsExact(r: Registry, op: Op)
    requires Inv(r) && Exact(r)
    ensures Exact(Step(r, op)) <==> RegistersUnmapped(r, op)
  {
    if Apply(r, op).Ok? {
      match op
      case AddUser(id, safe) => RegisteringKeepsExact(r, id, safe);
      case DropUser(id, safe) => RemovingKeepsExact(r, id, safe);
      case _ => OtherOpKeepsExact(r, op);
    }
  }

  predicate AllRegisterUnmapped(ops: seq<Op>) {
    ops == [] ||
    var front := ops[..|ops| - 1];
    AllRegisterUnmapped(front) && RegistersUnmapped(Run(EMPTY, front), ops[|ops| - 1])
  }

  ghost predicate ExactAfter(ops: seq<Op>, k: nat)
    requires k <= |ops|
  {
    Exact(Run(EMPTY, ops[..k]))
  }

  ghost predicate ExactThroughout(ops: seq<Op>) {
    forall k | 0 <= k <= |ops| :: ExactAfter(ops, k)
  }

  lemma ThroughoutSplit(ops: seq<Op>)
    requires ops != []
    ensures ExactThroughout(ops) <==> ExactThroughout(ops[..|ops| - 1]) && ExactAfter(ops, |ops|)
  {
    var front := ops[..|ops| - 1];
    forall k | 0 <= k < |ops|
      ensures ExactAfter(front, k) <==> ExactAfter(ops, k)
    {
      assert front[..k] == ops[..k];
    }
  }

  lemma AfterAll(ops: seq<Op>)
    ensures ExactAfter(ops, |ops|) <==> Exact(Run(EMPTY, ops))
  {
    assert ops[..|ops|] == ops;
  }

  /** The reverse lookup is exact throughout a run if and only if every user it registers mapped to no tenant. */
  lemma {:induction false} ExactThroughoutExactly(ops: seq<Op>)
    ensures ExactThroughout(ops) <==> AllRegisterUnmapped(ops)
  {
    AfterAll(ops);
    if ops != [] {
      var front := ops[..|ops| - 1];
      ExactThroughoutExactly(front);
      ThroughoutSplit(ops);
      AfterAll(front);
      if Exact(Run(EMPTY, front)) {
        InvAlways(front);
        StepKeepsExact(Run(EMPTY, front), ops[|ops| - 1]);
      }
    }
  }

  /** A Safe registered under a second tenant is a user of both, and maps to the second. */
  lemma RegisteredTwice(r: Registry, first: TenantId, second: TenantId, safe: Address)
    requires Inv(r) && first != second && RegisterUser(r, first, safe).Ok?
    requires Registered(r, second) && At(r, second).active && safe !in At(r, second).members
    ensures var r' := Run(r, [AddUser(first, safe), AddUser(second, safe)]);
            && safe in At(r', first).members && safe in At(r', second).members
            && Lookup(r', safe) == second && (first != 0 ==> !Exact(r'))
  {
    var r1 := RegisterUser(r, first, safe).value;
    RegisterUserKeepsInv(r, first, safe);
    RunTwo(r, AddUser(first, safe), AddUser(second, safe));
    assert RegisterUser(r1, second, safe).Ok?;
  }

  lemma RunTwo(r: Registry, a: Op, b: Op)
    ensures Run(r, [a, b]) == Step(Step(r, a), b)
  {
    assert [a, b][..1] == [a] && [a][..0] == [];
    assert Run(r, [a]) == Step(r, a);
  }

  /** A run from the empty registry that does so. */
  lemma LookupNotExact(tenantSafe: Address, safe: Address)
    requires tenantSafe != Zero && safe != Zero
    ensures exists ops :: !Exact(Run(EMPTY, ops))
  {
    var setup := [AddTenant(1, tenantSafe), AddTenant(2, tenantSafe)];
    InvAlways(setup);
    RunTwo(EMPTY, AddTenant(1, tenantSafe), AddTenant(2, tenantSafe));
    RegisteredTwice(Run(EMPTY, setup), 1, 2, safe);
    RunAppend(EMPTY, setup, [AddUser(1, safe), AddUser(2, safe)]);
  }

  lemma {:induction false} RunAppend(r: Registry, first: seq<Op>, second: seq<Op>)
    ensures Run(r, first + second) == Run(Run(r, first), second)
  {
    if second == [] {
      assert first + second == first;
    } else {
      RunAppend(r, first, second[..|second| - 1]);
      assert (first + second)[..|first + second| - 1] == first + second[..|second| - 1];
    }
  }

  // ---------- Pages ----------

  function Page(users: seq<Address>, offset: nat, limit: nat): seq<Address> {
    if offset >= |users| || limit == 0 then []
    else if |users| - offset < limit then users[offset..]
    else users[offset..offset + limit]
  }

  /** Pages at offsets `offset`, `offset + limit`, ... up to the reported total, put together. */
  function Pages(users: seq<Address>, offset: nat, limit: nat): seq<Address>
    requires limit > 0
    decreases if offset < |users| then |users| - offset else 0
  {
    if offset >= |users| then [] else Page(users, offset, limit) + Pages(users, offset + limit, limit)
  }

  lemma {:induction false} PagesFrom(users: seq<Address>, offset: nat, limit: nat)
    requires limit > 0 && offset <= |users|
    ensures Pages(users, offset, limit) == users[offset..]
    decreases |users| - offset
  {
    if offset + limit <= |users| {
      PagesFrom(users, offset + limit, limit);
      assert users[offset..] == users[offset..offset + limit] + users[offset + limit..];
    }
  }

  /** Whatever the page size, the pages tile the array: every user once and in order. */
  lemma PagesTile(users: seq<Address>, limit: nat)
    requires limit > 0
    ensures Pages(users, 0, limit) == users
  {
    PagesFrom(users, 0, limit);
  }

  // ---------- What the calls mean ----------

  lemma MemberIsUser(t: Tenant, safe: Address)
    requires TenantOk(t)
    ensures safe in t.members <==> safe in t.users
  {
    ArrayFacts(t);
  }

  /** Every other tenant keeps its record. */
  ghost predicate OthersKept(r: Registry, r': Registry, id: TenantId) {
    forall other: TenantId | other != id :: At(r', other) == At(r, other)
  }

  /** Every other Safe keeps its reverse lookup. */
  ghost predicate OtherLookupsKept(r: Registry, r': Registry, safe: Address) {
    forall s: Address | s != safe :: Lookup(r', s) == Lookup(r, s)
  }

  /** A tenant registers once, and starts active and without users. */
  lemma TenantRegistrationMeans(r: Registry, id: TenantId, tenantSafe: Address)
    requires Inv(r)
    ensures RegisterTenant(r, id, tenantSafe).Ok? <==> id != 0 && tenantSafe != Zero && !Registered(r, id)
    ensures RegisterTenant(r, id, tenantSafe).Ok? ==>
              var r' := RegisterTenant(r, id, tenantSafe).value;
              && Inv(r') && At(r', id).tenantSafe == tenantSafe && At(r', id).active && At(r', id).users == []
              && OthersKept(r, r', id) && r'.safeToTenant == r.safeToTenant
  {
    RecordAt(r, id);
    StepKeepsInv(r, AddTenant(id, tenantSafe));
  }

  /** Only a registered tenant is switched, and nothing about it but the switch changes. */
  lemma ActivationMeans(r: Registry, id: TenantId, active: bool)
    ensures SetActive(r, id, active).Ok? <==> Registered(r, id)
    ensures SetActive(r, id, active).Ok? ==>
              var r' := SetActive(r, id, active).value;
              && At(r', id) == At(r, id).(active := active)
              && OthersKept(r, r', id) && r'.safeToTenant == r.safeToTenant
  {
  }

  /** A Safe joins the end of an active tenant's array exactly if it is not in it, and then maps to the tenant. */
  lemma UserRegistrationMeans(r: Registry, id: TenantId, safe: Address)
    requires Inv(r)
    ensures RegisterUser(r, id, safe).Ok?
            <==> safe != Zero && Registered(r, id) && At(r, id).active && safe !in At(r, id).users
    ensures RegisterUser(r, id, safe).Ok? ==>
              var r' := RegisterUser(r, id, safe).value;
              && Inv(r') && At(r', id).users == At(r, id).users + [safe] && Lookup(r', safe) == id
              && OthersKept(r, r', id) && OtherLookupsKept(r, r', safe)
  {
    RecordAt(r, id);
    MemberIsUser(At(r, id), safe);
    if RegisterUser(r, id, safe).Ok? {
      RegisterUserKeepsInv(r, id, safe);
    }
  }

  /** A Safe leaves a tenant's array exactly if it is in it, whatever the tenant's state, and then maps to no tenant. */
  lemma RemovalMeans(r: Registry, id: TenantId, safe: Address)
    requires Inv(r)
    ensures RemoveUser(r, id, safe).Ok? <==> safe in At(r, id).users
    ensures RemoveUser(r, id, safe).Ok? ==>
              var r' := RemoveUser(r, id, safe).value;
              && Inv(r') && Lookup(r', safe) == 0 && safe !in At(r', id).users
              && multiset(At(r', id).users) == multiset(At(r, id).users) - multiset{safe}
              && OthersKept(r, r', id) && OtherLookupsKept(r, r', safe)
  {
    RecordAt(r, id);
    MemberIsUser(At(r, id), safe);
    if safe in At(r, id).members {
      RemovalTakesOne(At(r, id), safe);
      RemoveUserKeepsInv(r, id, safe);
    }
  }

  /** Which error a call gives that does not go through. */
  lemma RegistryErrors(r: Registry, id: TenantId, safe: Address)
    requires Inv(r)
    ensures var e := RegisterTenant(r, id, safe);
            && (e == Err(InvalidTenantId) <==> id == 0)
            && (e == Err(InvalidAddress) <==> id != 0 && safe == Zero)
            && (e == Err(TenantAlreadyRegistered) <==> id != 0 && safe != Zero && Registered(r, id))
    ensures var e := RegisterUser(r, id, safe);
            && (e == Err(InvalidAddress) <==> safe == Zero)
            && (e == Err(TenantNotRegistered) <==> safe != Zero && !Registered(r, id))
            && (e == Err(TenantNotActive) <==> safe != Zero && Registered(r, id) && !At(r, id).active)
            && (e == Err(UserAlreadyRegistered)
                <==> safe != Zero && Registered(r, id) && At(r, id).active && safe in At(r, id).users)
    ensures RemoveUser(r, id, safe) == Err(UserNotRegistered) <==> safe !in At(r, id).users
  {
    RecordAt(r, id);
    MemberIsUser(At(r, id), safe);
  }

  // ---------- The contract ----------

  class TenantRegistryContract {
    var tenants: map<TenantId, Tenant>
    var safeToTenant: map<Address, TenantId>

    constructor ()
      ensures State() == EMPTY && Valid()
    {
      tenants := map[];
      safeToTenant := map[];
    }

    function State(): Registry
      reads this
    {
      Registry(tenants, safeToTenant)
    }

    function Users(tenantId: TenantId): seq<Address>
      reads this
    {
      At(State(), tenantId).users
    }

    /** Arrays, memberships, indices, counts and reverse lookups agree. */
    ghost predicate Valid()
      reads this
    {
      Inv(State())
    }

    method RegisterTenantCall(tenantId: TenantId, tenantSafe: Address) returns (error: Option<Error>)
      requires Valid()
      modifies this
      ensures Valid() && State() == Step(old(State()), AddTenant(tenantId, tenantSafe))
      ensures error == None <==> tenantId != 0 && tenantSafe != Zero && !Registered(old(State()), tenantId)
      ensures error == None ==>
                && At(State(), tenantId).tenantSafe == tenantSafe && At(State(), tenantId).active
                && Users(tenantId) == []
                && OthersKept(old(State()), State(), tenantId) && safeToTenant == old(safeToTenant)
      ensures error.Some? ==>
                RegisterTenant(old(State()), tenantId, tenantSafe) == Err(error.value) && State() == old(State())
    {
      TenantRegistrationMeans(State(), tenantId, tenantSafe);
      if tenantId == 0 { return Some(InvalidTenantId); }
      if tenantSafe == Zero { return Some(InvalidAddress); }
      var t := At(State(), tenantId);
      if t.tenantSafe != Zero { return Some(TenantAlreadyRegistered); }
      tenants := tenants[tenantId := t.(tenantSafe := tenantSafe, userCount := 0, active := true)];
      return None;
    }

    method RegisterUserCall(tenantId: TenantId, m2Safe: Address) returns (error: Option<Error>)
      requires Valid()
      modifies this
      ensures Valid() && State() == Step(old(State()), AddUser(tenantId, m2Safe))
      ensures error == None <==>
                && m2Safe != Zero && Registered(old(State()), tenantId) && At(old(State()), tenantId).active
                && m2Safe !in old(Users(tenantId))
      ensures error == None ==>
                && Users(tenantId) == old(Users(tenantId)) + [m2Safe] && Lookup(State(), m2Safe) == tenantId
                && OthersKept(old(State()), State(), tenantId) && OtherLookupsKept(old(State()), State(), m2Safe)
      ensures error.Some? ==>
                RegisterUser(old(State()), tenantId, m2Safe) == Err(error.value) && State() == old(State())
    {
      UserRegistrationMeans(State(), tenantId, m2Safe);
      if m2Safe == Zero { return Some(InvalidAddress); }
      var t := At(State(), tenantId);
      if t.tenantSafe == Zero { return Some(TenantNotRegistered); }
      if !t.active { return Some(TenantNotActive); }
      if m2Safe in t.members { return Some(UserAlreadyRegistered); }
      t := t.(members := t.members + {m2Safe});
      safeToTenant := safeToTenant[m2Safe := tenantId];
      t := t.(index := t.index[m2Safe := |t.users|]);
      t := t.(users := t.users + [m2Safe]);
      t := t.(userCount := t.userCount + 1);
      tenants := tenants[tenantId := t];
      return None;
    }

    method RemoveUserCall(tenantId: TenantId, m2Safe: Address) returns (error: Option<Error>)
      requires Valid()
      modifies this
      ensures Valid() && State() == Step(old(State()), DropUser(tenantId, m2Safe))
      ensures error == None <==> m2Safe in old(Users(tenantId))
      ensures error == None ==>
                && multiset(Users(tenantId)) == multiset(old(Users(tenantId))) - multiset{m2Safe}
                && m2Safe !in Users(tenantId) && Lookup(State(), m2Safe) == 0
                && OthersKept(old(State()), State(), tenantId) && OtherLookupsKept(old(State()), State(), m2Safe)
      ensures error.Some? ==> error == Some(UserNotRegistered) && State() == old(State())
    {
      RemovalMeans(State(), tenantId, m2Safe);
      var t := At(State(), tenantId);
      if m2Safe !in t.members { return Some(UserNotRegistered); }
      var left := RemoveFrom(t, m2Safe, tenantId);
      tenants := tenants[tenantId := left];
      safeToTenant := safeToTenant - {m2Safe};
      return None;
    }

    /** The array, index and membership updates of a removal, in the contract's order; no index is out of range. */
    method RemoveFrom(t: Tenant, m2Safe: Address, ghost tenantId: TenantId) returns (left: Tenant)
      requires RecordOk(tenantId, t) && m2Safe in t.members
      ensures IndexOf(t, m2Safe) < |t.users| && t.userCount > 0 && left == Leave(t, m2Safe)
    {
      left := t;
      var index := t.index[m2Safe];
      var lastIndex := |t.users| - 1;
      if index != lastIndex {
        var lastUser := t.users[lastIndex];
        left := left.(users := left.users[index := lastUser], index := left.index[lastUser := index]);
      }
      left := left.(users := left.users[..lastIndex], index := left.index - {m2Safe});
      assert left.users == SwapAndPop(t.users, index);
      left := left.(members := left.members - {m2Safe}, userCount := left.userCount - 1);
    }

    method GetUsersForTenant(tenantId: TenantId, offset: nat, limit: nat)
      returns (users: array<Address>, total: nat)
      ensures total == |At(State(), tenantId).users|
      ensures users[..] == Page(At(State(), tenantId).users, offset, limit)
    {
      var all := At(State(), tenantId).users;
      total := |all|;
      if offset >= total || limit == 0 {
        users := new Address[0];
        return;
      }
      var remaining := total - offset;
      var returnSize := if remaining < limit then remaining else limit;
      users := new Address[returnSize](_ => Zero);
      for i := 0 to returnSize
        invariant users[..i] == all[offset..offset + i]
      {
        users[i] := all[offset + i];
        assert users[..i + 1] == users[..i] + [all[offset + i]];
      }
      assert users[..] == users[..returnSize];
    }
  }
}
