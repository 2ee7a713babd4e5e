/** The factory that deploys user Safes at predictable addresses and registers each of them with the registry. */
module SafeFactory {
  import opened Words
  import opened Wrappers
  import opened Addresses
  import TR = TenantRegistry

  datatype CustodyModel = ModelA | ModelB | Other   // 0, 1, anything above

  datatype Error =
    | InvalidTenantId | InvalidAddress | InvalidCustodyModel | RegistryNotSet | DeploymentFailed
    | ModuleSetupHelperNotSet | SafeSetupFailed | RegistryError(error: TR.Error)

  /** A deployed Safe and, from the event of its deployment, the signer it was deployed for. */
  datatype Deployed = Deployed(signer: Address, safe: Address)

  /** What the owner can set; the Safe implementation has no setter. */
  datatype Settings = Settings(
    owner: Address, settler: Address, issuerSafe: Address, usdc: Address,
    registrySet: bool, moduleSetupHelper: Address, rolesImplementation: Address, delayImplementation: Address)

  datatype Factory = Factory(
    self: Address,
    safeImplementation: Address,
    settings: Settings,
    deploymentNonce: map<TenantId, nat>,
    deployedSafes: map<TenantId, seq<Deployed>>)

  /** The chain as far as it matters: which accounts have code, the registry and the factory. */
  datatype World = World(code: set<Address>, registry: TR.Registry, factory: Factory)

  function NonceOf(f: Factory, tenant: TenantId): nat {
    if tenant in f.deploymentNonce then f.deploymentNonce[tenant] else 0
  }

  function SafesOf(f: Factory, tenant: TenantId): seq<Deployed> {
    if tenant in f.deployedSafes then f.deployedSafes[tenant] else []
  }

  /** `computeSafeAddress`: the prediction, made without looking at any state that changes. */
  function ComputeSafeAddress(self: Address, safeImplementation: Address, tenant: TenantId, signer: Address, nonce: nat)
    : Address
  {
    Create2(self, Keccak(tenant, signer, nonce), CloneOf(safeImplementation))
  }

  // ---------- Deployment ----------

  /** The contracts `_deployModuleContracts` creates beside a Safe. */
  function ModulesFor(f: Factory, safe: Address, salt: Salt): set<Address> {
    var s := f.settings;
    {Create2(f.self, salt, SettlerCode(safe, s.owner, s.settler, s.issuerSafe, s.usdc))}
    + (if s.rolesImplementation == Zero then {}
       else {Create2(f.self, KeccakWithSuffix(salt, "roles"), CloneOf(s.rolesImplementation))})
    + (if s.delayImplementation == Zero then {}
       else {Create2(f.self, KeccakWithSuffix(salt, "delay"), CloneOf(s.delayImplementation))})
  }

  function Created(f: Factory, model: CustodyModel, safe: Address, salt: Salt): set<Address> {
    {safe} + if model.ModelA? then ModulesFor(f, safe, salt) else {}
  }

  function Record(f: Factory, tenant: TenantId, d: Deployed): Factory {
    f.(deployedSafes := f.deployedSafes[tenant := SafesOf(f, tenant) + [d]],
       deploymentNonce := f.deploymentNonce[tenant := (NonceOf(f, tenant) + 1) % TWO_256])
  }

  /** `deploySafe`; `setupOk` is whether the new Safe's own setup succeeds. */
  function DeploySafe(w: World, tenant: TenantId, signer: Address, model: CustodyModel, setupOk: bool)
    : Result<World, Error>
  {
    var f := w.factory;
    var salt := Keccak(tenant, signer, NonceOf(f, tenant));
    var safe := Create2(f.self, salt, CloneOf(f.safeImplementation));
    if tenant == 0 then Err(InvalidTenantId)
    else if signer == Zero then Err(InvalidAddress)
    else if model.Other? then Err(InvalidCustodyModel)
    else if !f.settings.registrySet then Err(RegistryNotSet)
    else if safe in w.code then Err(DeploymentFailed)
    else if model.ModelA? && f.settings.moduleSetupHelper == Zero then Err(ModuleSetupHelperNotSet)
    else if model.ModelA? && ModulesFor(f, safe, salt) * w.code != {} then Err(DeploymentFailed)
    else if !setupOk then Err(SafeSetupFailed)
    else match TR.RegisterUser(w.registry, tenant, safe)
      case Err(e) => Err(RegistryError(e))
      case Ok(registry) =>
        Ok(World(w.code + Created(f, model, safe, salt), registry, Record(f, tenant, Deployed(signer, safe))))
  }

  // ---------- Runs ----------

  datatype Op =
    | Deploy(tenant: TenantId, signer: Address, model: CustodyModel, setupOk: bool)
    | Configure(settings: Settings)
    | Registry(op: TR.Op)             // anything the registry's owner does: tenants, removals
    | Elsewhere(account: Address)     // code appears at an address the factory did not create

  function Next(w: World, op: Op): World {
    match op
    case Deploy(tenant, signer, model, setupOk) =>
      (match DeploySafe(w, tenant, signer, model, setupOk)
       case Ok(w') => w'
       case Err(_) => w)
    case Configure(settings) => w.(factory := w.factory.(settings := settings))
    case Registry(rop) => if rop.AddUser? then w else w.(registry := TR.Step(w.registry, rop))
    case Elsewhere(account) =>
      if account.Create2? && account.deployer == w.factory.self then w else w.(code := w.code + {account})
  }

  /** What the other operations change: the settings, the registry without its users' entry, and foreign accounts. */
  lemma OtherOperations(w: World, settings: Settings, rop: TR.Op, account: Address)
    ensures var f := Next(w, Configure(settings)).factory;
            && f.settings == settings && f.self == w.factory.self
            && f.deploymentNonce == w.factory.deploymentNonce && f.deployedSafes == w.factory.deployedSafes
    ensures Next(w, Registry(rop)).registry == if rop.AddUser? then w.registry else TR.Step(w.registry, rop)
    ensures Next(w, Registry(rop)).factory == w.factory && Next(w, Registry(rop)).code == w.code
    ensures var ours := account.Create2? && account.deployer == w.factory.self;
            Next(w, Elsewhere(account)).code == if ours then w.code else w.code + {account}
  {
  }

  function Run(w: World, ops: seq<Op>): World {
    if ops == [] then w else Next(Run(w, ops[..|ops| - 1]), ops[|ops| - 1])
  }

  /** A new factory: no code of its own making anywhere, nothing registered. */
  function Genesis(self: Address, safeImplementation: Address, settings: Settings): World {
    World({}, TR.EMPTY, Factory(self, safeImplementation, settings, map[], map[]))
  }

  // ---------- What every step keeps ----------

  /** The salt of the deployment an address belongs to. */
  function Base(salt: Salt): (base: Salt)
    ensures base.Keccak?
  {
    if salt.KeccakWithSuffix? then Base(salt.base) else salt
  }

  function TenantOf(salt: Salt): TenantId {
    Base(salt).tenant
  }

  /** While no nonce has wrapped: what the factory created for a tenant came from a nonce already used. */
  ghost predicate SaltUsed(f: Factory, salt: Salt) {
    |SafesOf(f, TenantOf(salt))| < TWO_256 ==> Base(salt).nonce < |SafesOf(f, TenantOf(salt))|
  }

  ghost predicate CodeOk(w: World) {
    forall a | a in w.code :: a.Create2? && a.deployer == w.factory.self ==> SaltUsed(w.factory, a.salt)
  }

  /** The n-th Safe of a tenant is where it was predicted to be, and has code; no Safe appears twice. */
  ghost predicate ListOk(w: World, tenant: TenantId, list: seq<Deployed>)
    decreases |list|
  {
    list == [] ||
    var front, last := list[..|list| - 1], list[|list| - 1];
    && ListOk(w, tenant, front)
    && last.safe == ComputeSafeAddress(w.factory.self, w.factory.safeImplementation, tenant, last.signer,
                                       |front| % TWO_256)
    && last.safe in w.code
    && (forall i | 0 <= i < |front| :: front[i].safe != last.safe)
  }

  ghost predicate TenantOk(w: World, tenant: TenantId) {
    && ListOk(w, tenant, SafesOf(w.factory, tenant))
    && NonceOf(w.factory, tenant) == |SafesOf(w.factory, tenant)| % TWO_256
  }

  predicate IsDeployed(list: seq<Deployed>, safe: Address) {
    exists i | 0 <= i < |list| :: list[i].safe == safe
  }

  /** Every registered user is a Safe this factory deployed for that tenant. */
  ghost predicate MembersDeployed(w: World) {
    forall t: TenantId, s: Address :: s in TR.At(w.registry, t).members ==> IsDeployed(SafesOf(w.factory, t), s)
  }

  ghost predicate Inv(w: World) {
    && CodeOk(w)
    && (forall t: TenantId :: TenantOk(w, t))
    && MembersDeployed(w)
    && TR.Inv(w.registry) && TR.Exact(w.registry)
  }

  lemma {:induction false} ListMember(w: World, tenant: TenantId, list: seq<Deployed>, i: nat)
    requires ListOk(w, tenant, list) && i < |list|
    ensures list[i].safe == ComputeSafeAddress(w.factory.self, w.factory.safeImplementation, tenant, list[i].signer,
                                               i % TWO_256)
    ensures list[i].safe in w.code
  {
    var front := list[..|list| - 1];
    if i < |front| {
      ListMember(w, tenant, front, i);
    }
  }

  /** More code changes nothing about the lists. */
  lemma {:induction false} ListGrows(w: World, w': World, tenant: TenantId, list: seq<Deployed>)
    requires ListOk(w, tenant, list) && w.code <= w'.code
    requires w'.factory.self == w.factory.self && w'.factory.safeImplementation == w.factory.safeImplementation
    ensures ListOk(w', tenant, list)
    decreases |list|
  {
    if list != [] {
      ListGrows(w, w', tenant, list[..|list| - 1]);
    }
  }

  /** An address without code is no deployed Safe, so it maps to no tenant. */
  lemma NewSafeIsUnknown(w: World, safe: Address)
    requires Inv(w) && safe !in w.code
    ensures TR.Lookup(w.registry, safe) == 0
    ensures forall t: TenantId :: !IsDeployed(SafesOf(w.factory, t), safe)
  {
    forall t: TenantId
      ensures !IsDeployed(SafesOf(w.factory, t), safe)
    {
      assert TenantOk(w, t);
      forall i | 0 <= i < |SafesOf(w.factory, t)|
        ensures SafesOf(w.factory, t)[i].safe != safe
      {
        ListMember(w, t, SafesOf(w.factory, t), i);
      }
    }
    var t := TR.Lookup(w.registry, safe);
    assert t != 0 ==> safe in TR.At(w.registry, t).members;
    assert safe in TR.At(w.registry, t).members ==> IsDeployed(SafesOf(w.factory, t), safe);
  }

  /** The Safe the next deployment for a tenant and signer creates. */
  function NextSafe(w: World, tenant: TenantId, signer: Address): Address {
    ComputeSafeAddress(w.factory.self, w.factory.safeImplementation, tenant, signer, NonceOf(w.factory, tenant))
  }

  /** What a deployment changes, with the rest of the transaction out of sight. */
  lemma DeployEffect(w: World, tenant: TenantId, signer: Address, model: CustodyModel)
    requires DeploySafe(w, tenant, signer, model, true).Ok?
    ensures var w' := DeploySafe(w, tenant, signer, model, true).value;
            var d := Deployed(signer, NextSafe(w, tenant, signer));
            w.code + {d.safe} <= w'.code && w'.factory == Record(w.factory, tenant, d)
  {
  }

  /** A nonce kept modulo a word stays the number of Safes. */
  lemma RecordCounts(f: Factory, tenant: TenantId, d: Deployed)
    requires NonceOf(f, tenant) == |SafesOf(f, tenant)| % TWO_256
    ensures NonceOf(Record(f, tenant, d), tenant) == |SafesOf(f, tenant) + [d]| % TWO_256
  {
    WrapStep(|SafesOf(f, tenant)|);
  }

  lemma RecordKeepsOwn(w: World, w': World, tenant: TenantId, d: Deployed)
    requires TenantOk(w, tenant) && !IsDeployed(SafesOf(w.factory, tenant), d.safe)
    requires w.code + {d.safe} <= w'.code && w'.factory == Record(w.factory, tenant, d)
    requires d.safe == NextSafe(w, tenant, d.signer)
    ensures TenantOk(w', tenant)
  {
    var list := SafesOf(w.factory, tenant);
    ListGrows(w, w', tenant, list);
    ListExtends(w', tenant, list, d);
    RecordCounts(w.factory, tenant, d);
  }

  lemma DeployKeepsOwn(w: World, tenant: TenantId, signer: Address, model: CustodyModel)
    requires TenantOk(w, tenant) && DeploySafe(w, tenant, signer, model, true).Ok?
    requires !IsDeployed(SafesOf(w.factory, tenant), NextSafe(w, tenant, signer))
    ensures TenantOk(DeploySafe(w, tenant, signer, model, true).value, tenant)
  {
    DeployEffect(w, tenant, signer, model);
    RecordKeepsOwn(w, DeploySafe(w, tenant, signer, model, true).value, tenant,
                   Deployed(signer, NextSafe(w, tenant, signer)));
  }

  lemma DeployKeepsOther(w: World, tenant: TenantId, signer: Address, model: CustodyModel, t: TenantId)
    requires TenantOk(w, t) && DeploySafe(w, tenant, signer, model, true).Ok? && t != tenant
    ensures TenantOk(DeploySafe(w, tenant, signer, model, true).value, t)
  {
    ListGrows(w, DeploySafe(w, tenant, signer, model, true).value, t, SafesOf(w.factory, t));
  }

  lemma ListExtends(w: World, tenant: TenantId, list: seq<Deployed>, d: Deployed)
    requires ListOk(w, tenant, list) && d.safe in w.code && !IsDeployed(list, d.safe)
    requires d.safe == ComputeSafeAddress(w.factory.self, w.factory.safeImplementation, tenant, d.signer,
                                          |list| % TWO_256)
    ensures ListOk(w, tenant, list + [d])
  {
    assert (list + [d])[..|list|] == list;
  }

  lemma DeployKeepsCode(w: World, tenant: TenantId, signer: Address, model: CustodyModel)
    requires Inv(w) && DeploySafe(w, tenant, signer, model, true).Ok?
    ensures CodeOk(DeploySafe(w, tenant, signer, model, true).value)
  {
    var w' := DeploySafe(w, tenant, signer, model, true).value;
    assert TenantOk(w, tenant);
    forall a | a in w'.code && a.Create2? && a.deployer == w'.factory.self
      ensures SaltUsed(w'.factory, a.salt)
    {
      if a in w.code {
        assert SaltUsed(w.factory, a.salt);
      } else {
        CreatedSalts(w.factory, model, tenant, signer, a);
      }
    }
  }

  /** Everything one deployment creates comes from its own nonce. */
  lemma CreatedSalts(f: Factory, model: CustodyModel, tenant: TenantId, signer: Address, a: Address)
    requires var salt := Keccak(tenant, signer, NonceOf(f, tenant));
             a in Created(f, model, Create2(f.self, salt, CloneOf(f.safeImplementation)), salt)
    ensures a.Create2? && Base(a.salt) == Keccak(tenant, signer, NonceOf(f, tenant))
  {
  }

  lemma DeployKeepsMembers(w: World, tenant: TenantId, signer: Address, model: CustodyModel)
    requires Inv(w) && DeploySafe(w, tenant, signer, model, true).Ok?
    ensures MembersDeployed(DeploySafe(w, tenant, signer, model, true).value)
  {
    var w' := DeploySafe(w, tenant, signer, model, true).value;
    var list, list' := SafesOf(w.factory, tenant), SafesOf(w'.factory, tenant);
    forall t: TenantId, s: Address | s in TR.At(w'.registry, t).members
      ensures IsDeployed(SafesOf(w'.factory, t), s)
    {
      if s in TR.At(w.registry, t).members {
        assert IsDeployed(SafesOf(w.factory, t), s);
        if t == tenant {
          var i :| 0 <= i < |list| && list[i].safe == s;
          assert list'[i].safe == s;
        }
      } else {
        assert list'[|list|].safe == s;
      }
    }
  }

  lemma DeployKeepsInv(w: World, tenant: TenantId, signer: Address, model: CustodyModel)
    requires Inv(w) && DeploySafe(w, tenant, signer, model, true).Ok?
    ensures Inv(DeploySafe(w, tenant, signer, model, true).value)
  {
    DeployKeepsCode(w, tenant, signer, model);
    DeployKeepsMembers(w, tenant, signer, model);
    DeployKeepsTenants(w, tenant, signer, model);
    TR.RegisterUserKeepsInv(w.registry, tenant, NextSafe(w, tenant, signer));
    NewSafeIsUnknown(w, NextSafe(w, tenant, signer));
    TR.RegisteringKeepsExact(w.registry, tenant, NextSafe(w, tenant, signer));
  }

  lemma DeployKeepsTenants(w: World, tenant: TenantId, signer: Address, model: CustodyModel)
    requires Inv(w) && DeploySafe(w, tenant, signer, model, true).Ok?
    ensures forall t: TenantId :: TenantOk(DeploySafe(w, tenant, signer, model, true).value, t)
  {
    forall t: TenantId
      ensures TenantOk(DeploySafe(w, tenant, signer, model, true).value, t)
    {
      assert TenantOk(w, t);
      if t == tenant {
        NewSafeIsUnknown(w, NextSafe(w, tenant, signer));
        DeployKeepsOwn(w, tenant, signer, model);
      } else {
        DeployKeepsOther(w, tenant, signer, model, t);
      }
    }
  }

  lemma SameFactoryKeepsTenants(w: World, w': World)
    requires Inv(w) && w.code <= w'.code
    requires w'.factory == w.factory.(settings := w'.factory.settings)
    ensures forall t: TenantId :: TenantOk(w', t)
  {
    forall t: TenantId
      ensures TenantOk(w', t)
    {
      assert TenantOk(w, t);
      ListGrows(w, w', t, SafesOf(w.factory, t));
    }
  }

  lemma RegistryStepKeepsInv(w: World, rop: TR.Op)
    requires Inv(w) && !rop.AddUser?
    ensures Inv(w.(registry := TR.Step(w.registry, rop)))
  {
    var w' := w.(registry := TR.Step(w.registry, rop));
    SameFactoryKeepsTenants(w, w');
    TR.StepKeepsInv(w.registry, rop);
    MembersShrink(w.registry, rop);
    ExactKept(w.registry, rop);
    forall t: TenantId, s: Address | s in TR.At(w'.registry, t).members
      ensures IsDeployed(SafesOf(w'.factory, t), s)
    {
      assert s in TR.At(w.registry, t).members;
    }
  }

  lemma MembersShrink(r: TR.Registry, rop: TR.Op)
    requires !rop.AddUser?
    ensures forall t: TenantId, s: Address :: s in TR.At(TR.Step(r, rop), t).members ==> s in TR.At(r, t).members
  {
  }

  lemma ExactKept(r: TR.Registry, rop: TR.Op)
    requires TR.Inv(r) && TR.Exact(r) && !rop.AddUser?
    ensures TR.Exact(TR.Step(r, rop))
  {
    var r' := TR.Step(r, rop);
    if rop.DropUser? && TR.RemoveUser(r, rop.tenantId, rop.safe).Ok? {
      TR.RemovingKeepsExact(r, rop.tenantId, rop.safe);
    } else {
      forall id: TenantId, s: Address | id != 0
        ensures s in TR.At(r', id).members <==> TR.Lookup(r', s) == id
      {
        assert s in TR.At(r, id).members <==> TR.Lookup(r, s) == id;
      }
    }
  }

  lemma NextKeepsInv(w: World, op: Op)
    requires Inv(w)
    ensures Inv(Next(w, op))
  {
    match op
    case Deploy(tenant, signer, model, setupOk) =>
      if DeploySafe(w, tenant, signer, model, setupOk).Ok? {
        DeployKeepsInv(w, tenant, signer, model);
      }
    case Configure(settings) => SameFactoryKeepsTenants(w, Next(w, op));
    case Registry(rop) =>
      if !rop.AddUser? {
        RegistryStepKeepsInv(w, rop);
      }
    case Elsewhere(_) => SameFactoryKeepsTenants(w, Next(w, op));
  }

  lemma {:induction false} InvAlways(self: Address, implementation: Address, settings: Settings, ops: seq<Op>)
    ensures Inv(Run(Genesis(self, implementation, settings), ops))
    ensures Run(Genesis(self, implementation, settings), ops).factory.self == self
    ensures Run(Genesis(self, implementation, settings), ops).factory.safeImplementation == implementation
  {
    if ops != [] {
      InvAlways(self, implementation, settings, ops[..|ops| - 1]);
      NextKeepsInv(Run(Genesis(self, implementation, settings), ops[..|ops| - 1]), ops[|ops| - 1]);
    }
  }

  // ---------- Results ----------

  lemma {:induction false} ListDistinct(w: World, tenant: TenantId, list: seq<Deployed>, i: nat, j: nat)
    requires ListOk(w, tenant, list) && i < j < |list|
    ensures list[i].safe != list[j].safe
  {
    if j < |list| - 1 {
      ListDistinct(w, tenant, list[..|list| - 1], i, j);
    }
  }

  /**
   * In every run in which only this factory registers users: deployed Safes are all distinct, within a tenant and
   * across tenants; a tenant's nonce is the number of its Safes; and its n-th Safe is at the address predicted at any
   * time for (tenant, signer, n).
   */
  lemma DeploymentsPredictable(self: Address, implementation: Address, settings: Settings, ops: seq<Op>,
                               t: TenantId, i: nat, u: TenantId, j: nat)
    requires var f := Run(Genesis(self, implementation, settings), ops).factory;
             i < |SafesOf(f, t)| && j < |SafesOf(f, u)|
    ensures var f := Run(Genesis(self, implementation, settings), ops).factory;
            && (t != u || i != j ==> SafesOf(f, t)[i].safe != SafesOf(f, u)[j].safe)
            && NonceOf(f, t) == |SafesOf(f, t)| % TWO_256
            && (i < TWO_256 ==>
                  SafesOf(f, t)[i].safe == ComputeSafeAddress(self, implementation, t, SafesOf(f, t)[i].signer, i))
  {
    InvAlways(self, implementation, settings, ops);
    PredictableIn(Run(Genesis(self, implementation, settings), ops), t, i, u, j);
  }

  lemma PredictableIn(w: World, t: TenantId, i: nat, u: TenantId, j: nat)
    requires Inv(w) && i < |SafesOf(w.factory, t)| && j < |SafesOf(w.factory, u)|
    ensures t != u || i != j ==> SafesOf(w.factory, t)[i].safe != SafesOf(w.factory, u)[j].safe
    ensures NonceOf(w.factory, t) == |SafesOf(w.factory, t)| % TWO_256
    ensures i < TWO_256 ==>
              SafesOf(w.factory, t)[i].safe
              == ComputeSafeAddress(w.factory.self, w.factory.safeImplementation, t, SafesOf(w.factory, t)[i].signer, i)
  {
    assert TenantOk(w, t) && TenantOk(w, u);
    ListMember(w, t, SafesOf(w.factory, t), i);
    if t != u || i != j {
      SafesDistinct(w, t, i, u, j);
    }
  }

  lemma SafesDistinct(w: World, t: TenantId, i: nat, u: TenantId, j: nat)
    requires TenantOk(w, t) && TenantOk(w, u) && (t != u || i != j)
    requires i < |SafesOf(w.factory, t)| && j < |SafesOf(w.factory, u)|
    ensures SafesOf(w.factory, t)[i].safe != SafesOf(w.factory, u)[j].safe
  {
    if t != u {
      ListMember(w, t, SafesOf(w.factory, t), i);
      ListMember(w, u, SafesOf(w.factory, u), j);
    } else if i < j {
      ListDistinct(w, t, SafesOf(w.factory, t), i, j);
    } else {
      ListDistinct(w, t, SafesOf(w.factory, t), j, i);
    }
  }

  /** And the reverse lookup is exact: a Safe is a user of tenant t if and only if it maps to t. */
  lemma ReverseLookupExact(self: Address, implementation: Address, settings: Settings, ops: seq<Op>,
                           t: TenantId, safe: Address)
    requires t != 0
    ensures var r := Run(Genesis(self, implementation, settings), ops).registry;
            safe in TR.At(r, t).members <==> TR.Lookup(r, safe) == t
  {
    InvAlways(self, implementation, settings, ops);
  }

  /** Until a tenant's nonce wraps, its deployments never run into an address already taken. */
  lemma NeverCollides(self: Address, implementation: Address, settings: Settings, ops: seq<Op>,
                      tenant: TenantId, signer: Address, model: CustodyModel, setupOk: bool)
    requires |SafesOf(Run(Genesis(self, implementation, settings), ops).factory, tenant)| < TWO_256
    ensures DeploySafe(Run(Genesis(self, implementation, settings), ops), tenant, signer, model, setupOk)
            != Err(DeploymentFailed)
  {
    InvAlways(self, implementation, settings, ops);
    FreshSalt(Run(Genesis(self, implementation, settings), ops), tenant, signer, model);
  }

  lemma FreshSalt(w: World, tenant: TenantId, signer: Address, model: CustodyModel)
    requires CodeOk(w) && TenantOk(w, tenant) && |SafesOf(w.factory, tenant)| < TWO_256
    ensures var f := w.factory;
            var salt := Keccak(tenant, signer, NonceOf(f, tenant));
            Created(f, model, Create2(f.self, salt, CloneOf(f.safeImplementation)), salt) * w.code == {}
  {
    var f := w.factory;
    var salt := Keccak(tenant, signer, NonceOf(f, tenant));
    forall a | a in Created(f, model, Create2(f.self, salt, CloneOf(f.safeImplementation)), salt)
      ensures a !in w.code
    {
      CreatedSalts(f, model, tenant, signer, a);
      assert !SaltUsed(f, a.salt);
    }
  }

  /** What a deployment asks of its caller, the settings, the registry and the new Safe's setup. */
  predicate MayDeploy(w: World, tenant: TenantId, signer: Address, model: CustodyModel, setupOk: bool) {
    && tenant != 0 && signer != Zero && !model.Other? && w.factory.settings.registrySet
    && (model.ModelA? ==> w.factory.settings.moduleSetupHelper != Zero) && setupOk
    && TR.Registered(w.registry, tenant) && TR.At(w.registry, tenant).active
  }

  /** Until a tenant's nonce wraps nothing else can make a deployment fail: no address is taken, no Safe registered. */
  lemma DeploySucceeds(w: World, tenant: TenantId, signer: Address, model: CustodyModel, setupOk: bool)
    requires Inv(w) && |SafesOf(w.factory, tenant)| < TWO_256
    ensures DeploySafe(w, tenant, signer, model, setupOk).Ok? <==> MayDeploy(w, tenant, signer, model, setupOk)
  {
    assert TenantOk(w, tenant);
    FreshSalt(w, tenant, signer, model);
    var salt := Keccak(tenant, signer, NonceOf(w.factory, tenant));
    var safe := NextSafe(w, tenant, signer);
    assert safe in Created(w.factory, model, safe, salt) && safe !in w.code;
    assert model.ModelA? ==> ModulesFor(w.factory, safe, salt) <= Created(w.factory, model, safe, salt);
    NotYetMember(w, tenant, safe);
  }

  lemma NotYetMember(w: World, tenant: TenantId, safe: Address)
    requires Inv(w) && safe !in w.code
    ensures safe !in TR.At(w.registry, tenant).members
  {
    NewSafeIsUnknown(w, safe);
    assert !IsDeployed(SafesOf(w.factory, tenant), safe);
  }

  // ---------- The contract ----------

  /** The tenant has one more Safe, for the signer, which is its user from now on; no other tenant's list changes. */
  ghost predicate Gained(w: World, w': World, tenant: TenantId, d: Deployed) {
    && SafesOf(w'.factory, tenant) == SafesOf(w.factory, tenant) + [d]
    && (forall t: TenantId | t != tenant :: SafesOf(w'.factory, t) == SafesOf(w.factory, t))
    && TR.Lookup(w'.registry, d.safe) == tenant && d.safe in TR.At(w'.registry, tenant).members
    && d.safe !in w.code && d.safe in w'.code
  }

  /** The module contracts a Safe gets: a settler and, where an implementation is set, roles and delay. */
  ghost predicate IsModule(f: Factory, safe: Address, salt: Salt, a: Address) {
    var s := f.settings;
    || a == Create2(f.self, salt, SettlerCode(safe, s.owner, s.settler, s.issuerSafe, s.usdc))
    || (s.rolesImplementation != Zero
        && a == Create2(f.self, KeccakWithSuffix(salt, "roles"), CloneOf(s.rolesImplementation)))
    || (s.delayImplementation != Zero
        && a == Create2(f.self, KeccakWithSuffix(salt, "delay"), CloneOf(s.delayImplementation)))
  }

  /** A deployment puts code exactly at the Safe's address and, for model A, at those of its modules. */
  lemma DeployedCode(w: World, tenant: TenantId, signer: Address, model: CustodyModel, setupOk: bool, a: Address)
    requires DeploySafe(w, tenant, signer, model, setupOk).Ok?
    ensures var safe, salt := NextSafe(w, tenant, signer), Keccak(tenant, signer, NonceOf(w.factory, tenant));
            a in DeploySafe(w, tenant, signer, model, setupOk).value.code
            <==> a in w.code || a == safe || (model.ModelA? && IsModule(w.factory, safe, salt, a))
  {
  }

  /** Equal predictions are for the same tenant, signer and nonce, and are CREATE2 addresses of the Safe's clone. */
  lemma PredictionsDiffer(self: Address, implementation: Address, t: TenantId, s: Address, n: nat, u: TenantId,
                          r: Address, m: nat)
    ensures ComputeSafeAddress(self, implementation, t, s, n) == ComputeSafeAddress(self, implementation, u, r, m)
            <==> t == u && s == r && n == m
    ensures ComputeSafeAddress(self, implementation, t, s, n)
            == Create2(self, Keccak(t, s, n), CloneOf(implementation))
  {
  }

  /** Which error a deployment gives: for the arguments first, then the settings, the setup and the tenant. */
  lemma DeployErrors(w: World, tenant: TenantId, signer: Address, model: CustodyModel, setupOk: bool)
    requires Inv(w) && |SafesOf(w.factory, tenant)| < TWO_256
    ensures var r := DeploySafe(w, tenant, signer, model, setupOk);
            var args := tenant != 0 && signer != Zero && !model.Other?;
            var ready := args && w.factory.settings.registrySet;
            var helped := ready && (model.ModelA? ==> w.factory.settings.moduleSetupHelper != Zero);
            && (r == Err(InvalidTenantId) <==> tenant == 0)
            && (r == Err(InvalidAddress) <==> tenant != 0 && signer == Zero)
            && (r == Err(InvalidCustodyModel) <==> tenant != 0 && signer != Zero && model.Other?)
            && (r == Err(RegistryNotSet) <==> args && !ready)
            && (r == Err(ModuleSetupHelperNotSet) <==> ready && !helped)
            && (r == Err(SafeSetupFailed) <==> helped && !setupOk)
            && (r == Err(RegistryError(TR.TenantNotRegistered))
                <==> helped && setupOk && !TR.Registered(w.registry, tenant))
            && (r == Err(RegistryError(TR.TenantNotActive))
                <==> helped && setupOk && TR.Registered(w.registry, tenant) && !TR.At(w.registry, tenant).active)
  {
    assert TenantOk(w, tenant);
    FreshSalt(w, tenant, signer, model);
    var salt := Keccak(tenant, signer, NonceOf(w.factory, tenant));
    var safe := NextSafe(w, tenant, signer);
    assert safe in Created(w.factory, model, safe, salt) && safe !in w.code;
    assert model.ModelA? ==> ModulesFor(w.factory, safe, salt) <= Created(w.factory, model, safe, salt);
  }

  lemma DeploymentMeans(w: World, tenant: TenantId, signer: Address, model: CustodyModel, setupOk: bool)
    requires Inv(w) && DeploySafe(w, tenant, signer, model, setupOk).Ok?
    ensures var w' := DeploySafe(w, tenant, signer, model, setupOk).value;
            Inv(w') && Gained(w, w', tenant, Deployed(signer, NextSafe(w, tenant, signer)))
  {
    assert setupOk;
    DeployKeepsInv(w, tenant, signer, model);
    DeployEffect(w, tenant, signer, model);
  }

  /** The factory with its storage, the registry it calls and the accounts that have code. */
  class SafeFactoryContract {
    const self: Address
    const safeImplementation: Address
    var settings: Settings
    var deploymentNonce: map<TenantId, nat>
    var deployedSafes: map<TenantId, seq<Deployed>>
    var registry: TR.Registry
    var code: set<Address>

    constructor (self: Address, safeImplementation: Address, settings: Settings)
      ensures State() == Genesis(self, safeImplementation, settings) && Valid()
    {
      this.self := self;
      this.safeImplementation := safeImplementation;
      this.settings := settings;
      this.deploymentNonce := map[];
      this.deployedSafes := map[];
      this.registry := TR.EMPTY;
      this.code := {};
    }

    function FactoryNow(): Factory
      reads this
    {
      Factory(self, safeImplementation, settings, deploymentNonce, deployedSafes)
    }

    function State(): World
      reads this
    {
      World(code, registry, FactoryNow())
    }

    /** Everything holds that every run of the factory keeps. */
    ghost predicate Valid()
      reads this
    {
      Inv(State())
    }

    method DeploySafeCall(tenantId: TenantId, userSigner: Address, model: CustodyModel, setupOk: bool)
      returns (r: Result<Address, Error>)
      requires Valid()
      modifies this`deploymentNonce, this`deployedSafes, this`registry, this`code
      ensures Valid() && State() == Next(old(State()), Deploy(tenantId, userSigner, model, setupOk))
      ensures |SafesOf(old(FactoryNow()), tenantId)| < TWO_256 ==>
                (r.Ok? <==> MayDeploy(old(State()), tenantId, userSigner, model, setupOk))
      ensures r.Ok? ==>
                && r.value == ComputeSafeAddress(self, safeImplementation, tenantId, userSigner,
                                                 NonceOf(old(FactoryNow()), tenantId))
                && Gained(old(State()), State(), tenantId, Deployed(userSigner, r.value))
      ensures r.Err? ==> State() == old(State())
    {
      ghost var was := State();
      r := DeployChecked(tenantId, userSigner, model, setupOk);
      if r.Ok? {
        DeploymentMeans(was, tenantId, userSigner, model, setupOk);
      }
      if |SafesOf(was.factory, tenantId)| < TWO_256 {
        DeploySucceeds(was, tenantId, userSigner, model, setupOk);
      }
    }

    /** The checks and effects of `deploySafe` in its order. */
    method DeployChecked(tenantId: TenantId, userSigner: Address, model: CustodyModel, setupOk: bool)
      returns (r: Result<Address, Error>)
      modifies this`deploymentNonce, this`deployedSafes, this`registry, this`code
      ensures match DeploySafe(old(State()), tenantId, userSigner, model, setupOk)
              case Err(e) => r == Err(e) && State() == old(State())
              case Ok(w) => State() == w && r == Ok(NextSafe(old(State()), tenantId, userSigner))
    {
      if tenantId == 0 { return Err(InvalidTenantId); }
      if userSigner == Zero { return Err(InvalidAddress); }
      if model.Other? { return Err(InvalidCustodyModel); }
      if !settings.registrySet { return Err(RegistryNotSet); }
      var nonce := NonceOf(FactoryNow(), tenantId);
      var salt := Keccak(tenantId, userSigner, nonce);
      var m2Safe := Create2(self, salt, CloneOf(safeImplementation));
      if m2Safe in code { return Err(DeploymentFailed); }
      var created := {m2Safe};
      if model.ModelA? {
        if settings.moduleSetupHelper == Zero { return Err(ModuleSetupHelperNotSet); }
        var modules := ModulesFor(FactoryNow(), m2Safe, salt);
        if modules * code != {} { return Err(DeploymentFailed); }
        created := created + modules;
      }
      if !setupOk { return Err(SafeSetupFailed); }
      var registered := TR.RegisterUser(registry, tenantId, m2Safe);
      if registered.Err? { return Err(RegistryError(registered.error)); }
      deployedSafes := deployedSafes[tenantId := SafesOf(FactoryNow(), tenantId) + [Deployed(userSigner, m2Safe)]];
      deploymentNonce := deploymentNonce[tenantId := (nonce + 1) % TWO_256];
      registry := registered.value;
      code := code + created;
      return Ok(m2Safe);
    }
  }
}
