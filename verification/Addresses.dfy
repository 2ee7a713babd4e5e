/**
 * Addresses.  Hashes and CREATE2 addresses (EIP-1014) are free constructors: two of them are equal exactly when they
 * were made from equal parts, which is what collision resistance is taken to mean here.
 */
module Addresses {

  type TenantId = nat   // 0 is bytes32(0)

  datatype Address =
    | Zero
    | External(id: nat)
    | Create2(deployer: Address, salt: Salt, initCode: InitCode)

  /** `keccak256(abi.encodePacked(...))`: all parts are of fixed width, so packing loses nothing. */
  datatype Salt =
    | Keccak(tenant: TenantId, signer: Address, nonce: nat)
    | KeccakWithSuffix(base: Salt, suffix: string)

  /** An EIP-1167 clone of an implementation, or the settler's creation code with its constructor arguments. */
  datatype InitCode =
    | CloneOf(implementation: Address)
    | SettlerCode(safe: Address, owner: Address, settler: Address, issuerSafe: Address, usdc: Address)
}
