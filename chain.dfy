/** Host-chain vocabulary the substitution engine works with: byte blobs,
    digests, account names, the account metadata and code objects of the
    chain's code store, the error taxonomy and the cache eviction log. */
module Chain {

  type Byte = x: int | 0 <= x < 256
  type Bytes = seq<Byte>

  type U32 = x: int | 0 <= x < 0x1_0000_0000
  type U64 = x: int | 0 <= x < 0x1_0000_0000_0000_0000

  /** An account name is its 64-bit encoding; names order by that value. */
  type Name = U64

  /** `name("eosio")` and `name("setparams")` in the chain's base-32 name encoding. */
  const EosioName: Name := 0x5530_EA00_0000_0000
  const SetparamsName: Name := 0xC2B3_535C_D2C0_0000

  /** A vm_type or vm_version tag (uint8). */
  type VmTag = Byte

  /** A SHA-256 digest, as its bytes. */
  type Digest = seq<Byte>

  /** `digest_type()`: the default-constructed, all-zero digest. */
  const ZeroDigest: Digest := seq(32, _ => 0)

  /** The hash the chain uses; the model treats it as an arbitrary function. */
  type HashFn = Bytes -> Digest

  datatype Option<T> = None | Some(value: T)

  /** The exceptions the engine raises. */
  datatype Error =
    | SubstMetaNotFound(account: Name)        // get_by_account, strict
    | AccountMetadataNotFound(account: Name)  // get_account_metadata_object, strict
    | CodeObjectNotFound(account: Name)       // get_codeobj, strict
    | UniquenessViolated                      // a modify that would clash in a unique index
    | InvalidArg                              // fc::invalid_arg_exception

  datatype Result<T> = Ok(value: T) | Err(error: Error)

  datatype Outcome = Pass | Fail(error: Error)

  /** The chain's per-account metadata; `codeHash`, `vmType` and `vmVersion`
      locate the account's code object. */
  datatype AccountMeta = AccountMeta(
    recvSequence: U64,
    authSequence: U64,
    codeSequence: U64,
    abiSequence: U64,
    codeHash: Digest,
    lastCodeUpdate: int,
    flags: U32,
    vmType: VmTag,
    vmVersion: VmTag)

  /** The unique key of a code object: (code_hash, vm_type, vm_version). */
  datatype CodeKey = CodeKey(codeHash: Digest, vmType: VmTag, vmVersion: VmTag)

  /** A code object: the live bytes the chain runs, plus bookkeeping. */
  datatype CodeObject = CodeObject(code: Bytes, codeRefCount: U64, firstBlockUsed: U32)

  /** The key through which an account's metadata finds its code object. */
  function KeyOf(m: AccountMeta): CodeKey
  {
    CodeKey(m.codeHash, m.vmType, m.vmVersion)
  }

  /** One entry of the abstract log of compiled-code cache evictions. */
  datatype Eviction =
    | WasmCacheSweep(pendingBlock: U32)                 // wasm_interface::current_lib
    | OcCodeFreed(codeHash: Digest, vmVersion: VmTag)   // eosvmoc code_cache free_code

  /** Whether the ahead-of-time compiled tier is built in, and if so configured. */
  datatype OcMode = NoOcBuild | OcBuildNoTier | OcTier

  /** What the engine is configured with and never changes. */
  datatype Env = Env(hash: HashFn, oc: OcMode)
}
