/** The substitution record (`subst_meta_object`) and the table that holds
    one record per account. The two hashes of a record are derived from its
    bytes whenever they are asked for; they are never stored. */
module SubstMeta {
  import opened Chain

  /** The digest `og_hash` reports for captured bytes: the zero digest while
      nothing has been captured, the hash of the bytes otherwise. */
  function CapturedHash(hash: HashFn, code: Bytes): (d: Digest)
    ensures code != [] ==> d == hash(code)
    ensures d == ZeroDigest <==> (code == [] || hash(code) == ZeroDigest)
  {
    if |code| == 0 then ZeroDigest else hash(code)
  }

  /** One substitution: `ogCode` is the captured on-chain original, `sCode`
      the replacement that runs from block `fromBlock` on. */
  datatype Record = Record(id: nat, account: Name, fromBlock: U64, ogCode: Bytes, sCode: Bytes)
  {
    /** `og_hash()`: zero for an empty capture, the hash of the capture otherwise. */
    function OgHash(hash: HashFn): (d: Digest)
      ensures ogCode != [] ==> d == hash(ogCode)
      ensures ogCode == [] ==> d == ZeroDigest
    {
      CapturedHash(hash, ogCode)
    }

    /** `s_hash()`: always the hash of the replacement, even when it is empty. */
    function SHash(hash: HashFn): (d: Digest)
      ensures sCode == [] ==> d == hash([])
      ensures d == ZeroDigest <==> hash(sCode) == ZeroDigest
    {
      hash(sCode)
    }
  }

  /** A freshly registered substitution: the original is not captured yet. */
  function NewRecord(id: nat, account: Name, fromBlock: U64, sCode: Bytes): (r: Record)
    ensures r.ogCode == [] && r.sCode == sCode
    ensures r.id == id && r.account == account && r.fromBlock == fromBlock
  {
    Record(id, account, fromBlock, [], sCode)
  }

  /** The original hash of a new record is the zero digest, whatever the hash. */
  lemma NewRecordHasZeroOriginal(hash: HashFn, id: nat, account: Name, fromBlock: U64, sCode: Bytes)
    ensures NewRecord(id, account, fromBlock, sCode).OgHash(hash) == ZeroDigest
    ensures NewRecord(id, account, fromBlock, sCode).SHash(hash) == hash(sCode)
  {
  }

  /** If the hash never yields the zero digest, `og_hash()` is zero exactly
      when nothing has been captured. */
  lemma OgHashZeroIffEmpty(hash: HashFn, r: Record)
    requires forall b: Bytes :: hash(b) != ZeroDigest
    ensures r.OgHash(hash) == ZeroDigest <==> r.ogCode == []
  {
    if r.ogCode != [] {
      assert hash(r.ogCode) != ZeroDigest;
    }
  }

  /** `s_hash()` has no zero case: an empty replacement hashes like any
      other bytes, so it differs from the zero `og_hash()` of an empty capture
      whenever the hash of no bytes is not the zero digest. */
  lemma EmptyCodesHashApart(hash: HashFn, r: Record)
    requires r.ogCode == [] && r.sCode == []
    requires hash([]) != ZeroDigest
    ensures r.OgHash(hash) == ZeroDigest && r.SHash(hash) == hash([])
    ensures r.OgHash(hash) != r.SHash(hash)
  {
  }

  /** The unique-by-account and unique-by-id indices of the table: each record
      sits under its own account, and ids are distinct and below the next id
      to hand out. */
  ghost predicate IndexValid(meta: map<Name, Record>, nextId: nat)
  {
    && (forall a | a in meta :: meta[a].account == a && meta[a].id < nextId)
    && (forall a, b | a in meta && b in meta && meta[a].id == meta[b].id :: a == b)
  }
}
