/** The substitution context as the object the plugin owns: the record
    table and the parts of the chain database it reads and writes, changed in
    place by each operation. Every method is proved to make exactly the
    transition `SubstSpec` gives for it. */
module SubstContext {
  import opened Chain
  import opened SubstMeta
  import opened NameOrder
  import SubstSpec

  class SubstitutionContext {
    /** The chain's digest function and the compiled-tier configuration. */
    const hash: HashFn
    const oc: OcMode

    /** The `subst_meta_object` table, indexed by account. */
    var meta: map<Name, Record>
    /** The next chainbase id the table hands out. */
    var nextId: nat
    /** The chain's account metadata and code objects. */
    var accounts: map<Name, AccountMeta>
    var codes: map<CodeKey, CodeObject>
    /** The controller's pending block number. */
    var pendingBlock: U32
    /** Every cache eviction requested so far, oldest first. */
    var evicted: seq<Eviction>

    function Config(): Env
    {
      Env(hash, oc)
    }

    function Abs(): SubstSpec.State
      reads this
    {
      SubstSpec.State(meta, nextId, accounts, codes, pendingBlock, evicted)
    }

    ghost predicate Valid()
      reads this
    {
      SubstSpec.Valid(Abs())
    }

    /** A context over an existing chain database, with the record table as
        the database holds it. */
    constructor (hash: HashFn, oc: OcMode, meta: map<Name, Record>, nextId: nat,
                 accounts: map<Name, AccountMeta>, codes: map<CodeKey, CodeObject>, pendingBlock: U32)
      requires IndexValid(meta, nextId)
      ensures Valid()
      ensures this.hash == hash && this.oc == oc
      ensures Abs() == SubstSpec.State(meta, nextId, accounts, codes, pendingBlock, [])
    {
      this.hash := hash;
      this.oc := oc;
      this.meta := meta;
      this.nextId := nextId;
      this.accounts := accounts;
      this.codes := codes;
      this.pendingBlock := pendingBlock;
      this.evicted := [];
    }

    /** `create`, called by `upsert` for an untracked account. */
    method Create(a: Name, fromBlock: U64, code: Bytes)
      requires a !in meta
      modifies this`meta, this`nextId
      ensures Abs() == SubstSpec.Create(old(Abs()), a, fromBlock, code)
    {
      meta := meta[a := NewRecord(nextId, a, fromBlock, code)];
      nextId := nextId + 1;
    }

    /** `update`, called by `upsert` for a tracked account. */
    method Update(a: Name, fromBlock: U64, code: Bytes) returns (o: Outcome)
      requires a in meta
      modifies this`meta
      ensures var r := SubstSpec.Update(Config(), old(Abs()), a, fromBlock, code);
        Abs() == r.state && o == r.outcome
    {
      var found := SubstSpec.GetByAccount(Abs(), a);
      meta := meta[a := found.value.value.(sCode := code)];
      var logged := SubstSpec.GetCodeobjHash(Config(), Abs(), a);
      o := if logged.Err? then Fail(logged.error) else Pass;
    }

    method Upsert(a: Name, fromBlock: U64, code: Bytes) returns (o: Outcome)
      requires Valid()
      modifies this
      ensures Valid()
      ensures var r := SubstSpec.Upsert(Config(), old(Abs()), a, fromBlock, code);
        Abs() == r.state && o == r.outcome
    {
      if SubstSpec.GetByAccount(Abs(), a, false).value.Some? {
        o := Update(a, fromBlock, code);
      } else {
        Create(a, fromBlock, code);
        o := Pass;
      }
    }

    method ResetCaches(a: Name) returns (o: Outcome)
      modifies this`evicted
      ensures var r := SubstSpec.ResetCaches(Config(), old(Abs()), a);
        Abs() == r.state && o == r.outcome
    {
      evicted := evicted + [WasmCacheSweep(pendingBlock)];
      o := Pass;
      if oc != NoOcBuild {
        var found := SubstSpec.GetCodeobj(Abs(), a);
        if found.Err? {
          o := Fail(found.error);
        } else if oc == OcTier {
          var key := found.value.value;
          evicted := evicted + [OcCodeFreed(key.codeHash, key.vmVersion)];
        }
      }
    }

    /** `db->modify` of the code object under `key`. */
    method ModifyCode(key: CodeKey, code: Bytes) returns (o: Outcome)
      requires key in codes
      modifies this`codes
      ensures var r := SubstSpec.ModifyCode(old(codes), key, code);
        && (r.Err? ==> codes == old(codes) && o == Fail(r.error))
        && (r.Ok? ==> codes == r.value && o == Pass)
    {
      var moved := CodeKey(key.codeHash, 0, 0);
      if moved != key && moved in codes {
        o := Fail(UniquenessViolated);
      } else {
        codes := (codes - {key})[moved := codes[key].(code := code)];
        o := Pass;
      }
    }

    method Activate(a: Name, saveOg: bool := true) returns (o: Outcome)
      requires Valid()
      modifies this
      ensures Valid()
      ensures var r := SubstSpec.Activate(Config(), old(Abs()), a, saveOg);
        Abs() == r.state && o == r.outcome
    {
      var found := SubstSpec.GetByAccount(Abs(), a);
      if found.Err? {
        return Fail(found.error);
      }
      var rec := found.value.value;
      var cobj := SubstSpec.GetCodeobj(Abs(), a);
      if cobj.Err? {
        return Fail(cobj.error);
      }
      var key := cobj.value.value;
      if saveOg {
        meta := meta[a := rec.(ogCode := codes[key].code)];
      }
      o := ResetCaches(a);
      if o.Fail? {
        return;
      }
      o := ModifyCode(key, rec.sCode);
      if o.Fail? {
        return;
      }
      var logged := SubstSpec.GetCodeobjHash(Config(), Abs(), a);
      o := if logged.Err? then Fail(logged.error) else Pass;
    }

    method Deactivate(a: Name) returns (o: Outcome)
      requires Valid()
      modifies this
      ensures Valid()
      ensures var r := SubstSpec.Deactivate(Config(), old(Abs()), a);
        Abs() == r.state && o == r.outcome
    {
      var found := SubstSpec.GetByAccount(Abs(), a);
      if found.Err? {
        return Fail(found.error);
      }
      var rec := found.value.value;
      var cobj := SubstSpec.GetCodeobj(Abs(), a);
      if cobj.Err? {
        return Fail(cobj.error);
      }
      var key := cobj.value.value;
      var liveHash := SubstSpec.GetCodeobjHash(Config(), Abs(), a).value;
      if liveHash == rec.SHash(hash) {
        o := ModifyCode(key, rec.ogCode);
        if o.Fail? {
          return;
        }
        o := ResetCaches(a);
      } else {
        o := Pass;
      }
    }

    method Remove(a: Name) returns (o: Outcome)
      requires Valid()
      modifies this`meta
      ensures Valid()
      ensures var r := SubstSpec.Remove(old(Abs()), a);
        Abs() == r.state && o == r.outcome
    {
      var found := SubstSpec.GetByAccount(Abs(), a);
      if found.Err? {
        return Fail(found.error);
      }
      meta := meta - {a};
      o := Pass;
    }

    /** `get_substitutions`: walks the by-account index and collects every
        tracked account, in ascending order. */
    method GetSubstitutions() returns (subs: seq<Name>)
      ensures Ascending(subs)
      ensures forall x :: x in subs <==> x in meta
      ensures subs == Sorted(meta.Keys)
    {
      subs := [];
      var rest := meta.Keys;
      while rest != {}
        invariant rest <= meta.Keys
        invariant Ascending(subs)
        invariant forall x :: x in subs <==> x in meta && x !in rest
        invariant forall x, y | x in subs && y in rest :: x < y
        decreases rest
      {
        assert Least(rest) in rest;
        var a :| a in rest && forall y | y in rest :: a <= y;
        forall i | 0 <= i < |subs|
          ensures subs[i] < a
        {
          assert subs[i] in subs;
        }
        subs := subs + [a];
        rest := rest - {a};
      }
      AscendingUnique(subs, Sorted(meta.Keys));
    }

    /** `apply_hook`, with an untracked receiver left alone; `vmType` and
        `vmVersion` are passed by the host and not used. */
    method ApplyHook(codeHash: Digest, vmType: VmTag, vmVersion: VmTag, receiver: Name) returns (o: Outcome)
      requires Valid()
      modifies this
      ensures Valid()
      ensures var r := SubstSpec.ApplyHook(Config(), old(Abs()), codeHash, receiver);
        Abs() == r.state && o == r.outcome
    {
      var found := SubstSpec.GetByAccount(Abs(), receiver, false);
      if found.value.None? {
        return Pass;
      }
      var rec := found.value.value;
      o := Pass;
      if pendingBlock >= rec.fromBlock {
        if codeHash != rec.OgHash(hash) {
          o := Activate(rec.account);
        } else {
          var liveHash := SubstSpec.GetCodeobjHash(Config(), Abs(), rec.account);
          if liveHash.Err? {
            o := Fail(liveHash.error);
          } else if liveHash.value != rec.SHash(hash) {
            o := Activate(rec.account, false);
          }
        }
      }
    }
  }
}
