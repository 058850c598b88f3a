/** The substitution context's operations as transitions of one `State`:
    the record table, the chain's account metadata and code objects, the
    chain's pending block and the log of cache evictions. Each operation
    returns the state after it and the outcome; an exception raised part-way
    leaves the changes made before it in place (the model does not roll back
    the enclosing chainbase session, which is not part of this model). */
module SubstSpec {
  import opened Chain
  import opened SubstMeta

  datatype State = State(
    meta: map<Name, Record>,
    nextId: nat,
    accounts: map<Name, AccountMeta>,
    codes: map<CodeKey, CodeObject>,
    pendingBlock: U32,
    evicted: seq<Eviction>)

  datatype Step = Step(state: State, outcome: Outcome)

  ghost predicate Valid(s: State)
  {
    IndexValid(s.meta, s.nextId)
  }

  /** The account has metadata and its code object exists under the metadata's key. */
  predicate HasCode(s: State, a: Name)
  {
    a in s.accounts && KeyOf(s.accounts[a]) in s.codes
  }

  /** The bytes the chain currently runs for `a`. */
  function Live(s: State, a: Name): Bytes
    requires HasCode(s, a)
  {
    s.codes[KeyOf(s.accounts[a])].code
  }

  /** The account's metadata carries the baseline tags, as every contract set
      through the chain's setcode does. */
  predicate TagsZero(s: State, a: Name)
  {
    a in s.accounts && s.accounts[a].vmType == 0 && s.accounts[a].vmVersion == 0
  }

  // ---------------------------------------------------------------- lookups

  /** `get_by_account`: the record of `a`; strict by default, when absence raises. */
  function GetByAccount(s: State, a: Name, checkResult: bool := true): (r: Result<Option<Record>>)
    ensures r.Err? <==> checkResult && a !in s.meta
    ensures r.Err? ==> r.error == SubstMetaNotFound(a)
    ensures r.Ok? ==> (r.value.Some? <==> a in s.meta)
    ensures r.Ok? && r.value.Some? ==> r.value.value == s.meta[a]
  {
    if a in s.meta then Ok(Some(s.meta[a]))
    else if checkResult then Err(SubstMetaNotFound(a))
    else Ok(None)
  }

  /** `get_account_metadata_object`: strict by default. */
  function GetAccountMetadataObject(s: State, a: Name, checkResult: bool := true): (r: Result<Option<AccountMeta>>)
    ensures r.Err? <==> checkResult && a !in s.accounts
    ensures r.Err? ==> r.error == AccountMetadataNotFound(a)
    ensures r.Ok? ==> (r.value.Some? <==> a in s.accounts)
    ensures r.Ok? && r.value.Some? ==> r.value.value == s.accounts[a]
  {
    if a in s.accounts then Ok(Some(s.accounts[a]))
    else if checkResult then Err(AccountMetadataNotFound(a))
    else Ok(None)
  }

  /** `get_codeobj`: the key of the code object found through the account's
      (code_hash, vm_type, vm_version). The metadata lookup inside is always
      strict, whatever `checkResult` says. */
  function GetCodeobj(s: State, a: Name, checkResult: bool := true): (r: Result<Option<CodeKey>>)
    ensures r.Err? <==> a !in s.accounts || (checkResult && KeyOf(s.accounts[a]) !in s.codes)
    ensures r.Err? && a !in s.accounts ==> r.error == AccountMetadataNotFound(a)
    ensures r.Err? && a in s.accounts ==> r.error == CodeObjectNotFound(a)
    ensures r.Ok? ==> (r.value.Some? <==> HasCode(s, a))
    ensures r.Ok? && r.value.Some? ==> r.value.value == KeyOf(s.accounts[a])
  {
    var acc := GetAccountMetadataObject(s, a);
    if acc.Err? then Err(acc.error)
    else
      var key := KeyOf(acc.value.value);
      if key in s.codes then Ok(Some(key))
      else if checkResult then Err(CodeObjectNotFound(a))
      else Ok(None)
  }

  /** `get_codeobj_hash`: the hash of the live bytes (strict lookup). */
  function GetCodeobjHash(env: Env, s: State, a: Name): (r: Result<Digest>)
    ensures r.Ok? <==> HasCode(s, a)
    ensures r.Ok? ==> r.value == env.hash(Live(s, a))
    ensures r.Err? ==> r.error == (if a in s.accounts then CodeObjectNotFound(a) else AccountMetadataNotFound(a))
  {
    var c := GetCodeobj(s, a);
    if c.Err? then Err(c.error) else Ok(env.hash(s.codes[c.value.value].code))
  }

  // ------------------------------------------------------ create / update

  /** `create`: a new record with the next id, nothing captured yet. */
  function Create(s: State, a: Name, fromBlock: U64, code: Bytes): (r: State)
    requires a !in s.meta
    ensures Valid(s) ==> Valid(r)
  {
    var rec := NewRecord(s.nextId, a, fromBlock, code);
    s.(meta := s.meta[a := rec], nextId := s.nextId + 1)
  }

  /** `update`: replaces the replacement bytes only; `fromBlock` is only logged.
      The log line looks the live code up strictly, so an account without
      code raises after the record was already changed. */
  function Update(env: Env, s: State, a: Name, fromBlock: U64, code: Bytes): (r: Step)
    requires a in s.meta
    ensures Valid(s) ==> Valid(r.state)
  {
    var rec := s.meta[a].(sCode := code);
    var s1 := s.(meta := s.meta[a := rec]);
    var logged := GetCodeobjHash(env, s1, a);
    if logged.Err? then Step(s1, Fail(logged.error)) else Step(s1, Pass)
  }

  /** `upsert`: `create` for an untracked account, `update` otherwise. */
  function Upsert(env: Env, s: State, a: Name, fromBlock: U64, code: Bytes): (r: Step)
    ensures Valid(s) ==> Valid(r.state)
    ensures r.state.meta.Keys == s.meta.Keys + {a}
    ensures r.state.meta[a].sCode == code
    ensures a !in s.meta ==> r.state.meta[a] == NewRecord(s.nextId, a, fromBlock, code) && r.outcome == Pass
    ensures a in s.meta ==> r.state.meta[a] == s.meta[a].(sCode := code)
    ensures a in s.meta ==> (r.outcome == Pass <==> HasCode(s, a))
    ensures forall b | b in s.meta && b != a :: r.state.meta[b] == s.meta[b]
    ensures r.state.codes == s.codes && r.state.accounts == s.accounts && r.state.evicted == s.evicted
  {
    if GetByAccount(s, a, false).value.Some? then Update(env, s, a, fromBlock, code)
    else Step(Create(s, a, fromBlock, code), Pass)
  }

  // ---------------------------------------------------------------- caches

  /** What `reset_caches` evicts for a code object found under `key`. */
  function Evictions(env: Env, pendingBlock: U32, key: CodeKey): (r: seq<Eviction>)
    ensures |r| >= 1 && r[0] == WasmCacheSweep(pendingBlock)
    ensures OcCodeFreed(key.codeHash, key.vmVersion) in r <==> env.oc == OcTier
    ensures env.oc != OcTier ==> |r| == 1
  {
    [WasmCacheSweep(pendingBlock)] + (if env.oc == OcTier then [OcCodeFreed(key.codeHash, key.vmVersion)] else [])
  }

  /** `reset_caches`: sweeps the wasm instantiation cache at the pending block
      and, in a build with the compiled tier, frees the compiled entry of the
      account's current code object (a strict lookup there). */
  function ResetCaches(env: Env, s: State, a: Name): (r: Step)
    ensures r.state == s.(evicted := r.state.evicted)
    ensures r.outcome.Fail? <==> env.oc != NoOcBuild && !HasCode(s, a)
    ensures env.oc == NoOcBuild ==> r.state.evicted == s.evicted + [WasmCacheSweep(s.pendingBlock)]
    ensures env.oc != NoOcBuild && HasCode(s, a) ==>
              r.state.evicted == s.evicted + Evictions(env, s.pendingBlock, KeyOf(s.accounts[a]))
  {
    var s1 := s.(evicted := s.evicted + [WasmCacheSweep(s.pendingBlock)]);
    if env.oc == NoOcBuild then Step(s1, Pass)
    else
      var c := GetCodeobj(s1, a);
      if c.Err? then Step(s1, Fail(c.error))
      else if env.oc == OcTier then
        Step(s1.(evicted := s1.evicted + [OcCodeFreed(c.value.value.codeHash, c.value.value.vmVersion)]), Pass)
      else Step(s1, Pass)
  }

  // ------------------------------------------------------- activate

  /** `db->modify` of a code object: new bytes and baseline tags, same
      code_hash. The object moves to key (code_hash, 0, 0); if another object
      already sits there the unique index refuses the change. */
  function ModifyCode(codes: map<CodeKey, CodeObject>, key: CodeKey, code: Bytes): (r: Result<map<CodeKey, CodeObject>>)
    requires key in codes
    ensures r.Err? <==> CodeKey(key.codeHash, 0, 0) != key && CodeKey(key.codeHash, 0, 0) in codes
    ensures r.Ok? ==> r.value == (codes - {key})[CodeKey(key.codeHash, 0, 0) := codes[key].(code := code)]
  {
    var moved := CodeKey(key.codeHash, 0, 0);
    if moved != key && moved in codes then Err(UniquenessViolated)
    else Ok((codes - {key})[moved := codes[key].(code := code)])
  }

  /** `activate`: optionally captures the live bytes as the original, evicts
      the caches of the code object as it is before the swap, then writes the
      replacement bytes with baseline tags into it. */
  function Activate(env: Env, s: State, a: Name, saveOg: bool := true): (r: Step)
    ensures a !in s.meta ==> r == Step(s, Fail(SubstMetaNotFound(a)))
    ensures a in s.meta && a !in s.accounts ==> r == Step(s, Fail(AccountMetadataNotFound(a)))
    ensures a in s.meta && a in s.accounts && !HasCode(s, a) ==> r == Step(s, Fail(CodeObjectNotFound(a)))
    ensures r.state.meta.Keys == s.meta.Keys && r.state.accounts == s.accounts
    ensures r.state.nextId == s.nextId && r.state.pendingBlock == s.pendingBlock
    ensures forall b | b in s.meta && b != a :: r.state.meta[b] == s.meta[b]
    ensures Valid(s) ==> Valid(r.state)
  {
    var m := GetByAccount(s, a);
    if m.Err? then Step(s, Fail(m.error))
    else
      var rec := m.value.value;
      var c := GetCodeobj(s, a);
      if c.Err? then Step(s, Fail(c.error))
      else
        var key := c.value.value;
        var captured := if saveOg then rec.(ogCode := s.codes[key].code) else rec;
        var s1 := s.(meta := s.meta[a := captured]);
        var rc := ResetCaches(env, s1, a);
        if rc.outcome.Fail? then rc
        else
          var s2 := rc.state;
          var modified := ModifyCode(s2.codes, key, rec.sCode);
          if modified.Err? then Step(s2, Fail(modified.error))
          else
            var s3 := s2.(codes := modified.value);
            var logged := GetCodeobjHash(env, s3, a);
            if logged.Err? then Step(s3, Fail(logged.error)) else Step(s3, Pass)
  }

  // ------------------------------------------------------ deactivate / remove

  /** `deactivate`: when the live bytes hash to the replacement's hash, writes
      the captured original back with baseline tags and then evicts the caches
      (of the object as it is after the write); otherwise changes nothing. */
  function Deactivate(env: Env, s: State, a: Name): (r: Step)
    ensures a !in s.meta ==> r == Step(s, Fail(SubstMetaNotFound(a)))
    ensures a in s.meta && a !in s.accounts ==> r == Step(s, Fail(AccountMetadataNotFound(a)))
    ensures a in s.meta && a in s.accounts && !HasCode(s, a) ==> r == Step(s, Fail(CodeObjectNotFound(a)))
    ensures a in s.meta && HasCode(s, a) && env.hash(Live(s, a)) != s.meta[a].SHash(env.hash) ==> r == Step(s, Pass)
    ensures r.state.meta == s.meta && r.state.nextId == s.nextId && r.state.accounts == s.accounts
  {
    var m := GetByAccount(s, a);
    if m.Err? then Step(s, Fail(m.error))
    else
      var rec := m.value.value;
      var c := GetCodeobj(s, a);
      if c.Err? then Step(s, Fail(c.error))
      else
        var key := c.value.value;
        var liveHash := GetCodeobjHash(env, s, a).value;
        if liveHash == rec.SHash(env.hash) then
          var modified := ModifyCode(s.codes, key, rec.ogCode);
          if modified.Err? then Step(s, Fail(modified.error))
          else ResetCaches(env, s.(codes := modified.value), a)
        else Step(s, Pass)
  }

  /** `remove`: drops the record (strict lookup); never touches the code store. */
  function Remove(s: State, a: Name): (r: Step)
    ensures r.outcome == Pass <==> a in s.meta
    ensures r.outcome.Fail? ==> r == Step(s, Fail(SubstMetaNotFound(a)))
    ensures r.state.meta == s.meta - {a}
    ensures r.state.codes == s.codes && r.state.accounts == s.accounts && r.state.evicted == s.evicted
    ensures Valid(s) ==> Valid(r.state)
  {
    var m := GetByAccount(s, a);
    if m.Err? then Step(s, Fail(m.error))
    else
      Step(s.(meta := s.meta - {a}), Pass)
  }

  // ------------------------------------------------------------ apply hook

  /** The reconciliation a tracked record gets on each action: nothing before
      `fromBlock`; from then on a capture-and-swap when the chain's code hash
      is not the captured original's, a swap without capture when the live
      bytes are not the replacement, and nothing once both agree. */
  function Reconcile(env: Env, s: State, codeHash: Digest, rec: Record): (r: Step)
    ensures s.pendingBlock < rec.fromBlock ==> r == Step(s, Pass)
    ensures s.pendingBlock >= rec.fromBlock && codeHash != rec.OgHash(env.hash) ==>
              r == Activate(env, s, rec.account, true)
    ensures s.pendingBlock >= rec.fromBlock && codeHash == rec.OgHash(env.hash) && !HasCode(s, rec.account) ==>
              r.state == s && r.outcome.Fail?
    ensures s.pendingBlock >= rec.fromBlock && codeHash == rec.OgHash(env.hash) && HasCode(s, rec.account) ==>
              r == if env.hash(Live(s, rec.account)) != rec.SHash(env.hash)
                   then Activate(env, s, rec.account, false)
                   else Step(s, Pass)
  {
    if s.pendingBlock >= rec.fromBlock then
      if codeHash != rec.OgHash(env.hash) then Activate(env, s, rec.account)
      else
        var liveHash := GetCodeobjHash(env, s, rec.account);
        if liveHash.Err? then Step(s, Fail(liveHash.error))
        else if liveHash.value != rec.SHash(env.hash) then Activate(env, s, rec.account, false)
        else Step(s, Pass)
    else Step(s, Pass)
  }

  /** `apply_hook` as written: the receiver is looked up strictly, so an
      untracked receiver raises and the "no substitution" return after the
      lookup is never reached. */
  function ApplyHookAsWritten(env: Env, s: State, codeHash: Digest, receiver: Name): (r: Step)
    ensures receiver !in s.meta ==> r == Step(s, Fail(SubstMetaNotFound(receiver)))
    ensures receiver in s.meta ==> r == Reconcile(env, s, codeHash, s.meta[receiver])
  {
    var m := GetByAccount(s, receiver);
    if m.Err? then Step(s, Fail(m.error))
    else if m.value.None? then Step(s, Pass)
    else Reconcile(env, s, codeHash, m.value.value)
  }

  /** `apply_hook` as intended: an untracked receiver is left alone. */
  function ApplyHook(env: Env, s: State, codeHash: Digest, receiver: Name): (r: Step)
    ensures receiver !in s.meta ==> r == Step(s, Pass)
    ensures receiver in s.meta ==> r == Reconcile(env, s, codeHash, s.meta[receiver])
  {
    var m := GetByAccount(s, receiver, false);
    if m.value.None? then Step(s, Pass)
    else Reconcile(env, s, codeHash, m.value.value)
  }
}
