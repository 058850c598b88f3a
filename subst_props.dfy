/** What the substitution context guarantees across calls: the effect of a
    successful activation, the activate/deactivate round trip, the eviction
    key, and the settling and self-healing of the reconciliation hook. */
module SubstProps {
  import opened Chain
  import opened SubstMeta
  import opened SubstSpec

  /** Whatever happens after the cache reset, `activate` on an account with a
      record and a code object captures (or not) the live bytes and evicts the
      cache entries keyed by the code object's code_hash and its vm_version as
      they were before the swap, since the reset runs first. */
  lemma {:induction false} ActivateCapturesAndEvictsFirst(env: Env, s: State, a: Name, saveOg: bool)
    requires a in s.meta && HasCode(s, a)
    ensures var r := Activate(env, s, a, saveOg);
      && r.state.meta[a] == (if saveOg then s.meta[a].(ogCode := Live(s, a)) else s.meta[a])
      && r.state.evicted == s.evicted + Evictions(env, s.pendingBlock, KeyOf(s.accounts[a]))
  {
    var key := KeyOf(s.accounts[a]);
    var rec := s.meta[a];
    var captured := if saveOg then rec.(ogCode := s.codes[key].code) else rec;
    var s1 := s.(meta := s.meta[a := captured]);
    assert HasCode(s1, a);
    var rc := ResetCaches(env, s1, a);
    assert rc.outcome == Pass || env.oc == NoOcBuild;
    assert rc.state.evicted == s.evicted + Evictions(env, s.pendingBlock, key);
  }

  /** Outside the two keys the swap touches, `activate` leaves every code
      object as it was. */
  lemma {:induction false} ActivateLeavesOtherCode(env: Env, s: State, a: Name, saveOg: bool, k: CodeKey)
    requires a in s.meta && HasCode(s, a)
    requires k in s.codes && k != KeyOf(s.accounts[a]) && k != CodeKey(s.accounts[a].codeHash, 0, 0)
    ensures k in Activate(env, s, a, saveOg).state.codes
    ensures Activate(env, s, a, saveOg).state.codes[k] == s.codes[k]
  {
    ActivateCapturesAndEvictsFirst(env, s, a, saveOg);
  }

  /** With baseline tags, `activate` succeeds once the record, the account
      metadata and the code object exist; the code object keeps its key and
      code_hash and now holds the replacement bytes, and nothing else in the
      code store changes. */
  lemma {:induction false} ActivateEffect(env: Env, s: State, a: Name, saveOg: bool)
    requires a in s.meta && HasCode(s, a) && TagsZero(s, a)
    ensures var r := Activate(env, s, a, saveOg);
      var key := KeyOf(s.accounts[a]);
      && r.outcome == Pass
      && r.state.meta == s.meta[a := if saveOg then s.meta[a].(ogCode := Live(s, a)) else s.meta[a]]
      && r.state.codes == s.codes[key := s.codes[key].(code := s.meta[a].sCode)]
      && r.state.evicted == s.evicted + Evictions(env, s.pendingBlock, key)
      && HasCode(r.state, a) && Live(r.state, a) == s.meta[a].sCode
  {
    var key := KeyOf(s.accounts[a]);
    var rec := s.meta[a];
    assert key == CodeKey(key.codeHash, 0, 0);
    var captured := if saveOg then rec.(ogCode := s.codes[key].code) else rec;
    var s1 := s.(meta := s.meta[a := captured]);
    var s2 := ResetCaches(env, s1, a).state;
    var moved := ModifyCode(s2.codes, key, rec.sCode);
    assert moved.Ok?;
    assert moved.value == s.codes[key := s.codes[key].(code := rec.sCode)];
    ActivateCapturesAndEvictsFirst(env, s, a, saveOg);
  }

  /** With baseline tags, `deactivate` on a live replacement writes the
      captured original back into the same code object and then evicts. */
  lemma {:induction false} DeactivateRestores(env: Env, s: State, a: Name)
    requires a in s.meta && HasCode(s, a) && TagsZero(s, a)
    requires env.hash(Live(s, a)) == s.meta[a].SHash(env.hash)
    ensures var r := Deactivate(env, s, a);
      var key := KeyOf(s.accounts[a]);
      && r.outcome == Pass
      && r.state.codes == s.codes[key := s.codes[key].(code := s.meta[a].ogCode)]
      && r.state.evicted == s.evicted + Evictions(env, s.pendingBlock, key)
  {
    var key := KeyOf(s.accounts[a]);
    assert key == CodeKey(key.codeHash, 0, 0);
    var moved := ModifyCode(s.codes, key, s.meta[a].ogCode);
    assert moved.Ok?;
    assert moved.value == s.codes[key := s.codes[key].(code := s.meta[a].ogCode)];
    assert HasCode(s.(codes := moved.value), a);
  }

  /** `activate(a, true)` followed by `deactivate(a)` puts back exactly the
      code store that was there before, and the record keeps the capture. */
  lemma {:induction false} ActivateDeactivateRoundTrip(env: Env, s: State, a: Name)
    requires a in s.meta && HasCode(s, a) && TagsZero(s, a)
    ensures var s1 := Activate(env, s, a, true);
      var s2 := Deactivate(env, s1.state, a);
      && s1.outcome == Pass && s2.outcome == Pass
      && s2.state.codes == s.codes
      && s2.state.meta[a].ogCode == Live(s, a)
      && s2.state.meta.Keys == s.meta.Keys
  {
    var key := KeyOf(s.accounts[a]);
    ActivateEffect(env, s, a, true);
    var s1 := Activate(env, s, a, true).state;
    assert s1.meta[a].sCode == s.meta[a].sCode;
    assert TagsZero(s1, a);
    DeactivateRestores(env, s1, a);
    var s2 := Deactivate(env, s1, a).state;
    assert s2.codes == s1.codes[key := s1.codes[key].(code := Live(s, a))];
    assert s2.codes == s.codes[key := s.codes[key]];
  }

  /** A second capturing `activate` (the API always captures) while the
      replacement is live captures the replacement itself as the original;
      `deactivate` then writes the replacement back, and the bytes that were
      live before the first `activate` are no longer held anywhere in the
      record. */
  lemma {:induction false} ActivateTwiceLosesOriginal(env: Env, s: State, a: Name)
    requires a in s.meta && HasCode(s, a) && TagsZero(s, a)
    ensures var s1 := Activate(env, s, a, true).state;
      var s2 := Activate(env, s1, a, true).state;
      var s3 := Deactivate(env, s2, a).state;
      && s2.meta[a].ogCode == s.meta[a].sCode
      && HasCode(s3, a) && Live(s3, a) == s.meta[a].sCode
      && s3.meta[a].ogCode == s.meta[a].sCode
  {
    ActivateEffect(env, s, a, true);
    var s1 := Activate(env, s, a, true).state;
    assert s1.meta[a].sCode == s.meta[a].sCode && TagsZero(s1, a);
    ActivateEffect(env, s1, a, true);
    var s2 := Activate(env, s1, a, true).state;
    assert s2.meta[a].sCode == s.meta[a].sCode && TagsZero(s2, a);
    DeactivateRestores(env, s2, a);
  }

  /** Once the replacement has been captured as the original, and the chain's
      code hash is not the replacement's captured hash, every due hook call
      re-runs the capturing `activate`: it changes nothing but the eviction
      log, which it extends, so the state it leaves meets these conditions
      again and the hook never settles. */
  lemma {:induction false} RecapturedHookNeverSettles(env: Env, s: State, codeHash: Digest, a: Name)
    requires Valid(s)
    requires a in s.meta && HasCode(s, a) && TagsZero(s, a)
    requires s.pendingBlock >= s.meta[a].fromBlock
    requires s.meta[a].ogCode == s.meta[a].sCode && Live(s, a) == s.meta[a].sCode
    requires codeHash != CapturedHash(env.hash, s.meta[a].sCode)
    ensures var r := ApplyHook(env, s, codeHash, a);
      && r == Activate(env, s, a, true)
      && r.outcome == Pass
      && r.state == s.(evicted := s.evicted + Evictions(env, s.pendingBlock, KeyOf(s.accounts[a])))
  {
    assert s.meta[a].account == a;
    ActivateEffect(env, s, a, true);
    var r := Activate(env, s, a, true);
    assert r.state.meta == s.meta;
    assert r.state.codes == s.codes;
  }

  /** Steady state: a due record whose original hash matches the chain's and
      whose replacement is live is left alone, call after call. */
  lemma {:induction false} SteadyStateIsFixpoint(env: Env, s: State, codeHash: Digest, a: Name)
    requires Valid(s)
    requires a in s.meta && HasCode(s, a) && s.pendingBlock >= s.meta[a].fromBlock
    requires codeHash == s.meta[a].OgHash(env.hash)
    requires env.hash(Live(s, a)) == s.meta[a].SHash(env.hash)
    ensures ApplyHook(env, s, codeHash, a) == Step(s, Pass)
    ensures ApplyHookAsWritten(env, s, codeHash, a) == Step(s, Pass)
  {
    assert s.meta[a].account == a;
  }

  /** The hook settles in one call: when the chain's code hash is the one the
      record has captured, or the one it captures now, and the swap can go
      through, the next call for the same action changes nothing. */
  lemma {:induction false} ApplyHookSettles(env: Env, s: State, codeHash: Digest, a: Name)
    requires Valid(s)
    requires a in s.meta && HasCode(s, a) && TagsZero(s, a)
    requires s.pendingBlock >= s.meta[a].fromBlock
    requires codeHash == s.meta[a].OgHash(env.hash) || codeHash == CapturedHash(env.hash, Live(s, a))
    ensures var r1 := ApplyHook(env, s, codeHash, a);
      && r1.outcome == Pass
      && ApplyHook(env, r1.state, codeHash, a) == Step(r1.state, Pass)
  {
    var rec := s.meta[a];
    assert rec.account == a;
    if codeHash != rec.OgHash(env.hash) {
      ActivateEffect(env, s, a, true);
      var s1 := Activate(env, s, a, true).state;
      assert s1.meta[a].OgHash(env.hash) == codeHash;
      SteadyStateIsFixpoint(env, s1, codeHash, a);
    } else if env.hash(Live(s, a)) != rec.SHash(env.hash) {
      ActivateEffect(env, s, a, false);
      var s1 := Activate(env, s, a, false).state;
      SteadyStateIsFixpoint(env, s1, codeHash, a);
    } else {
      SteadyStateIsFixpoint(env, s, codeHash, a);
    }
  }

  /** Self-healing: the first due call captures the chain's original H0 and
      swaps in the replacement H1; when something writes H0 back, the next call
      re-applies the replacement without capturing the replacement itself. */
  lemma {:induction false} SelfHealing(env: Env, s: State, codeHash: Digest, a: Name)
    requires Valid(s)
    requires a in s.meta && HasCode(s, a) && TagsZero(s, a)
    requires s.pendingBlock >= s.meta[a].fromBlock
    requires Live(s, a) != [] && codeHash == env.hash(Live(s, a))
    requires codeHash != s.meta[a].OgHash(env.hash)
    requires s.meta[a].SHash(env.hash) != codeHash
    ensures var key := KeyOf(s.accounts[a]);
      var s1 := ApplyHook(env, s, codeHash, a).state;
      var reverted := s1.(codes := s1.codes[key := s1.codes[key].(code := Live(s, a))]);
      var s2 := ApplyHook(env, reverted, codeHash, a);
      && s1.meta[a].ogCode == Live(s, a) && Live(s1, a) == s.meta[a].sCode
      && s2 == Activate(env, reverted, a, false)
      && s2.outcome == Pass
      && s2.state.meta[a].ogCode == Live(s, a) && Live(s2.state, a) == s.meta[a].sCode
  {
    var key := KeyOf(s.accounts[a]);
    ActivateEffect(env, s, a, true);
    var s1 := ApplyHook(env, s, codeHash, a).state;
    var reverted := s1.(codes := s1.codes[key := s1.codes[key].(code := Live(s, a))]);
    assert reverted.meta[a] == s.meta[a].(ogCode := Live(s, a));
    assert reverted.meta[a].OgHash(env.hash) == codeHash;
    assert HasCode(reverted, a) && Live(reverted, a) == Live(s, a);
    ActivateEffect(env, reverted, a, false);
  }

  /** The receiver lookup in `apply_hook` is strict, so for an untracked
      receiver the code as written raises where the intended hook is a no-op. */
  lemma UntrackedReceiverDiscrepancy(env: Env, s: State, codeHash: Digest, receiver: Name)
    requires receiver !in s.meta
    ensures ApplyHookAsWritten(env, s, codeHash, receiver).outcome == Fail(SubstMetaNotFound(receiver))
    ensures ApplyHook(env, s, codeHash, receiver) == Step(s, Pass)
  {
  }

  /** On a tracked receiver the two readings of `apply_hook` agree. */
  lemma TrackedReceiverAgreement(env: Env, s: State, codeHash: Digest, receiver: Name)
    requires receiver in s.meta
    ensures ApplyHookAsWritten(env, s, codeHash, receiver) == ApplyHook(env, s, codeHash, receiver)
  {
  }
}
