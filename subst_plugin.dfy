/** The plugin around the substitution context: the option handling run
    after the chain database opens, the operator override of the on-chain
    transaction CPU limit, and the hook the chain calls before each action. */
module SubstPlugin {
  import opened Chain
  import SubstSpec
  import opened SubstContext

  // ------------------------------------------------------- option splitting

  /** Occurrences of `c` in `s`. */
  function Count(s: string, c: char): nat
  {
    if |s| == 0 then 0 else (if s[0] == c then 1 else 0) + Count(s[1..], c)
  }

  /** Splitting at every `sep`, keeping empty parts (`boost::split` with
      `is_any_of`, no token compression). */
  function SplitOn(s: string, sep: char): (parts: seq<string>)
    ensures |parts| >= 1
  {
    if |s| == 0 then [""]
    else
      var rest := SplitOn(s[1..], sep);
      if s[0] == sep then [""] + rest
      else [[s[0]] + rest[0]] + rest[1..]
  }

  /** Gluing parts back together with `sep` between them. */
  function Join(parts: seq<string>, sep: char): string
    requires |parts| >= 1
  {
    if |parts| == 1 then parts[0] else parts[0] + [sep] + Join(parts[1..], sep)
  }

  /** Every separator starts a new part, so there is one part more than separators. */
  lemma {:induction false} SplitCount(s: string, sep: char)
    ensures |SplitOn(s, sep)| == Count(s, sep) + 1
  {
    if |s| > 0 {
      SplitCount(s[1..], sep);
    }
  }

  /** No part holds the separator. */
  lemma {:induction false} SplitPartsFree(s: string, sep: char)
    ensures forall i | 0 <= i < |SplitOn(s, sep)| :: sep !in SplitOn(s, sep)[i]
  {
    if |s| > 0 {
      SplitPartsFree(s[1..], sep);
      var rest := SplitOn(s[1..], sep);
      if s[0] != sep {
        assert sep !in rest[0];
        assert sep !in [s[0]] + rest[0];
      }
    }
  }

  /** Joining the parts with the separator gives back the input. */
  lemma {:induction false} JoinSplit(s: string, sep: char)
    ensures Join(SplitOn(s, sep), sep) == s
  {
    if |s| > 0 {
      JoinSplit(s[1..], sep);
      var rest := SplitOn(s[1..], sep);
      if s[0] == sep {
        assert ([""] + rest)[1..] == rest;
      } else {
        var parts := [[s[0]] + rest[0]] + rest[1..];
        if |rest| == 1 {
          assert s == [s[0]] + s[1..];
        } else {
          assert parts[1..] == rest[1..];
          assert Join(rest, sep) == rest[0] + [sep] + Join(rest[1..], sep);
          assert s == [s[0]] + s[1..];
        }
      }
    }
  }

  /** One `subst-by-name` entry: the account spec and the path of the wasm. */
  datatype SubstEntry = SubstEntry(accountSpec: string, wasmPath: string)

  /** An entry must split on ':' into exactly two parts: part 0 names the
      account, part 1 the wasm file. */
  function ParseSubstEntry(s: string): (r: Result<SubstEntry>)
    ensures r.Ok? <==> Count(s, ':') == 1
    ensures r.Err? ==> r.error == InvalidArg
    ensures r.Ok? ==> r.value.accountSpec + ":" + r.value.wasmPath == s
    ensures r.Ok? ==> ':' !in r.value.accountSpec && ':' !in r.value.wasmPath
  {
    SplitCount(s, ':');
    SplitPartsFree(s, ':');
    JoinSplit(s, ':');
    var v := SplitOn(s, ':');
    if |v| != 2 then Err(InvalidArg)
    else
      assert Join(v, ':') == v[0] + [':'] + v[1];
      Ok(SubstEntry(v[0], v[1]))
  }

  datatype Parsed = Parsed(entries: seq<SubstEntry>, outcome: Outcome)

  /** The entries taken in order up to the first malformed one, which raises. */
  function ParseEntries(ss: seq<string>): (r: Parsed)
    ensures |r.entries| <= |ss|
  {
    if |ss| == 0 then Parsed([], Pass)
    else
      var first := ParseSubstEntry(ss[0]);
      if first.Err? then Parsed([], Fail(first.error))
      else
        var rest := ParseEntries(ss[1..]);
        Parsed([first.value] + rest.entries, rest.outcome)
  }

  /** The `subst-by-name` entries pass iff each holds exactly one ':'; then
      every entry is taken. Otherwise the call stops with an invalid argument
      at the first malformed entry, having taken every entry before it; each
      entry taken rebuilds its source text. */
  lemma {:induction false} ParseEntriesMeaning(ss: seq<string>)
    ensures var r := ParseEntries(ss);
      && (r.outcome == Pass <==> forall i | 0 <= i < |ss| :: Count(ss[i], ':') == 1)
      && (r.outcome == Pass ==> |r.entries| == |ss|)
      && (r.outcome.Fail? ==> r.outcome == Fail(InvalidArg) && |r.entries| < |ss| && Count(ss[|r.entries|], ':') != 1)
      && (forall i | 0 <= i < |r.entries| :: r.entries[i].accountSpec + ":" + r.entries[i].wasmPath == ss[i])
  {
    if |ss| > 0 {
      var first := ParseSubstEntry(ss[0]);
      if first.Ok? {
        ParseEntriesMeaning(ss[1..]);
        var rest := ParseEntries(ss[1..]);
        var r := ParseEntries(ss);
        assert forall i | 1 <= i < |ss| :: ss[i] == ss[1..][i - 1];
        assert forall i | 1 <= i < |r.entries| :: r.entries[i] == rest.entries[i - 1];
      }
    }
  }

  function Prefixed(es: seq<SubstEntry>, p: Parsed): Parsed
  {
    Parsed(es + p.entries, p.outcome)
  }

  /** One step of `ParseEntries`, stated apart so the loop in `PostDbInit`
      need not unfold the whole contract. */
  lemma ParseEntriesUnfold(ss: seq<string>)
    requires |ss| > 0
    ensures ParseSubstEntry(ss[0]).Err? ==> ParseEntries(ss) == Parsed([], Fail(InvalidArg))
    ensures ParseSubstEntry(ss[0]).Ok? ==>
      ParseEntries(ss) == Prefixed([ParseSubstEntry(ss[0]).value], ParseEntries(ss[1..]))
  {
  }

  /** The scheme `fc::url` reads off a URL: the text before the first ':'. */
  function Proto(url: string): string
  {
    SplitOn(url, ':')[0]
  }

  /** The plugin's options: `override-max-tx-time`, the repeatable
      `subst-by-name` and `subst-manifest` (which defaults to ""). */
  datatype Options = Options(
    overrideMaxTxTime: Option<U32>,
    substByName: Option<seq<string>>,
    substManifest: string)

  /** `override_tx_time`: the option is present and not zero. */
  predicate OverrideRequested(opts: Options): (b: bool)
    ensures b ==> opts.overrideMaxTxTime.Some? && opts.overrideMaxTxTime.value > 0
    ensures opts.overrideMaxTxTime.None? ==> !b
  {
    opts.overrideMaxTxTime.Some? && opts.overrideMaxTxTime.value != 0
  }

  // --------------------------------------------------- CPU limit override

  /** The two CPU limits of the chain configuration that the override touches. */
  datatype ChainConfig = ChainConfig(maxBlockCpuUsage: U32, maxTransactionCpuUsage: U32)

  /** `override_time * 1000` in 32-bit unsigned arithmetic. */
  function OverrideMicros(overrideTime: U32): (r: U32)
    ensures overrideTime < 4_294_968 ==> r == overrideTime * 1000
    ensures overrideTime >= 4_294_968 ==> r < overrideTime * 1000
  {
    (overrideTime * 1000) % 0x1_0000_0000
  }

  /** `pwn_gpo` on the configuration as the code is written: the
      transaction limit becomes the override, and the block limit is set to it
      when the override exceeds the old TRANSACTION limit (the local named
      after the block limit is read from the transaction limit). */
  function OverrideConfigAsWritten(overrideTime: U32, c: ChainConfig): (r: ChainConfig)
    ensures r.maxTransactionCpuUsage == OverrideMicros(overrideTime)
    ensures OverrideMicros(overrideTime) <= c.maxTransactionCpuUsage ==> r.maxBlockCpuUsage == c.maxBlockCpuUsage
    ensures OverrideMicros(overrideTime) > c.maxTransactionCpuUsage ==> r.maxBlockCpuUsage == OverrideMicros(overrideTime)
  {
    var us := OverrideMicros(overrideTime);
    var oldTxLimit := c.maxTransactionCpuUsage;
    ChainConfig(if us > oldTxLimit then us else c.maxBlockCpuUsage, us)
  }

  /** `pwn_gpo` on the configuration as its names and log line intend: the
      transaction limit becomes the override, and the block limit is raised
      to it when the override exceeds the block limit. */
  function OverrideConfig(overrideTime: U32, c: ChainConfig): (r: ChainConfig)
    ensures r.maxTransactionCpuUsage == OverrideMicros(overrideTime)
    ensures OverrideMicros(overrideTime) <= c.maxBlockCpuUsage ==> r.maxBlockCpuUsage == c.maxBlockCpuUsage
    ensures OverrideMicros(overrideTime) > c.maxBlockCpuUsage ==> r.maxBlockCpuUsage == OverrideMicros(overrideTime)
  {
    var us := OverrideMicros(overrideTime);
    ChainConfig(if us > c.maxBlockCpuUsage then us else c.maxBlockCpuUsage, us)
  }

  /** The corrected override never lowers the block limit, always leaves the
      transaction limit within it, and moves it only as far as needed. */
  lemma OverrideRaisesBlockLimitOnly(overrideTime: U32, c: ChainConfig)
    ensures OverrideConfig(overrideTime, c).maxBlockCpuUsage >= c.maxBlockCpuUsage
    ensures OverrideConfig(overrideTime, c).maxTransactionCpuUsage <= OverrideConfig(overrideTime, c).maxBlockCpuUsage
    ensures OverrideConfig(overrideTime, c).maxBlockCpuUsage == c.maxBlockCpuUsage
            || OverrideConfig(overrideTime, c).maxBlockCpuUsage == OverrideMicros(overrideTime)
  {
  }

  /** When the old transaction limit already fits in the block limit, the
      code as written keeps the new transaction limit within the block limit
      too. */
  lemma OverrideAsWrittenKeepsTxWithinBlock(overrideTime: U32, c: ChainConfig)
    requires c.maxTransactionCpuUsage <= c.maxBlockCpuUsage
    ensures OverrideConfigAsWritten(overrideTime, c).maxTransactionCpuUsage
            <= OverrideConfigAsWritten(overrideTime, c).maxBlockCpuUsage
  {
  }

  /** As written, the override lowers the block limit exactly when it lies
      strictly between the old transaction limit and the old block limit. */
  lemma OverrideAsWrittenLowersIff(overrideTime: U32, c: ChainConfig)
    ensures OverrideConfigAsWritten(overrideTime, c).maxBlockCpuUsage < c.maxBlockCpuUsage
            <==> c.maxTransactionCpuUsage < OverrideMicros(overrideTime) < c.maxBlockCpuUsage
  {
  }

  /** The code as written and the intended override differ exactly when the
      override lies strictly between the two old limits (the block limit is
      then lowered) or, with a transaction limit above the block limit, above
      the block limit but not above the transaction limit (the block limit is
      then left below the new transaction limit). */
  lemma OverrideAsWrittenDiffersIff(overrideTime: U32, c: ChainConfig)
    ensures var us := OverrideMicros(overrideTime);
      OverrideConfigAsWritten(overrideTime, c) != OverrideConfig(overrideTime, c)
      <==> (c.maxTransactionCpuUsage < us < c.maxBlockCpuUsage || c.maxBlockCpuUsage < us <= c.maxTransactionCpuUsage)
  {
  }

  /** Because the code compares with the old transaction limit, an override
      between the two old limits LOWERS the block limit: 180 ms on limits of
      150 ms per transaction and 200 ms per block leaves a 180 ms block limit,
      where the intended override keeps 200 ms. */
  lemma OverrideCanLowerBlockLimit()
    ensures OverrideConfigAsWritten(180, ChainConfig(200_000, 150_000)) == ChainConfig(180_000, 180_000)
    ensures OverrideConfig(180, ChainConfig(200_000, 150_000)) == ChainConfig(200_000, 180_000)
  {
  }

  /** The product wraps at 2^32: 4294968 ms becomes 704 us. */
  lemma OverrideMicrosWraps()
    ensures OverrideMicros(4_294_968) == 704
  {
  }

  /** One hook call's effect on the override: whether `pwn_gpo` runs, and
      whether the flag is armed afterwards. */
  datatype OverrideEffect = OverrideEffect(pwned: bool, armed: bool)

  function OverrideStep(overrideTxTime: bool, armed: bool, isSetparams: bool): (r: OverrideEffect)
    ensures r.pwned ==> overrideTxTime && armed
    ensures overrideTxTime ==> r.pwned == armed && r.armed == isSetparams
    ensures !overrideTxTime ==> r.armed == armed
  {
    if overrideTxTime then OverrideEffect(armed, isSetparams)
    else OverrideEffect(false, armed)
  }

  /** For a run of actions (true for `eosio::setparams`), whether each hook
      call overrides the limits. */
  function PwnTrace(overrideTxTime: bool, armed: bool, acts: seq<bool>): (r: seq<bool>)
    ensures |r| == |acts|
    decreases |acts|
  {
    if |acts| == 0 then []
    else
      var e := OverrideStep(overrideTxTime, armed, acts[0]);
      [e.pwned] + PwnTrace(overrideTxTime, e.armed, acts[1..])
  }

  /** With the override on, the first call overrides iff the plugin started
      armed and each later call iff the action before it was `setparams`;
      with it off, no call ever does. */
  lemma {:induction false} PwnFollowsSetparams(overrideTxTime: bool, armed: bool, acts: seq<bool>)
    ensures forall i | 0 <= i < |acts| ::
      PwnTrace(overrideTxTime, armed, acts)[i] == (overrideTxTime && (if i == 0 then armed else acts[i - 1]))
    decreases |acts|
  {
    if |acts| > 0 {
      var e := OverrideStep(overrideTxTime, armed, acts[0]);
      PwnFollowsSetparams(overrideTxTime, e.armed, acts[1..]);
      forall i | 1 <= i < |acts|
        ensures PwnTrace(overrideTxTime, armed, acts)[i] == (overrideTxTime && acts[i - 1])
      {
        assert PwnTrace(overrideTxTime, armed, acts)[i] == PwnTrace(overrideTxTime, e.armed, acts[1..])[i - 1];
        if i > 1 {
          assert acts[1..][i - 2] == acts[i - 1];
        }
      }
    }
  }

  /** The global property object the chain keeps; the override edits it in place. */
  class GlobalProperties {
    var configuration: ChainConfig

    constructor (configuration: ChainConfig)
      ensures this.configuration == configuration
    {
      this.configuration := configuration;
    }
  }

  // ----------------------------------------------------------- the plugin

  class SubstPluginImpl {
    const ctx: SubstitutionContext
    const gpo: GlobalProperties

    var overrideTxTime: bool
    var shouldPerformOverride: bool
    var overrideTime: U32

    constructor (ctx: SubstitutionContext, gpo: GlobalProperties)
      ensures this.ctx == ctx && this.gpo == gpo
      ensures !overrideTxTime && !shouldPerformOverride && overrideTime == 300
    {
      this.ctx := ctx;
      this.gpo := gpo;
      this.overrideTxTime := false;
      this.shouldPerformOverride := false;
      this.overrideTime := 300;
    }

    /** The `subst-by-name` loop of `post_db_init`: each entry is split and
        checked in turn, and the first malformed one raises. */
    method ParseByName(ss: seq<string>) returns (entries: seq<SubstEntry>, o: Outcome)
      ensures Parsed(entries, o) == ParseEntries(ss)
    {
      entries := [];
      var i := 0;
      while i < |ss|
        invariant 0 <= i <= |ss|
        invariant ParseEntries(ss) == Prefixed(entries, ParseEntries(ss[i..]))
      {
        var entry := ParseSubstEntry(ss[i]);
        ParseEntriesUnfold(ss[i..]);
        if entry.Err? {
          return entries, Fail(entry.error);
        }
        assert ss[i..][1..] == ss[i + 1..];
        entries := entries + [entry.value];
        i := i + 1;
      }
      o := Pass;
    }

    /** `post_db_init`: reads the override option, then checks each
        `subst-by-name` entry in turn, then the manifest URL's scheme. The
        entries returned are those that would have been read and upserted
        before any failure. */
    method PostDbInit(opts: Options) returns (entries: seq<SubstEntry>, o: Outcome)
      modifies this`overrideTxTime, this`shouldPerformOverride, this`overrideTime
      ensures overrideTxTime == OverrideRequested(opts)
      ensures shouldPerformOverride == overrideTxTime
      ensures overrideTime == if overrideTxTime then opts.overrideMaxTxTime.value else old(overrideTime)
      ensures var parsed := ParseEntries(if opts.substByName.Some? then opts.substByName.value else []);
        && entries == parsed.entries
        && (parsed.outcome.Fail? ==> o == parsed.outcome)
        && (parsed.outcome == Pass ==>
              o == if opts.substManifest != "" && Proto(opts.substManifest) != "http" then Fail(InvalidArg) else Pass)
    {
      overrideTxTime := OverrideRequested(opts);
      shouldPerformOverride := overrideTxTime;
      if shouldPerformOverride {
        overrideTime := opts.overrideMaxTxTime.value;
      }
      var ss := if opts.substByName.Some? then opts.substByName.value else [];
      entries, o := ParseByName(ss);
      if o.Fail? {
        return;
      }
      if opts.substManifest != "" && Proto(opts.substManifest) != "http" {
        return entries, Fail(InvalidArg);
      }
      o := Pass;
    }

    /** `pwn_gpo`, with the block limit compared against the block limit. */
    method PwnGpo()
      modifies gpo, this`shouldPerformOverride
      ensures gpo.configuration == OverrideConfig(overrideTime, old(gpo.configuration))
      ensures !shouldPerformOverride
    {
      var overrideMicros := OverrideMicros(overrideTime);
      var maxBlockCpuUsage := gpo.configuration.maxBlockCpuUsage;
      gpo.configuration := gpo.configuration.(maxTransactionCpuUsage := overrideMicros);
      if overrideMicros > maxBlockCpuUsage {
        gpo.configuration := gpo.configuration.(maxBlockCpuUsage := overrideMicros);
      }
      shouldPerformOverride := false;
    }

    /** The `substitute_apply` hook: the override step, then the
        reconciliation of the receiver; it never asks the chain to skip its
        own execution, and any exception is passed on. */
    method SubstituteApply(codeHash: Digest, vmType: VmTag, vmVersion: VmTag, receiver: Name, action: Name)
      returns (r: Result<bool>)
      requires ctx.Valid()
      modifies this`shouldPerformOverride, gpo, ctx
      ensures ctx.Valid()
      ensures var e := OverrideStep(overrideTxTime, old(shouldPerformOverride), receiver == EosioName && action == SetparamsName);
        && shouldPerformOverride == e.armed
        && gpo.configuration == (if e.pwned then OverrideConfig(overrideTime, old(gpo.configuration)) else old(gpo.configuration))
      ensures var h := SubstSpec.ApplyHook(ctx.Config(), old(ctx.Abs()), codeHash, receiver);
        && ctx.Abs() == h.state
        && r == if h.outcome.Fail? then Err(h.outcome.error) else Ok(false)
    {
      if overrideTxTime {
        if shouldPerformOverride {
          PwnGpo();
        }
        if receiver == EosioName && action == SetparamsName {
          shouldPerformOverride := true;
        }
      }
      var o := ctx.ApplyHook(codeHash, vmType, vmVersion, receiver);
      r := if o.Fail? then Err(o.error) else Ok(false);
    }
  }
}
