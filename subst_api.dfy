/** The administrative API over the substitution context: the status view of
    a record, and the read and write calls that act on one account or, with
    the account left out, on every tracked account in ascending order. A call
    that raises part-way reports only the error; what it changed before
    raising stays changed. */
module SubstApi {
  import opened Chain
  import opened SubstMeta
  import opened NameOrder
  import SubstSpec
  import SubstProps
  import opened SubstContext

  /** `status_codeobj`: the code object as stored, with the hash of its
      actual bytes beside the code_hash it is filed under. */
  datatype CodeObjRow = CodeObjRow(
    codeHash: Digest,
    actualCodeHash: Digest,
    codeSize: nat,
    codeRefCount: U64,
    firstBlockUsed: U32,
    vmType: VmTag,
    vmVersion: VmTag)

  /** `status_result`, without the compiled-tier cache status. */
  datatype StatusResult = StatusResult(
    account: Name,
    fromBlock: U64,
    originalHash: Digest,
    substitutionHash: Digest,
    accountMetadataObject: Option<AccountMeta>,
    codeObject: Option<CodeObjRow>)

  /** `get_account_status`: raises without a record; reports the record
      alone while the account has no metadata on chain; otherwise also the
      metadata and the code object, and raises when that object is missing. */
  function AccountStatus(env: Env, s: SubstSpec.State, a: Name): (r: Result<StatusResult>)
    ensures r.Err? <==> a !in s.meta || (a in s.accounts && !SubstSpec.HasCode(s, a))
    ensures r.Err? ==> r.error == if a !in s.meta then SubstMetaNotFound(a) else CodeObjectNotFound(a)
    ensures r.Ok? ==>
      && r.value.account == s.meta[a].account
      && r.value.fromBlock == s.meta[a].fromBlock
      && r.value.originalHash == s.meta[a].OgHash(env.hash)
      && r.value.substitutionHash == s.meta[a].SHash(env.hash)
    ensures r.Ok? && SubstSpec.Valid(s) ==> r.value.account == a
    ensures r.Ok? ==> (r.value.accountMetadataObject.Some? <==> a in s.accounts)
    ensures r.Ok? ==> (r.value.codeObject.Some? <==> a in s.accounts)
    ensures r.Ok? && a in s.accounts ==>
      && r.value.accountMetadataObject.value == s.accounts[a]
      && r.value.codeObject.value.codeHash == s.accounts[a].codeHash
      && r.value.codeObject.value.actualCodeHash == env.hash(SubstSpec.Live(s, a))
      && r.value.codeObject.value.codeSize == |SubstSpec.Live(s, a)|
  {
    var m := SubstSpec.GetByAccount(s, a);
    if m.Err? then Err(m.error)
    else
      var rec := m.value.value;
      var base := StatusResult(rec.account, rec.fromBlock, rec.OgHash(env.hash), rec.SHash(env.hash), None, None);
      var acc := SubstSpec.GetAccountMetadataObject(s, a, false);
      if acc.value.None? then Ok(base)
      else
        var c := SubstSpec.GetCodeobj(s, a);
        if c.Err? then Err(c.error)
        else
          var key := c.value.value;
          var obj := s.codes[key];
          var actual := SubstSpec.GetCodeobjHash(env, s, a).value;
          var row := CodeObjRow(key.codeHash, actual, |obj.code|, obj.codeRefCount, obj.firstBlockUsed, key.vmType, key.vmVersion);
          Ok(base.(codeObject := Some(row), accountMetadataObject := Some(acc.value.value)))
  }

  /** The accounts a call acts on: the one named, or every tracked account
      in ascending order. */
  ghost function Targets(account: Option<Name>, s: SubstSpec.State): (r: seq<Name>)
    ensures account.Some? ==> r == [account.value]
    ensures account.None? ==> Ascending(r) && forall x :: x in r <==> x in s.meta
  {
    if account.Some? then [account.value] else Sorted(s.meta.Keys)
  }

  /** The status of each account in turn; the first that raises ends the call. */
  function StatusRows(env: Env, s: SubstSpec.State, accts: seq<Name>): (r: Result<seq<StatusResult>>)
    ensures r.Ok? <==> forall i | 0 <= i < |accts| :: AccountStatus(env, s, accts[i]).Ok?
    ensures r.Ok? ==> |r.value| == |accts|
    ensures r.Ok? ==> forall i | 0 <= i < |accts| :: r.value[i] == AccountStatus(env, s, accts[i]).value
    ensures r.Err? ==> exists i | 0 <= i < |accts| :: AccountStatus(env, s, accts[i]) == Err(r.error)
    decreases |accts|
  {
    if |accts| == 0 then Ok([])
    else
      var init := accts[..|accts| - 1];
      var pre := StatusRows(env, s, init);
      assert forall i | 0 <= i < |init| :: init[i] == accts[i];
      if pre.Err? then pre
      else
        var row := AccountStatus(env, s, accts[|accts| - 1]);
        if row.Err? then Err(row.error) else Ok(pre.value + [row.value])
  }

  /** The whole table can be listed exactly when every tracked account that
      has metadata on chain also has its code object. */
  lemma {:induction false} StatusListsEveryTracked(env: Env, s: SubstSpec.State)
    ensures StatusRows(env, s, Sorted(s.meta.Keys)).Ok? <==>
      forall a | a in s.meta && a in s.accounts :: SubstSpec.HasCode(s, a)
  {
    var xs := Sorted(s.meta.Keys);
    if forall a | a in s.meta && a in s.accounts :: SubstSpec.HasCode(s, a) {
      forall i | 0 <= i < |xs|
        ensures AccountStatus(env, s, xs[i]).Ok?
      {
        assert xs[i] in s.meta;
      }
    } else {
      var a :| a in s.meta && a in s.accounts && !SubstSpec.HasCode(s, a);
      assert a in xs;
      var i :| 0 <= i < |xs| && xs[i] == a;
      assert AccountStatus(env, s, xs[i]).Err?;
    }
  }

  /** Rows that go through name the accounts asked for, in order. */
  lemma StatusRowsNameAccounts(env: Env, s: SubstSpec.State, accts: seq<Name>)
    requires SubstSpec.Valid(s)
    ensures var rows := StatusRows(env, s, accts);
      rows.Ok? ==> forall i | 0 <= i < |accts| :: rows.value[i].account == accts[i]
  {
    var rows := StatusRows(env, s, accts);
    if rows.Ok? {
      forall i | 0 <= i < |accts|
        ensures rows.value[i].account == accts[i]
      {
        assert rows.value[i] == AccountStatus(env, s, accts[i]).value;
      }
    }
  }

  /** After a successful `activate` the status row shows the replacement
      live: the code object's actual hash is the substitution hash, and the
      original hash is that of the captured bytes. */
  lemma {:induction false} StatusAfterActivate(env: Env, s: SubstSpec.State, a: Name)
    requires SubstSpec.Valid(s)
    requires a in s.meta && SubstSpec.HasCode(s, a) && SubstSpec.TagsZero(s, a)
    ensures var row := AccountStatus(env, SubstSpec.Activate(env, s, a).state, a);
      && row.Ok? && row.value.account == a
      && row.value.codeObject.value.actualCodeHash == row.value.substitutionHash
      && row.value.originalHash == CapturedHash(env.hash, SubstSpec.Live(s, a))
  {
    SubstProps.ActivateEffect(env, s, a, true);
  }

  /** After `activate` then `deactivate` the status row shows the original
      live again: when something had been deployed, the actual hash is the
      original hash. */
  lemma {:induction false} StatusAfterRoundTrip(env: Env, s: SubstSpec.State, a: Name)
    requires SubstSpec.Valid(s)
    requires a in s.meta && SubstSpec.HasCode(s, a) && SubstSpec.TagsZero(s, a)
    requires SubstSpec.Live(s, a) != []
    ensures var s1 := SubstSpec.Activate(env, s, a).state;
      var row := AccountStatus(env, SubstSpec.Deactivate(env, s1, a).state, a);
      && row.Ok?
      && row.value.codeObject.value.actualCodeHash == row.value.originalHash
      && row.value.originalHash == env.hash(SubstSpec.Live(s, a))
  {
    SubstProps.ActivateDeactivateRoundTrip(env, s, a);
    var s1 := SubstSpec.Activate(env, s, a).state;
    var s2 := SubstSpec.Deactivate(env, s1, a).state;
    assert SubstSpec.HasCode(s2, a) && SubstSpec.Live(s2, a) == SubstSpec.Live(s, a);
  }

  /** After `upsert` passes, the row reports the new replacement; a new
      record starts with the zero original hash and the given block, while an
      existing one keeps its block and its capture. */
  lemma {:induction false} StatusAfterUpsert(env: Env, s: SubstSpec.State, a: Name, fromBlock: U64, code: Bytes)
    requires SubstSpec.Valid(s)
    requires !SubstSpec.HasCode(s, a) ==> a !in s.accounts
    ensures var st := SubstSpec.Upsert(env, s, a, fromBlock, code);
      var row := AccountStatus(env, st.state, a);
      && st.outcome == Pass ==> row.Ok? && row.value.account == a && row.value.substitutionHash == env.hash(code)
    ensures var st := SubstSpec.Upsert(env, s, a, fromBlock, code);
      var row := AccountStatus(env, st.state, a);
      a !in s.meta ==> row.Ok? && row.value.originalHash == ZeroDigest && row.value.fromBlock == fromBlock
    ensures var st := SubstSpec.Upsert(env, s, a, fromBlock, code);
      var row := AccountStatus(env, st.state, a);
      a in s.meta && st.outcome == Pass ==>
        row.Ok? && row.value.originalHash == s.meta[a].OgHash(env.hash) && row.value.fromBlock == s.meta[a].fromBlock
  {
    var st := SubstSpec.Upsert(env, s, a, fromBlock, code);
    assert SubstSpec.HasCode(st.state, a) <==> SubstSpec.HasCode(s, a);
  }

  /** The write applied by a bulk call. */
  datatype BulkOp = ActivateEach | DeactivateEach

  function RunOp(env: Env, s: SubstSpec.State, op: BulkOp, a: Name): SubstSpec.Step
  {
    match op
    case ActivateEach => SubstSpec.Activate(env, s, a)
    case DeactivateEach => SubstSpec.Deactivate(env, s, a)
  }

  /** The state after one account's write, and the row reported for it. */
  datatype Reported = Reported(state: SubstSpec.State, row: Result<StatusResult>)

  /** One account of a bulk call: the write, then, if it went through, the
      account's status. */
  function OpAndReport(env: Env, s: SubstSpec.State, op: BulkOp, a: Name): (r: Reported)
    ensures r.state.meta.Keys == s.meta.Keys && r.state.accounts == s.accounts && r.state.nextId == s.nextId
    ensures SubstSpec.Valid(s) ==> SubstSpec.Valid(r.state)
    ensures SubstSpec.Valid(s) && r.row.Ok? ==> r.row.value.account == a
    ensures a !in s.meta ==> r == Reported(s, Err(SubstMetaNotFound(a)))
  {
    var st := RunOp(env, s, op, a);
    Reported(st.state, if st.outcome.Fail? then Err(st.outcome.error) else AccountStatus(env, st.state, a))
  }

  datatype Bulk = Bulk(state: SubstSpec.State, rows: Result<seq<StatusResult>>)

  /** `activate` / `deactivate` over a list of accounts: each account is
      written and then reported, in order, until one raises. */
  function BulkApply(env: Env, s: SubstSpec.State, op: BulkOp, accts: seq<Name>): (r: Bulk)
    ensures r.rows.Ok? ==> |r.rows.value| == |accts|
    ensures r.state.meta.Keys == s.meta.Keys && r.state.accounts == s.accounts && r.state.nextId == s.nextId
    ensures SubstSpec.Valid(s) ==> SubstSpec.Valid(r.state)
    decreases |accts|
  {
    if |accts| == 0 then Bulk(s, Ok([]))
    else
      var pre := BulkApply(env, s, op, accts[..|accts| - 1]);
      if pre.rows.Err? then pre
      else
        var x := OpAndReport(env, pre.state, op, accts[|accts| - 1]);
        if x.row.Err? then Bulk(x.state, Err(x.row.error))
        else Bulk(x.state, Ok(pre.rows.value + [x.row.value]))
  }

  lemma SnocOfInit(xs: seq<Name>)
    requires |xs| > 0
    ensures xs[..|xs| - 1] + [xs[|xs| - 1]] == xs
  {
  }

  /** The accounts the rows of a response name, in order. */
  function RowAccounts(rows: seq<StatusResult>): (r: seq<Name>)
    ensures |r| == |rows|
  {
    if |rows| == 0 then [] else RowAccounts(rows[..|rows| - 1]) + [rows[|rows| - 1].account]
  }

  /** A bulk call that goes through reports one row per account, in the
      order the accounts were given. */
  lemma {:induction false} BulkRowsFollowTargets(env: Env, s: SubstSpec.State, op: BulkOp, accts: seq<Name>)
    requires SubstSpec.Valid(s)
    ensures var r := BulkApply(env, s, op, accts);
      r.rows.Ok? ==> RowAccounts(r.rows.value) == accts
    decreases |accts|
  {
    if |accts| > 0 {
      var init := accts[..|accts| - 1];
      BulkRowsFollowTargets(env, s, op, init);
      var pre := BulkApply(env, s, op, init);
      if pre.rows.Ok? {
        var x := OpAndReport(env, pre.state, op, accts[|accts| - 1]);
        if x.row.Ok? {
          var rows := pre.rows.value + [x.row.value];
          assert rows[..|rows| - 1] == pre.rows.value;
          assert x.row.value.account == accts[|accts| - 1];
          SnocOfInit(accts);
        }
      }
    }
  }

  /** No account is named twice. */
  predicate Distinct(xs: seq<Name>)
  {
    forall i, j | 0 <= i < j < |xs| :: xs[i] != xs[j]
  }

  /** `remove` over a list of accounts, until one raises: only records are
      dropped, and when every removal goes through, exactly those named. */
  function RemoveEach(s: SubstSpec.State, accts: seq<Name>): (r: SubstSpec.Step)
    ensures r.outcome == Pass <==> Distinct(accts) && forall x | x in accts :: x in s.meta
    ensures r.state == s.(meta := r.state.meta)
    ensures forall x | x in r.state.meta :: x in s.meta && r.state.meta[x] == s.meta[x]
    ensures r.outcome == Pass ==> forall x :: x in r.state.meta <==> x in s.meta && x !in accts
    ensures SubstSpec.Valid(s) ==> SubstSpec.Valid(r.state)
    decreases |accts|
  {
    if |accts| == 0 then SubstSpec.Step(s, Pass)
    else
      var init := accts[..|accts| - 1];
      var pre := RemoveEach(s, init);
      assert forall x :: x in accts <==> x in init || x == accts[|accts| - 1];
      assert Distinct(accts) <==> Distinct(init) && accts[|accts| - 1] !in init;
      if pre.outcome.Fail? then pre
      else SubstSpec.Remove(pre.state, accts[|accts| - 1])
  }

  /** Removing every tracked account empties the table and touches nothing else. */
  lemma {:induction false} RemoveAllEmpties(s: SubstSpec.State)
    ensures RemoveEach(s, Sorted(s.meta.Keys)) == SubstSpec.Step(s.(meta := map[]), Pass)
  {
    var xs := Sorted(s.meta.Keys);
    assert Distinct(xs);
    var r := RemoveEach(s, xs);
    assert r.state.meta.Keys == {};
    assert r.state.meta == map[];
  }

  /** One more account in each of the three folds. */
  lemma StatusRowsSnoc(env: Env, s: SubstSpec.State, accts: seq<Name>, k: nat)
    requires k < |accts|
    ensures StatusRows(env, s, accts[..k + 1]) ==
      var pre := StatusRows(env, s, accts[..k]);
      var row := AccountStatus(env, s, accts[k]);
      if pre.Err? then pre else if row.Err? then Err(row.error) else Ok(pre.value + [row.value])
  {
    assert accts[..k + 1][..k] == accts[..k];
  }

  lemma BulkSnoc(env: Env, s: SubstSpec.State, op: BulkOp, accts: seq<Name>, k: nat)
    requires k < |accts|
    ensures BulkApply(env, s, op, accts[..k + 1]) ==
      var pre := BulkApply(env, s, op, accts[..k]);
      if pre.rows.Err? then pre
      else
        var x := OpAndReport(env, pre.state, op, accts[k]);
        if x.row.Err? then Bulk(x.state, Err(x.row.error))
        else Bulk(x.state, Ok(pre.rows.value + [x.row.value]))
  {
    assert accts[..k + 1][..k] == accts[..k];
  }

  lemma RemoveSnoc(s: SubstSpec.State, accts: seq<Name>, k: nat)
    requires k < |accts|
    ensures RemoveEach(s, accts[..k + 1]) ==
      var pre := RemoveEach(s, accts[..k]);
      if pre.outcome.Fail? then pre else SubstSpec.Remove(pre.state, accts[k])
  {
    assert accts[..k + 1][..k] == accts[..k];
  }

  /** Once a prefix of the accounts raises, the rest are never reached. */
  lemma {:induction false} StatusRowsStopAtError(env: Env, s: SubstSpec.State, accts: seq<Name>, k: nat)
    requires k <= |accts| && StatusRows(env, s, accts[..k]).Err?
    ensures StatusRows(env, s, accts) == StatusRows(env, s, accts[..k])
    decreases |accts|
  {
    if k == |accts| {
      assert accts[..k] == accts;
    } else {
      var init := accts[..|accts| - 1];
      assert init[..k] == accts[..k];
      StatusRowsStopAtError(env, s, init, k);
    }
  }

  lemma {:induction false} BulkStopsAtError(env: Env, s: SubstSpec.State, op: BulkOp, accts: seq<Name>, k: nat)
    requires k <= |accts| && BulkApply(env, s, op, accts[..k]).rows.Err?
    ensures BulkApply(env, s, op, accts) == BulkApply(env, s, op, accts[..k])
    decreases |accts|
  {
    if k == |accts| {
      assert accts[..k] == accts;
    } else {
      var init := accts[..|accts| - 1];
      assert init[..k] == accts[..k];
      BulkStopsAtError(env, s, op, init, k);
    }
  }

  lemma {:induction false} RemoveStopsAtError(s: SubstSpec.State, accts: seq<Name>, k: nat)
    requires k <= |accts| && RemoveEach(s, accts[..k]).outcome.Fail?
    ensures RemoveEach(s, accts) == RemoveEach(s, accts[..k])
    decreases |accts|
  {
    if k == |accts| {
      assert accts[..k] == accts;
    } else {
      var init := accts[..|accts| - 1];
      assert init[..k] == accts[..k];
      RemoveStopsAtError(s, init, k);
    }
  }

  /** `subst_apis`: the calls the HTTP endpoints forward to. */
  class SubstApis {
    const sctx: SubstitutionContext

    constructor (sctx: SubstitutionContext)
      ensures this.sctx == sctx
    {
      this.sctx := sctx;
    }

    /** The loop that reports every tracked account. */
    method StatusOfAll() returns (r: Result<seq<StatusResult>>)
      ensures r == StatusRows(sctx.Config(), sctx.Abs(), Sorted(sctx.meta.Keys))
    {
      var subs := sctx.GetSubstitutions();
      var rows := [];
      var i := 0;
      while i < |subs|
        invariant 0 <= i <= |subs|
        invariant StatusRows(sctx.Config(), sctx.Abs(), subs[..i]) == Ok(rows)
      {
        StatusRowsSnoc(sctx.Config(), sctx.Abs(), subs, i);
        var row := AccountStatus(sctx.Config(), sctx.Abs(), subs[i]);
        if row.Err? {
          StatusRowsStopAtError(sctx.Config(), sctx.Abs(), subs, i + 1);
          return Err(row.error);
        }
        rows := rows + [row.value];
        i := i + 1;
      }
      assert subs[..i] == subs;
      r := Ok(rows);
    }

    /** `status`: one row for the named account, or one per tracked account. */
    method Status(account: Option<Name>) returns (r: Result<seq<StatusResult>>)
      ensures r == StatusRows(sctx.Config(), sctx.Abs(), Targets(account, sctx.Abs()))
    {
      if account.Some? {
        var row := AccountStatus(sctx.Config(), sctx.Abs(), account.value);
        StatusRowsSnoc(sctx.Config(), sctx.Abs(), [account.value], 0);
        assert [account.value][..1] == [account.value] && [account.value][..0] == [];
        assert StatusRows(sctx.Config(), sctx.Abs(), []) == Ok([]);
        if row.Err? {
          r := Err(row.error);
        } else {
          r := Ok([row.value]);
          assert [] + [row.value] == [row.value];
        }
      } else {
        r := StatusOfAll();
      }
    }

    /** `upsert`: registers or replaces the substitution, then reports it. */
    method Upsert(account: Name, fromBlock: U64, code: Bytes) returns (r: Result<StatusResult>)
      requires sctx.Valid()
      modifies sctx
      ensures sctx.Valid()
      ensures var st := SubstSpec.Upsert(sctx.Config(), old(sctx.Abs()), account, fromBlock, code);
        && sctx.Abs() == st.state
        && r == if st.outcome.Fail? then Err(st.outcome.error) else AccountStatus(sctx.Config(), st.state, account)
    {
      var o := sctx.Upsert(account, fromBlock, code);
      if o.Fail? {
        return Err(o.error);
      }
      r := AccountStatus(sctx.Config(), sctx.Abs(), account);
    }

    /** One account of `activate` / `deactivate`: the write, then its row. */
    method ApplyAndReport(op: BulkOp, a: Name) returns (r: Result<StatusResult>)
      requires sctx.Valid()
      modifies sctx
      ensures sctx.Valid()
      ensures OpAndReport(sctx.Config(), old(sctx.Abs()), op, a) == Reported(sctx.Abs(), r)
    {
      var o;
      if op == ActivateEach {
        o := sctx.Activate(a);
      } else {
        o := sctx.Deactivate(a);
      }
      if o.Fail? {
        return Err(o.error);
      }
      r := AccountStatus(sctx.Config(), sctx.Abs(), a);
    }

    /** The loop shared by `activate` and `deactivate`. */
    method ApplyList(op: BulkOp, targets: seq<Name>) returns (r: Result<seq<StatusResult>>)
      requires sctx.Valid()
      modifies sctx
      ensures sctx.Valid()
      ensures BulkApply(sctx.Config(), old(sctx.Abs()), op, targets) == Bulk(sctx.Abs(), r)
    {
      ghost var s0 := sctx.Abs();
      var rows := [];
      var i := 0;
      while i < |targets|
        invariant 0 <= i <= |targets|
        invariant sctx.Valid()
        invariant BulkApply(sctx.Config(), s0, op, targets[..i]) == Bulk(sctx.Abs(), Ok(rows))
      {
        BulkSnoc(sctx.Config(), s0, op, targets, i);
        var row := ApplyAndReport(op, targets[i]);
        if row.Err? {
          BulkStopsAtError(sctx.Config(), s0, op, targets, i + 1);
          return Err(row.error);
        }
        rows := rows + [row.value];
        i := i + 1;
      }
      assert targets[..i] == targets;
      r := Ok(rows);
    }

    /** The shared body of `activate` and `deactivate`: the named account,
        or every tracked account. */
    method ApplyEach(op: BulkOp, account: Option<Name>) returns (r: Result<seq<StatusResult>>)
      requires sctx.Valid()
      modifies sctx
      ensures sctx.Valid()
      ensures var b := BulkApply(sctx.Config(), old(sctx.Abs()), op, Targets(account, old(sctx.Abs())));
        sctx.Abs() == b.state && r == b.rows
    {
      var targets: seq<Name>;
      if account.Some? {
        targets := [account.value];
      } else {
        targets := sctx.GetSubstitutions();
      }
      r := ApplyList(op, targets);
    }

    /** `activate`. */
    method Activate(account: Option<Name>) returns (r: Result<seq<StatusResult>>)
      requires sctx.Valid()
      modifies sctx
      ensures sctx.Valid()
      ensures var b := BulkApply(sctx.Config(), old(sctx.Abs()), ActivateEach, Targets(account, old(sctx.Abs())));
        sctx.Abs() == b.state && r == b.rows
    {
      r := ApplyEach(ActivateEach, account);
    }

    /** `deactivate`. */
    method Deactivate(account: Option<Name>) returns (r: Result<seq<StatusResult>>)
      requires sctx.Valid()
      modifies sctx
      ensures sctx.Valid()
      ensures var b := BulkApply(sctx.Config(), old(sctx.Abs()), DeactivateEach, Targets(account, old(sctx.Abs())));
        sctx.Abs() == b.state && r == b.rows
    {
      r := ApplyEach(DeactivateEach, account);
    }

    /** The removal loop of `remove`. */
    method RemoveList(targets: seq<Name>) returns (o: Outcome)
      requires sctx.Valid()
      modifies sctx
      ensures sctx.Valid()
      ensures RemoveEach(old(sctx.Abs()), targets) == SubstSpec.Step(sctx.Abs(), o)
    {
      ghost var s0 := sctx.Abs();
      var i := 0;
      while i < |targets|
        invariant 0 <= i <= |targets|
        invariant sctx.Valid()
        invariant RemoveEach(s0, targets[..i]) == SubstSpec.Step(sctx.Abs(), Pass)
      {
        RemoveSnoc(s0, targets, i);
        o := sctx.Remove(targets[i]);
        if o.Fail? {
          RemoveStopsAtError(s0, targets, i + 1);
          return;
        }
        i := i + 1;
      }
      assert targets[..i] == targets;
      o := Pass;
    }

    /** `remove`: drops the named record, or every record, then reports
        whatever is still tracked. */
    method Remove(account: Option<Name>) returns (r: Result<seq<StatusResult>>)
      requires sctx.Valid()
      modifies sctx
      ensures sctx.Valid()
      ensures var st := RemoveEach(old(sctx.Abs()), Targets(account, old(sctx.Abs())));
        && sctx.Abs() == st.state
        && r == if st.outcome.Fail? then Err(st.outcome.error)
                else StatusRows(sctx.Config(), st.state, Sorted(st.state.meta.Keys))
      ensures account.None? ==> sctx.meta == map[] && r == Ok([])
    {
      var targets: seq<Name>;
      if account.Some? {
        targets := [account.value];
      } else {
        targets := sctx.GetSubstitutions();
        RemoveAllEmpties(sctx.Abs());
      }
      var o := RemoveList(targets);
      if o.Fail? {
        return Err(o.error);
      }
      r := StatusOfAll();
    }
  }
}
