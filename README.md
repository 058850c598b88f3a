# Contract substitution for a Leap node, modelled in Dafny

The subst plugin lets a node operator replace the contract code that runs at
an account without touching consensus. It keeps one substitution record per
account (`subst_meta_object`). A record holds:

- the block from which the replacement applies;
- the captured original bytes `og_code`;
- the replacement bytes `s_code`.

Before every action the chain calls the plugin's hook. Once the record is due,
the hook writes the replacement into the account's code object when the
chain's code hash has moved away from the captured original. It also writes
it back when something else has put other bytes there. Each swap first evicts
the compiled-code caches.

Around this engine sit three more pieces:

- the options read after the database opens;
- an operator override of the on-chain CPU limits, re-applied after every
  `eosio::setparams`;
- an administrative API with status, upsert, activate, deactivate and remove.

The project is split into these modules:

- `Chain` (chain.dfy): the chain state the engine reads and writes. This is
  the account metadata objects, and code objects keyed by
  `(code_hash, vm_type, vm_version)`. It also holds the error kinds and the
  log of cache evictions.
- `SubstMeta` (subst_meta.dfy): the substitution record, its two derived
  hashes and the table's index invariant.
- `NameOrder` (name_order.dfy): ascending sequences of account names. This is
  the order in which `std::set<name>` hands back the tracked accounts.
- `SubstSpec` (subst_spec.dfy): every engine operation as a pure transition
  on the whole state. Each one returns the new state and whether the call
  raised. What changed before an exception stays changed.
- `SubstProps` (subst_props.dfy): properties that span several calls.
  - what a successful activation does;
  - the activate/deactivate round trip;
  - which cache entries are evicted;
  - the hook settles after one call, as long as the chain's code hash is the
    record's original hash or the hash of the bytes the call captures;
  - the hook heals itself;
  - a second capturing `activate` loses the original, and the hook then
    never settles.
- `SubstContext` (subst_context.dfy): `substitution_context` as a class whose
  fields the methods update in place. Each method is proved to make exactly
  the `SubstSpec` transition and to keep the index invariant.
  `GetSubstitutions` is proved to return the tracked accounts in ascending
  order.
- `SubstPlugin` (subst_plugin.dfy): the plugin around the engine.
  - the `subst-by-name` splitting, with its split/join round trip;
  - the option handling of `post_db_init`;
  - the CPU-limit override with its 32-bit arithmetic;
  - the arm/fire flag of the override;
  - the hook wrapper.
- `SubstApi` (subst_api.dfy): the API calls. They act on one account, or on
  every tracked account in ascending order, and report status rows. A call
  that raises part-way returns only the error.

The chain's digest function is a parameter (`Env.hash`), and so is whether
the node was built with, and runs, the compiled (OC) tier (`Env.oc`). The
cache evictions are recorded as a log of `Eviction` values rather than
performed.

The model follows the code where the code departs from the documented
behaviour:

- `deactivate` and `remove` raise when the record is missing.
- `deactivate` also raises when the account or its code object is missing.
- `upsert` of an existing record replaces only `s_code`. It keeps the record's
  `from_block`, which `update` only logs.
- `upsert` of an existing record raises after the replacement when the account
  has no code object. Its `ilog` line looks up the live code hash strictly.
  The log line of `activate` does the same lookup after the swap. This
  assumes info-level logging is enabled (see "## Left out").
- `activate` always captures when asked to, even when the replacement is
  already live. The API's `activate` always asks, and so does the hook's
  first swap. A second capturing `activate` therefore records the
  replacement as the original. After that, `deactivate` writes the
  replacement back, and the bytes that were live before the first
  `activate` are held nowhere. The record's original hash then no longer
  matches the chain's code hash, so every due hook call re-runs the
  capturing `activate` and evicts the caches again. The single round trip
  still holds: `deactivate` puts back the bytes that were live just before
  the most recent capturing `activate`.

## Model

| member | source | states |
|---|---|---|
| SubstMeta.CapturedHash | plugins/subst_plugin/substitution_context.hpp:43-47 | the original hash is the zero digest for an empty capture and the hash of the bytes otherwise; it is zero exactly when nothing was captured or the bytes hash to zero |
| SubstMeta.Record.OgHash | plugins/subst_plugin/substitution_context.hpp:43-47 | `og_hash()` is the zero digest while nothing is captured and the hash of the captured bytes otherwise |
| SubstMeta.Record.SHash | plugins/subst_plugin/substitution_context.hpp:49-52 | `s_hash()` has no zero case: an empty replacement hashes like any other bytes, and the result is zero only when the hash of the replacement is |
| SubstMeta.NewRecord | plugins/subst_plugin/substitution_context.cpp:63-73 | a new record carries the account, the block and the replacement, with nothing captured |
| SubstMeta.NewRecordHasZeroOriginal | plugins/subst_plugin/substitution_context.hpp:43-52 | a freshly created record reports the zero original hash, whatever the hash function, and the hash of its replacement |
| SubstMeta.OgHashZeroIffEmpty | plugins/subst_plugin/substitution_context.hpp:43-47 | when the hash never yields the zero digest, the original hash is zero exactly when nothing has been captured |
| SubstMeta.EmptyCodesHashApart | plugins/subst_plugin/substitution_context.hpp:43-52 | with an empty capture and an empty replacement, the two hashes still differ when hashing no bytes does not give zero, because only the original hash has a zero case |
| SubstSpec.GetByAccount | plugins/subst_plugin/substitution_context.cpp:5-18 | the lookup raises exactly when it is strict and the account has no record; otherwise it returns the record if there is one |
| SubstSpec.GetAccountMetadataObject | plugins/subst_plugin/substitution_context.cpp:20-33 | same shape for the account metadata object |
| SubstSpec.GetCodeobj | plugins/subst_plugin/substitution_context.cpp:36-54 | the metadata lookup is always strict; the code object is found under the metadata's (code_hash, vm_type, vm_version); the lookup raises when it is missing and the lookup is strict |
| SubstSpec.GetCodeobjHash | plugins/subst_plugin/substitution_context.cpp:57-60 | succeeds exactly when the account has a code object, and then gives the hash of its live bytes; otherwise it raises the first missing object's error |
| SubstSpec.Create | plugins/subst_plugin/substitution_context.cpp:63-73 | creating a record for an untracked account keeps the index invariant |
| SubstSpec.Update | plugins/subst_plugin/substitution_context.cpp:81-97 | replacing the code of a tracked account keeps the index invariant |
| SubstSpec.Upsert | plugins/subst_plugin/substitution_context.cpp:100-110 | the account is tracked afterwards with the new replacement; a new record starts with nothing captured and always passes; an existing record changes only its replacement, and the call passes iff the account has a code object; other records and the chain's code store are unchanged; the index invariant is kept |
| SubstSpec.Evictions | plugins/subst_plugin/substitution_context.cpp:145-165 | a cache reset always begins with the wasm-cache sweep at the pending block; it frees the compiled entry of the code object's (code_hash, vm_version) iff the OC tier runs, and does nothing else without it |
| SubstSpec.ResetCaches | plugins/subst_plugin/substitution_context.cpp:145-165 | only the eviction log changes; the wasm cache is always swept at the pending block; with the OC build the code object is looked up strictly, so the call raises iff it is missing; with the OC tier that object's cache entry is also freed |
| SubstSpec.ModifyCode | plugins/subst_plugin/substitution_context.cpp:127-133 | rewriting a code object moves it to (code_hash, 0, 0) with the new bytes; it fails as a uniqueness violation exactly when another object already sits there |
| SubstSpec.Activate | plugins/subst_plugin/substitution_context.cpp:113-142 | a missing record, metadata object or code object raises with nothing changed; the set of records, the accounts and the other records never change; the index invariant is kept |
| SubstSpec.Deactivate | plugins/subst_plugin/substitution_context.cpp:178-201 | the same three errors; when the live hash is not the replacement's, nothing happens; the records are never changed |
| SubstSpec.Remove | plugins/subst_plugin/substitution_context.cpp:204-208 | passes iff the account is tracked, and then drops just its record; a miss raises with nothing changed |
| SubstSpec.Reconcile | plugins/subst_plugin/substitution_context.cpp:242-266 | before the record's block nothing happens; a chain hash different from the original hash activates with capture; otherwise a live hash different from the replacement's activates without capture, and a missing code object raises |
| SubstSpec.ApplyHookAsWritten | plugins/subst_plugin/substitution_context.cpp:227-267 | the code as written: the strict receiver lookup raises for an untracked receiver; a tracked one is reconciled |
| SubstSpec.ApplyHook | plugins/subst_plugin/substitution_context.cpp:227-267 | the intended hook: an untracked receiver is left alone; a tracked one is reconciled |
| NameOrder.Sorted | plugins/subst_plugin/substitution_context.cpp:168-175 | the ascending sequence of a set of names holds each name once |
| NameOrder.AscendingUnique | plugins/subst_plugin/substitution_context.cpp:168-175 | two ascending sequences with the same names are equal, so the order in which the tracked accounts are listed is determined |
| SubstProps.ActivateCapturesAndEvictsFirst | plugins/subst_plugin/substitution_context.cpp:113-127 | whatever happens later, activation captures the live bytes when asked to and evicts the cache entries of the code object as it was before the swap |
| SubstProps.ActivateLeavesOtherCode | plugins/subst_plugin/substitution_context.cpp:113-133 | activation changes no code object other than the one it rewrites and the key that object moves to |
| SubstProps.ActivateEffect | plugins/subst_plugin/substitution_context.cpp:113-142 | with zero vm tags, activating a tracked account with code passes; the code object keeps its key and now holds the replacement; only the capture changes in the records; the live bytes are the replacement |
| SubstProps.DeactivateRestores | plugins/subst_plugin/substitution_context.cpp:178-201 | with zero vm tags and the replacement live, deactivation passes, writes the captured original into the same code object and evicts its cache entries |
| SubstProps.ActivateDeactivateRoundTrip | plugins/subst_plugin/substitution_context.cpp:113-201 | activate with capture followed by deactivate gives back exactly the code store as it was just before that activate, and the record keeps what that activate captured; when the replacement was already live, that is the replacement (see ActivateTwiceLosesOriginal) |
| SubstProps.ActivateTwiceLosesOriginal | plugins/subst_plugin/substitution_context.cpp:113-125 | a second capturing activate records the replacement as the original; deactivate then leaves the replacement live, and the record no longer holds the bytes that were live before the first activate |
| SubstProps.RecapturedHookNeverSettles | plugins/subst_plugin/substitution_context.cpp:242-253 | once the replacement is recorded as the original and the chain's code hash is not its captured hash, each due hook call re-runs the capturing activate, which passes and changes only the eviction log, extending it; the state it leaves meets the same conditions, so the hook never settles |
| SubstProps.SteadyStateIsFixpoint | plugins/subst_plugin/substitution_context.cpp:242-266 | a due record whose original hash matches the chain's and whose replacement is live is left alone by both readings of the hook |
| SubstProps.ApplyHookSettles | plugins/subst_plugin/substitution_context.cpp:242-266 | with zero vm tags, a due record, and a chain code hash equal to the record's original hash or to the captured hash of the live bytes, the hook passes and a second call for the same action changes nothing; without that condition on the code hash it need not settle (see RecapturedHookNeverSettles) |
| SubstProps.SelfHealing | plugins/subst_plugin/substitution_context.cpp:242-266 | the first due call captures the original and swaps in the replacement; if the original is written back, the next call re-applies the replacement without capturing it as the original |
| SubstProps.UntrackedReceiverDiscrepancy | plugins/subst_plugin/substitution_context.cpp:237-240 | for an untracked receiver the code as written raises, while the intended hook changes nothing |
| SubstProps.TrackedReceiverAgreement | plugins/subst_plugin/substitution_context.cpp:237-266 | for a tracked receiver both readings of the hook agree |
| SubstContext.SubstitutionContext.constructor | plugins/subst_plugin/substitution_context.hpp:65-67 | a context over an existing chain state starts from the record table the database already holds, whose index invariant it requires, with an empty eviction log |
| SubstContext.SubstitutionContext.Create | plugins/subst_plugin/substitution_context.cpp:63-73 | makes exactly the `SubstSpec.Create` transition, handing out the next id |
| SubstContext.SubstitutionContext.Update | plugins/subst_plugin/substitution_context.cpp:81-97 | makes exactly the `SubstSpec.Update` transition |
| SubstContext.SubstitutionContext.Upsert | plugins/subst_plugin/substitution_context.cpp:100-110 | makes exactly the `SubstSpec.Upsert` transition and keeps the index invariant |
| SubstContext.SubstitutionContext.ResetCaches | plugins/subst_plugin/substitution_context.cpp:145-165 | makes exactly the `SubstSpec.ResetCaches` transition |
| SubstContext.SubstitutionContext.ModifyCode | plugins/subst_plugin/substitution_context.cpp:127-133 | changes the code store as `SubstSpec.ModifyCode` says, or leaves it alone and fails |
| SubstContext.SubstitutionContext.Activate | plugins/subst_plugin/substitution_context.cpp:113-142 | makes exactly the `SubstSpec.Activate` transition and keeps the index invariant |
| SubstContext.SubstitutionContext.Deactivate | plugins/subst_plugin/substitution_context.cpp:178-201 | makes exactly the `SubstSpec.Deactivate` transition and keeps the index invariant |
| SubstContext.SubstitutionContext.Remove | plugins/subst_plugin/substitution_context.cpp:204-208 | makes exactly the `SubstSpec.Remove` transition and keeps the index invariant |
| SubstContext.SubstitutionContext.GetSubstitutions | plugins/subst_plugin/substitution_context.cpp:168-175 | returns every tracked account once, in ascending order |
| SubstContext.SubstitutionContext.ApplyHook | plugins/subst_plugin/substitution_context.cpp:227-267 | makes exactly the `SubstSpec.ApplyHook` transition and keeps the index invariant |
| SubstPlugin.SplitOn | plugins/subst_plugin/subst_plugin.cpp:88-89 | splitting always yields at least one part |
| SubstPlugin.SplitCount | plugins/subst_plugin/subst_plugin.cpp:88-89 | splitting keeps empty parts, so there is one part more than there are separators |
| SubstPlugin.SplitPartsFree | plugins/subst_plugin/subst_plugin.cpp:88-89 | no part contains the separator |
| SubstPlugin.JoinSplit | plugins/subst_plugin/subst_plugin.cpp:88-89 | joining the parts with the separator gives back the input |
| SubstPlugin.ParseSubstEntry | plugins/subst_plugin/subst_plugin.cpp:88-99 | an entry is accepted iff it holds exactly one ':'; the two parts are then colon-free and rebuild the entry around the ':'; otherwise it is an invalid argument |
| SubstPlugin.ParseEntries | plugins/subst_plugin/subst_plugin.cpp:85-104 | the entries are taken in order, never more than were given |
| SubstPlugin.ParseEntriesMeaning | plugins/subst_plugin/subst_plugin.cpp:85-104 | the call passes iff every entry holds exactly one ':', and then takes every entry; otherwise it stops with an invalid argument at the first malformed entry, having taken every entry before it; each entry taken rebuilds its source text |
| SubstPlugin.OverrideRequested | plugins/subst_plugin/subst_plugin.cpp:74-75 | the override is requested only when the option is given with a non-zero value |
| SubstPlugin.OverrideMicros | plugins/subst_plugin/subst_plugin.cpp:122 | below 4294968 ms the override is exactly the milliseconds times 1000; from there on the 32-bit product has wrapped and is smaller |
| SubstPlugin.OverrideConfigAsWritten | plugins/subst_plugin/subst_plugin.cpp:120-139 | the code as written: the transaction limit becomes the override; the block limit becomes the override when the override exceeds the old TRANSACTION limit, and stays otherwise |
| SubstPlugin.OverrideAsWrittenLowersIff | plugins/subst_plugin/subst_plugin.cpp:123-137 | as written, the block limit is lowered exactly when the override lies strictly between the old transaction limit and the old block limit |
| SubstPlugin.OverrideAsWrittenDiffersIff | plugins/subst_plugin/subst_plugin.cpp:123-137 | the code as written and the intended override differ exactly when the override lies strictly between the old transaction and block limits, or above the block limit but not above a larger transaction limit |
| SubstPlugin.OverrideConfig | plugins/subst_plugin/subst_plugin.cpp:120-139 | the intended override: the transaction limit becomes the override; the block limit becomes the override when the override exceeds the old block limit, and stays otherwise |
| SubstPlugin.OverrideRaisesBlockLimitOnly | plugins/subst_plugin/subst_plugin.cpp:132-139 | the intended override never lowers the block limit and always leaves the transaction limit within it |
| SubstPlugin.OverrideAsWrittenKeepsTxWithinBlock | plugins/subst_plugin/subst_plugin.cpp:120-139 | as written, the transaction limit stays within the block limit when it did before the override |
| SubstPlugin.OverrideCanLowerBlockLimit | plugins/subst_plugin/subst_plugin.cpp:123-137 | as written, a 180 ms override on limits of 150 ms per transaction and 200 ms per block lowers the block limit to 180 ms; the intended override keeps 200 ms |
| SubstPlugin.OverrideMicrosWraps | plugins/subst_plugin/subst_plugin.cpp:122 | the milliseconds-to-microseconds product is 32-bit unsigned and wraps |
| SubstPlugin.OverrideStep | plugins/subst_plugin/subst_plugin.cpp:42-55 | one hook call overrides only when the override is on and the plugin is armed; with the override on it overrides iff armed and is armed afterwards iff the action is `eosio::setparams`; with it off the flag stays |
| SubstPlugin.PwnTrace | plugins/subst_plugin/subst_plugin.cpp:42-55 | one override decision per hook call |
| SubstPlugin.PwnFollowsSetparams | plugins/subst_plugin/subst_plugin.cpp:42-55 | with the override on, the first hook call overrides iff the plugin starts armed, and every later call iff the previous action was `eosio::setparams`; with it off no call does |
| SubstPlugin.SubstPluginImpl.constructor | plugins/subst_plugin/subst_plugin.cpp:22-24 | the override starts off and disarmed, at 300 ms |
| SubstPlugin.SubstPluginImpl.ParseByName | plugins/subst_plugin/subst_plugin.cpp:85-104 | the loop over the `subst-by-name` entries gives exactly the entries and outcome of `ParseEntries` |
| SubstPlugin.SubstPluginImpl.PostDbInit | plugins/subst_plugin/subst_plugin.cpp:71-115 | the override is on iff the option is given and not zero, it starts armed iff it is on, and its value is taken only then; the entries are parsed in order; a non-empty manifest URL whose scheme is not `http` is an invalid argument |
| SubstPlugin.SubstPluginImpl.PwnGpo | plugins/subst_plugin/subst_plugin.cpp:120-164 | applies the intended override to the global properties and disarms the override |
| SubstPlugin.SubstPluginImpl.SubstituteApply | plugins/subst_plugin/subst_plugin.cpp:33-62 | with the override on, an armed plugin overrides first, and the plugin is then armed iff the action is `eosio::setparams`; with it off the flag and the limits stay; the corrected substitution hook (`SubstSpec.ApplyHook`, not the as-written one that raises for an untracked receiver) then runs, and the wrapper never asks the chain to skip the action but passes on any exception |
| SubstApi.AccountStatus | plugins/subst_api_plugin/api.hpp:109-210 | raises without a record; without account metadata it reports the record alone; otherwise it reports the metadata and the code object, whose actual hash is the hash of the live bytes; it raises if the code object is missing; the row names the account when the index is valid |
| SubstApi.Targets | plugins/subst_api_plugin/api.hpp:221-232 | a call acts on the named account, or on every tracked account in ascending order |
| SubstApi.StatusRows | plugins/subst_api_plugin/api.hpp:221-232 | one row per account in order, each that account's status; if any status raises the call raises, with the error of an account whose status raises |
| SubstApi.StatusListsEveryTracked | plugins/subst_api_plugin/api.hpp:221-232 | listing all tracked accounts succeeds iff every tracked account with metadata has a code object |
| SubstApi.StatusRowsNameAccounts | plugins/subst_api_plugin/api.hpp:221-232 | when the index is valid, rows that go through name the accounts asked for, in order |
| SubstApi.StatusAfterActivate | plugins/subst_api_plugin/api.hpp:252-266 | after a successful activation, the status row shows the replacement live and the captured original as the original hash |
| SubstApi.StatusAfterRoundTrip | plugins/subst_api_plugin/api.hpp:252-284 | after activate then deactivate, the status row shows the original live again |
| SubstApi.StatusAfterUpsert | plugins/subst_api_plugin/api.hpp:243-248 | after a passing upsert the row reports the new replacement hash; a new record reports the zero original hash and the given block; an existing record keeps its block and its original hash |
| SubstApi.OpAndReport | plugins/subst_api_plugin/api.hpp:255-262 | one account's write and row: the set of records and the accounts are unchanged, the index invariant is kept, and an untracked account raises with nothing changed |
| SubstApi.BulkApply | plugins/subst_api_plugin/api.hpp:252-284 | a bulk activate or deactivate that passes reports one row per account; the set of records and the accounts never change; the index invariant is kept |
| SubstApi.BulkRowsFollowTargets | plugins/subst_api_plugin/api.hpp:252-284 | a bulk call that passes reports its rows in the order of the accounts given |
| SubstApi.RemoveEach | plugins/subst_api_plugin/api.hpp:288-296 | removal of a list of accounts passes iff they are distinct and all tracked; it only drops records, and when it passes it drops exactly those named |
| SubstApi.RemoveAllEmpties | plugins/subst_api_plugin/api.hpp:294-296 | removing every tracked account passes and empties the table, touching nothing else |
| SubstApi.StatusRowsStopAtError | plugins/subst_api_plugin/api.hpp:228-229 | once an account's status raises, the accounts after it are never reached |
| SubstApi.BulkStopsAtError | plugins/subst_api_plugin/api.hpp:260-263 | once an account's write or row raises, the accounts after it are never reached |
| SubstApi.RemoveStopsAtError | plugins/subst_api_plugin/api.hpp:295-296 | once a removal raises, the accounts after it are never reached |
| SubstApi.SubstApis.StatusOfAll | plugins/subst_api_plugin/api.hpp:228-229 | the loop over the tracked accounts gives exactly `StatusRows` over them in ascending order |
| SubstApi.SubstApis.Status | plugins/subst_api_plugin/api.hpp:221-232 | `status` gives the row of the named account, or the rows of every tracked account |
| SubstApi.SubstApis.Upsert | plugins/subst_api_plugin/api.hpp:243-248 | makes the `SubstSpec.Upsert` transition, then reports the account's status, or the error if the upsert raised |
| SubstApi.SubstApis.ApplyAndReport | plugins/subst_api_plugin/api.hpp:256-262 | one account's write followed by its status row, as `OpAndReport` says |
| SubstApi.SubstApis.ApplyList | plugins/subst_api_plugin/api.hpp:260-263 | the loop over the accounts gives exactly the state and rows of `BulkApply` |
| SubstApi.SubstApis.ApplyEach | plugins/subst_api_plugin/api.hpp:252-284 | the shared body of `activate` and `deactivate`: the named account, or every tracked account in ascending order, as `BulkApply` says |
| SubstApi.SubstApis.Activate | plugins/subst_api_plugin/api.hpp:252-266 | `activate` acts on the named account or every tracked account, as `BulkApply` says |
| SubstApi.SubstApis.Deactivate | plugins/subst_api_plugin/api.hpp:270-284 | `deactivate` acts the same way |
| SubstApi.SubstApis.RemoveList | plugins/subst_api_plugin/api.hpp:291-296 | the removal loop makes exactly the removals of `RemoveEach` |
| SubstApi.SubstApis.Remove | plugins/subst_api_plugin/api.hpp:288-302 | `remove` makes the removals of `RemoveEach` and then reports what is still tracked; removing everything leaves no record and returns no rows |

## Left out

- I/O and logging are not modelled. This covers the log output of `ilog`,
  `debug_print`, the chainbase index registration, HTTP transport and
  request deadlines. The model does keep the lookups done while building
  the arguments of two `ilog` lines. These are in `update`
  (plugins/subst_plugin/substitution_context.cpp:93-96) and `activate`
  (:135-141).
- The model assumes info-level logging is enabled, which is the default.
  `ilog` builds its arguments only when info is enabled. With it off, an
  `upsert` of an existing record on an account without a code object would
  pass. An `activate` would also pass after a swap that moves the code
  object away from the key in the account's metadata. SubstSpec.Update and
  SubstSpec.Activate do not model that configuration.
  Chainbase undo sessions are also left out: every change is permanent in the
  model.
- The compiled-tier cache status in `get_account_status`
  (plugins/subst_api_plugin/api.hpp:135-179) is not modelled. It reads the OC
  code cache, which is not part of the state here.
- `fetch_manifest` and the manifest format are not modelled. metadata.hpp is
  not part of this model.
- SubstPlugin.SubstPluginImpl.PostDbInit: reading each wasm file with
  `read_wasm` is not modelled. The two-argument upsert it calls takes a
  string account spec and is not part of the context shown. The method
  returns the entries it accepted instead of registering them, and ends
  before the manifest is fetched.
- SubstPlugin.Proto: `fc::url` parsing is reduced to its scheme, the text
  before the first ':'. Other URL errors that `fc::url` may raise are not
  modelled.
- SubstApi.SubstApis.Upsert: the `must_activate` field of the request and of
  the status row is not modelled. The context's `upsert` takes no such
  argument.
- SubstApi.StatusResult does not carry `must_activate` or the compiled-cache
  status, for the same reasons.
- SubstProps.ActivateEffect: the lemmas about a successful swap assume zero
  vm tags on the account's metadata. `activate` re-keys the code object to
  tags (0, 0) but never updates the metadata's tags, so with non-zero tags
  later lookups fail. The transitions themselves model that case as written.
- The hash function is arbitrary. Digests are sequences of bytes, and only
  the zero digest is fixed (32 zero bytes).
- The chain's controller, wasm interface and OC tier appear only as the
  eviction log and the `OcMode` setting. The pending block number is a
  field that no modelled operation changes.

## Findings

| source | as written | input that shows it | evidently intended | confidence | as-written member | corrected member |
|---|---|---|---|---|---|---|
| plugins/subst_plugin/substitution_context.cpp:237-240 | the receiver's record is looked up strictly, so the lookup raises before the `if (!meta) return;` guard can run; the hook wrapper rethrows the error | any action whose receiver has no substitution record | an untracked receiver is left alone, as the guard and its comment say | high, not executed | SubstSpec.ApplyHookAsWritten, SubstProps.UntrackedReceiverDiscrepancy | SubstSpec.ApplyHook |
| plugins/subst_plugin/subst_plugin.cpp:123-137 | the local `max_block_cpu_usage` is read from the transaction limit, so the block limit is set to the override whenever the override exceeds the old transaction limit | override 180 ms with limits of 150 ms per transaction and 200 ms per block: the block limit drops to 180 ms | the block limit is raised only when the override exceeds it, as the variable's name and the log line say | medium, not executed | SubstPlugin.OverrideConfigAsWritten, SubstPlugin.OverrideCanLowerBlockLimit | SubstPlugin.OverrideConfig |
