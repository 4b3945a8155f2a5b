# Inclusion inherent of the parachains runtime, modelled in Dafny

This project models the relay-chain runtime module that takes the parachain inclusion
inherent, `runtime/parachains/src/inclusion_inherent.rs`. Once per block, and only as an
unsigned inherent, the module does these things in order:

- processes availability bitfields;
- frees the cores whose availability concluded or timed out, and has the scheduler
  re-schedule them;
- limits the backed candidates to what the remaining block weight allows;
- processes those candidates and marks their cores occupied;
- gives pending upward messages a time slice;
- records in the `Included` flag that it ran.

At the end of the block, `on_finalize` takes the flag and the block is invalid if it was
not set. When a block is authored, `create_inherent` dry-runs the proposed payload and
falls back to an empty one if the dry run fails.

Files and modules:

- `primitives.dfy` (`Primitives`): core, para and validator indices; opaque bitfields and
  candidates; freed-core reasons; origins; dispatch errors; `Result` and `Option`.
- `weight_limiter.dfy` (`WeightLimiter`): `limit_backed_candidates` as a function on
  sequences, plus its budget, maximality, monotonicity and idempotence lemmas.
- `freed_cores.dfy` (`FreedCores`): the freed-core sequence handed to `schedule`
  (concluded first, then timed out), plus lemmas that it keeps both groups whole and in
  order.
- `collaborators.dfy` (`Collaborators`): the inclusion, scheduler, ump, configuration and
  system modules, seen as total functions over an abstract storage state `S`.
- `inclusion_inherent.dfy` (`InclusionInherent`): the `inclusion` call as a pure outcome
  (`Outcome`) with a trace of the collaborator calls it makes. The runtime state is the
  class `ParaInclusionInherent`, with fields `included` (the `Included` flag), `env`
  (the collaborators' storage) and a ghost `trace`. Its methods `Inclusion`,
  `LimitBackedCandidates` and `OnFinalize` are proved against those functions.
  `ExecuteBlock` runs one block's calls followed by `on_finalize`, and is proved against
  `RunCalls`, the fold of `Outcome` over the block's calls.
- `inherent_adapter.dfy` (`InherentAdapter`): `should_include_inherent` and
  `create_inherent`. Given collaborators that accept an empty payload
  (`AcceptsEmptyPayload`), it proves that the created inherent succeeds when the block
  runs it from the same state the dry run saw, and that a block so authored with inherent
  data is valid.

Collaborators and I/O: the collaborators are parameters (`Collaborators<S>`). Each is a
total function, and a call that fails returns an error and no new state. The
`core_para` and `group_validators` lookups passed to `process_bitfields` and
`process_candidates` are read from the state `S`. The availability-timeout predicate is
a function value `(CoreIndex, BlockNumber) -> bool`. A panic in `on_finalize` is
modelled as the result `valid == false`.

Behaviour of the code that the model keeps:

- `schedule` is not undone when `process_candidates` fails. In that case `Outcome`
  returns the post-`schedule` state together with the candidates' error.
- A duplicate call fails with `TooManyInclusionInherents`. A wrong origin fails with
  `BadOrigin`, from `ensure_none`. A block whose flag was never set is not an error
  value: `on_finalize` panics.

## Model

| member | source | states |
|---|---|---|
| `WeightLimiter.Truncate` | runtime/parachains/src/inclusion_inherent.rs:156 | `Vec::truncate`: the result is the prefix of length `min(len, n)`. |
| `WeightLimiter.LimitedCandidates` | runtime/parachains/src/inclusion_inherent.rs:146-157 | With candidate weight 0, the list is returned unchanged. Otherwise the result is a prefix of the input of length `min(len, (max - consumed) / w)`: nothing is reordered and nothing is added. |
| `WeightLimiter.LimitFitsBudget` | runtime/parachains/src/inclusion_inherent.rs:139-143 | The retained candidates, at `w` each, fit in the remaining block weight. |
| `WeightLimiter.LimitKeepsAllThatFit` | runtime/parachains/src/inclusion_inherent.rs:145 | A candidate is dropped only when one more would exceed the remaining weight: the first N that fit are all kept. |
| `WeightLimiter.LimitMonotone` | runtime/parachains/src/inclusion_inherent.rs:152-156 | With more weight remaining, the retained list is an extension of the one retained with less. |
| `WeightLimiter.LimitIdempotent` | runtime/parachains/src/inclusion_inherent.rs:155-156 | Limiting twice under the same weights is the same as limiting once. |
| `WeightLimiter.LimitScenario` | runtime/parachains/src/inclusion_inherent.rs:155-156 | With budget 1000 and weight 300, five candidates become their first three. |
| `InclusionInherent.ParaInclusionInherent.LimitBackedCandidates` | runtime/parachains/src/inclusion_inherent.rs:146-157 | The limiter as run against the current configuration and block weight: it returns exactly `LimitedCandidates` of those values. |
| `FreedCores.Tagged` | runtime/parachains/src/inclusion_inherent.rs:105-106 | Every core, in order, is paired with the given reason. |
| `FreedCores.Freed` | runtime/parachains/src/inclusion_inherent.rs:104-108 | The sequence given to `schedule`: the concluded cores tagged `Concluded` at the front, then the timed-out cores tagged `TimedOut`. |
| `FreedCores.FreedSeparates` | runtime/parachains/src/inclusion_inherent.rs:105-106 | Selecting by reason gives back exactly the concluded cores and exactly the timed-out cores, each in original order. All cores together are the concatenation. |
| `FreedCores.ConcludedBeforeTimedOut` | runtime/parachains/src/inclusion_inherent.rs:105-106 | No concluded entry follows a timed-out entry. |
| `InclusionInherent.Outcome` | runtime/parachains/src/inclusion_inherent.rs:81-135 | A non-`None` origin fails with `BadOrigin`, and a set flag fails with `TooManyInclusionInherents`. Both happen before any call and change nothing. Past both checks, an error of `process_bitfields` is returned as-is with the state untouched, and otherwise the run continues from the cores and state it returned. The flag ends up set iff it was set or the run succeeded. A success made exactly the calls in the source's order: bitfields, then timeouts (none without a predicate), then `schedule` of concluded followed by timed-out, then the weight read, then `process_candidates` on exactly the limiter's output, then `occupied` on exactly the returned cores, then upward messages, with the flag set last. |
| `InclusionInherent.AfterBitfields` | runtime/parachains/src/inclusion_inherent.rs:96-134 | After accepted bitfields, the trace holds what the collaborators answered: the timeout predicate and the cores `collect_pending` returned, the candidate weight and block weight read after `schedule`, and the scheduled cores. `process_candidates` gets the limiter's output on those weights. The run succeeds exactly when `process_candidates` accepts. A rejection returns its error and keeps the post-`schedule` state. A success ends in the state after `occupied` and the upward messages, with the flag set. |
| `InclusionInherent.InclusionOncePerBlock` | runtime/parachains/src/inclusion_inherent.rs:87 | After a successful inclusion, any further call in the same block fails, makes no call and changes nothing. |
| `InclusionInherent.ParaInclusionInherent.constructor` | runtime/parachains/src/inclusion_inherent.rs:53 | A block starts with the `Included` flag unset. |
| `InclusionInherent.ParaInclusionInherent.Inclusion` | runtime/parachains/src/inclusion_inherent.rs:81-135 | The `inclusion` dispatchable updates the flag, the collaborators' state and the call trace exactly as `Outcome` says. |
| `InclusionInherent.ParaInclusionInherent.ScheduleAndProcessCandidates` | runtime/parachains/src/inclusion_inherent.rs:96-134 | The part of `inclusion` after the bitfields, matching `AfterBitfields`. |
| `InclusionInherent.ParaInclusionInherent.OnFinalize` | runtime/parachains/src/inclusion_inherent.rs:73-77 | The flag is taken, so it is unset afterwards. The block is valid iff the flag was set. |
| `InclusionInherent.RunCalls` | runtime/parachains/src/inclusion_inherent.rs:81-135 | Stands for the block applying its calls (the loop is the framework's executive, not code in this file), each call running `inclusion` as lines 81-135 define it, from the flag and state the previous one left. It is the reference for `DispatchCalls` and `ExecuteBlock`, with one result per call. |
| `InclusionInherent.RunCallsAtMostOnce` | runtime/parachains/src/inclusion_inherent.rs:87 | Over any sequence of calls, the flag ends up set iff it was set or some call succeeded. At most one call succeeds, and none does once the flag is set. |
| `InclusionInherent.ParaInclusionInherent.DispatchCalls` | runtime/parachains/src/inclusion_inherent.rs:81-135 | Stands for the executive applying the block's calls in order, each running `inclusion` (lines 81-135). It leaves results, flag, collaborators' state and trace exactly as `RunCalls` says. |
| `InclusionInherent.ParaInclusionInherent.ExecuteBlock` | runtime/parachains/src/inclusion_inherent.rs:73-77 | Over one block's calls and then `on_finalize`: the results, the state and the trace are those of `RunCalls` from the block's starting state, and the first call runs from that state. At most one call succeeds, the block is valid iff one did, and the next block starts unset. |
| `InherentAdapter.ShouldIncludeInherent` | runtime/parachains/src/inclusion_inherent.rs:163-174 | The dry run fails once the inherent has run in the block and when the bitfields are refused. With the bitfields accepted, it passes exactly when the rest of the step succeeds from the state they leave. |
| `InherentAdapter.CreateInherent` | runtime/parachains/src/inclusion_inherent.rs:163-191 | No data gives no call. Otherwise the call carries the proposal or the empty payload. A proposal that passes the dry run (`ShouldIncludeInherent`, an `inclusion` without origin from the current state) is never replaced. A non-empty call always passes the dry run. |
| `InherentAdapter.EmptyInclusionSucceeds` | runtime/parachains/src/inclusion_inherent.rs:188 | The empty payload succeeds from an unset flag, given collaborators that accept empty input. |
| `InherentAdapter.CreatedInherentSucceeds` | runtime/parachains/src/inclusion_inherent.rs:181-191 | Under `AcceptsEmptyPayload`, when data is supplied, the created call succeeds when executed from the block's state. |
| `InherentAdapter.AuthorBlock` | runtime/parachains/src/inclusion_inherent.rs:176-191 | Under `AcceptsEmptyPayload`, a block authored from inherent data is valid at finalization, and a block authored without data is invalid. The collaborators' state and the trace afterwards are those of the created call's `Outcome`, and are unchanged when there is no call. |

## Left out

- The FRAME macros (`decl_storage!`, `decl_module!`, `decl_error!`), the `#[weight]`
  annotation, `DispatchClass` and `on_initialize`'s database weight: these are framework
  plumbing. The `Included` storage item is the class field `included`.
- The internals of the collaborators are not modelled: bitfield signature and availability
  checks, candidate validation, scheduler core assignment, timeout semantics and upward
  message dispatch. They are arbitrary functions of an abstract state. A collaborator that
  fails is assumed to change no state. This holds for the calls here only if those
  modules check before they write.
- SCALE decoding of the inherent data, and the panic when decoding fails, are outside
  this file. `CreateInherent` receives the data already decoded.
- The dry run's isolated execution context (the block builder discards its state) is not
  modelled. `ShouldIncludeInherent` says only whether `inclusion` would succeed from the
  current state.
- CreatedInherentSucceeds, AuthorBlock and EmptyInclusionSucceeds: these assume
  `AcceptsEmptyPayload`, that the inclusion module accepts empty bitfields and an empty
  candidate list from every state. This file does not guarantee that; it depends on the
  inclusion module, which is not part of this model.
- AuthorBlock, CreatedInherentSucceeds: these run the block's call from exactly the state
  the dry run saw. In the runtime the two states differ: the dry run at line 169 calls
  `inclusion` directly, while the block's call goes through the executive, which first
  charges the call's declared weight (line 80) and applies any earlier extrinsics. The
  block weight read at line 153 can then be higher, the limiter can keep fewer candidates
  than the dry run approved, and the real call can fail where the dry run passed. The
  validity of an authored block is proved only for the same-state setup.
- LimitedCandidates: computes over unbounded naturals, not the runtime's machine
  integers. It requires `consumedWeight <= maximumWeight`, and the step gets this from
  `WeightWithinLimit` instead of modelling the underflow of the `u64` subtraction at
  lines 152-153. It also does not model the `as usize` casts at line 155: on a 32-bit
  runtime they keep only the low 32 bits of both operands, so the runtime can keep fewer
  candidates than fit (with remaining weight 400 * 2^32 and weight 10^9 it keeps none,
  the model 1717), and a nonzero weight that is a multiple of 2^32 becomes a zero divisor.
  `LimitFitsBudget` and `LimitKeepsAllThatFit` hold for the model's arithmetic only.
- The trace records the timeout-predicate query and the optional `collect_pending` call
  (lines 97-102) as one event, `TimeoutsHandled`, whose core list is empty when the
  predicate is absent. It records the limiter's configuration and block-weight reads as
  one event, `BlockWeightRead`, which carries the block weight even when the candidate
  weight is 0; the code returns at lines 148-150 before it reads the block weight, and
  the value recorded in that case is not read by the code.
