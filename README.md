# Private kernel proving and debug-pattern filtering

This project models two parts of the Aztec client (the PXE, its private execution environment) and proves properties of the models.

**The kernel prover.** `KernelProver.prove` turns the result of simulating a private transaction into the chain of circuits the client IVC composer needs. IVC is the incremental proof that folds every circuit run into one proof.

- The input is a tree of private calls.
- The prover walks the tree with an explicit stack. The top of the stack is the last element of the Dafny sequence.
- For each call it runs the app circuit, then a kernel circuit:
  - *init* for the first call;
  - *inner* for every later call.
- Before every call but the first, and once more when the walk is over, it runs *reset* kernels. It keeps running them for as long as the reset builder says one is needed.
- Last it runs the *tail* kernel.
- Every circuit run appends its bytecode to `acirs` and its witness to `witnessStack`. Both arrays go, unchanged, to `createClientIvcProof`.
- `createPrivateCallData` assembles one call's private call data from oracle lookups. It places two fixed values:
  - a zero ACIR hash;
  - an all-zero protocol-contract sibling path for contracts that are not protocol contracts.

**Debug-pattern filtering.** The console JSON logger takes the `DEBUG` string and does four things:

1. splits it on `,`;
2. keeps the segments that start with `-`;
3. drops the leading `-` and the first `*`;
4. drops every log record whose module starts with one of the resulting patterns.

Layout:

- `Wrappers.dfy`: `Option` and `Result`.
- `CircuitTypes.dfy`: the values the prover handles.
  - The call tree and its pre-order.
  - Oracle answers.
  - Circuit inputs and outputs.
  - The collaborators, each a record of total functions:
    - the proving data oracle, the kernel prover backend and the reset builder's `build` return `Result`, so any lookup, simulation or input assembly can fail;
    - the reset builder's `needsReset`, the trace collectors and the protocol-contract registry return plain values and never fail.
- `KernelProver.dfy`: the model of `prove` and `createPrivateCallData`.
  - `Prove` is an imperative method: the stack, `acirs`, `witnessStack`, `output` and `firstIteration` are locals updated in a `while` loop.
  - `RunResets` is the inner reset loop, which the source writes out twice: once with the live stack, once with the empty stack.
  - `Prove` is proved equal to the recursive specification `ProveSpec`, which is built from `Drive` (the main loop), `ResetLoop` and `ProcessExecution`. `RunResets` is proved equal to `ResetLoop`.
  - The state the specification threads also carries a `RunLog`, a record that `prove` itself does not keep. It holds the reset builders asked `needsReset`, the kernel outputs simulated, and what each reset, inner and tail circuit was given about the previous kernel: the builder for a reset, the `PrivateKernelData` for the other two.
  - A ghost `chain` of typed entries (`App`, `Init`, `Inner`, `Reset`, `Tail`) stands behind the two arrays: `acirs == Acirs(chain)` and `witnessStack == Witnesses(chain)` hold throughout.
- `KernelProofs.dfy`: what a successful run guarantees. This covers the order in which calls are visited, the kinds and number of kernels, where resets can occur and how many there are, and what the IVC proof is built from.
- `KernelThreading.dfy`: how a run threads outputs and counters. Each reset, inner and tail circuit is given the output of the kernel just before it, and every reset builder carries the trace's counters.
- `Logging.dfy`: `extractNegativePatterns` and the `ignoreAztecPattern` predicate, with the default `DEBUG` string worked out.

## Model

| member | source | states |
|---|---|---|
| Logging.StartsWith | yarn-project/aztec/src/logging.ts:52 | `startsWith`: the prefix is no longer than the string and equals its first characters; `SomePatternMatches` and `EmptyPatternDropsAll` characterise its use |
| Logging.ReplaceFirst | yarn-project/aztec/src/logging.ts:41 | `replace('*', '')` with a string pattern; characterised by `ReplaceFirstRemovesFirst` (only the first `*` goes) and `ReplaceFirstCount` (nothing else goes) |
| Logging.StripPattern | yarn-project/aztec/src/logging.ts:39-41 | `slice(1)` then `replace('*', '')`; characterised by `StripTrailingStar`, `StripNoStar` and `NegativePatternsAt` |
| Logging.NegativePatterns | yarn-project/aztec/src/logging.ts:37-41 | the filter and the two maps on split segments; characterised by `NegativePatternsAt` and `NegativeIndices` (one pattern per `-` segment, in order), `NegativePatternsSnoc` and `OnePositiveFourNegative` |
| Logging.Split | yarn-project/aztec/src/logging.ts:36 | splitting on a separator yields at least one segment and no segment contains the separator |
| Logging.JoinSplit | yarn-project/aztec/src/logging.ts:36 | joining the segments of a split with the separator gives back the original string |
| Logging.SplitJoin | yarn-project/aztec/src/logging.ts:36 | splitting a join of separator-free segments gives back the segments |
| Logging.ReplaceFirstRemovesFirst | yarn-project/aztec/src/logging.ts:40-41 | `replace('*', '')` leaves a string with no `*` unchanged and otherwise removes exactly the first `*`, keeping everything before and after it (later `*` included) |
| Logging.ReplaceFirstCount | yarn-project/aztec/src/logging.ts:41 | the replacement removes one `*` at most and nothing else, as multisets |
| Logging.NegativeIndices | yarn-project/aztec/src/logging.ts:37 | the positions kept by the filter are exactly the segments starting with `-`, in increasing order |
| Logging.NegativePatternsAt | yarn-project/aztec/src/logging.ts:35-41 | the i-th pattern is the i-th `-` segment with its `-` and first `*` removed, and there are as many patterns as `-` segments |
| Logging.ExtractNegativePatterns | yarn-project/aztec/src/logging.ts:33-43 | the result has one entry per `-` segment of the comma split, in order, each that segment with the leading `-` and the first `*` removed; other segments contribute nothing |
| Logging.StripTrailingStar | yarn-project/aztec/src/logging.ts:39-41 | `-name*` with a star-free name strips to `name` |
| Logging.StripNoStar | yarn-project/aztec/src/logging.ts:39-41 | `-name` with a star-free name strips to `name` |
| Logging.OnePositiveFourNegative | yarn-project/aztec/src/logging.ts:37 | of one positive and four negative segments only the four negative ones yield patterns, in order |
| Logging.DefaultSplit | yarn-project/aztec/src/logging.ts:47-48 | the default debug string splits into its five segments |
| Logging.DefaultNegativePatterns | yarn-project/aztec/src/logging.ts:47-50 | the default debug string yields exactly `aztec:avm_simulator`, `aztec:libp2p_service`, `aztec:circuits:artifact_hash`, `json-rpc`; `aztec:*` contributes nothing |
| Logging.SomePatternMatches | yarn-project/aztec/src/logging.ts:52 | true exactly when some pattern is a prefix of the module name |
| Logging.IgnoreAztecPattern | yarn-project/aztec/src/logging.ts:51-56 | the record is dropped if and only if some pattern is a prefix of its module; otherwise it is passed on unchanged |
| Logging.EmptyPatternDropsAll | yarn-project/aztec/src/logging.ts:51-56 | an empty pattern drops every record |
| Logging.BareNegationSilencesAll | yarn-project/aztec/src/logging.ts:37-56 | a debug string with a `-` or `-*` segment drops every record |
| CircuitTypes.PreOrder | yarn-project/pxe/src/kernel_prover/kernel_prover.ts:112-113 | the pre-order of a call tree is non-empty and starts with the root |
| KernelProver.Reversed | yarn-project/pxe/src/kernel_prover/kernel_prover.ts:113 | reversal keeps the length and puts element `i` at `n-1-i` |
| KernelProver.PopPush | yarn-project/pxe/src/kernel_prover/kernel_prover.ts:112-113 | popping the top and pushing its nested calls reversed leaves the rest of the walk as the pre-order of what remains |
| KernelProver.PreOrderForestAppend | yarn-project/pxe/src/kernel_prover/kernel_prover.ts:112-113 | the pre-order of two lists of trees is the pre-order of the first list followed by that of the second |
| KernelProver.Popped | yarn-project/pxe/src/kernel_prover/kernel_prover.ts:112-113 | each pop-and-push step shortens the remaining walk by exactly one call |
| KernelProver.Acirs | yarn-project/pxe/src/kernel_prover/kernel_prover.ts:85 | `acirs` has one bytecode per chain entry, in chain order |
| KernelProver.Witnesses | yarn-project/pxe/src/kernel_prover/kernel_prover.ts:86 | `witnessStack` has one witness per chain entry, in chain order, so it always has the length of `acirs` |
| KernelProver.ChainSnoc | yarn-project/pxe/src/kernel_prover/kernel_prover.ts:100-101 | appending one circuit run pushes its bytecode on `acirs` and its witness on `witnessStack` together |
| KernelProver.CollectTraceIndices | yarn-project/pxe/src/kernel_prover/kernel_prover.ts:78-83 | the maps and the split counter derived from the trace before any circuit runs; `ProveBuildersCarryCounters` states what every reset builder receives from it |
| KernelProver.ZeroPath | yarn-project/pxe/src/kernel_prover/kernel_prover.ts:222 | `makeTuple(n, Fr.zero)` is `n` zeros |
| KernelProver.CreatePrivateCallData | yarn-project/pxe/src/kernel_prover/kernel_prover.ts:203-235 | succeeds exactly when the three oracle lookups do, failing with the first failed lookup's error; on success every field comes from its lookup, `acirHash` is 0, and the protocol-contract path is the registry's path for protocol contracts and `PROTOCOL_CONTRACT_TREE_HEIGHT` zeros otherwise |
| KernelProver.PreviousKernelData | yarn-project/pxe/src/kernel_prover/kernel_prover.ts:140-146 | the previous kernel's public inputs and key, with its VK membership witness; fails with the lookup error, or with a length mismatch when the sibling path is not `VK_TREE_HEIGHT` long |
| KernelProver.Builder | yarn-project/pxe/src/kernel_prover/kernel_prover.ts:90-95 | a reset builder made from the latest output, the stack and the run's two counters (the final loop, lines 157-162, passes the empty stack); characterised by `ResetLoopAsksLatest`, `ResetLoopBuilders` and `ProveBuildersCarryCounters` |
| KernelProver.ResetLoop | yarn-project/pxe/src/kernel_prover/kernel_prover.ts:96-109 | the reset loop as a function (also the final loop, lines 163-175); `RunResets` computes it, and `ResetLoopAppendsResets`, `ResetLoopThreads`, `ResetLoopEndsWithOutput`, `ResetLoopBuilders` and `ResetLoopAsksLatest` characterise it |
| KernelProver.ProcessExecution | yarn-project/pxe/src/kernel_prover/kernel_prover.ts:112-152 | one call: lookups, app circuit, then init or inner kernel; characterised by `ProcessExecutionAppends`, `ProcessExecutionThreads`, `ProcessExecutionEndsWithOutput` and `ProcessExecutionBuilders` |
| KernelProver.Drive | yarn-project/pxe/src/kernel_prover/kernel_prover.ts:88-154 | the main loop as a function; characterised by `DriveVisitsPreOrder`, `DriveKeepsOrder`, `DriveAppsInOrder`, `DriveKernelCounts`, `DriveStartsWithInit`, `DriveResetsBounded`, `DriveThreads`, `DriveEndsWithOutput` and `DriveBuilders` |
| KernelProver.ProveSpec | yarn-project/pxe/src/kernel_prover/kernel_prover.ts:69-201 | the whole of `prove` as a function; `Prove` computes it, and the `Prove*` lemmas of `KernelProofs` and `KernelThreading` characterise it |
| KernelProver.RunResets | yarn-project/pxe/src/kernel_prover/kernel_prover.ts:89-110 | the reset loop returns exactly what `ResetLoop` specifies (the last output, or the first error); on success a builder made from the returned output needs no reset; `acirs` and `witnessStack` grow together, keep their earlier entries, and gain at most `resetLimit` entries |
| KernelProver.Prove | yarn-project/pxe/src/kernel_prover/kernel_prover.ts:69-201 | the imperative prover returns exactly what `ProveSpec` specifies, the tail output with its IVC proof or the first error met |
| KernelProofs.ResetLoopAppendsResets | yarn-project/pxe/src/kernel_prover/kernel_prover.ts:96-109 | a reset loop appends only reset entries, at most its fuel of them, visits no call, and exits only when a builder made from the latest output needs no reset |
| KernelProofs.ProcessExecutionAppends | yarn-project/pxe/src/kernel_prover/kernel_prover.ts:115-152 | one call appends its app circuit and then one init (first call) or inner kernel, and is recorded as visited |
| KernelProofs.IterationVisitsTop | yarn-project/pxe/src/kernel_prover/kernel_prover.ts:112 | each iteration visits exactly the call on top of the stack |
| KernelProofs.IterationAppends | yarn-project/pxe/src/kernel_prover/kernel_prover.ts:89-152 | each iteration appends resets (none on the first), then the top call's app circuit, then its kernel |
| KernelProofs.DriveVisitsPreOrder | yarn-project/pxe/src/kernel_prover/kernel_prover.ts:88-154 | from any stack, the loop visits the pre-order of the stack's trees from the top down |
| KernelProofs.DriveKeepsOrder | yarn-project/pxe/src/kernel_prover/kernel_prover.ts:123-152 | the loop only appends to the chain and keeps every app circuit immediately followed by its kernel |
| KernelProofs.DriveAppsInOrder | yarn-project/pxe/src/kernel_prover/kernel_prover.ts:123-124 | the loop appends one app circuit per visited call, in visiting order |
| KernelProofs.DriveKernelCounts | yarn-project/pxe/src/kernel_prover/kernel_prover.ts:128-153 | the loop appends one init kernel on the first iteration, an inner kernel for every other call, and no tail |
| KernelProofs.DriveStartsWithInit | yarn-project/pxe/src/kernel_prover/kernel_prover.ts:89 | the first iteration runs no reset: the top call's app circuit comes first, then the init kernel |
| KernelProofs.IterationResets | yarn-project/pxe/src/kernel_prover/kernel_prover.ts:89-110 | the first iteration adds no reset, as in the source; a later one adds at most `resetLimit`, a bound of the model's fuel only |
| KernelProofs.DriveResetsBounded | yarn-project/pxe/src/kernel_prover/kernel_prover.ts:88-154 | from any stack the loop runs at most `resetLimit` resets (the model's fuel) per call it visits, counting nothing for the first call of a run; the fact that the first call gets no reset at all is `DriveStartsWithInit` |
| KernelProofs.ProveSpecEnds | yarn-project/pxe/src/kernel_prover/kernel_prover.ts:157-200 | a successful run settles a final reset loop on the empty stack, builds the tail on the last kernel output, appends the tail to the chain and returns the tail output carrying the IVC proof of `Acirs(chain)` and `Witnesses(chain)` |
| KernelProofs.ProveVisitsPreOrder | yarn-project/pxe/src/kernel_prover/kernel_prover.ts:73-154 | a successful run visits the calls in pre-order: root first, each call before its nested calls, nested calls left to right |
| KernelProofs.ProveAppsInOrder | yarn-project/pxe/src/kernel_prover/kernel_prover.ts:112-124 | the app circuits in the chain are those of the calls, in pre-order |
| KernelProofs.ProveKernelCounts | yarn-project/pxe/src/kernel_prover/kernel_prover.ts:128-195 | the chain holds exactly one init kernel, N-1 inner kernels for N calls, and one tail, which is its last entry |
| KernelProofs.ProveResetsBounded | yarn-project/pxe/src/kernel_prover/kernel_prover.ts:88-175 | a successful run over N calls proves at most `resetLimit`·N resets in all, a bound of the model's fuel; none comes before the first call, since the chain opens with the root's app circuit and the init kernel |
| KernelProofs.ProveChainLength | yarn-project/pxe/src/kernel_prover/kernel_prover.ts:88-195 | for N calls and R resets the chain, and so each array, has 2N + R + 1 entries |
| KernelProofs.ProveChainOrder | yarn-project/pxe/src/kernel_prover/kernel_prover.ts:123-152 | the chain starts with the root's app circuit and the init kernel, and every app circuit is immediately followed by the kernel that consumes it |
| KernelProofs.ProveSingleCall | yarn-project/pxe/src/kernel_prover/kernel_prover.ts:88-195 | one call without nested calls or resets gives exactly three entries: app, init, tail |
| KernelProofs.ProveFailsOnRootLookup | yarn-project/pxe/src/kernel_prover/kernel_prover.ts:115-118 | a failed function-name lookup for the root call aborts the run with that error |
| KernelProofs.ProveFailsWithoutResetFuel | yarn-project/pxe/src/kernel_prover/kernel_prover.ts:163-175 | with no fuel, a final reset that is needed fails the run with `ResetLimitExceeded`; the fuel and that error belong to the model, and the source would run the reset |
| KernelThreading.ResetLoopThreads | yarn-project/pxe/src/kernel_prover/kernel_prover.ts:96-109 | each reset's builder holds the latest output and the reset's own output becomes the latest, so every output is handed on to exactly the next circuit |
| KernelThreading.ResetLoopEndsWithOutput | yarn-project/pxe/src/kernel_prover/kernel_prover.ts:98-101 | after a reset loop the chain still ends with the kernel whose output is the latest |
| KernelThreading.ResetLoopBuilders | yarn-project/pxe/src/kernel_prover/kernel_prover.ts:90-108 | a reset loop asks at least one builder, and every builder it asks carries the run's nullifier counter map and split counter and an output the run simulated |
| KernelThreading.ResetLoopAsksLatest | yarn-project/pxe/src/kernel_prover/kernel_prover.ts:90-108 | a reset loop asks one builder more than it runs resets: the first is made from the output on entry, each later one from the output of the reset just run, all with the loop's stack and the run's counters |
| KernelThreading.ProcessExecutionThreads | yarn-project/pxe/src/kernel_prover/kernel_prover.ts:136-151 | the init kernel starts the outputs; an inner kernel's `PrivateKernelData` has the latest output's public inputs and key, and its own output becomes the latest |
| KernelThreading.ProcessExecutionEndsWithOutput | yarn-project/pxe/src/kernel_prover/kernel_prover.ts:136-151 | after a call the chain ends with its init or inner kernel, whose output is the latest |
| KernelThreading.ProcessExecutionBuilders | yarn-project/pxe/src/kernel_prover/kernel_prover.ts:112-152 | a call asks no reset builder and drops no output |
| KernelThreading.DriveThreads | yarn-project/pxe/src/kernel_prover/kernel_prover.ts:88-154 | the main loop keeps every output carried by the input of exactly the next circuit, and has some output once a call has run |
| KernelThreading.DriveEndsWithOutput | yarn-project/pxe/src/kernel_prover/kernel_prover.ts:88-154 | the main loop leaves the chain non-empty and ending with the kernel whose output is the latest |
| KernelThreading.DriveBuilders | yarn-project/pxe/src/kernel_prover/kernel_prover.ts:88-154 | every builder the main loop asks carries the run's counters and an output it simulated |
| KernelThreading.ProveThreadsOutputs | yarn-project/pxe/src/kernel_prover/kernel_prover.ts:88-193 | in a successful run the i-th previous-kernel input, given to the i-th reset, inner or tail circuit, carries the i-th kernel output: a reset's builder holds it, an inner or tail kernel's `PrivateKernelData` has its public inputs and key. The tail is given the last output |
| KernelThreading.ProveChainEndsWithOutput | yarn-project/pxe/src/kernel_prover/kernel_prover.ts:157-195 | the chain ends with the tail, and just before it is the init, inner or reset kernel whose output the tail is built on |
| KernelThreading.ProveBuildersCarryCounters | yarn-project/pxe/src/kernel_prover/kernel_prover.ts:78-175 | every reset builder a successful run asks (at least one) has the trace's nullifier counter map and an output the run simulated. Its split counter is 0 without enqueued public calls and with an empty teardown call, and the final min-revertible counter otherwise |

## Left out

- KernelProver.RunResets: the source's reset loop has no bound, because termination depends on the reset builder, which is not part of this model. The model gives each reset loop `resetLimit` iterations and returns `ResetLimitExceeded` once they run out. This is an error path the source does not have.
- KernelProver.Prove: bounded by `resetLimit` in the same way, through `RunResets`. Within that bound it returns what the source returns.
- KernelProver.ResetLoop: the same cut-off as `RunResets`. After `fuel` resets it returns `ResetLimitExceeded`, where the source keeps looping until `needsReset()` is false.
- KernelProver.Drive: inherits that cut-off from `ResetLoop` for the reset loop before every call but the first.
- KernelProver.ProveSpec: inherits that cut-off from `Drive` and from its own final `ResetLoop`.
- The zero-knowledge backend (`simulateProofInit/Inner/Reset/Tail`, `computeAppCircuitVerificationKey`, `createClientIvcProof`) and the proving data oracle are fields of records of functions. They are arbitrary, and each can fail. A rejected `await` is modelled as an `Err` that aborts `prove`.
- An exception thrown by `needsReset`, by the `collect*` helpers or by the protocol-contract functions is not modelled. These are total functions here, so only the oracle, the backend and `build` can abort a run.
- `PrivateKernelResetPrivateInputsBuilder` is not part of this model. Its `needsReset` and `build` are abstract functions of the builder's fields: output, stack, nullifier counter map and split counter.
- The `collect*` helpers, `getFinalMinRevertibleSideEffectCounter`, `isProtocolContract`, `getProtocolContractSiblingPath` and `protocolContractTreeRoot` are not part of this model. They are abstract functions of the call tree or of the address.
- `PublicCallRequest.isEmpty` comes from the circuit types library, which is not part of this model. It is defined here as "every field is zero".
- Field elements are integers. Verification keys, public inputs, witness maps and bytecode are opaque values or plain sequences. `Fr.fromBuffer(32 zero bytes)` is the integer 0. `Number(leafIndex)` is the natural number itself.
- `VK_TREE_HEIGHT`, `PROTOCOL_CONTRACT_TREE_HEIGHT`, `getVKTreeRoot()` and the empty public inputs and verification key of `NULL_PROVE_OUTPUT` are constants left without a value. Every property holds for any value they take.
- `assertLength` throwing is modelled as the `SiblingPathLengthMismatch` error.
- `async`/`await`: every call completes before the next starts, so there is no concurrency to model.
- `pushTestData` and `this.log.debug` are diagnostics with no effect on the result. They are left out.
- In `logging.ts`, all logger construction is I/O or third-party configuration and is not modelled:
  - `createWinstonLocalFileLogger`;
  - the winston transports and formats;
  - timestamps and JSON output;
  - `setupFileDebugLog`, including `path.join` and `HOST_WORKDIR`;
  - `setupConsoleJsonLog`, with `onLog` and `setLevel`;
  - `LOG_LEVEL`.
- The choice between `process.env.DEBUG` and the default string is not modelled. The default string is a constant and the debug string is a parameter.
- Logging.LogInfo: carries the level, module and message only. The other fields a record carries pass through the filter unchanged, as does the whole record. A record whose `module` is missing is not modelled; in JavaScript it would make `startsWith` throw.
