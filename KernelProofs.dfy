/**
 * What a successful proving run guarantees about the order of the calls it visits and about
 * the chain of circuits it hands to the client IVC composer.
 */
module KernelProofs {
  import opened Wrappers
  import opened CircuitTypes
  import opened KernelProver

  // ---------------------------------------------------------------------------------------------
  // Chains, by kind
  // ---------------------------------------------------------------------------------------------

  /** The entries of `chain` of kind `k`, in chain order. */
  function OfKind(chain: seq<ChainEntry>, k: CircuitKind): seq<ChainEntry> {
    if chain == [] then []
    else
      var n := |chain| - 1;
      OfKind(chain[..n], k) + (if chain[n].kind == k then [chain[n]] else [])
  }

  lemma {:induction false} OfKindAppend(a: seq<ChainEntry>, b: seq<ChainEntry>, k: CircuitKind)
    ensures OfKind(a + b, k) == OfKind(a, k) + OfKind(b, k)
    decreases |b|
  {
    if b == [] {
      assert a + b == a;
    } else {
      var n := |b| - 1;
      assert (a + b)[..|a| + n] == a + b[..n];
      OfKindAppend(a, b[..n], k);
    }
  }

  /** A chain with no entry of kind `k` contributes nothing to `OfKind(_, k)`. */
  lemma {:induction false} OfKindAbsent(chain: seq<ChainEntry>, k: CircuitKind)
    requires forall i | 0 <= i < |chain| :: chain[i].kind != k
    ensures OfKind(chain, k) == []
  {
    if chain != [] {
      OfKindAbsent(chain[..|chain| - 1], k);
    }
  }

  /** Every entry has exactly one kind, so the five filters partition the chain. */
  lemma {:induction false} KindsPartition(chain: seq<ChainEntry>)
    ensures |chain| == |OfKind(chain, App)| + |OfKind(chain, Init)| + |OfKind(chain, Inner)|
                       + |OfKind(chain, Reset)| + |OfKind(chain, Tail)|
  {
    if chain != [] {
      KindsPartition(chain[..|chain| - 1]);
    }
  }

  /** The app-circuit entries of a sequence of calls. */
  function AppEntries(es: seq<PrivateExecutionResult>): (r: seq<ChainEntry>)
    ensures |r| == |es| && forall i | 0 <= i < |es| :: r[i] == AppEntry(es[i])
  {
    seq(|es|, i requires 0 <= i < |es| => AppEntry(es[i]))
  }

  /** Every app circuit is immediately followed by the init or inner kernel that consumes it. */
  ghost predicate AppsFollowedByKernel(chain: seq<ChainEntry>) {
    forall i | 0 <= i < |chain| && chain[i].kind == App ::
      i + 1 < |chain| && (chain[i + 1].kind == Init || chain[i + 1].kind == Inner)
  }

  /** `chain` begins with `prefix` and the rest is reset circuits only. */
  ghost predicate ExtendedByResets(prefix: seq<ChainEntry>, chain: seq<ChainEntry>) {
    && |prefix| <= |chain|
    && chain[..|prefix|] == prefix
    && forall i | |prefix| <= i < |chain| :: chain[i].kind == Reset
  }

  // ---------------------------------------------------------------------------------------------
  // The reset loop
  // ---------------------------------------------------------------------------------------------

  /**
   * A reset loop only appends reset circuits, at most `fuel` of them, visits no call, and stops
   * only when a builder freshly made from the latest output needs no further reset.
   */
  lemma {:induction false} ResetLoopAppendsResets(kp: KernelProver, libs: ProverLibraries, idx: TraceIndices,
                                                  st: ProvingState, stack: seq<PrivateExecutionResult>, fuel: nat)
    requires ResetLoop(kp, libs, idx, st, stack, fuel).Ok?
    ensures var after := ResetLoop(kp, libs, idx, st, stack, fuel).value;
      && ExtendedByResets(st.chain, after.chain)
      && |after.chain| <= |st.chain| + fuel
      && after.visited == st.visited
      && !libs.reset.needsReset(Builder(idx, after.output, stack))
      && (after.chain == st.chain ==> after.output == st.output)
    decreases fuel
  {
    var builder := Builder(idx, st.output, stack);
    if libs.reset.needsReset(builder) {
      var privateInputs := libs.reset.build(builder, kp.oracle, idx.noteHashLeafIndexMap).value;
      var output := kp.proofCreator.simulateProofReset(privateInputs).value;
      var queried := st.log.(builders := st.log.builders + [builder]);
      var log := queried.(outputs := queried.outputs + [output], consumed := queried.consumed + [FromBuilder(builder)]);
      var next := ProvingState(output, st.chain + [KernelEntry(Reset, output)], st.visited, log);
      ResetLoopAppendsResets(kp, libs, idx, next, stack, fuel - 1);
      var after := ResetLoop(kp, libs, idx, next, stack, fuel - 1).value;
      assert after.chain[..|next.chain|] == next.chain;
      assert after.chain[..|st.chain|] == next.chain[..|st.chain|];
    }
  }

  /** The reset circuits appended by a reset loop add nothing to any other kind. */
  lemma ResetsAddOnlyResets(prefix: seq<ChainEntry>, chain: seq<ChainEntry>, k: CircuitKind)
    requires ExtendedByResets(prefix, chain)
    requires k != Reset
    ensures OfKind(chain, k) == OfKind(prefix, k)
  {
    var tail := chain[|prefix|..];
    assert chain == prefix + tail;
    OfKindAbsent(tail, k);
    OfKindAppend(prefix, tail, k);
  }

  // ---------------------------------------------------------------------------------------------
  // One iteration
  // ---------------------------------------------------------------------------------------------

  /** One iteration appends the call's app circuit and then exactly one init or inner kernel. */
  lemma ProcessExecutionAppends(kp: KernelProver, libs: ProverLibraries, txRequest: TxRequest,
                                st: ProvingState, current: PrivateExecutionResult, firstIteration: bool)
    requires ProcessExecution(kp, libs, txRequest, st, current, firstIteration).Ok?
    ensures var after := ProcessExecution(kp, libs, txRequest, st, current, firstIteration).value;
      && after.chain == st.chain + [AppEntry(current), KernelEntry(if firstIteration then Init else Inner, after.output)]
      && after.visited == st.visited + [current]
  {
  }

  /** The effect of one iteration (resets, app circuit, kernel) on the entries of one kind. */
  lemma IterationOfKind(before: seq<ChainEntry>, reset: seq<ChainEntry>, app: ChainEntry, kernel: ChainEntry, k: CircuitKind)
    requires ExtendedByResets(before, reset)
    requires k != Reset
    ensures OfKind(reset + [app, kernel], k)
         == OfKind(before, k) + (if app.kind == k then [app] else []) + (if kernel.kind == k then [kernel] else [])
  {
    ResetsAddOnlyResets(before, reset, k);
    OfKindAppend(reset, [app, kernel], k);
    assert [app, kernel][..1] == [app];
    assert [app][..0] == [];
    assert OfKind([app], k) == (if app.kind == k then [app] else []);
    assert OfKind([app, kernel], k) == OfKind([app], k) + (if kernel.kind == k then [kernel] else []);
  }

  /** One iteration keeps every app circuit immediately followed by its kernel. */
  lemma IterationFollowed(before: seq<ChainEntry>, reset: seq<ChainEntry>, app: ChainEntry, kernel: ChainEntry)
    requires ExtendedByResets(before, reset)
    requires kernel.kind == Init || kernel.kind == Inner
    requires AppsFollowedByKernel(before) && (before != [] ==> before[|before| - 1].kind != App)
    ensures AppsFollowedByKernel(reset + [app, kernel])
  {
    var chain := reset + [app, kernel];
    forall i | 0 <= i < |chain| && chain[i].kind == App
      ensures i + 1 < |chain| && (chain[i + 1].kind == Init || chain[i + 1].kind == Inner)
    {
      if i < |before| {
        assert chain[i] == reset[..|before|][i] == before[i];
        assert i + 1 < |before|;
        assert chain[i + 1] == reset[..|before|][i + 1] == before[i + 1];
      }
    }
  }

  /** The state after the resets of a non-empty stack's iteration (none on the first). */
  function AfterResets(kp: KernelProver, libs: ProverLibraries, idx: TraceIndices, stack: seq<PrivateExecutionResult>,
                       st: ProvingState, firstIteration: bool, resetLimit: nat): Outcome<ProvingState>
  {
    if firstIteration then Ok(st) else ResetLoop(kp, libs, idx, st, stack, resetLimit)
  }

  /** One unfolding of the main loop, named. */
  lemma DriveStep(kp: KernelProver, libs: ProverLibraries, txRequest: TxRequest,
                  idx: TraceIndices, stack: seq<PrivateExecutionResult>,
                  st: ProvingState, firstIteration: bool, resetLimit: nat)
    requires stack != []
    requires Drive(kp, libs, txRequest, idx, stack, st, firstIteration, resetLimit).Ok?
    ensures var reset := AfterResets(kp, libs, idx, stack, st, firstIteration, resetLimit);
      && reset.Ok?
      && var next := ProcessExecution(kp, libs, txRequest, reset.value, stack[|stack| - 1], firstIteration);
      && next.Ok?
      && Drive(kp, libs, txRequest, idx, stack, st, firstIteration, resetLimit)
         == Drive(kp, libs, txRequest, idx, Popped(stack), next.value, false, resetLimit)
  {
  }

  /** The state after one whole iteration of the main loop, when it succeeds. */
  function NextState(kp: KernelProver, libs: ProverLibraries, txRequest: TxRequest,
                     idx: TraceIndices, stack: seq<PrivateExecutionResult>,
                     st: ProvingState, firstIteration: bool, resetLimit: nat): ProvingState
    requires stack != []
    requires Drive(kp, libs, txRequest, idx, stack, st, firstIteration, resetLimit).Ok?
  {
    DriveStep(kp, libs, txRequest, idx, stack, st, firstIteration, resetLimit);
    var reset := AfterResets(kp, libs, idx, stack, st, firstIteration, resetLimit).value;
    ProcessExecution(kp, libs, txRequest, reset, stack[|stack| - 1], firstIteration).value
  }

  /** An iteration visits exactly the call on top of the stack. */
  lemma IterationVisitsTop(kp: KernelProver, libs: ProverLibraries, txRequest: TxRequest,
                           idx: TraceIndices, stack: seq<PrivateExecutionResult>,
                           st: ProvingState, firstIteration: bool, resetLimit: nat)
    requires stack != []
    requires Drive(kp, libs, txRequest, idx, stack, st, firstIteration, resetLimit).Ok?
    ensures NextState(kp, libs, txRequest, idx, stack, st, firstIteration, resetLimit).visited
         == st.visited + [stack[|stack| - 1]]
    ensures Drive(kp, libs, txRequest, idx, stack, st, firstIteration, resetLimit)
         == Drive(kp, libs, txRequest, idx, Popped(stack),
                  NextState(kp, libs, txRequest, idx, stack, st, firstIteration, resetLimit), false, resetLimit)
  {
    DriveStep(kp, libs, txRequest, idx, stack, st, firstIteration, resetLimit);
    var reset := AfterResets(kp, libs, idx, stack, st, firstIteration, resetLimit).value;
    if !firstIteration {
      ResetLoopAppendsResets(kp, libs, idx, st, stack, resetLimit);
    }
    ProcessExecutionAppends(kp, libs, txRequest, reset, stack[|stack| - 1], firstIteration);
  }

  /**
   * From any stack, the main loop visits exactly the pre-order of the trees on the stack taken
   * from its top down: each call before its nested calls, nested calls left to right.
   */
  lemma {:induction false} DriveVisitsPreOrder(kp: KernelProver, libs: ProverLibraries, txRequest: TxRequest,
                                               idx: TraceIndices, stack: seq<PrivateExecutionResult>,
                                               st: ProvingState, firstIteration: bool, resetLimit: nat)
    requires Drive(kp, libs, txRequest, idx, stack, st, firstIteration, resetLimit).Ok?
    ensures Drive(kp, libs, txRequest, idx, stack, st, firstIteration, resetLimit).value.visited
         == st.visited + PreOrderForest(Reversed(stack))
    decreases Remaining(stack)
  {
    if stack == [] {
      assert Reversed(stack) == [];
    } else {
      IterationVisitsTop(kp, libs, txRequest, idx, stack, st, firstIteration, resetLimit);
      var next := NextState(kp, libs, txRequest, idx, stack, st, firstIteration, resetLimit);
      var rest := Popped(stack);
      DriveVisitsPreOrder(kp, libs, txRequest, idx, rest, next, false, resetLimit);
      PopPush(stack);
      AppendVisits(Drive(kp, libs, txRequest, idx, rest, next, false, resetLimit).value.visited, next.visited, st.visited,
                   stack[|stack| - 1], PreOrderForest(Reversed(rest)), PreOrderForest(Reversed(stack)));
    }
  }

  lemma AppendVisits(afterVisits: seq<PrivateExecutionResult>, nextVisits: seq<PrivateExecutionResult>,
                     before: seq<PrivateExecutionResult>, x: PrivateExecutionResult,
                     rest: seq<PrivateExecutionResult>, walked: seq<PrivateExecutionResult>)
    requires afterVisits == nextVisits + rest
    requires nextVisits == before + [x]
    requires walked == [x] + rest
    ensures afterVisits == before + walked
  {
  }

  /** An iteration appends resets, then the top call's app circuit, then its init or inner kernel. */
  lemma IterationAppends(kp: KernelProver, libs: ProverLibraries, txRequest: TxRequest,
                         idx: TraceIndices, stack: seq<PrivateExecutionResult>,
                         st: ProvingState, firstIteration: bool, resetLimit: nat)
    requires stack != []
    requires Drive(kp, libs, txRequest, idx, stack, st, firstIteration, resetLimit).Ok?
    ensures var reset := AfterResets(kp, libs, idx, stack, st, firstIteration, resetLimit);
      var next := NextState(kp, libs, txRequest, idx, stack, st, firstIteration, resetLimit);
      && reset.Ok?
      && ExtendedByResets(st.chain, reset.value.chain)
      && (firstIteration ==> reset.value.chain == st.chain)
      && next.chain == reset.value.chain + [AppEntry(stack[|stack| - 1]),
                                            KernelEntry(if firstIteration then Init else Inner, next.output)]
  {
    DriveStep(kp, libs, txRequest, idx, stack, st, firstIteration, resetLimit);
    var reset := AfterResets(kp, libs, idx, stack, st, firstIteration, resetLimit).value;
    if !firstIteration {
      ResetLoopAppendsResets(kp, libs, idx, st, stack, resetLimit);
    } else {
      assert st.chain[..|st.chain|] == st.chain;
    }
    ProcessExecutionAppends(kp, libs, txRequest, reset, stack[|stack| - 1], firstIteration);
  }

  /** The effect of one iteration on the whole chain, by kind. */
  lemma IterationShape(before: seq<ChainEntry>, reset: seq<ChainEntry>, app: ChainEntry, kernel: ChainEntry)
    requires ExtendedByResets(before, reset)
    requires app.kind == App && (kernel.kind == Init || kernel.kind == Inner)
    requires AppsFollowedByKernel(before) && (before != [] ==> before[|before| - 1].kind != App)
    ensures var chain := reset + [app, kernel];
      && |before| + 2 <= |chain| && chain[..|before|] == before
      && OfKind(chain, App) == OfKind(before, App) + [app]
      && |OfKind(chain, Init)| == |OfKind(before, Init)| + (if kernel.kind == Init then 1 else 0)
      && |OfKind(chain, Inner)| == |OfKind(before, Inner)| + (if kernel.kind == Inner then 1 else 0)
      && OfKind(chain, Tail) == OfKind(before, Tail)
      && AppsFollowedByKernel(chain)
      && chain[|chain| - 1].kind != App
  {
    IterationOfKind(before, reset, app, kernel, App);
    IterationOfKind(before, reset, app, kernel, Init);
    IterationOfKind(before, reset, app, kernel, Inner);
    IterationOfKind(before, reset, app, kernel, Tail);
    IterationFollowed(before, reset, app, kernel);
    assert (reset + [app, kernel])[..|before|] == reset[..|before|];
  }

  /**
   * From any stack, the main loop only appends to the chain, and keeps every app circuit
   * immediately followed by the kernel that consumes it.
   */
  lemma {:induction false} DriveKeepsOrder(kp: KernelProver, libs: ProverLibraries, txRequest: TxRequest,
                                           idx: TraceIndices, stack: seq<PrivateExecutionResult>,
                                           st: ProvingState, firstIteration: bool, resetLimit: nat)
    requires Drive(kp, libs, txRequest, idx, stack, st, firstIteration, resetLimit).Ok?
    requires AppsFollowedByKernel(st.chain) && (st.chain != [] ==> st.chain[|st.chain| - 1].kind != App)
    ensures var after := Drive(kp, libs, txRequest, idx, stack, st, firstIteration, resetLimit).value;
      && |st.chain| <= |after.chain| && after.chain[..|st.chain|] == st.chain
      && AppsFollowedByKernel(after.chain)
      && (after.chain != [] ==> after.chain[|after.chain| - 1].kind != App)
    decreases Remaining(stack)
  {
    if stack != [] {
      IterationVisitsTop(kp, libs, txRequest, idx, stack, st, firstIteration, resetLimit);
      IterationAppends(kp, libs, txRequest, idx, stack, st, firstIteration, resetLimit);
      var reset := AfterResets(kp, libs, idx, stack, st, firstIteration, resetLimit).value;
      var next := NextState(kp, libs, txRequest, idx, stack, st, firstIteration, resetLimit);
      var kernel := KernelEntry(if firstIteration then Init else Inner, next.output);
      IterationShape(st.chain, reset.chain, AppEntry(stack[|stack| - 1]), kernel);
      DriveKeepsOrder(kp, libs, txRequest, idx, Popped(stack), next, false, resetLimit);
      var after := Drive(kp, libs, txRequest, idx, Popped(stack), next, false, resetLimit).value;
      assert after.chain[..|st.chain|] == next.chain[..|st.chain|];
    }
  }

  lemma AppEntriesCons(e: PrivateExecutionResult, es: seq<PrivateExecutionResult>)
    ensures AppEntries([e] + es) == [AppEntry(e)] + AppEntries(es)
  {
  }

  /** An iteration adds exactly the top call's app circuit to the app circuits of the chain. */
  lemma IterationAddsApp(kp: KernelProver, libs: ProverLibraries, txRequest: TxRequest,
                         idx: TraceIndices, stack: seq<PrivateExecutionResult>,
                         st: ProvingState, firstIteration: bool, resetLimit: nat)
    requires stack != []
    requires Drive(kp, libs, txRequest, idx, stack, st, firstIteration, resetLimit).Ok?
    ensures OfKind(NextState(kp, libs, txRequest, idx, stack, st, firstIteration, resetLimit).chain, App)
         == OfKind(st.chain, App) + [AppEntry(stack[|stack| - 1])]
  {
    IterationAppends(kp, libs, txRequest, idx, stack, st, firstIteration, resetLimit);
    var reset := AfterResets(kp, libs, idx, stack, st, firstIteration, resetLimit).value;
    var next := NextState(kp, libs, txRequest, idx, stack, st, firstIteration, resetLimit);
    var kernel := KernelEntry(if firstIteration then Init else Inner, next.output);
    IterationOfKind(st.chain, reset.chain, AppEntry(stack[|stack| - 1]), kernel, App);
  }

  lemma AppendApps(afterApps: seq<ChainEntry>, nextApps: seq<ChainEntry>, before: seq<ChainEntry>,
                   x: PrivateExecutionResult, rest: seq<PrivateExecutionResult>, walked: seq<PrivateExecutionResult>)
    requires afterApps == nextApps + AppEntries(rest)
    requires nextApps == before + [AppEntry(x)]
    requires walked == [x] + rest
    ensures afterApps == before + AppEntries(walked)
  {
    AppEntriesCons(x, rest);
  }

  /** From any stack, the main loop appends one app circuit per call visited, in visiting order. */
  lemma {:induction false} DriveAppsInOrder(kp: KernelProver, libs: ProverLibraries, txRequest: TxRequest,
                                            idx: TraceIndices, stack: seq<PrivateExecutionResult>,
                                            st: ProvingState, firstIteration: bool, resetLimit: nat)
    requires Drive(kp, libs, txRequest, idx, stack, st, firstIteration, resetLimit).Ok?
    ensures OfKind(Drive(kp, libs, txRequest, idx, stack, st, firstIteration, resetLimit).value.chain, App)
         == OfKind(st.chain, App) + AppEntries(PreOrderForest(Reversed(stack)))
    decreases Remaining(stack)
  {
    if stack == [] {
      assert Reversed(stack) == [];
      assert AppEntries([]) == [];
    } else {
      var current := stack[|stack| - 1];
      IterationVisitsTop(kp, libs, txRequest, idx, stack, st, firstIteration, resetLimit);
      IterationAddsApp(kp, libs, txRequest, idx, stack, st, firstIteration, resetLimit);
      var next := NextState(kp, libs, txRequest, idx, stack, st, firstIteration, resetLimit);
      var rest := Popped(stack);
      DriveAppsInOrder(kp, libs, txRequest, idx, rest, next, false, resetLimit);
      PopPush(stack);
      var whole := Drive(kp, libs, txRequest, idx, stack, st, firstIteration, resetLimit).value;
      AppendApps(OfKind(whole.chain, App), OfKind(next.chain, App), OfKind(st.chain, App), current, PreOrderForest(Reversed(rest)),
                 PreOrderForest(Reversed(stack)));
    }
  }

  /**
   * From any stack, the main loop appends one kernel per call visited: init for the first
   * iteration of the run, inner for every other; and it appends no tail.
   */
  lemma {:induction false} DriveKernelCounts(kp: KernelProver, libs: ProverLibraries, txRequest: TxRequest,
                                             idx: TraceIndices, stack: seq<PrivateExecutionResult>,
                                             st: ProvingState, firstIteration: bool, resetLimit: nat)
    requires Drive(kp, libs, txRequest, idx, stack, st, firstIteration, resetLimit).Ok?
    ensures var after := Drive(kp, libs, txRequest, idx, stack, st, firstIteration, resetLimit).value;
      var inits := if firstIteration && stack != [] then 1 else 0;
      && |OfKind(after.chain, Init)| == |OfKind(st.chain, Init)| + inits
      && |OfKind(after.chain, Inner)| + inits == |OfKind(st.chain, Inner)| + |PreOrderForest(Reversed(stack))|
      && OfKind(after.chain, Tail) == OfKind(st.chain, Tail)
    decreases Remaining(stack)
  {
    if stack == [] {
      assert Reversed(stack) == [];
    } else {
      var current := stack[|stack| - 1];
      IterationVisitsTop(kp, libs, txRequest, idx, stack, st, firstIteration, resetLimit);
      IterationAppends(kp, libs, txRequest, idx, stack, st, firstIteration, resetLimit);
      var reset := AfterResets(kp, libs, idx, stack, st, firstIteration, resetLimit).value;
      var next := NextState(kp, libs, txRequest, idx, stack, st, firstIteration, resetLimit);
      var kernel := KernelEntry(if firstIteration then Init else Inner, next.output);
      IterationOfKind(st.chain, reset.chain, AppEntry(current), kernel, Init);
      IterationOfKind(st.chain, reset.chain, AppEntry(current), kernel, Inner);
      IterationOfKind(st.chain, reset.chain, AppEntry(current), kernel, Tail);
      var rest := Popped(stack);
      DriveKernelCounts(kp, libs, txRequest, idx, rest, next, false, resetLimit);
      PopPush(stack);
    }
  }

  /** The first iteration runs no reset: the root's app circuit comes first, then the init kernel. */
  lemma DriveStartsWithInit(kp: KernelProver, libs: ProverLibraries, txRequest: TxRequest,
                            idx: TraceIndices, stack: seq<PrivateExecutionResult>,
                            st: ProvingState, resetLimit: nat)
    requires stack != []
    requires Drive(kp, libs, txRequest, idx, stack, st, true, resetLimit).Ok?
    requires AppsFollowedByKernel(st.chain) && (st.chain != [] ==> st.chain[|st.chain| - 1].kind != App)
    ensures var after := Drive(kp, libs, txRequest, idx, stack, st, true, resetLimit).value;
      && |st.chain| + 2 <= |after.chain|
      && after.chain[|st.chain|] == AppEntry(stack[|stack| - 1])
      && after.chain[|st.chain| + 1].kind == Init
  {
    IterationVisitsTop(kp, libs, txRequest, idx, stack, st, true, resetLimit);
    IterationAppends(kp, libs, txRequest, idx, stack, st, true, resetLimit);
    var next := NextState(kp, libs, txRequest, idx, stack, st, true, resetLimit);
    var kernel := KernelEntry(Init, next.output);
    IterationShape(st.chain, st.chain, AppEntry(stack[|stack| - 1]), kernel);
    DriveKeepsOrder(kp, libs, txRequest, idx, Popped(stack), next, false, resetLimit);
    var after := Drive(kp, libs, txRequest, idx, Popped(stack), next, false, resetLimit).value;
    assert after.chain[..|next.chain|] == next.chain;
    assert after.chain[|st.chain|] == next.chain[|st.chain|];
    assert after.chain[|st.chain| + 1] == next.chain[|st.chain| + 1];
  }

  // ---------------------------------------------------------------------------------------------
  // A whole proving run
  // ---------------------------------------------------------------------------------------------

  /** The state after the main loop of a successful run. */
  function Driven(kp: KernelProver, libs: ProverLibraries, txRequest: TxRequest,
                  root: PrivateExecutionResult, resetLimit: nat): ProvingState
    requires ProveSpec(kp, libs, txRequest, root, resetLimit).Ok?
  {
    Drive(kp, libs, txRequest, CollectTraceIndices(libs.collectors, root), [root], INITIAL_STATE, true, resetLimit).value
  }

  /** The state after the last reset loop of a successful run, from which the tail kernel is built. */
  function Settled(kp: KernelProver, libs: ProverLibraries, txRequest: TxRequest,
                   root: PrivateExecutionResult, resetLimit: nat): ProvingState
    requires ProveSpec(kp, libs, txRequest, root, resetLimit).Ok?
  {
    var idx := CollectTraceIndices(libs.collectors, root);
    ResetLoop(kp, libs, idx, Driven(kp, libs, txRequest, root, resetLimit), [], resetLimit).value
  }

  /**
   * A successful run ends with its last reset loop settled, then the tail kernel built on the
   * last kernel's output, and returns the tail's output carrying the client IVC proof composed
   * from the whole chain, tail included.
   */
  lemma ProveSpecEnds(kp: KernelProver, libs: ProverLibraries, txRequest: TxRequest,
                      root: PrivateExecutionResult, resetLimit: nat)
    requires ProveSpec(kp, libs, txRequest, root, resetLimit).Ok?
    ensures var t := ProveSpec(kp, libs, txRequest, root, resetLimit).value;
      var driven := Driven(kp, libs, txRequest, root, resetLimit);
      var settled := Settled(kp, libs, txRequest, root, resetLimit);
      var idx := CollectTraceIndices(libs.collectors, root);
      && ExtendedByResets(driven.chain, settled.chain)
      && settled.visited == driven.visited == t.visited
      && t.lastKernelOutput == settled.output
      && !libs.reset.needsReset(Builder(idx, t.lastKernelOutput, []))
      && PreviousKernelData(kp.oracle, t.lastKernelOutput).Ok?
      && var tail := kp.proofCreator.simulateProofTail(
                       PrivateKernelTailCircuitPrivateInputs(PreviousKernelData(kp.oracle, t.lastKernelOutput).value));
      && tail.Ok?
      && t.chain == settled.chain + [ChainEntry(Tail, tail.value.bytecode, tail.value.outputWitness)]
      && t.result.clientIvcProof.Some?
      && t.result == tail.value.(clientIvcProof := t.result.clientIvcProof)
      && kp.proofCreator.createClientIvcProof(Acirs(t.chain), Witnesses(t.chain)) == Ok(t.result.clientIvcProof.value)
  {
    var idx := CollectTraceIndices(libs.collectors, root);
    ResetLoopAppendsResets(kp, libs, idx, Driven(kp, libs, txRequest, root, resetLimit), [], resetLimit);
  }

  /** The stack holding only the root walks exactly the root's call tree. */
  lemma RootWalk(root: PrivateExecutionResult)
    ensures PreOrderForest(Reversed([root])) == PreOrder(root)
  {
    assert Reversed([root]) == [root];
    assert [root][1..] == [];
  }

  /**
   * A successful run visits every call of the tree exactly once, in pre-order: each call before
   * its nested calls, nested calls in the order they were made.
   */
  lemma ProveVisitsPreOrder(kp: KernelProver, libs: ProverLibraries, txRequest: TxRequest,
                            root: PrivateExecutionResult, resetLimit: nat)
    requires ProveSpec(kp, libs, txRequest, root, resetLimit).Ok?
    ensures ProveSpec(kp, libs, txRequest, root, resetLimit).value.visited == PreOrder(root)
  {
    var idx := CollectTraceIndices(libs.collectors, root);
    ProveSpecEnds(kp, libs, txRequest, root, resetLimit);
    DriveVisitsPreOrder(kp, libs, txRequest, idx, [root], INITIAL_STATE, true, resetLimit);
    RootWalk(root);
  }

  /** Resets and then the tail leave the other kinds alone and add exactly the tail. */
  lemma ResetsThenTail(driven: seq<ChainEntry>, settled: seq<ChainEntry>, tail: ChainEntry, k: CircuitKind)
    requires ExtendedByResets(driven, settled)
    requires tail.kind == Tail && k != Reset
    ensures OfKind(settled + [tail], k) == OfKind(driven, k) + (if k == Tail then [tail] else [])
  {
    ResetsAddOnlyResets(driven, settled, k);
    OfKindAppend(settled, [tail], k);
    assert [tail][..0] == [];
  }

  /** The app circuits of a successful run's chain are those of its calls, in pre-order. */
  lemma ProveAppsInOrder(kp: KernelProver, libs: ProverLibraries, txRequest: TxRequest,
                         root: PrivateExecutionResult, resetLimit: nat)
    requires ProveSpec(kp, libs, txRequest, root, resetLimit).Ok?
    ensures OfKind(ProveSpec(kp, libs, txRequest, root, resetLimit).value.chain, App) == AppEntries(PreOrder(root))
  {
    var t := ProveSpec(kp, libs, txRequest, root, resetLimit).value;
    var idx := CollectTraceIndices(libs.collectors, root);
    ProveSpecEnds(kp, libs, txRequest, root, resetLimit);
    DriveAppsInOrder(kp, libs, txRequest, idx, [root], INITIAL_STATE, true, resetLimit);
    RootWalk(root);
    ResetsThenTail(Driven(kp, libs, txRequest, root, resetLimit).chain, Settled(kp, libs, txRequest, root, resetLimit).chain,
                   t.chain[|t.chain| - 1], App);
  }

  /**
   * A successful run's chain holds one init kernel, an inner kernel for every other call, and
   * one tail kernel, which comes last.
   */
  lemma ProveKernelCounts(kp: KernelProver, libs: ProverLibraries, txRequest: TxRequest,
                          root: PrivateExecutionResult, resetLimit: nat)
    requires ProveSpec(kp, libs, txRequest, root, resetLimit).Ok?
    ensures var chain := ProveSpec(kp, libs, txRequest, root, resetLimit).value.chain;
      && |OfKind(chain, Init)| == 1
      && |OfKind(chain, Inner)| == |PreOrder(root)| - 1
      && chain != [] && chain[|chain| - 1].kind == Tail
      && OfKind(chain, Tail) == [chain[|chain| - 1]]
  {
    var t := ProveSpec(kp, libs, txRequest, root, resetLimit).value;
    var idx := CollectTraceIndices(libs.collectors, root);
    var driven := Driven(kp, libs, txRequest, root, resetLimit).chain;
    var settled := Settled(kp, libs, txRequest, root, resetLimit).chain;
    ProveSpecEnds(kp, libs, txRequest, root, resetLimit);
    DriveKernelCounts(kp, libs, txRequest, idx, [root], INITIAL_STATE, true, resetLimit);
    RootWalk(root);
    var tail := t.chain[|t.chain| - 1];
    ResetsThenTail(driven, settled, tail, Init);
    ResetsThenTail(driven, settled, tail, Inner);
    ResetsThenTail(driven, settled, tail, Tail);
    assert OfKind([], Tail) == [];
  }

  /** Resets that extend a chain are counted as resets. */
  lemma {:induction false} ResetsCounted(prefix: seq<ChainEntry>, chain: seq<ChainEntry>)
    requires ExtendedByResets(prefix, chain)
    ensures |OfKind(chain, Reset)| == |OfKind(prefix, Reset)| + |chain| - |prefix|
    decreases |chain|
  {
    if |chain| > |prefix| {
      var n := |chain| - 1;
      assert chain[..n][..|prefix|] == prefix;
      ResetsCounted(prefix, chain[..n]);
    } else {
      assert chain == prefix;
    }
  }

  /**
   * One iteration runs no reset on the first iteration, as `prove` does. On a later one it runs
   * at most `resetLimit`; that bound is the model's fuel, which the source does not have.
   */
  lemma IterationResets(kp: KernelProver, libs: ProverLibraries, txRequest: TxRequest,
                        idx: TraceIndices, stack: seq<PrivateExecutionResult>,
                        st: ProvingState, firstIteration: bool, resetLimit: nat)
    requires stack != []
    requires Drive(kp, libs, txRequest, idx, stack, st, firstIteration, resetLimit).Ok?
    ensures |OfKind(NextState(kp, libs, txRequest, idx, stack, st, firstIteration, resetLimit).chain, Reset)|
         <= |OfKind(st.chain, Reset)| + (if firstIteration then 0 else resetLimit)
  {
    DriveStep(kp, libs, txRequest, idx, stack, st, firstIteration, resetLimit);
    IterationAppends(kp, libs, txRequest, idx, stack, st, firstIteration, resetLimit);
    var reset := AfterResets(kp, libs, idx, stack, st, firstIteration, resetLimit).value;
    var next := NextState(kp, libs, txRequest, idx, stack, st, firstIteration, resetLimit);
    if !firstIteration {
      ResetLoopAppendsResets(kp, libs, idx, st, stack, resetLimit);
    }
    ResetsCounted(st.chain, reset.chain);
    var added := [AppEntry(stack[|stack| - 1]), KernelEntry(if firstIteration then Init else Inner, next.output)];
    OfKindAbsent(added, Reset);
    OfKindAppend(reset.chain, added, Reset);
  }

  /** The reset budget of one iteration added to that of the rest of the walk. */
  lemma BudgetStep(after: nat, next: nat, before: nat, limit: nat, rest: nat, remaining: nat, first: bool)
    requires after <= next + limit * rest
    requires next <= before + (if first then 0 else limit)
    requires remaining == rest + 1
    ensures after + (if first then limit else 0) <= before + limit * remaining
  {
    assert limit * remaining == limit * rest + limit;
  }

  /**
   * From any stack, the main loop runs at most `resetLimit` resets for each call it visits but
   * the first of the run, which is given no budget (it gets no reset, as in `prove`); the bound
   * is the model's fuel.
   */
  lemma {:induction false} DriveResetsBounded(kp: KernelProver, libs: ProverLibraries, txRequest: TxRequest,
                                              idx: TraceIndices, stack: seq<PrivateExecutionResult>,
                                              st: ProvingState, firstIteration: bool, resetLimit: nat)
    requires Drive(kp, libs, txRequest, idx, stack, st, firstIteration, resetLimit).Ok?
    ensures |OfKind(Drive(kp, libs, txRequest, idx, stack, st, firstIteration, resetLimit).value.chain, Reset)|
            + (if firstIteration && stack != [] then resetLimit else 0)
         <= |OfKind(st.chain, Reset)| + resetLimit * |PreOrderForest(Reversed(stack))|
    decreases Remaining(stack)
  {
    if stack == [] {
      assert Reversed(stack) == [];
    } else {
      IterationVisitsTop(kp, libs, txRequest, idx, stack, st, firstIteration, resetLimit);
      IterationResets(kp, libs, txRequest, idx, stack, st, firstIteration, resetLimit);
      var next := NextState(kp, libs, txRequest, idx, stack, st, firstIteration, resetLimit);
      var rest := Popped(stack);
      DriveResetsBounded(kp, libs, txRequest, idx, rest, next, false, resetLimit);
      var after := Drive(kp, libs, txRequest, idx, stack, st, firstIteration, resetLimit).value;
      BudgetStep(|OfKind(after.chain, Reset)|, |OfKind(next.chain, Reset)|, |OfKind(st.chain, Reset)|,
                 resetLimit, Remaining(rest), Remaining(stack), firstIteration);
    }
  }

  /** Resets then the tail add to the reset count only the resets themselves. */
  lemma ResetsThenTailCounted(driven: seq<ChainEntry>, settled: seq<ChainEntry>, tail: ChainEntry)
    requires ExtendedByResets(driven, settled)
    requires tail.kind == Tail
    ensures |OfKind(settled + [tail], Reset)| == |OfKind(driven, Reset)| + |settled| - |driven|
  {
    ResetsCounted(driven, settled);
    OfKindAppend(settled, [tail], Reset);
    assert [tail][..0] == [];
  }

  /**
   * A successful run proves no reset kernel before the first call, as `prove` does: its chain
   * opens with the root's app circuit and the init kernel. For N calls it proves at most
   * `resetLimit` * N resets in all; that bound is the model's fuel, which the source does not have.
   */
  lemma ProveResetsBounded(kp: KernelProver, libs: ProverLibraries, txRequest: TxRequest,
                           root: PrivateExecutionResult, resetLimit: nat)
    requires ProveSpec(kp, libs, txRequest, root, resetLimit).Ok?
    ensures var chain := ProveSpec(kp, libs, txRequest, root, resetLimit).value.chain;
      && |OfKind(chain, Reset)| <= resetLimit * |PreOrder(root)|
      && |chain| >= 2 && chain[0] == AppEntry(root) && chain[1].kind == Init
  {
    ProveChainOrder(kp, libs, txRequest, root, resetLimit);
    var t := ProveSpec(kp, libs, txRequest, root, resetLimit).value;
    var idx := CollectTraceIndices(libs.collectors, root);
    var driven := Driven(kp, libs, txRequest, root, resetLimit);
    ProveSpecEnds(kp, libs, txRequest, root, resetLimit);
    ResetLoopAppendsResets(kp, libs, idx, driven, [], resetLimit);
    DriveResetsBounded(kp, libs, txRequest, idx, [root], INITIAL_STATE, true, resetLimit);
    RootWalk(root);
    ResetsThenTailCounted(driven.chain, Settled(kp, libs, txRequest, root, resetLimit).chain, t.chain[|t.chain| - 1]);
  }

  /**
   * A successful run's chain is two circuits per call (its app circuit and its init or inner
   * kernel), the resets, and the tail.
   */
  lemma ProveChainLength(kp: KernelProver, libs: ProverLibraries, txRequest: TxRequest,
                         root: PrivateExecutionResult, resetLimit: nat)
    requires ProveSpec(kp, libs, txRequest, root, resetLimit).Ok?
    ensures var chain := ProveSpec(kp, libs, txRequest, root, resetLimit).value.chain;
      |chain| == 2 * |PreOrder(root)| + |OfKind(chain, Reset)| + 1
  {
    var chain := ProveSpec(kp, libs, txRequest, root, resetLimit).value.chain;
    ProveAppsInOrder(kp, libs, txRequest, root, resetLimit);
    ProveKernelCounts(kp, libs, txRequest, root, resetLimit);
    KindsPartition(chain);
  }

  /** Resets then the tail keep a chain's prefix and keep every app circuit followed by its kernel. */
  lemma ResetsThenTailFollowed(driven: seq<ChainEntry>, settled: seq<ChainEntry>, tail: ChainEntry)
    requires ExtendedByResets(driven, settled)
    requires tail.kind == Tail
    requires AppsFollowedByKernel(driven) && (driven != [] ==> driven[|driven| - 1].kind != App)
    ensures (settled + [tail])[..|driven|] == driven
    ensures AppsFollowedByKernel(settled + [tail])
  {
    var chain := settled + [tail];
    assert chain[..|driven|] == settled[..|driven|];
    forall i | 0 <= i < |chain| && chain[i].kind == App
      ensures i + 1 < |chain| && (chain[i + 1].kind == Init || chain[i + 1].kind == Inner)
    {
      assert i < |driven|;
      assert chain[i] == driven[i];
      assert i + 1 < |driven|;
      assert chain[i + 1] == driven[i + 1];
    }
  }

  /**
   * A successful run starts its chain with the root call's app circuit and the init kernel (no
   * reset runs before the first call), and every app circuit is immediately followed by the
   * kernel that consumes it.
   */
  lemma ProveChainOrder(kp: KernelProver, libs: ProverLibraries, txRequest: TxRequest,
                        root: PrivateExecutionResult, resetLimit: nat)
    requires ProveSpec(kp, libs, txRequest, root, resetLimit).Ok?
    ensures var chain := ProveSpec(kp, libs, txRequest, root, resetLimit).value.chain;
      && |chain| >= 3
      && chain[0] == AppEntry(root)
      && chain[1].kind == Init
      && AppsFollowedByKernel(chain)
  {
    var t := ProveSpec(kp, libs, txRequest, root, resetLimit).value;
    var idx := CollectTraceIndices(libs.collectors, root);
    var driven := Driven(kp, libs, txRequest, root, resetLimit).chain;
    ProveSpecEnds(kp, libs, txRequest, root, resetLimit);
    DriveKeepsOrder(kp, libs, txRequest, idx, [root], INITIAL_STATE, true, resetLimit);
    DriveStartsWithInit(kp, libs, txRequest, idx, [root], INITIAL_STATE, resetLimit);
    ResetsThenTailFollowed(driven, Settled(kp, libs, txRequest, root, resetLimit).chain, t.chain[|t.chain| - 1]);
    assert t.chain[0] == t.chain[..|driven|][0] == driven[0];
    assert t.chain[1] == t.chain[..|driven|][1] == driven[1];
  }

  /** A run whose root call's function name cannot be looked up fails with that lookup's error. */
  lemma ProveFailsOnRootLookup(kp: KernelProver, libs: ProverLibraries, txRequest: TxRequest,
                               root: PrivateExecutionResult, resetLimit: nat)
    requires kp.oracle.getDebugFunctionName(root.callStackItem.contractAddress,
                                            root.callStackItem.functionData.selector).Err?
    ensures ProveSpec(kp, libs, txRequest, root, resetLimit)
         == Err(kp.oracle.getDebugFunctionName(root.callStackItem.contractAddress,
                                               root.callStackItem.functionData.selector).error)
  {
  }

  /**
   * With no reset fuel, a run whose last kernel still needs a reset fails with
   * `ResetLimitExceeded` before any tail is built. Both the fuel and that error belong to the
   * model: the source would run the reset.
   */
  lemma ProveFailsWithoutResetFuel(kp: KernelProver, libs: ProverLibraries, txRequest: TxRequest,
                                   root: PrivateExecutionResult)
    requires Drive(kp, libs, txRequest, CollectTraceIndices(libs.collectors, root), [root], INITIAL_STATE, true, 0).Ok?
    requires libs.reset.needsReset(Builder(CollectTraceIndices(libs.collectors, root),
      Drive(kp, libs, txRequest, CollectTraceIndices(libs.collectors, root), [root], INITIAL_STATE, true, 0).value.output, []))
    ensures ProveSpec(kp, libs, txRequest, root, 0) == Err(ResetLimitExceeded)
  {
  }

  /**
   * A run of a single call with no nested calls that needs no reset proves exactly three
   * circuits: the app circuit, the init kernel and the tail kernel.
   */
  lemma ProveSingleCall(kp: KernelProver, libs: ProverLibraries, txRequest: TxRequest,
                        root: PrivateExecutionResult, resetLimit: nat)
    requires root.nestedExecutions == []
    requires ProveSpec(kp, libs, txRequest, root, resetLimit).Ok?
    requires OfKind(ProveSpec(kp, libs, txRequest, root, resetLimit).value.chain, Reset) == []
    ensures var chain := ProveSpec(kp, libs, txRequest, root, resetLimit).value.chain;
      && |chain| == 3
      && chain[0] == AppEntry(root) && chain[1].kind == Init && chain[2].kind == Tail
  {
    assert PreOrder(root) == [root];
    ProveChainLength(kp, libs, txRequest, root, resetLimit);
    ProveChainOrder(kp, libs, txRequest, root, resetLimit);
    ProveKernelCounts(kp, libs, txRequest, root, resetLimit);
  }
}
