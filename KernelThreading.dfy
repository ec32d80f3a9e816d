/**
 * How a proving run threads kernel outputs: every reset, inner and tail circuit is given the
 * output of the kernel circuit just before it, and every reset builder the run asks carries the
 * counters derived from the trace.
 */
module KernelThreading {
  import opened Wrappers
  import opened CircuitTypes
  import opened KernelProver
  import opened KernelProofs

  // ---------------------------------------------------------------------------------------------
  // What a state promises about its log
  // ---------------------------------------------------------------------------------------------

  /**
   * `input` carries `output`: a reset's builder holds it as its previous kernel, and an inner or
   * tail kernel's `PrivateKernelData` has its public inputs and verification key.
   */
  ghost predicate Receives(input: KernelInput, output: PrivateKernelSimulateOutput) {
    match input
    case FromBuilder(b) => b.previousKernel == output
    case FromKernelData(d) => d.publicInputs == output.publicInputs && d.vk == output.verificationKey
  }

  /**
   * `latest` is the last output simulated, and the inputs handed on so far carry the earlier
   * outputs, one each, in order: each output went to the circuit that came right after it.
   */
  ghost predicate ThreadedLog(latest: PrivateKernelSimulateOutput, outputs: seq<PrivateKernelSimulateOutput>,
                              consumed: seq<KernelInput>) {
    if outputs == [] then consumed == []
    else
      && latest == outputs[|outputs| - 1]
      && |consumed| == |outputs| - 1
      && forall i | 0 <= i < |consumed| :: Receives(consumed[i], outputs[i])
  }

  ghost predicate Threaded(st: ProvingState) {
    ThreadedLog(st.output, st.log.outputs, st.log.consumed)
  }

  /** A non-empty chain ends with the init, inner or reset kernel whose output is the latest. */
  predicate EndsWithOutput(st: ProvingState) {
    st.chain != [] ==>
      var last := st.chain[|st.chain| - 1];
      last.kind in {Init, Inner, Reset} && last == KernelEntry(last.kind, st.output)
  }

  /** Every reset builder asked so far carries the run's counters and an output the run simulated. */
  predicate BuildersFrom(idx: TraceIndices, st: ProvingState) {
    forall i | 0 <= i < |st.log.builders| ::
      && st.log.builders[i].noteHashNullifierCounterMap == idx.noteHashNullifierCounterMap
      && st.log.builders[i].validationRequestsSplitCounter == idx.validationRequestsSplitCounter
      && st.log.builders[i].previousKernel in st.log.outputs
  }

  /** Handing on the latest output leaves every output handed on to the circuit after it. */
  lemma HandOn(outputs: seq<PrivateKernelSimulateOutput>, consumed: seq<KernelInput>,
               latest: PrivateKernelSimulateOutput, input: KernelInput)
    requires outputs != [] && ThreadedLog(latest, outputs, consumed) && Receives(input, latest)
    ensures |consumed + [input]| == |outputs|
    ensures forall i | 0 <= i < |outputs| :: Receives((consumed + [input])[i], outputs[i])
  {
    forall i | 0 <= i < |outputs|
      ensures Receives((consumed + [input])[i], outputs[i])
    {
      if i < |consumed| {
        assert (consumed + [input])[i] == consumed[i];
      }
    }
  }

  /** Handing on the latest output and simulating a new one keeps the log threaded. */
  lemma ThreadStep(outputs: seq<PrivateKernelSimulateOutput>, consumed: seq<KernelInput>,
                   latest: PrivateKernelSimulateOutput, input: KernelInput, output: PrivateKernelSimulateOutput)
    requires outputs != [] && ThreadedLog(latest, outputs, consumed) && Receives(input, latest)
    ensures ThreadedLog(output, outputs + [output], consumed + [input])
  {
    HandOn(outputs, consumed, latest, input);
    var o := outputs + [output];
    forall i | 0 <= i < |consumed + [input]|
      ensures Receives((consumed + [input])[i], o[i])
    {
      assert o[i] == outputs[i];
    }
  }

  // ---------------------------------------------------------------------------------------------
  // The reset loop
  // ---------------------------------------------------------------------------------------------

  /** A reset loop hands each reset the latest output and keeps the log threaded. */
  lemma {:induction false} ResetLoopThreads(kp: KernelProver, libs: ProverLibraries, idx: TraceIndices,
                                            st: ProvingState, stack: seq<PrivateExecutionResult>, fuel: nat)
    requires Threaded(st) && st.log.outputs != []
    requires ResetLoop(kp, libs, idx, st, stack, fuel).Ok?
    ensures var after := ResetLoop(kp, libs, idx, st, stack, fuel).value;
      Threaded(after) && after.log.outputs != []
    decreases fuel
  {
    var builder := Builder(idx, st.output, stack);
    if libs.reset.needsReset(builder) {
      var privateInputs := libs.reset.build(builder, kp.oracle, idx.noteHashLeafIndexMap).value;
      var output := kp.proofCreator.simulateProofReset(privateInputs).value;
      var queried := st.log.(builders := st.log.builders + [builder]);
      var log := queried.(outputs := queried.outputs + [output], consumed := queried.consumed + [FromBuilder(builder)]);
      var next := ProvingState(output, st.chain + [KernelEntry(Reset, output)], st.visited, log);
      ThreadStep(st.log.outputs, st.log.consumed, st.output, FromBuilder(builder), output);
      ResetLoopThreads(kp, libs, idx, next, stack, fuel - 1);
    }
  }

  /** After a reset loop the chain still ends with the kernel whose output is the latest. */
  lemma {:induction false} ResetLoopEndsWithOutput(kp: KernelProver, libs: ProverLibraries, idx: TraceIndices,
                                                   st: ProvingState, stack: seq<PrivateExecutionResult>, fuel: nat)
    requires EndsWithOutput(st)
    requires ResetLoop(kp, libs, idx, st, stack, fuel).Ok?
    ensures EndsWithOutput(ResetLoop(kp, libs, idx, st, stack, fuel).value)
    decreases fuel
  {
    var builder := Builder(idx, st.output, stack);
    if libs.reset.needsReset(builder) {
      var privateInputs := libs.reset.build(builder, kp.oracle, idx.noteHashLeafIndexMap).value;
      var output := kp.proofCreator.simulateProofReset(privateInputs).value;
      var queried := st.log.(builders := st.log.builders + [builder]);
      var log := queried.(outputs := queried.outputs + [output], consumed := queried.consumed + [FromBuilder(builder)]);
      var next := ProvingState(output, st.chain + [KernelEntry(Reset, output)], st.visited, log);
      ResetLoopEndsWithOutput(kp, libs, idx, next, stack, fuel - 1);
    }
  }

  /**
   * A reset loop asks at least one builder, and each builder it asks carries the run's counters
   * and an output the run simulated.
   */
  lemma {:induction false} ResetLoopBuilders(kp: KernelProver, libs: ProverLibraries, idx: TraceIndices,
                                             st: ProvingState, stack: seq<PrivateExecutionResult>, fuel: nat)
    requires BuildersFrom(idx, st) && Threaded(st) && st.log.outputs != []
    requires ResetLoop(kp, libs, idx, st, stack, fuel).Ok?
    ensures var after := ResetLoop(kp, libs, idx, st, stack, fuel).value;
      BuildersFrom(idx, after) && |st.log.builders| < |after.log.builders|
    decreases fuel
  {
    var builder := Builder(idx, st.output, stack);
    var queried := st.log.(builders := st.log.builders + [builder]);
    assert builder.previousKernel in st.log.outputs;
    if libs.reset.needsReset(builder) {
      var privateInputs := libs.reset.build(builder, kp.oracle, idx.noteHashLeafIndexMap).value;
      var output := kp.proofCreator.simulateProofReset(privateInputs).value;
      var log := queried.(outputs := queried.outputs + [output], consumed := queried.consumed + [FromBuilder(builder)]);
      var next := ProvingState(output, st.chain + [KernelEntry(Reset, output)], st.visited, log);
      ThreadStep(st.log.outputs, st.log.consumed, st.output, FromBuilder(builder), output);
      assert BuildersFrom(idx, next) by {
        forall i | 0 <= i < |next.log.builders|
          ensures next.log.builders[i].previousKernel in next.log.outputs
        {
          assert next.log.builders[i].previousKernel in st.log.outputs;
        }
      }
      ResetLoopBuilders(kp, libs, idx, next, stack, fuel - 1);
    } else {
      assert BuildersFrom(idx, st.(log := queried));
    }
  }

  /**
   * The builders one reset loop asks, given the log `before` it and `after` it: the first is built
   * from `latest`, the output on entry, and each later one from the output of the reset just
   * run, all with the loop's stack and the run's counters; there is one builder more than resets.
   */
  predicate AskedLatest(idx: TraceIndices, stack: seq<PrivateExecutionResult>, latest: PrivateKernelSimulateOutput,
                        before: RunLog, after: RunLog) {
    var nb, no := |before.builders|, |before.outputs|;
    && nb < |after.builders| && no <= |after.outputs|
    && |after.builders| - nb == |after.outputs| - no + 1
    && after.builders[..nb] == before.builders
    && after.outputs[..no] == before.outputs
    && after.builders[nb] == Builder(idx, latest, stack)
    && forall j | nb < j < |after.builders| :: after.builders[j] == Builder(idx, after.outputs[no + j - nb - 1], stack)
  }

  /** Every builder a reset loop asks is made from the output that was latest when it was asked. */
  lemma {:induction false} ResetLoopAsksLatest(kp: KernelProver, libs: ProverLibraries, idx: TraceIndices,
                                               st: ProvingState, stack: seq<PrivateExecutionResult>, fuel: nat)
    requires ResetLoop(kp, libs, idx, st, stack, fuel).Ok?
    ensures AskedLatest(idx, stack, st.output, st.log, ResetLoop(kp, libs, idx, st, stack, fuel).value.log)
    decreases fuel
  {
    var builder := Builder(idx, st.output, stack);
    var queried := st.log.(builders := st.log.builders + [builder]);
    if libs.reset.needsReset(builder) {
      var privateInputs := libs.reset.build(builder, kp.oracle, idx.noteHashLeafIndexMap).value;
      var output := kp.proofCreator.simulateProofReset(privateInputs).value;
      var log := queried.(outputs := queried.outputs + [output], consumed := queried.consumed + [FromBuilder(builder)]);
      var next := ProvingState(output, st.chain + [KernelEntry(Reset, output)], st.visited, log);
      ResetLoopAsksLatest(kp, libs, idx, next, stack, fuel - 1);
      var after := ResetLoop(kp, libs, idx, next, stack, fuel - 1).value.log;
      var nb, no := |st.log.builders|, |st.log.outputs|;
      assert after.builders[..nb] == after.builders[..nb + 1][..nb] == st.log.builders;
      assert after.builders[nb] == after.builders[..nb + 1][nb] == builder;
      assert after.outputs[..no] == after.outputs[..no + 1][..no] == st.log.outputs;
      assert after.outputs[no] == after.outputs[..no + 1][no] == output;
      forall j | nb < j < |after.builders|
        ensures after.builders[j] == Builder(idx, after.outputs[no + j - nb - 1], stack)
      {
        if j == nb + 1 {
          assert after.builders[j] == Builder(idx, output, stack);
        }
      }
    } else {
      assert queried.builders[..|st.log.builders|] == st.log.builders;
    }
  }

  // ---------------------------------------------------------------------------------------------
  // One call: app circuit, then init or inner kernel
  // ---------------------------------------------------------------------------------------------

  /** The init kernel starts the log; an inner kernel is handed the latest output. */
  lemma ProcessExecutionThreads(kp: KernelProver, libs: ProverLibraries, txRequest: TxRequest,
                                st: ProvingState, current: PrivateExecutionResult, firstIteration: bool)
    requires Threaded(st) && (firstIteration <==> st.log.outputs == [])
    requires ProcessExecution(kp, libs, txRequest, st, current, firstIteration).Ok?
    ensures var next := ProcessExecution(kp, libs, txRequest, st, current, firstIteration).value;
      Threaded(next) && next.log.outputs != []
  {
    var next := ProcessExecution(kp, libs, txRequest, st, current, firstIteration).value;
    if !firstIteration {
      var previousKernelData := PreviousKernelData(kp.oracle, st.output).value;
      ThreadStep(st.log.outputs, st.log.consumed, st.output, FromKernelData(previousKernelData), next.output);
    }
  }

  /** After a call's kernel the chain ends with that kernel, whose output is the latest. */
  lemma ProcessExecutionEndsWithOutput(kp: KernelProver, libs: ProverLibraries, txRequest: TxRequest,
                                       st: ProvingState, current: PrivateExecutionResult, firstIteration: bool)
    requires ProcessExecution(kp, libs, txRequest, st, current, firstIteration).Ok?
    ensures var next := ProcessExecution(kp, libs, txRequest, st, current, firstIteration).value;
      EndsWithOutput(next) && next.chain != []
  {
  }

  /** A call asks no builder and only adds outputs. */
  lemma ProcessExecutionBuilders(kp: KernelProver, libs: ProverLibraries, txRequest: TxRequest, idx: TraceIndices,
                                 st: ProvingState, current: PrivateExecutionResult, firstIteration: bool)
    requires BuildersFrom(idx, st)
    requires ProcessExecution(kp, libs, txRequest, st, current, firstIteration).Ok?
    ensures var next := ProcessExecution(kp, libs, txRequest, st, current, firstIteration).value;
      BuildersFrom(idx, next) && next.log.builders == st.log.builders
  {
    var next := ProcessExecution(kp, libs, txRequest, st, current, firstIteration).value;
    assert |st.log.outputs| < |next.log.outputs| && next.log.outputs[..|st.log.outputs|] == st.log.outputs;
    forall i | 0 <= i < |next.log.builders|
      ensures next.log.builders[i].previousKernel in next.log.outputs
    {
      var o := next.log.builders[i].previousKernel;
      var j :| 0 <= j < |st.log.outputs| && st.log.outputs[j] == o;
      assert next.log.outputs[j] == o;
    }
  }

  // ---------------------------------------------------------------------------------------------
  // The main loop
  // ---------------------------------------------------------------------------------------------

  /** The main loop keeps the log threaded; it has simulated an output once it has run a call. */
  lemma {:induction false} DriveThreads(kp: KernelProver, libs: ProverLibraries, txRequest: TxRequest,
                                        idx: TraceIndices, stack: seq<PrivateExecutionResult>,
                                        st: ProvingState, firstIteration: bool, resetLimit: nat)
    requires Threaded(st) && (firstIteration <==> st.log.outputs == [])
    requires Drive(kp, libs, txRequest, idx, stack, st, firstIteration, resetLimit).Ok?
    ensures var after := Drive(kp, libs, txRequest, idx, stack, st, firstIteration, resetLimit).value;
      Threaded(after) && (after.log.outputs == [] <==> firstIteration && stack == [])
    decreases Remaining(stack)
  {
    if stack != [] {
      DriveStep(kp, libs, txRequest, idx, stack, st, firstIteration, resetLimit);
      var reset := AfterResets(kp, libs, idx, stack, st, firstIteration, resetLimit).value;
      if !firstIteration {
        ResetLoopThreads(kp, libs, idx, st, stack, resetLimit);
      }
      ProcessExecutionThreads(kp, libs, txRequest, reset, stack[|stack| - 1], firstIteration);
      var next := ProcessExecution(kp, libs, txRequest, reset, stack[|stack| - 1], firstIteration).value;
      DriveThreads(kp, libs, txRequest, idx, Popped(stack), next, false, resetLimit);
    }
  }

  /** The main loop leaves the chain ending with the kernel whose output is the latest. */
  lemma {:induction false} DriveEndsWithOutput(kp: KernelProver, libs: ProverLibraries, txRequest: TxRequest,
                                               idx: TraceIndices, stack: seq<PrivateExecutionResult>,
                                               st: ProvingState, firstIteration: bool, resetLimit: nat)
    requires EndsWithOutput(st)
    requires Drive(kp, libs, txRequest, idx, stack, st, firstIteration, resetLimit).Ok?
    ensures var after := Drive(kp, libs, txRequest, idx, stack, st, firstIteration, resetLimit).value;
      EndsWithOutput(after) && (st.chain != [] || stack != [] ==> after.chain != [])
    decreases Remaining(stack)
  {
    if stack != [] {
      DriveStep(kp, libs, txRequest, idx, stack, st, firstIteration, resetLimit);
      var reset := AfterResets(kp, libs, idx, stack, st, firstIteration, resetLimit).value;
      if !firstIteration {
        ResetLoopEndsWithOutput(kp, libs, idx, st, stack, resetLimit);
      }
      ProcessExecutionEndsWithOutput(kp, libs, txRequest, reset, stack[|stack| - 1], firstIteration);
      var next := ProcessExecution(kp, libs, txRequest, reset, stack[|stack| - 1], firstIteration).value;
      DriveEndsWithOutput(kp, libs, txRequest, idx, Popped(stack), next, false, resetLimit);
    }
  }

  /** Every builder the main loop asks carries the run's counters and an output it simulated. */
  lemma {:induction false} DriveBuilders(kp: KernelProver, libs: ProverLibraries, txRequest: TxRequest,
                                         idx: TraceIndices, stack: seq<PrivateExecutionResult>,
                                         st: ProvingState, firstIteration: bool, resetLimit: nat)
    requires BuildersFrom(idx, st) && Threaded(st) && (firstIteration <==> st.log.outputs == [])
    requires Drive(kp, libs, txRequest, idx, stack, st, firstIteration, resetLimit).Ok?
    ensures BuildersFrom(idx, Drive(kp, libs, txRequest, idx, stack, st, firstIteration, resetLimit).value)
    decreases Remaining(stack)
  {
    if stack != [] {
      DriveStep(kp, libs, txRequest, idx, stack, st, firstIteration, resetLimit);
      var reset := AfterResets(kp, libs, idx, stack, st, firstIteration, resetLimit).value;
      if !firstIteration {
        ResetLoopThreads(kp, libs, idx, st, stack, resetLimit);
        ResetLoopBuilders(kp, libs, idx, st, stack, resetLimit);
      }
      ProcessExecutionThreads(kp, libs, txRequest, reset, stack[|stack| - 1], firstIteration);
      ProcessExecutionBuilders(kp, libs, txRequest, idx, reset, stack[|stack| - 1], firstIteration);
      var next := ProcessExecution(kp, libs, txRequest, reset, stack[|stack| - 1], firstIteration).value;
      DriveBuilders(kp, libs, txRequest, idx, Popped(stack), next, false, resetLimit);
    }
  }

  // ---------------------------------------------------------------------------------------------
  // A whole proving run
  // ---------------------------------------------------------------------------------------------

  /**
   * In a successful run every kernel output is handed on exactly once, in order, to the circuit
   * after it: the i-th previous-kernel input given to a reset, inner or tail circuit carries the
   * i-th output simulated, and the tail's input carries the last output.
   */
  lemma ProveThreadsOutputs(kp: KernelProver, libs: ProverLibraries, txRequest: TxRequest,
                            root: PrivateExecutionResult, resetLimit: nat)
    requires ProveSpec(kp, libs, txRequest, root, resetLimit).Ok?
    ensures var t := ProveSpec(kp, libs, txRequest, root, resetLimit).value;
      && t.log.outputs != []
      && t.lastKernelOutput == t.log.outputs[|t.log.outputs| - 1]
      && |t.log.consumed| == |t.log.outputs|
      && forall i | 0 <= i < |t.log.outputs| :: Receives(t.log.consumed[i], t.log.outputs[i])
  {
    var idx := CollectTraceIndices(libs.collectors, root);
    var driven := Driven(kp, libs, txRequest, root, resetLimit);
    DriveThreads(kp, libs, txRequest, idx, [root], INITIAL_STATE, true, resetLimit);
    ResetLoopThreads(kp, libs, idx, driven, [], resetLimit);
    var settled := Settled(kp, libs, txRequest, root, resetLimit);
    ProveSpecEnds(kp, libs, txRequest, root, resetLimit);
    var previousKernelData := PreviousKernelData(kp.oracle, settled.output).value;
    HandOn(settled.log.outputs, settled.log.consumed, settled.output, FromKernelData(previousKernelData));
  }

  /**
   * The chain of a successful run ends with the tail kernel, and just before it the init, inner
   * or reset kernel whose output the tail was built on.
   */
  lemma ProveChainEndsWithOutput(kp: KernelProver, libs: ProverLibraries, txRequest: TxRequest,
                                 root: PrivateExecutionResult, resetLimit: nat)
    requires ProveSpec(kp, libs, txRequest, root, resetLimit).Ok?
    ensures var t := ProveSpec(kp, libs, txRequest, root, resetLimit).value;
      && |t.chain| >= 2
      && t.chain[|t.chain| - 1].kind == Tail
      && var before := t.chain[|t.chain| - 2];
      && before.kind in {Init, Inner, Reset}
      && before == KernelEntry(before.kind, t.lastKernelOutput)
  {
    var idx := CollectTraceIndices(libs.collectors, root);
    var driven := Driven(kp, libs, txRequest, root, resetLimit);
    DriveEndsWithOutput(kp, libs, txRequest, idx, [root], INITIAL_STATE, true, resetLimit);
    ResetLoopEndsWithOutput(kp, libs, idx, driven, [], resetLimit);
    ProveSpecEnds(kp, libs, txRequest, root, resetLimit);
  }

  /**
   * Every reset builder a successful run asks (at least one, by the last reset loop) carries the
   * trace's note-hash-to-nullifier counter map, an output the run simulated, and a split counter
   * of 0 when there are no enqueued public calls and the teardown call is empty, or the final
   * min-revertible side-effect counter otherwise.
   */
  lemma ProveBuildersCarryCounters(kp: KernelProver, libs: ProverLibraries, txRequest: TxRequest,
                                   root: PrivateExecutionResult, resetLimit: nat)
    requires ProveSpec(kp, libs, txRequest, root, resetLimit).Ok?
    ensures var t := ProveSpec(kp, libs, txRequest, root, resetLimit).value;
      var c := libs.collectors;
      var publicCalls := |c.enqueuedPublicFunctionCalls(root)| > 0 || !c.publicTeardownFunctionCall(root).IsEmpty();
      && |t.log.builders| > 0
      && forall i | 0 <= i < |t.log.builders| ::
           && t.log.builders[i].noteHashNullifierCounterMap == c.noteHashNullifierCounterMap(root)
           && t.log.builders[i].previousKernel in t.log.outputs
           && (!publicCalls ==> t.log.builders[i].validationRequestsSplitCounter == 0)
           && (publicCalls ==>
                 t.log.builders[i].validationRequestsSplitCounter == c.finalMinRevertibleSideEffectCounter(root))
  {
    var idx := CollectTraceIndices(libs.collectors, root);
    var driven := Driven(kp, libs, txRequest, root, resetLimit);
    DriveThreads(kp, libs, txRequest, idx, [root], INITIAL_STATE, true, resetLimit);
    DriveBuilders(kp, libs, txRequest, idx, [root], INITIAL_STATE, true, resetLimit);
    ResetLoopBuilders(kp, libs, idx, driven, [], resetLimit);
    ProveSpecEnds(kp, libs, txRequest, root, resetLimit);
  }
}
