/**
 * The private kernel prover: it walks a transaction's tree of private calls with an explicit
 * stack, runs the init kernel on the first call and the inner kernel on every later one,
 * interposes reset kernels whenever the reset-inputs builder asks for them, finishes with the
 * tail kernel, and hands every circuit's bytecode and witness, in execution order, to the
 * client IVC composer.
 *
 * `ProveSpec` and the functions it uses describe one proving run as values; the method
 * `Prove` is the loop itself, proved to compute what `ProveSpec` describes.
 */
module KernelProver {
  import opened Wrappers
  import opened CircuitTypes

  /** The `KernelProver` class: an oracle and a proving backend, never reassigned. */
  datatype KernelProver = KernelProver(oracle: ProvingDataOracle, proofCreator: PrivateKernelProver)

  /** The library code `prove` calls besides its oracle and backend. */
  datatype ProverLibraries = ProverLibraries(
    reset: ResetBuilderOps, collectors: TraceCollectors, protocolContracts: ProtocolContracts)

  // ---------------------------------------------------------------------------------------------
  // The execution stack
  // ---------------------------------------------------------------------------------------------

  /** `[...s].reverse()`. */
  function Reversed<T>(s: seq<T>): (r: seq<T>)
    ensures |r| == |s|
    ensures forall i | 0 <= i < |s| :: r[i] == s[|s| - 1 - i]
  {
    if s == [] then [] else Reversed(s[1..]) + [s[0]]
  }

  /** The pre-order of two forests one after the other is the concatenation of their pre-orders. */
  lemma {:induction false} PreOrderForestAppend(a: seq<PrivateExecutionResult>, b: seq<PrivateExecutionResult>)
    ensures PreOrderForest(a + b) == PreOrderForest(a) + PreOrderForest(b)
  {
    if a != [] {
      assert (a + b)[0] == a[0];
      assert (a + b)[1..] == a[1..] + b;
      PreOrderForestAppend(a[1..], b);
      calc {
        PreOrderForest(a + b);
        PreOrder(a[0]) + PreOrderForest(a[1..] + b);
        PreOrder(a[0]) + (PreOrderForest(a[1..]) + PreOrderForest(b));
        (PreOrder(a[0]) + PreOrderForest(a[1..])) + PreOrderForest(b);
      }
    } else {
      assert a + b == b;
    }
  }

  /**
   * The stack is read from its end (JavaScript's `pop`), so what is left to visit is the
   * pre-order of the reversed stack. Popping the top and pushing its nested executions in
   * reverse leaves exactly the rest of that walk.
   */
  lemma PopPush(stack: seq<PrivateExecutionResult>)
    requires stack != []
    ensures var top := stack[|stack| - 1];
      PreOrderForest(Reversed(stack))
        == [top] + PreOrderForest(Reversed(stack[..|stack| - 1] + Reversed(top.nestedExecutions)))
  {
    var n := |stack| - 1;
    var top, prefix := stack[n], stack[..n];
    var kids := top.nestedExecutions;
    assert stack == prefix + [top];
    ReversedAppend(prefix, [top]);
    assert Reversed([top]) == [top];
    ReversedAppend(prefix, Reversed(kids));
    ReversedTwice(kids);
    PreOrderForestAppend(kids, Reversed(prefix));
    assert ([top] + Reversed(prefix))[1..] == Reversed(prefix);
  }

  lemma ReversedAppend<T>(a: seq<T>, b: seq<T>)
    ensures Reversed(a + b) == Reversed(b) + Reversed(a)
  {
    var r, s := Reversed(a + b), Reversed(b) + Reversed(a);
    forall i | 0 <= i < |r|
      ensures r[i] == s[i]
    {
      if i < |b| {
        assert s[i] == Reversed(b)[i];
      } else {
        assert s[i] == Reversed(a)[i - |b|];
      }
    }
  }

  lemma ReversedTwice<T>(s: seq<T>)
    ensures Reversed(Reversed(s)) == s
  {
  }

  /** How many executions are still to be visited from this stack. */
  function Remaining(stack: seq<PrivateExecutionResult>): nat {
    |PreOrderForest(Reversed(stack))|
  }

  /** The stack after one step of the walk: top popped, its nested executions pushed in reverse. */
  function Popped(stack: seq<PrivateExecutionResult>): (r: seq<PrivateExecutionResult>)
    requires stack != []
    ensures Remaining(r) == Remaining(stack) - 1
  {
    PopPush(stack);
    stack[..|stack| - 1] + Reversed(stack[|stack| - 1].nestedExecutions)
  }

  // ---------------------------------------------------------------------------------------------
  // The proof chain
  // ---------------------------------------------------------------------------------------------

  /** Which circuit an entry of the chain comes from. */
  datatype CircuitKind = App | Init | Inner | Reset | Tail

  /** One circuit execution: the bytecode pushed on `acirs` and the witness pushed on `witnessStack`. */
  datatype ChainEntry = ChainEntry(kind: CircuitKind, acir: Buffer, witnessMap: WitnessMap)

  /** `acirs`: the bytecodes of the chain, in order. */
  function Acirs(chain: seq<ChainEntry>): (r: seq<Buffer>)
    ensures |r| == |chain| && forall i | 0 <= i < |chain| :: r[i] == chain[i].acir
  {
    seq(|chain|, i requires 0 <= i < |chain| => chain[i].acir)
  }

  /** `witnessStack`: the witnesses of the chain, in order. */
  function Witnesses(chain: seq<ChainEntry>): (r: seq<WitnessMap>)
    ensures |r| == |chain| && forall i | 0 <= i < |chain| :: r[i] == chain[i].witnessMap
  {
    seq(|chain|, i requires 0 <= i < |chain| => chain[i].witnessMap)
  }

  function AppEntry(e: PrivateExecutionResult): ChainEntry {
    ChainEntry(App, e.acir, e.partialWitness)
  }

  function KernelEntry(kind: CircuitKind, output: PrivateKernelSimulateOutput): ChainEntry {
    ChainEntry(kind, output.bytecode, output.outputWitness)
  }

  /**
   * What a circuit after the first kernel is given about the previous kernel: a reset, the
   * builder holding that kernel's output; an inner or the tail kernel, its `PrivateKernelData`.
   */
  datatype KernelInput = FromBuilder(builder: ResetBuilderState) | FromKernelData(data: PrivateKernelData)

  /**
   * A record the model keeps of a run, which `prove` itself does not store: every reset builder
   * asked `needsReset`, every kernel output simulated (init, inner and reset, in order), and the
   * previous-kernel input each reset, inner and tail circuit was given.
   */
  datatype RunLog = RunLog(
    builders: seq<ResetBuilderState>,
    outputs: seq<PrivateKernelSimulateOutput>,
    consumed: seq<KernelInput>)

  /** What a proving run has built so far: the latest kernel output, the chain, the calls visited. */
  datatype ProvingState = ProvingState(
    output: PrivateKernelSimulateOutput,
    chain: seq<ChainEntry>,
    visited: seq<PrivateExecutionResult>,
    log: RunLog)

  const INITIAL_STATE: ProvingState := ProvingState(NULL_PROVE_OUTPUT, [], [], RunLog([], [], []))

  // ---------------------------------------------------------------------------------------------
  // Values computed once per run
  // ---------------------------------------------------------------------------------------------

  /** The maps and counters `prove` derives from the trace before any circuit runs. */
  datatype TraceIndices = TraceIndices(
    noteHashLeafIndexMap: map<NoteHash, nat>,
    noteHashNullifierCounterMap: map<NoteHash, nat>,
    hasPublicCalls: bool,
    validationRequestsSplitCounter: nat)

  function CollectTraceIndices(collectors: TraceCollectors, executionResult: PrivateExecutionResult): TraceIndices {
    var hasPublicCalls := |collectors.enqueuedPublicFunctionCalls(executionResult)| > 0
                          || !collectors.publicTeardownFunctionCall(executionResult).IsEmpty();
    TraceIndices(
      collectors.noteHashLeafIndexMap(executionResult),
      collectors.noteHashNullifierCounterMap(executionResult),
      hasPublicCalls,
      if hasPublicCalls then collectors.finalMinRevertibleSideEffectCounter(executionResult) else 0)
  }

  // ---------------------------------------------------------------------------------------------
  // Circuit inputs
  // ---------------------------------------------------------------------------------------------

  /** `makeTuple(n, Fr.zero)`. */
  function ZeroPath(n: nat): (r: seq<Fr>)
    ensures |r| == n && forall i | 0 <= i < n :: r[i] == 0
  {
    seq(n, _ => 0)
  }

  /**
   * `createPrivateCallData`: three oracle lookups, a zero placeholder for the ACIR hash, and
   * the protocol-contract sibling path (all zeros for an ordinary contract).
   */
  function CreatePrivateCallData(
    oracle: ProvingDataOracle, protocolContracts: ProtocolContracts,
    execution: PrivateExecutionResult, vk: VerificationKey): (r: Outcome<PrivateCallData>)
    ensures var item := execution.callStackItem;
      var address, selector := item.contractAddress, item.functionData.selector;
      var leafWitness := oracle.getFunctionMembershipWitness(address, selector);
      var addressPreimage := oracle.getContractAddressPreimage(address);
      && (r.Ok? <==> leafWitness.Ok? && addressPreimage.Ok?
                     && oracle.getContractClassIdPreimage(addressPreimage.value.contractClassId).Ok?)
      && (leafWitness.Err? ==> r == Err(leafWitness.error))
      && (leafWitness.Ok? && addressPreimage.Err? ==> r == Err(addressPreimage.error))
      && (leafWitness.Ok? && addressPreimage.Ok?
          && oracle.getContractClassIdPreimage(addressPreimage.value.contractClassId).Err? ==>
            r == Err(oracle.getContractClassIdPreimage(addressPreimage.value.contractClassId).error))
      && (r.Ok? ==>
            var classPreimage := oracle.getContractClassIdPreimage(addressPreimage.value.contractClassId).value;
            && r.value.callStackItem == item
            && r.value.vk == vk
            && r.value.acirHash == 0
            && r.value.functionLeafMembershipWitness == leafWitness.value
            && r.value.publicKeysHash == addressPreimage.value.publicKeysHash
            && r.value.saltedInitializationHash == addressPreimage.value.saltedInitializationHash
            && r.value.contractClassArtifactHash == classPreimage.artifactHash
            && r.value.contractClassPublicBytecodeCommitment == classPreimage.publicBytecodeCommitment
            && (protocolContracts.isProtocolContract(address) ==>
                  r.value.protocolContractSiblingPath == protocolContracts.siblingPath(address))
            && (!protocolContracts.isProtocolContract(address) ==>
                  && |r.value.protocolContractSiblingPath| == PROTOCOL_CONTRACT_TREE_HEIGHT
                  && forall i | 0 <= i < PROTOCOL_CONTRACT_TREE_HEIGHT :: r.value.protocolContractSiblingPath[i] == 0))
  {
    var item := execution.callStackItem;
    var address := item.contractAddress;
    var functionLeafMembershipWitness :- oracle.getFunctionMembershipWitness(address, item.functionData.selector);
    var addressPreimage :- oracle.getContractAddressPreimage(address);
    var classPreimage :- oracle.getContractClassIdPreimage(addressPreimage.contractClassId);
    var acirHash := 0;
    var protocolContractSiblingPath :=
      if protocolContracts.isProtocolContract(address) then protocolContracts.siblingPath(address)
      else ZeroPath(PROTOCOL_CONTRACT_TREE_HEIGHT);
    Ok(PrivateCallData(
      item, vk, addressPreimage.publicKeysHash, classPreimage.artifactHash,
      classPreimage.publicBytecodeCommitment, addressPreimage.saltedInitializationHash,
      functionLeafMembershipWitness, protocolContractSiblingPath, acirHash))
  }

  /**
   * The `PrivateKernelData` for the circuit that follows `output`: its key's membership witness,
   * whose sibling path must have `VK_TREE_HEIGHT` entries (`assertLength`).
   */
  function PreviousKernelData(oracle: ProvingDataOracle, output: PrivateKernelSimulateOutput): (r: Outcome<PrivateKernelData>)
    ensures var w := oracle.getVkMembershipWitness(output.verificationKey);
      && (r.Ok? <==> w.Ok? && |w.value.siblingPath| == VK_TREE_HEIGHT)
      && (w.Err? ==> r == Err(w.error))
      && (r.Ok? ==> r.value == PrivateKernelData(output.publicInputs, output.verificationKey,
                                                 w.value.leafIndex, w.value.siblingPath))
  {
    var w :- oracle.getVkMembershipWitness(output.verificationKey);
    if |w.siblingPath| != VK_TREE_HEIGHT then Err(SiblingPathLengthMismatch(VK_TREE_HEIGHT, |w.siblingPath|))
    else Ok(PrivateKernelData(output.publicInputs, output.verificationKey, w.leafIndex, w.siblingPath))
  }

  // ---------------------------------------------------------------------------------------------
  // One proving run, as values
  // ---------------------------------------------------------------------------------------------

  /** A reset-inputs builder freshly constructed from the latest output. */
  function Builder(idx: TraceIndices, output: PrivateKernelSimulateOutput, stack: seq<PrivateExecutionResult>): ResetBuilderState {
    ResetBuilderState(output, stack, idx.noteHashNullifierCounterMap, idx.validationRequestsSplitCounter)
  }

  /**
   * `while (resetBuilder.needsReset()) { … }`: build, simulate, record, and rebuild the builder
   * from the new output. At most `fuel` resets are run; needing more is an error.
   */
  function ResetLoop(kp: KernelProver, libs: ProverLibraries, idx: TraceIndices,
                     st: ProvingState, stack: seq<PrivateExecutionResult>, fuel: nat): Outcome<ProvingState>
    decreases fuel
  {
    var builder := Builder(idx, st.output, stack);
    var queried := st.log.(builders := st.log.builders + [builder]);
    if !libs.reset.needsReset(builder) then Ok(st.(log := queried))
    else if fuel == 0 then Err(ResetLimitExceeded)
    else
      var privateInputs :- libs.reset.build(builder, kp.oracle, idx.noteHashLeafIndexMap);
      var output :- kp.proofCreator.simulateProofReset(privateInputs);
      var log := queried.(outputs := queried.outputs + [output], consumed := queried.consumed + [FromBuilder(builder)]);
      ResetLoop(kp, libs, idx, ProvingState(output, st.chain + [KernelEntry(Reset, output)], st.visited, log), stack, fuel - 1)
  }

  /**
   * The body of the main loop after the resets: the app circuit of `current`, then the init
   * kernel on the first iteration or the inner kernel on any other.
   */
  function ProcessExecution(kp: KernelProver, libs: ProverLibraries, txRequest: TxRequest,
                            st: ProvingState, current: PrivateExecutionResult, firstIteration: bool): Outcome<ProvingState>
  {
    var item := current.callStackItem;
    var functionName :- kp.oracle.getDebugFunctionName(item.contractAddress, item.functionData.selector);
    var appVk :- kp.proofCreator.computeAppCircuitVerificationKey(current.acir, functionName);
    var withApp := st.chain + [AppEntry(current)];
    var privateCallData :- CreatePrivateCallData(kp.oracle, libs.protocolContracts, current, appVk.verificationKey);
    if firstIteration then
      var proofInput := PrivateKernelInitCircuitPrivateInputs(txRequest, VK_TREE_ROOT, libs.protocolContracts.treeRoot, privateCallData);
      var output :- kp.proofCreator.simulateProofInit(proofInput);
      var log := st.log.(outputs := st.log.outputs + [output]);
      Ok(ProvingState(output, withApp + [KernelEntry(Init, output)], st.visited + [current], log))
    else
      var previousKernelData :- PreviousKernelData(kp.oracle, st.output);
      var proofInput := PrivateKernelInnerCircuitPrivateInputs(previousKernelData, privateCallData);
      var output :- kp.proofCreator.simulateProofInner(proofInput);
      var log := st.log.(outputs := st.log.outputs + [output], consumed := st.log.consumed + [FromKernelData(previousKernelData)]);
      Ok(ProvingState(output, withApp + [KernelEntry(Inner, output)], st.visited + [current], log))
  }

  /** `while (executionStack.length) { … }`, from a given stack and state. */
  function Drive(kp: KernelProver, libs: ProverLibraries, txRequest: TxRequest, idx: TraceIndices,
                 stack: seq<PrivateExecutionResult>, st: ProvingState, firstIteration: bool, resetLimit: nat): Outcome<ProvingState>
    decreases Remaining(stack)
  {
    if stack == [] then Ok(st)
    else
      var reset :- if firstIteration then Ok(st) else ResetLoop(kp, libs, idx, st, stack, resetLimit);
      var next :- ProcessExecution(kp, libs, txRequest, reset, stack[|stack| - 1], firstIteration);
      Drive(kp, libs, txRequest, idx, Popped(stack), next, false, resetLimit)
  }

  /**
   * What a successful run produced: the returned output, the chain composed, the calls visited,
   * and the run's log (whose `consumed` ends with the previous-kernel data the tail was given).
   */
  datatype ProveTrace = ProveTrace(
    result: PrivateKernelTailOutput,
    lastKernelOutput: PrivateKernelSimulateOutput,
    chain: seq<ChainEntry>,
    visited: seq<PrivateExecutionResult>,
    log: RunLog)

  /** The whole of `prove`: main loop, final resets, tail kernel, and client IVC composition. */
  function ProveSpec(kp: KernelProver, libs: ProverLibraries, txRequest: TxRequest,
                     executionResult: PrivateExecutionResult, resetLimit: nat): Outcome<ProveTrace>
  {
    var idx := CollectTraceIndices(libs.collectors, executionResult);
    var driven :- Drive(kp, libs, txRequest, idx, [executionResult], INITIAL_STATE, true, resetLimit);
    var st :- ResetLoop(kp, libs, idx, driven, [], resetLimit);
    var previousKernelData :- PreviousKernelData(kp.oracle, st.output);
    var tailOutput :- kp.proofCreator.simulateProofTail(PrivateKernelTailCircuitPrivateInputs(previousKernelData));
    var chain := st.chain + [ChainEntry(Tail, tailOutput.bytecode, tailOutput.outputWitness)];
    var ivcProof :- kp.proofCreator.createClientIvcProof(Acirs(chain), Witnesses(chain));
    var log := st.log.(consumed := st.log.consumed + [FromKernelData(previousKernelData)]);
    Ok(ProveTrace(tailOutput.(clientIvcProof := Some(ivcProof)), st.output, chain, st.visited, log))
  }

  /** The part of a run the caller sees: the tail output, or the error that aborted it. */
  function Returned(t: Outcome<ProveTrace>): Outcome<PrivateKernelTailOutput> {
    if t.Ok? then Ok(t.value.result) else Err(t.error)
  }

  lemma ChainSnoc(chain: seq<ChainEntry>, e: ChainEntry)
    ensures Acirs(chain + [e]) == Acirs(chain) + [e.acir]
    ensures Witnesses(chain + [e]) == Witnesses(chain) + [e.witnessMap]
  {
  }

  // ---------------------------------------------------------------------------------------------
  // The loop
  // ---------------------------------------------------------------------------------------------

  /**
   * One `while (resetBuilder.needsReset()) { … }` of `prove` (it has two, the same apart from the
   * stack the builder sees): every reset pushes its bytecode and witness, and the builder is
   * rebuilt from the new output before it is asked again.
   */
  method RunResets(kp: KernelProver, libs: ProverLibraries, idx: TraceIndices, executionStack: seq<PrivateExecutionResult>,
                   resetLimit: nat, output0: PrivateKernelSimulateOutput, acirs0: seq<Buffer>, witnessStack0: seq<WitnessMap>,
                   ghost chain0: seq<ChainEntry>, ghost visited: seq<PrivateExecutionResult>, ghost log0: RunLog)
    returns (r: Outcome<PrivateKernelSimulateOutput>, acirs: seq<Buffer>, witnessStack: seq<WitnessMap>,
             ghost chain: seq<ChainEntry>, ghost log: RunLog)
    requires acirs0 == Acirs(chain0) && witnessStack0 == Witnesses(chain0)
    ensures acirs == Acirs(chain) && witnessStack == Witnesses(chain)
    ensures var expected := ResetLoop(kp, libs, idx, ProvingState(output0, chain0, visited, log0), executionStack, resetLimit);
      if r.Ok? then expected == Ok(ProvingState(r.value, chain, visited, log)) else expected == Err(r.error)
    ensures r.Ok? ==> !libs.reset.needsReset(Builder(idx, r.value, executionStack))
    ensures |acirs| == |witnessStack| && |acirs0| <= |acirs| <= |acirs0| + resetLimit
    ensures acirs[..|acirs0|] == acirs0 && witnessStack[..|witnessStack0|] == witnessStack0
  {
    var output := output0;
    acirs, witnessStack, chain, log := acirs0, witnessStack0, chain0, log0;
    var resetBuilder := ResetBuilderState(output, executionStack, idx.noteHashNullifierCounterMap,
                                          idx.validationRequestsSplitCounter);
    var fuel: nat := resetLimit;
    while libs.reset.needsReset(resetBuilder)
      invariant resetBuilder == Builder(idx, output, executionStack)
      invariant acirs == Acirs(chain) && witnessStack == Witnesses(chain)
      invariant ResetLoop(kp, libs, idx, ProvingState(output, chain, visited, log), executionStack, fuel)
             == ResetLoop(kp, libs, idx, ProvingState(output0, chain0, visited, log0), executionStack, resetLimit)
      invariant fuel <= resetLimit && |acirs0| <= |acirs| <= |acirs0| + (resetLimit - fuel)
      invariant acirs[..|acirs0|] == acirs0 && witnessStack[..|witnessStack0|] == witnessStack0
      decreases fuel
    {
      log := log.(builders := log.builders + [resetBuilder]);
      if fuel == 0 {
        return Err(ResetLimitExceeded), acirs, witnessStack, chain, log;
      }
      fuel := fuel - 1;
      var privateInputs := libs.reset.build(resetBuilder, kp.oracle, idx.noteHashLeafIndexMap);
      if privateInputs.Err? {
        return Err(privateInputs.error), acirs, witnessStack, chain, log;
      }
      var simulated := kp.proofCreator.simulateProofReset(privateInputs.value);
      if simulated.Err? {
        return Err(simulated.error), acirs, witnessStack, chain, log;
      }
      output := simulated.value;
      ChainSnoc(chain, KernelEntry(Reset, output));
      acirs := acirs + [output.bytecode];
      witnessStack := witnessStack + [output.outputWitness];
      chain := chain + [KernelEntry(Reset, output)];
      log := log.(outputs := log.outputs + [output], consumed := log.consumed + [FromBuilder(resetBuilder)]);
      resetBuilder := ResetBuilderState(output, executionStack, idx.noteHashNullifierCounterMap,
                                        idx.validationRequestsSplitCounter);
    }
    log := log.(builders := log.builders + [resetBuilder]);
    r := Ok(output);
  }

  /**
   * `KernelProver.prove`: the call tree is walked with an explicit stack, and every circuit run
   * pushes its bytecode on `acirs` and its witness on `witnessStack`; the result is the tail
   * output carrying the client IVC proof of both arrays, or the first error met.
   */
  method Prove(kp: KernelProver, libs: ProverLibraries, txRequest: TxRequest,
               executionResult: PrivateExecutionResult, resetLimit: nat)
    returns (r: Outcome<PrivateKernelTailOutput>)
    ensures r == Returned(ProveSpec(kp, libs, txRequest, executionResult, resetLimit))
  {
    var executionStack := [executionResult];
    var firstIteration := true;
    var output := NULL_PROVE_OUTPUT;

    var noteHashLeafIndexMap := libs.collectors.noteHashLeafIndexMap(executionResult);
    var noteHashNullifierCounterMap := libs.collectors.noteHashNullifierCounterMap(executionResult);
    var enqueuedPublicFunctions := libs.collectors.enqueuedPublicFunctionCalls(executionResult);
    var hasPublicCalls := |enqueuedPublicFunctions| > 0
                          || !libs.collectors.publicTeardownFunctionCall(executionResult).IsEmpty();
    var validationRequestsSplitCounter :=
      if hasPublicCalls then libs.collectors.finalMinRevertibleSideEffectCounter(executionResult) else 0;
    var idx := TraceIndices(noteHashLeafIndexMap, noteHashNullifierCounterMap, hasPublicCalls,
                            validationRequestsSplitCounter);
    assert idx == CollectTraceIndices(libs.collectors, executionResult);
    var acirs: seq<Buffer> := [];
    var witnessStack: seq<WitnessMap> := [];
    ghost var chain: seq<ChainEntry> := [];
    ghost var visited: seq<PrivateExecutionResult> := [];
    ghost var log := RunLog([], [], []);
    ghost var whole := Drive(kp, libs, txRequest, idx, executionStack, INITIAL_STATE, true, resetLimit);

    while |executionStack| > 0
      invariant acirs == Acirs(chain) && witnessStack == Witnesses(chain)
      invariant Drive(kp, libs, txRequest, idx, executionStack, ProvingState(output, chain, visited, log),
                      firstIteration, resetLimit) == whole
      decreases Remaining(executionStack)
    {
      if !firstIteration {
        var reset;
        reset, acirs, witnessStack, chain, log :=
          RunResets(kp, libs, idx, executionStack, resetLimit, output, acirs, witnessStack, chain, visited, log);
        if reset.Err? {
          r := Err(reset.error);
          return;
        }
        output := reset.value;
      }
      ghost var afterReset := ProvingState(output, chain, visited, log);
      ghost var stackBefore := executionStack;

      var currentExecution := executionStack[|executionStack| - 1];
      executionStack := executionStack[..|executionStack| - 1] + Reversed(currentExecution.nestedExecutions);
      assert executionStack == Popped(stackBefore);

      var item := currentExecution.callStackItem;
      var functionName := kp.oracle.getDebugFunctionName(item.contractAddress, item.functionData.selector);
      if functionName.Err? {
        r := Err(functionName.error);
        return;
      }
      var appVk := kp.proofCreator.computeAppCircuitVerificationKey(currentExecution.acir, functionName.value);
      if appVk.Err? {
        r := Err(appVk.error);
        return;
      }
      ChainSnoc(chain, AppEntry(currentExecution));
      acirs := acirs + [currentExecution.acir];
      witnessStack := witnessStack + [currentExecution.partialWitness];
      chain := chain + [AppEntry(currentExecution)];

      var privateCallData := CreatePrivateCallData(kp.oracle, libs.protocolContracts, currentExecution,
                                                   appVk.value.verificationKey);
      if privateCallData.Err? {
        r := Err(privateCallData.error);
        return;
      }
      if firstIteration {
        var proofInput := PrivateKernelInitCircuitPrivateInputs(
          txRequest, VK_TREE_ROOT, libs.protocolContracts.treeRoot, privateCallData.value);
        var simulated := kp.proofCreator.simulateProofInit(proofInput);
        if simulated.Err? {
          r := Err(simulated.error);
          return;
        }
        output := simulated.value;
        ChainSnoc(chain, KernelEntry(Init, output));
        acirs := acirs + [output.bytecode];
        witnessStack := witnessStack + [output.outputWitness];
        chain := chain + [KernelEntry(Init, output)];
        log := log.(outputs := log.outputs + [output]);
      } else {
        var previousKernelData := PreviousKernelData(kp.oracle, output);
        if previousKernelData.Err? {
          r := Err(previousKernelData.error);
          return;
        }
        var proofInput := PrivateKernelInnerCircuitPrivateInputs(previousKernelData.value, privateCallData.value);
        var simulated := kp.proofCreator.simulateProofInner(proofInput);
        if simulated.Err? {
          r := Err(simulated.error);
          return;
        }
        output := simulated.value;
        ChainSnoc(chain, KernelEntry(Inner, output));
        acirs := acirs + [output.bytecode];
        witnessStack := witnessStack + [output.outputWitness];
        chain := chain + [KernelEntry(Inner, output)];
        log := log.(outputs := log.outputs + [output], consumed := log.consumed + [FromKernelData(previousKernelData.value)]);
      }
      visited := visited + [currentExecution];
      assert ProcessExecution(kp, libs, txRequest, afterReset, currentExecution, firstIteration)
          == Ok(ProvingState(output, chain, visited, log));
      firstIteration := false;
    }

    ghost var driven := ProvingState(output, chain, visited, log);
    assert whole == Ok(driven);
    var reset;
    reset, acirs, witnessStack, chain, log :=
      RunResets(kp, libs, idx, [], resetLimit, output, acirs, witnessStack, chain, visited, log);
    if reset.Err? {
      r := Err(reset.error);
      return;
    }
    output := reset.value;

    var previousKernelData := PreviousKernelData(kp.oracle, output);
    if previousKernelData.Err? {
      r := Err(previousKernelData.error);
      return;
    }
    var tailOutput := kp.proofCreator.simulateProofTail(PrivateKernelTailCircuitPrivateInputs(previousKernelData.value));
    if tailOutput.Err? {
      r := Err(tailOutput.error);
      return;
    }
    var tailEntry := ChainEntry(Tail, tailOutput.value.bytecode, tailOutput.value.outputWitness);
    ChainSnoc(chain, tailEntry);
    acirs := acirs + [tailOutput.value.bytecode];
    witnessStack := witnessStack + [tailOutput.value.outputWitness];
    chain := chain + [tailEntry];

    var ivcProof := kp.proofCreator.createClientIvcProof(acirs, witnessStack);
    if ivcProof.Err? {
      r := Err(ivcProof.error);
      return;
    }
    r := Ok(tailOutput.value.(clientIvcProof := Some(ivcProof.value)));
  }
}
