/**
 * The values the private kernel prover passes around, and the collaborators it calls.
 * Field elements, keys, witnesses and bytecode are opaque: the orchestration only moves
 * them from one call to the next and compares nothing but their position.
 */
module CircuitTypes {
  import opened Wrappers

  /** A field element; no field arithmetic is done by the orchestration. */
  type Fr = int
  type AztecAddress = Fr
  type FunctionSelector = Fr
  /** Gzipped bincode ACIR bytecode of one circuit. */
  type Buffer = seq<bv8>
  /** A witness assignment: witness index to value. */
  type WitnessMap = map<nat, Fr>

  /** `VerificationKeyAsFields`. */
  datatype VerificationKey = VerificationKey(key: seq<Fr>, hash: Fr)
  /** The public inputs a private kernel circuit outputs; their layout is not modelled. */
  type PrivateKernelCircuitPublicInputs(0)
  /** The public inputs of the tail circuit. */
  type PrivateKernelTailCircuitPublicInputs
  /** The authenticated transaction request. */
  type TxRequest
  /** The private inputs of a reset circuit, as built by the reset-inputs builder. */
  type PrivateKernelResetCircuitPrivateInputs
  /** The composed client IVC proof. */
  type ClientIvcProof
  /** A note hash, as a key of the hint maps. */
  type NoteHash = Fr

  /** `PrivateKernelCircuitPublicInputs.empty()`. */
  const EMPTY_PUBLIC_INPUTS: PrivateKernelCircuitPublicInputs
  /** `VerificationKeyAsFields.makeEmpty()`. */
  const EMPTY_VERIFICATION_KEY: VerificationKey
  /** `getVKTreeRoot()`: the root of the tree of protocol circuit verification keys. */
  const VK_TREE_ROOT: Fr
  /** Height of the verification-key tree (a circuits.js constant). */
  const VK_TREE_HEIGHT: nat
  /** Height of the protocol-contract tree (a circuits.js constant). */
  const PROTOCOL_CONTRACT_TREE_HEIGHT: nat

  /** Errors that abort `prove`; none is recovered from. */
  datatype ProvingError =
    | LookupFailure(what: string)
    | CircuitSimulationFailure(circuit: string)
    | CompositionFailure
    | SiblingPathLengthMismatch(expected: nat, actual: nat)
    | ResetLimitExceeded

  type Outcome<T> = Result<T, ProvingError>

  datatype FunctionData = FunctionData(selector: FunctionSelector, isPrivate: bool)

  /** The part of a call's public inputs the orchestration reads: who was called. */
  datatype PrivateCallStackItem = PrivateCallStackItem(contractAddress: AztecAddress, functionData: FunctionData)

  /** One private call in the execution trace, with the calls it made, left to right. */
  datatype PrivateExecutionResult = PrivateExecutionResult(
    acir: Buffer,
    partialWitness: WitnessMap,
    callStackItem: PrivateCallStackItem,
    nestedExecutions: seq<PrivateExecutionResult>)

  /** The calls of a tree, each before its nested calls, nested calls left to right. */
  function PreOrder(e: PrivateExecutionResult): (r: seq<PrivateExecutionResult>)
    ensures |r| >= 1 && r[0] == e
    decreases e
  {
    [e] + PreOrderForest(e.nestedExecutions)
  }

  /** The pre-orders of a sequence of trees, one after another. */
  function PreOrderForest(es: seq<PrivateExecutionResult>): seq<PrivateExecutionResult>
    decreases es
  {
    if es == [] then [] else PreOrder(es[0]) + PreOrderForest(es[1..])
  }

  /** A membership witness: leaf index and sibling path. */
  datatype MembershipWitness = MembershipWitness(leafIndex: nat, siblingPath: seq<Fr>)

  datatype ContractAddressPreimage = ContractAddressPreimage(
    contractClassId: Fr, publicKeysHash: Fr, saltedInitializationHash: Fr)

  datatype ContractClassIdPreimage = ContractClassIdPreimage(artifactHash: Fr, publicBytecodeCommitment: Fr)

  /** The `ProvingDataOracle`: every lookup may fail, which aborts proving. */
  datatype ProvingDataOracle = ProvingDataOracle(
    getDebugFunctionName: (AztecAddress, FunctionSelector) -> Outcome<string>,
    getFunctionMembershipWitness: (AztecAddress, FunctionSelector) -> Outcome<MembershipWitness>,
    getContractAddressPreimage: AztecAddress -> Outcome<ContractAddressPreimage>,
    getContractClassIdPreimage: Fr -> Outcome<ContractClassIdPreimage>,
    getVkMembershipWitness: VerificationKey -> Outcome<MembershipWitness>)

  /** `PrivateCallData`: everything a kernel circuit needs about one app call. */
  datatype PrivateCallData = PrivateCallData(
    callStackItem: PrivateCallStackItem,
    vk: VerificationKey,
    publicKeysHash: Fr,
    contractClassArtifactHash: Fr,
    contractClassPublicBytecodeCommitment: Fr,
    saltedInitializationHash: Fr,
    functionLeafMembershipWitness: MembershipWitness,
    protocolContractSiblingPath: seq<Fr>,
    acirHash: Fr)

  /** `PrivateKernelData`: the previous kernel's output with its key's place in the key tree. */
  datatype PrivateKernelData = PrivateKernelData(
    publicInputs: PrivateKernelCircuitPublicInputs,
    vk: VerificationKey,
    vkIndex: nat,
    vkPath: seq<Fr>)

  datatype PrivateKernelInitCircuitPrivateInputs = PrivateKernelInitCircuitPrivateInputs(
    txRequest: TxRequest, vkTreeRoot: Fr, protocolContractTreeRoot: Fr, privateCall: PrivateCallData)

  datatype PrivateKernelInnerCircuitPrivateInputs = PrivateKernelInnerCircuitPrivateInputs(
    previousKernel: PrivateKernelData, privateCall: PrivateCallData)

  datatype PrivateKernelTailCircuitPrivateInputs = PrivateKernelTailCircuitPrivateInputs(
    previousKernel: PrivateKernelData)

  /** `PrivateKernelSimulateOutput` of the init, inner and reset circuits. */
  datatype PrivateKernelSimulateOutput = PrivateKernelSimulateOutput(
    publicInputs: PrivateKernelCircuitPublicInputs,
    verificationKey: VerificationKey,
    outputWitness: WitnessMap,
    bytecode: Buffer)

  /** `PrivateKernelSimulateOutput` of the tail circuit, which also carries the composed proof. */
  datatype PrivateKernelTailOutput = PrivateKernelTailOutput(
    publicInputs: PrivateKernelTailCircuitPublicInputs,
    verificationKey: VerificationKey,
    outputWitness: WitnessMap,
    bytecode: Buffer,
    clientIvcProof: Option<ClientIvcProof>)

  /** `NULL_PROVE_OUTPUT`: the output in place before any circuit has run. */
  const NULL_PROVE_OUTPUT: PrivateKernelSimulateOutput :=
    PrivateKernelSimulateOutput(EMPTY_PUBLIC_INPUTS, EMPTY_VERIFICATION_KEY, map[], [])

  datatype AppVerificationKey = AppVerificationKey(verificationKey: VerificationKey)

  /** The `PrivateKernelProver` backend: circuit simulation and proof composition. */
  datatype PrivateKernelProver = PrivateKernelProver(
    computeAppCircuitVerificationKey: (Buffer, string) -> Outcome<AppVerificationKey>,
    simulateProofInit: PrivateKernelInitCircuitPrivateInputs -> Outcome<PrivateKernelSimulateOutput>,
    simulateProofInner: PrivateKernelInnerCircuitPrivateInputs -> Outcome<PrivateKernelSimulateOutput>,
    simulateProofReset: PrivateKernelResetCircuitPrivateInputs -> Outcome<PrivateKernelSimulateOutput>,
    simulateProofTail: PrivateKernelTailCircuitPrivateInputs -> Outcome<PrivateKernelTailOutput>,
    createClientIvcProof: (seq<Buffer>, seq<WitnessMap>) -> Outcome<ClientIvcProof>)

  /** What a `PrivateKernelResetPrivateInputsBuilder` is constructed from. */
  datatype ResetBuilderState = ResetBuilderState(
    previousKernel: PrivateKernelSimulateOutput,
    executionStack: seq<PrivateExecutionResult>,
    noteHashNullifierCounterMap: map<NoteHash, nat>,
    validationRequestsSplitCounter: nat)

  /** The reset-inputs builder's two operations, whose decision logic is not part of this model. */
  datatype ResetBuilderOps = ResetBuilderOps(
    needsReset: ResetBuilderState -> bool,
    build: (ResetBuilderState, ProvingDataOracle, map<NoteHash, nat>) -> Outcome<PrivateKernelResetCircuitPrivateInputs>)

  /** An enqueued public call request; empty when every field is zero. */
  datatype PublicCallRequest = PublicCallRequest(fields: seq<Fr>) {
    predicate IsEmpty() {
      forall i | 0 <= i < |fields| :: fields[i] == 0
    }
  }

  /** The `collect*` helpers and `getFinalMinRevertibleSideEffectCounter` over a whole trace. */
  datatype TraceCollectors = TraceCollectors(
    noteHashLeafIndexMap: PrivateExecutionResult -> map<NoteHash, nat>,
    noteHashNullifierCounterMap: PrivateExecutionResult -> map<NoteHash, nat>,
    enqueuedPublicFunctionCalls: PrivateExecutionResult -> seq<PublicCallRequest>,
    publicTeardownFunctionCall: PrivateExecutionResult -> PublicCallRequest,
    finalMinRevertibleSideEffectCounter: PrivateExecutionResult -> nat)

  /** `isProtocolContract`, `getProtocolContractSiblingPath` and `protocolContractTreeRoot`. */
  datatype ProtocolContracts = ProtocolContracts(
    isProtocolContract: AztecAddress -> bool,
    siblingPath: AztecAddress -> seq<Fr>,
    treeRoot: Fr)
}
