// The messages and records of the coordinator, with the fields its handlers read or write.
module Types {

  newtype byte = x: int | 0 <= x < 256
  type Bytes = seq<byte>

  newtype u32 = x: int | 0 <= x < 0x1_0000_0000
  newtype u64 = x: int | 0 <= x < 0x1_0000_0000_0000_0000
  // The server is a 64-bit program, so `usize` has 64 bits.
  newtype usize = x: int | 0 <= x < 0x1_0000_0000_0000_0000

  // An Ethereum address.
  type Address = a: Bytes | |a| == 20 witness seq(20, _ => 0)

  datatype Option<+T> = None | Some(value: T)

  // Wire values of the proto enums. The records keep them as raw integers.
  const ASSIGNED: int := 2
  const FULFILLED: int := 3
  const UNFULFILLABLE: int := 4
  const UNEXECUTED: int := 1
  const EXECUTED: int := 2
  const BINARY: int := 1
  const JSON: int := 2

  datatype RequestProofBody = RequestProofBody(
    nonce: nat,
    vkHash: Bytes,
    version: string,
    mode: int,
    strategy: int,
    stdinUri: string,
    deadline: u64,
    cycleLimit: nat,
    gasLimit: nat,
    minAuctionPeriod: nat,
    whitelist: seq<Bytes>,
    domain: Bytes,
    auctioneer: Bytes,
    executor: Bytes,
    verifier: Bytes,
    publicValuesHash: Option<Bytes>,
    baseFee: string,
    maxPricePerPgu: string,
    variant: int,
    treasury: Bytes)

  datatype FulfillProofBody = FulfillProofBody(
    nonce: nat,
    requestId: Bytes,
    proof: Bytes,
    domain: Bytes,
    variant: int)

  datatype FailFulfillmentBody = FailFulfillmentBody(
    nonce: nat,
    requestId: Bytes,
    error: Option<int>)

  datatype CreateProgramBody = CreateProgramBody(
    nonce: nat,
    vkHash: Bytes,
    vk: Bytes,
    programUri: string)

  // The bodies that travel with a signature over their encoding.
  datatype SignedBody =
    | ProofBody(request: RequestProofBody)
    | FulfillmentBody(fulfillment: FulfillProofBody)
    | ProgramBody(program: CreateProgramBody)

  // A request as it arrives: a message format, a signature, and a body that may be missing.
  datatype Signed<+B> = Signed(format: int, signature: Bytes, body: Option<B>)

  datatype Program = Program(
    vkHash: Bytes,
    vk: Bytes,
    programUri: string,
    name: Option<string>,
    owner: Bytes,
    createdAt: nat)

  datatype ProofRequest = ProofRequest(
    requestId: Bytes,
    vkHash: Bytes,
    version: string,
    mode: int,
    strategy: int,
    programUri: string,
    stdinUri: string,
    deadline: u64,
    cycleLimit: nat,
    fulfillmentStatus: int,
    executionStatus: int,
    requester: Bytes,
    fulfiller: Option<Bytes>,
    createdAt: nat,
    updatedAt: nat,
    fulfilledAt: Option<nat>,
    txHash: Bytes,
    publicValuesHash: Option<Bytes>,
    gasLimit: nat,
    executeFailCause: int,
    settlementStatus: int,
    programPublicUri: string,
    stdinPublicUri: string,
    minAuctionPeriod: nat,
    whitelist: seq<Bytes>,
    error: int)

  datatype ProofStatus = ProofStatus(
    fulfillmentStatus: int,
    executionStatus: int,
    requestTxHash: Bytes,
    deadline: u64,
    fulfillTxHash: Option<Bytes>,
    proofUri: Option<string>,
    publicValuesHash: Option<Bytes>,
    proofPublicUri: Option<string>)

  // What `proof_requests` maps an identifier to: the request and status halves.
  datatype Entry = Entry(request: ProofRequest, status: ProofStatus)

  // The filter of `get_filtered_proof_requests`.
  datatype Filter = Filter(
    version: Option<string>,
    fulfillmentStatus: Option<int>,
    executionStatus: Option<int>,
    minimumDeadline: Option<u64>,
    vkHash: Option<Bytes>,
    requester: Option<Bytes>,
    fulfiller: Option<Bytes>,
    from: Option<nat>,
    to: Option<nat>,
    limit: Option<u32>,
    page: Option<u32>,
    mode: Option<int>,
    notBidBy: Option<Bytes>,
    executeFailCause: Option<int>,
    settlementStatus: Option<int>,
    error: Option<int>)

  const NO_FILTER: Filter :=
    Filter(None, None, None, None, None, None, None, None, None, None, None, None, None, None, None, None)

  datatype Code = InvalidArgument | Internal | NotFound

  datatype Response =
    | Error(code: Code)
    | ProofRequested(txHash: Bytes, requestId: Bytes)
    | ProofFulfilled(txHash: Bytes)
    | FulfillmentFailed(txHash: Bytes)
    | ProgramCreated(txHash: Bytes)
    | StatusIs(status: ProofStatus)
    | DetailsAre(request: ProofRequest)
    | FilteredAre(requests: seq<ProofRequest>)
    | ProgramIs(program: Program)
    | Uploaded
    | Downloaded(data: Bytes)

  // The library code the coordinator calls: protobuf encoding, Keccak-256, and recovery of
  // an address from a digest and raw signature bytes (`None` where either step fails).
  datatype World = World(
    encode: SignedBody -> Option<Bytes>,
    keccak: Bytes -> Bytes,
    recover: (Bytes, Bytes) -> Option<Address>)
}
