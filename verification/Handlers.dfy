// Each handler as one atomic step on the shared maps: the specification that the imperative
// services and the interleaved machine are both measured against.
module Handlers {
  import opened Types
  import opened Addressing
  import opened Signing
  import opened Query

  datatype Store = Store(programs: map<Bytes, Program>, requests: Requests, storage: map<string, Bytes>)

  const EMPTY: Store := Store(map[], map[], map[])

  datatype Call =
    | RequestProof(proof: Signed<RequestProofBody>)
    | FulfillProof(fulfillment: Signed<FulfillProofBody>)
    | FailFulfillment(failure: Option<FailFulfillmentBody>)
    | CreateProgram(registration: Signed<CreateProgramBody>)
    | GetStatus(id: Bytes)
    | GetDetails(id: Bytes)
    | GetFiltered(filter: Filter)
    | GetProgram(vkHash: Bytes)
    | PutArtifact(url: string, data: Bytes)
    | GetArtifact(url: string)

  datatype Upload = Stored | Failed

  // Everything a handler takes from outside: random bytes, the clock, the map's iteration
  // order, and whether the proof upload was acknowledged. A handler uses only its own share.
  datatype Draws = Draws(id: Bytes, txHash: Bytes, nonce: Bytes, now: nat, order: seq<Bytes>, upload: Upload)

  predicate HasBody(call: Call) {
    match call
    case RequestProof(m) => m.body.Some?
    case FulfillProof(m) => m.body.Some?
    case FailFulfillment(b) => b.Some?
    case CreateProgram(m) => m.body.Some?
    case PutArtifact(url, _) => Route(url).Some?
    case GetArtifact(url) => Route(url).Some?
    case _ => true
  }

  // The checks a handler makes before it takes its first lock. Calls without a signature get
  // an empty signer, which they do not use.
  function Admit(w: World, call: Call): (a: Admission)
    ensures a.Admitted? ==> HasBody(call)
    ensures a.Admitted? && call.RequestProof? ==> |a.signer| == 20
    ensures a.Admitted? && call.FulfillProof? ==> |a.signer| == 20
  {
    match call
    case RequestProof(m) =>
      if m.body.None? then Refused(InvalidArgument)
      else Signer(w, m.format, ProofBody(m.body.value), m.signature)
    case FulfillProof(m) =>
      if m.body.None? then Refused(InvalidArgument)
      else Signer(w, m.format, FulfillmentBody(m.body.value), m.signature)
    case CreateProgram(m) =>
      if m.body.None? then Refused(InvalidArgument)
      else Signer(w, m.format, ProgramBody(m.body.value), m.signature)
    case FailFulfillment(b) => if b.None? then Refused(InvalidArgument) else Admitted([])
    case PutArtifact(url, _) => if Route(url).None? then Refused(NotFound) else Admitted([])
    case GetArtifact(url) => if Route(url).None? then Refused(NotFound) else Admitted([])
    case _ => Admitted([])
  }

  /* ----- the records ----- */

  function ProgramUriFor(programs: map<Bytes, Program>, vkHash: Bytes): string {
    if vkHash in programs then programs[vkHash].programUri else ""
  }

  // The pair stored by `request_proof`. The prover is assigned to the requester itself, and the
  // program's URI is copied as it is registered now.
  function NewEntry(b: RequestProofBody, signer: Bytes, programs: map<Bytes, Program>, d: Draws): Entry {
    var uri := ProgramUriFor(programs, b.vkHash);
    Entry(
      ProofRequest(
        requestId := d.id,
        vkHash := b.vkHash,
        version := b.version,
        mode := b.mode,
        strategy := b.strategy,
        programUri := uri,
        stdinUri := b.stdinUri,
        deadline := b.deadline,
        cycleLimit := b.cycleLimit,
        fulfillmentStatus := ASSIGNED,
        executionStatus := UNEXECUTED,
        requester := signer,
        fulfiller := Some(signer),
        createdAt := d.now,
        updatedAt := d.now,
        fulfilledAt := None,
        txHash := d.txHash,
        publicValuesHash := b.publicValuesHash,
        gasLimit := b.gasLimit,
        executeFailCause := 0,
        settlementStatus := 0,
        programPublicUri := uri,
        stdinPublicUri := b.stdinUri,
        minAuctionPeriod := b.minAuctionPeriod,
        whitelist := b.whitelist,
        error := 0),
      ProofStatus(
        fulfillmentStatus := ASSIGNED,
        executionStatus := UNEXECUTED,
        requestTxHash := d.txHash,
        deadline := b.deadline,
        fulfillTxHash := None,
        proofUri := None,
        publicValuesHash := None,
        proofPublicUri := None))
  }

  function MarkFulfilled(e: Entry, signer: Bytes, d: Draws): Entry {
    Entry(
      e.request.(fulfillmentStatus := FULFILLED, updatedAt := d.now, fulfiller := Some(signer),
                 fulfilledAt := Some(d.now), executionStatus := EXECUTED),
      e.status.(fulfillmentStatus := FULFILLED, fulfillTxHash := Some(d.txHash), proofUri := Some(ProofUrl(d.nonce)),
                proofPublicUri := Some(ProofUrl(d.nonce)), executionStatus := EXECUTED))
  }

  function MarkFailed(e: Entry, error: Option<int>, d: Draws): Entry {
    Entry(
      e.request.(fulfillmentStatus := UNFULFILLABLE, updatedAt := d.now,
                 error := if error.Some? then error.value else 0),
      e.status.(fulfillmentStatus := UNFULFILLABLE))
  }

  function NewProgram(b: CreateProgramBody, signer: Bytes, d: Draws): Program {
    Program(b.vkHash, b.vk, b.programUri, None, signer, d.now)
  }

  /* ----- the handlers ----- */

  datatype Outcome = Outcome(store: Store, response: Response)

  function DoRequest(s: Store, b: RequestProofBody, signer: Bytes, d: Draws): Outcome {
    Outcome(s.(requests := s.requests[d.id := NewEntry(b, signer, s.programs, d)]), ProofRequested(d.txHash, d.id))
  }

  function FulfilAnswer(requests: Requests, b: FulfillProofBody, d: Draws): Response {
    if b.requestId !in requests then Error(NotFound)
    else if d.upload.Failed? then Error(Internal)
    else ProofFulfilled(d.txHash)
  }

  function FulfilRequests(requests: Requests, b: FulfillProofBody, signer: Bytes, d: Draws): Requests {
    if b.requestId in requests && d.upload.Stored?
    then requests[b.requestId := MarkFulfilled(requests[b.requestId], signer, d)]
    else requests
  }

  function DoFulfill(s: Store, b: FulfillProofBody, signer: Bytes, d: Draws): Outcome {
    Outcome(s.(requests := FulfilRequests(s.requests, b, signer, d)), FulfilAnswer(s.requests, b, d))
  }

  function DoFail(s: Store, b: FailFulfillmentBody, d: Draws): Outcome {
    if b.requestId !in s.requests then Outcome(s, Error(NotFound))
    else
      Outcome(s.(requests := s.requests[b.requestId := MarkFailed(s.requests[b.requestId], b.error, d)]),
              FulfillmentFailed(s.requests[b.requestId].request.txHash))
  }

  function DoCreateProgram(s: Store, b: CreateProgramBody, signer: Bytes, d: Draws): Outcome {
    Outcome(s.(programs := s.programs[b.vkHash := NewProgram(b, signer, d)]), ProgramCreated(d.txHash))
  }

  function DoPut(s: Store, url: string, data: Bytes): Outcome
    requires Route(url).Some?
  {
    Outcome(s.(storage := s.storage[Key(Route(url).value) := data]), Uploaded)
  }

  predicate IsRead(call: Call) {
    call.GetStatus? || call.GetDetails? || call.GetFiltered? || call.GetProgram? || call.GetArtifact?
  }

  // What a read-only handler answers.
  function Read(s: Store, call: Call, d: Draws): Response
    requires HasBody(call) && IsRead(call)
  {
    match call
    case GetStatus(id) => if id in s.requests then StatusIs(s.requests[id].status) else Error(NotFound)
    case GetDetails(id) => if id in s.requests then DetailsAre(s.requests[id].request) else Error(NotFound)
    case GetFiltered(f) => FilteredAre(Answer(s.requests, d.order, f))
    case GetProgram(vk) => if vk in s.programs then ProgramIs(s.programs[vk]) else Error(NotFound)
    case GetArtifact(url) =>
      var key := Key(Route(url).value);
      if key in s.storage then Downloaded(s.storage[key]) else Error(NotFound)
  }

  function Act(s: Store, call: Call, signer: Bytes, d: Draws): Outcome
    requires HasBody(call)
  {
    match call
    case RequestProof(m) => DoRequest(s, m.body.value, signer, d)
    case FulfillProof(m) => DoFulfill(s, m.body.value, signer, d)
    case FailFulfillment(b) => DoFail(s, b.value, d)
    case CreateProgram(m) => DoCreateProgram(s, m.body.value, signer, d)
    case PutArtifact(url, data) => DoPut(s, url, data)
    case _ => Outcome(s, Read(s, call, d))
  }

  // A whole handler, run with nothing beside it.
  function Perform(w: World, s: Store, call: Call, d: Draws): Outcome {
    match Admit(w, call)
    case Refused(code) => Outcome(s, Error(code))
    case Admitted(signer) => Act(s, call, signer, d)
  }

  // A fulfilment that will send its proof.
  predicate Sends(w: World, s: Store, call: Call) {
    call.FulfillProof? && Admit(w, call).Admitted? && call.fulfillment.body.value.requestId in s.requests
  }
}
