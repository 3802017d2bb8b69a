// The services as objects, each handler run to its end without interruption, and the client
// that calls them. Every method is proved against its atomic specification.
module Services {
  import opened Types
  import opened Addressing
  import opened Signing
  import opened Query
  import opened Handlers

  // The HTTP server's storage and its two artifact handlers.
  class HttpServer {
    var storage: map<string, Bytes>

    constructor ()
      ensures storage == map[]
    {
      storage := map[];
    }

    method UploadArtifact(kind: string, id: string, body: Bytes) returns (r: Response)
      modifies this
      ensures r == Uploaded && storage == old(storage)[Key(Segments(kind, id)) := body]
    {
      var key := kind + "/" + id;
      storage := storage[key := body];
      r := Uploaded;
    }

    method DownloadArtifact(kind: string, id: string) returns (r: Response)
      ensures var key := Key(Segments(kind, id));
              r == if key in storage then Downloaded(storage[key]) else Error(NotFound)
    {
      var key := kind + "/" + id;
      if key in storage {
        r := Downloaded(storage[key]);
      } else {
        r := Error(NotFound);
      }
    }

    // The router in front of the handlers.
    method Put(url: string, body: Bytes) returns (r: Response)
      modifies this
      ensures Route(url).Some? ==> r == Uploaded && storage == old(storage)[Key(Route(url).value) := body]
      ensures Route(url).None? ==> r == Error(NotFound) && storage == old(storage)
    {
      match Route(url)
      case None => r := Error(NotFound);
      case Some(s) => r := UploadArtifact(s.kind, s.id, body);
    }

    method Get(url: string) returns (r: Response)
      ensures Route(url).Some? && Key(Route(url).value) in storage ==> r == Downloaded(storage[Key(Route(url).value)])
      ensures Route(url).None? || Key(Route(url).value) !in storage ==> r == Error(NotFound)
    {
      match Route(url)
      case None => r := Error(NotFound);
      case Some(s) => r := DownloadArtifact(s.kind, s.id);
    }
  }

  // The service that hands out artifact URLs.
  class ArtifactStore {
    var artifacts: map<string, (ArtifactType, string)>

    constructor ()
      ensures artifacts == map[]
    {
      artifacts := map[];
    }

    // The URI, which is also the presigned URL; `None` for an unknown artifact type.
    method CreateArtifact(kind: int, idBytes: Bytes) returns (uri: Option<string>)
      modifies this
      ensures TypeFromWire(kind).None? ==> uri.None? && artifacts == old(artifacts)
      ensures TypeFromWire(kind).Some? ==>
                var t := TypeFromWire(kind).value;
                uri == Some(PresignedUrl(t, Hex(idBytes))) &&
                artifacts == old(artifacts)[uri.value := (t, uri.value)]
    {
      var t := TypeFromWire(kind);
      if t.None? {
        return None;
      }
      var id := Hex(idBytes);
      var presigned := PresignedUrl(t.value, id);
      artifacts := artifacts[presigned := (t.value, presigned)];
      uri := Some(presigned);
    }
  }

  // A stored pair. `get_mut` lends it out, and its halves are updated where they are.
  class Pair {
    var request: ProofRequest
    var status: ProofStatus

    constructor (request: ProofRequest, status: ProofStatus)
      ensures this.request == request && this.status == status
    {
      this.request := request;
      this.status := status;
    }

    function Contents(): Entry
      reads this
    {
      Entry(request, status)
    }

    // The assignments of a fulfilment through the borrowed pair.
    method RecordFulfilment(url: string, requester: Bytes, d: Draws)
      requires url == ProofUrl(d.nonce)
      modifies this
      ensures Contents() == MarkFulfilled(old(Contents()), requester, d)
    {
      status := status.(fulfillmentStatus := FULFILLED);
      status := status.(fulfillTxHash := Some(d.txHash));
      status := status.(proofUri := Some(url));
      status := status.(proofPublicUri := Some(url));
      status := status.(executionStatus := EXECUTED);
      request := request.(fulfillmentStatus := status.fulfillmentStatus);
      request := request.(updatedAt := d.now);
      request := request.(fulfiller := Some(requester));
      request := request.(fulfilledAt := Some(d.now));
      request := request.(executionStatus := EXECUTED);
    }

    method RecordFailure(error: Option<int>, d: Draws)
      modifies this
      ensures Contents() == MarkFailed(old(Contents()), error, d)
    {
      status := status.(fulfillmentStatus := UNFULFILLABLE);
      request := request.(fulfillmentStatus := status.fulfillmentStatus);
      request := request.(updatedAt := d.now);
      if error.Some? {
        request := request.(error := error.value);
      } else {
        request := request.(error := 0);
      }
    }
  }

  lemma FulfilPerforms(w: World, s: Store, m: Signed<FulfillProofBody>, d: Draws)
    ensures var o := Perform(w, s, FulfillProof(m), d);
            match Admit(w, FulfillProof(m))
            case Refused(code) => o == Outcome(s, Error(code)) && !Sends(w, s, FulfillProof(m))
            case Admitted(requester) =>
              && (Sends(w, s, FulfillProof(m)) <==> m.body.value.requestId in s.requests)
              && o.response == FulfilAnswer(s.requests, m.body.value, d)
              && o.store.requests == FulfilRequests(s.requests, m.body.value, requester, d)
              && o.store.programs == s.programs
  {
  }

  // The prover network service.
  class ProverNetwork {
    const world: World
    const http: HttpServer
    var proofRequests: map<Bytes, Pair>
    var programs: map<Bytes, Program>

    // No two keys share a pair.
    ghost predicate Valid()
      reads this`proofRequests
    {
      forall a, b :: a in proofRequests && b in proofRequests && a != b ==> proofRequests[a] != proofRequests[b]
    }

    function Requests(): Query.Requests
      reads this`proofRequests, proofRequests.Values
    {
      map id | id in proofRequests :: proofRequests[id].Contents()
    }

    ghost function Contents(): Store
      reads this, proofRequests.Values, http
    {
      Store(programs, Requests(), http.storage)
    }

    constructor (world: World, http: HttpServer)
      ensures Valid() && this.world == world && this.http == http
      ensures proofRequests == map[] && programs == map[]
    {
      this.world := world;
      this.http := http;
      proofRequests := map[];
      programs := map[];
    }

    method RequestProof(m: Signed<RequestProofBody>, d: Draws) returns (r: Response)
      requires Valid()
      modifies this
      ensures Valid()
      ensures var o := Perform(world, old(Contents()), Call.RequestProof(m), d);
              r == o.response && Contents() == o.store
    {
      if m.body.None? {
        return Error(InvalidArgument);
      }
      var body := m.body.value;
      var status := ProofStatus(ASSIGNED, UNEXECUTED, d.txHash, body.deadline, None, None, None, None);
      var admission := Authenticate(world, m.format, ProofBody(body), m.signature);
      if admission.Refused? {
        return Error(admission.code);
      }
      var requester := admission.signer;
      var uri := "";
      if body.vkHash in programs {
        uri := programs[body.vkHash].programUri;
      }
      var request := ProofRequest(
        requestId := d.id,
        vkHash := body.vkHash,
        version := body.version,
        mode := body.mode,
        strategy := body.strategy,
        programUri := uri,
        stdinUri := body.stdinUri,
        deadline := body.deadline,
        cycleLimit := body.cycleLimit,
        fulfillmentStatus := status.fulfillmentStatus,
        executionStatus := status.executionStatus,
        requester := requester,
        fulfiller := Some(requester),
        createdAt := d.now,
        updatedAt := d.now,
        fulfilledAt := None,
        txHash := d.txHash,
        publicValuesHash := body.publicValuesHash,
        gasLimit := body.gasLimit,
        executeFailCause := 0,
        settlementStatus := 0,
        programPublicUri := uri,
        stdinPublicUri := body.stdinUri,
        minAuctionPeriod := body.minAuctionPeriod,
        whitelist := body.whitelist,
        error := 0);
      var pair := new Pair(request, status);
      proofRequests := proofRequests[d.id := pair];
      assert Requests() == old(Requests())[d.id := pair.Contents()];
      r := ProofRequested(d.txHash, d.id);
    }

    // `delivered` says whether the PUT reaches the storage, `d.upload` whether its success comes
    // back; a success answer means that it was stored.
    method FulfillProof(m: Signed<FulfillProofBody>, delivered: bool, d: Draws) returns (r: Response)
      requires Valid() && d.nonce != [] && (d.upload.Stored? ==> delivered)
      modifies proofRequests.Values, http
      ensures Valid()
      ensures var o := Perform(world, old(Contents()), Call.FulfillProof(m), d);
              r == o.response && Requests() == o.store.requests && programs == o.store.programs
      ensures Route(ProofUrl(d.nonce)).Some?
      ensures http.storage ==
              if Sends(world, old(Contents()), Call.FulfillProof(m)) && delivered
              then old(http.storage)[Key(Route(ProofUrl(d.nonce)).value) := m.body.value.proof]
              else old(http.storage)
    {
      ProofUrlRoutes(d.nonce);
      FulfilPerforms(world, Contents(), m, d);
      var admission := CheckFulfilment(m);
      if admission.Refused? {
        return Error(admission.code);
      }
      r := UploadAndFulfil(m.body.value, admission.signer, delivered, d);
    }

    // The handler before it takes the guard.
    method CheckFulfilment(m: Signed<FulfillProofBody>) returns (a: Admission)
      ensures a == Admit(world, Call.FulfillProof(m))
      ensures Requests() == old(Requests())
    {
      if m.body.None? {
        return Refused(InvalidArgument);
      }
      a := Authenticate(world, m.format, FulfillmentBody(m.body.value), m.signature);
    }

    // The handler under the guard of `proof_requests`.
    method UploadAndFulfil(body: FulfillProofBody, requester: Bytes, delivered: bool, d: Draws) returns (r: Response)
      requires Valid() && Route(ProofUrl(d.nonce)).Some? && (d.upload.Stored? ==> delivered)
      modifies proofRequests.Values, http
      ensures Valid()
      ensures r == FulfilAnswer(old(Requests()), body, d)
      ensures Requests() == FulfilRequests(old(Requests()), body, requester, d)
      ensures http.storage ==
              if body.requestId in proofRequests && delivered
              then old(http.storage)[Key(Route(ProofUrl(d.nonce)).value) := body.proof]
              else old(http.storage)
    {
      if body.requestId !in proofRequests {
        return Error(NotFound);
      }
      var url := ProofUrl(d.nonce);
      Send(url, body.proof, delivered);
      r := FulfilIfSent(body.requestId, url, requester, d);
    }

    // After the answer to the upload.
    method FulfilIfSent(id: Bytes, url: string, requester: Bytes, d: Draws) returns (r: Response)
      requires Valid() && id in proofRequests && url == ProofUrl(d.nonce)
      modifies proofRequests[id]
      ensures Valid()
      ensures r == if d.upload.Failed? then Error(Internal) else ProofFulfilled(d.txHash)
      ensures Requests() ==
              if d.upload.Failed? then old(Requests())
              else old(Requests())[id := MarkFulfilled(old(Requests())[id], requester, d)]
    {
      if d.upload.Failed? {
        return Error(Internal);
      }
      Fulfil(id, url, requester, d);
      r := ProofFulfilled(d.txHash);
    }

    method Send(url: string, proof: Bytes, delivered: bool)
      requires Route(url).Some?
      modifies http
      ensures http.storage ==
              if delivered then old(http.storage)[Key(Route(url).value) := proof] else old(http.storage)
      ensures Requests() == old(Requests())
    {
      if delivered {
        var uploaded := http.Put(url, proof);
      }
    }

    // The pair is borrowed from the map and updated where it is.
    method Fulfil(id: Bytes, url: string, requester: Bytes, d: Draws)
      requires Valid() && id in proofRequests && url == ProofUrl(d.nonce)
      modifies proofRequests[id]
      ensures Valid()
      ensures Requests() == old(Requests())[id := MarkFulfilled(old(Requests())[id], requester, d)]
    {
      var pair := proofRequests[id];
      pair.RecordFulfilment(url, requester, d);
    }

    method Fail(id: Bytes, error: Option<int>, d: Draws)
      requires Valid() && id in proofRequests
      modifies proofRequests[id]
      ensures Valid()
      ensures Requests() == old(Requests())[id := MarkFailed(old(Requests())[id], error, d)]
    {
      var pair := proofRequests[id];
      pair.RecordFailure(error, d);
    }

    method FailFulfillment(b: Option<FailFulfillmentBody>, d: Draws) returns (r: Response)
      requires Valid()
      modifies proofRequests.Values
      ensures Valid()
      ensures var o := Perform(world, old(Contents()), Call.FailFulfillment(b), d);
              r == o.response && Contents() == o.store
    {
      if b.None? {
        return Error(InvalidArgument);
      }
      var body := b.value;
      if body.requestId !in proofRequests {
        return Error(NotFound);
      }
      Fail(body.requestId, body.error, d);
      r := FulfillmentFailed(proofRequests[body.requestId].request.txHash);
    }

    method CreateProgram(m: Signed<CreateProgramBody>, d: Draws) returns (r: Response)
      requires Valid()
      modifies this`programs
      ensures Valid()
      ensures var o := Perform(world, old(Contents()), Call.CreateProgram(m), d);
              r == o.response && Contents() == o.store
    {
      if m.body.None? {
        return Error(InvalidArgument);
      }
      var body := m.body.value;
      var admission := Authenticate(world, m.format, ProgramBody(body), m.signature);
      if admission.Refused? {
        return Error(admission.code);
      }
      var program := Program(body.vkHash, body.vk, body.programUri, None, admission.signer, d.now);
      programs := programs[body.vkHash := program];
      r := ProgramCreated(d.txHash);
    }

    method GetProofRequestStatus(id: Bytes, d: Draws) returns (r: Response)
      ensures r == Perform(world, Contents(), GetStatus(id), d).response
    {
      if id in proofRequests {
        r := StatusIs(proofRequests[id].status);
      } else {
        r := Error(NotFound);
      }
    }

    method GetProofRequestDetails(id: Bytes, d: Draws) returns (r: Response)
      ensures r == Perform(world, Contents(), GetDetails(id), d).response
    {
      if id in proofRequests {
        r := DetailsAre(proofRequests[id].request);
      } else {
        r := Error(NotFound);
      }
    }

    method GetFilteredProofRequests(f: Filter, d: Draws) returns (r: Response)
      requires IsOrderOf(d.order, Requests())
      ensures r == Perform(world, Contents(), GetFiltered(f), d).response
    {
      var answer := RunQuery(Requests(), d.order, f);
      r := FilteredAre(answer);
    }

    method GetProgram(vkHash: Bytes, d: Draws) returns (r: Response)
      ensures r == Perform(world, Contents(), Call.GetProgram(vkHash), d).response
    {
      if vkHash in programs {
        r := ProgramIs(programs[vkHash]);
      } else {
        r := Error(NotFound);
      }
    }
  }

  /* ----- the client ----- */

  // A URL that the artifact service has handed out.
  ghost predicate IsPresigned(url: string) {
    exists t, idBytes :: idBytes != [] && url == PresignedUrl(t, Hex(idBytes))
  }

  lemma HandedOut(t: ArtifactType, idBytes: Bytes)
    requires idBytes != []
    ensures IsPresigned(PresignedUrl(t, Hex(idBytes)))
  {
  }

  // The client's upload of a new artifact, to the rewritten URL. `delivered` says whether the PUT
  // reaches the storage.
  method UploadArtifactBytes(http: HttpServer, presigned: string, data: Bytes, delivered: bool)
    requires IsPresigned(presigned)
    modifies http
    ensures Route(presigned).Some?
    ensures http.storage ==
            if delivered then old(http.storage)[Key(Route(presigned).value) := data] else old(http.storage)
  {
    PresignedIsUploadable(presigned);
    var putUrl := ClientPutUrl(presigned);
    if delivered {
      var uploaded := http.Put(putUrl, data);
    }
  }

  // What comes back for the client's PUT: success, another status, or nothing at all.
  datatype PutAnswer = Accepted | Declined | Lost

  // The client asks for an artifact of a type: what it sends is understood, whatever the type, and
  // the URL it gets names that type and the drawn identifier.
  method RequestArtifact(artifacts: ArtifactStore, t: ArtifactType, idBytes: Bytes) returns (uri: string)
    requires idBytes != []
    modifies artifacts
    ensures uri == PresignedUrl(t, Hex(idBytes)) && Route(uri) == Some(Segments(TypeName(t), Hex(idBytes)))
    ensures artifacts.artifacts == old(artifacts.artifacts)[uri := (t, uri)]
  {
    WireRoundTrip(TypeToWire(t), t);
    HexIsSegment(idBytes);
    PresignedRoutes(t, Hex(idBytes));
    var answer := artifacts.CreateArtifact(TypeToWire(t), idBytes);
    uri := answer.value;
  }

  // The client's session: create a program artifact, upload its bytes to the rewritten URL, and
  // register the program under the original one.
  method RunClient(artifacts: ArtifactStore, network: ProverNetwork, wallet: Wallet, data: Bytes, vkHash: Bytes,
                   vk: Bytes, idBytes: Bytes, delivered: bool, answer: PutAnswer, d: Draws)
    returns (uri: Option<string>)
    requires network.Valid() && idBytes != [] && RecoversAfterSigning(network.world, wallet)
    requires answer.Accepted? ==> delivered
    modifies artifacts, network, network.http
    ensures network.Valid()
    ensures uri.Some? <==>
            !answer.Lost? && CanRegister(network.world, wallet, vkHash, vk, PresignedUrl(ProgramArtifact, Hex(idBytes)))
    ensures uri.Some? ==> uri.value == PresignedUrl(ProgramArtifact, Hex(idBytes))
    ensures network.programs ==
            if uri.Some? then old(network.programs)[vkHash := ClientProgram(wallet, vkHash, vk, uri.value, d)]
            else old(network.programs)
    ensures var presigned := PresignedUrl(ProgramArtifact, Hex(idBytes));
            Route(presigned).Some? &&
            network.http.storage ==
            if delivered then old(network.http.storage)[Key(Route(presigned).value) := data]
            else old(network.http.storage)
  {
    HandedOut(ProgramArtifact, idBytes);
    var presigned := RequestArtifact(artifacts, ProgramArtifact, idBytes);
    var registered := UploadAndRegister(network, wallet, data, vkHash, vk, presigned, delivered, answer, d);
    uri := if registered then Some(presigned) else None;
  }

  // A refused upload is only logged; a lost one ends the session. An accepted one was delivered.
  method UploadAndRegister(network: ProverNetwork, wallet: Wallet, data: Bytes, vkHash: Bytes, vk: Bytes,
                           presigned: string, delivered: bool, answer: PutAnswer, d: Draws)
    returns (done: bool)
    requires network.Valid() && RecoversAfterSigning(network.world, wallet) && IsPresigned(presigned)
    requires answer.Accepted? ==> delivered
    modifies network`programs, network.http
    ensures done <==> !answer.Lost? && CanRegister(network.world, wallet, vkHash, vk, presigned)
    ensures network.programs ==
            if done then old(network.programs)[vkHash := ClientProgram(wallet, vkHash, vk, presigned, d)]
            else old(network.programs)
    ensures Route(presigned).Some?
    ensures network.http.storage ==
            if delivered then old(network.http.storage)[Key(Route(presigned).value) := data]
            else old(network.http.storage)
  {
    UploadArtifactBytes(network.http, presigned, data, delivered);
    if answer.Lost? {
      return false;
    }
    done := Register(network, wallet, vkHash, vk, presigned, d);
  }

  predicate CanRegister(w: World, wallet: Wallet, vkHash: Bytes, vk: Bytes, uri: string) {
    CanSign(w, wallet, ProgramBody(CreateProgramBody(0, vkHash, vk, uri)))
  }

  // The client's program: its URI, and its address as owner.
  function ClientProgram(wallet: Wallet, vkHash: Bytes, vk: Bytes, uri: string, d: Draws): Program {
    NewProgram(CreateProgramBody(0, vkHash, vk, uri), wallet.address, d)
  }

  // The client signs its program and registers it.
  method Register(network: ProverNetwork, wallet: Wallet, vkHash: Bytes, vk: Bytes, uri: string, d: Draws)
    returns (done: bool)
    requires network.Valid() && RecoversAfterSigning(network.world, wallet)
    modifies network`programs
    ensures done <==> CanRegister(network.world, wallet, vkHash, vk, uri)
    ensures network.programs ==
            if done then old(network.programs)[vkHash := ClientProgram(wallet, vkHash, vk, uri, d)]
            else old(network.programs)
  {
    var request := Signing.CreateProgramRequest(network.world, wallet, vkHash, vk, uri);
    if request.None? {
      return false;
    }
    ClientRegisters(network.world, network.Contents(), wallet, request.value, d);
    var r := network.CreateProgram(request.value, d);
    done := true;
  }

  lemma ClientRegisters(w: World, s: Store, wallet: Wallet, m: Signed<CreateProgramBody>, d: Draws)
    requires m.body.Some? && Signer(w, m.format, ProgramBody(m.body.value), m.signature) == Admitted(wallet.address)
    ensures Perform(w, s, Call.CreateProgram(m), d).store.programs ==
            s.programs[m.body.value.vkHash := NewProgram(m.body.value, wallet.address, d)]
  {
  }

  lemma PresignedIsUploadable(url: string)
    requires IsPresigned(url)
    ensures Route(url).Some? && Route(ClientPutUrl(url)) == Route(url)
  {
    var t, idBytes :| idBytes != [] && url == PresignedUrl(t, Hex(idBytes));
    HexIsSegment(idBytes);
    ClientUploadReachesKey(t, idBytes);
    PresignedRoutes(t, Hex(idBytes));
  }
}
