// What every handler of every run has answered, in terms of the events before it: the contents of
// the answers, the codes of the refusals, and the page of a query.
module Answers {
  import opened Types
  import opened Addressing
  import opened Signing
  import opened Query
  import opened Handlers
  import opened Machine
  import opened Histories
  import opened Linearizability
  import opened Lifecycle
  import opened Listings
  import opened PageWalk
  import opened Guarantees

  // The event at a place of the log of a reachable state, and the state its handler found.
  lemma Answered(w: World, s: State, i: nat)
    requires Reachable(w, s) && i < |s.log|
    ensures Faithful(w, s.log[..i]) && Answers(w, Replay(w, s.log[..i]), s.log[i])
    ensures Replay(w, s.log[..i + 1]) == Perform(w, Replay(w, s.log[..i]), s.log[i].call, s.log[i].draws).store
    ensures KeysOk(Replay(w, s.log[..i]).requests)
  {
    ReachableHistory(w, s);
    assert Answers(w, Replay(w, s.log[..i]), s.log[i]);
    FaithfulTake(w, s.log, i);
    KeysAreOk(w, s.log[..i]);
    assert s.log[..i + 1] == s.log[..i] + [s.log[i]];
    ReplayAppend(w, s.log[..i], s.log[i]);
  }

  /* ----- refusals of signed calls ----- */

  // Why a signed call is refused before it takes a lock, if it is: the body is missing, it cannot
  // be encoded, or no address can be recovered from the hash of its encoding and the signature.
  function RefusalOf(w: World, body: Option<SignedBody>, signature: Bytes): Option<Code> {
    if body.None? then Some(InvalidArgument)
    else if w.encode(body.value).None? then Some(Internal)
    else if w.recover(w.keccak(PreImage(w.encode(body.value).value)), signature).None? then Some(InvalidArgument)
    else None
  }

  // The body that a call is signed over, as it is sent.
  function SignedOver(call: Call): Option<SignedBody> {
    match call
    case RequestProof(m) => if m.body.Some? then Some(ProofBody(m.body.value)) else None
    case FulfillProof(m) => if m.body.Some? then Some(FulfillmentBody(m.body.value)) else None
    case CreateProgram(m) => if m.body.Some? then Some(ProgramBody(m.body.value)) else None
    case _ => None
  }

  lemma AdmitIs(w: World, e: Event)
    requires e.call.RequestProof? || e.call.FulfillProof? || e.call.CreateProgram?
    ensures var signature :=
              if e.call.RequestProof? then e.call.proof.signature
              else if e.call.FulfillProof? then e.call.fulfillment.signature
              else e.call.registration.signature;
            match RefusalOf(w, SignedOver(e.call), signature)
            case Some(code) => Admit(w, e.call) == Refused(code)
            case None => Admit(w, e.call) == Admitted(SignerOf(w, e))
  {
  }

  // What a wallet has signed is never refused.
  lemma ClientIsNotRefused(w: World, wallet: Wallet, body: SignedBody, signature: Bytes)
    requires RecoversAfterSigning(w, wallet) && ClientSigned(w, wallet, body, signature)
    ensures RefusalOf(w, Some(body), signature) == None
  {
    SignerIsClient(w, wallet, BINARY, body, signature);
  }

  /* ----- the handlers that change records ----- */

  // A request is answered with the hash and the identifier that its record then has.
  lemma RequestAnswered(w: World, s: State, i: nat)
    requires Reachable(w, s) && i < |s.log| && s.log[i].call.RequestProof?
    ensures var e, after := s.log[i], Replay(w, s.log[..i + 1]).requests;
            match RefusalOf(w, SignedOver(e.call), e.call.proof.signature)
            case Some(code) => e.response == Error(code)
            case None =>
              && e.response == ProofRequested(e.draws.txHash, e.draws.id)
              && e.draws.id in after
              && var record := after[e.draws.id];
              && record.request.requestId == e.draws.id
              && record.request.txHash == record.status.requestTxHash == e.draws.txHash
  {
    Answered(w, s, i);
    AdmitIs(w, s.log[i]);
  }

  // A fulfilment: `NotFound` means that its request had not been created, `Internal` that the body
  // could not be encoded or no success of its upload came through, and success that the upload of
  // its own proof to its own URL was in the storage before it took effect, and that the record
  // shows the hash it answers.
  lemma FulfilmentAnswered(w: World, s: State, i: nat)
    requires Reachable(w, s) && i < |s.log| && s.log[i].call.FulfillProof?
    ensures var e, before, after := s.log[i], s.log[..i], Replay(w, s.log[..i + 1]).requests;
            match RefusalOf(w, SignedOver(e.call), e.call.fulfillment.signature)
            case Some(code) => e.response == Error(code)
            case None =>
              var id := e.call.fulfillment.body.value.requestId;
              if Last(before, Creation(id)).None? then e.response == Error(NotFound)
              else if e.draws.upload.Failed? then e.response == Error(Internal)
              else
                && e.response == ProofFulfilled(e.draws.txHash)
                && Publishes(e) && UploadedFor(before, e)
                && id in after && after[id].status.fulfillTxHash == Some(e.draws.txHash)
  {
    Answered(w, s, i);
    ReachableHistory(w, s);
    var e := s.log[i];
    AdmitIs(w, e);
    if SignedOver(e.call).Some? {
      ExistsIffCreated(w, s.log[..i], e.call.fulfillment.body.value.requestId);
    }
  }

  // A failure is answered with the transaction hash of the request's creation.
  lemma FailureAnswered(w: World, s: State, i: nat)
    requires Reachable(w, s) && i < |s.log| && s.log[i].call.FailFulfillment?
    ensures var e, before := s.log[i], s.log[..i];
            match e.call.failure
            case None => e.response == Error(InvalidArgument)
            case Some(b) =>
              var birth := Last(before, Creation(b.requestId));
              e.response ==
              if birth.None? then Error(NotFound) else FulfillmentFailed(before[birth.value].draws.txHash)
  {
    Answered(w, s, i);
    if s.log[i].call.failure.Some? {
      HistoryRefinement(w, s.log[..i], s.log[i].call.failure.value.requestId);
    }
  }

  // A registration is answered with its hash, and the program is there as it was sent.
  lemma RegistrationAnswered(w: World, s: State, i: nat)
    requires Reachable(w, s) && i < |s.log| && s.log[i].call.CreateProgram?
    ensures var e, after := s.log[i], Replay(w, s.log[..i + 1]).programs;
            match RefusalOf(w, SignedOver(e.call), e.call.registration.signature)
            case Some(code) => e.response == Error(code)
            case None =>
              && e.response == ProgramCreated(e.draws.txHash)
              && e.call.registration.body.value.vkHash in after
              && IsRegistered(w, e, after[e.call.registration.body.value.vkHash])
  {
    Answered(w, s, i);
    AdmitIs(w, s.log[i]);
  }

  // So a fulfilment that a wallet has signed is never answered with `InvalidArgument`.
  lemma ClientFulfilmentIsNotRefused(w: World, s: State, t: nat, wallet: Wallet)
    requires Reachable(w, s) && t < |s.threads| && s.threads[t].pc.Finished? && s.threads[t].call.FulfillProof?
    requires var m := s.threads[t].call.fulfillment;
             m.body.Some? && ClientSigned(w, wallet, FulfillmentBody(m.body.value), m.signature)
    requires RecoversAfterSigning(w, wallet)
    ensures s.threads[t].pc.response != Error(InvalidArgument)
  {
    Linearizable(w, s);
    var m := s.threads[t].call.fulfillment;
    ClientIsNotRefused(w, wallet, FulfillmentBody(m.body.value), m.signature);
    FulfilmentAnswered(w, s, s.threads[t].committedAt);
  }

  /* ----- the handlers that read ----- */

  // The status and details handlers answer with the half of the record that the history of the
  // request determines, or `NotFound` if it was never created.
  lemma StatusAnswered(w: World, s: State, i: nat)
    requires Reachable(w, s) && i < |s.log| && s.log[i].call.GetStatus?
    ensures var id, before := s.log[i].call.id, s.log[..i];
            if Last(before, Creation(id)).None? then s.log[i].response == Error(NotFound)
            else exists e :: EntryOfHistory(w, before, id, e) && s.log[i].response == StatusIs(e.status)
  {
    Answered(w, s, i);
    HistoryRefinement(w, s.log[..i], s.log[i].call.id);
  }

  lemma DetailsAnswered(w: World, s: State, i: nat)
    requires Reachable(w, s) && i < |s.log| && s.log[i].call.GetDetails?
    ensures var id, before := s.log[i].call.id, s.log[..i];
            if Last(before, Creation(id)).None? then s.log[i].response == Error(NotFound)
            else exists e :: EntryOfHistory(w, before, id, e) && s.log[i].response == DetailsAre(e.request)
  {
    Answered(w, s, i);
    HistoryRefinement(w, s.log[..i], s.log[i].call.id);
  }

  // A program is answered as its last registration made it.
  lemma ProgramAnswered(w: World, s: State, i: nat)
    requires Reachable(w, s) && i < |s.log| && s.log[i].call.GetProgram?
    ensures var vk, before := s.log[i].call.vkHash, s.log[..i];
            var last := Last(before, Registration(vk));
            if last.None? then s.log[i].response == Error(NotFound)
            else s.log[i].response.ProgramIs? && IsRegistered(w, before[last.value], s.log[i].response.program)
  {
    Answered(w, s, i);
    ProgramsOfHistory(w, s.log[..i], s.log[i].call.vkHash);
  }

  // A PUT is accepted at the artifact paths only, and a GET answered with the last bytes put there.
  lemma PutAnswered(w: World, s: State, i: nat)
    requires Reachable(w, s) && i < |s.log| && s.log[i].call.PutArtifact?
    ensures s.log[i].response == if Route(s.log[i].call.url).Some? then Uploaded else Error(NotFound)
  {
    Answered(w, s, i);
  }

  lemma GetAnswered(w: World, s: State, i: nat)
    requires Reachable(w, s) && i < |s.log| && s.log[i].call.GetArtifact?
    ensures var url, before := s.log[i].call.url, s.log[..i];
            var put := if Route(url).Some? then Last(before, Put(Key(Route(url).value))) else None;
            s.log[i].response == if put.Some? then Downloaded(before[put.value].call.data) else Error(NotFound)
  {
    Answered(w, s, i);
    if Route(s.log[i].call.url).Some? {
      StorageOfHistory(w, s.log[..i], Key(Route(s.log[i].call.url).value));
    }
  }

  // A list of exactly the stored records that no criterion excludes, each once, oldest first, and
  // those of one second in the iteration order.
  ghost predicate IsFullAnswer(requests: Requests, order: seq<Bytes>, f: Filter, list: seq<ProofRequest>) {
    && (forall r :: r in list <==>
          r.requestId in requests && r == requests[r.requestId].request && !IsExcluded(f, r))
    && (forall i, j :: 0 <= i < j < |list| ==>
          list[i].requestId != list[j].requestId && list[i].createdAt <= list[j].createdAt)
    && (forall i, j :: 0 <= i < j < |list| && list[i].createdAt == list[j].createdAt ==>
          Before(order, list[i].requestId, list[j].requestId))
  }

  // The records from place `from` on, at most `limit` of them.
  function Slice(list: seq<ProofRequest>, from: nat, limit: nat): seq<ProofRequest> {
    if from >= |list| then []
    else if from + limit >= |list| then list[from..]
    else list[from..from + limit]
  }

  lemma BeforeOrAfter(order: seq<Bytes>, a: Bytes, b: Bytes)
    requires a in order && b in order && a != b
    ensures Before(order, a, b) || Before(order, b, a)
  {
    var i :| 0 <= i < |order| && order[i] == a;
    var j :| 0 <= j < |order| && order[j] == b;
    assert i < j || j < i;
  }

  lemma TiesKeepOrder(requests: Requests, order: seq<Bytes>, f: Filter, i: nat, j: nat)
    requires KeysOk(requests) && IsOrderOf(order, requests)
    requires var list := Ordered(requests, order, f); i < j < |list| && list[i].createdAt == list[j].createdAt
    ensures var list := Ordered(requests, order, f); Before(order, list[i].requestId, list[j].requestId)
  {
    OrderedLists(requests, order, f);
    var list := Ordered(requests, order, f);
    var a, b := list[i].requestId, list[j].requestId;
    BeforeOrAfter(order, a, b);
    NotAfter(Ids(list), i, j);
    if Before(order, b, a) {
      AnswerKeepsOrder(requests, order, f, b, a);
    }
  }

  lemma NotAfter(ids: seq<Bytes>, i: nat, j: nat)
    requires NoRepeats(ids) && i < j < |ids|
    ensures !Before(ids, ids[j], ids[i])
  {
  }

  lemma OrderedIsFull(requests: Requests, order: seq<Bytes>, f: Filter)
    requires KeysOk(requests) && IsOrderOf(order, requests)
    ensures IsFullAnswer(requests, order, f, Ordered(requests, order, f))
  {
    var list := Ordered(requests, order, f);
    OrderedLists(requests, order, f);
    forall r
      ensures r in list <==> r.requestId in requests && r == requests[r.requestId].request && !IsExcluded(f, r)
    {
      PassesIff(f, r);
      if r.requestId in requests && r == requests[r.requestId].request && Passes(f, r) {
        assert Matches(requests, f, r.requestId);
      }
    }
    forall i, j | 0 <= i < j < |list| && list[i].createdAt == list[j].createdAt
      ensures Before(order, list[i].requestId, list[j].requestId)
    {
      TiesKeepOrder(requests, order, f, i, j);
    }
  }

  lemma PageIsSlice(list: seq<ProofRequest>, page: nat, limit: nat)
    ensures page * limit >= 0
    ensures Page(list, page, limit) == Slice(list, page * limit, limit)
  {
  }

  // A query is answered with the page it asks for of that list, the first one if it asks for none,
  // and with at most fifty records if it sets no limit.
  lemma QueryAnswered(w: World, s: State, i: nat)
    requires Reachable(w, s) && i < |s.log| && s.log[i].call.GetFiltered?
    ensures var f, requests := s.log[i].call.filter, Replay(w, s.log[..i]).requests;
            var page := if f.page.Some? then f.page.value as nat else 0;
            var limit := if f.limit.Some? then f.limit.value as nat else 50;
            && page * limit >= 0
            && exists list :: IsFullAnswer(requests, s.log[i].draws.order, f, list) &&
                              s.log[i].response == FilteredAre(Slice(list, page * limit, limit))
  {
    Answered(w, s, i);
    var f, requests, order := s.log[i].call.filter, Replay(w, s.log[..i]).requests, s.log[i].draws.order;
    OrderedIsFull(requests, order, f);
    PageIsSlice(Ordered(requests, order, f), PageOf(f), LimitOf(f));
  }

  // There is no other such list.
  lemma FullAnswerIsOnly(requests: Requests, order: seq<Bytes>, f: Filter, list: seq<ProofRequest>)
    requires KeysOk(requests) && IsOrderOf(order, requests) && IsFullAnswer(requests, order, f, list)
    ensures list == Ordered(requests, order, f)
  {
    OrderedIsFull(requests, order, f);
    SameLists(requests, order, f, list, Ordered(requests, order, f), |list|);
    SameLists(requests, order, f, Ordered(requests, order, f), list, |Ordered(requests, order, f)|);
  }

  // `x` must stand before `y`.
  ghost predicate Precedes(order: seq<Bytes>, x: ProofRequest, y: ProofRequest) {
    x.createdAt < y.createdAt || (x.createdAt == y.createdAt && Before(order, x.requestId, y.requestId))
  }

  lemma {:induction false} SameLists(requests: Requests, order: seq<Bytes>, f: Filter,
                                     a: seq<ProofRequest>, b: seq<ProofRequest>, n: nat)
    requires IsOrderOf(order, requests) && n <= |a|
    requires IsFullAnswer(requests, order, f, a) && IsFullAnswer(requests, order, f, b)
    ensures n <= |b| && forall k :: 0 <= k < n ==> a[k] == b[k]
  {
    if n > 0 {
      SameLists(requests, order, f, a, b, n - 1);
      SameNext(requests, order, f, a, b, n - 1);
    }
  }

  lemma PlaceAfter(requests: Requests, order: seq<Bytes>, f: Filter, a: seq<ProofRequest>, b: seq<ProofRequest>, n: nat)
    returns (k: nat)
    requires IsFullAnswer(requests, order, f, a) && IsFullAnswer(requests, order, f, b)
    requires n < |a| && n <= |b| && forall k :: 0 <= k < n ==> a[k] == b[k]
    ensures n <= k < |b| && b[k] == a[n]
    ensures k == n || Precedes(order, b[n], a[n])
  {
    assert a[n] in a && a[n] in b;
    k :| 0 <= k < |b| && b[k] == a[n];
    assert forall j :: 0 <= j < n ==> a[j].requestId != a[n].requestId;
  }

  lemma SameNext(requests: Requests, order: seq<Bytes>, f: Filter, a: seq<ProofRequest>, b: seq<ProofRequest>, n: nat)
    requires IsOrderOf(order, requests)
    requires IsFullAnswer(requests, order, f, a) && IsFullAnswer(requests, order, f, b)
    requires n < |a| && n <= |b| && forall k :: 0 <= k < n ==> a[k] == b[k]
    ensures n < |b| && a[n] == b[n]
  {
    var k := PlaceAfter(requests, order, f, a, b, n);
    var m := PlaceAfter(requests, order, f, b, a, n);
    if k != n && m != n {
      NotBothBefore(order, a[n].requestId, b[n].requestId);
    }
  }

  lemma NotBothBefore(order: seq<Bytes>, a: Bytes, b: Bytes)
    requires forall i, j :: 0 <= i < j < |order| ==> order[i] != order[j]
    ensures !(Before(order, a, b) && Before(order, b, a))
  {
  }

  /* ----- the statuses on the wire ----- */

  // The numbers of the protocol: 2 assigned, 3 fulfilled, 4 unfulfillable; 1 unexecuted, 2 executed.
  lemma StatusesOnTheWire(w: World, s: State, id: Bytes)
    requires Reachable(w, s) && id in s.store.requests
    ensures Last(s.log, Creation(id)).Some?
    ensures var birth := Last(s.log, Creation(id)).value;
            var e, touch := s.store.requests[id], s.log[LastTouch(s.log, id, birth)];
            && e.request.fulfillmentStatus == e.status.fulfillmentStatus
            && e.request.fulfillmentStatus == (if About(touch, Fulfilment(id)) then 3
                                               else if About(touch, Failure(id)) then 4 else 2)
            && e.request.executionStatus == e.status.executionStatus
            && e.request.executionStatus == (if Since(s.log, Fulfilment(id), birth).Some? then 2 else 1)
  {
    PairsFollowHistory(w, s, id);
  }
}
