// What holds of the coordinator in every state any schedule can reach.
module Guarantees {
  import opened Types
  import opened Addressing
  import opened Signing
  import opened Query
  import opened Handlers
  import opened Machine
  import opened Histories
  import opened Linearizability
  import opened Lifecycle
  import opened Listings
  import opened PageWalk

  /* ----- the stored pairs ----- */

  // The two halves of a pair tell the same story.
  predicate TwinsAgree(id: Bytes, e: Entry) {
    && e.request.requestId == id
    && e.request.fulfillmentStatus == e.status.fulfillmentStatus
    && e.request.executionStatus == e.status.executionStatus
    && e.request.deadline == e.status.deadline
    && e.request.txHash == e.status.requestTxHash
  }

  // The four pairs of statuses.
  predicate StatusPair(fulfillment: int, execution: int) {
    || (fulfillment == ASSIGNED && execution == UNEXECUTED)
    || (fulfillment == FULFILLED && execution == EXECUTED)
    || (fulfillment == UNFULFILLABLE && execution == UNEXECUTED)
    || (fulfillment == UNFULFILLABLE && execution == EXECUTED)
  }

  // Executed exactly when the fulfilment's fields are there, all of them or none.
  predicate ExecutedShows(e: Entry) {
    var executed := e.request.executionStatus == EXECUTED;
    && (executed <==> e.status.proofUri.Some?)
    && (executed <==> e.status.proofPublicUri.Some?)
    && (executed <==> e.status.fulfillTxHash.Some?)
    && (executed <==> e.request.fulfilledAt.Some?)
  }

  // A request that is still Assigned is assigned to its requester and untouched since creation.
  predicate AssignedIsUntouched(e: Entry) {
    e.request.fulfillmentStatus == ASSIGNED ==>
      && e.request.fulfiller == Some(e.request.requester)
      && e.request.updatedAt == e.request.createdAt
      && e.request.error == 0
  }

  // Until it is executed, a request is with its requester.
  predicate UnexecutedIsOwn(e: Entry) {
    e.request.executionStatus == UNEXECUTED ==> e.request.fulfiller == Some(e.request.requester)
  }

  predicate NeverSettled(e: Entry) {
    e.request.settlementStatus == 0 && e.request.executeFailCause == 0
  }

  // Requester and fulfiller are addresses.
  predicate HasParties(e: Entry) {
    |e.request.requester| == 20 && e.request.fulfiller.Some? && |e.request.fulfiller.value| == 20
  }

  lemma SignerOfRequest(w: World, log: seq<Event>, i: nat)
    requires Faithful(w, log) && i < |log| && !log[i].response.Error?
    requires log[i].call.RequestProof? || log[i].call.FulfillProof?
    ensures |SignerOf(w, log[i])| == 20
  {
    assert Answers(w, Replay(w, log[..i]), log[i]);
  }

  lemma HistoryHasParties(w: World, log: seq<Event>, id: Bytes, e: Entry)
    requires Faithful(w, log) && EntryOfHistory(w, log, id, e)
    ensures HasParties(e)
  {
    var birth := Last(log, Creation(id)).value;
    SignerOfRequest(w, log, birth);
    var f := Since(log, Fulfilment(id), birth);
    if f.Some? {
      SignerOfRequest(w, log, f.value);
    }
  }

  lemma HistoryStatuses(w: World, log: seq<Event>, id: Bytes, e: Entry)
    requires EntryOfHistory(w, log, id, e)
    ensures StatusPair(e.request.fulfillmentStatus, e.request.executionStatus)
    ensures ExecutedShows(e) && AssignedIsUntouched(e) && UnexecutedIsOwn(e)
  {
    var birth := Last(log, Creation(id)).value;
    var f := Since(log, Fulfilment(id), birth);
    var x := Since(log, Failure(id), birth);
    assert f.Some? ==> !About(log[f.value], Failure(id));
    assert x.Some? ==> !About(log[x.value], Fulfilment(id));
  }

  // In every reachable state every stored pair is consistent.
  lemma PairsAreConsistent(w: World, s: State, id: Bytes)
    requires Reachable(w, s) && id in s.store.requests
    ensures var e := s.store.requests[id];
            && TwinsAgree(id, e)
            && StatusPair(e.request.fulfillmentStatus, e.request.executionStatus)
            && ExecutedShows(e)
            && AssignedIsUntouched(e)
            && UnexecutedIsOwn(e)
            && NeverSettled(e)
            && HasParties(e)
  {
    ReachableHistory(w, s);
    HistoryRefinement(w, s.log, id);
    HistoryStatuses(w, s.log, id, s.store.requests[id]);
    HistoryHasParties(w, s.log, id, s.store.requests[id]);
  }

  // In every reachable state every stored pair is the one its history determines.
  lemma PairsFollowHistory(w: World, s: State, id: Bytes)
    requires Reachable(w, s)
    ensures id in s.store.requests <==> Last(s.log, Creation(id)).Some?
    ensures id in s.store.requests ==> EntryOfHistory(w, s.log, id, s.store.requests[id])
  {
    ReachableHistory(w, s);
    HistoryRefinement(w, s.log, id);
  }

  lemma GetFinds(w: World, s: Store, url: string, d: Draws)
    requires Route(url).Some? && Key(Route(url).value) in s.storage
    ensures Perform(w, s, GetArtifact(url), d).response == Downloaded(s.storage[Key(Route(url).value)])
  {
  }

  // In every reachable state every recorded proof URI resolves to its uploaded proof ...
  lemma ProofsResolve(w: World, s: State, id: Bytes)
    requires Reachable(w, s) && id in s.store.requests && s.store.requests[id].status.proofUri.Some?
    ensures Replay(w, s.log) == s.store && exists f :: ProofIsFound(w, s.log, id, f)
  {
    ReachableHistory(w, s);
    PublishedProofResolves(w, s.log, id);
  }

  lemma ProofIsStored(w: World, s: State, id: Bytes)
    requires Reachable(w, s) && id in s.store.requests && s.store.requests[id].status.proofUri.Some?
    ensures var url := s.store.requests[id].status.proofUri.value;
            && Route(url).Some?
            && var put := Last(s.log, Put(Key(Route(url).value)));
            && put.Some? && Key(Route(url).value) in s.store.storage
            && s.store.storage[Key(Route(url).value)] == s.log[put.value].call.data
  {
    ReachableHistory(w, s);
    ProofsResolve(w, s, id);
    var f :| ProofIsFound(w, s.log, id, f);
    var url := s.store.requests[id].status.proofUri.value;
    var j :| UploadOf(s.log, j, f, url);
    StorageOfHistory(w, s.log, Key(Route(url).value));
  }

  lemma StatusShowsProof(w: World, s: State, id: Bytes, d: Draws)
    requires Reachable(w, s) && id in s.store.requests && s.store.requests[id].request.executionStatus == EXECUTED
    ensures var answer := Perform(w, s.store, GetStatus(id), d).response;
            && answer.StatusIs? && answer.status.proofUri.Some?
            && answer.status.proofUri == s.store.requests[id].status.proofUri == answer.status.proofPublicUri
  {
    PairsFollowHistory(w, s, id);
    PairsAreConsistent(w, s, id);
  }

  // ... and a client gets there through the answers alone: what the status handler answers as the
  // proof's URI is answered by a GET with the bytes last put under it.
  lemma ProofsDownload(w: World, s: State, id: Bytes, d: Draws)
    requires Reachable(w, s) && id in s.store.requests && s.store.requests[id].request.executionStatus == EXECUTED
    ensures var answer := Perform(w, s.store, GetStatus(id), d).response;
            && answer.StatusIs? && answer.status.proofUri.Some?
            && answer.status.proofPublicUri == answer.status.proofUri
            && var url := answer.status.proofUri.value;
            && Route(url).Some?
            && var put := Last(s.log, Put(Key(Route(url).value)));
            && put.Some?
            && Perform(w, s.store, GetArtifact(url), d).response == Downloaded(s.log[put.value].call.data)
  {
    StatusShowsProof(w, s, id, d);
    ProofIsStored(w, s, id);
    GetFinds(w, s.store, s.store.requests[id].status.proofUri.value, d);
  }

  // In every reachable state a record shows the program URI of its own commit point.
  lemma ProgramUrisAreSnapshots(w: World, s: State, id: Bytes)
    requires Reachable(w, s) && id in s.store.requests
    ensures Last(s.log, Creation(id)).Some?
    ensures var r := s.store.requests[id].request;
            r.programUri == r.programPublicUri == RegisteredUri(s.log[..Last(s.log, Creation(id)).value], r.vkHash)
  {
    ReachableHistory(w, s);
    ProgramSnapshot(w, s.log, id);
  }

  // The status and details handlers, asked at one moment, never contradict each other.
  lemma StatusAndDetailsAgree(w: World, s: State, id: Bytes, d: Draws)
    requires Reachable(w, s)
    ensures var status := Perform(w, s.store, GetStatus(id), d).response;
            var details := Perform(w, s.store, GetDetails(id), d).response;
            (status == Error(NotFound) <==> details == Error(NotFound)) &&
            (status.StatusIs? <==> details.DetailsAre?) &&
            (status.StatusIs? ==> TwinsAgree(id, Entry(details.request, status.status)))
  {
    if id in s.store.requests {
      PairsAreConsistent(w, s, id);
    }
  }

  /* ----- polling ----- */

  lemma {:induction false} NothingChosen(requests: Requests, order: seq<Bytes>, f: Filter)
    requires forall id :: id in requests ==> !Passes(f, requests[id].request)
    ensures Chosen(requests, order, f) == []
  {
    if order != [] {
      NothingChosen(requests, order[..|order| - 1], f);
    }
  }

  // Each criterion asks for a value that some handler writes.
  predicate AsksWhatIsWritten(f: Filter) {
    && (f.minimumDeadline.None? || f.minimumDeadline.value < 0xFFFF_FFFF_FFFF_FFFF)
    && (f.requester.None? || f.requester.value == [] || |f.requester.value| == 20)
    && (f.fulfiller.None? || |f.fulfiller.value| == 20)
    && (f.settlementStatus.None? || f.settlementStatus.value == 0)
    && (f.executeFailCause.None? || f.executeFailCause.value == 0)
  }

  predicate AsksStatuses(f: Filter, fulfillment: int, execution: int) {
    && (f.fulfillmentStatus.None? || f.fulfillmentStatus.value == fulfillment)
    && (f.executionStatus.None? || f.executionStatus.value == execution)
  }

  // A requester and a fulfiller that may be the same.
  predicate AsksOneParty(f: Filter) {
    f.fulfiller.None? || f.requester.None? || f.requester.value == [] || f.requester == f.fulfiller
  }

  // What a filter must ask for to match anything in any run: values that are written, and a pair
  // of statuses that occurs together with the rest. Before its fulfilment a request is with its
  // requester, and before its first failure it has no error.
  predicate CanMatch(f: Filter) {
    && AsksWhatIsWritten(f)
    && (|| (AsksStatuses(f, ASSIGNED, UNEXECUTED) && AsksOneParty(f) && (f.error.None? || f.error.value == 0))
        || (AsksStatuses(f, UNFULFILLABLE, UNEXECUTED) && AsksOneParty(f))
        || AsksStatuses(f, FULFILLED, EXECUTED)
        || AsksStatuses(f, UNFULFILLABLE, EXECUTED))
  }

  lemma MatchIsPossible(e: Entry, f: Filter)
    requires NeverSettled(e) && HasParties(e) && AssignedIsUntouched(e) && UnexecutedIsOwn(e)
    requires StatusPair(e.request.fulfillmentStatus, e.request.executionStatus)
    requires Passes(f, e.request)
    ensures CanMatch(f)
  {
  }

  // A poll for anything else matches nothing, and so is answered with an empty page, in every
  // reachable state ...
  lemma ImpossiblePollsAreEmpty(w: World, s: State, order: seq<Bytes>, f: Filter)
    requires Reachable(w, s) && !CanMatch(f)
    ensures Ordered(s.store.requests, order, f) == [] && Answer(s.store.requests, order, f) == []
  {
    forall id | id in s.store.requests
      ensures !Passes(f, s.store.requests[id].request)
    {
      PairsAreConsistent(w, s, id);
      if Passes(f, s.store.requests[id].request) {
        MatchIsPossible(s.store.requests[id], f);
      }
    }
    NothingChosen(s.store.requests, order, f);
  }

  // 3 is Unexecutable in the protocol.
  function UnexecutablePoll(prover: Bytes): Filter {
    NO_FILTER.(executionStatus := Some(3), fulfiller := Some(prover))
  }

  // ... and the prover's poll for Unexecutable requests is one of them.
  lemma UnexecutablePollIsEmpty(w: World, s: State, order: seq<Bytes>, prover: Bytes)
    requires Reachable(w, s)
    ensures Answer(s.store.requests, order, UnexecutablePoll(prover)) == []
  {
    ImpossiblePollsAreEmpty(w, s, order, UnexecutablePoll(prover));
  }

  // The prover's poll for work.
  function WorkPoll(prover: Bytes): Filter {
    NO_FILTER.(fulfillmentStatus := Some(ASSIGNED), fulfiller := Some(prover))
  }

  ghost predicate ShowsAt(list: seq<ProofRequest>, limit: nat, id: Bytes, p: Place) {
    p.index < |Page(list, p.page, limit)| && Page(list, p.page, limit)[p.index].requestId == id
  }

  lemma ShownOnce(list: seq<ProofRequest>, limit: nat, id: Bytes, i: nat)
    requires limit > 0 && i < |list| && list[i].requestId == id && DistinctIds(list)
    ensures exists p :: ShowsAt(list, limit, id, p)
    ensures forall p, q :: ShowsAt(list, limit, id, p) && ShowsAt(list, limit, id, q) ==> p == q
  {
    OnePlacePerElement(list, limit, i);
    var p :| IsAt(list, limit, i, p) && Page(list, p.page, limit)[p.index] == list[i];
    assert ShowsAt(list, limit, id, p);
    forall p, q | ShowsAt(list, limit, id, p) && ShowsAt(list, limit, id, q)
      ensures p == q
    {
      PageLength(list, p.page, limit);
      PageLength(list, q.page, limit);
      assert IsAt(list, limit, i, p) && IsAt(list, limit, i, q);
    }
  }

  // A poll's answer shows a request.
  ghost predicate Shows(
    requests: Requests, order: seq<Bytes>, f: Filter, limit: u32, id: Bytes, page: u32, index: nat) {
    var answer := Answer(requests, order, f.(page := Some(page), limit := Some(limit)));
    index < |answer| && answer[index].requestId == id
  }

  lemma ShowsIsAt(requests: Requests, order: seq<Bytes>, f: Filter, limit: u32, id: Bytes, page: u32, index: nat)
    ensures Shows(requests, order, f, limit, id, page, index) <==>
            ShowsAt(Ordered(requests, order, f), limit as nat, id, Place(page as nat, index))
  {
    PagingFieldsIgnored(requests, order, f, page, limit);
  }

  const PAGES: nat := 0x1_0000_0000

  lemma PageInRange(page: nat, index: nat, limit: nat, i: nat)
    requires index < limit && page * limit + index == i
    ensures page < PAGES <==> i < PAGES * limit
  {
    MulStep(page, limit);
    if page < PAGES {
      MulMonotone(page + 1, PAGES, limit);
    } else {
      MulMonotone(PAGES, page, limit);
    }
  }

  // The request at place `i` of the list is on one page of the poll, once, if a page number has
  // room for that page, and on none otherwise.
  ghost predicate IsShownOnce(requests: Requests, order: seq<Bytes>, f: Filter, limit: u32, id: Bytes, i: nat) {
    && ((exists page, index :: Shows(requests, order, f, limit, id, page, index)) <==> i < PAGES * limit as nat)
    && (forall p, m, q, n ::
          Shows(requests, order, f, limit, id, p, m) && Shows(requests, order, f, limit, id, q, n) ==> p == q && m == n)
  }

  lemma PolledOnce(requests: Requests, order: seq<Bytes>, f: Filter, limit: u32, id: Bytes, i: nat)
    requires limit > 0 && i < |Ordered(requests, order, f)| && DistinctIds(Ordered(requests, order, f))
    requires Ordered(requests, order, f)[i].requestId == id
    ensures IsShownOnce(requests, order, f, limit, id, i)
  {
    var list, n := Ordered(requests, order, f), limit as nat;
    ShownOnce(list, n, id, i);
    var p :| ShowsAt(list, n, id, p);
    PlaceOfShown(list, n, id, i, p);
    PageInRange(p.page, p.index, n, i);
    if p.page < PAGES {
      ShowsIsAt(requests, order, f, limit, id, p.page as u32, p.index);
    }
    forall page, index | Shows(requests, order, f, limit, id, page, index)
      ensures Place(page as nat, index) == p
    {
      ShowsIsAt(requests, order, f, limit, id, page, index);
    }
  }

  lemma PlaceOfShown(list: seq<ProofRequest>, limit: nat, id: Bytes, i: nat, p: Place)
    requires i < |list| && list[i].requestId == id && DistinctIds(list) && ShowsAt(list, limit, id, p)
    ensures p.index < limit && p.page * limit + p.index == i
  {
    PageLength(list, p.page, limit);
  }

  // Assigned work is always discoverable: for any page size, the poll of the prover it is
  // assigned to shows it at exactly one place of exactly one page, unless more matches are listed
  // before it than all the pages hold.
  lemma AssignedIsDiscoverable(w: World, s: State, id: Bytes, order: seq<Bytes>, limit: u32)
    requires Reachable(w, s) && IsOrderOf(order, s.store.requests) && limit > 0
    requires id in s.store.requests && s.store.requests[id].request.fulfillmentStatus == ASSIGNED
    ensures var f := WorkPoll(s.store.requests[id].request.requester);
            exists i :: 0 <= i < |Ordered(s.store.requests, order, f)|
                        && Ordered(s.store.requests, order, f)[i] == s.store.requests[id].request
                        && IsShownOnce(s.store.requests, order, f, limit, id, i)
  {
    ReachableHistory(w, s);
    var requests := s.store.requests;
    var f := WorkPoll(requests[id].request.requester);
    PairsAreConsistent(w, s, id);
    KeysAreOk(w, s.log);
    OrderedLists(requests, order, f);
    assert Matches(requests, f, id);
    var i :| 0 <= i < |Ordered(requests, order, f)| && Ordered(requests, order, f)[i] == requests[id].request;
    PolledOnce(requests, order, f, limit, id, i);
  }

  /* ----- the query as a whole ----- */

  // In every reachable state the ordered answer is the stable sort, by creation time, of the
  // matching records in iteration order; every match is in it exactly once and nothing else is.
  lemma QueryIsExact(w: World, s: State, order: seq<Bytes>, f: Filter)
    requires Reachable(w, s) && IsOrderOf(order, s.store.requests)
    ensures var list := Ordered(s.store.requests, order, f);
            && StablySorts(list, Chosen(s.store.requests, order, f))
            && Lists(s.store.requests, f, list)
            && |Answer(s.store.requests, order, f)| ==
                 (var left := |list| - PageOf(f) * LimitOf(f);
                  if left <= 0 then 0 else if left < LimitOf(f) then left else LimitOf(f))
  {
    ReachableHistory(w, s);
    KeysAreOk(w, s.log);
    OrderedLists(s.store.requests, order, f);
    StableSortSorts(Chosen(s.store.requests, order, f));
    PageLength(Ordered(s.store.requests, order, f), PageOf(f), LimitOf(f));
  }

  // And so of every query a run has answered: its answer is the page it asked for of the list of
  // exactly the matches in the map of that moment, oldest first.
  lemma AnsweredQueriesAreExact(w: World, s: State, i: nat)
    requires Reachable(w, s) && i < |s.log| && s.log[i].call.GetFiltered?
    ensures var f, requests := s.log[i].call.filter, Replay(w, s.log[..i]).requests;
            exists list :: Lists(requests, f, list) && Sorted(list) &&
                           s.log[i].response == FilteredAre(Page(list, PageOf(f), LimitOf(f)))
  {
    ReachableHistory(w, s);
    assert Answers(w, Replay(w, s.log[..i]), s.log[i]);
    FaithfulTake(w, s.log, i);
    KeysAreOk(w, s.log[..i]);
    OrderedLists(Replay(w, s.log[..i]).requests, s.log[i].draws.order, s.log[i].call.filter);
  }

  // What a list starts with in every iteration order, in every reachable state.
  lemma ListStartIsExact(w: World, s: State, f: Filter, read: seq<Bytes>)
    requires Reachable(w, s)
    ensures (forall order :: IsOrderOf(order, s.store.requests) ==> read <= Ids(Ordered(s.store.requests, order, f)))
            <==> ComesFirst(read, TimelineOf(s.store.requests, f))
  {
    ReachableHistory(w, s);
    KeysAreOk(w, s.log);
    StartsInEveryOrder(s.store.requests, f, read);
  }

  /* ----- page walks ----- */

  // A prover walking the pages of any filter, on the log of any run: when the pages join to the
  // start of the list, and when a match is missed.
  lemma WalksAreExact(w: World, s: State, f: Filter, limit: u32, at: seq<nat>)
    requires Reachable(w, s) && at != [] && IsWalk(s.log, f, limit, at)
    requires DistinctTimes(TimelineAt(w, s.log, f, at[|at| - 1]))
    ensures HasExactOutcome(w, s.log, f, at)
  {
    ReachableHistory(w, s);
    WalkIsExact(w, s.log, f, limit, at);
  }

  // What a right walk gives: no request twice, and once a page is short the whole list, with
  // every match there was at the start.
  ghost predicate IsRightWalk(w: World, log: seq<Event>, f: Filter, limit: u32, at: seq<nat>)
    requires at != [] && forall k :: 0 <= k < |at| ==> at[k] < |log|
  {
    var list := FullList(w, log, f, at[|at| - 1]);
    && Collected(log, at) <= list
    && NoRepeats(Collected(log, at))
    && (|PageRead(log[at[|at| - 1]])| < limit as nat ==>
          Collected(log, at) == list &&
          forall id :: Matches(Replay(w, log[..at[0]]).requests, f, id) ==> id in Collected(log, at))
  }

  lemma RightIfPrefix(w: World, log: seq<Event>, f: Filter, limit: u32, at: seq<nat>)
    requires FreshWalk(w, log, f, limit, at)
    requires Collected(log, at) <= FullList(w, log, f, at[|at| - 1])
    ensures IsRightWalk(w, log, f, limit, at)
  {
    RightWalkHasNoRepeats(w, log, f, limit, at);
    if |PageRead(log[at[|at| - 1]])| < limit as nat {
      ShortWalkEnds(w, log, f, limit, at);
      forall id | Matches(Replay(w, log[..at[0]]).requests, f, id)
        ensures id in Collected(log, at)
      {
        RightWalkIsComplete(w, log, f, limit, at, id);
      }
    }
  }

  // A prover walking the pages of a filter on fixed fields, on the log of any run with new
  // identifiers and distinct times: the walk is right exactly if every match created meanwhile
  // was newer than what the walk had read by then.
  lemma WalksAreStable(w: World, s: State, f: Filter, limit: u32, at: seq<nat>)
    requires Reachable(w, s) && at != [] && IsWalk(s.log, f, limit, at) && AsksFixedFields(f)
    requires FreshThroughout(w, s.log, at[0], at[|at| - 1])
    requires DistinctTimes(TimelineAt(w, s.log, f, at[|at| - 1]))
    ensures IsRightWalk(w, s.log, f, limit, at) <==> NewerThanRead(w, s.log, f, at)
  {
    ReachableHistory(w, s);
    PageWalkIsStable(w, s.log, f, limit, at);
    if NewerThanRead(w, s.log, f, at) {
      RightIfPrefix(w, s.log, f, limit, at);
    }
  }

  // So it is right if the times were distinct at its start and every creation was newer, at its
  // commit, than the matches of that moment.
  lemma WalksOfNewerAreStable(w: World, s: State, f: Filter, limit: u32, at: seq<nat>)
    requires Reachable(w, s) && at != [] && IsWalk(s.log, f, limit, at) && AsksFixedFields(f)
    requires FreshThroughout(w, s.log, at[0], at[|at| - 1])
    requires DistinctTimes(TimelineAt(w, s.log, f, at[0]))
    requires NewerThroughout(w, s.log, f, at[0], at[|at| - 1])
    ensures IsRightWalk(w, s.log, f, limit, at)
  {
    ReachableHistory(w, s);
    NewerIsEnough(w, s.log, f, limit, at);
    WalksAreStable(w, s, f, limit, at);
  }

  /* ----- ownership ----- */

  lemma ClientIsSigner(w: World, wallet: Wallet, body: SignedBody, signature: Bytes)
    requires RecoversAfterSigning(w, wallet) && ClientSigned(w, wallet, body, signature)
    ensures Recovered(w, body, signature) == wallet.address
  {
    SignerIsClient(w, wallet, BINARY, body, signature);
  }

  // As long as the last registration of a key is one that a client signed, the program belongs
  // to that client, whatever format the message claimed.
  lemma ClientOwnsProgram(w: World, s: State, wallet: Wallet, vk: Bytes)
    requires Reachable(w, s) && RecoversAfterSigning(w, wallet) && Last(s.log, Registration(vk)).Some?
    requires var m := s.log[Last(s.log, Registration(vk)).value].call.registration;
             ClientSigned(w, wallet, ProgramBody(m.body.value), m.signature)
    ensures vk in s.store.programs && s.store.programs[vk].owner == wallet.address
    ensures IsRegistered(w, s.log[Last(s.log, Registration(vk)).value], s.store.programs[vk])
  {
    ReachableHistory(w, s);
    ProgramsOfHistory(w, s.log, vk);
    var m := s.log[Last(s.log, Registration(vk)).value].call.registration;
    ClientIsSigner(w, wallet, ProgramBody(m.body.value), m.signature);
  }

  // Likewise a proof requested with a client's signature is that client's for good, and assigned
  // to it until somebody fulfils or fails it.
  lemma ClientOwnsRequest(w: World, s: State, wallet: Wallet, id: Bytes)
    requires Reachable(w, s) && RecoversAfterSigning(w, wallet) && Last(s.log, Creation(id)).Some?
    requires var m := s.log[Last(s.log, Creation(id)).value].call.proof;
             ClientSigned(w, wallet, ProofBody(m.body.value), m.signature)
    ensures id in s.store.requests
    ensures var r := s.store.requests[id].request;
            r.requester == wallet.address && (r.fulfillmentStatus == ASSIGNED ==> r.fulfiller == Some(wallet.address))
  {
    PairsFollowHistory(w, s, id);
    PairsAreConsistent(w, s, id);
    var m := s.log[Last(s.log, Creation(id)).value].call.proof;
    ClientIsSigner(w, wallet, ProofBody(m.body.value), m.signature);
  }

  // And a request is recorded as fulfilled by the prover whose wallet signed the last fulfilment.
  lemma ClientIsFulfiller(w: World, s: State, wallet: Wallet, id: Bytes)
    requires Reachable(w, s) && RecoversAfterSigning(w, wallet) && Last(s.log, Creation(id)).Some?
    requires Since(s.log, Fulfilment(id), Last(s.log, Creation(id)).value).Some?
    requires var m := s.log[Since(s.log, Fulfilment(id), Last(s.log, Creation(id)).value).value].call.fulfillment;
             ClientSigned(w, wallet, FulfillmentBody(m.body.value), m.signature)
    ensures id in s.store.requests && s.store.requests[id].request.fulfiller == Some(wallet.address)
  {
    PairsFollowHistory(w, s, id);
    var m := s.log[Since(s.log, Fulfilment(id), Last(s.log, Creation(id)).value).value].call.fulfillment;
    ClientIsSigner(w, wallet, FulfillmentBody(m.body.value), m.signature);
  }
}
