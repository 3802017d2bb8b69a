// What a history says about each stored record, program and artifact, field by field.
module Lifecycle {
  import opened Types
  import opened Addressing
  import opened Signing
  import opened Handlers
  import opened Machine
  import opened Histories

  /* ----- the events that matter ----- */

  // What a successful event is about.
  datatype Topic =
    | Creation(id: Bytes)
    | Fulfilment(id: Bytes)
    | Failure(id: Bytes)
    | Registration(vkHash: Bytes)
    | Put(key: string)

  predicate About(e: Event, topic: Topic) {
    !e.response.Error? &&
    match topic
    case Creation(id) => e.call.RequestProof? && e.call.proof.body.Some? && e.draws.id == id
    case Fulfilment(id) =>
      e.call.FulfillProof? && e.call.fulfillment.body.Some? && e.call.fulfillment.body.value.requestId == id
    case Failure(id) => e.call.FailFulfillment? && e.call.failure.Some? && e.call.failure.value.requestId == id
    case Registration(vk) =>
      e.call.CreateProgram? && e.call.registration.body.Some? && e.call.registration.body.value.vkHash == vk
    case Put(key) => e.call.PutArtifact? && Route(e.call.url).Some? && Key(Route(e.call.url).value) == key
  }

  // The last event about a topic.
  function Last(log: seq<Event>, topic: Topic): (i: Option<nat>)
    ensures i.Some? ==> i.value < |log| && About(log[i.value], topic)
  {
    if log == [] then None
    else if About(log[|log| - 1], topic) then Some(|log| - 1)
    else Last(log[..|log| - 1], topic)
  }

  lemma LastStep(log: seq<Event>, topic: Topic)
    requires log != []
    ensures Last(log, topic) ==
            if About(log[|log| - 1], topic) then Some(|log| - 1) else Last(log[..|log| - 1], topic)
  {
  }

  lemma {:induction false} NothingAfterLast(log: seq<Event>, topic: Topic, j: nat)
    requires j < |log| && About(log[j], topic)
    ensures Last(log, topic).Some? && j <= Last(log, topic).value
  {
    LastStep(log, topic);
    if j < |log| - 1 {
      NothingAfterLast(log[..|log| - 1], topic, j);
    }
  }

  // The last event about a topic, if it came after position `birth`.
  function Since(log: seq<Event>, topic: Topic, birth: nat): (i: Option<nat>)
    ensures i.Some? ==> birth < i.value < |log| && About(log[i.value], topic)
  {
    var i := Last(log, topic);
    if i.Some? && i.value > birth then i else None
  }

  lemma SinceStep(log: seq<Event>, topic: Topic, birth: nat)
    requires birth < |log| - 1
    ensures Since(log, topic, birth) ==
            if About(log[|log| - 1], topic) then Some(|log| - 1) else Since(log[..|log| - 1], topic, birth)
  {
  }

  function At(log: seq<Event>, i: Option<nat>): Option<Event>
    requires i.Some? ==> i.value < |log|
  {
    if i.Some? then Some(log[i.value]) else None
  }

  // The last event about a topic since birth, after one event more.
  lemma AtStep(log: seq<Event>, topic: Topic, birth: nat)
    requires birth < |log| - 1
    ensures var front, e := log[..|log| - 1], log[|log| - 1];
            At(log, Since(log, topic, birth)) ==
            if About(e, topic) then Some(e) else At(front, Since(front, topic, birth))
  {
    SinceStep(log, topic, birth);
  }

  // A record is as old as its last creation: either the last event, or that of the log before it.
  lemma BirthStep(log: seq<Event>, id: Bytes)
    requires log != []
    ensures About(log[|log| - 1], Creation(id)) ==> Last(log, Creation(id)) == Some(|log| - 1)
    ensures !About(log[|log| - 1], Creation(id)) ==> Last(log, Creation(id)) == Last(log[..|log| - 1], Creation(id))
  {
  }

  lemma NothingSinceNow(log: seq<Event>, topic: Topic)
    requires log != []
    ensures Since(log, topic, |log| - 1) == None
  {
  }

  // The address that a signed call's own body and signature name.
  function SignerOf(w: World, e: Event): Bytes {
    match e.call
    case RequestProof(m) => if m.body.Some? then Recovered(w, ProofBody(m.body.value), m.signature) else []
    case FulfillProof(m) => if m.body.Some? then Recovered(w, FulfillmentBody(m.body.value), m.signature) else []
    case CreateProgram(m) => if m.body.Some? then Recovered(w, ProgramBody(m.body.value), m.signature) else []
    case _ => []
  }

  /* ----- one event ----- */

  lemma FaithfulFront(w: World, log: seq<Event>)
    requires Faithful(w, log) && log != []
    ensures Faithful(w, log[..|log| - 1])
    ensures Answers(w, Replay(w, log[..|log| - 1]), log[|log| - 1])
  {
    var front := log[..|log| - 1];
    forall i | 0 <= i < |front|
      ensures Answers(w, Replay(w, front[..i]), front[i])
    {
      assert front[..i] == log[..i] && front[i] == log[i];
    }
  }

  // How the record of one identifier changes with an event.
  ghost predicate EntryChanges(w: World, before: Store, e: Event, after: Store, id: Bytes) {
    if About(e, Creation(id)) then
      id in after.requests &&
      after.requests[id] == NewEntry(e.call.proof.body.value, SignerOf(w, e), before.programs, e.draws)
    else if About(e, Fulfilment(id)) then
      id in before.requests && id in after.requests &&
      after.requests[id] == MarkFulfilled(before.requests[id], SignerOf(w, e), e.draws)
    else if About(e, Failure(id)) then
      id in before.requests && id in after.requests &&
      after.requests[id] == MarkFailed(before.requests[id], e.call.failure.value.error, e.draws)
    else
      (id in after.requests <==> id in before.requests) &&
      (id in before.requests ==> after.requests[id] == before.requests[id])
  }

  lemma EntryChange(w: World, before: Store, e: Event, id: Bytes)
    requires Answers(w, before, e)
    ensures EntryChanges(w, before, e, Perform(w, before, e.call, e.draws).store, id)
  {
  }

  lemma EntryStep(w: World, log: seq<Event>, id: Bytes)
    requires Faithful(w, log) && log != []
    ensures EntryChanges(w, Replay(w, log[..|log| - 1]), log[|log| - 1], Replay(w, log), id)
  {
    FaithfulFront(w, log);
    EntryChange(w, Replay(w, log[..|log| - 1]), log[|log| - 1], id);
  }

  lemma {:induction false} ExistsIffCreated(w: World, log: seq<Event>, id: Bytes)
    requires Faithful(w, log)
    ensures id in Replay(w, log).requests <==> Last(log, Creation(id)).Some?
  {
    if log != [] {
      EntryStep(w, log, id);
      FaithfulFront(w, log);
      ExistsIffCreated(w, log[..|log| - 1], id);
    }
  }

  /* ----- the fields set at creation ----- */

  ghost predicate KeepsCreation(w: World, log: seq<Event>, birth: nat, id: Bytes, e: Entry)
    requires birth < |log| && About(log[birth], Creation(id))
  {
    var b := log[birth].call.proof.body.value;
    var d := log[birth].draws;
    var r := e.request;
    && r.requestId == id
    && r.vkHash == b.vkHash
    && r.version == b.version
    && r.mode == b.mode
    && r.strategy == b.strategy
    && r.stdinUri == b.stdinUri
    && r.stdinPublicUri == b.stdinUri
    && r.deadline == b.deadline
    && r.cycleLimit == b.cycleLimit
    && r.gasLimit == b.gasLimit
    && r.minAuctionPeriod == b.minAuctionPeriod
    && r.whitelist == b.whitelist
    && r.publicValuesHash == b.publicValuesHash
    && r.requester == SignerOf(w, log[birth])
    && r.createdAt == d.now
    && r.txHash == d.txHash
    && r.executeFailCause == 0
    && r.settlementStatus == 0
    && r.programUri == ProgramUriFor(Replay(w, log[..birth]).programs, b.vkHash)
    && r.programPublicUri == r.programUri
    && e.status.requestTxHash == d.txHash
    && e.status.deadline == b.deadline
    && e.status.publicValuesHash == None
  }

  lemma {:induction false} CreationIsKept(w: World, log: seq<Event>, id: Bytes)
    requires Faithful(w, log) && id in Replay(w, log).requests
    ensures Last(log, Creation(id)).Some?
    ensures KeepsCreation(w, log, Last(log, Creation(id)).value, id, Replay(w, log).requests[id])
  {
    ExistsIffCreated(w, log, id);
    EntryStep(w, log, id);
    FaithfulFront(w, log);
    var front := log[..|log| - 1];
    if !About(log[|log| - 1], Creation(id)) {
      CreationIsKept(w, front, id);
      var birth := Last(log, Creation(id)).value;
      assert front[..birth] == log[..birth] && front[birth] == log[birth];
    }
  }

  /* ----- the fields of the last fulfilment ----- */

  ghost predicate ShowsFulfilment(w: World, last: Option<Event>, e: Entry) {
    match last
    case None =>
      && e.request.fulfiller == Some(e.request.requester)
      && e.request.fulfilledAt == None
      && e.request.executionStatus == e.status.executionStatus == UNEXECUTED
      && e.status.fulfillTxHash == None
      && e.status.proofUri == e.status.proofPublicUri == None
    case Some(f) =>
      && e.request.fulfiller == Some(SignerOf(w, f))
      && e.request.fulfilledAt == Some(f.draws.now)
      && e.request.executionStatus == e.status.executionStatus == EXECUTED
      && e.status.fulfillTxHash == Some(f.draws.txHash)
      && e.status.proofUri == e.status.proofPublicUri == Some(ProofUrl(f.draws.nonce))
  }

  lemma FulfilmentAfter(w: World, before: Store, e: Event, after: Store, id: Bytes, last: Option<Event>)
    requires EntryChanges(w, before, e, after, id) && id in after.requests
    requires !About(e, Creation(id)) && id in before.requests ==> ShowsFulfilment(w, last, before.requests[id])
    ensures var now := if About(e, Creation(id)) then None else if About(e, Fulfilment(id)) then Some(e) else last;
            ShowsFulfilment(w, now, after.requests[id])
  {
  }

  ghost predicate FulfilmentShown(w: World, log: seq<Event>, id: Bytes) {
    && id in Replay(w, log).requests
    && var birth := Last(log, Creation(id));
    && birth.Some?
    && ShowsFulfilment(w, At(log, Since(log, Fulfilment(id), birth.value)), Replay(w, log).requests[id])
  }

  lemma FulfilmentAtBirth(w: World, log: seq<Event>, id: Bytes)
    requires Faithful(w, log) && log != [] && About(log[|log| - 1], Creation(id))
    ensures FulfilmentShown(w, log, id)
  {
    var front := log[..|log| - 1];
    EntryStep(w, log, id);
    BirthStep(log, id);
    NothingSinceNow(log, Fulfilment(id));
    FulfilmentAfter(w, Replay(w, front), log[|log| - 1], Replay(w, log), id, None);
  }

  lemma FulfilmentGoesOn(w: World, log: seq<Event>, id: Bytes)
    requires Faithful(w, log) && log != [] && !About(log[|log| - 1], Creation(id))
    requires FulfilmentShown(w, log[..|log| - 1], id)
    ensures FulfilmentShown(w, log, id)
  {
    var front := log[..|log| - 1];
    EntryStep(w, log, id);
    BirthStep(log, id);
    var birth := Last(front, Creation(id)).value;
    AtStep(log, Fulfilment(id), birth);
    var last := At(front, Since(front, Fulfilment(id), birth));
    FulfilmentAfter(w, Replay(w, front), log[|log| - 1], Replay(w, log), id, last);
  }

  lemma {:induction false} FulfilmentIsShown(w: World, log: seq<Event>, id: Bytes)
    requires Faithful(w, log) && id in Replay(w, log).requests
    ensures FulfilmentShown(w, log, id)
  {
    ExistsIffCreated(w, log, id);
    if About(log[|log| - 1], Creation(id)) {
      FulfilmentAtBirth(w, log, id);
    } else {
      FaithfulFront(w, log);
      EntryStep(w, log, id);
      FulfilmentIsShown(w, log[..|log| - 1], id);
      FulfilmentGoesOn(w, log, id);
    }
  }

  /* ----- the field of the last failure ----- */

  ghost predicate ShowsFailure(id: Bytes, last: Option<Event>, e: Entry)
    requires last.Some? ==> About(last.value, Failure(id))
  {
    match last
    case None => e.request.error == 0
    case Some(x) =>
      var error := x.call.failure.value.error;
      e.request.error == if error.Some? then error.value else 0
  }

  lemma FailureAfter(w: World, before: Store, e: Event, after: Store, id: Bytes, last: Option<Event>)
    requires EntryChanges(w, before, e, after, id) && id in after.requests
    requires last.Some? ==> About(last.value, Failure(id))
    requires !About(e, Creation(id)) && id in before.requests ==> ShowsFailure(id, last, before.requests[id])
    ensures ShowsFailure(id, if About(e, Creation(id)) then None else if About(e, Failure(id)) then Some(e) else last,
                         after.requests[id])
  {
  }

  ghost predicate FailureShown(w: World, log: seq<Event>, id: Bytes) {
    && id in Replay(w, log).requests
    && var birth := Last(log, Creation(id));
    && birth.Some?
    && ShowsFailure(id, At(log, Since(log, Failure(id), birth.value)), Replay(w, log).requests[id])
  }

  lemma FailureAtBirth(w: World, log: seq<Event>, id: Bytes)
    requires Faithful(w, log) && log != [] && About(log[|log| - 1], Creation(id))
    ensures FailureShown(w, log, id)
  {
    var front := log[..|log| - 1];
    EntryStep(w, log, id);
    BirthStep(log, id);
    NothingSinceNow(log, Failure(id));
    FailureAfter(w, Replay(w, front), log[|log| - 1], Replay(w, log), id, None);
  }

  lemma FailureGoesOn(w: World, log: seq<Event>, id: Bytes)
    requires Faithful(w, log) && log != [] && !About(log[|log| - 1], Creation(id))
    requires FailureShown(w, log[..|log| - 1], id)
    ensures FailureShown(w, log, id)
  {
    var front := log[..|log| - 1];
    EntryStep(w, log, id);
    BirthStep(log, id);
    var birth := Last(front, Creation(id)).value;
    AtStep(log, Failure(id), birth);
    var last := At(front, Since(front, Failure(id), birth));
    FailureAfter(w, Replay(w, front), log[|log| - 1], Replay(w, log), id, last);
  }

  lemma {:induction false} FailureIsShown(w: World, log: seq<Event>, id: Bytes)
    requires Faithful(w, log) && id in Replay(w, log).requests
    ensures FailureShown(w, log, id)
  {
    ExistsIffCreated(w, log, id);
    if About(log[|log| - 1], Creation(id)) {
      FailureAtBirth(w, log, id);
    } else {
      FaithfulFront(w, log);
      EntryStep(w, log, id);
      FailureIsShown(w, log[..|log| - 1], id);
      FailureGoesOn(w, log, id);
    }
  }

  /* ----- the fields of the last event of any kind ----- */

  // The later of the last fulfilment and the last failure since creation, or else the creation.
  function LastTouch(log: seq<Event>, id: Bytes, birth: nat): (i: nat)
    requires birth < |log| && About(log[birth], Creation(id))
    ensures birth <= i < |log|
    ensures i == birth || About(log[i], Fulfilment(id)) || About(log[i], Failure(id))
  {
    var f := Since(log, Fulfilment(id), birth);
    var x := Since(log, Failure(id), birth);
    if f.None? && x.None? then birth
    else if f.None? then x.value
    else if x.None? || x.value < f.value then f.value
    else x.value
  }

  ghost predicate ShowsLastTouch(id: Bytes, last: Event, e: Entry) {
    && e.request.updatedAt == last.draws.now
    && e.request.fulfillmentStatus == e.status.fulfillmentStatus
    && e.request.fulfillmentStatus ==
         if About(last, Fulfilment(id)) then FULFILLED
         else if About(last, Failure(id)) then UNFULFILLABLE
         else ASSIGNED
  }

  predicate Touches(e: Event, id: Bytes) {
    About(e, Creation(id)) || About(e, Fulfilment(id)) || About(e, Failure(id))
  }

  lemma LastTouchNow(log: seq<Event>, id: Bytes)
    requires log != [] && Touches(log[|log| - 1], id) && Last(log, Creation(id)).Some?
    ensures LastTouch(log, id, Last(log, Creation(id)).value) == |log| - 1
  {
    var birth := Last(log, Creation(id)).value;
    if birth < |log| - 1 {
      SinceStep(log, Fulfilment(id), birth);
      SinceStep(log, Failure(id), birth);
    }
  }

  lemma LastTouchBefore(log: seq<Event>, id: Bytes)
    requires log != [] && !Touches(log[|log| - 1], id) && Last(log, Creation(id)).Some?
    ensures var front := log[..|log| - 1];
            Last(front, Creation(id)) == Last(log, Creation(id)) &&
            LastTouch(log, id, Last(log, Creation(id)).value) == LastTouch(front, id, Last(log, Creation(id)).value)
  {
    var birth := Last(log, Creation(id)).value;
    SinceStep(log, Fulfilment(id), birth);
    SinceStep(log, Failure(id), birth);
  }

  ghost predicate LastTouchShown(w: World, log: seq<Event>, id: Bytes) {
    && id in Replay(w, log).requests
    && var birth := Last(log, Creation(id));
    && birth.Some?
    && ShowsLastTouch(id, log[LastTouch(log, id, birth.value)], Replay(w, log).requests[id])
  }

  lemma LastTouchAtTouch(w: World, log: seq<Event>, id: Bytes)
    requires Faithful(w, log) && log != [] && Touches(log[|log| - 1], id) && Last(log, Creation(id)).Some?
    ensures LastTouchShown(w, log, id)
  {
    LastTouchNow(log, id);
    TouchIsShown(w, log, id);
  }

  lemma TouchIsShown(w: World, log: seq<Event>, id: Bytes)
    requires Faithful(w, log) && log != [] && Touches(log[|log| - 1], id)
    ensures id in Replay(w, log).requests && ShowsLastTouch(id, log[|log| - 1], Replay(w, log).requests[id])
  {
    EntryStep(w, log, id);
    TouchShows(w, Replay(w, log[..|log| - 1]), log[|log| - 1], Replay(w, log), id);
  }

  lemma TouchShows(w: World, before: Store, e: Event, after: Store, id: Bytes)
    requires EntryChanges(w, before, e, after, id) && Touches(e, id)
    ensures id in after.requests && ShowsLastTouch(id, e, after.requests[id])
  {
  }

  lemma LastTouchGoesOn(w: World, log: seq<Event>, id: Bytes)
    requires Faithful(w, log) && log != [] && !Touches(log[|log| - 1], id)
    requires LastTouchShown(w, log[..|log| - 1], id)
    ensures LastTouchShown(w, log, id)
  {
    EntryStep(w, log, id);
    BirthStep(log, id);
    LastTouchBefore(log, id);
  }

  lemma {:induction false} LastTouchIsShown(w: World, log: seq<Event>, id: Bytes)
    requires Faithful(w, log) && id in Replay(w, log).requests
    ensures LastTouchShown(w, log, id)
  {
    ExistsIffCreated(w, log, id);
    if Touches(log[|log| - 1], id) {
      LastTouchAtTouch(w, log, id);
    } else {
      FaithfulFront(w, log);
      EntryStep(w, log, id);
      LastTouchIsShown(w, log[..|log| - 1], id);
      LastTouchGoesOn(w, log, id);
    }
  }

  // History refinement: a stored pair is determined, field by field, by its creation, the last
  // fulfilment and the last failure since, and the later of the three.
  ghost predicate EntryOfHistory(w: World, log: seq<Event>, id: Bytes, e: Entry) {
    var birth := Last(log, Creation(id));
    && birth.Some?
    && KeepsCreation(w, log, birth.value, id, e)
    && ShowsFulfilment(w, At(log, Since(log, Fulfilment(id), birth.value)), e)
    && ShowsFailure(id, At(log, Since(log, Failure(id), birth.value)), e)
    && ShowsLastTouch(id, log[LastTouch(log, id, birth.value)], e)
  }

  lemma HistoryRefinement(w: World, log: seq<Event>, id: Bytes)
    requires Faithful(w, log)
    ensures id in Replay(w, log).requests <==> Last(log, Creation(id)).Some?
    ensures id in Replay(w, log).requests ==> EntryOfHistory(w, log, id, Replay(w, log).requests[id])
  {
    ExistsIffCreated(w, log, id);
    if id in Replay(w, log).requests {
      CreationIsKept(w, log, id);
      FulfilmentIsShown(w, log, id);
      FailureIsShown(w, log, id);
      LastTouchIsShown(w, log, id);
    }
  }

  // The refinement leaves no freedom: two records of the same history are the same record.
  lemma HistoryDeterminesEntry(w: World, log: seq<Event>, id: Bytes, e: Entry, e': Entry)
    requires EntryOfHistory(w, log, id, e) && EntryOfHistory(w, log, id, e')
    ensures e == e'
  {
  }

  /* ----- programs ----- */

  // The program that a registration makes, field by field.
  predicate IsRegistered(w: World, e: Event, p: Program)
    requires e.call.CreateProgram? && e.call.registration.body.Some?
  {
    var b := e.call.registration.body.value;
    && p.vkHash == b.vkHash
    && p.vk == b.vk
    && p.programUri == b.programUri
    && p.name == None
    && p.owner == SignerOf(w, e)
    && p.createdAt == e.draws.now
  }

  lemma ProgramsStep(w: World, before: Store, e: Event, vk: Bytes)
    requires Answers(w, before, e)
    ensures var after := Perform(w, before, e.call, e.draws).store.programs;
            if About(e, Registration(vk)) then
              vk in after && IsRegistered(w, e, after[vk])
            else
              (vk in after <==> vk in before.programs) && (vk in before.programs ==> after[vk] == before.programs[vk])
  {
  }

  // A registered program is the one of the last successful registration of its key.
  lemma {:induction false} ProgramsOfHistory(w: World, log: seq<Event>, vk: Bytes)
    requires Faithful(w, log)
    ensures vk in Replay(w, log).programs <==> Last(log, Registration(vk)).Some?
    ensures vk in Replay(w, log).programs ==>
              IsRegistered(w, log[Last(log, Registration(vk)).value], Replay(w, log).programs[vk])
  {
    if log != [] {
      FaithfulFront(w, log);
      ProgramsStep(w, Replay(w, log[..|log| - 1]), log[|log| - 1], vk);
      ProgramsOfHistory(w, log[..|log| - 1], vk);
    }
  }

  // The URI registered for a key by a history.
  function RegisteredUri(log: seq<Event>, vk: Bytes): string {
    var i := Last(log, Registration(vk));
    if i.Some? then log[i.value].call.registration.body.value.programUri else ""
  }

  // Program snapshot: a record keeps the URI that was registered for its key when it was
  // created, whatever is registered later.
  lemma ProgramSnapshot(w: World, log: seq<Event>, id: Bytes)
    requires Faithful(w, log) && id in Replay(w, log).requests
    ensures Last(log, Creation(id)).Some?
    ensures var r := Replay(w, log).requests[id].request;
            var birth := Last(log, Creation(id)).value;
            r.programUri == r.programPublicUri == RegisteredUri(log[..birth], r.vkHash)
  {
    CreationIsKept(w, log, id);
    var birth := Last(log, Creation(id)).value;
    FaithfulTake(w, log, birth);
    ProgramsOfHistory(w, log[..birth], Replay(w, log).requests[id].request.vkHash);
  }

  lemma FaithfulTake(w: World, log: seq<Event>, n: nat)
    requires Faithful(w, log) && n <= |log|
    ensures Faithful(w, log[..n])
  {
    forall i | 0 <= i < n
      ensures Answers(w, Replay(w, log[..n][..i]), log[..n][i])
    {
      assert log[..n][..i] == log[..i] && log[..n][i] == log[i];
    }
  }

  /* ----- artifacts ----- */

  lemma OnlyPutsStore(w: World, before: Store, call: Call, d: Draws)
    requires !call.PutArtifact?
    ensures Perform(w, before, call, d).store.storage == before.storage
  {
  }

  lemma PutsStore(w: World, before: Store, call: Call, d: Draws)
    requires call.PutArtifact?
    ensures Perform(w, before, call, d) ==
            if Route(call.url).Some? then DoPut(before, call.url, call.data) else Outcome(before, Error(NotFound))
  {
  }

  // What an event makes of the bytes under a key.
  ghost predicate StorageChanges(before: map<string, Bytes>, e: Event, after: map<string, Bytes>, key: string) {
    if About(e, Put(key)) then key in after && after[key] == e.call.data
    else (key in after <==> key in before) && (key in before ==> after[key] == before[key])
  }

  lemma PutChanges(w: World, before: Store, e: Event, key: string)
    requires Answers(w, before, e) && e.call.PutArtifact?
    ensures StorageChanges(before.storage, e, Perform(w, before, e.call, e.draws).store.storage, key)
  {
    PutsStore(w, before, e.call, e.draws);
    PutIsAbout(w, before, e, key);
    if Route(e.call.url).Some? {
      var k := Key(Route(e.call.url).value);
      assert Perform(w, before, e.call, e.draws).store.storage == before.storage[k := e.call.data];
    }
  }

  lemma PutIsAbout(w: World, before: Store, e: Event, key: string)
    requires Answers(w, before, e) && e.call.PutArtifact?
    ensures About(e, Put(key)) <==> Route(e.call.url).Some? && Key(Route(e.call.url).value) == key
  {
    PutsStore(w, before, e.call, e.draws);
  }

  lemma StorageStep(w: World, before: Store, e: Event, key: string)
    requires Answers(w, before, e)
    ensures StorageChanges(before.storage, e, Perform(w, before, e.call, e.draws).store.storage, key)
  {
    if e.call.PutArtifact? {
      PutChanges(w, before, e, key);
    } else {
      OnlyPutsStore(w, before, e.call, e.draws);
    }
  }

  // A stored artifact is the one of the last successful PUT of its key.
  lemma {:induction false} StorageOfHistory(w: World, log: seq<Event>, key: string)
    requires Faithful(w, log)
    ensures key in Replay(w, log).storage <==> Last(log, Put(key)).Some?
    ensures key in Replay(w, log).storage ==>
              Replay(w, log).storage[key] == log[Last(log, Put(key)).value].call.data
  {
    if log != [] {
      FaithfulFront(w, log);
      StorageStep(w, Replay(w, log[..|log| - 1]), log[|log| - 1], key);
      StorageOfHistory(w, log[..|log| - 1], key);
    }
  }

  // Position `j` holds an upload of the bytes fulfilled at position `f`, made before it.
  ghost predicate UploadOf(log: seq<Event>, j: nat, f: nat, url: string)
    requires f < |log| && log[f].call.FulfillProof? && HasBody(log[f].call)
  {
    j < f && Stores(log[j], url, log[f].call.fulfillment.body.value.proof)
  }

  lemma UploadFound(w: World, log: seq<Event>, id: Bytes, f: nat)
    requires History(w, log) && f < |log| && About(log[f], Fulfilment(id))
    ensures exists j :: UploadOf(log, j, f, ProofUrl(log[f].draws.nonce))
  {
    assert Answers(w, Replay(w, log[..f]), log[f]);
    assert Publishes(log[f]) && UploadedFor(log[..f], log[f]);
    var j :| 0 <= j < f && Stores(log[..f][j], ProofUrl(log[f].draws.nonce), log[f].call.fulfillment.body.value.proof);
    assert UploadOf(log, j, f, ProofUrl(log[f].draws.nonce));
  }

  lemma StoredIsAbout(w: World, log: seq<Event>, j: nat, url: string, data: Bytes)
    requires Faithful(w, log) && j < |log| && Stores(log[j], url, data)
    ensures Route(url).Some? && About(log[j], Put(Key(Route(url).value)))
  {
    assert Answers(w, Replay(w, log[..j]), log[j]);
  }

  // The key is stored and, unless it was put again since position `j`, with these bytes.
  ghost predicate Holds(w: World, log: seq<Event>, j: nat, key: string, data: Bytes) {
    && key in Replay(w, log).storage
    && ((forall k :: j < k < |log| ==> !About(log[k], Put(key))) ==> Replay(w, log).storage[key] == data)
  }

  lemma StoredIsHeld(w: World, log: seq<Event>, j: nat, key: string)
    requires Faithful(w, log) && j < |log| && About(log[j], Put(key))
    ensures Holds(w, log, j, key, log[j].call.data)
  {
    NothingAfterLast(log, Put(key), j);
    StorageOfHistory(w, log, key);
  }

  lemma UploadIsHeld(w: World, log: seq<Event>, j: nat, f: nat, url: string)
    requires Faithful(w, log) && f < |log| && log[f].call.FulfillProof? && HasBody(log[f].call)
    requires UploadOf(log, j, f, url)
    ensures Route(url).Some?
    ensures Holds(w, log, j, Key(Route(url).value), log[f].call.fulfillment.body.value.proof)
  {
    StoredIsAbout(w, log, j, url, log[f].call.fulfillment.body.value.proof);
    StoredIsHeld(w, log, j, Key(Route(url).value));
  }

  // Where a recorded proof is found: at position `f` its last fulfilment, before it an upload of
  // its bytes to the recorded URI, and in the store the key that this URI routes to. From every
  // such upload on, and so from the last one, only a later PUT of the key can change its bytes.
  ghost predicate ProofIsFound(w: World, log: seq<Event>, id: Bytes, f: nat)
    requires id in Replay(w, log).requests && Replay(w, log).requests[id].status.proofUri.Some?
  {
    var url := Replay(w, log).requests[id].status.proofUri.value;
    var birth := Last(log, Creation(id));
    && birth.Some?
    && Since(log, Fulfilment(id), birth.value) == Some(f)
    && Route(url).Some?
    && (exists j :: UploadOf(log, j, f, url))
    && (forall j :: UploadOf(log, j, f, url) ==>
          Holds(w, log, j, Key(Route(url).value), log[f].call.fulfillment.body.value.proof))
  }

  // Published proofs resolve: the recorded URI is routable, its key is stored, and it holds the
  // bytes of the last fulfilment unless something else was put under the key after them.
  lemma PublishedProofResolves(w: World, log: seq<Event>, id: Bytes)
    requires History(w, log) && id in Replay(w, log).requests
    requires Replay(w, log).requests[id].status.proofUri.Some?
    ensures exists f :: ProofIsFound(w, log, id, f)
  {
    FulfilmentIsShown(w, log, id);
    var f := Since(log, Fulfilment(id), Last(log, Creation(id)).value).value;
    var url := ProofUrl(log[f].draws.nonce);
    UploadFound(w, log, id, f);
    forall j | UploadOf(log, j, f, url)
      ensures Route(url).Some?
      ensures Holds(w, log, j, Key(Route(url).value), log[f].call.fulfillment.body.value.proof)
    {
      UploadIsHeld(w, log, j, f, url);
    }
    assert ProofIsFound(w, log, id, f);
  }
}
