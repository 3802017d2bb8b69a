// What does occur: every status pair, uploads that outlive their fulfilment, and what one change
// of the store does to a walk between two reads.
module Boundaries {
  import opened Types
  import opened Addressing
  import opened Signing
  import opened Query
  import opened Handlers
  import opened Machine
  import opened Linearizability
  import opened Listings
  import opened PageWalk
  import opened Guarantees
  import opened Schedules

  /* ----- scripts: handlers run one after the other ----- */

  // A run that ends with all guards free and whose clock never goes back.
  ghost predicate Scripted(w: World, xs: seq<Action>, s: State, end: nat) {
    Runs(w, INIT, xs, s) && Quiet(s) && Ticks(xs, 0, end)
  }

  lemma Goes(w: World, xs: seq<Action>, m: State, end: nat, call: Call, d: Draws) returns (xs': seq<Action>, s: State)
    requires Scripted(w, xs, m, end) && end <= d.now && |d.nonce| == 16
    requires call.GetFiltered? ==> IsOrderOf(d.order, m.store.requests)
    ensures Scripted(w, xs', s, d.now)
    ensures s.store.programs == Perform(w, m.store, call, d).store.programs
    ensures s.store.requests == Perform(w, m.store, call, d).store.requests
    ensures !Sends(w, m.store, call) ==>
              |s.threads| == |m.threads| + 1 && s.threads[..|m.threads|] == m.threads &&
              s.log == m.log + [Event(|m.threads|, call, Share(call, d), Perform(w, m.store, call, d).response)]
  {
    var ys;
    ys, s := EveryHandlerRunsAlone(w, m, call, d);
    RunsJoin(w, INIT, xs, m, ys, s);
    ReadsOnlyTicks(ys, end, d.now);
    TicksJoin(xs, ys, 0, end, d.now);
    xs' := xs + ys;
  }

  // A call and what it draws.
  datatype Op = Op(call: Call, draws: Draws)

  predicate IsRequest(w: World, x: Op) {
    x.call.RequestProof? && Admit(w, x.call).Admitted? && |x.draws.nonce| == 16
  }

  // The record a request makes.
  function EntryFor(w: World, programs: map<Bytes, Program>, x: Op): Entry
    requires IsRequest(w, x)
  {
    NewEntry(x.call.proof.body.value, Admit(w, x.call).signer, programs, x.draws)
  }

  lemma RequestGoes(w: World, xs: seq<Action>, m: State, end: nat, x: Op) returns (xs': seq<Action>, s: State)
    requires Scripted(w, xs, m, end) && end <= x.draws.now && IsRequest(w, x)
    ensures Scripted(w, xs', s, x.draws.now) && s.store.programs == m.store.programs
    ensures s.store.requests == m.store.requests[x.draws.id := EntryFor(w, m.store.programs, x)]
    ensures |s.log| == |m.log| + 1 && m.log <= s.log
    ensures s.log[|m.log|].call == x.call && s.log[|m.log|].draws == Early(x.draws)
  {
    xs', s := Goes(w, xs, m, end, x.call, x.draws);
  }

  lemma FailureGoes(w: World, xs: seq<Action>, m: State, end: nat, failure: FailFulfillmentBody, d: Draws)
    returns (xs': seq<Action>, s: State)
    requires Scripted(w, xs, m, end) && end <= d.now && |d.nonce| == 16 && failure.requestId in m.store.requests
    ensures Scripted(w, xs', s, d.now)
    ensures s.store.requests ==
            m.store.requests[failure.requestId := MarkFailed(m.store.requests[failure.requestId], failure.error, d)]
    ensures |s.log| == |m.log| + 1 && m.log <= s.log && s.log[|m.log|].call == FailFulfillment(Some(failure))
  {
    xs', s := Goes(w, xs, m, end, FailFulfillment(Some(failure)), d);
  }

  lemma FulfilmentGoes(w: World, xs: seq<Action>, m: State, end: nat, x: Op) returns (xs': seq<Action>, s: State)
    requires Scripted(w, xs, m, end) && end <= x.draws.now && |x.draws.nonce| == 16 && x.draws.upload.Stored?
    requires Sends(w, m.store, x.call)
    ensures Scripted(w, xs', s, x.draws.now)
    ensures var id := x.call.fulfillment.body.value.requestId;
            s.store.requests ==
            m.store.requests[id := MarkFulfilled(m.store.requests[id], Admit(w, x.call).signer, x.draws)]
  {
    xs', s := Goes(w, xs, m, end, x.call, x.draws);
  }

  /* ----- every status pair is reached ----- */

  // Calls about one request.
  ghost predicate AboutOne(w: World, request: Call, fulfilment: Call, failure: Call, d: Draws) {
    && request.RequestProof? && Admit(w, request).Admitted?
    && fulfilment.FulfillProof? && Admit(w, fulfilment).Admitted?
    && fulfilment.fulfillment.body.value.requestId == d.id
    && failure.FailFulfillment? && failure.failure.Some? && failure.failure.value.requestId == d.id
    && |d.nonce| == 16 && d.upload.Stored?
  }

  predicate HasStatuses(s: Store, id: Bytes, fulfillment: int, execution: int) {
    && id in s.requests
    && s.requests[id].request.fulfillmentStatus == fulfillment
    && s.requests[id].request.executionStatus == execution
  }

  // Any request can come to each of the four pairs.
  lemma PairIsReached(
    w: World, request: Call, fulfilment: Call, failure: Call, d: Draws, fulfillment: int, execution: int)
    returns (xs: seq<Action>, s: State)
    requires AboutOne(w, request, fulfilment, failure, d) && StatusPair(fulfillment, execution)
    ensures Runs(w, INIT, xs, s) && HasStatuses(s.store, d.id, fulfillment, execution)
  {
    xs, s := Goes(w, [], INIT, d.now, request, d);
    if execution == EXECUTED {
      xs, s := Goes(w, xs, s, d.now, fulfilment, d);
    }
    if fulfillment == UNFULFILLABLE {
      xs, s := Goes(w, xs, s, d.now, failure, d);
    }
  }

  // A library in which every body can be encoded and an address signs as itself, and draws of the
  // lengths the code draws.
  const SOMEONE: Address := seq(20, _ => 0)
  const OPEN: World := World(
    (b: SignedBody) => Some([]),
    (m: Bytes) => m,
    (digest: Bytes, signature: Bytes) => Some(if |signature| == 20 then signature else SOMEONE))
  const SOME_DRAWS: Draws := Draws(seq(32, _ => 0), seq(32, _ => 0), seq(16, _ => 0), 0, [], Stored)

  const EMPTY_REQUEST: RequestProofBody :=
    RequestProofBody(0, [], "", 0, 0, "", 0, 0, 0, 0, [], [], [], [], [], None, "", "", 0, [])

  function RequestBy(who: Address, body: RequestProofBody): Call {
    RequestProof(Signed(BINARY, who, Some(body)))
  }

  function FulfilmentBy(who: Address, id: Bytes): Call {
    FulfillProof(Signed(BINARY, who, Some(FulfillProofBody(0, id, [], [], 0))))
  }

  lemma OpenAdmits(who: Address, body: RequestProofBody, id: Bytes)
    ensures Admit(OPEN, RequestBy(who, body)) == Admitted(who)
    ensures Admit(OPEN, FulfilmentBy(who, id)) == Admitted(who)
  {
  }

  // The pairs of statuses that occur are exactly the four, in the numbers of the protocol.
  lemma EveryPairIsReached(fulfillment: int, execution: int)
    ensures (exists w, s, id :: Reachable(w, s) && HasStatuses(s.store, id, fulfillment, execution))
            <==> (fulfillment, execution) in {(2, 1), (3, 2), (4, 1), (4, 2)}
  {
    if w, s, id :| Reachable(w, s) && HasStatuses(s.store, id, fulfillment, execution) {
      PairsAreConsistent(w, s, id);
    }
    if StatusPair(fulfillment, execution) {
      var d := SOME_DRAWS;
      OpenAdmits(SOMEONE, EMPTY_REQUEST, d.id);
      var xs, s := PairIsReached(OPEN, RequestBy(SOMEONE, EMPTY_REQUEST), FulfilmentBy(SOMEONE, d.id),
                                 FailFulfillment(Some(FailFulfillmentBody(0, d.id, None))), d, fulfillment, execution);
      assert Reachable(OPEN, s);
    }
  }

  /* ----- every filter that can match does ----- */

  // Who requests and who fulfils, and what is requested, to meet the filter.
  function RequesterFor(f: Filter, other: Address): Address
    requires CanMatch(f)
  {
    if f.requester.Some? && f.requester.value != [] then f.requester.value
    else if f.fulfiller.Some? then f.fulfiller.value
    else other
  }

  function FulfillerFor(f: Filter, other: Address): Address
    requires CanMatch(f)
  {
    if f.fulfiller.Some? then f.fulfiller.value else other
  }

  function BodyFor(f: Filter): RequestProofBody
    requires CanMatch(f)
  {
    EMPTY_REQUEST.(
      vkHash := if f.vkHash.Some? then f.vkHash.value else [],
      version := if f.version.Some? then f.version.value else "",
      mode := if f.mode.Some? then f.mode.value else 0,
      deadline := if f.minimumDeadline.Some? then f.minimumDeadline.value + 1 else 0)
  }

  function IfFailed(f: Filter, e: Entry, d: Draws, fails: bool): Entry {
    if fails then MarkFailed(e, f.error, d) else e
  }

  function IfFulfilled(e: Entry, who: Address, d: Draws, fulfilled: bool): Entry {
    if fulfilled then MarkFulfilled(e, who, d) else e
  }

  // The record at the end of a request, and then perhaps of a failure, a fulfilment and a failure.
  function Lived(f: Filter, other: Address, d: Draws, failsFirst: bool, fulfilled: bool, failsLast: bool): Entry
    requires CanMatch(f)
  {
    var born := NewEntry(BodyFor(f), RequesterFor(f, other), map[], d);
    IfFailed(f, IfFulfilled(IfFailed(f, born, d, failsFirst), FulfillerFor(f, other), d, fulfilled), d, failsLast)
  }

  lemma LifePasses(f: Filter, other: Address, d: Draws) returns (failsFirst: bool, fulfilled: bool, failsLast: bool)
    requires CanMatch(f)
    ensures Passes(f, Lived(f, other, d, failsFirst, fulfilled, failsLast).request)
  {
    if AsksStatuses(f, ASSIGNED, UNEXECUTED) && AsksOneParty(f) && (f.error.None? || f.error.value == 0) {
      failsFirst, fulfilled, failsLast := false, false, false;
    } else if AsksStatuses(f, UNFULFILLABLE, UNEXECUTED) && AsksOneParty(f) {
      failsFirst, fulfilled, failsLast := true, false, false;
    } else if AsksStatuses(f, FULFILLED, EXECUTED) {
      failsFirst, fulfilled, failsLast := true, true, false;
    } else {
      failsFirst, fulfilled, failsLast := false, true, true;
    }
  }

  lemma FailsOrNot(f: Filter, xs: seq<Action>, m: State, d: Draws, e: Entry, fails: bool)
    returns (xs': seq<Action>, s: State)
    requires Scripted(OPEN, xs, m, d.now) && |d.nonce| == 16 && m.store.requests == map[d.id := e]
    ensures Scripted(OPEN, xs', s, d.now) && s.store.requests == map[d.id := IfFailed(f, e, d, fails)]
  {
    xs', s := xs, m;
    if fails {
      xs', s := FailureGoes(OPEN, xs, m, d.now, FailFulfillmentBody(0, d.id, f.error), d);
    }
  }

  lemma FulfilledOrNot(who: Address, xs: seq<Action>, m: State, d: Draws, e: Entry, fulfilled: bool)
    returns (xs': seq<Action>, s: State)
    requires Scripted(OPEN, xs, m, d.now) && |d.nonce| == 16 && d.upload.Stored? && m.store.requests == map[d.id := e]
    ensures Scripted(OPEN, xs', s, d.now) && s.store.requests == map[d.id := IfFulfilled(e, who, d, fulfilled)]
  {
    xs', s := xs, m;
    if fulfilled {
      OpenAdmits(who, EMPTY_REQUEST, d.id);
      xs', s := FulfilmentGoes(OPEN, xs, m, d.now, Op(FulfilmentBy(who, d.id), d));
    }
  }

  lemma LifeIsLived(f: Filter, d: Draws, failsFirst: bool, fulfilled: bool, failsLast: bool)
    returns (xs: seq<Action>, s: State)
    requires CanMatch(f) && |d.nonce| == 16 && d.upload.Stored?
    ensures Scripted(OPEN, xs, s, d.now)
    ensures s.store.requests == map[d.id := Lived(f, SOMEONE, d, failsFirst, fulfilled, failsLast)]
  {
    var requester, fulfiller := RequesterFor(f, SOMEONE), FulfillerFor(f, SOMEONE);
    OpenAdmits(requester, BodyFor(f), d.id);
    var e := NewEntry(BodyFor(f), requester, map[], d);
    xs, s := RequestGoes(OPEN, [], INIT, d.now, Op(RequestBy(requester, BodyFor(f)), d));
    xs, s := FailsOrNot(f, xs, s, d, e, failsFirst);
    e := IfFailed(f, e, d, failsFirst);
    xs, s := FulfilledOrNot(fulfiller, xs, s, d, e, fulfilled);
    e := IfFulfilled(e, fulfiller, d, fulfilled);
    xs, s := FailsOrNot(f, xs, s, d, e, failsLast);
  }

  lemma AnswerHasMatch(w: World, s: State, order: seq<Bytes>, f: Filter, id: Bytes)
    requires Reachable(w, s) && IsOrderOf(order, s.store.requests) && Matches(s.store.requests, f, id)
    ensures Ordered(s.store.requests, order, f) != []
  {
    ReachableHistory(w, s);
    KeysAreOk(w, s.log);
    OrderedLists(s.store.requests, order, f);
  }

  lemma PossiblePollIsAnswered(f: Filter)
    requires CanMatch(f)
    ensures exists w, s, order ::
              Reachable(w, s) && IsOrderOf(order, s.store.requests) && Ordered(s.store.requests, order, f) != []
  {
    var d := SOME_DRAWS;
    var failsFirst, fulfilled, failsLast := LifePasses(f, SOMEONE, d);
    var xs, s := LifeIsLived(f, d, failsFirst, fulfilled, failsLast);
    assert Reachable(OPEN, s);
    var order := OrderExists(s.store.requests);
    AnswerHasMatch(OPEN, s, order, f, d.id);
  }

  // The filters whose list is empty in every reachable state are exactly those that cannot match.
  lemma EmptyPollsAreExact(f: Filter)
    ensures (forall w, s, order :: Reachable(w, s) && IsOrderOf(order, s.store.requests) ==>
               Ordered(s.store.requests, order, f) == [])
            <==> !CanMatch(f)
  {
    if CanMatch(f) {
      PossiblePollIsAnswered(f);
    } else {
      forall w, s, order | Reachable(w, s) && IsOrderOf(order, s.store.requests)
        ensures Ordered(s.store.requests, order, f) == []
      {
        ImpossiblePollsAreEmpty(w, s, order, f);
      }
    }
  }

  /* ----- an upload can outlive its fulfilment ----- */

  lemma RefusalRuns(w: World, s: State, xs: seq<Action>, m: State, t: nat) returns (refused: State)
    requires Runs(w, s, xs, m) && t < |m.threads| && m.threads[t].pc.AwaitUpload?
    ensures Runs(w, s, xs + [Reject(t), ReadError(t)], refused)
    ensures |refused.threads| == |m.threads| && refused.threads[t].pc == Finished(Error(Internal))
    ensures refused.store == m.store
  {
    var reading := Step(w, m, Reject(t));
    refused := Step(w, reading, ReadError(t));
    RunsThen(w, s, xs, m, Reject(t));
    RunsThen(w, s, xs + [Reject(t)], reading, ReadError(t));
    assert xs + [Reject(t), ReadError(t)] == xs + [Reject(t)] + [ReadError(t)];
  }

  // `m` comes of `xs`, then `ends`; the thread that came at `s` is at `pc`, and the store is `store`.
  ghost predicate EndsAs(w: World, s: State, xs: seq<Action>, ends: seq<Action>, m: State, pc: Pc, store: Store) {
    && Runs(w, s, xs + ends, m)
    && |m.threads| > |s.threads|
    && m.threads[|s.threads|].pc == pc
    && m.store == store
  }

  // The answer to a stored upload may be lost or be a refusal, or the handler that waits for it
  // dropped: then the fulfilment has failed or never was, and the proof is in the storage all the same.
  lemma UploadOutlivesFulfilment(w: World, s: State, call: Call, d: Draws)
    returns (xs: seq<Action>, failed: State, refused: State, dropped: State)
    requires Quiet(s) && Sends(w, s.store, call) && |d.nonce| == 16
    ensures Route(ProofUrl(d.nonce)).Some?
    ensures var t, key := |s.threads|, Key(Route(ProofUrl(d.nonce)).value);
            var store := s.store.(storage := s.store.storage[key := call.fulfillment.body.value.proof]);
            && EndsAs(w, s, xs, [Drop(t)], failed, Finished(Error(Internal)), store)
            && EndsAs(w, s, xs, [Reject(t), ReadError(t)], refused, Finished(Error(Internal)), store)
            && EndsAs(w, s, xs, [Cancel(t)], dropped, Cancelled, store)
  {
    var t := |s.threads|;
    var m;
    xs, m := UploadIsStored(w, s, call, d);
    failed, dropped := Step(w, m, Drop(t)), Step(w, m, Cancel(t));
    RunsThen(w, s, xs, m, Drop(t));
    RunsThen(w, s, xs, m, Cancel(t));
    refused := RefusalRuns(w, s, xs, m, t);
  }

  /* ----- one change between two reads ----- */

  // When a listed Assigned request fails, it leaves the prover's poll, and nothing else does.
  lemma FailingLeavesPoll(requests: Requests, prover: Bytes, id: Bytes, error: Option<int>, d: Draws)
    requires id in TimelineOf(requests, WorkPoll(prover))
    ensures TimelineOf(requests[id := MarkFailed(requests[id], error, d)], WorkPoll(prover))
            == TimelineOf(requests, WorkPoll(prover)) - {id}
  {
  }

  // `n` identifiers were read, and then one match has left.
  lemma LeavingDisturbs(t: Timeline, ids: seq<Bytes>, gone: Bytes, n: nat)
    requires Tells(ids, t) && n <= |ids| && gone in t
    ensures Undisturbed(ids[..n], t - {gone}) <==> gone !in ids[..n]
    ensures (exists b :: b in t - {gone} && b !in ids[..n]) <== gone in ids[..n] && n < |ids|
  {
    PrefixIsUndisturbed(ids[..n], t, ids);
    if n < |ids| && gone in ids[..n] {
      assert ids[n] in t - {gone} && ids[n] !in ids[..n];
    }
  }

  lemma WithoutOne(t: Timeline, ids: seq<Bytes>, i: nat)
    requires Tells(ids, t) && i < |ids|
    ensures Tells(ids[..i] + ids[i + 1..], t - {ids[i]})
  {
    var rest := ids[..i] + ids[i + 1..];
    forall k | 0 <= k < |rest|
      ensures rest[k] in t - {ids[i]} && rest[k] == ids[if k < i then k else k + 1]
    {
      var j := if k < i then k else k + 1;
      assert t[ids[j]] != t[ids[i]];
    }
    forall id | id in t - {ids[i]}
      ensures id in rest
    {
      var k :| 0 <= k < |ids| && ids[k] == id;
      assert rest[if k < i then k else k - 1] == id;
    }
  }

  lemma SkippedBetween(rest: seq<Bytes>, skipped: Bytes, m: nat, limit: nat, n: nat)
    requires NoRepeats(rest) && 0 < n <= |rest| && rest[n - 1] == skipped && m * limit >= n
    ensures skipped !in Page(rest, m, limit)
  {
    PageLength(rest, m, limit);
  }

  // A walk misses a match through it exactly if what has left had been read and something had
  // not; then it is the first unread match, and no later page shows it either.
  lemma LeavingSkips(t: Timeline, ids: seq<Bytes>, gone: Bytes, ids': seq<Bytes>, n: nat, limit: nat)
    requires Tells(ids, t) && n <= |ids| && gone in t && Tells(ids', t - {gone})
    ensures Misses(ids[..n], t - {gone}, ids') <==> gone in ids[..n] && n < |ids|
    ensures gone !in ids[..n] ==> ids[..n] <= ids'
    ensures gone in ids[..n] && n < |ids| ==>
              ids[n] in ids' && forall m: nat :: m * limit >= n ==> ids[n] !in Page(ids', m, limit)
  {
    TellsOrders(ids, t);
    TellsOrders(ids', t - {gone});
    LeavingDisturbs(t, ids, gone, n);
    MissesIff(ids[..n], t - {gone}, ids');
    if gone !in ids[..n] {
      StartsIffFirst(ids[..n], t - {gone}, ids');
      LeavingKeepsOrder(t, ids, gone, n);
    } else if n < |ids| {
      MovesUp(t, ids, gone, ids', n);
      forall m: nat | m * limit >= n
        ensures ids[n] !in Page(ids', m, limit)
      {
        SkippedBetween(ids', ids[n], m, limit, n);
      }
    }
  }

  lemma LeavingKeepsOrder(t: Timeline, ids: seq<Bytes>, gone: Bytes, n: nat)
    requires Tells(ids, t) && n <= |ids| && gone in t && gone !in ids[..n]
    ensures ComesFirst(ids[..n], t - {gone})
  {
    LeavingDisturbs(t, ids, gone, n);
    assert forall i :: 0 <= i < n ==> ids[i] in ids[..n];
  }

  // What follows the match that has left moves up by one.
  lemma MovesUp(t: Timeline, ids: seq<Bytes>, gone: Bytes, ids': seq<Bytes>, n: nat)
    requires Tells(ids, t) && n < |ids| && gone in ids[..n] && Tells(ids', t - {gone})
    ensures 0 < n <= |ids'| && ids'[n - 1] == ids[n]
  {
    var i :| 0 <= i < n && ids[i] == gone;
    WithoutOne(t, ids, i);
    TellsUnique(t - {gone}, ids', ids[..i] + ids[i + 1..]);
  }

  // Or one match has come, of a time of its own.
  lemma ComingDisturbs(t: Timeline, ids: seq<Bytes>, x: Bytes, time: nat, n: nat)
    requires Tells(ids, t) && n <= |ids| && x !in t && forall a :: a in t ==> t[a] != time
    ensures Undisturbed(ids[..n], t[x := time]) <==> forall i :: 0 <= i < n ==> t[ids[i]] < time
  {
    var t' := t[x := time];
    PrefixIsUndisturbed(ids[..n], t, ids);
    assert x in t' && x !in ids[..n];
    forall i | 0 <= i < n && Undisturbed(ids[..n], t')
      ensures t[ids[i]] < time
    {
      assert ids[i] in ids[..n] && t'[ids[i]] < t'[x];
    }
    if forall i :: 0 <= i < n ==> t[ids[i]] < time {
      forall a, b | a in ids[..n] && b in t' && b !in ids[..n]
        ensures a in t' && t'[a] < t'[b]
      {
        var i :| 0 <= i < n && ids[i] == a;
      }
    }
  }

  lemma WithOneAscends(t: Timeline, ids: seq<Bytes>, x: Bytes, time: nat, p: nat, i: nat, j: nat)
    requires Tells(ids, t) && x !in t && p <= |ids| && i < j <= |ids|
    requires forall i :: 0 <= i < p ==> t[ids[i]] < time
    requires forall i :: p <= i < |ids| ==> time < t[ids[i]]
    ensures var more, t' := ids[..p] + [x] + ids[p..], t[x := time];
            more[i] in t' && more[j] in t' && t'[more[i]] < t'[more[j]]
  {
  }

  lemma WithOneListed(ids: seq<Bytes>, x: Bytes, p: nat, k: nat)
    requires p <= |ids| && k < |ids|
    ensures ids[k] in ids[..p] + [x] + ids[p..] && x in ids[..p] + [x] + ids[p..]
  {
    var more := ids[..p] + [x] + ids[p..];
    assert more[p] == x && more[if k < p then k else k + 1] == ids[k];
  }

  lemma WithOne(t: Timeline, ids: seq<Bytes>, x: Bytes, time: nat, p: nat)
    requires Tells(ids, t) && x !in t && p <= |ids|
    requires forall i :: 0 <= i < p ==> t[ids[i]] < time
    requires forall i :: p <= i < |ids| ==> time < t[ids[i]]
    ensures Tells(ids[..p] + [x] + ids[p..], t[x := time])
  {
    var more, t' := ids[..p] + [x] + ids[p..], t[x := time];
    assert more[p] == x;
    forall k | 0 <= k < |more|
      ensures more[k] in t'
    {
    }
    forall i, j | 0 <= i < j < |more|
      ensures t'[more[i]] < t'[more[j]]
    {
      WithOneAscends(t, ids, x, time, p, i, j);
    }
    forall id | id in t'
      ensures id in more
    {
      if id != x {
        var k :| 0 <= k < |ids| && ids[k] == id;
        WithOneListed(ids, x, p, k);
      }
    }
  }

  lemma {:induction false} PlaceOf(t: Timeline, ids: seq<Bytes>, time: nat, n: nat) returns (p: nat)
    requires Tells(ids, t) && n <= |ids| && forall a :: a in t ==> t[a] != time
    requires forall i :: n <= i < |ids| ==> time < t[ids[i]]
    ensures p <= n && forall i :: 0 <= i < p ==> t[ids[i]] < time
    ensures forall i :: p <= i < |ids| ==> time < t[ids[i]]
  {
    if n > 0 && time < t[ids[n - 1]] {
      p := PlaceOf(t, ids, time, n - 1);
    } else {
      p := n;
    }
  }

  lemma ComesAt(t: Timeline, ids: seq<Bytes>, x: Bytes, time: nat, ids': seq<Bytes>, n: nat) returns (p: nat)
    requires Tells(ids, t) && n <= |ids| && x !in t && forall a :: a in t ==> t[a] != time
    requires Tells(ids', t[x := time])
    ensures p <= |ids| && ids' == ids[..p] + [x] + ids[p..]
    ensures p < n <==> exists i :: 0 <= i < n && time < t[ids[i]]
  {
    p := PlaceOf(t, ids, time, |ids|);
    WithOne(t, ids, x, time, p);
    TellsUnique(t[x := time], ids', ids[..p] + [x] + ids[p..]);
    if p < n {
      assert time < t[ids[p]];
    }
  }

  lemma LateShifts(ids: seq<Bytes>, x: Bytes, p: nat, ids': seq<Bytes>, n: nat)
    requires p < n <= |ids| && ids' == ids[..p] + [x] + ids[p..]
    ensures n < |ids'| && ids'[n] == ids[n - 1] && x in First(ids', n)
  {
    assert First(ids', n)[p] == x;
  }

  lemma LateKeeps(ids: seq<Bytes>, x: Bytes, p: nat, ids': seq<Bytes>, n: nat)
    requires n <= p <= |ids| && ids' == ids[..p] + [x] + ids[p..]
    ensures ids[..n] <= ids'
  {
    assert ids[..n] == ids'[..n];
  }

  lemma LateMatchMisses(t: Timeline, ids: seq<Bytes>, x: Bytes, time: nat, ids': seq<Bytes>, n: nat)
    requires Tells(ids, t) && n <= |ids| && x !in t && forall a :: a in t ==> t[a] != time
    requires Tells(ids', t[x := time])
    ensures Misses(ids[..n], t[x := time], ids') <==> exists i :: 0 <= i < n && time < t[ids[i]]
  {
    TellsOrders(ids, t);
    ComingDisturbs(t, ids, x, time, n);
    MissesIff(ids[..n], t[x := time], ids');
    assert x in t[x := time] && x !in ids[..n];
    assert forall i :: 0 <= i < n ==> t[ids[i]] < time || time < t[ids[i]];
  }

  // The new match is older than one that was read.
  ghost predicate IsLate(t: Timeline, ids: seq<Bytes>, time: nat, n: nat)
    requires Tells(ids, t) && n <= |ids|
  {
    exists i :: 0 <= i < n && time < t[ids[i]]
  }

  // A walk misses a match through it exactly if the new match is late. It is then the new match
  // that is missed, and the next page repeats the last one read.
  lemma LateMatchRepeats(t: Timeline, ids: seq<Bytes>, x: Bytes, time: nat, ids': seq<Bytes>, n: nat, limit: nat)
    requires Tells(ids, t) && n <= |ids| && x !in t && forall a :: a in t ==> t[a] != time
    requires Tells(ids', t[x := time])
    ensures Misses(ids[..n], t[x := time], ids') <==> IsLate(t, ids, time, n)
    ensures IsLate(t, ids, time, n) ==> n > 0 && x in First(ids', n)
    ensures IsLate(t, ids, time, n) && limit > 0 ==>
              SkipTake(ids', n, limit) != [] && SkipTake(ids', n, limit)[0] == ids[n - 1]
    ensures !IsLate(t, ids, time, n) ==> ids[..n] <= ids'
  {
    var p := ComesAt(t, ids, x, time, ids', n);
    LateMatchMisses(t, ids, x, time, ids', n);
    if p < n {
      LateShifts(ids, x, p, ids', n);
    } else {
      LateKeeps(ids, x, p, ids', n);
    }
  }
}
