// Reading page after page while the store goes on changing.
module PageWalk {
  import opened Types
  import opened Query
  import opened Handlers
  import opened Machine
  import opened Histories
  import opened Lifecycle
  import opened Listings

  /* ----- what one event does to a timeline ----- */

  // The filter asks only for fields that no handler ever updates.
  predicate AsksFixedFields(f: Filter) {
    f.fulfillmentStatus.None? && f.executionStatus.None? && f.fulfiller.None? && f.error.None?
  }

  predicate Creates(w: World, e: Event) {
    e.call.RequestProof? && Admit(w, e.call).Admitted?
  }

  function CreatedEntry(w: World, before: Store, e: Event): Entry
    requires Creates(w, e)
  {
    NewEntry(e.call.proof.body.value, Admit(w, e.call).signer, before.programs, e.draws)
  }

  // A creation uses a new identifier.
  predicate IsFresh(w: World, before: Store, e: Event) {
    Creates(w, e) ==> e.draws.id !in before.requests
  }

  // The event creates a match.
  predicate Adds(w: World, before: Store, e: Event, f: Filter) {
    Creates(w, e) && Passes(f, CreatedEntry(w, before, e).request)
  }

  // A match it creates is newer than every match so far.
  ghost predicate IsNewer(w: World, before: Store, e: Event, f: Filter) {
    Adds(w, before, e, f) ==>
      forall a :: a in TimelineOf(before.requests, f) ==> TimelineOf(before.requests, f)[a] < e.draws.now
  }

  lemma UpdatesKeepMatches(f: Filter, e: Entry, signer: Bytes, error: Option<int>, d: Draws)
    requires AsksFixedFields(f)
    ensures Passes(f, MarkFulfilled(e, signer, d).request) <==> Passes(f, e.request)
    ensures Passes(f, MarkFailed(e, error, d).request) <==> Passes(f, e.request)
    ensures MarkFulfilled(e, signer, d).request.createdAt == e.request.createdAt
    ensures MarkFailed(e, error, d).request.createdAt == e.request.createdAt
  {
  }

  lemma ReplacedKeepsTimeline(requests: Requests, f: Filter, id: Bytes, e: Entry)
    requires id in requests
    requires Passes(f, e.request) <==> Passes(f, requests[id].request)
    requires e.request.createdAt == requests[id].request.createdAt
    ensures TimelineOf(requests[id := e], f) == TimelineOf(requests, f)
  {
  }

  lemma InsertedExtendsTimeline(requests: Requests, f: Filter, id: Bytes, e: Entry)
    requires id !in requests
    ensures var t := TimelineOf(requests, f);
            TimelineOf(requests[id := e], f) == if Passes(f, e.request) then t[id := e.request.createdAt] else t
  {
  }

  // Of a filter on fixed fields the matches only ever become more, one by one: an event adds
  // the match it creates and changes nothing else.
  lemma EventAdds(w: World, before: Store, e: Event, f: Filter)
    requires AsksFixedFields(f) && IsFresh(w, before, e)
    ensures var t := TimelineOf(before.requests, f);
            var t' := TimelineOf(Perform(w, before, e.call, e.draws).store.requests, f);
            if Adds(w, before, e, f) then e.draws.id !in t && t' == t[e.draws.id := e.draws.now] else t' == t
  {
    var after := Perform(w, before, e.call, e.draws).store;
    if Creates(w, e) {
      InsertedExtendsTimeline(before.requests, f, e.draws.id, CreatedEntry(w, before, e));
    } else if e.call.FulfillProof? && after != before {
      var id := e.call.fulfillment.body.value.requestId;
      UpdatesKeepMatches(f, before.requests[id], Admit(w, e.call).signer, None, e.draws);
      ReplacedKeepsTimeline(before.requests, f, id, after.requests[id]);
    } else if e.call.FailFulfillment? && after != before {
      var b := e.call.failure.value;
      UpdatesKeepMatches(f, before.requests[b.requestId], [], b.error, e.draws);
      ReplacedKeepsTimeline(before.requests, f, b.requestId, after.requests[b.requestId]);
    }
  }

  /* ----- what a stretch of a log does to a timeline ----- */

  ghost function TimelineAt(w: World, log: seq<Event>, f: Filter, i: nat): Timeline
    requires i <= |log|
  {
    TimelineOf(Replay(w, log[..i]).requests, f)
  }

  ghost predicate FreshThroughout(w: World, log: seq<Event>, first: nat, last: nat)
    requires last <= |log|
  {
    forall i :: first <= i < last ==> IsFresh(w, Replay(w, log[..i]), log[i])
  }

  ghost predicate NewerThroughout(w: World, log: seq<Event>, f: Filter, first: nat, last: nat)
    requires last <= |log|
  {
    forall i :: first <= i < last ==> IsNewer(w, Replay(w, log[..i]), log[i], f)
  }

  lemma TimelineStep(w: World, log: seq<Event>, f: Filter, i: nat)
    requires i < |log| && AsksFixedFields(f) && IsFresh(w, Replay(w, log[..i]), log[i])
    ensures Within(TimelineAt(w, log, f, i), TimelineAt(w, log, f, i + 1))
    ensures IsNewer(w, Replay(w, log[..i]), log[i], f) ==> Grows(TimelineAt(w, log, f, i), TimelineAt(w, log, f, i + 1))
    ensures IsNewer(w, Replay(w, log[..i]), log[i], f) && DistinctTimes(TimelineAt(w, log, f, i)) ==>
              DistinctTimes(TimelineAt(w, log, f, i + 1))
  {
    assert log[..i + 1] == log[..i] + [log[i]];
    ReplayAppend(w, log[..i], log[i]);
    EventAdds(w, Replay(w, log[..i]), log[i], f);
  }

  ghost function Timelines(w: World, log: seq<Event>, f: Filter): seq<Timeline> {
    seq(|log| + 1, i requires 0 <= i <= |log| => TimelineAt(w, log, f, i))
  }

  // A filter on fixed fields never loses a match, and matches keep their times.
  lemma MatchesStay(w: World, log: seq<Event>, f: Filter, first: nat, last: nat)
    requires first <= last <= |log| && AsksFixedFields(f) && FreshThroughout(w, log, first, last)
    ensures Within(TimelineAt(w, log, f, first), TimelineAt(w, log, f, last))
  {
    var ts := Timelines(w, log, f);
    forall k | first <= k < last
      ensures Within(ts[k], ts[k + 1])
    {
      TimelineStep(w, log, f, k);
    }
    ChainWithin(ts, first, last);
  }

  // If moreover every new match is newer than those before it, new ones are newer than old
  // ones, and distinct times stay distinct.
  lemma MatchesGrow(w: World, log: seq<Event>, f: Filter, first: nat, last: nat)
    requires first <= last <= |log| && AsksFixedFields(f)
    requires FreshThroughout(w, log, first, last) && NewerThroughout(w, log, f, first, last)
    ensures Grows(TimelineAt(w, log, f, first), TimelineAt(w, log, f, last))
  {
    var ts := Timelines(w, log, f);
    forall k | first <= k < last
      ensures Grows(ts[k], ts[k + 1])
    {
      TimelineStep(w, log, f, k);
    }
    ChainGrows(ts, first, last);
  }

  lemma TimesStayDistinct(w: World, log: seq<Event>, f: Filter, first: nat, last: nat)
    requires first <= last <= |log| && AsksFixedFields(f)
    requires FreshThroughout(w, log, first, last) && NewerThroughout(w, log, f, first, last)
    requires DistinctTimes(TimelineAt(w, log, f, first))
    ensures DistinctTimes(TimelineAt(w, log, f, last))
  {
    var ts := Timelines(w, log, f);
    forall k | first <= k < last && DistinctTimes(ts[k])
      ensures DistinctTimes(ts[k + 1])
    {
      TimelineStep(w, log, f, k);
    }
    ChainDistinct(ts, first, last);
  }

  /* ----- the pages ----- */

  // The page read by an event of the log.
  function PageRead(e: Event): seq<ProofRequest> {
    if e.response.FilteredAre? then e.response.requests else []
  }

  predicate ReadsPage(e: Event, f: Filter, page: nat, limit: u32) {
    page < 0x1_0000_0000 && e.call == GetFiltered(f.(page := Some(page as u32), limit := Some(limit)))
  }

  // Pages 0, 1, 2, ... read at rising positions of the log, stopping at the first short one.
  ghost predicate IsWalk(log: seq<Event>, f: Filter, limit: u32, at: seq<nat>) {
    && (forall k :: 0 <= k < |at| ==> at[k] < |log| && ReadsPage(log[at[k]], f, k, limit))
    && (forall k :: 0 <= k < |at| - 1 ==> at[k] < at[k + 1] && |PageRead(log[at[k]])| == limit as nat)
  }

  // The identifiers collected, page after page.
  function Collected(log: seq<Event>, at: seq<nat>): seq<Bytes>
    requires forall k :: 0 <= k < |at| ==> at[k] < |log|
  {
    if at == [] then []
    else Collected(log, at[..|at| - 1]) + Ids(PageRead(log[at[|at| - 1]]))
  }

  // What the first `k` reads of a walk have collected.
  function ReadBy(log: seq<Event>, at: seq<nat>, k: nat): seq<Bytes>
    requires k <= |at| && forall k :: 0 <= k < |at| ==> at[k] < |log|
  {
    Collected(log, at[..k])
  }

  lemma KeysAreOk(w: World, log: seq<Event>)
    requires Faithful(w, log)
    ensures KeysOk(Replay(w, log).requests)
  {
    forall id | id in Replay(w, log).requests
      ensures Replay(w, log).requests[id].request.requestId == id
    {
      CreationIsKept(w, log, id);
    }
  }

  // The whole ordered answer at a read: of the filter, in the iteration order the read saw.
  function FullList(w: World, log: seq<Event>, f: Filter, i: nat): seq<Bytes>
    requires i < |log|
  {
    Ids(Ordered(Replay(w, log[..i]).requests, log[i].draws.order, f))
  }

  lemma PagingFieldsIgnored(requests: Requests, order: seq<Bytes>, f: Filter, page: u32, limit: u32)
    ensures Ordered(requests, order, f.(page := Some(page), limit := Some(limit))) == Ordered(requests, order, f)
  {
    EquivalentFiltersSelectSame(requests, order, f.(page := Some(page), limit := Some(limit)), f);
  }

  lemma IdsOfPage(s: seq<ProofRequest>, page: nat, limit: nat)
    ensures Ids(Page(s, page, limit)) == Page(Ids(s), page, limit)
  {
  }

  // What a read returns is its page of the full list of the moment.
  lemma ReadIsPage(w: World, log: seq<Event>, f: Filter, limit: u32, i: nat, page: nat)
    requires Faithful(w, log) && i < |log| && ReadsPage(log[i], f, page, limit)
    ensures Ids(PageRead(log[i])) == Page(FullList(w, log, f, i), page, limit as nat)
    ensures IsOrderOf(log[i].draws.order, Replay(w, log[..i]).requests)
  {
    var requests := Replay(w, log[..i]).requests;
    assert Answers(w, Replay(w, log[..i]), log[i]);
    PagingFieldsIgnored(requests, log[i].draws.order, f, page as u32, limit);
    IdsOfPage(Ordered(requests, log[i].draws.order, f), page, limit as nat);
  }

  lemma FullListOrders(w: World, log: seq<Event>, f: Filter, limit: u32, i: nat, page: nat)
    requires Faithful(w, log) && i < |log| && ReadsPage(log[i], f, page, limit)
    ensures Orders(FullList(w, log, f, i), TimelineAt(w, log, f, i))
  {
    ReadIsPage(w, log, f, limit, i, page);
    FaithfulTake(w, log, i);
    KeysAreOk(w, log[..i]);
    OrderedOrders(Replay(w, log[..i]).requests, log[i].draws.order, f);
  }

  lemma {:induction false} WalkRises(log: seq<Event>, f: Filter, limit: u32, at: seq<nat>, j: nat, k: nat)
    requires IsWalk(log, f, limit, at) && j <= k < |at|
    ensures at[j] <= at[k]
  {
    if j < k {
      WalkRises(log, f, limit, at, j, k - 1);
      assert at[k - 1] < at[k - 1 + 1];
    }
  }

  lemma ReadByNext(log: seq<Event>, at: seq<nat>, k: nat)
    requires k < |at| && forall k :: 0 <= k < |at| ==> at[k] < |log|
    ensures ReadBy(log, at, k + 1) == ReadBy(log, at, k) + Ids(PageRead(log[at[k]]))
  {
    assert at[..k + 1][..k] == at[..k];
  }

  lemma {:induction false} ReadByLength(log: seq<Event>, f: Filter, limit: u32, at: seq<nat>, k: nat)
    requires IsWalk(log, f, limit, at) && k < |at|
    ensures |ReadBy(log, at, k)| == k * limit as nat
  {
    if k > 0 {
      ReadByLength(log, f, limit, at, k - 1);
      ReadByNext(log, at, k - 1);
      MulStep(k - 1, limit as nat);
      assert |PageRead(log[at[k - 1]])| == limit as nat by {
        assert at[k - 1] < at[k - 1 + 1];
      }
    }
  }

  /* ----- exactly when a walk is right ----- */

  // A read goes on rightly iff its list starts with what was read before.
  lemma ReadGoesOn(w: World, log: seq<Event>, f: Filter, limit: u32, at: seq<nat>, k: nat)
    requires Faithful(w, log) && IsWalk(log, f, limit, at) && k < |at|
    ensures ReadBy(log, at, k + 1) <= FullList(w, log, f, at[k]) <==>
            ReadBy(log, at, k) <= FullList(w, log, f, at[k])
  {
    ReadByNext(log, at, k);
    ReadByLength(log, f, limit, at, k);
    ReadIsPage(w, log, f, limit, at[k], k);
    GoesOnIffStarts(ReadBy(log, at, k), FullList(w, log, f, at[k]), limit as nat);
  }

  // The pages of a walk join to a prefix of the last full list iff what was read before the last
  // page still comes first; and a match is missed iff some match was not read and, of what was
  // read, something was read twice, is no longer there or is not older than the rest.
  ghost predicate HasExactOutcome(w: World, log: seq<Event>, f: Filter, at: seq<nat>)
    requires at != [] && forall k :: 0 <= k < |at| ==> at[k] < |log|
  {
    var t, list := TimelineAt(w, log, f, at[|at| - 1]), FullList(w, log, f, at[|at| - 1]);
    var read := ReadBy(log, at, |at| - 1);
    && (Collected(log, at) <= list <==> ComesFirst(read, t))
    && (Misses(read, t, list) <==>
          (exists b :: b in t && b !in read) && (!NoRepeats(read) || !Undisturbed(read, t)))
  }

  // So it is for every filter and whatever happened between the reads.
  lemma WalkIsExact(w: World, log: seq<Event>, f: Filter, limit: u32, at: seq<nat>)
    requires Faithful(w, log) && at != [] && IsWalk(log, f, limit, at)
    requires DistinctTimes(TimelineAt(w, log, f, at[|at| - 1]))
    ensures HasExactOutcome(w, log, f, at)
  {
    var k := |at| - 1;
    assert at[..k + 1] == at;
    ReadGoesOn(w, log, f, limit, at, k);
    FullListOrders(w, log, f, limit, at[k], k);
    StartsIffFirst(ReadBy(log, at, k), TimelineAt(w, log, f, at[k]), FullList(w, log, f, at[k]));
    MissesIff(ReadBy(log, at, k), TimelineAt(w, log, f, at[k]), FullList(w, log, f, at[k]));
  }

  /* ----- walks of a filter on fixed fields ----- */

  // The timelines, full lists and collected identifiers of a walk.
  ghost function WalkTimes(w: World, log: seq<Event>, f: Filter, at: seq<nat>): seq<Timeline>
    requires forall k :: 0 <= k < |at| ==> at[k] < |log|
  {
    seq(|at|, k requires 0 <= k < |at| => TimelineAt(w, log, f, at[k]))
  }

  function WalkLists(w: World, log: seq<Event>, f: Filter, at: seq<nat>): seq<seq<Bytes>>
    requires forall k :: 0 <= k < |at| ==> at[k] < |log|
  {
    seq(|at|, k requires 0 <= k < |at| => FullList(w, log, f, at[k]))
  }

  function WalkReads(log: seq<Event>, at: seq<nat>): seq<seq<Bytes>>
    requires forall k :: 0 <= k < |at| ==> at[k] < |log|
  {
    seq(|at| + 1, k requires 0 <= k <= |at| => ReadBy(log, at, k))
  }

  // Every match created during the walk is newer than what the walk had read by then.
  ghost predicate NewerThanRead(w: World, log: seq<Event>, f: Filter, at: seq<nat>)
    requires forall k :: 0 <= k < |at| ==> at[k] < |log|
  {
    AllNewer(WalkTimes(w, log, f, at), WalkReads(log, at))
  }

  // A walk during which every creation has a new identifier.
  ghost predicate FreshWalk(w: World, log: seq<Event>, f: Filter, limit: u32, at: seq<nat>) {
    && Faithful(w, log) && at != [] && IsWalk(log, f, limit, at) && AsksFixedFields(f)
    && FreshThroughout(w, log, at[0], at[|at| - 1])
  }

  // The reads of a walk are in the order of the log, between the first and the last.
  lemma WalkPlaces(log: seq<Event>, f: Filter, limit: u32, at: seq<nat>, j: nat, k: nat)
    requires IsWalk(log, f, limit, at) && j <= k < |at|
    ensures at[0] <= at[j] <= at[k] <= at[|at| - 1] < |log|
  {
    WalkRises(log, f, limit, at, 0, j);
    WalkRises(log, f, limit, at, j, k);
    WalkRises(log, f, limit, at, k, |at| - 1);
  }

  lemma FreshBetween(w: World, log: seq<Event>, f: Filter, limit: u32, at: seq<nat>, j: nat, k: nat)
    requires FreshWalk(w, log, f, limit, at) && j <= k < |at|
    ensures at[j] <= at[k] < |log| && FreshThroughout(w, log, at[j], at[k])
  {
    WalkPlaces(log, f, limit, at, j, k);
  }

  lemma WalkMatchesStay(w: World, log: seq<Event>, f: Filter, limit: u32, at: seq<nat>, j: nat, k: nat)
    requires FreshWalk(w, log, f, limit, at) && j <= k < |at|
    ensures Within(TimelineAt(w, log, f, at[j]), TimelineAt(w, log, f, at[k]))
  {
    FreshBetween(w, log, f, limit, at, j, k);
    MatchesStay(w, log, f, at[j], at[k]);
  }

  lemma ReadByIsPage(w: World, log: seq<Event>, f: Filter, limit: u32, at: seq<nat>, k: nat)
    requires Faithful(w, log) && IsWalk(log, f, limit, at) && k < |at|
    ensures ReadBy(log, at, k + 1) ==
            ReadBy(log, at, k) + SkipTake(FullList(w, log, f, at[k]), |ReadBy(log, at, k)|, limit as nat)
  {
    ReadByNext(log, at, k);
    ReadByLength(log, f, limit, at, k);
    ReadIsPage(w, log, f, limit, at[k], k);
  }

  lemma WalkReadsNext(w: World, log: seq<Event>, f: Filter, limit: u32, at: seq<nat>, n: nat, k: nat)
    requires Faithful(w, log) && IsWalk(log, f, limit, at) && k < |at| && n == limit as nat
    ensures IsNextRead(WalkTimes(w, log, f, at), WalkLists(w, log, f, at), WalkReads(log, at), n, k)
  {
    FullListOrders(w, log, f, limit, at[k], k);
    ReadByIsPage(w, log, f, limit, at, k);
  }

  lemma WalkStays(w: World, log: seq<Event>, f: Filter, limit: u32, at: seq<nat>, j: nat, k: nat)
    requires FreshWalk(w, log, f, limit, at) && j <= k < |at|
    ensures Stays(WalkTimes(w, log, f, at), j, k)
  {
    WalkMatchesStay(w, log, f, limit, at, j, k);
  }

  lemma WalkIsReading(w: World, log: seq<Event>, f: Filter, limit: u32, at: seq<nat>)
    requires FreshWalk(w, log, f, limit, at)
    ensures IsReading(WalkTimes(w, log, f, at), WalkLists(w, log, f, at), WalkReads(log, at), limit as nat)
  {
    var ts, lists, got, n := WalkTimes(w, log, f, at), WalkLists(w, log, f, at), WalkReads(log, at), limit as nat;
    forall k | 0 <= k < |ts|
      ensures IsNextRead(ts, lists, got, n, k)
    {
      WalkReadsNext(w, log, f, limit, at, n, k);
    }
    forall j, k | 0 <= j <= k < |ts|
      ensures Stays(ts, j, k)
    {
      WalkStays(w, log, f, limit, at, j, k);
    }
  }

  // Page-walk stability under growth. With a filter on fixed fields, new identifiers and
  // distinct times among the matches, the pages read at successive moments join to a prefix of
  // the last full list exactly if every match created meanwhile was newer than what had been
  // read by then.
  lemma PageWalkIsStable(w: World, log: seq<Event>, f: Filter, limit: u32, at: seq<nat>)
    requires FreshWalk(w, log, f, limit, at) && DistinctTimes(TimelineAt(w, log, f, at[|at| - 1]))
    ensures Collected(log, at) <= FullList(w, log, f, at[|at| - 1]) <==> NewerThanRead(w, log, f, at)
  {
    WalkIsReading(w, log, f, limit, at);
    ReadingIsExact(WalkTimes(w, log, f, at), WalkLists(w, log, f, at), WalkReads(log, at), limit as nat);
    assert at[..|at|] == at;
  }

  lemma ShortPageEnds<T>(list: seq<T>, read: seq<T>, page: nat, limit: nat)
    requires read + Page(list, page, limit) <= list && |read| == page * limit && |Page(list, page, limit)| < limit
    ensures read + Page(list, page, limit) == list
  {
    PageLength(list, page, limit);
  }

  lemma ShortWalkEnds(w: World, log: seq<Event>, f: Filter, limit: u32, at: seq<nat>)
    requires Faithful(w, log) && at != [] && IsWalk(log, f, limit, at)
    requires Collected(log, at) <= FullList(w, log, f, at[|at| - 1])
    requires |PageRead(log[at[|at| - 1]])| < limit as nat
    ensures Collected(log, at) == FullList(w, log, f, at[|at| - 1])
  {
    var k := |at| - 1;
    assert at[..k + 1] == at;
    ReadByNext(log, at, k);
    ReadByLength(log, f, limit, at, k);
    ReadIsPage(w, log, f, limit, at[k], k);
    ShortPageEnds(FullList(w, log, f, at[k]), ReadBy(log, at, k), k, limit as nat);
  }

  lemma MatchIsListed(w: World, log: seq<Event>, f: Filter, limit: u32, at: seq<nat>, id: Bytes)
    requires FreshWalk(w, log, f, limit, at) && Matches(Replay(w, log[..at[0]]).requests, f, id)
    ensures id in FullList(w, log, f, at[|at| - 1])
  {
    assert id in TimelineAt(w, log, f, at[0]);
    WalkMatchesStay(w, log, f, limit, at, 0, |at| - 1);
    FullListOrders(w, log, f, limit, at[|at| - 1], |at| - 1);
  }

  // Such a walk repeats nothing, ...
  lemma RightWalkHasNoRepeats(w: World, log: seq<Event>, f: Filter, limit: u32, at: seq<nat>)
    requires Faithful(w, log) && at != [] && IsWalk(log, f, limit, at)
    requires Collected(log, at) <= FullList(w, log, f, at[|at| - 1])
    ensures NoRepeats(Collected(log, at))
  {
    var k := |at| - 1;
    FullListOrders(w, log, f, limit, at[k], k);
    PrefixHasNoRepeats(Collected(log, at), TimelineAt(w, log, f, at[k]), FullList(w, log, f, at[k]));
  }

  // ... and once a page is short it has the whole list, and so every match there was at the start.
  lemma RightWalkIsComplete(w: World, log: seq<Event>, f: Filter, limit: u32, at: seq<nat>, id: Bytes)
    requires FreshWalk(w, log, f, limit, at) && Matches(Replay(w, log[..at[0]]).requests, f, id)
    requires Collected(log, at) <= FullList(w, log, f, at[|at| - 1])
    requires |PageRead(log[at[|at| - 1]])| < limit as nat
    ensures Collected(log, at) == FullList(w, log, f, at[|at| - 1])
    ensures id in Collected(log, at)
  {
    ShortWalkEnds(w, log, f, limit, at);
    MatchIsListed(w, log, f, limit, at, id);
  }

  lemma GrowsBetween(w: World, log: seq<Event>, f: Filter, limit: u32, at: seq<nat>, k: nat)
    requires FreshWalk(w, log, f, limit, at) && 0 < k < |at|
    requires NewerThroughout(w, log, f, at[0], at[|at| - 1])
    ensures Grows(TimelineAt(w, log, f, at[k - 1]), TimelineAt(w, log, f, at[k]))
  {
    WalkPlaces(log, f, limit, at, k - 1, k);
    MatchesGrow(w, log, f, at[k - 1], at[k]);
  }

  lemma NewerMatchesAreNewer(w: World, log: seq<Event>, f: Filter, limit: u32, at: seq<nat>)
    requires FreshWalk(w, log, f, limit, at) && NewerThroughout(w, log, f, at[0], at[|at| - 1])
    ensures NewerThanRead(w, log, f, at)
  {
    var ts := WalkTimes(w, log, f, at);
    forall k | 0 < k < |ts|
      ensures Grows(ts[k - 1], ts[k])
    {
      GrowsBetween(w, log, f, limit, at, k);
    }
    WalkIsReading(w, log, f, limit, at);
    GrowingIsNewer(ts, WalkLists(w, log, f, at), WalkReads(log, at), limit as nat);
  }

  // In particular it is enough that the times were distinct at the start and every new match is
  // newer than all the matches before it.
  lemma NewerIsEnough(w: World, log: seq<Event>, f: Filter, limit: u32, at: seq<nat>)
    requires FreshWalk(w, log, f, limit, at)
    requires DistinctTimes(TimelineAt(w, log, f, at[0])) && NewerThroughout(w, log, f, at[0], at[|at| - 1])
    ensures DistinctTimes(TimelineAt(w, log, f, at[|at| - 1]))
    ensures NewerThanRead(w, log, f, at)
  {
    WalkPlaces(log, f, limit, at, 0, |at| - 1);
    TimesStayDistinct(w, log, f, at[0], at[|at| - 1]);
    NewerMatchesAreNewer(w, log, f, limit, at);
  }
}
