// The hypotheses of the page-walk theorem, one by one: runs in which that one fails and the others
// hold, and in which a walk repeats one request or misses another. There may have been any records
// before that the filter does not match; except for the walk over a status the filter is any, and
// so may be one on fixed fields.
module FailingWalks {
  import opened Types
  import opened Query
  import opened Handlers
  import opened Machine
  import opened Histories
  import opened Linearizability
  import opened Listings
  import opened PageWalk
  import opened Guarantees
  import opened Schedules
  import opened Boundaries

  /* ----- pages of one request ----- */

  function Paged(f: Filter, page: u32): Filter {
    f.(page := Some(page), limit := Some(1))
  }

  lemma OneOnPage(ids: seq<Bytes>, page: nat)
    ensures Page(ids, page, 1) == if page < |ids| then [ids[page]] else []
  {
    assert page * 1 == page;
  }

  // What a read of one page shows of a list.
  lemma PageShows(requests: Requests, order: seq<Bytes>, f: Filter, page: u32, e: Event)
    requires IsReadOf(e, requests, order, f, page)
    ensures var ids := Ids(Ordered(requests, order, f));
            Ids(PageRead(e)) == if page as nat < |ids| then [ids[page as nat]] else []
  {
    PagingFieldsIgnored(requests, order, f, page, 1);
    IdsOfPage(Ordered(requests, order, f), page as nat, 1);
    OneOnPage(Ids(Ordered(requests, order, f)), page as nat);
  }

  // With distinct times there is one list only.
  lemma ListIs(requests: Requests, order: seq<Bytes>, f: Filter, ids: seq<Bytes>)
    requires KeysOk(requests) && IsOrderOf(order, requests) && Tells(ids, TimelineOf(requests, f))
    ensures Ids(Ordered(requests, order, f)) == ids
  {
    TellsDistinct(TimelineOf(requests, f), ids);
    OrderedTells(requests, order, f);
    TellsUnique(TimelineOf(requests, f), ids, Ids(Ordered(requests, order, f)));
  }

  /* ----- scripts ----- */

  // A run in which two pages of a filter are read, one event apart: the states as the first page
  // is read and after it, as the second page is read and after it; the iteration orders the two
  // reads saw; and the clock by its end.
  datatype Script = Script(
    xs: seq<Action>,
    before: State,
    between: State,
    changed: State,
    after: State,
    filter: Filter,
    order1: seq<Bytes>,
    order2: seq<Bytes>,
    end: nat)
  {
    // The places of the two reads, and of the event between them.
    function First(): nat { |before.log| }
    function Middle(): nat { |before.log| + 1 }
    function Second(): nat { |before.log| + 2 }
    function Reads(): seq<nat> { [First(), Second()] }

    // The matches at the two reads, and the lists they saw.
    ghost function Times1(): Timeline { TimelineOf(before.store.requests, filter) }
    ghost function Times2(): Timeline { TimelineOf(changed.store.requests, filter) }
    function List1(): seq<Bytes> { Ids(Ordered(before.store.requests, order1, filter)) }
    function List2(): seq<Bytes> { Ids(Ordered(changed.store.requests, order2, filter)) }
  }

  ghost predicate IsScript(w: World, c: Script) {
    && Runs(w, INIT, c.xs, c.after) && Ticks(c.xs, 0, c.end)
    && Reachable(w, c.before) && Reachable(w, c.between) && Reachable(w, c.changed)
    && |c.between.log| == c.Middle() && |c.changed.log| == c.Second() && |c.after.log| == c.Second() + 1
    && c.before.log <= c.after.log && c.between.log <= c.after.log && c.changed.log <= c.after.log
    && c.between.store.requests == c.before.store.requests && c.after.store.requests == c.changed.store.requests
    && IsOrderOf(c.order1, c.before.store.requests) && IsOrderOf(c.order2, c.changed.store.requests)
    && IsReadOf(c.after.log[c.First()], c.before.store.requests, c.order1, c.filter, 0)
    && IsReadOf(c.after.log[c.Second()], c.changed.store.requests, c.order2, c.filter, 1)
  }

  // The event is the read of a page of one.
  predicate IsReadOf(e: Event, requests: Requests, order: seq<Bytes>, f: Filter, page: u32) {
    e.call == GetFiltered(Paged(f, page)) && e.response == FilteredAre(Answer(requests, order, Paged(f, page)))
  }

  lemma StateIsReplay(w: World, m: State, log: seq<Event>)
    requires Reachable(w, m) && m.log <= log
    ensures Replay(w, log[..|m.log|]) == m.store && KeysOk(m.store.requests)
  {
    ReachableHistory(w, m);
    KeysAreOk(w, m.log);
    assert log[..|m.log|] == m.log;
  }

  lemma ScriptReplays(w: World, c: Script)
    requires IsScript(w, c)
    ensures var log := c.after.log;
            && Replay(w, log[..c.First()]) == c.before.store
            && Replay(w, log[..c.Middle()]) == c.between.store
            && Replay(w, log[..c.Second()]) == c.changed.store
    ensures KeysOk(c.before.store.requests) && KeysOk(c.changed.store.requests)
  {
    StateIsReplay(w, c.before, c.after.log);
    StateIsReplay(w, c.between, c.after.log);
    StateIsReplay(w, c.changed, c.after.log);
  }

  lemma FreshAround(w: World, log: seq<Event>, n: nat)
    requires n + 1 < |log| && log[n].call.GetFiltered? && IsFresh(w, Replay(w, log[..n + 1]), log[n + 1])
    ensures FreshThroughout(w, log, n, n + 2)
  {
  }

  lemma NewerAround(w: World, log: seq<Event>, f: Filter, n: nat)
    requires n + 1 < |log| && log[n].call.GetFiltered? && IsNewer(w, Replay(w, log[..n + 1]), log[n + 1], f)
    ensures NewerThroughout(w, log, f, n, n + 2)
  {
  }

  /* ----- the hypotheses in a script ----- */

  // Between the reads every creation has a new identifier, ...
  ghost predicate CreatesFresh(w: World, c: Script) {
    c.Second() <= |c.after.log| && FreshThroughout(w, c.after.log, c.First(), c.Second())
  }

  // ... every match created is newer than those before it, ...
  ghost predicate CreatesNewer(w: World, c: Script) {
    c.Second() <= |c.after.log| && NewerThroughout(w, c.after.log, c.filter, c.First(), c.Second())
  }

  // ... and at both reads the matches have distinct times.
  ghost predicate HasDistinctTimes(w: World, c: Script) {
    && c.Second() <= |c.after.log|
    && DistinctTimes(TimelineAt(w, c.after.log, c.filter, c.First()))
    && DistinctTimes(TimelineAt(w, c.after.log, c.filter, c.Second()))
  }

  lemma ScriptIsFresh(w: World, c: Script)
    requires IsScript(w, c) && IsFresh(w, c.between.store, c.after.log[c.Middle()])
    ensures CreatesFresh(w, c)
  {
    StateIsReplay(w, c.between, c.after.log);
    FreshAround(w, c.after.log, c.First());
  }

  lemma ScriptIsNewer(w: World, c: Script)
    requires IsScript(w, c) && IsNewer(w, c.between.store, c.after.log[c.Middle()], c.filter)
    ensures CreatesNewer(w, c)
  {
    StateIsReplay(w, c.between, c.after.log);
    NewerAround(w, c.after.log, c.filter, c.First());
  }

  lemma ScriptIsDistinct(w: World, c: Script)
    requires IsScript(w, c) && DistinctTimes(c.Times1()) && DistinctTimes(c.Times2())
    ensures HasDistinctTimes(w, c)
  {
    ScriptReplays(w, c);
  }

  /* ----- what the walk of a script collects ----- */

  ghost predicate Collects(w: World, c: Script, read: seq<Bytes>) {
    && IsScript(w, c)
    && IsWalk(c.after.log, c.filter, 1, c.Reads()) && Collected(c.after.log, c.Reads()) == read
  }

  // And it does not collect `missed`, which matched at the first read and matches at the end.
  ghost predicate Fails(w: World, c: Script, read: seq<Bytes>, missed: Bytes) {
    && Collects(w, c, read) && missed !in read
    && Matches(Replay(w, c.after.log[..c.First()]).requests, c.filter, missed)
    && Matches(c.after.store.requests, c.filter, missed)
  }

  lemma TwoReads(log: seq<Event>, i: nat, j: nat, f: Filter)
    requires i < j < |log| && |PageRead(log[i])| == 1
    requires log[i].call == GetFiltered(Paged(f, 0)) && log[j].call == GetFiltered(Paged(f, 1))
    ensures IsWalk(log, f, 1, [i, j]) && Collected(log, [i, j]) == Ids(PageRead(log[i])) + Ids(PageRead(log[j]))
  {
    assert [i, j][..1] == [i];
    assert [i][..0] == [];
    assert Collected(log, [i]) == [] + Ids(PageRead(log[i]));
  }

  // The first element of the first list, and the second, if there is one, of the second.
  lemma ScriptCollects(w: World, c: Script)
    requires IsScript(w, c) && c.List1() != []
    ensures Collects(w, c, if |c.List2()| > 1 then [c.List1()[0], c.List2()[1]] else [c.List1()[0]])
  {
    ScriptShows(w, c);
    ReadsAre(w, c);
    TwoReads(c.after.log, c.First(), c.Second(), c.filter);
  }

  lemma ScriptShows(w: World, c: Script)
    requires IsScript(w, c) && c.List1() != []
    ensures Ids(PageRead(c.after.log[c.First()])) == [c.List1()[0]]
    ensures Ids(PageRead(c.after.log[c.Second()])) == if |c.List2()| > 1 then [c.List2()[1]] else []
  {
    PageShows(c.before.store.requests, c.order1, c.filter, 0, c.after.log[c.First()]);
    PageShows(c.changed.store.requests, c.order2, c.filter, 1, c.after.log[c.Second()]);
  }

  lemma ReadsAre(w: World, c: Script)
    requires IsScript(w, c)
    ensures c.after.log[c.First()].call == GetFiltered(Paged(c.filter, 0))
    ensures c.after.log[c.Second()].call == GetFiltered(Paged(c.filter, 1))
  {
  }

  // With distinct times the lists are the timelines told.
  lemma ListsCollect(w: World, c: Script, a: seq<Bytes>, b: seq<Bytes>)
    requires IsScript(w, c) && Tells(a, c.Times1()) && Tells(b, c.Times2()) && a != []
    ensures Collects(w, c, if |b| > 1 then [a[0], b[1]] else [a[0]])
    ensures Ids(PageRead(c.after.log[c.Second()])) == if |b| > 1 then [b[1]] else []
    ensures HasDistinctTimes(w, c)
  {
    ScriptReplays(w, c);
    ListIs(c.before.store.requests, c.order1, c.filter, a);
    ListIs(c.changed.store.requests, c.order2, c.filter, b);
    ScriptCollects(w, c);
    PageShows(c.changed.store.requests, c.order2, c.filter, 1, c.after.log[c.Second()]);
    TellsDistinct(c.Times1(), a);
    TellsDistinct(c.Times2(), b);
    ScriptIsDistinct(w, c);
  }

  lemma MatchesThroughout(w: World, c: Script, b: Bytes)
    requires IsScript(w, c) && b in c.Times1() && b in c.Times2()
    ensures Matches(Replay(w, c.after.log[..c.First()]).requests, c.filter, b)
    ensures Matches(c.after.store.requests, c.filter, b)
  {
    ScriptReplays(w, c);
  }

  /* ----- the runs ----- */

  // A scripted run to a state in which the filter matches nothing, two requests that match it and
  // come next, and the iteration orders that the two reads of the walk will see.
  datatype Setup = Setup(
    xs: seq<Action>,
    start: State,
    end: nat,
    filter: Filter,
    x: Op,
    y: Op,
    order1: seq<Bytes>,
    order2: seq<Bytes>)
  {
    ghost predicate Valid(w: World) {
      && Scripted(w, xs, start, end) && TimelineOf(start.store.requests, filter) == map[]
      && IsRequest(w, x) && IsRequest(w, y) && end <= x.draws.now <= y.draws.now
      && x.draws.id != y.draws.id && x.draws.id !in start.store.requests && y.draws.id !in start.store.requests
      && Passes(filter, Record(w, x).request) && Passes(filter, Record(w, y).request)
    }

    // The record that a request made now gets.
    function Record(w: World, z: Op): Entry
      requires IsRequest(w, z)
    {
      EntryFor(w, start.store.programs, z)
    }

    // The requests with the younger of the two, and with both.
    function WithOne(w: World): Requests
      requires IsRequest(w, y)
    {
      start.store.requests[y.draws.id := Record(w, y)]
    }

    function WithTwo(w: World): Requests
      requires IsRequest(w, x) && IsRequest(w, y)
    {
      start.store.requests[x.draws.id := Record(w, x)][y.draws.id := Record(w, y)]
    }
  }

  // The script is one of this setup.
  predicate IsOf(c: Script, u: Setup) {
    c.filter == u.filter && c.order1 == u.order1 && c.order2 == u.order2
  }

  lemma ReadGoes(w: World, xs: seq<Action>, m: State, end: nat, f: Filter, order: seq<Bytes>, page: u32)
    returns (xs': seq<Action>, s: State)
    requires Scripted(w, xs, m, end) && IsOrderOf(order, m.store.requests)
    ensures Scripted(w, xs', s, end)
    ensures s.store.programs == m.store.programs && s.store.requests == m.store.requests
    ensures |s.threads| > |m.threads| && s.threads[..|m.threads|] == m.threads
    ensures |s.log| == |m.log| + 1 && m.log <= s.log && IsReadOf(s.log[|m.log|], m.store.requests, order, f, page)
  {
    var d := Draws([], [], seq(16, _ => 0), end, order, Failed);
    xs', s := Goes(w, xs, m, end, GetFiltered(Paged(f, page)), d);
  }

  lemma TimesOfTwo(requests: Requests, f: Filter, a: Bytes, b: Bytes, ea: Entry, eb: Entry)
    requires TimelineOf(requests, f) == map[] && a !in requests && b !in requests && a != b
    requires Passes(f, ea.request) && Passes(f, eb.request)
    ensures TimelineOf(requests[a := ea][b := eb], f) == map[a := ea.request.createdAt, b := eb.request.createdAt]
  {
    InsertedExtendsTimeline(requests, f, a, ea);
    InsertedExtendsTimeline(requests[a := ea], f, b, eb);
  }

  // The two are requested, and the first page is read.
  lemma TwoThenRead(w: World, u: Setup) returns (xs: seq<Action>, before: State, between: State)
    requires u.Valid(w) && IsOrderOf(u.order1, u.WithTwo(w))
    ensures Scripted(w, xs, between, u.y.draws.now) && Reachable(w, before)
    ensures before.store.requests == between.store.requests == u.WithTwo(w)
    ensures between.store.programs == u.start.store.programs
    ensures |between.log| == |before.log| + 1 && before.log <= between.log
    ensures IsReadOf(between.log[|before.log|], before.store.requests, u.order1, u.filter, 0)
  {
    var one;
    xs, one := RequestGoes(w, u.xs, u.start, u.end, u.x);
    xs, before := RequestGoes(w, xs, one, u.x.draws.now, u.y);
    assert Reachable(w, before);
    xs, between := ReadGoes(w, xs, before, u.y.draws.now, u.filter, u.order1, 0);
  }

  // The second page is read, and the script is complete.
  lemma SecondRead(w: World, u: Setup, xs: seq<Action>, before: State, between: State, changed: State, end: nat)
    returns (c: Script)
    requires Scripted(w, xs, changed, end) && Reachable(w, before) && Reachable(w, between)
    requires |between.log| == |before.log| + 1 && |changed.log| == |before.log| + 2
    requires before.log <= between.log <= changed.log && between.store.requests == before.store.requests
    requires IsOrderOf(u.order1, before.store.requests) && IsOrderOf(u.order2, changed.store.requests)
    requires IsReadOf(between.log[|before.log|], before.store.requests, u.order1, u.filter, 0)
    ensures IsScript(w, c) && IsOf(c, u) && c.end == end
    ensures c.before == before && c.between == between && c.changed == changed && changed.log <= c.after.log
  {
    assert Reachable(w, changed);
    var ys, after := ReadGoes(w, xs, changed, end, u.filter, u.order2, 1);
    c := Script(ys, before, between, changed, after, u.filter, u.order1, u.order2, end);
  }

  // A third request between the reads.
  lemma RequestBetween(w: World, u: Setup, z: Op) returns (c: Script)
    requires u.Valid(w) && IsRequest(w, z) && u.y.draws.now <= z.draws.now
    requires IsOrderOf(u.order1, u.WithTwo(w)) && IsOrderOf(u.order2, u.WithTwo(w)[z.draws.id := u.Record(w, z)])
    ensures IsScript(w, c) && IsOf(c, u) && c.end == z.draws.now
    ensures c.before.store.requests == u.WithTwo(w)
    ensures c.changed.store.requests == c.before.store.requests[z.draws.id := u.Record(w, z)]
    ensures c.after.log[c.Middle()].draws == Early(z.draws)
  {
    var xs, before, between := TwoThenRead(w, u);
    assert Reachable(w, between);
    var changed;
    xs, changed := RequestGoes(w, xs, between, u.y.draws.now, z);
    c := SecondRead(w, u, xs, before, between, changed, z.draws.now);
  }

  // A failure between the reads.
  lemma FailureBetween(w: World, u: Setup, failure: FailFulfillmentBody) returns (c: Script)
    requires u.Valid(w) && failure.requestId == u.x.draws.id
    requires IsOrderOf(u.order1, u.WithTwo(w)) && IsOrderOf(u.order2, u.WithTwo(w))
    ensures IsScript(w, c) && IsOf(c, u) && c.end == u.y.draws.now
    ensures c.before.store.requests == u.WithTwo(w)
    ensures var id := u.x.draws.id;
            c.changed.store.requests ==
            c.before.store.requests[id := MarkFailed(c.before.store.requests[id], failure.error, u.y.draws)]
    ensures c.after.log[c.Middle()].call == FailFulfillment(Some(failure))
  {
    var xs, before, between := TwoThenRead(w, u);
    assert Reachable(w, between);
    var changed;
    xs, changed := FailureGoes(w, xs, between, u.y.draws.now, failure, u.y.draws);
    c := SecondRead(w, u, xs, before, between, changed, u.y.draws.now);
  }

  lemma ThirdIsNewer(w: World, c: Script, time: nat)
    requires |c.after.log| == c.Second() + 1 && time < c.after.log[c.Middle()].draws.now
    requires c.between.store.requests == c.before.store.requests
    requires forall a :: a in c.Times1() ==> c.Times1()[a] <= time
    ensures IsNewer(w, c.between.store, c.after.log[c.Middle()], c.filter)
  {
    assert TimelineOf(c.between.store.requests, c.filter) == c.Times1();
  }

  /* ----- distinct times ----- */

  // Two matches of the same age, all others newer.
  ghost predicate IsTie(requests: Requests, f: Filter, a: Bytes, b: Bytes) {
    && Matches(requests, f, a) && Matches(requests, f, b)
    && requests[a].request.createdAt == requests[b].request.createdAt
    && forall c :: Matches(requests, f, c) && c != a && c != b ==>
         requests[a].request.createdAt < requests[c].request.createdAt
  }

  lemma TimelineIsTie(requests: Requests, f: Filter, a: Bytes, b: Bytes, time: nat)
    requires TimelineOf(requests, f) == map[a := time, b := time]
    ensures IsTie(requests, f, a, b) && IsTie(requests, f, b, a) && requests[b].request.createdAt == time
  {
    assert a in TimelineOf(requests, f) && b in TimelineOf(requests, f);
    assert forall c :: Matches(requests, f, c) ==> c in TimelineOf(requests, f);
  }

  lemma TieStays(requests: Requests, f: Filter, a: Bytes, b: Bytes, c: Bytes, e: Entry)
    requires IsTie(requests, f, a, b) && c !in requests && requests[a].request.createdAt < e.request.createdAt
    ensures IsTie(requests[c := e], f, a, b)
  {
  }

  // In a tie, each read shows the one that its iteration order has at the place.
  lemma TieFails(w: World, c: Script, a: Bytes, b: Bytes)
    requires IsScript(w, c) && a != b && Before(c.order1, a, b) && Before(c.order2, b, a)
    requires IsTie(c.before.store.requests, c.filter, a, b) && IsTie(c.changed.store.requests, c.filter, b, a)
    ensures Fails(w, c, [a, a], b)
  {
    ScriptReplays(w, c);
    TieLeads(c.before.store.requests, c.order1, c.filter, a, b);
    TieLeads(c.changed.store.requests, c.order2, c.filter, b, a);
    ScriptCollects(w, c);
  }

  lemma NewerThanTie(w: World, c: Script, a: Bytes, b: Bytes, time: nat)
    requires |c.after.log| == c.Second() + 1 && time < c.after.log[c.Middle()].draws.now
    requires c.between.store.requests == c.before.store.requests && c.Times1() == map[a := time, b := time]
    ensures IsNewer(w, c.between.store, c.after.log[c.Middle()], c.filter)
  {
    ThirdIsNewer(w, c, time);
  }

  lemma TieOutcome(w: World, c: Script, a: Bytes, b: Bytes, id: Bytes, e: Entry, time: nat)
    requires IsScript(w, c) && a != b && Before(c.order1, a, b) && Before(c.order2, b, a)
    requires c.Times1() == map[a := time, b := time]
    requires c.changed.store.requests == c.before.store.requests[id := e] && id !in c.before.store.requests
    requires var d := c.after.log[c.Middle()].draws; d.id == id && time < d.now == e.request.createdAt
    ensures Fails(w, c, [a, a], b) && CreatesFresh(w, c) && CreatesNewer(w, c)
  {
    TimelineIsTie(c.before.store.requests, c.filter, a, b, time);
    TieStays(c.before.store.requests, c.filter, b, a, id, e);
    TieFails(w, c, a, b);
    NewerThanTie(w, c, a, b, time);
    ScriptIsFresh(w, c);
    ScriptIsNewer(w, c);
  }

  // Two requests of the same second, then any third: if the map's iteration order has one of the
  // two first at the first read and the other at the second, as it may when the map has grown in
  // between, one is shown twice and the other never.
  lemma TiesRepeat(w: World, u: Setup, z: Op) returns (c: Script)
    requires u.Valid(w) && u.x.draws.now == u.y.draws.now
    requires IsRequest(w, z) && u.y.draws.now < z.draws.now && z.draws.id !in u.WithTwo(w)
    requires IsOrderOf(u.order1, u.WithTwo(w)) && IsOrderOf(u.order2, u.WithTwo(w)[z.draws.id := u.Record(w, z)])
    requires Before(u.order1, u.x.draws.id, u.y.draws.id) && Before(u.order2, u.y.draws.id, u.x.draws.id)
    ensures IsOf(c, u) && Fails(w, c, [u.x.draws.id, u.x.draws.id], u.y.draws.id)
    ensures CreatesFresh(w, c) && CreatesNewer(w, c)
  {
    c := RequestBetween(w, u, z);
    TimesOfTwo(u.start.store.requests, u.filter, u.x.draws.id, u.y.draws.id, u.Record(w, u.x), u.Record(w, u.y));
    TieOutcome(w, c, u.x.draws.id, u.y.draws.id, z.draws.id, u.Record(w, z), u.x.draws.now);
  }

  /* ----- new identifiers ----- */

  lemma TwoAreTold(a: Bytes, b: Bytes, time: nat, later: nat)
    requires a != b && time < later
    ensures Tells([a, b], map[a := time, b := later])
  {
  }

  lemma ReplacedMoves(requests: Requests, f: Filter, a: Bytes, b: Bytes, e: Entry, time: nat, later: nat)
    requires a != b && TimelineOf(requests, f) == map[a := time, b := later] && Passes(f, e.request)
    ensures TimelineOf(requests[a := e], f) == map[b := later, a := e.request.createdAt]
  {
    var t := TimelineOf(requests, f);
    assert forall id :: id in requests && Passes(f, requests[id].request) <==> id in t;
  }

  lemma TimesOfMove(c: Script, a: Bytes, b: Bytes, e: Entry, time: nat, later: nat)
    requires a != b && c.Times1() == map[a := time, b := later] && Passes(c.filter, e.request)
    requires c.changed.store.requests == c.before.store.requests[a := e]
    ensures c.Times2() == map[b := later, a := e.request.createdAt]
  {
    ReplacedMoves(c.before.store.requests, c.filter, a, b, e, time, later);
  }

  lemma MoveOutcome(w: World, c: Script, a: Bytes, b: Bytes, first: nat, second: nat, third: nat)
    requires IsScript(w, c) && a != b && first < second < third
    requires c.Times1() == map[a := first, b := second] && c.Times2() == map[b := second, a := third]
    requires c.after.log[c.Middle()].draws.now == third
    ensures Fails(w, c, [a, a], b) && HasDistinctTimes(w, c) && CreatesNewer(w, c)
  {
    TwoAreTold(a, b, first, second);
    TwoAreTold(b, a, second, third);
    ListsCollect(w, c, [a, b], [b, a]);
    MatchesThroughout(w, c, b);
    ThirdIsNewer(w, c, second);
    ScriptIsNewer(w, c);
  }

  // A request with the identifier of one that was read moves that one to the end, in any
  // iteration orders.
  lemma RepeatedIdentifierRepeats(w: World, u: Setup, z: Op) returns (c: Script)
    requires u.Valid(w) && IsRequest(w, z) && Passes(u.filter, u.Record(w, z).request)
    requires z.draws.id == u.x.draws.id && u.x.draws.now < u.y.draws.now < z.draws.now
    requires IsOrderOf(u.order1, u.WithTwo(w)) && IsOrderOf(u.order2, u.WithTwo(w))
    ensures IsOf(c, u) && Fails(w, c, [u.x.draws.id, u.x.draws.id], u.y.draws.id)
    ensures HasDistinctTimes(w, c) && CreatesNewer(w, c)
  {
    c := RequestBetween(w, u, z);
    TimesOfTwo(u.start.store.requests, u.filter, u.x.draws.id, u.y.draws.id, u.Record(w, u.x), u.Record(w, u.y));
    TimesOfMove(c, u.x.draws.id, u.y.draws.id, u.Record(w, z), u.x.draws.now, u.y.draws.now);
    MoveOutcome(w, c, u.x.draws.id, u.y.draws.id, u.x.draws.now, u.y.draws.now, z.draws.now);
  }

  /* ----- fixed fields ----- */

  lemma DepartureOutcome(w: World, c: Script, a: Bytes, b: Bytes, time: nat, later: nat)
    requires IsScript(w, c) && a != b && time < later
    requires c.Times1() == map[a := time, b := later] && c.Times2() == map[a := time, b := later] - {a}
    requires c.after.log[c.Middle()].call.FailFulfillment?
    ensures Fails(w, c, [a], b) && PageRead(c.after.log[c.Second()]) == []
    ensures HasDistinctTimes(w, c) && CreatesFresh(w, c) && CreatesNewer(w, c)
  {
    TwoAreTold(a, b, time, later);
    assert Tells([b], map[a := time, b := later] - {a});
    ListsCollect(w, c, [a, b], [b]);
    MatchesThroughout(w, c, b);
    ScriptIsFresh(w, c);
    ScriptIsNewer(w, c);
  }

  // The poll for a prover's Assigned work, while the request that was read is failed: the other
  // one, Assigned all the time, is on no page, and the last page is short.
  lemma StatusWalkSkips(w: World, u: Setup, prover: Bytes, failure: FailFulfillmentBody) returns (c: Script)
    requires u.Valid(w) && u.filter == WorkPoll(prover)
    requires u.x.draws.now < u.y.draws.now && failure.requestId == u.x.draws.id
    requires IsOrderOf(u.order1, u.WithTwo(w)) && IsOrderOf(u.order2, u.WithTwo(w))
    ensures IsOf(c, u) && Fails(w, c, [u.x.draws.id], u.y.draws.id) && PageRead(c.after.log[c.Second()]) == []
    ensures HasDistinctTimes(w, c) && CreatesFresh(w, c) && CreatesNewer(w, c)
  {
    c := FailureBetween(w, u, failure);
    TimesOfTwo(u.start.store.requests, u.filter, u.x.draws.id, u.y.draws.id, u.Record(w, u.x), u.Record(w, u.y));
    assert u.x.draws.id in c.Times1();
    FailingLeavesPoll(c.before.store.requests, prover, u.x.draws.id, failure.error, u.y.draws);
    DepartureOutcome(w, c, u.x.draws.id, u.y.draws.id, u.x.draws.now, u.y.draws.now);
  }

  /* ----- newer matches: a monotone clock is not enough ----- */

  ghost predicate IsPrepared(w: World, s: State, t: nat, x: Op) {
    && t < |s.threads| && Admit(w, x.call).Admitted?
    && s.threads[t] == Thread(x.call, WantPrograms, Early(x.draws), Admit(w, x.call).signer, None,
                              s.threads[t].startedAt, 0)
  }

  // The two arrive, one after the other, and read the clock.
  lemma TwoPrepared(w: World, u: Setup) returns (xs: seq<Action>, s: State)
    requires u.Valid(w)
    ensures Scripted(w, xs, s, u.y.draws.now) && s.store == u.start.store && s.log == u.start.log
    ensures IsPrepared(w, s, |u.start.threads|, u.x) && IsPrepared(w, s, |u.start.threads| + 1, u.y)
  {
    var m, xs1, xs2;
    xs1, m := Admits(w, u.start, u.x.call, Admit(w, u.x.call).signer, u.x.draws);
    xs2, s := Admits(w, m, u.y.call, Admit(w, u.y.call).signer, u.y.draws);
    RunsJoin(w, INIT, u.xs, u.start, xs1, m);
    RunsJoin(w, INIT, u.xs + xs1, m, xs2, s);
    ReadsOnlyTicks(xs1, u.end, u.x.draws.now);
    ReadsOnlyTicks(xs2, u.x.draws.now, u.y.draws.now);
    TicksJoin(u.xs, xs1, 0, u.end, u.x.draws.now);
    TicksJoin(u.xs + xs1, xs2, 0, u.x.draws.now, u.y.draws.now);
    xs := u.xs + xs1 + xs2;
  }

  // A prepared request takes its guards and commits.
  lemma CommitGoes(w: World, xs: seq<Action>, m: State, end: nat, t: nat, x: Op)
    returns (xs': seq<Action>, s: State)
    requires Scripted(w, xs, m, end) && IsRequest(w, x) && IsPrepared(w, m, t, x)
    ensures Scripted(w, xs', s, end) && s.store.programs == m.store.programs
    ensures s.store.requests == m.store.requests[x.draws.id := EntryFor(w, m.store.programs, x)]
    ensures |s.threads| == |m.threads| && forall u :: 0 <= u < |m.threads| && u != t ==> s.threads[u] == m.threads[u]
    ensures |s.log| == |m.log| + 1 && m.log <= s.log
    ensures s.log[|m.log|].call == x.call && s.log[|m.log|].draws == Early(x.draws)
  {
    var ys;
    ys, s := CompletesRequest(w, m, t, m.threads[t], end);
    RunsJoin(w, INIT, xs, m, ys, s);
    ReadsOnlyTicks(ys, end, end);
    TicksJoin(xs, ys, 0, end, end);
    xs' := xs + ys;
  }

  // The younger request commits and is read, ...
  lemma YoungerGoes(w: World, u: Setup) returns (xs: seq<Action>, before: State, between: State)
    requires u.Valid(w) && IsOrderOf(u.order1, u.WithOne(w))
    ensures Scripted(w, xs, between, u.y.draws.now) && Reachable(w, before)
    ensures IsPrepared(w, between, |u.start.threads|, u.x)
    ensures before.store.requests == between.store.requests
            == u.WithOne(w)
    ensures between.store.programs == u.start.store.programs
    ensures |between.log| == |before.log| + 1 && before.log <= between.log
    ensures IsReadOf(between.log[|before.log|], before.store.requests, u.order1, u.filter, 0)
  {
    var ready;
    xs, ready := TwoPrepared(w, u);
    xs, before := CommitGoes(w, xs, ready, u.y.draws.now, |u.start.threads| + 1, u.y);
    assert Reachable(w, before);
    xs, between := ReadGoes(w, xs, before, u.y.draws.now, u.filter, u.order1, 0);
    assert between.threads[..|before.threads|][|u.start.threads|] == before.threads[|u.start.threads|];
  }

  // ... then the older one commits and a page is read.
  lemma CommitBetween(w: World, u: Setup) returns (c: Script)
    requires u.Valid(w) && IsOrderOf(u.order1, u.WithOne(w))
    requires IsOrderOf(u.order2, u.WithOne(w)[u.x.draws.id := u.Record(w, u.x)])
    ensures IsScript(w, c) && IsOf(c, u) && c.end == u.y.draws.now
    ensures c.before.store.requests == u.WithOne(w)
    ensures c.changed.store.requests == c.before.store.requests[u.x.draws.id := u.Record(w, u.x)]
    ensures c.after.log[c.Middle()].draws == Early(u.x.draws)
  {
    var xs, before, between := YoungerGoes(w, u);
    assert Reachable(w, between);
    var changed;
    xs, changed := CommitGoes(w, xs, between, u.y.draws.now, |u.start.threads|, u.x);
    c := SecondRead(w, u, xs, before, between, changed, u.y.draws.now);
  }

  lemma TimesOfLate(c: Script, requests: Requests, a: Bytes, b: Bytes, ea: Entry, eb: Entry)
    requires TimelineOf(requests, c.filter) == map[] && a !in requests && b !in requests && a != b
    requires Passes(c.filter, ea.request) && Passes(c.filter, eb.request)
    requires c.before.store.requests == requests[b := eb] && c.changed.store.requests == requests[b := eb][a := ea]
    ensures c.Times1() == map[b := eb.request.createdAt]
    ensures c.Times2() == map[a := ea.request.createdAt, b := eb.request.createdAt]
  {
    InsertedExtendsTimeline(requests, c.filter, b, eb);
    InsertedExtendsTimeline(requests[b := eb], c.filter, a, ea);
  }

  lemma LateOutcome(w: World, c: Script, a: Bytes, b: Bytes, time: nat, later: nat)
    requires IsScript(w, c) && a != b && time < later
    requires c.Times1() == map[b := later] && c.Times2() == map[a := time, b := later]
    requires c.after.log[c.Middle()].draws.id == a && a !in c.before.store.requests
    ensures Collects(w, c, [b, b]) && Matches(c.after.store.requests, c.filter, a)
    ensures HasDistinctTimes(w, c) && CreatesFresh(w, c)
  {
    TwoAreTold(a, b, time, later);
    assert Tells([b], map[b := later]);
    ListsCollect(w, c, [b], [a, b]);
    assert a in c.Times2();
    ScriptIsFresh(w, c);
  }

  // `request_proof` reads the clock before it takes any guard. So any two requests have a run
  // whose clock never goes back, with new identifiers and distinct times, in which a walk of two
  // pages shows the younger request twice and never the older one: that new requests be newer at
  // their commit is a hypothesis that a monotone clock does not give.
  lemma MonotoneClockIsNotEnough(w: World, u: Setup) returns (c: Script)
    requires u.Valid(w) && u.x.draws.now < u.y.draws.now
    requires IsOrderOf(u.order1, u.WithOne(w))
    requires IsOrderOf(u.order2, u.WithOne(w)[u.x.draws.id := u.Record(w, u.x)])
    ensures IsOf(c, u) && Collects(w, c, [u.y.draws.id, u.y.draws.id])
    ensures Matches(c.after.store.requests, c.filter, u.x.draws.id)
    ensures HasDistinctTimes(w, c) && CreatesFresh(w, c)
  {
    c := CommitBetween(w, u);
    TimesOfLate(c, u.start.store.requests, u.x.draws.id, u.y.draws.id, u.Record(w, u.x), u.Record(w, u.y));
    LateOutcome(w, c, u.x.draws.id, u.y.draws.id, u.x.draws.now, u.y.draws.now);
  }
}
