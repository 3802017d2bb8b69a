// The ordered answer as a list of identifiers, and exactly when reading on in it is safe.
module Listings {
  import opened Types
  import opened Query

  /* ----- the ordered answer as a listing of the matches ----- */

  ghost predicate KeysOk(requests: Requests) {
    forall id :: id in requests ==> requests[id].request.requestId == id
  }

  predicate Matches(requests: Requests, f: Filter, id: Bytes) {
    id in requests && Passes(f, requests[id].request)
  }

  // `list` holds every matching record once, as stored.
  ghost predicate Lists(requests: Requests, f: Filter, list: seq<ProofRequest>) {
    && (forall i :: 0 <= i < |list| ==>
          Matches(requests, f, list[i].requestId) && list[i] == requests[list[i].requestId].request)
    && (forall id :: Matches(requests, f, id) ==> requests[id].request in list)
    && (forall i, j :: 0 <= i < j < |list| ==> list[i].requestId != list[j].requestId)
  }

  ghost predicate DistinctIds(s: seq<ProofRequest>) {
    forall i, j :: 0 <= i < j < |s| ==> s[i].requestId != s[j].requestId
  }

  lemma {:induction false} ChosenAre(requests: Requests, order: seq<Bytes>, f: Filter)
    requires KeysOk(requests)
    requires forall i, j :: 0 <= i < j < |order| ==> order[i] != order[j]
    ensures forall r :: r in Chosen(requests, order, f) <==>
              r.requestId in order && Matches(requests, f, r.requestId) && r == requests[r.requestId].request
    ensures DistinctIds(Chosen(requests, order, f))
  {
    if order != [] {
      var front, id := order[..|order| - 1], order[|order| - 1];
      ChosenAre(requests, front, f);
      var c := Chosen(requests, front, f);
      assert order == front + [id];
      assert id !in front;
      forall i | 0 <= i < |c|
        ensures c[i].requestId != id
      {
        assert c[i] in c;
      }
    }
  }

  lemma {:induction false} InsertKeepsDistinct(s: seq<ProofRequest>, x: ProofRequest)
    requires DistinctIds(s) && forall i :: 0 <= i < |s| ==> s[i].requestId != x.requestId
    ensures DistinctIds(Insert(s, x))
    ensures forall y :: y in Insert(s, x) <==> y == x || y in s
  {
    if !(s == [] || s[|s| - 1].createdAt <= x.createdAt) {
      var front, z := s[..|s| - 1], s[|s| - 1];
      InsertKeepsDistinct(front, x);
      var r := Insert(front, x);
      assert s == front + [z];
      forall i | 0 <= i < |r|
        ensures r[i].requestId != z.requestId
      {
        assert r[i] in r;
      }
    }
  }

  lemma {:induction false} SortKeepsDistinct(s: seq<ProofRequest>)
    requires DistinctIds(s)
    ensures DistinctIds(StableSort(s))
    ensures forall y :: y in StableSort(s) <==> y in s
  {
    if s != [] {
      var front, x := s[..|s| - 1], s[|s| - 1];
      SortKeepsDistinct(front);
      var r := StableSort(front);
      forall i | 0 <= i < |r|
        ensures r[i].requestId != x.requestId
      {
        assert r[i] in r;
        var j :| 0 <= j < |front| && front[j] == r[i];
      }
      InsertKeepsDistinct(r, x);
      assert s == front + [x];
    }
  }

  // The ordered answer lists every match exactly once, oldest first.
  lemma OrderedLists(requests: Requests, order: seq<Bytes>, f: Filter)
    requires KeysOk(requests) && IsOrderOf(order, requests)
    ensures Lists(requests, f, Ordered(requests, order, f))
    ensures Sorted(Ordered(requests, order, f))
  {
    var chosen := Chosen(requests, order, f);
    var list := Ordered(requests, order, f);
    ChosenAre(requests, order, f);
    SortKeepsDistinct(chosen);
    StableSortSorts(chosen);
    forall i | 0 <= i < |list|
      ensures Matches(requests, f, list[i].requestId) && list[i] == requests[list[i].requestId].request
    {
      assert list[i] in list;
    }
  }

  /* ----- the answer as a timeline of identifiers ----- */

  function Ids(s: seq<ProofRequest>): seq<Bytes> {
    seq(|s|, i requires 0 <= i < |s| => s[i].requestId)
  }

  // The matching identifiers with their creation times.
  type Timeline = map<Bytes, nat>

  function TimelineOf(requests: Requests, f: Filter): Timeline {
    map id | id in requests && Passes(f, requests[id].request) :: requests[id].request.createdAt
  }

  ghost predicate DistinctTimes(t: Timeline) {
    forall a, b :: a in t && b in t && a != b ==> t[a] != t[b]
  }

  ghost predicate NoRepeats(ids: seq<Bytes>) {
    forall i, j :: 0 <= i < j < |ids| ==> ids[i] != ids[j]
  }

  // The identifiers of the timeline, each once, none before an older one.
  ghost predicate Orders(ids: seq<Bytes>, t: Timeline) {
    && (forall i :: 0 <= i < |ids| ==> ids[i] in t)
    && (forall id :: id in t ==> id in ids)
    && NoRepeats(ids)
    && (forall i, j :: 0 <= i < j < |ids| ==> t[ids[i]] <= t[ids[j]])
  }

  lemma PrefixHasNoRepeats(read: seq<Bytes>, t: Timeline, ids: seq<Bytes>)
    requires Orders(ids, t) && read <= ids
    ensures NoRepeats(read)
  {
  }

  // The identifiers of the timeline, each once, from the oldest to the newest.
  ghost predicate Tells(ids: seq<Bytes>, t: Timeline) {
    && (forall i :: 0 <= i < |ids| ==> ids[i] in t)
    && (forall id :: id in t ==> id in ids)
    && (forall i, j :: 0 <= i < j < |ids| ==> t[ids[i]] < t[ids[j]])
  }

  lemma TellsOrders(ids: seq<Bytes>, t: Timeline)
    requires Tells(ids, t)
    ensures Orders(ids, t)
  {
  }

  lemma OrderedOrders(requests: Requests, order: seq<Bytes>, f: Filter)
    requires KeysOk(requests) && IsOrderOf(order, requests)
    ensures Orders(Ids(Ordered(requests, order, f)), TimelineOf(requests, f))
  {
    OrderedLists(requests, order, f);
    var list := Ordered(requests, order, f);
    var ids, t := Ids(list), TimelineOf(requests, f);
    forall i | 0 <= i < |ids|
      ensures ids[i] in t && t[ids[i]] == list[i].createdAt
    {
      assert Matches(requests, f, list[i].requestId);
    }
    forall id | id in t
      ensures id in ids
    {
      assert Matches(requests, f, id);
      var i :| 0 <= i < |list| && list[i] == requests[id].request;
      assert ids[i] == id;
    }
  }

  // With distinct creation times the answer's order depends on nothing else, in particular not
  // on the iteration order of the map.
  lemma OrderedTells(requests: Requests, order: seq<Bytes>, f: Filter)
    requires KeysOk(requests) && IsOrderOf(order, requests)
    requires DistinctTimes(TimelineOf(requests, f))
    ensures Tells(Ids(Ordered(requests, order, f)), TimelineOf(requests, f))
  {
    OrderedOrders(requests, order, f);
  }

  /* ----- when the list still starts with what has been read ----- */

  // Everything that was read is still listed, and all that was not is newer.
  ghost predicate Undisturbed(read: seq<Bytes>, t: Timeline) {
    && (forall a :: a in read ==> a in t)
    && (forall a, b :: a in read && b in t && b !in read ==> a in t && t[a] < t[b])
  }

  ghost predicate ComesFirst(read: seq<Bytes>, t: Timeline) {
    Undisturbed(read, t) && forall i, j :: 0 <= i < j < |read| ==> t[read[i]] < t[read[j]]
  }

  // Of what was not read before place `i`, `read[i]` comes first.
  lemma ReadIsNext(read: seq<Bytes>, t: Timeline, i: nat, b: Bytes)
    requires ComesFirst(read, t) && i < |read| && b in t && forall j :: 0 <= j < i ==> read[j] != b
    ensures read[i] in t && (b == read[i] || t[read[i]] < t[b])
  {
    assert read[i] in read;
    if b in read {
      var m :| 0 <= m < |read| && read[m] == b;
      assert m >= i;
    }
  }

  lemma ReadIsLater(read: seq<Bytes>, t: Timeline, ids: seq<Bytes>, i: nat) returns (k: nat)
    requires ComesFirst(read, t) && Orders(ids, t)
    requires i < |read| && i <= |ids| && forall j :: 0 <= j < i ==> ids[j] == read[j]
    ensures i <= k < |ids| && ids[k] == read[i]
  {
    assert read[i] in read;
    forall j | 0 <= j < i
      ensures ids[j] != read[i]
    {
      assert t[read[j]] < t[read[i]];
    }
    k :| 0 <= k < |ids| && ids[k] == read[i];
  }

  lemma StartsAt(read: seq<Bytes>, t: Timeline, ids: seq<Bytes>, i: nat)
    requires ComesFirst(read, t) && Orders(ids, t)
    requires i < |read| && i <= |ids| && forall j :: 0 <= j < i ==> ids[j] == read[j]
    ensures i < |ids| && ids[i] == read[i]
  {
    var k := ReadIsLater(read, t, ids, i);
    assert t[ids[i]] <= t[ids[k]];
    assert forall j :: 0 <= j < i ==> ids[j] != ids[i];
    ReadIsNext(read, t, i, ids[i]);
  }

  // What comes first in the timeline is what every iteration order lists first.
  lemma {:induction false} StartsWith(read: seq<Bytes>, t: Timeline, ids: seq<Bytes>, n: nat)
    requires ComesFirst(read, t) && Orders(ids, t) && n <= |read|
    ensures n <= |ids| && forall j :: 0 <= j < n ==> ids[j] == read[j]
  {
    if n > 0 {
      StartsWith(read, t, ids, n - 1);
      StartsAt(read, t, ids, n - 1);
    }
  }

  // With distinct times, and so a single possible list, the converse holds as well.
  lemma StartsIffFirst(read: seq<Bytes>, t: Timeline, ids: seq<Bytes>)
    requires Tells(ids, t)
    ensures read <= ids <==> ComesFirst(read, t)
  {
    if ComesFirst(read, t) {
      TellsOrders(ids, t);
      StartsWith(read, t, ids, |read|);
    }
    if read <= ids {
      PrefixIsUndisturbed(read, t, ids);
    }
  }

  lemma PrefixIsUndisturbed(read: seq<Bytes>, t: Timeline, ids: seq<Bytes>)
    requires Tells(ids, t) && read <= ids
    ensures Undisturbed(read, t)
  {
    forall a, b | a in read && b in t && b !in read
      ensures a in t && t[a] < t[b]
    {
      var i :| 0 <= i < |read| && read[i] == a;
      var j :| 0 <= j < |ids| && ids[j] == b;
      assert j >= |read|;
    }
  }

  // Exactly when the next page goes on where the last one ended: `n` identifiers were read, and
  // the list has changed since, but not the times of what is on both.
  lemma NextPageGoesOn(t: Timeline, ids: seq<Bytes>, t': Timeline, ids': seq<Bytes>, n: nat, limit: nat)
    requires Tells(ids, t) && Tells(ids', t') && n <= |ids|
    requires forall a :: a in t && a in t' ==> t[a] == t'[a]
    ensures ids[..n] + SkipTake(ids', n, limit) <= ids' <==> Undisturbed(ids[..n], t')
  {
    StartsIffFirst(ids[..n], t', ids');
    GoesOnIffStarts(ids[..n], ids', limit);
    forall i, j | 0 <= i < j < n && Undisturbed(ids[..n], t')
      ensures t'[ids[i]] < t'[ids[j]]
    {
      assert ids[..n][i] in t' && ids[..n][j] in t';
    }
  }

  lemma GoesOnIffStarts(read: seq<Bytes>, ids: seq<Bytes>, limit: nat)
    ensures read + SkipTake(ids, |read|, limit) <= ids <==> read <= ids
  {
    var next := SkipTake(ids, |read|, limit);
    if read + next <= ids {
      assert read == (read + next)[..|read|];
    }
    if read <= ids {
      assert ids == read + ids[|read|..];
    }
  }

  lemma TellsDistinct(t: Timeline, ids: seq<Bytes>)
    requires Tells(ids, t)
    ensures DistinctTimes(t)
  {
    forall a, b | a in t && b in t && a != b
      ensures t[a] != t[b]
    {
      var i :| 0 <= i < |ids| && ids[i] == a;
      var j :| 0 <= j < |ids| && ids[j] == b;
    }
  }

  // A timeline has one telling.
  lemma TellsUnique(t: Timeline, a: seq<Bytes>, b: seq<Bytes>)
    requires Tells(a, t)
    requires Tells(b, t)
    ensures a == b
  {
    StartsIffFirst(a, t, a);
    StartsIffFirst(a, t, b);
    StartsIffFirst(b, t, b);
    StartsIffFirst(b, t, a);
  }

  /* ----- ties ----- */

  lemma {:induction false} ChosenStarts(requests: Requests, order: seq<Bytes>, f: Filter)
    requires order != [] && Matches(requests, f, order[0])
    ensures Chosen(requests, order, f) != [] && Chosen(requests, order, f)[0] == requests[order[0]].request
  {
    if |order| > 1 {
      ChosenStarts(requests, order[..|order| - 1], f);
    }
  }

  lemma {:induction false} BucketStarts(s: seq<ProofRequest>)
    requires s != []
    ensures Bucket(s, s[0].createdAt) != [] && Bucket(s, s[0].createdAt)[0] == s[0]
  {
    if |s| > 1 {
      BucketStarts(s[..|s| - 1]);
    }
  }

  // The first element of a time is the first of that time's bucket.
  lemma {:induction false} BucketFirst(s: seq<ProofRequest>, i: nat)
    requires i < |s| && forall j :: 0 <= j < i ==> s[j].createdAt != s[i].createdAt
    ensures Bucket(s, s[i].createdAt) != [] && Bucket(s, s[i].createdAt)[0] == s[i]
  {
    var front := s[..|s| - 1];
    if i < |front| {
      BucketFirst(front, i);
    } else {
      BucketNonEmpty(front, s[i].createdAt);
    }
  }

  lemma {:induction false} FirstOfTime(s: seq<ProofRequest>, time: nat, n: nat) returns (i: nat)
    requires n < |s| && s[n].createdAt == time
    ensures i <= n && s[i].createdAt == time && forall j :: 0 <= j < i ==> s[j].createdAt != time
  {
    if k :| 0 <= k < n && s[k].createdAt == time {
      i := FirstOfTime(s, time, k);
    } else {
      i := n;
    }
  }

  // Among equal times, what the iteration order has first the answer has first.
  lemma FirstStaysFirst(s: seq<ProofRequest>, n: nat)
    requires s != [] && n < |StableSort(s)|
    requires forall i :: 0 <= i <= n ==> StableSort(s)[i] != s[0]
    ensures StableSort(s)[n].createdAt != s[0].createdAt
  {
    if StableSort(s)[n].createdAt == s[0].createdAt {
      StableSortSorts(s);
      BucketStarts(s);
      var i := FirstOfTime(StableSort(s), s[0].createdAt, n);
      BucketFirst(StableSort(s), i);
    }
  }

  lemma {:induction false} ChosenHas(requests: Requests, order: seq<Bytes>, f: Filter, a: Bytes)
    requires a in order && Matches(requests, f, a)
    ensures requests[a].request in Chosen(requests, order, f)
  {
    var front, id := order[..|order| - 1], order[|order| - 1];
    assert order == front + [id];
    if a in front {
      ChosenHas(requests, front, f, a);
    }
  }

  lemma {:induction false} ChosenKeepsOrder(requests: Requests, order: seq<Bytes>, f: Filter, a: Bytes, b: Bytes)
    requires Before(order, a, b) && Matches(requests, f, a) && Matches(requests, f, b)
    ensures Before(Chosen(requests, order, f), requests[a].request, requests[b].request)
  {
    var front, id := order[..|order| - 1], order[|order| - 1];
    var rest := Chosen(requests, front, f);
    assert order == front + [id];
    BeforeAppend(front, id, a, b);
    if Before(front, a, b) {
      ChosenKeepsOrder(requests, front, f, a, b);
    } else {
      ChosenHas(requests, front, f, a);
    }
    if Matches(requests, f, id) {
      BeforeAppend(rest, requests[id].request, requests[a].request, requests[b].request);
    }
  }

  // Of two matches of the same age the answer lists first what the iteration order has first.
  lemma AnswerKeepsOrder(requests: Requests, order: seq<Bytes>, f: Filter, a: Bytes, b: Bytes)
    requires KeysOk(requests) && Before(order, a, b) && Matches(requests, f, a) && Matches(requests, f, b)
    requires requests[a].request.createdAt == requests[b].request.createdAt
    ensures Before(Ids(Ordered(requests, order, f)), a, b)
  {
    ChosenKeepsOrder(requests, order, f, a, b);
    var x, y, list := requests[a].request, requests[b].request, Ordered(requests, order, f);
    StableSortKeepsOrder(Chosen(requests, order, f), x, y);
    var i, j :| 0 <= i < j < |list| && list[i] == x && list[j] == y;
    assert Ids(list)[i] == a && Ids(list)[j] == b;
  }

  // Two of the same age that are older than all others lead the list, in their iteration order.
  lemma TieLeads(requests: Requests, order: seq<Bytes>, f: Filter, a: Bytes, b: Bytes)
    requires KeysOk(requests) && IsOrderOf(order, requests) && Before(order, a, b) && a != b
    requires Matches(requests, f, a) && Matches(requests, f, b)
    requires requests[a].request.createdAt == requests[b].request.createdAt
    requires forall c :: Matches(requests, f, c) && c != a && c != b ==>
               requests[a].request.createdAt < requests[c].request.createdAt
    ensures |Ids(Ordered(requests, order, f))| >= 2
    ensures Ids(Ordered(requests, order, f))[0] == a && Ids(Ordered(requests, order, f))[1] == b
  {
    var ids, t := Ids(Ordered(requests, order, f)), TimelineOf(requests, f);
    AnswerKeepsOrder(requests, order, f, a, b);
    OrderedOrders(requests, order, f);
    var i, j :| 0 <= i < j < |ids| && ids[i] == a && ids[j] == b;
    assert forall c :: c in t && c != a && c != b ==> Matches(requests, f, c);
    PairLeads(ids, t, a, b, i, j);
  }

  lemma PairLeads(ids: seq<Bytes>, t: Timeline, a: Bytes, b: Bytes, i: nat, j: nat)
    requires Orders(ids, t) && i < j < |ids| && ids[i] == a && ids[j] == b && t[a] == t[b]
    requires forall c :: c in t && c != a && c != b ==> t[a] < t[c]
    ensures i == 0 && j == 1
  {
    forall m | 0 <= m < j
      ensures ids[m] == a
    {
      assert t[ids[m]] <= t[ids[j]];
    }
    var k := if j > 1 then 1 else 0;
    assert ids[0] == ids[i] && ids[k] == ids[i];
  }

  lemma OrderWithFirst(requests: Requests, b: Bytes) returns (order: seq<Bytes>)
    requires b in requests
    ensures IsOrderOf(order, requests) && order[0] == b
  {
    var rest := OrderExists(requests - {b});
    assert b !in rest;
    order := [b] + rest;
  }

  // In an order that starts with `b`, nothing of its age is listed before it.
  lemma FirstInOrderLeads(requests: Requests, f: Filter, order: seq<Bytes>, b: Bytes, i: nat)
    requires KeysOk(requests) && IsOrderOf(order, requests)
    requires order != [] && order[0] == b && Matches(requests, f, b)
    requires i < |Ids(Ordered(requests, order, f))|
    requires forall j :: 0 <= j <= i ==> Ids(Ordered(requests, order, f))[j] != b
    ensures Ordered(requests, order, f)[i].createdAt < requests[b].request.createdAt
  {
    var list := Ordered(requests, order, f);
    OrderedLists(requests, order, f);
    var p :| 0 <= p < |list| && list[p] == requests[b].request;
    assert Ids(list)[p] == b;
    ChosenStarts(requests, order, f);
    forall j | 0 <= j <= i
      ensures list[j] != requests[b].request
    {
      assert Ids(list)[j] != b;
    }
    FirstStaysFirst(Chosen(requests, order, f), i);
  }

  // If the list starts with `read` in every iteration order, what is not in `read[..i + 1]` is
  // newer than `read[i]`: one of the same age would be listed before it in some order.
  lemma EveryOrderSeparates(requests: Requests, f: Filter, read: seq<Bytes>, i: nat, b: Bytes)
    requires KeysOk(requests) && i < |read| && Matches(requests, f, b)
    requires forall j :: 0 <= j <= i ==> read[j] != b
    requires forall order :: IsOrderOf(order, requests) ==> read <= Ids(Ordered(requests, order, f))
    ensures read[i] in TimelineOf(requests, f) && TimelineOf(requests, f)[read[i]] < requests[b].request.createdAt
  {
    var order := OrderWithFirst(requests, b);
    var list := Ordered(requests, order, f);
    OrderedLists(requests, order, f);
    assert forall j :: 0 <= j <= i ==> Ids(list)[j] == read[j];
    FirstInOrderLeads(requests, f, order, b, i);
    assert Matches(requests, f, list[i].requestId);
  }

  // Exactly when the list starts with `read` whatever the iteration order is: no assumption on
  // the times is left.
  lemma StartsInEveryOrder(requests: Requests, f: Filter, read: seq<Bytes>)
    requires KeysOk(requests)
    ensures (forall order :: IsOrderOf(order, requests) ==> read <= Ids(Ordered(requests, order, f)))
            <==> ComesFirst(read, TimelineOf(requests, f))
  {
    var t := TimelineOf(requests, f);
    if ComesFirst(read, t) {
      forall order | IsOrderOf(order, requests)
        ensures read <= Ids(Ordered(requests, order, f))
      {
        OrderedOrders(requests, order, f);
        StartsWith(read, t, Ids(Ordered(requests, order, f)), |read|);
      }
    }
    if forall order :: IsOrderOf(order, requests) ==> read <= Ids(Ordered(requests, order, f)) {
      EveryOrderStarts(requests, f, read);
    }
  }

  lemma EveryOrderStarts(requests: Requests, f: Filter, read: seq<Bytes>)
    requires KeysOk(requests)
    requires forall order :: IsOrderOf(order, requests) ==> read <= Ids(Ordered(requests, order, f))
    ensures ComesFirst(read, TimelineOf(requests, f))
  {
    var t := TimelineOf(requests, f);
    var order := OrderExists(requests);
    var ids := Ids(Ordered(requests, order, f));
    OrderedOrders(requests, order, f);
    forall i | 0 <= i < |read|
      ensures read[i] == ids[i] && read[i] in t
    {
    }
    forall i, j | 0 <= i < j < |read|
      ensures t[read[i]] < t[read[j]]
    {
      assert forall m :: 0 <= m <= i ==> ids[m] != ids[j];
      EveryOrderSeparates(requests, f, read, i, read[j]);
    }
    forall a, b | a in read && b in t && b !in read
      ensures t[a] < t[b]
    {
      var i :| 0 <= i < |read| && read[i] == a;
      EveryOrderSeparates(requests, f, read, i, b);
    }
  }

  /* ----- when no match is missed ----- */

  function First(ids: seq<Bytes>, n: nat): seq<Bytes> {
    if n <= |ids| then ids[..n] else ids
  }

  ghost function Elements(ids: seq<Bytes>): set<Bytes> {
    set id | id in ids
  }

  lemma {:induction false} SizeOfElements(ids: seq<Bytes>)
    requires NoRepeats(ids)
    ensures |Elements(ids)| == |ids|
  {
    if ids != [] {
      var front, x := ids[..|ids| - 1], ids[|ids| - 1];
      SizeOfElements(front);
      assert ids == front + [x];
      assert Elements(ids) == Elements(front) + {x};
      assert x !in front;
    }
  }

  lemma SubsetSize(a: set<Bytes>, b: set<Bytes>)
    requires a <= b
    ensures |a| <= |b|
    ensures |a| == |b| ==> a == b
  {
    assert b == a + (b - a);
  }

  lemma Pigeonhole(a: seq<Bytes>, b: seq<Bytes>)
    requires NoRepeats(a) && NoRepeats(b) && forall id :: id in a ==> id in b
    ensures |a| <= |b|
    ensures |a| == |b| ==> forall id :: id in b ==> id in a
  {
    SizeOfElements(a);
    SizeOfElements(b);
    SubsetSize(Elements(a), Elements(b));
    if |a| == |b| {
      forall id | id in b
        ensures id in a
      {
        assert id in Elements(b);
      }
    }
  }

  // Some match that was not read is listed before the place where the next read starts.
  ghost predicate Misses(read: seq<Bytes>, t: Timeline, ids: seq<Bytes>) {
    exists b :: b in t && b !in read && b in First(ids, |read|)
  }

  lemma MissesIfDisturbed(read: seq<Bytes>, t: Timeline, ids: seq<Bytes>, b: Bytes)
    requires NoRepeats(read) && Tells(ids, t) && b in t && b !in read && !Misses(read, t, ids)
    ensures Undisturbed(read, t)
  {
    var n := |read|;
    assert b !in First(ids, n);
    assert n < |ids|;
    forall j | 0 <= j < n
      ensures ids[j] in read
    {
      assert First(ids, n)[j] == ids[j];
    }
    Pigeonhole(ids[..n], read);
    forall a, c | a in read && c in t && c !in read
      ensures a in t && t[a] < t[c]
    {
      var i :| 0 <= i < n && ids[..n][i] == a;
      var j :| 0 <= j < |ids| && ids[j] == c;
      assert j >= n;
    }
    assert forall a :: a in read ==> a in t;
  }

  lemma ReadIsBefore(read: seq<Bytes>, t: Timeline, ids: seq<Bytes>, p: nat)
    requires NoRepeats(read) && Tells(ids, t) && Undisturbed(read, t)
    requires p < |ids| && ids[p] !in read
    ensures |read| <= p
  {
    forall a | a in read
      ensures a in ids[..p]
    {
      var i :| 0 <= i < |ids| && ids[i] == a;
      assert t[a] < t[ids[p]];
      assert ids[..p][i] == a;
    }
    Pigeonhole(read, ids[..p]);
  }

  lemma NoneMissedIfUndisturbed(read: seq<Bytes>, t: Timeline, ids: seq<Bytes>)
    requires NoRepeats(read) && Tells(ids, t) && Undisturbed(read, t)
    ensures !Misses(read, t, ids)
  {
    forall p | 0 <= p < |First(ids, |read|)|
      ensures First(ids, |read|)[p] in read
    {
      if ids[p] !in read {
        ReadIsBefore(read, t, ids, p);
      }
    }
  }

  // Reading something twice leaves a place for something else.
  lemma {:induction false} RepeatsHaveFewer(ids: seq<Bytes>)
    requires !NoRepeats(ids)
    ensures |Elements(ids)| < |ids|
  {
    var front, x := ids[..|ids| - 1], ids[|ids| - 1];
    assert ids == front + [x];
    assert Elements(ids) == Elements(front) + {x};
    if NoRepeats(front) {
      SizeOfElements(front);
      assert x in front;
      assert Elements(ids) == Elements(front);
    } else {
      RepeatsHaveFewer(front);
    }
  }

  lemma MissesIfRepeated(read: seq<Bytes>, t: Timeline, ids: seq<Bytes>, b: Bytes)
    requires !NoRepeats(read) && Tells(ids, t) && b in t && b !in read
    ensures Misses(read, t, ids)
  {
    var n := |read|;
    if n < |ids| && forall id :: id in ids[..n] ==> id in read {
      SizeOfElements(ids[..n]);
      RepeatsHaveFewer(read);
      SubsetSize(Elements(ids[..n]), Elements(read));
    } else if n < |ids| {
      var id :| id in ids[..n] && id !in read;
      assert id in First(ids, n);
    } else {
      assert b in First(ids, n);
    }
  }

  // Exactly when a match is missed: something unread is listed, and something was read twice, or
  // what was read is no longer all there or not older than all of it.
  lemma MissesIff(read: seq<Bytes>, t: Timeline, ids: seq<Bytes>)
    requires Tells(ids, t)
    ensures Misses(read, t, ids) <==>
            (exists b :: b in t && b !in read) && (!NoRepeats(read) || !Undisturbed(read, t))
  {
    if b :| b in t && b !in read {
      if !NoRepeats(read) {
        MissesIfRepeated(read, t, ids, b);
      } else if Undisturbed(read, t) {
        NoneMissedIfUndisturbed(read, t, ids);
      } else if !Misses(read, t, ids) {
        MissesIfDisturbed(read, t, ids, b);
      }
    }
  }

  /* ----- reading on while matches are added ----- */

  ghost predicate AllListed(read: seq<Bytes>, t: Timeline) {
    forall a :: a in read ==> a in t
  }

  ghost predicate Within(t: Timeline, t': Timeline) {
    forall a :: a in t ==> a in t' && t'[a] == t[a]
  }

  // Old matches stay, with their creation times; new matches are strictly newer than all of them.
  ghost predicate Grows(t: Timeline, t': Timeline) {
    && Within(t, t')
    && (forall a, b :: a in t && b in t' && b !in t ==> a in t' && t'[a] < t'[b])
  }

  // The matches that are new in `t'` are newer than what was read.
  ghost predicate NewAreNewer(read: seq<Bytes>, t: Timeline, t': Timeline) {
    forall a, b :: a in read && a in t' && b in t' && b !in t ==> t'[a] < t'[b]
  }

  lemma WithinTransitive(a: Timeline, b: Timeline, c: Timeline)
    requires Within(a, b) && Within(b, c)
    ensures Within(a, c)
  {
  }

  lemma GrowsTransitive(a: Timeline, b: Timeline, c: Timeline)
    requires Grows(a, b) && Grows(b, c)
    ensures Grows(a, c)
  {
    forall x, y | x in a && y in c && y !in a
      ensures x in c && c[x] < c[y]
    {
      assert x in b;
      assert y in b ==> b[x] < b[y];
    }
  }

  lemma {:induction false} ChainWithin(ts: seq<Timeline>, i: nat, j: nat)
    requires i <= j < |ts| && forall k :: i <= k < j ==> Within(ts[k], ts[k + 1])
    ensures Within(ts[i], ts[j])
  {
    if i < j {
      ChainWithin(ts, i, j - 1);
      assert Within(ts[j - 1], ts[j - 1 + 1]);
      WithinTransitive(ts[i], ts[j - 1], ts[j]);
    }
  }

  lemma {:induction false} ChainGrows(ts: seq<Timeline>, i: nat, j: nat)
    requires i <= j < |ts| && forall k :: i <= k < j ==> Grows(ts[k], ts[k + 1])
    ensures Grows(ts[i], ts[j])
  {
    if i < j {
      ChainGrows(ts, i, j - 1);
      assert Grows(ts[j - 1], ts[j - 1 + 1]);
      GrowsTransitive(ts[i], ts[j - 1], ts[j]);
    }
  }

  lemma {:induction false} ChainDistinct(ts: seq<Timeline>, i: nat, j: nat)
    requires i <= j < |ts| && DistinctTimes(ts[i])
    requires forall k :: i <= k < j && DistinctTimes(ts[k]) ==> DistinctTimes(ts[k + 1])
    ensures DistinctTimes(ts[j])
  {
    if i < j {
      ChainDistinct(ts, i, j - 1);
      assert DistinctTimes(ts[j - 1 + 1]);
    }
  }

  lemma StillFirst(read: seq<Bytes>, t: Timeline, t': Timeline)
    requires Within(t, t') && ComesFirst(read, t) && NewAreNewer(read, t, t')
    ensures ComesFirst(read, t')
  {
    forall a, b | a in read && b in t' && b !in read
      ensures a in t' && t'[a] < t'[b]
    {
      if b in t {
        assert t[a] < t[b];
      }
    }
    forall i, j | 0 <= i < j < |read|
      ensures t'[read[i]] < t'[read[j]]
    {
      assert t[read[i]] < t[read[j]];
    }
  }

  lemma FirstLater(read: seq<Bytes>, t: Timeline, t': Timeline, later: Timeline)
    requires Within(t, t') && Within(t', later) && Undisturbed(read, later) && AllListed(read, t)
    ensures NewAreNewer(read, t, t')
  {
    forall a, b | a in read && a in t' && b in t' && b !in t
      ensures t'[a] < t'[b]
    {
      assert later[a] < later[b];
    }
  }

  ghost predicate IsNextRead(ts: seq<Timeline>, lists: seq<seq<Bytes>>, got: seq<seq<Bytes>>, limit: nat, k: nat)
    requires k < |ts| && k < |lists| && k + 1 < |got|
  {
    Orders(lists[k], ts[k]) && got[k + 1] == got[k] + SkipTake(lists[k], |got[k]|, limit)
  }

  ghost predicate Stays(ts: seq<Timeline>, j: nat, k: nat)
    requires j < |ts| && k < |ts|
  {
    Within(ts[j], ts[k])
  }

  // Reads at the moments 0, 1, 2, ...: the timeline and the full list of each, and what had
  // been read before it. From one to the next, matches are only added.
  ghost predicate IsReading(ts: seq<Timeline>, lists: seq<seq<Bytes>>, got: seq<seq<Bytes>>, limit: nat) {
    && |ts| == |lists| && |got| == |ts| + 1 && got[0] == []
    && (forall k :: 0 <= k < |ts| ==> IsNextRead(ts, lists, got, limit, k))
    && (forall j, k :: 0 <= j <= k < |ts| ==> Stays(ts, j, k))
  }

  lemma ReadIsListed(ts: seq<Timeline>, lists: seq<seq<Bytes>>, got: seq<seq<Bytes>>, limit: nat, k: nat)
    requires IsReading(ts, lists, got, limit) && k < |ts|
    requires k > 0 ==> AllListed(got[k], ts[k - 1])
    ensures AllListed(got[k + 1], ts[k])
  {
    assert IsNextRead(ts, lists, got, limit, k);
    forall a | a in got[k + 1]
      ensures a in ts[k]
    {
      if a in got[k] {
        assert Stays(ts, k - 1, k);
      } else {
        assert a in SkipTake(lists[k], |got[k]|, limit);
        assert a in lists[k];
      }
    }
  }

  lemma {:induction false} ReadsAreListed(
    ts: seq<Timeline>, lists: seq<seq<Bytes>>, got: seq<seq<Bytes>>, limit: nat, k: nat)
    requires IsReading(ts, lists, got, limit) && k < |ts|
    ensures AllListed(got[k + 1], ts[k])
  {
    if k > 0 {
      ReadsAreListed(ts, lists, got, limit, k - 1);
    }
    ReadIsListed(ts, lists, got, limit, k);
  }

  lemma {:induction false} ReadsExtend(
    ts: seq<Timeline>, lists: seq<seq<Bytes>>, got: seq<seq<Bytes>>, limit: nat, j: nat, k: nat)
    requires IsReading(ts, lists, got, limit) && j <= k <= |ts|
    ensures got[j] <= got[k]
  {
    if j < k {
      ReadsExtend(ts, lists, got, limit, j, k - 1);
      assert IsNextRead(ts, lists, got, limit, k - 1);
    }
  }

  lemma DistinctTells(t: Timeline, t': Timeline, ids: seq<Bytes>)
    requires Within(t, t') && DistinctTimes(t') && Orders(ids, t)
    ensures Tells(ids, t)
  {
    forall i, j | 0 <= i < j < |ids|
      ensures t[ids[i]] < t[ids[j]]
    {
      assert ids[i] != ids[j];
      assert t'[ids[i]] != t'[ids[j]];
    }
  }

  ghost predicate IsNewRead(ts: seq<Timeline>, got: seq<seq<Bytes>>, k: nat)
    requires 0 < k < |ts| && k < |got|
  {
    NewAreNewer(got[k], ts[k - 1], ts[k])
  }

  // At each read the new matches were newer than what had been read before it.
  ghost predicate AllNewer(ts: seq<Timeline>, got: seq<seq<Bytes>>)
    requires |got| >= |ts|
  {
    forall k :: 0 < k < |ts| ==> IsNewRead(ts, got, k)
  }

  lemma NewerReadGoesOn(
    ts: seq<Timeline>, lists: seq<seq<Bytes>>, got: seq<seq<Bytes>>, limit: nat, j: nat, n: nat)
    requires IsReading(ts, lists, got, limit) && j < n == |ts| - 1 && DistinctTimes(ts[n])
    requires IsNewRead(ts, got, j + 1) && got[j + 1] <= lists[j]
    ensures got[j + 2] <= lists[j + 1]
  {
    assert Stays(ts, j, j + 1) && Stays(ts, j, n);
    assert IsNextRead(ts, lists, got, limit, j) && IsNextRead(ts, lists, got, limit, j + 1);
    PrefixStays(ts[j], ts[j + 1], ts[n], lists[j], lists[j + 1], got[j + 1]);
    GoesOnIffStarts(got[j + 1], lists[j + 1], limit);
  }

  lemma {:induction false} NewerReadsGoOn(
    ts: seq<Timeline>, lists: seq<seq<Bytes>>, got: seq<seq<Bytes>>, limit: nat, k: nat)
    requires IsReading(ts, lists, got, limit) && k < |ts| && DistinctTimes(ts[|ts| - 1])
    requires AllNewer(ts, got)
    ensures got[k + 1] <= lists[k]
  {
    if k > 0 {
      NewerReadsGoOn(ts, lists, got, limit, k - 1);
      NewerReadGoesOn(ts, lists, got, limit, k - 1, |ts| - 1);
    } else {
      assert IsNextRead(ts, lists, got, limit, 0);
      GoesOnIffStarts(got[0], lists[0], limit);
    }
  }

  lemma PrefixStays(t: Timeline, t': Timeline, later: Timeline, ids: seq<Bytes>, ids': seq<Bytes>, read: seq<Bytes>)
    requires Within(t, t') && Within(t, later) && DistinctTimes(later) && Orders(ids, t) && Orders(ids', t')
    requires read <= ids && NewAreNewer(read, t, t')
    ensures read <= ids'
  {
    DistinctTells(t, later, ids);
    StartsIffFirst(read, t, ids);
    StillFirst(read, t, t');
    StartsWith(read, t', ids', |read|);
  }

  lemma PrefixWasOlder(t: Timeline, t': Timeline, later: Timeline, ids: seq<Bytes>, read: seq<Bytes>)
    requires Within(t, t') && Within(t', later) && DistinctTimes(later) && Orders(ids, later)
    requires read <= ids && AllListed(read, t)
    ensures NewAreNewer(read, t, t')
  {
    DistinctTells(later, later, ids);
    PrefixIsUndisturbed(read, later, ids);
    FirstLater(read, t, t', later);
  }

  lemma PrefixTransitive(a: seq<Bytes>, b: seq<Bytes>, c: seq<Bytes>)
    requires a <= b && b <= c
    ensures a <= c
  {
  }

  lemma RightReadsAreOlder(
    ts: seq<Timeline>, lists: seq<seq<Bytes>>, got: seq<seq<Bytes>>, limit: nat, j: nat, n: nat)
    requires IsReading(ts, lists, got, limit) && j < n == |ts| - 1 && DistinctTimes(ts[n])
    requires got[n + 1] <= lists[n]
    ensures NewAreNewer(got[j + 1], ts[j], ts[j + 1])
  {
    ReadsAreListed(ts, lists, got, limit, j);
    ReadsExtend(ts, lists, got, limit, j + 1, n + 1);
    PrefixTransitive(got[j + 1], got[n + 1], lists[n]);
    assert IsNextRead(ts, lists, got, limit, n);
    assert Stays(ts, j, j + 1) && Stays(ts, j + 1, n);
    PrefixWasOlder(ts[j], ts[j + 1], ts[n], lists[n], got[j + 1]);
  }

  // What was read joins to a prefix of the last list exactly if this was so.
  lemma ReadingIsExact(ts: seq<Timeline>, lists: seq<seq<Bytes>>, got: seq<seq<Bytes>>, limit: nat)
    requires IsReading(ts, lists, got, limit) && ts != [] && DistinctTimes(ts[|ts| - 1])
    ensures got[|ts|] <= lists[|ts| - 1] <==> AllNewer(ts, got)
  {
    if AllNewer(ts, got) {
      NewerReadsGoOn(ts, lists, got, limit, |ts| - 1);
    }
    if got[|ts|] <= lists[|ts| - 1] {
      forall k | 0 < k < |ts|
        ensures IsNewRead(ts, got, k)
      {
        RightReadsAreOlder(ts, lists, got, limit, k - 1, |ts| - 1);
      }
    }
  }

  lemma GrowthIsNewer(read: seq<Bytes>, t: Timeline, t': Timeline)
    requires Grows(t, t') && AllListed(read, t)
    ensures NewAreNewer(read, t, t')
  {
  }

  lemma GrowingIsNewer(ts: seq<Timeline>, lists: seq<seq<Bytes>>, got: seq<seq<Bytes>>, limit: nat)
    requires IsReading(ts, lists, got, limit)
    requires forall k :: 0 < k < |ts| ==> Grows(ts[k - 1], ts[k])
    ensures AllNewer(ts, got)
  {
    forall k | 0 < k < |ts|
      ensures IsNewRead(ts, got, k)
    {
      ReadsAreListed(ts, lists, got, limit, k - 1);
      GrowthIsNewer(got[k], ts[k - 1], ts[k]);
    }
  }
}
