// The query engine of `get_filtered_proof_requests`: filter, stable sort by creation time, page.
module Query {
  import opened Types

  /* ----- the filter ----- */

  // What it means for a record to pass the filter: eleven independent criteria. An empty
  // requester, vk_hash or version asks for nothing.
  predicate Passes(f: Filter, r: ProofRequest) {
    PassesFirst(f, r) && PassesRest(f, r)
  }

  predicate PassesFirst(f: Filter, r: ProofRequest) {
    && (f.requester.None? || f.requester.value == [] || r.requester == f.requester.value)
    && (f.fulfillmentStatus.None? || r.fulfillmentStatus == f.fulfillmentStatus.value)
    && (f.executionStatus.None? || r.executionStatus == f.executionStatus.value)
    && (f.vkHash.None? || f.vkHash.value == [] || r.vkHash == f.vkHash.value)
    && (f.version.None? || f.version.value == "" || r.version == f.version.value)
  }

  predicate PassesRest(f: Filter, r: ProofRequest) {
    && (f.mode.None? || r.mode == f.mode.value)
    && (f.minimumDeadline.None? || r.deadline > f.minimumDeadline.value)
    && (f.fulfiller.None? || r.fulfiller == f.fulfiller)
    && (f.executeFailCause.None? || r.executeFailCause == f.executeFailCause.value)
    && (f.settlementStatus.None? || r.settlementStatus == f.settlementStatus.value)
    && (f.error.None? || r.error == f.error.value)
  }

  // What keeps a record out of the answer: a criterion that is given, asks for something, and is
  // not met. A minimum deadline is met by later deadlines only.
  predicate IsExcluded(f: Filter, r: ProofRequest) {
    || (f.requester.Some? && |f.requester.value| > 0 && f.requester.value != r.requester)
    || (f.vkHash.Some? && |f.vkHash.value| > 0 && f.vkHash.value != r.vkHash)
    || (f.version.Some? && |f.version.value| > 0 && f.version.value != r.version)
    || (f.fulfillmentStatus.Some? && f.fulfillmentStatus.value != r.fulfillmentStatus)
    || (f.executionStatus.Some? && f.executionStatus.value != r.executionStatus)
    || (f.mode.Some? && f.mode.value != r.mode)
    || (f.minimumDeadline.Some? && f.minimumDeadline.value >= r.deadline)
    || (f.fulfiller.Some? && (r.fulfiller.None? || f.fulfiller.value != r.fulfiller.value))
    || (f.executeFailCause.Some? && f.executeFailCause.value != r.executeFailCause)
    || (f.settlementStatus.Some? && f.settlementStatus.value != r.settlementStatus)
    || (f.error.Some? && f.error.value != r.error)
  }

  // A record passes exactly if none of the eleven criteria excludes it.
  lemma PassesIff(f: Filter, r: ProofRequest)
    ensures Passes(f, r) <==> !IsExcluded(f, r)
  {
  }

  // The closure of the source, test by test, with its early returns; in two halves.
  method KeepsFirst(f: Filter, r: ProofRequest) returns (keep: bool)
    ensures keep <==> PassesFirst(f, r)
  {
    keep := false;
    if f.requester.Some? && f.requester.value != [] && r.requester != f.requester.value {
      return;
    }
    if f.fulfillmentStatus.Some? && r.fulfillmentStatus != f.fulfillmentStatus.value {
      return;
    }
    if f.executionStatus.Some? && r.executionStatus != f.executionStatus.value {
      return;
    }
    if f.vkHash.Some? && f.vkHash.value != [] && r.vkHash != f.vkHash.value {
      return;
    }
    if f.version.Some? && f.version.value != "" && r.version != f.version.value {
      return;
    }
    keep := true;
  }

  method KeepsRest(f: Filter, r: ProofRequest) returns (keep: bool)
    ensures keep <==> PassesRest(f, r)
  {
    keep := false;
    if f.mode.Some? && r.mode != f.mode.value {
      return;
    }
    if f.minimumDeadline.Some? && r.deadline <= f.minimumDeadline.value {
      return;
    }
    if f.fulfiller.Some? && r.fulfiller != f.fulfiller {
      return;
    }
    if f.executeFailCause.Some? && r.executeFailCause != f.executeFailCause.value {
      return;
    }
    if f.settlementStatus.Some? && r.settlementStatus != f.settlementStatus.value {
      return;
    }
    if f.error.Some? && r.error != f.error.value {
      return;
    }
    keep := true;
  }

  method Keeps(f: Filter, r: ProofRequest) returns (keep: bool)
    ensures keep <==> Passes(f, r)
    ensures keep <==> !IsExcluded(f, r)
  {
    keep := KeepsFirst(f, r);
    if keep {
      keep := KeepsRest(f, r);
    }
  }

  // `f` asks for at least what `g` asks for; an empty requester, vk_hash or version asks nothing.
  predicate Narrows(f: Filter, g: Filter) {
    && (g.requester.None? || g.requester.value == [] || f.requester == g.requester)
    && (g.vkHash.None? || g.vkHash.value == [] || f.vkHash == g.vkHash)
    && (g.version.None? || g.version.value == "" || f.version == g.version)
    && (g.minimumDeadline.None? || (f.minimumDeadline.Some? && g.minimumDeadline.value <= f.minimumDeadline.value))
    && (g.fulfillmentStatus.None? || f.fulfillmentStatus == g.fulfillmentStatus)
    && (g.executionStatus.None? || f.executionStatus == g.executionStatus)
    && (g.mode.None? || f.mode == g.mode)
    && (g.fulfiller.None? || f.fulfiller == g.fulfiller)
    && (g.executeFailCause.None? || f.executeFailCause == g.executeFailCause)
    && (g.settlementStatus.None? || f.settlementStatus == g.settlementStatus)
    && (g.error.None? || f.error == g.error)
  }

  /* ----- selection in the map's iteration order ----- */

  type Requests = map<Bytes, Entry>

  // An iteration order of the map: every key once.
  ghost predicate IsOrderOf(order: seq<Bytes>, requests: Requests) {
    && (forall id :: id in order <==> id in requests)
    && (forall i, j :: 0 <= i < j < |order| ==> order[i] != order[j])
  }

  // Every map has an iteration order.
  lemma {:induction false} OrderExists(requests: Requests) returns (order: seq<Bytes>)
    ensures IsOrderOf(order, requests)
    decreases |requests|
  {
    if requests == map[] {
      order := [];
    } else {
      var id :| id in requests;
      var fewer := requests - {id};
      assert id !in fewer && requests.Keys == fewer.Keys + {id};
      assert |fewer.Keys| < |requests.Keys|;
      var rest := OrderExists(fewer);
      assert id !in rest;
      order := rest + [id];
    }
  }

  function Chosen(requests: Requests, order: seq<Bytes>, f: Filter): seq<ProofRequest> {
    if order == [] then []
    else
      var rest := Chosen(requests, order[..|order| - 1], f);
      var id := order[|order| - 1];
      if id in requests && Passes(f, requests[id].request) then rest + [requests[id].request] else rest
  }

  // `a` is `b` with some elements left out.
  ghost predicate IsSubsequence<T>(a: seq<T>, b: seq<T>) {
    || a == []
    || (b != [] && IsSubsequence(a, b[..|b| - 1]))
    || (b != [] && a[|a| - 1] == b[|b| - 1] && IsSubsequence(a[..|a| - 1], b[..|b| - 1]))
  }

  lemma SubsequenceAppend<T>(a: seq<T>, b: seq<T>, x: T)
    requires IsSubsequence(a, b)
    ensures IsSubsequence(a, b + [x]) && IsSubsequence(a + [x], b + [x])
  {
    assert (a + [x])[..|a|] == a && (b + [x])[..|b|] == b;
  }

  // A narrower filter selects a subsequence, so in particular a subset.
  lemma {:induction false} NarrowerSelectsFewer(requests: Requests, order: seq<Bytes>, f: Filter, g: Filter)
    requires Narrows(f, g)
    ensures IsSubsequence(Chosen(requests, order, f), Chosen(requests, order, g))
    ensures multiset(Chosen(requests, order, f)) <= multiset(Chosen(requests, order, g))
  {
    if order != [] {
      var front, id := order[..|order| - 1], order[|order| - 1];
      NarrowerSelectsFewer(requests, front, f, g);
      NarrowerPasses(requests, id, f, g);
      if id in requests {
        SubsequenceAppend(Chosen(requests, front, f), Chosen(requests, front, g), requests[id].request);
      }
    }
  }

  lemma NarrowerPasses(requests: Requests, id: Bytes, f: Filter, g: Filter)
    requires Narrows(f, g)
    ensures id in requests && Passes(f, requests[id].request) ==> Passes(g, requests[id].request)
  {
  }

  // Filters that narrow each other select the same list, so `from`, `to`, `not_bid_by` and the
  // paging fields never matter, and empty requester, vk_hash and version act as absent.
  lemma {:induction false} EquivalentFiltersSelectSame(requests: Requests, order: seq<Bytes>, f: Filter, g: Filter)
    requires Narrows(f, g) && Narrows(g, f)
    ensures Chosen(requests, order, f) == Chosen(requests, order, g)
  {
    if order != [] {
      EquivalentFiltersSelectSame(requests, order[..|order| - 1], f, g);
      NarrowerPasses(requests, order[|order| - 1], f, g);
      NarrowerPasses(requests, order[|order| - 1], g, f);
    }
  }

  lemma IgnoredFields(requests: Requests, order: seq<Bytes>, f: Filter,
                      from: Option<nat>, to: Option<nat>, notBidBy: Option<Bytes>)
    ensures Chosen(requests, order, f.(from := from, to := to, notBidBy := notBidBy)) == Chosen(requests, order, f)
  {
    EquivalentFiltersSelectSame(requests, order, f.(from := from, to := to, notBidBy := notBidBy), f);
  }

  lemma EmptyMeansAny(requests: Requests, order: seq<Bytes>, f: Filter)
    ensures f.requester == Some([]) ==> Chosen(requests, order, f) == Chosen(requests, order, f.(requester := None))
    ensures f.vkHash == Some([]) ==> Chosen(requests, order, f) == Chosen(requests, order, f.(vkHash := None))
    ensures f.version == Some("") ==> Chosen(requests, order, f) == Chosen(requests, order, f.(version := None))
  {
    if f.requester == Some([]) {
      EquivalentFiltersSelectSame(requests, order, f, f.(requester := None));
    }
    if f.vkHash == Some([]) {
      EquivalentFiltersSelectSame(requests, order, f, f.(vkHash := None));
    }
    if f.version == Some("") {
      EquivalentFiltersSelectSame(requests, order, f, f.(version := None));
    }
  }

  /* ----- the stable sort ----- */

  ghost predicate Sorted(s: seq<ProofRequest>) {
    forall i, j :: 0 <= i < j < |s| ==> s[i].createdAt <= s[j].createdAt
  }

  // The elements of one creation time, in their order in `s`.
  ghost function Bucket(s: seq<ProofRequest>, t: nat): seq<ProofRequest> {
    if s == [] then []
    else
      var x := s[|s| - 1];
      Bucket(s[..|s| - 1], t) + (if x.createdAt == t then [x] else [])
  }

  // What a stable sort must return: sorted, and each creation time's elements in their old order.
  ghost predicate StablySorts(sorted: seq<ProofRequest>, s: seq<ProofRequest>) {
    Sorted(sorted) && forall t :: Bucket(sorted, t) == Bucket(s, t)
  }

  function Insert(s: seq<ProofRequest>, x: ProofRequest): seq<ProofRequest> {
    if s == [] || s[|s| - 1].createdAt <= x.createdAt then s + [x]
    else Insert(s[..|s| - 1], x) + [s[|s| - 1]]
  }

  function StableSort(s: seq<ProofRequest>): seq<ProofRequest> {
    if s == [] then [] else Insert(StableSort(s[..|s| - 1]), s[|s| - 1])
  }

  lemma {:induction false} InsertMultiset(s: seq<ProofRequest>, x: ProofRequest)
    ensures multiset(Insert(s, x)) == multiset(s) + multiset{x}
  {
    if !(s == [] || s[|s| - 1].createdAt <= x.createdAt) {
      InsertMultiset(s[..|s| - 1], x);
      assert s == s[..|s| - 1] + [s[|s| - 1]];
    }
  }

  lemma {:induction false} InsertSorted(s: seq<ProofRequest>, x: ProofRequest)
    requires Sorted(s)
    ensures Sorted(Insert(s, x))
    ensures forall y :: y in Insert(s, x) ==> y == x || y in s
  {
    if !(s == [] || s[|s| - 1].createdAt <= x.createdAt) {
      var front := s[..|s| - 1];
      InsertSorted(front, x);
      var r := Insert(front, x);
      forall i | 0 <= i < |r|
        ensures r[i].createdAt <= s[|s| - 1].createdAt
      {
        assert r[i] in r;
      }
    }
  }

  lemma BucketAppend(s: seq<ProofRequest>, x: ProofRequest, t: nat)
    ensures Bucket(s + [x], t) == Bucket(s, t) + (if x.createdAt == t then [x] else [])
  {
    assert (s + [x])[..|s|] == s;
  }

  lemma {:induction false} InsertBucket(s: seq<ProofRequest>, x: ProofRequest, t: nat)
    ensures Bucket(Insert(s, x), t) == Bucket(s, t) + (if x.createdAt == t then [x] else [])
  {
    if s == [] || s[|s| - 1].createdAt <= x.createdAt {
      BucketAppend(s, x, t);
    } else {
      InsertBucket(s[..|s| - 1], x, t);
      BucketAppend(Insert(s[..|s| - 1], x), s[|s| - 1], t);
    }
  }

  lemma {:induction false} StableSortMultiset(s: seq<ProofRequest>)
    ensures multiset(StableSort(s)) == multiset(s)
  {
    if s != [] {
      var front, x := s[..|s| - 1], s[|s| - 1];
      assert s == front + [x];
      StableSortMultiset(front);
      InsertMultiset(StableSort(front), x);
    }
  }

  lemma {:induction false} StableSortBuckets(s: seq<ProofRequest>)
    ensures StablySorts(StableSort(s), s)
  {
    if s != [] {
      var front, x := s[..|s| - 1], s[|s| - 1];
      StableSortBuckets(front);
      InsertSorted(StableSort(front), x);
      forall t
        ensures Bucket(StableSort(s), t) == Bucket(s, t)
      {
        InsertBucket(StableSort(front), x, t);
      }
    }
  }

  lemma StableSortSorts(s: seq<ProofRequest>)
    ensures StablySorts(StableSort(s), s)
    ensures multiset(StableSort(s)) == multiset(s)
  {
    StableSortBuckets(s);
    StableSortMultiset(s);
  }

  lemma {:induction false} BucketNonEmpty(s: seq<ProofRequest>, t: nat)
    ensures Bucket(s, t) != [] <==> exists i :: 0 <= i < |s| && s[i].createdAt == t
  {
    if s != [] {
      var front := s[..|s| - 1];
      BucketNonEmpty(front, t);
      if i :| 0 <= i < |s| && s[i].createdAt == t {
        assert i < |front| ==> front[i] == s[i];
      }
      if i :| 0 <= i < |front| && front[i].createdAt == t {
        assert s[i] == front[i];
      }
      if s[|s| - 1].createdAt == t {
        assert Bucket(s, t)[|Bucket(front, t)|] == s[|s| - 1];
      }
    }
  }

  lemma LastInBoth(a: seq<ProofRequest>, b: seq<ProofRequest>)
    requires Sorted(b) && a != []
    requires Bucket(a, a[|a| - 1].createdAt) == Bucket(b, a[|a| - 1].createdAt)
    ensures b != [] && b[|b| - 1].createdAt >= a[|a| - 1].createdAt
  {
    var t := a[|a| - 1].createdAt;
    BucketNonEmpty(a, t);
    BucketNonEmpty(b, t);
  }

  // The stably sorted list is unique, so `StablySorts` leaves an implementation no choice.
  lemma {:induction false} StableSortUnique(a: seq<ProofRequest>, b: seq<ProofRequest>)
    requires Sorted(a) && Sorted(b)
    requires forall t :: Bucket(a, t) == Bucket(b, t)
    ensures a == b
    decreases |a|
  {
    if a == [] {
      if b != [] {
        LastInBoth(b, a);
      }
    } else {
      LastInBoth(a, b);
      LastInBoth(b, a);
      var x, y := a[|a| - 1], b[|b| - 1];
      var fa, fb := a[..|a| - 1], b[..|b| - 1];
      var t := x.createdAt;
      assert Bucket(a, t) == Bucket(fa, t) + [x];
      assert Bucket(b, t) == Bucket(fb, t) + [y];
      assert x == Bucket(a, t)[|Bucket(a, t)| - 1] == y;
      forall u: nat
        ensures Bucket(fa, u) == Bucket(fb, u)
      {
        assert Bucket(a, u) == Bucket(b, u);
        if u == t {
          assert Bucket(fa, t) == Bucket(a, t)[..|Bucket(a, t)| - 1];
          assert Bucket(fb, t) == Bucket(b, t)[..|Bucket(b, t)| - 1];
        } else {
          assert Bucket(a, u) == Bucket(fa, u);
          assert Bucket(b, u) == Bucket(fb, u);
        }
      }
      StableSortUnique(fa, fb);
      assert a == fa + [x] && b == fb + [y];
    }
  }

  // Some `x` stands before some `y`.
  ghost predicate Before<T>(s: seq<T>, x: T, y: T) {
    exists i, j :: 0 <= i < j < |s| && s[i] == x && s[j] == y
  }

  lemma BeforeAppend<T>(s: seq<T>, z: T, x: T, y: T)
    ensures Before(s + [z], x, y) <==> Before(s, x, y) || (x in s && y == z)
  {
    var longer := s + [z];
    if Before(s, x, y) {
      var i, j :| 0 <= i < j < |s| && s[i] == x && s[j] == y;
      assert longer[i] == x && longer[j] == y;
    }
    if x in s && y == z {
      var i :| 0 <= i < |s| && s[i] == x;
      assert longer[i] == x && longer[|s|] == y;
    }
  }

  lemma {:induction false} BucketHas(s: seq<ProofRequest>, t: nat, x: ProofRequest)
    ensures x in Bucket(s, t) <==> x in s && x.createdAt == t
  {
    if s != [] {
      BucketHas(s[..|s| - 1], t, x);
      assert s == s[..|s| - 1] + [s[|s| - 1]];
    }
  }

  // A bucket keeps the order of its elements and has no other.
  lemma {:induction false} BucketBefore(s: seq<ProofRequest>, t: nat, x: ProofRequest, y: ProofRequest)
    ensures Before(Bucket(s, t), x, y) <==> Before(s, x, y) && x.createdAt == y.createdAt == t
  {
    if s != [] {
      var front, z := s[..|s| - 1], s[|s| - 1];
      BucketBefore(front, t, x, y);
      BucketHas(front, t, x);
      BeforeAppend(front, z, x, y);
      assert s == front + [z];
      if z.createdAt == t {
        BeforeAppend(Bucket(front, t), z, x, y);
        assert Bucket(s, t) == Bucket(front, t) + [z];
      } else {
        assert Bucket(s, t) == Bucket(front, t);
      }
    }
  }

  // The sort leaves equal times in the order they had.
  lemma StableSortKeepsOrder(s: seq<ProofRequest>, x: ProofRequest, y: ProofRequest)
    requires x.createdAt == y.createdAt
    ensures Before(StableSort(s), x, y) <==> Before(s, x, y)
  {
    StableSortSorts(s);
    BucketBefore(s, x.createdAt, x, y);
    BucketBefore(StableSort(s), x.createdAt, x, y);
    assert Bucket(StableSort(s), x.createdAt) == Bucket(s, x.createdAt);
  }

  // The inner loop: elements newer than a[i] are shifted right, up to the place of a[i].
  method MakeRoom(a: array<ProofRequest>, i: nat) returns (j: nat)
    requires i < a.Length
    modifies a
    ensures j <= i && (j > 0 ==> old(a[j - 1]).createdAt <= old(a[i]).createdAt)
    ensures forall k :: j <= k < i ==> old(a[i]).createdAt < old(a[k]).createdAt
    ensures forall k {:trigger a[k]} :: 0 <= k < j || i < k < a.Length ==> a[k] == old(a[k])
    ensures forall k {:trigger a[k]} :: j < k <= i ==> a[k] == old(a[k - 1])
  {
    var x := a[i];
    j := i;
    while j > 0 && a[j - 1].createdAt > x.createdAt
      invariant 0 <= j <= i
      invariant forall k {:trigger a[k]} :: 0 <= k < j || i < k < a.Length ==> a[k] == old(a[k])
      invariant forall k {:trigger a[k]} :: j < k <= i ==> a[k] == old(a[k - 1])
      invariant forall k :: j <= k < i ==> x.createdAt < old(a[k]).createdAt
    {
      a[j] := a[j - 1];
      j := j - 1;
    }
  }

  // With a[..i] sorted, put a[i] in its place.
  method InsertInPlace(a: array<ProofRequest>, i: nat)
    requires i < a.Length
    modifies a
    ensures a[..i + 1] == Insert(old(a[..i]), old(a[i]))
    ensures a[i + 1..] == old(a[i + 1..])
  {
    ghost var front := a[..i];
    var x := a[i];
    var j := MakeRoom(a, i);
    a[j] := x;
    ghost var s := a[..i + 1];
    forall k | 0 <= k < j
      ensures s[k] == front[k]
    {
    }
    forall k | j <= k < i
      ensures s[k + 1] == front[k]
    {
      assert a[k + 1] == front[k];
    }
    forall k | i < k < a.Length
      ensures a[k] == old(a[k])
    {
    }
    Inserted(s, front, x, j);
  }

  lemma Inserted(s: seq<ProofRequest>, front: seq<ProofRequest>, x: ProofRequest, j: nat)
    requires j <= |front| && |s| == |front| + 1 && s[j] == x && (j > 0 ==> front[j - 1].createdAt <= x.createdAt)
    requires forall k :: 0 <= k < j ==> s[k] == front[k]
    requires forall k :: j <= k < |front| ==> s[k + 1] == front[k] && x.createdAt < front[k].createdAt
    ensures s == Insert(front, x)
  {
    InsertAt(front, x, j);
    MadeRoom(s, front, x, j);
  }

  lemma MadeRoom(s: seq<ProofRequest>, front: seq<ProofRequest>, x: ProofRequest, j: nat)
    requires j <= |front| && |s| == |front| + 1 && s[j] == x
    requires forall k :: 0 <= k < j ==> s[k] == front[k]
    requires forall k :: j <= k < |front| ==> s[k + 1] == front[k]
    ensures s == front[..j] + [x] + front[j..]
  {
  }

  // The place of a new element: before everything newer and after the rest.
  lemma {:induction false} InsertAt(s: seq<ProofRequest>, x: ProofRequest, j: nat)
    requires j <= |s| && (j > 0 ==> s[j - 1].createdAt <= x.createdAt)
    requires forall k :: j <= k < |s| ==> x.createdAt < s[k].createdAt
    ensures Insert(s, x) == s[..j] + [x] + s[j..]
  {
    if j < |s| {
      var front, y := s[..|s| - 1], s[|s| - 1];
      InsertAt(front, x, j);
      assert s[..j] == front[..j] && s[j..] == front[j..] + [y];
    }
  }

  // Stable sorting in place.
  method SortByCreatedAt(a: array<ProofRequest>)
    modifies a
    ensures a[..] == StableSort(old(a[..]))
    ensures StablySorts(a[..], old(a[..]))
  {
    ghost var was := a[..];
    var i := 0;
    while i < a.Length
      invariant 0 <= i <= a.Length
      invariant a[..i] == StableSort(was[..i])
      invariant a[i..] == was[i..]
    {
      assert a[i] == was[i..][0];
      assert was[..i + 1][..i] == was[..i];
      assert a[i + 1..] == a[i..][1..];
      InsertInPlace(a, i);
      i := i + 1;
    }
    assert a[..] == a[..i] && was == was[..i];
    StableSortSorts(was);
  }

  /* ----- pagination ----- */

  const DEFAULT_LIMIT: u32 := 50

  function PageOf(f: Filter): nat {
    if f.page.Some? then f.page.value as nat else 0
  }

  function LimitOf(f: Filter): nat {
    if f.limit.Some? then f.limit.value as nat else DEFAULT_LIMIT as nat
  }

  // `skip(offset).take(limit)`.
  function SkipTake<T>(s: seq<T>, offset: nat, limit: nat): seq<T> {
    var rest := if offset <= |s| then s[offset..] else [];
    if limit <= |rest| then rest[..limit] else rest
  }

  function Page<T>(s: seq<T>, page: nat, limit: nat): seq<T> {
    SkipTake(s, page * limit, limit)
  }

  lemma {:induction false} MulMonotone(a: nat, b: nat, c: nat)
    requires a <= b
    ensures 0 <= a * c <= b * c
    decreases c
  {
    if c > 0 {
      MulMonotone(a, b, c - 1);
      assert a * c == a * (c - 1) + a && b * c == b * (c - 1) + b;
    }
  }

  lemma MulStep(n: int, c: nat)
    ensures (n + 1) * c == n * c + c
  {
  }

  lemma OffsetFits(page: nat, limit: nat)
    requires page < 0x1_0000_0000 && limit < 0x1_0000_0000
    ensures 0 <= page * limit < 0x1_0000_0000_0000_0000
  {
    MulMonotone(limit, 0xFFFF_FFFF, page);
    MulMonotone(page, 0xFFFF_FFFF, 0xFFFF_FFFF);
    assert page * limit == limit * page;
  }

  // The product of the source, in its own 64-bit arithmetic, never overflows.
  method Offset(page: u32, limit: u32) returns (offset: usize)
    ensures offset as nat == page as nat * limit as nat
  {
    OffsetFits(page as nat, limit as nat);
    offset := (page as usize) * (limit as usize);
  }

  lemma PageLength<T>(s: seq<T>, page: nat, limit: nat)
    ensures page * limit >= 0
    ensures |Page(s, page, limit)| ==
            if page * limit >= |s| then 0 else if |s| - page * limit < limit then |s| - page * limit else limit
    ensures forall j :: 0 <= j < |Page(s, page, limit)| ==>
              page * limit + j < |s| && Page(s, page, limit)[j] == s[page * limit + j]
  {
  }

  // The first `n` pages, one after the other.
  function Pages<T>(s: seq<T>, limit: nat, n: nat): seq<T> {
    if n == 0 then [] else Pages(s, limit, n - 1) + Page(s, n - 1, limit)
  }

  lemma TakeMore<T>(s: seq<T>, n: nat, limit: nat)
    ensures (if n <= |s| then s[..n] else s) + SkipTake(s, n, limit) ==
            if n + limit <= |s| then s[..n + limit] else s
  {
  }

  lemma {:induction false} PagesArePrefix<T>(s: seq<T>, limit: nat, n: nat)
    ensures n * limit >= 0
    ensures Pages(s, limit, n) == if n * limit <= |s| then s[..n * limit] else s
  {
    if n > 0 {
      PagesArePrefix(s, limit, n - 1);
      MulStep(n - 1, limit);
      TakeMore(s, (n - 1) * limit, limit);
    }
  }

  // The number of pages that hold something: the ceiling of total / limit.
  function PageCount(total: nat, limit: nat): (n: nat)
    requires limit > 0
    ensures total <= n * limit && (n > 0 ==> (n - 1) * limit < total)
  {
    if total == 0 then 0
    else if total <= limit then 1
    else
      var rest := PageCount(total - limit, limit);
      MulStep(rest, limit);
      MulStep(rest - 1, limit);
      rest + 1
  }

  // Read from an unchanged list, the pages partition it: together they are the whole list in
  // order, and exactly the pages from `PageCount` on are empty.
  lemma PagesPartition<T>(s: seq<T>, limit: nat)
    requires limit > 0
    ensures Pages(s, limit, PageCount(|s|, limit)) == s
    ensures forall k: nat :: Page(s, k, limit) == [] <==> k >= PageCount(|s|, limit)
  {
    var n := PageCount(|s|, limit);
    PagesArePrefix(s, limit, n);
    forall k: nat
      ensures Page(s, k, limit) == [] <==> k >= n
    {
      PageLength(s, k, limit);
      if k >= n {
        MulMonotone(n, k, limit);
      } else {
        MulMonotone(k, n - 1, limit);
      }
    }
  }

  // A place in the list of pages.
  datatype Place = Place(page: nat, index: nat)

  predicate IsAt<T>(s: seq<T>, limit: nat, i: nat, p: Place) {
    p.index < |Page(s, p.page, limit)| && p.page * limit + p.index == i
  }

  lemma {:induction false} PlaceExists(i: nat, limit: nat) returns (p: Place)
    requires limit > 0
    ensures p.index < limit && p.page * limit + p.index == i
  {
    if i < limit {
      p := Place(0, i);
    } else {
      var q := PlaceExists(i - limit, limit);
      p := Place(q.page + 1, q.index);
      MulStep(q.page, limit);
    }
  }

  lemma PlaceUnique(limit: nat, p: Place, q: Place)
    requires p.index < limit && q.index < limit
    requires p.page * limit + p.index == q.page * limit + q.index
    ensures p == q
  {
    if p.page < q.page {
      MulStep(p.page, limit);
      MulMonotone(p.page + 1, q.page, limit);
    } else if q.page < p.page {
      MulStep(q.page, limit);
      MulMonotone(q.page + 1, p.page, limit);
    }
  }

  // Every position of the list lies at exactly one place of exactly one page.
  lemma OnePlacePerElement<T>(s: seq<T>, limit: nat, i: nat)
    requires limit > 0 && i < |s|
    ensures exists p :: IsAt(s, limit, i, p) && Page(s, p.page, limit)[p.index] == s[i]
    ensures forall p, q :: IsAt(s, limit, i, p) && IsAt(s, limit, i, q) ==> p == q
  {
    var p := PlaceExists(i, limit);
    PageLength(s, p.page, limit);
    assert IsAt(s, limit, i, p);
    forall p, q | IsAt(s, limit, i, p) && IsAt(s, limit, i, q)
      ensures p == q
    {
      PageLength(s, p.page, limit);
      PageLength(s, q.page, limit);
      PlaceUnique(limit, p, q);
    }
  }

  /* ----- the whole query ----- */

  function Ordered(requests: Requests, order: seq<Bytes>, f: Filter): seq<ProofRequest> {
    StableSort(Chosen(requests, order, f))
  }

  function Answer(requests: Requests, order: seq<Bytes>, f: Filter): seq<ProofRequest> {
    Page(Ordered(requests, order, f), PageOf(f), LimitOf(f))
  }

  // The code of the handler under its lock: filter and collect, ...
  method Collect(requests: Requests, order: seq<Bytes>, f: Filter) returns (filtered: seq<ProofRequest>)
    ensures filtered == Chosen(requests, order, f)
  {
    filtered := [];
    var i := 0;
    while i < |order|
      invariant 0 <= i <= |order|
      invariant filtered == Chosen(requests, order[..i], f)
    {
      var id := order[i];
      assert order[..i + 1][..i] == order[..i];
      if id in requests {
        var keep := Keeps(f, requests[id].request);
        if keep {
          filtered := filtered + [requests[id].request];
        }
      }
      i := i + 1;
    }
    assert order[..i] == order;
  }

  // ... sort in place, ...
  method Sort(filtered: seq<ProofRequest>) returns (ordered: seq<ProofRequest>)
    ensures ordered == StableSort(filtered)
  {
    var sorted := new ProofRequest[|filtered|](k requires 0 <= k < |filtered| => filtered[k]);
    assert sorted[..] == filtered;
    SortByCreatedAt(sorted);
    ordered := sorted[..];
  }

  // ... skip and take.
  method Paginate(ordered: seq<ProofRequest>, f: Filter) returns (answer: seq<ProofRequest>)
    ensures answer == Page(ordered, PageOf(f), LimitOf(f))
  {
    var page := if f.page.Some? then f.page.value else 0;
    var limit := if f.limit.Some? then f.limit.value else DEFAULT_LIMIT;
    var offset := Offset(page, limit);
    var rest := if offset as nat <= |ordered| then ordered[offset as nat..] else [];
    answer := if limit as nat <= |rest| then rest[..limit as nat] else rest;
  }

  method RunQuery(requests: Requests, order: seq<Bytes>, f: Filter) returns (answer: seq<ProofRequest>)
    ensures answer == Answer(requests, order, f)
  {
    var filtered := Collect(requests, order, f);
    var ordered := Sort(filtered);
    answer := Paginate(ordered, f);
  }
}
