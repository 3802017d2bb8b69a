// No schedule gets stuck and none goes on for ever.
module Progress {
  import opened Types
  import opened Query
  import opened Handlers
  import opened Machine
  import opened Linearizability

  /* ----- the measure ----- */

  // How many steps a thread may still take, counting the upload task it may start.
  function Rank(th: Thread): nat {
    match th.pc
    case Started => if UsesStorage(th.call) then 5 else 20
    case WantPrograms => 19
    case HasPrograms => 18
    case WantRequests => 17
    case HasRequests => 16
    case AwaitUpload(_) => 10
    case ReadingError => 9
    case WantStorage => 4
    case HasStorage => 3
    case Finished(_) => 0
    case Cancelled => 0
  }

  function Total(threads: seq<Thread>): nat {
    if threads == [] then 0 else Total(threads[..|threads| - 1]) + Rank(threads[|threads| - 1])
  }

  lemma TotalAppend(threads: seq<Thread>, th: Thread)
    ensures Total(threads + [th]) == Total(threads) + Rank(th)
  {
    assert (threads + [th])[..|threads|] == threads;
  }

  lemma {:induction false} TotalUpdate(threads: seq<Thread>, t: nat, th: Thread)
    requires t < |threads|
    ensures Total(threads[t := th]) == Total(threads) - Rank(threads[t]) + Rank(th)
  {
    var n := |threads| - 1;
    var front := threads[..n];
    if t == n {
      assert threads[t := th][..n] == front;
    } else {
      TotalUpdate(front, t, th);
      assert threads[t := th][..n] == front[t := th];
    }
  }

  lemma SendDecreases(s: State, t: nat, b: FulfillProofBody, nonce: Bytes)
    requires t < |s.threads| && b.requestId in s.store.requests && s.threads[t].pc.HasRequests?
    ensures Total(SendUpload(s, t, b, nonce).threads) < Total(s.threads)
  {
    var s' := SendUpload(s, t, b, nonce);
    var moved := s.threads[t := s'.threads[t]];
    TotalUpdate(s.threads, t, s'.threads[t]);
    TotalAppend(moved, s'.threads[|s.threads|]);
    assert s'.threads == moved + [s'.threads[|s.threads|]];
  }

  lemma MoveDecreases(s: State, t: nat, threads: seq<Thread>)
    requires t < |s.threads| && |threads| == |s.threads| && threads == s.threads[t := threads[t]]
    requires Rank(threads[t]) < Rank(s.threads[t])
    ensures Total(threads) < Total(s.threads)
  {
    TotalUpdate(s.threads, t, threads[t]);
  }

  // The step moves thread `t` alone.
  predicate MovesOne(s: State, t: nat, s': State) {
    t < |s.threads| && |s'.threads| == |s.threads| && s'.threads == s.threads[t := s'.threads[t]]
  }

  lemma WorkOnProgramsMovesOne(s: State, t: nat, drawn: Draws)
    requires CanWork(s, t, drawn) && s.threads[t].pc.HasPrograms?
    ensures var s' := DoWork(s, t, drawn);
            MovesOne(s, t, s') && (s'.threads[t].pc.WantRequests? || s'.threads[t].pc.Finished?)
  {
  }

  lemma FinishDecreases(s: State, t: nat, d: Draws, store: Store, response: Response)
    requires t < |s.threads| && Unfinished(s.threads[t])
    ensures Total(Finish(s, t, d, store, response).threads) < Total(s.threads)
  {
    MoveDecreases(s, t, Finish(s, t, d, store, response).threads);
  }

  predicate SendsNow(s: State, t: nat)
    requires t < |s.threads| && HasBody(s.threads[t].call)
  {
    s.threads[t].call.FulfillProof? && s.threads[t].call.fulfillment.body.value.requestId in s.store.requests
  }

  lemma WorkOnRequestsMovesOne(s: State, t: nat, drawn: Draws)
    requires CanWork(s, t, drawn) && s.threads[t].pc.HasRequests? && !SendsNow(s, t)
    ensures MovesOne(s, t, DoWork(s, t, drawn)) && DoWork(s, t, drawn).threads[t].pc.Finished?
  {
  }

  lemma WorkOnProgramsDecreases(s: State, t: nat, drawn: Draws)
    requires CanWork(s, t, drawn) && s.threads[t].pc.HasPrograms?
    ensures Total(DoWork(s, t, drawn).threads) < Total(s.threads)
  {
    WorkOnProgramsMovesOne(s, t, drawn);
    MoveDecreases(s, t, DoWork(s, t, drawn).threads);
  }

  lemma WorkOnStorageDecreases(s: State, t: nat, drawn: Draws)
    requires CanWork(s, t, drawn) && s.threads[t].pc.HasStorage?
    ensures Total(DoWork(s, t, drawn).threads) < Total(s.threads)
  {
    var th := s.threads[t];
    match th.call
    case PutArtifact(url, data) =>
      var o := DoPut(s.store, url, data);
      FinishDecreases(s, t, th.draws, o.store, o.response);
    case GetArtifact(_) =>
      FinishDecreases(s, t, th.draws, s.store, Read(s.store, th.call, th.draws));
  }

  lemma WorkOnRequestsDecreases(s: State, t: nat, drawn: Draws)
    requires CanWork(s, t, drawn) && s.threads[t].pc.HasRequests? && !SendsNow(s, t)
    ensures Total(DoWork(s, t, drawn).threads) < Total(s.threads)
  {
    WorkOnRequestsMovesOne(s, t, drawn);
    MoveDecreases(s, t, DoWork(s, t, drawn).threads);
  }

  lemma SendingDecreases(s: State, t: nat, drawn: Draws)
    requires CanWork(s, t, drawn) && s.threads[t].pc.HasRequests? && SendsNow(s, t)
    ensures Total(DoWork(s, t, drawn).threads) < Total(s.threads)
  {
    SendDecreases(s, t, s.threads[t].call.fulfillment.body.value, drawn.nonce);
  }

  lemma WorkDecreases(s: State, t: nat, drawn: Draws)
    requires CanWork(s, t, drawn)
    ensures Total(DoWork(s, t, drawn).threads) < Total(s.threads)
  {
    match s.threads[t].pc
    case HasPrograms => WorkOnProgramsDecreases(s, t, drawn);
    case HasStorage => WorkOnStorageDecreases(s, t, drawn);
    case HasRequests =>
      if SendsNow(s, t) {
        SendingDecreases(s, t, drawn);
      } else {
        WorkOnRequestsDecreases(s, t, drawn);
      }
  }

  lemma PrepareMovesOne(w: World, s: State, t: nat, id: Bytes, txHash: Bytes, now: nat)
    requires t < |s.threads|
    ensures var threads := DoPrepare(w, s, t, id, txHash, now).threads;
            && |threads| == |s.threads| && threads == s.threads[t := threads[t]]
            && threads[t].call == s.threads[t].call
            && (threads[t].pc.Finished? || threads[t].pc == FirstLock(s.threads[t].call))
  {
  }

  lemma RankAfterPrepare(th: Thread, th': Thread)
    requires th.pc.Started? && th'.call == th.call && (th'.pc.Finished? || th'.pc == FirstLock(th.call))
    ensures Rank(th') < Rank(th)
  {
  }

  lemma PrepareDecreases(w: World, s: State, t: nat, id: Bytes, txHash: Bytes, now: nat)
    requires t < |s.threads| && s.threads[t].pc.Started?
    ensures Total(DoPrepare(w, s, t, id, txHash, now).threads) < Total(s.threads)
  {
    PrepareMovesOne(w, s, t, id, txHash, now);
    RankAfterPrepare(s.threads[t], DoPrepare(w, s, t, id, txHash, now).threads[t]);
    MoveDecreases(s, t, DoPrepare(w, s, t, id, txHash, now).threads);
  }

  lemma LockDecreases(s: State, t: nat)
    requires CanLock(s, t)
    ensures Total(DoLock(s, t).threads) < Total(s.threads)
  {
    TotalUpdate(s.threads, t, DoLock(s, t).threads[t]);
  }

  lemma StepDecreases(w: World, s: State, a: Action)
    requires Enabled(s, a) && !a.Invoke?
    ensures Total(Step(w, s, a).threads) < Total(s.threads)
  {
    match a
    case Prepare(t, id, txHash, now) => PrepareDecreases(w, s, t, id, txHash, now);
    case Lock(t) => LockDecreases(s, t);
    case Work(t, drawn) => WorkDecreases(s, t, drawn);
    case Acknowledge(t, now) => MoveDecreases(s, t, DoAcknowledge(s, t, now).threads);
    case Drop(t) => MoveDecreases(s, t, GiveUp(s, t).threads);
    case Reject(t) => MoveDecreases(s, t, s.threads[t := s.threads[t].(pc := ReadingError)]);
    case ReadError(t) => MoveDecreases(s, t, GiveUp(s, t).threads);
    case Cancel(t) => MoveDecreases(s, t, s.threads[t := s.threads[t].(pc := Cancelled)]);
  }

  predicate NoArrivals(actions: seq<Action>) {
    forall i :: 0 <= i < |actions| ==> !actions[i].Invoke?
  }

  // With no new arrivals, every schedule ends within `Total` steps.
  lemma {:induction false} SchedulesAreBounded(w: World, s: State, actions: seq<Action>, s': State)
    requires Runs(w, s, actions, s')
    requires NoArrivals(actions)
    ensures |actions| + Total(s'.threads) <= Total(s.threads)
    decreases |actions|
  {
    if actions != [] {
      StepDecreases(w, s, actions[0]);
      SchedulesAreBounded(w, Step(w, s, actions[0]), actions[1..], s');
    }
  }

  /* ----- deadlock freedom ----- */

  // A step the server can take by itself: no arrival, no cancellation, and no upload failure
  // that is not already a fact.
  ghost predicate Advances(s: State, a: Action) {
    && Enabled(s, a)
    && !a.Invoke? && !a.Cancel? && !a.Reject?
    && (a.Drop? ==>
          var c := s.threads[a.t].pc.child;
          c < |s.threads| && !Unfinished(s.threads[c]) && s.threads[c].pc != Finished(Uploaded))
  }

  lemma OwnStep(s: State, t: nat) returns (a: Action)
    requires t < |s.threads| && (s.threads[t].pc.Started? || s.threads[t].pc.ReadingError?)
    ensures Advances(s, a)
  {
    a := if s.threads[t].pc.Started? then Prepare(t, [], [], 0) else ReadError(t);
  }

  lemma HolderCanWork(w: World, s: State, t: nat) returns (a: Action)
    requires Inv(w, s) && t < |s.threads|
    requires s.threads[t].pc.HasPrograms? || s.threads[t].pc.HasRequests? || s.threads[t].pc.HasStorage?
    ensures Advances(s, a)
  {
    var order := OrderExists(s.store.requests);
    var drawn := NO_DRAWS.(order := order, nonce := seq(16, _ => 0));
    assert PlaceOk(w, s.threads[t]) && MemoryOk(s.store, s.threads[t]);
    a := Work(t, drawn);
  }

  lemma StorageFrees(w: World, s: State, t: nat) returns (a: Action)
    requires Inv(w, s) && t < |s.threads|
    requires s.threads[t].pc.WantStorage?
    ensures Advances(s, a)
  {
    if s.storageLock.None? {
      a := Lock(t);
    } else {
      a := HolderCanWork(w, s, s.storageLock.value);
    }
  }

  lemma UploadTaskMovesOn(w: World, s: State, c: nat) returns (a: Action)
    requires Inv(w, s) && c < |s.threads|
    requires Unfinished(s.threads[c]) && s.threads[c].call.PutArtifact?
    ensures Advances(s, a)
  {
    assert PlaceOk(w, s.threads[c]);
    if s.threads[c].pc.Started? {
      a := Prepare(c, [], [], 0);
    } else if s.threads[c].pc.WantStorage? {
      a := StorageFrees(w, s, c);
    } else {
      a := HolderCanWork(w, s, c);
    }
  }

  lemma UploadIsWellFormed(w: World, s: State, t: nat)
    requires Inv(w, s) && t < |s.threads|
    requires s.threads[t].pc.AwaitUpload?
    ensures s.threads[t].call.FulfillProof? && HasBody(s.threads[t].call) && s.threads[t].entry.Some?
    ensures s.threads[t].pc.child < |s.threads| && s.threads[s.threads[t].pc.child].call.PutArtifact?
  {
    var th := s.threads[t];
    assert PlaceOk(w, th) && MemoryOk(s.store, th) && ChildOk(s, th);
  }

  lemma AnswerArrives(s: State, t: nat) returns (a: Action)
    requires t < |s.threads| && s.threads[t].pc.AwaitUpload?
    requires s.threads[t].call.FulfillProof? && HasBody(s.threads[t].call) && s.threads[t].entry.Some?
    requires s.threads[t].pc.child < |s.threads| && !Unfinished(s.threads[s.threads[t].pc.child])
    ensures Advances(s, a)
  {
    a := if s.threads[s.threads[t].pc.child].pc == Finished(Uploaded) then Acknowledge(t, 0) else Drop(t);
  }

  // A fulfilment that waits for its upload holds the requests guard, but the upload needs only
  // the storage guard, which is never kept across an await.
  lemma UploadMovesOn(w: World, s: State, t: nat) returns (a: Action)
    requires Inv(w, s) && t < |s.threads|
    requires s.threads[t].pc.AwaitUpload?
    ensures Advances(s, a)
  {
    UploadIsWellFormed(w, s, t);
    var c := s.threads[t].pc.child;
    if Unfinished(s.threads[c]) {
      a := UploadTaskMovesOn(w, s, c);
    } else {
      a := AnswerArrives(s, t);
    }
  }

  lemma RequestsHolderMovesOn(w: World, s: State, h: nat) returns (a: Action)
    requires Inv(w, s) && h < |s.threads| && HoldsRequests(s.threads[h])
    ensures Advances(s, a)
  {
    match s.threads[h].pc
    case HasRequests => a := HolderCanWork(w, s, h);
    case AwaitUpload(_) => a := UploadMovesOn(w, s, h);
    case ReadingError => a := OwnStep(s, h);
  }

  lemma RequestsFree(w: World, s: State, t: nat) returns (a: Action)
    requires Inv(w, s) && t < |s.threads|
    requires s.threads[t].pc.WantRequests?
    ensures Advances(s, a)
  {
    if s.requestsLock.None? {
      a := Lock(t);
    } else {
      a := RequestsHolderMovesOn(w, s, s.requestsLock.value);
    }
  }

  lemma ProgramsHolderMovesOn(w: World, s: State, h: nat) returns (a: Action)
    requires Inv(w, s) && h < |s.threads| && HoldsPrograms(s.threads[h])
    ensures Advances(s, a)
  {
    match s.threads[h].pc
    case WantRequests => a := RequestsFree(w, s, h);
    case HasRequests => a := HolderCanWork(w, s, h);
    case HasPrograms => a := HolderCanWork(w, s, h);
  }

  lemma ProgramsFree(w: World, s: State, t: nat) returns (a: Action)
    requires Inv(w, s) && t < |s.threads|
    requires s.threads[t].pc.WantPrograms?
    ensures Advances(s, a)
  {
    if s.programsLock.None? {
      a := Lock(t);
    } else {
      a := ProgramsHolderMovesOn(w, s, s.programsLock.value);
    }
  }

  lemma WaiterMovesOn(w: World, s: State, t: nat) returns (a: Action)
    requires Inv(w, s) && t < |s.threads|
    requires s.threads[t].pc.WantPrograms? || s.threads[t].pc.WantRequests? || s.threads[t].pc.WantStorage?
    ensures Advances(s, a)
  {
    match s.threads[t].pc
    case WantPrograms => a := ProgramsFree(w, s, t);
    case WantRequests => a := RequestsFree(w, s, t);
    case WantStorage => a := StorageFrees(w, s, t);
  }

  // The locks are taken in the order programs, requests, storage: following the waits from any
  // handler leads to one that can step.
  lemma ThreadMovesOn(w: World, s: State, t: nat) returns (a: Action)
    requires Inv(w, s) && t < |s.threads| && Unfinished(s.threads[t])
    ensures Advances(s, a)
  {
    var pc := s.threads[t].pc;
    if pc.Started? || pc.ReadingError? {
      a := OwnStep(s, t);
    } else if pc.AwaitUpload? {
      a := UploadMovesOn(w, s, t);
    } else if pc.WantPrograms? || pc.WantRequests? || pc.WantStorage? {
      a := WaiterMovesOn(w, s, t);
    } else {
      a := HolderCanWork(w, s, t);
    }
  }

  // Deadlock freedom: while some handler has not ended, some handler can step, without any
  // help from cancellations or failing uploads.
  lemma DeadlockFree(w: World, s: State)
    requires Reachable(w, s)
    requires exists t :: 0 <= t < |s.threads| && Unfinished(s.threads[t])
    ensures exists a :: Advances(s, a)
  {
    ReachableInv(w, s);
    var t :| 0 <= t < |s.threads| && Unfinished(s.threads[t]);
    var a := ThreadMovesOn(w, s, t);
  }

  ghost predicate AllEnded(s: State) {
    forall t :: 0 <= t < |s.threads| ==> !Unfinished(s.threads[t])
  }

  // Every step of the schedule is one the server takes by itself.
  ghost predicate Drains(w: World, s: State, actions: seq<Action>, s': State)
    decreases |actions|
  {
    if actions == [] then s == s'
    else Advances(s, actions[0]) && Drains(w, Step(w, s, actions[0]), actions[1..], s')
  }

  lemma {:induction false} DrainFrom(w: World, s: State) returns (actions: seq<Action>, s': State)
    requires Inv(w, s)
    ensures Drains(w, s, actions, s') && AllEnded(s')
    decreases Total(s.threads)
  {
    if AllEnded(s) {
      actions, s' := [], s;
    } else {
      var t :| 0 <= t < |s.threads| && Unfinished(s.threads[t]);
      var a := ThreadMovesOn(w, s, t);
      StepKeepsInv(w, s, a);
      StepDecreases(w, s, a);
      var rest;
      rest, s' := DrainFrom(w, Step(w, s, a));
      actions := [a] + rest;
    }
  }

  // From every reachable state the server can, by itself, bring all handlers to their end, and
  // a schedule without arrivals can only stop short of that end by choice.
  lemma AllHandlersEnd(w: World, s: State)
    requires Reachable(w, s)
    ensures exists actions, s' :: Drains(w, s, actions, s') && AllEnded(s')
    ensures forall actions: seq<Action>, s': State ::
              Runs(w, s, actions, s') && NoArrivals(actions) ==>
              |actions| <= Total(s.threads) && (AllEnded(s') || exists a :: Advances(s', a))
  {
    ReachableInv(w, s);
    var actions, s' := DrainFrom(w, s);
    forall actions: seq<Action>, s': State | Runs(w, s, actions, s') && NoArrivals(actions)
      ensures |actions| <= Total(s.threads) && (AllEnded(s') || exists a :: Advances(s', a))
    {
      SchedulesAreBounded(w, s, actions, s');
      RunKeepsInv(w, s, actions, s');
      if !AllEnded(s') {
        var t :| 0 <= t < |s'.threads| && Unfinished(s'.threads[t]);
        var a := ThreadMovesOn(w, s', t);
      }
    }
  }
}
