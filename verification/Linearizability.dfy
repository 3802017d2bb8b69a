// Every interleaving is equivalent to running the handlers whole, in the order of the log.
module Linearizability {
  import opened Types
  import opened Addressing
  import opened Signing
  import opened Query
  import opened Handlers
  import opened Machine
  import opened Histories

  /* ----- the invariant ----- */

  predicate HoldsPrograms(th: Thread) {
    th.pc.HasPrograms? || (th.call.RequestProof? && (th.pc.WantRequests? || th.pc.HasRequests?))
  }

  predicate HoldsRequests(th: Thread) {
    th.pc.HasRequests? || th.pc.AwaitUpload? || th.pc.ReadingError?
  }

  predicate HoldsStorage(th: Thread) {
    th.pc.HasStorage?
  }

  // A lock is held by the thread whose program counter says so, and by no other.
  ghost predicate LocksOk(s: State) {
    && (forall t :: 0 <= t < |s.threads| ==> (HoldsPrograms(s.threads[t]) <==> s.programsLock == Some(t)))
    && (forall t :: 0 <= t < |s.threads| ==> (HoldsRequests(s.threads[t]) <==> s.requestsLock == Some(t)))
    && (forall t :: 0 <= t < |s.threads| ==> (HoldsStorage(s.threads[t]) <==> s.storageLock == Some(t)))
    && (s.programsLock.Some? ==> s.programsLock.value < |s.threads|)
    && (s.requestsLock.Some? ==> s.requestsLock.value < |s.threads|)
    && (s.storageLock.Some? ==> s.storageLock.value < |s.threads|)
  }

  // A thread past its checks is where its kind of call can be, ...
  predicate PlaceOk(w: World, th: Thread) {
    && (Unfinished(th) && !th.pc.Started? ==> Admit(w, th.call) == Admitted(th.signer))
    && (th.pc.WantPrograms? || th.pc.HasPrograms? ==> UsesPrograms(th.call))
    && (th.pc.WantRequests? || th.pc.HasRequests? ==> UsesRequests(th.call))
    && (th.pc.WantStorage? || th.pc.HasStorage? ==> UsesStorage(th.call))
    && (th.pc.AwaitUpload? || th.pc.ReadingError? ==> th.call.FulfillProof?)
  }

  // ... and what it has read under a guard is still what the map holds.
  predicate MemoryOk(store: Store, th: Thread) {
    && (th.call.RequestProof? && (th.pc.WantRequests? || th.pc.HasRequests?) ==>
          HasBody(th.call) &&
          th.entry == Some(NewEntry(th.call.proof.body.value, th.signer, store.programs, th.draws)))
    && (th.call.FulfillProof? && (th.pc.AwaitUpload? || th.pc.ReadingError?) ==>
          HasBody(th.call) &&
          th.call.fulfillment.body.value.requestId in store.requests &&
          th.entry == Some(store.requests[th.call.fulfillment.body.value.requestId]))
  }

  // The PUT a fulfilment waits for carries its proof to its URL, made of 16 random bytes.
  predicate ChildOk(s: State, th: Thread) {
    th.pc.AwaitUpload? && th.call.FulfillProof? && HasBody(th.call) ==>
      |th.draws.nonce| == 16 &&
      th.pc.child < |s.threads| &&
      s.threads[th.pc.child].call == PutArtifact(ProofUrl(th.draws.nonce), th.call.fulfillment.body.value.proof)
  }

  predicate Recorded(log: seq<Event>, t: nat, th: Thread) {
    th.pc.Finished? ==>
      th.startedAt <= th.committedAt < |log| &&
      log[th.committedAt] == Event(t, th.call, th.draws, th.pc.response)
  }

  // Finished threads and log events correspond one to one.
  ghost predicate LogOk(s: State) {
    && (forall t :: 0 <= t < |s.threads| ==> s.threads[t].startedAt <= |s.log| && Recorded(s.log, t, s.threads[t]))
    && (forall i :: 0 <= i < |s.log| ==>
          s.log[i].tid < |s.threads| &&
          s.threads[s.log[i].tid].pc.Finished? && s.threads[s.log[i].tid].committedAt == i)
  }

  ghost predicate ThreadsOk(w: World, s: State) {
    forall t :: 0 <= t < |s.threads| ==>
      PlaceOk(w, s.threads[t]) && MemoryOk(s.store, s.threads[t]) && ChildOk(s, s.threads[t])
  }

  ghost predicate Inv(w: World, s: State) {
    && LocksOk(s)
    && ThreadsOk(w, s)
    && LogOk(s)
    && History(w, s.log)
    && s.store == Replay(w, s.log)
  }

  /* ----- arrivals and moves ----- */

  lemma ArriveKeepsThreads(w: World, s: State, call: Call)
    requires ThreadsOk(w, s)
    ensures ThreadsOk(w, Arrive(s, call))
  {
    var s' := Arrive(s, call);
    forall t | 0 <= t < |s'.threads|
      ensures PlaceOk(w, s'.threads[t]) && MemoryOk(s'.store, s'.threads[t]) && ChildOk(s', s'.threads[t])
    {
      if t < |s.threads| {
        assert s'.threads[t] == s.threads[t];
      }
    }
  }

  lemma ArriveKeepsLocks(s: State, call: Call)
    requires LocksOk(s)
    ensures LocksOk(Arrive(s, call))
  {
  }

  lemma ArriveKeepsLog(s: State, call: Call)
    requires LogOk(s)
    ensures LogOk(Arrive(s, call))
  {
    var s' := Arrive(s, call);
    forall t | 0 <= t < |s'.threads|
      ensures s'.threads[t].startedAt <= |s'.log| && Recorded(s'.log, t, s'.threads[t])
    {
      if t < |s.threads| {
        assert s'.threads[t] == s.threads[t];
      }
    }
  }

  lemma ArriveKeepsInv(w: World, s: State, call: Call)
    requires Inv(w, s)
    ensures Inv(w, Arrive(s, call))
  {
    ArriveKeepsThreads(w, s, call);
    ArriveKeepsLocks(s, call);
    ArriveKeepsLog(s, call);
  }

  // The frame of a thread that moves without finishing and without changing its call.
  ghost predicate MovesTo(w: World, s: State, t: nat, th: Thread) {
    && t < |s.threads|
    && Unfinished(s.threads[t])
    && th.call == s.threads[t].call
    && th.startedAt == s.threads[t].startedAt
    && !th.pc.Finished?
    && PlaceOk(w, th) && MemoryOk(s.store, th) && ChildOk(s, th)
  }

  lemma MoveKeepsThreads(w: World, s: State, t: nat, th: Thread, s': State)
    requires ThreadsOk(w, s) && LogOk(s) && MovesTo(w, s, t, th)
    requires s'.threads == s.threads[t := th] && s'.store == s.store && s'.log == s.log
    ensures ThreadsOk(w, s') && LogOk(s')
  {
    forall u | 0 <= u < |s'.threads|
      ensures PlaceOk(w, s'.threads[u]) && MemoryOk(s'.store, s'.threads[u]) && ChildOk(s', s'.threads[u])
    {
      assert u != t ==> s'.threads[u] == s.threads[u];
    }
    forall i | 0 <= i < |s'.log|
      ensures s'.log[i].tid < |s'.threads|
      ensures s'.threads[s'.log[i].tid].pc.Finished? && s'.threads[s'.log[i].tid].committedAt == i
    {
      assert s.log[i].tid != t;
    }
  }

  /* ----- finishing ----- */

  // What a finishing thread must show: its answer and effect are those of the whole handler on
  // the state of the moment, and it touches a map only under that map's guard.
  ghost predicate Commits(w: World, s: State, t: nat, d: Draws, store: Store, response: Response) {
    && t < |s.threads|
    && Unfinished(s.threads[t])
    && Perform(w, s.store, s.threads[t].call, d) == Outcome(store, response)
    && (s.threads[t].call.GetFiltered? ==> IsOrderOf(d.order, s.store.requests))
    && (store.programs == s.store.programs || s.programsLock == Some(t))
    && (store.requests == s.store.requests || s.requestsLock == Some(t))
    && (var e := Event(t, s.threads[t].call, d, response); Publishes(e) ==> UploadedFor(s.log, e))
  }

  lemma FinishKeepsLocks(s: State, t: nat, d: Draws, store: Store, response: Response)
    requires LocksOk(s) && t < |s.threads|
    ensures LocksOk(Finish(s, t, d, store, response))
  {
    var s' := Finish(s, t, d, store, response);
    forall u | 0 <= u < |s'.threads|
      ensures HoldsPrograms(s'.threads[u]) <==> s'.programsLock == Some(u)
      ensures HoldsRequests(s'.threads[u]) <==> s'.requestsLock == Some(u)
      ensures HoldsStorage(s'.threads[u]) <==> s'.storageLock == Some(u)
    {
      assert u != t ==> s'.threads[u] == s.threads[u];
    }
  }

  lemma FinishKeepsLog(s: State, t: nat, d: Draws, store: Store, response: Response)
    requires LogOk(s) && t < |s.threads| && Unfinished(s.threads[t])
    ensures LogOk(Finish(s, t, d, store, response))
  {
    var s' := Finish(s, t, d, store, response);
    forall u | 0 <= u < |s'.threads|
      ensures s'.threads[u].startedAt <= |s'.log| && Recorded(s'.log, u, s'.threads[u])
    {
      assert Recorded(s.log, u, s.threads[u]);
    }
    forall i | 0 <= i < |s'.log|
      ensures s'.log[i].tid < |s'.threads|
      ensures s'.threads[s'.log[i].tid].pc.Finished? && s'.threads[s'.log[i].tid].committedAt == i
    {
      if i < |s.log| {
        assert s'.log[i] == s.log[i] && s.log[i].tid != t;
      }
    }
  }

  lemma FinishKeepsThreads(w: World, s: State, t: nat, d: Draws, store: Store, response: Response)
    requires LocksOk(s) && ThreadsOk(w, s)
    requires Commits(w, s, t, d, store, response)
    ensures ThreadsOk(w, Finish(s, t, d, store, response))
  {
    var s' := Finish(s, t, d, store, response);
    forall u | 0 <= u < |s'.threads|
      ensures PlaceOk(w, s'.threads[u]) && MemoryOk(s'.store, s'.threads[u]) && ChildOk(s', s'.threads[u])
    {
      if u != t {
        assert s'.threads[u] == s.threads[u];
        MemorySurvives(s, t, u, store);
      }
    }
  }

  lemma MemorySurvives(s: State, t: nat, u: nat, store: Store)
    requires LocksOk(s) && t < |s.threads| && u < |s.threads| && u != t
    requires store.programs == s.store.programs || s.programsLock == Some(t)
    requires store.requests == s.store.requests || s.requestsLock == Some(t)
    requires MemoryOk(s.store, s.threads[u])
    ensures MemoryOk(store, s.threads[u])
  {
    assert HoldsPrograms(s.threads[u]) ==> store.programs == s.store.programs;
    assert HoldsRequests(s.threads[u]) ==> store.requests == s.store.requests;
  }

  lemma FinishKeepsInv(w: World, s: State, t: nat, d: Draws, store: Store, response: Response)
    requires Inv(w, s)
    requires Commits(w, s, t, d, store, response)
    ensures Inv(w, Finish(s, t, d, store, response))
  {
    FinishKeepsLocks(s, t, d, store, response);
    FinishKeepsLog(s, t, d, store, response);
    FinishKeepsThreads(w, s, t, d, store, response);
    var e := Event(t, s.threads[t].call, d, response);
    ReplayAppend(w, s.log, e);
    HistoryAppend(w, s.log, e);
  }

  /* ----- the steps, one by one ----- */

  lemma RefuseKeepsInv(w: World, s: State, t: nat, d: Draws, code: Code)
    requires Inv(w, s) && t < |s.threads| && s.threads[t].pc.Started?
    requires Admit(w, s.threads[t].call) == Refused(code)
    ensures Inv(w, Finish(s, t, d, s.store, Error(code)))
  {
    assert Commits(w, s, t, d, s.store, Error(code));
    FinishKeepsInv(w, s, t, d, s.store, Error(code));
  }

  lemma AdmitKeepsInv(w: World, s: State, t: nat, th: Thread)
    requires Inv(w, s) && t < |s.threads| && s.threads[t].pc.Started?
    requires Admit(w, th.call) == Admitted(th.signer) && th.pc == FirstLock(th.call)
    requires th.call == s.threads[t].call && th.startedAt == s.threads[t].startedAt
    ensures Inv(w, Move(s, t, th))
  {
    MoveKeepsThreads(w, s, t, th, Move(s, t, th));
  }

  lemma PrepareKeepsInv(w: World, s: State, t: nat, id: Bytes, txHash: Bytes, now: nat)
    requires Inv(w, s) && t < |s.threads| && s.threads[t].pc.Started?
    ensures Inv(w, DoPrepare(w, s, t, id, txHash, now))
  {
    var th := s.threads[t];
    var d := th.draws.(id := id, txHash := txHash, now := now);
    match Admit(w, th.call)
    case Refused(code) => RefuseKeepsInv(w, s, t, d, code);
    case Admitted(signer) => AdmitKeepsInv(w, s, t, th.(pc := FirstLock(th.call), draws := d, signer := signer));
  }

  lemma LockKeepsLocks(s: State, t: nat)
    requires LocksOk(s) && CanLock(s, t)
    ensures LocksOk(DoLock(s, t))
  {
    var s' := DoLock(s, t);
    forall u | 0 <= u < |s'.threads|
      ensures HoldsPrograms(s'.threads[u]) <==> s'.programsLock == Some(u)
      ensures HoldsRequests(s'.threads[u]) <==> s'.requestsLock == Some(u)
      ensures HoldsStorage(s'.threads[u]) <==> s'.storageLock == Some(u)
    {
      assert u != t ==> s'.threads[u] == s.threads[u];
    }
  }

  lemma LockKeepsInv(w: World, s: State, t: nat)
    requires Inv(w, s) && CanLock(s, t)
    ensures Inv(w, DoLock(s, t))
  {
    var s' := DoLock(s, t);
    LockKeepsLocks(s, t);
    MoveKeepsThreads(w, s, t, s'.threads[t], s');
  }

  // `request_proof` keeps the guard of `programs` and remembers the record it built.
  lemma BuildKeepsInv(w: World, s: State, t: nat, drawn: Draws)
    requires Inv(w, s) && CanWork(s, t, drawn)
    requires s.threads[t].pc.HasPrograms? && s.threads[t].call.RequestProof?
    ensures Inv(w, WorkOnPrograms(s, t, drawn))
  {
    var s' := WorkOnPrograms(s, t, drawn);
    MoveKeepsThreads(w, s, t, s'.threads[t], s');
  }

  lemma WorkOnProgramsKeepsInv(w: World, s: State, t: nat, drawn: Draws)
    requires Inv(w, s) && CanWork(s, t, drawn) && s.threads[t].pc.HasPrograms?
    ensures Inv(w, WorkOnPrograms(s, t, drawn))
  {
    var th := s.threads[t];
    match th.call
    case RequestProof(_) =>
      BuildKeepsInv(w, s, t, drawn);
    case CreateProgram(m) =>
      var d := th.draws.(txHash := drawn.txHash);
      var o := DoCreateProgram(s.store, m.body.value, th.signer, d);
      assert Commits(w, s, t, d, o.store, o.response);
      FinishKeepsInv(w, s, t, d, o.store, o.response);
    case GetProgram(_) =>
      var r := Read(s.store, th.call, th.draws);
      assert Commits(w, s, t, th.draws, s.store, r);
      FinishKeepsInv(w, s, t, th.draws, s.store, r);
  }

  // The record was built under the guard of `programs`, kept ever since: it is the record the
  // whole handler would build now.
  lemma InsertKeepsInv(w: World, s: State, t: nat, drawn: Draws)
    requires Inv(w, s) && CanWork(s, t, drawn)
    requires s.threads[t].pc.HasRequests? && s.threads[t].call.RequestProof?
    ensures Inv(w, WorkOnRequests(s, t, drawn))
  {
    var th := s.threads[t];
    var o := DoRequest(s.store, th.call.proof.body.value, th.signer, th.draws);
    assert MemoryOk(s.store, th) && PlaceOk(w, th);
    assert Commits(w, s, t, th.draws, o.store, o.response);
    FinishKeepsInv(w, s, t, th.draws, o.store, o.response);
  }

  // The PUT arrives first, then the handler that waits for it moves.
  lemma SendMoves(w: World, s: State, t: nat, b: FulfillProofBody, nonce: Bytes)
    requires ThreadsOk(w, s) && t < |s.threads| && s.threads[t].pc.HasRequests?
    requires s.threads[t].call.FulfillProof? && HasBody(s.threads[t].call)
    requires b == s.threads[t].call.fulfillment.body.value && b.requestId in s.store.requests && |nonce| == 16
    ensures var arrived, s' := Arrive(s, PutArtifact(ProofUrl(nonce), b.proof)), SendUpload(s, t, b, nonce);
            MovesTo(w, arrived, t, s'.threads[t]) && s'.threads == arrived.threads[t := s'.threads[t]]
  {
    assert PlaceOk(w, s.threads[t]);
  }

  lemma SendKeepsInv(w: World, s: State, t: nat, nonce: Bytes)
    requires Inv(w, s) && t < |s.threads| && s.threads[t].pc.HasRequests?
    requires s.threads[t].call.FulfillProof? && HasBody(s.threads[t].call)
    requires s.threads[t].call.fulfillment.body.value.requestId in s.store.requests && |nonce| == 16
    ensures Inv(w, SendUpload(s, t, s.threads[t].call.fulfillment.body.value, nonce))
  {
    var b := s.threads[t].call.fulfillment.body.value;
    var arrived, s' := Arrive(s, PutArtifact(ProofUrl(nonce), b.proof)), SendUpload(s, t, b, nonce);
    ArriveKeepsInv(w, s, PutArtifact(ProofUrl(nonce), b.proof));
    SendMoves(w, s, t, b, nonce);
    MoveKeepsThreads(w, arrived, t, s'.threads[t], s');
    SendKeepsLocks(s, arrived, t, s');
  }

  lemma SendKeepsLocks(s: State, arrived: State, t: nat, s': State)
    requires t < |s.threads| && |arrived.threads| == |s'.threads| == |s.threads| + 1
    requires LocksOk(arrived) && arrived.threads[..|s.threads|] == s.threads
    requires s'.threads == arrived.threads[t := s'.threads[t]]
    requires s.threads[t].pc.HasRequests? && s.threads[t].call.FulfillProof?
    requires s'.threads[t].call == s.threads[t].call && s'.threads[t].pc.AwaitUpload?
    requires s'.programsLock == arrived.programsLock && s'.requestsLock == arrived.requestsLock
    requires s'.storageLock == arrived.storageLock
    ensures LocksOk(s')
  {
    assert arrived.threads[t] == s.threads[t];
    forall u | 0 <= u < |s'.threads|
      ensures HoldsPrograms(s'.threads[u]) <==> s'.programsLock == Some(u)
      ensures HoldsRequests(s'.threads[u]) <==> s'.requestsLock == Some(u)
      ensures HoldsStorage(s'.threads[u]) <==> s'.storageLock == Some(u)
    {
      assert u != t ==> s'.threads[u] == arrived.threads[u];
    }
  }

  lemma WorkOnRequestsKeepsInv(w: World, s: State, t: nat, drawn: Draws)
    requires Inv(w, s) && Enabled(s, Work(t, drawn)) && s.threads[t].pc.HasRequests?
    ensures Inv(w, WorkOnRequests(s, t, drawn))
  {
    var th := s.threads[t];
    if th.call.RequestProof? {
      InsertKeepsInv(w, s, t, drawn);
    } else if th.call.FulfillProof? {
      if th.call.fulfillment.body.value.requestId in s.store.requests {
        SendKeepsInv(w, s, t, drawn.nonce);
      } else {
        assert Commits(w, s, t, th.draws, s.store, Error(NotFound));
        FinishKeepsInv(w, s, t, th.draws, s.store, Error(NotFound));
      }
    } else if th.call.FailFulfillment? {
      var d := th.draws.(now := drawn.now);
      var o := DoFail(s.store, th.call.failure.value, d);
      assert Commits(w, s, t, d, o.store, o.response);
      FinishKeepsInv(w, s, t, d, o.store, o.response);
    } else {
      var d := th.draws.(order := drawn.order);
      var r := Read(s.store, th.call, d);
      assert Commits(w, s, t, d, s.store, r);
      FinishKeepsInv(w, s, t, d, s.store, r);
    }
  }

  lemma WorkOnStorageKeepsInv(w: World, s: State, t: nat, drawn: Draws)
    requires Inv(w, s) && CanWork(s, t, drawn) && s.threads[t].pc.HasStorage?
    ensures Inv(w, WorkOnStorage(s, t))
  {
    var th := s.threads[t];
    match th.call
    case PutArtifact(url, data) =>
      var o := DoPut(s.store, url, data);
      assert Commits(w, s, t, th.draws, o.store, o.response);
      FinishKeepsInv(w, s, t, th.draws, o.store, o.response);
    case GetArtifact(_) =>
      var r := Read(s.store, th.call, th.draws);
      assert Commits(w, s, t, th.draws, s.store, r);
      FinishKeepsInv(w, s, t, th.draws, s.store, r);
  }

  // The acknowledged upload is in the log, because its thread has finished.
  lemma AcknowledgedUpload(w: World, s: State, t: nat)
    requires Inv(w, s) && CanAcknowledge(s, t)
    ensures |s.threads[t].draws.nonce| == 16
    ensures exists j :: 0 <= j < |s.log| &&
              Stores(s.log[j], ProofUrl(s.threads[t].draws.nonce), s.threads[t].call.fulfillment.body.value.proof)
  {
    var th := s.threads[t];
    var child := s.threads[th.pc.child];
    assert ChildOk(s, th);
    assert Recorded(s.log, th.pc.child, child);
    assert Stores(s.log[child.committedAt], ProofUrl(th.draws.nonce), th.call.fulfillment.body.value.proof);
  }

  // The borrowed record is still the stored one: the guard was kept across the whole upload.
  lemma AcknowledgeKeepsInv(w: World, s: State, t: nat, now: nat)
    requires Inv(w, s) && CanAcknowledge(s, t)
    ensures Inv(w, DoAcknowledge(s, t, now))
  {
    var th := s.threads[t];
    var d := th.draws.(now := now, upload := Stored);
    var o := DoFulfill(s.store, th.call.fulfillment.body.value, th.signer, d);
    assert MemoryOk(s.store, th) && PlaceOk(w, th);
    AcknowledgedUpload(w, s, t);
    assert Commits(w, s, t, d, o.store, o.response);
    FinishKeepsInv(w, s, t, d, o.store, o.response);
  }

  lemma GiveUpKeepsInv(w: World, s: State, t: nat)
    requires Inv(w, s) && t < |s.threads|
    requires s.threads[t].pc.AwaitUpload? || s.threads[t].pc.ReadingError?
    ensures Inv(w, GiveUp(s, t))
  {
    var th := s.threads[t];
    var d := th.draws.(upload := Failed);
    assert MemoryOk(s.store, th) && PlaceOk(w, th);
    assert Commits(w, s, t, d, s.store, Error(Internal));
    FinishKeepsInv(w, s, t, d, s.store, Error(Internal));
  }

  lemma RejectKeepsLocks(s: State, t: nat)
    requires LocksOk(s) && t < |s.threads| && s.threads[t].pc.AwaitUpload?
    ensures LocksOk(Move(s, t, s.threads[t].(pc := ReadingError)))
  {
  }

  lemma RejectKeepsInv(w: World, s: State, t: nat)
    requires Inv(w, s) && t < |s.threads| && s.threads[t].pc.AwaitUpload?
    ensures Inv(w, Move(s, t, s.threads[t].(pc := ReadingError)))
  {
    var th := s.threads[t].(pc := ReadingError);
    RejectKeepsLocks(s, t);
    MoveKeepsThreads(w, s, t, th, Move(s, t, th));
  }

  lemma CancelKeepsLocks(s: State, t: nat)
    requires LocksOk(s) && t < |s.threads| && AtAwait(s.threads[t].pc)
    ensures LocksOk(ReleaseAll(Move(s, t, s.threads[t].(pc := Cancelled)), t))
  {
    var s' := ReleaseAll(Move(s, t, s.threads[t].(pc := Cancelled)), t);
    forall u | 0 <= u < |s'.threads|
      ensures HoldsPrograms(s'.threads[u]) <==> s'.programsLock == Some(u)
      ensures HoldsRequests(s'.threads[u]) <==> s'.requestsLock == Some(u)
      ensures HoldsStorage(s'.threads[u]) <==> s'.storageLock == Some(u)
    {
      assert u != t ==> s'.threads[u] == s.threads[u];
    }
  }

  lemma CancelKeepsInv(w: World, s: State, t: nat)
    requires Inv(w, s) && t < |s.threads| && AtAwait(s.threads[t].pc)
    ensures Inv(w, ReleaseAll(Move(s, t, s.threads[t].(pc := Cancelled)), t))
  {
    var th := s.threads[t].(pc := Cancelled);
    CancelKeepsLocks(s, t);
    MoveKeepsThreads(w, s, t, th, ReleaseAll(Move(s, t, th), t));
  }

  lemma WorkKeepsInv(w: World, s: State, t: nat, drawn: Draws)
    requires Inv(w, s) && Enabled(s, Work(t, drawn))
    ensures Inv(w, DoWork(s, t, drawn))
  {
    match s.threads[t].pc
    case HasPrograms => WorkOnProgramsKeepsInv(w, s, t, drawn);
    case HasRequests => WorkOnRequestsKeepsInv(w, s, t, drawn);
    case HasStorage => WorkOnStorageKeepsInv(w, s, t, drawn);
  }

  lemma StepKeepsInv(w: World, s: State, a: Action)
    requires Inv(w, s) && Enabled(s, a)
    ensures Inv(w, Step(w, s, a))
  {
    match a
    case Invoke(call) => ArriveKeepsInv(w, s, call);
    case Prepare(t, id, txHash, now) => PrepareKeepsInv(w, s, t, id, txHash, now);
    case Lock(t) => LockKeepsInv(w, s, t);
    case Work(t, drawn) => WorkKeepsInv(w, s, t, drawn);
    case Acknowledge(t, now) => AcknowledgeKeepsInv(w, s, t, now);
    case Drop(t) => GiveUpKeepsInv(w, s, t);
    case Reject(t) => RejectKeepsInv(w, s, t);
    case ReadError(t) => GiveUpKeepsInv(w, s, t);
    case Cancel(t) => CancelKeepsInv(w, s, t);
  }

  lemma {:induction false} RunKeepsInv(w: World, s: State, actions: seq<Action>, s': State)
    requires Inv(w, s) && Runs(w, s, actions, s')
    ensures Inv(w, s')
    decreases |actions|
  {
    if actions != [] {
      StepKeepsInv(w, s, actions[0]);
      RunKeepsInv(w, Step(w, s, actions[0]), actions[1..], s');
    }
  }

  lemma ReachableInv(w: World, s: State)
    requires Reachable(w, s)
    ensures Inv(w, s)
  {
    var actions :| Runs(w, INIT, actions, s);
    RunKeepsInv(w, INIT, actions, s);
  }

  lemma ReachableHistory(w: World, s: State)
    requires Reachable(w, s)
    ensures History(w, s.log) && s.store == Replay(w, s.log)
  {
    ReachableInv(w, s);
  }

  /* ----- the theorems ----- */

  // Linearizability: the maps are those left by running the completed handlers whole in log
  // order, every answer is the one its handler then gives, a query having seen each record of
  // the map of that moment once, and the log holds exactly the finished handlers, once each.
  lemma Linearizable(w: World, s: State)
    requires Reachable(w, s)
    ensures s.store == Replay(w, s.log)
    ensures forall i :: 0 <= i < |s.log| ==>
              s.log[i].response == Perform(w, Replay(w, s.log[..i]), s.log[i].call, s.log[i].draws).response &&
              (s.log[i].call.GetFiltered? ==> IsOrderOf(s.log[i].draws.order, Replay(w, s.log[..i]).requests))
    ensures forall t :: 0 <= t < |s.threads| && s.threads[t].pc.Finished? ==>
              var th := s.threads[t];
              th.committedAt < |s.log| && s.log[th.committedAt] == Event(t, th.call, th.draws, th.pc.response)
    ensures forall i :: 0 <= i < |s.log| ==>
              s.log[i].tid < |s.threads| && s.threads[s.log[i].tid].pc == Finished(s.log[i].response)
    ensures forall i, j :: 0 <= i < j < |s.log| ==> s.log[i].tid != s.log[j].tid
  {
    ReachableInv(w, s);
    forall i | 0 <= i < |s.log|
      ensures s.threads[s.log[i].tid].pc == Finished(s.log[i].response)
    {
      assert Recorded(s.log, s.log[i].tid, s.threads[s.log[i].tid]);
    }
    forall i | 0 <= i < |s.log|
      ensures s.log[i].response == Perform(w, Replay(w, s.log[..i]), s.log[i].call, s.log[i].draws).response
      ensures s.log[i].call.GetFiltered? ==> IsOrderOf(s.log[i].draws.order, Replay(w, s.log[..i]).requests)
    {
      assert Answers(w, Replay(w, s.log[..i]), s.log[i]);
    }
  }

  // What never changes as a run goes on.
  ghost predicate Extends(s: State, s': State) {
    && |s.threads| <= |s'.threads|
    && s.log <= s'.log
    && (forall t :: 0 <= t < |s.threads| ==> s'.threads[t].startedAt == s.threads[t].startedAt)
    && (forall t :: 0 <= t < |s.threads| && s.threads[t].pc.Finished? ==> s'.threads[t] == s.threads[t])
    && (forall t :: |s.threads| <= t < |s'.threads| ==> s'.threads[t].startedAt >= |s.log|)
  }

  lemma WorkExtends(s: State, t: nat, drawn: Draws)
    requires CanWork(s, t, drawn)
    ensures Extends(s, DoWork(s, t, drawn))
  {
  }

  lemma StepExtends(w: World, s: State, a: Action)
    requires Enabled(s, a)
    ensures Extends(s, Step(w, s, a))
  {
    if a.Work? {
      WorkExtends(s, a.t, a.drawn);
    }
  }

  lemma ExtendsTransitive(a: State, b: State, c: State)
    requires Extends(a, b) && Extends(b, c)
    ensures Extends(a, c)
  {
    forall t | |a.threads| <= t < |c.threads|
      ensures c.threads[t].startedAt >= |a.log|
    {
      if t < |b.threads| {
        assert c.threads[t].startedAt == b.threads[t].startedAt;
      }
    }
  }

  lemma {:induction false} RunExtends(w: World, s: State, actions: seq<Action>, s': State)
    requires Runs(w, s, actions, s')
    ensures Extends(s, s')
    decreases |actions|
  {
    if actions != [] {
      StepExtends(w, s, actions[0]);
      RunExtends(w, Step(w, s, actions[0]), actions[1..], s');
      ExtendsTransitive(s, Step(w, s, actions[0]), s');
    }
  }

  // The log respects real time: a handler that had answered before another one arrived took
  // effect before it.
  lemma RealTimeOrder(w: World, s: State, actions: seq<Action>, s': State, a: nat, b: nat)
    requires Reachable(w, s) && Runs(w, s, actions, s')
    requires a < |s.threads| && s.threads[a].pc.Finished?
    requires |s.threads| <= b < |s'.threads| && s'.threads[b].pc.Finished?
    ensures s'.threads[a].committedAt < s'.threads[b].committedAt
  {
    ReachableInv(w, s);
    RunKeepsInv(w, s, actions, s');
    RunExtends(w, s, actions, s');
    assert Recorded(s.log, a, s.threads[a]);
    assert Recorded(s'.log, b, s'.threads[b]);
  }

  // A handler that answers with an error has changed nothing. The PUT of a fulfilment is a
  // handler of its own: it may have been stored although the fulfilment answers with an error.
  lemma ErrorsChangeNothing(w: World, s: Store, call: Call, d: Draws)
    ensures Perform(w, s, call, d).response.Error? ==> Perform(w, s, call, d).store == s
  {
  }

  // Every step either leaves the shared maps and the log alone, or is the one step in which a
  // single handler takes its whole effect.
  lemma StepsAreAtomic(w: World, s: State, a: Action)
    requires Reachable(w, s) && Enabled(s, a)
    ensures var s' := Step(w, s, a);
            || (s'.store == s.store && s'.log == s.log)
            || (exists e ::
                  && s'.log == s.log + [e]
                  && Perform(w, s.store, e.call, e.draws) == Outcome(s'.store, e.response))
  {
    ReachableInv(w, s);
    StepKeepsInv(w, s, a);
    var s' := Step(w, s, a);
    StepLogs(w, s, a);
    if s'.log != s.log {
      var e :| s'.log == s.log + [e];
      ReplayAppend(w, s.log, e);
      assert Answers(w, Replay(w, s'.log[..|s.log|]), s'.log[|s.log|]);
      assert s'.log[..|s.log|] == s.log;
    }
  }

  lemma StepLogs(w: World, s: State, a: Action)
    requires Enabled(s, a)
    ensures Step(w, s, a).log == s.log || exists e :: Step(w, s, a).log == s.log + [e]
  {
    if a.Work? {
      WorkLogs(s, a.t, a.drawn);
    }
  }

  lemma WorkLogs(s: State, t: nat, drawn: Draws)
    requires CanWork(s, t, drawn)
    ensures DoWork(s, t, drawn).log == s.log || exists e :: DoWork(s, t, drawn).log == s.log + [e]
  {
  }

  // Cancellation: an unfinished handler can be dropped unless it is at work under a guard it has
  // been granted, that is, at each of its awaits. Its drop changes no map, it gives up every guard
  // it held, and it leaves no event, so programs and requests are as if it had never come. The PUT
  // of a dropped fulfilment is a handler of its own, which goes on and may still store the proof.
  lemma CancelledLeavesNothing(w: World, s: State, t: nat)
    requires Reachable(w, s) && t < |s.threads| && Unfinished(s.threads[t])
    requires !s.threads[t].pc.HasPrograms? && !s.threads[t].pc.HasRequests? && !s.threads[t].pc.HasStorage?
    ensures Enabled(s, Cancel(t))
    ensures var s' := Step(w, s, Cancel(t));
            && s'.store == s.store == Replay(w, s.log) && s'.log == s.log
            && s'.programsLock != Some(t) && s'.requestsLock != Some(t) && s'.storageLock != Some(t)
            && (forall actions, s'' :: Runs(w, s', actions, s'') ==>
                  s''.store == Replay(w, s''.log) && forall i :: 0 <= i < |s''.log| ==> s''.log[i].tid != t)
  {
    ReachableInv(w, s);
    StepKeepsInv(w, s, Cancel(t));
    var s' := Step(w, s, Cancel(t));
    forall actions, s'' | Runs(w, s', actions, s'')
      ensures s''.store == Replay(w, s''.log) && forall i :: 0 <= i < |s''.log| ==> s''.log[i].tid != t
    {
      RunKeepsInv(w, s', actions, s'');
      CancelledStays(w, s', actions, s'', t);
    }
  }

  lemma {:induction false} CancelledStays(w: World, s: State, actions: seq<Action>, s': State, t: nat)
    requires Runs(w, s, actions, s') && t < |s.threads| && s.threads[t].pc.Cancelled?
    ensures t < |s'.threads| && s'.threads[t].pc.Cancelled?
    decreases |actions|
  {
    if actions != [] {
      var next := Step(w, s, actions[0]);
      assert t < |next.threads| && next.threads[t].pc.Cancelled?;
      CancelledStays(w, next, actions[1..], s', t);
    }
  }
}
