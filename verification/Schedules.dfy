// The converse of linearizability: every sequence of handlers is the outcome of some schedule.
module Schedules {
  import opened Types
  import opened Addressing
  import opened Signing
  import opened Query
  import opened Handlers
  import opened Machine
  import opened Histories
  import opened Linearizability
  import opened Lifecycle

  /* ----- joining runs ----- */

  lemma {:induction false} RunsJoin(w: World, a: State, xs: seq<Action>, b: State, ys: seq<Action>, c: State)
    requires Runs(w, a, xs, b) && Runs(w, b, ys, c)
    ensures Runs(w, a, xs + ys, c)
    decreases |xs|
  {
    if xs == [] {
      assert xs + ys == ys;
    } else {
      RunsJoin(w, Step(w, a, xs[0]), xs[1..], b, ys, c);
      assert (xs + ys)[0] == xs[0] && (xs + ys)[1..] == xs[1..] + ys;
    }
  }

  lemma RunsOne(w: World, s: State, a: Action)
    requires Enabled(s, a)
    ensures Runs(w, s, [a], Step(w, s, a))
  {
    assert [a][1..] == [];
  }

  lemma RunsThen(w: World, s: State, xs: seq<Action>, m: State, a: Action)
    requires Runs(w, s, xs, m) && Enabled(m, a)
    ensures Runs(w, s, xs + [a], Step(w, m, a))
  {
    RunsOne(w, m, a);
    RunsJoin(w, s, xs, m, [a], Step(w, m, a));
  }

  /* ----- clocks ----- */

  // The clock reading of a step.
  function ClockRead(a: Action): Option<nat> {
    match a
    case Prepare(_, _, _, now) => Some(now)
    case Acknowledge(_, now) => Some(now)
    case Work(_, drawn) => Some(drawn.now)
    case _ => None
  }

  // The clock after a step.
  function After(a: Action, now: nat): nat {
    if ClockRead(a).Some? then ClockRead(a).value else now
  }

  // The clock never goes back along the schedule, which starts at `now` and ends by `end`.
  predicate Ticks(xs: seq<Action>, now: nat, end: nat) {
    if xs == [] then now <= end
    else now <= After(xs[0], now) && Ticks(xs[1..], After(xs[0], now), end)
  }

  lemma {:induction false} TicksJoin(xs: seq<Action>, ys: seq<Action>, now: nat, mid: nat, end: nat)
    requires Ticks(xs, now, mid) && Ticks(ys, mid, end)
    ensures Ticks(xs + ys, now, end)
  {
    if xs == [] {
      TicksEarlier(ys, now, mid, end);
      assert xs + ys == ys;
    } else {
      TicksJoin(xs[1..], ys, After(xs[0], now), mid, end);
      assert (xs + ys)[0] == xs[0] && (xs + ys)[1..] == xs[1..] + ys;
    }
  }

  lemma {:induction false} TicksEarlier(xs: seq<Action>, now: nat, later: nat, end: nat)
    requires now <= later && Ticks(xs, later, end)
    ensures Ticks(xs, now, end)
  {
    if xs != [] && ClockRead(xs[0]).None? {
      TicksEarlier(xs[1..], now, later, end);
    }
  }

  // Schedules that read one time only.
  predicate ReadsOnly(xs: seq<Action>, clock: nat) {
    forall i :: 0 <= i < |xs| && ClockRead(xs[i]).Some? ==> ClockRead(xs[i]).value == clock
  }

  lemma {:induction false} ReadsOnlyTicks(xs: seq<Action>, now: nat, clock: nat)
    requires ReadsOnly(xs, clock) && now <= clock
    ensures Ticks(xs, now, clock)
  {
    if xs != [] {
      ReadsOnlyTicks(xs[1..], After(xs[0], now), clock);
    }
  }

  /* ----- one handler on its own ----- */

  predicate Quiet(s: State) {
    s.programsLock.None? && s.requestsLock.None? && s.storageLock.None?
  }

  // What is drawn before the first await.
  function Early(d: Draws): Draws {
    NO_DRAWS.(id := d.id, txHash := d.txHash, now := d.now)
  }

  function Granted(call: Call): Pc {
    if UsesPrograms(call) then HasPrograms else if UsesStorage(call) then HasStorage else HasRequests
  }

  // A handler that has just been granted its first lock, alone.
  ghost predicate AtWork(s: State, call: Call, signer: Bytes, d: Draws, m: State) {
    && m.store == s.store && m.log == s.log
    && m.threads == s.threads + [Thread(call, Granted(call), Early(d), signer, None, |s.log|, 0)]
    && m.programsLock == (if UsesPrograms(call) then Some(|s.threads|) else None)
    && m.storageLock == (if UsesStorage(call) then Some(|s.threads|) else None)
    && m.requestsLock == (if Granted(call).HasRequests? then Some(|s.threads|) else None)
  }

  lemma Admits(w: World, s: State, call: Call, signer: Bytes, d: Draws) returns (xs: seq<Action>, m: State)
    requires Quiet(s) && Admit(w, call) == Admitted(signer)
    ensures Runs(w, s, xs, m) && Quiet(m) && ReadsOnly(xs, d.now)
    ensures m == s.(threads := s.threads + [Thread(call, FirstLock(call), Early(d), signer, None, |s.log|, 0)])
  {
    var t := |s.threads|;
    var s1 := Step(w, s, Invoke(call));
    RunsOne(w, s, Invoke(call));
    var a := Prepare(t, d.id, d.txHash, d.now);
    RunsThen(w, s, [Invoke(call)], s1, a);
    xs, m := [Invoke(call)] + [a], Step(w, s1, a);
    assert m.threads == s.threads + [Thread(call, FirstLock(call), Early(d), signer, None, |s.log|, 0)];
  }

  lemma GetsToWork(w: World, s: State, call: Call, signer: Bytes, d: Draws) returns (xs: seq<Action>, m: State)
    requires Quiet(s) && Admit(w, call) == Admitted(signer)
    ensures Runs(w, s, xs, m) && AtWork(s, call, signer, d, m) && ReadsOnly(xs, d.now)
  {
    var t := |s.threads|;
    var m1;
    xs, m1 := Admits(w, s, call, signer, d);
    RunsThen(w, s, xs, m1, Lock(t));
    xs, m := xs + [Lock(t)], Step(w, m1, Lock(t));
    assert m.threads == s.threads + [Thread(call, Granted(call), Early(d), signer, None, |s.log|, 0)];
  }

  // The storage after a whole handler and, if it is a fulfilment, its upload.
  function StorageAfter(w: World, s: Store, call: Call, d: Draws): map<string, Bytes> {
    if Sends(w, s, call) && d.upload.Stored? && Route(ProofUrl(d.nonce)).Some?
    then s.storage[Key(Route(ProofUrl(d.nonce)).value) := call.fulfillment.body.value.proof]
    else Perform(w, s, call, d).store.storage
  }

  // What a handler that sends nothing uses of its draws.
  function Share(call: Call, d: Draws): Draws {
    if UsesRequests(call) && IsRead(call) then Early(d).(order := d.order) else Early(d)
  }

  // The run took the handler through, alone: it is quiet again, the maps are as the whole
  // handler leaves them, and its answer is the last of the log.
  ghost predicate RanAlone(w: World, s: State, call: Call, d: Draws, xs: seq<Action>, s': State) {
    && Runs(w, s, xs, s') && Quiet(s') && ReadsOnly(xs, d.now)
    && var o := Perform(w, s.store, call, d);
    && s'.store == o.store.(storage := StorageAfter(w, s.store, call, d))
    && s'.log != []
    && s'.log[|s'.log| - 1].call == call
    && s'.log[|s'.log| - 1].response == o.response
    && (!Sends(w, s.store, call) ==>
          |s'.threads| == |s.threads| + 1 && s'.threads[..|s.threads|] == s.threads &&
          s'.log == s.log + [Event(|s.threads|, call, Share(call, d), o.response)])
  }

  lemma RefusedRunsAlone(w: World, s: State, call: Call, d: Draws) returns (xs: seq<Action>, s': State)
    requires Quiet(s) && Admit(w, call).Refused?
    ensures RanAlone(w, s, call, d, xs, s')
  {
    var t := |s.threads|;
    var s1 := Step(w, s, Invoke(call));
    RunsOne(w, s, Invoke(call));
    var a := Prepare(t, d.id, d.txHash, d.now);
    RunsThen(w, s, [Invoke(call)], s1, a);
    xs, s' := [Invoke(call)] + [a], Step(w, s1, a);
  }

  // The handlers with a single critical section.
  predicate OneSection(s: Store, call: Call) {
    && !call.RequestProof?
    && (call.FulfillProof? && HasBody(call) ==> call.fulfillment.body.value.requestId !in s.requests)
  }

  lemma OneSectionRunsAlone(w: World, s: State, call: Call, d: Draws) returns (xs: seq<Action>, s': State)
    requires Quiet(s) && Admit(w, call).Admitted? && OneSection(s.store, call)
    requires |d.nonce| == 16 && (call.GetFiltered? ==> IsOrderOf(d.order, s.store.requests))
    ensures RanAlone(w, s, call, d, xs, s')
  {
    var t := |s.threads|;
    var m;
    xs, m := GetsToWork(w, s, call, Admit(w, call).signer, d);
    var a := Work(t, d);
    RunsThen(w, s, xs, m, a);
    xs, s' := xs + [a], Step(w, m, a);
    OneSectionOutcome(w, s, call, d, m);
  }

  lemma OneSectionOutcome(w: World, s: State, call: Call, d: Draws, m: State)
    requires Quiet(s) && Admit(w, call).Admitted? && OneSection(s.store, call)
    requires |d.nonce| == 16 && AtWork(s, call, Admit(w, call).signer, d, m)
    ensures CanWork(m, |s.threads|, d)
    ensures var s' := DoWork(m, |s.threads|, d);
            var o := Perform(w, s.store, call, d);
            && Quiet(s') && s'.store == o.store && |s'.threads| == |s.threads| + 1
            && s'.threads[..|s.threads|] == s.threads
            && s'.log == s.log + [Event(|s.threads|, call, Share(call, d), o.response)]
  {
    assert m.threads[|s.threads|] == Thread(call, Granted(call), Early(d), Admit(w, call).signer, None, |s.log|, 0);
    assert DoWork(m, |s.threads|, d).threads[..|s.threads|] == s.threads;
  }

  /* ----- request_proof on its own ----- */

  // A prepared `request_proof`, given both guards in a row, completes with the draws it has.
  lemma CompletesRequest(w: World, m: State, t: nat, th: Thread, clock: nat) returns (xs: seq<Action>, m': State)
    requires Quiet(m) && t < |m.threads| && m.threads[t] == th
    requires th.pc.WantPrograms? && th.call.RequestProof? && HasBody(th.call)
    ensures Runs(w, m, xs, m') && Quiet(m')
    ensures m'.store == DoRequest(m.store, th.call.proof.body.value, th.signer, th.draws).store
    ensures m'.log == m.log + [Event(t, th.call, th.draws, ProofRequested(th.draws.txHash, th.draws.id))]
    ensures |m'.threads| == |m.threads| && forall u :: 0 <= u < |m.threads| && u != t ==> m'.threads[u] == m.threads[u]
    ensures ReadsOnly(xs, clock)
  {
    var work := Work(t, NO_DRAWS.(now := clock, nonce := seq(16, _ => 0)));
    var m1 := DoLock(m, t);
    RunsOne(w, m, Lock(t));
    var m2 := DoWork(m1, t, work.drawn);
    RunsThen(w, m, [Lock(t)], m1, work);
    var m3 := DoLock(m2, t);
    RunsThen(w, m, [Lock(t)] + [work], m2, Lock(t));
    RunsThen(w, m, [Lock(t)] + [work] + [Lock(t)], m3, work);
    xs, m' := [Lock(t)] + [work] + [Lock(t)] + [work], DoWork(m3, t, work.drawn);
  }

  lemma RequestRunsAlone(w: World, s: State, call: Call, d: Draws) returns (xs: seq<Action>, s': State)
    requires Quiet(s) && Admit(w, call).Admitted? && call.RequestProof?
    ensures RanAlone(w, s, call, d, xs, s')
  {
    var t := |s.threads|;
    var m, ys;
    xs, m := Admits(w, s, call, Admit(w, call).signer, d);
    ys, s' := CompletesRequest(w, m, t, m.threads[t], d.now);
    RunsJoin(w, s, xs, m, ys, s');
    xs := xs + ys;
  }

  /* ----- fulfill_proof on its own ----- */

  function NewUpload(url: string, data: Bytes, startedAt: nat): Thread {
    Thread(PutArtifact(url, data), Started, NO_DRAWS, [], None, startedAt, 0)
  }

  // The upload is sent: its task is the thread after the handler's.
  lemma SendsUpload(w: World, s: State, call: Call, d: Draws) returns (xs: seq<Action>, m: State)
    requires Quiet(s) && Admit(w, call).Admitted? && call.FulfillProof? && |d.nonce| == 16
    requires call.fulfillment.body.value.requestId in s.store.requests
    ensures Runs(w, s, xs, m) && ReadsOnly(xs, d.now) && m.store == s.store && m.log == s.log
    ensures m.requestsLock == Some(|s.threads|) && m.programsLock.None? && m.storageLock.None?
    ensures m.threads == s.threads +
              [Thread(call, AwaitUpload(|s.threads| + 1), Early(d).(nonce := d.nonce), Admit(w, call).signer,
                      Some(s.store.requests[call.fulfillment.body.value.requestId]), |s.log|, 0)] +
              [NewUpload(ProofUrl(d.nonce), call.fulfillment.body.value.proof, |s.log|)]
  {
    var t := |s.threads|;
    var m1;
    xs, m1 := GetsToWork(w, s, call, Admit(w, call).signer, d);
    assert m1.threads[t].call == call;
    RunsThen(w, s, xs, m1, Work(t, d));
    xs, m := xs + [Work(t, d)], DoWork(m1, t, d);
  }

  lemma FailedUploadRunsAlone(w: World, s: State, call: Call, d: Draws) returns (xs: seq<Action>, s': State)
    requires Quiet(s) && Admit(w, call).Admitted? && call.FulfillProof? && |d.nonce| == 16
    requires call.fulfillment.body.value.requestId in s.store.requests && d.upload.Failed?
    ensures RanAlone(w, s, call, d, xs, s')
  {
    var t := |s.threads|;
    var m;
    xs, m := SendsUpload(w, s, call, d);
    assert m.threads[t].call == call && m.threads[t].pc.AwaitUpload?;
    RunsThen(w, s, xs, m, Drop(t));
    xs, s' := xs + [Drop(t)], GiveUp(m, t);
  }

  // The upload's task gets the storage guard.
  lemma UploadStarts(w: World, m: State, c: nat, url: string, data: Bytes, startedAt: nat, clock: nat)
    returns (xs: seq<Action>, m': State)
    requires c < |m.threads| && m.threads[c] == NewUpload(url, data, startedAt)
    requires Route(url).Some? && m.storageLock.None?
    ensures Runs(w, m, xs, m') && ReadsOnly(xs, clock)
    ensures var th := m.threads[c].(pc := HasStorage, draws := NO_DRAWS.(now := clock));
            m' == m.(threads := m.threads[c := th], storageLock := Some(c))
  {
    var a := Prepare(c, [], [], clock);
    var m1 := DoPrepare(w, m, c, [], [], clock);
    var early := NO_DRAWS.(now := clock);
    assert m1 == m.(threads := m.threads[c := m.threads[c].(pc := WantStorage, draws := early)]);
    RunsOne(w, m, a);
    RunsThen(w, m, [a], m1, Lock(c));
    xs, m' := [a] + [Lock(c)], DoLock(m1, c);
    assert m'.threads == m.threads[c := m.threads[c].(pc := HasStorage, draws := early)];
  }

  // It runs to its end while the handler waits.
  lemma UploadRuns(w: World, m: State, c: nat, url: string, data: Bytes, startedAt: nat, clock: nat)
    returns (xs: seq<Action>, m': State)
    requires c < |m.threads| && m.threads[c] == NewUpload(url, data, startedAt)
    requires Route(url).Some? && m.storageLock.None? && m.programsLock != Some(c) && m.requestsLock != Some(c)
    ensures Runs(w, m, xs, m') && ReadsOnly(xs, clock)
    ensures m'.programsLock == m.programsLock && m'.requestsLock == m.requestsLock && m'.storageLock.None?
    ensures m'.store == m.store.(storage := m.store.storage[Key(Route(url).value) := data])
    ensures |m'.threads| == |m.threads| && m'.threads[c].pc == Finished(Uploaded)
    ensures forall t :: 0 <= t < |m.threads| && t != c ==> m'.threads[t] == m.threads[t]
  {
    var m1;
    xs, m1 := UploadStarts(w, m, c, url, data, startedAt, clock);
    var work := Work(c, NO_DRAWS.(now := clock));
    RunsThen(w, m, xs, m1, work);
    xs, m' := xs + [work], DoWork(m1, c, work.drawn);
  }

  // The upload has been stored, and the handler that waits for it is all that is left.
  lemma UploadIsStored(w: World, s: State, call: Call, d: Draws) returns (xs: seq<Action>, m: State)
    requires Quiet(s) && Admit(w, call).Admitted? && call.FulfillProof? && |d.nonce| == 16
    requires call.fulfillment.body.value.requestId in s.store.requests
    ensures Runs(w, s, xs, m) && ReadsOnly(xs, d.now) && CanAcknowledge(m, |s.threads|)
    ensures m.requestsLock == Some(|s.threads|) && m.programsLock.None? && m.storageLock.None?
    ensures Route(ProofUrl(d.nonce)).Some?
    ensures m.store == s.store.(storage := StorageAfter(w, s.store, call, d.(upload := Stored)))
    ensures d.upload.Stored? ==> m.store == s.store.(storage := StorageAfter(w, s.store, call, d))
    ensures m.threads[|s.threads|] ==
              Thread(call, AwaitUpload(|s.threads| + 1), Early(d).(nonce := d.nonce), Admit(w, call).signer,
                     Some(s.store.requests[call.fulfillment.body.value.requestId]), |s.log|, 0)
  {
    var t, url := |s.threads|, ProofUrl(d.nonce);
    var m0, ys;
    xs, m0 := SendsUpload(w, s, call, d);
    ProofUrlRoutes(d.nonce);
    ys, m := UploadRuns(w, m0, t + 1, url, call.fulfillment.body.value.proof, |s.log|, d.now);
    RunsJoin(w, s, xs, m0, ys, m);
    assert m.threads[t] == m0.threads[t];
    xs := xs + ys;
  }

  lemma StoredUploadRunsAlone(w: World, s: State, call: Call, d: Draws) returns (xs: seq<Action>, s': State)
    requires Quiet(s) && Admit(w, call).Admitted? && call.FulfillProof? && |d.nonce| == 16
    requires call.fulfillment.body.value.requestId in s.store.requests && d.upload.Stored?
    ensures RanAlone(w, s, call, d, xs, s')
  {
    var t := |s.threads|;
    var m;
    xs, m := UploadIsStored(w, s, call, d);
    RunsThen(w, s, xs, m, Acknowledge(t, d.now));
    AcknowledgedOutcome(w, s, call, d, m);
    xs, s' := xs + [Acknowledge(t, d.now)], DoAcknowledge(m, t, d.now);
  }

  lemma AcknowledgedOutcome(w: World, s: State, call: Call, d: Draws, m: State)
    requires Admit(w, call).Admitted? && call.FulfillProof? && d.upload.Stored?
    requires call.fulfillment.body.value.requestId in s.store.requests && CanAcknowledge(m, |s.threads|)
    requires m.requestsLock == Some(|s.threads|) && m.programsLock.None? && m.storageLock.None?
    requires m.store == s.store.(storage := StorageAfter(w, s.store, call, d))
    requires m.threads[|s.threads|] ==
              Thread(call, AwaitUpload(|s.threads| + 1), Early(d).(nonce := d.nonce), Admit(w, call).signer,
                     Some(s.store.requests[call.fulfillment.body.value.requestId]), |s.log|, 0)
    ensures var s' := DoAcknowledge(m, |s.threads|, d.now);
            var o := Perform(w, s.store, call, d);
            && Quiet(s') && s'.store == o.store.(storage := StorageAfter(w, s.store, call, d))
            && s'.log != [] && s'.log[|s'.log| - 1].call == call && s'.log[|s'.log| - 1].response == o.response
  {
  }

  // From a quiet state every handler can run alone, with any draws, to its atomic outcome.
  lemma EveryHandlerRunsAlone(w: World, s: State, call: Call, d: Draws) returns (xs: seq<Action>, s': State)
    requires Quiet(s) && |d.nonce| == 16 && (call.GetFiltered? ==> IsOrderOf(d.order, s.store.requests))
    ensures RanAlone(w, s, call, d, xs, s')
  {
    if Admit(w, call).Refused? {
      xs, s' := RefusedRunsAlone(w, s, call, d);
    } else if OneSection(s.store, call) {
      xs, s' := OneSectionRunsAlone(w, s, call, d);
    } else if call.RequestProof? {
      xs, s' := RequestRunsAlone(w, s, call, d);
    } else if d.upload.Failed? {
      xs, s' := FailedUploadRunsAlone(w, s, call, d);
    } else {
      xs, s' := StoredUploadRunsAlone(w, s, call, d);
    }
  }

  /* ----- whole histories ----- */

  // A handler that publishes nothing leaves the same maps whatever its nonce is.
  lemma NonceIsForUploads(w: World, s: Store, e: Event, nonce: Bytes)
    requires Answers(w, s, e) && !Publishes(e)
    ensures var o := Perform(w, s, e.call, e.draws.(nonce := nonce));
            o.store == Perform(w, s, e.call, e.draws).store &&
            StorageAfter(w, s, e.call, e.draws.(nonce := nonce)) == o.store.storage
  {
  }

  lemma SilentEventRuns(w: World, s: State, e: Event) returns (xs: seq<Action>, s': State)
    requires Quiet(s) && Answers(w, s.store, e) && !Publishes(e)
    ensures Runs(w, s, xs, s') && Quiet(s') && s'.store == Perform(w, s.store, e.call, e.draws).store
  {
    var nonce := seq(16, _ => 0);
    NonceIsForUploads(w, s.store, e, nonce);
    xs, s' := EveryHandlerRunsAlone(w, s, e.call, e.draws.(nonce := nonce));
  }

  lemma PutRuns(w: World, s: State, url: string, bytes: Bytes, d: Draws) returns (xs: seq<Action>, s': State)
    requires Quiet(s) && Route(url).Some? && |d.nonce| == 16
    ensures Runs(w, s, xs, s') && Quiet(s')
    ensures s'.store == s.store.(storage := s.store.storage[Key(Route(url).value) := bytes])
  {
    xs, s' := EveryHandlerRunsAlone(w, s, PutArtifact(url, bytes), d);
  }

  lemma PublishingRuns(w: World, s: State, e: Event) returns (xs: seq<Action>, s': State)
    requires Quiet(s) && Answers(w, s.store, e) && Publishes(e) && |e.draws.nonce| == 16
    requires Route(ProofUrl(e.draws.nonce)).Some?
    ensures Runs(w, s, xs, s') && Quiet(s')
    ensures var key := Key(Route(ProofUrl(e.draws.nonce)).value);
            s'.store == Perform(w, s.store, e.call, e.draws).store.(
              storage := s.store.storage[key := e.call.fulfillment.body.value.proof])
  {
    xs, s' := EveryHandlerRunsAlone(w, s, e.call, e.draws);
  }

  lemma PutBack(storage: map<string, Bytes>, key: string, bytes: Bytes)
    requires key in storage
    ensures storage[key := bytes][key := storage[key]] == storage
  {
  }

  // A fulfilment uploads again what its history has uploaded already; a PUT then gives the key
  // its bytes of before back.
  lemma PublishingEventRuns(w: World, s: State, e: Event) returns (xs: seq<Action>, s': State)
    requires Quiet(s) && Answers(w, s.store, e) && Publishes(e) && |e.draws.nonce| == 16
    requires Route(ProofUrl(e.draws.nonce)).Some? && Key(Route(ProofUrl(e.draws.nonce)).value) in s.store.storage
    ensures Runs(w, s, xs, s') && Quiet(s') && s'.store == Perform(w, s.store, e.call, e.draws).store
  {
    var url := ProofUrl(e.draws.nonce);
    var key := Key(Route(url).value);
    var m, ys;
    xs, m := PublishingRuns(w, s, e);
    ys, s' := PutRuns(w, m, url, s.store.storage[key], e.draws);
    RunsJoin(w, s, xs, m, ys, s');
    PutBack(s.store.storage, key, e.call.fulfillment.body.value.proof);
    OnlyPutsStore(w, s.store, e.call, e.draws);
    xs := xs + ys;
  }

  lemma UploadedIsStored(w: World, log: seq<Event>, e: Event)
    requires History(w, log) && Publishes(e) && UploadedFor(log, e)
    ensures Route(ProofUrl(e.draws.nonce)).Some?
    ensures Key(Route(ProofUrl(e.draws.nonce)).value) in Replay(w, log).storage
  {
    var url, data := ProofUrl(e.draws.nonce), e.call.fulfillment.body.value.proof;
    var j :| 0 <= j < |log| && Stores(log[j], url, data);
    StoredIsAbout(w, log, j, url, data);
    StoredIsHeld(w, log, j, Key(Route(url).value));
  }

  lemma HistoryFront(w: World, log: seq<Event>)
    requires History(w, log) && log != []
    ensures var front, e := log[..|log| - 1], log[|log| - 1];
            History(w, front) && Answers(w, Replay(w, front), e) && (Publishes(e) ==> UploadedFor(front, e))
  {
    var front := log[..|log| - 1];
    FaithfulFront(w, log);
    forall i | 0 <= i < |front| && Publishes(front[i])
      ensures UploadedFor(front[..i], front[i])
    {
      assert front[i] == log[i] && front[..i] == log[..i];
    }
  }

  // Realizability: whatever state whole handlers leave that run one after the other, each
  // fulfilment after an upload of its proof, some schedule of the interleaved machine reaches.
  lemma {:induction false} EveryHistoryIsReached(w: World, log: seq<Event>) returns (xs: seq<Action>, s: State)
    requires History(w, log)
    ensures Runs(w, INIT, xs, s) && Quiet(s) && s.store == Replay(w, log)
    decreases |log|
  {
    if log == [] {
      xs, s := [], INIT;
    } else {
      var front, e := log[..|log| - 1], log[|log| - 1];
      HistoryFront(w, log);
      var m, ys;
      xs, m := EveryHistoryIsReached(w, front);
      if Publishes(e) {
        UploadedIsStored(w, front, e);
        ys, s := PublishingEventRuns(w, m, e);
      } else {
        ys, s := SilentEventRuns(w, m, e);
      }
      RunsJoin(w, INIT, xs, m, ys, s);
      xs := xs + ys;
    }
  }

  // So the reachable maps are exactly the sequential ones.
  lemma ReachableIffSequential(w: World, store: Store)
    ensures (exists s :: Reachable(w, s) && s.store == store) <==>
            (exists log :: History(w, log) && Replay(w, log) == store)
  {
    if s :| Reachable(w, s) && s.store == store {
      ReachableInv(w, s);
      assert History(w, s.log) && Replay(w, s.log) == store;
    }
    if log :| History(w, log) && Replay(w, log) == store {
      var xs, s := EveryHistoryIsReached(w, log);
      assert Reachable(w, s);
    }
  }
}
