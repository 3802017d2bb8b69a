// What a clock that never goes back does give: ordered times in every record.
module Clock {
  import opened Types
  import opened Handlers
  import opened Machine
  import opened Linearizability
  import opened Schedules

  // Created, then fulfilled, then last updated, and nothing later than `now`.
  predicate TimesOrdered(e: Entry, now: nat) {
    && e.request.createdAt <= e.request.updatedAt <= now
    && (e.request.fulfilledAt.Some? ==>
          e.request.createdAt <= e.request.fulfilledAt.value <= e.request.updatedAt)
  }

  // No record is ahead of the clock, and no handler remembers a time ahead of it.
  ghost predicate TimesOk(s: State, now: nat) {
    && (forall id :: id in s.store.requests ==> TimesOrdered(s.store.requests[id], now))
    && (forall t :: 0 <= t < |s.threads| ==> s.threads[t].draws.now <= now)
  }

  lemma TimePasses(s: State, now: nat, later: nat)
    requires TimesOk(s, now) && now <= later
    ensures TimesOk(s, later)
  {
  }

  // A step that leaves the records alone and gives its thread no time ahead of the clock.
  lemma ThreadsKeepTimes(s: State, s': State, now: nat)
    requires TimesOk(s, now) && s'.store.requests == s.store.requests
    requires forall t :: 0 <= t < |s'.threads| ==> s'.threads[t].draws.now <= now
    ensures TimesOk(s', now)
  {
  }

  lemma RecordKeepsTimes(s: State, s': State, id: Bytes, e: Entry, now: nat)
    requires TimesOk(s, now) && s'.store.requests == s.store.requests[id := e] && TimesOrdered(e, now)
    requires forall t :: 0 <= t < |s'.threads| ==> s'.threads[t].draws.now <= now
    ensures TimesOk(s', now)
  {
  }

  lemma InsertKeepsTimes(w: World, s: State, t: nat, drawn: Draws, now: nat)
    requires Inv(w, s) && CanWork(s, t, drawn) && TimesOk(s, now)
    requires s.threads[t].pc.HasRequests? && s.threads[t].call.RequestProof?
    ensures TimesOk(WorkOnRequests(s, t, drawn), now)
  {
    assert MemoryOk(s.store, s.threads[t]);
    RecordKeepsTimes(s, WorkOnRequests(s, t, drawn), s.threads[t].draws.id, s.threads[t].entry.value, now);
  }

  lemma FailKeepsTimes(s: State, t: nat, drawn: Draws, now: nat)
    requires CanWork(s, t, drawn) && TimesOk(s, now) && drawn.now == now
    requires s.threads[t].pc.HasRequests? && s.threads[t].call.FailFulfillment?
    ensures TimesOk(WorkOnRequests(s, t, drawn), now)
  {
    var b := s.threads[t].call.failure.value;
    var s' := WorkOnRequests(s, t, drawn);
    if b.requestId in s.store.requests {
      RecordKeepsTimes(s, s', b.requestId, s'.store.requests[b.requestId], now);
    } else {
      ThreadsKeepTimes(s, s', now);
    }
  }

  lemma ProgramsWorkKeepsTimes(s: State, t: nat, drawn: Draws, now: nat)
    requires CanWork(s, t, drawn) && TimesOk(s, now) && s.threads[t].pc.HasPrograms?
    ensures TimesOk(DoWork(s, t, drawn), now)
  {
    ThreadsKeepTimes(s, DoWork(s, t, drawn), now);
  }

  lemma StorageWorkKeepsTimes(s: State, t: nat, drawn: Draws, now: nat)
    requires CanWork(s, t, drawn) && TimesOk(s, now) && s.threads[t].pc.HasStorage?
    ensures TimesOk(DoWork(s, t, drawn), now)
  {
    ThreadsKeepTimes(s, DoWork(s, t, drawn), now);
  }

  // Work that neither inserts a record nor fails one.
  lemma QuietWorkKeepsTimes(s: State, t: nat, drawn: Draws, now: nat)
    requires CanWork(s, t, drawn) && TimesOk(s, now)
    requires s.threads[t].pc.HasRequests? ==> !s.threads[t].call.RequestProof? && !s.threads[t].call.FailFulfillment?
    ensures TimesOk(DoWork(s, t, drawn), now)
  {
    match s.threads[t].pc
    case HasPrograms => ProgramsWorkKeepsTimes(s, t, drawn, now);
    case HasStorage => StorageWorkKeepsTimes(s, t, drawn, now);
    case HasRequests => ThreadsKeepTimes(s, DoWork(s, t, drawn), now);
  }

  lemma WorkKeepsTimes(w: World, s: State, t: nat, drawn: Draws, now: nat)
    requires Inv(w, s) && CanWork(s, t, drawn) && TimesOk(s, now) && drawn.now == now
    ensures TimesOk(DoWork(s, t, drawn), now)
  {
    var th := s.threads[t];
    if th.pc.HasRequests? && th.call.RequestProof? {
      InsertKeepsTimes(w, s, t, drawn, now);
    } else if th.pc.HasRequests? && th.call.FailFulfillment? {
      FailKeepsTimes(s, t, drawn, now);
    } else {
      QuietWorkKeepsTimes(s, t, drawn, now);
    }
  }

  lemma AcknowledgeKeepsTimes(w: World, s: State, t: nat, now: nat)
    requires Inv(w, s) && CanAcknowledge(s, t) && TimesOk(s, now)
    ensures TimesOk(DoAcknowledge(s, t, now), now)
  {
    var id := s.threads[t].call.fulfillment.body.value.requestId;
    assert MemoryOk(s.store, s.threads[t]);
    var s' := DoAcknowledge(s, t, now);
    RecordKeepsTimes(s, s', id, s'.store.requests[id], now);
  }

  lemma PrepareKeepsTimes(w: World, s: State, t: nat, id: Bytes, txHash: Bytes, now: nat)
    requires TimesOk(s, now) && t < |s.threads|
    ensures TimesOk(DoPrepare(w, s, t, id, txHash, now), now)
  {
    ThreadsKeepTimes(s, DoPrepare(w, s, t, id, txHash, now), now);
  }

  // Arrivals, grants, lost answers and cancellations read no clock.
  lemma QuietKeepsTimes(w: World, s: State, a: Action, now: nat)
    requires Enabled(s, a) && TimesOk(s, now)
    requires !a.Prepare? && !a.Work? && !a.Acknowledge?
    ensures TimesOk(Step(w, s, a), now)
  {
    match a
    case Invoke(call) => ThreadsKeepTimes(s, Arrive(s, call), now);
    case Lock(t) => ThreadsKeepTimes(s, DoLock(s, t), now);
    case Drop(t) => ThreadsKeepTimes(s, GiveUp(s, t), now);
    case ReadError(t) => ThreadsKeepTimes(s, GiveUp(s, t), now);
    case Reject(t) => ThreadsKeepTimes(s, Move(s, t, s.threads[t].(pc := ReadingError)), now);
    case Cancel(t) => ThreadsKeepTimes(s, ReleaseAll(Move(s, t, s.threads[t].(pc := Cancelled)), t), now);
  }

  lemma StepKeepsTimes(w: World, s: State, a: Action, now: nat)
    requires Inv(w, s) && Enabled(s, a) && TimesOk(s, now) && now <= After(a, now)
    ensures TimesOk(Step(w, s, a), After(a, now))
  {
    var later := After(a, now);
    TimePasses(s, now, later);
    match a
    case Prepare(t, id, txHash, _) => PrepareKeepsTimes(w, s, t, id, txHash, later);
    case Work(t, drawn) => WorkKeepsTimes(w, s, t, drawn, later);
    case Acknowledge(t, _) => AcknowledgeKeepsTimes(w, s, t, later);
    case _ => QuietKeepsTimes(w, s, a, later);
  }

  lemma {:induction false} RunKeepsTimes(w: World, s: State, xs: seq<Action>, s': State, now: nat, end: nat)
    requires Inv(w, s) && TimesOk(s, now) && Runs(w, s, xs, s') && Ticks(xs, now, end)
    ensures TimesOk(s', end)
    decreases |xs|
  {
    if xs == [] {
      TimePasses(s, now, end);
    } else {
      StepKeepsInv(w, s, xs[0]);
      StepKeepsTimes(w, s, xs[0], now);
      RunKeepsTimes(w, Step(w, s, xs[0]), xs[1..], s', After(xs[0], now), end);
    }
  }

  // In every run whose clock never goes back, every record has created_at <= updated_at, with
  // fulfilled_at between them: although `request_proof` reads the clock before it takes its
  // guards, nobody can update the record before it is there.
  lemma RecordTimesAreOrdered(w: World, xs: seq<Action>, s: State, id: Bytes, end: nat)
    requires Runs(w, INIT, xs, s) && Ticks(xs, 0, end) && id in s.store.requests
    ensures var r := s.store.requests[id].request;
            && r.createdAt <= r.updatedAt <= end
            && (r.fulfilledAt.Some? ==> r.createdAt <= r.fulfilledAt.value <= r.updatedAt)
  {
    RunKeepsTimes(w, INIT, xs, s, 0, end);
  }
}
