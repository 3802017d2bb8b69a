// The handlers interleaved. Each in-flight handler is a thread that moves in the steps its
// code takes between lock acquisitions and await points; any schedule of those steps is a run.
module Machine {
  import opened Types
  import opened Addressing
  import opened Query
  import opened Handlers

  datatype Pc =
    | Started                     // accepted, not yet polled
    | WantPrograms | HasPrograms  // awaiting / holding the guard of `programs`
    | WantRequests | HasRequests  // awaiting / holding the guard of `proof_requests`
    | WantStorage | HasStorage    // awaiting / holding the guard of the artifact storage
    | AwaitUpload(child: nat)     // `fulfill_proof`, awaiting the answer to its PUT
    | ReadingError                // `fulfill_proof`, awaiting the text of a refusal
    | Finished(response: Response)
    | Cancelled                   // the future was dropped at an await

  // A handler in flight. `entry` is the record `request_proof` has built, or the record
  // `fulfill_proof` has borrowed from the map. `startedAt` and `committedAt` are lengths of the
  // log: when the call arrived, and which event of the log is its own.
  datatype Thread = Thread(
    call: Call,
    pc: Pc,
    draws: Draws,
    signer: Bytes,
    entry: Option<Entry>,
    startedAt: nat,
    committedAt: nat)

  // A completed handler: the log lists them in the order in which they took effect.
  datatype Event = Event(tid: nat, call: Call, draws: Draws, response: Response)

  datatype State = State(
    store: Store,
    programsLock: Option<nat>,
    requestsLock: Option<nat>,
    storageLock: Option<nat>,
    threads: seq<Thread>,
    log: seq<Event>)

  const INIT: State := State(EMPTY, None, None, None, [], [])
  const NO_DRAWS: Draws := Draws([], [], [], 0, [], Failed)

  datatype Action =
    | Invoke(call: Call)
    | Prepare(t: nat, id: Bytes, txHash: Bytes, now: nat)  // the code before the first await
    | Lock(t: nat)                                         // the awaited mutex is granted
    | Work(t: nat, drawn: Draws)                           // from the grant to the next await or the end
    | Acknowledge(t: nat, now: nat)                        // the PUT came back with success
    | Drop(t: nat)                                         // the PUT came back with a transport error
    | Reject(t: nat)                                       // the PUT came back with another status
    | ReadError(t: nat)                                    // the refusal's text has arrived
    | Cancel(t: nat)                                       // the future is dropped

  predicate Unfinished(th: Thread) {
    !th.pc.Finished? && !th.pc.Cancelled?
  }

  // The points where the code awaits, and so where its future can be dropped.
  predicate AtAwait(pc: Pc) {
    pc.Started? || pc.WantPrograms? || pc.WantRequests? || pc.WantStorage? || pc.AwaitUpload? || pc.ReadingError?
  }

  predicate UsesPrograms(call: Call) {
    call.RequestProof? || call.CreateProgram? || call.GetProgram?
  }

  predicate UsesStorage(call: Call) {
    call.PutArtifact? || call.GetArtifact?
  }

  predicate UsesRequests(call: Call) {
    !UsesStorage(call) && !call.CreateProgram? && !call.GetProgram?
  }

  function FirstLock(call: Call): Pc {
    if UsesPrograms(call) then WantPrograms else if UsesStorage(call) then WantStorage else WantRequests
  }

  function Release(lock: Option<nat>, t: nat): Option<nat> {
    if lock == Some(t) then None else lock
  }

  /* ----- building blocks of a step ----- */

  function Arrive(s: State, call: Call): State {
    s.(threads := s.threads + [Thread(call, Started, NO_DRAWS, [], None, |s.log|, 0)])
  }

  function Move(s: State, t: nat, th: Thread): State
    requires t < |s.threads|
  {
    s.(threads := s.threads[t := th])
  }

  function ReleaseAll(s: State, t: nat): State {
    s.(programsLock := Release(s.programsLock, t),
       requestsLock := Release(s.requestsLock, t),
       storageLock := Release(s.storageLock, t))
  }

  // The handler's effect and its answer: guards are dropped as it returns.
  function Finish(s: State, t: nat, d: Draws, store: Store, response: Response): State
    requires t < |s.threads|
  {
    var th := s.threads[t];
    ReleaseAll(s, t).(
      store := store,
      threads := s.threads[t := th.(pc := Finished(response), draws := d, committedAt := |s.log|)],
      log := s.log + [Event(t, th.call, d, response)])
  }

  /* ----- the steps ----- */

  function DoPrepare(w: World, s: State, t: nat, id: Bytes, txHash: Bytes, now: nat): State
    requires t < |s.threads|
  {
    var th := s.threads[t];
    var d := th.draws.(id := id, txHash := txHash, now := now);
    match Admit(w, th.call)
    case Refused(code) => Finish(s, t, d, s.store, Error(code))
    case Admitted(signer) => Move(s, t, th.(pc := FirstLock(th.call), draws := d, signer := signer))
  }

  predicate CanLock(s: State, t: nat) {
    t < |s.threads| &&
    match s.threads[t].pc
    case WantPrograms => s.programsLock.None?
    case WantRequests => s.requestsLock.None?
    case WantStorage => s.storageLock.None?
    case _ => false
  }

  function DoLock(s: State, t: nat): State
    requires CanLock(s, t)
  {
    var th := s.threads[t];
    match th.pc
    case WantPrograms => Move(s, t, th.(pc := HasPrograms)).(programsLock := Some(t))
    case WantRequests => Move(s, t, th.(pc := HasRequests)).(requestsLock := Some(t))
    case WantStorage => Move(s, t, th.(pc := HasStorage)).(storageLock := Some(t))
  }

  // Under the guard of `programs`: `request_proof` builds its record and goes on to wait for the
  // second guard while keeping this one; the other two handlers finish.
  function WorkOnPrograms(s: State, t: nat, drawn: Draws): State
    requires t < |s.threads| && HasBody(s.threads[t].call) && UsesPrograms(s.threads[t].call)
  {
    var th := s.threads[t];
    match th.call
    case RequestProof(m) =>
      Move(s, t, th.(pc := WantRequests, entry := Some(NewEntry(m.body.value, th.signer, s.store.programs, th.draws))))
    case CreateProgram(m) =>
      var d := th.draws.(txHash := drawn.txHash);
      var program := NewProgram(m.body.value, th.signer, d);
      Finish(s, t, d, s.store.(programs := s.store.programs[m.body.value.vkHash := program]), ProgramCreated(d.txHash))
    case GetProgram(vk) =>
      Finish(s, t, th.draws, s.store, Read(s.store, th.call, th.draws))
  }

  // `fulfill_proof` has found its record: it borrows it and sends the PUT, which the HTTP
  // server handles as a task of its own.
  function SendUpload(s: State, t: nat, b: FulfillProofBody, nonce: Bytes): State
    requires t < |s.threads| && b.requestId in s.store.requests
  {
    var th := s.threads[t];
    var moved := Move(s, t, th.(pc := AwaitUpload(|s.threads|), draws := th.draws.(nonce := nonce),
                                entry := Some(s.store.requests[b.requestId])));
    Arrive(moved, PutArtifact(ProofUrl(nonce), b.proof))
  }

  function WorkOnRequests(s: State, t: nat, drawn: Draws): State
    requires t < |s.threads| && HasBody(s.threads[t].call) && UsesRequests(s.threads[t].call)
    requires s.threads[t].call.RequestProof? ==> s.threads[t].entry.Some?
  {
    var th := s.threads[t];
    if th.call.RequestProof? then
      Finish(s, t, th.draws, s.store.(requests := s.store.requests[th.draws.id := th.entry.value]),
             ProofRequested(th.draws.txHash, th.draws.id))
    else if th.call.FulfillProof? then
      var b := th.call.fulfillment.body.value;
      if b.requestId in s.store.requests then SendUpload(s, t, b, drawn.nonce)
      else Finish(s, t, th.draws, s.store, Error(NotFound))
    else if th.call.FailFulfillment? then
      var d := th.draws.(now := drawn.now);
      var o := DoFail(s.store, th.call.failure.value, d);
      Finish(s, t, d, o.store, o.response)
    else
      var d := th.draws.(order := drawn.order);
      Finish(s, t, d, s.store, Read(s.store, th.call, d))
  }

  function WorkOnStorage(s: State, t: nat): State
    requires t < |s.threads| && HasBody(s.threads[t].call) && UsesStorage(s.threads[t].call)
  {
    var th := s.threads[t];
    match th.call
    case PutArtifact(url, data) =>
      Finish(s, t, th.draws, s.store.(storage := s.store.storage[Key(Route(url).value) := data]), Uploaded)
    case GetArtifact(url) =>
      Finish(s, t, th.draws, s.store, Read(s.store, th.call, th.draws))
  }

  predicate CanWork(s: State, t: nat, drawn: Draws) {
    && t < |s.threads|
    && var th := s.threads[t];
    && HasBody(th.call)
    && match th.pc
       case HasPrograms => UsesPrograms(th.call)
       case HasStorage => UsesStorage(th.call)
       case HasRequests => UsesRequests(th.call) && (th.call.RequestProof? ==> th.entry.Some?) && |drawn.nonce| == 16
       case _ => false
  }

  function DoWork(s: State, t: nat, drawn: Draws): State
    requires CanWork(s, t, drawn)
  {
    match s.threads[t].pc
    case HasPrograms => WorkOnPrograms(s, t, drawn)
    case HasRequests => WorkOnRequests(s, t, drawn)
    case HasStorage => WorkOnStorage(s, t)
  }

  predicate CanAcknowledge(s: State, t: nat) {
    && t < |s.threads|
    && var th := s.threads[t];
    && th.pc.AwaitUpload? && th.call.FulfillProof? && HasBody(th.call) && th.entry.Some?
    && th.pc.child < |s.threads| && s.threads[th.pc.child].pc == Finished(Uploaded)
  }

  // The borrowed record is updated through the reference the handler has kept.
  function DoAcknowledge(s: State, t: nat, now: nat): State
    requires CanAcknowledge(s, t)
  {
    var th := s.threads[t];
    var b := th.call.fulfillment.body.value;
    var d := th.draws.(now := now, upload := Stored);
    Finish(s, t, d, s.store.(requests := s.store.requests[b.requestId := MarkFulfilled(th.entry.value, th.signer, d)]),
           ProofFulfilled(d.txHash))
  }

  function GiveUp(s: State, t: nat): State
    requires t < |s.threads|
  {
    Finish(s, t, s.threads[t].draws.(upload := Failed), s.store, Error(Internal))
  }

  ghost predicate Enabled(s: State, a: Action) {
    match a
    case Invoke(_) => true
    case Prepare(t, _, _, _) => t < |s.threads| && s.threads[t].pc.Started?
    case Lock(t) => CanLock(s, t)
    case Work(t, drawn) =>
      CanWork(s, t, drawn) && (s.threads[t].call.GetFiltered? ==> IsOrderOf(drawn.order, s.store.requests))
    case Acknowledge(t, _) => CanAcknowledge(s, t)
    case Drop(t) => t < |s.threads| && s.threads[t].pc.AwaitUpload?
    case Reject(t) => t < |s.threads| && s.threads[t].pc.AwaitUpload?
    case ReadError(t) => t < |s.threads| && s.threads[t].pc.ReadingError?
    case Cancel(t) => t < |s.threads| && AtAwait(s.threads[t].pc)
  }

  ghost function Step(w: World, s: State, a: Action): State
    requires Enabled(s, a)
  {
    match a
    case Invoke(call) => Arrive(s, call)
    case Prepare(t, id, txHash, now) => DoPrepare(w, s, t, id, txHash, now)
    case Lock(t) => DoLock(s, t)
    case Work(t, drawn) => DoWork(s, t, drawn)
    case Acknowledge(t, now) => DoAcknowledge(s, t, now)
    case Drop(t) => GiveUp(s, t)
    case Reject(t) => Move(s, t, s.threads[t].(pc := ReadingError))
    case ReadError(t) => GiveUp(s, t)
    case Cancel(t) => ReleaseAll(Move(s, t, s.threads[t].(pc := Cancelled)), t)
  }

  // A schedule leads from one state to another.
  ghost predicate Runs(w: World, s: State, actions: seq<Action>, s': State)
    decreases |actions|
  {
    if actions == [] then s == s'
    else Enabled(s, actions[0]) && Runs(w, Step(w, s, actions[0]), actions[1..], s')
  }

  ghost predicate Reachable(w: World, s: State) {
    exists actions :: Runs(w, INIT, actions, s)
  }
}
