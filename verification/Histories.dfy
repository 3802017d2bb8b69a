// Sequential histories: what a log of completed handlers says the state must be.
module Histories {
  import opened Types
  import opened Addressing
  import opened Query
  import opened Handlers
  import opened Machine

  // The state left by running the logged handlers whole, one after the other.
  function Replay(w: World, log: seq<Event>): Store {
    if log == [] then EMPTY
    else
      var e := log[|log| - 1];
      Perform(w, Replay(w, log[..|log| - 1]), e.call, e.draws).store
  }

  // The event's answer is the one its handler gives when run whole on the state before it, and
  // a query saw an iteration order of that state's map.
  ghost predicate Answers(w: World, before: Store, e: Event) {
    && e.response == Perform(w, before, e.call, e.draws).response
    && (e.call.GetFiltered? ==> IsOrderOf(e.draws.order, before.requests))
  }

  ghost predicate Faithful(w: World, log: seq<Event>) {
    forall i :: 0 <= i < |log| ==> Answers(w, Replay(w, log[..i]), log[i])
  }

  // A successful fulfilment, and the upload it must follow, to a URL of 16 random bytes.
  predicate Publishes(e: Event) {
    e.call.FulfillProof? && e.response.ProofFulfilled? && HasBody(e.call)
  }

  predicate Stores(e: Event, url: string, data: Bytes) {
    e.call == PutArtifact(url, data) && e.response == Uploaded
  }

  predicate UploadedFor(log: seq<Event>, e: Event)
    requires Publishes(e)
  {
    && |e.draws.nonce| == 16
    && exists j :: 0 <= j < |log| && Stores(log[j], ProofUrl(e.draws.nonce), e.call.fulfillment.body.value.proof)
  }

  ghost predicate UploadsFirst(log: seq<Event>) {
    forall i :: 0 <= i < |log| && Publishes(log[i]) ==> UploadedFor(log[..i], log[i])
  }

  ghost predicate History(w: World, log: seq<Event>) {
    Faithful(w, log) && UploadsFirst(log)
  }

  lemma ReplayAppend(w: World, log: seq<Event>, e: Event)
    ensures Replay(w, log + [e]) == Perform(w, Replay(w, log), e.call, e.draws).store
  {
    assert (log + [e])[..|log|] == log;
  }

  lemma HistoryAppend(w: World, log: seq<Event>, e: Event)
    requires History(w, log)
    requires Answers(w, Replay(w, log), e)
    requires Publishes(e) ==> UploadedFor(log, e)
    ensures History(w, log + [e])
  {
    var longer := log + [e];
    forall i | 0 <= i < |longer|
      ensures Answers(w, Replay(w, longer[..i]), longer[i])
      ensures Publishes(longer[i]) ==> UploadedFor(longer[..i], longer[i])
    {
      if i < |log| {
        assert longer[..i] == log[..i] && longer[i] == log[i];
      } else {
        assert longer[..i] == log;
      }
    }
  }
}
