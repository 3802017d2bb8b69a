# The proof coordinator, modelled and verified

This project models the in-memory proof coordinator: the prover network service with its two
mutex-guarded maps, the artifact storage behind the HTTP server, the artifact service that hands
out URLs, and the client that signs and uploads. It proves what the coordinator promises to its
callers, for every input and every schedule of concurrent handlers.

`dafny verify dfyconfig.toml` checks everything.

## How it is organised

| file | content |
|---|---|
| Types.dfy | messages, records, the filter, and `World`: the library code that stays abstract |
| Addressing.dfy | artifact URLs, the client's host rewrite, the router and the storage keys |
| Signing.dfy | the EIP-191 pre-image, client side and server side |
| Query.dfy | filter, in-place stable sort and pagination, with the loops of the source |
| Handlers.dfy | each handler as one atomic step on the maps: the common specification |
| Services.dfy | the services as classes, their methods proved against that specification, and the client session |
| Machine.dfy | the handlers as threads that move between lock acquisitions and awaits, with cancellation |
| Histories.dfy | the log of completed handlers and its replay |
| Linearizability.dfy | every schedule equals running the handlers whole in log order |
| Progress.dfy | no deadlock, and a measure that bounds every schedule |
| Schedules.dfy | the converse: every sequence of whole handlers is the outcome of some schedule |
| Lifecycle.dfy | what a history says about each record, program and artifact, field by field |
| Listings.dfy | the ordered answer as a list, and exactly when reading on in a changed one is safe |
| PageWalk.dfy | reading pages on a log while the store changes |
| Guarantees.dfy | the consequences for every reachable state |
| Answers.dfy | what every handler of every run has answered, in terms of the events before it |
| Clock.dfy | what a clock that never goes back guarantees |
| Boundaries.dfy | what occurs: all status pairs, uploads that outlive their fulfilment, one change between two reads |
| FailingWalks.dfy | for each hypothesis of the page-walk theorem, runs in which it alone fails and a walk goes wrong |

A thread of `Machine` stops where its code awaits: before its first poll, at each mutex, at the
answer to the proof upload and at the text of a refused upload. Granting a mutex is one step and
the code up to the next await or the end is another. `request_proof` keeps the guard of
`programs` while it waits for `proof_requests` (src/server/prover_network_service.rs:63-90);
`fulfill_proof` keeps `proof_requests` across its PUT (src/server/prover_network_service.rs:128-168),
which is a thread of its own on the HTTP server. `Cancel` drops a handler at any await, and the
answer to the PUT may be lost or a refusal at any time, whatever became of the PUT itself.

What a handler takes from outside is drawn at the step where the code takes it: random bytes, the
clock, the iteration order of a map, the network's answer. Nothing is assumed of these draws
except that an order lists each key once and that a proof URL gets 16 bytes. In particular no
theorem but the page walk needs random identifiers to be new: a repeated identifier overwrites the
record, and the history theorems speak of the last creation.

The assumptions are: a success answer to the PUT means that `upload_artifact` ran on this storage
(src/server/server.rs:18 puts the server on the port of the URL); a free mutex can be granted to
any waiter; and, for the ownership theorems and the client's session only, recovering from a digest what a wallet
signed gives the wallet's address.

## What is noteworthy

- No status is final. A fulfilled request can be failed later and then keeps its proof; a failed one
  can be fulfilled. The pairs of statuses that occur are exactly four (`PairsAreConsistent`,
  `EveryPairIsReached`).
- Whatever the filter and whatever happens between the reads, if the matches have distinct times at the
  last read (`WalksAreExact`): the pages of a walk join to the start of the current list exactly if what
  has been read is still all listed, in order, and older than the rest; and a match is missed exactly if
  something is unread and, of what has been read, something was read twice, is no longer listed or is
  not older than all that is unread. The order in which it was read does not matter for that. Without any
  assumption on the times, a list starts with what has been read in every iteration order exactly if
  that comes strictly first in time (`ListStartIsExact`).
- With a filter on fields that no handler updates, new identifiers and distinct times it comes down to
  one condition: every match created during the walk is newer than what the walk had read by then
  (`WalksAreStable`). A monotone clock does not give it, because `request_proof` reads the clock before
  it takes its guards: any two requests have a run in which a walk shows one twice and the other never
  (`MonotoneClockIsNotEnough`). A monotone clock does keep the times of each record in order
  (`RecordTimesAreOrdered`).
- Each of the other hypotheses is needed as well: two requests of the same second that the map reorders
  when it grows (`TiesRepeat`), a repeated identifier (`RepeatedIdentifierRepeats`) and a filter on a
  status (`StatusWalkSkips`) have runs in which a walk misses a request that matches all the time. When
  one match leaves between two reads, a walk misses another exactly if the one that left had been read
  and some had not (`LeavingSkips`).
- The filters that can match anything in any run are exactly those of `CanMatch` (`EmptyPollsAreExact`):
  a poll for Unexecutable or for a fulfiller that is no address never does, nor one for Assigned requests
  with an error or with a requester other than their fulfiller.
- The proof of a fulfilment that was cancelled, or whose upload got no answer, may be in the storage all
  the same (`UploadOutlivesFulfilment`): its PUT is a handler of its own.
- The comments of the protocol file give other paging defaults (proto/types.proto:409-413). The code has
  page 0 and limit 50, with no cap (src/server/prover_network_service.rs:324-326), and the model follows it.
- The answers are described without the specification functions they are computed by: the criteria of a
  query, the URLs, the framing of a signed message, the numbers on the wire and the fields of records are
  written out in the theorems (`Answers.dfy`, `PassesIff`, `PreImageIsPersonalMessage`, `ProofUrlIs`).
- The client labels its message as JSON but signs the binary encoding
  (src/client/client.rs:158-163); the server ignores the label, so both agree (`SignerIsClient`).
- The client's host rewrite would damage an identifier that contains the host name; hex identifiers
  never do (`ClientRewriteExact`, `ClientUploadReachesKey`).

## Model

| member | source | states |
|---|---|---|
| Linearizability.Linearizable | src/server/prover_network_service.rs:22-216 | in every reachable state the maps and the storage are those left by running the completed handlers whole in log order, every answer is the one the handler then gives, a query having seen an iteration order of the map of that moment, and each finished handler is in the log exactly once |
| Linearizability.RealTimeOrder | src/server/prover_network_service.rs:22-216 | a handler that answered before another arrived comes before it in that order |
| Linearizability.StepsAreAtomic | src/server/prover_network_service.rs:90-161 | each step leaves maps and log alone or is the one step in which a single handler takes its whole effect |
| Linearizability.CancelledLeavesNothing | src/server/prover_network_service.rs:114-168 | an unfinished handler can be dropped at each of its awaits; that changes no map and gives up its guards, and the handler never appears in the order of any later state; a PUT it had sent is a handler of its own and stays in the order |
| Linearizability.ErrorsChangeNothing | src/server/prover_network_service.rs:53-59 | a handler that answers with an error leaves all maps as they were; the PUT of a failed fulfilment is a handler of its own |
| Linearizability.InsertKeepsInv | src/server/prover_network_service.rs:63-90 | the record built under the guard of `programs` is still the right one at the insert, because that guard is kept until then |
| Linearizability.AcknowledgeKeepsInv | src/server/prover_network_service.rs:128-161 | the record borrowed before the upload is still the stored one after it, because the requests guard is kept across the PUT |
| Linearizability.AcknowledgedUpload | src/server/prover_network_service.rs:131-148 | when a fulfilment learns of success, the PUT of its own proof to its own URL has already taken effect |
| Linearizability.StepKeepsInv | src/server/prover_network_service.rs:22-216 | lock ownership, the threads' memory of guarded data, the log correspondence and the replay equation survive every step |
| Progress.UploadMovesOn | src/server/http_server.rs:59-70 | while a fulfilment waits for its upload with the requests guard held, the upload itself can always move |
| Progress.DeadlockFree | src/server/prover_network_service.rs:63-139 | in every reachable state with an unfinished handler some handler can step, without cancellations or failing uploads |
| Progress.SchedulesAreBounded | src/server/prover_network_service.rs:63-139 | without arrivals a schedule is no longer than a measure of the state |
| Progress.AllHandlersEnd | src/server/prover_network_service.rs:22-216 | from every reachable state the server can bring all handlers to their end, and a schedule that cannot go on has done so |
| Schedules.EveryHandlerRunsAlone | src/server/prover_network_service.rs:22-216 | from a state with free locks every call, with any draws, has a schedule to its atomic outcome and answer, with the proof of a successful fulfilment in the storage |
| Schedules.EveryHistoryIsReached | src/server/prover_network_service.rs:22-216 | the maps and the storage left by any sequence of whole handlers, each fulfilment after an upload of its proof, are reached by some schedule |
| Schedules.ReachableIffSequential | src/server/prover_network_service.rs:22-216 | programs, requests and storage are reachable in the interleaved machine iff such a sequence leaves them |
| Lifecycle.HistoryRefinement | src/server/prover_network_service.rs:43-189 | a record exists iff it was created, and all its fields are determined by its creation, the last fulfilment and the last failure since, and the later of them |
| Lifecycle.HistoryDeterminesEntry | src/server/prover_network_service.rs:43-189 | the refinement fixes every field of both halves |
| Lifecycle.CreationIsKept | src/server/prover_network_service.rs:43-90 | the fields set at creation, requester, times, limits and URIs among them, never change |
| Lifecycle.FulfilmentIsShown | src/server/prover_network_service.rs:148-161 | fulfiller, fulfilment time, transaction hash, proof URIs and execution status come from the last fulfilment, or are as created |
| Lifecycle.FailureIsShown | src/server/prover_network_service.rs:184-189 | the error comes from the last failure, 0 if it gave none or there was none |
| Lifecycle.LastTouchIsShown | src/server/prover_network_service.rs:148-189 | update time and fulfillment status, in both halves, come from the last event |
| Lifecycle.ProgramsOfHistory | src/server/prover_network_service.rs:440-464 | a registered program has the fields of the last successful registration of its key, its signer as owner and its time |
| Lifecycle.ProgramSnapshot | src/server/prover_network_service.rs:62-90 | a record shows the program URI registered at its commit point, whatever is registered later |
| Lifecycle.StorageOfHistory | src/server/http_server.rs:55-88 | a key holds the bytes of the last successful PUT to it |
| Lifecycle.PublishedProofResolves | src/server/prover_network_service.rs:129-153 | a recorded proof URI routes to a stored key, uploaded with the last fulfilment's bytes before it took effect; from any such upload on, and so from the last, the key holds those bytes unless it was put again |
| Guarantees.PairsAreConsistent | src/server/prover_network_service.rs:43-189 | in every reachable state key and identifier agree, both halves agree, the statuses are one of four pairs, Executed iff all proof fields are set, Assigned records are untouched, unexecuted ones are with their requester, and both parties are addresses |
| Guarantees.PairsFollowHistory | src/server/prover_network_service.rs:43-189 | history refinement for every reachable state |
| Guarantees.ProofsResolve | src/server/prover_network_service.rs:129-153 | published proofs resolve, with the bytes since their last upload, in every reachable state |
| Guarantees.ProofsDownload | src/server/prover_network_service.rs:95-108 | in every reachable state the status handler answers for an executed request with a proof URI, the public one being the same, and a GET of it is answered with the bytes last put under it |
| Guarantees.ProgramUrisAreSnapshots | src/server/prover_network_service.rs:62-90 | program snapshots in every reachable state |
| Guarantees.StatusAndDetailsAgree | src/server/prover_network_service.rs:95-216 | the status and details handlers, asked at one moment, find the same request or neither does, and agree on it |
| Guarantees.ImpossiblePollsAreEmpty | src/server/prover_network_service.rs:236-308 | a filter that cannot match, because of a value never written or of values that never occur together, matches nothing in any reachable state |
| Guarantees.UnexecutablePollIsEmpty | src/server/prover_network_service.rs:241-245 | the prover's poll for Unexecutable requests is always empty |
| Guarantees.AssignedIsDiscoverable | src/server/prover_network_service.rs:235-336 | an Assigned request at place i of its prover's list is shown by the poll at exactly one index of exactly one u32 page if i < 2^32 * limit, and on none otherwise, for any u32 limit > 0 |
| Guarantees.QueryIsExact | src/server/prover_network_service.rs:223-336 | the ordered answer is the stable sort of the matches, holds each match once and nothing else, and a page has the length min(limit, what is left) |
| Guarantees.AnsweredQueriesAreExact | src/server/prover_network_service.rs:223-343 | every query a run has answered got the page it asked for of a sorted list of exactly the matches in the map of that moment |
| Guarantees.ListStartIsExact | src/server/prover_network_service.rs:320-336 | the answer starts with what was read, in every iteration order, iff that is all listed, strictly ordered in time and older than the rest |
| Guarantees.WalksAreExact | src/server/prover_network_service.rs:223-336 | for any filter and any run with distinct times at the last read: when the pages of a walk join to the start of the list, and when a match is missed, both as an iff |
| Guarantees.WalksAreStable | src/server/prover_network_service.rs:223-336 | on the log of any run, with a filter on fixed fields, new identifiers and distinct times: a walk joins to the start of the list without repeats, and to all of it once a page is short, iff every match created meanwhile is newer than what was read by then |
| Guarantees.WalksOfNewerAreStable | src/server/prover_network_service.rs:223-336 | in particular a walk is right if times were distinct at its start and every creation was newer than the matches of its moment |
| Guarantees.ClientOwnsProgram | src/server/prover_network_service.rs:443-457 | in every reachable state, if the last registration of a key was signed by a client, the program is that client's, for every message format, and has the fields that were sent |
| Guarantees.ClientOwnsRequest | src/server/prover_network_service.rs:53-83 | in every reachable state, if the last creation of a request was signed by a client, it is that client's, and assigned to it while it is Assigned |
| Guarantees.ClientIsFulfiller | src/server/prover_network_service.rs:114-158 | in every reachable state, if the last fulfilment of a request since its creation was signed by a prover's wallet, that prover is its fulfiller |
| Answers.RequestAnswered | src/server/prover_network_service.rs:22-93 | a request is refused exactly as its body, its encoding and its signature say, or answered with the hash and identifier that its record then has |
| Answers.FulfilmentAnswered | src/server/prover_network_service.rs:111-170 | a fulfilment is refused likewise; else not found iff its request had not been created, internal iff no success of its upload came back, and success iff it did, with the hash its record then shows and the PUT of its proof to its URL earlier in the order |
| Answers.FailureAnswered | src/server/prover_network_service.rs:177-198 | a failure is answered with the hash of the request's creation, with not found iff it was never created, with invalid argument iff it has no body |
| Answers.RegistrationAnswered | src/server/prover_network_service.rs:440-464 | a registration is refused likewise, or answered with its hash, and the program then stored has the fields that were sent and its signer as owner |
| Answers.ClientFulfilmentIsNotRefused | src/server/prover_network_service.rs:114-121 | a fulfilment that a wallet has signed is never answered with invalid argument |
| Answers.StatusAnswered | src/server/prover_network_service.rs:95-108 | the status answered is that of the record which the history of the request determines, not found iff it was never created |
| Answers.DetailsAnswered | src/server/prover_network_service.rs:200-216 | the same for the details |
| Answers.ProgramAnswered | src/server/prover_network_service.rs:424-438 | the program answered has the fields of the last registration of the key, not found iff there was none |
| Answers.PutAnswered | src/server/http_server.rs:34-70 | a PUT is accepted iff its URL is an artifact path |
| Answers.GetAnswered | src/server/http_server.rs:34-88 | a GET is answered with the bytes of the last PUT of its key, not found iff there was none or the path is no artifact's |
| Answers.QueryAnswered | src/server/prover_network_service.rs:218-344 | a query is answered with the slice at page * limit, page 0 and limit 50 by default, of a list of exactly the stored records that none of the eleven criteria excludes, each once, oldest first, those of one second in iteration order |
| Answers.FullAnswerIsOnly | src/server/prover_network_service.rs:218-321 | there is only one such list |
| Answers.StatusesOnTheWire | proto/types.proto:3361-3384 | the numbers that records show: 2, 3 or 4 after the creation, a fulfilment or a failure as last event, and 2 or 1 with or without a fulfilment |
| Listings.OrderedLists | src/server/prover_network_service.rs:223-321 | the ordered answer lists every match exactly once, oldest first |
| Listings.OrderedTells | src/server/prover_network_service.rs:320-321 | with distinct creation times the answer does not depend on the iteration order of the map |
| Listings.StartsIffFirst | src/server/prover_network_service.rs:320-336 | with distinct times a list starts with what was read iff that comes first in time |
| Listings.StartsInEveryOrder | src/server/prover_network_service.rs:320-336 | without assumptions on the times: it does so for every iteration order iff that comes strictly first |
| Listings.TieLeads | src/server/prover_network_service.rs:320-321 | the two oldest matches, if of one age, are listed in their iteration order |
| Listings.NextPageGoesOn | src/server/prover_network_service.rs:323-336 | after any change of the store the next page goes on where the last one ended iff what was read is still listed and older than the rest |
| Listings.MissesIff | src/server/prover_network_service.rs:323-336 | reading on misses a match iff something is unread and something was read twice, is gone or is not older than the unread |
| Listings.ReadingIsExact | src/server/prover_network_service.rs:320-336 | while matches are only added, what was read joins to a prefix of the last list iff at each read the new matches were newer than what had been read |
| PageWalk.EventAdds | src/server/prover_network_service.rs:148-196 | of a filter on fixed fields a handler adds the match it creates, if its identifier is new, and changes nothing else |
| PageWalk.PageWalkIsStable | src/server/prover_network_service.rs:223-336 | pages read at successive moments join to a prefix of the last full list iff every match created meanwhile is newer than what was read by then |
| PageWalk.WalkIsExact | src/server/prover_network_service.rs:223-336 | the same question for every filter and any changes between the reads, with distinct times at the last one, answered by an iff |
| PageWalk.RightWalkHasNoRepeats | src/server/prover_network_service.rs:223-336 | such a walk shows nothing twice |
| PageWalk.RightWalkIsComplete | src/server/prover_network_service.rs:223-336 | once a page is short it has shown the whole list, with every match there was at the start |
| PageWalk.NewerIsEnough | src/server/prover_network_service.rs:223-336 | creations newer than all matches of their moment satisfy the condition and keep times distinct |
| Clock.RecordTimesAreOrdered | src/server/prover_network_service.rs:61-189 | in every run with a monotone clock every record has created_at <= fulfilled_at <= updated_at |
| Boundaries.EveryPairIsReached | src/server/prover_network_service.rs:43-189 | a pair of status numbers occurs in some run iff it is (2, 1), (3, 2), (4, 1) or (4, 2) |
| Boundaries.PairIsReached | src/server/prover_network_service.rs:43-189 | any request, with any fulfilment and failure of it, can come to each of the four pairs |
| Boundaries.EmptyPollsAreExact | src/server/prover_network_service.rs:226-317 | the filters whose list is empty in every reachable state of every world are exactly those that ask for a value never written or for values that never occur together |
| Boundaries.UploadOutlivesFulfilment | src/server/prover_network_service.rs:131-147 | after a stored upload the fulfilment may still fail, be answered a refusal or be dropped: the maps are as before, the proof is in the storage |
| FailingWalks.MonotoneClockIsNotEnough | src/server/prover_network_service.rs:61-90 | after any records, any two requests have a run with a monotone clock in which a two-page walk repeats one and misses the other |
| Boundaries.FailingLeavesPoll | src/server/prover_network_service.rs:183-189 | a failed request leaves its prover's poll, and nothing else does |
| Boundaries.LeavingSkips | src/server/prover_network_service.rs:235-336 | when one match leaves between two reads a match is missed iff the one that left had been read and another had not; it is the first unread one and on no later page |
| Boundaries.LateMatchRepeats | src/server/prover_network_service.rs:323-336 | when one match comes between two reads it is missed iff it is older than one that was read; then the next page repeats the last one read |
| FailingWalks.TiesRepeat | src/server/prover_network_service.rs:320-336 | after any records: two requests of the same second, then a third, with any iteration orders that list the two one way at the first read and the other way at the second: one is shown twice and the other never |
| FailingWalks.RepeatedIdentifierRepeats | src/server/prover_network_service.rs:83-90 | after any records and in any iteration orders: if a request gets the identifier of one that was read, it is shown again and another is never shown |
| FailingWalks.StatusWalkSkips | src/server/prover_network_service.rs:183-189 | after any records and in any iteration orders: if one of two requests of a prover is failed between two reads of its poll, the other, Assigned all the time, is on no page |
| Query.Keeps | src/server/prover_network_service.rs:226-317 | the closure with its early returns keeps exactly the records that none of the eleven criteria excludes |
| Query.PassesIff | src/server/prover_network_service.rs:226-317 | a record passes iff none of the eleven criteria excludes it |
| Query.NarrowerSelectsFewer | src/server/prover_network_service.rs:226-317 | asking for more selects a subsequence |
| Query.EquivalentFiltersSelectSame | src/server/prover_network_service.rs:226-317 | filters that narrow each other select the same list |
| Query.IgnoredFields | src/server/prover_network_service.rs:283-296 | the answer does not depend on `from`, `to` and `not_bid_by` |
| Query.EmptyMeansAny | src/server/prover_network_service.rs:227-261 | an empty requester, vk_hash or version acts as an absent one |
| Query.StableSortSorts | src/server/prover_network_service.rs:320-321 | the sort returns a permutation, sorted, with equal times in their old order |
| Query.StableSortUnique | src/server/prover_network_service.rs:320-321 | there is only one list with these properties |
| Query.StableSortKeepsOrder | src/server/prover_network_service.rs:320-321 | of two records of one time the sort lists first the one that came first |
| Query.InsertInPlace | src/server/prover_network_service.rs:320-321 | the inner loop puts one element in place, after its equals, and leaves the rest |
| Query.SortByCreatedAt | src/server/prover_network_service.rs:320-321 | the array is stably sorted in place |
| Query.Offset | src/server/prover_network_service.rs:324-326 | the product of any two u32 fits a 64-bit usize |
| Query.PageLength | src/server/prover_network_service.rs:329-336 | length and elements of a page |
| Query.PagesPartition | src/server/prover_network_service.rs:323-336 | for an unchanged store the pages join to the whole list, and exactly the later ones are empty |
| Query.OnePlacePerElement | src/server/prover_network_service.rs:323-336 | each element lies at exactly one place of exactly one page |
| Query.RunQuery | src/server/prover_network_service.rs:222-343 | the loops compute the page of the sorted selection |
| Addressing.HexInjective | src/server/artifacts_service.rs:57-60 | distinct identifiers have distinct hex forms |
| Addressing.HexReadsBack | src/server/artifacts_service.rs:57-60 | each byte reads back from its two lower-case digits, the higher first |
| Addressing.RouteExact | src/server/http_server.rs:34-35 | a router of this shape accepts a path iff it is the fixed part and two proper segments, and returns these |
| Addressing.RouteIs | src/server/http_server.rs:34-35 | after any authority the server's router accepts exactly /artifacts/{type}/{id} with two non-empty parts without a slash |
| Addressing.KeyInjective | src/server/http_server.rs:64-80 | two keys are equal iff both segments are |
| Addressing.PresignedRoutes | src/server/artifacts_service.rs:68-72 | the presigned URL routes to its type and identifier |
| Addressing.ProofUrlRoutes | src/server/prover_network_service.rs:981-985 | the proof URL routes to type Proof and the hex identifier |
| Addressing.PresignedUrlIs | src/server/artifacts_service.rs:68-72 | the presigned URL, written out |
| Addressing.ProofUrlIs | src/server/prover_network_service.rs:981-985 | the proof URL, written out |
| Addressing.ClientPutUrlIs | src/client/client.rs:220 | the URL that the client puts to, written out |
| Addressing.WireRoundTrip | src/client/client.rs:170-177 | the server decodes the artifact type that the client encodes, for every type, and no other number |
| Addressing.WireNames | proto/artifact.proto:24-33 | the five numbers of the artifact types and their names in URLs |
| Addressing.ReplaceAllFixes | src/client/client.rs:220 | replacing by something shorter changes a string iff the pattern occurs in it |
| Addressing.ClientRewriteExact | src/client/client.rs:220 | the rewrite changes the host and nothing else iff the identifier does not contain the host name |
| Addressing.ClientUploadReachesKey | src/client/client.rs:220-227 | the client's PUT reaches the artifact that the presigned URL names |
| Addressing.PresignedKeysAgree | src/server/artifacts_service.rs:57-72 | two presigned URLs share a key iff type and identifier agree |
| Addressing.ProofKeysAgree | src/server/prover_network_service.rs:981-985 | a proof URL shares a key with a presigned one iff that is of type Proof with the same identifier |
| Signing.DecimalRoundTrip | src/client/client.rs:136 | the decimal length reads back, without leading zeros |
| Signing.PreImageInjective | src/client/client.rs:134-141 | two messages have the same pre-image iff they are equal |
| Signing.PreImageIsPersonalMessage | src/client/client.rs:134-141 | the pre-image is the text prefix of EIP-191, then the length as the one decimal numeral without leading zero, then the message, and nothing else is |
| Signing.DecimalIsWritten | src/client/client.rs:136 | 907 is written 907 |
| Signing.RecoversFromPersonalMessage | src/server/prover_network_service.rs:960-969 | the server recovers from the hash of the same EIP-191 message |
| Signing.SignBody | src/client/client.rs:134-148 | the client signs the hash of the EIP-191 message of its message |
| Signing.CreateProgramRequest | src/client/client.rs:150-169 | a request results iff the body encodes and the wallet signs it; it carries the binary body, the JSON label, and a signature from which the server recovers the client |
| Signing.EncodeBodyForSigning | src/server/prover_network_service.rs:912-958 | every format value, known or not, leads to the binary encoding |
| Signing.SignerIsClient | src/server/prover_network_service.rs:912-969 | for every format the server recovers the address of the wallet that signed |
| Signing.Signer | src/server/prover_network_service.rs:53-59 | internal error iff the body cannot be encoded, invalid argument iff no signer can be recovered, otherwise an address |
| Signing.Authenticate | src/server/prover_network_service.rs:53-59 | the checks before the first lock, with their error codes |
| Handlers.Admit | src/server/prover_network_service.rs:53-59 | an admitted call has its body, and an admitted signed call has a signer of 20 bytes |
| Services.ProverNetwork.RequestProof | src/server/prover_network_service.rs:22-93 | the handler run alone is the atomic one |
| Services.ProverNetwork.FulfillProof | src/server/prover_network_service.rs:111-170 | the handler run alone answers and leaves the maps as the atomic one, and stores its proof iff it is admitted, finds its request and its PUT arrives, whether or not an answer comes back |
| Services.Pair.RecordFulfilment | src/server/prover_network_service.rs:148-161 | the assignments through the borrowed pair, in place, leave the pair marked as fulfilled |
| Services.Pair.RecordFailure | src/server/prover_network_service.rs:184-189 | the assignments of a failure through the borrowed pair |
| Services.ProverNetwork.Fulfil | src/server/prover_network_service.rs:130-161 | updating the pair under one key changes no other pair |
| Services.ProverNetwork.FailFulfillment | src/server/prover_network_service.rs:177-198 | the handler run alone is the atomic one |
| Services.ProverNetwork.CreateProgram | src/server/prover_network_service.rs:440-464 | the handler run alone is the atomic one |
| Services.ProverNetwork.GetProofRequestStatus | src/server/prover_network_service.rs:95-108 | the answer of the atomic handler |
| Services.ProverNetwork.GetProofRequestDetails | src/server/prover_network_service.rs:200-216 | the answer of the atomic handler |
| Services.ProverNetwork.GetFilteredProofRequests | src/server/prover_network_service.rs:218-344 | the answer of the atomic handler |
| Services.ProverNetwork.GetProgram | src/server/prover_network_service.rs:424-438 | the answer of the atomic handler |
| Services.HttpServer.UploadArtifact | src/server/http_server.rs:55-70 | the bytes are stored under the joined key, all other keys keep theirs |
| Services.HttpServer.DownloadArtifact | src/server/http_server.rs:73-88 | the stored bytes, or not found |
| Services.HttpServer.Put | src/server/http_server.rs:33-37 | only routable URLs are stored |
| Services.HttpServer.Get | src/server/http_server.rs:33-37 | stored bytes iff the URL is routable and its key stored |
| Services.ArtifactStore.CreateArtifact | src/server/artifacts_service.rs:18-53 | an unknown type is refused without effect; otherwise the URI is the presigned URL and is recorded with its type |
| Services.RequestArtifact | src/client/client.rs:170-214 | an artifact that a client asks for as of some type gets a URL that routes to that type's name and the drawn identifier, and is recorded with that type |
| Services.UploadArtifactBytes | src/client/client.rs:216-235 | the upload through the rewritten URL stores the bytes where the presigned URL points, if it arrives |
| Services.RunClient | src/client/client.rs:199-245 | the session succeeds iff the answer to the upload is not lost and the program can be signed; then the program is the wallet's under the presigned URL, and else no program changes; the presigned URL holds the data iff the upload arrived |

## Left out

- Handlers that answer "unimplemented", `get_nonce` and `get_owner`: no logic to prove.
- Protobuf encoding, Keccak-256 and ECDSA: library code, kept abstract in `World`. Nothing is said about forged signatures.
- HTTP and gRPC transport, TLS, timeouts, the body limit of the HTTP framework, the health route, and the process wiring: a PUT that is refused or lost for any of these reasons is a `Reject` or `Drop` step.
- Percent-decoding, query strings and fragments of URLs: the router works on raw segments.
- Error texts: an error is its status code.
- The record fields that no handler ever sets (names, gas price, cycles, amounts and fees) and the reserved metadata of a fulfilment.
- The order in which a mutex serves its waiters: any waiter may be next, so fairness is not modelled and starvation while new handlers keep arriving is not excluded.
- The artifact service in the interleaved machine: its map has a mutex of its own that no other handler takes; it is a class run sequentially.
- Services.Pair: the two halves of a pair are updated in place; within a half, a field assignment is a record update.
- Query.SortByCreatedAt: the library's stable sort is another algorithm; insertion in place stands for it, and `StableSortUnique` shows that the result is the same.
- Query.Keeps: the one closure of the source is written as two methods, one per half of its tests.
- Guarantees.WalksAreExact: asks for distinct times at the last read; without them only the question for all iteration orders at once is answered (`ListStartIsExact`).
- The iteration order of a map is drawn anew at each query. That it stays the same while the map does is used only by `AssignedIsDiscoverable`, which is about all pages of one order.
- The clock is a natural number of seconds; a clock before 1970 is not modelled.
- Logging, the command-line tool, proof verification, program binaries and certificates: input and output only.
- Authorisation and final statuses, which only comments describe: the code enforces neither.
