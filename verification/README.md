# Akashic: a verified model of its protocols and algorithms

Akashic is a code-knowledge service. Around plain service plumbing it has a
number of small protocols and algorithms whose correctness is not obvious from
any one function: concurrent device-code exchange, token validation behind a
cache, a quota with a check-then-record gap, notes kept in two stores, and so
on. This project models them in Dafny and proves what they keep.

Verify everything with `dafny verify dfyconfig.toml`.

| file | models |
|---|---|
| `DeviceFlow.dfy` | device-code exchange (sections 3.4 and 3.5 of RFC 8628) with concurrent pollers |
| `Quota.dfy` | the rolling-window token quota |
| `Passthrough.dfy` | validation of GitLab tokens behind tombstones and a least-recently-used cache |
| `AuthArtifacts.dfy` | one-time login states and codes, and the background sweep |
| `Curation.dfy` | notes written to Postgres and Neo4j with compensation |
| `Saga.dfy` | find-or-create of knowledge sagas under a unique partial index |
| `Communities.dfy` | call-graph communities: interning, bucketing, canonical sorting |
| `Alerts.dfy` | the Markdown rule that rewrites block quotes into alert boxes |
| `DocsPaths.dfy` | the path algebra of the documentation viewer and its link rewriting |
| `Readiness.dfy` | the readiness poller and its throttled embedding probe |
| `EmbedBatch.dfy` | chunked batch embedding with order restoration |
| `RetrievalEval.dfy` | retrieval ranks, metrics and the degeneracy guard |
| `Bench.dfy` | benchmark aggregation and token ratios |
| `Basics.dfy`, `Sorting.dfy` | options, write outcomes, orders, stable sorting, mapping, rearrangements |

## How protocols are modelled

A protocol is a state machine. Each database statement, cache access, upstream
call or spawned task is one atomic step with all its outcomes, so a step is the
stretch between two awaits. A run is any sequence of enabled steps, which covers
every interleaving of every number of calls. A call that is cancelled is a call
that never moves again. A database write may succeed, fail, or fail after having
been applied (the reply was lost). Fields described as history in the datatypes
only record what happened and never decide what a step does. Time is an
integer that never goes back; random codes, ids and UUIDs are fresh.

Sequential code is a method proved against a specification function; state that
the original updates in place is a field of a class.

Where the code and its comments differ, the code is modelled:

- `supersede_note` promises that a failed call leaves both stores unchanged. The
  rollback clears the mark, so this fails exactly when the older note was already
  marked (`CurationService.SupersedeNote`). A concurrent winner's mark can be erased
  the same way (`RollbackErasesOtherMark`); over all interleavings a note is marked
  exactly when some mark of it was not cleared by a later rollback (`MarkedExactly`),
  and after a successful call exactly when no other call's rollback was the last to
  touch it (`WinnerStaysMarked`).
- `save_note` compensates a failed graph write by deleting the row, but a mark it
  made for `supersedes` stays (`CurationService.SaveNote` says exactly when).
- The embedding probe is described as calling upstream at most once per minimum
  interval. That holds after answered calls (`AnsweredCallsAreThrottled`). A call the
  timeout cut off is not recorded, so calls are only the smaller of interval and
  timeout apart (`UpstreamCallsAreSpaced`, `SpacingIsTight`,
  `TimedOutCallsAreNotThrottled`).
- A tombstone read that errors counts as "not revoked"
  (`TombstoneIsFinal`, `ErroredReadDefeatsTombstone`).
- An errored `mark_exchanged` leaves a live token behind (`ErroredMarkStraysToken`);
  `StrayExactly` says which outcomes of a finished poll do so and that no others do.
- The degeneracy guard is there to refuse replies whose similarities all tie, since
  those score a fake perfect 1. It rejects zero or empty vectors and all-equal raw
  targets only. A reply that passes it ties exactly when a condition on its raw
  vectors holds (`TiedExactly`), which two kinds of reply meet: targets that are
  positive multiples of one another (`GuardMissesCollinear`), and queries at right
  angles to every target (`GuardMissesTied`). Targets alone force a perfect score
  exactly when they are collinear (`CollinearExactly`).
- Key-to-URL is one-to-one on addressable pages only; `A.MD` and `.md` are not
  (`KeyRoundTrip`, `UnaddressablePages`).

## Model

| member | source | states |
|---|---|---|
| `DeviceFlow.ExactlyOnceExchange` | backend/crates/akashic-identity/src/services.rs:287-371 | in every interleaving at most one poll per device code ever returns an access token; it is the token on the row, whose status is exchanged, and it belongs to the user who approved the code |
| `DeviceFlow.NoStrayToken` | backend/crates/akashic-identity/src/services.rs:326-364 | every token a poll minted is the recorded one (returned, or the reply to its mark was lost), still held by that poll in flight, revoked, or lost by one of four faults: lost reply to the issue, errored mark, lost reply to a mark that did not apply, errored revoke |
| `DeviceFlow.StrayExactly` | backend/crates/akashic-identity/src/services.rs:325-364 | once a poll has replied, a token it minted is live and on no row exactly when it is live and one of those four faults befell the poll |
| `DeviceFlow.QuiescentCode` | backend/crates/akashic-identity/src/services.rs:334-364 | once all polls on a code have replied without a port error, the only live token minted for it is the recorded one, and an exchanged row's token went to exactly one poll |
| `DeviceFlow.ApprovalIsNotLost` | backend/crates/akashic-identity/src/services.rs:334-364 | once the mark of some poll has run, its row is closed for good, and exchanged unless the code was denied; when moreover every poll on the code has replied without an error, exactly one of them was given the token |
| `DeviceFlow.ErroredMarkStraysToken` | backend/crates/akashic-identity/src/services.rs:360-363 | a run in which an errored mark_exchanged leaves a live token no row records, so the exception is needed |
| `DeviceFlow.StepKeeps` | backend/crates/akashic-store-pg/src/repos/identity.rs:401-532 | every statement of the flow, with every outcome, keeps the invariant tying rows, tokens, approvals and polls together |
| `DeviceFlow.ReplyIsFinal` | backend/crates/akashic-identity/src/services.rs:287-371 | a poll that has replied never changes again, whatever else runs |
| `DeviceFlow.PollMintsExactly` | backend/crates/akashic-identity/src/services.rs:293-325 | in every run a poll goes on to mint exactly when the row it reads is approved with a user, not past its expiry, and not polled within its interval; it mints for that user and login |
| `DeviceFlow.MintTracesToConsent` | backend/crates/akashic-identity/src/services.rs:287-398 | behind every minted token, in this order: the code was asked for, a user entered its user code, the same user confirmed it, both before the expiry, and a poll read the row approved, unexpired and not too soon; the token carries that user and login |
| `DeviceFlow.BeginPollAnswers` | backend/crates/akashic-store-pg/src/repos/identity.rs:421-477 | every answer of a poll, and the choice to mint, from the fields of the row it read; what it writes back: the poll instant, and five seconds more of interval when it came too soon |
| `DeviceFlow.IdentityService.DeviceAuthorization` | backend/crates/akashic-identity/src/services.rs:237-277 | unknown clients are refused; the first of three attempts that inserts without collision, error or lost reply is returned, its row pending for 600 seconds with interval 5, and it fails exactly when none of the three does; the only other new rows are those whose reply was lost; the invariant is kept |
| `DeviceFlow.IdentityService.UnusedSucceed` | backend/crates/akashic-identity/src/services.rs:237-277 | with unused and different codes an attempt succeeds exactly when the database acknowledges it |
| `DeviceFlow.IdentityService.DeviceVerify` | backend/crates/akashic-store-pg/src/repos/identity.rs:479-500 | exactly the unexpired pending rows of the user code become pre-approved for this user and login; the reply says whether there was one |
| `DeviceFlow.IdentityService.DeviceApprove` | backend/crates/akashic-store-pg/src/repos/identity.rs:502-517 | exactly the unexpired rows of the user code that this user pre-approved become approved; the reply says whether there was one |
| `DeviceFlow.IdentityService.PollRow` | backend/crates/akashic-identity/src/services.rs:293-325 | each reply exactly by the row: expired, too soon, pending or pre-approved, denied, exchanged, no user or unknown status, no such row, database error; otherwise it goes on to mint for the row's user; what the poll writes, unless its commit failed; the invariant is kept |
| `DeviceFlow.IdentityService.Mint` | backend/crates/akashic-identity/src/services.rs:325-333 | unless the issue errored before it ran, the token table has one more live token of the poll's user and login; the poll keeps the token exactly when the reply came, and any error ends it; the invariant is kept |
| `DeviceFlow.IdentityService.CompareAndSet` | backend/crates/akashic-store-pg/src/repos/identity.rs:519-532 | the row takes the token and is exchanged exactly when it was approved and the update ran; the poll returns the token exactly when it also learnt so, holds an orphan when the row was not approved, and ends in an error otherwise; the invariant is kept |
| `DeviceFlow.IdentityService.RevokeOrphan` | backend/crates/akashic-identity/src/services.rs:347-359 | the reply is the same either way, and the loser's token and no other is revoked unless the revoke errored before it ran; the invariant is kept |
| `Quota.OvershootBound` | backend/crates/akashic-quota/src/lib.rs:134-161 | with at most k unrecorded calls that passed their check, recording at most m tokens each, no rolling window of any run holds more than cap - 1 + k * m tokens (none for cap or k 0) beside those of calls let through by an errored check and recorded in that very window, at most m for each |
| `Quota.OvershootBoundUnconditional` | backend/crates/akashic-store-pg/src/repos/identity.rs:336-378 | without any assumption on the provider, the column's clamp gives the same bound for every window with m the largest 32-bit integer |
| `Quota.OvershootIsTight` | backend/crates/akashic-quota/src/embedding.rs:23-81 | for every cap, overlap, record size and number of calls let through by an errored check a run fills a window to exactly that bound |
| `Quota.RunKeeps` | backend/crates/akashic-quota/src/llm.rs:35-102 | the invariant behind the bound: what checked calls used in the open window plus m per unrecorded one stays within it |
| `Quota.Engine.Check` | backend/crates/akashic-store-pg/src/repos/identity.rs:303-334 | exceeded exactly when enforcement is on, the query answered, and the actor's tokens after the window's start reach the cap; a database error lets the call through; the reported use is clamped |
| `Quota.Engine.Consume` | backend/crates/akashic-store-pg/src/repos/identity.rs:336-378 | every window of the actor that holds this instant grows by the tokens clamped to the column type, and no other window and no other actor changes; a database error changes nothing |
| `Quota.EstimateTokens` | backend/crates/akashic-quota/src/embedding.rs:145-149 | the batch estimate is the sum of length / 4 + 1, saturated at 32 bits |
| `Quota.EstimateLaws` | backend/crates/akashic-quota/src/embedding.rs:145-149 | texts add up, one text costs a quarter of its bytes rounded down and one more, and four times the estimate exceeds the bytes by at most four per text and never falls below them |
| `Passthrough.AcceptedIsGenuine` | backend/crates/akashic-identity/src/store.rs:371-458 | every accepted token was accepted by GitLab for that same token, during the call or before an entry cached less than the time to live ago; with time to live 0 always during the call |
| `Passthrough.AcceptedWasNamed` | backend/crates/akashic-identity/src/store.rs:371-458 | the user of an accepted token is the one, by id and login, GitLab named in an earlier step for this very token, in the call itself or before an entry cached less than the time to live ago |
| `Passthrough.AnswersAreProbes` | backend/crates/akashic-identity/src/store.rs:436-445 | every recorded answer is a step in which GitLab named that user for that token at that instant |
| `Passthrough.CacheDecides` | backend/crates/akashic-identity/src/store.rs:417-434 | in every run a lookup that finds the token's entry younger than the time to live ends the call with that entry's user, and every other lookup sends it to GitLab |
| `Passthrough.IdealIsLastStore` | backend/crates/akashic-identity/src/store.rs:446-451 | the unbounded map of the next rows holds, for each key, the user and instant of the last completed probe of that key, and nothing else |
| `Passthrough.RejectedExactly` | backend/crates/akashic-identity/src/store.rs:371-458 | in every run a call ends without a user exactly when one of its own steps met a malformed token, a tombstone, or a rejection, failure or missing id from GitLab |
| `Passthrough.TombstoneIsFinal` | backend/crates/akashic-identity/src/store.rs:406-415 | a call that begins after its token's tombstone never accepts it, cached or not, unless its own tombstone read errored |
| `Passthrough.ErroredReadDefeatsTombstone` | backend/crates/akashic-identity/src/store.rs:407-411 | for every configuration a run in which an errored read lets a tombstoned token through |
| `Passthrough.EvictionOnlyProbes` | backend/crates/akashic-identity/src/store.rs:417-434 | a lookup in the bounded cache accepts only what an unbounded one holds younger than the time to live, with the same user, or goes to GitLab; it misses no such entry while no more than its capacity of tokens was stored |
| `Passthrough.StoreMirrors` | backend/crates/akashic-identity/src/store.rs:446-451 | a write with eviction keeps the cache a distinct-keyed part of the unbounded map, and all of it while it fits |
| `Passthrough.TouchMirrors` | backend/crates/akashic-identity/src/store.rs:421-422 | a read only reorders the cache |
| `Passthrough.LruCache.Find` | backend/crates/akashic-identity/src/store.rs:422-422 | the first position of the key, or the length when there is none |
| `Passthrough.LruCache.Get` | backend/crates/akashic-identity/src/store.rs:420-424 | the first entry of the key is returned and moves to the front, the others keep their order; without one nothing changes |
| `Passthrough.LruCache.Put` | backend/crates/akashic-identity/src/store.rs:446-451 | the new entry stands first, the key's old one is gone, the others keep their order and the last go beyond the capacity |
| `Passthrough.PassthroughStore.Validate` | backend/crates/akashic-identity/src/store.rs:371-458 | a token not of the form `glpat-` and a secret, or with a tombstone read for the first sixteen characters of its digest, is refused and changes nothing; any other is answered by its cache entry while younger than the time to live, whatever GitLab says, and otherwise by the user GitLab names with an id; the cache afterwards in each case; also, run alone, the machine's steps one after the other |
| `Passthrough.PassthroughStore.LookUpOrAsk` | backend/crates/akashic-identity/src/store.rs:417-458 | the same from the cache lookup on |
| `Passthrough.PassthroughStore.Ask` | backend/crates/akashic-identity/src/store.rs:436-458 | accepted exactly when GitLab names a user with an id; only then is the cache written, with that user now |
| `AuthArtifacts.SweepShowsOnlyAtExpiry` | backend/crates/akashic-identity/src/store.rs:114-120 | a sweep changes what a redemption at or after it sees exactly when both fall on the entry's expiry instant |
| `AuthArtifacts.SweepsAreInvisible` | backend/crates/akashic-identity/src/store.rs:114-120 | in every run, redemptions return the same with the sweeps as without, provided each comes at a later instant than the sweeps before it |
| `AuthArtifacts.SweptRunAgrees` | backend/crates/akashic-identity/src/store.rs:114-120 | the refinement behind it, from any swept store and the full store it stems from |
| `AuthArtifacts.SweepsChangeNoSession` | backend/crates/akashic-identity/src/store.rs:114-120 | every run of the login machine makes the same sessions, callbacks and artifacts as the same run without its sweeps, provided nothing is redeemed at its expiry instant after a sweep at that instant |
| `AuthArtifacts.SessionsTraceToDistinctLogins` | backend/crates/akashic-identity/src/services.rs:125-234 | every session, inserted or about to be, traces to a callback that redeemed one unexpired state, through one unexpired code of the same user when exchanged, and no two share a state or a code |
| `AuthArtifacts.SessionsNameTheirUser` | backend/crates/akashic-identity/src/services.rs:572-623 | every session belongs to the user GitLab named to its own callback, which had redeemed an unexpired state; a web callback made it directly, otherwise it was exchanged for the unexpired code that callback issued to that user |
| `AuthArtifacts.CodesNameTheirUser` | backend/crates/akashic-identity/src/services.rs:156-204 | every code carries the user GitLab named to the callback that issued it, which had redeemed an unexpired state |
| `AuthArtifacts.FailedReplyIsFinal` | backend/crates/akashic-identity/src/services.rs:591-600 | a callback to which GitLab replied with an error is failed in every later state and never has a code or a session |
| `AuthArtifacts.StatesKeptExactly` | backend/crates/akashic-identity/src/services.rs:125-165 | a state is there to be redeemed exactly from its login until a callback takes it or a sweep finds it five minutes old |
| `AuthArtifacts.CodesKeptExactly` | backend/crates/akashic-identity/src/services.rs:185-216 | a code is there exactly from the callback that issued it until an exchange takes it or a sweep finds it expired |
| `AuthArtifacts.ReturnAcceptedExactly` | backend/crates/akashic-identity/src/services.rs:156-165 | a callback goes on to GitLab exactly when its state is kept and at most five minutes old, and fails otherwise |
| `AuthArtifacts.ExchangeAcceptedExactly` | backend/crates/akashic-identity/src/services.rs:208-216 | an exchange makes a session exactly when its code is kept and not past its time to live |
| `AuthArtifacts.StoredExactly` | backend/crates/akashic-identity/src/services.rs:218-234 | the row of a session is in the table exactly when its own insert succeeded |
| `AuthArtifacts.StepKeeps` | backend/crates/akashic-identity/src/services.rs:572-623 | every step of the web and CLI flows, sweeps included, keeps the invariant behind it; redeeming a code and inserting its session are two steps |
| `AuthArtifacts.AuthStore.LoginInitiate` | backend/crates/akashic-identity/src/services.rs:125-133 | the new state redeems at every instant up to five minutes later and at none after; every other state answers as before |
| `AuthArtifacts.AuthStore.RedeemState` | backend/crates/akashic-identity/src/services.rs:156-165 | accepts an unexpired state, removes it either way, and leaves nothing to redeem later |
| `AuthArtifacts.AuthStore.IssueCode` | backend/crates/akashic-identity/src/services.rs:185-204 | the new code is exchanged for its user at every instant up to its time to live and at none after; every other code answers as before |
| `AuthArtifacts.AuthStore.ExchangeCode` | backend/crates/akashic-identity/src/services.rs:208-216 | yields the user of an unexpired code, removes the code either way, and leaves nothing to redeem later |
| `AuthArtifacts.AuthStore.CleanupExpired` | backend/crates/akashic-identity/src/store.rs:114-120 | exactly the artifacts that expire later are kept, unchanged; every later redemption, and every one at the same instant of an artifact not expiring then, answers as before |
| `Curation.NotesHaveNodes` | backend/crates/akashic-curation/src/services.rs:133-171 | whenever no save is in flight, the Postgres notes without a graph node are exactly those whose insert lost its reply, or whose node write did not land and whose compensating delete failed; both kinds are told by the outcomes of the writes alone |
| `Curation.NoOrphanNotes` | backend/crates/akashic-curation/src/services.rs:345-358 | in a run without those two losses every note has its node whenever no save is in flight, whatever else failed and whatever was deleted |
| `Curation.MarksHaveEdges` | backend/crates/akashic-curation/src/services.rs:367-407 | once all calls have finished every superseded mark has its edge, unless the superseding note is gone or the mark came from a save, a lost reply or a failed rollback |
| `Curation.MarkIsLast` | backend/crates/akashic-curation/src/services.rs:367-407 | in every run a note is marked as superseded by n exactly when the last step that touched its mark wrote n |
| `Curation.MarkedExactly` | backend/crates/akashic-curation/src/services.rs:367-407 | in every run a note is marked exactly when some mark was written to it that no later rollback cleared |
| `Curation.WinnerStaysMarked` | backend/crates/akashic-curation/src/services.rs:367-407 | after a call on a note has reported success the note is marked exactly when no other call's rollback was the last step to touch its mark, and carries this call's mark if nothing touched it since |
| `Curation.NoLossNoException` | backend/crates/akashic-curation/src/services.rs:161-171 | the exceptions are empty in every run without the steps that cause them |
| `Curation.RollbackErasesOtherMark` | backend/crates/akashic-curation/src/services.rs:385-396 | from every state, two overlapping calls on one note can leave the winner with an edge and no mark although no rollback failed, so the condition of WinnerStaysMarked is needed |
| `Curation.StepKeeps` | backend/crates/akashic-store-neo4j/src/repos/note_graph.rs:31-145 | every step of save, delete and supersede keeps the invariant relating rows, nodes, marks and edges |
| `Curation.SaveAlone` | backend/crates/akashic-curation/src/services.rs:133-171 | from every state the machine runs a lone save in these steps and leaves these rows, marks, nodes and edges, for every outcome of its writes |
| `Curation.DeleteAlone` | backend/crates/akashic-curation/src/services.rs:345-358 | likewise a lone delete |
| `Curation.SupersedeAlone` | backend/crates/akashic-curation/src/services.rs:367-407 | likewise a lone supersede |
| `Curation.CurationService.SaveNote` | backend/crates/akashic-curation/src/services.rs:133-171 | saved exactly when insert and node creation succeed; for every outcome of the writes, which rows, marks and nodes there are afterwards and that nothing else changes; a failed save leaves the stores unchanged exactly when it marked nothing |
| `Curation.CurationService.DeleteNote` | backend/crates/akashic-curation/src/services.rs:345-358 | succeeds exactly when the row of that repository was there and deleted; that row, its node and its edges go as far as the writes landed, and every other row, node and edge stays |
| `Curation.CurationService.SupersedeNote` | backend/crates/akashic-curation/src/services.rs:367-407 | succeeds exactly when both notes and nodes exist and both writes are acknowledged; the mark and the edge afterwards for every outcome, and that nothing else changes; a failed call with a working rollback leaves both stores unchanged exactly when it wrote no mark or the older note carried none |
| `Saga.OneSagaPerSource` | backend/crates/akashic-curation/src/notes/saga.rs:29-84 | for one repository, source type and reference, all calls that ever succeed return the same id, and it is the only knowledge row for that source |
| `Saga.ResultFits` | backend/crates/akashic-curation/src/notes/saga.rs:29-84 | every successful call returns a knowledge row of its repository, source type and reference, and of its name when there is no reference |
| `Saga.ResultExactly` | backend/crates/akashic-curation/src/notes/saga.rs:29-84 | in every run a call returns a row exactly when its lookup found it, it created it because no knowledge row had its source, or it fetched it after losing the race |
| `Saga.RefetchFindsTheWinner` | backend/crates/akashic-store-pg/src/repos/saga.rs:128-181 | a call that lost the insert race has a reference, and exactly one row answers its refetch |
| `Saga.ManualTopicsDuplicate` | backend/crates/akashic-store-pg/src/schema.rs:384-392 | topics without a reference are outside the index: two overlapping calls return different rows |
| `Saga.StepKeeps` | backend/crates/akashic-store-pg/src/repos/saga.rs:90-181 | every step, control rows included, keeps the index unique and every result a row of its source |
| `Saga.SagaTable.FindOrCreateSaga` | backend/crates/akashic-curation/src/notes/saga.rs:29-84 | with or without a rival insert in between, a result is a row of the source, of the requested name without a reference, and the only one for a reference; a row the request seeks is returned rather than created; it fails exactly when the find errored or, with no row found, the insert or the refetch after a lost race did; the row that is written, by its fields, in each case |
| `Communities.DetectCommunities` | backend/crates/akashic-domain/src/algos/code_community.rs:45-103 | whatever order the hash maps are walked in, the report is the canonical one of the interned nodes and their assignment; its members are exactly those nodes, its sizes add up to the number of distinct endpoint ids, no community is empty and sizes never increase |
| `Communities.CanonicalIgnoresIds` | backend/crates/akashic-domain/src/algos/code_community.rs:76-101 | assignments with the same partition give the same report, whatever the ids |
| `Communities.CanonicalByLabels` | backend/crates/akashic-domain/src/algos/code_community.rs:81-101 | listing the classes in any order and sorting gives that report |
| `Communities.ReportIsPartition` | backend/crates/akashic-domain/src/algos/code_community.rs:81-101 | one community per class, together exactly the interned members, sizes adding up to their number, none empty, never increasing |
| `Communities.ReportExactly` | backend/crates/akashic-domain/src/algos/code_community.rs:76-116 | one community per class; its members are that class's nodes, each as often as nodes appear as it, by module and then name; its title is the module most of them are in, the first by name among equals; communities stand by size descending, then title ascending, then member lists by name and module |
| `Communities.CommunityOrder` | backend/crates/akashic-domain/src/algos/code_community.rs:96-101 | the comparator is a total order whose ties are equal communities |
| `Communities.FirstSeenFacts` | backend/crates/akashic-domain/src/algos/code_community.rs:50-72 | interning keeps exactly one node per distinct endpoint id, the first |
| `Communities.FirstSeenCount` | backend/crates/akashic-domain/src/algos/code_community.rs:50-72 | so there are as many nodes as distinct endpoint ids |
| `Communities.DominantUnique` | backend/crates/akashic-domain/src/algos/code_community.rs:106-116 | two modules no member's module beats are equal, so the label does not depend on the walk |
| `Communities.DominantModule` | backend/crates/akashic-domain/src/algos/code_community.rs:106-116 | the most frequent module, least in order among the most frequent |
| `Communities.PickBest` | backend/crates/akashic-domain/src/algos/code_community.rs:111-115 | walking the counts in any order finds that module |
| `Communities.Interner.Intern` | backend/crates/akashic-domain/src/algos/code_community.rs:53-64 | returns the index of the id, adding the node only when the id is new |
| `Communities.Interner.InternEdge` | backend/crates/akashic-domain/src/algos/code_community.rs:67-70 | both endpoints' indices name their ids, old indices keep their meaning |
| `Communities.InternEdges` | backend/crates/akashic-domain/src/algos/code_community.rs:50-72 | the metadata are the name and module of the first-seen endpoints and every edge becomes one between the indices of its endpoints with its weight |
| `Communities.EndpointsAt` | backend/crates/akashic-domain/src/algos/code_community.rs:66-71 | the endpoints are every edge's source and then its target, in order |
| `Communities.Buckets` | backend/crates/akashic-domain/src/algos/code_community.rs:76-79 | one bucket per assigned id, holding its positions in ascending order |
| `Communities.ListCommunities` | backend/crates/akashic-domain/src/algos/code_community.rs:81-94 | every bucket becomes its community exactly once, in whatever order |
| `Communities.CommunityOfClass` | backend/crates/akashic-domain/src/algos/code_community.rs:83-93 | the sorted members of the class, their number and their dominant module |
| `Alerts.AlertPass` | frontend/src/lib/docs/alerts.ts:10-47 | on every well-nested list the rule finishes, finds every matching close, and yields the list of the boxed quote tree: well nested, longer by one title per outermost alert |
| `Alerts.PassIsBoxing` | frontend/src/lib/docs/alerts.ts:12-45 | the flat in-place pass is the tree transformation, on every proper tree with anything behind it |
| `Alerts.MarkerExactly` | frontend/src/lib/docs/alerts.ts:3-3 | a text has a marker exactly when it starts with one of the five bracketed words, the marker's word is that one, and what is left is the text after the marker and the white space behind it |
| `Alerts.QuoteBecomesBox` | frontend/src/lib/docs/alerts.ts:14-43 | a quote becomes a box exactly when its first text starts with a marker: a div with the classes of that word in lower case joined to its own, the word's title, and its body with the marker cut from that text and from its first child; any other quote stays and its body is searched |
| `Alerts.KindsAndClasses` | frontend/src/lib/docs/alerts.ts:39-39 | each class is its word in lower case |
| `Alerts.RetagsMatchedPairs` | frontend/src/lib/docs/alerts.ts:38-44 | openings and closes are retagged in matched pairs, with the class of the word the quote's own first text starts with, exactly for outermost such quotes; all other quotes, and those inside a converted one, keep both tokens |
| `Alerts.BoxedShape` | frontend/src/lib/docs/alerts.ts:41-43 | boxing keeps a tree proper and adds one token per outermost alert |
| `Alerts.ParseFlattens` | frontend/src/lib/docs/alerts.ts:29-37 | every well-nested list is the list of a proper quote tree |
| `Alerts.CutInForest` | frontend/src/lib/docs/alerts.ts:26-26 | cutting the marker in the tree changes exactly the first inline token of the list |
| `Alerts.StopInForest` | frontend/src/lib/docs/alerts.ts:14-21 | the scan for the first inline token or closing quote finds what the tree says |
| `Alerts.CloseSkipsForest` | frontend/src/lib/docs/alerts.ts:29-37 | the depth count passes over any balanced stretch |
| `Alerts.CoreState.FindClose` | frontend/src/lib/docs/alerts.ts:29-37 | the position of the close matching the opening, or the length |
| `Alerts.CoreState.FindStop` | frontend/src/lib/docs/alerts.ts:14-20 | the position of the first inline token or closing quote, or the length |
| `Alerts.CoreState.AlertAt` | frontend/src/lib/docs/alerts.ts:14-25 | an alert exactly when the first inline token or close after the opening is an inline token that starts with a marker; its word is that marker's and the rest is the text behind it |
| `Alerts.CoreState.ConvertAt` | frontend/src/lib/docs/alerts.ts:26-43 | the opening, the title of the word, the text without its marker and the close stand where they belong, one place up behind the opening; every other token only moves; when the cut token is the quote's first inline token the stretch from opening to close becomes the converted quote |
| `Alerts.CoreState.ConvertQuote` | frontend/src/lib/docs/alerts.ts:26-44 | converting a quote leaves the outcome of the whole pass as specified from the token after its close |
| `Alerts.CoreState.VisitAlert` | frontend/src/lib/docs/alerts.ts:29-44 | the turn at an alert's opening keeps the outcome of the pass and makes progress, or the original throws |
| `Alerts.CoreState.Visit` | frontend/src/lib/docs/alerts.ts:12-45 | every turn of the loop keeps the outcome of the pass and makes progress, or the original throws |
| `Alerts.CoreState.DocsAlerts` | frontend/src/lib/docs/alerts.ts:10-47 | the in-place loop computes the specified pass, and throws exactly where it has no result; on the list of a well-nested tree it finishes with the list of the boxed tree |
| `DocsPaths.ResolveRelative` | frontend/src/lib/docs/paths.ts:26-40 | the push-and-pop loop is the walk over the segments |
| `DocsPaths.ResolveOneSegment` | frontend/src/lib/docs/paths.ts:26-40 | one segment from a directory: a name is appended, `..` takes the last segment away and at the root only raises the flag, `.` and the empty segment stay |
| `DocsPaths.NameThenUpCancels` | frontend/src/lib/docs/paths.ts:31-36 | a name followed by `..` cancels out in front of every link, from every directory |
| `DocsPaths.IdleSegmentsCancel` | frontend/src/lib/docs/paths.ts:31-31 | so do `.` and a doubled slash |
| `DocsPaths.LinksFromPage` | frontend/src/lib/docs/paths.ts:14-17 | a page's directory has all its segments but the last: a bare name links to the page's sibling, `../name` to its parent's |
| `DocsPaths.FileDirExactly` | frontend/src/lib/docs/paths.ts:14-17 | the directory of a path is what stands before its last slash, and nothing without one |
| `DocsPaths.InCorpusIsBelow` | frontend/src/lib/docs/paths.ts:42-44 | a key is in the corpus exactly when the segments of the index directory are the first segments of the key |
| `DocsPaths.ResolvedKeyIsClean` | frontend/src/lib/docs/paths.ts:26-40 | a resolved key has no empty, `.` or `..` segment |
| `DocsPaths.ResolveInTwoSteps` | frontend/src/lib/docs/paths.ts:26-40 | resolving in two steps is resolving the joined link, and the escape flags combine by "or" |
| `DocsPaths.ResolveIsIdempotent` | frontend/src/lib/docs/paths.ts:26-40 | a resolved key resolves to itself without escaping, from the root and from itself |
| `DocsPaths.EscapedIffClimbsOut` | frontend/src/lib/docs/paths.ts:32-34 | the flag is set exactly when some prefix of the path climbs above the root |
| `DocsPaths.ResolveEscapes` | frontend/src/lib/docs/paths.ts:26-40 | a link escapes exactly when the directory and the link together climb above the root |
| `DocsPaths.KeyRoundTrip` | frontend/src/lib/docs/paths.ts:48-60 | an in-corpus key survives the trip through its URL path exactly when it is the index page or ends in lower-case `.md` after a non-empty stem |
| `DocsPaths.UrlRoundTrip` | frontend/src/lib/docs/paths.ts:48-60 | a URL path survives the trip through its key exactly when it is empty or not the index page's |
| `DocsPaths.UrlOfKey` | frontend/src/lib/docs/paths.ts:48-60 | the index page has the empty URL path, a page below the index directory its own path without the extension, any other file all of it; and back |
| `DocsPaths.DistinctUrls` | frontend/src/lib/docs/paths.ts:48-52 | distinct addressable pages have distinct URL paths |
| `DocsPaths.UnaddressablePages` | frontend/src/lib/docs/paths.ts:51-51 | two pages that do not survive the trip |
| `DocsPaths.PageLinkOpensItsPage` | frontend/src/lib/docs/markdown.ts:47-64 | every page link stays in the corpus, names a Markdown file, keeps its anchor and decodes to its key's URL path, hence to that very key exactly when the key is addressable |
| `DocsPaths.HrefExactly` | frontend/src/lib/docs/markdown.ts:47-64 | which links are anchors, external, dead, pages or assets, each by an exact condition, and what each becomes: the first three stay as written, a page gets its address and an asset its raw URL, with the anchor |
| `DocsPaths.HasSchemeExactly` | frontend/src/lib/docs/markdown.ts:49-49 | a scheme is a letter, then letters, digits, `+`, `.` and `-`, then a colon |
| `DocsPaths.PageAddressDecodes` | frontend/src/lib/docs/markdown.ts:56-61 | a page address decodes to its URL path and anchor |
| `DocsPaths.EncodeRoundTrip` | frontend/src/lib/docs/paths.ts:62-67 | segment-wise encoding is undone by segment-wise decoding, for every URL path, the empty one included |
| `DocsPaths.HashIndex` | frontend/src/lib/docs/paths.ts:69-72 | splitting the anchor off undoes appending it |
| `DocsPaths.SplitSlash` | frontend/src/lib/docs/paths.ts:27-27 | splitting at slashes distributes over joining with one |
| `DocsPaths.SplitJoin` | frontend/src/lib/docs/paths.ts:39-39 | splitting undoes joining slash-free segments |
| `Readiness.CheckReady` | backend/crates/akashic-platform/src/readiness.rs:64-103 | ready exactly when not shutting down, some probe exists and every probe's last success is within the window in whole seconds |
| `Readiness.ReadyMeansRecentSuccess` | backend/crates/akashic-platform/src/readiness.rs:120-174 | behind a fresh stamp is a cycle in which that probe succeeded and that ended less than the window, rounded up to the next whole second, before |
| `Readiness.FreshExactly` | backend/crates/akashic-platform/src/readiness.rs:120-174 | a probe is fresh exactly when it succeeded in some cycle that ended within the window, counted up to the next whole second; failures since then change nothing |
| `Readiness.RecordAllStamps` | backend/crates/akashic-platform/src/readiness.rs:153-169 | after stamping: a success moves the stamp to now, a failure alone keeps the earlier one, the last outcome of a probe decides its failure flag, and a probe that was not polled keeps its entry |
| `Readiness.ReadyMeansRealEmbedding` | backend/crates/akashic-platform/src/readiness.rs:255-282 | and a real upstream embedding was confirmed within an exact greatest age: less than the window plus one second, the probe timeout and the replay interval |
| `Readiness.RealEmbeddingBoundIsTight` | backend/crates/akashic-platform/src/readiness.rs:255-282 | for every configuration and window a run attains that greatest age exactly |
| `Readiness.AnsweredCallsAreThrottled` | backend/crates/akashic-platform/src/readiness.rs:255-282 | after an answered upstream call the next one starts at least the minimum interval later |
| `Readiness.UpstreamCallsAreSpaced` | backend/crates/akashic-platform/src/readiness.rs:237-282 | in every run a call starts at least the minimum interval after an answered one and at least the timeout after an unanswered one, so no two are closer than the smaller |
| `Readiness.SpacingIsTight` | backend/crates/akashic-platform/src/readiness.rs:237-282 | for every configuration a run attains the smaller of the two |
| `Readiness.TimedOutCallsAreNotThrottled` | backend/crates/akashic-platform/src/readiness.rs:237-282 | for every gap from the timeout up to the minimum interval a run in which a call cut off by the timeout is followed by another after that gap |
| `Readiness.Poller.ProbeEmbedding` | backend/crates/akashic-platform/src/readiness.rs:255-282 | within the interval of the last answer it replays that answer and changes nothing; otherwise it calls upstream, succeeds exactly on a positive answer, and records any answer and nothing else |
| `Readiness.Poller.StampAll` | backend/crates/akashic-platform/src/readiness.rs:153-169 | the stamping loop leaves every entry as RecordAllStamps says |
| `Readiness.Poller.RunCycle` | backend/crates/akashic-platform/src/readiness.rs:128-172 | one cycle of the poller is the specified transition |
| `EmbedBatch.BatchIsMap` | backend/crates/akashic-embed/src/openai.rs:130-184 | for all texts and any rearrangement of each numbered reply (or in-order replies without numbers) the batch is the single embedding mapped over the texts in order |
| `EmbedBatch.BatchExactly` | backend/crates/akashic-embed/src/openai.rs:130-184 | the batch succeeds exactly when every request, of 128 texts and the last of what is left, is answered with one item per text; it then has one vector per text, each request's in the places of its texts by their positions |
| `EmbedBatch.EmbedAll` | backend/crates/akashic-embed/src/openai.rs:130-184 | the loop over chunks computes the batch, and fails exactly when some request was not answered with one item per text |
| `EmbedBatch.FaithfulChunk` | backend/crates/akashic-embed/src/openai.rs:169-181 | a faithful reply passes the count check and sorts to the chunk's embeddings |
| `EmbedBatch.HonestSorts` | backend/crates/akashic-embed/src/openai.rs:178-181 | sorting any rearrangement by index restores the order |
| `EmbedBatch.UnnumberedKeepsOrder` | backend/crates/akashic-embed/src/openai.rs:180-180 | the stable sort leaves replies without numbers alone |
| `RetrievalEval.RankIsLowerBound` | backend/crates/akashic-embed-eval/src/runner.rs:82-94 | in every similarity-descending order the true target stands no earlier than its rank |
| `RetrievalEval.RankIsAttained` | backend/crates/akashic-embed-eval/src/runner.rs:82-94 | in some such order it stands exactly there |
| `RetrievalEval.RankOf` | backend/crates/akashic-embed-eval/src/runner.rs:86-92 | the inner loop counts the targets strictly more similar than the true one |
| `RetrievalEval.DotAppend` | backend/crates/akashic-embed-eval/src/runner.rs:17-19 | the similarity is the sum of the products of the coordinates |
| `RetrievalEval.Ranks` | backend/crates/akashic-embed-eval/src/runner.rs:82-94 | the rank of every query |
| `RetrievalEval.MetricsIgnoreItemOrder` | backend/crates/akashic-embed-eval/src/runner.rs:82-95 | permuting the items leaves every metric unchanged |
| `RetrievalEval.RankPermute` | backend/crates/akashic-embed-eval/src/runner.rs:82-94 | and each item keeps its rank |
| `RetrievalEval.MetricBounds` | backend/crates/akashic-embed-eval/src/metrics.rs:18-55 | recall@1 <= recall@5 <= recall@10 <= 1, recall@1 <= MRR <= (1 + recall@1) / 2 and recall@1 <= NDCG@10 <= recall@10 |
| `RetrievalEval.MetricsOfOne` | backend/crates/akashic-embed-eval/src/metrics.rs:18-55 | every metric of a single query, from its rank |
| `RetrievalEval.MetricsAverage` | backend/crates/akashic-embed-eval/src/metrics.rs:18-55 | more queries average every metric by the numbers of queries, which with the single query determines every metric |
| `RetrievalEval.ComputeMetrics` | backend/crates/akashic-embed-eval/src/metrics.rs:18-55 | the accumulating loop computes the sums over all ranks, NDCG included |
| `RetrievalEval.RunProvider` | backend/crates/akashic-embed-eval/src/runner.rs:31-96 | rejected exactly on a failed request, a count mismatch, a zero or empty vector, or two or more all-equal targets; otherwise the metrics of the ranks of the normalised vectors |
| `RetrievalEval.TiesScorePerfect` | backend/crates/akashic-embed-eval/src/runner.rs:52-73 | every metric is 1 exactly when nothing ever beats the true target |
| `RetrievalEval.ConstantTargetsTie` | backend/crates/akashic-embed-eval/src/runner.rs:71-73 | all-equal targets are such a case |
| `RetrievalEval.SameDirection` | backend/crates/akashic-embed-eval/src/runner.rs:8-15 | normalisation identifies two vectors exactly when one is a positive multiple of the other |
| `RetrievalEval.CollinearScorePerfect` | backend/crates/akashic-embed-eval/src/runner.rs:75-95 | targets that are positive multiples of one another score 1 on every metric, whatever the queries |
| `RetrievalEval.CollinearExactly` | backend/crates/akashic-embed-eval/src/runner.rs:52-95 | for non-zero targets of one dimension: they are collinear exactly when no query vector tells them apart after normalisation, and exactly when every reply with these targets and no zero query scores a perfect 1 |
| `RetrievalEval.TiedExactly` | backend/crates/akashic-embed-eval/src/runner.rs:52-95 | for a reply without a zero vector: all similarities of every query tie exactly when, on the raw vectors, norm(t_i) * (q_i . t_j) equals norm(t_j) * (q_i . t_i) for all i and j; the score is perfect exactly when the first never exceeds the second; a tied reply scores a perfect 1 |
| `RetrievalEval.GuardMissesCollinear` | backend/crates/akashic-embed-eval/src/runner.rs:60-73 | two targets that pass the guard and are collinear |
| `RetrievalEval.GuardMissesTied` | backend/crates/akashic-embed-eval/src/runner.rs:52-73 | targets of two directions and queries at right angles to both pass the guard, tie at 0 and score a perfect 1 |
| `Bench.ScoreStrategy` | backend/crates/akashic-bench/src/runner.rs:13-41 | the report has exactly the categories that occur, each with the aggregate of its items in order, and the aggregate of all |
| `Bench.OverallCosts` | backend/crates/akashic-bench/src/runner.rs:13-41 | overall a strategy costs the tokens of every blob of every question and the calls of every plan, and counts every question |
| `Bench.MeasureCosts` | backend/crates/akashic-bench/src/metrics.rs:53-74 | a question costs its plan's calls, and the tokens and the bytes of its blobs, each blob counted by itself |
| `Bench.MeasureRecall` | backend/crates/akashic-bench/src/metrics.rs:33-74 | its recall is the share of its facts that occur in the blobs joined by line ends |
| `Bench.TotalsAddUp` | backend/crates/akashic-bench/src/metrics.rs:82-103 | totals of two lots of questions add up, and one question counts its own tokens, calls and recall |
| `Bench.CategoriesSumToOverall` | backend/crates/akashic-bench/src/runner.rs:18-34 | category totals of tokens, calls, questions and recall add up to the overall ones, however the categories are listed |
| `Bench.HeadlinesLieAmongRatios` | backend/crates/akashic-bench/src/report.rs:42-79 | if no tokens lie outside the comparable categories, the token-weighted ratio and the macro-average both lie between the smallest and the largest category ratio, and are missing only when there is none |
| `Bench.UnsharedCategoryEscapes` | backend/crates/akashic-bench/src/report.rs:42-69 | any tokens in a category the baseline lacks take the token-weighted ratio above the only category ratio |
| `Bench.OverallRecallAmongCategories` | backend/crates/akashic-bench/src/metrics.rs:82-103 | the overall mean recall lies between the smallest and largest category recall |
| `Bench.AggregateKeepsSums` | backend/crates/akashic-bench/src/metrics.rs:82-103 | totals are the sums, and the means times n give them back |
| `Bench.CategoryRatios` | backend/crates/akashic-bench/src/report.rs:52-69 | exactly the comparable categories, in ascending order, each with the second strategy's tokens in per cent of the first's and the two recalls |
| `Bench.MacroAvgRatioPct` | backend/crates/akashic-bench/src/report.rs:73-79 | none exactly when no category is comparable, otherwise the mean of those ratios |
| `Bench.HeadlinesExactly` | backend/crates/akashic-bench/src/report.rs:42-79 | the macro-average times the number of ratios is their sum, and the overall ratio times the baseline's tokens is a hundred times the other's; each is missing exactly without ratios or baseline tokens |
| `Bench.RatiosUnique` | backend/crates/akashic-bench/src/report.rs:52-69 | that list of ratios is determined by the two reports |
| `Bench.FullRecall` | backend/crates/akashic-bench/src/metrics.rs:33-43 | recall is between 0 and 1, and 1 exactly when every fact was retrieved |

## Left out

- SQL, Cypher, HTTP and GitLab calls appear only as atomic steps with their outcomes; query texts, pools, transactions and isolation levels beyond that are not modelled. The two GitLab requests of a callback are one step, since nothing local happens between them.
- Random codes, UUIDs and token secrets are fresh, SHA-256 is an arbitrary function (injective where a result says so), and tokenizers are arbitrary functions.
- `run_leiden` is any assignment of a number to every node; reciprocal-rank fusion, impact scoring and the query analyzer are not modelled.
- Floating point: similarities, metrics, ratios and means are exact reals; the norm is any non-negative function whose square is the dot product; the NDCG discount is any function that is 1 at rank 0 and strictly between 0 and 1 after, not the logarithm itself.
- The poller's cycles end within the probe timeout of the embedding probe's check, which is polled last; scheduling delays beyond the timeout are not modelled.
- `encodeURIComponent` is any function with an inverse whose results hold no `/` or `#` and are empty only for the empty string; `docsRawUrl` is any function.
- Lower-casing of `.md` compares the ASCII letters.
- `update_note` re-embeds and rewrites the fields of one existing row and, best effort, its node; the duplicate check of `save_note` may refuse before anything is written; the branch-name rule extracts a saga's reference from a string. None of these is modelled.
- The OAuth authorization-code and consent methods are thin delegations.
- Quota actors other than the one checked, the bypass for calls without an actor, and the provider adapters around the check are plain control flow.
- Tree-sitter extraction, ingestion orchestration, configuration, redaction, migrations, the remaining frontend, metrics, tracing, auditing and shutdown are not part of this model.
