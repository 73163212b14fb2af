# Fencing and ordering in Zwei

Zwei is a chat and calling client with Go services. Much of its code exists so that stale answers, glare,
lost responses and concurrent tabs never undo a newer decision. This project models that code in Dafny and
proves what it keeps, over all inputs and over all runs. `dafny verify dfyconfig.toml` checks everything.

Code that changes things step by step is modelled as classes and methods with the code's own fields, loops
and branches. Each such method is proved equal to a function of the old state, and the properties are proved
about those functions and about runs made of them. What those functions make of each event is stated a second
time without naming them, as conditions on the state before: the `...Outcomes` modules, `GroupAccessMeaning`,
`GroupAccessLookups`, `GroupAccessMemory`, `GroupAccessListing`, `IceOutgoing`, `AuthTabsFlows`,
`AuthTabsRevocation` and `DirectCallCandidates` say exactly when something is shown, hidden, sent, applied,
stored or signed out, in both directions.

| files | what they model |
|---|---|
| `OfferAnswer`, `DirectCall`, `DirectCallRuns`, `DirectCallCandidates` | negotiation of a direct call: two peers, two FIFO channels, rollback on glare, the "renegotiate later" flag, buffered candidates (the pattern of section 10.7 of W3C WebRTC 1.0) |
| `GroupCall`, `GroupCallRuns`, `GroupCallCoverage` | negotiation between two members of a group call: who is impolite, negotiation IDs, which media changes end covered |
| `IceTypes`, `IceQueue`, `IceQueueRuns`, `IceQueueOutcomes`, `IceIdentity`, `IceOutgoing`, `IceGenerations` | generations of ICE credentials, the bounded candidate queue, candidates that are sent out (section 5.4 of RFC 8839, section 7 of RFC 9143) |
| `StartPermits`, `StartPermitsRuns`, `StartPermitsOutcomes` | the permits a client needs to start a group call, and their cancellation |
| `GroupAccess`, `GroupAccessFences`, `GroupAccessRuns`, `GroupAccessLists`, `GroupAccessFacade`, `GroupAccessOutcomes`, `GroupAccessMeaning`, `GroupAccessLookups`, `GroupAccessMemory`, `GroupAccessListing` | access to a group: revisions, removal fence, quarantine, departures, late lookups, the conversation list |
| `AuthTabs`, `AuthTabsRuns`, `AuthService`, `AuthTabsOutcomes`, `AuthTabsFlows`, `AuthTabsRevocation` | signing in, refreshing and signing out in any number of tabs that share storage and one lock |
| `Utf16`, `Mentions`, `MentionEdits`, `TextCuts`, `Composer`, `ComposerRuns`, `GoMentions` | mention spans as UTF-16 offsets, on the client and on the server (well-formedness as in section 3.9 of The Unicode Standard) |
| `Sender`, `SenderRuns`, `SenderOutcomes`, `Utf8` | the idempotent send as one transaction; byte lengths as in section 3 of RFC 3629 |
| `HistoryMerge`, `StableSort` | a page of history joining the messages on screen |

## Results that differ from what one might expect

- A group call can lose a renegotiation. The direct call repeats an offer that was rolled back on glare; the
  group call does not (it only does so for credential restarts). `GroupCallCoverage.CoveredUnlessLost` says, for every
  run that has come to rest, exactly when the media of a member that changed them are covered: the impolite
  member's if and only if an offer was asked for on a stable connection (the guard of `offer`) at or after its last change, the yielding
  member's if and only if besides that no offer of the other member was taken while that offer was outstanding.
  So a change made while stable ends covered, for the yielding member unless the other one's offer crosses it
  (`ImpoliteChangeIsCovered`, `YieldingChangeIsCovered`). `GroupCallCoverage.GlareLosesAChange` is a run that
  loses a change although nothing was on its way when it was offered.
- A group removed at revision 0 can stay in the projected list, because the code tests the removed revision
  for truth (`home-group-access-facade.service.ts:148`). `GroupAccessRuns.ShownGroupIsAccessible` holds with
  exactly that exception, and `GroupAccessRuns.RemovedAtZeroStaysShown` shows it. `GroupAccessLists.ShownGroupsAreAccessible`
  carries the same exception over the whole list.
- The branch of the reply callback for a pending departure behind a newer revision
  (`home-group-access-facade.service.ts:368-375`) is never reached: such a reply is hidden or turned down before
  (`GroupAccessFacade.HomeGroupAccessFacade.ReplyReceived`).
- A hidden group can be forgotten: hidden, with no lookup live, no departure pending and no failure reported.
  `GroupAccessMemory.ForgetsExactly` says which events do that: a verification that is not asked for when nothing
  is live, and the end of a departure whose removal was seen while the group has been hidden again since
  (the ends at `home-group-access-facade.service.ts:226-229`, `263-264` and `329-332` ask for nothing).
  `GroupAccessMemory.DepartureForgets` is a run of the second kind in which the verification was asked for and
  answered. Otherwise no run forgets a group (`GroupAccessMemory.NoGroupForgotten`), and `retryQuarantined` looks
  after all of them again (`GroupAccessMemory.RetryLooksAfter`).
- `updateMentionRanges` keeps a valid list valid for every later draft exactly when no span ends right after a
  lone high surrogate, which no span of a well-formed draft does (`MentionEdits.UpdateKeepsValidity`, `MentionEdits.LoneSurrogateBreaks`).
- `selectMention` with a name that is not empty and holds no '@' leaves valid spans exactly when the new draft
  does not begin with the old draft up to the end of a mention that covers the query's '@'
  (`Composer.SelectionIsValid`); with any other name some draft fails that no mention stands in the way of
  (`Composer.SafeNames`). So selecting "Ann", deleting the space after it and selecting "Ann" or "Annie" again
  leaves two overlapping spans (`ComposerRuns.SelectingAgainBreaks`), a list that either validator rejects.
  Without such a selection, the mentions are valid after any run of typing, selecting and emptying
  (`ComposerRuns.DraftStaysValid`).
- `restore` accepts a revocation token, which nothing in the repository passes. Without one, a tab never installs
  a token beside a sign-out record (`AuthTabsRuns.InstallsOnlyWithoutRecord`); with one it can
  (`AuthTabsRuns.RevocationInstallsBesideRecord`). `AuthTabsRuns.InstallsBesideRecord` says exactly when: the
  reply to the tab's own refresh under the lock is the expected one, its target is unchanged, and someone
  waits for it from the tab's present session.
- The limit inside `acceptCandidate` is never what closes a peer: the limit on queued signals is reached first
  (`IceQueueRuns.QueueNeverExhausted`).
- `outgoingIceCandidate` compares generations by fragment, a NUL and password in one string. A report that names
  a fragment is certain in any case; one that names none is if no fragment of its media holds a NUL
  (`IceIdentity.SentCandidateIsIdentified`). For a report that names none, a generation is told apart from all
  others if and only if neither its fragment nor its password holds a NUL (`IceIdentity.UnnamedIsCertain`);
  otherwise a guess can be sent (`IceIdentity.NulMergesGenerations`). Generations come from the browser's own
  descriptions, split at line ends only, and the grammar of RFC 8839 (section 5.4) allows no NUL there; so
  it takes a browser that writes one.
- A retry of a send is matched by sender, client ID, conversation and reply target; a different body is not
  noticed, and the stored message is returned (`SenderRuns.RetryReturnsStored`).

## Model

| member | source | states |
|---|---|---|
| OfferAnswer.EmptyChannelsAgree | frontend-app/src/app/home/call-facade.service.ts:527-560 | with nothing in transit neither side waits for an answer and both completed the same negotiations |
| OfferAnswer.ImpoliteOffers | frontend-app/src/app/home/call-facade.service.ts:614-630 | an offer by the impolite side leads from one possible picture of the traffic to another |
| OfferAnswer.PoliteOffers | frontend-app/src/app/home/call-facade.service.ts:614-630 | so does an offer by the polite side |
| OfferAnswer.PoliteAnswers | frontend-app/src/app/home/call-facade.service.ts:527-545 | the polite side may answer any offer that reaches it, rolling its own back |
| OfferAnswer.PoliteSettles | frontend-app/src/app/home/call-facade.service.ts:547-556 | an answer that reaches the polite side answers the offer outstanding there |
| OfferAnswer.ImpoliteIgnores | frontend-app/src/app/home/call-facade.service.ts:528-529 | an offer ignored on glare may be forgotten |
| OfferAnswer.ImpoliteAnswers | frontend-app/src/app/home/call-facade.service.ts:527-545 | an offer that reaches the impolite side while it waits for nothing is answered |
| OfferAnswer.ImpoliteSettles | frontend-app/src/app/home/call-facade.service.ts:547-556 | an answer that reaches the impolite side answers the offer outstanding there |
| DirectCall.CallFacade.SendOffer | frontend-app/src/app/home/call-facade.service.ts:614-630 | a stable peer sends one offer for its present media, any other remembers to renegotiate; nothing else changes |
| DirectCall.CallFacade.ToggleScreenShare | frontend-app/src/app/home/call-facade.service.ts:152-290 | a media change asks for an offer |
| DirectCall.CallFacade.FlushCandidates | frontend-app/src/app/home/call-facade.service.ts:561-567 | every buffered candidate is applied, in order, and the buffer is empty |
| DirectCall.CallFacade.ReceiveSignal | frontend-app/src/app/home/call-facade.service.ts:509-560 | the whole new state and everything sent in reply to an offer, an answer or a candidate |
| DirectCall.CandidatesKeepTheirOrder | frontend-app/src/app/home/call-facade.service.ts:514-536 | over any signals the candidates received are all applied, in order, if and only if a negotiation was completed, and all buffered otherwise |
| DirectCall.CandidatesWait | frontend-app/src/app/home/call-facade.service.ts:514-560 | so from the beginning of a call: the first offer answered or answer accepted applies what was buffered |
| DirectCall.FailsExactly | frontend-app/src/app/home/call-facade.service.ts:547-560 | a signal fails the call if and only if it is an answer to another offer than the one outstanding |
| DirectCall.FailureIsFinal | frontend-app/src/app/home/call-facade.service.ts:557-559 | a failed call takes no further signal |
| DirectCallRuns.StepKeepsInvariant | frontend-app/src/app/home/call-facade.service.ts:509-560 | every step keeps the traffic possible, the media changes accounted for and the offers counted |
| DirectCallRuns.RunKeepsInvariant | frontend-app/src/app/home/call-facade.service.ts:509-560 | so does every run |
| DirectCallRuns.QuietCallIsSettled | frontend-app/src/app/home/call-facade.service.ts:509-560 | when both channels are empty both peers are stable, neither owes an offer, every media change is covered by an answered offer made after it, and both completed the same negotiations |
| DirectCallCandidates.CandidatesReachTheOther | frontend-app/src/app/home/call-facade.service.ts:514-560 | after every run, the candidates a side handed over are those that reached the other one and then those on their way, in order |
| DirectCallCandidates.QuietCallAppliedAll | frontend-app/src/app/home/call-facade.service.ts:514-560 | when nothing is on its way, each side has applied every candidate the other one handed over, in order, if and only if a negotiation was completed |
| DirectCallRuns.AnswersMatchOffers | frontend-app/src/app/home/call-facade.service.ts:547-559 | in every reachable state the next answer belongs to the offer outstanding where it arrives, so no call fails for one |
| DirectCallRuns.OffersBounded | frontend-app/src/app/home/call-facade.service.ts:614-630 | offers are at most the recipient's requests and twice the caller's; signals taken at most twice that |
| DirectCallRuns.OfferBoundIsReached | frontend-app/src/app/home/call-facade.service.ts:527-545 | one request on each side at once makes three offers |
| DirectCallRuns.DeliveryProgresses | frontend-app/src/app/home/call-facade.service.ts:841-845 | each delivery uses up a bounded amount of progress |
| DirectCallRuns.DeliveriesSettle | frontend-app/src/app/home/call-facade.service.ts:841-846 | whatever waiting signals are delivered in whatever order, there are at most `Remaining` deliveries, and when none is left to make the call is settled: no deadlock, no livelock |
| GroupCall.LessIsTotal | frontend-app/src/app/home/group-call-facade.service.ts:2226-2230 | two different texts are ordered one way and not the other |
| GroupCall.LessIsTransitive | frontend-app/src/app/home/group-call-facade.service.ts:2226-2230 | the order of texts is transitive |
| GroupCall.IdentityOrder | frontend-app/src/app/home/group-call-facade.service.ts:2226-2230 | comparing peers is antisymmetric, transitive and zero only for the same peer |
| GroupCall.FindIsMember | frontend-app/src/app/home/group-call-facade.service.ts:1142-1143 | the roster lookup finds a member with the ID whenever there is one |
| GroupCall.ExactlyOneOfferer | frontend-app/src/app/home/group-call-facade.service.ts:1141-1145 | of two members of a roster exactly one is the offerer, and so impolite |
| GroupCall.PeerConnectionState.SendOffer | frontend-app/src/app/home/group-call-facade.service.ts:1469-1500 | a stable peer sends one offer under a new negotiation ID, any other sends nothing |
| GroupCall.PeerConnectionState.Present | frontend-app/src/app/home/group-call-facade.service.ts:1469-1500 | a media change asks for an offer |
| GroupCall.PeerConnectionState.ReceiveSignal | frontend-app/src/app/home/group-call-facade.service.ts:1309-1364 | the whole new state and everything sent in reply to an offer or an answer |
| GroupCallRuns.StepKeepsInvariant | frontend-app/src/app/home/group-call-facade.service.ts:1309-1364 | every step keeps the traffic possible and each member consistent with its outstanding offer |
| GroupCallRuns.RunKeepsInvariant | frontend-app/src/app/home/group-call-facade.service.ts:1309-1364 | so does every run |
| GroupCallRuns.MembersAgree | frontend-app/src/app/home/group-call-facade.service.ts:1309-1364 | over all runs of two members: one is impolite, each waiting answer matches the outstanding offer, and empty channels mean both completed the same negotiation IDs |
| GroupCallRuns.DeliveryProgresses | frontend-app/src/app/home/group-call-facade.service.ts:1269-1272 | each delivery leaves less to deliver |
| GroupCallRuns.DeliveriesSettle | frontend-app/src/app/home/group-call-facade.service.ts:1309-1364 | whatever waiting signals are delivered in whatever order, there are at most `Remaining` deliveries, and none is left to make if and only if the members are stable and agree |
| GroupCallCoverage.CoveredUnlessLost | frontend-app/src/app/home/group-call-facade.service.ts:1319-1329 | with empty channels, the impolite member is covered if and only if it never changed its media or asked for an offer while stable at or after its last change; the yielding member if and only if it never changed its media or, besides, no foreign offer was taken while that one was outstanding |
| GroupCallCoverage.AnsweredUnlessCrossed | frontend-app/src/app/home/group-call-facade.service.ts:1316-1329 | an offer of the impolite member is always answered once it is stable again, one of the yielding member if and only if no foreign offer was taken meanwhile |
| GroupCallCoverage.ImpoliteChangeIsCovered | frontend-app/src/app/home/group-call-facade.service.ts:1469-1471 | the impolite member's last change, made while stable, ends covered |
| GroupCallCoverage.YieldingChangeIsCovered | frontend-app/src/app/home/group-call-facade.service.ts:1469-1471 | so does the yielding member's if no offer is on its way and none is made until it is answered |
| GroupCallCoverage.GlareLosesAChange | frontend-app/src/app/home/group-call-facade.service.ts:1316-1329 | nothing on its way is not enough: a run in which a crossing offer leaves a change uncovered for good |
| IceQueue.PeerIce.AcceptCandidate | frontend-app/src/app/home/group-call-facade.service.ts:1379-1409 | a candidate is applied, dropped, queued or ends the peer as `Accept` says, and `IceQueueOutcomes.AcceptExactly` and `CandidateExactly` say when `Accept` does which |
| IceQueue.PeerIce.SettleCandidate | frontend-app/src/app/home/group-call-facade.service.ts:1412-1424 | one queued candidate is settled as `Settle` says; `IceQueueOutcomes.FateMeans` and `FlushExactly` say which are applied, dropped and kept |
| IceQueue.PeerIce.FlushCandidates | frontend-app/src/app/home/group-call-facade.service.ts:1410-1426 | the walk over a copy of the queue has the effect of settling each candidate in turn |
| IceQueue.PeerIce.RetireIce | frontend-app/src/app/home/group-call-facade.service.ts:1373-1378 | new generations are added once each and only the newest 64 are kept |
| IceQueue.PeerIce.ReceiveOffer | frontend-app/src/app/home/group-call-facade.service.ts:1329-1341 | an answered offer: pending generations, flush, then the old ones retire and the pending ones are current |
| IceQueue.PeerIce.ReceiveIgnoredOffer | frontend-app/src/app/home/group-call-facade.service.ts:1313-1317 | an ignored offer: its generations retire, then flush |
| IceQueue.PeerIce.ReceiveAnswer | frontend-app/src/app/home/group-call-facade.service.ts:1345-1363 | an accepted answer: the old generations retire, the new ones are current, then flush |
| IceQueue.PeerIce.CandidateTimer | frontend-app/src/app/home/group-call-facade.service.ts:1390-1395 | an expired candidate leaves the queue, and an unsettled peer ends |
| IceQueue.PeerIce.QueueSignal | frontend-app/src/app/home/group-call-facade.service.ts:1265-1272 | a signal takes a place beside the queued candidates, at most 64 in all |
| IceQueueRuns.FlushIsFilter | frontend-app/src/app/home/group-call-facade.service.ts:1410-1430 | a flush fails if and only if some queued candidate is ambiguous or mismatched; otherwise it applies, drops and keeps exactly the right candidates, each in order |
| IceQueueRuns.FlushAccounts | frontend-app/src/app/home/group-call-facade.service.ts:1410-1426 | a flush, failed or not, loses and makes no candidate |
| IceQueueRuns.RetireIsBounded | frontend-app/src/app/home/group-call-facade.service.ts:1373-1378 | at most 64 retired generations, each once, none invented |
| IceQueueRuns.StepKeepsInvariant | frontend-app/src/app/home/group-call-facade.service.ts:1297-1430 | every operation, timer and failure keeps the invariant |
| IceQueueRuns.RunKeepsInvariant | frontend-app/src/app/home/group-call-facade.service.ts:1297-1430 | so does every run |
| IceQueueRuns.QueueIsFresh | frontend-app/src/app/home/group-call-facade.service.ts:1388-1418 | between operations no queued candidate shares a fragment with an installed or retired generation, and at most 64 are queued |
| IceQueueRuns.EveryCandidateOnce | frontend-app/src/app/home/group-call-facade.service.ts:1379-1426 | on an open peer each received candidate is in exactly one of: applied once, dropped as retired, expired, queued; on a closed one in at most one |
| IceQueueRuns.NothingAppliedByGuess | frontend-app/src/app/home/group-call-facade.service.ts:1381-1386 | whatever was applied matched an installed generation and all known matches shared one password |
| IceQueueRuns.QueueNeverExhausted | frontend-app/src/app/home/group-call-facade.service.ts:1265-1272 | a candidate closes the peer if and only if it is in trouble with the known generations, never for want of room |
| IceQueueOutcomes.FateMeans | frontend-app/src/app/home/group-call-facade.service.ts:1379-1388 | whatever is known: to be applied if and only if an installed generation is named and all that are named share one password; to be dropped if and only if only retired ones are and they do; to be held if and only if no generation known has the fragment |
| IceQueueOutcomes.AcceptExactly | frontend-app/src/app/home/group-call-facade.service.ts:1379-1388 | a candidate taken up in any state of an open peer is applied, dropped, queued or ends the peer if and only if that is its case; one to be held ends the peer if 64 wait already |
| IceQueueOutcomes.CandidateExactly | frontend-app/src/app/home/group-call-facade.service.ts:1379-1409 | after any run, a candidate taken up on an open peer is applied, dropped, queued or ends the peer if and only if that is its case; nothing else changes |
| IceQueueOutcomes.FlushExactly | frontend-app/src/app/home/group-call-facade.service.ts:1410-1426 | a flush ends the peer if and only if some queued candidate is in trouble; otherwise it applies, drops and keeps exactly those it should, in order |
| IceQueueOutcomes.RetireExactly | frontend-app/src/app/home/group-call-facade.service.ts:1373-1378 | the retired list is the newest part, 64 long unless nothing was cut off, of the list of all generations ever retired, each once and in order |
| IceQueueOutcomes.OfferExactly | frontend-app/src/app/home/group-call-facade.service.ts:1329-1341 | an answered offer flushes with the old and the new generations installed; then only the new ones are, and the old ones are retired |
| IceQueueOutcomes.IgnoredOfferExactly | frontend-app/src/app/home/group-call-facade.service.ts:1313-1317 | an ignored offer retires what it names and leaves what is installed |
| IceQueueOutcomes.AnswerExactly | frontend-app/src/app/home/group-call-facade.service.ts:1345-1363 | an answer flushes with its generations installed and the earlier ones retired |
| IceQueueOutcomes.RenegotiationKeepsCandidates | frontend-app/src/app/home/group-call-facade.service.ts:1351-1387 | an answer that keeps the credentials loses no candidate: one that was to be applied before it is applied after it, although its generation is now among the retired ones too |
| IceQueueOutcomes.TimerExactly | frontend-app/src/app/home/group-call-facade.service.ts:1389-1395 | an expired candidate is taken off the queue and nothing else; the peer ends if and only if it is not connected and has nothing installed or a negotiation under way |
| IceQueueOutcomes.LateTimer | frontend-app/src/app/home/group-call-facade.service.ts:1389-1393 | the timer of a candidate that was settled before changes nothing |
| IceQueueOutcomes.QueuedExactly | frontend-app/src/app/home/group-call-facade.service.ts:1265-1272 | a signal finds a place if and only if fewer than 64 signals and candidates wait; otherwise the peer ends |
| IceGenerations.ReadSession | frontend-app/src/app/home/group-ice-generation.ts:19-35 | one section per media line; values and bundles before the first belong to the session |
| IceGenerations.ReadSection | frontend-app/src/app/home/group-ice-generation.ts:23-35 | a section's tag, fragment and password are the last ones given in it |
| IceGenerations.FindTransport | frontend-app/src/app/home/group-ice-generation.ts:38-39 | the section that carries another's transport: the first with the first tag of the first bundle that lists it, or itself |
| IceGenerations.SectionGenerations | frontend-app/src/app/home/group-ice-generation.ts:37-51 | a section's one or two generations |
| IceGenerations.IceGenerations | frontend-app/src/app/home/group-ice-generation.ts:18-53 | a generation is returned if and only if some tagged section offers it with its transport's credentials, or with its own while it is bundled; each once, section by section, the transport's first |
| IceIdentity.ReadingIsStable | frontend-app/src/app/home/group-ice-generation.ts:55-81 | an accepted candidate is returned as it was, and reading it again gives the same identity |
| IceOutgoing.ReadExactly | frontend-app/src/app/home/group-ice-generation.ts:55-81 | a candidate is read if and only if it is complete and consistent, and then unchanged and with the fragment, tag and index it gives |
| IceIdentity.OnePair | frontend-app/src/app/home/group-ice-generation.ts:99-111 | if the report names a fragment, or no fragment of its media holds a NUL, the generations a sent candidate could belong to share fragment and password |
| IceIdentity.SentCandidateIsIdentified | frontend-app/src/app/home/group-ice-generation.ts:89-112 | a sent candidate reads back as itself with one identity and an installed generation matches it; under the same condition all generations it could belong to have that fragment and one password |
| IceOutgoing.OutgoingExactly | frontend-app/src/app/home/group-ice-generation.ts:89-112 | a report is sent as a given candidate if and only if it is consistent, what is sent can be read, an installed generation of its medium has the fragment and all generations it could be of have one key; it is stale if and only if no installed but a retired generation has the fragment |
| IceIdentity.KeyIsCertain | frontend-app/src/app/home/group-ice-generation.ts:110 | a key stands for one pair if and only if neither part holds a NUL |
| IceIdentity.UnnamedIsCertain | frontend-app/src/app/home/group-ice-generation.ts:109-111 | for a report without a fragment, every candidate sent while a generation is known is certain to be that generation's if and only if it holds no NUL |
| IceIdentity.NulMergesGenerations | frontend-app/src/app/home/group-ice-generation.ts:110 | a report without a fragment is sent although two different generations fit it |
| StartPermits.Starter.RetryStartCancellation | frontend-app/src/app/home/group-call-facade.service.ts:1767-1786 | one cancel is sent if the window is open, fewer than four were sent and the connection is up; an expired window disarms the timer |
| StartPermitsOutcomes.RetrySends | frontend-app/src/app/home/group-call-facade.service.ts:1767-1786 | a cancel goes out if and only if the window is open, fewer than four were sent in it and the connection is up; exactly that is added to what was sent |
| StartPermits.Starter.CancelStartAttempt | frontend-app/src/app/home/group-call-facade.service.ts:1762-1766 | an attempt is cancelled once |
| StartPermits.Starter.CanStart | frontend-app/src/app/home/group-call-facade.service.ts:1823-1836 | a call may start only with no cancellation, preparation, attempt or pending start; asking renews expired windows |
| StartPermits.Starter.Reconnected | frontend-app/src/app/home/group-call-facade.service.ts:193-194 | every cancellation is retried |
| StartPermits.Starter.EndCall | frontend-app/src/app/home/group-call-facade.service.ts:1617-1640 | every end of a call cancels its attempt |
| StartPermits.Starter.StartPrepared | frontend-app/src/app/home/group-call-facade.service.ts:576-590 | a permit is used if the start still waits for it and cancelled otherwise |
| StartPermits.Starter.PreparationRejected | frontend-app/src/app/home/group-call-facade.service.ts:630-637 | a rejected preparation is forgotten, and fails the start that waits |
| StartPermits.Starter.StartCancelled | frontend-app/src/app/home/group-call-facade.service.ts:591-607 | only the reply to the present request confirms a cancellation |
| StartPermits.Starter.GroupCallStarted | frontend-app/src/app/home/group-call-facade.service.ts:804-811 | the attempt of a start that became a room is adopted |
| StartPermitsRuns.RetryKeepsWindow | frontend-app/src/app/home/group-call-facade.service.ts:1767-1786 | a retry keeps every window to four cancels and apart from the others |
| StartPermitsRuns.StepKeepsInvariant | frontend-app/src/app/home/group-call-facade.service.ts:209-237 | every event keeps the invariant |
| StartPermitsRuns.RunKeepsInvariant | frontend-app/src/app/home/group-call-facade.service.ts:209-237 | so does every run |
| StartPermitsRuns.OnePermitAtATime | frontend-app/src/app/home/group-call-facade.service.ts:1823-1836 | never more than one preparation, attempt or cancellation |
| StartPermitsRuns.EveryAttemptOnce | frontend-app/src/app/home/group-call-facade.service.ts:576-607 | if the server never grants an ID twice, each attempt ID the client learned is in exactly one of: current, outstanding cancellation, confirmed cancelled, adopted |
| StartPermitsRuns.NoStartWhileOutstanding | frontend-app/src/app/home/group-call-facade.service.ts:209-237 | when a new start begins, every learned attempt is confirmed cancelled or adopted |
| StartPermitsRuns.FourPerWindow | frontend-app/src/app/home/group-call-facade.service.ts:1762-1786 | at most four cancels per attempt and 30-second window, and windows of one attempt do not overlap |
| StartPermitsOutcomes.StartExactly | frontend-app/src/app/home/group-call-facade.service.ts:209-217 | a delivered start asks for a permit of the next generation if and only if nothing is under way and it is allowed; otherwise it only renews an expired cancellation window |
| StartPermitsOutcomes.GrantExactly | frontend-app/src/app/home/group-call-facade.service.ts:576-590 | a permit is used if and only if it was asked for, for this conversation, the start still waits and it has not expired; one that comes too late is cancelled with a window of its own; any other changes nothing |
| StartPermitsOutcomes.EndExactly | frontend-app/src/app/home/group-call-facade.service.ts:1617-1640 | the end of a call leaves no attempt and no waiting start, and an attempt it held is being cancelled |
| StartPermitsOutcomes.MicrophoneExactly | frontend-app/src/app/home/group-call-facade.service.ts:217-237 | with the microphone a held attempt waits for its start if it could be sent, and is given up otherwise |
| StartPermitsOutcomes.StartedExactly | frontend-app/src/app/home/group-call-facade.service.ts:804-811 | the room adopts the attempt if and only if its start waits, the client is in the room and nothing is being cancelled |
| StartPermitsOutcomes.ConfirmedExactly | frontend-app/src/app/home/group-call-facade.service.ts:591-607 | a cancellation is over if and only if the server confirms its last request for its conversation |
| StartPermitsOutcomes.ConnectedExactly | frontend-app/src/app/home/group-call-facade.service.ts:193-194 | on reconnection the outstanding cancel goes out again, inside its window and four times at most |
| StartPermitsOutcomes.LateGrantIsCancelled | frontend-app/src/app/home/group-call-facade.service.ts:1743-1751 | a permit granted after the start gave up is recognised and cancelled |
| StartPermitsOutcomes.CancelledAndConfirmed | frontend-app/src/app/home/group-call-facade.service.ts:591-607 | an attempt that is given up is cancelled, and once that is confirmed nothing is under way any more |
| StartPermitsOutcomes.CancelledOffline | frontend-app/src/app/home/group-call-facade.service.ts:1762-1786 | a cancellation begun while the connection is down is sent when it is back |
| StartPermitsOutcomes.WindowCloses | frontend-app/src/app/home/group-call-facade.service.ts:1770-1775 | after its window nothing is sent for a cancellation until a start renews it, and then at once |
| GroupAccessFacade.HomeGroupAccessFacade.Hide | frontend-app/src/app/home/home-group-access-facade.service.ts:425-434 | hidden and reported once; no fence moves |
| GroupAccessFacade.HomeGroupAccessFacade.MarkRemoved | frontend-app/src/app/home/home-group-access-facade.service.ts:436-448 | the removal fence is at or above everything seen, and a lookup in flight will not count |
| GroupAccessFacade.HomeGroupAccessFacade.Request | frontend-app/src/app/home/home-group-access-facade.service.ts:282-291 | a lookup that counts is in flight, or the one in flight is superseded if and only if something newer is wanted |
| GroupAccessFacade.HomeGroupAccessFacade.Fetch | frontend-app/src/app/home/home-group-access-facade.service.ts:293-309 | the new lookup answers to everything requested so far; live lookups stay as they are |
| GroupAccessFacade.HomeGroupAccessFacade.RecordAuthorized | frontend-app/src/app/home/home-group-access-facade.service.ts:60-66 | the revision only rises and no fence is lifted |
| GroupAccessFacade.HomeGroupAccessFacade.RemoveDefinitively | frontend-app/src/app/home/home-group-access-facade.service.ts:68-76 | whatever the state was, the group is removed at or above the removal and all that was seen, reported at most once |
| GroupAccessFacade.HomeGroupAccessFacade.Accept | frontend-app/src/app/home/home-group-access-facade.service.ts:82-99 | accepted if and only if the group is not hidden and the projection is neither old nor at or below the removal fence; then nothing hides the group |
| GroupAccessFacade.HomeGroupAccessFacade.ProjectListed | frontend-app/src/app/home/home-group-access-facade.service.ts:111-148 | a shown group is not hidden, a shown item is the newest thing known and unfenced, nothing passes a pending departure |
| GroupAccessFacade.HomeGroupAccessFacade.ProjectUnlisted | frontend-app/src/app/home/home-group-access-facade.service.ts:151-157 | a group an authoritative list leaves out is hidden or removed |
| GroupAccessFacade.HomeGroupAccessFacade.ChangeMembership | frontend-app/src/app/home/home-group-access-facade.service.ts:161-185 | an old event changes nothing; a newer one removes the group, or hides it with a lookup in flight for it |
| GroupAccessFacade.HomeGroupAccessFacade.Verify | frontend-app/src/app/home/home-group-access-facade.service.ts:191-196 | hidden, with a lookup in flight and a selected context remembered |
| GroupAccessFacade.HomeGroupAccessFacade.Retry | frontend-app/src/app/home/home-group-access-facade.service.ts:204-208 | no group that waits is left without a lookup; one that has a lookup is left alone |
| GroupAccessFacade.HomeGroupAccessFacade.BeginDeparture | frontend-app/src/app/home/home-group-access-facade.service.ts:210-222 | one departure at a time, at the highest revision known, with the lookup in flight cancelled |
| GroupAccessFacade.HomeGroupAccessFacade.DepartureReplied | frontend-app/src/app/home/home-group-access-facade.service.ts:224-250 | a new departure fence if and only if something newer had been seen and no removal; then the group is hidden and a lookup of the new generation is in flight |
| GroupAccessFacade.HomeGroupAccessFacade.DepartureErrored | frontend-app/src/app/home/home-group-access-facade.service.ts:251-265 | the departure is given up, and unless a removal was seen the group is hidden and looked up again |
| GroupAccessFacade.HomeGroupAccessFacade.ReplyReceived | frontend-app/src/app/home/home-group-access-facade.service.ts:310-386 | the state after a reply is that of `HandleReply`; a reply shows a hidden group only with a revision that is not old and passes the departure fence, and `GroupAccessMeaning.GoodReplyRestores` and `AuthorizedExactly` say which replies do |
| GroupAccessFacade.HomeGroupAccessFacade.RejectLate | frontend-app/src/app/home/home-group-access-facade.service.ts:341-368 | such a reply shows a hidden group only if superseded, newer than all known and behind no departure; a retry only after a superseded one |
| GroupAccessFacade.HomeGroupAccessFacade.ErrorReceived | frontend-app/src/app/home/home-group-access-facade.service.ts:387-411 | a superseded error changes nothing, "not found" removes, no other error shows a hidden group |
| GroupAccessFacade.HomeGroupAccessFacade.Finalize | frontend-app/src/app/home/home-group-access-facade.service.ts:305-308 | the lookup is over, and another is in flight if and only if one was wanted and the group is not settled as removed |
| GroupAccessFacade.FencedAccepts | frontend-app/src/app/home/home-group-access-facade.service.ts:82-99 | behind such a fence a projection is accepted if and only if it is above it |
| GroupAccessFacade.DepartureSuccess | frontend-app/src/app/home/home-group-access-facade.service.ts:223-250 | a departure that succeeded opens a new departure generation if and only if something newer had been seen and no removal |
| GroupAccessFacade.ReplyShows | frontend-app/src/app/home/home-group-access-facade.service.ts:311-384 | a reply shows a hidden group only with a revision that is not old and passes the departure fence |
| GroupAccessFacade.HomeGroupAccessFacade.LookupReplied | frontend-app/src/app/home/home-group-access-facade.service.ts:305-386 | a reply to a live lookup is handled and the lookup ends; any other reply changes nothing (what it shows: `GroupAccessMeaning.GoodReplyRestores`) |
| GroupAccessFacade.HomeGroupAccessFacade.LookupErrored | frontend-app/src/app/home/home-group-access-facade.service.ts:387-411 | likewise for an error |
| GroupAccessFacade.HomeGroupAccessFacade.RetryQuarantinedGroups | frontend-app/src/app/home/home-group-access-facade.service.ts:204-208 | every group is retried, none is added or lost |
| GroupAccessFacade.HomeGroupAccessFacade.ProjectConversationList | frontend-app/src/app/home/home-group-access-facade.service.ts:101-159 | the projected list and all states afterwards |
| GroupAccessFences.StepKeepsInvariant | frontend-app/src/app/home/home-group-access-facade.service.ts:60-450 | every event keeps the access-state invariant and appends only allowed outcomes |
| GroupAccessFences.RunKeepsInvariant | frontend-app/src/app/home/home-group-access-facade.service.ts:60-450 | so does every run |
| GroupAccessRuns.RemovalFence | frontend-app/src/app/home/home-group-access-facade.service.ts:436-448 | after a removal at revision R no later authorization of the group is at or below R, in whatever order lookups, lists and events arrive |
| GroupAccessRuns.DepartureFence | frontend-app/src/app/home/home-group-access-facade.service.ts:311-319 | while a departure at revision d is pending no authorization is above d |
| GroupAccessRuns.ReconciliationFence | frontend-app/src/app/home/home-group-access-facade.service.ts:231-250 | after a departure that succeeded behind a newer revision, the first authorization comes from a lookup begun after it, unless a removal comes first |
| GroupAccessRuns.RevisionNeverDecreases | frontend-app/src/app/home/home-group-access-facade.service.ts:82-159 | no event lowers a revision |
| GroupAccessRuns.StateInvariant | frontend-app/src/app/home/home-group-access-facade.service.ts:231-243 | the removal fence is at most the revision, and a required reconciliation means quarantine and a revision above the departure fence |
| GroupAccessRuns.AcceptedAboveRemovals | frontend-app/src/app/home/home-group-access-facade.service.ts:82-99 | an accepted projection is above every removal there was |
| GroupAccessRuns.ShownGroupIsAccessible | frontend-app/src/app/home/home-group-access-facade.service.ts:111-148 | a group shown from a list is not quarantined, and is removed if and only if it is the caller's copy behind a fence at revision 0 |
| GroupAccessRuns.RemovedAtZeroStaysShown | frontend-app/src/app/home/home-group-access-facade.service.ts:147-148 | such a group exists |
| GroupAccessOutcomes.Reports | frontend-app/src/app/home/home-group-access-facade.service.ts:60-450 | every event reports exactly the outcomes, and begins exactly the lookups, that its case calls for, in order |
| GroupAccessMeaning.GoodReplyRestores | frontend-app/src/app/home/home-group-access-facade.service.ts:310-386 | a live lookup that counts, answered for the group, at or above its target and the known revision, above any removal, not from before the departure fence and not above a pending departure: afterwards the group is neither hidden nor removed, at the reply's revision, and the last outcome authorizes it for the remembered context |
| GroupAccessMeaning.AuthorizedExactly | frontend-app/src/app/home/home-group-access-facade.service.ts:111-148 | an authorization is reported if and only if such a reply arrives, a superseded reply shows something newer that nothing fences, or a list lifts the quarantine |
| GroupAccessMeaning.ShowsExactly | frontend-app/src/app/home/home-group-access-facade.service.ts:60-450 | after every event the group is hidden if and only if the event hides it, or it was hidden and is neither authorized nor removed; the removal fence and the revision are exactly those the event leaves |
| GroupAccessMeaning.RemovedExactly | frontend-app/src/app/home/home-group-access-facade.service.ts:68-76 | a removal is reported if and only if the event removes the group |
| GroupAccessLookups.TracksExactly | frontend-app/src/app/home/home-group-access-facade.service.ts:282-309 | exactly which lookups are live, registered and in flight after an event, which of them count, and what becomes of departures and their fence |
| GroupAccessMemory.RemembersExactly | frontend-app/src/app/home/home-group-access-facade.service.ts:425-434 | exactly which context is remembered, and whether the last lookup failed |
| GroupAccessMemory.OutdatesExactly | frontend-app/src/app/home/home-group-access-facade.service.ts:60-66 | the projection generation grows with exactly the events that outdate a projection |
| GroupAccessMemory.ForgetsExactly | frontend-app/src/app/home/home-group-access-facade.service.ts:223-265 | from a state in which no hidden group is forgotten, an event forgets one if and only if it is one of the cases named above |
| GroupAccessMemory.NoGroupForgotten | frontend-app/src/app/home/home-group-access-facade.service.ts:191-272 | as long as none of these occurs, after every run a hidden group waits for a live lookup or the end of a departure, or has a failure reported |
| GroupAccessMemory.RetryLooksAfter | frontend-app/src/app/home/home-group-access-facade.service.ts:204-208 | after `retryQuarantined` every hidden group, and every one whose departure was found removed, has a lookup in flight |
| GroupAccessMemory.DepartureForgets | frontend-app/src/app/home/home-group-access-facade.service.ts:224-229 | a concrete run in which a group hidden again is forgotten when its departure succeeds |
| GroupAccessLists.StoredKeeps | frontend-app/src/app/home/home-group-access-facade.service.ts:60-450 | any event of one group keeps every group's invariant |
| GroupAccessLists.RetryKeepsFences | frontend-app/src/app/home/home-group-access-facade.service.ts:204-208 | so does retrying all groups |
| GroupAccessLists.ListKeepsFences | frontend-app/src/app/home/home-group-access-facade.service.ts:101-159 | projecting a list keeps every group's invariant |
| GroupAccessListing.ItemExactly | frontend-app/src/app/home/home-group-access-facade.service.ts:111-148 | an item is shown if and only if it is not old, above every removal, and neither hidden nor above a pending departure; the copy shown so far stays if and only if the item is not shown, nothing hides the group, and it is not removed above revision 0 |
| GroupAccessListing.ListExactly | frontend-app/src/app/home/home-group-access-facade.service.ts:101-159 | the projected list is every direct conversation and, of each listed group, its item, its copy or nothing, in order |
| GroupAccessListing.ListedGroup | frontend-app/src/app/home/home-group-access-facade.service.ts:105-149 | a listed group is afterwards hidden, fenced and known up to exactly as its item says |
| GroupAccessListing.UnnamedGroup | frontend-app/src/app/home/home-group-access-facade.service.ts:150-157 | a group that is not named is left alone, unless absence counts and it was shown |
| GroupAccessListing.AbsentGroup | frontend-app/src/app/home/home-group-access-facade.service.ts:151-157 | a shown group an authoritative list leaves out is removed, unless it is hidden or removed already |
| GroupAccessLists.ShownGroupsAreAccessible | frontend-app/src/app/home/home-group-access-facade.service.ts:101-159 | every group the projected list returns is afterwards neither quarantined nor removed, with the exception at revision 0 |
| AuthService.AuthService.Invalidate | frontend-app/src/app/auth/auth.service.ts:423-431 | the tab forgets its session under a new generation |
| AuthService.AuthService.Accept | frontend-app/src/app/auth/auth.service.ts:75-92 | a token is accepted only without a sign-out record and with an identity |
| AuthService.AuthService.CheckSession | frontend-app/src/app/auth/auth.service.ts:31-38 | a session is current if and only if there is a token, no sign-out record, and the stored session is the tab's own |
| AuthService.AuthService.OnStorage | frontend-app/src/app/auth/auth.service.ts:48-52 | what a storage event from another tab does |
| AuthService.AuthService.RestoreSession | frontend-app/src/app/auth/auth.service.ts:94-112 | when a tab waits for a refresh, and which |
| AuthService.AuthService.BeginRefresh | frontend-app/src/app/auth/auth.service.ts:113-121 | a refresh asks only for its own subject and browser; beside a sign-out record or from an earlier session only for revocation; for another session than the recorded one only when there is none |
| AuthService.AuthService.ApplyReply | frontend-app/src/app/auth/auth.service.ts:124-156 | what the reply does to the tab and the storage, and what is passed on |
| AuthService.AuthService.Deliver | frontend-app/src/app/auth/auth.service.ts:161-171 | a waiting caller installs the token only from its own generation |
| AuthService.AuthService.FinishRefresh | frontend-app/src/app/auth/auth.service.ts:124-171 | the reply reaches everyone who waits, in order |
| AuthService.AuthService.SignOut | frontend-app/src/app/auth/auth.service.ts:174-204 | the part of a sign-out that runs at the call is that of `LogoutCalled`, which ends the session (`AuthTabsOutcomes.SignOutEnds`) |
| AuthService.AuthService.Reserve | frontend-app/src/app/auth/auth.service.ts:188-198 | the record is written during the tab's own refresh only if the session is unchanged and there is none |
| AuthService.AuthService.ContinueLogout | frontend-app/src/app/auth/auth.service.ts:205-221 | how a sign-out goes on after the refresh it waited for |
| AuthService.AuthService.BeginRevocation | frontend-app/src/app/auth/auth.service.ts:222-257 | the record is written before anything is sent, and the session record removed only if it is this sign-out's |
| AuthService.AuthService.BeginRetry | frontend-app/src/app/auth/auth.service.ts:287-297 | a retry sends the recorded sign-out and never beside another session's record |
| AuthService.AuthService.Abandon | frontend-app/src/app/auth/auth.service.ts:316-330 | both records of an abandoned sign-out go, if they belong together |
| AuthService.AuthService.RemoveOwned | frontend-app/src/app/auth/auth.service.ts:414-421 | the session record is removed only if it is the one given |
| AuthService.AuthService.ClearPending | frontend-app/src/app/auth/auth.service.ts:307-313 | the sign-out record is removed only by its binding and receipt |
| AuthService.AuthService.ConfirmRevocation | frontend-app/src/app/auth/auth.service.ts:257-262 | a confirmed sign-out |
| AuthService.AuthService.ConfirmRetry | frontend-app/src/app/auth/auth.service.ts:299-305 | a confirmed retry |
| AuthTabsRuns.StepKeepsInvariant | frontend-app/src/app/auth/auth.service.ts:94-172 | every step of any tab keeps the invariant of all tabs |
| AuthTabsRuns.RunKeepsInvariant | frontend-app/src/app/auth/auth-cookie-lock.service.ts:13-36 | so does every run under the lock |
| AuthTabsRuns.OthersKeep | frontend-app/src/app/auth/auth-cookie-lock.service.ts:13-36 | one tab's step leaves other tabs alone, and the sign-out record and the lock too while another tab's refresh is out |
| AuthTabsRuns.OnlyPresentReceive | frontend-app/src/app/auth/auth.service.ts:161-171 | nobody who waits from an earlier session receives a token |
| AuthTabsRuns.InstallingStep | frontend-app/src/app/auth/auth.service.ts:94-172 | beside a sign-out record a token is installed only by the reply to a refresh asked for with a revocation token |
| AuthTabsRuns.TokenDelivered | frontend-app/src/app/auth/auth.service.ts:161-171 | the tab's token after all who wait were told: a single one from the present session gives up on a change of subject |
| AuthTabsRuns.InstallsBesideRecord | frontend-app/src/app/auth/auth.service.ts:94-172 | beside a sign-out record a token is installed if and only if the reply to the tab's own refresh under the lock is the expected one for an unchanged target and reaches someone who waits from the present session |
| AuthTabsRuns.InstallsOnlyWithoutRecord | frontend-app/src/app/auth/auth.service.ts:75-172 | for any number of tabs, as long as no call passes a revocation token, a token is installed only when no sign-out record exists, even with a refresh in flight |
| AuthTabsRuns.RevocationInstallsBesideRecord | frontend-app/src/app/auth/auth.service.ts:94-119 | a run with such a call that installs one |
| AuthTabsRuns.RecordChangesUnderLock | frontend-app/src/app/auth/auth.service.ts:188-235 | the sign-out record is written and removed only under the lock |
| AuthTabsRuns.ReceiptStays | frontend-app/src/app/auth/auth.service.ts:222-330 | over any continuation a sign-out record keeps its receipt until a confirmed reply for that receipt or an explicit abandonment |
| AuthTabsRuns.SessionDeletedByOwner | frontend-app/src/app/auth/auth.service.ts:414-421 | the session record is deleted only when it equals the sign-out's own or pending binding |
| AuthTabsRuns.SessionWrittenForItsGeneration | frontend-app/src/app/auth/auth.service.ts:137-145 | a refresh reply overwrites only the generation it was requested for; every other write signs in without a sign-out record |
| AuthTabsOutcomes.SignOutEnds | frontend-app/src/app/auth/auth.service.ts:174-204 | a sign-out leaves the tab without token and binding, one generation on, unless the cookie is uncleared or there is a record and no token, in which cases the tab is unchanged |
| AuthTabsOutcomes.SignedOutStays | frontend-app/src/app/auth/auth.service.ts:174-204 | however the run goes on, such a tab holds no token until a step installs one |
| AuthTabsOutcomes.TokenExactly | frontend-app/src/app/auth/auth.service.ts:75-172 | the token of every tab after every step |
| AuthTabsOutcomes.FieldsExactly | frontend-app/src/app/auth/auth.service.ts:75-274 | the binding, the generation and the uncleared cookie of the acting tab after every step |
| AuthTabsOutcomes.StoreExactly | frontend-app/src/app/auth/auth.service.ts:75-330 | both records in the shared storage after every step |
| AuthTabsRevocation.MeansExactly | frontend-app/src/app/auth/auth.service.ts:174-274 | exactly which token, session and selector a tab would sign out with after every step, however many sign-outs waited for the same refresh |
| AuthTabsRevocation.ConfirmedForgets | frontend-app/src/app/auth/auth.service.ts:257-262 | a confirmed sign-out of the tab's present session leaves it none of them |
| AuthTabsFlows.SignInWorks | frontend-app/src/app/auth/auth.service.ts:64-92 | a sign-in waits for the lock, asks, and installs and records the session it is given |
| AuthTabsFlows.SignInRefuses | frontend-app/src/app/auth/auth.service.ts:65-68 | beside a sign-out record none is asked for, at the call or at the lock |
| AuthTabsFlows.RestoreWorks | frontend-app/src/app/auth/auth.service.ts:94-172 | a recorded session is restored: the tab asks for it under the lock and holds the token it is given, which is then current |
| AuthTabsFlows.RefreshAsks | frontend-app/src/app/auth/auth.service.ts:113-123 | a refresh that gets the lock sends its request if and only if the session it is for is still there and no sign-out has come in between, except for revocation |
| AuthTabsFlows.SignOutWorks | frontend-app/src/app/auth/auth.service.ts:205-262 | a sign-out records itself before the server is asked, and once confirmed leaves neither record and no token |
| AuthTabsFlows.ExpiredSignOutWorks | frontend-app/src/app/auth/auth.service.ts:237-305 | so does one whose token has expired, by its record alone; the session record stays until then |
| AuthTabsFlows.RetryWorks | frontend-app/src/app/auth/auth.service.ts:287-305 | a sign-out whose answer was lost can be retried by any tab, and is then over |
| AuthTabsFlows.RetryRefuses | frontend-app/src/app/auth/auth.service.ts:292-294 | a retry without a record, or beside the record of another session, is never sent |
| AuthTabsFlows.SignOutReserves | frontend-app/src/app/auth/auth.service.ts:188-199 | a sign-out during the tab's own refresh records itself at once and waits for the refresh |
| AuthTabsFlows.LostRefreshRetries | frontend-app/src/app/auth/auth.service.ts:205-206 | if that refresh is lost, the sign-out goes on by its record and nobody receives a token |
| AuthTabsFlows.AnsweredRefreshRevokes | frontend-app/src/app/auth/auth.service.ts:205-222 | if it is answered, the sign-out goes on with the new token, which no tab installs |
| AuthTabsFlows.OtherTabLearns | frontend-app/src/app/auth/auth.service.ts:48-52 | another tab of the same session holds no token once it hears of the sign-out |
| AuthTabsFlows.AbandonWorks | frontend-app/src/app/auth/auth.service.ts:316-330 | an abandoned sign-out leaves no record, not its session's either, and no token |
| AuthTabsFlows.CancelFrees | frontend-app/src/app/auth/auth.service.ts:276-277 | a request that is given up frees the lock and leaves both records, so that a sign-out can be retried |
| Mentions.IsValidMessageMentions | frontend-app/src/app/home/message.model.ts:29-49 | the client's validator accepts exactly the valid lists |
| Mentions.MessageTextSegments | frontend-app/src/app/home/message.model.ts:51-63 | the segments spell out the body, and highlight exactly the covered texts of a valid list |
| Mentions.UpdateMentionRanges | frontend-app/src/app/home/message.model.ts:66-80 | the edit found is the longest common prefix and the longest common suffix after it, and every span is kept, shifted or dropped by it |
| MentionEdits.SpanSurvives | frontend-app/src/app/home/message.model.ts:75-78 | a surviving span covers the same text and splits no pair |
| MentionEdits.WellFormedEndsOnCharacters | frontend-app/src/app/home/message.model.ts:44-49 | no span of a well-formed body ends after a high surrogate |
| MentionEdits.UpdateKeepsValidity | frontend-app/src/app/home/message.model.ts:66-80 | valid mentions stay valid through any edit |
| MentionEdits.UpdateKeepsEnds | frontend-app/src/app/home/message.model.ts:66-80 | and each still ends on a character, so that any number of edits may follow |
| MentionEdits.LoneSurrogateBreaks | frontend-app/src/app/home/message.model.ts:66-80 | a span that ends after a lone high surrogate is made invalid by some edit: the condition is exact |
| MentionEdits.UpdateDropsExactly | frontend-app/src/app/home/message.model.ts:75-78 | the result lists exactly the mentions that do not meet the edited region, in order, with the text they covered |
| MentionEdits.UndoRestores | frontend-app/src/app/home/message.model.ts:66-80 | undoing an edit restores every mention that survived it |
| Composer.Draft.OnDraftChange | frontend-app/src/app/home/home.component.ts:917-924 | the mentions follow the edit from the last snapshot |
| Composer.Draft.SelectMention | frontend-app/src/app/home/home.component.ts:961-973 | nothing happens without a query or with 16 mentions; otherwise the whole new composer state |
| Composer.Draft.SendMessage | frontend-app/src/app/home/home.component.ts:1273-1314 | the body and the mentions that are sent (which those are: `Composer.SentBodyIsTrimmed`, `AllInsideSent`); the composer is emptied if and only if the message was sent |
| Composer.PrefixStopsAtSigns | frontend-app/src/app/home/message.model.ts:67-68 | after a selection the common prefix reaches past no later '@' |
| Composer.SuffixReachesQuery | frontend-app/src/app/home/message.model.ts:69-71 | and the common suffix reaches back to the query or to the prefix |
| Composer.SelectionMoves | frontend-app/src/app/home/home.component.ts:968 | so, for every valid list, earlier spans stay and all later ones are shifted; a span that covers the query's '@' stays if the new draft begins with the old one up to its end, and is dropped otherwise |
| Composer.SurvivorMisses | frontend-app/src/app/home/home.component.ts:967-968 | unless such a span stays, every span kept lies before or after the new one, wherever in the draft the replaced region begins |
| Composer.InsertedIsValid | frontend-app/src/app/home/home.component.ts:969-970 | appending a valid span and sorting leaves a valid list if and only if the span is apart from all the others |
| Composer.SelectionIsValid | frontend-app/src/app/home/home.component.ts:961-973 | a selection leaves a list valid for the new draft if and only if no mention that covers the first unit replaced ends within what the new draft and the old one have in common at their beginning |
| Composer.SelectionKeepsSpans | frontend-app/src/app/home/home.component.ts:961-973 | then the list is the earlier spans, the new one covering '@' and the name, and the later ones shifted; a span that covered the query's '@' is gone |
| Composer.SafeNames | frontend-app/src/app/home/home.component.ts:961-973 | that test decides validity in every draft if and only if the name is not empty and has no '@' |
| ComposerRuns.StepDecides | frontend-app/src/app/home/home.component.ts:917-973 | from valid mentions, whatever is typed or selected next leaves valid ones if and only if it is not such a selection |
| ComposerRuns.DraftStaysValid | frontend-app/src/app/home/home.component.ts:917-973 | after every run of typing, selecting and emptying without such a selection the mentions are valid |
| ComposerRuns.TypingKeepsEarlier | frontend-app/src/app/home/home.component.ts:917-924 | a mention that ends within the text both drafts begin with stays where it is |
| ComposerRuns.TypingMovesLater | frontend-app/src/app/home/home.component.ts:917-924 | a mention within the text both end with, after the first difference, moves with the end of the draft |
| ComposerRuns.SelectionInserts | frontend-app/src/app/home/home.component.ts:961-973 | unless a mention over the query spells the same again: the draft has '@', the name and a space in the query's place, and the new mention stands between the earlier ones and the later ones moved along |
| ComposerRuns.SelectingAgainBreaks | frontend-app/src/app/home/home.component.ts:917-973 | for every name without a space: selecting it, deleting the space after it and selecting it again, or a name that begins with it, leaves overlapping mentions |
| Composer.SentMentionsAreValid | frontend-app/src/app/home/home.component.ts:1276-1297 | the sent mentions are valid for the trimmed body, and cover the text they covered in the draft |
| Composer.SentBodyIsTrimmed | frontend-app/src/app/home/home.component.ts:1276 | the draft is white space, the body sent and white space, and the body is empty or begins and ends with something else |
| Composer.AllInsideSent | frontend-app/src/app/home/home.component.ts:1296-1297 | every mention that lies in the body is sent, in order, and no other |
| TextCuts.TrimIsUnique | frontend-app/src/app/home/home.component.ts:1276 | no other text is the draft without the white space around it |
| StableSort.InsertAt | frontend-app/src/app/home/home.component.ts:970 | stable insertion puts an element right after the last one not above it |
| StableSort.AppendedAt | frontend-app/src/app/home/home.component.ts:969-970 | an element appended to a sorted list ends up right after the last one not above it, and the others stay in order |
| StableSort.SortOfSorted | frontend-app/src/app/home/home.component.ts:970 | sorting leaves a sorted list alone |
| GoMentions.EncodeConcat | services/shared/messaging/mentions.go:21-32 | encoding runes one by one encodes the body |
| GoMentions.EncodingIsWellFormed | services/shared/messaging/mentions.go:21 | the encoding of scalar values is well-formed UTF-16 |
| GoMentions.RuneBoundaries | services/shared/messaging/mentions.go:24-32 | a rune ends at a boundary, has none inside, and is '@' exactly where its unit is |
| GoMentions.BoundarySets | services/shared/messaging/mentions.go:21-32 | the sets hold exactly the offsets that split no pair and those of '@' |
| GoMentions.ValidateMentions | services/shared/messaging/mentions.go:17-53 | the server's validator accepts exactly the lists the client's accepts on the UTF-16 form |
| GoMentions.MentionUserIDs | services/shared/messaging/mentions.go:56-67 | the users in the order first seen |
| GoMentions.FirstSeenIsDistinct | services/shared/messaging/mentions.go:56-67 | exactly the mentioned users, each once |
| GoMentions.NormalizeMentionOffsets | services/shared/messaging/mentions.go:71-85 | fails if and only if a span touches the trimmed prefix, and otherwise shifts every span |
| GoMentions.TrimCommutes | services/shared/messaging/mentions.go:71-85 | normalizing succeeds and its result is valid for the trimmed body if and only if the list is valid for the submitted body and lies in the kept part; the covered text is unchanged |
| GoMentions.TrimSpaceExactly | services/shared/messaging/sender.go:37-38 | the server's trimming likewise removes exactly the white space around the text |
| Sender.RecipientIDs | services/shared/messaging/sender.go:199-214 | the active members other than the sender, in row order |
| Sender.Prepare | services/shared/messaging/sender.go:31-47 | the checks before the transaction, in their order, and the trimmed request |
| Sender.Store | services/shared/messaging/sender.go:107-184 | the ordered writes of a new message on the transaction's copy, and the first obstacle if there is one |
| Sender.MessageSender.Send | services/shared/messaging/sender.go:31-197 | the outcome and the tables after an attempt are those of `Attempt` (when it does what: `SenderOutcomes`); whatever fails after partial writes leaves the tables as they were |
| SenderRuns.AttemptAdds | services/shared/messaging/sender.go:117-162 | an attempt changes nothing or adds one message with the conversation's next sequence |
| SenderRuns.StepKeepsInvariant | services/shared/messaging/sender.go:117-186 | every event keeps sequences gapless and client IDs unique |
| SenderRuns.RunKeepsInvariant | services/shared/messaging/sender.go:117-186 | so does every run |
| SenderRuns.EachSequenceOnce | services/shared/messaging/sender.go:117 | over all runs each sequence from the first to the one before the next belongs to exactly one message of the conversation |
| SenderRuns.NoSequenceOutside | services/shared/messaging/sender.go:117 | and no message has another |
| SenderRuns.LookupSuffices | services/shared/messaging/sender.go:66-126 | after a lookup that found nothing the row can be inserted if and only if its ID is new: no unique constraint on sequences or client IDs is ever what stops it |
| SenderRuns.OneMessagePerClientID | services/shared/messaging/sender.go:66-106 | at most one message exists per sender and client ID |
| SenderRuns.RetryReturnsStored | services/shared/messaging/sender.go:66-103 | at any later time a matching retry returns the stored message and changes nothing, unless it has expired; also when the first reply was lost |
| SenderRuns.CreatedIsStored | services/shared/messaging/sender.go:117-196 | a message reported as created is stored exactly as returned |
| SenderRuns.CountDecidesMembership | services/shared/messaging/sender.go:137-149 | the count of rows equals the count of users if and only if every mentioned user is an active member |
| SenderRuns.MentionsAreMembers | services/shared/messaging/sender.go:136-149 | a created message mentions only active members other than its sender |
| SenderRuns.StoredMentionsAreValid | services/shared/messaging/sender.go:45-47 | and its spans are valid in its body |
| Utf8.Utf8RoundTrip | services/shared/messaging/sender.go:42 | what the byte lengths count: the UTF-8 encoding, which is read back as it was |
| Utf8.LengthInBytes | services/shared/messaging/sender.go:42 | and its length is the one that limits bodies and client IDs |
| SenderOutcomes.OnlyMembersSend | services/shared/messaging/sender.go:54-65 | whatever is accepted, new or again, and whatever changes a table, comes from an active member of an existing conversation who has a retention period |
| SenderOutcomes.NotFoundExactly | services/shared/messaging/sender.go:54-65 | the conversation is not found if and only if the request is sound, the check is reached and the sender does not belong to it |
| SenderOutcomes.SoundExactly | services/shared/messaging/sender.go:31-47 | a request is turned down before the transaction if and only if a trimmed field does not fit, a mention is invalid or one reaches into the white space that goes |
| SenderOutcomes.AnsweredAgainExactly | services/shared/messaging/sender.go:66-106 | a stored request is answered with its message if and only if conversation and reply target agree, it has not expired and nothing fails; otherwise with a conflict or as expired, if and only if that is so |
| SenderOutcomes.StoredExactly | services/shared/messaging/sender.go:107-197 | a message is added if and only if the request is sound and new, its sender belongs to the conversation, may see what it replies to and may mention whom it mentions, and no step fails; it is reported unless the answer to the commit is lost |
| SenderOutcomes.InvalidReplyExactly | services/shared/messaging/sender.go:107-116 | a reply target is turned down if and only if the sender cannot see it |
| SenderOutcomes.StoredAsSent | services/shared/messaging/sender.go:117-135 | what is stored is what was sent, trimmed, for as long as the sender's retention period says |
| SenderOutcomes.MentionsAsSent | services/shared/messaging/sender.go:136-162 | every mention is stored, and covers the text it covered in the request |
| SenderOutcomes.RecipientsExactly | services/shared/messaging/sender.go:163-196 | the recipients are exactly the active members other than the sender |
| HistoryMerge.SortsInParts | frontend-app/src/app/home/home.component.ts:2592-2597 | sorting puts confirmed messages first and sorts both parts |
| HistoryMerge.LiveSort | frontend-app/src/app/home/home.component.ts:2591-2597 | dropping messages and sorting may change places |
| HistoryMerge.MergeIsOrdered | frontend-app/src/app/home/home.component.ts:2588-2598 | a merge lists every confirmed message of page and screen once, strictly ascending, then the pending ones by time |
| HistoryMerge.PendingDroppedForItsCopy | frontend-app/src/app/home/home.component.ts:2590-2591 | a pending message goes if and only if its stored copy is in the page |
| HistoryMerge.MergesCommute | frontend-app/src/app/home/home.component.ts:2588-2598 | merging two pages in either order gives the same list |

## Left out

- Browser media, devices, screen-share capture and audio playback; an `RTCPeerConnection` is its signaling state and its descriptions.
- `setError` paths of the direct call other than a refused answer, and failures of `createOffer`, `createAnswer` and `setLocalDescription`.
- DirectCall.CallFacade.ToggleScreenShare: a share that ends while it starts (call-facade.service.ts:217-223 with a new sender, and 229-233) changes tracks and asks for no offer. Track state is not modelled, so coverage is promised for changes that ask for one.
- Screen-share signals of the direct call, which only set labels.
- Credential restarts, restart timers and microphone repair in group negotiation: `GroupCallRuns` and `GroupCallCoverage` cover runs without them.
- Changes of the roster while two members negotiate.
- The warnings about unresolved candidates (`unresolvedIce`, `confirmIceRecovery`): they change labels, not what is applied.
- Candidate timers firing inside a flush: peer operations are atomic, and timers fire between them.
- The regular expressions for candidate lines, the counting of code points, and splitting a session description into lines: they are parameters or given lines.
- A `getGroup` that is missing, `ngOnDestroy`, and subscribers of outcomes that call back into the facade.
- A group's state is a value in the facade's map, loaded, changed and stored back, so references to one state from several callbacks are not modelled; `projectionGeneration` is counted per group; the log and the counters of lookups and departures are observations.
- Exceptions from `localStorage`, malformed stored records, and browsers without Web Locks: the code then refuses to go on.
- Web Locks themselves: the lock has at most one holder, who releases it at the reply, on giving up or when the page closes; which waiting request is next is left open.
- A `restore` observable subscribed to only after its refresh is over.
- `restoreFailure` and labels for the user.
- Composer.SelectionMoves: about queries that begin with their '@'. `toLocaleLowerCase` can lengthen a query so that its start misses the '@'; `Composer.SelectionIsValid` covers that too.
- Composer.SelectionKeepsSpans: about the same queries; which list is left is not stated for the others, only when it is valid.
- Bodies that are not valid UTF-8, and the JSON decoding of mentions.
- SQL, encryption and time stamps of messages; a statement, an encryption or a commit may fail at any point, or a commit succeed although an error is reported.
- Delivery rows, unread counts and push intents of a send, and deleting conversations.
- Concurrent transactions: sends are serialized, as the row lock on the conversation does within one.
- Screen-share and control reconciliation in `canStart`: one flag stands for the rest of the facade.
- Flags of displayed messages (`uncertain`, replies, mentions) in `mergeHistoryMessages`.
