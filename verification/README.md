# A verified model of the subscription router

Codex Subscription Router sits between the desktop client and several Codex app-servers, one for each subscription account.
It decides which account pays for an inference, relays requests and answers, keeps its accounts and routing mode in two
files, merges thread lists and usage statistics, and streams events to its account menu. This project models the parts
whose promises concern unbounded runs, arbitrary interleavings or every input, and proves those promises.

How the model is built:

- Where the source updates an object in place there is a class with the same fields and methods. Each method is proved
  against a function on values (`Step`, `Advance`, `Synced`, ...). What holds over every run is proved about that function.
- Concurrency is interleaving: goroutines and handlers are cut where another may run, and a run is any sequence of the pieces.
- The world's answers are parameters: clocks, random bytes, file writes and their failures, app-servers, the upstream service,
  JSON decoding, the calendar. Go map iteration is an arbitrary choice each time round the loop.
- Floats are `real`, so the source's checks for NaN and infinities have no counterpart. Counters and token counts are
  unbounded integers. Strings are sequences of characters with their UTF-8 length as a function.

| files | component |
|---|---|
| `SpendPolicy`, `SpendRules`, `Apportionment`, `Urgency`, `Capacity`, `Scheduling` | the spend scheduler, what its picks amount to, where its candidates come from, and the three together |
| `Gateway`, `GatewayRuns`, `GatewayCall`, `Relay`, `VoiceSetup`, `Outcomes` | a charged request from its capacity question to its end, and what it is recorded as |
| `Multiplexer`, `MultiplexerRuns`, `RoutingRules`, `Router` | routed client requests, their retries, expiry and shutdown |
| `Failover`, `FailoverEnds`, `LostRequests` | usage-limit failover and its end; requests that are never answered |
| `ServerRequests`, `ThreadLocks`, `ChildResponses`, `ChildProcess` | requests of app-servers, per-thread locks, response correlation |
| `Validation`, `JsonKeys`, `Store`, `StoreResults`, `StoreSafety` | the durable store |
| `ThreadList`, `Paging` | the merged thread list |
| `EventStream`, `EventReader`, `EventStandard`, `EventWriter` | the server-sent event stream, read and written |
| `Config`, `ConfigSettings`, `ConfigSections` | the configuration synchroniser, and which lines get through it |
| `Profile` | merged usage statistics |
| `Common`, `Text` | small value types; string and number operations |

Properties the code does not have as it stands, each with what fails and exactly when it holds:

- A request can be answered twice, or never: forwardRoute removes whatever stands under its id after a failed send. If a sweep
  or an answer came between the insertion and the failure, the caller answers again (`OvertakenSendAnswersTwice`). If the id
  was reused meanwhile the newer request loses its route, and is never answered, whatever follows, if and only if its own send
  is not still under way (`RobbedRequestIsNeverAnswered`). Both are reached from the start (`OvertakingHappens`,
  `RobbingHappens`). `AnswersAreConserved` is the exact balance for every interleaving, `AnsweredExactlyOnce` the promise when
  no send is overtaken.
- A shutdown can leave a request behind: a goroutine past the closing check inserts its route after the sweep. After the sweep
  the table stays empty for good if and only if no goroutine is there (`LostRequests.ShutdownIsComplete`); a run that leaves
  one behind is `LostRequests.StrandingHappens`. The table of app-servers' requests has the same gap, with its own condition
  and run in `ServerRequests`.
- `AddAccount` checks neither the limit of 64 accounts nor identities that differ only in case. An addition keeps the store
  consistent if and only if it was refused, or its identity was new and there was room (`AddIsConsistent`).
- After a removal whose rollback could not be saved, memory and disk differ, and the routing mode can end up naming a missing
  account (`FailedRollbackBreaksSafety`). A removal keeps the store consistent if and only if it did not come to that
  (`RemoveIsConsistent`).
- The streaks take the first day of year one for "no previous day". The longest streak is right if and only if the block of
  active days through the first two days of year one is matched by another (`LongestIsLongest`); the current one is at most
  the longest under the conditions of `CurrentAtMostLongest`. One unbroken stretch from there to today fails both
  (`OneStretchFails`).
- The limit on buffered text is the limit on lines: for text whose events fit, reading succeeds for every way of cutting it up
  if and only if every line fits (`LineLimitIsExact`).
- A credential setting of the primary configuration is replaced if and only if exactly one space precedes its equals sign,
  though TOML allows any white space there (`SettingIsReplacedExactly`). Otherwise the isolated file sets the key twice
  (`SettingIsKeptTwice`).

## Model

| member | source | states |
|---|---|---|
| SpendPolicy.PickBestIsBest | internal/spend/policy.go:88-106 | the pick stands strictly before every other eligible candidate: score, then fewer in flight, then more remaining, then the identity |
| SpendPolicy.BestIsUnique | internal/spend/policy.go:88-103 | there is only one such candidate |
| SpendPolicy.ReservePicksTheBest | internal/spend/policy.go:62-124 | a reservation names the best eligible candidate, and each error has its exact cause |
| SpendPolicy.ReserveIgnoresOrder | internal/spend/policy.go:62-111 | decision, error and new state do not depend on the order of the candidates |
| SpendRules.ReservedExactly | internal/spend/policy.go:62-124 | a reservation fails exactly when the identities are bad or nobody may pay; the payer is enabled, connected, known, fresh, with something left, named by the mode if it names one, and outranks every other by urgency for each response in flight, then fewer in flight, then more left, then the name; one response more is counted for it, and the decision carries the next number, the revision and the reason |
| SpendRules.ModeIsSet | internal/spend/policy.go:51-58 | another mode counts one revision, the same mode none, and nothing else changes |
| SpendRules.ReleasedExactly | internal/spend/policy.go:112-122 | the first release takes one from its account's count and drops the entry at zero; later ones change nothing |
| SpendPolicy.StepKeepsSound | internal/spend/policy.go:51-124 | over setting the mode, reserving and repeated releasing: in-flight counts are the unreleased reservations and positive, sequences increase, revisions never decrease, every strict decision names its revision's account |
| SpendPolicy.HistoryIsKept | internal/spend/policy.go:107-121 | decisions, modes and releases are never revised later |
| SpendPolicy.ReleaseIsIdempotent | internal/spend/policy.go:112-122 | calling a release again changes nothing, whatever happened in between |
| SpendPolicy.AllReleasedIsIdle | internal/spend/policy.go:112-122 | the in-flight map is empty exactly when every reservation has been released |
| SpendPolicy.FilterCandidates | internal/spend/policy.go:67-81 | refuses empty and repeated identities and otherwise keeps exactly the eligible candidates, in order |
| SpendPolicy.SortCandidates | internal/spend/policy.go:88-103 | the sorted candidates are a permutation in which none stands before an earlier one |
| SpendPolicy.Policy.constructor | internal/spend/policy.go:45-47 | a new policy is idle, automatic and has handed nothing out |
| SpendPolicy.Policy.Set | internal/spend/policy.go:51-58 | the mode change, with a new revision only when the mode differs |
| SpendPolicy.Policy.Reserve | internal/spend/policy.go:62-124 | the reservation step on the policy's fields, with a fresh release closure for it |
| SpendPolicy.Release.Call | internal/spend/policy.go:112-122 | the release step, once, deleting the account's entry at zero |
| Apportionment.BestKeepsBalance | internal/spend/policy.go:88-106 | one pick keeps the allocation balanced: u_j (n_i + 1) >= u_i n_j for all pairs |
| Apportionment.ReservationsAreBalanced | internal/spend/policy.go:62-124 | N reservations from an idle automatic policy on one candidate set all land in it and are balanced |
| Apportionment.LowerQuota | internal/spend/policy.go:88-106 | every account then holds more than its proportional share less one |
| Apportionment.NoAllocationIsLighter | internal/spend/policy.go:88-106 | no other way to place N reservations has a smaller largest load |
| Urgency.Horizon | internal/mux/accounts.go:645-669 | the horizon of a window is never under a minute |
| Urgency.UrgencyIsPositive | internal/mux/accounts.go:645-669 | the score is positive if and only if the longest window is known and not used up |
| Urgency.BuildCandidates | internal/mux/spending.go:111-130 | one candidate for each snapshot, with its flags and sample time, known exactly when a window was reported, and with the least left over its windows |
| Urgency.EligibleIsUrgent | internal/mux/spending.go:111-130 | a candidate that may be charged has positive urgency, at any later time and mode |
| Capacity.ChargeableExactly | internal/mux/spending.go:111-130 | a candidate may be charged if and only if the snapshot's account is enabled, connected to a subscription, has something left in every window it reported, was sampled recently, and is the one the mode names, if any |
| Capacity.UrgencyExactly | internal/mux/accounts.go:645-669 | urgency is what is left of the longest window for each hour it must last, 15 percent more for each of at most three known resets; how long it must last is the time to the reset, else the window's length, else a week, at least a minute |
| Capacity.UrgencyFalls | internal/mux/accounts.go:645-669 | of two samples the one with more used or the later reset is no more urgent, and less urgent with less left |
| Capacity.SelectableExactly | internal/mux/accounts.go:522-578 | who may carry a thread: not excluded, enabled in both places, connected, the longest window not used up, nor the shortest of the preferred account |
| Scheduling.SharedOutFairly | internal/mux/spending.go:62-147 | whatever the snapshots of distinct accounts say, the reservations made from the candidates built of them while these are fresh are balanced, keep each account above its share less one, and no other placement has a smaller largest load |
| Urgency.ChooseAccountExcluding | internal/mux/accounts.go:522-643 | the choice is selectable and not excluded, the preferred account if it is selectable, and there is none exactly when nothing is selectable |
| Gateway.AdvanceKeepsTold | internal/spend/gateway.go:120-271 | every piece of an inference or voice handler keeps its trace exactly what its progress and the deferred actions run so far say |
| GatewayRuns.SpendsAtMostOnce | internal/spend/gateway.go:134-202 | for any handlers in any interleaving: at most one dispatch, none without a reservation, at most one acceptance and only of a dispatch, at most one observation and one release |
| GatewayRuns.DispatchIsCovered | internal/spend/gateway.go:134-202 | a dispatch carries the credentials granted for the account just reserved, before any release; acceptance is of a 2xx answer, before the body is observed |
| GatewayRuns.EndedHandlersAreSettled | internal/spend/voice.go:81-172 | an ended handler released exactly what it reserved, observed exactly once where it must, and its outcome says truly whether anything was sent and taken |
| GatewayRuns.InflightIsTheHandlers | internal/spend/gateway.go:134-139 | an account's in-flight count is the number of handlers between reserving and releasing it |
| GatewayRuns.QuietMeansIdle | internal/spend/gateway.go:134-139 | when every handler has ended no account is charged |
| GatewayRuns.NextKeepsSound | internal/spend/voice.go:95-109 | arrivals, mode changes and pieces of handlers keep policy and handlers in step |
| GatewayCall.Call.constructor | internal/spend/voice.go:81-94 | a validated request before its first answer, a voice call with its observation already deferred |
| GatewayCall.Call.Capacity | internal/spend/gateway.go:120-133 | the capacity read, retried once on a deadline with the client still there |
| GatewayCall.Call.Reserve | internal/spend/gateway.go:134-156 | the reservation and the deferred actions it adds |
| GatewayCall.Call.CheckCredentials | internal/spend/gateway.go:157-161 | unusable credentials end the request unsent |
| GatewayCall.Call.Send | internal/spend/gateway.go:162-182 | the one dispatch |
| GatewayCall.Call.Respond | internal/spend/gateway.go:182-202 | transport errors, rejections and acceptance |
| GatewayCall.Call.Finish | internal/spend/gateway.go:206-271 | the outcome and failure kind recorded for the body, case by case |
| GatewayCall.Call.RunDeferred | internal/spend/gateway.go:139-156 | deferred actions run last in, first out, each once |
| Outcomes.RelayBody | internal/spend/gateway.go:206-271 | a streamed request is completed, failed upstream, client-disconnected or interrupted exactly when the first line that ends the flow is a delivered response.completed, a delivered failure, undelivered, or missing |
| Outcomes.CompactBody | internal/spend/gateway.go:206-219 | a compaction is invalid exactly when unreadable, over 32 MiB or no JSON; else completed exactly when it could be written |
| Outcomes.VoiceBody | internal/spend/voice.go:152-171 | a voice answer is invalid exactly when unreadable, over 1 MiB, no session description, or without a call's name; else the call is created exactly when it could be written |
| Outcomes.BodyDecides | internal/spend/gateway.go:206-271 | in every run what the body was decides outcome and failure kind, and nothing any handler does later changes them |
| Outcomes.ResponseDecides | internal/spend/gateway.go:182-202 | the body is read exactly for status 200 to 299; any other status, or the failure to get one, is recorded for good |
| Outcomes.CapacityDecides | internal/spend/gateway.go:120-133 | a failed capacity question is asked again exactly if it was the first, timed out and the client is there; else the request is not sent, with the kind of failure, and with status 503 for an inference |
| Outcomes.CandidatesAreTaken | internal/spend/gateway.go:120-134 | the candidates the question was answered with are the ones reserved from, and nobody is charged yet |
| Outcomes.ReservationDecides | internal/spend/gateway.go:134-139 | a request is charged if and only if the candidates are named and one may pay: to the payer among them, with one response more counted and its credentials asked for; else nobody is, and it is not sent, for good |
| Outcomes.CredentialsDecide | internal/spend/gateway.go:157-161 | credentials are used exactly if given with a token and an account; else the request is not sent |
| Outcomes.RequestDecides | internal/spend/gateway.go:162-182 | a request that could be built goes out with the credentials granted; one that could not is not sent, for good |
| Outcomes.DeferredRunBackwards | internal/spend/gateway.go:139-156 | the last a handler with a reservation did is its deferred actions: an inference reported then released, a voice call released then reported |
| Outcomes.RecordIsFinal | internal/spend/gateway.go:139-156 | once a handler returns, its record stays over every run |
| Relay.RelayStream | internal/spend/gateway.go:220-270 | completed or failed exactly when the first line that ends the flow is a terminal one delivered with its blank line, disconnected exactly when it could not be delivered, interrupted exactly when the stream ran out; and what the client was sent in each case |
| Relay.FlowEndsOnce | internal/spend/gateway.go:225-265 | where the flow ends is determined by the stream and the write faults |
| VoiceSetup.ReadFields | internal/spend/voice.go:41-80 | accepted if and only if the form is one session description and one session object without file names, read to its end; the fields are those parts |
| VoiceSetup.CallID | internal/spend/voice.go:173-196 | the last part of the location's path that names a call, or nothing if none does |
| Multiplexer.StepKeepsShaped | internal/mux/mux.go:451-482 | every pending route stands under the id of the request it is for |
| Multiplexer.StepKeepsBalanced | internal/mux/mux.go:270-482 | every piece keeps the balance of answers given and owed, for every request |
| MultiplexerRuns.AnswersAreConserved | internal/mux/mux.go:451-482 | in every run: answers + route + goroutines owing one + robberies = 1 + late answers, and never both a route and such a goroutine |
| MultiplexerRuns.SettledAnswers | internal/mux/mux.go:451-482 | a settled request was answered exactly once if and only if it was overtaken as often as it was robbed |
| MultiplexerRuns.AnsweredExactlyOnce | internal/mux/mux.go:627-661 | with uninterrupted sends, answers + route + goroutines owing one = 1 across responses, expiry, retries and shutdown: never two of them |
| MultiplexerRuns.OvertakenSendAnswersTwice | internal/mux/mux.go:475-480 | a sweep between insertion and a failing send answers the request twice, from every such state |
| MultiplexerRuns.OvertakingHappens | internal/mux/mux.go:464-475 | such a state is reachable |
| LostRequests.RobbedRequestIsNeverAnswered | internal/mux/mux.go:475-480 | after a failing send under a reused id no continuation answers the newer request if and only if its own send is not under way |
| LostRequests.RobbingHappens | internal/mux/mux.go:451-482 | a run after which a request is never answered, whatever follows |
| LostRequests.DormantStaysSilent | internal/mux/mux.go:451-482 | a request no goroutine answers or is sending, and whose route is not taken, gets no further answer over any run |
| LostRequests.ShutdownIsComplete | internal/mux/mux.go:453-474 | once a shutdown has swept the table, every continuation keeps it empty if and only if no goroutine is between closing check and insertion |
| LostRequests.StrandedRequestIsNeverAnswered | internal/mux/mux.go:453-474 | otherwise that goroutine's request keeps its route and gets no answer, now that nothing takes routes from the table any more |
| LostRequests.StrandingHappens | internal/mux/mux.go:249-268 | a run of a shutdown that leaves a request behind like that |
| Failover.NoAccountIsTriedTwice | internal/mux/mux.go:740-769 | a request is never forwarded twice to one account |
| Failover.TriesAreBounded | internal/mux/mux.go:740-769 | over a fixed set of accounts it is forwarded at most once for each |
| Failover.RetriesShrink | internal/mux/mux.go:740-769 | a usage limit is retried exactly where spending is off and the chat can go on elsewhere, and every retry strictly shrinks what is left to try |
| FailoverEnds.FailoverEnds | internal/mux/mux.go:740-769 | over n accounts a request is taken further at most 5 n + 5 times; while it has weight left some piece takes it further without another choice, and with none left answers + robberies = 1 + late answers |
| FailoverEnds.ChainsEndInOneAnswer | internal/mux/mux.go:525-555 | with uninterrupted sends the weight is zero exactly when the request has its one answer |
| FailoverEnds.WeightNeverRises | internal/mux/mux.go:740-769 | no piece of anybody's raises a request's weight and every piece that takes it further lowers it |
| FailoverEnds.ExhaustedIsRefused | internal/mux/mux.go:382-408 | with every account excluded a retry only ends in a refusal |
| Failover.RunsStayFresh | internal/mux/mux.go:382-408 | what a goroutine or route excludes covers every account tried so far |
| RoutingRules.RetriedExactly | internal/mux/mux.go:640-661 | a response from the account asked leads to another choice with that account excluded if and only if it is a usage limit, spending is off and the chat can go on elsewhere, to the depleted failure if and only if the chat cannot be named, and is delivered otherwise |
| RoutingRules.SecondForwardsNeedLimits | internal/mux/mux.go:640-661 | over every run a request is forwarded again only with spending off, after a usage limit, and for a chat that can go on elsewhere |
| RoutingRules.OwnRequestsStayHere | internal/mux/mux.go:281-300 | no run forwards a request the router answers itself |
| RoutingRules.ArrivalsAreTakenUp | internal/mux/mux.go:270-300 | an arrival is refused with -32034 while closing; otherwise served here if it is the router's own, else routed |
| RoutingRules.ForwardedExactly | internal/mux/mux.go:451-482 | a request reaches its account, and is pending under its id with its deadline, if and only if the router is open, the app-server there and the id free; else it is answered with its kind of failure |
| RoutingRules.ChosenIsForwarded | internal/mux/mux.go:396-407 | the account chosen is the one forwarded to, and none already tried is chosen |
| RoutingRules.OwnerIsSkipped | internal/mux/mux.go:500-523 | a thread's owner without capacity is passed over, before the first try and with spending off |
| RoutingRules.SendsEnd | internal/mux/mux.go:475-481 | a failed send is answered with its request's kind of failure and clears its id, a successful one leaves the rest to the route |
| RoutingRules.RoutesEnd | internal/mux/mux.go:1251-1291 | a route expires exactly when its deadline has come, and goes at shutdown, with -32030 |
| RoutingRules.AnsweredAsDecided | internal/mux/mux.go:640-661 | a request is answered with what was decided for it, by the goroutine that owes the answer |
| RoutingRules.OnlyAppServersAnswer | internal/mux/mux.go:640-661 | over every run in which no app-server answers, the router serves nothing itself and refuses with errors, clients get errors only |
| Router.Router.HandleClient | internal/mux/mux.go:270-300 | a request is refused when closing and otherwise given a goroutine |
| Router.Router.CheckForward | internal/mux/mux.go:453-459 | forwarding fails when closing or when the account has no app-server |
| Router.Router.Register | internal/mux/mux.go:460-474 | a route is inserted unless the id is already pending |
| Router.Router.SendReturned | internal/mux/mux.go:475-481 | a failed send deletes what stands under the id and answers |
| Router.Router.HandleResponse | internal/mux/mux.go:629-661 | only the account the request went to may take its route, and another account is tried exactly on a usage limit with spending off for a chat that can go on |
| Router.Router.ExpireRoutes | internal/mux/mux.go:1251-1263 | exactly the overdue routes go and each is answered, in any map order |
| Router.Router.Close | internal/mux/mux.go:249-268 | from then on requests are refused, and every one pending at the sweep is answered, in any map order |
| ServerRequests.IdsAreDistinct | internal/mux/mux.go:778-780 | rewritten ids differ for different accounts or sequence numbers, whatever the accounts are called |
| ServerRequests.IdTellsBoth | internal/mux/mux.go:778-780 | account and number can be read back from the id |
| ServerRequests.NoIdIsReused | internal/mux/mux.go:778-780 | over a run no id is shown to the client twice |
| ServerRequests.AnsweredAtMostOnce | internal/mux/mux.go:1266-1304 | a request of an app-server that was taken up is answered once, or dropped with its app-server gone, or still waiting |
| ServerRequests.AnswersGoHome | internal/mux/mux.go:599-614 | an answer goes to the account that asked, under its original id |
| ServerRequests.SettledExactly | internal/mux/mux.go:599-614 | the client's answer under a pending id is passed on as it is; an overdue request, one found at shutdown and one that comes while closing are refused with -32031; nothing else settles any |
| ServerRequests.OnlyTheClientAnswers | internal/mux/mux.go:599-614 | over every run in which the client answers nothing all that app-servers get is refusals |
| ServerRequests.ShutdownIsComplete | internal/mux/mux.go:771-787 | once a shutdown has swept the table, every continuation keeps it empty if and only if no request is between check and registration |
| ServerRequests.StrandingHappens | internal/mux/mux.go:771-787 | a run of a shutdown that leaves a request registered and unanswered |
| ServerRequests.ServerTable.CheckForward | internal/mux/mux.go:771-777 | the request is refused when closing and otherwise in hand |
| ServerRequests.ServerTable.ForwardServerRequest | internal/mux/mux.go:778-790 | the request in hand is registered and shown under an id not in the table |
| ServerRequests.ServerTable.HandleClient | internal/mux/mux.go:270-280 | while closing the client's answer is refused and settles nothing |
| ServerRequests.ServerTable.HandleServerRequestResponse | internal/mux/mux.go:599-614 | a known id is taken from the table and answered, an unknown one ignored |
| ServerRequests.ServerTable.ExpireServerRoutes | internal/mux/mux.go:1266-1279 | exactly the overdue requests are refused |
| ServerRequests.ServerTable.Close | internal/mux/mux.go:1293-1304 | every request in the table is refused, in any map order, and the one in hand is still in hand |
| ThreadLocks.StepKeepsSound | internal/mux/mux.go:1158-1177 | every piece of lockThread keeps table, counts and holders consistent |
| ThreadLocks.MutualExclusion | internal/mux/mux.go:1158-1177 | two participants never hold one thread's lock at once |
| ThreadLocks.OneLockPerThread | internal/mux/mux.go:1158-1177 | all waiters and holders of a thread share the table's lock, refs is their number, and the entry is there exactly while there are any |
| ThreadLocks.WaitersCanGoOn | internal/mux/mux.go:1166-1168 | a waiter's mutex is free or held by a participant that can let it go |
| ThreadLocks.LockTable.Enter | internal/mux/mux.go:1159-1165 | finds or makes the thread's lock and counts the newcomer |
| ThreadLocks.LockTable.Lock | internal/mux/mux.go:1166-1166 | takes a free mutex |
| ThreadLocks.LockTable.Release | internal/mux/mux.go:1168-1168 | lets the mutex go |
| ThreadLocks.LockTable.Drop | internal/mux/mux.go:1169-1174 | drops the reference and the entry with the last one |
| ChildResponses.IdsAreDistinct | internal/backend/child.go:142-143 | ids of an app-server's requests are distinct |
| ChildResponses.IdTellsNumber | internal/backend/child.go:142-143 | the number can be read back from the id |
| ChildResponses.StepKeepsSound | internal/backend/child.go:141-169 | every piece of calling, reading, giving up and draining keeps the table consistent |
| ChildResponses.AtMostOneResponse | internal/backend/child.go:219-242 | a channel receives at most one response ever, and only one with its own id |
| ChildResponses.PushesNeverBlock | internal/backend/child.go:235-262 | neither the reader nor the drain ever pushes to a full channel |
| ChildResponses.DrainMakesProgress | internal/backend/child.go:249-261 | while the drain holds the mutex nothing is added and every entry can be drained at once |
| ChildResponses.ExitLeadsToDrain | internal/backend/child.go:249-262 | after an exit comes the drain, with nobody touched in between |
| ChildResponses.DrainedWasEmptied | internal/backend/child.go:249-262 | in every run a process is drained only once a drain has ended with nobody left in the table |
| ChildResponses.WaitersAreRemembered | internal/backend/child.go:152-168 | a waiting caller is in the table, in the reader's hand, or can return with the response in its channel |
| ChildResponses.ReturnedCallersAreForgotten | internal/backend/child.go:263-267 | a caller that has returned is not in the table |
| ChildResponses.ResponsesFindTheirCallers | internal/backend/child.go:219-242 | a response reaches the caller with its id and nobody else; one to an unknown id changes nothing |
| ChildResponses.FailedCallsEnd | internal/backend/child.go:148-168 | a caller whose send failed, or that gave up, returns without a response and leaves the table |
| ChildProcess.Child.Register | internal/backend/child.go:142-147 | a fresh id and an empty channel enter the table |
| ChildProcess.Child.Deliver | internal/backend/child.go:230-242 | an expected response leaves the table and lands in its own channel |
| ChildProcess.Child.RemovePending | internal/backend/child.go:263-267 | the caller's entry goes |
| ChildProcess.Child.Receive | internal/backend/child.go:153-160 | a caller takes the one response, with its own id |
| ChildProcess.Child.DrainPending | internal/backend/child.go:255-261 | every pending channel learns that the process is gone and the table is empty |
| Validation.ValidatePersistedState | internal/state/validation.go:148-236 | accepted if and only if acceptable, with the same accounts and owners |
| Validation.CheckAccounts | internal/state/validation.go:160-206 | the account loop with its two counters means unique ids, one primary and one controller |
| Validation.CountersMean | internal/state/validation.go:175-206 | counting one controller and one primary is having the primary as the only controller |
| Validation.CheckOwners | internal/state/validation.go:215-235 | no thread owner dangles and every thread id is valid |
| Validation.TrustedHomesDiffer | internal/state/validation.go:207-213 | accounts with different ids never share a home directory |
| Validation.AcceptableExactly | internal/state/validation.go:148-236 | what opening accepts, every limit written out: 1 to 64 accounts with plain ids that differ by more than case, clean labels, the primary as only controller, own homes, and clean thread ids of accounts that exist |
| JsonKeys.RejectDuplicateKeys | internal/state/validation.go:79-146 | a file passes exactly when it is one value in which no object, however deep, names a key twice |
| JsonKeys.WalkOfPrinted | internal/state/validation.go:82-134 | the walk gets over a printed value exactly when it has no duplicate key |
| JsonKeys.WalkedIsPrinted | internal/state/validation.go:82-134 | the walk accepts nothing else |
| JsonKeys.DocumentsPassIfUnique | internal/state/validation.go:79-146 | a document passes if and only if its keys are unique |
| JsonKeys.Decoder.WalkValue | internal/state/validation.go:82-134 | the recursive closure on the decoder's position is that walk |
| Store.Store.Add | internal/state/store.go:189-255 | adding an account, with what each failure leaves behind |
| Store.Store.Update | internal/state/store.go:257-294 | renaming and disabling, with Auto committed before a preferred account is disabled |
| Store.Store.SetOwners | internal/state/store.go:310-345 | assigning thread owners: all of them on success, every other thread as before, and nothing on failure |
| Store.Store.Remove | internal/state/store.go:351-429 | removing an account, with quarantine and rollback |
| Store.Store.SetMode | internal/state/routing_mode.go:56-75 | choosing the routing mode |
| Store.Store.SaveLocked | internal/state/store.go:441-455 | a save that fails leaves the old file |
| Store.Store.SaveRoutingModeLocked | internal/state/routing_mode.go:77-94 | the mode is changed in memory only once it is on disk |
| StoreResults.OwnersAreAssigned | internal/state/store.go:310-345 | on success each assigned thread belongs to the assigned account and every other one to the account it had, in memory and on disk; on failure nothing changes |
| StoreResults.OwnerErrors | internal/state/store.go:310-345 | assigning is refused exactly if a thread id is not clean or an account unknown, and fails exactly if a save was needed and failed |
| StoreResults.UpdateChangesOneAccount | internal/state/store.go:257-294 | an update changes the given fields of that account and nothing else, in memory and on disk, and gives up a preferred account for Auto exactly when it is disabled |
| StoreResults.UpdateErrors | internal/state/store.go:257-294 | each error of an update has its exact cause |
| StoreResults.RemoveDropsOneAccount | internal/state/store.go:351-429 | a removal drops the account, exactly its threads, and its directory; a failed one drops nothing, but for a rollback that cannot be saved; a preferred account is given up first |
| StoreResults.RemoveErrors | internal/state/store.go:351-429 | each error of a removal has its exact cause |
| StoreResults.ModeIsChosen | internal/state/routing_mode.go:56-94 | a chosen mode is the mode in memory and on disk exactly if it is well formed, names an enabled account where it names one, and is saved; otherwise nothing changes |
| StoreResults.AddAppendsOneAccount | internal/state/store.go:189-255 | an addition appends one enabled account under the identity drawn and the name typed, or a numbered one, in memory and on disk; a failed one leaves everything as it was |
| StoreResults.FirstFreeIsFirst | internal/state/store.go:199-212 | the identity drawn is the first not in use |
| StoreSafety.EveryDiskStateIsGood | internal/state/store.go:278-292 | at every disk state of a run with failing writes whose operations keep the store consistent, the routing mode names an enabled account and opening accepts the state with the same accounts, owners and mode |
| StoreSafety.RunIsConsistentExactly | internal/state/store.go:189-455 | a run keeps memory and disk consistent throughout if and only if every addition in it was refused or had room under a new id, and every committed removal could be finished or rolled back |
| StoreSafety.UpdateIsConsistent | internal/state/store.go:257-294 | updating keeps memory and disk in step |
| StoreSafety.RemoveIsConsistent | internal/state/store.go:351-429 | so does removing if and only if it did not commit, or could move the directory, or could save the rollback |
| StoreSafety.AddIsConsistent | internal/state/store.go:189-255 | so does adding if and only if it was refused, or the id was new when case is ignored and, if committed, there was room |
| StoreSafety.SetModeIsConsistent | internal/state/routing_mode.go:56-94 | so does choosing a mode |
| StoreSafety.AddReopensExactly | internal/state/store.go:189-255 | a committed addition reopens if and only if there was room and the id is new when case is ignored |
| StoreSafety.FailedRollbackBreaksSafety | internal/state/store.go:422-429 | after a rollback that could not be saved, choosing the lost account breaks crash safety |
| StoreSafety.Open | internal/state/routing_mode.go:96-153 | opening validates, keeps accounts, owners and a sound preference, and replaces one for a missing or disabled account by Auto; each error has its exact cause |
| StoreSafety.OpenedIsConsistent | internal/state/store.go:48-131 | a store opened on a good disk is consistent: a crash loses nothing committed |
| StoreSafety.FirstStartIsConsistent | internal/state/store.go:48-131 | so is the first start |
| ThreadList.SelectionIsSound | internal/mux/thread_list.go:127-155 | a thread's owner reported it; it is the persisted owner if that still reports it, else one no other beats |
| ThreadList.SortIsStrict | internal/mux/mux.go:1440-1449 | sorting distinct threads gives a strictly sorted list of the same threads |
| ThreadList.StrictlySortedIsUnique | internal/mux/mux.go:1440-1449 | there is only one such list |
| ThreadList.MergeIsDeterministic | internal/mux/thread_list.go:113-161 | whatever order the names are visited in, merging then sorting gives the same list |
| ThreadList.MergedContents | internal/mux/thread_list.go:113-161 | the list is sorted, has every named thread once, as chosen, and every anonymous one as often as reported |
| ThreadList.NewestFirst | internal/mux/mux.go:1440-1449 | the list starts with the newest thread, by update or else creation, and threads of one time are in the order of their names |
| ThreadList.ShownAsOwned | internal/mux/thread_list.go:127-158 | a thread is shown as its persisted owner first reports it, if that account reports it, else as it was reported newest, by the first account on a tie |
| ThreadList.OwnerIsShown | internal/mux/thread_list.go:127-158 | the owner kept for each reported name is the account whose report is shown |
| ThreadList.ReportedExactly | internal/mux/thread_list.go:113-126 | the candidates are exactly what the accounts reported |
| ThreadList.SortIsStable | internal/mux/mux.go:1440-1449 | threads that compare equal stay in the order they were reported in |
| ThreadList.CollectByID | internal/mux/thread_list.go:113-126 | the candidates of each name, and the anonymous threads, in order |
| ThreadList.SelectCandidate | internal/mux/thread_list.go:127-155 | the two loops over one thread's candidates make that selection |
| ThreadList.MergeThreads | internal/mux/thread_list.go:113-161 | the merge over an arbitrary visiting order, with the owners |
| ThreadList.SortThreads | internal/mux/mux.go:1440-1449 | the stable sort by time then identity |
| ThreadList.MergeAndSort | internal/mux/thread_list.go:86-92 | the list served is a function of what was reported |
| Paging.LimitOf | internal/mux/thread_list.go:206-229 | the limit is always between 1 and 500 |
| Paging.LimitExactly | internal/mux/thread_list.go:206-229 | the limit is the one asked for without its fraction, between 1 and 500, or 20 when none is asked for that makes sense |
| Paging.OffsetExactly | internal/mux/thread_list.go:206-229 | a page starts at this positive offset if and only if its cursor is the router's and spells it, within 64 bits |
| Paging.PageExactly | internal/mux/thread_list.go:93-104 | a page is as many threads from its offset as its limit allows and there are, with a cursor exactly if more follow |
| Paging.CursorRoundTrip | internal/mux/thread_list.go:93-103 | a printed cursor is read back as its offset |
| Paging.PageAdvances | internal/mux/thread_list.go:93-104 | a page hands out no cursor and is the last, or hands out one further on and is full |
| Paging.PagingIsComplete | internal/mux/thread_list.go:93-104 | following the cursors ends and the pages put together are the list, whatever limits are asked |
| Paging.PagesFitTheirLimits | internal/mux/thread_list.go:93-104 | every page keeps its request's limit |
| Paging.ListAllThreads | internal/mux/thread_list.go:163-204 | never the same cursor twice nor too many pages, and success exactly at a page without a cursor |
| Paging.DataInOrder | internal/mux/thread_list.go:163-204 | what the pages list is put together in the order of the pages |
| EventStream.CutInTwo | ui/account-menu.js:305-316 | cutting complete lines from a first part and then the rest is cutting the whole |
| EventStream.ChunksDoNotMatter | ui/account-menu.js:242-338 | for every split into chunks the reader makes the calls of interpreting the whole text at once |
| EventStream.LineLimitIsExact | ui/account-menu.js:328-328 | reading succeeds for every split if and only if every line fits the limit |
| EventStream.OneLineFits | ui/account-menu.js:328-328 | the limit is 262144 bytes, a closing CR included |
| EventReader.Reader.DispatchEvent | ui/account-menu.js:259-272 | dispatching hands over the joined data and clears it |
| EventReader.Reader.InterpretLine | ui/account-menu.js:274-303 | one line's effect on the event under way |
| EventReader.Reader.ConsumeCompleteLines | ui/account-menu.js:305-316 | all complete lines are interpreted and the rest is kept |
| EventReader.Reader.Chunk | ui/account-menu.js:319-331 | one turn of the reading loop, with the byte order mark and the two limits |
| EventReader.ReadEventStream | ui/account-menu.js:242-338 | the reading loop over all chunks and the flushed tail |
| EventStandard.LinesAreTheStandards | ui/account-menu.js:305-316 | the lines cut are those of section 9.2.5 of the WHATWG HTML Standard, read character by character |
| EventStandard.ReaderRefinesStandard | ui/account-menu.js:242-338 | over any chunking the reader delivers exactly the message events, last event ID and reconnection times of section 9.2.6, or gives up exactly when an event's data is too large |
| EventWriter.WriteEvents | internal/control/server.go:355-389 | the greeting and one frame for each encoded event |
| EventWriter.WriterReaderRoundTrip | internal/control/server.go:374-386 | under any chunking the reader gets back exactly the payloads written, in order |
| Config.FilterLines | internal/state/config.go:77-109 | the line loop keeps exactly the lines that pass in their section |
| Config.AllKept | internal/state/config.go:77-91 | lines that all pass are copied as they are, with a line end after the last |
| Config.IsolatedHome.Sync | internal/state/config.go:19-67 | the file becomes the synchronised text and is written only when it differs |
| Config.ProjectsArePreserved | internal/state/config.go:46-66 | one synchronisation keeps the project block, whatever the primary file holds |
| Config.ProjectsSurviveEverySync | internal/state/config.go:46-113 | so does every sequence of them, from any primary files |
| Config.SyncReachesFixpoint | internal/state/config.go:46-66 | synchronising twice from one primary file changes nothing |
| Config.LastPrimaryWins | internal/state/config.go:46-66 | the result depends on the last primary file and the project block only |
| Config.OnlyFixedCredentials | internal/state/config.go:93-109 | past the two fixed lines no recognised line says where credentials are stored |
| ConfigSections.ProjectLinesStay | internal/state/config.go:46-113 | under a header that is projects or begins with projects. stands in the synchronised file exactly what stood there in the isolated one |
| ConfigSections.SharedLinesFollow | internal/state/config.go:46-113 | under any other header stands exactly what stands there in the primary file |
| ConfigSections.TopLinesFollow | internal/state/config.go:46-113 | above every header stand the two fixed settings and those of the primary file that are no credential settings |
| ConfigSettings.OneSpaceIsRecognised | internal/state/config.go:93-109 | an assignment of a credential key is recognised if and only if the white space before its equals sign is one space |
| ConfigSettings.ManagedSettings | internal/state/config.go:77-109 | a top-level setting is passed on if and only if the primary file has it and it is not recognised |
| ConfigSettings.SyncedSettings | internal/state/config.go:46-66 | the isolated file has exactly the top-level settings passed on and the two fixed ones, whatever its project block |
| ConfigSettings.SettingIsReplacedExactly | internal/state/config.go:46-109 | a credential setting of the primary file gets into the isolated one if and only if the white space before its equals sign is not one space, or it reads like a fixed line |
| ConfigSettings.SettingIsKeptTwice | internal/state/config.go:46-109 | so one without any space stands in the isolated file beside the fixed one |
| Profile.MergingConserves | internal/mux/combined_profile.go:243-245 | merging by date moves tokens together and loses none |
| Profile.UsageIsConserved | internal/mux/combined_profile.go:264-297 | daily tokens sum to the inputs', the last cumulative bucket is that sum, and each weekly bucket is its seven days |
| Profile.FoldDates | internal/mux/combined_profile.go:269-288 | the loop over the dates: daily buckets, prefix sums, peak and weeks |
| Profile.AggregateUsage | internal/mux/combined_profile.go:218-297 | the calendar part of the merged statistics is as described, over any map order |
| Profile.MergedStreaks | internal/mux/combined_profile.go:312-344 | the current streak counts back from today or yesterday; longest is the longest run not crossing the zero day |
| Profile.LongestIsLongest | internal/mux/combined_profile.go:316-331 | the reported longest streak is the longest there is if and only if the block of active days through the first two days of year one, if any, is matched by another |
| Profile.CurrentAtMostLongest | internal/mux/combined_profile.go:332-343 | the current streak is at most the longest if and only if it starts after the zero day, or goes on after its anchor by as many days as it has up to the zero day, or is matched elsewhere |
| Profile.OneStretchFails | internal/mux/combined_profile.go:316-343 | on one unbroken stretch through the first two days of year one that ends today both promises fail |
| Profile.YearOneIsMiscounted | internal/mux/combined_profile.go:323-324 | on the dates 0001-01-01 and 0001-01-02 the longest streak is reported as one day, and the current one as two |
| Text.AtoiReadsDecimal | internal/mux/thread_list.go:206-229 | printing and parsing a decimal number round-trips within 64 bits |
| Text.AtoiExactly | internal/mux/thread_list.go:206-229 | a string is read as a number if and only if it spells it in decimal, with zeros or a sign before it or not, and the number fits 64 bits |

## Left out

- Urgency.ChooseAccountExcluding: says who may be chosen, not who is chosen among several; the ranking compares with tolerances, is not transitive, and so is not an order.
- Urgency.UrgencyIsPositive: over real arithmetic; rounding and the checks for NaN and infinities are not modelled.
- Apportionment.ReservationsAreBalanced: over real scores; with floats two nearly equal scores may compare as equal or reversed.
- SpendPolicy.Policy.Reserve: sequence and revision numbers are unbounded; the source's 64-bit wrap-around is not modelled.
- SpendPolicy.SortCandidates: stands for the library sort; the order it gives to candidates that compare equal is unspecified there and there are none.
- GatewayRuns.SpendsAtMostOnce: handlers start once their request is validated; token checks, path and header checks and the request body limit come before and have no effects on the policy. A handler killed by a panic is not modelled.
- Gateway.AdvanceKeepsTold: a record's duration and its thread, turn and subagent attribution are left out.
- Relay.RelayStream: a failed write is taken to deliver none of its line; the 32 MiB line limit of the scanner is one of its errors.
- VoiceSetup.ReadFields: multipart parsing and JSON decoding are parameters; the length of the form is bounded by the transport.
- MultiplexerRuns.AnswersAreConserved: a request left behind by a shutdown counts as still in the table.
- FailoverEnds.FailoverEnds: says that a piece is there to take a request further, not that the scheduler gets to it; a sweep counts as such a piece, which after a shutdown no longer comes.
- LostRequests.StrandedRequestIsNeverAnswered: that the loops which take routes stop at shutdown is its assumption on the run; cancelling their context is not modelled.
- Router.Router.Close: the children are stopped elsewhere; what an app-server still answers while closing is an ordinary response.
- Multiplexer.StepKeepsBalanced: choosing an account, resuming a chat on it and recording its owner are one step that succeeds or is refused.
- ServerRequests.ServerTable.HandleClient: reads the flag and handles the answer in one call; in the runs a shutdown may come between.
- ServerRequests.AnsweredAtMostOnce: ids are compared as decoded strings; a client that spells an id with other escapes is taken not to know it.
- ChildProcess.Child.Deliver: takes and pushes in one call; the two pieces and what may come between them are in ChildResponses.
- StoreSafety.EveryDiskStateIsGood: a private write either replaces the file or leaves it, as on Windows, where the file is replaced in one call; for the runs of RunIsConsistentExactly, which leaves no others.
- EventReader.Reader.InterpretLine: a reconnection time is kept as the number its digits spell; that JavaScript rounds one beyond 2^53 is not modelled.
- EventReader.Reader.Chunk: works on decoded text; decoding bytes, aborting and the response's headers are not modelled.
- Profile.AggregateUsage: days and weeks only; lifetime totals, invocations, reasoning and fast-mode percentages are left out.
- Profile.CurrentAtMostLongest: for a today between the second day of year one and the end of year 9999.
- Config.IsolatedHome.Sync: recognises lines as the source does; a header followed by a comment, or a quoted key, is not the header TOML sees.
- Catalog requests, notifications, thread-list fan-out to the accounts, event subscriptions, restarts of app-servers and the login flow: sequential plumbing or timers around what is modelled.
- The expiry ticker, request timeouts and contexts: an expiry, a deadline or a cancellation may happen at any moment instead.
- Access control lists, process supervision, path canonicalisation and other foreign calls: not part of this model.
- Desktop patching scripts, user interface components and release documents: not part of this model.
